/** Comma normalisation of operand and initial-value lists:
    `', '.join(re.split(', ?', s))` (asm_fixer.py, lines 205 and 209).
    Every comma, with at most one space after it, becomes a comma and
    exactly one space. */
module Commas {
  import opened Text

  predicate CommaFree(p: string)
  {
    forall k :: 0 <= k < |p| ==> p[k] != ','
  }

  /** What follows the comma at c once the one optional space after it is
      dropped. */
  function AfterComma(s: string, c: nat): (r: string)
    requires c < |s|
    ensures |r| < |s| - c
  {
    var rest := s[c + 1..];
    if |rest| > 0 && rest[0] == ' ' then rest[1..] else rest
  }

  /** `re.split(', ?', s)`: cut at every comma, dropping the comma and one
      space right after it when there is one. */
  function Split(s: string): (parts: seq<string>)
    ensures |parts| >= 1
    ensures forall i :: 0 <= i < |parts| ==> CommaFree(parts[i])
    decreases |s|
  {
    var c := Find(s, ',');
    if c < 0 then [s]
    else
      [s[..c]] + Split(AfterComma(s, c))
  }

  /** `', '.join(parts)`. */
  function Join(parts: seq<string>): string
  {
    if |parts| == 0 then ""
    else if |parts| == 1 then parts[0]
    else parts[0] + ", " + Join(parts[1..])
  }

  function Normalize(s: string): string
  {
    Join(Split(s))
  }

  /** Splitting a join gives the parts back, whatever spaces they start
      with, as long as none of them holds a comma. */
  lemma {:induction false} SplitJoin(parts: seq<string>)
    requires |parts| >= 1
    requires forall i :: 0 <= i < |parts| ==> CommaFree(parts[i])
    ensures Split(Join(parts)) == parts
  {
    if |parts| > 1 {
      var tail := parts[1..];
      assert Join(parts) == parts[0] + ", " + Join(tail);
      SplitFirst(parts[0], Join(tail));
      SplitJoin(tail);
      assert parts == [parts[0]] + tail;
    } else {
      SplitWhole(parts[0]);
    }
  }

  /** A comma-free text is not cut. */
  lemma SplitWhole(p: string)
    requires CommaFree(p)
    ensures Split(p) == [p]
  {
    assert Find(p, ',') < 0;
  }

  /** A comma-free piece, a comma and a space, then anything: the split
      cuts after the piece and goes on with the rest. */
  lemma SplitFirst(p: string, tail: string)
    requires CommaFree(p)
    ensures Split(p + ", " + tail) == [p] + Split(tail)
  {
    var s := p + ", " + tail;
    assert s[|p|] == ',';
    assert Find(s, ',') == |p| by {
      assert forall k :: 0 <= k < |p| ==> s[k] == p[k];
    }
    assert s[|p| + 1..] == " " + tail;
    assert (" " + tail)[1..] == tail;
    assert s[..|p|] == p;
  }

  /** The number of commas is one less than the number of parts. */
  lemma {:induction false} SplitCount(s: string)
    ensures Count(s, ',') == |Split(s)| - 1
    decreases |s|
  {
    var c := Find(s, ',');
    if c < 0 {
      CountAbsent(s, ',');
    } else {
      var rest := s[c + 1..];
      var after := AfterComma(s, c);
      assert s == s[..c] + [','] + rest;
      CountAppend(s[..c] + [','], rest, ',');
      CountAppend(s[..c], [','], ',');
      CountAbsent(s[..c], ',');
      if |rest| > 0 && rest[0] == ' ' {
        assert rest == [' '] + after;
        CountAppend([' '], after, ',');
      }
      SplitCount(after);
    }
  }

  /** Joining comma-free parts gives one comma per separator. */
  lemma {:induction false} JoinCount(parts: seq<string>)
    requires |parts| >= 1
    requires forall i :: 0 <= i < |parts| ==> CommaFree(parts[i])
    ensures Count(Join(parts), ',') == |parts| - 1
  {
    if |parts| == 1 {
      CountAbsent(parts[0], ',');
    } else {
      CountAbsent(parts[0], ',');
      JoinCount(parts[1..]);
      CountAppend(parts[0] + ", ", Join(parts[1..]), ',');
      CountAppend(parts[0], ", ", ',');
    }
  }

  /** Every comma of a join of comma-free parts is followed by a space. */
  lemma {:induction false} JoinSpaced(parts: seq<string>)
    requires forall i :: 0 <= i < |parts| ==> CommaFree(parts[i])
    ensures forall k :: 0 <= k < |Join(parts)| && Join(parts)[k] == ',' ==>
      k + 1 < |Join(parts)| && Join(parts)[k + 1] == ' '
  {
    if |parts| > 1 {
      JoinSpaced(parts[1..]);
      var p := parts[0];
      var tail := Join(parts[1..]);
      var s := p + ", " + tail;
      forall k | 0 <= k < |s| && s[k] == ','
        ensures k + 1 < |s| && s[k + 1] == ' '
      {
        if k >= |p| + 2 {
          assert s[k] == tail[k - |p| - 2];
          assert s[k + 1] == tail[k + 1 - |p| - 2];
        }
      }
    }
  }

  /** Normalising keeps the number of commas, leaves a space after every
      comma, and a second normalisation changes nothing. */
  lemma NormalizeProperties(s: string)
    ensures Count(Normalize(s), ',') == Count(s, ',')
    ensures forall k :: 0 <= k < |Normalize(s)| && Normalize(s)[k] == ',' ==>
      k + 1 < |Normalize(s)| && Normalize(s)[k + 1] == ' '
    ensures Normalize(Normalize(s)) == Normalize(s)
  {
    SplitCount(s);
    JoinCount(Split(s));
    JoinSpaced(Split(s));
    SplitJoin(Split(s));
  }

  /** The same rewrite, read one character at a time: a comma and the
      single space after it, if any, become `, `; every other character is
      copied. */
  function SpaceAfterCommas(s: string): string
    decreases |s|
  {
    if |s| == 0 then ""
    else if s[0] == ',' then
      ", " + SpaceAfterCommas(AfterComma(s, 0))
    else
      [s[0]] + SpaceAfterCommas(s[1..])
  }

  /** Text before the first comma is copied unchanged. */
  lemma {:induction false} SpaceAfterCommasCopies(p: string, t: string)
    requires CommaFree(p)
    ensures SpaceAfterCommas(p + t) == p + SpaceAfterCommas(t)
    decreases |p|
  {
    if |p| > 0 {
      var s := p + t;
      assert s[0] == p[0] && s[1..] == p[1..] + t;
      SpaceAfterCommasCopies(p[1..], t);
      assert p == [p[0]] + p[1..];
    } else {
      assert p + t == t;
    }
  }

  /** Splitting and joining is exactly the one-character-at-a-time
      rewrite: no text other than the spaces after commas is added, lost or
      moved. */
  lemma {:induction false} NormalizeIsSpaceAfterCommas(s: string)
    ensures Normalize(s) == SpaceAfterCommas(s)
    decreases |s|
  {
    var c := Find(s, ',');
    if c < 0 {
      assert Normalize(s) == s;
      SpaceAfterCommasCopies(s, "");
      assert s + "" == s;
    } else {
      NormalizeAtComma(s, c);
      SpaceAfterCommasAtComma(s, c);
      NormalizeIsSpaceAfterCommas(AfterComma(s, c));
    }
  }

  /** Normalising a text with a first comma at c: the text before it, `, `,
      then the normalised rest. */
  lemma NormalizeAtComma(s: string, c: nat)
    requires c == Find(s, ',') && c < |s|
    ensures Normalize(s) == s[..c] + ", " + Normalize(AfterComma(s, c))
  {
    var parts := Split(s);
    assert parts == [s[..c]] + Split(AfterComma(s, c));
    assert parts[1..] == Split(AfterComma(s, c));
  }

  /** The character rewrite of a text with a first comma at c. */
  lemma SpaceAfterCommasAtComma(s: string, c: nat)
    requires c == Find(s, ',') && c < |s|
    ensures SpaceAfterCommas(s) == s[..c] + ", " + SpaceAfterCommas(AfterComma(s, c))
  {
    var p, t := s[..c], s[c..];
    assert s == p + t;
    assert CommaFree(p);
    SpaceAfterCommasCopies(p, t);
    assert t[0] == ',' && t[1..] == s[c + 1..];
    assert AfterComma(t, 0) == AfterComma(s, c);
    assert SpaceAfterCommas(t) == ", " + SpaceAfterCommas(AfterComma(t, 0));
  }

  /** A list that already has exactly one space after each comma, and no
      space-comma mix to repair, is left as it is. */
  lemma NormalizeFixesJoined(parts: seq<string>)
    requires |parts| >= 1
    requires forall i :: 0 <= i < |parts| ==> CommaFree(parts[i])
    ensures Normalize(Join(parts)) == Join(parts)
  {
    SplitJoin(parts);
  }
}
