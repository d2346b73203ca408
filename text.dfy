/** The handful of Python `str` operations the formatter relies on, with
    Python's semantics written out: padding (`ljust`, `rjust`, `' ' * n`),
    whitespace stripping (`strip`, `rstrip`, as defined by `str.isspace`),
    searching (`find`, `rfind`), slicing with possibly negative bounds, and
    ASCII case conversion. */
module Text {

  function Max(a: int, b: int): int
  {
    if a < b then b else a
  }

  /** `str.isspace()` for one character: the characters `strip` removes. */
  predicate IsSpace(c: char)
  {
    || ('\t' <= c <= '\r')
    || ('\U{1C}' <= c <= '\U{1F}')
    || c == ' '
    || c == '\U{85}'
    || c == '\U{A0}'
    || c == '\U{1680}'
    || ('\U{2000}' <= c <= '\U{200A}')
    || c == '\U{2028}'
    || c == '\U{2029}'
    || c == '\U{202F}'
    || c == '\U{205F}'
    || c == '\U{3000}'
  }

  /** `' ' * n`: empty for n <= 0. */
  function Spaces(n: int): (r: string)
    ensures |r| == Max(n, 0)
    ensures forall k :: 0 <= k < |r| ==> r[k] == ' '
  {
    if n <= 0 then "" else seq(n, _ => ' ')
  }

  /** `s.ljust(n)`: pad on the right with spaces up to n characters. */
  function LJust(s: string, n: int): (r: string)
    ensures |r| == Max(n, |s|)
  {
    if |s| >= n then s else s + Spaces(n - |s|)
  }

  /** `ljust` keeps the text in front and pads with spaces only. */
  lemma LJustPads(s: string, n: int)
    ensures var r := LJust(s, n);
      |r| == Max(n, |s|) && r[..|s|] == s && forall k :: |s| <= k < |r| ==> r[k] == ' '
  {
  }

  /** `s.rjust(n)`: pad on the left with spaces up to n characters. */
  function RJust(s: string, n: int): (r: string)
    ensures |r| == Max(n, |s|)
  {
    if |s| >= n then s else Spaces(n - |s|) + s
  }

  /** `rjust` keeps the text at the end and pads with spaces only. */
  lemma RJustPads(s: string, n: int)
    ensures var r := RJust(s, n);
      |r| == Max(n, |s|) && r[|r| - |s|..] == s && forall k :: 0 <= k < |r| - |s| ==> r[k] == ' '
  {
  }

  /** `s.lstrip()`. */
  function LStrip(s: string): string
  {
    if |s| > 0 && IsSpace(s[0]) then LStrip(s[1..]) else s
  }

  /** `lstrip` removes exactly the leading whitespace: what is left is a
      suffix that is empty or starts with a visible character. */
  lemma {:induction false} LStripShape(s: string)
    ensures var r := LStrip(s);
      |r| <= |s| && r == s[|s| - |r|..]
      && (forall k :: 0 <= k < |s| - |r| ==> IsSpace(s[k]))
      && (r == [] || !IsSpace(r[0]))
  {
    if |s| > 0 && IsSpace(s[0]) {
      LStripShape(s[1..]);
    }
  }

  /** `s.rstrip()`. */
  function RStrip(s: string): string
  {
    if |s| > 0 && IsSpace(s[|s| - 1]) then RStrip(s[..|s| - 1]) else s
  }

  /** `rstrip` removes exactly the trailing whitespace: what is left is a
      prefix that is empty or ends with a visible character. */
  lemma {:induction false} RStripShape(s: string)
    ensures var r := RStrip(s);
      |r| <= |s| && r == s[..|r|]
      && (forall k :: |r| <= k < |s| ==> IsSpace(s[k]))
      && (r == [] || !IsSpace(r[|r| - 1]))
  {
    if |s| > 0 && IsSpace(s[|s| - 1]) {
      RStripShape(s[..|s| - 1]);
    }
  }

  /** `s.strip()`. */
  function Strip(s: string): string
  {
    RStrip(LStrip(s))
  }

  /** `t` is `core` with whitespace only around it, and `core` neither
      starts nor ends with whitespace: `t.strip() == core`, stated without
      `strip`. */
  ghost predicate Padded(t: string, core: string)
  {
    exists i :: Surrounds(t, core, i)
  }

  /** `core` sits in `t` at i, with whitespace only before and after it. */
  ghost predicate Surrounds(t: string, core: string, i: nat)
  {
    i + |core| <= |t| && t[i..i + |core|] == core
    && (forall k :: 0 <= k < i ==> IsSpace(t[k]))
    && (forall k :: i + |core| <= k < |t| ==> IsSpace(t[k]))
    && (core == [] || (!IsSpace(core[0]) && !IsSpace(core[|core| - 1])))
  }

  /** `strip` removes exactly the whitespace around the text. */
  lemma StripPadded(s: string)
    ensures Padded(s, Strip(s))
  {
    var l := LStrip(s);
    LStripShape(s);
    RStripShape(l);
    var r := RStrip(l);
    var i := |s| - |l|;
    assert r == l[..|r|];
    assert s[i..i + |r|] == r;
    if r != [] {
      assert r[0] == l[0];
    }
    assert Surrounds(s, r, i);
  }

  /** A stripped text sits in its input: every character of it is a
      character of the input, at an index shifted by the same amount. */
  lemma StripWithin(s: string) returns (i: nat)
    ensures i + |Strip(s)| <= |s| && s[i..i + |Strip(s)|] == Strip(s)
  {
    StripPadded(s);
    i :| Surrounds(s, Strip(s), i);
  }

  /** A run that starts with a visible character and ends with one, or
      with a single space after one, loses only that space to `strip`. */
  lemma StripTrailingSpace(t: string)
    requires |t| > 0 && !IsSpace(t[0])
    requires !IsSpace(t[|t| - 1]) || (|t| >= 2 && t[|t| - 1] == ' ' && !IsSpace(t[|t| - 2]))
    ensures Strip(t) == if t[|t| - 1] == ' ' then t[..|t| - 1] else t
  {
    assert LStrip(t) == t;
    if t[|t| - 1] == ' ' {
      assert t[..|t| - 1][..|t| - 2] == t[..|t| - 2];
      assert RStrip(t[..|t| - 1]) == t[..|t| - 1];
    }
  }

  predicate StartsWith(s: string, p: string)
  {
    |p| <= |s| && s[..|p|] == p
  }

  /** `s.find(c)`: the first index of c, or -1. */
  function Find(s: string, c: char): (r: int)
    ensures -1 <= r < |s|
    ensures r >= 0 ==> s[r] == c
    ensures forall k :: 0 <= k < |s| && (r < 0 || k < r) ==> s[k] != c
  {
    if |s| == 0 then -1
    else if s[0] == c then 0
    else var r := Find(s[1..], c); if r < 0 then -1 else r + 1
  }

  /** `s.rfind(c, 0, end)`: the last index below `end` holding c, or -1. */
  function RFind(s: string, c: char, end: nat): (r: int)
    ensures -1 <= r < |s| && r < end
    ensures r >= 0 ==> s[r] == c
    ensures forall k :: r < k < |s| && k < end ==> s[k] != c
    decreases end
  {
    if end == 0 then -1
    else if end - 1 < |s| && s[end - 1] == c then end - 1
    else RFind(s, c, end - 1)
  }

  /** `s[:k]`: a negative k counts from the end. */
  function Take(s: string, k: int): string
  {
    if k < 0 then s[..Max(|s| + k, 0)]
    else if k < |s| then s[..k]
    else s
  }

  /** `s[k:]` for k >= 0. */
  function Drop(s: string, k: nat): string
  {
    if k < |s| then s[k..] else ""
  }

  /** Cutting a line longer than `width` at the last space before `width`,
      when there is one: `line[:space]`, the space, `line[space + 1:]`. */
  lemma CutAtLastSpace(line: string, width: nat)
    requires |line| > width
    requires exists k :: 0 <= k < width && line[k] == ' '
    ensures var space := RFind(line, ' ', width);
      0 <= space < width && line[space] == ' '
      && (forall k :: space < k < width ==> line[k] != ' ')
      && Take(line, space) == line[..space] && Drop(line, space + 1) == line[space + 1..]
  {
    var space := RFind(line, ' ', width);
    var k :| 0 <= k < width && line[k] == ' ';
    assert space >= 0;
  }

  predicate IsUpperAscii(c: char) { 'A' <= c <= 'Z' }

  predicate IsLowerAscii(c: char) { 'a' <= c <= 'z' }

  function LowerChar(c: char): char
  {
    if IsUpperAscii(c) then (c as int + 32) as char else c
  }

  function UpperChar(c: char): char
  {
    if IsLowerAscii(c) then (c as int - 32) as char else c
  }

  /** `s.lower()` on the ASCII text the patterns let through. */
  function Lower(s: string): (r: string)
    ensures |r| == |s|
    ensures forall k :: 0 <= k < |s| ==> r[k] == LowerChar(s[k])
  {
    seq(|s|, k requires 0 <= k < |s| => LowerChar(s[k]))
  }

  /** `s.upper()` on the ASCII text the patterns let through. */
  function Upper(s: string): (r: string)
    ensures |r| == |s|
    ensures forall k :: 0 <= k < |s| ==> r[k] == UpperChar(s[k])
  {
    seq(|s|, k requires 0 <= k < |s| => UpperChar(s[k]))
  }

  /** Number of occurrences of c in s. */
  function Count(s: string, c: char): nat
  {
    if |s| == 0 then 0 else (if s[0] == c then 1 else 0) + Count(s[1..], c)
  }

  lemma {:induction false} CountAppend(a: string, b: string, c: char)
    ensures Count(a + b, c) == Count(a, c) + Count(b, c)
  {
    if |a| == 0 {
      assert a + b == b;
    } else {
      assert (a + b)[1..] == a[1..] + b;
      CountAppend(a[1..], b, c);
    }
  }

  lemma {:induction false} CountAbsent(s: string, c: char)
    requires forall k :: 0 <= k < |s| ==> s[k] != c
    ensures Count(s, c) == 0
  {
    if |s| > 0 {
      CountAbsent(s[1..], c);
    }
  }

  lemma {:induction false} RStripKeepsLast(a: string, c: char, b: string)
    requires !IsSpace(c)
    ensures |RStrip(a + [c] + b)| > |a|
    ensures RStrip(a + [c] + b)[..|a| + 1] == a + [c]
  {
    var s := a + [c] + b;
    assert s[|a|] == c;
    RStripShape(s);
  }
}
