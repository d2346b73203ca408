/** Stage one of the formatter: every physical line becomes exactly one
    token, chosen by the first of nine tests that passes (asm_fixer.py,
    lines 100-178). */
module Classifier {
  import opened Text
  import opened Wrappers
  import opened Options
  import opened Patterns

  /** The token records of the source. `text` is the source's `value` of
      the comment and error records; `name` is a data or procedure label;
      `directive` is a data line's size keyword. `ToRemove` is the type
      the aggregation pass gives to a merged or collapsed line. */
  datatype Token =
    | BlankLine
    | Extension(text: string)
    | Header(field: string, text: string)
    | FullLine(text: string)
    | Directive(value: string, comment: Option<string>)
    | Data(name: string, directive: string, value: string, comment: Option<string>)
    | Procedure(name: string, kind: ProcKind, comment: Option<string>)
    | Instruction(mnemonic: string, operands: Option<string>, comment: Option<string>)
    | Error(text: string)
    | ToRemove
  {
    predicate IsComment()
    {
      Extension? || Header? || FullLine?
    }

    /** The records that carry a trailing `comment` entry. */
    predicate HasCommentSlot()
    {
      Directive? || Data? || Procedure? || Instruction?
    }
  }

  /** A token and the line's original indentation, tabs expanded; the
      indentation is attached only when structural re-indentation is off. */
  datatype Line = Line(token: Token, indent: Option<string>)

  /** Every test before the directive test fails: the line is not blank,
      not a header comment and does not start with `;`. */
  predicate ReachesDirective(s: string)
  {
    |s| > 0 && !StartsWith(s, ";") && !IsHeaderComment(s) && IsDirectiveLine(s)
  }

  /** Lines the source can classify: a line that reaches the directive
      branch must match the directive value pattern, or the source stops
      on `None.group`. */
  predicate Classifiable(s: string)
  {
    ReachesDirective(s) ==> HasDirectiveValue(s)
  }

  /** The token for one stripped line: the first test that passes wins. */
  function Classify(s: string): Token
    requires Classifiable(s)
  {
    if |s| == 0 then
      BlankLine
    else if StartsWith(s, ";  ") then
      Extension(Strip(s[1..]))
    else if IsHeaderComment(s) then
      HeaderHasColon(s);
      HeaderToken(s, Find(s, ':'))
    else if StartsWith(s, ";") then
      FullLine(Strip(s[1..]))
    else
      CodeToken(s)
  }

  /** Lines 120-125 with `colon` the first colon of the line: the field is
      `line[1:colon]` and the value `line[colon + 1:]`, both stripped. A
      header comment always holds a colon, so the slices are plain ones. */
  function HeaderToken(s: string, colon: nat): Token
    requires colon < |s|
  {
    Header(Strip(if colon <= 1 then "" else s[1..colon]), Strip(s[colon + 1..]))
  }

  /** The tests after the comment tests (lines 133-174). */
  function CodeToken(s: string): Token
    requires IsDirectiveLine(s) ==> HasDirectiveValue(s)
  {
    if IsDirectiveLine(s) then
      Directive(DirectiveValue(s), TrailingComment(s))
    else if MatchData(s).Some? then
      var m := MatchData(s).value;
      Data(m.name, m.size, m.values, TrailingComment(s))
    else if MatchProcedure(s).Some? then
      var m := MatchProcedure(s).value;
      Procedure(m.name, m.kind, TrailingComment(s))
    else if MatchInstruction(s).Some? then
      var m := MatchInstruction(s).value;
      Instruction(m.mnemonic, m.operands, TrailingComment(s))
    else
      Error(s)
  }

  /** Classification is total, never yields the removal mark, and each
      kind is chosen exactly when its own test passes and every earlier
      test fails, in the fixed order blank, extension, header, full-line
      comment, directive, data, procedure, instruction, error. */
  lemma ClassifyFirstMatch(s: string)
    requires Classifiable(s)
    ensures !Classify(s).ToRemove?
    ensures Classify(s).BlankLine? <==> |s| == 0
    ensures Classify(s).Extension? <==> |s| > 0 && StartsWith(s, ";  ")
    ensures Classify(s).Header? <==> |s| > 0 && !StartsWith(s, ";  ") && IsHeaderComment(s)
    ensures Classify(s).FullLine? <==> |s| > 0 && !StartsWith(s, ";  ") && !IsHeaderComment(s) && StartsWith(s, ";")
    ensures Classify(s).Directive? <==> ReachesDirective(s)
    ensures Classify(s).Data? <==>
      |s| > 0 && !StartsWith(s, ";") && !IsHeaderComment(s) && !IsDirectiveLine(s) && MatchData(s).Some?
    ensures Classify(s).Procedure? <==>
      |s| > 0 && !StartsWith(s, ";") && !IsHeaderComment(s) && !IsDirectiveLine(s) && MatchData(s).None?
      && MatchProcedure(s).Some?
    ensures Classify(s).Instruction? <==>
      |s| > 0 && !StartsWith(s, ";") && !IsHeaderComment(s) && !IsDirectiveLine(s) && MatchData(s).None?
      && MatchProcedure(s).None? && IsLetter(s[0])
    ensures Classify(s).Error? <==>
      |s| > 0 && !StartsWith(s, ";") && !IsHeaderComment(s) && !IsDirectiveLine(s) && MatchData(s).None?
      && MatchProcedure(s).None? && !IsLetter(s[0])
  {
    if |s| > 0 && StartsWith(s, ";  ") {
      assert s[0] == (";  ")[0];
    }
  }

  /** The instruction test accepts every line that starts with a letter, so
      an error token only comes from a non-blank line whose first character
      is not a letter, not `;` and not `.`. */
  lemma ErrorOnlyForOddFirstCharacter(s: string)
    requires Classifiable(s)
    ensures Classify(s).Error? ==> |s| > 0 && !IsLetter(s[0]) && s[0] != ';' && s[0] != '.'
  {
    if |s| > 0 && s[0] == ';' {
      assert StartsWith(s, ";");
    } else if |s| > 0 && s[0] == '.' {
      assert StartsWith(s, ".");
    } else if |s| > 0 && IsLetter(s[0]) {
      assert MatchInstruction(s).Some?;
    }
  }

  /** The header search only succeeds on a line holding a colon. */
  lemma HeaderHasColon(s: string)
    requires IsHeaderComment(s)
    ensures 0 <= Find(s, ':') < |s|
  {
    HeaderScanCorrect(s);
    var i :| 0 <= i < |s| && s[i] == ';' && KeywordThenColon(s, i + 1);
    KeywordThenColonHasColon(s, i + 1);
    var k :| i + 1 <= k < |s| && s[k] == ':' && NoNewline(s, i + 1, k);
  }

  /** A header comment holds a colon. With `colon` its first one, the
      field is what lies between the first character and that colon, less
      the whitespace around it, so it holds no colon itself; the value is
      what follows the colon, less the whitespace around it. */
  lemma HeaderFields(s: string, colon: int)
    requires |s| > 0 && !StartsWith(s, ";  ") && IsHeaderComment(s)
    requires colon == Find(s, ':')
    ensures 0 <= colon < |s| && s[colon] == ':'
    ensures Classify(s).Header?
    ensures ':' !in Classify(s).field
    ensures Padded(if colon <= 1 then "" else s[1..colon], Classify(s).field)
    ensures Padded(s[colon + 1..], Classify(s).text)
  {
    HeaderHasColon(s);
    assert Classify(s) == HeaderToken(s, colon);
    HeaderTokenFields(s, colon);
  }

  /** The fields `HeaderToken` cuts around a colon with none before it. */
  lemma HeaderTokenFields(s: string, colon: nat)
    requires colon < |s| && s[colon] == ':'
    requires forall k :: 0 <= k < colon ==> s[k] != ':'
    ensures var t := HeaderToken(s, colon);
      && ':' !in t.field
      && Padded(if colon <= 1 then "" else s[1..colon], t.field)
      && Padded(s[colon + 1..], t.text)
  {
    var f := if colon <= 1 then "" else s[1..colon];
    StripPadded(f);
    StripPadded(s[colon + 1..]);
    var i := StripWithin(f);
    var field := Strip(f);
    forall k | 0 <= k < |field|
      ensures field[k] != ':'
    {
      assert field[k] == f[i + k];
      assert f[i + k] == s[1 + i + k];
    }
  }

  /** The indentation before the first visible character: `^[ \t]*`. */
  function LeadingIndent(raw: string): (r: string)
    ensures StartsWith(raw, r)
    ensures forall k :: 0 <= k < |r| ==> IsBlank(r[k])
    ensures |r| == |raw| || !IsBlank(raw[|r|])
  {
    RunEndRun(raw, 0, IsBlank);
    raw[..RunEnd(raw, 0, IsBlank)]
  }

  /** `s.replace('\t', ' ' * tab)`. */
  function ExpandTabs(s: string, tab: nat): string
  {
    if |s| == 0 then "" else (if s[0] == '\t' then Spaces(tab) else [s[0]]) + ExpandTabs(s[1..], tab)
  }

  /** Expanding the tabs of an indentation gives only spaces: one per space
      and `tab` per tab character. */
  lemma {:induction false} ExpandTabsSpaces(s: string, tab: nat)
    requires forall k :: 0 <= k < |s| ==> IsBlank(s[k])
    ensures |ExpandTabs(s, tab)| == Count(s, ' ') + tab * Count(s, '\t')
    ensures forall k :: 0 <= k < |ExpandTabs(s, tab)| ==> ExpandTabs(s, tab)[k] == ' '
  {
    if |s| > 0 {
      ExpandTabsSpaces(s[1..], tab);
    }
  }

  /** The token of one physical line (lines 102-178). */
  function TokenOf(raw: string, cfg: Config): Line
    requires Classifiable(Strip(raw))
  {
    Line(Classify(Strip(raw)), if cfg.fixIndents then None else Some(ExpandTabs(LeadingIndent(raw), cfg.tabSize)))
  }

  predicate AllClassifiable(lines: seq<string>)
  {
    forall i :: 0 <= i < |lines| ==> Classifiable(Strip(lines[i]))
  }

  function Tokens(lines: seq<string>, cfg: Config): (t: seq<Line>)
    requires AllClassifiable(lines)
    ensures |t| == |lines|
  {
    seq(|lines|, i requires 0 <= i < |lines| => TokenOf(lines[i], cfg))
  }

  /** The loop of lines 100-178: one token per line, in order, classified
      from the stripped line, with the expanded indentation attached when
      `fix_indents` is off. */
  method Tokenize(lines: seq<string>, cfg: Config) returns (tokens: seq<Line>)
    requires AllClassifiable(lines)
    ensures tokens == Tokens(lines, cfg)
    ensures |tokens| == |lines|
    ensures forall i :: 0 <= i < |lines| ==> tokens[i].token == Classify(Strip(lines[i]))
    ensures forall i :: 0 <= i < |lines| ==>
      tokens[i].indent == if cfg.fixIndents then None else Some(ExpandTabs(LeadingIndent(lines[i]), cfg.tabSize))
  {
    tokens := [];
    for i := 0 to |lines|
      invariant |tokens| == i
      invariant forall k :: 0 <= k < i ==> tokens[k].token == Classify(Strip(lines[k]))
      invariant forall k :: 0 <= k < i ==>
        tokens[k].indent == if cfg.fixIndents then None else Some(ExpandTabs(LeadingIndent(lines[k]), cfg.tabSize))
    {
      var indent := ExpandTabs(LeadingIndent(lines[i]), cfg.tabSize);
      var line := Strip(lines[i]);
      tokens := tokens + [Line(Classify(line), None)];
      if !cfg.fixIndents {
        tokens := tokens[i := tokens[i].(indent := Some(indent))];
      }
    }
  }
}
