/** Stage four of the formatter: plain lines are written as they are;
    records get their comment placed by one of three column policies, lose
    trailing whitespace, and are wrapped once when too wide
    (asm_fixer.py, lines 300-317). */
module Emitter {
  import opened Text
  import opened Wrappers
  import opened Options
  import opened Renderer

  /** `'; ' + comment if comment else ''`: an absent or empty comment adds
      nothing. */
  function CommentPart(comment: Option<string>): string
  {
    if comment.Some? && comment.value != "" then "; " + comment.value else ""
  }

  /** Records whose comment goes to `max_string_size + min_comment_spacing`
      (lines 304-305). */
  predicate CommonColumn(r: Rendered, cfg: Config)
  {
    r.Record? &&
    ((cfg.alignComments && !r.isData)
     || (cfg.alignComments && r.isData && cfg.alignDataComments && !cfg.alignDataCommentsSeparately))
  }

  /** Data records whose comment goes to
      `max_data_string_size + min_comment_spacing` (lines 306-307). */
  predicate DataColumn(r: Rendered, cfg: Config)
  {
    r.Record? && r.isData && cfg.alignDataComments && cfg.alignDataCommentsSeparately
  }

  /** Lines 304-311: code text and comment under the applicable policy,
      right-stripped. */
  function Joined(r: Rendered, maxString: nat, maxData: nat, cfg: Config): string
    requires r.Record?
  {
    var full :=
      if CommonColumn(r, cfg) then LJust(r.text, maxString + cfg.minCommentSpacing) + CommentPart(r.comment)
      else if DataColumn(r, cfg) then LJust(r.text, maxData + cfg.minCommentSpacing) + CommentPart(r.comment)
      else r.text + Spaces(cfg.minCommentSpacing) + CommentPart(r.comment);
    RStrip(full)
  }

  /** Lines 312-317 for a right-stripped record line: printed as it is when
      it fits the width (or wrapping is off); otherwise cut at the last
      space before the width and continued behind `; ` right-aligned under
      the first `;`, with Python's slice semantics when there is no such
      space. */
  function Wrapped(out: string, cfg: Config): (lines: seq<string>)
    ensures 1 <= |lines| <= 2
  {
    if !cfg.fixFileWidth || |out| <= cfg.fileWidth then [out]
    else
      var space := RFind(out, ' ', cfg.fileWidth);
      [Take(out, space), Continuation(out, Drop(out, space + 1), cfg)]
  }

  /** The continuation line of line 317: `; ` right-aligned to end two
      places after the first `;` of the cut line, then
      `long_comment_indent_amount` spaces, then the rest. */
  function Continuation(out: string, rest: string, cfg: Config): string
  {
    RJust("; ", Find(out, ';') + 2) + Spaces(cfg.longCommentIndentAmount) + rest
  }

  /** The output lines for one entry of `parsed_tokens` (lines 300-317). */
  function EmitLine(r: Rendered, maxString: nat, maxData: nat, cfg: Config): (lines: seq<string>)
    ensures 1 <= |lines| <= 2
  {
    match r
    case Plain(s) => [s]
    case Record(_, _, _) => Wrapped(Joined(r, maxString, maxData, cfg), cfg)
  }

  function EmitAll(parsed: seq<Rendered>, maxString: nat, maxData: nat, cfg: Config): seq<string>
  {
    if |parsed| == 0 then []
    else EmitAll(parsed[..|parsed| - 1], maxString, maxData, cfg) + EmitLine(parsed[|parsed| - 1], maxString, maxData, cfg)
  }

  /** The print loop of lines 300-317, collecting the printed lines. */
  method Emit(parsed: seq<Rendered>, maxString: nat, maxData: nat, cfg: Config) returns (output: seq<string>)
    ensures output == EmitAll(parsed, maxString, maxData, cfg)
  {
    output := [];
    for i := 0 to |parsed|
      invariant output == EmitAll(parsed[..i], maxString, maxData, cfg)
    {
      assert parsed[..i + 1][..i] == parsed[..i];
      assert EmitAll(parsed[..i + 1], maxString, maxData, cfg)
        == EmitAll(parsed[..i], maxString, maxData, cfg) + EmitLine(parsed[i], maxString, maxData, cfg);
      var line := parsed[i];
      match line {
        case Plain(s) =>
          output := output + [s];
        case Record(_, _, _) =>
          var lines := EmitRecord(line, maxString, maxData, cfg);
          output := output + lines;
      }
    }
    assert parsed[..|parsed|] == parsed;
  }

  /** Lines 303-317 for one record. */
  method EmitRecord(line: Rendered, maxString: nat, maxData: nat, cfg: Config) returns (lines: seq<string>)
    requires line.Record?
    ensures lines == EmitLine(line, maxString, maxData, cfg)
  {
    var outputString;
    if CommonColumn(line, cfg) {
      outputString := LJust(line.text, maxString + cfg.minCommentSpacing) + CommentPart(line.comment);
    } else if DataColumn(line, cfg) {
      outputString := LJust(line.text, maxData + cfg.minCommentSpacing) + CommentPart(line.comment);
    } else {
      outputString := line.text + Spaces(cfg.minCommentSpacing) + CommentPart(line.comment);
    }
    outputString := RStrip(outputString);
    assert outputString == Joined(line, maxString, maxData, cfg);
    lines := WrapLine(outputString, cfg);
  }

  /** Lines 312-317. */
  method WrapLine(outputString: string, cfg: Config) returns (lines: seq<string>)
    ensures lines == Wrapped(outputString, cfg)
  {
    if !cfg.fixFileWidth || |outputString| <= cfg.fileWidth {
      lines := [outputString];
    } else {
      var space := RFind(outputString, ' ', cfg.fileWidth);
      lines := [Take(outputString, space)];
      lines := lines + [RJust("; ", Find(outputString, ';') + 2) + Spaces(cfg.longCommentIndentAmount)
                        + Drop(outputString, space + 1)];
      assert lines[1] == Continuation(outputString, Drop(outputString, space + 1), cfg);
    }
  }

  /** Plain lines, and records that fit the width (or when wrapping is
      off), are written as one line; a record's line has no trailing
      whitespace. */
  lemma EmitUnwrapped(r: Rendered, maxString: nat, maxData: nat, cfg: Config)
    requires r.Plain? || !cfg.fixFileWidth || |Joined(r, maxString, maxData, cfg)| <= cfg.fileWidth
    ensures r.Plain? ==> EmitLine(r, maxString, maxData, cfg) == [r.text]
    ensures r.Record? ==> EmitLine(r, maxString, maxData, cfg) == [Joined(r, maxString, maxData, cfg)]
    ensures r.Record? ==> var s := Joined(r, maxString, maxData, cfg); s == [] || !IsSpace(s[|s| - 1])
  {
    if r.Record? {
      var full :=
        if CommonColumn(r, cfg) then LJust(r.text, maxString + cfg.minCommentSpacing) + CommentPart(r.comment)
        else if DataColumn(r, cfg) then LJust(r.text, maxData + cfg.minCommentSpacing) + CommentPart(r.comment)
        else r.text + Spaces(cfg.minCommentSpacing) + CommentPart(r.comment);
      RStripShape(full);
    }
  }

  /** An over-wide record with a space before the width is cut at the last
      such space: the first piece is shorter than the width, only that
      space is dropped, and the continuation is `; ` ending where the first
      `;` of the line ended, then `long_comment_indent_amount` spaces, then
      the rest. */
  lemma EmitWrap(r: Rendered, maxString: nat, maxData: nat, cfg: Config)
    requires r.Record? && cfg.fixFileWidth
    requires |Joined(r, maxString, maxData, cfg)| > cfg.fileWidth
    requires exists k :: 0 <= k < cfg.fileWidth && Joined(r, maxString, maxData, cfg)[k] == ' '
    ensures var out := Joined(r, maxString, maxData, cfg);
      var space := RFind(out, ' ', cfg.fileWidth);
      0 <= space < cfg.fileWidth && out[space] == ' '
      && (forall k :: space < k < cfg.fileWidth ==> out[k] != ' ')
      && EmitLine(r, maxString, maxData, cfg) ==
           [out[..space], Continuation(out, out[space + 1..], cfg)]
  {
    WrapCut(Joined(r, maxString, maxData, cfg), cfg);
  }

  /** The cut of lines 315-317 on a line with a space before the width. */
  lemma WrapCut(out: string, cfg: Config)
    requires cfg.fixFileWidth && |out| > cfg.fileWidth
    requires exists k :: 0 <= k < cfg.fileWidth && out[k] == ' '
    ensures var space := RFind(out, ' ', cfg.fileWidth);
      0 <= space < cfg.fileWidth && out[space] == ' '
      && (forall k :: space < k < cfg.fileWidth ==> out[k] != ' ')
      && Wrapped(out, cfg) ==
           [out[..space], Continuation(out, out[space + 1..], cfg)]
  {
    CutAtLastSpace(out, cfg.fileWidth);
    var space := RFind(out, ' ', cfg.fileWidth);
  }

  /** The continuation's `; ` sits right under the line's first `;`,
      with only spaces before it and `long_comment_indent_amount` spaces
      between it and the rest. */
  lemma ContinuationUnderComment(out: string, rest: string, cfg: Config)
    requires 0 <= Find(out, ';')
    ensures var c := Find(out, ';');
      var line := Continuation(out, rest, cfg);
      var start := c + 2 + cfg.longCommentIndentAmount;
      |line| == start + |rest| && line[c..c + 2] == "; " && line[start..] == rest
      && (forall k :: 0 <= k < c ==> line[k] == ' ')
      && (forall k :: c + 2 <= k < start ==> line[k] == ' ')
  {
    var c := Find(out, ';');
    var prefix := RJust("; ", c + 2);
    var line := Continuation(out, rest, cfg);
    assert line == prefix + Spaces(cfg.longCommentIndentAmount) + rest;
    assert line[c..c + 2] == prefix[c..];
  }

  /** A cut line with no `;` still gets `; ` at the start of its
      continuation (`find` gives -1 and `'; '.rjust(1)` is `'; '`), so the
      code after the cut is turned into comment text. */
  lemma ContinuationWithoutComment(out: string, rest: string, cfg: Config)
    requires Find(out, ';') == -1
    ensures Continuation(out, rest, cfg) == "; " + Spaces(cfg.longCommentIndentAmount) + rest
  {
    assert RJust("; ", 1) == "; ";
  }

  /** An over-wide line with no space before the width is not left whole:
      `rfind` gives -1, so the first line is the text less its last
      character and the continuation repeats the whole text. */
  lemma WrapWithoutSpace(out: string, cfg: Config)
    requires cfg.fixFileWidth && |out| > cfg.fileWidth
    requires forall k :: 0 <= k < cfg.fileWidth ==> out[k] != ' '
    ensures Wrapped(out, cfg) == [out[..|out| - 1], Continuation(out, out, cfg)]
  {
    assert RFind(out, ' ', cfg.fileWidth) == -1;
  }

  /** Under the common-column policy, a record no wider than
      `max_string_size` with a non-empty comment has the comment's `;` at
      column `max_string_size + min_comment_spacing`, with only spaces
      between the code and it; stripping trailing whitespace cannot reach
      it. */
  lemma CommentAtCommonColumn(r: Rendered, maxString: nat, maxData: nat, cfg: Config)
    requires r.Record? && CommonColumn(r, cfg)
    requires r.comment.Some? && r.comment.value != ""
    requires |r.text| <= maxString
    ensures var out := Joined(r, maxString, maxData, cfg);
      var col := maxString + cfg.minCommentSpacing;
      col < |out| && out[col] == ';' && out[..|r.text|] == r.text
      && forall k :: |r.text| <= k < col ==> out[k] == ' '
  {
    var col := maxString + cfg.minCommentSpacing;
    assert Joined(r, maxString, maxData, cfg) == RStrip(LJust(r.text, col) + ("; " + r.comment.value));
    CommentAfterPadding(r.text, col, r.comment.value);
  }

  /** A text padded to a column and followed by `; comment` keeps the `;`
      at that column after the right strip. */
  lemma CommentAfterPadding(text: string, col: nat, comment: string)
    requires |text| <= col
    ensures var out := RStrip(LJust(text, col) + ("; " + comment));
      col < |out| && out[col] == ';' && out[..|text|] == text
      && forall k :: |text| <= k < col ==> out[k] == ' '
  {
    var pad := LJust(text, col);
    var rest := [' '] + comment;
    assert pad + ("; " + comment) == pad + [';'] + rest;
    RStripKeepsLast(pad, ';', rest);
    var out := RStrip(pad + ("; " + comment));
    assert out[..col + 1] == pad + [';'];
    assert out[..|text|] == out[..col + 1][..|text|];
  }
}
