/** Stage three of the formatter: every kept token becomes zero, one or two
    output lines, each either a plain string or a record holding the code
    text and its trailing comment; the last line produced so far is then
    indented (asm_fixer.py, lines 222-292). */
module Renderer {
  import opened Text
  import opened Wrappers
  import opened Options
  import opened Patterns
  import opened Classifier
  import opened Aggregator

  /** The entries of the source's `parsed_tokens`: a plain string, or a
      `{str, comment, data?}` record. */
  datatype Rendered =
    | Plain(text: string)
    | Record(text: string, comment: Option<string>, isData: bool)
  {
    function Prefixed(p: string): (r: Rendered)
      ensures r.text == p + text
    {
      match this
      case Plain(s) => Plain(p + s)
      case Record(s, c, d) => Record(p + s, c, d)
    }
  }

  /** `parsed_tokens` and the three running values of the render loop. */
  datatype RenderState = RenderState(out: seq<Rendered>, depth: int, maxString: nat, maxData: nat)

  /** Error tokens and extensions left unmerged produce no line. */
  predicate ProducesLine(tok: Token)
  {
    !(tok.Error? || tok.Extension? || tok.ToRemove?)
  }

  /** Lines 230-233: the header comment line, its value aligned after the
      widest field when header alignment is on. */
  function HeaderLine(field: string, value: string, w: Widths, cfg: Config): string
  {
    if cfg.alignHeaderComments then LJust("; " + field + ":", 4 + w.fieldWidth) + value
    else "; " + field + ": " + value
  }

  /** Line 259: label, size keyword and initial values in their columns. */
  function DataText(name: string, directive: string, value: string, w: Widths, cfg: Config): string
  {
    LJust(name, (if cfg.alignDataSection then w.labelWidth else |name|) + w.directiveSpacing)
    + LJust(directive, w.sizeWidth + cfg.minDataInitialValueSpacing) + value
  }

  /** Line 276: mnemonic and operands in their columns. */
  function InstructionText(mnemonic: string, operands: Option<string>, w: Widths, cfg: Config): string
  {
    LJust(mnemonic, (if cfg.alignCodeSection then w.mnemonicWidth else |mnemonic|) + w.operandSpacing)
    + operands.GetOr("")
  }

  /** Lines 234-239: a header line wider than the file is cut at the last
      space before the width and continued behind `;` padded to the value
      column, with Python's slice semantics when there is no such space. */
  function HeaderRows(line: string, w: Widths, cfg: Config): (r: seq<Rendered>)
    ensures 1 <= |r| <= 2
  {
    if cfg.fixFileWidth && |line| > cfg.fileWidth then
      var space := RFind(line, ' ', cfg.fileWidth);
      [Plain(Take(line, space)), Plain(HeaderContinuation(Drop(line, space + 1), w))]
    else [Plain(line)]
  }

  /** Line 237: the rest of a cut header behind `;` padded to the value
      column. */
  function HeaderContinuation(rest: string, w: Widths): string
  {
    LJust("; ", 4 + w.fieldWidth) + rest
  }

  /** The lines one token appends, before indentation (lines 224-278). An
      over-wide header is cut at the last space before the file width,
      with Python's slice semantics when there is none. */
  function RenderToken(tok: Token, w: Widths, cfg: Config): (r: seq<Rendered>)
    ensures |r| <= 2
    ensures |r| > 0 <==> ProducesLine(tok)
  {
    match tok
    case Header(f, v) => HeaderRows(HeaderLine(f, v, w, cfg), w, cfg)
    case FullLine(v) => [Record("; " + v, None, false)]
    case BlankLine => [Plain("")]
    case Directive(v, c) => [Record(v, c, false)]
    case Data(n, d, v, c) => [Record(DataText(n, d, v, w, cfg), c, true)]
    case Procedure(n, k, c) => [Record(n + " " + k.Keyword(), c, false)]
    case Instruction(m, ops, c) => [Record(InstructionText(m, ops, w, cfg), c, false)]
    case _ => []
  }

  /** The procedure counter after a token: `PROC` opens a level, `ENDP`
      closes one. */
  function NextDepth(depth: int, tok: Token): int
  {
    if tok.Procedure? then (if tok.kind == Proc then depth + 1 else depth - 1) else depth
  }

  /** The indentation put in front of the last line (lines 280-289). */
  function IndentPrefix(line: Line, depth: int, cfg: Config): string
    requires !cfg.fixIndents ==> line.indent.Some?
  {
    if !cfg.fixIndents then line.indent.value else Spaces(cfg.tabSize * depth)
  }

  /** The test of line 291: the last line is measured for the comment
      column when it is a record and the token is not data, or the token is
      data and data comments align with the code; never for a full-line
      comment. */
  predicate Measured(last: Rendered, tok: Token, cfg: Config)
  {
    ((last.Record? && !tok.Data?) || (tok.Data? && cfg.alignDataComments && !cfg.alignDataCommentsSeparately))
    && !tok.FullLine?
  }

  predicate Indentable(t: seq<Line>, cfg: Config)
  {
    !cfg.fixIndents ==> forall j :: 0 <= j < |t| ==> t[j].indent.Some?
  }

  /** The source indexes `parsed_tokens[-1]` after every token, so the first
      token must produce a line. */
  predicate Renderable(t: seq<Line>, cfg: Config)
  {
    Indentable(t, cfg) && (|t| > 0 ==> ProducesLine(t[0].token))
  }

  /** Lines 228-278 of one iteration: append the token's lines, move the
      procedure counter, and measure a data line before it is indented. */
  function Appended(st: RenderState, tok: Token, w: Widths, cfg: Config): (r: RenderState)
    ensures |r.out| == |st.out| + |RenderToken(tok, w, cfg)|
  {
    var out := st.out + RenderToken(tok, w, cfg);
    var maxData :=
      if tok.Data? && cfg.alignDataComments && cfg.alignDataCommentsSeparately
      then Max(st.maxData, |DataText(tok.name, tok.directive, tok.value, w, cfg)|) else st.maxData;
    RenderState(out, NextDepth(st.depth, tok), st.maxString, maxData)
  }

  /** Lines 280-292 of one iteration: indent the last line, then measure it
      for the common comment column. */
  function Indented(st: RenderState, line: Line, cfg: Config): (r: RenderState)
    requires |st.out| > 0
    requires !cfg.fixIndents ==> line.indent.Some?
    ensures |r.out| == |st.out|
  {
    var last := st.out[|st.out| - 1].Prefixed(IndentPrefix(line, st.depth, cfg));
    var maxString := if Measured(last, line.token, cfg) then Max(st.maxString, |last.text|) else st.maxString;
    RenderState(st.out[|st.out| - 1 := last], st.depth, maxString, st.maxData)
  }

  /** One iteration of the render loop. */
  function Step(st: RenderState, line: Line, w: Widths, cfg: Config): (r: RenderState)
    requires |st.out| > 0 || ProducesLine(line.token)
    requires !cfg.fixIndents ==> line.indent.Some?
    ensures |r.out| == |st.out| + |RenderToken(line.token, w, cfg)|
  {
    Indented(Appended(st, line.token, w, cfg), line, cfg)
  }

  /** The render loop over the first n tokens. */
  function RenderAll(t: seq<Line>, n: nat, w: Widths, cfg: Config): (r: RenderState)
    requires n <= |t| && Renderable(t, cfg)
    ensures n > 0 ==> |r.out| > 0
  {
    if n == 0 then RenderState([], 0, 0, 0)
    else Step(RenderAll(t, n - 1, w, cfg), t[n - 1], w, cfg)
  }

  /** The procedure counter after the first n tokens: opened minus closed
      procedures. */
  function Balance(t: seq<Line>, n: nat): int
    requires n <= |t|
  {
    if n == 0 then 0 else NextDepth(Balance(t, n - 1), t[n - 1].token)
  }

  lemma {:induction false} DepthIsBalance(t: seq<Line>, n: nat, w: Widths, cfg: Config)
    requires n <= |t| && Renderable(t, cfg)
    ensures RenderAll(t, n, w, cfg).depth == Balance(t, n)
  {
    if n > 0 {
      DepthIsBalance(t, n - 1, w, cfg);
    }
  }

  /** Later tokens only append lines and rewrite the last one: every line
      before the last is final. */
  lemma {:induction false} OutputFrozen(t: seq<Line>, m: nat, n: nat, w: Widths, cfg: Config)
    requires 1 <= m <= n <= |t| && Renderable(t, cfg)
    ensures |RenderAll(t, m, w, cfg).out| <= |RenderAll(t, n, w, cfg).out|
    ensures forall p :: 0 <= p < |RenderAll(t, m, w, cfg).out| - 1 ==>
      RenderAll(t, n, w, cfg).out[p] == RenderAll(t, m, w, cfg).out[p]
  {
    if n > m {
      OutputFrozen(t, m, n - 1, w, cfg);
      StepFrozen(RenderAll(t, n - 1, w, cfg), t[n - 1], w, cfg);
    }
  }

  /** One iteration keeps every line before the last. */
  lemma StepFrozen(st: RenderState, line: Line, w: Widths, cfg: Config)
    requires |st.out| > 0 || ProducesLine(line.token)
    requires !cfg.fixIndents ==> line.indent.Some?
    ensures forall p :: 0 <= p < |st.out| - 1 ==> Step(st, line, w, cfg).out[p] == st.out[p]
  {
  }

  /** A token that produces no line (an error, or an extension left
      unmerged) still re-runs lines 280-292 on the line before it: that
      line gets the indentation prefix a second time, and, if it is a
      record, it is measured into `max_string_size` whatever token made it,
      a data line or a full-line comment included. Nothing else changes. */
  lemma LineLessReindents(st: RenderState, line: Line, w: Widths, cfg: Config)
    requires |st.out| > 0 && !ProducesLine(line.token)
    requires !cfg.fixIndents ==> line.indent.Some?
    ensures var r := Step(st, line, w, cfg);
      var k := |st.out| - 1;
      var prefix := IndentPrefix(line, st.depth, cfg);
      && r.out == st.out[..k] + [st.out[k].Prefixed(prefix)]
      && r.out[k].text == prefix + st.out[k].text
      && r.depth == st.depth && r.maxData == st.maxData
      && r.maxString == (if st.out[k].Record? then Max(st.maxString, |prefix| + |st.out[k].text|) else st.maxString)
  {
    assert RenderToken(line.token, w, cfg) == [];
    assert Appended(st, line.token, w, cfg).out == st.out;
  }

  /** Right after token j, the last line is the token's own last line
      behind the indentation for the counter as moved by j. */
  lemma LastLineAfterToken(t: seq<Line>, j: nat, w: Widths, cfg: Config)
    requires Renderable(t, cfg) && cfg.fixIndents
    requires j < |t| && ProducesLine(t[j].token)
    ensures var out := RenderAll(t, j + 1, w, cfg).out;
      var r := RenderToken(t[j].token, w, cfg);
      out[|out| - 1] == r[|r| - 1].Prefixed(Spaces(cfg.tabSize * Balance(t, j + 1)))
  {
    DepthIsBalance(t, j + 1, w, cfg);
  }

  /** With structural indentation, the last line of token j, once the next
      token has added a line of its own, is that token's text behind
      `tab_size` spaces per open procedure, the counter having already
      moved for j itself: a `PROC` line sits one level deeper than the line
      before it, like its body, and an `ENDP` line back at the outer level. */
  lemma LineOfToken(t: seq<Line>, j: nat, w: Widths, cfg: Config)
    requires Renderable(t, cfg) && cfg.fixIndents
    requires j < |t| && ProducesLine(t[j].token)
    requires j + 1 == |t| || ProducesLine(t[j + 1].token)
    ensures Balance(t, j + 1) == NextDepth(Balance(t, j), t[j].token)
    ensures var k := |RenderAll(t, j + 1, w, cfg).out| - 1;
      var r := RenderToken(t[j].token, w, cfg);
      0 <= k < |RenderAll(t, |t|, w, cfg).out| &&
      RenderAll(t, |t|, w, cfg).out[k] == r[|r| - 1].Prefixed(Spaces(cfg.tabSize * Balance(t, j + 1)))
  {
    LastLineAfterToken(t, j, w, cfg);
    var k := |RenderAll(t, j + 1, w, cfg).out| - 1;
    if j + 1 < |t| {
      var next := RenderAll(t, j + 2, w, cfg).out;
      assert |next| >= k + 2;
      assert next[k] == RenderAll(t, j + 1, w, cfg).out[k];
      OutputFrozen(t, j + 2, |t|, w, cfg);
    }
  }

  /** The records whose comment the emitter places at the common comment
      column `max_string_size + min_comment_spacing`: non-data records, and
      data records when data comments align with the code, that have a
      non-empty comment. */
  predicate UsesCommentColumn(r: Rendered, cfg: Config)
  {
    r.Record? && r.comment.Some? && r.comment.value != ""
    && (!r.isData || (cfg.alignDataComments && !cfg.alignDataCommentsSeparately))
  }

  /** Every line of the state whose comment goes to the common column is
      no wider than `max_string_size`. */
  predicate StringBound(st: RenderState, cfg: Config)
  {
    forall k :: 0 <= k < |st.out| && UsesCommentColumn(st.out[k], cfg) ==> |st.out[k].text| <= st.maxString
  }

  /** `max_string_size` is at least the width of every line whose comment
      goes to the common column, after its indentation. */
  lemma {:induction false} MaxStringBounds(t: seq<Line>, n: nat, w: Widths, cfg: Config)
    requires n <= |t| && Renderable(t, cfg)
    ensures StringBound(RenderAll(t, n, w, cfg), cfg)
  {
    if n > 0 {
      MaxStringBounds(t, n - 1, w, cfg);
      StepKeepsBound(RenderAll(t, n - 1, w, cfg), t[n - 1], w, cfg);
    }
  }

  /** Every line but the last whose comment goes to the common column is
      no wider than `max_string_size`. */
  predicate BoundBeforeLast(st: RenderState, cfg: Config)
  {
    forall k :: 0 <= k < |st.out| - 1 && UsesCommentColumn(st.out[k], cfg) ==> |st.out[k].text| <= st.maxString
  }

  /** The test of line 291 holds for a last line whose comment goes to the
      common column. */
  predicate MeasuredWhenAligned(last: Rendered, tok: Token, cfg: Config)
  {
    UsesCommentColumn(last, cfg) ==>
      last.Record? && !tok.FullLine? && (tok.Data? ==> cfg.alignDataComments && !cfg.alignDataCommentsSeparately)
  }

  /** One iteration keeps every common-column line within
      `max_string_size`. */
  lemma StepKeepsBound(st: RenderState, line: Line, w: Widths, cfg: Config)
    requires |st.out| > 0 || ProducesLine(line.token)
    requires !cfg.fixIndents ==> line.indent.Some?
    requires StringBound(st, cfg)
    ensures StringBound(Step(st, line, w, cfg), cfg)
  {
    AppendedBound(st, line.token, w, cfg);
    IndentedBound(Appended(st, line.token, w, cfg), line, cfg);
  }

  /** Appending a token's lines leaves the earlier lines and
      `max_string_size` alone, and a header's first row is plain; the
      new last line is measured whenever its comment goes to the common
      column. */
  lemma AppendedBound(st: RenderState, tok: Token, w: Widths, cfg: Config)
    requires |st.out| > 0 || ProducesLine(tok)
    requires StringBound(st, cfg)
    ensures var a := Appended(st, tok, w, cfg);
      BoundBeforeLast(a, cfg) && MeasuredWhenAligned(a.out[|a.out| - 1], tok, cfg)
  {
    var a := Appended(st, tok, w, cfg);
    var r := RenderToken(tok, w, cfg);
    assert a.out == st.out + r;
    forall k | 0 <= k < |a.out| - 1 && UsesCommentColumn(a.out[k], cfg)
      ensures |a.out[k].text| <= a.maxString
    {
    }
  }

  /** Indenting and measuring the last line brings it within
      `max_string_size` when its comment goes to the common column. */
  lemma IndentedBound(a: RenderState, line: Line, cfg: Config)
    requires |a.out| > 0
    requires !cfg.fixIndents ==> line.indent.Some?
    requires BoundBeforeLast(a, cfg)
    requires MeasuredWhenAligned(a.out[|a.out| - 1], line.token, cfg)
    ensures StringBound(Indented(a, line, cfg), cfg)
  {
    var r := Indented(a, line, cfg);
    forall k | 0 <= k < |r.out| && UsesCommentColumn(r.out[k], cfg)
      ensures |r.out[k].text| <= r.maxString
    {
      if k < |a.out| - 1 {
        assert r.out[k] == a.out[k];
      }
    }
  }

  /** A header comment within the file width, or with wrapping off, is
      one line. */
  lemma HeaderUnwrapped(f: string, v: string, w: Widths, cfg: Config)
    requires !(cfg.fixFileWidth && |HeaderLine(f, v, w, cfg)| > cfg.fileWidth)
    ensures RenderToken(Header(f, v), w, cfg) == [Plain(HeaderLine(f, v, w, cfg))]
  {
  }

  /** A header comment wider than the file, with a space before the width,
      is cut at the last such space: the first piece is shorter than the
      width, only that space is dropped, and the rest goes on a
      continuation line behind `;` padded to the value column. */
  lemma HeaderWrap(f: string, v: string, w: Widths, cfg: Config)
    requires cfg.fixFileWidth && |HeaderLine(f, v, w, cfg)| > cfg.fileWidth
    requires exists k :: 0 <= k < cfg.fileWidth && HeaderLine(f, v, w, cfg)[k] == ' '
    ensures var line := HeaderLine(f, v, w, cfg);
      var space := RFind(line, ' ', cfg.fileWidth);
      0 <= space < cfg.fileWidth && line[space] == ' '
      && (forall k :: space < k < cfg.fileWidth ==> line[k] != ' ')
      && RenderToken(Header(f, v), w, cfg) == [Plain(line[..space]), Plain(HeaderContinuation(line[space + 1..], w))]
  {
    var line := HeaderLine(f, v, w, cfg);
    assert RenderToken(Header(f, v), w, cfg) == HeaderRows(line, w, cfg);
    HeaderCut(line, w, cfg);
  }

  /** The cut of lines 234-239 on a line with a space before the width. */
  lemma HeaderCut(line: string, w: Widths, cfg: Config)
    requires cfg.fixFileWidth && |line| > cfg.fileWidth
    requires exists k :: 0 <= k < cfg.fileWidth && line[k] == ' '
    ensures var space := RFind(line, ' ', cfg.fileWidth);
      0 <= space < cfg.fileWidth && line[space] == ' '
      && (forall k :: space < k < cfg.fileWidth ==> line[k] != ' ')
      && HeaderRows(line, w, cfg) == [Plain(line[..space]), Plain(HeaderContinuation(line[space + 1..], w))]
  {
    CutAtLastSpace(line, cfg.fileWidth);
  }

  /** With header alignment, a header whose field fits the widest field
      has its value starting at column `len('; : ') + max_field_size`. */
  lemma HeaderValueColumn(f: string, v: string, w: Widths, cfg: Config)
    requires cfg.alignHeaderComments && |f| <= w.fieldWidth
    ensures exists pad ::
      (HeaderLine(f, v, w, cfg) == pad + v && |pad| == 4 + w.fieldWidth
      && pad[..|f| + 3] == "; " + f + ":" && forall k :: |f| + 3 <= k < |pad| ==> pad[k] == ' ')
  {
    var pad := LJust("; " + f + ":", 4 + w.fieldWidth);
    assert HeaderLine(f, v, w, cfg) == pad + v;
  }

  /** With code alignment, an instruction whose mnemonic fits the widest
      mnemonic has its operands starting at column
      `max_mnemonic_size + min_instruction_operand_spacing`. */
  lemma OperandColumn(m: string, ops: Option<string>, w: Widths, cfg: Config)
    requires cfg.alignCodeSection && |m| <= w.mnemonicWidth
    ensures exists pad ::
      (InstructionText(m, ops, w, cfg) == pad + ops.GetOr("")
      && |pad| == w.mnemonicWidth + w.operandSpacing
      && pad[..|m|] == m && forall k :: |m| <= k < |pad| ==> pad[k] == ' ')
  {
    var pad := LJust(m, w.mnemonicWidth + w.operandSpacing);
    assert InstructionText(m, ops, w, cfg) == pad + ops.GetOr("");
  }

  /** With data alignment, a data line whose label and size keyword fit
      their widths has its size keyword at column
      `max_label_size + min_data_directive_spacing` and its initial values
      `max_size_size + min_data_initial_value_spacing` further on. */
  lemma InitialValueColumn(n: string, d: string, v: string, w: Widths, cfg: Config)
    requires cfg.alignDataSection && |n| <= w.labelWidth && |d| <= w.sizeWidth
    ensures exists labelPad, sizePad ::
      (DataText(n, d, v, w, cfg) == labelPad + sizePad + v
      && |labelPad| == w.labelWidth + w.directiveSpacing && labelPad[..|n|] == n
      && |sizePad| == w.sizeWidth + cfg.minDataInitialValueSpacing && sizePad[..|d|] == d)
  {
    var labelPad := LJust(n, w.labelWidth + w.directiveSpacing);
    var sizePad := LJust(d, w.sizeWidth + cfg.minDataInitialValueSpacing);
    assert DataText(n, d, v, w, cfg) == labelPad + sizePad + v;
  }

  /** Lines 224-278 for one token: append its lines, move the procedure
      counter and measure a data line before it is indented. */
  method AppendToken(parsed: seq<Rendered>, indentCounter: int, maxData: nat, tok: Token, w: Widths, cfg: Config)
    returns (parsed': seq<Rendered>, indentCounter': int, maxData': nat)
    ensures parsed' == parsed + RenderToken(tok, w, cfg)
    ensures indentCounter' == NextDepth(indentCounter, tok)
    ensures maxData' ==
      if tok.Data? && cfg.alignDataComments && cfg.alignDataCommentsSeparately
      then Max(maxData, |DataText(tok.name, tok.directive, tok.value, w, cfg)|) else maxData
  {
    parsed', indentCounter', maxData' := parsed, indentCounter, maxData;
    match tok {
      case Header(f, v) =>
        parsed' := AppendHeader(parsed', HeaderLine(f, v, w, cfg), w, cfg);
      case FullLine(v) =>
        parsed' := parsed' + [Record("; " + v, None, false)];
      case BlankLine =>
        parsed' := parsed' + [Plain("")];
      case Directive(v, c) =>
        parsed' := parsed' + [Record(v, c, false)];
      case Data(n, d, v, c) =>
        parsed' := parsed' + [Record(DataText(n, d, v, w, cfg), c, true)];
        if cfg.alignDataComments && cfg.alignDataCommentsSeparately {
          maxData' := Max(maxData', |parsed'[|parsed'| - 1].text|);
        }
      case Procedure(n, k, c) =>
        parsed' := parsed' + [Record(n + " " + k.Keyword(), c, false)];
        if k == Proc {
          indentCounter' := indentCounter' + 1;
        } else {
          indentCounter' := indentCounter' - 1;
        }
      case Instruction(m, ops, c) =>
        parsed' := parsed' + [Record(InstructionText(m, ops, w, cfg), c, false)];
      case _ =>
    }
  }

  /** Lines 228-239: a header line, cut once when wider than the file. */
  method AppendHeader(parsed: seq<Rendered>, line: string, w: Widths, cfg: Config) returns (parsed': seq<Rendered>)
    ensures parsed' == parsed + HeaderRows(line, w, cfg)
  {
    if cfg.fixFileWidth && |line| > cfg.fileWidth {
      var space := RFind(line, ' ', cfg.fileWidth);
      parsed' := parsed + [Plain(Take(line, space))];
      parsed' := parsed' + [Plain(LJust("; ", 4 + w.fieldWidth) + Drop(line, space + 1))];
    } else {
      parsed' := parsed + [Plain(line)];
    }
  }

  /** Lines 280-292: indent the last line, then measure it for the common
      comment column. */
  method IndentLast(parsed: seq<Rendered>, depth: int, maxString: nat, line: Line, cfg: Config)
    returns (parsed': seq<Rendered>, maxString': nat)
    requires |parsed| > 0
    requires !cfg.fixIndents ==> line.indent.Some?
    ensures var st := Indented(RenderState(parsed, depth, maxString, 0), line, cfg);
      parsed' == st.out && maxString' == st.maxString
  {
    var prefix := if !cfg.fixIndents then line.indent.value else Spaces(cfg.tabSize * depth);
    parsed' := parsed[|parsed| - 1 := parsed[|parsed| - 1].Prefixed(prefix)];
    var last := parsed'[|parsed'| - 1];
    maxString' := maxString;
    if ((last.Record? && !line.token.Data?) || (line.token.Data? && cfg.alignDataComments && !cfg.alignDataCommentsSeparately))
      && !line.token.FullLine?
    {
      maxString' := Max(maxString, |last.text|);
    }
  }

  /** Lines 222-292: append each token's lines, then indent the last line
      and measure it for the comment column. */
  method Render(t: seq<Line>, w: Widths, cfg: Config) returns (parsed: seq<Rendered>, maxString: nat, maxData: nat)
    requires Renderable(t, cfg)
    ensures RenderAll(t, |t|, w, cfg) == RenderState(parsed, RenderAll(t, |t|, w, cfg).depth, maxString, maxData)
  {
    parsed := [];
    maxString := 0;
    maxData := 0;
    var indentCounter := 0;
    for i := 0 to |t|
      invariant RenderAll(t, i, w, cfg) == RenderState(parsed, indentCounter, maxString, maxData)
    {
      parsed, indentCounter, maxString, maxData := RenderLine(parsed, indentCounter, maxString, maxData, t[i], w, cfg);
    }
  }

  /** One iteration of the render loop (lines 224-292). */
  method RenderLine(parsed: seq<Rendered>, indentCounter: int, maxString: nat, maxData: nat, line: Line, w: Widths, cfg: Config)
    returns (parsed': seq<Rendered>, indentCounter': int, maxString': nat, maxData': nat)
    requires |parsed| > 0 || ProducesLine(line.token)
    requires !cfg.fixIndents ==> line.indent.Some?
    ensures RenderState(parsed', indentCounter', maxString', maxData')
      == Step(RenderState(parsed, indentCounter, maxString, maxData), line, w, cfg)
  {
    ghost var before := RenderState(parsed, indentCounter, maxString, maxData);
    parsed', indentCounter', maxData' := AppendToken(parsed, indentCounter, maxData, line.token, w, cfg);
    ghost var appended := RenderState(parsed', indentCounter', maxString, maxData');
    assert appended == Appended(before, line.token, w, cfg);
    parsed', maxString' := IndentLast(parsed', indentCounter', maxString, line, cfg);
    assert RenderState(parsed', indentCounter', maxString', maxData') == Indented(appended, line, cfg);
  }
}
