/** The formatter end to end (asm_fixer.py, lines 99-317): classify every
    line, aggregate the tokens, render them and emit the output lines,
    together with the diagnostics for unrecognised lines. */
module Pipeline {
  import opened Text
  import opened Wrappers
  import opened Options
  import opened Classifier
  import opened Aggregator
  import opened Renderer
  import opened Emitter

  /** The classifier never produces the removal mark. */
  lemma TokensUnmarked(lines: seq<string>, cfg: Config)
    requires AllClassifiable(lines)
    ensures Unmarked(Tokens(lines, cfg))
  {
    var t := Tokens(lines, cfg);
    forall j | 0 <= j < |t|
      ensures !t[j].token.ToRemove?
    {
      ClassifyFirstMatch(Strip(lines[j]));
    }
  }

  /** With re-indentation off the classifier attaches an indentation to
      every line. */
  lemma TokensIndentable(lines: seq<string>, cfg: Config)
    requires AllClassifiable(lines)
    ensures Indentable(Tokens(lines, cfg), cfg)
  {
  }

  /** Every kept line keeps the indentation of the line it came from, so
      with re-indentation off every kept line still has one. */
  lemma CleanedIndentable(t: seq<Line>, cfg: Config)
    requires MergeSafe(t, cfg) && Indentable(t, cfg)
    ensures Indentable(Cleaned(t, cfg), cfg)
  {
    var cleaned := Cleaned(t, cfg);
    KeptOrigin(t, cfg, |t|);
    if !cfg.fixIndents {
      forall k | 0 <= k < |cleaned|
        ensures cleaned[k].indent.Some?
      {
        var j :| k <= j < |t| && !RemovedAt(t, cfg, j) && cleaned[k] == Processed(t, cfg, j);
      }
    }
  }

  /** The source stops with an `IndexError` when the first kept token
      produces no line (an error line, or an extension on the first line). */
  predicate FirstLineRenders(lines: seq<string>, cfg: Config)
    requires AllClassifiable(lines) && MergeSafe(Tokens(lines, cfg), cfg)
  {
    var cleaned := Cleaned(Tokens(lines, cfg), cfg);
    |cleaned| > 0 ==> ProducesLine(cleaned[0].token)
  }

  /** The inputs the source formats without stopping: every line reaching
      the directive test matches the directive pattern, every merged
      extension follows a token with a comment slot, and the first kept
      token produces a line. */
  predicate Formattable(lines: seq<string>, cfg: Config)
  {
    AllClassifiable(lines) && MergeSafe(Tokens(lines, cfg), cfg) && FirstLineRenders(lines, cfg)
  }

  /** The kept tokens, ready to render. */
  function CleanedOf(lines: seq<string>, cfg: Config): (c: seq<Line>)
    requires Formattable(lines, cfg)
    ensures Renderable(c, cfg)
  {
    TokensIndentable(lines, cfg);
    CleanedIndentable(Tokens(lines, cfg), cfg);
    Cleaned(Tokens(lines, cfg), cfg)
  }

  /** The render state after the whole file. */
  function RenderedOf(lines: seq<string>, cfg: Config): RenderState
    requires Formattable(lines, cfg)
  {
    var c := CleanedOf(lines, cfg);
    RenderAll(c, |c|, WidthsOf(Tokens(lines, cfg), cfg), cfg)
  }

  /** The printed output. */
  function Formatted(lines: seq<string>, cfg: Config): seq<string>
    requires Formattable(lines, cfg)
  {
    var st := RenderedOf(lines, cfg);
    EmitAll(st.out, st.maxString, st.maxData, cfg)
  }

  /** `main()` from the line list onwards, with the printed lines and the
      diagnostics returned instead of written. */
  method Format(lines: seq<string>, cfg: Config) returns (output: seq<string>, diags: seq<Diagnostic>)
    requires Formattable(lines, cfg)
    ensures output == Formatted(lines, cfg)
    ensures diags == Diagnostics(Tokens(lines, cfg), |lines|)
  {
    var tokens := Tokenize(lines, cfg);
    TokensUnmarked(lines, cfg);
    var cleaned, w;
    cleaned, w, diags := Aggregate(tokens, cfg);
    assert cleaned == CleanedOf(lines, cfg);
    var parsed, maxString, maxData := Render(cleaned, w, cfg);
    output := Emit(parsed, maxString, maxData, cfg);
  }

  /** The printed line of record r has the comment's `;` at column
      `max_string_size + min_comment_spacing`, the code text unchanged
      before it and only spaces in between; when it fits the file width
      (or widths are not fixed) it is printed as that one line. */
  predicate CommentAtColumn(r: Rendered, maxString: nat, maxData: nat, cfg: Config)
    requires r.Record?
  {
    var col := maxString + cfg.minCommentSpacing;
    var out := Joined(r, maxString, maxData, cfg);
    |r.text| <= col < |out| && out[col] == ';' && out[..|r.text|] == r.text
    && (forall i :: |r.text| <= i < col ==> out[i] == ' ')
    && (!cfg.fixFileWidth || |out| <= cfg.fileWidth ==> EmitLine(r, maxString, maxData, cfg) == [out])
  }

  /** With comment alignment on, every rendered code line whose comment
      goes to the common column and which fits the file width is printed
      with that comment's `;` at column
      `max_string_size + min_comment_spacing`, the code text before it
      unchanged and only spaces in between. */
  lemma CommentsAligned(c: seq<Line>, w: Widths, cfg: Config, k: nat)
    requires Renderable(c, cfg) && cfg.alignComments
    requires k < |RenderAll(c, |c|, w, cfg).out|
    requires UsesCommentColumn(RenderAll(c, |c|, w, cfg).out[k], cfg)
    ensures var st := RenderAll(c, |c|, w, cfg);
      CommentAtColumn(st.out[k], st.maxString, st.maxData, cfg)
  {
    var st := RenderAll(c, |c|, w, cfg);
    MaxStringBounds(c, |c|, w, cfg);
    AlignedLine(st, cfg, k);
  }

  /** The line at `k` of a state whose common-column lines all fit
      `max_string_size`. */
  lemma AlignedLine(st: RenderState, cfg: Config, k: nat)
    requires cfg.alignComments && StringBound(st, cfg)
    requires k < |st.out| && UsesCommentColumn(st.out[k], cfg)
    ensures CommentAtColumn(st.out[k], st.maxString, st.maxData, cfg)
  {
    AlignedRecord(st.out[k], st.maxString, st.maxData, cfg);
  }

  /** One record under the common-column policy whose code fits
      `max_string_size`. */
  lemma AlignedRecord(r: Rendered, maxString: nat, maxData: nat, cfg: Config)
    requires cfg.alignComments && UsesCommentColumn(r, cfg) && |r.text| <= maxString
    ensures CommentAtColumn(r, maxString, maxData, cfg)
  {
    CommentAtCommonColumn(r, maxString, maxData, cfg);
    if !cfg.fixFileWidth || |Joined(r, maxString, maxData, cfg)| <= cfg.fileWidth {
      EmitUnwrapped(r, maxString, maxData, cfg);
    }
  }

  /** With code alignment on, every kept instruction renders with its
      operands starting at column
      `max_mnemonic_size + min_instruction_operand_spacing` (before the
      indentation), the mnemonic first and spaces after it. */
  lemma OperandsAligned(t: seq<Line>, cfg: Config, k: nat)
    requires MergeSafe(t, cfg) && cfg.alignCodeSection
    requires k < |Cleaned(t, cfg)| && Cleaned(t, cfg)[k].token.Instruction?
    ensures var tok := Cleaned(t, cfg)[k].token;
      var w := WidthsOf(t, cfg);
      exists pad ::
        (RenderToken(tok, w, cfg) == [Record(pad + tok.operands.GetOr(""), tok.comment, false)]
        && |pad| == w.mnemonicWidth + w.operandSpacing
        && |tok.mnemonic| <= |pad| && pad[..|tok.mnemonic|] == tok.mnemonic
        && forall i :: |tok.mnemonic| <= i < |pad| ==> pad[i] == ' ')
  {
    var tok := Cleaned(t, cfg)[k].token;
    var w := WidthsOf(t, cfg);
    CleanedFitsWidths(t, cfg);
    OperandColumn(tok.mnemonic, tok.operands, w, cfg);
  }

  /** With data alignment on, every kept data line renders with its size
      keyword at column `max_label_size + min_data_directive_spacing` and
      its initial values `max_size_size + min_data_initial_value_spacing`
      further on (before the indentation). */
  lemma InitialValuesAligned(t: seq<Line>, cfg: Config, k: nat)
    requires MergeSafe(t, cfg) && cfg.alignDataSection
    requires k < |Cleaned(t, cfg)| && Cleaned(t, cfg)[k].token.Data?
    ensures var tok := Cleaned(t, cfg)[k].token;
      var w := WidthsOf(t, cfg);
      exists labelPad, sizePad ::
        (RenderToken(tok, w, cfg) == [Record(labelPad + sizePad + tok.value, tok.comment, true)]
        && |labelPad| == w.labelWidth + w.directiveSpacing
        && |tok.name| <= |labelPad| && labelPad[..|tok.name|] == tok.name
        && |sizePad| == w.sizeWidth + cfg.minDataInitialValueSpacing
        && |tok.directive| <= |sizePad| && sizePad[..|tok.directive|] == tok.directive)
  {
    var tok := Cleaned(t, cfg)[k].token;
    var w := WidthsOf(t, cfg);
    CleanedFitsWidths(t, cfg);
    InitialValueColumn(tok.name, tok.directive, tok.value, w, cfg);
  }
}
