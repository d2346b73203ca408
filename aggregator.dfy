/** Stage two of the formatter: one indexed pass over the tokens that
    merges comment extensions, normalises case and commas, collapses blank
    lines and collects the column widths, followed by the removal of the
    marked tokens (asm_fixer.py, lines 181-220). */
module Aggregator {
  import opened Text
  import opened Wrappers
  import opened Options
  import opened Patterns
  import opened Classifier
  import Commas

  /** A report for an unrecognised line: its 1-based number and its text. */
  datatype Diagnostic = Diagnostic(line: nat, text: string)

  /** The running maxima of the pass, and the two spacings, which the
      source unifies together with the label and mnemonic widths when code
      and data are aligned together. */
  datatype Widths = Widths(
    labelWidth: nat,
    sizeWidth: nat,
    mnemonicWidth: nat,
    fieldWidth: nat,
    operandSpacing: nat,
    directiveSpacing: nat)

  /** The four measured columns. */
  datatype Column = LabelColumn | SizeColumn | MnemonicColumn | FieldColumn

  /** The width a token contributes to a column: data labels and size
      keywords, instruction mnemonics and header fields; 0 for the rest. */
  function ColumnWidth(tok: Token, c: Column): nat
  {
    match c
    case LabelColumn => if tok.Data? then |tok.name| else 0
    case SizeColumn => if tok.Data? then |tok.directive| else 0
    case MnemonicColumn => if tok.Instruction? then |tok.mnemonic| else 0
    case FieldColumn => if tok.Header? then |tok.field| else 0
  }

  /** The running maximum of a column over the first n lines, from 0. */
  function MaxColumn(t: seq<Line>, c: Column, n: nat): nat
    requires n <= |t|
  {
    if n == 0 then 0 else Max(MaxColumn(t, c, n - 1), ColumnWidth(t[n - 1].token, c))
  }

  function WidthsOf(t: seq<Line>, cfg: Config): Widths
  {
    var labels := MaxColumn(t, LabelColumn, |t|);
    var mnemonics := MaxColumn(t, MnemonicColumn, |t|);
    var w := Widths(labels, MaxColumn(t, SizeColumn, |t|), mnemonics, MaxColumn(t, FieldColumn, |t|),
                    cfg.minInstructionOperandSpacing, cfg.minDataDirectiveSpacing);
    if cfg.alignCodeAndDataTogether then
      var spacing := Max(cfg.minInstructionOperandSpacing, cfg.minDataDirectiveSpacing);
      w.(labelWidth := Max(labels, mnemonics), mnemonicWidth := Max(labels, mnemonics),
         operandSpacing := spacing, directiveSpacing := spacing)
    else w
  }

  /** Line j is an extension folded into line j - 1. */
  predicate MergedAt(t: seq<Line>, cfg: Config, j: int)
  {
    cfg.fixFileWidth && 0 < j < |t| && t[j].token.Extension?
  }

  /** Line j is a blank whose predecessor still has the blank type when j
      is reached: a blank that was itself collapsed no longer does. */
  predicate CollapsedAt(t: seq<Line>, cfg: Config, j: nat)
    requires j < |t|
  {
    cfg.fixBlankLines && j > 0 && t[j].token.BlankLine? && t[j - 1].token.BlankLine?
    && !CollapsedAt(t, cfg, j - 1)
  }

  predicate RemovedAt(t: seq<Line>, cfg: Config, j: nat)
    requires j < |t|
  {
    MergedAt(t, cfg, j) || CollapsedAt(t, cfg, j)
  }

  /** Case normalisation (lines 192-198): mnemonics to lower case, data
      size keywords and directives to upper case. */
  function Capitalize(tok: Token, cfg: Config): Token
  {
    if !cfg.fixCapitalization then tok
    else match tok
      case Instruction(m, ops, c) => Instruction(Lower(m), ops, c)
      case Data(n, d, v, c) => Data(n, Upper(d), v, c)
      case Directive(v, c) => Directive(Upper(v), c)
      case _ => tok
  }

  /** Comma normalisation of initial values and operands (lines 203-209). */
  function SpaceCommas(tok: Token, cfg: Config): Token
  {
    match tok
    case Data(n, d, v, c) =>
      if cfg.addSpacesBetweenInitialValues then Data(n, d, Commas.Normalize(v), c) else tok
    case Instruction(m, Some(ops), c) =>
      if cfg.addSpacesBetweenOperands then Instruction(m, Some(Commas.Normalize(ops)), c) else tok
    case _ => tok
  }

  function Normalize(tok: Token, cfg: Config): Token
  {
    SpaceCommas(Capitalize(tok, cfg), cfg)
  }

  /** Fold the text of an extension into the token before it: a comment
      gains it on its text, any other record on its trailing comment. */
  function MergeInto(tok: Token, text: string): Token
    requires tok.IsComment() || tok.HasCommentSlot()
  {
    match tok
    case Extension(s) => Extension(s + " " + text)
    case Header(f, s) => Header(f, s + " " + text)
    case FullLine(s) => FullLine(s + " " + text)
    case Directive(v, c) => Directive(v, Some(c.GetOr("") + " " + text))
    case Data(n, d, v, c) => Data(n, d, v, Some(c.GetOr("") + " " + text))
    case Procedure(n, k, c) => Procedure(n, k, Some(c.GetOr("") + " " + text))
    case Instruction(m, ops, c) => Instruction(m, ops, Some(c.GetOr("") + " " + text))
  }

  /** The source reads the `comment` entry of the token before a merged
      extension; it exists only on a comment (not itself already merged)
      or on a record with a trailing comment. Any other predecessor stops
      the source with a `KeyError`. */
  predicate MergeSafe(t: seq<Line>, cfg: Config)
  {
    forall j :: 0 < j < |t| && MergedAt(t, cfg, j) ==>
      !MergedAt(t, cfg, j - 1) && (t[j - 1].token.IsComment() || t[j - 1].token.HasCommentSlot())
  }

  /** No line carries the removal mark before the pass. */
  predicate Unmarked(t: seq<Line>)
  {
    forall j :: 0 <= j < |t| ==> !t[j].token.ToRemove?
  }

  /** The type of line j once the pass has reached it. */
  function Settled(t: seq<Line>, cfg: Config, j: nat): Token
    requires j < |t|
  {
    if RemovedAt(t, cfg, j) then ToRemove else Normalize(t[j].token, cfg)
  }

  /** Line j once the whole pass is over: the extension after it, if
      merged, has been folded in. */
  function Processed(t: seq<Line>, cfg: Config, j: nat): Line
    requires j < |t| && MergeSafe(t, cfg)
  {
    if MergedAt(t, cfg, j + 1) then
      Line(MergeInto(Settled(t, cfg, j), t[j + 1].token.text), t[j].indent)
    else Line(Settled(t, cfg, j), t[j].indent)
  }

  /** The processed lines among the first n that are not marked removed. */
  function Kept(t: seq<Line>, cfg: Config, n: nat): seq<Line>
    requires n <= |t| && MergeSafe(t, cfg)
  {
    if n == 0 then []
    else Kept(t, cfg, n - 1) + (if RemovedAt(t, cfg, n - 1) then [] else [Processed(t, cfg, n - 1)])
  }

  function Cleaned(t: seq<Line>, cfg: Config): seq<Line>
    requires MergeSafe(t, cfg)
  {
    Kept(t, cfg, |t|)
  }

  /** One diagnostic per error line among the first n, in order. */
  function Diagnostics(t: seq<Line>, n: nat): seq<Diagnostic>
    requires n <= |t|
  {
    if n == 0 then []
    else Diagnostics(t, n - 1) + (if t[n - 1].token.Error? then [Diagnostic(n, t[n - 1].token.text)] else [])
  }

  /** Normalisation keeps the kind of a token and the width of every
      measured column; merging keeps the kind and the columns too. */
  lemma NormalizeKeepsShape(tok: Token, cfg: Config, c: Column)
    ensures Normalize(tok, cfg).IsComment() == tok.IsComment()
    ensures Normalize(tok, cfg).HasCommentSlot() == tok.HasCommentSlot()
    ensures Normalize(tok, cfg).BlankLine? == tok.BlankLine?
    ensures Normalize(tok, cfg).Error? == tok.Error?
    ensures Normalize(tok, cfg).Extension? == tok.Extension?
    ensures Normalize(tok, cfg).Procedure? == tok.Procedure?
    ensures Normalize(tok, cfg).Data? == tok.Data?
    ensures Normalize(tok, cfg).Instruction? == tok.Instruction?
    ensures Normalize(tok, cfg).Header? == tok.Header?
    ensures Normalize(tok, cfg).FullLine? == tok.FullLine?
    ensures Normalize(tok, cfg).Directive? == tok.Directive?
    ensures !Normalize(tok, cfg).ToRemove? <== !tok.ToRemove?
    ensures ColumnWidth(Normalize(tok, cfg), c) == ColumnWidth(tok, c)
  {
  }

  /** The token before a merged extension is still unremoved when the
      extension is reached, and can take a comment. */
  lemma MergeTarget(t: seq<Line>, cfg: Config, j: nat)
    requires MergeSafe(t, cfg) && MergedAt(t, cfg, j + 1)
    ensures !RemovedAt(t, cfg, j)
    ensures Settled(t, cfg, j) == Normalize(t[j].token, cfg)
    ensures Settled(t, cfg, j).IsComment() || Settled(t, cfg, j).HasCommentSlot()
  {
    assert !t[j].token.BlankLine?;
  }

  /** A processed line carries the removal mark exactly when it was
      merged or collapsed. */
  lemma ProcessedRemoved(t: seq<Line>, cfg: Config, j: nat)
    requires j < |t| && MergeSafe(t, cfg) && Unmarked(t)
    ensures Processed(t, cfg, j).token.ToRemove? <==> RemovedAt(t, cfg, j)
  {
    NormalizeKeepsShape(t[j].token, cfg, LabelColumn);
    if MergedAt(t, cfg, j + 1) {
      MergeTarget(t, cfg, j);
    }
  }

  /** Within a run of blank lines that starts after a non-blank line (or
      at the top), the k-th blank is collapsed exactly when k is odd and
      blank-line fixing is on: a collapsed blank no longer has the blank
      type, so the blank after it survives. */
  lemma {:induction false} BlankRunParity(t: seq<Line>, cfg: Config, s: nat, n: nat)
    requires s + n <= |t|
    requires forall k :: s <= k < s + n ==> t[k].token.BlankLine?
    requires s == 0 || !t[s - 1].token.BlankLine?
    ensures forall j :: s <= j < s + n ==> (CollapsedAt(t, cfg, j) <==> cfg.fixBlankLines && (j - s) % 2 == 1)
  {
    if n > 0 {
      BlankRunParity(t, cfg, s, n - 1);
      var j := s + n - 1;
      if j > s {
        assert CollapsedAt(t, cfg, j - 1) <==> cfg.fixBlankLines && (j - 1 - s) % 2 == 1;
        assert CollapsedAt(t, cfg, j) <==> cfg.fixBlankLines && !CollapsedAt(t, cfg, j - 1);
        assert (j - 1 - s) % 2 == 1 <==> (j - s) % 2 == 0;
      } else {
        assert !CollapsedAt(t, cfg, j);
      }
    }
  }

  /** The number of lines among s..s+n-1 that are not collapsed. */
  function SurvivingBlanks(t: seq<Line>, cfg: Config, s: nat, n: nat): nat
    requires s + n <= |t|
  {
    if n == 0 then 0 else SurvivingBlanks(t, cfg, s, n - 1) + (if CollapsedAt(t, cfg, s + n - 1) then 0 else 1)
  }

  /** A run of n blank lines keeps ceil(n/2) of them when blank-line fixing
      is on, and all of them when it is off. */
  lemma {:induction false} BlankRunSurvivors(t: seq<Line>, cfg: Config, s: nat, n: nat)
    requires s + n <= |t|
    requires forall k :: s <= k < s + n ==> t[k].token.BlankLine?
    requires s == 0 || !t[s - 1].token.BlankLine?
    ensures SurvivingBlanks(t, cfg, s, n) == if cfg.fixBlankLines then (n + 1) / 2 else n
  {
    if n > 0 {
      BlankRunSurvivors(t, cfg, s, n - 1);
      BlankRunParity(t, cfg, s, n);
      assert CollapsedAt(t, cfg, s + n - 1) <==> cfg.fixBlankLines && (n - 1) % 2 == 1;
    }
  }

  /** Each running maximum bounds its column on every line and is either 0
      or the width of one of them. */
  lemma {:induction false} MaxColumnIsMaximum(t: seq<Line>, c: Column, n: nat)
    requires n <= |t|
    ensures forall j :: 0 <= j < n ==> ColumnWidth(t[j].token, c) <= MaxColumn(t, c, n)
    ensures MaxColumn(t, c, n) == 0 || exists j :: 0 <= j < n && ColumnWidth(t[j].token, c) == MaxColumn(t, c, n)
  {
    if n > 0 {
      MaxColumnIsMaximum(t, c, n - 1);
    }
  }

  /** Processing keeps the measured columns of a token. */
  lemma ProcessedKeepsWidths(t: seq<Line>, cfg: Config, j: nat, c: Column)
    requires j < |t| && MergeSafe(t, cfg) && !RemovedAt(t, cfg, j)
    ensures ColumnWidth(Processed(t, cfg, j).token, c) == ColumnWidth(t[j].token, c)
    ensures Processed(t, cfg, j).token.Extension? == t[j].token.Extension?
  {
    CapitalizeKeepsWidths(t[j].token, cfg);
  }

  /** Every kept line is the processed form of a line at or after its own
      position that was not removed. */
  lemma {:induction false} KeptOrigin(t: seq<Line>, cfg: Config, n: nat)
    requires n <= |t| && MergeSafe(t, cfg)
    ensures |Kept(t, cfg, n)| <= n
    ensures forall k :: 0 <= k < |Kept(t, cfg, n)| ==>
      exists j :: k <= j < n && !RemovedAt(t, cfg, j) && Kept(t, cfg, n)[k] == Processed(t, cfg, j)
  {
    if n > 0 {
      KeptOrigin(t, cfg, n - 1);
      var prev := Kept(t, cfg, n - 1);
      forall k | 0 <= k < |Kept(t, cfg, n)|
        ensures exists j :: k <= j < n && !RemovedAt(t, cfg, j) && Kept(t, cfg, n)[k] == Processed(t, cfg, j)
      {
        if k < |prev| {
          assert Kept(t, cfg, n)[k] == prev[k];
        } else {
          assert Kept(t, cfg, n)[k] == Processed(t, cfg, n - 1);
        }
      }
    }
  }

  /** The indices of the lines among the first n that the filter keeps. */
  function KeptIndices(t: seq<Line>, cfg: Config, n: nat): seq<nat>
    requires n <= |t| && MergeSafe(t, cfg)
  {
    if n == 0 then []
    else KeptIndices(t, cfg, n - 1) + (if RemovedAt(t, cfg, n - 1) then [] else [n - 1])
  }

  /** The filter keeps order: the k-th kept line is the processed form of
      the k-th unremoved line, the origins increase, and every unremoved
      line is among them. */
  lemma KeptInOrder(t: seq<Line>, cfg: Config, n: nat)
    requires n <= |t| && MergeSafe(t, cfg)
    ensures var ix := KeptIndices(t, cfg, n);
      && |ix| == |Kept(t, cfg, n)|
      && (forall k :: 0 <= k < |ix| ==>
            ix[k] < n && !RemovedAt(t, cfg, ix[k]) && Kept(t, cfg, n)[k] == Processed(t, cfg, ix[k]))
      && (forall k, l :: 0 <= k < l < |ix| ==> ix[k] < ix[l])
      && (forall j :: 0 <= j < n && !RemovedAt(t, cfg, j) ==> j in ix)
  {
    KeptIndicesExact(t, cfg, n);
    KeptAtIndices(t, cfg, n);
  }

  /** The kept indices increase, and are exactly the unremoved ones. */
  lemma KeptIndicesExact(t: seq<Line>, cfg: Config, n: nat)
    requires n <= |t| && MergeSafe(t, cfg)
    ensures var ix := KeptIndices(t, cfg, n);
      && (forall k :: 0 <= k < |ix| ==> ix[k] < n && !RemovedAt(t, cfg, ix[k]))
      && (forall k, l :: 0 <= k < l < |ix| ==> ix[k] < ix[l])
      && (forall j :: 0 <= j < n && !RemovedAt(t, cfg, j) ==> j in ix)
  {
    KeptIndicesBelow(t, cfg, n);
    KeptIndicesIncrease(t, cfg, n);
    KeptIndicesComplete(t, cfg, n);
  }

  lemma {:induction false} KeptIndicesBelow(t: seq<Line>, cfg: Config, n: nat)
    requires n <= |t| && MergeSafe(t, cfg)
    ensures forall k :: 0 <= k < |KeptIndices(t, cfg, n)| ==>
      KeptIndices(t, cfg, n)[k] < n && !RemovedAt(t, cfg, KeptIndices(t, cfg, n)[k])
  {
    if n > 0 {
      KeptIndicesBelow(t, cfg, n - 1);
      var prev := KeptIndices(t, cfg, n - 1);
      var ix := KeptIndices(t, cfg, n);
      if !RemovedAt(t, cfg, n - 1) {
        assert ix == prev + [n - 1];
        forall k | 0 <= k < |ix|
          ensures ix[k] < n && !RemovedAt(t, cfg, ix[k])
        {
          if k < |prev| {
            assert ix[k] == prev[k];
          }
        }
      } else {
        assert ix == prev;
      }
    }
  }

  lemma {:induction false} KeptIndicesIncrease(t: seq<Line>, cfg: Config, n: nat)
    requires n <= |t| && MergeSafe(t, cfg)
    ensures forall k, l :: 0 <= k < l < |KeptIndices(t, cfg, n)| ==>
      KeptIndices(t, cfg, n)[k] < KeptIndices(t, cfg, n)[l]
  {
    if n > 0 {
      KeptIndicesIncrease(t, cfg, n - 1);
      KeptIndicesBelow(t, cfg, n - 1);
      var prev := KeptIndices(t, cfg, n - 1);
      var ix := KeptIndices(t, cfg, n);
      if !RemovedAt(t, cfg, n - 1) {
        assert ix == prev + [n - 1];
        forall k, l | 0 <= k < l < |ix|
          ensures ix[k] < ix[l]
        {
          assert ix[k] == prev[k];
          if l < |prev| {
            assert ix[l] == prev[l];
          }
        }
      } else {
        assert ix == prev;
      }
    }
  }

  lemma {:induction false} KeptIndicesComplete(t: seq<Line>, cfg: Config, n: nat)
    requires n <= |t| && MergeSafe(t, cfg)
    ensures forall j :: 0 <= j < n && !RemovedAt(t, cfg, j) ==> j in KeptIndices(t, cfg, n)
  {
    if n > 0 {
      KeptIndicesComplete(t, cfg, n - 1);
      var prev := KeptIndices(t, cfg, n - 1);
      var ix := KeptIndices(t, cfg, n);
      if !RemovedAt(t, cfg, n - 1) {
        assert ix == prev + [n - 1];
        assert ix[|prev|] == n - 1;
      } else {
        assert ix == prev;
      }
    }
  }

  /** The k-th kept line is the processed form of the k-th kept index. */
  lemma {:induction false} KeptAtIndices(t: seq<Line>, cfg: Config, n: nat)
    requires n <= |t| && MergeSafe(t, cfg)
    ensures var ix := KeptIndices(t, cfg, n);
      && |ix| == |Kept(t, cfg, n)|
      && forall k :: 0 <= k < |ix| ==> ix[k] < n && Kept(t, cfg, n)[k] == Processed(t, cfg, ix[k])
  {
    if n > 0 {
      KeptAtIndices(t, cfg, n - 1);
      var prev := KeptIndices(t, cfg, n - 1);
      var ix := KeptIndices(t, cfg, n);
      var kept := Kept(t, cfg, n);
      if !RemovedAt(t, cfg, n - 1) {
        assert ix == prev + [n - 1];
        assert kept == Kept(t, cfg, n - 1) + [Processed(t, cfg, n - 1)];
        forall k | 0 <= k < |ix|
          ensures ix[k] < n && kept[k] == Processed(t, cfg, ix[k])
        {
          if k < |prev| {
            assert ix[k] == prev[k] && kept[k] == Kept(t, cfg, n - 1)[k];
          }
        }
      } else {
        assert ix == prev && kept == Kept(t, cfg, n - 1);
      }
    }
  }

  /** A data label and size keyword, a mnemonic or a header field no wider
      than the width collected for its column. */
  predicate FitsWidths(tok: Token, w: Widths)
  {
    (tok.Data? ==> |tok.name| <= w.labelWidth && |tok.directive| <= w.sizeWidth)
    && (tok.Instruction? ==> |tok.mnemonic| <= w.mnemonicWidth)
    && (tok.Header? ==> |tok.field| <= w.fieldWidth)
  }

  /** After the pass every kept data label, size keyword, mnemonic and
      header field fits the width collected for its column, so padding to
      that width lines them all up. */
  lemma CleanedFitsWidths(t: seq<Line>, cfg: Config)
    requires MergeSafe(t, cfg)
    ensures forall k :: 0 <= k < |Cleaned(t, cfg)| ==> FitsWidths(Cleaned(t, cfg)[k].token, WidthsOf(t, cfg))
  {
    forall k | 0 <= k < |Cleaned(t, cfg)|
      ensures FitsWidths(Cleaned(t, cfg)[k].token, WidthsOf(t, cfg))
    {
      KeptWithinColumns(t, cfg, k);
      ColumnsFitWidths(Cleaned(t, cfg)[k].token, t, cfg);
    }
  }

  /** A kept token is no wider in any column than the column's maximum. */
  lemma KeptWithinColumns(t: seq<Line>, cfg: Config, k: nat)
    requires MergeSafe(t, cfg) && k < |Cleaned(t, cfg)|
    ensures forall c :: ColumnWidth(Cleaned(t, cfg)[k].token, c) <= MaxColumn(t, c, |t|)
  {
    KeptOrigin(t, cfg, |t|);
    var j :| k <= j < |t| && !RemovedAt(t, cfg, j) && Cleaned(t, cfg)[k] == Processed(t, cfg, j);
    forall c ensures ColumnWidth(Cleaned(t, cfg)[k].token, c) <= MaxColumn(t, c, |t|) {
      ProcessedKeepsWidths(t, cfg, j, c);
      MaxColumnIsMaximum(t, c, |t|);
    }
  }

  /** Column maxima bound the widths, also once they are unified. */
  lemma ColumnsFitWidths(tok: Token, t: seq<Line>, cfg: Config)
    requires forall c :: ColumnWidth(tok, c) <= MaxColumn(t, c, |t|)
    ensures FitsWidths(tok, WidthsOf(t, cfg))
  {
    var w := WidthsOf(t, cfg);
    var labels, sizes := MaxColumn(t, LabelColumn, |t|), MaxColumn(t, SizeColumn, |t|);
    var mnemonics, fields := MaxColumn(t, MnemonicColumn, |t|), MaxColumn(t, FieldColumn, |t|);
    assert labels <= w.labelWidth && sizes <= w.sizeWidth && mnemonics <= w.mnemonicWidth && fields <= w.fieldWidth;
    assert ColumnWidth(tok, LabelColumn) <= labels && ColumnWidth(tok, SizeColumn) <= sizes;
    assert ColumnWidth(tok, MnemonicColumn) <= mnemonics && ColumnWidth(tok, FieldColumn) <= fields;
  }

  /** With file-width fixing on, no extension survives except one on the
      very first line, which has nothing before it to merge into. */
  lemma NoExtensionAfterFirst(t: seq<Line>, cfg: Config)
    requires MergeSafe(t, cfg) && cfg.fixFileWidth
    ensures forall k :: 0 < k < |Cleaned(t, cfg)| ==> !Cleaned(t, cfg)[k].token.Extension?
  {
    var cleaned := Cleaned(t, cfg);
    KeptOrigin(t, cfg, |t|);
    forall k | 0 < k < |cleaned|
      ensures !cleaned[k].token.Extension?
    {
      var j :| k <= j < |t| && !RemovedAt(t, cfg, j) && cleaned[k] == Processed(t, cfg, j);
      ProcessedKeepsWidths(t, cfg, j, LabelColumn);
    }
  }

  /** The merge of lines 186-191: the text of an extension on line j + 1
      ends up, after a space, on the value of a comment before it or on the
      trailing comment of a record before it (an absent comment counting as
      empty); nothing else about that token changes. */
  lemma MergeFolds(t: seq<Line>, cfg: Config, j: nat)
    requires MergeSafe(t, cfg) && MergedAt(t, cfg, j + 1)
    ensures RemovedAt(t, cfg, j + 1) && !RemovedAt(t, cfg, j)
    ensures var before := Normalize(t[j].token, cfg);
      var after := Processed(t, cfg, j).token;
      var text := t[j + 1].token.text;
      (before.IsComment() ==> after == before.(text := before.text + " " + text)) &&
      (before.HasCommentSlot() ==> after == before.(comment := Some(before.comment.GetOr("") + " " + text)))
  {
    MergeTarget(t, cfg, j);
  }

  /** The diagnostics name exactly the error lines, by 1-based number and
      text, in increasing order. */
  lemma {:induction false} DiagnosticsExact(t: seq<Line>, n: nat)
    requires n <= |t|
    ensures forall d :: d in Diagnostics(t, n) ==> 1 <= d.line <= n && t[d.line - 1].token == Error(d.text)
    ensures forall j :: 0 <= j < n && t[j].token.Error? ==> Diagnostic(j + 1, t[j].token.text) in Diagnostics(t, n)
    ensures forall a, b :: 0 <= a < b < |Diagnostics(t, n)| ==> Diagnostics(t, n)[a].line < Diagnostics(t, n)[b].line
  {
    if n > 0 {
      DiagnosticsExact(t, n - 1);
    }
  }

  /** Case normalisation keeps the kind of a token and the width of each
      of its measured columns. */
  lemma CapitalizeKeepsWidths(tok: Token, cfg: Config)
    ensures Capitalize(tok, cfg).Error? == tok.Error?
    ensures Capitalize(tok, cfg).Data? == tok.Data?
    ensures Capitalize(tok, cfg).Instruction? == tok.Instruction?
    ensures Capitalize(tok, cfg).BlankLine? == tok.BlankLine?
    ensures Capitalize(tok, cfg).Header? == tok.Header?
    ensures Capitalize(tok, cfg).Error? ==> Capitalize(tok, cfg) == tok
    ensures Capitalize(tok, cfg).Header? ==> Capitalize(tok, cfg) == tok
    ensures forall c :: ColumnWidth(Capitalize(tok, cfg), c) == ColumnWidth(tok, c)
  {
  }

  /** Lines 186-198 for line i: a merged extension is folded into the
      token before it and marked for removal; then the case of mnemonics,
      size keywords and directives is normalised. Returns the record
      `tokens[i]` as updated so far. */
  method FoldAndCapitalize(t: seq<Line>, cfg: Config, toks: seq<Line>, i: nat) returns (toks': seq<Line>, tok: Token)
    requires MergeSafe(t, cfg) && i < |t| == |toks|
    requires forall j :: i <= j < |t| ==> toks[j] == t[j]
    requires i > 0 ==> toks[i - 1] == Line(Settled(t, cfg, i - 1), t[i - 1].indent)
    ensures |toks'| == |t|
    ensures forall j :: 0 <= j < |t| && j != i - 1 ==> toks'[j] == toks[j]
    ensures i > 0 ==> toks'[i - 1] == Processed(t, cfg, i - 1)
    ensures tok == if MergedAt(t, cfg, i) then ToRemove else Capitalize(t[i].token, cfg)
    ensures forall c :: ColumnWidth(tok, c) == ColumnWidth(t[i].token, c)
  {
    toks' := toks;
    tok := toks[i].token;
    if cfg.fixFileWidth && i > 0 && tok.Extension? {
      MergeTarget(t, cfg, i - 1);
      toks' := toks[i - 1 := toks[i - 1].(token := MergeInto(toks[i - 1].token, tok.text))];
      tok := ToRemove;
    }
    if cfg.fixCapitalization {
      match tok {
        case Instruction(m, ops, c) => tok := Instruction(Lower(m), ops, c);
        case Data(n, d, v, c) => tok := Data(n, Upper(d), v, c);
        case Directive(v, c) => tok := Directive(Upper(v), c);
        case _ =>
      }
    }
    CapitalizeKeepsWidths(t[i].token, cfg);
  }

  /** Lines 199-214 for line i: report an error, measure a data line,
      an instruction or a header and space its commas, or mark a blank line
      that follows a blank line. `prev` is `tokens[i - 1]` as it stands. */
  method Tally(t: seq<Line>, cfg: Config, i: nat, tok: Token, prev: Token,
               maxLabel: nat, maxSize: nat, maxMnemonic: nat, maxField: nat, diags: seq<Diagnostic>)
    returns (tok': Token, maxLabel': nat, maxSize': nat, maxMnemonic': nat, maxField': nat, diags': seq<Diagnostic>)
    requires MergeSafe(t, cfg) && Unmarked(t) && i < |t|
    requires tok == if MergedAt(t, cfg, i) then ToRemove else Capitalize(t[i].token, cfg)
    requires i > 0 ==> prev == Processed(t, cfg, i - 1).token
    requires maxLabel == MaxColumn(t, LabelColumn, i) && maxSize == MaxColumn(t, SizeColumn, i)
    requires maxMnemonic == MaxColumn(t, MnemonicColumn, i) && maxField == MaxColumn(t, FieldColumn, i)
    requires diags == Diagnostics(t, i)
    ensures tok' == Settled(t, cfg, i)
    ensures maxLabel' == MaxColumn(t, LabelColumn, i + 1) && maxSize' == MaxColumn(t, SizeColumn, i + 1)
    ensures maxMnemonic' == MaxColumn(t, MnemonicColumn, i + 1) && maxField' == MaxColumn(t, FieldColumn, i + 1)
    ensures diags' == Diagnostics(t, i + 1)
  {
    CapitalizeKeepsWidths(t[i].token, cfg);
    tok', maxLabel', maxSize', maxMnemonic', maxField', diags' := tok, maxLabel, maxSize, maxMnemonic, maxField, diags;
    if tok.Error? {
      diags' := diags + [Diagnostic(i + 1, tok.text)];
    } else if tok.Data? {
      maxLabel' := Max(maxLabel, |tok.name|);
      maxSize' := Max(maxSize, |tok.directive|);
      if cfg.addSpacesBetweenInitialValues {
        tok' := Data(tok.name, tok.directive, Commas.Normalize(tok.value), tok.comment);
      }
    } else if tok.Instruction? {
      maxMnemonic' := Max(maxMnemonic, |tok.mnemonic|);
      if cfg.addSpacesBetweenOperands && tok.operands.Some? {
        tok' := Instruction(tok.mnemonic, Some(Commas.Normalize(tok.operands.value)), tok.comment);
      }
    } else if cfg.fixBlankLines && i > 0 && tok.BlankLine? {
      NormalizeKeepsShape(t[i - 1].token, cfg, LabelColumn);
      if prev.BlankLine? {
        tok' := ToRemove;
      }
    } else if tok.Header? {
      maxField' := Max(maxField, |tok.field|);
    }
  }

  /** The indexed pass of lines 184-218 on a local copy of the token list,
      updated by index. */
  method ProcessTokens(t: seq<Line>, cfg: Config) returns (toks: seq<Line>, w: Widths, diags: seq<Diagnostic>)
    requires MergeSafe(t, cfg) && Unmarked(t)
    ensures |toks| == |t|
    ensures forall j :: 0 <= j < |t| ==> toks[j] == Processed(t, cfg, j)
    ensures w == WidthsOf(t, cfg)
    ensures diags == Diagnostics(t, |t|)
  {
    toks := t;
    var maxField, maxLabel, maxSize, maxMnemonic := 0, 0, 0, 0;
    diags := [];
    for i := 0 to |t|
      invariant |toks| == |t|
      invariant forall j :: i <= j < |t| ==> toks[j] == t[j]
      invariant forall j :: 0 <= j < i ==>
        toks[j] == if j + 1 < i then Processed(t, cfg, j) else Line(Settled(t, cfg, j), t[j].indent)
      invariant maxLabel == MaxColumn(t, LabelColumn, i)
      invariant maxSize == MaxColumn(t, SizeColumn, i)
      invariant maxMnemonic == MaxColumn(t, MnemonicColumn, i)
      invariant maxField == MaxColumn(t, FieldColumn, i)
      invariant diags == Diagnostics(t, i)
    {
      var tok;
      toks, tok := FoldAndCapitalize(t, cfg, toks, i);
      var prev := if i > 0 then toks[i - 1].token else tok;
      tok, maxLabel, maxSize, maxMnemonic, maxField, diags :=
        Tally(t, cfg, i, tok, prev, maxLabel, maxSize, maxMnemonic, maxField, diags);
      toks := toks[i := toks[i].(token := tok)];
    }
    w := Widths(maxLabel, maxSize, maxMnemonic, maxField,
                cfg.minInstructionOperandSpacing, cfg.minDataDirectiveSpacing);
    if cfg.alignCodeAndDataTogether {
      var m := Max(maxLabel, maxMnemonic);
      var spacing := Max(cfg.minInstructionOperandSpacing, cfg.minDataDirectiveSpacing);
      w := w.(labelWidth := m, mnemonicWidth := m, operandSpacing := spacing, directiveSpacing := spacing);
    }
  }

  /** The filter of line 220: the tokens not marked for removal, in order. */
  method RemoveMarked(t: seq<Line>, cfg: Config, toks: seq<Line>) returns (cleaned: seq<Line>)
    requires MergeSafe(t, cfg) && Unmarked(t)
    requires |toks| == |t|
    requires forall j :: 0 <= j < |t| ==> toks[j] == Processed(t, cfg, j)
    ensures cleaned == Cleaned(t, cfg)
  {
    cleaned := [];
    for i := 0 to |t|
      invariant cleaned == Kept(t, cfg, i)
    {
      assert toks[i] == Processed(t, cfg, i);
      ProcessedRemoved(t, cfg, i);
      assert Kept(t, cfg, i + 1) == Kept(t, cfg, i) + (if RemovedAt(t, cfg, i) then [] else [Processed(t, cfg, i)]);
      if !toks[i].token.ToRemove? {
        cleaned := cleaned + [toks[i]];
      }
    }
  }

  /** Lines 181-220: the pass, then the filter. */
  method Aggregate(t: seq<Line>, cfg: Config) returns (cleaned: seq<Line>, w: Widths, diags: seq<Diagnostic>)
    requires MergeSafe(t, cfg) && Unmarked(t)
    ensures cleaned == Cleaned(t, cfg)
    ensures w == WidthsOf(t, cfg)
    ensures diags == Diagnostics(t, |t|)
  {
    var toks;
    toks, w, diags := ProcessTokens(t, cfg);
    cleaned := RemoveMarked(t, cfg, toks);
  }
}
