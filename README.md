# asm_fixer formatting pipeline in Dafny

asm_fixer reformats an x86 assembly source file into a canonical layout. It
normalises capitalisation, aligns operands, initial values and comments,
collapses blank lines, re-indents procedure bodies and wraps long comment
lines. This project models the body of `main()` from the list of input lines
to the list of printed lines, in four stages:

- **Classifier** (`classifier.dfy`, `patterns.dfy`). Every stripped line
  becomes one token. The token is chosen by the first of nine tests that
  passes: blank, comment extension, header comment, full-line comment,
  directive, data, procedure, instruction, error. The regular expressions
  are written out as character-class scanners. The header search
  `;.*(Author|Assignment|Date).*:` is a three-state scan, proved equal to the
  pattern's meaning. When `fix_indents` is off, each token keeps its
  leading indentation, with tabs expanded.
- **Aggregator** (`aggregator.dfy`, `commas.dfy`). One indexed pass updates
  the token list in place:
  - it folds comment extensions into the token before them;
  - it lower-cases mnemonics and upper-cases size keywords and directives;
  - it rewrites comma lists as `', '.join(re.split(', ?', …))`;
  - it marks a blank line that follows a blank line;
  - it keeps the running column maxima and reports unrecognised lines.

  A filter then drops the marked tokens. The pass is a method over a local
  sequence. It is proved equal to closed-form specification functions
  (`Settled`, `Processed`, `Kept`, `MaxColumn`, `Diagnostics`), and the
  properties are proved about those functions.
- **Renderer** (`renderer.dfy`). Each kept token appends zero, one or two
  entries to `parsed_tokens`. An entry is a plain string or a
  `{str, comment, data}` record. The last entry is then indented, either by
  the procedure counter or by the original indentation, and measured for
  the comment column. The loop is proved equal to a fold (`RenderAll`) of
  one step function.
- **Emitter** (`emitter.dfy`). Each record gets its comment placed by one of
  three column policies and loses trailing whitespace. A line wider than
  `file_width` is wrapped once, at the last space before the width.

`pipeline.dfy` composes the four stages into `Format`. It states the
column guarantees of the aligned output for every token sequence the stages
accept. `text.dfy` holds the Python string operations the source relies on,
with Python's semantics: `strip`, `ljust`, `rjust`, `find`, `rfind`, and
slices with negative bounds. `options.dfy` holds the configuration record
and its default values.

The formatter is meant to collapse every run of blank lines to one, indent
procedure bodies one level inside their `PROC` and `ENDP` lines, pass
unrecognised lines through, accept every line, give the same output when run
again on its own output, and, with wrapping on, print no line wider than
`file_width` unless the line has no space to break at, in which case it is
printed whole. Where this intended behaviour and the code disagree, the
model follows the code:

- A run of N blank lines keeps ceil(N/2) of them, not one. A blank is
  removed when the line before it is still of blank type, and a removed
  blank has lost that type (`Aggregator.BlankRunSurvivors`).
- So the formatter is not idempotent: three blank lines become two, and a
  second run turns those two into one.
- The procedure counter moves before the prefix is applied. So a `PROC`
  line is indented like its body, and only the `ENDP` line sits one level
  out (`Renderer.LineOfToken`).
- An error token is reported, but produces no output line. It is not
  passed through. Neither is an extension that was not merged. Such a token
  still runs the indentation step on the line before it. With
  `fix_indents` off, that line gets the line-less token's indentation in
  front of its own; with it on, a second `tab_size` spaces per open
  procedure. If that line is a record, it is also measured into
  `max_string_size`, even when it is a data line or a full-line comment
  that would otherwise not be measured (`Renderer.LineLessReindents`).
- Classification is not total: a line that reaches the directive test but
  does not match the directive pattern stops the source.
- The width bound does not hold. A line is wrapped once. The
  continuations of lines 237 and 317 are never wrapped again, so a long
  enough comment leaves a continuation wider than `file_width`
  (`Emitter.ContinuationUnderComment` gives its length).
- A wrapped record with no `;` gets `; ` put in front of the rest of its
  code, which turns that code into comment text
  (`Emitter.ContinuationWithoutComment`).
- A line with no space before the width is not printed whole. `rfind`
  gives -1, so the first line loses its last character and the
  continuation repeats the whole line (`Emitter.WrapWithoutSpace`).

## Model

| member | source | states |
|---|---|---|
| Text.LJust | asm_fixer.py:231 | `ljust`: the result is `max(n, len(s))` long |
| Text.LJustPads | asm_fixer.py:231 | `ljust` keeps `s` in front and pads with spaces only |
| Text.RJust | asm_fixer.py:317 | `rjust`: the result is `max(n, len(s))` long |
| Text.RJustPads | asm_fixer.py:317 | `rjust` keeps `s` at the end and pads on the left with spaces only |
| Text.Spaces | asm_fixer.py:287 | `' ' * n` is `max(n, 0)` characters long, every one a space |
| Text.LStripShape | asm_fixer.py:104 | the left half of `strip()`: a suffix of the input, everything removed is whitespace, and the result does not start with whitespace |
| Text.StripPadded | asm_fixer.py:104 | `strip()` removes exactly the whitespace around the text: the input is whitespace, the result, whitespace, and the result neither starts nor ends with whitespace |
| Text.StripTrailingSpace | asm_fixer.py:137 | a run that starts with a visible character and ends with one, or with one space after one, loses only that space to `strip()` |
| Text.RStripShape | asm_fixer.py:311 | `rstrip()`: a prefix of the input, everything removed is whitespace, and the result does not end with whitespace |
| Text.Find | asm_fixer.py:138 | `find`: the index of the first occurrence, or -1 exactly when there is none |
| Text.RFind | asm_fixer.py:235 | `rfind(c, 0, end)`: the last occurrence below `end`, or -1 when there is none |
| Text.Lower | asm_fixer.py:194 | `lower()`: same length, each character mapped to lower case |
| Text.Upper | asm_fixer.py:196 | `upper()`: same length, each character mapped to upper case |
| Text.CutAtLastSpace | asm_fixer.py:315-316 | when a space exists below the width, `rfind` finds the last such space, the two slices are the text before and after it, and only that space is lost |
| Text.Take | asm_fixer.py:236 | `s[:k]`, a negative k counting from the end, as the slice before `rfind`'s result takes it |
| Text.Drop | asm_fixer.py:237 | `s[k:]` for k >= 0, empty past the end |
| Patterns.RunEnd | asm_fixer.py:141 | the greedy `[class]*` run from i ends at the end of the line or at a character outside the class |
| Patterns.RunEndRun | asm_fixer.py:141 | every character of that run is in the class |
| Patterns.RunEndAt | asm_fixer.py:141 | a run of class characters that stops at a character outside the class is the run `RunEnd` finds, so the greedy run is the only one |
| Patterns.SpacedRunEnd | asm_fixer.py:160 | the `([class] ?)+` run: every character inside is in the class or a space, it is non-empty exactly when the first character is in the class, and it ends at a character outside the class |
| Patterns.SpacedRunEndGreedy | asm_fixer.py:160 | the run is greedy: every space in it follows a class character, and it never stops at a space it could still have taken, so `"a b"` is taken whole |
| Patterns.KeywordChars | asm_fixer.py:119 | a matched `Author`, `Assignment` or `Date` holds no line break, colon or `;` |
| Patterns.KeywordColon | asm_fixer.py:119 | after a keyword, the rest of the pattern matches exactly when a colon follows on the same line |
| Patterns.KeywordSkipsHeader | asm_fixer.py:119 | the pattern matches from a keyword's first letter exactly when it matches from just after the keyword |
| Patterns.KeywordThenColonHasColon | asm_fixer.py:119 | a keyword followed by the rest of the pattern has a colon after it on the same line |
| Patterns.HeaderScanMeaning | asm_fixer.py:119 | each state of the header scan accepts exactly what the rest of `;.*(Author\|Assignment\|Date).*:` accepts from that point, with `.` not crossing a line break |
| Patterns.HeaderScanCorrect | asm_fixer.py:119 | the header scan accepts a line exactly when the case-insensitive pattern occurs somewhere in it |
| Patterns.HeaderScan | asm_fixer.py:119 | the three-state scan for `;.*(Author\|Assignment\|Date).*:`, proved equal to the pattern by the two lemmas above |
| Patterns.IsHeaderComment | asm_fixer.py:119 | the header test: the scan from the first character in its first state |
| Patterns.IsDirectiveLine | asm_fixer.py:134 | the directive test: the line starts with `.` or `INCLUDE`, or holds `END` at offset 2, case-sensitively, since `re.IGNORECASE` is passed as the start index 2 |
| Patterns.DirectiveValue | asm_fixer.py:137 | the value is the whole greedy `([a-zA-Z0-9.] ?)+` run from the first character less the one space the run may end with, that is the run stripped; it is non-empty, starts with the line's first character and ends with a directive character |
| Patterns.ClosingQuote | asm_fixer.py:141 | the closing quote of `".+"` is a quote at least two places on and before any line break, or -1 |
| Patterns.ClosingQuoteMeaning | asm_fixer.py:141 | the scan closes the quote exactly when `".+"` matches; -1 only when no quote follows on the line at least two places on; otherwise no quote follows it on the line, as the greedy `.+` reaches the last one |
| Patterns.ValueEnd | asm_fixer.py:141 | the initial-value group `([0-9a-zA-Z,()?] ?\|".+")+` matches a non-empty run exactly when its first character is a value character or opens a closed quoted string |
| Patterns.ValueEndStops | asm_fixer.py:141 | the greedy value run stops at the end of the line or where neither a value character nor a closed quoted string starts |
| Patterns.ValueEndAfterSpace | asm_fixer.py:141 | the value run does not stop on the optional space after a value character |
| Patterns.ValueEndLast | asm_fixer.py:141 | a non-empty value run ends with a value character, a closing quote, or a value character and its one space |
| Patterns.MatchData | asm_fixer.py:141-147 | a data match has a label of at least two characters that starts the line and starts with a letter or `_`, and a size keyword of length 4, 5 or 6 |
| Patterns.MatchDataMeaning | asm_fixer.py:141-147 | the scanner matches exactly when the line can be cut into a label, blanks, one of `BYTE`, `WORD`, `DWORD`, `QWORD`, `DQWORD` in any case, blanks and a value; every such cut gives the scanner's groups, so the label is maximal, the size keyword is the one in the line, and the values are the greedy value run stripped |
| Patterns.ValueGroupStrips | asm_fixer.py:147 | the values group is the greedy value run with `strip()` applied |
| Patterns.SizeKeywordAt | asm_fixer.py:141 | a size keyword in the line, in any case, is the one the scanner finds, with its length |
| Patterns.SizeKeywordIn | asm_fixer.py:141 | the keyword the scanner finds is one of the five |
| Patterns.MatchProcedure | asm_fixer.py:151-156 | a procedure match has a non-empty label that starts the line and starts with a letter or `_` |
| Patterns.MatchProcedureMeaning | asm_fixer.py:151-156 | the scanner matches exactly when the line is a label, blanks and `PROC` or `ENDP`; the label is the only one the pattern allows, and the kind is the keyword right after the blanks |
| Patterns.MatchInstruction | asm_fixer.py:160-165 | the instruction pattern matches exactly the lines that start with a letter; the mnemonic is the whole alphanumeric run that starts the line; the operands are the operand group after it |
| Patterns.OperandGroup | asm_fixer.py:160-165 | the operand group is present exactly when the blanks after the mnemonic are non-empty and followed by an operand character |
| Patterns.OperandTextStrips | asm_fixer.py:160-165 | the operand text is the greedy `([0-9a-zA-Z,] ?)+` run with `strip()` applied, non-empty, starting and ending with an operand character |
| Patterns.TrailingComment | asm_fixer.py:138 | a trailing comment exists exactly when the first `;` is past index 0, and it is the text two places after that `;` |
| Classifier.ClassifyFirstMatch | asm_fixer.py:106-174 | each token kind is chosen exactly when its own test passes and every earlier test fails, in the fixed order; the removal mark is never produced |
| Classifier.Classify | asm_fixer.py:106-174 | the nine tests in the source's order, each building its token |
| Classifier.HeaderToken | asm_fixer.py:120-125 | the header token cut around the first colon |
| Classifier.CodeToken | asm_fixer.py:133-174 | the directive, data, procedure, instruction and error tests |
| Classifier.ErrorOnlyForOddFirstCharacter | asm_fixer.py:159-174 | an error token arises only for a non-blank line whose first character is not a letter, `;` or `.` |
| Classifier.HeaderHasColon | asm_fixer.py:119-124 | a line that passes the header test has a `:`, so the field and value slices are well defined |
| Classifier.HeaderFields | asm_fixer.py:118-125 | a header line has a first colon; the field holds no colon and is the text between the first character and that colon with only whitespace removed around it; the value is the text after the colon with only whitespace removed around it |
| Classifier.LeadingIndent | asm_fixer.py:103 | the indentation is the whole leading run of spaces and tabs: a prefix of the raw line made only of them, followed by the end of the line or another character |
| Classifier.ExpandTabsSpaces | asm_fixer.py:103 | expanding the tabs of an indentation gives only spaces: one per space and `tab_size` per tab |
| Classifier.ExpandTabs | asm_fixer.py:103 | each tab of the indentation replaced by `tab_size` spaces |
| Classifier.Tokenize | asm_fixer.py:100-178 | one token per line, in order, classified from the stripped line, with the expanded indentation attached exactly when `fix_indents` is off |
| Classifier.TokenOf | asm_fixer.py:102-178 | one physical line: the token of the stripped line, and the expanded indentation exactly when `fix_indents` is off |
| Classifier.Tokens | asm_fixer.py:100-178 | the token of every line, in order, one per line |
| Commas.Split | asm_fixer.py:205 | `re.split(', ?', s)` gives at least one part, and no part holds a comma; `NormalizeIsSpaceAfterCommas` shows that only the commas and the one space after each are cut out |
| Commas.SplitJoin | asm_fixer.py:205 | splitting the join of comma-free parts gives the parts back |
| Commas.SplitFirst | asm_fixer.py:205 | a comma-free piece followed by `', '` is cut off as the first part, and the split goes on with the rest |
| Commas.SplitWhole | asm_fixer.py:205 | a comma-free text is one part |
| Commas.SplitCount | asm_fixer.py:205 | the split has one more part than the text has commas |
| Commas.JoinCount | asm_fixer.py:205 | the join of comma-free parts has one comma per separator |
| Commas.JoinSpaced | asm_fixer.py:205 | every comma of the join is followed by a space |
| Commas.NormalizeProperties | asm_fixer.py:209 | comma normalisation keeps the number of commas, leaves a space after every comma, and is idempotent |
| Commas.NormalizeFixesJoined | asm_fixer.py:209 | a list already joined with `', '` from comma-free parts is left unchanged |
| Commas.Normalize | asm_fixer.py:205 | `', '.join(re.split(', ?', s))` |
| Commas.SpaceAfterCommas | asm_fixer.py:205 | the same rewrite, one character at a time: a comma and its one optional space become `, `, every other character is copied |
| Commas.NormalizeIsSpaceAfterCommas | asm_fixer.py:205 | splitting and joining is exactly that character rewrite, so the text between the commas is kept as it was |
| Commas.SpaceAfterCommasCopies | asm_fixer.py:205 | text before the first comma is copied unchanged |
| Aggregator.NormalizeKeepsShape | asm_fixer.py:192-209 | case and comma normalisation keep a token's kind and the width of every measured column |
| Aggregator.CapitalizeKeepsWidths | asm_fixer.py:192-198 | case normalisation keeps the kind and the column widths, and leaves error and header tokens unchanged |
| Aggregator.MergeTarget | asm_fixer.py:186-190 | the token before a merged extension is not removed itself, and can take a comment |
| Aggregator.MergeFolds | asm_fixer.py:186-191 | a merged extension is removed; a comment before it gains `' ' + text` on its value, and any other token gains `(comment or '') + ' ' + text` on its comment |
| Aggregator.ProcessedRemoved | asm_fixer.py:186-212 | after the pass, a token carries the removal mark exactly when it was merged or collapsed |
| Aggregator.BlankRunParity | asm_fixer.py:210-212 | inside a run of blanks, the k-th blank is removed exactly when `fix_blank_lines` is on and k is odd |
| Aggregator.BlankRunSurvivors | asm_fixer.py:210-220 | a run of N blanks keeps ceil(N/2) blanks with `fix_blank_lines` on, and all N with it off |
| Aggregator.MaxColumnIsMaximum | asm_fixer.py:199-214 | each running maximum is at least every measured width, and is 0 or equal to one of them |
| Aggregator.ProcessedKeepsWidths | asm_fixer.py:186-209 | a kept token's measured widths and extension-ness are those of its input line |
| Aggregator.KeptOrigin | asm_fixer.py:220 | the k-th kept token is the processed form of an unremoved line at index k or later |
| Aggregator.KeptInOrder | asm_fixer.py:220 | the filter keeps order: the kept tokens are the processed forms of the unremoved lines, in increasing line order, and every unremoved line is among them |
| Aggregator.KeptIndicesExact | asm_fixer.py:220 | the indices of the kept lines increase and are exactly the unremoved ones |
| Aggregator.CleanedFitsWidths | asm_fixer.py:201-218 | every kept label, size keyword, mnemonic and header field fits its column width, also after the widths are unified |
| Aggregator.KeptWithinColumns | asm_fixer.py:201-220 | every kept token's measured width in each column is at most that column's running maximum over the whole list |
| Aggregator.ColumnsFitWidths | asm_fixer.py:214-216 | a token within every running maximum also fits the returned widths, after code and data widths are unified |
| Aggregator.NoExtensionAfterFirst | asm_fixer.py:186-191 | with `fix_file_width` on, no kept token after the first is an extension |
| Aggregator.DiagnosticsExact | asm_fixer.py:199-200 | the diagnostics are exactly the error lines, by 1-based number and text, in increasing line order |
| Aggregator.FoldAndCapitalize | asm_fixer.py:186-198 | one step of the pass folds an extension into the previous token and normalises case; nothing else in the list changes |
| Aggregator.Tally | asm_fixer.py:199-214 | one step of the pass settles the token and advances each running maximum and the diagnostics by exactly this line |
| Aggregator.ProcessTokens | asm_fixer.py:181-218 | the pass leaves every token in its processed form, and returns the column maxima (unified when code and data align together) and the diagnostics |
| Aggregator.RemoveMarked | asm_fixer.py:220 | the filter keeps exactly the tokens not marked for removal, in order |
| Aggregator.Aggregate | asm_fixer.py:181-220 | the aggregation stage returns the kept tokens, the widths and the diagnostics |
| Aggregator.MergeInto | asm_fixer.py:186-190 | folding an extension: a comment gains `' ' + text` on its value, any other token gains it on its comment |
| Aggregator.Capitalize | asm_fixer.py:192-198 | mnemonics to lower case, size keywords and directive values to upper case |
| Aggregator.Normalize | asm_fixer.py:192-209 | case normalisation, then comma normalisation of data values and operands when the options ask for it |
| Aggregator.CollapsedAt | asm_fixer.py:210-212 | a blank line is removed when `fix_blank_lines` is on and the line before it is still of blank type |
| Aggregator.WidthsOf | asm_fixer.py:216-218 | the column widths, with label and mnemonic widths and their spacings unified when code and data align together |
| Aggregator.MergedAt | asm_fixer.py:186 | a line is folded into the one before it when `fix_file_width` is on, it is not the first, and it is an extension |
| Aggregator.RemovedAt | asm_fixer.py:191-212 | a line carries the removal mark when it was merged or collapsed |
| Aggregator.SpaceCommas | asm_fixer.py:201-209 | comma normalisation of data values and of present operands, each under its own option |
| Aggregator.MaxColumn | asm_fixer.py:199-214 | the running maximum of a column over the first n lines, from 0 |
| Aggregator.Diagnostics | asm_fixer.py:199-200 | one diagnostic per error line, with its 1-based number and its text, in order |
| Aggregator.Settled | asm_fixer.py:186-212 | a line once the pass has reached it: the removal mark, or its normalised token |
| Aggregator.Processed | asm_fixer.py:186-212 | a line once the pass is over, with the extension after it folded in when that extension was merged |
| Aggregator.Kept | asm_fixer.py:220 | the processed lines among the first n that carry no removal mark, in order |
| Aggregator.Cleaned | asm_fixer.py:220 | the filtered token list |
| Renderer.RenderToken | asm_fixer.py:228-278 | a token renders as at most two lines, and as none exactly for error, unmerged extension and removed tokens |
| Renderer.DepthIsBalance | asm_fixer.py:270-273 | the procedure counter is the number of `PROC` lines seen minus the number of `ENDP` lines |
| Renderer.OutputFrozen | asm_fixer.py:280-289 | later tokens only append, and rewrite only the last line: every earlier line is final |
| Renderer.StepFrozen | asm_fixer.py:280-289 | one render step changes no line before the last one it started with |
| Renderer.LineOfToken | asm_fixer.py:265-289 | with re-indentation on, a token's last line is indented by `tab_size` times the counter after the token, so a `PROC` line sits at the inner depth and an `ENDP` line at the outer one |
| Renderer.LineLessReindents | asm_fixer.py:280-292 | a token that produces no line indents the line before it once more and, when that line is a record, measures it into `max_string_size` whatever its kind; nothing else changes |
| Renderer.MaxStringBounds | asm_fixer.py:291-292 | `max_string_size` is at least the indented width of every line whose comment goes to the common column |
| Renderer.HeaderUnwrapped | asm_fixer.py:238-239 | a header that fits the width, or with wrapping off, renders as one plain line |
| Renderer.HeaderWrap | asm_fixer.py:234-237 | an over-wide header with a space before the width is cut at its last such space; the continuation is `'; '` padded to the value column, then the rest |
| Renderer.HeaderValueColumn | asm_fixer.py:230-231 | with header alignment, the value starts at column `max_field_size + 4`, after `; field:` and spaces |
| Renderer.OperandColumn | asm_fixer.py:276 | with code alignment, the operands start at column `max_mnemonic_size + min_instruction_operand_spacing`, after the mnemonic and spaces |
| Renderer.InitialValueColumn | asm_fixer.py:259 | with data alignment, the size keyword starts at column `max_label_size + min_data_directive_spacing`, and the values start `max_size_size + min_data_initial_value_spacing` further on |
| Renderer.StepKeepsBound | asm_fixer.py:280-292 | one render step keeps `max_string_size` at least the width of every line whose comment goes to the common column |
| Renderer.HeaderCut | asm_fixer.py:233-237 | an over-wide header with a space before the width is cut at the last such space into the text before it and `'; '` padded to the value column followed by the text after it |
| Renderer.AppendHeader | asm_fixer.py:228-239 | the header branch appends exactly the header's one or two lines |
| Renderer.IndentLast | asm_fixer.py:280-292 | the last line gets the indentation of the re-indent policy, and `max_string_size` is updated as the indentation step specifies |
| Renderer.RenderLine | asm_fixer.py:227-292 | one iteration of the render loop is exactly one step of the render fold |
| Renderer.AppendToken | asm_fixer.py:228-278 | one token's lines are appended, the counter moves for `PROC` and `ENDP`, and a data line is measured before indentation |
| Renderer.Render | asm_fixer.py:222-292 | the render loop produces the output lines and both comment-column widths of the render fold |
| Renderer.HeaderLine | asm_fixer.py:230-233 | with header alignment, `; field:` padded to `max_field_size + 4` and then the value; otherwise `; field: value` |
| Renderer.DataText | asm_fixer.py:259 | label, size keyword and values, each padded to its column |
| Renderer.InstructionText | asm_fixer.py:276 | the mnemonic padded to the operand column, then the operands |
| Renderer.IndentPrefix | asm_fixer.py:280-289 | `tab_size` spaces per procedure level, or the original indentation |
| Renderer.Measured | asm_fixer.py:291 | a line feeds `max_string_size` when it is a record of a non-data token, or a data line whose comments align with the code, and never when it is a full-line comment |
| Renderer.ProducesLine | asm_fixer.py:228-278 | every token kind except an error, an extension and a removed token appends a line |
| Renderer.HeaderRows | asm_fixer.py:234-239 | a header line as it is, or, when wrapping is on and it is too wide, the text before the last space below the width and the continuation |
| Renderer.HeaderContinuation | asm_fixer.py:237 | the rest of a cut header behind `'; '` padded to the value column |
| Renderer.NextDepth | asm_fixer.py:270-273 | `PROC` raises the procedure counter by one, `ENDP` lowers it, any other token leaves it |
| Renderer.Balance | asm_fixer.py:270-273 | the counter after the first n tokens |
| Renderer.Appended | asm_fixer.py:228-278 | the first half of one iteration: append the token's lines, move the counter, measure a separately aligned data line before indentation |
| Renderer.Indented | asm_fixer.py:280-292 | the second half: prefix the last line with the indentation and measure it for the common comment column |
| Renderer.Step | asm_fixer.py:227-292 | one iteration of the render loop |
| Renderer.RenderAll | asm_fixer.py:222-292 | the render loop over the first n tokens, the fold every render lemma is stated over |
| Emitter.EmitLine | asm_fixer.py:300-317 | every entry is printed as one line, or as two when it is wrapped |
| Emitter.EmitRecord | asm_fixer.py:303-317 | one record is printed by the comment policy, the right strip and the wrap rule |
| Emitter.Emit | asm_fixer.py:300-317 | the print loop prints each entry's lines, in order |
| Emitter.Wrapped | asm_fixer.py:310-317 | a printed record is one line or two |
| Emitter.WrapLine | asm_fixer.py:310-317 | the right strip and wrap of a record print exactly the lines of the wrap rule |
| Emitter.WrapCut | asm_fixer.py:314-317 | an over-wide record with a space before the width is cut at the last such space, into the text before it and the continuation of the text after it |
| Emitter.CommentAfterPadding | asm_fixer.py:304 | a text padded to a column and followed by `'; '` and a comment keeps the text in front, has only spaces up to the column and `;` at it, also after the right strip |
| Emitter.EmitUnwrapped | asm_fixer.py:311-313 | a plain line, or a record that fits the width, is printed as one line; a record has no trailing whitespace |
| Emitter.EmitWrap | asm_fixer.py:314-317 | an over-wide record with a space before the width is cut at the last such space, so the first piece is shorter than the width; the continuation is `'; '` at the first `;` column, then `long_comment_indent_amount` spaces, then the rest |
| Emitter.ContinuationUnderComment | asm_fixer.py:317 | the continuation's `'; '` ends two places after the line's first `;`, with only spaces before it |
| Emitter.ContinuationWithoutComment | asm_fixer.py:317 | a cut line with no `;` still gets `; ` at the start of its continuation, so the code after the cut becomes comment text |
| Emitter.WrapWithoutSpace | asm_fixer.py:315-317 | an over-wide line with no space before the width prints as the text less its last character, then a continuation that repeats the whole text |
| Emitter.Joined | asm_fixer.py:303-311 | the code text and comment under the applicable column policy, right-stripped |
| Emitter.Continuation | asm_fixer.py:317 | `'; '` right-aligned two places after the first `;`, then `long_comment_indent_amount` spaces, then the rest |
| Emitter.CommentPart | asm_fixer.py:304-309 | `'; ' + comment`, or nothing for an absent or empty comment |
| Emitter.CommonColumn | asm_fixer.py:304-305 | the records whose comment goes to `max_string_size + min_comment_spacing` |
| Emitter.DataColumn | asm_fixer.py:306-307 | the data records whose comment goes to `max_data_string_size + min_comment_spacing` |
| Emitter.EmitAll | asm_fixer.py:300-317 | the printed lines of every entry, in order |
| Emitter.CommentAtCommonColumn | asm_fixer.py:304-305 | under the common policy, a comment on a line no wider than `max_string_size` starts at column `max_string_size + min_comment_spacing`, with only spaces before it |
| Pipeline.TokensUnmarked | asm_fixer.py:100-174 | the classifier never produces the removal mark |
| Pipeline.TokensIndentable | asm_fixer.py:176-178 | with re-indentation off, every token carries an indentation |
| Pipeline.CleanedIndentable | asm_fixer.py:220 | with re-indentation off, every kept token still carries an indentation |
| Pipeline.CleanedOf | asm_fixer.py:281-289 | the kept tokens of every accepted input can be rendered without the source's index error |
| Pipeline.Format | asm_fixer.py:99-317 | the whole pipeline prints the formatted lines and reports the diagnostics of the error lines |
| Pipeline.CommentsAligned | asm_fixer.py:291-305 | with comment alignment on, every code line whose comment uses the common column has its `;` at `max_string_size + min_comment_spacing`, with its code text unchanged before it and only spaces in between, and is printed as that one line when it fits the width |
| Pipeline.AlignedRecord | asm_fixer.py:303-313 | a record no wider than `max_string_size` under the common policy has its `;` at `max_string_size + min_comment_spacing`, its text unchanged before it and only spaces between; if it fits the width it is printed as that one line |
| Pipeline.AlignedLine | asm_fixer.py:291-313 | every rendered record under the common policy meets the aligned-record property, given the bound that the render loop keeps |
| Pipeline.CommentAtColumn | asm_fixer.py:303-313 | the aligned-record property: text unchanged, only spaces, then `;` at the common column, and one printed line when it fits |
| Pipeline.OperandsAligned | asm_fixer.py:206-276 | with code alignment on, every kept instruction has its operands at column `max_mnemonic_size + min_instruction_operand_spacing` before indentation |
| Pipeline.InitialValuesAligned | asm_fixer.py:201-259 | with data alignment on, every kept data line has its size keyword and values at the aligned columns before indentation |

## Left out

- Command-line parsing, loading and migrating the configuration file, reading the input, writing the backup and opening the output (lines 50-98 and 294-299, 318). This is I/O. The configuration is an immutable `Config` record, and the spacing update of line 218 is kept in the returned `Widths`.
- Where the output goes. The continuation line of a wrapped record (line 317) is printed to standard output even when an output file is given. The model collects every printed line into one list.
- Colours and the message text of a diagnostic (line 200). A diagnostic keeps the line number and the line's text.
- The duplicate `directive` branch (lines 252-256). It can never run.
- Inputs that stop the source are excluded by preconditions rather than modelled:
  - `Classifier.Classifiable`: a line that reaches the directive test but does not match the directive pattern (`None.group`, line 137).
  - `Aggregator.MergeSafe`: an extension after a blank line, an error line or another merged extension (`KeyError`, line 190).
  - `Pipeline.FirstLineRenders` / `Renderer.Renderable`: a first kept token that produces no line (`IndexError`, lines 281 and 286).
- `Aggregator.Unmarked`: the aggregation methods also require that no input token already carries the removal mark. `Pipeline.TokensUnmarked` proves this holds for the classifier's output.
- When no space exists before the width, `rfind` returns -1 (lines 235-237, 315-317). The renderer and emitter model this case with Python's slice semantics. `Renderer.HeaderWrap` and `Emitter.EmitWrap` describe only the case with a space; `Emitter.WrapWithoutSpace` states the other case for records, and no lemma states it for headers.
- Letters beyond ASCII. Python's case-insensitive matching (lines 119, 141) also folds a few non-ASCII letters, such as U+017F and U+212A, onto ASCII ones. The scanners accept ASCII letters only. `lower()` and `upper()` are applied only to text that the patterns restrict to ASCII.
- Negative integer options. The model's integer options are `nat`.
- Comments of data lines in their own column (lines 263-264, 306-307). `max_data_string_size` is measured before the line is indented, so an indented data line can reach past that column. No alignment guarantee is stated for this policy; its lines are modelled exactly.
- The column lemmas of `pipeline.dfy` are stated for any token sequence the aggregator accepts, and so for the classifier's output. They are not restated over raw input lines.
- Idempotence of the whole formatter on its own output is not stated, because it does not hold for blank runs (see above). Only comma normalisation is proved idempotent.
