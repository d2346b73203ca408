/** The regular expressions of the line classifier, each written as a
    scanner over the specific pattern. Every pattern here is either
    anchored at the start of the line or, for the header comment, searched
    for anywhere; where backtracking could in principle choose a different
    match, the comment on the scanner says why the greedy scan finds the
    same one Python's `re` finds. Letter classes are ASCII. */
module Patterns {
  import opened Text
  import opened Wrappers

  predicate IsLetter(c: char) { IsUpperAscii(c) || IsLowerAscii(c) }

  predicate IsDigit(c: char) { '0' <= c <= '9' }

  predicate IsAlnum(c: char) { IsLetter(c) || IsDigit(c) }

  /** `[a-zA-Z0-9_]` */
  predicate IsWordChar(c: char) { IsAlnum(c) || c == '_' }

  /** `[a-zA-Z_]` */
  predicate IsIdentStart(c: char) { IsLetter(c) || c == '_' }

  /** `[ \t]` */
  predicate IsBlank(c: char) { c == ' ' || c == '\t' }

  /** `[a-zA-Z0-9.]` */
  predicate IsDirectiveChar(c: char) { IsAlnum(c) || c == '.' }

  /** `[0-9a-zA-Z,]` */
  predicate IsOperandChar(c: char) { IsAlnum(c) || c == ',' }

  /** `[0-9a-zA-Z,()?]` */
  predicate IsValueChar(c: char) { IsAlnum(c) || c == ',' || c == '(' || c == ')' || c == '?' }

  predicate NotNewline(c: char) { c != '\n' }

  /** The end of the longest run of `cls` characters starting at i. */
  function RunEnd(s: string, i: nat, cls: char -> bool): (j: nat)
    requires i <= |s|
    ensures i <= j <= |s|
    ensures j == |s| || !cls(s[j])
    decreases |s| - i
  {
    if i < |s| && cls(s[i]) then RunEnd(s, i + 1, cls) else i
  }

  /** Every character of the run is of class `cls`. */
  lemma {:induction false} RunEndRun(s: string, i: nat, cls: char -> bool)
    requires i <= |s|
    ensures forall k :: i <= k < RunEnd(s, i, cls) ==> cls(s[k])
    decreases |s| - i
  {
    if i < |s| && cls(s[i]) {
      RunEndRun(s, i + 1, cls);
    }
  }

  /** The end of the greedy match of `(C ?)+` at i, where C is `cls`; i
      itself when `s[i]` is not in C. Nothing follows these groups in the
      source's patterns, so the first iteration that fails ends the match
      and no earlier iteration is revisited. */
  function SpacedRunEnd(s: string, i: nat, cls: char -> bool): (j: nat)
    requires i <= |s|
    ensures i <= j <= |s|
    ensures j > i <==> i < |s| && cls(s[i])
    ensures forall k :: i <= k < j ==> cls(s[k]) || s[k] == ' '
    ensures j == |s| || !cls(s[j])
    decreases |s| - i
  {
    if i < |s| && cls(s[i]) then
      SpacedRunEnd(s, if i + 1 < |s| && s[i + 1] == ' ' then i + 2 else i + 1, cls)
    else
      i
  }

  /** The match is greedy: every space in the run follows a `cls`
      character, and the run does not stop at a space it could have taken
      after a `cls` character. */
  lemma {:induction false} SpacedRunEndGreedy(s: string, i: nat, cls: char -> bool)
    requires i <= |s|
    ensures var j := SpacedRunEnd(s, i, cls);
      (forall k :: i <= k < j && !cls(s[k]) ==> i < k && cls(s[k - 1]))
      && (i < j < |s| && s[j] == ' ' ==> s[j - 1] == ' ')
    decreases |s| - i
  {
    if i < |s| && cls(s[i]) {
      SpacedRunEndGreedy(s, if i + 1 < |s| && s[i + 1] == ' ' then i + 2 else i + 1, cls);
    }
  }

  /** Whether the lower-case word occurs in s at j, ignoring ASCII case. */
  predicate WordAt(s: string, j: nat, word: string)
  {
    j + |word| <= |s| && forall k :: 0 <= k < |word| ==> word[k] == LowerChar(s[j + k])
  }

  predicate NoNewline(s: string, a: nat, b: nat)
    requires a <= b <= |s|
  {
    forall k :: a <= k < b ==> s[k] != '\n'
  }

  // ---------------------------------------------------------------------
  // Header comment: re.search(r';.*(Author|Assignment|Date).*:', line, re.I)
  // ---------------------------------------------------------------------

  /** The length of `Author|Assignment|Date`, in any case, at j; 0 if none. */
  function KeywordLen(s: string, j: nat): (n: nat)
    ensures n > 0 ==> j + n <= |s|
  {
    if WordAt(s, j, "author") then 6
    else if WordAt(s, j, "assignment") then 10
    else if WordAt(s, j, "date") then 4
    else 0
  }

  /** A keyword holds no line break, colon or semicolon. */
  lemma KeywordChars(s: string, j: nat)
    requires KeywordLen(s, j) > 0
    ensures forall k :: j <= k < j + KeywordLen(s, j) ==> s[k] != '\n' && s[k] != ':' && s[k] != ';'
  {
    var word := if WordAt(s, j, "author") then "author" else if WordAt(s, j, "assignment") then "assignment" else "date";
    assert WordAt(s, j, word) && KeywordLen(s, j) == |word|;
    forall k | j <= k < j + |word|
      ensures s[k] != '\n' && s[k] != ':' && s[k] != ';'
    {
      assert word[k - j] == LowerChar(s[k]);
    }
  }

  /** A `:` at or after p, with no line break before it (`.*:`). */
  ghost predicate ColonAhead(s: string, p: nat)
    requires p <= |s|
  {
    exists k :: p <= k < |s| && s[k] == ':' && NoNewline(s, p, k)
  }

  /** `.*(Author|Assignment|Date).*:` matched from p. */
  ghost predicate KeywordThenColon(s: string, p: nat)
    requires p <= |s|
  {
    exists j :: p <= j < |s| && KeywordLen(s, j) > 0 && NoNewline(s, p, j) && ColonAhead(s, j + KeywordLen(s, j))
  }

  /** The whole pattern matched at some `;` at or after p. */
  ghost predicate HeaderFrom(s: string, p: nat)
    requires p <= |s|
  {
    exists i :: p <= i < |s| && s[i] == ';' && KeywordThenColon(s, i + 1)
  }

  /** The meaning of the header search: the pattern occurs somewhere in s. */
  ghost predicate HeaderOccurs(s: string)
  {
    HeaderFrom(s, 0)
  }

  /** One left-to-right pass: state 0 looks for `;`, state 1 for a keyword,
      state 2 for `:`; a line break sends the scan back to state 0. */
  function HeaderScan(s: string, i: nat, state: nat): bool
    requires i <= |s|
    decreases |s| - i
  {
    if i == |s| then false
    else if s[i] == '\n' then HeaderScan(s, i + 1, 0)
    else if state == 0 then HeaderScan(s, i + 1, if s[i] == ';' then 1 else 0)
    else if state == 1 then
      (if KeywordLen(s, i) > 0 then HeaderScan(s, i + KeywordLen(s, i), 2) else HeaderScan(s, i + 1, 1))
    else s[i] == ':' || HeaderScan(s, i + 1, 2)
  }

  predicate IsHeaderComment(s: string)
  {
    HeaderScan(s, 0, 0)
  }

  lemma KeywordThenColonHasColon(s: string, p: nat)
    requires p <= |s|
    ensures KeywordThenColon(s, p) ==> ColonAhead(s, p)
  {
    if KeywordThenColon(s, p) {
      var j :| p <= j < |s| && KeywordLen(s, j) > 0 && NoNewline(s, p, j) && ColonAhead(s, j + KeywordLen(s, j));
      var m := j + KeywordLen(s, j);
      assert ColonAhead(s, m);
      var k :| m <= k < |s| && s[k] == ':' && NoNewline(s, m, k);
      assert NoNewline(s, j, m) by {
        KeywordChars(s, j);
      }
      ColonAfterKeyword(s, p, j, m, k);
    }
  }

  /** A colon at k after a keyword spanning j to e, all on the line of p. */
  lemma ColonAfterKeyword(s: string, p: nat, j: nat, e: nat, k: nat)
    requires p <= j <= e <= k < |s| && s[k] == ':'
    requires NoNewline(s, p, j) && NoNewline(s, j, e) && NoNewline(s, e, k)
    ensures ColonAhead(s, p)
  {
    NoNewlineJoin(s, p, j, e);
    NoNewlineJoin(s, p, e, k);
    ColonAt(s, p, k);
  }

  lemma NoNewlineJoin(s: string, a: nat, b: nat, c: nat)
    requires a <= b <= c <= |s| && NoNewline(s, a, b) && NoNewline(s, b, c)
    ensures NoNewline(s, a, c)
  {
  }

  /** A colon at k, on the same line as p. */
  lemma ColonAt(s: string, p: nat, k: nat)
    requires p <= k < |s| && s[k] == ':' && NoNewline(s, p, k)
    ensures ColonAhead(s, p)
  {
  }

  /** The pattern matched at the `;` at i. */
  lemma HeaderAt(s: string, p: nat, i: nat)
    requires p <= i < |s| && s[i] == ';' && KeywordThenColon(s, i + 1)
    ensures HeaderFrom(s, p)
  {
  }

  lemma NothingAcrossNewline(s: string, p: nat)
    requires p < |s| && s[p] == '\n'
    ensures !ColonAhead(s, p) && !KeywordThenColon(s, p)
  {
    forall k | p < k < |s|
      ensures !NoNewline(s, p, k)
    {
      assert s[p] == '\n';
    }
    if KeywordLen(s, p) > 0 {
      KeywordChars(s, p);
    }
  }

  lemma HeaderFromStep(s: string, p: nat)
    requires p < |s|
    ensures HeaderFrom(s, p) <==> (s[p] == ';' && KeywordThenColon(s, p + 1)) || HeaderFrom(s, p + 1)
  {
    assert HeaderFrom(s, p) ==> (s[p] == ';' && KeywordThenColon(s, p + 1)) || HeaderFrom(s, p + 1) by {
      if HeaderFrom(s, p) {
        var i :| p <= i < |s| && s[i] == ';' && KeywordThenColon(s, i + 1);
        if i > p {
          HeaderAt(s, p + 1, i);
        }
      }
    }
    assert HeaderFrom(s, p + 1) ==> HeaderFrom(s, p) by {
      if HeaderFrom(s, p + 1) {
        var i :| p + 1 <= i < |s| && s[i] == ';' && KeywordThenColon(s, i + 1);
        HeaderAt(s, p, i);
      }
    }
    assert s[p] == ';' && KeywordThenColon(s, p + 1) ==> HeaderFrom(s, p) by {
      if s[p] == ';' && KeywordThenColon(s, p + 1) {
        HeaderAt(s, p, p);
      }
    }
  }

  lemma ColonAheadStep(s: string, p: nat)
    requires p < |s| && s[p] != '\n'
    ensures ColonAhead(s, p) <==> s[p] == ':' || ColonAhead(s, p + 1)
  {
    if ColonAhead(s, p) && s[p] != ':' {
      var k :| p <= k < |s| && s[k] == ':' && NoNewline(s, p, k);
      assert NoNewline(s, p + 1, k);
    }
    if s[p] == ':' {
      assert NoNewline(s, p, p);
    }
    if ColonAhead(s, p + 1) {
      var k :| p + 1 <= k < |s| && s[k] == ':' && NoNewline(s, p + 1, k);
      assert NoNewline(s, p, k);
    }
  }

  /** A keyword at p: matching it, then a colon, is all that can be hoped
      for within the line. */
  lemma KeywordColon(s: string, p: nat)
    requires p < |s| && KeywordLen(s, p) > 0
    ensures KeywordThenColon(s, p) <==> ColonAhead(s, p + KeywordLen(s, p))
  {
    var n := KeywordLen(s, p);
    KeywordChars(s, p);
    if KeywordThenColon(s, p) {
      var j :| p <= j < |s| && KeywordLen(s, j) > 0 && NoNewline(s, p, j) && ColonAhead(s, j + KeywordLen(s, j));
      KeywordChars(s, j);
      var k :| j + KeywordLen(s, j) <= k < |s| && s[k] == ':' && NoNewline(s, j + KeywordLen(s, j), k);
      assert NoNewline(s, p, k);
      assert k >= p + n;
      assert NoNewline(s, p + n, k);
      ColonAt(s, p + n, k);
    }
    if ColonAhead(s, p + n) {
      assert NoNewline(s, p, p);
      KeywordAt(s, p, p);
    }
  }

  /** No `;` inside a keyword starts another match. */
  lemma KeywordSkipsHeader(s: string, p: nat)
    requires p < |s| && KeywordLen(s, p) > 0
    ensures HeaderFrom(s, p) <==> HeaderFrom(s, p + KeywordLen(s, p))
  {
    var n := KeywordLen(s, p);
    KeywordChars(s, p);
    if HeaderFrom(s, p) {
      var i :| p <= i < |s| && s[i] == ';' && KeywordThenColon(s, i + 1);
      assert i >= p + n;
      HeaderAt(s, p + n, i);
    }
    if HeaderFrom(s, p + n) {
      var i :| p + n <= i < |s| && s[i] == ';' && KeywordThenColon(s, i + 1);
      HeaderAt(s, p, i);
    }
  }

  lemma KeywordThenColonStep(s: string, p: nat)
    requires p < |s| && s[p] != '\n' && KeywordLen(s, p) == 0
    ensures KeywordThenColon(s, p) <==> KeywordThenColon(s, p + 1)
  {
    if KeywordThenColon(s, p) {
      var j :| p <= j < |s| && KeywordLen(s, j) > 0 && NoNewline(s, p, j) && ColonAhead(s, j + KeywordLen(s, j));
      assert j != p;
      assert NoNewline(s, p + 1, j);
      KeywordAt(s, p + 1, j);
    }
    if KeywordThenColon(s, p + 1) {
      var j :| p + 1 <= j < |s| && KeywordLen(s, j) > 0 && NoNewline(s, p + 1, j) && ColonAhead(s, j + KeywordLen(s, j));
      assert NoNewline(s, p, j);
      KeywordAt(s, p, j);
    }
  }

  /** A keyword at j, on the same line as p, followed by a colon. */
  lemma KeywordAt(s: string, p: nat, j: nat)
    requires p <= j < |s| && KeywordLen(s, j) > 0 && NoNewline(s, p, j) && ColonAhead(s, j + KeywordLen(s, j))
    ensures KeywordThenColon(s, p)
  {
  }

  lemma ScanStateZero(s: string, p: nat)
    requires p < |s| && s[p] != '\n'
    requires HeaderScan(s, p + 1, 0) <==> HeaderFrom(s, p + 1)
    requires HeaderScan(s, p + 1, 1) <==> KeywordThenColon(s, p + 1) || HeaderFrom(s, p + 1)
    ensures HeaderScan(s, p, 0) <==> HeaderFrom(s, p)
  {
    HeaderFromStep(s, p);
  }

  lemma ScanStateOne(s: string, p: nat)
    requires p < |s| && s[p] != '\n'
    requires KeywordLen(s, p) == 0
    requires HeaderScan(s, p + 1, 1) <==> KeywordThenColon(s, p + 1) || HeaderFrom(s, p + 1)
    ensures HeaderScan(s, p, 1) <==> KeywordThenColon(s, p) || HeaderFrom(s, p)
  {
    HeaderFromStep(s, p);
    KeywordThenColonStep(s, p);
  }

  lemma ScanStateOneKeyword(s: string, p: nat)
    requires p < |s| && s[p] != '\n'
    requires KeywordLen(s, p) > 0
    requires HeaderScan(s, p + KeywordLen(s, p), 2) <==>
             ColonAhead(s, p + KeywordLen(s, p)) || HeaderFrom(s, p + KeywordLen(s, p))
    ensures HeaderScan(s, p, 1) <==> KeywordThenColon(s, p) || HeaderFrom(s, p)
  {
    KeywordColon(s, p);
    KeywordSkipsHeader(s, p);
  }

  lemma ScanStateTwo(s: string, p: nat)
    requires p < |s| && s[p] != '\n'
    requires HeaderScan(s, p + 1, 2) <==> ColonAhead(s, p + 1) || HeaderFrom(s, p + 1)
    ensures HeaderScan(s, p, 2) <==> ColonAhead(s, p) || HeaderFrom(s, p)
  {
    HeaderFromStep(s, p);
    ColonAheadStep(s, p);
    KeywordThenColonHasColon(s, p + 1);
  }

  lemma ScanAtNewline(s: string, p: nat, state: nat)
    requires p < |s| && s[p] == '\n'
    requires HeaderScan(s, p + 1, 0) <==> HeaderFrom(s, p + 1)
    ensures HeaderScan(s, p, state) <==> HeaderFrom(s, p)
    ensures !ColonAhead(s, p) && !KeywordThenColon(s, p)
  {
    NothingAcrossNewline(s, p);
    HeaderFromStep(s, p);
  }

  /** What each state of the scan decides, from position p on. */
  lemma {:induction false} HeaderScanMeaning(s: string, p: nat)
    requires p <= |s|
    ensures HeaderScan(s, p, 0) <==> HeaderFrom(s, p)
    ensures HeaderScan(s, p, 1) <==> KeywordThenColon(s, p) || HeaderFrom(s, p)
    ensures HeaderScan(s, p, 2) <==> ColonAhead(s, p) || HeaderFrom(s, p)
    decreases |s| - p
  {
    if p == |s| {
    } else if s[p] == '\n' {
      HeaderScanMeaning(s, p + 1);
      ScanAtNewline(s, p, 0);
      ScanAtNewline(s, p, 1);
      ScanAtNewline(s, p, 2);
    } else {
      HeaderScanMeaning(s, p + 1);
      ScanStateZero(s, p);
      ScanStateTwo(s, p);
      if KeywordLen(s, p) > 0 {
        HeaderScanMeaning(s, p + KeywordLen(s, p));
        ScanStateOneKeyword(s, p);
      } else {
        ScanStateOne(s, p);
      }
    }
  }

  /** The scan decides exactly the search the source performs. */
  lemma HeaderScanCorrect(s: string)
    ensures IsHeaderComment(s) <==> HeaderOccurs(s)
  {
    HeaderScanMeaning(s, 0);
  }

  // ---------------------------------------------------------------------
  // Directive: line.startswith('.') or line.startswith('INCLUDE') or
  // line.startswith('END', re.IGNORECASE); value re.match(r'\.?([a-zA-Z0-9.] ?)+')
  // ---------------------------------------------------------------------

  /** The third test passes the flag's value 2 as the start index, so it
      looks for `END` at offset 2 and is case-sensitive. */
  predicate IsDirectiveLine(s: string)
  {
    StartsWith(s, ".") || StartsWith(s, "INCLUDE") || (|s| >= 5 && s[2..5] == "END")
  }

  /** Whether the directive value pattern matches at all (otherwise the
      source fails on `None.group`). */
  predicate HasDirectiveValue(s: string)
  {
    |s| > 0 && IsDirectiveChar(s[0])
  }

  /** The stripped match of `\.?([a-zA-Z0-9.] ?)+`. The optional leading dot
      is itself in the class, so the match is the greedy `(C ?)+` run from
      the first character either way. */
  function DirectiveValue(s: string): (v: string)
    requires HasDirectiveValue(s)
    ensures var e := SpacedRunEnd(s, 0, IsDirectiveChar);
      v == if s[e - 1] == ' ' then s[..e - 1] else s[..e]
    ensures |v| > 0 && v[0] == s[0] && IsDirectiveChar(v[|v| - 1])
  {
    var e := SpacedRunEnd(s, 0, IsDirectiveChar);
    SpacedRunEndGreedy(s, 0, IsDirectiveChar);
    StripTrailingSpace(s[..e]);
    Strip(s[..e])
  }

  // ---------------------------------------------------------------------
  // Data: ^([a-zA-Z_][a-zA-Z0-9_]+)[ \t]+(BYTE|D?Q?WORD)[ \t]+(([0-9a-zA-Z,()?] ?|".+")+)  (re.I)
  // ---------------------------------------------------------------------

  datatype DataMatch = DataMatch(name: string, size: string, values: string)

  /** The size keywords `BYTE|D?Q?WORD`, in lower case. */
  const SizeKeywords: set<string> := {"byte", "word", "dword", "qword", "dqword"}

  /** The length of `BYTE|D?Q?WORD`, in any case, at i; 0 if none. The five
      spellings differ in their first two letters, so at most one applies. */
  function SizeKeywordLen(s: string, i: nat): (n: nat)
    ensures n > 0 ==> i + n <= |s|
  {
    if WordAt(s, i, "byte") then 4
    else if WordAt(s, i, "dqword") then 6
    else if WordAt(s, i, "dword") then 5
    else if WordAt(s, i, "qword") then 5
    else if WordAt(s, i, "word") then 4
    else 0
  }

  /** The closing quote of `".+"` opened at i: `.+` is greedy, so it is the
      last `"` at least two places on and before the next line break; -1
      if there is none. */
  function ClosingQuote(s: string, i: nat): (q: int)
    requires i < |s|
    ensures q == -1 || (i + 2 <= q < |s| && s[q] == '"' && NoNewline(s, i + 1, q))
  {
    var e := RunEnd(s, i + 1, NotNewline);
    RunEndRun(s, i + 1, NotNewline);
    var r := RFind(s, '"', e);
    if r >= i + 2 then r else -1
  }

  /** Every index after `i + 1` that the line reaches is below the break
      at e, or is e itself; so the last quote below e is the last on the
      line. */
  lemma QuotesBeforeBreak(s: string, i: nat, e: nat, r: int)
    requires i < |s| && e == RunEnd(s, i + 1, NotNewline) && r == RFind(s, '"', e)
    ensures forall k :: r < k < |s| && i + 1 <= k && NoNewline(s, i + 1, k) ==> s[k] != '"'
  {
    forall k | r < k < |s| && i + 1 <= k && NoNewline(s, i + 1, k)
      ensures s[k] != '"'
    {
    }
  }

  /** The meaning of `".+"` at i: a quote at i, then at least one
      character and a closing quote, all on one line. */
  ghost predicate QuotedAt(s: string, i: nat)
  {
    i < |s| && s[i] == '"' && exists q :: i + 2 <= q < |s| && s[q] == '"' && NoNewline(s, i + 1, q)
  }

  /** The scan finds a closing quote exactly when `".+"` matches: -1 only
      when no quote follows on the line at least two places on, and
      otherwise the last quote on the line, as the greedy `.+` reaches. */
  lemma ClosingQuoteMeaning(s: string, i: nat)
    requires i < |s| && s[i] == '"'
    ensures ClosingQuote(s, i) >= 0 <==> QuotedAt(s, i)
    ensures ClosingQuote(s, i) == -1 ==> forall k :: i + 2 <= k < |s| && NoNewline(s, i + 1, k) ==> s[k] != '"'
    ensures ClosingQuote(s, i) >= 0 ==>
      forall k :: ClosingQuote(s, i) < k < |s| && NoNewline(s, i + 1, k) ==> s[k] != '"'
  {
    var q := ClosingQuote(s, i);
    var e := RunEnd(s, i + 1, NotNewline);
    QuotesBeforeBreak(s, i, e, RFind(s, '"', e));
    if q >= 0 {
      assert i + 2 <= q < |s| && s[q] == '"' && NoNewline(s, i + 1, q);
    }
  }

  /** The end of the greedy `([0-9a-zA-Z,()?] ?|".+")+` at i. */
  function ValueEnd(s: string, i: nat): (j: nat)
    requires i <= |s|
    ensures i <= j <= |s|
    ensures j > i <==> i < |s| && (IsValueChar(s[i]) || (s[i] == '"' && ClosingQuote(s, i) >= 0))
    decreases |s| - i
  {
    if i < |s| && IsValueChar(s[i]) then
      ValueEnd(s, if i + 1 < |s| && s[i + 1] == ' ' then i + 2 else i + 1)
    else if i < |s| && s[i] == '"' && ClosingQuote(s, i) >= 0 then
      ValueEnd(s, ClosingQuote(s, i) + 1)
    else
      i
  }

  /** Where the greedy value run stops: at j no value character starts and
      no closed quote opens. */
  lemma {:induction false} ValueEndStops(s: string, i: nat)
    requires i <= |s|
    ensures var j := ValueEnd(s, i);
      j == |s| || (!IsValueChar(s[j]) && (s[j] == '"' ==> ClosingQuote(s, j) == -1))
    decreases |s| - i
  {
    if i < |s| && IsValueChar(s[i]) {
      var n := if i + 1 < |s| && s[i + 1] == ' ' then i + 2 else i + 1;
      assert ValueEnd(s, i) == ValueEnd(s, n);
      ValueEndStops(s, n);
    } else if i < |s| && s[i] == '"' && ClosingQuote(s, i) >= 0 {
      var n := ClosingQuote(s, i) + 1;
      assert ValueEnd(s, i) == ValueEnd(s, n);
      ValueEndStops(s, n);
    }
  }

  /** The value run does not stop on the optional space after a value
      character. */
  lemma {:induction false} ValueEndAfterSpace(s: string, i: nat)
    requires i <= |s|
    ensures var j := ValueEnd(s, i);
      i < j < |s| && s[j] == ' ' ==> !IsValueChar(s[j - 1])
    decreases |s| - i
  {
    if i < |s| && IsValueChar(s[i]) {
      var n := if i + 1 < |s| && s[i + 1] == ' ' then i + 2 else i + 1;
      assert ValueEnd(s, i) == ValueEnd(s, n);
      ValueEndAfterSpace(s, n);
    } else if i < |s| && s[i] == '"' && ClosingQuote(s, i) >= 0 {
      var n := ClosingQuote(s, i) + 1;
      assert ValueEnd(s, i) == ValueEnd(s, n) && s[n - 1] == '"';
      ValueEndAfterSpace(s, n);
    }
  }

  /** The value run ends with a value character, a closing quote, or a
      value character and its one space. */
  lemma {:induction false} ValueEndLast(s: string, i: nat)
    requires i <= |s|
    ensures var j := ValueEnd(s, i);
      j > i ==> IsValueChar(s[j - 1]) || s[j - 1] == '"' || (s[j - 1] == ' ' && i < j - 1 && IsValueChar(s[j - 2]))
    decreases |s| - i
  {
    if i < |s| && IsValueChar(s[i]) {
      var n := if i + 1 < |s| && s[i + 1] == ' ' then i + 2 else i + 1;
      assert ValueEnd(s, i) == ValueEnd(s, n);
      ValueEndLast(s, n);
    } else if i < |s| && s[i] == '"' && ClosingQuote(s, i) >= 0 {
      var n := ClosingQuote(s, i) + 1;
      assert ValueEnd(s, i) == ValueEnd(s, n) && s[n - 1] == '"';
      ValueEndLast(s, n);
    }
  }

  /** The anchored data pattern. The label, both blank runs and the size
      keyword are each followed by a character their neighbour cannot start
      with, so the greedy choice is the only one that can succeed. */
  function MatchData(s: string): (m: Option<DataMatch>)
    ensures m.Some? ==> |m.value.name| >= 2 && StartsWith(s, m.value.name)
    ensures m.Some? ==> IsIdentStart(m.value.name[0])
    ensures m.Some? ==> |m.value.size| in {4, 5, 6}
  {
    if |s| >= 2 && IsIdentStart(s[0]) && IsWordChar(s[1]) then
      var a := RunEnd(s, 1, IsWordChar);
      var b := RunEnd(s, a, IsBlank);
      var n := SizeKeywordLen(s, b);
      if b == a || n == 0 then None
      else DataAt(s, a, b, n, RunEnd(s, b + n, IsBlank))
    else None
  }

  /** The rest of the data pattern once the label ends at a, the size
      keyword `s[b..b + n]` has been found and the blanks after it end at
      c: at least one blank, then a non-empty value run. */
  function DataAt(s: string, a: nat, b: nat, n: nat, c: nat): Option<DataMatch>
    requires a <= b && b + n <= c <= |s|
  {
    if c == b + n || ValueEnd(s, c) == c then None
    else Some(DataMatch(s[..a], s[b..b + n], ValueGroup(s, c)))
  }

  /** The values group: the value run from c without the one space the
      run may end with; ValueGroupStrips shows this is the run stripped. */
  function ValueGroup(s: string, c: nat): string
    requires c <= |s|
  {
    var v := ValueEnd(s, c);
    if c < v && s[v - 1] == ' ' then s[c..v - 1] else s[c..v]
  }

  /** The data pattern matched with the label `s[..a]`, blanks up to b, the
      size keyword `s[b..e]`, blanks up to c and a first initial value at c
      (a character of the value class or a quoted string). */
  ghost predicate DataShape(s: string, a: nat, b: nat, e: nat, c: nat)
  {
    2 <= a < b < e < c < |s|
    && IsIdentStart(s[0]) && (forall k :: 1 <= k < a ==> IsWordChar(s[k]))
    && (forall k :: a <= k < b ==> IsBlank(s[k]))
    && Lower(s[b..e]) in SizeKeywords
    && (forall k :: e <= k < c ==> IsBlank(s[k]))
    && (IsValueChar(s[c]) || QuotedAt(s, c))
  }

  /** The groups of a data match cut at a, b, e and c: the label, the
      size keyword, and the greedy value run from c, stripped. */
  ghost predicate DataGroups(s: string, m: DataMatch, a: nat, b: nat, e: nat, c: nat)
    requires DataShape(s, a, b, e, c)
  {
    var v := ValueEnd(s, c);
    c < v && m.name == s[..a] && m.size == s[b..e] && m.values == Strip(s[c..v])
  }

  /** The scanner matches exactly when the data pattern does, and every way
      of cutting the line into the pattern's parts gives the scanner's
      groups; so they are the groups `re` reports. */
  lemma MatchDataMeaning(s: string)
    ensures MatchData(s).Some? <==> exists a, b, e, c :: DataShape(s, a, b, e, c)
    ensures forall a, b, e, c :: DataShape(s, a, b, e, c) ==>
      MatchData(s).Some? && DataGroups(s, MatchData(s).value, a, b, e, c)
  {
    forall a, b, e, c | DataShape(s, a, b, e, c)
      ensures MatchData(s).Some? && DataGroups(s, MatchData(s).value, a, b, e, c)
    {
      DataShapeGroups(s, a, b, e, c);
    }
    if MatchData(s).Some? {
      MatchDataHasShape(s);
    }
  }

  /** A data shape is matched by the scanner, with its groups. */
  lemma DataShapeGroups(s: string, a: nat, b: nat, e: nat, c: nat)
    requires DataShape(s, a, b, e, c)
    ensures MatchData(s).Some? && DataGroups(s, MatchData(s).value, a, b, e, c)
  {
    DataShapeUnique(s, a, b, e, c);
    ValueStarts(s, c);
    assert IsWordChar(s[1]);
    MatchDataAt(s, a, b, e - b, c);
    ValueGroupStrips(s, c);
  }

  /** The scanner matches at the positions it computes. */
  lemma MatchDataAt(s: string, a: nat, b: nat, n: nat, c: nat)
    requires |s| >= 2 && IsIdentStart(s[0]) && IsWordChar(s[1])
    requires a == RunEnd(s, 1, IsWordChar) && b == RunEnd(s, a, IsBlank) && n == SizeKeywordLen(s, b)
    requires c == RunEnd(s, b + n, IsBlank)
    requires a < b && 0 < n
    ensures MatchData(s) == DataAt(s, a, b, n, c)
  {
  }

  /** The values group is the value run with `strip` applied: the run
      loses at most its one trailing space to it. */
  lemma ValueGroupStrips(s: string, c: nat)
    requires c <= |s|
    ensures ValueGroup(s, c) == Strip(s[c..ValueEnd(s, c)])
  {
    var v := ValueEnd(s, c);
    if c < v {
      ValueEndLast(s, c);
      var t := s[c..v];
      assert t[0] == s[c] && t[|t| - 1] == s[v - 1];
      if s[v - 1] == ' ' {
        assert t[|t| - 2] == s[v - 2];
      }
      StripTrailingSpace(t);
    }
  }

  /** A data shape fixes its positions: each part ends where the next
      part's first character cannot continue it. */
  lemma DataShapeUnique(s: string, a: nat, b: nat, e: nat, c: nat)
    requires DataShape(s, a, b, e, c)
    ensures a == RunEnd(s, 1, IsWordChar) && b == RunEnd(s, a, IsBlank)
    ensures e == b + SizeKeywordLen(s, b) && c == RunEnd(s, e, IsBlank)
  {
    RunEndAt(s, 1, a, IsWordChar);
    SizeKeywordAt(s, b, e);
    assert Lower(s[b..e])[0] == LowerChar(s[b]);
    RunEndAt(s, a, b, IsBlank);
    RunEndAt(s, e, c, IsBlank);
  }

  /** A value character or a quoted string starts a non-empty value run. */
  lemma ValueStarts(s: string, c: nat)
    requires c < |s| && (IsValueChar(s[c]) || QuotedAt(s, c))
    ensures ValueEnd(s, c) > c
  {
    if !IsValueChar(s[c]) {
      ClosingQuoteMeaning(s, c);
    }
  }

  /** A match of the scanner is a data shape at the positions it used. */
  lemma MatchDataHasShape(s: string)
    requires MatchData(s).Some?
    ensures exists a, b, e, c :: DataShape(s, a, b, e, c)
  {
    var a, b, n, c := MatchDataRuns(s);
    RunsShape(s, a, b, n, c);
  }

  /** The runs of a match: a label of two or more characters, blanks, a
      keyword, blanks and a non-empty value run. */
  lemma MatchDataRuns(s: string) returns (a: nat, b: nat, n: nat, c: nat)
    requires MatchData(s).Some?
    ensures 2 <= a < b && 0 < n && b + n < c <= |s| && c < ValueEnd(s, c) && IsIdentStart(s[0])
    ensures a == RunEnd(s, 1, IsWordChar) && b == RunEnd(s, a, IsBlank) && n == SizeKeywordLen(s, b)
    ensures c == RunEnd(s, b + n, IsBlank)
  {
    a := RunEnd(s, 1, IsWordChar);
    b := RunEnd(s, a, IsBlank);
    n := SizeKeywordLen(s, b);
    c := RunEnd(s, b + n, IsBlank);
  }

  lemma RunsShape(s: string, a: nat, b: nat, n: nat, c: nat)
    requires 2 <= a < b && 0 < n && b + n < c <= |s| && c < ValueEnd(s, c) && IsIdentStart(s[0])
    requires a == RunEnd(s, 1, IsWordChar) && b == RunEnd(s, a, IsBlank) && n == SizeKeywordLen(s, b)
    requires c == RunEnd(s, b + n, IsBlank)
    ensures DataShape(s, a, b, b + n, c)
  {
    SizeKeywordIn(s, b);
    if !IsValueChar(s[c]) {
      ClosingQuoteMeaning(s, c);
    }
    ShapeFromRuns(s, a, b, b + n, c);
  }

  /** The runs a scan found, with a keyword and a value start, form a
      data shape. */
  lemma ShapeFromRuns(s: string, a: nat, b: nat, e: nat, c: nat)
    requires 2 <= a < b < e < c < |s| && IsIdentStart(s[0])
    requires a == RunEnd(s, 1, IsWordChar) && b == RunEnd(s, a, IsBlank) && c == RunEnd(s, e, IsBlank)
    requires Lower(s[b..e]) in SizeKeywords
    requires IsValueChar(s[c]) || QuotedAt(s, c)
    ensures DataShape(s, a, b, e, c)
  {
    RunEndRun(s, 1, IsWordChar);
    RunEndRun(s, a, IsBlank);
    RunEndRun(s, e, IsBlank);
  }

  /** A run of `cls` characters from i that stops at j is the run RunEnd
      finds. */
  lemma {:induction false} RunEndAt(s: string, i: nat, j: nat, cls: char -> bool)
    requires i <= j <= |s|
    requires forall k :: i <= k < j ==> cls(s[k])
    requires j == |s| || !cls(s[j])
    ensures RunEnd(s, i, cls) == j
    decreases j - i
  {
    if i < j {
      RunEndAt(s, i + 1, j, cls);
    }
  }

  /** One of the five size keywords at b is the one SizeKeywordLen finds. */
  lemma SizeKeywordAt(s: string, b: nat, e: nat)
    requires b <= e <= |s| && Lower(s[b..e]) in SizeKeywords
    ensures SizeKeywordLen(s, b) == e - b
  {
    var w := Lower(s[b..e]);
    assert WordAt(s, b, w) by {
      forall k | 0 <= k < |w|
        ensures w[k] == LowerChar(s[b + k])
      {
        assert s[b..e][k] == s[b + k];
      }
    }
    if w != "byte" {
      NotWordAt(s, b, "byte", 0);
      if w != "dqword" {
        NotWordAt(s, b, "dqword", if w == "dword" then 1 else 0);
        if w != "dword" {
          NotWordAt(s, b, "dword", 0);
          if w != "qword" {
            NotWordAt(s, b, "qword", 0);
          }
        }
      }
    }
  }

  /** One differing letter rules a word out. */
  lemma NotWordAt(s: string, j: nat, word: string, k: nat)
    requires k < |word| && j + k < |s| && word[k] != LowerChar(s[j + k])
    ensures !WordAt(s, j, word)
  {
  }

  /** The keyword SizeKeywordLen finds is one of the five. */
  lemma SizeKeywordIn(s: string, b: nat)
    requires SizeKeywordLen(s, b) > 0
    ensures Lower(s[b..b + SizeKeywordLen(s, b)]) in SizeKeywords
  {
    var n := SizeKeywordLen(s, b);
    var w := if WordAt(s, b, "byte") then "byte" else if WordAt(s, b, "dqword") then "dqword"
      else if WordAt(s, b, "dword") then "dword" else if WordAt(s, b, "qword") then "qword" else "word";
    assert WordAt(s, b, w) && n == |w|;
    assert Lower(s[b..b + n]) == w;
  }

  // ---------------------------------------------------------------------
  // Procedure: ^([a-zA-Z_][a-zA-Z0-9_]*)[ \t]+(PROC|ENDP)   (case-sensitive)
  // ---------------------------------------------------------------------

  datatype ProcKind = Proc | Endp {
    function Keyword(): string
    {
      match this
      case Proc => "PROC"
      case Endp => "ENDP"
    }
  }

  datatype ProcMatch = ProcMatch(name: string, kind: ProcKind)

  /** The anchored procedure pattern; the keyword is only a prefix of what
      follows the blanks (`PROCESS` matches). */
  function MatchProcedure(s: string): (m: Option<ProcMatch>)
    ensures m.Some? ==> |m.value.name| >= 1 && StartsWith(s, m.value.name)
    ensures m.Some? ==> IsIdentStart(m.value.name[0])
  {
    if |s| >= 1 && IsIdentStart(s[0]) then
      var a := RunEnd(s, 1, IsWordChar);
      var b := RunEnd(s, a, IsBlank);
      if b == a || b + 4 > |s| then None
      else if s[b..b + 4] == "PROC" then Some(ProcMatch(s[..a], Proc))
      else if s[b..b + 4] == "ENDP" then Some(ProcMatch(s[..a], Endp))
      else None
    else None
  }

  /** The procedure pattern matched with the label `s[..a]`, blanks up to b
      and `PROC` or `ENDP` at b. */
  ghost predicate ProcShape(s: string, a: nat, b: nat)
  {
    1 <= a < b && b + 4 <= |s|
    && IsIdentStart(s[0]) && (forall k :: 1 <= k < a ==> IsWordChar(s[k]))
    && (forall k :: a <= k < b ==> IsBlank(s[k]))
    && (s[b..b + 4] == "PROC" || s[b..b + 4] == "ENDP")
  }

  /** The scanner matches exactly when the procedure pattern does; the
      label is the only one the pattern allows, and the kind is the keyword
      after the blanks. */
  lemma MatchProcedureMeaning(s: string)
    ensures MatchProcedure(s).Some? <==> exists a, b :: ProcShape(s, a, b)
    ensures MatchProcedure(s).Some? ==>
      var m := MatchProcedure(s).value;
      var a := |m.name|;
      var b := RunEnd(s, a, IsBlank);
      ProcShape(s, a, b) && m.name == s[..a] && m.kind.Keyword() == s[b..b + 4]
      && forall a', b' :: ProcShape(s, a', b') ==> a' == a && b' == b
  {
    if exists a, b :: ProcShape(s, a, b) {
      var a, b :| ProcShape(s, a, b);
      ProcShapeUnique(s, a, b);
    }
    if MatchProcedure(s).Some? {
      var a := RunEnd(s, 1, IsWordChar);
      var b := RunEnd(s, a, IsBlank);
      RunEndRun(s, 1, IsWordChar);
      RunEndRun(s, a, IsBlank);
      assert ProcShape(s, a, b);
      forall a', b' | ProcShape(s, a', b')
        ensures a' == a && b' == b
      {
        ProcShapeUnique(s, a', b');
      }
    }
  }

  lemma ProcShapeUnique(s: string, a: nat, b: nat)
    requires ProcShape(s, a, b)
    ensures a == RunEnd(s, 1, IsWordChar) && b == RunEnd(s, a, IsBlank)
  {
    assert s[b] == s[b..b + 4][0];
    RunEndAt(s, 1, a, IsWordChar);
    RunEndAt(s, a, b, IsBlank);
  }

  // ---------------------------------------------------------------------
  // Instruction: ^([a-zA-Z][a-zA-Z0-9]*)([ \t]+(([0-9a-zA-Z,] ?)+))?
  // ---------------------------------------------------------------------

  datatype InstructionMatch = InstructionMatch(mnemonic: string, operands: Option<string>)

  /** The anchored instruction pattern: it matches every line that starts
      with a letter; the operand group is optional, so it is present only
      when the blanks after the mnemonic are followed by an operand
      character. */
  function MatchInstruction(s: string): (m: Option<InstructionMatch>)
    ensures m.Some? <==> |s| > 0 && IsLetter(s[0])
    ensures m.Some? ==> |m.value.mnemonic| >= 1 && StartsWith(s, m.value.mnemonic)
    ensures m.Some? ==> forall k :: 0 <= k < |m.value.mnemonic| ==> IsAlnum(m.value.mnemonic[k])
    ensures m.Some? ==> |m.value.mnemonic| == |s| || !IsAlnum(s[|m.value.mnemonic|])
    ensures m.Some? ==> m.value.operands == OperandGroup(s, |m.value.mnemonic|)
  {
    if |s| > 0 && IsLetter(s[0]) then
      var a := RunEnd(s, 1, IsAlnum);
      RunEndRun(s, 1, IsAlnum);
      Some(InstructionMatch(s[..a], OperandGroup(s, a)))
    else None
  }

  /** `([ \t]+(([0-9a-zA-Z,] ?)+))?` from a: blanks, then at least one
      operand character; the group is the operand text that follows. */
  function OperandGroup(s: string, a: nat): (ops: Option<string>)
    requires a <= |s|
    ensures var b := RunEnd(s, a, IsBlank);
      ops.Some? <==> b > a && b < |s| && IsOperandChar(s[b])
  {
    var b := RunEnd(s, a, IsBlank);
    if b > a && b < |s| && IsOperandChar(s[b]) then Some(OperandText(s, b)) else None
  }

  /** The greedy operand run from b without the one space it may end with;
      OperandTextStrips shows this is the run stripped. */
  function OperandText(s: string, b: nat): string
    requires b <= |s|
  {
    var e := SpacedRunEnd(s, b, IsOperandChar);
    if b < e && s[e - 1] == ' ' then s[b..e - 1] else s[b..e]
  }

  /** The operand text is the greedy operand run with `strip` applied, and
      it starts and ends with an operand character. */
  lemma OperandTextStrips(s: string, b: nat)
    requires b < |s| && IsOperandChar(s[b])
    ensures var e := SpacedRunEnd(s, b, IsOperandChar);
      var t := OperandText(s, b);
      b < e && t == Strip(s[b..e]) && |t| > 0 && IsOperandChar(t[0]) && IsOperandChar(t[|t| - 1])
  {
    var e := SpacedRunEnd(s, b, IsOperandChar);
    SpacedRunEndGreedy(s, b, IsOperandChar);
    if !IsOperandChar(s[e - 1]) {
      assert s[e - 1] == ' ' && b < e - 1 && IsOperandChar(s[e - 2]);
      assert s[b..e - 1][e - 2 - b] == s[e - 2];
    }
    assert s[b..e][e - 1 - b] == s[e - 1] && s[b..e][..e - 1 - b] == s[b..e - 1];
    StripTrailingSpace(s[b..e]);
  }


  // ---------------------------------------------------------------------
  // Trailing comment: line[line.find(';') + 2:] if line.find(';') > 0 else None
  // ---------------------------------------------------------------------

  /** The text two places after the first `;`, when that `;` is not the
      first character. */
  function TrailingComment(s: string): (c: Option<string>)
    ensures c.Some? <==> Find(s, ';') > 0
    ensures c.Some? ==> c.value == Drop(s, Find(s, ';') + 2)
  {
    var p := Find(s, ';');
    if p > 0 then Some(Drop(s, p + 2)) else None
  }
}
