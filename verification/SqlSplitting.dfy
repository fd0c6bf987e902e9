/** The two SQL statement splitters: the guard's `splitStatements` and the importer's `splitSQLStatements`. */
module SqlSplitting {
  import opened GoStrings

  /** Which quotation the scan is inside of; the code keeps one flag per kind, of which at most one is set. */
  datatype Quote = Outside | Single | Double | Backtick

  /** The statements found so far, the open quotation and the text since the last cut. */
  datatype Scan = Scan(stmts: seq<string>, quote: Quote, current: string)

  const START := Scan([], Outside, "")

  function Toggle(q: Quote, ch: char): Quote {
    if ch == '\'' && (q == Outside || q == Single) then (if q == Single then Outside else Single)
    else if ch == '"' && (q == Outside || q == Double) then (if q == Double then Outside else Double)
    else if ch == '`' && (q == Outside || q == Backtick) then (if q == Backtick then Outside else Backtick)
    else q
  }

  /** A finished text becomes a statement unless it is blank. */
  function Emit(stmts: seq<string>, current: string): seq<string> {
    if TrimSpace(current) == "" then stmts else stmts + [TrimSpace(current)]
  }

  function Step(st: Scan, ch: char): Scan {
    if ch == ';' && st.quote == Outside then Scan(Emit(st.stmts, st.current), Outside, "")
    else Scan(st.stmts, Toggle(st.quote, ch), st.current + [ch])
  }

  function Finish(st: Scan): seq<string> {
    Emit(st.stmts, st.current)
  }

  // ---------- The guard: character by character, a backslash takes the next character with it ----------

  function GuardScan(st: Scan, s: string): Scan
    decreases |s|
  {
    if s == [] then st
    else if s[0] == '\\' && |s| > 1 then GuardScan(st.(current := st.current + s[..2]), s[2..])
    else GuardScan(Step(st, s[0]), s[1..])
  }

  function GuardSplit(sql: string): seq<string> {
    Finish(GuardScan(START, sql))
  }

  function QuoteOf(inSingle: bool, inDouble: bool, inBacktick: bool): Quote {
    if inSingle then Single else if inDouble then Double else if inBacktick then Backtick else Outside
  }

  predicate AtMostOne(inSingle: bool, inDouble: bool, inBacktick: bool) {
    !(inSingle && inDouble) && !(inSingle && inBacktick) && !(inDouble && inBacktick)
  }

  method SplitStatements(sql: string) returns (statements: seq<string>)
    ensures statements == GuardSplit(sql)
  {
    statements := [];
    var current := "";
    var inSingleQuote, inDoubleQuote, inBacktick := false, false, false;
    var i := 0;
    while i < |sql|
      invariant 0 <= i <= |sql| && AtMostOne(inSingleQuote, inDoubleQuote, inBacktick)
      invariant GuardScan(Scan(statements, QuoteOf(inSingleQuote, inDoubleQuote, inBacktick), current), sql[i..]) ==
        GuardScan(START, sql)
    {
      var ch := sql[i];
      assert sql[i..][1..] == sql[i + 1..];
      if ch == '\\' && i + 1 < |sql| {
        assert sql[i..][2..] == sql[i + 2..] && sql[i..][..2] == [ch, sql[i + 1]];
        assert (current + [ch]) + [sql[i + 1]] == current + [ch, sql[i + 1]];
        current := current + [ch];
        i := i + 1;
        current := current + [sql[i]];
        i := i + 1;
        continue;
      }
      if ch == '\'' && !inDoubleQuote && !inBacktick {
        inSingleQuote := !inSingleQuote;
      } else if ch == '"' && !inSingleQuote && !inBacktick {
        inDoubleQuote := !inDoubleQuote;
      } else if ch == '`' && !inSingleQuote && !inDoubleQuote {
        inBacktick := !inBacktick;
      } else if ch == ';' && !inSingleQuote && !inDoubleQuote && !inBacktick {
        var stmt := TrimSpace(current);
        if stmt != "" { statements := statements + [stmt]; }
        current := "";
        i := i + 1;
        continue;
      }
      current := current + [ch];
      i := i + 1;
    }
    var last := TrimSpace(current);
    if last != "" { statements := statements + [last]; }
  }

  // ---------- The importer: line by line, comment lines skipped, a backslash means nothing ----------

  function PlainScan(st: Scan, s: string): Scan
    decreases |s|
  {
    if s == [] then st else PlainScan(Step(st, s[0]), s[1..])
  }

  predicate IsCommentLine(line: string) {
    var t := TrimSpace(line);
    HasPrefix(t, "--") || (HasPrefix(t, "/*") && HasSuffix(t, "*/"))
  }

  /** A text that starts with two dashes, or opens a block comment and ends by closing one. */
  ghost predicate IsRemark(text: string) {
    "--" <= text || ("/*" <= text && exists rest :: text == rest + "*/")
  }

  /** White space aside, the line is such a text. */
  ghost predicate ReadsAsComment(line: string) {
    exists left, middle, right ::
      line == left + middle + right && Blank(left) && Blank(right) && Trimmed(middle) && IsRemark(middle)
  }

  lemma RemarkIs(t: string)
    ensures IsRemark(t) <==> HasPrefix(t, "--") || (HasPrefix(t, "/*") && HasSuffix(t, "*/"))
  {
    if HasSuffix(t, "*/") { assert t == t[..|t| - 2] + "*/"; }
  }

  lemma CommentLineReads(line: string)
    ensures IsCommentLine(line) <==> ReadsAsComment(line)
  {
    hide TrimSpace, Trimmed, Blank, IsRemark;
    var left, right := TrimSpaceIsMiddle(line);
    RemarkIs(TrimSpace(line));
    if ReadsAsComment(line) {
      var a, middle, b :|
        line == a + middle + b && Blank(a) && Blank(b) && Trimmed(middle) && IsRemark(middle);
      TrimIsMiddle(a, middle, b);
    }
  }

  function EndLine(st: Scan): Scan {
    st.(current := st.current + ['\n'])
  }

  function ImportLine(st: Scan, line: string): Scan {
    if IsCommentLine(line) then st else EndLine(PlainScan(st, line))
  }

  function ImportLines(st: Scan, lines: seq<string>): Scan
    decreases |lines|
  {
    if lines == [] then st else ImportLines(ImportLine(st, lines[0]), lines[1..])
  }

  function ImportSplit(sql: string): seq<string> {
    Finish(ImportLines(START, Split(sql, '\n')))
  }

  method ImportOneLine(stmts0: seq<string>, current0: string, q0: Quote, line: string)
    returns (stmts: seq<string>, current: string, inSingleQuote: bool, inDoubleQuote: bool, inBacktick: bool)
    ensures AtMostOne(inSingleQuote, inDoubleQuote, inBacktick)
    ensures Scan(stmts, QuoteOf(inSingleQuote, inDoubleQuote, inBacktick), current) ==
      PlainScan(Scan(stmts0, q0, current0), line)
  {
    stmts, current := stmts0, current0;
    inSingleQuote, inDoubleQuote, inBacktick := q0 == Single, q0 == Double, q0 == Backtick;
    for i := 0 to |line|
      invariant AtMostOne(inSingleQuote, inDoubleQuote, inBacktick)
      invariant PlainScan(Scan(stmts, QuoteOf(inSingleQuote, inDoubleQuote, inBacktick), current), line[i..]) ==
        PlainScan(Scan(stmts0, q0, current0), line)
    {
      var ch := line[i];
      assert line[i..][1..] == line[i + 1..];
      if ch == '\'' && !inDoubleQuote && !inBacktick {
        inSingleQuote := !inSingleQuote;
      } else if ch == '"' && !inSingleQuote && !inBacktick {
        inDoubleQuote := !inDoubleQuote;
      } else if ch == '`' && !inSingleQuote && !inDoubleQuote {
        inBacktick := !inBacktick;
      }
      if ch == ';' && !inSingleQuote && !inDoubleQuote && !inBacktick {
        var stmt := TrimSpace(current);
        if stmt != "" { stmts := stmts + [stmt]; }
        current := "";
      } else {
        current := current + [ch];
      }
    }
  }

  method SplitSqlStatements(sqlText: string) returns (stmts: seq<string>)
    ensures stmts == ImportSplit(sqlText)
  {
    stmts := [];
    var current := "";
    var inSingleQuote, inDoubleQuote, inBacktick := false, false, false;
    var lines := Split(sqlText, '\n');
    for n := 0 to |lines|
      invariant AtMostOne(inSingleQuote, inDoubleQuote, inBacktick)
      invariant ImportLines(Scan(stmts, QuoteOf(inSingleQuote, inDoubleQuote, inBacktick), current), lines[n..]) ==
        ImportLines(START, lines)
    {
      assert lines[n..][1..] == lines[n + 1..];
      if IsCommentLine(lines[n]) { continue; }
      stmts, current, inSingleQuote, inDoubleQuote, inBacktick :=
        ImportOneLine(stmts, current, QuoteOf(inSingleQuote, inDoubleQuote, inBacktick), lines[n]);
      current := current + ['\n'];
    }
    var stmt := TrimSpace(current);
    if stmt != "" { stmts := stmts + [stmt]; }
  }

  // ---------- The two splitters agree ----------

  lemma {:induction false} GuardIsPlain(st: Scan, s: string)
    requires '\\' !in s
    ensures GuardScan(st, s) == PlainScan(st, s)
    decreases |s|
  {
    if s != [] { GuardIsPlain(Step(st, s[0]), s[1..]); }
  }

  lemma {:induction false} PlainScanAppend(st: Scan, a: string, b: string)
    ensures PlainScan(st, a + b) == PlainScan(PlainScan(st, a), b)
    decreases |a|
  {
    if a == [] {
      assert a + b == b;
    } else {
      assert (a + b)[1..] == a[1..] + b;
      PlainScanAppend(Step(st, a[0]), a[1..], b);
    }
  }

  /** The lines scanned one after another, each with its line end. */
  function AllLines(st: Scan, lines: seq<string>): Scan
    decreases |lines|
  {
    if lines == [] then st else AllLines(EndLine(PlainScan(st, lines[0])), lines[1..])
  }

  lemma {:induction false} NoCommentsSkipped(st: Scan, lines: seq<string>)
    requires forall l <- lines :: !IsCommentLine(l)
    ensures ImportLines(st, lines) == AllLines(st, lines)
    decreases |lines|
  {
    if lines != [] {
      assert lines[0] in lines;
      NoCommentsSkipped(EndLine(PlainScan(st, lines[0])), lines[1..]);
    }
  }

  /** Scanning line by line is scanning the text with one more line end. */
  lemma {:induction false} LinesAreText(st: Scan, s: string)
    ensures AllLines(st, Split(s, '\n')) == EndLine(PlainScan(st, s))
    decreases |s|
  {
    if s != [] {
      var rest := Split(s[1..], '\n');
      if s[0] == '\n' {
        LinesAreText(EndLine(st), s[1..]);
        assert ([""] + rest)[1..] == rest;
      } else {
        var first := [s[0]] + rest[0];
        LinesAreText(Step(st, s[0]), s[1..]);
        assert first[1..] == rest[0];
        assert ([first] + rest[1..])[1..] == rest[1..];
      }
    }
  }

  lemma EmitLineEnd(stmts: seq<string>, current: string)
    ensures Emit(stmts, current + ['\n']) == Emit(stmts, current)
  {
    TrimSpaceAppend(current, '\n');
  }

  /** On text without a backslash and without a line the importer skips, both splitters return the same list. */
  lemma SplittersAgree(sql: string)
    requires '\\' !in sql
    requires forall l <- Split(sql, '\n') :: !IsCommentLine(l)
    ensures ImportSplit(sql) == GuardSplit(sql)
  {
    GuardIsPlain(START, sql);
    NoCommentsSkipped(START, Split(sql, '\n'));
    LinesAreText(START, sql);
    EmitLineEnd(PlainScan(START, sql).stmts, PlainScan(START, sql).current);
  }

  // ---------- Text that is scanned without a cut ----------

  /** No statement ends inside `s` when the scan enters it in state `q`. */
  predicate Quiet(q: Quote, s: string)
    decreases |s|
  {
    if s == [] then true
    else if s[0] == '\\' && |s| > 1 then Quiet(q, s[2..])
    else !(s[0] == ';' && q == Outside) && Quiet(Toggle(q, s[0]), s[1..])
  }

  /** The quotation the scan is in after `s`. */
  function After(q: Quote, s: string): Quote
    decreases |s|
  {
    if s == [] then q
    else if s[0] == '\\' && |s| > 1 then After(q, s[2..])
    else After(Toggle(q, s[0]), s[1..])
  }

  /** `s` does not end in a backslash that would take the next character with it. */
  predicate Complete(s: string)
    decreases |s|
  {
    if s == [] then true
    else if s[0] == '\\' then |s| > 1 && Complete(s[2..])
    else Complete(s[1..])
  }

  /** From state `q` the text `s` is scanned without a cut and leads to state `q'`. */
  predicate Passes(q: Quote, s: string, q': Quote) {
    Quiet(q, s) && After(q, s) == q' && Complete(s)
  }

  lemma {:induction false} QuietAppend(q: Quote, a: string, b: string)
    requires Quiet(q, a) && Complete(a) && Quiet(After(q, a), b)
    ensures Quiet(q, a + b) && After(q, a + b) == After(After(q, a), b) && (Complete(b) ==> Complete(a + b))
    decreases |a|
  {
    if a == [] {
      assert a + b == b;
    } else if a[0] == '\\' {
      assert (a + b)[2..] == a[2..] + b;
      QuietAppend(q, a[2..], b);
    } else {
      assert (a + b)[1..] == a[1..] + b;
      QuietAppend(Toggle(q, a[0]), a[1..], b);
    }
  }

  lemma PassesAppend(q0: Quote, a: string, q1: Quote, b: string, q2: Quote)
    requires Passes(q0, a, q1) && Passes(q1, b, q2)
    ensures Passes(q0, a + b, q2)
  {
    QuietAppend(q0, a, b);
  }

  lemma {:induction false} QuietScan(st: Scan, s: string)
    requires Quiet(st.quote, s)
    ensures GuardScan(st, s) == Scan(st.stmts, After(st.quote, s), st.current + s)
    decreases |s|
  {
    if s == [] {
      assert st.current + s == st.current;
    } else if s[0] == '\\' && |s| > 1 {
      QuietScan(st.(current := st.current + s[..2]), s[2..]);
      assert (st.current + s[..2]) + s[2..] == st.current + s;
    } else {
      QuietScan(Step(st, s[0]), s[1..]);
      assert (st.current + [s[0]]) + s[1..] == st.current + s;
    }
  }

  lemma {:induction false} PassScan(st: Scan, a: string, b: string, q: Quote)
    requires Passes(st.quote, a, q)
    ensures GuardScan(st, a + b) == GuardScan(Scan(st.stmts, q, st.current + a), b)
    decreases |a|
  {
    if a == [] {
      assert a + b == b && st.current + a == st.current;
    } else if a[0] == '\\' {
      assert (a + b)[2..] == a[2..] + b && (a + b)[..2] == a[..2];
      PassScan(st.(current := st.current + a[..2]), a[2..], b, q);
      assert (st.current + a[..2]) + a[2..] == st.current + a;
    } else {
      assert (a + b)[1..] == a[1..] + b;
      PassScan(Step(st, a[0]), a[1..], b, q);
      assert (st.current + [a[0]]) + a[1..] == st.current + a;
    }
  }

  // ---------- Pieces are stable ----------

  lemma {:induction false} QuietPrefix(q: Quote, s: string, n: nat)
    requires Quiet(q, s) && n <= |s|
    ensures Quiet(q, s[..n])
    decreases |s|
  {
    if n == 0 {
    } else if s[0] == '\\' && |s| > 1 {
      if n == 1 {
        assert s[..1] == ['\\'] && ['\\'][1..] == [];
      } else {
        assert s[..n][2..] == s[2..][..n - 2];
        QuietPrefix(q, s[2..], n - 2);
      }
    } else {
      assert s[..n][1..] == s[1..][..n - 1];
      QuietPrefix(Toggle(q, s[0]), s[1..], n - 1);
    }
  }

  lemma {:induction false} QuietTrimLeft(s: string)
    requires Quiet(Outside, s)
    ensures Quiet(Outside, TrimLeft(s))
  {
    if s != [] && IsSpace(s[0]) { QuietTrimLeft(s[1..]); }
  }

  lemma {:induction false} QuietTrimRight(s: string)
    requires Quiet(Outside, s)
    ensures Quiet(Outside, TrimRight(s))
  {
    if s != [] && IsSpace(s[|s| - 1]) {
      QuietPrefix(Outside, s, |s| - 1);
      QuietTrimRight(s[..|s| - 1]);
    }
  }

  ghost predicate Piece(p: string) {
    p != "" && Trimmed(p) && Quiet(Outside, p)
  }

  lemma EmitGivesPieces(stmts: seq<string>, current: string)
    requires Quiet(Outside, current) && forall p <- stmts :: Piece(p)
    ensures forall p <- Emit(stmts, current) :: Piece(p)
  {
    QuietTrimLeft(current);
    QuietTrimRight(TrimLeft(current));
    TrimSpaceTrims(current);
  }

  /** The text since the last cut, as the scan sees it. */
  ghost predicate Tracks(st: Scan) {
    Passes(Outside, st.current, st.quote) && forall p <- st.stmts :: Piece(p)
  }

  lemma UnitKeepsTracking(st: Scan, unit: string)
    requires Tracks(st) && Passes(st.quote, unit, After(st.quote, unit))
    ensures Tracks(Scan(st.stmts, After(st.quote, unit), st.current + unit))
  {
    PassesAppend(Outside, st.current, st.quote, unit, After(st.quote, unit));
  }

  lemma PairPasses(q: Quote, pair: string)
    requires |pair| == 2 && pair[0] == '\\'
    ensures Passes(q, pair, q)
  {
    assert pair[2..] == [];
  }

  lemma CharPasses(q: Quote, ch: char)
    requires ch != '\\' && !(ch == ';' && q == Outside)
    ensures Passes(q, [ch], Toggle(q, ch))
  {
    assert [ch][1..] == [];
  }

  lemma {:induction false} ScanGivesPieces(st: Scan, s: string)
    requires Tracks(st)
    ensures forall p <- Finish(GuardScan(st, s)) :: Piece(p)
    decreases |s|
  {
    if s == [] {
      EmitGivesPieces(st.stmts, st.current);
    } else if s[0] == '\\' && |s| > 1 {
      PairPasses(st.quote, s[..2]);
      UnitKeepsTracking(st, s[..2]);
      ScanGivesPieces(st.(current := st.current + s[..2]), s[2..]);
    } else if s[0] == ';' && st.quote == Outside {
      EmitGivesPieces(st.stmts, st.current);
      ScanGivesPieces(Step(st, s[0]), s[1..]);
    } else if s[0] == '\\' {
      LoneBackslash(st, s);
    } else {
      CharPasses(st.quote, s[0]);
      UnitKeepsTracking(st, [s[0]]);
      ScanGivesPieces(Step(st, s[0]), s[1..]);
    }
  }

  lemma LoneBackslash(st: Scan, s: string)
    requires Tracks(st) && s == ['\\']
    ensures forall p <- Finish(GuardScan(st, s)) :: Piece(p)
  {
    assert s[1..] == [];
    assert GuardScan(st, s) == Step(st, '\\');
    QuietAppend(Outside, st.current, s);
    EmitGivesPieces(st.stmts, st.current + s);
  }

  lemma PieceSplitsToItself(p: string)
    requires Piece(p)
    ensures GuardSplit(p) == [p]
  {
    QuietScan(START, p);
    assert "" + p == p;
    TrimmedIsFixed(p);
  }

  /** Every piece the guard splits off splits to itself. */
  lemma PiecesAreStable(sql: string)
    ensures forall p <- GuardSplit(sql) :: GuardSplit(p) == [p]
  {
    ScanGivesPieces(START, sql);
    forall p <- GuardSplit(sql) ensures GuardSplit(p) == [p] { PieceSplitsToItself(p); }
  }
}
