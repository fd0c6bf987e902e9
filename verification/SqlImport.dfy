/** What the importer makes of exported INSERT lines. It gives a backslash no meaning and skips lines that look like
    comments, also inside a text, so it reads the export back exactly on the condition of `ImportReadsExport`. */
module SqlImport {
  import opened GoStrings
  import opened SqlSplitting
  import opened SqlExport
  import opened ImportScan
  import opened ImportBlocks

  lemma {:induction false} PlainAppend(q0: Quote, a: string, q1: Quote, b: string, q2: Quote)
    requires PlainPasses(q0, a, q1) && PlainPasses(q1, b, q2)
    ensures PlainPasses(q0, a + b, q2)
    decreases |a|
  {
    if a == [] {
      assert a + b == b;
    } else {
      assert (a + b)[1..] == a[1..] + b;
      PlainAppend(Toggle(q0, a[0]), a[1..], q1, b, q2);
    }
  }

  /** Text in which no character changes the state `q`. */
  predicate Inert(q: Quote, s: string) {
    forall c | c in s :: Toggle(q, c) == q && !(c == ';' && q == Outside)
  }

  lemma {:induction false} InertPasses(q: Quote, s: string)
    requires Inert(q, s)
    ensures PlainPasses(q, s, q)
    decreases |s|
  {
    if s != [] {
      assert s[0] in s;
      forall c | c in s[1..] ensures c in s {}
      InertPasses(q, s[1..]);
    }
  }

  lemma CharPlain(q: Quote, c: char)
    requires !(c == ';' && q == Outside)
    ensures PlainPasses(q, [c], Toggle(q, c))
  {
    assert [c][1..] == [];
  }

  lemma BetweenPlain(mark: char, inside: Quote, body: string)
    requires inside != Outside && mark != ';' && Toggle(Outside, mark) == inside && Toggle(inside, mark) == Outside
    requires PlainPasses(inside, body, inside)
    ensures PlainPasses(Outside, [mark] + body + [mark], Outside)
  {
    CharPlain(Outside, mark);
    CharPlain(inside, mark);
    PlainAppend(Outside, [mark], inside, body, inside);
    PlainAppend(Outside, [mark] + body, inside, [mark], Outside);
  }

  lemma {:induction false} DoubledBackticksPlain(s: string)
    ensures PlainPasses(Backtick, ReplaceAll(s, "`", "``"), Backtick)
    decreases |s|
  {
    if s != [] {
      DoubledBackticksPlain(s[1..]);
      ReplaceCharAppend([s[0]], s[1..], "`", "``");
      assert s == [s[0]] + s[1..];
      OneBacktickPlain(s[0]);
      PlainAppend(Backtick, ReplaceAll([s[0]], "`", "``"), Backtick, ReplaceAll(s[1..], "`", "``"), Backtick);
    }
  }

  lemma OneBacktickPlain(c: char)
    ensures PlainPasses(Backtick, ReplaceAll([c], "`", "``"), Backtick)
  {
    assert [c][1..] == [] && [c][..1] == [c];
    if c == '`' {
      assert HasPrefix([c], "`");
      assert ReplaceAll([c], "`", "``") == ['`'] + ['`'];
      CharPlain(Backtick, '`');
      CharPlain(Outside, '`');
      PlainAppend(Backtick, ['`'], Outside, ['`'], Backtick);
    } else {
      PrefixAt([c], "`", 0);
      assert ReplaceAll([c], "`", "``") == [c];
      CharPlain(Backtick, c);
    }
  }

  lemma IdentPlain(s: string)
    ensures PlainPasses(Outside, QuoteIdent(s), Outside)
  {
    DoubledBackticksPlain(s);
    BetweenPlain('`', Backtick, ReplaceAll(s, "`", "``"));
    assert QuoteIdent(s) == ['`'] + ReplaceAll(s, "`", "``") + ['`'];
  }

  lemma {:induction false} JoinPlain(parts: seq<string>, sep: string)
    requires Inert(Outside, sep) && forall p <- parts :: PlainPasses(Outside, p, Outside)
    ensures PlainPasses(Outside, Join(parts, sep), Outside)
    decreases |parts|
  {
    if |parts| == 1 {
      assert parts[0] in parts;
    } else if |parts| > 1 {
      assert parts[0] in parts;
      JoinPlain(parts[1..], sep);
      InertPasses(Outside, sep);
      PlainAppend(Outside, parts[0], Outside, sep, Outside);
      PlainAppend(Outside, parts[0] + sep, Outside, Join(parts[1..], sep), Outside);
    }
  }

  lemma FixedTextIsInert()
    ensures Inert(Outside, "INSERT INTO ") && Inert(Outside, " (") && Inert(Outside, ") VALUES (")
      && Inert(Outside, ")") && Inert(Outside, ", ")
  {}

  lemma FivePlain(a: string, b: string, c: string, d: string, e: string)
    requires PlainPasses(Outside, a, Outside) && PlainPasses(Outside, b, Outside) && PlainPasses(Outside, c, Outside)
    requires PlainPasses(Outside, d, Outside) && PlainPasses(Outside, e, Outside)
    ensures PlainPasses(Outside, a + b + c + d + e, Outside)
  {
    PlainAppend(Outside, a, Outside, b, Outside);
    PlainAppend(Outside, a + b, Outside, c, Outside);
    PlainAppend(Outside, a + b + c, Outside, d, Outside);
    PlainAppend(Outside, a + b + c + d, Outside, e, Outside);
  }

  // ---------- One statement ----------

  lemma {:induction false} PassesSplit(q: Quote, a: string, b: string, q': Quote)
    ensures PlainPasses(q, a + b, q') <==> PlainPasses(q, a, PlainEnd(q, a)) && PlainPasses(PlainEnd(q, a), b, q')
    decreases |a|
  {
    if a == [] {
      assert a + b == b;
    } else {
      assert (a + b)[1..] == a[1..] + b;
      PassesSplit(Toggle(q, a[0]), a[1..], b, q');
    }
  }

  /** Text before and after that passes on its own does not matter. */
  lemma OnlyTheMiddle(before: string, middle: string, after: string)
    requires PlainPasses(Outside, before, Outside) && Loose(after)
    ensures PlainPasses(Outside, before + middle + after, Outside) <==> PlainPasses(Outside, middle, Outside)
  {
    var q := PlainEnd(Outside, middle);
    PassesToEnd(Outside, before, Outside);
    EndAppend(Outside, before, middle);
    PassesSplit(Outside, before, middle, q);
    PassesSplit(Outside, before + middle, after, Outside);
    LooseKeeps(q, after);
    PassesToEnd(q, after, Outside);
    PassesToEnd(q, after, q);
    PassesToEnd(Outside, middle, Outside);
  }

  lemma {:induction false} EndAppend(q: Quote, a: string, b: string)
    ensures PlainEnd(q, a + b) == PlainEnd(PlainEnd(q, a), b)
    decreases |a|
  {
    if a == [] {
      assert a + b == b;
    } else {
      assert (a + b)[1..] == a[1..] + b;
      EndAppend(Toggle(q, a[0]), a[1..], b);
    }
  }

  /** Text without a quote character or a semicolon. */
  predicate Loose(s: string) {
    forall c <- s :: c != '\'' && c != '"' && c != '`' && c != ';'
  }

  lemma {:induction false} LooseKeeps(q: Quote, s: string)
    requires Loose(s)
    ensures PlainPasses(q, s, q)
    decreases |s|
  {
    if s != [] {
      assert s[0] in s;
      forall c <- s[1..] ensures c in s {}
      LooseKeeps(q, s[1..]);
    }
  }

  lemma HeadPlain(table: string, cols: seq<string>)
    ensures PlainPasses(Outside,
      "INSERT INTO " + QuoteIdent(table) + " (" + Join(Idents(cols), ", ") + ") VALUES (", Outside)
  {
    FixedTextIsInert();
    IdentPlain(table);
    forall p <- Idents(cols) ensures PlainPasses(Outside, p, Outside) {
      var i :| 0 <= i < |cols| && p == QuoteIdent(cols[i]);
      IdentPlain(cols[i]);
    }
    JoinPlain(Idents(cols), ", ");
    InertPasses(Outside, "INSERT INTO ");
    InertPasses(Outside, " (");
    InertPasses(Outside, ") VALUES (");
    FivePlain("INSERT INTO ", QuoteIdent(table), " (", Join(Idents(cols), ", "), ") VALUES (");
  }

  /** A statement is scanned well exactly when its list of values is. */
  lemma StatementByValues(table: string, cols: seq<string>, row: seq<SqlValue>)
    ensures PlainPasses(Outside, InsertStatement(table, cols, row), Outside) <==>
      PlainPasses(Outside, Join(Literals(row), ", "), Outside)
  {
    FixedTextIsInert();
    HeadPlain(table, cols);
    OnlyTheMiddle("INSERT INTO " + QuoteIdent(table) + " (" + Join(Idents(cols), ", ") + ") VALUES (",
      Join(Literals(row), ", "), ")");
  }

  // ---------- One value ----------

  lemma {:induction false} EscapesDoNotMatter(q: Quote, s: string, q': Quote)
    ensures PlainPasses(q, Escaped(s), q') <==> PlainPasses(q, s, q')
    decreases |s|
  {
    if s != [] {
      var e := EscapeChar(s[0]);
      EscapesDoNotMatter(Toggle(q, s[0]), s[1..], q');
      PassesSplit(q, e, Escaped(s[1..]), q');
      EscapePasses(q, s[0]);
    }
  }

  lemma EscapePasses(q: Quote, c: char)
    ensures PlainEnd(q, EscapeChar(c)) == Toggle(q, c)
    ensures PlainPasses(q, EscapeChar(c), Toggle(q, c)) <==> !(c == ';' && q == Outside)
  {
    assert [c][1..] == [];
    assert "\\\\"[1..] == "\\" && "\\"[1..] == "";
    assert "\\'"[1..] == "'" && "'"[1..] == "";
  }

  /** A printed text is scanned well exactly when the text itself is, from inside the quotation back to inside. */
  lemma TextByScan(s: string)
    ensures PlainPasses(Outside, FormatSqlValue(Text(s)), Outside) <==> PlainPasses(Single, s, Single)
  {
    TwoPassesEscape(s);
    assert QuoteText(s) == ['\''] + (Escaped(s) + ['\'']);
    var rest := Escaped(s) + ['\''];
    assert QuoteText(s)[1..] == rest;
    PassesSplit(Single, Escaped(s), ['\''], Outside);
    PassesToEnd(Single, Escaped(s), Single);
    EscapesDoNotMatter(Single, s, Single);
    EscapesDoNotMatter(Single, s, PlainEnd(Single, Escaped(s)));
    assert ['\''][1..] == [];
    CloseSingle(PlainEnd(Single, Escaped(s)));
  }

  lemma CloseSingle(q: Quote)
    ensures PlainPasses(q, ['\''], Outside) <==> q == Single
  {
    assert ['\''][1..] == [];
  }

  /** The number of single quotes. */
  function Quotes(s: string): nat {
    if s == [] then 0 else (if s[0] == '\'' then 1 else 0) + Quotes(s[1..])
  }

  /** An even number of quotes, and no semicolon after an odd number of them. */
  ghost predicate Balanced(s: string) {
    Quotes(s) % 2 == 0 && NoneAfterOdd(s)
  }

  ghost predicate NoneAfterOdd(s: string) {
    forall i | 0 <= i < |s| && s[i] == ';' :: Quotes(s[..i]) % 2 == 0
  }

  /** Seen from the second character, with `seen` quotes before. */
  ghost predicate NoneAfter(seen: nat, s: string) {
    forall i | 0 <= i < |s| && s[i] == ';' :: IsEven(seen + Quotes(s[..i]))
  }

  predicate IsEven(n: nat) {
    n % 2 == 0
  }

  lemma QuotesNext(s: string)
    requires s != []
    ensures Quotes(s) == Quotes([s[0]]) + Quotes(s[1..])
    ensures Quotes([s[0]]) == (if s[0] == '\'' then 1 else 0) && Quotes(s[..0]) == 0
    ensures forall i | 0 <= i < |s[1..]| :: Quotes(s[..i + 1]) == Quotes([s[0]]) + Quotes(s[1..][..i])
  {
    assert [s[0]][1..] == [];
    forall i | 0 <= i < |s[1..]| ensures Quotes(s[..i + 1]) == Quotes([s[0]]) + Quotes(s[1..][..i]) {
      assert s[..i + 1][1..] == s[1..][..i] && s[..i + 1][0] == s[0];
    }
  }

  lemma NoneAfterNext(seen: nat, s: string)
    requires s != []
    ensures NoneAfter(seen, s) <==> (s[0] == ';' ==> IsEven(seen)) && NoneAfter(seen + Quotes([s[0]]), s[1..])
  {
    QuotesNext(s);
    if NoneAfter(seen, s) { NoneAfterTail(seen, s); }
    if (s[0] == ';' ==> IsEven(seen)) && NoneAfter(seen + Quotes([s[0]]), s[1..]) { NoneAfterCons(seen, s); }
  }

  lemma NoneAfterTail(seen: nat, s: string)
    requires s != [] && NoneAfter(seen, s)
    ensures (s[0] == ';' ==> IsEven(seen)) && NoneAfter(seen + Quotes([s[0]]), s[1..])
  {
    QuotesNext(s);
    hide Quotes, IsEven;
    var tail, more := s[1..], seen + Quotes([s[0]]);
    forall i | 0 <= i < |tail| && tail[i] == ';' ensures IsEven(more + Quotes(tail[..i])) {
      assert s[i + 1] == ';' && more + Quotes(tail[..i]) == seen + Quotes(s[..i + 1]);
    }
  }

  lemma NoneAfterCons(seen: nat, s: string)
    requires s != [] && (s[0] == ';' ==> IsEven(seen)) && NoneAfter(seen + Quotes([s[0]]), s[1..])
    ensures NoneAfter(seen, s)
  {
    QuotesNext(s);
    hide Quotes, IsEven;
    var tail, more := s[1..], seen + Quotes([s[0]]);
    forall i | 0 <= i < |s| && s[i] == ';' ensures IsEven(seen + Quotes(s[..i])) {
      if i > 0 {
        var j := i - 1;
        assert tail[j] == ';' && IsEven(more + Quotes(tail[..j]));
        assert Quotes(s[..j + 1]) == Quotes([s[0]]) + Quotes(tail[..j]);
      }
    }
  }

  function StateAfter(quotes: nat): Quote {
    if quotes % 2 == 0 then Single else Outside
  }

  lemma {:induction false} ParityDecides(seen: nat, s: string)
    requires '"' !in s && '`' !in s
    ensures PlainPasses(StateAfter(seen), s, Single) <==> (seen + Quotes(s)) % 2 == 0 && NoneAfter(seen, s)
    decreases |s|
  {
    if s != [] {
      assert s[0] in s;
      forall c <- s[1..] ensures c in s {}
      var more := Quotes([s[0]]);
      QuotesNext(s);
      NoneAfterNext(seen, s);
      ParityDecides(seen + more, s[1..]);
      assert Toggle(StateAfter(seen), s[0]) == StateAfter(seen + more);
    }
  }

  /** A text without the other two quote characters is scanned well exactly when its quotes are balanced. */
  lemma TextByParity(s: string)
    requires '"' !in s && '`' !in s
    ensures PlainPasses(Outside, FormatSqlValue(Text(s)), Outside) <==> Balanced(s)
  {
    TextByScan(s);
    ParityDecides(0, s);
    assert NoneAfter(0, s) <==> NoneAfterOdd(s);
  }

  /** Values that are scanned well on their own make a statement that is. */
  lemma ValuesSuffice(table: string, cols: seq<string>, row: seq<SqlValue>)
    requires forall v <- row :: PlainPasses(Outside, FormatSqlValue(v), Outside)
    ensures PlainPasses(Outside, InsertStatement(table, cols, row), Outside)
  {
    forall p <- Literals(row) ensures PlainPasses(Outside, p, Outside) {
      var i :| 0 <= i < |row| && p == FormatSqlValue(row[i]);
      assert row[i] in row;
    }
    FixedTextIsInert();
    JoinPlain(Literals(row), ", ");
    StatementByValues(table, cols, row);
  }

  /** With one text to a row, the statement is scanned well exactly when the text is. */
  lemma OneTextDecides(table: string, cols: seq<string>, s: string)
    ensures PlainPasses(Outside, InsertStatement(table, cols, [Text(s)]), Outside) <==> PlainPasses(Single, s, Single)
  {
    StatementByValues(table, cols, [Text(s)]);
    assert Literals([Text(s)]) == [FormatSqlValue(Text(s))];
    TextByScan(s);
  }

  // ---------- The export ----------

  lemma {:induction false} TerminatedIsSpelled(stmts: seq<string>)
    ensures Terminated(stmts) == Spelled(Plainly(stmts)) && Stated(Plainly(stmts)) == stmts
    decreases |stmts|
  {
    if stmts != [] {
      TerminatedIsSpelled(stmts[1..]);
      assert Plainly(stmts)[1..] == Plainly(stmts[1..]);
      assert Terminated(stmts) == (stmts[0] + [';']) + (['\n'] + Terminated(stmts[1..]));
    }
  }

  lemma ExportedStatement(table: string, cols: seq<string>, row: seq<SqlValue>)
    ensures Statement(InsertStatement(table, cols, row))
  {
    StatementIsTrimmed(table, cols, row);
    assert InsertStatement(table, cols, row)[0] == 'I';
  }

  /**
   * The importer returns exactly the exported statements if and only if it skips no line of the export and scans each
   * statement without a cut, to the outside of every quotation.
   */
  lemma ImportReadsExport(table: string, cols: seq<string>, rows: seq<seq<SqlValue>>)
    ensures ImportSplit(InsertLines(table, cols, rows)) == InsertStatements(table, cols, rows) <==>
      && NoComment(Split(InsertLines(table, cols, rows), '\n'))
      && forall row <- rows :: PlainPasses(Outside, InsertStatement(table, cols, row), Outside)
  {
    hide Spelled, Blocks, Plainly, Terminated, InsertLines, InsertStatement, PlainPasses, NoComment, Statement;
    var stmts := InsertStatements(table, cols, rows);
    forall s <- stmts ensures Statement(s) {
      var i :| 0 <= i < |rows| && s == InsertStatement(table, cols, rows[i]);
      ExportedStatement(table, cols, rows[i]);
    }
    LinesAreTerminated(table, cols, rows);
    TerminatedIsSpelled(stmts);
    LinesOfSpelled(Plainly(stmts));
    BlocksDecide([], Plainly(stmts));
    ReadableBlocks(Plainly(stmts));
    assert [] + stmts == stmts;
    StatementsOfRows(table, cols, rows);
  }

  lemma StatementsOfRows(table: string, cols: seq<string>, rows: seq<seq<SqlValue>>)
    ensures (forall s <- InsertStatements(table, cols, rows) :: PlainPasses(Outside, s, Outside)) <==>
      forall row <- rows :: PlainPasses(Outside, InsertStatement(table, cols, row), Outside)
  {
    var stmts := InsertStatements(table, cols, rows);
    if forall s <- stmts :: PlainPasses(Outside, s, Outside) {
      forall row <- rows ensures PlainPasses(Outside, InsertStatement(table, cols, row), Outside) {
        var i :| 0 <= i < |rows| && rows[i] == row;
        assert stmts[i] in stmts;
      }
    }
  }

  /** When no statement holds a line end, no line is skipped. */
  lemma ImportReadsOneLiners(table: string, cols: seq<string>, rows: seq<seq<SqlValue>>)
    requires forall row <- rows :: '\n' !in InsertStatement(table, cols, row)
    ensures ImportSplit(InsertLines(table, cols, rows)) == InsertStatements(table, cols, rows) <==>
      forall row <- rows :: PlainPasses(Outside, InsertStatement(table, cols, row), Outside)
  {
    hide Spelled, Blocks, Plainly, Terminated, InsertLines, InsertStatement, PlainPasses, NoComment, Statement;
    var stmts := InsertStatements(table, cols, rows);
    forall s <- stmts ensures Statement(s) && '\n' !in s {
      var i :| 0 <= i < |rows| && s == InsertStatement(table, cols, rows[i]);
      assert rows[i] in rows;
      ExportedStatement(table, cols, rows[i]);
    }
    LinesAreTerminated(table, cols, rows);
    TerminatedIsSpelled(stmts);
    LinesOfSpelled(Plainly(stmts));
    OneLiners(stmts);
    ImportReadsExport(table, cols, rows);
  }

  /** A value that the importer reads back in any row: of the other texts only those that scan without a cut. */
  ghost predicate ReadsBack(v: SqlValue) {
    match v
    case Null => true
    case Flag(_) => true
    case Text(s) => '"' !in s && '`' !in s && Balanced(s)
    case _ => PlainPasses(Outside, FormatSqlValue(v), Outside)
  }

  lemma ReadsBackPasses(v: SqlValue)
    requires ReadsBack(v)
    ensures PlainPasses(Outside, FormatSqlValue(v), Outside)
  {
    match v
    case Null => InertPasses(Outside, "NULL");
    case Flag(b) => InertPasses(Outside, if b then "1" else "0");
    case Text(s) => TextByParity(s);
    case _ =>
  }

  /** Rows of such values without line ends are read back, whatever their number and order. */
  lemma BalancedRowsAreRead(table: string, cols: seq<string>, rows: seq<seq<SqlValue>>)
    requires forall row <- rows :: '\n' !in InsertStatement(table, cols, row) && forall v <- row :: ReadsBack(v)
    ensures ImportSplit(InsertLines(table, cols, rows)) == InsertStatements(table, cols, rows)
  {
    forall row <- rows ensures PlainPasses(Outside, InsertStatement(table, cols, row), Outside) {
      forall v <- row ensures PlainPasses(Outside, FormatSqlValue(v), Outside) { ReadsBackPasses(v); }
      ValuesSuffice(table, cols, row);
    }
    ImportReadsOneLiners(table, cols, rows);
  }

  lemma {:induction false} OneLiners(stmts: seq<string>)
    requires forall s <- stmts :: Statement(s) && '\n' !in s
    ensures NoComment(Blocks(Plainly(stmts)))
    decreases |stmts|
  {
    if stmts == [] {
      assert TrimSpace("") == "";
    } else {
      var s := stmts[0];
      assert s in stmts;
      forall x <- stmts[1..] ensures x in stmts {}
      OneLiners(stmts[1..]);
      OneLine(s);
      assert Plainly(stmts)[1..] == Plainly(stmts[1..]);
      NoCommentAppend(BlockOf(s), Blocks(Plainly(stmts[1..])));
    }
  }

  lemma OneLine(s: string)
    requires Statement(s) && '\n' !in s
    ensures NoComment(BlockOf(s))
  {
    assert '\n' !in s + [';'];
    NoSplit(s + [';']);
    FirstLineStarts(s);
  }

  lemma {:induction false} NoSplit(s: string)
    requires '\n' !in s
    ensures Split(s, '\n') == [s]
    decreases |s|
  {
    if s != [] {
      forall c <- s[1..] ensures c in s {}
      NoSplit(s[1..]);
      assert [s[0]] + s[1..] == s;
    }
  }

  // ---------- Where it fails ----------

  /** The export of a text with a quote and a semicolon is not read back. */
  lemma ImporterCutsQuotedText(table: string, cols: seq<string>)
    ensures ImportSplit(InsertLines(table, cols, [[Text("';")]])) != InsertStatements(table, cols, [[Text("';")]])
  {
    var row := [Text("';")];
    ImportReadsExport(table, cols, [row]);
    OneTextDecides(table, cols, "';");
    QuoteThenSemicolon();
    assert row in [row];
  }

  lemma QuoteThenSemicolon()
    ensures !PlainPasses(Single, "';", Single)
  {
    assert "';"[1..] == ";" && ";"[1..] == "";
  }

  /** Nor is the export of a text with a line that starts with two dashes. */
  lemma ImporterSkipsDashedLine(table: string, cols: seq<string>)
    ensures ImportSplit(InsertLines(table, cols, [[Text("\n--\n")]])) !=
      InsertStatements(table, cols, [[Text("\n--\n")]])
  {
    ImportReadsExport(table, cols, [[Text("\n--\n")]]);
    DashedLiteral();
    LiteralLine(table, cols, Text("\n--\n"), "--");
    DashesAreComment();
  }

  lemma DashesAreComment()
    ensures IsCommentLine("--")
  {
    assert TrimLeft("--") == "--";
    DashedIsComment("--");
  }

  /** What the export of one value looks like. */
  lemma OneValueExport(table: string, cols: seq<string>, v: SqlValue) returns (head: string)
    ensures InsertLines(table, cols, [[v]]) == head + FormatSqlValue(v) + ")" + ";" + "\n"
  {
    head := "INSERT INTO " + QuoteIdent(table) + " (" + Join(Idents(cols), ", ") + ") VALUES (";
    assert Literals([v]) == [FormatSqlValue(v)];
    assert [[v]][1..] == [];
    assert InsertLine(table, cols, [v]) + [] == InsertLine(table, cols, [v]);
  }

  lemma LiteralLine(table: string, cols: seq<string>, v: SqlValue, line: string)
    requires FormatSqlValue(v) == ['\''] + ['\n'] + line + ['\n'] + ['\''] && '\n' !in line
    ensures line in Split(InsertLines(table, cols, [[v]]), '\n')
  {
    var head := OneValueExport(table, cols, v);
    Regroup(head, ['\''], ['\n'], line, ")", ";", "\n");
    HasLine(head + ['\''], line, ['\''] + ")" + ";" + "\n");
  }

  lemma Regroup<T>(head: seq<T>, q: seq<T>, n: seq<T>, line: seq<T>, a: seq<T>, b: seq<T>, c: seq<T>)
    ensures head + (q + n + line + n + q) + a + b + c == head + q + (n + (line + (n + (q + a + b + c))))
  {}

  lemma HasLine(head: string, line: string, tail: string)
    requires '\n' !in line
    ensures line in Split(head + (['\n'] + (line + (['\n'] + tail))), '\n')
  {
    SplitAppend(head, line + (['\n'] + tail));
    SplitLine(line, tail, '\n');
    var lines := Split(head, '\n') + ([line] + Split(tail, '\n'));
    assert lines[|Split(head, '\n')|] == line;
  }

  lemma DashedLiteral()
    ensures FormatSqlValue(Text("\n--\n")) == ['\''] + ['\n'] + "--" + ['\n'] + ['\'']
  {
    var s := "\n--\n";
    TwoPassesEscape(s);
    assert s[1..] == "--\n" && "--\n"[1..] == "-\n" && "-\n"[1..] == "\n" && "\n"[1..] == "";
    assert Escaped("\n") == ['\n'];
    assert Escaped("-\n") == ['-', '\n'];
    assert Escaped("--\n") == ['-', '-', '\n'];
  }
}
