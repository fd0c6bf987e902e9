/** The SQL literal printer and the exported INSERT lines. */
module SqlExport {
  import opened GoStrings
  import opened SqlSplitting

  /** A column value; `Moment` is a formatted time, `Printed` any other value as `fmt.Sprint` prints it. */
  datatype SqlValue = Null | Text(s: string) | Flag(b: bool) | Moment(s: string) | Printed(s: string)

  function QuoteText(s: string): string {
    "'" + ReplaceAll(ReplaceAll(s, "\\", "\\\\"), "'", "\\'") + "'"
  }

  function FormatSqlValue(v: SqlValue): string {
    match v
    case Null => "NULL"
    case Text(s) => QuoteText(s)
    case Flag(b) => if b then "1" else "0"
    case Moment(s) => "'" + s + "'"
    case Printed(s) => s
  }

  function QuoteIdent(s: string): string {
    "`" + ReplaceAll(s, "`", "``") + "`"
  }

  // ---------- MySQL string literals (MySQL Reference Manual, section 9.1.1) ----------

  /** The character that a backslash sequence stands for; `\%` and `\_` keep their backslash. */
  function Unescape(c: char): string {
    if c == '0' then ['\U{0}'] else if c == 'b' then ['\U{8}'] else if c == 'n' then ['\n'] else if c == 'r' then ['\r']
    else if c == 't' then ['\t'] else if c == 'Z' then ['\U{1a}'] else if c == '%' || c == '_' then ['\\', c] else [c]
  }

  datatype Decoded = BadLiteral | Decoded(value: string)

  function Prefixed(p: string, d: Decoded): Decoded {
    if d.BadLiteral? then d else Decoded(p + d.value)
  }

  /** Decodes what follows the opening quote, up to a closing quote that ends the text. */
  function DecodeBody(s: string): Decoded
    decreases |s|
  {
    if s == [] then BadLiteral
    else if s[0] == '\'' then
      if |s| == 1 then Decoded("")
      else if s[1] == '\'' then Prefixed("'", DecodeBody(s[2..])) else BadLiteral
    else if s[0] == '\\' then
      if |s| == 1 then BadLiteral else Prefixed(Unescape(s[1]), DecodeBody(s[2..]))
    else Prefixed([s[0]], DecodeBody(s[1..]))
  }

  function DecodeLiteral(text: string): Decoded {
    if text != [] && text[0] == '\'' then DecodeBody(text[1..]) else BadLiteral
  }

  // ---------- The printed literal, character by character ----------

  function EscapeChar(c: char): string {
    if c == '\\' then "\\\\" else if c == '\'' then "\\'" else [c]
  }

  function Escaped(s: string): string {
    if s == [] then [] else EscapeChar(s[0]) + Escaped(s[1..])
  }

  lemma {:induction false} ReplaceCharAppend(a: string, b: string, old': string, new': string)
    requires |old'| == 1
    ensures ReplaceAll(a + b, old', new') == ReplaceAll(a, old', new') + ReplaceAll(b, old', new')
    decreases |a|
  {
    if a == [] {
      assert a + b == b;
    } else {
      assert (a + b)[1..] == a[1..] + b && (a + b)[0] == a[0] && (a + b)[..1] == a[..1];
      ReplaceCharAppend(a[1..], b, old', new');
      var head := if HasPrefix(a, old') then new' else [a[0]];
      assert ReplaceAll(a, old', new') == head + ReplaceAll(a[1..], old', new');
      assert ReplaceAll(a + b, old', new') == head + ReplaceAll(a[1..] + b, old', new');
    }
  }

  /** The two replacements, in this order, escape each character on its own. */
  lemma {:induction false} TwoPassesEscape(s: string)
    ensures ReplaceAll(ReplaceAll(s, "\\", "\\\\"), "'", "\\'") == Escaped(s)
    decreases |s|
  {
    if s != [] {
      var head, tail := [s[0]], s[1..];
      assert s == head + tail;
      TwoPassesEscape(tail);
      ReplaceCharAppend(head, tail, "\\", "\\\\");
      ReplaceCharAppend(ReplaceAll(head, "\\", "\\\\"), ReplaceAll(tail, "\\", "\\\\"), "'", "\\'");
      OneCharEscape(s[0]);
    }
  }

  lemma OneCharEscape(c: char)
    ensures ReplaceAll(ReplaceAll([c], "\\", "\\\\"), "'", "\\'") == EscapeChar(c)
  {
    assert [c][1..] == [] && [c][..1] == [c];
    if c == '\\' {
      assert HasPrefix([c], "\\");
      assert ReplaceAll([c], "\\", "\\\\") == "\\\\" + ReplaceAll([], "\\", "\\\\") == "\\\\";
      ReplaceSkips("\\\\", [], "'", "\\'");
      assert "\\\\" + [] == "\\\\";
    } else {
      assert !HasPrefix([c], "\\") by { PrefixAt([c], "\\", 0); }
      assert ReplaceAll([c], "\\", "\\\\") == [c];
      if c == '\'' {
        assert HasPrefix([c], "'");
      } else {
        PrefixAt([c], "'", 0);
      }
    }
  }

  lemma CharDecodes(c: char, rest: string)
    ensures DecodeBody(EscapeChar(c) + rest) == Prefixed([c], DecodeBody(rest))
  {
    var e := EscapeChar(c);
    assert (e + rest)[|e|..] == rest;
  }

  lemma {:induction false} EscapedDecodes(s: string)
    ensures DecodeBody(Escaped(s) + "'") == Decoded(s)
    decreases |s|
  {
    if s != [] {
      EscapedDecodes(s[1..]);
      var rest := Escaped(s[1..]) + "'";
      assert Escaped(s) + "'" == EscapeChar(s[0]) + rest;
      CharDecodes(s[0], rest);
      assert [s[0]] + s[1..] == s;
    }
  }

  /** The printed literal decodes back to the text. */
  lemma TextRoundTrip(s: string)
    ensures DecodeLiteral(FormatSqlValue(Text(s))) == Decoded(s)
  {
    TwoPassesEscape(s);
    EscapedDecodes(s);
    assert QuoteText(s)[1..] == Escaped(s) + "'";
  }

  // ---------- The printed literal in the guard's scan ----------

  lemma {:induction false} EscapedPasses(s: string)
    ensures Passes(Single, Escaped(s), Single)
    decreases |s|
  {
    if s != [] {
      EscapedPasses(s[1..]);
      if s[0] == '\\' || s[0] == '\'' { PairPasses(Single, EscapeChar(s[0])); } else { CharPasses(Single, s[0]); }
      PassesAppend(Single, EscapeChar(s[0]), Single, Escaped(s[1..]), Single);
    }
  }

  /** Text without quotes, semicolons and backslashes leaves the scan where it is. */
  predicate Harmless(s: string) {
    forall c | c in s :: c != '\'' && c != '"' && c != '`' && c != ';' && c != '\\'
  }

  lemma {:induction false} HarmlessPasses(q: Quote, s: string)
    requires Harmless(s)
    ensures Passes(q, s, q)
    decreases |s|
  {
    if s != [] {
      assert s[0] in s;
      CharPasses(q, s[0]);
      assert Toggle(q, s[0]) == q;
      forall c | c in s[1..] ensures c in s {}
      HarmlessPasses(q, s[1..]);
      PassesAppend(q, [s[0]], q, s[1..], q);
      assert s == [s[0]] + s[1..];
    }
  }

  lemma QuotedPasses(mark: char, inside: Quote, body: string)
    requires (mark == '\'' || mark == '"' || mark == '`') && inside != Outside
    requires Toggle(Outside, mark) == inside && Toggle(inside, mark) == Outside && Passes(inside, body, inside)
    ensures Passes(Outside, [mark] + body + [mark], Outside)
  {
    CharPasses(Outside, mark);
    CharPasses(inside, mark);
    PassesAppend(Outside, [mark], inside, body, inside);
    PassesAppend(Outside, [mark] + body, inside, [mark], Outside);
  }

  /** What the printers of times, numbers and other values produce. */
  predicate Printable(v: SqlValue) {
    match v
    case Moment(s) => Harmless(s)
    case Printed(s) => Harmless(s)
    case _ => true
  }

  /** Every printed value scans as closed text, outside every quotation before and after it. */
  lemma ValuePasses(v: SqlValue)
    requires Printable(v)
    ensures Passes(Outside, FormatSqlValue(v), Outside)
  {
    match v
    case Null => HarmlessPasses(Outside, "NULL");
    case Text(s) =>
      TwoPassesEscape(s);
      EscapedPasses(s);
      QuotedPasses('\'', Single, Escaped(s));
      assert QuoteText(s) == ['\''] + Escaped(s) + ['\''];
    case Flag(b) => HarmlessPasses(Outside, if b then "1" else "0");
    case Moment(s) =>
      HarmlessPasses(Single, s);
      QuotedPasses('\'', Single, s);
      assert FormatSqlValue(v) == ['\''] + s + ['\''];
    case Printed(s) => HarmlessPasses(Outside, s);
  }

  lemma {:induction false} DoubledBackticksPass(s: string)
    requires '\\' !in s
    ensures Passes(Backtick, ReplaceAll(s, "`", "``"), Backtick)
    decreases |s|
  {
    if s != [] {
      DoubledBackticksPass(s[1..]);
      ReplaceCharAppend([s[0]], s[1..], "`", "``");
      assert s == [s[0]] + s[1..];
      OneBacktick(s[0]);
      PassesAppend(Backtick, ReplaceAll([s[0]], "`", "``"), Backtick, ReplaceAll(s[1..], "`", "``"), Backtick);
    }
  }

  lemma OneBacktick(c: char)
    requires c != '\\'
    ensures Passes(Backtick, ReplaceAll([c], "`", "``"), Backtick)
  {
    assert [c][1..] == [] && [c][..1] == [c];
    if c == '`' {
      assert HasPrefix([c], "`");
      assert ReplaceAll([c], "`", "``") == ['`'] + ['`'];
      CharPasses(Backtick, '`');
      CharPasses(Outside, '`');
      PassesAppend(Backtick, ['`'], Outside, ['`'], Backtick);
    } else {
      PrefixAt([c], "`", 0);
      assert ReplaceAll([c], "`", "``") == [c];
      CharPasses(Backtick, c);
    }
  }

  lemma IdentPasses(s: string)
    requires '\\' !in s
    ensures Passes(Outside, QuoteIdent(s), Outside)
  {
    DoubledBackticksPass(s);
    QuotedPasses('`', Backtick, ReplaceAll(s, "`", "``"));
    assert QuoteIdent(s) == ['`'] + ReplaceAll(s, "`", "``") + ['`'];
  }

  // ---------- INSERT lines ----------

  function Idents(names: seq<string>): (r: seq<string>)
    ensures |r| == |names| && forall i | 0 <= i < |r| :: r[i] == QuoteIdent(names[i])
  {
    seq(|names|, i requires 0 <= i < |names| => QuoteIdent(names[i]))
  }

  function Literals(values: seq<SqlValue>): (r: seq<string>)
    ensures |r| == |values| && forall i | 0 <= i < |r| :: r[i] == FormatSqlValue(values[i])
  {
    seq(|values|, i requires 0 <= i < |values| => FormatSqlValue(values[i]))
  }

  /** The statement of one row, without its terminator. */
  function InsertStatement(table: string, cols: seq<string>, row: seq<SqlValue>): string {
    "INSERT INTO " + QuoteIdent(table) + " (" + Join(Idents(cols), ", ") + ") VALUES ("
      + Join(Literals(row), ", ") + ")"
  }

  function InsertLine(table: string, cols: seq<string>, row: seq<SqlValue>): string {
    InsertStatement(table, cols, row) + ";" + "\n"
  }

  function InsertLines(table: string, cols: seq<string>, rows: seq<seq<SqlValue>>): string {
    if rows == [] then [] else InsertLine(table, cols, rows[0]) + InsertLines(table, cols, rows[1..])
  }

  function InsertStatements(table: string, cols: seq<string>, rows: seq<seq<SqlValue>>): seq<string> {
    seq(|rows|, i requires 0 <= i < |rows| => InsertStatement(table, cols, rows[i]))
  }

  lemma {:induction false} JoinPasses(parts: seq<string>, sep: string)
    requires Harmless(sep) && forall p <- parts :: Passes(Outside, p, Outside)
    ensures Passes(Outside, Join(parts, sep), Outside)
    decreases |parts|
  {
    if |parts| == 1 {
      assert parts[0] in parts;
    } else if |parts| > 1 {
      assert parts[0] in parts;
      JoinPasses(parts[1..], sep);
      HarmlessPasses(Outside, sep);
      PassesAppend(Outside, parts[0], Outside, sep, Outside);
      PassesAppend(Outside, parts[0] + sep, Outside, Join(parts[1..], sep), Outside);
    }
  }

  /** Identifiers without a backslash and printable values. */
  ghost predicate ExportableRow(table: string, cols: seq<string>, row: seq<SqlValue>) {
    '\\' !in table && (forall c <- cols :: '\\' !in c) && forall v <- row :: Printable(v)
  }

  lemma StatementPasses(table: string, cols: seq<string>, row: seq<SqlValue>)
    requires ExportableRow(table, cols, row)
    ensures Passes(Outside, InsertStatement(table, cols, row), Outside)
  {
    IdentPasses(table);
    forall p <- Idents(cols) ensures Passes(Outside, p, Outside) {
      var i :| 0 <= i < |cols| && p == QuoteIdent(cols[i]);
      assert cols[i] in cols;
      IdentPasses(cols[i]);
    }
    JoinPasses(Idents(cols), ", ");
    forall p <- Literals(row) ensures Passes(Outside, p, Outside) {
      var i :| 0 <= i < |row| && p == FormatSqlValue(row[i]);
      assert row[i] in row;
      ValuePasses(row[i]);
    }
    JoinPasses(Literals(row), ", ");
    FixedTextIsHarmless();
    HarmlessPasses(Outside, "INSERT INTO ");
    HarmlessPasses(Outside, " (");
    HarmlessPasses(Outside, ") VALUES (");
    HarmlessPasses(Outside, ")");
    SevenPass("INSERT INTO ", QuoteIdent(table), " (", Join(Idents(cols), ", "), ") VALUES (",
      Join(Literals(row), ", "), ")");
  }

  lemma FixedTextIsHarmless()
    ensures Harmless("INSERT INTO ") && Harmless(" (") && Harmless(") VALUES (") && Harmless(")") && Harmless(", ")
  {}

  lemma SevenPass(a: string, b: string, c: string, d: string, e: string, f: string, g: string)
    requires Passes(Outside, a, Outside) && Passes(Outside, b, Outside) && Passes(Outside, c, Outside)
      && Passes(Outside, d, Outside)
    requires Passes(Outside, e, Outside) && Passes(Outside, f, Outside) && Passes(Outside, g, Outside)
    ensures Passes(Outside, a + b + c + d + e + f + g, Outside)
  {
    PassesAppend(Outside, a, Outside, b, Outside);
    PassesAppend(Outside, a + b, Outside, c, Outside);
    PassesAppend(Outside, a + b + c, Outside, d, Outside);
    PassesAppend(Outside, a + b + c + d, Outside, e, Outside);
    PassesAppend(Outside, a + b + c + d + e, Outside, f, Outside);
    PassesAppend(Outside, a + b + c + d + e + f, Outside, g, Outside);
  }

  lemma StatementIsTrimmed(table: string, cols: seq<string>, row: seq<SqlValue>)
    ensures var s := InsertStatement(table, cols, row); s != "" && Trimmed(s)
  {
    var s := InsertStatement(table, cols, row);
    assert s[0] == 'I' && s[|s| - 1] == ')';
  }

  // ---------- Terminated statements ----------

  function Terminated(stmts: seq<string>): string {
    if stmts == [] then [] else stmts[0] + ";" + "\n" + Terminated(stmts[1..])
  }

  ghost predicate ClosedStatement(s: string) {
    Passes(Outside, s, Outside) && s != "" && Trimmed(s)
  }

  /** A terminated statement, scanned outside every quotation after a cut, adds exactly itself. */
  lemma StatementScans(st: Scan, s: string, rest: string)
    requires ClosedStatement(s) && st.quote == Outside && (st.current == "" || st.current == ['\n'])
    ensures GuardScan(st, s + ";" + "\n" + rest) == GuardScan(Scan(st.stmts + [s], Outside, ['\n']), rest)
  {
    var line := ['\n'] + rest;
    var tail := [';'] + line;
    assert ";" + "\n" + rest == tail;
    assert s + ";" + "\n" + rest == s + tail;
    PassScan(st, s, tail, Outside);
    assert TrimSpace(st.current + s) == s by {
      TrimmedIsFixed(s);
      if st.current == "" { assert st.current + s == s; } else { TrimSpacePrepend('\n', s); }
    }
    assert tail[1..] == line && line[1..] == rest;
    assert GuardScan(Scan(st.stmts, Outside, st.current + s), tail) ==
      GuardScan(Scan(st.stmts + [s], Outside, ""), line);
    assert "" + ['\n'] == ['\n'];
  }

  lemma NothingLeft(st: Scan)
    requires st.current == "" || st.current == ['\n']
    ensures Finish(GuardScan(st, "")) == st.stmts
  {
    if st.current != "" { TrimSpacePrepend('\n', ""); assert ['\n'] + "" == ['\n']; }
  }

  ghost predicate AllClosed(stmts: seq<string>) {
    forall s <- stmts :: ClosedStatement(s)
  }

  lemma {:induction false} TerminatedScans(st: Scan, stmts: seq<string>)
    requires AllClosed(stmts) && st.quote == Outside && (st.current == "" || st.current == ['\n'])
    ensures Finish(GuardScan(st, Terminated(stmts))) == st.stmts + stmts
    decreases |stmts|
  {
    if stmts == [] {
      NothingLeft(st);
    } else {
      var s, others := stmts[0], stmts[1..];
      assert ClosedStatement(s) && AllClosed(others);
      StatementScans(st, s, Terminated(others));
      var next := Scan(st.stmts + [s], Outside, ['\n']);
      assert GuardScan(st, Terminated(stmts)) == GuardScan(next, Terminated(others));
      TerminatedScans(next, others);
      assert (st.stmts + [s]) + others == st.stmts + stmts;
    }
  }

  lemma {:induction false} LinesAreTerminated(table: string, cols: seq<string>, rows: seq<seq<SqlValue>>)
    ensures InsertLines(table, cols, rows) == Terminated(InsertStatements(table, cols, rows))
    decreases |rows|
  {
    if rows != [] {
      LinesAreTerminated(table, cols, rows[1..]);
      assert InsertStatements(table, cols, rows)[1..] == InsertStatements(table, cols, rows[1..]);
    }
  }

  /** Splitting exported rows returns exactly the exported statements, whatever text the rows hold. */
  lemma ExportSplitsBack(table: string, cols: seq<string>, rows: seq<seq<SqlValue>>)
    requires forall row <- rows :: ExportableRow(table, cols, row)
    ensures GuardSplit(InsertLines(table, cols, rows)) == InsertStatements(table, cols, rows)
  {
    var stmts := InsertStatements(table, cols, rows);
    forall s <- stmts ensures ClosedStatement(s) {
      var i :| 0 <= i < |rows| && s == InsertStatement(table, cols, rows[i]);
      assert rows[i] in rows;
      StatementPasses(table, cols, rows[i]);
      StatementIsTrimmed(table, cols, rows[i]);
    }
    LinesAreTerminated(table, cols, rows);
    TerminatedScans(START, stmts);
    assert [] + stmts == stmts;
  }

  // ---------- What MySQL reads ----------

  /** Decodes what follows the opening backtick (section 9.2), up to a closing one that ends the text. */
  function DecodeIdentBody(s: string): Decoded
    decreases |s|
  {
    if s == [] then BadLiteral
    else if s[0] != '`' then Prefixed([s[0]], DecodeIdentBody(s[1..]))
    else if |s| == 1 then Decoded("")
    else if s[1] == '`' then Prefixed("`", DecodeIdentBody(s[2..])) else BadLiteral
  }

  function DecodeIdent(text: string): Decoded {
    if text != [] && text[0] == '`' then DecodeIdentBody(text[1..]) else BadLiteral
  }

  lemma {:induction false} DoubledDecodes(s: string)
    ensures DecodeIdentBody(ReplaceAll(s, "`", "``") + "`") == Decoded(s)
    decreases |s|
  {
    if s != [] {
      DoubledDecodes(s[1..]);
      var rest := ReplaceAll(s[1..], "`", "``") + "`";
      if s[0] == '`' {
        assert s[..1] == "`" && HasPrefix(s, "`");
        assert ReplaceAll(s, "`", "``") + "`" == "``" + rest && ("``" + rest)[2..] == rest;
      } else {
        PrefixAt(s, "`", 0);
        assert ReplaceAll(s, "`", "``") + "`" == [s[0]] + rest && ([s[0]] + rest)[1..] == rest;
      }
      assert [s[0]] + s[1..] == s;
    }
  }

  /** A quoted identifier is read as itself. */
  lemma IdentRoundTrip(s: string)
    ensures DecodeIdent(QuoteIdent(s)) == Decoded(s)
  {
    DoubledDecodes(s);
    assert QuoteIdent(s)[1..] == ReplaceAll(s, "`", "``") + "`";
  }

  /** MySQL reads `printed` as this value: a text or a moment as itself, a flag as the number one or zero. */
  ghost predicate StandsFor(printed: string, v: SqlValue) {
    match v
    case Null => printed == "NULL"
    case Text(s) => DecodeLiteral(printed) == Decoded(s)
    case Flag(b) => printed in ["0", "1"] && NumberOf(printed) == if b then 1 else 0
    case Moment(s) => '\'' !in s && '\\' !in s ==> DecodeLiteral(printed) == Decoded(s)
    case Printed(s) => printed == s
  }

  lemma ValueMeans(v: SqlValue)
    ensures StandsFor(FormatSqlValue(v), v)
  {
    match v
    case Text(s) => TextRoundTrip(s);
    case Flag(b) => DigitsRead();
    case Moment(s) => if '\'' !in s && '\\' !in s { PlainDecodes(s); }
    case Null =>
    case Printed(_) =>
  }

  /** The statement inserts the values of the row, column by column, into the table. */
  ghost predicate Inserts(stmt: string, table: string, cols: seq<string>, row: seq<SqlValue>) {
    exists t, names, values ::
      && stmt == "INSERT INTO " + t + " (" + Join(names, ", ") + ") VALUES (" + Join(values, ", ") + ")"
      && DecodeIdent(t) == Decoded(table) && |names| == |cols| && |values| == |row|
      && (forall i | 0 <= i < |cols| :: DecodeIdent(names[i]) == Decoded(cols[i]))
      && forall i | 0 <= i < |row| :: StandsFor(values[i], row[i])
  }

  /** Each exported statement inserts its row. */
  lemma StatementInserts(table: string, cols: seq<string>, row: seq<SqlValue>)
    ensures Inserts(InsertStatement(table, cols, row), table, cols, row)
  {
    hide QuoteIdent, FormatSqlValue, DecodeIdent, StandsFor, InsertStatement;
    IdentRoundTrip(table);
    forall i | 0 <= i < |cols| ensures DecodeIdent(Idents(cols)[i]) == Decoded(cols[i]) { IdentRoundTrip(cols[i]); }
    forall i | 0 <= i < |row| ensures StandsFor(Literals(row)[i], row[i]) { ValueMeans(row[i]); }
    StatementIs(table, cols, row);
  }

  lemma StatementIs(table: string, cols: seq<string>, row: seq<SqlValue>)
    ensures InsertStatement(table, cols, row) == "INSERT INTO " + QuoteIdent(table) + " (" + Join(Idents(cols), ", ")
      + ") VALUES (" + Join(Literals(row), ", ") + ")"
  {}

  lemma DigitsRead()
    ensures NumberOf("0") == 0 && NumberOf("1") == 1
  {
    assert "0"[..0] == "" && "1"[..0] == "";
  }

  lemma {:induction false} PlainDecodes(s: string)
    requires '\'' !in s && '\\' !in s
    ensures DecodeBody(s + "'") == Decoded(s)
    ensures DecodeLiteral("'" + s + "'") == Decoded(s)
    decreases |s|
  {
    assert ("'" + s + "'")[1..] == s + "'";
    if s != [] {
      assert (s + "'")[1..] == s[1..] + "'" && s[0] in s;
      PlainDecodes(s[1..]);
      assert [s[0]] + s[1..] == s;
    }
  }
}
