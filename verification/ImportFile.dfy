/** The whole text of an SQL export and what the importer makes of it. */
module ImportFile {
  import opened GoStrings
  import opened Sequences
  import opened SqlSplitting
  import opened SqlExport
  import opened ImportScan
  import opened ImportBlocks
  import opened SqlImport

  const OPENING := "SET FOREIGN_KEY_CHECKS=0"
  const CLOSING := "SET FOREIGN_KEY_CHECKS=1"

  function TargetTable(table: string): string {
    if TrimSpace(table) == "" then "export_data" else TrimSpace(table)
  }

  /** The table as given without the white space around it; one that is blank gets a name. */
  ghost predicate IsTarget(table: string, target: string) {
    if Blank(table) then target == "export_data"
    else Trimmed(target) && exists left, right :: table == left + target + right && Blank(left) && Blank(right)
  }

  lemma TrimmedIsMiddle(table: string)
    ensures Trimmed(TrimSpace(table))
    ensures exists left, right :: table == left + TrimSpace(table) + right && Blank(left) && Blank(right)
  {
    var left, right := TrimSpaceIsMiddle(table);
  }

  /** The comment in front. */
  function Header(target: string): string {
    "-- Exported data for table " + QuoteIdent(target)
  }

  /** What follows the comment: the statements with empty lines before and after the rows. */
  function Items(target: string, cols: seq<string>, rows: seq<seq<SqlValue>>): seq<Item> {
    [Stmt(OPENING), Gap] + Plainly(InsertStatements(target, cols, rows)) + [Gap, Stmt(CLOSING)]
  }

  function ExportText(target: string, cols: seq<string>, rows: seq<seq<SqlValue>>): string {
    Header(target) + (['\n'] + Spelled(Items(target, cols, rows)))
  }

  function ExportStatements(target: string, cols: seq<string>, rows: seq<seq<SqlValue>>): seq<string> {
    [OPENING] + InsertStatements(target, cols, rows) + [CLOSING]
  }

  /** The export of a query's rows. */
  method MysqlExportSQL(table: string, cols: seq<string>, rows: seq<seq<SqlValue>>) returns (text: string)
    ensures text == ExportText(TargetTable(table), cols, rows) && IsTarget(table, TargetTable(table))
  {
    TrimsToNothingIffBlank(table);
    TrimmedIsMiddle(table);
    var targetTable := TrimSpace(table);
    if targetTable == "" { targetTable := "export_data"; }
    text := "-- Exported data for table " + QuoteIdent(targetTable) + "\n";
    text := text + (OPENING + ";\n\n");
    ghost var head := text;
    for i := 0 to |rows|
      invariant text + InsertLines(targetTable, cols, rows[i..]) == head + InsertLines(targetTable, cols, rows)
    {
      assert rows[i..][1..] == rows[i + 1..] && rows[i..][0] == rows[i];
      Associate(text, InsertLine(targetTable, cols, rows[i]), InsertLines(targetTable, cols, rows[i + 1..]));
      text := text + InsertLine(targetTable, cols, rows[i]);
    }
    assert text + [] == text;
    text := text + ("\n" + CLOSING + ";\n");
    TextInParts(targetTable, cols, rows);
  }

  lemma TextInParts(target: string, cols: seq<string>, rows: seq<seq<SqlValue>>)
    ensures ExportText(target, cols, rows) ==
      "-- Exported data for table " + QuoteIdent(target) + "\n" + (OPENING + ";\n\n")
      + InsertLines(target, cols, rows) + ("\n" + CLOSING + ";\n")
  {
    var inserts := InsertStatements(target, cols, rows);
    ItemsInParts(inserts);
    LinesAreTerminated(target, cols, rows);
    TerminatedIsSpelled(inserts);
  }

  lemma ItemsInParts(stmts: seq<string>)
    ensures Spelled([Stmt(OPENING), Gap] + Plainly(stmts) + [Gap, Stmt(CLOSING)]) ==
      (OPENING + ";\n\n") + Spelled(Plainly(stmts)) + ("\n" + CLOSING + ";\n")
    ensures Stated([Stmt(OPENING), Gap] + Plainly(stmts) + [Gap, Stmt(CLOSING)]) == [OPENING] + stmts + [CLOSING]
    ensures NoComment(Blocks([Stmt(OPENING), Gap] + Plainly(stmts) + [Gap, Stmt(CLOSING)])) <==>
      NoComment(Blocks(Plainly(stmts)))
  {
    hide OPENING, CLOSING;
    OpeningIsDull();
    ClosingIsDull();
    ItemsBetween(OPENING, stmts, CLOSING);
  }

  lemma ItemsBetween(first: string, stmts: seq<string>, last: string)
    requires Statement(first) && Dull(first) && Statement(last) && Dull(last)
    ensures var items := [Stmt(first), Gap] + Plainly(stmts) + [Gap, Stmt(last)];
      && Spelled(items) == (first + ";\n\n") + Spelled(Plainly(stmts)) + ("\n" + last + ";\n")
      && Stated(items) == [first] + stmts + [last]
      && (NoComment(Blocks(items)) <==> NoComment(Blocks(Plainly(stmts))))
  {
    var front, back := [Stmt(first), Gap], [Gap, Stmt(last)];
    SpelledAppend(front + Plainly(stmts), back);
    SpelledAppend(front, Plainly(stmts));
    BlocksAppend(front + Plainly(stmts), back);
    BlocksAppend(front, Plainly(stmts));
    TerminatedIsSpelled(stmts);
    FrontItems(first);
    BackItems(last);
  }

  lemma FrontItems(first: string)
    requires Statement(first) && Dull(first)
    ensures Spelled([Stmt(first), Gap]) == first + ";\n\n" && Stated([Stmt(first), Gap]) == [first]
    ensures NoComment(Blocks([Stmt(first), Gap]))
  {
    assert [Stmt(first)] + [Gap] == [Stmt(first), Gap];
    SpelledAppend([Stmt(first)], [Gap]);
    BlocksAppend([Stmt(first)], [Gap]);
    OneStmt(first);
    OneGap();
    assert [first] + [] == [first];
    assert first + ";" + "\n" + "\n" == first + ";\n\n";
  }

  lemma BackItems(last: string)
    requires Statement(last) && Dull(last)
    ensures Spelled([Gap, Stmt(last)]) == "\n" + last + ";\n" && Stated([Gap, Stmt(last)]) == [last]
    ensures NoComment(Blocks([Gap, Stmt(last)]))
  {
    assert [Gap] + [Stmt(last)] == [Gap, Stmt(last)];
    SpelledAppend([Gap], [Stmt(last)]);
    BlocksAppend([Gap], [Stmt(last)]);
    OneStmt(last);
    OneGap();
    assert [] + [last] == [last];
    assert "\n" + (last + ";" + "\n") == "\n" + last + ";\n";
  }

  lemma OneGap()
    ensures Spelled([Gap]) == "\n" && Stated([Gap]) == [] && NoComment(Blocks([Gap]))
  {
    assert [Gap][1..] == [];
    LineEndIsSpace();
  }

  lemma OneStmt(s: string)
    requires Statement(s) && Dull(s)
    ensures Spelled([Stmt(s)]) == s + ";" + "\n" && Stated([Stmt(s)]) == [s] && NoComment(Blocks([Stmt(s)]))
  {
    assert [Stmt(s)][1..] == [];
    assert [s] + [] == [s];
    OneLine(s);
    LineEndIsSpace();
  }

  /** Text of one line that the importer scans as it is. */
  predicate Dull(s: string) {
    forall c <- s :: c != '\n' && c != ';' && c != '\'' && c != '"' && c != '`'
  }

  lemma OpeningIsDull()
    ensures Statement(OPENING) && Dull(OPENING)
  {}

  lemma ClosingIsDull()
    ensures Statement(CLOSING) && Dull(CLOSING)
  {}

  lemma DullPasses(q: Quote, s: string)
    requires Dull(s)
    ensures Inert(q, s) && PlainPasses(q, s, q)
  {
    InertPasses(q, s);
  }

  // ---------- The comment ----------

  /** The importer drops the line or finds nothing in it. */
  predicate Silent(line: string) {
    IsCommentLine(line) || AllSpace(line)
  }

  /** No line of the comment is more than a comment. A table name without line end is enough. */
  ghost predicate HeaderSilent(target: string) {
    forall l <- Split(Header(target), '\n') :: Silent(l)
  }

  lemma OneLineHeader(target: string)
    requires '\n' !in target
    ensures HeaderSilent(target)
  {
    NoNewCharacter(target, '\n');
    NoSplit(Header(target));
    HeaderIsComment(Header(target));
  }

  lemma {:induction false} NoNewCharacter(s: string, c: char)
    requires c !in s && c != '`'
    ensures c !in QuoteIdent(s)
    decreases |s|
  {
    if s != [] {
      assert s == [s[0]] + s[1..];
      NoNewCharacter(s[1..], c);
      OneReplaced(s);
    }
  }

  lemma OneReplaced(s: string)
    requires s != []
    ensures ReplaceAll(s, "`", "``") == (if s[0] == '`' then "``" else [s[0]]) + ReplaceAll(s[1..], "`", "``")
  {
    assert s[..1] == [s[0]] && s == [s[0]] + s[1..];
    if s[0] == '`' {
      ReplaceHits(s[1..], "`", "``");
    } else {
      PrefixAt(s, "`", 0);
    }
  }

  lemma HeaderIsComment(line: string)
    requires |line| > 2 && line[..2] == "--"
    ensures IsCommentLine(line)
  {
    assert line[0] == line[..2][0] && TrimLeft(line) == line;
    PrefixAt(line, "--", 0);
    DashedIsComment(line);
  }

  /** Silent lines leave nothing but white space. */
  lemma {:induction false} SilentLines(pad: string, lines: seq<string>, rest: seq<string>)
    requires AllSpace(pad) && forall l <- lines :: Silent(l)
    ensures Finish(ImportLines(Scan([], Outside, pad), lines + rest)) == Finish(ImportLines(START, rest))
    decreases |lines|
  {
    if lines == [] {
      assert lines + rest == rest && pad + "" == pad;
      PadLines(pad, Scan([], Outside, pad), START, rest);
    } else {
      var l, others := lines[0], lines[1..];
      assert l in lines && lines + rest == [l] + (others + rest);
      forall x <- others ensures Silent(x) { assert x in lines; }
      ImportCons(Scan([], Outside, pad), l, others + rest);
      if IsCommentLine(l) {
        SilentLines(pad, others, rest);
      } else {
        SpaceScans(Scan([], Outside, pad), l);
        assert ImportLine(Scan([], Outside, pad), l) == Scan([], Outside, pad + l + ['\n']);
        SilentLines(pad + l + ['\n'], others, rest);
      }
    }
  }

  lemma SpaceScans(st: Scan, s: string)
    requires AllSpace(s)
    ensures PlainScan(st, s) == Scan(st.stmts, st.quote, st.current + s)
  {
    forall c | c in s ensures Toggle(st.quote, c) == st.quote && c != ';' { assert IsSpace(c); }
    InertPasses(st.quote, s);
    PlainPassScan(st, s, st.quote);
  }

  // ---------- Text that is left of the comment ----------

  /** Without a semicolon nothing is cut. */
  lemma {:induction false} UncutLines(st: Scan, lines: seq<string>)
    requires forall l <- lines :: ';' !in l
    ensures var r := ImportLines(st, lines);
      r.stmts == st.stmts && st.current <= r.current
      && ((exists l <- lines :: !Silent(l)) ==> !AllSpace(r.current))
    decreases |lines|
  {
    if lines != [] {
      var l, others, next := lines[0], lines[1..], ImportLine(st, lines[0]);
      assert l in lines && lines == [l] + others;
      forall x <- others ensures ';' !in x { assert x in lines; }
      UncutLines(next, others);
      if !IsCommentLine(l) {
        UncutLine(st, l);
        if !Silent(l) {
          var c :| c in l && !IsSpace(c);
          assert c in next.current;
        }
      }
    }
  }

  lemma UncutLine(st: Scan, l: string)
    requires ';' !in l
    ensures PlainScan(st, l).stmts == st.stmts && PlainScan(st, l).current == st.current + l
  {
    NoSemicolonPasses(st.quote, l);
    PlainPassScan(st, l, PlainEnd(st.quote, l));
  }

  lemma {:induction false} NoSemicolonPasses(q: Quote, s: string)
    requires ';' !in s
    ensures PlainPasses(q, s, PlainEnd(q, s))
    decreases |s|
  {
    if s != [] {
      assert s[0] in s;
      NoSemicolonPasses(Toggle(q, s[0]), s[1..]);
    }
  }

  lemma {:induction false} SolidPart(s: string) returns (pad: string, solid: string)
    requires !AllSpace(s)
    ensures s == pad + solid && AllSpace(pad) && Solid(solid)
    decreases |s|
  {
    if !IsSpace(s[0]) {
      pad, solid := "", s;
    } else {
      var c :| c in s && !IsSpace(c);
      assert s == [s[0]] + s[1..];
      pad, solid := SolidPart(s[1..]);
      Associate([s[0]], pad, solid);
      pad := [s[0]] + pad;
    }
  }

  /** Visible text in front of the first statement becomes part of it. */
  lemma TextInFront(q: Quote, text: string, first: string, rest: seq<string>)
    requires !AllSpace(text) && Statement(first) && Dull(first)
    ensures var found := Finish(ImportLines(Scan([], q, text), [first + ";"] + rest));
      |found| > 0 && found[0] != first
  {
    var pad, solid := SolidPart(text);
    PadLines(pad, Scan([], q, text), Scan([], q, solid), [first + ";"] + rest);
    DullPasses(q, first);
    PlainPassScan(Scan([], q, solid), first, q);
    PlainScanAppend(Scan([], q, solid), first, ";");
    var mid := Scan([], q, solid + first);
    EndsPlainly(first);
    ImportCons(Scan([], q, solid), first + ";", rest);
    ImportCons(mid, ";", rest);
    LineContinues(mid, ";", rest);
    TrimmedIsFixed(solid + first);
  }

  lemma EndsPlainly(first: string)
    requires Statement(first)
    ensures !IsCommentLine(first + ";") && !IsCommentLine(";")
  {
    StartsVisibly(first + ";");
    SolidTrims(";");
    assert TrimSpace(";") == ";";
  }

  lemma LoudHeader(target: string, first: string, rest: seq<string>)
    requires !HeaderSilent(target) && ';' !in target && Statement(first) && Dull(first)
    ensures var found := Finish(ImportLines(START, Split(Header(target), '\n') + ([first + ";"] + rest)));
      |found| > 0 && found[0] != first
  {
    var lines := Split(Header(target), '\n');
    NoNewCharacter(target, ';');
    LinesLack(Header(target), ';');
    UncutLines(START, lines);
    ImportAppend(START, lines, [first + ";"] + rest);
    var st := ImportLines(START, lines);
    TextInFront(st.quote, st.current, first, rest);
  }

  lemma {:induction false} LinesLack(s: string, c: char)
    requires c !in s
    ensures forall l <- Split(s, '\n') :: c !in l
    decreases |s|
  {
    if s != [] {
      forall x | x in s[1..] ensures x in s {}
      LinesLack(s[1..], c);
      var rest := Split(s[1..], '\n');
      assert rest[0] in rest && s[0] in s;
      forall l <- Split(s, '\n') ensures c !in l {
        if s[0] == '\n' {
          assert l == "" || l in rest;
        } else {
          assert l == [s[0]] + rest[0] || l in rest[1..];
        }
      }
    }
  }

  // ---------- The whole text ----------

  /**
   * The importer returns exactly the statements of the export if and only if nothing of the comment in front is left,
   * no line of the rows is dropped and every row's statement is scanned without a cut. (Table names with both a line
   * end and a semicolon are not covered.)
   */
  lemma ImportReadsExportFile(target: string, cols: seq<string>, rows: seq<seq<SqlValue>>)
    requires '\n' !in target || ';' !in target
    ensures ImportSplit(ExportText(target, cols, rows)) == ExportStatements(target, cols, rows) <==>
      && HeaderSilent(target) && NoComment(Split(InsertLines(target, cols, rows), '\n'))
      && forall row <- rows :: PlainPasses(Outside, InsertStatement(target, cols, row), Outside)
  {
    hide OPENING, CLOSING, Header;
    var items, lines := Items(target, cols, rows), Split(Header(target), '\n');
    SplitAppend(Header(target), Spelled(items));
    LinesOfSpelled(items);
    if HeaderSilent(target) {
      SilentLines("", lines, Blocks(items));
      BodyDecides(target, cols, rows);
    } else {
      if '\n' !in target { OneLineHeader(target); }
      OpeningIsDull();
      FirstBlock(OPENING, items);
      LoudHeader(target, OPENING, Blocks(items[1..]));
    }
  }

  lemma FirstBlock(first: string, items: seq<Item>)
    requires Dull(first) && items != [] && items[0] == Stmt(first)
    ensures Blocks(items) == [first + ";"] + Blocks(items[1..])
  {
    assert '\n' !in first;
    NoSplit(first + ";");
  }

  lemma BodyDecides(target: string, cols: seq<string>, rows: seq<seq<SqlValue>>)
    ensures Finish(ImportLines(START, Blocks(Items(target, cols, rows)))) == ExportStatements(target, cols, rows) <==>
      && NoComment(Split(InsertLines(target, cols, rows), '\n'))
      && forall row <- rows :: PlainPasses(Outside, InsertStatement(target, cols, row), Outside)
  {
    hide OPENING, CLOSING, Spelled, Blocks, Plainly, Terminated, InsertLines, PlainPasses, NoComment, Statement;
    var items, inserts := Items(target, cols, rows), InsertStatements(target, cols, rows);
    ItemsInParts(inserts);
    LinesAreTerminated(target, cols, rows);
    TerminatedIsSpelled(inserts);
    LinesOfSpelled(Plainly(inserts));
    AllAreStatements(target, cols, rows);
    BlocksDecide([], items);
    ReadableBlocks(items);
    assert [] + Stated(items) == Stated(items);
    OpeningIsDull();
    ClosingIsDull();
    AroundRows(OPENING, inserts, CLOSING);
    StatementsOfRows(target, cols, rows);
  }

  lemma AroundRows(first: string, stmts: seq<string>, last: string)
    requires Dull(first) && Dull(last)
    ensures (forall s <- [first] + stmts + [last] :: PlainPasses(Outside, s, Outside)) <==>
      forall s <- stmts :: PlainPasses(Outside, s, Outside)
  {
    DullPasses(Outside, first);
    DullPasses(Outside, last);
    forall s <- stmts ensures s in [first] + stmts + [last] {}
  }

  lemma AllAreStatements(target: string, cols: seq<string>, rows: seq<seq<SqlValue>>)
    ensures forall s <- ExportStatements(target, cols, rows) :: Statement(s)
  {
    hide OPENING, CLOSING;
    var stmts := InsertStatements(target, cols, rows);
    OpeningIsDull();
    ClosingIsDull();
    forall s <- ExportStatements(target, cols, rows) ensures Statement(s) {
      if s in stmts {
        var i :| 0 <= i < |rows| && s == InsertStatement(target, cols, rows[i]);
        ExportedStatement(target, cols, rows[i]);
      }
    }
  }

  /** A table name of two plain lines spoils the whole import, whatever the rows. */
  lemma SplitNameSpoilsImport(first: string, second: string, cols: seq<string>, rows: seq<seq<SqlValue>>)
    requires (forall c | c in first + second :: 'a' <= c <= 'z') && second != ""
    ensures var target := first + (['\n'] + second);
      ImportSplit(ExportText(target, cols, rows)) != ExportStatements(target, cols, rows)
  {
    var target := first + (['\n'] + second);
    forall c | c in target ensures c != ';' { assert c in first + second || c == '\n'; }
    ImportReadsExportFile(target, cols, rows);
    LastLineIsLoud(first, second);
  }

  lemma LastLineIsLoud(first: string, second: string)
    requires (forall c | c in first + second :: 'a' <= c <= 'z') && second != ""
    ensures !HeaderSilent(first + (['\n'] + second))
  {
    var target, line := first + (['\n'] + second), second + "`";
    assert forall c | c in target :: c in first + second || c == '\n';
    NothingDoubled(target);
    forall c | c in second ensures c in first + second {}
    HeaderEnds("-- Exported data for table ", first, second);
    assert second[0] in first + second;
    forall c | c in line ensures c != '\n' { assert c in first + second || c == '`'; }
    LetterIsLoud(line);
  }

  lemma HeaderEnds(front: string, first: string, second: string)
    requires '\n' !in second
    ensures second + "`" in Split(front + ("`" + (first + (['\n'] + second)) + "`"), '\n')
  {
    var head, line := front + ("`" + first), second + "`";
    assert front + ("`" + (first + (['\n'] + second)) + "`") == head + (['\n'] + line);
    SplitAppend(head, line);
    NoSplit(line);
    assert (Split(head, '\n') + [line])[|Split(head, '\n')|] == line;
  }

  lemma LetterIsLoud(line: string)
    requires line != "" && 'a' <= line[0] <= 'z'
    ensures !Silent(line)
  {
    SolidTrims(line);
    var t := TrimSpace(line);
    PrefixAt(t, "--", 0);
    PrefixAt(t, "/*", 0);
    assert line[0] in line;
  }

  lemma {:induction false} NothingDoubled(s: string)
    requires '`' !in s
    ensures ReplaceAll(s, "`", "``") == s
    decreases |s|
  {
    if s != [] {
      forall c | c in s[1..] ensures c in s {}
      NothingDoubled(s[1..]);
      OneReplaced(s);
      assert s == [s[0]] + s[1..];
    }
  }
}
