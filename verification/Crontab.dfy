/** The crontab editor: the parse loop of `getCronList` and the print loop of `saveCronList`. */
module Crontab {
  import opened GoStrings
  import opened Sequences

  datatype Entry = Entry(expression: string, command: string, enabled: bool, comment: string)

  /** An entry with the identifier of the line it was read from. */
  datatype CronItem = CronItem(id: string, entry: Entry)

  predicate IsCronChar(c: char) {
    c == '*' || c == '/' || c == '-' || c == ',' || '0' <= c <= '9'
  }

  predicate IsCronExpression(fields: seq<string>) {
    |fields| >= 5 && forall f <- fields :: f != "" && forall c <- f :: IsCronChar(c)
  }

  predicate IsCronLine(fields: seq<string>) {
    |fields| >= 6 && IsCronExpression(fields[..5])
  }

  // ---------- Reading ----------

  datatype Line = Blank | Job(expression: string, command: string, enabled: bool) | Remark(text: string)

  function JobOr(fields: seq<string>, enabled: bool, text: string): Line {
    if IsCronLine(fields) then Job(Join(fields[..5], " "), Join(fields[5..], " "), enabled) else Remark(text)
  }

  function ReadLine(line: string): Line {
    var trimmed := TrimSpace(line);
    if trimmed == "" then Blank
    else if trimmed[0] == '#' then
      var uncommented := TrimSpace(trimmed[1..]);
      JobOr(Fields(uncommented), false, uncommented)
    else JobOr(Fields(trimmed), true, trimmed)
  }

  function ReadAll(lines: seq<string>): (r: seq<Line>)
    ensures |r| == |lines| && forall i | 0 <= i < |r| :: r[i] == ReadLine(lines[i])
  {
    if lines == [] then [] else [ReadLine(lines[0])] + ReadAll(lines[1..])
  }

  /** The items of the lines from number `idx` on, with `lastComment` pending. */
  function Collect(lines: seq<Line>, idx: nat, lastComment: string): seq<CronItem>
    decreases |lines|
  {
    if lines == [] then []
    else
      match lines[0]
      case Blank => Collect(lines[1..], idx + 1, "")
      case Job(e, c, enabled) =>
        [CronItem("cron-" + Itoa(idx), Entry(e, c, enabled, lastComment))] + Collect(lines[1..], idx + 1, "")
      case Remark(text) => Collect(lines[1..], idx + 1, text)
  }

  function ParseCron(raw: string): seq<CronItem> {
    Collect(ReadAll(Split(raw, '\n')), 0, "")
  }

  // ---------- What a crontab lists ----------

  /** Five words of the characters of a schedule. */
  ghost predicate IsSchedule(words: seq<string>) {
    |words| == 5 && forall w <- words :: w != "" && forall c <- w :: c in "*/-," || c in DIGITS
  }

  predicate IsCommented(line: string) {
    HasPrefix(TrimSpace(line), "#")
  }

  /** The line without white space around it and without a hash sign in front. */
  function Uncommented(line: string): string {
    if IsCommented(line) then TrimSpace(TrimSpace(line)[1..]) else TrimSpace(line)
  }

  /** A schedule and at least one more word. */
  ghost predicate IsJobLine(line: string) {
    var words := Fields(Uncommented(line));
    |words| >= 6 && IsSchedule(words[..5])
  }

  /** The comment of the job on line `i`: the line above, unless that is blank or a job itself. */
  ghost function CommentAbove(lines: seq<string>, i: nat): string
    requires i < |lines|
  {
    if i == 0 || GoStrings.Blank(lines[i - 1]) || IsJobLine(lines[i - 1]) then "" else Uncommented(lines[i - 1])
  }

  /** The item stands for the job on line `i`. */
  ghost predicate IsItemOf(lines: seq<string>, i: nat, item: CronItem) {
    && i < |lines| && IsJobLine(lines[i]) && item.id == "cron-" + Itoa(i)
    && var words := Fields(Uncommented(lines[i]));
       item.entry ==
         Entry(Join(words[..5], " "), Join(words[5..], " "), !IsCommented(lines[i]), CommentAbove(lines, i))
  }

  /** The items are those of the lines in `at`, which are all the job lines from `from` on, in order. */
  ghost predicate ListedAt(lines: seq<string>, from: nat, items: seq<CronItem>, at: seq<nat>) {
    && |at| == |items|
    && (forall k | 0 <= k < |at| :: from <= at[k] && IsItemOf(lines, at[k], items[k]))
    && (forall k, l | 0 <= k < l < |at| :: at[k] < at[l])
    && forall i: nat | from <= i < |lines| && IsJobLine(lines[i]) :: i in at
  }

  /** The items are exactly the jobs of the text, line by line. */
  ghost predicate ListsJobs(raw: string, items: seq<CronItem>) {
    exists lines, at :: Join(lines, "\n") == raw && (forall line <- lines :: '\n' !in line) && lines != []
      && ListedAt(lines, 0, items, at)
  }

  lemma ScheduleIff(fields: seq<string>)
    ensures IsCronLine(fields) <==> |fields| >= 6 && IsSchedule(fields[..5])
  {
    forall c: char ensures IsCronChar(c) <==> c in "*/-," || c in DIGITS {
      hide DIGITS;
      DigitsAre(c);
    }
  }

  /** How a line is read. */
  lemma LineReads(line: string)
    ensures ReadLine(line) == if GoStrings.Blank(line) then Line.Blank
      else if IsJobLine(line) then
        var words := Fields(Uncommented(line));
        Job(Join(words[..5], " "), Join(words[5..], " "), !IsCommented(line))
      else Remark(Uncommented(line))
    ensures GoStrings.Blank(line) ==> !IsJobLine(line)
  {
    hide TrimSpace, Join, IsCronLine, IsSchedule;
    TrimsToNothingIffBlank(line);
    ScheduleIff(Fields(Uncommented(line)));
    if TrimSpace(line) == "" { assert Fields("") == []; }
  }

  lemma {:induction false} CollectLists(lines: seq<string>, idx: nat, lastComment: string) returns (at: seq<nat>)
    requires idx <= |lines| && (idx < |lines| ==> lastComment == CommentAbove(lines, idx))
    ensures ListedAt(lines, idx, Collect(ReadAll(lines)[idx..], idx, lastComment), at)
    decreases |lines| - idx
  {
    at := [];
    if idx < |lines| {
      hide ReadLine, IsJobLine, CommentAbove, ListedAt;
      var line := lines[idx];
      CollectsNext(lines, idx, lastComment);
      var rest := CollectLists(lines, idx + 1, Pending(line));
      at := ListedNext(lines, idx, Collect(ReadAll(lines)[idx + 1..], idx + 1, Pending(line)), rest);
    }
  }

  /** The comment that a line leaves for the next one. */
  ghost function Pending(line: string): string {
    if GoStrings.Blank(line) || IsJobLine(line) then "" else Uncommented(line)
  }

  ghost function ItemAt(lines: seq<string>, i: nat): CronItem
    requires i < |lines|
  {
    var words := Fields(Uncommented(lines[i]));
    if |words| < 5 then CronItem("", Entry("", "", false, ""))
    else
      CronItem("cron-" + Itoa(i),
        Entry(Join(words[..5], " "), Join(words[5..], " "), !IsCommented(lines[i]), CommentAbove(lines, i)))
  }

  lemma CollectsNext(lines: seq<string>, idx: nat, lastComment: string)
    requires idx < |lines| && lastComment == CommentAbove(lines, idx)
    ensures var rest := Collect(ReadAll(lines)[idx + 1..], idx + 1, Pending(lines[idx]));
      Collect(ReadAll(lines)[idx..], idx, lastComment) ==
        if IsJobLine(lines[idx]) then [ItemAt(lines, idx)] + rest else rest
    ensures idx + 1 < |lines| ==> Pending(lines[idx]) == CommentAbove(lines, idx + 1)
  {
    hide ReadLine, Join, Uncommented, IsCommented;
    var read := ReadAll(lines);
    assert read[idx..][0] == ReadLine(lines[idx]) && read[idx..][1..] == read[idx + 1..];
    LineReads(lines[idx]);
  }

  lemma ListedNext(lines: seq<string>, idx: nat, items: seq<CronItem>, at: seq<nat>) returns (next: seq<nat>)
    requires idx < |lines| && ListedAt(lines, idx + 1, items, at)
    ensures ListedAt(lines, idx, if IsJobLine(lines[idx]) then [ItemAt(lines, idx)] + items else items, next)
  {
    hide IsItemOf, IsJobLine, ItemAt;
    if IsJobLine(lines[idx]) {
      next := [idx] + at;
      ItemAtIsItem(lines, idx);
      ListedMore(lines, idx, ItemAt(lines, idx), items, at);
    } else {
      next := at;
    }
  }

  lemma ItemAtIsItem(lines: seq<string>, i: nat)
    requires i < |lines| && IsJobLine(lines[i])
    ensures IsItemOf(lines, i, ItemAt(lines, i))
  {}

  lemma ListedMore(lines: seq<string>, idx: nat, item: CronItem, items: seq<CronItem>, at: seq<nat>)
    requires idx < |lines| && ListedAt(lines, idx + 1, items, at) && IsItemOf(lines, idx, item)
    ensures ListedAt(lines, idx, [item] + items, [idx] + at)
  {
    hide IsItemOf, IsJobLine;
    var more, all := [item] + items, [idx] + at;
    forall k | 0 <= k < |all| ensures idx <= all[k] && IsItemOf(lines, all[k], more[k]) {
      if k > 0 { assert all[k] == at[k - 1] && more[k] == items[k - 1]; }
    }
    forall k, l | 0 <= k < l < |all| ensures all[k] < all[l] {
      assert all[l] == at[l - 1];
      if k > 0 { assert all[k] == at[k - 1]; }
    }
  }

  /** The reading lists the jobs of the text. */
  lemma ParseLists(raw: string)
    ensures ListsJobs(raw, ParseCron(raw))
  {
    hide IsJobLine, IsItemOf;
    var lines := Split(raw, '\n');
    SplitJoins(raw, '\n');
    SplitHasNoSeparator(raw, '\n');
    FirstHasNoComment(lines);
    var at := CollectLists(lines, 0, "");
    assert ReadAll(lines)[0..] == ReadAll(lines);
    assert ListedAt(lines, 0, ParseCron(raw), at);
  }

  lemma FirstHasNoComment(lines: seq<string>)
    requires lines != []
    ensures CommentAbove(lines, 0) == ""
  {}

  method GetCronList(raw: string) returns (items: seq<CronItem>)
    ensures items == ParseCron(raw) && ListsJobs(raw, items)
  {
    hide ListsJobs;
    ParseLists(raw);
    items := [];
    var lastComment := "";
    var lines := Split(raw, '\n');
    ghost var read := ReadAll(lines);
    for idx := 0 to |lines|
      invariant items + Collect(read[idx..], idx, lastComment) == ParseCron(raw)
    {
      assert read[idx..][0] == ReadLine(lines[idx]) && read[idx..][1..] == read[idx + 1..];
      var trimmed := TrimSpace(lines[idx]);
      if trimmed == "" {
        lastComment := "";
        continue;
      }
      var text, enabled := trimmed, true;
      if trimmed[0] == '#' {
        text, enabled := TrimSpace(trimmed[1..]), false;
      }
      var fields := Fields(text);
      if IsCronLine(fields) {
        var item := CronItem("cron-" + Itoa(idx),
          Entry(Join(fields[..5], " "), Join(fields[5..], " "), enabled, lastComment));
        Regroup(items, item, Collect(read[idx + 1..], idx + 1, ""));
        items := items + [item];
        lastComment := "";
      } else {
        lastComment := text;
      }
    }
  }

  lemma Regroup<T>(a: seq<T>, x: T, b: seq<T>)
    ensures a + ([x] + b) == (a + [x]) + b
  {}

  // ---------- Printing ----------

  function RemarkText(e: Entry): string { "# " + e.comment }

  function JobText(e: Entry): string {
    if e.enabled then e.expression + " " + e.command else "# " + (e.expression + " " + e.command)
  }

  function EntryLines(e: Entry): seq<string> {
    var remark := if e.comment != "" then [RemarkText(e)] else [];
    if e.expression != "" && e.command != "" then remark + [JobText(e)] else remark
  }

  function PrintLines(items: seq<Entry>): seq<string> {
    if items == [] then [] else EntryLines(items[0]) + PrintLines(items[1..])
  }

  function PrintCron(items: seq<Entry>): string {
    var lines := PrintLines(items);
    if |lines| > 0 then Join(lines, "\n") + "\n" else ""
  }

  /** The text of an entry: its comment, if any, on a line of its own, and its job unless a part of that is missing. */
  function EntryText(e: Entry): string {
    var job := if e.enabled then e.expression + " " + e.command + "\n"
      else "# " + e.expression + " " + e.command + "\n";
    (if e.comment == "" then "" else "# " + e.comment + "\n") + if e.expression == "" || e.command == ""
      then "" else job
  }

  function AllEntries(items: seq<Entry>): string {
    if items == [] then "" else EntryText(items[0]) + AllEntries(items[1..])
  }

  /** Lines, each with its end. */
  function Ended(lines: seq<string>): string {
    if lines == [] then "" else lines[0] + "\n" + Ended(lines[1..])
  }

  lemma {:induction false} EndedIsJoin(lines: seq<string>)
    ensures Ended(lines) == if lines == [] then "" else Join(lines, "\n") + "\n"
  {
    if |lines| > 0 {
      EndedIsJoin(lines[1..]);
      if |lines| > 1 {
        assert lines[0] + "\n" + (Join(lines[1..], "\n") + "\n") == lines[0] + "\n" + Join(lines[1..], "\n") + "\n";
      } else {
        assert lines[0] + "\n" + "" == lines[0] + "\n";
      }
    }
  }

  lemma {:induction false} EndedAppend(a: seq<string>, b: seq<string>)
    ensures Ended(a + b) == Ended(a) + Ended(b)
  {
    if a == [] {
      assert a + b == b;
    } else {
      assert (a + b)[1..] == a[1..] + b;
      EndedAppend(a[1..], b);
      Associate(a[0] + "\n", Ended(a[1..]), Ended(b));
    }
  }

  lemma EntryIsText(e: Entry)
    ensures Ended(EntryLines(e)) == EntryText(e)
  {
    var remark, job := RemarkText(e), JobText(e);
    assert Ended([]) == "" && [remark][1..] == [] && [job][1..] == [] && [remark, job][1..] == [job];
    assert [remark] + [job] == [remark, job];
  }

  lemma {:induction false} PrintIsText(items: seq<Entry>)
    ensures PrintCron(items) == AllEntries(items) == Ended(PrintLines(items))
  {
    EndedIsJoin(PrintLines(items));
    if items != [] {
      PrintIsText(items[1..]);
      EndedIsJoin(PrintLines(items[1..]));
      EntryIsText(items[0]);
      EndedAppend(EntryLines(items[0]), PrintLines(items[1..]));
    }
  }

  method SaveCronList(items: seq<Entry>) returns (content: string)
    ensures content == PrintCron(items) == AllEntries(items)
  {
    PrintIsText(items);
    var lines: seq<string> := [];
    for i := 0 to |items|
      invariant lines + PrintLines(items[i..]) == PrintLines(items)
    {
      assert items[i..][1..] == items[i + 1..];
      ghost var before := lines;
      lines := AppendEntry(lines, items[i]);
      Associate(before, EntryLines(items[i]), PrintLines(items[i + 1..]));
    }
    assert items[|items|..] == [] && lines + [] == lines;
    content := Join(lines, "\n");
    if |lines| > 0 { content := content + "\n"; }
  }

  method AppendEntry(lines0: seq<string>, item: Entry) returns (lines: seq<string>)
    ensures lines == lines0 + EntryLines(item)
  {
    lines := lines0;
    if item.comment != "" { lines := lines + [RemarkText(item)]; }
    if item.expression != "" && item.command != "" {
      if item.enabled {
        lines := lines + [item.expression + " " + item.command];
      } else {
        lines := lines + ["# " + (item.expression + " " + item.command)];
      }
    }
  }

  // ---------- Normal form ----------

  ghost predicate WordsOf(s: string, ws: seq<string>) {
    s == Join(ws, " ") && forall w <- ws :: IsWord(w)
  }

  ghost predicate NormalExpression(s: string) {
    exists ws :: WordsOf(s, ws) && |ws| == 5 && IsCronExpression(ws)
  }

  ghost predicate NormalCommand(s: string) {
    exists ws :: WordsOf(s, ws) && ws != []
  }

  /** A trimmed one-line comment that is not itself a cron line. */
  ghost predicate NormalComment(s: string) {
    Trimmed(s) && '\n' !in s && !IsCronLine(Fields(s))
  }

  /** A five-field expression, a single-spaced command and a plain comment. */
  ghost predicate Normal(e: Entry) {
    NormalExpression(e.expression) && NormalCommand(e.command) && NormalComment(e.comment)
  }

  function Entries(items: seq<CronItem>): seq<Entry> {
    if items == [] then [] else [items[0].entry] + Entries(items[1..])
  }

  // ---------- Parsing yields normal entries ----------

  lemma {:induction false} TrimLeftHas(s: string, c: char)
    ensures c in TrimLeft(s) ==> c in s
  {
    if s != [] && IsSpace(s[0]) { TrimLeftHas(s[1..], c); }
  }

  lemma {:induction false} TrimRightHas(s: string, c: char)
    ensures c in TrimRight(s) ==> c in s
  {
    if s != [] && IsSpace(s[|s| - 1]) { TrimRightHas(s[..|s| - 1], c); }
  }

  lemma TrimSpaceHas(s: string, c: char)
    ensures c in TrimSpace(s) ==> c in s
  {
    TrimLeftHas(s, c);
    TrimRightHas(TrimLeft(s), c);
  }

  lemma JobIsNormal(fields: seq<string>)
    requires IsCronLine(fields) && forall w <- fields :: IsWord(w)
    ensures NormalExpression(Join(fields[..5], " ")) && NormalCommand(Join(fields[5..], " "))
  {
    assert forall w <- fields[..5] :: w in fields;
    assert forall w <- fields[5..] :: w in fields;
    assert WordsOf(Join(fields[..5], " "), fields[..5]);
    assert WordsOf(Join(fields[5..], " "), fields[5..]);
  }

  lemma LineIsNormal(line: string)
    requires '\n' !in line
    ensures NormalLine(ReadLine(line))
  {
    var trimmed := TrimSpace(line);
    TrimSpaceTrims(line);
    TrimSpaceHas(line, '\n');
    if trimmed != "" {
      var text := if trimmed[0] == '#' then TrimSpace(trimmed[1..]) else trimmed;
      TrimSpaceTrims(trimmed[1..]);
      TrimSpaceHas(trimmed[1..], '\n');
      FieldsAreWords(text);
      if IsCronLine(Fields(text)) { JobIsNormal(Fields(text)); }
    }
  }

  ghost predicate NormalLine(l: Line) {
    match l
    case Blank => true
    case Job(e, c, _) => NormalExpression(e) && NormalCommand(c)
    case Remark(text) => NormalComment(text)
  }

  lemma {:induction false} CollectIsNormal(lines: seq<Line>, idx: nat, lastComment: string)
    requires (forall l <- lines :: NormalLine(l)) && NormalComment(lastComment)
    ensures forall e <- Entries(Collect(lines, idx, lastComment)) :: Normal(e)
    decreases |lines|
  {
    if lines != [] {
      assert NormalLine(lines[0]);
      forall l <- lines[1..] ensures NormalLine(l) { assert l in lines; }
      EmptyComment();
      match lines[0]
      case Blank => CollectIsNormal(lines[1..], idx + 1, "");
      case Job(e, c, enabled) =>
        CollectIsNormal(lines[1..], idx + 1, "");
        var item := CronItem("cron-" + Itoa(idx), Entry(e, c, enabled, lastComment));
        var rest := Collect(lines[1..], idx + 1, "");
        assert ([item] + rest)[1..] == rest;
      case Remark(text) => CollectIsNormal(lines[1..], idx + 1, text);
    }
  }

  lemma EmptyComment()
    ensures NormalComment("")
  {
    assert Fields("") == [];
  }

  /** Whatever the text, the entries read from it are in normal form. */
  lemma ParsedIsNormal(raw: string)
    ensures forall e <- Entries(ParseCron(raw)) :: Normal(e)
  {
    var lines := Split(raw, '\n');
    SplitHasNoSeparator(raw, '\n');
    forall l <- ReadAll(lines) ensures NormalLine(l) {
      var i :| 0 <= i < |lines| && l == ReadLine(lines[i]);
      assert lines[i] in lines;
      LineIsNormal(lines[i]);
    }
    EmptyComment();
    CollectIsNormal(ReadAll(lines), 0, "");
  }

  // ---------- Normal entries survive printing and parsing ----------

  lemma TrimAfterMark(text: string)
    requires Trimmed(text)
    ensures ReadLine("# " + text) == if text == "" then Remark("") else JobOr(Fields(text), false, text)
  {
    HashIsNoSpace();
    TrimmedIsFixed(text);
    if text == "" {
      TrimSpaceAppend("#", ' ');
      TrimmedIsFixed("#");
      assert "# " + text == "#" + [' '];
      assert "#"[1..] == "";
    } else {
      var line := "# " + text;
      assert line[0] == '#' && line[|line| - 1] == text[|text| - 1];
      TrimmedIsFixed(line);
      assert line[1..] == [' '] + text;
      TrimSpacePrepend(' ', text);
    }
  }

  lemma HashIsNoSpace()
    ensures !IsSpace('#')
  {}

  lemma CommentReads(comment: string)
    requires NormalComment(comment) && comment != ""
    ensures ReadLine("# " + comment) == Remark(comment)
  {
    TrimAfterMark(comment);
  }

  lemma CronWordStart(w: string)
    requires w != "" && forall c <- w :: IsCronChar(c)
    ensures w[0] != '#'
  {
    assert w[0] in w;
  }

  lemma JobReads(expression: string, command: string, enabled: bool)
    requires NormalExpression(expression) && NormalCommand(command)
    ensures var text := expression + " " + command;
            ReadLine(if enabled then text else "# " + text) == Job(expression, command, enabled)
    ensures expression != "" && command != "" && '\n' !in expression && '\n' !in command
  {
    var a :| WordsOf(expression, a) && |a| == 5 && IsCronExpression(a);
    var b :| WordsOf(command, b) && b != [];
    var ws, text := a + b, expression + " " + command;
    JoinAppend(a, b, " ");
    forall w <- ws ensures IsWord(w) { assert w in a || w in b; }
    FieldsOfJoin(ws);
    JoinIsTrimmed(ws);
    JoinIsTrimmed(a);
    JoinIsTrimmed(b);
    JoinHasNoLineEnd(a);
    JoinHasNoLineEnd(b);
    assert ws[..5] == a && ws[5..] == b;
    assert IsCronLine(ws);
    if enabled {
      TrimmedIsFixed(text);
      assert ws[0] == a[0] && a[0] in a;
      CronWordStart(a[0]);
    } else {
      TrimAfterMark(text);
    }
  }

  lemma {:induction false} JoinHasNoLineEnd(ws: seq<string>)
    requires forall w <- ws :: IsWord(w)
    ensures '\n' !in Join(ws, " ")
    decreases |ws|
  {
    if ws != [] {
      assert ws[0] in ws;
      assert '\n' !in ws[0] by { LineEndIsSpace(); }
      forall w <- ws[1..] ensures IsWord(w) { assert w in ws; }
      JoinHasNoLineEnd(ws[1..]);
    }
  }

  lemma LineEndIsSpace()
    ensures IsSpace('\n')
  {}

  /** What the lines of an entry are read as. */
  function EntryMeaning(e: Entry): seq<Line> {
    if e.comment != "" then [Remark(e.comment), Job(e.expression, e.command, e.enabled)]
    else [Job(e.expression, e.command, e.enabled)]
  }

  /** What the printed file is read as, with the empty line after the last line end. */
  function FileMeaning(items: seq<Entry>): seq<Line> {
    if items == [] then [Blank] else EntryMeaning(items[0]) + FileMeaning(items[1..])
  }

  lemma {:induction false} MeaningCollects(items: seq<Entry>, idx: nat)
    ensures Entries(Collect(FileMeaning(items), idx, "")) == items
    decreases |items|
  {
    if items == [] {
      assert [Blank][1..] == [];
    } else {
      var e, rest := items[0], FileMeaning(items[1..]);
      EntryCollects(e, rest, idx);
      MeaningCollects(items[1..], idx + |EntryMeaning(e)|);
      assert [e] + items[1..] == items;
    }
  }

  lemma EntryCollects(e: Entry, rest: seq<Line>, idx: nat)
    ensures Entries(Collect(EntryMeaning(e) + rest, idx, "")) ==
      [e] + Entries(Collect(rest, idx + |EntryMeaning(e)|, ""))
  {
    var job := Job(e.expression, e.command, e.enabled);
    if e.comment != "" {
      var lines := EntryMeaning(e) + rest;
      assert lines[1..] == [job] + rest;
      JobCollects(job, rest, idx + 1, e);
    } else {
      JobCollects(job, rest, idx, e);
    }
  }

  lemma JobCollects(job: Line, rest: seq<Line>, idx: nat, e: Entry)
    requires job == Job(e.expression, e.command, e.enabled)
    ensures Entries(Collect([job] + rest, idx, e.comment)) == [e] + Entries(Collect(rest, idx + 1, ""))
  {
    assert ([job] + rest)[1..] == rest;
    var item := CronItem("cron-" + Itoa(idx), e);
    var tail := Collect(rest, idx + 1, "");
    assert ([item] + tail)[1..] == tail;
  }

  lemma EntryReads(e: Entry)
    requires Normal(e)
    ensures ReadAll(EntryLines(e)) == EntryMeaning(e)
  {
    JobReads(e.expression, e.command, e.enabled);
    if e.comment != "" {
      CommentReads(e.comment);
      assert EntryLines(e) == [RemarkText(e), JobText(e)];
    } else {
      assert EntryLines(e) == [JobText(e)];
    }
  }

  lemma ReadAllAppend(a: seq<string>, b: seq<string>)
    ensures ReadAll(a + b) == ReadAll(a) + ReadAll(b)
  {}

  lemma {:induction false} PrintedReads(items: seq<Entry>)
    requires forall e <- items :: Normal(e)
    ensures ReadAll(PrintLines(items) + [""]) == FileMeaning(items)
    decreases |items|
  {
    if items == [] {
      assert PrintLines(items) + [""] == [""] && ReadLine("") == Blank;
    } else {
      assert items[0] in items;
      forall e <- items[1..] ensures Normal(e) { assert e in items; }
      EntryReads(items[0]);
      PrintedReads(items[1..]);
      var own, rest := EntryLines(items[0]), PrintLines(items[1..]) + [""];
      ReadAllAppend(own, rest);
      Associate(own, PrintLines(items[1..]), [""]);
    }
  }

  lemma {:induction false} PrintedLinesAreSingle(items: seq<Entry>)
    requires forall e <- items :: Normal(e)
    ensures forall l <- PrintLines(items) :: '\n' !in l
    decreases |items|
  {
    if items != [] {
      var e := items[0];
      assert e in items;
      forall x <- items[1..] ensures Normal(x) { assert x in items; }
      PrintedLinesAreSingle(items[1..]);
      JobReads(e.expression, e.command, e.enabled);
    }
  }

  lemma {:induction false} SplitPrinted(lines: seq<string>)
    requires lines != [] && forall l <- lines :: '\n' !in l
    ensures Split(Join(lines, "\n") + "\n", '\n') == lines + [""]
    decreases |lines|
  {
    assert lines[0] in lines;
    if |lines| == 1 {
      SplitLine(lines[0], "", '\n');
      assert lines[0] + (['\n'] + "") == Join(lines, "\n") + "\n";
      assert lines == [lines[0]];
    } else {
      forall l <- lines[1..] ensures '\n' !in l { assert l in lines; }
      SplitPrinted(lines[1..]);
      var rest := Join(lines[1..], "\n") + "\n";
      SplitLine(lines[0], rest, '\n');
      assert lines[0] + (['\n'] + rest) == Join(lines, "\n") + "\n";
      assert [lines[0]] + (lines[1..] + [""]) == lines + [""];
    }
  }

  lemma NormalRoundTrip(items: seq<Entry>)
    requires forall e <- items :: Normal(e)
    ensures Entries(ParseCron(PrintCron(items))) == items
  {
    PrintedReads(items);
    MeaningCollects(items, 0);
    PrintedLinesAreSingle(items);
    var lines := PrintLines(items);
    if lines != [] {
      SplitPrinted(lines);
    } else {
      assert lines + [""] == [""];
    }
  }

  /** Printing and parsing returns the entries, up to identifiers, exactly when every entry is in normal form. */
  lemma RoundTripIffNormal(items: seq<Entry>)
    ensures Entries(ParseCron(PrintCron(items))) == items <==> forall e <- items :: Normal(e)
  {
    ParsedIsNormal(PrintCron(items));
    if forall e <- items :: Normal(e) { NormalRoundTrip(items); }
  }

  /** Parsing, printing and parsing again gives the entries of the first parse, whatever the text. */
  lemma ParsePrintParse(raw: string)
    ensures Entries(ParseCron(PrintCron(Entries(ParseCron(raw))))) == Entries(ParseCron(raw))
  {
    ParsedIsNormal(raw);
    NormalRoundTrip(Entries(ParseCron(raw)));
  }
}
