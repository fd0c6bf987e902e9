/** When the importer finds a statement that is written over one or more lines. */
module ImportBlocks {
  import opened GoStrings
  import opened Sequences
  import opened SqlSplitting
  import opened ImportScan

  // ---------- Lines and text ----------

  /** Lines written one after another, each with its line end. */
  function Written(lines: seq<string>): string {
    if lines == [] then "" else lines[0] + (['\n'] + Written(lines[1..]))
  }

  lemma {:induction false} SplitIsWritten(s: string)
    ensures Written(Split(s, '\n')) == s + ['\n']
    decreases |s|
  {
    if s == [] {
      assert [""][1..] == [];
    } else {
      var rest := Split(s[1..], '\n');
      SplitIsWritten(s[1..]);
      if s[0] == '\n' {
        assert ([""] + rest)[1..] == rest;
      } else {
        var first := [s[0]] + rest[0];
        assert ([first] + rest[1..])[1..] == rest[1..];
        Associate([s[0]], rest[0], ['\n'] + Written(rest[1..]));
      }
      assert [s[0]] + (s[1..] + ['\n']) == s + ['\n'];
    }
  }

  /** One more character before a text joins its first line or ends one. */
  function Prepended<T(==)>(c: T, sep: T, parts: seq<seq<T>>): seq<seq<T>>
    requires |parts| >= 1
  {
    if c == sep then [[]] + parts else [[c] + parts[0]] + parts[1..]
  }

  lemma PrependedAppend<T>(c: T, sep: T, a: seq<seq<T>>, b: seq<seq<T>>)
    requires |a| >= 1
    ensures Prepended(c, sep, a + b) == Prepended(c, sep, a) + b
  {
    assert (a + b)[1..] == a[1..] + b;
  }

  lemma SplitCons(c: char, s: string)
    ensures Split([c] + s, '\n') == Prepended(c, '\n', Split(s, '\n'))
  {
    assert ([c] + s)[1..] == s;
  }

  lemma {:induction false} SplitAppend(a: string, b: string)
    ensures Split(a + (['\n'] + b), '\n') == Split(a, '\n') + Split(b, '\n')
    decreases |a|
  {
    if a == [] {
      assert [] + (['\n'] + b) == ['\n'] + b;
      SplitCons('\n', b);
    } else {
      var rest := a[1..] + (['\n'] + b);
      assert a + (['\n'] + b) == [a[0]] + rest && a == [a[0]] + a[1..];
      SplitAppend(a[1..], b);
      SplitCons(a[0], rest);
      SplitCons(a[0], a[1..]);
      PrependedAppend(a[0], '\n', Split(a[1..], '\n'), Split(b, '\n'));
    }
  }

  lemma {:induction false} WrittenAppend(a: seq<string>, b: seq<string>)
    ensures Written(a + b) == Written(a) + Written(b)
    decreases |a|
  {
    if a == [] {
      assert a + b == b;
    } else {
      assert (a + b)[1..] == a[1..] + b;
      WrittenAppend(a[1..], b);
      Associate(['\n'], Written(a[1..]), Written(b));
      Associate(a[0], ['\n'] + Written(a[1..]), Written(b));
    }
  }

  lemma {:induction false} ImportAppend(st: Scan, a: seq<string>, b: seq<string>)
    ensures ImportLines(st, a + b) == ImportLines(ImportLines(st, a), b)
    decreases |a|
  {
    if a == [] {
      assert a + b == b;
    } else {
      assert (a + b)[1..] == a[1..] + b;
      ImportAppend(ImportLine(st, a[0]), a[1..], b);
    }
  }

  ghost predicate NoComment(lines: seq<string>) {
    forall l <- lines :: !IsCommentLine(l)
  }

  /** Lines that are not skipped are scanned as the text they are. */
  lemma {:induction false} ImportIsScan(st: Scan, lines: seq<string>)
    requires NoComment(lines)
    ensures ImportLines(st, lines) == PlainScan(st, Written(lines))
    decreases |lines|
  {
    if lines != [] {
      var l, rest := lines[0], lines[1..];
      assert l in lines;
      var mid := PlainScan(st, l);
      PlainScanAppend(st, l, ['\n'] + Written(rest));
      assert (['\n'] + Written(rest))[1..] == Written(rest);
      assert Step(mid, '\n') == EndLine(mid);
      forall x <- rest ensures !IsCommentLine(x) { assert x in lines; }
      ImportIsScan(EndLine(mid), rest);
    }
  }

  // ---------- A line that is skipped is missed ----------

  lemma {:induction false} TrimLeftAppends(s: string, more: string)
    requires TrimLeft(s) != ""
    ensures TrimLeft(s + more) == TrimLeft(s) + more
  {
    if s != [] && IsSpace(s[0]) {
      assert (s + more)[1..] == s[1..] + more;
      TrimLeftAppends(s[1..], more);
    }
  }

  /** A line whose first visible characters are two dashes. */
  predicate Dashed(line: string) {
    HasPrefix(TrimLeft(line), "--")
  }

  lemma DashedIsComment(line: string)
    requires Dashed(line)
    ensures IsCommentLine(line)
  {
    var t := TrimLeft(line);
    TrimRightIs(t);
    var r := TrimRight(t);
    assert t[..2] == "--" && t[0] == '-' && t[1] == '-';
    assert |r| >= 2 && r[..2] == t[..2];
  }

  lemma SuffixEnd(s: string, t: string)
    requires t != ""
    ensures HasSuffix(s, t) ==> s != "" && s[|s| - 1] == t[|t| - 1]
  {
    if HasSuffix(s, t) { assert s[|s| - |t|..][|t| - 1] == s[|s| - 1]; }
  }

  lemma CommentIsDashed(line: string)
    requires IsCommentLine(line) && line != "" && line[|line| - 1] == ';'
    ensures Dashed(line)
  {
    var t := TrimLeft(line);
    TrimLeftEnd(line);
    assert TrimRight(t) == t;
    SuffixEnd(t, "*/");
  }

  lemma {:induction false} TrimLeftEnd(s: string)
    requires s != "" && !IsSpace(s[|s| - 1])
    ensures TrimLeft(s) != "" && TrimLeft(s)[|TrimLeft(s)| - 1] == s[|s| - 1]
  {
    if IsSpace(s[0]) { TrimLeftEnd(s[1..]); }
  }

  /** What a comment line leaves at the end of a statement does not agree with a line that is not skipped. */
  lemma SkippedDiffers(tail: string, skipped: string, line: string)
    requires IsCommentLine(skipped) && !IsCommentLine(line) && '\n' !in skipped && '\n' !in line
    requires tail != "" && !IsSpace(tail[|tail| - 1])
    requires skipped + ['\n'] <= tail || tail + [';'] == skipped
    ensures !Agree(tail, line + ['\n'])
  {
    if Agree(tail, line + ['\n']) {
      if skipped + ['\n'] <= tail {
        SameLine(skipped, line, tail);
      } else {
        PrefixLacks(tail, skipped);
        InFirstLine(tail, line);
        DashesStay(tail, line);
        DashedIsComment(line);
      }
    }
  }

  lemma PrefixLacks(a: string, b: string)
    requires a + [';'] == b && '\n' !in b
    ensures '\n' !in a
  {
    forall c <- a ensures c in b { assert c in a + [';']; }
  }

  /** A text up to its first line end. */
  function LineOf(s: string): string {
    if s == "" || s[0] == '\n' then "" else [s[0]] + LineOf(s[1..])
  }

  lemma {:induction false} LineOfWritten(a: string, s: string)
    requires '\n' !in a && (a + ['\n'] <= s || a == s)
    ensures LineOf(s) == a
    decreases |a|
  {
    if a != "" {
      assert s[0] == a[0] && a[0] in a;
      forall c <- a[1..] ensures c in a {}
      if a != s { assert a[1..] + ['\n'] == (a + ['\n'])[1..] <= s[1..]; }
      LineOfWritten(a[1..], s[1..]);
    }
  }

  /** Two texts that both agree with `tail` up to their first line end are the same line. */
  lemma SameLine(a: string, b: string, tail: string)
    requires '\n' !in a && '\n' !in b && a + ['\n'] <= tail && Agree(tail, b + ['\n'])
    ensures a == b
  {
    var y := b + ['\n'];
    if tail <= y {
      LineOfWritten(a, y);
      LineOfWritten(b, y);
    } else {
      LineOfWritten(a, tail);
      LineOfWritten(b, tail);
    }
  }

  lemma InFirstLine(tail: string, line: string)
    requires '\n' !in tail && '\n' !in line && Agree(tail, line + ['\n'])
    ensures tail <= line
  {
    LineOfWritten(tail, tail);
    if line + ['\n'] <= tail { LineOfWritten(line, tail); }
  }

  lemma DashesStay(tail: string, line: string)
    requires tail != "" && !IsSpace(tail[|tail| - 1]) && IsCommentLine(tail + [';']) && tail <= line
    ensures Dashed(line)
  {
    TrimLeftEnd(tail);
    var t := TrimLeft(tail);
    TrimLeftAppends(tail, [';']);
    CommentIsDashed(tail + [';']);
    assert (t + [';'])[..2] == "--";
    assert (t + [';'])[|t|] == ';' && (t + [';'])[1] == '-';
    assert t[..2] == (t + [';'])[..2];
    TrimLeftAppends(tail, line[|tail|..]);
    assert tail + line[|tail|..] == line;
    assert (t + line[|tail|..])[..2] == t[..2];
  }

  /** Having lost a line, the scan does not find the statement. */
  lemma {:induction false} LostLine(st: Scan, s: string, skipped: string, lines: seq<string>)
    requires Solid(st.current) && st.current < s && !IsSpace(s[|s| - 1])
    requires IsCommentLine(skipped) && '\n' !in skipped && forall l <- lines :: '\n' !in l
    requires var tail := s[|st.current|..]; skipped + ['\n'] <= tail || tail + [';'] == skipped
    ensures var found := Finish(ImportLines(st, lines)); |st.stmts| < |found| && found[|st.stmts|] != s
    decreases |lines|
  {
    if lines == [] {
      SolidEmits(st.stmts, st.current);
      SolidTrims(st.current);
    } else if IsCommentLine(lines[0]) {
      forall l <- lines[1..] ensures '\n' !in l { assert l in lines; }
      LostLine(st, s, skipped, lines[1..]);
    } else {
      var line := lines[0];
      assert line in lines && [line] + lines[1..] == lines;
      LineContinues(st, line, lines[1..]);
      var tail := s[|st.current|..];
      SkippedDiffers(tail, skipped, line);
      AgreeTail(st.current, s, tail, line + ['\n']);
    }
  }

  lemma AgreeTail(cur: string, s: string, tail: string, more: string)
    requires cur <= s && tail == s[|cur|..]
    ensures Agree(s, cur + more) ==> Agree(tail, more)
  {
    if s <= cur + more { assert tail == (cur + more)[|cur|..|s|] == more[..|tail|]; }
    if cur + more <= s { assert more == (cur + more)[|cur|..] == s[|cur|..|cur| + |more|] == tail[..|more|]; }
  }

  // ---------- One statement ----------

  /** A statement as the export writes it: it starts with a letter and ends with a visible character. */
  predicate Statement(s: string) {
    s != "" && IsInitial(s[0]) && !IsSpace(s[|s| - 1])
  }

  /** The first letters of `INSERT` and `SET`. */
  predicate IsInitial(c: char) {
    c == 'I' || c == 'S'
  }

  /** The lines of a terminated statement. */
  function BlockOf(s: string): seq<string> {
    Split(s + [';'], '\n')
  }

  /** None of its lines is skipped and it is scanned without a cut, to the outside of every quotation. */
  ghost predicate Readable(s: string) {
    NoComment(BlockOf(s)) && PlainPasses(Outside, s, Outside)
  }

  lemma CutShort(acc: seq<string>, s: string, more: string)
    requires Solid(s) && IsInitial(s[0]) && !PlainPasses(Outside, s, PlainEnd(Outside, s))
    ensures var found := PlainScan(Scan(acc, Outside, ""), s + more).stmts;
      acc < found && |found[|acc|]| < |s|
  {
    var st, st1 := Scan(acc, Outside, ""), Scan(acc, Outside, [s[0]]);
    assert Step(st, s[0]) == st1;
    CutPiece(st1, s[1..]);
    assert st1.current + s[1..] == s;
    PlainScanAppend(st, s, more);
    ScanGrows(PlainScan(st, s), more);
  }

  /** A statement whose lines are all scanned: read exactly when it passes; otherwise another text is found. */
  lemma ScannedBlock(acc: seq<string>, s: string, rest: seq<string>)
    requires Statement(s) && NoComment(BlockOf(s))
    ensures var st := Scan(acc, Outside, "");
      if PlainPasses(Outside, s, Outside) then ImportLines(st, BlockOf(s)) == Scan(acc + [s], Outside, ['\n'])
      else Misses(Finish(ImportLines(ImportLines(st, BlockOf(s)), rest)), |acc|, s)
  {
    var st, q := Scan(acc, Outside, ""), PlainEnd(Outside, s);
    ImportIsScan(st, BlockOf(s));
    SplitIsWritten(s + [';']);
    var end := [';'] + ['\n'];
    Associate(s, [';'], ['\n']);
    assert end[1..] == ['\n'] && ['\n'][1..] == [];
    PassesToEnd(Outside, s, Outside);
    if PlainPasses(Outside, s, q) {
      PlainPassScan(st, s, q);
      assert [] + s == s;
      PlainScanAppend(st, s, end);
      TrimmedIsFixed(s);
      if q != Outside { LeftOpen(acc, q, s, rest); }
    } else {
      CutShort(acc, s, end);
      LinesGrow(PlainScan(st, s + end), rest);
    }
  }

  ghost predicate Misses(found: seq<string>, n: nat, s: string) {
    n < |found| && found[n] != s
  }

  lemma LeftOpen(acc: seq<string>, q: Quote, s: string, rest: seq<string>)
    requires Statement(s) && q != Outside
    ensures var st := Scan(acc, q, s);
      Misses(Finish(ImportLines(PlainScan(st, [';'] + ['\n']), rest)), |acc|, s)
  {
    var end := [';'] + ['\n'];
    var next := Scan(acc, q, s + [';'] + ['\n']);
    assert end[1..] == ['\n'] && ['\n'][1..] == [];
    assert PlainScan(Scan(acc, q, s), end) == next;
    LinesContinue(next, rest);
    TrimSpaceAppend(s + [';'], '\n');
    TrimmedIsFixed(s + [';']);
  }

  lemma {:induction false} FirstComment(lines: seq<string>) returns (k: nat)
    requires !NoComment(lines)
    ensures k < |lines| && IsCommentLine(lines[k]) && NoComment(lines[..k])
  {
    if IsCommentLine(lines[0]) { return 0; }
    var i := FirstComment(lines[1..]);
    assert lines[..i + 1] == [lines[0]] + lines[1..][..i];
    return i + 1;
  }

  lemma StartsVisibly(line: string)
    requires line != "" && IsInitial(line[0])
    ensures !IsCommentLine(line)
  {
    SolidTrims(line);
    var t := TrimSpace(line);
    PrefixAt(t, "--", 0);
    PrefixAt(t, "/*", 0);
  }

  lemma FirstLineStarts(s: string)
    requires Statement(s)
    ensures !IsCommentLine(BlockOf(s)[0])
  {
    var t := s + [';'];
    assert Split(t, '\n')[0] == [t[0]] + Split(t[1..], '\n')[0];
    StartsVisibly(BlockOf(s)[0]);
  }

  /** The text before a skipped line is a proper part of the statement, and the line is what follows. */
  lemma BeforeComment(s: string, k: nat)
    requires Statement(s) && 0 < k < |BlockOf(s)|
    ensures var before, line := Written(BlockOf(s)[..k]), BlockOf(s)[k];
      && before != "" && IsInitial(before[0]) && before < s
      && (line + ['\n'] <= s[|before|..] || s[|before|..] + [';'] == line)
  {
    var lines := BlockOf(s);
    var before, line, after := Written(lines[..k]), lines[k], Written(lines[k + 1..]);
    assert lines == lines[..k] + ([line] + lines[k + 1..]);
    WrittenAppend(lines[..k], [line] + lines[k + 1..]);
    assert ([line] + lines[k + 1..])[1..] == lines[k + 1..];
    SplitIsWritten(s + [';']);
    WrittenEnds(lines[..k]);
    if k + 1 < |lines| { WrittenEnds(lines[k + 1..]); }
    TextBefore(s, before, line, after);
  }

  lemma {:induction false} WrittenEnds(lines: seq<string>)
    requires lines != []
    ensures Written(lines) != "" && Written(lines)[|Written(lines)| - 1] == '\n'
    decreases |lines|
  {
    if |lines| > 1 { WrittenEnds(lines[1..]); }
  }

  lemma TextBefore(s: string, before: string, line: string, after: string)
    requires Statement(s) && s + [';'] + ['\n'] == before + (line + (['\n'] + after))
    requires before != "" && before[|before| - 1] == '\n' && (after == "" || after[|after| - 1] == '\n')
    ensures before < s && IsInitial(before[0])
    ensures line + ['\n'] <= s[|before|..] || s[|before|..] + [';'] == line
  {
    var all := s + [';'] + ['\n'];
    assert all[|before| - 1] == '\n' && all[|s|] == ';' && all[|s| - 1] == s[|s| - 1] && all[0] == s[0];
    assert |before| < |s|;
    assert before == all[..|before|] == s[..|before|];
    var tail := s[|before|..];
    assert tail + [';'] + ['\n'] == all[|before|..] == line + (['\n'] + after);
    if after == "" {
      assert tail + [';'] == (tail + [';'] + ['\n'])[..|tail| + 1] == line;
    } else {
      assert (tail + [';'] + ['\n'])[|tail|] == ';' && (line + (['\n'] + after))[|line|] == '\n';
      assert |line| + 1 + |after| == |tail| + 2;
      assert |after| != 1;
      assert line + ['\n'] == (line + (['\n'] + after))[..|line| + 1] == tail[..|line| + 1];
    }
  }

  /** A statement of which a line is skipped is not found. */
  lemma SkippedBlock(acc: seq<string>, s: string, rest: seq<string>)
    requires Statement(s) && !NoComment(BlockOf(s)) && forall l <- rest :: '\n' !in l
    ensures Misses(Finish(ImportLines(Scan(acc, Outside, ""), BlockOf(s) + rest)), |acc|, s)
  {
    var st, lines := Scan(acc, Outside, ""), BlockOf(s);
    var k := FirstComment(lines);
    FirstLineStarts(s);
    BeforeComment(s, k);
    var before, more := lines[..k], lines[k..] + rest;
    var text := Written(before);
    assert lines + rest == before + more;
    ImportAppend(st, before, more);
    ImportIsScan(st, before);
    var q := PlainEnd(Outside, text);
    if PlainPasses(Outside, text, q) {
      PlainPassScan(st, text, q);
      assert [] + text == text;
      SplitHasNoSeparator(s + [';'], '\n');
      forall l <- more ensures '\n' !in l { assert l in lines || l in rest; }
      assert lines[k] in lines;
      LostLine(Scan(acc, q, text), s, lines[k], more);
    } else {
      CutShort(acc, text, "");
      assert text + "" == text;
      LinesGrow(PlainScan(st, text), more);
    }
  }

  // ---------- All statements ----------

  /** Terminated statements and empty lines between them. */
  datatype Item = Gap | Stmt(text: string)

  /** The lines of the items. */
  function Blocks(items: seq<Item>): seq<string> {
    if items == [] then [""]
    else (if items[0].Gap? then [""] else BlockOf(items[0].text)) + Blocks(items[1..])
  }

  function Stated(items: seq<Item>): seq<string> {
    if items == [] then [] else (if items[0].Gap? then [] else [items[0].text]) + Stated(items[1..])
  }

  lemma {:induction false} BlocksHaveNoLineEnd(items: seq<Item>)
    ensures forall l <- Blocks(items) :: '\n' !in l
    decreases |items|
  {
    if items != [] {
      BlocksHaveNoLineEnd(items[1..]);
      var first := if items[0].Gap? then [""] else BlockOf(items[0].text);
      if items[0].Stmt? { SplitHasNoSeparator(items[0].text + [';'], '\n'); }
      forall l <- Blocks(items) ensures '\n' !in l { assert l in first || l in Blocks(items[1..]); }
    }
  }

  lemma LineEndIsSpace()
    ensures AllSpace(['\n']) && !IsCommentLine("")
  {
    assert TrimSpace("") == "";
  }

  lemma NothingMore(acc: seq<string>)
    ensures Finish(ImportLines(Scan(acc, Outside, ""), [""])) == acc
  {
    assert [""][1..] == [];
    TrimSpacePrepend('\n', "");
    assert ['\n'] + "" == ['\n'] && "" + ['\n'] == ['\n'];
  }

  lemma GapIsNothing(acc: seq<string>, rest: seq<string>)
    ensures Finish(ImportLines(Scan(acc, Outside, ""), [""] + rest)) ==
      Finish(ImportLines(Scan(acc, Outside, ""), rest))
  {
    LineEndIsSpace();
    ImportCons(Scan(acc, Outside, ""), "", rest);
    assert "" + ['\n'] == ['\n'] && ['\n'] + "" == ['\n'];
    PadLines(['\n'], Scan(acc, Outside, ['\n']), Scan(acc, Outside, ""), rest);
  }

  /** The importer finds exactly the statements when each of them is readable, and never otherwise. */
  lemma {:induction false} BlocksDecide(acc: seq<string>, items: seq<Item>)
    requires forall s <- Stated(items) :: Statement(s)
    ensures Finish(ImportLines(Scan(acc, Outside, ""), Blocks(items))) == acc + Stated(items) <==>
      forall s <- Stated(items) :: Readable(s)
    decreases |items|
  {
    if items == [] {
      NothingMore(acc);
      assert acc + [] == acc;
    } else {
      var others := items[1..];
      forall x <- Stated(others) ensures Statement(x) { assert x in Stated(items); }
      if items[0].Gap? {
        GapIsNothing(acc, Blocks(others));
        assert Stated(items) == Stated(others);
        BlocksDecide(acc, others);
      } else {
        assert Stated(items) == [items[0].text] + Stated(others);
        FirstDecides(acc, items[0].text, Blocks(others), Stated(others));
        if Readable(items[0].text) { BlocksDecide(acc + [items[0].text], others); }
        BlocksHaveNoLineEnd(others);
      }
    }
  }

  /** A first statement that is readable is found and cut off; one that is not is missed. */
  lemma FirstDecides(acc: seq<string>, s: string, rest: seq<string>, stmts: seq<string>)
    requires Statement(s)
    ensures Readable(s) ==>
      && Finish(ImportLines(Scan(acc, Outside, ""), BlockOf(s) + rest)) ==
           Finish(ImportLines(Scan(acc + [s], Outside, ""), rest))
      && acc + ([s] + stmts) == (acc + [s]) + stmts
    ensures !Readable(s) && (forall l <- rest :: '\n' !in l) ==>
      Finish(ImportLines(Scan(acc, Outside, ""), BlockOf(s) + rest)) != acc + ([s] + stmts)
  {
    ImportAppend(Scan(acc, Outside, ""), BlockOf(s), rest);
    if Readable(s) {
      LineEndIsSpace();
      ScannedBlock(acc, s, rest);
      assert ['\n'] + "" == ['\n'];
      PadLines(['\n'], Scan(acc + [s], Outside, ['\n']), Scan(acc + [s], Outside, ""), rest);
      Associate(acc, [s], stmts);
    } else if forall l <- rest :: '\n' !in l {
      if NoComment(BlockOf(s)) { ScannedBlock(acc, s, rest); } else { SkippedBlock(acc, s, rest); }
      assert (acc + ([s] + stmts))[|acc|] == s;
    }
  }

  lemma NoCommentAppend(a: seq<string>, b: seq<string>)
    ensures NoComment(a + b) <==> NoComment(a) && NoComment(b)
  {
    if NoComment(a + b) {
      forall l <- a ensures !IsCommentLine(l) { assert l in a + b; }
      forall l <- b ensures !IsCommentLine(l) { assert l in a + b; }
    }
  }

  lemma {:induction false} ReadableBlocks(items: seq<Item>)
    ensures (forall s <- Stated(items) :: Readable(s)) <==>
      NoComment(Blocks(items)) && forall s <- Stated(items) :: PlainPasses(Outside, s, Outside)
    decreases |items|
  {
    LineEndIsSpace();
    if items != [] {
      var others := items[1..];
      ReadableBlocks(others);
      NoCommentAppend(if items[0].Gap? then [""] else BlockOf(items[0].text), Blocks(others));
      if items[0].Gap? {
        assert Stated(items) == Stated(others);
      } else {
        var s := items[0].text;
        assert Stated(items) == [s] + Stated(others);
        assert forall x :: x in Stated(items) <==> x == s || x in Stated(others);
        assert (forall x <- Stated(items) :: Readable(x)) <==> Readable(s) && forall x <- Stated(others) :: Readable(x);
      }
    }
  }

  // ---------- Text and items ----------

  function Spelled(items: seq<Item>): string {
    if items == [] then []
    else (if items[0].Gap? then "" else items[0].text + [';']) + (['\n'] + Spelled(items[1..]))
  }

  lemma {:induction false} LinesOfSpelled(items: seq<Item>)
    ensures Split(Spelled(items), '\n') == Blocks(items)
    decreases |items|
  {
    if items != [] {
      LinesOfSpelled(items[1..]);
      SplitAppend(if items[0].Gap? then "" else items[0].text + [';'], Spelled(items[1..]));
    }
  }

  function Plainly(stmts: seq<string>): seq<Item> {
    if stmts == [] then [] else [Stmt(stmts[0])] + Plainly(stmts[1..])
  }

  lemma {:induction false} SpelledAppend(a: seq<Item>, b: seq<Item>)
    ensures Spelled(a + b) == Spelled(a) + Spelled(b)
    ensures Stated(a + b) == Stated(a) + Stated(b)
    decreases |a|
  {
    if a == [] {
      assert a + b == b;
    } else {
      assert (a + b)[1..] == a[1..] + b && (a + b)[0] == a[0];
      SpelledAppend(a[1..], b);
      Associate(['\n'], Spelled(a[1..]), Spelled(b));
      Associate(if a[0].Gap? then "" else a[0].text + [';'], ['\n'] + Spelled(a[1..]), Spelled(b));
      Associate(if a[0].Gap? then [] else [a[0].text], Stated(a[1..]), Stated(b));
    }
  }

  lemma {:induction false} BlocksAppend(a: seq<Item>, b: seq<Item>)
    ensures NoComment(Blocks(a + b)) <==> NoComment(Blocks(a)) && NoComment(Blocks(b))
    decreases |a|
  {
    LineEndIsSpace();
    if a == [] {
      assert a + b == b;
    } else {
      assert (a + b)[1..] == a[1..] + b && (a + b)[0] == a[0];
      BlocksAppend(a[1..], b);
      var first := if a[0].Gap? then [""] else BlockOf(a[0].text);
      NoCommentAppend(first, Blocks(a[1..]));
      NoCommentAppend(first, Blocks(a[1..] + b));
    }
  }
}
