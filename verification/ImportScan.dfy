/** What the importer's scan finds next: the text not yet cut only grows, so a statement that is cut short, left open or
    robbed of a line is not found. */
module ImportScan {
  import opened GoStrings
  import opened Sequences
  import opened SqlSplitting

  // ---------- Scanning without a cut ----------

  /** From state `q` the importer scans `s` without a cut and arrives in state `q'`. */
  predicate PlainPasses(q: Quote, s: string, q': Quote)
    decreases |s|
  {
    if s == [] then q == q' else !(s[0] == ';' && q == Outside) && PlainPasses(Toggle(q, s[0]), s[1..], q')
  }

  /** The state after `s` when nothing is cut. */
  function PlainEnd(q: Quote, s: string): Quote
    decreases |s|
  {
    if s == [] then q else PlainEnd(Toggle(q, s[0]), s[1..])
  }

  lemma {:induction false} PassesToEnd(q: Quote, s: string, q': Quote)
    ensures PlainPasses(q, s, q') <==> PlainPasses(q, s, PlainEnd(q, s)) && q' == PlainEnd(q, s)
    decreases |s|
  {
    if s != [] { PassesToEnd(Toggle(q, s[0]), s[1..], q'); }
  }

  lemma {:induction false} PlainPassScan(st: Scan, s: string, q: Quote)
    requires PlainPasses(st.quote, s, q)
    ensures PlainScan(st, s) == Scan(st.stmts, q, st.current + s)
    decreases |s|
  {
    if s == [] {
      assert st.current + s == st.current;
    } else {
      PlainPassScan(Step(st, s[0]), s[1..], q);
      assert (st.current + [s[0]]) + s[1..] == st.current + s;
    }
  }

  // ---------- Trimming a text that starts with a visible character ----------

  predicate Solid(cur: string) {
    cur != "" && !IsSpace(cur[0])
  }

  lemma {:induction false} TrimRightIs(s: string)
    ensures var t := TrimRight(s);
      t <= s && (forall k | |t| <= k < |s| :: IsSpace(s[k])) && (t == "" || !IsSpace(t[|t| - 1]))
  {
    if s != [] && IsSpace(s[|s| - 1]) { TrimRightIs(s[..|s| - 1]); }
  }

  lemma SolidTrims(cur: string)
    requires Solid(cur)
    ensures TrimSpace(cur) == TrimRight(cur) <= cur && Solid(TrimSpace(cur))
  {
    TrimRightIs(cur);
  }

  lemma SolidEmits(stmts: seq<string>, cur: string)
    requires Solid(cur)
    ensures Emit(stmts, cur) == stmts + [TrimSpace(cur)]
  {
    SolidTrims(cur);
  }

  lemma TrimGrows(cur: string, more: string)
    requires Solid(cur) && cur <= more
    ensures |TrimSpace(cur)| <= |TrimSpace(more)|
  {
    SolidTrims(cur);
    SolidTrims(more);
    TrimRightIs(cur);
    TrimRightIs(more);
  }

  // ---------- The next statement ----------

  /** Statement `n` continues the text `cur`, or is what is left of it after trimming. */
  ghost predicate Continues(found: seq<string>, n: nat, cur: string) {
    && n < |found| && |found[n]| >= |TrimSpace(cur)|
    && (found[n] <= cur || cur <= found[n])
  }

  lemma ContinuesLess(found: seq<string>, n: nat, cur: string, more: string)
    requires Continues(found, n, more) && Solid(cur) && cur <= more
    ensures Continues(found, n, cur)
  {
    TrimGrows(cur, more);
  }

  lemma ContinuesOn(found: seq<string>, all: seq<string>, n: nat, cur: string)
    requires Continues(found, n, cur) && found <= all
    ensures Continues(all, n, cur)
  {}

  lemma {:induction false} ScanGrows(st: Scan, s: string)
    ensures st.stmts <= PlainScan(st, s).stmts
    decreases |s|
  {
    if s != [] { ScanGrows(Step(st, s[0]), s[1..]); }
  }

  lemma {:induction false} LinesGrow(st: Scan, lines: seq<string>)
    ensures st.stmts <= Finish(ImportLines(st, lines))
    decreases |lines|
  {
    if lines != [] {
      ScanGrows(st, lines[0]);
      LinesGrow(ImportLine(st, lines[0]), lines[1..]);
    }
  }

  /** A cut inside `s` finds a statement that is shorter than the text up to the end of `s`. */
  lemma {:induction false} CutPiece(st: Scan, s: string)
    requires Solid(st.current) && !PlainPasses(st.quote, s, PlainEnd(st.quote, s))
    ensures var found := PlainScan(st, s).stmts;
      && st.stmts <= found && Continues(found, |st.stmts|, st.current)
      && found[|st.stmts|] <= st.current + s && |found[|st.stmts|]| < |st.current + s|
    decreases |s|
  {
    var next := Step(st, s[0]);
    if s[0] == ';' && st.quote == Outside {
      SolidEmits(st.stmts, st.current);
      SolidTrims(st.current);
      ScanGrows(next, s[1..]);
    } else {
      CutPiece(next, s[1..]);
      var found := PlainScan(next, s[1..]).stmts;
      assert next.current + s[1..] == st.current + s;
      ContinuesLess(found, |st.stmts|, st.current, next.current);
    }
  }

  /** The next statement found agrees with the current text and the next line, if that is not skipped. */
  lemma {:induction false} LineContinues(st: Scan, line: string, lines: seq<string>)
    requires Solid(st.current) && !IsCommentLine(line)
    ensures var found := Finish(ImportLines(st, [line] + lines));
      Continues(found, |st.stmts|, st.current) && Agree(found[|st.stmts|], st.current + (line + ['\n']))
    decreases |lines| + 1, 0
  {
    var next := EndLine(PlainScan(st, line));
    ImportCons(st, line, lines);
    var found := Finish(ImportLines(next, lines));
    var q := PlainEnd(st.quote, line);
    if PlainPasses(st.quote, line, q) {
      PlainPassScan(st, line, q);
      Associate(st.current, line, ['\n']);
      LinesContinue(next, lines);
      ContinuesLess(found, |st.stmts|, st.current, next.current);
    } else {
      CutPiece(st, line);
      LinesGrow(next, lines);
      ContinuesOn(next.stmts, found, |st.stmts|, st.current);
      Associate(st.current, line, ['\n']);
    }
  }

  /** One is a prefix of the other. */
  predicate Agree(a: string, b: string) {
    a <= b || b <= a
  }

  lemma ImportCons(st: Scan, line: string, lines: seq<string>)
    ensures ImportLines(st, [line] + lines) == ImportLines(ImportLine(st, line), lines)
  {
    assert ([line] + lines)[1..] == lines;
  }

  lemma {:induction false} LinesContinue(st: Scan, lines: seq<string>)
    requires Solid(st.current)
    ensures Continues(Finish(ImportLines(st, lines)), |st.stmts|, st.current)
    decreases |lines|, 1
  {
    if lines == [] {
      SolidEmits(st.stmts, st.current);
      SolidTrims(st.current);
    } else if IsCommentLine(lines[0]) {
      LinesContinue(st, lines[1..]);
    } else {
      LineContinues(st, lines[0], lines[1..]);
      assert [lines[0]] + lines[1..] == lines;
    }
  }

  // ---------- White space before a statement does not matter ----------

  predicate AllSpace(s: string) {
    forall c | c in s :: IsSpace(c)
  }

  lemma {:induction false} TrimPad(pad: string, s: string)
    requires AllSpace(pad)
    ensures TrimSpace(pad + s) == TrimSpace(s)
    decreases |pad|
  {
    if pad == [] {
      assert pad + s == s;
    } else {
      assert pad[0] in pad;
      forall c | c in pad[1..] ensures IsSpace(c) { assert c in pad; }
      TrimPad(pad[1..], s);
      TrimSpacePrepend(pad[0], pad[1..] + s);
      assert pad + s == [pad[0]] + (pad[1..] + s);
    }
  }

  ghost predicate Padded(pad: string, a: Scan, b: Scan) {
    a == b || (a.stmts == b.stmts && a.quote == b.quote && a.current == pad + b.current)
  }

  lemma PadFinish(pad: string, a: Scan, b: Scan)
    requires AllSpace(pad) && Padded(pad, a, b)
    ensures Finish(a) == Finish(b)
  {
    TrimPad(pad, b.current);
  }

  lemma PadStep(pad: string, a: Scan, b: Scan, c: char)
    requires AllSpace(pad) && Padded(pad, a, b)
    ensures Padded(pad, Step(a, c), Step(b, c))
  {
    TrimPad(pad, b.current);
    assert pad + b.current + [c] == pad + (b.current + [c]);
  }

  lemma {:induction false} PadScan(pad: string, a: Scan, b: Scan, s: string)
    requires AllSpace(pad) && Padded(pad, a, b)
    ensures Padded(pad, PlainScan(a, s), PlainScan(b, s))
    decreases |s|
  {
    if s != [] {
      PadStep(pad, a, b, s[0]);
      PadScan(pad, Step(a, s[0]), Step(b, s[0]), s[1..]);
    }
  }

  lemma {:induction false} PadLines(pad: string, a: Scan, b: Scan, lines: seq<string>)
    requires AllSpace(pad) && Padded(pad, a, b)
    ensures Finish(ImportLines(a, lines)) == Finish(ImportLines(b, lines))
    decreases |lines|
  {
    if lines == [] {
      PadFinish(pad, a, b);
    } else if IsCommentLine(lines[0]) {
      PadLines(pad, a, b, lines[1..]);
    } else {
      PadScan(pad, a, b, lines[0]);
      var a1, b1 := EndLine(PlainScan(a, lines[0])), EndLine(PlainScan(b, lines[0]));
      assert Padded(pad, a1, b1) by { Associate(pad, PlainScan(b, lines[0]).current, ['\n']); }
      PadLines(pad, a1, b1, lines[1..]);
    }
  }
}
