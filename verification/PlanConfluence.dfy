/** Confluence of `ExecuteDAG`: the schedule does not influence what a complete run computes. */
module PlanConfluence {
  import opened Options
  import opened Sequences
  import opened PlanDag
  import opened Rendering
  import opened StepRetry
  import opened PlanExecution

  // ---------- The sequential reference ----------

  /** What the plan has produced: shared outputs, plan step records and the results in order. */
  datatype Product = Product(outputs: Outputs, records: map<string, StepRun>, results: seq<StepResult>)

  predicate Never(n: nat) { false }

  function Deliver(before: Product, id: string, run: StepRun): Product {
    Product(
      if run.final.ok then before.outputs[id := run.final.output] else before.outputs,
      before.records[id := run],
      before.results + [run.final])
  }

  /** The product of the first `k` layers and the first `n` steps of layer `k`, executed one after another. Each step
      reads the outputs of the earlier layers only. */
  function Reference(c: Config, k: nat, n: nat): Product
    requires k <= |c.layers| && (if k < |c.layers| then n <= |c.layers[k]| else n == 0)
    decreases k, n, 0
  {
    if n > 0 then Deliver(Reference(c, k, n - 1), c.layers[k][n - 1].id, ReferenceRun(c, k, n - 1))
    else if k > 0 then Reference(c, k - 1, |c.layers[k - 1]|)
    else Product(map[], map[], [])
  }

  function ReferenceRun(c: Config, k: nat, i: nat): StepRun
    requires k < |c.layers| && i < |c.layers[k]|
    decreases k, i, 1
  {
    RunStep(c.w, c.layers[k][i], Reference(c, k, 0).outputs, Never)
  }

  function ReferenceResults(c: Config, k: nat): seq<StepResult>
    requires k < |c.layers|
  {
    seq(|c.layers[k]|, i requires 0 <= i < |c.layers[k]| => ReferenceRun(c, k, i).final)
  }

  // ---------- Conditions ----------

  /** A tool's outcome depends on the step and its rendered arguments only. */
  ghost predicate Deterministic(c: Config) {
    forall step, rendered, res | c.may(step, rendered, res) :: res == c.w.tool(step, rendered)
  }

  ghost predicate Sibling(c: Config, k: nat, id: string) {
    k < |c.layers| && exists i :: 0 <= i < |c.layers[k]| && c.layers[k][i].id == id
  }

  /** No argument text that is tried in layer `k` mentions a step of that layer. */
  ghost predicate NoSiblingMentions(c: Config) {
    forall k, i | 0 <= k < |c.layers| && 0 <= i < |c.layers[k]| :: MentionsNoSibling(c, k, ReferenceRun(c, k, i))
  }

  ghost predicate MentionsNoSibling(c: Config, k: nat, run: StepRun) {
    forall a, id | a in run.attempts && id in Mentions(a.raw) :: !Sibling(c, k, id)
  }

  // ---------- The invariant ----------

  /** The two outputs differ at most on the steps of layer `k`. */
  ghost predicate AgreeOff(c: Config, k: nat, o1: Outputs, o2: Outputs) {
    forall id | !Sibling(c, k, id) :: (id in o1 <==> id in o2) && (id in o1 && id in o2 ==> o1[id] == o2[id])
  }

  ghost predicate AgreeOffRecords(c: Config, k: nat, r1: map<string, StepRun>, r2: map<string, StepRun>) {
    forall id | !Sibling(c, k, id) :: (id in r1 <==> id in r2) && (id in r1 && id in r2 ==> r1[id] == r2[id])
  }

  /** The goroutine of step `i` is on the way to the reference run. */
  ghost predicate OnTrack(c: Config, k: nat, i: nat, p: Phase)
    requires k < |c.layers| && i < |c.layers[k]|
  {
    var base := Reference(c, k, 0).outputs;
    && (Started(p) ==> AgreeOff(c, k, p.snap, base))
    && match p
       case Waiting => true
       case Holding => true
       case Trying(_, log, l) => Whole(log, RunFrom(c.w, c.layers[k][i], base, Never, l)) == ReferenceRun(c, k, i)
       case Pausing(_, log, l, _) => Whole(log, RunFrom(c.w, c.layers[k][i], base, Never, l)) == ReferenceRun(c, k, i)
       case _ => p.run == ReferenceRun(c, k, i)
  }

  /** What step `i` may have stored so far. */
  ghost predicate StoredOk(c: Config, s: State, i: nat)
    requires s.k < |c.layers| && i < |c.layers[s.k]|
  {
    var id, run := c.layers[s.k][i].id, ReferenceRun(c, s.k, i);
    && (id in s.outputs ==> run.final.ok && s.outputs[id] == run.final.output)
    && (id in s.records ==> s.records[id] == run)
  }

  ghost predicate ProductIs(s: State, r: Product) {
    s.outputs == r.outputs && s.records == r.records && s.results == r.results
  }

  ghost predicate InLayerOk(c: Config, s: State)
    requires s.k < |c.layers| && |s.phases| == |c.layers[s.k]|
  {
    var base := Reference(c, s.k, 0);
    && AgreeOff(c, s.k, s.outputs, base.outputs) && AgreeOffRecords(c, s.k, s.records, base.records)
    && s.results == base.results
    && forall i | 0 <= i < |s.phases| :: OnTrack(c, s.k, i, s.phases[i]) && StoredOk(c, s, i)
  }

  ghost predicate LayersSucceed(c: Config, k: nat)
    requires k <= |c.layers|
  {
    forall j | 0 <= j < k :: FirstFailure(ReferenceResults(c, j)).None?
  }

  /** A complete run: all layers succeeded, or the current one has a failure. */
  ghost predicate Complete(c: Config, s: State) {
    && s.k <= |c.layers| && LayersSucceed(c, s.k)
    && match s.status
       case Halted(None) => s.k == |c.layers| && ProductIs(s, Reference(c, s.k, 0))
       case Halted(Some(id)) =>
         && s.k < |c.layers| && FirstFailure(ReferenceResults(c, s.k)) == Some(id)
         && ProductIs(s, Reference(c, s.k, |c.layers[s.k]|))
       case _ => false
  }

  ghost predicate Matches(c: Config, s: State) {
    && Shape(c, s) && LayersSucceed(c, s.k)
    && match s.status
       case Between => ProductIs(s, Reference(c, s.k, 0))
       case InLayer => InLayerOk(c, s)
       case Halted(_) => Complete(c, s)
  }

  // ---------- Facts about the reference ----------

  lemma {:induction false} ReferenceOff(c: Config, k: nat, n: nat, id: string)
    requires k < |c.layers| && n <= |c.layers[k]| && !Sibling(c, k, id)
    ensures var r, base := Reference(c, k, n), Reference(c, k, 0);
      && (id in r.outputs <==> id in base.outputs) && (id in r.outputs ==> r.outputs[id] == base.outputs[id])
      && (id in r.records <==> id in base.records) && (id in r.records ==> r.records[id] == base.records[id])
  {
    if n > 0 {
      ReferenceOff(c, k, n - 1, id);
      assert c.layers[k][n - 1].id != id;
    }
  }

  lemma {:induction false} ReferenceKeys(c: Config, k: nat, n: nat, id: string)
    requires k <= |c.layers| && (if k < |c.layers| then n <= |c.layers[k]| else n == 0)
    requires id in Reference(c, k, n).outputs || id in Reference(c, k, n).records
    ensures Earlier(c.layers, k, id) || (exists i :: 0 <= i < n && c.layers[k][i].id == id)
    decreases k, n
  {
    if n > 0 {
      if c.layers[k][n - 1].id != id { ReferenceKeys(c, k, n - 1, id); }
    } else if k > 0 {
      ReferenceKeys(c, k - 1, |c.layers[k - 1]|, id);
    }
  }

  /** The sequential product stores exactly the run of each step. */
  lemma {:induction false} ReferenceOwn(c: Config, k: nat, n: nat, i: nat)
    requires DistinctIds(c.layers) && k < |c.layers| && i < n <= |c.layers[k]|
    ensures var r, id, run := Reference(c, k, n), c.layers[k][i].id, ReferenceRun(c, k, i);
      && (id in r.outputs <==> run.final.ok) && (run.final.ok ==> r.outputs[id] == run.final.output)
      && id in r.records && r.records[id] == run
  {
    var id := c.layers[k][i].id;
    if i < n - 1 {
      ReferenceOwn(c, k, n - 1, i);
      assert c.layers[k][n - 1].id != id;
    } else if id in Reference(c, k, n - 1).outputs {
      ReferenceKeys(c, k, n - 1, id);
    }
  }

  lemma {:induction false} ReferenceAppends(c: Config, k: nat, n: nat)
    requires k < |c.layers| && n <= |c.layers[k]|
    ensures Reference(c, k, n).results == Reference(c, k, 0).results + ReferenceResults(c, k)[..n]
  {
    hide ReferenceRun;
    if n > 0 {
      ReferenceAppends(c, k, n - 1);
      assert ReferenceResults(c, k)[..n] == ReferenceResults(c, k)[..n - 1] + [ReferenceRun(c, k, n - 1).final];
    }
  }

  // ---------- One attempt ----------

  lemma SnapshotIsEnough(c: Config, k: nat, run: StepRun, snap: Outputs)
    requires MentionsNoSibling(c, k, run) && k <= |c.layers|
    requires AgreeOff(c, k, snap, Reference(c, k, 0).outputs) && k < |c.layers|
    ensures TriesOnly(run, snap, Reference(c, k, 0).outputs)
  {
    forall a <- run.attempts ensures AgreeOn(Mentions(a.raw), snap, Reference(c, k, 0).outputs) {
      forall id | id in Mentions(a.raw) ensures !Sibling(c, k, id) {}
    }
  }

  lemma FirstTriedIsRaw(w: World, step: PlanStep, snap: Outputs, l: Loop)
    ensures var run := RunFrom(w, step, snap, Never, l);
            run.attempts != [] && run.attempts[0].raw == l.args
  {}

  /** A goroutine reacts to a result as one iteration of the retry loop does. */
  lemma TryIsIteration(w: World, step: PlanStep, base: Outputs, p: Phase, res: StepResult)
    requires p.Trying? && w.render(p.loop.args, p.snap) == w.render(p.loop.args, base)
    requires res == w.tool(step, w.render(p.loop.args, base))
    ensures var q := AfterTry(w, p, res);
            Started(q) && q.snap == p.snap &&
            match Iterate(w, step, base, Never, p.loop)
            case Ended(run) => q.Finished? && q.run == Whole(p.log, run)
            case Again(a, next) => (q.Trying? || q.Pausing?) && q.log == p.log + [a] && q.loop == next
  {}

  /** An attempt of a goroutine is the next attempt of the reference run. */
  lemma TryStaysOnTrack(c: Config, k: nat, i: nat, p: Phase, res: StepResult)
    requires k < |c.layers| && i < |c.layers[k]| && p.Trying? && OnTrack(c, k, i, p)
    requires LocalRendering(c.w) && Deterministic(c) && MentionsNoSibling(c, k, ReferenceRun(c, k, i))
    requires c.may(c.layers[k][i], c.w.render(p.loop.args, p.snap), res)
    ensures OnTrack(c, k, i, AfterTry(c.w, p, res))
  {
    var step, base, l := c.layers[k][i], Reference(c, k, 0).outputs, p.loop;
    var rest := RunFrom(c.w, step, base, Never, l);
    FirstTriedIsRaw(c.w, step, base, l);
    SnapshotIsEnough(c, k, ReferenceRun(c, k, i), p.snap);
    assert rest.attempts[0] in ReferenceRun(c, k, i).attempts by {
      assert ReferenceRun(c, k, i).attempts[|p.log|] == rest.attempts[0];
    }
    assert c.w.render(l.args, p.snap) == c.w.render(l.args, base);
    TryIsIteration(c.w, step, base, p, res);
    Unroll(c.w, step, base, Never, l, p.log);
  }

  // ---------- Preservation ----------

  lemma PhaseStaysOnTrack(c: Config, s: State, e: Event)
    requires Matches(c, s) && Enabled(c, s, e) && IsGoroutineEvent(e) && !s.cancelled
    requires LocalRendering(c.w) && Deterministic(c) && NoSiblingMentions(c)
    ensures OnTrack(c, s.k, e.i, PhaseAfter(c, s, c.layers[s.k][e.i], s.phases[e.i], e))
  {
    var step, p := c.layers[s.k][e.i], s.phases[e.i];
    assert OnTrack(c, s.k, e.i, p);
    assert MentionsNoSibling(c, s.k, ReferenceRun(c, s.k, e.i));
    if e.Try? {
      TryStaysOnTrack(c, s.k, e.i, p, e.res);
    } else if e.Snapshot? {
      var run := RunFrom(c.w, step, Reference(c, s.k, 0).outputs, Never, Loop(0, step.args, 0));
      assert [] + run.attempts == run.attempts;
    }
  }

  lemma GoroutineStores(c: Config, s: State, e: Event)
    requires Matches(c, s) && Enabled(c, s, e) && IsGoroutineEvent(e)
    ensures StoredOk(c, Apply(c, s, e), e.i) && Apply(c, s, e).results == s.results
    ensures Apply(c, s, e).phases[e.i] == PhaseAfter(c, s, c.layers[s.k][e.i], s.phases[e.i], e)
  {
    hide Reference, ReferenceRun, AgreeOff, AgreeOffRecords, LayersSucceed, Complete;
    assert OnTrack(c, s.k, e.i, s.phases[e.i]) && StoredOk(c, s, e.i);
  }

  lemma GoroutineKeepsMatch(c: Config, s: State, e: Event)
    requires DistinctIds(c.layers) && Safe(c, s) && Matches(c, s) && Enabled(c, s, e) && IsGoroutineEvent(e)
      && !s.cancelled
    requires LocalRendering(c.w) && Deterministic(c) && NoSiblingMentions(c)
    ensures Matches(c, Apply(c, s, e))
  {
    PhaseStaysOnTrack(c, s, e);
    GoroutineEffect(c, s, e);
    GoroutineStores(c, s, e);
    FrameKeepsMatch(c, s, Apply(c, s, e), e.i);
  }

  lemma FrameKeepsMatch(c: Config, s: State, s': State, i: nat)
    requires DistinctIds(c.layers) && Matches(c, s) && s.status.InLayer? && i < |s.phases|
    requires OnlyGoroutine(c, s, s', i) && s'.results == s.results
    requires OnTrack(c, s.k, i, s'.phases[i]) && StoredOk(c, s', i)
    ensures Matches(c, s')
  {
    var own := c.layers[s.k][i].id;
    assert Sibling(c, s.k, own);
    forall j | 0 <= j < |s'.phases| ensures OnTrack(c, s.k, j, s'.phases[j]) && StoredOk(c, s', j) {
      if j != i {
        assert OnTrack(c, s.k, j, s.phases[j]) && StoredOk(c, s, j);
        assert c.layers[s.k][j].id != own;
      }
    }
  }

  /** When all goroutines have returned, the layer's product is the reference product. */
  lemma ClosedLayer(c: Config, s: State)
    requires DistinctIds(c.layers) && Safe(c, s) && Matches(c, s) && Enabled(c, s, CloseLayer)
    ensures LayerResults(s.phases) == ReferenceResults(c, s.k)
    ensures var r := Reference(c, s.k, |c.layers[s.k]|);
            s.outputs == r.outputs && s.records == r.records && s.results + LayerResults(s.phases) == r.results
  {
    ClosedResults(c, s);
    ClosedMaps(c, s);
  }

  lemma ClosedResults(c: Config, s: State)
    requires Matches(c, s) && Enabled(c, s, CloseLayer)
    ensures LayerResults(s.phases) == ReferenceResults(c, s.k)
    ensures s.results + LayerResults(s.phases) == Reference(c, s.k, |c.layers[s.k]|).results
  {
    var k, n := s.k, |c.layers[s.k]|;
    forall i | 0 <= i < n ensures s.phases[i].Released? && s.phases[i].run == ReferenceRun(c, k, i) {
      assert s.phases[i] in s.phases && OnTrack(c, k, i, s.phases[i]);
    }
    ReferenceAppends(c, k, n);
    assert ReferenceResults(c, k)[..n] == ReferenceResults(c, k);
  }

  lemma ClosedMaps(c: Config, s: State)
    requires DistinctIds(c.layers) && Safe(c, s) && Matches(c, s) && Enabled(c, s, CloseLayer)
    ensures var r := Reference(c, s.k, |c.layers[s.k]|); s.outputs == r.outputs && s.records == r.records
  {
    hide Safe, Matches, DistinctIds, Reference;
    var r := Reference(c, s.k, |c.layers[s.k]|);
    forall id
      ensures (id in s.outputs <==> id in r.outputs)
        && (id in s.outputs && id in r.outputs ==> s.outputs[id] == r.outputs[id])
      ensures (id in s.records <==> id in r.records)
        && (id in s.records && id in r.records ==> s.records[id] == r.records[id])
    {
      ClosedLayerAt(c, s, id);
    }
    SameMap(s.outputs, r.outputs);
    SameMap(s.records, r.records);
  }

  lemma ClosedLayerAt(c: Config, s: State, id: string)
    requires DistinctIds(c.layers) && Safe(c, s) && Matches(c, s) && Enabled(c, s, CloseLayer)
    ensures var r := Reference(c, s.k, |c.layers[s.k]|);
      && (id in s.outputs <==> id in r.outputs)
      && (id in s.outputs && id in r.outputs ==> s.outputs[id] == r.outputs[id])
      && (id in s.records <==> id in r.records)
      && (id in s.records && id in r.records ==> s.records[id] == r.records[id])
  {
    var k, n := s.k, |c.layers[s.k]|;
    if Sibling(c, k, id) {
      var i :| 0 <= i < n && c.layers[k][i].id == id;
      ReferenceOwn(c, k, n, i);
      assert GoroutineOk(c, s, i) && s.phases[i] in s.phases && OnTrack(c, k, i, s.phases[i]) && StoredOk(c, s, i);
    } else {
      ReferenceOff(c, k, n, id);
    }
  }

  lemma CloseKeepsMatch(c: Config, s: State)
    requires DistinctIds(c.layers) && Safe(c, s) && Matches(c, s) && Enabled(c, s, CloseLayer)
    ensures Matches(c, Apply(c, s, CloseLayer))
  {
    hide Safe, DistinctIds, ReferenceRun, StoredOk, OnTrack, InLayerOk;
    ClosedLayer(c, s);
  }

  lemma OpenKeepsMatch(c: Config, s: State)
    requires DistinctIds(c.layers) && Matches(c, s) && Enabled(c, s, OpenLayer)
    ensures Matches(c, Apply(c, s, OpenLayer))
  {
    var s' := Apply(c, s, OpenLayer);
    forall i | 0 <= i < |s'.phases| ensures StoredOk(c, s', i) {
      var id := c.layers[s.k][i].id;
      OwnIdIsNew(c, s, i);
      if id in s.outputs || id in s.records {
        ReferenceKeys(c, s.k, 0, id);
      }
    }
  }

  lemma InitialMatches(c: Config)
    ensures Matches(c, INITIAL)
  {}

  lemma StaysCancelled(c: Config, s: State, e: Event)
    requires Enabled(c, s, e)
    ensures s.cancelled ==> Apply(c, s, e).cancelled
  {}

  lemma HaltKeepsMatch(c: Config, s: State, e: Event)
    requires Matches(c, s) && Enabled(c, s, e) && !Apply(c, s, e).cancelled
    requires e.Cancel? || e.StopEarly? || e.FinishPlan?
    ensures Matches(c, Apply(c, s, e))
  {
    hide ReferenceRun, InLayerOk, FirstFailure;
  }

  lemma {:induction false} RunsMatch(c: Config, states: seq<State>, events: seq<Event>)
    requires DistinctIds(c.layers) && IsRun(c, states, events) && !states[|events|].cancelled
    requires LocalRendering(c.w) && Deterministic(c) && NoSiblingMentions(c)
    ensures Matches(c, states[|events|])
  {
    hide Reference, Safe, Apply, LocalRendering, Deterministic, NoSiblingMentions, DistinctIds, InLayerOk, Complete;
    if events == [] {
      InitialMatches(c);
    } else {
      var n := |events| - 1;
      assert IsRun(c, states[..n + 1], events[..n]);
      StaysCancelled(c, states[n], events[n]);
      RunsMatch(c, states[..n + 1], events[..n]);
      RunsAreSafe(c, states[..n + 1], events[..n]);
      var s, e := states[n], events[n];
      if IsGoroutineEvent(e) { GoroutineKeepsMatch(c, s, e); }
      else if e.CloseLayer? { CloseKeepsMatch(c, s); }
      else if e.OpenLayer? { OpenKeepsMatch(c, s); }
      else { HaltKeepsMatch(c, s, e); }
    }
  }

  lemma SameStop(c: Config, s1: State, s2: State)
    requires Complete(c, s1) && Complete(c, s2)
    ensures s1.k == s2.k && s1.status == s2.status
  {}

  /**
   * Confluence for one order of the steps inside the layers. If outcomes depend only on rendered arguments and no tried
   * argument mentions a step of its own layer, any two uncancelled complete runs report the same error, share the same
   * outputs, return the same results in the same order and record the same attempts with the same rendered arguments.
   * `PlanReordering` lifts this to executions that layer the plan anew.
   */
  lemma CompleteRunsAgree(c: Config, s1: State, s2: State)
    requires DistinctIds(c.layers) && LocalRendering(c.w) && Deterministic(c) && NoSiblingMentions(c)
    requires Reachable(c, s1) && s1.status.Halted? && !s1.cancelled
    requires Reachable(c, s2) && s2.status.Halted? && !s2.cancelled
    ensures s1.status == s2.status && s1.outputs == s2.outputs && s1.results == s2.results && s1.records == s2.records
    ensures forall id | id in s1.records :: |s1.records[id].attempts| <= MAX_STEP_RETRIES + 1
  {
    CompleteRun(c, s1);
    CompleteRun(c, s2);
    SameStop(c, s1, s2);
    forall id | id in s1.records ensures |s1.records[id].attempts| <= MAX_STEP_RETRIES + 1 {
      RecordIsBounded(c, s1.k, if s1.k < |c.layers| then |c.layers[s1.k]| else 0, id);
    }
  }

  lemma CompleteRun(c: Config, s: State)
    requires DistinctIds(c.layers) && LocalRendering(c.w) && Deterministic(c) && NoSiblingMentions(c)
    requires Reachable(c, s) && s.status.Halted? && !s.cancelled
    ensures Complete(c, s)
  {
    var states, events :| IsRun(c, states, events) && states[|events|] == s;
    RunsMatch(c, states, events);
  }

  lemma {:induction false} RecordIsBounded(c: Config, k: nat, n: nat, id: string)
    requires k <= |c.layers| && (if k < |c.layers| then n <= |c.layers[k]| else n == 0)
    requires id in Reference(c, k, n).records
    ensures |Reference(c, k, n).records[id].attempts| <= MAX_STEP_RETRIES + 1
    decreases k, n
  {
    if n > 0 {
      var step := c.layers[k][n - 1];
      if step.id == id {
        RetryIsBounded(c.w, step, Reference(c, k, 0).outputs, Never, Loop(0, step.args, 0));
      } else {
        RecordIsBounded(c, k, n - 1, id);
      }
    } else if k > 0 {
      RecordIsBounded(c, k - 1, |c.layers[k - 1]|, id);
    }
  }

  /** Arguments as written that mention no step of their own layer are enough when no repair is ever suggested. */
  lemma PlainArgumentsSuffice(c: Config)
    requires forall step, rendered :: c.w.tool(step, rendered).fixSuggestion == ""
    requires forall k, i, id | 0 <= k < |c.layers| && 0 <= i < |c.layers[k]| && id in Mentions(c.layers[k][i].args) ::
               !Sibling(c, k, id)
    ensures NoSiblingMentions(c)
  {
    forall k, i | 0 <= k < |c.layers| && 0 <= i < |c.layers[k]| ensures MentionsNoSibling(c, k, ReferenceRun(c, k, i)) {
      var step := c.layers[k][i];
      SameArguments(c.w, step, Reference(c, k, 0).outputs, Loop(0, step.args, 0));
    }
  }

  lemma {:induction false} SameArguments(w: World, step: PlanStep, snap: Outputs, l: Loop)
    requires forall st, rendered :: w.tool(st, rendered).fixSuggestion == ""
    ensures forall a <- RunFrom(w, step, snap, Never, l).attempts :: a.raw == l.args
    decreases MAX_STEP_RETRIES - l.attempt
  {
    var it := Iterate(w, step, snap, Never, l);
    if it.Again? {
      assert it.tried.raw == l.args && it.next.args == l.args;
      SameArguments(w, step, snap, it.next);
      var rest := RunFrom(w, step, snap, Never, it.next);
      forall a <- Log(it.tried, rest).attempts ensures a.raw == l.args {}
    }
  }
}
