/** `ExecuteDAG` as a transition system: one goroutine per step of the current layer, a semaphore, a layer
    barrier and shared outputs. Every event is one atomic step of one goroutine or of the scheduling loop. */
module PlanExecution {
  import opened Options
  import opened DependencyGraph
  import opened PlanDag
  import opened Rendering
  import opened StepRetry

  /** A goroutine, from its start to its return. `snap` is its private copy of the outputs. */
  datatype Phase =
    | Waiting                                                              // blocked on the semaphore
    | Holding                                                              // owns a slot, no snapshot yet
    | Trying(snap: Outputs, log: seq<Attempt>, loop: Loop)                 // about to run an attempt
    | Pausing(snap: Outputs, log: seq<Attempt>, loop: Loop, held: StepResult) // in the pause before `loop`
    | Finished(snap: Outputs, run: StepRun)                                // has a result
    | Published(snap: Outputs, run: StepRun)                               // output shared if the result is OK
    | Recorded(snap: Outputs, run: StepRun)                                // plan step updated
    | Released(snap: Outputs, run: StepRun)                                // slot returned, goroutine done

  datatype Status = Between | InLayer | Halted(failed: Option<string>)

  datatype State = State(
    k: nat, phases: seq<Phase>, sem: nat, outputs: Outputs, records: map<string, StepRun>,
    results: seq<StepResult>, cancelled: bool, status: Status)

  /** `may(step, rendered, res)`: running the step on these arguments may return `res`. */
  datatype Config = Config(
    layers: seq<seq<PlanStep>>, maxParallel: nat, w: World, may: (PlanStep, string, StepResult) -> bool)

  datatype Event =
    | Cancel | OpenLayer | StopEarly | FinishPlan | CloseLayer
    | Acquire(i: nat) | Snapshot(i: nat) | Try(i: nat, res: StepResult) | Abort(i: nat)
    | Resume(i: nat) | AbortPause(i: nat) | Publish(i: nat) | Record(i: nat) | Release(i: nat)

  const INITIAL := State(0, [], 0, map[], map[], [], false, Between)

  // ---------- Transitions ----------

  predicate IsGoroutineEvent(e: Event) {
    !e.Cancel? && !e.OpenLayer? && !e.StopEarly? && !e.FinishPlan? && !e.CloseLayer?
  }

  predicate PhaseEnabled(c: Config, s: State, step: PlanStep, p: Phase, e: Event)
    requires IsGoroutineEvent(e)
  {
    match e
    case Acquire(_) => p.Waiting? && s.sem < c.maxParallel
    case Snapshot(_) => p.Holding?
    case Try(_, res) => p.Trying? && c.may(step, c.w.render(p.loop.args, p.snap), res)
    case Abort(_) => p.Trying? && s.cancelled
    case Resume(_) => p.Pausing?
    case AbortPause(_) => p.Pausing? && s.cancelled
    case Publish(_) => p.Finished?
    case Record(_) => p.Published?
    case Release(_) => p.Recorded?
  }

  function AfterTry(w: World, p: Phase, res: StepResult): Phase
    requires p.Trying?
  {
    var l, log := p.loop, p.log + [Attempt(p.loop.args, w.render(p.loop.args, p.snap), res)];
    match Decide(w.classify, w.repair, l.attempt, l.args, l.fixes, res)
    case Stop(final) => Finished(p.snap, StepRun(log, final))
    case Pause(held) => Pausing(p.snap, log, Loop(l.attempt + 1, l.args, l.fixes), held)
    case Repair(newArgs) => Trying(p.snap, log, Loop(l.attempt + 1, newArgs, l.fixes + 1))
  }

  function PhaseAfter(c: Config, s: State, step: PlanStep, p: Phase, e: Event): Phase
    requires IsGoroutineEvent(e) && PhaseEnabled(c, s, step, p, e)
  {
    match e
    case Acquire(_) => Holding
    case Snapshot(_) => Trying(s.outputs, [], Loop(0, step.args, 0))
    case Try(_, res) => AfterTry(c.w, p, res)
    case Abort(_) => Finished(p.snap, StepRun(p.log, Cancelled(step)))
    case Resume(_) => Trying(p.snap, p.log, p.loop)
    case AbortPause(_) => Finished(p.snap, StepRun(p.log, p.held.(fatal := true)))
    case Publish(_) => Published(p.snap, p.run)
    case Record(_) => Recorded(p.snap, p.run)
    case Release(_) => Released(p.snap, p.run)
  }

  predicate Enabled(c: Config, s: State, e: Event) {
    match e
    case Cancel => !s.cancelled && !s.status.Halted?
    case OpenLayer => s.status.Between? && !s.cancelled && s.k < |c.layers|
    case StopEarly => s.status.Between? && s.cancelled && s.k < |c.layers|
    case FinishPlan => s.status.Between? && s.k == |c.layers|
    case CloseLayer => s.status.InLayer? && s.k < |c.layers| && forall p <- s.phases :: p.Released?
    case _ =>
      && s.status.InLayer? && s.k < |c.layers| && e.i < |s.phases| && e.i < |c.layers[s.k]|
      && PhaseEnabled(c, s, c.layers[s.k][e.i], s.phases[e.i], e)
  }

  /** The first failed result of a layer decides the error of the plan. */
  function FirstFailure(results: seq<StepResult>): Option<string> {
    if results == [] then None
    else if !results[0].ok then Some(results[0].stepId)
    else FirstFailure(results[1..])
  }

  function LayerResults(phases: seq<Phase>): seq<StepResult>
    requires forall p <- phases :: p.Released?
  {
    seq(|phases|, i requires 0 <= i < |phases| => phases[i].run.final)
  }

  function Apply(c: Config, s: State, e: Event): State
    requires Enabled(c, s, e)
  {
    match e
    case Cancel => s.(cancelled := true)
    case OpenLayer => s.(status := InLayer, phases := seq(|c.layers[s.k]|, i => Waiting), sem := 0)
    case StopEarly => s.(status := Halted(None))
    case FinishPlan => s.(status := Halted(None))
    case CloseLayer =>
      var layerResults := LayerResults(s.phases);
      var s1 := s.(phases := [], results := s.results + layerResults);
      var failed := FirstFailure(layerResults);
      if failed.None? then s1.(k := s.k + 1, status := Between) else s1.(status := Halted(failed))
    case _ => ApplyGoroutine(c, s, e)
  }

  function ApplyGoroutine(c: Config, s: State, e: Event): State
    requires IsGoroutineEvent(e) && Enabled(c, s, e)
  {
    var step, p := c.layers[s.k][e.i], s.phases[e.i];
    var s1 := s.(phases := s.phases[e.i := PhaseAfter(c, s, step, p, e)]);
    if e.Acquire? then s1.(sem := s.sem + 1)
    else if e.Release? then s1.(sem := if s.sem > 0 then s.sem - 1 else 0)
    else if e.Publish? && p.run.final.ok then s1.(outputs := s.outputs[step.id := p.run.final.output])
    else if e.Record? then s1.(records := s.records[step.id := p.run])
    else s1
  }

  /** A run from the initial state: each state follows from the one before by an enabled event. */
  ghost predicate IsRun(c: Config, states: seq<State>, events: seq<Event>) {
    && |states| == |events| + 1 && states[0] == INITIAL
    && forall n | 0 <= n < |events| ::
         Enabled(c, states[n], events[n]) && states[n + 1] == Apply(c, states[n], events[n])
  }

  ghost predicate Reachable(c: Config, s: State) {
    exists states, events :: IsRun(c, states, events) && states[|events|] == s
  }

  // ---------- Safety ----------

  ghost predicate DistinctIds(layers: seq<seq<PlanStep>>) {
    forall k, i, l, j | 0 <= k < |layers| && 0 <= i < |layers[k]| && 0 <= l < |layers| && 0 <= j < |layers[l]| ::
      layers[k][i].id == layers[l][j].id ==> k == l && i == j
  }

  /** The identifiers of the first `k` layers. */
  ghost predicate Earlier(layers: seq<seq<PlanStep>>, k: nat, id: string) {
    exists j, i :: 0 <= j < k && j < |layers| && 0 <= i < |layers[j]| && layers[j][i].id == id
  }

  predicate HoldsSlot(p: Phase) {
    !p.Waiting? && !p.Released?
  }

  function Holders(phases: seq<Phase>): nat {
    if phases == [] then 0 else Holders(phases[..|phases| - 1]) + if HoldsSlot(phases[|phases| - 1]) then 1 else 0
  }

  predicate Started(p: Phase) {
    !p.Waiting? && !p.Holding?
  }

  /** A step is done well when its recorded run succeeded and its output is shared. */
  ghost predicate DoneWell(s: State, id: string) {
    && id in s.records && s.records[id].final.ok
    && id in s.outputs && s.outputs[id] == s.records[id].final.output
  }

  ghost predicate Shape(c: Config, s: State) {
    && s.k <= |c.layers|
    && (s.status.InLayer? ==> s.k < |c.layers| && |s.phases| == |c.layers[s.k]|)
    && (!s.status.InLayer? ==> s.phases == [])
  }

  ghost predicate SlotsCounted(c: Config, s: State) {
    s.status.InLayer? ==> s.sem == Holders(s.phases) && s.sem <= c.maxParallel
  }

  ghost predicate EarlierDone(c: Config, s: State) {
    forall id | Earlier(c.layers, s.k, id) :: DoneWell(s, id)
  }

  /** The snapshot of a started goroutine has the output of every step of every earlier layer. */
  ghost predicate SnapshotComplete(c: Config, s: State, p: Phase) {
    Started(p) ==> forall id | Earlier(c.layers, s.k, id) ::
      id in p.snap && id in s.outputs && p.snap[id] == s.outputs[id]
  }

  /** What a goroutine has already made visible. */
  ghost predicate Visible(s: State, step: PlanStep, p: Phase) {
    && (p.Published? || p.Recorded? || p.Released? ==> p.run.final.ok ==>
          step.id in s.outputs && s.outputs[step.id] == p.run.final.output)
    && (p.Recorded? || p.Released? ==> step.id in s.records && s.records[step.id] == p.run)
  }

  ghost predicate GoroutineOk(c: Config, s: State, i: nat)
    requires s.k < |c.layers| && i < |s.phases| && i < |c.layers[s.k]|
  {
    SnapshotComplete(c, s, s.phases[i]) && Visible(s, c.layers[s.k][i], s.phases[i])
  }

  ghost predicate Safe(c: Config, s: State) {
    && Shape(c, s) && SlotsCounted(c, s) && EarlierDone(c, s)
    && (s.status.InLayer? ==> forall i | 0 <= i < |s.phases| :: GoroutineOk(c, s, i))
  }

  lemma {:induction false} HoldersUpdate(phases: seq<Phase>, i: nat, p: Phase)
    requires i < |phases|
    ensures Holders(phases[i := p]) == Holders(phases)
              - (if HoldsSlot(phases[i]) then 1 else 0) + (if HoldsSlot(p) then 1 else 0)
  {
    var n := |phases| - 1;
    if i == n {
      assert phases[i := p][..n] == phases[..n];
    } else {
      HoldersUpdate(phases[..n], i, p);
      assert phases[i := p][..n] == phases[..n][i := p];
    }
  }

  lemma {:induction false} HoldersOfWaiting(n: nat)
    ensures Holders(seq(n, i => Waiting)) == 0
  {
    if n > 0 {
      HoldersOfWaiting(n - 1);
      assert seq(n, i => Waiting)[..n - 1] == seq(n - 1, i => Waiting);
    }
  }

  lemma OwnIdIsNew(c: Config, s: State, i: nat)
    requires DistinctIds(c.layers) && s.k < |c.layers| && i < |c.layers[s.k]|
    ensures !Earlier(c.layers, s.k, c.layers[s.k][i].id)
  {}

  lemma GoroutineKeepsSlots(c: Config, s: State, e: Event)
    requires Safe(c, s) && Enabled(c, s, e) && IsGoroutineEvent(e)
    ensures Shape(c, Apply(c, s, e)) && SlotsCounted(c, Apply(c, s, e))
  {
    hide GoroutineOk, EarlierDone, Decide, Holders;
    HoldersUpdate(s.phases, e.i, PhaseAfter(c, s, c.layers[s.k][e.i], s.phases[e.i], e));
  }

  /** `s2` differs from `s1` at most in goroutine `i` and in what is stored under its step's identifier. */
  ghost predicate OnlyGoroutine(c: Config, s1: State, s2: State, i: nat)
    requires s1.k < |c.layers| && i < |c.layers[s1.k]|
  {
    var own := c.layers[s1.k][i].id;
    && s2.k == s1.k && s2.status == s1.status && |s2.phases| == |s1.phases|
    && (forall j | 0 <= j < |s1.phases| && j != i :: s2.phases[j] == s1.phases[j])
    && (forall id | id != own ::
         (id in s2.outputs <==> id in s1.outputs) && (id in s1.outputs ==> s2.outputs[id] == s1.outputs[id]))
    && (forall id | id != own ::
         (id in s2.records <==> id in s1.records) && (id in s1.records ==> s2.records[id] == s1.records[id]))
  }

  lemma GoroutineEffect(c: Config, s: State, e: Event)
    requires DistinctIds(c.layers) && Safe(c, s) && Enabled(c, s, e) && IsGoroutineEvent(e)
    ensures OnlyGoroutine(c, s, Apply(c, s, e), e.i)
    ensures Visible(Apply(c, s, e), c.layers[s.k][e.i], Apply(c, s, e).phases[e.i])
    ensures var p := Apply(c, s, e).phases[e.i];
            Started(p) ==> p.snap == if Started(s.phases[e.i]) then s.phases[e.i].snap else s.outputs
  {
    assert GoroutineOk(c, s, e.i);
    GoroutineFrame(c, s, e);
    GoroutineShows(c, s, e);
    GoroutineSnap(c, s, e);
  }

  lemma GoroutineFrame(c: Config, s: State, e: Event)
    requires Enabled(c, s, e) && IsGoroutineEvent(e)
    ensures OnlyGoroutine(c, s, Apply(c, s, e), e.i)
  {
    hide PhaseAfter;
  }

  lemma GoroutineShows(c: Config, s: State, e: Event)
    requires Enabled(c, s, e) && IsGoroutineEvent(e) && Visible(s, c.layers[s.k][e.i], s.phases[e.i])
    ensures Visible(Apply(c, s, e), c.layers[s.k][e.i], Apply(c, s, e).phases[e.i])
  {}

  lemma GoroutineSnap(c: Config, s: State, e: Event)
    requires Enabled(c, s, e) && IsGoroutineEvent(e)
    ensures var p := Apply(c, s, e).phases[e.i];
            Started(p) ==> p.snap == if Started(s.phases[e.i]) then s.phases[e.i].snap else s.outputs
  {
    hide Decide;
  }

  lemma FrameKeepsData(c: Config, s: State, s': State, i: nat)
    requires DistinctIds(c.layers) && Safe(c, s) && s.status.InLayer? && i < |s.phases|
    requires OnlyGoroutine(c, s, s', i)
    ensures EarlierDone(c, s')
    ensures forall j | 0 <= j < |s.phases| && j != i :: GoroutineOk(c, s', j)
    ensures forall p | SnapshotComplete(c, s, p) :: SnapshotComplete(c, s', p)
  {
    var own := c.layers[s.k][i].id;
    OwnIdIsNew(c, s, i);
    forall id | Earlier(c.layers, s.k, id)
      ensures DoneWell(s', id) && id in s'.outputs && s'.outputs[id] == s.outputs[id]
    {
      assert id != own && DoneWell(s, id);
    }
    forall j | 0 <= j < |s.phases| && j != i ensures GoroutineOk(c, s', j) {
      assert GoroutineOk(c, s, j);
      assert c.layers[s.k][j].id != own;
    }
  }

  lemma GoroutineKeepsSafe(c: Config, s: State, e: Event)
    requires DistinctIds(c.layers) && Safe(c, s) && Enabled(c, s, e) && IsGoroutineEvent(e)
    ensures Safe(c, Apply(c, s, e))
  {
    var s' := Apply(c, s, e);
    GoroutineKeepsSlots(c, s, e);
    GoroutineEffect(c, s, e);
    FrameKeepsData(c, s, s', e.i);
    assert GoroutineOk(c, s', e.i) by {
      assert GoroutineOk(c, s, e.i);
      forall id | Earlier(c.layers, s.k, id) ensures id in s.outputs { assert DoneWell(s, id); }
      assert SnapshotComplete(c, s, s'.phases[e.i]);
    }
    forall j | 0 <= j < |s'.phases| ensures GoroutineOk(c, s', j) {}
  }

  lemma {:induction false} NoFailureAllOk(results: seq<StepResult>, i: nat)
    requires FirstFailure(results).None? && i < |results|
    ensures results[i].ok
  {
    if i > 0 { NoFailureAllOk(results[1..], i - 1); }
  }

  lemma CloseKeepsSafe(c: Config, s: State)
    requires DistinctIds(c.layers) && Safe(c, s) && Enabled(c, s, CloseLayer)
    ensures Safe(c, Apply(c, s, CloseLayer))
  {
    var s' := Apply(c, s, CloseLayer);
    var results := LayerResults(s.phases);
    if FirstFailure(results).None? {
      forall id | Earlier(c.layers, s.k + 1, id) ensures DoneWell(s', id) {
        if Earlier(c.layers, s.k, id) {
          assert DoneWell(s, id);
        } else {
          var i :| 0 <= i < |c.layers[s.k]| && c.layers[s.k][i].id == id;
          NoFailureAllOk(results, i);
          assert GoroutineOk(c, s, i) && s.phases[i] in s.phases;
        }
      }
    } else {
      forall id | Earlier(c.layers, s.k, id) ensures DoneWell(s', id) { assert DoneWell(s, id); }
    }
  }

  lemma LoopKeepsSafe(c: Config, s: State, e: Event)
    requires Safe(c, s) && Enabled(c, s, e) && !IsGoroutineEvent(e) && !e.CloseLayer?
    ensures Safe(c, Apply(c, s, e))
  {
    var s' := Apply(c, s, e);
    forall id | Earlier(c.layers, s.k, id) ensures DoneWell(s', id) { assert DoneWell(s, id); }
    if e.OpenLayer? {
      HoldersOfWaiting(|c.layers[s.k]|);
    } else if s.status.InLayer? {
      forall i | 0 <= i < |s.phases| ensures GoroutineOk(c, s', i) { assert GoroutineOk(c, s, i); }
    }
  }

  lemma {:induction false} RunsAreSafe(c: Config, states: seq<State>, events: seq<Event>)
    requires DistinctIds(c.layers) && IsRun(c, states, events)
    ensures Safe(c, states[|events|])
  {
    if events == [] {
    } else {
      var n := |events| - 1;
      assert IsRun(c, states[..n + 1], events[..n]);
      RunsAreSafe(c, states[..n + 1], events[..n]);
      var s, e := states[n], events[n];
      if IsGoroutineEvent(e) { GoroutineKeepsSafe(c, s, e); }
      else if e.CloseLayer? { CloseKeepsSafe(c, s); }
      else { LoopKeepsSafe(c, s, e); }
    }
  }

  /** The layers are those of an accepted plan. */
  ghost predicate LayersOf(steps: seq<PlanStep>, c: Config) {
    NormalIds(steps) && ReferencesExist(steps) && PartitionByDepth(steps, c.layers)
  }

  lemma LayersOfDistinct(steps: seq<PlanStep>, c: Config)
    requires LayersOf(steps, c)
    ensures DistinctIds(c.layers)
  {}

  /** A dependency lies in an earlier layer. */
  lemma DependencyIsEarlier(steps: seq<PlanStep>, c: Config, k: nat, i: nat, d: string)
    requires LayersOf(steps, c) && k < |c.layers| && i < |c.layers[k]|
    requires d in c.layers[k][i].dependsOn && d != ""
    ensures Earlier(c.layers, k, d)
  {
    var st := c.layers[k][i];
    DepthInPlan(steps, c, k, i);
    ReferenceIsEdge(steps, st, d);
    var j, m := PlaceOf(steps, c, d);
    DepthInPlan(steps, c, j, m);
    DependencyIsShallower(PlanGraph(steps), d, st.id, j, k);
  }

  lemma DepthInPlan(steps: seq<PlanStep>, c: Config, k: nat, i: nat)
    requires LayersOf(steps, c) && k < |c.layers| && i < |c.layers[k]|
    ensures c.layers[k][i] in steps && LongestChain(PlanGraph(steps), c.layers[k][i].id, k)
  {}

  lemma ReferenceIsEdge(steps: seq<PlanStep>, st: PlanStep, d: string)
    requires ReferencesExist(steps) && st in steps && d in st.dependsOn && d != ""
    ensures WellFormed(PlanGraph(steps)) && (d, st.id) in PlanGraph(steps).edges && d in Ids(steps)
  {}

  lemma PlaceOf(steps: seq<PlanStep>, c: Config, id: string) returns (k: nat, i: nat)
    requires LayersOf(steps, c) && id in Ids(steps)
    ensures k < |c.layers| && i < |c.layers[k]| && c.layers[k][i].id == id
  {
    var st :| st in steps && st.id == id;
    assert InSomeLayer(c.layers, st);
    k :| 0 <= k < |c.layers| && st in c.layers[k];
    i :| 0 <= i < |c.layers[k]| && c.layers[k][i] == st;
  }

  /** In every interleaving: once a step has started, each of its dependencies has finished OK and its snapshot
      holds the output of each of them; and at most `maxParallel` steps of the layer are running. */
  lemma StartsAfterDependencies(steps: seq<PlanStep>, c: Config, s: State, i: nat)
    requires LayersOf(steps, c) && Reachable(c, s) && s.status.InLayer? && i < |s.phases|
    ensures s.k < |c.layers| && i < |c.layers[s.k]|
    ensures Started(s.phases[i]) ==> forall d | d in c.layers[s.k][i].dependsOn && d != "" ::
              DoneWell(s, d) && d in s.phases[i].snap && s.phases[i].snap[d] == s.records[d].final.output
    ensures Holders(s.phases) <= c.maxParallel
  {
    LayersOfDistinct(steps, c);
    var states, events :| IsRun(c, states, events) && states[|events|] == s;
    RunsAreSafe(c, states, events);
    assert GoroutineOk(c, s, i);
    if Started(s.phases[i]) {
      forall d | d in c.layers[s.k][i].dependsOn && d != ""
        ensures DoneWell(s, d) && d in s.phases[i].snap && s.phases[i].snap[d] == s.records[d].final.output
      {
        DependencyIsEarlier(steps, c, s.k, i, d);
      }
    }
  }
}
