/** No layer of `ExecuteDAG` gets stuck and every run ends. */
module PlanProgress {
  import opened PlanDag
  import opened StepRetry
  import opened PlanExecution

  /** Executing a step always returns something. */
  ghost predicate ToolsReturn(c: Config) {
    forall step, rendered :: Returns(c, step, rendered)
  }

  ghost predicate Returns(c: Config, step: PlanStep, rendered: string) {
    exists res :: c.may(step, rendered, res)
  }

  lemma {:induction false} NoHolders(phases: seq<Phase>)
    requires forall p <- phases :: !HoldsSlot(p)
    ensures Holders(phases) == 0
  {
    if phases != [] { NoHolders(phases[..|phases| - 1]); }
  }

  function GoroutineEvent(p: Phase, i: nat, res: StepResult): (e: Event)
    requires !p.Waiting? && !p.Released?
    ensures IsGoroutineEvent(e) && e.i == i
  {
    match p
    case Holding => Snapshot(i)
    case Trying(_, _, _) => Try(i, res)
    case Pausing(_, _, _, _) => Resume(i)
    case Finished(_, _) => Publish(i)
    case Published(_, _) => Record(i)
    case _ => Release(i)
  }

  /** Every state that has not halted has an enabled event other than cancellation. */
  lemma NeverStuck(c: Config, s: State) returns (e: Event)
    requires Safe(c, s) && c.maxParallel > 0 && ToolsReturn(c) && !s.status.Halted?
    ensures Enabled(c, s, e) && !e.Cancel?
  {
    if s.status.Between? {
      e := if s.k == |c.layers| then FinishPlan else if s.cancelled then StopEarly else OpenLayer;
    } else if i :| 0 <= i < |s.phases| && HoldsSlot(s.phases[i]) {
      var step, p := c.layers[s.k][i], s.phases[i];
      var res: StepResult := Cancelled(step);
      if p.Trying? {
        assert Returns(c, step, c.w.render(p.loop.args, p.snap));
        var r :| c.may(step, c.w.render(p.loop.args, p.snap), r);
        res := r;
      }
      e := GoroutineEvent(p, i, res);
    } else if i :| 0 <= i < |s.phases| && s.phases[i].Waiting? {
      NoHolders(s.phases);
      e := Acquire(i);
    } else {
      e := CloseLayer;
    }
  }

  /** Events a goroutine still has to make before it returns, at most. */
  function PhaseWork(p: Phase): nat {
    match p
    case Waiting => 12
    case Holding => 11
    case Trying(_, _, l) => 4 + 2 * AttemptsLeft(l)
    case Pausing(_, _, l, _) => 5 + 2 * AttemptsLeft(l)
    case Finished(_, _) => 3
    case Published(_, _) => 2
    case Recorded(_, _) => 1
    case Released(_, _) => 0
  }

  function AttemptsLeft(l: Loop): nat {
    if l.attempt <= MAX_STEP_RETRIES then MAX_STEP_RETRIES + 1 - l.attempt else 0
  }

  function PhasesWork(phases: seq<Phase>): nat {
    if phases == [] then 0 else PhasesWork(phases[..|phases| - 1]) + PhaseWork(phases[|phases| - 1])
  }

  function WorkAhead(layers: seq<seq<PlanStep>>, k: nat): nat
    decreases |layers| - k
  {
    if k >= |layers| then 0 else 3 + 12 * |layers[k]| + WorkAhead(layers, k + 1)
  }

  /** A bound on the number of events still to come. */
  function Work(c: Config, s: State): nat {
    (if s.cancelled then 0 else 1) +
    match s.status
    case Halted(_) => 0
    case Between => 1 + WorkAhead(c.layers, s.k)
    case InLayer => 2 + PhasesWork(s.phases) + WorkAhead(c.layers, s.k + 1)
  }

  lemma {:induction false} WorkUpdate(phases: seq<Phase>, i: nat, p: Phase)
    requires i < |phases|
    ensures PhasesWork(phases[i := p]) == PhasesWork(phases) - PhaseWork(phases[i]) + PhaseWork(p)
  {
    var n := |phases| - 1;
    if i == n {
      assert phases[i := p][..n] == phases[..n];
    } else {
      WorkUpdate(phases[..n], i, p);
      assert phases[i := p][..n] == phases[..n][i := p];
    }
  }

  lemma {:induction false} WorkOfWaiting(n: nat)
    ensures PhasesWork(seq(n, i => Waiting)) == 12 * n
  {
    if n > 0 {
      WorkOfWaiting(n - 1);
      assert seq(n, i => Waiting)[..n - 1] == seq(n - 1, i => Waiting);
    }
  }

  lemma PhaseUsesWork(c: Config, s: State, step: PlanStep, p: Phase, e: Event)
    requires IsGoroutineEvent(e) && PhaseEnabled(c, s, step, p, e)
    ensures PhaseWork(PhaseAfter(c, s, step, p, e)) < PhaseWork(p)
  {}

  lemma GoroutineUsesWork(c: Config, s: State, e: Event)
    requires Shape(c, s) && Enabled(c, s, e) && IsGoroutineEvent(e)
    ensures Work(c, Apply(c, s, e)) < Work(c, s)
  {
    var step, p := c.layers[s.k][e.i], s.phases[e.i];
    PhaseUsesWork(c, s, step, p, e);
    WorkUpdate(s.phases, e.i, PhaseAfter(c, s, step, p, e));
    GoroutineChanges(c, s, e);
  }

  lemma GoroutineChanges(c: Config, s: State, e: Event)
    requires Shape(c, s) && Enabled(c, s, e) && IsGoroutineEvent(e)
    ensures var s' := Apply(c, s, e);
      && s'.k == s.k && s'.cancelled == s.cancelled && s'.status == s.status
      && s'.phases == s.phases[e.i := PhaseAfter(c, s, c.layers[s.k][e.i], s.phases[e.i], e)]
  {}

  /** Every event uses up work. */
  lemma EventsUseWork(c: Config, s: State, e: Event)
    requires Shape(c, s) && Enabled(c, s, e)
    requires !s.status.Halted?
    ensures Work(c, Apply(c, s, e)) < Work(c, s)
  {
    if IsGoroutineEvent(e) {
      GoroutineUsesWork(c, s, e);
    } else if e.OpenLayer? {
      WorkOfWaiting(|c.layers[s.k]|);
    }
  }

  lemma {:induction false} RunsAreBounded(c: Config, states: seq<State>, events: seq<Event>)
    requires DistinctIds(c.layers) && IsRun(c, states, events)
    ensures |events| + Work(c, states[|events|]) <= Work(c, INITIAL)
  {
    if events != [] {
      var n := |events| - 1;
      assert IsRun(c, states[..n + 1], events[..n]);
      RunsAreBounded(c, states[..n + 1], events[..n]);
      RunsAreSafe(c, states[..n + 1], events[..n]);
      EventsUseWork(c, states[n], events[n]);
    }
  }

  /** Every run has a bounded number of events, and a run that cannot go on without a cancellation has halted:
      no layer is ever stuck, whatever the schedule. */
  lemma EveryRunEnds(c: Config, states: seq<State>, events: seq<Event>)
    requires DistinctIds(c.layers) && IsRun(c, states, events)
    requires c.maxParallel > 0 && ToolsReturn(c)
    ensures |events| <= Work(c, INITIAL)
    ensures (forall e | Enabled(c, states[|events|], e) :: e.Cancel?) ==> states[|events|].status.Halted?
  {
    RunsAreBounded(c, states, events);
    RunsAreSafe(c, states, events);
    if !states[|events|].status.Halted? {
      var e := NeverStuck(c, states[|events|]);
    }
  }
}
