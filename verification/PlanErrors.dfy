/** Which step a failing plan reports: the order of the sources is free, and with it that of every layer is given. */
module PlanErrors {
  import opened Options
  import opened GoStrings
  import opened Sequences
  import opened DependencyGraph
  import opened KahnLayering
  import opened LayerOrder
  import opened PlanDag
  import opened Rendering
  import opened StepRetry
  import opened PlanExecution
  import opened PlanConfluence
  import opened PlanProgress
  import opened PlanReordering

  // ---------- The layers of a plan ----------

  /** The place of a step in the plan. */
  function PlaceOfId(steps: seq<PlanStep>, id: string): nat {
    if steps == [] || steps[0].id == id then 0 else 1 + PlaceOfId(steps[1..], id)
  }

  function ListOf(steps: seq<PlanStep>): Rank<string> {
    id => PlaceOfId(steps, id)
  }

  lemma {:induction false} PlaceIs(steps: seq<PlanStep>, i: nat)
    requires NormalIds(steps) && i < |steps|
    ensures PlaceOfId(steps, steps[i].id) == i
  {
    if i > 0 {
      assert steps[0].id != steps[i].id && steps[1..][i - 1] == steps[i];
      PlaceIs(steps[1..], i - 1);
    }
  }

  lemma ListIsInjective(steps: seq<PlanStep>)
    requires NormalIds(steps)
    ensures Injective(ListOf(steps), Ids(steps))
  {
    forall v, w | v in Ids(steps) && w in Ids(steps) && PlaceOfId(steps, v) == PlaceOfId(steps, w) ensures v == w {
      var i :| 0 <= i < |steps| && steps[i].id == v;
      var j :| 0 <= j < |steps| && steps[j].id == w;
      PlaceIs(steps, i);
      PlaceIs(steps, j);
    }
  }

  /** Edges are listed step by step. */
  lemma {:induction false} EdgesAreListed(steps: seq<PlanStep>, n: nat)
    requires NormalIds(steps) && n <= |steps|
    ensures ListedByTarget(ListOf(steps), PlanEdges(steps, n))
    ensures forall e <- PlanEdges(steps, n) :: PlaceOfId(steps, e.1) < n
  {
    hide NormalIds, ListedByTarget, StepEdges;
    if n > 0 {
      var st := steps[n - 1];
      EdgesAreListed(steps, n - 1);
      PlaceIs(steps, n - 1);
      EdgesToStep(st, |st.dependsOn|);
      ListedMore(ListOf(steps), PlanEdges(steps, n - 1), StepEdges(st, |st.dependsOn|), n - 1);
    } else {
      NoneListed(ListOf(steps));
    }
  }

  lemma NoneListed(rank: Rank<string>)
    ensures ListedByTarget(rank, [])
  {}

  lemma EdgesToStep(st: PlanStep, n: nat)
    requires n <= |st.dependsOn|
    ensures forall e <- StepEdges(st, n) :: e.1 == st.id
  {
    forall e <- StepEdges(st, n) ensures e.1 == st.id { StepEdgesMean(st, n, e.0, e.1); }
  }

  lemma ListedMore(rank: Rank<string>, edges: Edges<string>, more: Edges<string>, n: int)
    requires ListedByTarget(rank, edges) && (forall e <- edges :: rank(e.1) < n) && forall e <- more :: rank(e.1) == n
    ensures ListedByTarget(rank, edges + more)
  {
    var all := edges + more;
    forall i, j | 0 <= i < j < |all| ensures rank(all[i].1) <= rank(all[j].1) {
      if i < |edges| { assert edges[i] in edges; } else { assert more[i - |edges|] in more; }
      if j >= |edges| { assert more[j - |edges|] in more; }
    }
  }

  /** The identifiers of each layer. */
  ghost function IdStages(layers: seq<seq<PlanStep>>): seq<set<string>> {
    seq(|layers|, k requires 0 <= k < |layers| => set st <- layers[k] :: st.id)
  }

  /** The layers under identifiers: those that the order of the sources gives, each sorted by the one before. */
  ghost predicate IdLayers(steps: seq<PlanStep>, layers: seq<seq<PlanStep>>, ids: seq<seq<string>>) {
    && Ordered(PlanGraph(steps), ListOf(steps), ids) && |ids| == |layers|
    && (forall k | 0 <= k < |ids| :: |ids[k]| == |layers[k]|)
    && (forall k, i | 0 <= k < |ids| && 0 <= i < |ids[k]| :: layers[k][i].id == ids[k][i])
  }

  lemma BuiltIsLayering(steps: seq<PlanStep>, layers: seq<seq<PlanStep>>, sources: seq<string>)
    requires NormalIds(steps) && LayersFrom(steps, sources, layers)
    ensures ReferencesExist(steps) && !Cyclic(PlanGraph(steps)) && PartitionByDepth(steps, layers)
    ensures IdLayers(steps, layers, PlanIds(steps, sources))
  {
    hide PartitionByDepth, Layering, IndexOf, PlanEdges, NormalIds;
    var ids := PlanIds(steps, sources);
    BuiltIff(steps, sources);
    PlanIdsAreMaximal(steps, sources);
    SourcesSort(steps, sources);
    IndexedSteps(steps);
    LayeredIsWithin(PlanGraph(steps), ids);
    forall k, i | 0 <= k < |ids| && 0 <= i < |ids[k]| ensures layers[k][i].id == ids[k][i] {
      InBefore(ids, k, i);
    }
  }

  lemma InBefore(ids: seq<seq<string>>, k: nat, i: nat)
    requires k < |ids| && i < |ids[k]|
    ensures ids[k][i] in Before(ids, |ids|)
  {
    BeforeHas(ids, k, |ids|, ids[k][i]);
  }

  lemma SourcesSort(steps: seq<PlanStep>, sources: seq<string>)
    requires NormalIds(steps) && Linkable(steps) && Frontier(sources, PlanDegrees(steps), {})
    ensures Follows(PlanGraph(steps), ListOf(steps), PlanIds(steps, sources))
  {
    hide Layering, IndexOf, PlanEdges, NormalIds, Frontier, Follows, ListOf, Injective, ListedByTarget;
    var edges, degrees := PlanEdges(steps, |steps|), PlanDegrees(steps);
    BuiltIff(steps, sources);
    EdgesAreListed(steps, |steps|);
    ListIsInjective(steps);
    assert degrees.Keys == Ids(steps);
    LayeringFollows(ListOf(steps), edges, degrees, sources, {});
  }

  // ---------- Every plan has a complete execution ----------

  /** From every uncancelled state of a run a complete execution can be reached. */
  lemma {:induction false} RunCompletes(c: Config, states: seq<State>, events: seq<Event>) returns (s: State)
    requires DistinctIds(c.layers) && IsRun(c, states, events) && !states[|events|].cancelled
    requires c.maxParallel > 0 && ToolsReturn(c)
    ensures Executed(c, s)
    decreases Work(c, states[|events|])
  {
    var last := states[|events|];
    if last.status.Halted? { return last; }
    RunsAreSafe(c, states, events);
    var e := NeverStuck(c, last);
    EventsUseWork(c, last, e);
    var next := Apply(c, last, e);
    RunExtends(c, states, events, e);
    NotCancelled(c, last, e);
    s := RunCompletes(c, states + [next], events + [e]);
  }

  lemma NotCancelled(c: Config, s: State, e: Event)
    requires Enabled(c, s, e) && !e.Cancel? && !s.cancelled
    ensures !Apply(c, s, e).cancelled
  {}

  lemma RunExtends(c: Config, states: seq<State>, events: seq<Event>, e: Event)
    requires IsRun(c, states, events) && Enabled(c, states[|events|], e)
    ensures IsRun(c, states + [Apply(c, states[|events|], e)], events + [e])
  {
    var all, es := states + [Apply(c, states[|events|], e)], events + [e];
    forall n | 0 <= n < |es| ensures Enabled(c, all[n], es[n]) && all[n + 1] == Apply(c, all[n], es[n]) {
      if n < |events| { assert Enabled(c, states[n], events[n]); }
    }
  }

  /** Every plan has a complete execution. */
  lemma ExecutionExists(c: Config) returns (s: State)
    requires DistinctIds(c.layers) && c.maxParallel > 0 && ToolsReturn(c)
    ensures Executed(c, s)
  {
    s := RunCompletes(c, [INITIAL], []);
  }

  lemma SameToolsReturn(c: Config, c2: Config)
    requires ToolsReturn(c) && c.may == c2.may
    ensures ToolsReturn(c2)
  {
    forall step, rendered ensures Returns(c2, step, rendered) { assert Returns(c, step, rendered); }
  }

  // ---------- Orders of the sources ----------

  /** Another execution of a plan: its own order of the sources and its own number of slots. */
  ghost predicate Anew(steps: seq<PlanStep>, c: Config, c2: Config) {
    c2.w == c.w && c2.may == c.may && Built(steps, c2.layers)
  }

  lemma {:induction false} ListSet(s: set<string>) returns (r: seq<string>)
    ensures NoDup(r) && Elements(r) == s
    decreases s
  {
    if s == {} {
      r := [];
    } else {
      var x :| x in s;
      var rest := ListSet(s - {x});
      NoDupAppend(rest, x);
      ElementsAppend(rest, x);
      r := rest + [x];
    }
  }

  lemma {:induction false} NoDupJoin(a: seq<string>, b: seq<string>)
    requires NoDup(a) && NoDup(b) && Elements(a) !! Elements(b)
    ensures NoDup(a + b) && Elements(a + b) == Elements(a) + Elements(b)
    decreases |b|
  {
    if b == [] {
      assert a + b == a && Elements(b) == {};
    } else {
      var n := |b| - 1;
      assert b == b[..n] + [b[n]];
      ElementsAppend(b[..n], b[n]);
      NoDupJoin(a, b[..n]);
      assert a + b == (a + b[..n]) + [b[n]];
      assert b[n] in Elements(b);
      NoDupAppend(a + b[..n], b[n]);
      ElementsAppend(a + b[..n], b[n]);
    }
  }

  /** The sources begin with those of `front`, and `d` is the last of these. */
  ghost predicate InFront(sources: seq<string>, front: set<string>, d: string) {
    && 0 < |front| <= |sources| && sources[|front| - 1] == d
    && forall i | 0 <= i < |sources| :: sources[i] in front <==> i < |front|
  }

  /** Such an order of the sources. */
  lemma ToFront(sources: seq<string>, front: set<string>, d: string) returns (r: seq<string>)
    requires NoDup(sources) && d in front && front <= Elements(sources)
    ensures NoDup(r) && Elements(r) == Elements(sources)
    ensures InFront(r, front, d)
  {
    hide NoDup, Elements, InFront;
    var a := ListToEnd(front, d);
    var b := ListSet(Elements(sources) - front);
    NoDupJoin(a, b);
    FrontIs(a, b, front, d);
    r := a + b;
  }

  lemma ListToEnd(front: set<string>, d: string) returns (a: seq<string>)
    requires d in front
    ensures NoDup(a) && Elements(a) == front && a != [] && a[|a| - 1] == d
  {
    var rest := ListSet(front - {d});
    assert d in rest ==> d in Elements(rest);
    NoDupAppend(rest, d);
    ElementsAppend(rest, d);
    a := rest + [d];
  }

  lemma FrontIs(a: seq<string>, b: seq<string>, front: set<string>, d: string)
    requires NoDup(a) && Elements(a) == front && Elements(b) !! front && a != [] && a[|a| - 1] == d
    ensures InFront(a + b, front, d)
  {
    NoDupSize(a);
    forall i | 0 <= i < |a + b| ensures (a + b)[i] in front <==> i < |a| {
      if i < |a| { assert a[i] in Elements(a); } else { assert b[i - |a|] in Elements(b); }
    }
  }

  lemma SameFrontier(a: seq<string>, b: seq<string>, degrees: map<string, int>)
    requires Frontier(a, degrees, {}) && NoDup(b) && Elements(a) == Elements(b)
    ensures Frontier(b, degrees, {})
  {
    forall v ensures v in a <==> v in b { assert v in Elements(a) <==> v in Elements(b); }
  }

  /** A sound plan can be layered from any order of its sources. */
  lemma AnyOrderIsBuilt(steps: seq<PlanStep>, layers: seq<seq<PlanStep>>, sources: seq<string>, other: seq<string>)
    returns (layers2: seq<seq<PlanStep>>)
    requires NormalIds(steps) && LayersFrom(steps, sources, layers)
    requires NoDup(other) && Elements(other) == Elements(sources)
    ensures LayersFrom(steps, other, layers2)
  {
    BuiltIff(steps, sources);
    SameFrontier(sources, other, PlanDegrees(steps));
    BuiltIff(steps, other);
    layers2 := StepLayers(IndexOf(steps, |steps|), PlanIds(steps, other));
  }

  lemma FirstIsSources(steps: seq<PlanStep>, sources: seq<string>)
    requires PlanIds(steps, sources) != []
    ensures PlanIds(steps, sources)[0] == sources
  {}

  // ---------- The first failure ----------

  /** The result of a step of layer `k` in a complete execution. */
  function ResultOf(c: Config, k: nat, st: PlanStep): StepResult
    requires k <= |c.layers|
  {
    ResultIn(c.w, Reference(c, k, 0).outputs)(st)
  }

  ghost predicate Fails(c: Config, k: nat, st: PlanStep)
    requires k < |c.layers|
  {
    st in c.layers[k] && !ResultOf(c, k, st).ok
  }

  lemma {:induction false} FirstFailureAt(results: seq<StepResult>) returns (i: nat)
    requires FirstFailure(results).Some?
    ensures i < |results| && !results[i].ok && (forall j | 0 <= j < i :: results[j].ok)
    ensures FirstFailure(results) == Some(results[i].stepId)
  {
    if !results[0].ok { return 0; }
    i := FirstFailureAt(results[1..]);
    i := i + 1;
    forall j | 0 <= j < i ensures results[j].ok {
      if j > 0 { assert results[j] == results[1..][j - 1]; }
    }
  }

  /** A failing execution reports the first step of its layer that fails. */
  lemma ReportedAt(c: Config, s: State) returns (i: nat)
    requires Complete(c, s) && s.status != Halted(None)
    ensures s.k < |c.layers| && i < |c.layers[s.k]| && Fails(c, s.k, c.layers[s.k][i])
    ensures s.status == Halted(Some(ResultOf(c, s.k, c.layers[s.k][i]).stepId))
    ensures forall j | 0 <= j < i :: !Fails(c, s.k, c.layers[s.k][j])
  {
    ResultsAreMapped(c, s.k);
    i := FirstFailureAt(ReferenceResults(c, s.k));
  }

  lemma SameFailures(c1: Config, c2: Config, k: nat, st: PlanStep)
    requires SamePlan(c1, c2) && k < |c1.layers|
    ensures ResultOf(c1, k, st) == ResultOf(c2, k, st) && (Fails(c1, k, st) <==> Fails(c2, k, st))
  {
    SameProducts(c1, c2, k);
    assert st in c1.layers[k] <==> st in multiset(c1.layers[k]);
    assert st in c2.layers[k] <==> st in multiset(c2.layers[k]);
  }

  lemma SameIdStages(c1: Config, c2: Config)
    requires SamePlan(c1, c2)
    ensures IdStages(c1.layers) == IdStages(c2.layers)
  {
    forall k | 0 <= k < |c1.layers| ensures IdStages(c1.layers)[k] == IdStages(c2.layers)[k] {
      assert forall st :: st in c1.layers[k] <==> st in multiset(c1.layers[k]);
      assert forall st :: st in c2.layers[k] <==> st in multiset(c2.layers[k]);
    }
  }

  lemma StagesOfIds(steps: seq<PlanStep>, layers: seq<seq<PlanStep>>, ids: seq<seq<string>>)
    requires IdLayers(steps, layers, ids)
    ensures Stages(ids) == IdStages(layers)
  {
    forall k | 0 <= k < |ids| ensures Stages(ids)[k] == IdStages(layers)[k] {
      forall v ensures v in Stages(ids)[k] <==> v in IdStages(layers)[k] {
        if v in Stages(ids)[k] {
          var i :| 0 <= i < |ids[k]| && ids[k][i] == v;
          assert layers[k][i] in layers[k];
        }
        if v in IdStages(layers)[k] {
          var st :| st in layers[k] && st.id == v;
          var i :| 0 <= i < |layers[k]| && layers[k][i] == st;
          assert ids[k][i] in ids[k];
        }
      }
    }
  }

  // ---------- The exact condition ----------

  /** The steps of the first layer from which a path through all layers leads to `t`. */
  ghost function RootsOf(steps: seq<PlanStep>, c: Config, k: nat, t: PlanStep): set<string>
    requires k < |c.layers|
  {
    Roots(PlanGraph(steps), IdStages(c.layers), k, t.id)
  }

  /** When `d` is the last root of `t`, some failing step with this name comes before `t`. */
  ghost predicate NamedAhead(steps: seq<PlanStep>, c: Config, k: nat, name: string, t: PlanStep, d: string)
    requires k < |c.layers|
  {
    exists st :: Fails(c, k, st) && ResultOf(c, k, st).stepId == name && StepAhead(steps, c, k, d, st, t)
  }

  ghost predicate StepAhead(steps: seq<PlanStep>, c: Config, k: nat, d: string, st: PlanStep, t: PlanStep)
    requires k < |c.layers|
  {
    Ahead(PlanGraph(steps), IdStages(c.layers), ListOf(steps), k, d, st.id, t.id)
  }

  /** No order of the sources lets a failing step with another name come first. */
  ghost predicate ErrorIsFixed(steps: seq<PlanStep>, c: Config, k: nat, name: string)
    requires k < |c.layers|
  {
    forall t, d | Fails(c, k, t) && ResultOf(c, k, t).stepId != name && d in RootsOf(steps, c, k, t) ::
      NamedAhead(steps, c, k, name, t, d)
  }

  ghost predicate SameErrorAlways(steps: seq<PlanStep>, c: Config, s: State) {
    forall c2, s2 | Anew(steps, c, c2) && Executed(c2, s2) :: s2.status == s.status
  }

  /** A failing execution and another one of the same plan. */
  ghost predicate BothFail(steps: seq<PlanStep>, c: Config, c2: Config, s: State, s2: State) {
    && SamePlan(c, c2) && Complete(c, s) && Complete(c2, s2) && s.k == s2.k
    && s.status.Halted? && s.status.failed.Some? && s2.status.Halted? && s2.status.failed.Some?
  }

  lemma AnewFails(steps: seq<PlanStep>, c: Config, c2: Config, s: State, s2: State)
    requires NormalIds(steps) && Built(steps, c.layers) && Confluent(c) && Executed(c, s) && s.status.failed.Some?
    requires Anew(steps, c, c2) && Executed(c2, s2)
    ensures BothFail(steps, c, c2, s, s2)
  {
    BuiltIsLayersOf(steps, c);
    BuiltIsLayersOf(steps, c2);
    BothComplete(steps, c, c2, s, s2);
    CompleteIsSame(c, c2, s, s2);
  }

  lemma BuiltIsLayersOf(steps: seq<PlanStep>, c: Config)
    requires NormalIds(steps) && Built(steps, c.layers)
    ensures LayersOf(steps, c)
  {
    hide LayersFrom, PartitionByDepth;
    var sources :| LayersFrom(steps, sources, c.layers);
    BuiltIsLayering(steps, c.layers, sources);
  }

  /** Where a failing step is, in identifiers. */
  lemma FailsAt(steps: seq<PlanStep>, c: Config, ids: seq<seq<string>>, k: nat, st: PlanStep)
    requires IdLayers(steps, c.layers, ids) && k < |c.layers| && Fails(c, k, st)
    ensures st.id in ids[k] && c.layers[k][Pos(ids[k], st.id)] == st
  {
    var i :| 0 <= i < |c.layers[k]| && c.layers[k][i] == st;
    PosIs(PlanGraph(steps), ids, k, i);
  }

  /** The condition suffices. */
  lemma FixedIsReported(steps: seq<PlanStep>, c: Config, c2: Config, s: State, s2: State)
    requires BothFail(steps, c, c2, s, s2) && NormalIds(steps) && Built(steps, c2.layers) && s.k < |c.layers|
    requires ErrorIsFixed(steps, c, s.k, s.status.failed.value)
    ensures s2.status == s.status
  {
    hide LayersFrom, Reference, ResultIn, Complete, SamePlan;
    var sources :| LayersFrom(steps, sources, c2.layers);
    var ids, k, name := PlanIds(steps, sources), s.k, s.status.failed.value;
    BuiltIsLayering(steps, c2.layers, sources);
    var i := ReportedAt(c2, s2);
    var t := c2.layers[k][i];
    SameFailures(c, c2, k, t);
    if ResultOf(c, k, t).stepId != name {
      FailsAt(steps, c2, ids, k, t);
      PosIs(PlanGraph(steps), ids, k, i);
      var p := TopRootExists(PlanGraph(steps), ids, k, t.id);
      StagesOfIds(steps, c2.layers, ids);
      SameIdStages(c, c2);
      assert ids[0][p] in RootsOf(steps, c, k, t);
      assert NamedAhead(steps, c, k, name, t, ids[0][p]);
      var st :| Fails(c, k, st) && ResultOf(c, k, st).stepId == name && StepAhead(steps, c, k, ids[0][p], st, t);
      SameFailures(c, c2, k, st);
      FailsAt(steps, c2, ids, k, st);
      AheadIsBefore(PlanGraph(steps), ListOf(steps), ids, k, st.id, t.id, p);
      assert false;
    }
  }

  /** The condition is necessary: with the roots of `t` in front another name is reported. */
  lemma OtherIsReported(steps: seq<PlanStep>, c: Config, c2: Config, s: State, s2: State, sources: seq<string>,
          t: PlanStep, d: string)
    requires BothFail(steps, c, c2, s, s2) && NormalIds(steps) && LayersFrom(steps, sources, c2.layers)
    requires s.k < |c.layers| && Fails(c, s.k, t) && ResultOf(c, s.k, t).stepId != s.status.failed.value
    requires InFront(sources, RootsOf(steps, c, s.k, t), d)
    requires !NamedAhead(steps, c, s.k, s.status.failed.value, t, d)
    ensures s2.status != s.status
  {
    hide LayersFrom, Reference, ResultIn, ResultOf, Complete, SamePlan, InFront, StepAhead, IdLayers, PartitionByDepth;
    var k := s.k;
    BuiltIsLayering(steps, c2.layers, sources);
    var i := ReportedAt(c2, s2);
    var x := c2.layers[k][i];
    SameFailures(c, c2, k, x);
    SameFailures(c, c2, k, t);
    if ResultOf(c, k, x).stepId == s.status.failed.value {
      FirstIsAhead(steps, c, c2, k, sources, i, t, d);
      assert false;
    }
  }

  /** The first failing step is ahead of `t`. */
  lemma FirstIsAhead(steps: seq<PlanStep>, c: Config, c2: Config, k: nat, sources: seq<string>, i: nat, t: PlanStep,
          d: string)
    requires SamePlan(c, c2) && NormalIds(steps) && LayersFrom(steps, sources, c2.layers)
    requires k < |c.layers| && InFront(sources, RootsOf(steps, c, k, t), d)
    requires i < |c2.layers[k]| && Fails(c2, k, c2.layers[k][i]) && Fails(c2, k, t) && c2.layers[k][i] != t
    requires forall j | 0 <= j < i :: !Fails(c2, k, c2.layers[k][j])
    ensures StepAhead(steps, c, k, d, c2.layers[k][i], t)
  {
    hide LayersFrom, Reference, ResultIn, ResultOf, PartitionByDepth, Roots, Ahead, Layering, Follows, IsLayering;
    var ids, x := PlanIds(steps, sources), c2.layers[k][i];
    BuiltIsLayering(steps, c2.layers, sources);
    StagesOfIds(steps, c2.layers, ids);
    SameIdStages(c, c2);
    FirstIsSources(steps, sources);
    FailsAt(steps, c2, ids, k, t);
    FailsAt(steps, c2, ids, k, x);
    PosIs(PlanGraph(steps), ids, k, i);
    BeforeIsAhead(PlanGraph(steps), ListOf(steps), ids, k, x.id, t.id, |RootsOf(steps, c, k, t)| - 1);
  }

  /**
   * The reported error: every execution of a failing plan reports the same step exactly when in the failing layer every
   * failing step with another name has one with the reported name before it, whichever of its roots in the first layer
   * comes last.
   */
  lemma ErrorIsDeterminedIff(steps: seq<PlanStep>, c: Config, s: State)
    requires NormalIds(steps) && Built(steps, c.layers) && Confluent(c) && c.maxParallel > 0 && ToolsReturn(c)
    requires Executed(c, s) && s.status.failed.Some?
    ensures s.k < |c.layers|
    ensures SameErrorAlways(steps, c, s) <==> ErrorIsFixed(steps, c, s.k, s.status.failed.value)
  {
    hide Confluent, ErrorIsFixed, ToolsReturn, Built, LayersFrom;
    var name := s.status.failed.value;
    AnewFails(steps, c, c, s, s);
    var at := ReportedAt(c, s);
    if ErrorIsFixed(steps, c, s.k, name) {
      forall c2, s2 | Anew(steps, c, c2) && Executed(c2, s2) ensures s2.status == s.status {
        AnewFails(steps, c, c2, s, s2);
        FixedIsReported(steps, c, c2, s, s2);
      }
    } else {
      var c2, s2 := OtherError(steps, c, s);
      assert Anew(steps, c, c2);
    }
  }

  lemma OtherError(steps: seq<PlanStep>, c: Config, s: State) returns (c2: Config, s2: State)
    requires NormalIds(steps) && Built(steps, c.layers) && Confluent(c) && c.maxParallel > 0 && ToolsReturn(c)
    requires Executed(c, s) && s.status.failed.Some? && s.k < |c.layers|
    requires !ErrorIsFixed(steps, c, s.k, s.status.failed.value)
    ensures Anew(steps, c, c2) && Executed(c2, s2) && s2.status != s.status
  {
    hide Confluent, ToolsReturn, LayersFrom, Fails, ResultOf, RootsOf, NamedAhead, BothFail;
    var k, name := s.k, s.status.failed.value;
    var t, d :| Fails(c, k, t) && ResultOf(c, k, t).stepId != name && d in RootsOf(steps, c, k, t)
      && !NamedAhead(steps, c, k, name, t, d);
    var sources :| LayersFrom(steps, sources, c.layers);
    RootsAreSources(steps, c, sources, k, t);
    var other := ToFront(sources, RootsOf(steps, c, k, t), d);
    var layers := AnyOrderIsBuilt(steps, c.layers, sources, other);
    c2 := c.(layers := layers);
    s2 := ExecutionOf(steps, c, c2);
    AnewFails(steps, c, c2, s, s2);
    OtherIsReported(steps, c, c2, s, s2, other, t, d);
  }

  lemma ExecutionOf(steps: seq<PlanStep>, c: Config, c2: Config) returns (s2: State)
    requires NormalIds(steps) && Anew(steps, c, c2) && c2.maxParallel > 0 && ToolsReturn(c)
    ensures Executed(c2, s2)
  {
    BuiltIsLayersOf(steps, c2);
    LayersOfDistinct(steps, c2);
    SameToolsReturn(c, c2);
    s2 := ExecutionExists(c2);
  }

  lemma RootsAreSources(steps: seq<PlanStep>, c: Config, sources: seq<string>, k: nat, t: PlanStep)
    requires NormalIds(steps) && LayersFrom(steps, sources, c.layers) && k < |c.layers|
    ensures NoDup(sources) && RootsOf(steps, c, k, t) <= Elements(sources)
  {
    hide Reaches, Layering, IndexOf, PlanEdges, NormalIds, PartitionByDepth, Ordered;
    var ids := PlanIds(steps, sources);
    BuiltIsLayering(steps, c.layers, sources);
    StagesOfIds(steps, c.layers, ids);
    FirstIsSources(steps, sources);
    assert Stages(ids)[0] == Elements(sources);
  }

  // ---------- The condition in the first layer ----------

  /** All failed results of a layer name the same step. */
  ghost predicate OneError(results: seq<StepResult>) {
    forall i, j | 0 <= i < |results| && 0 <= j < |results| && !results[i].ok && !results[j].ok ::
      results[i].stepId == results[j].stepId
  }

  lemma FailingHasNames(c: Config, k: nat, name: string)
    requires k < |c.layers| && exists st :: Fails(c, k, st) && ResultOf(c, k, st).stepId == name
    ensures OneError(ReferenceResults(c, k)) <==> forall t | Fails(c, k, t) :: ResultOf(c, k, t).stepId == name
  {
    hide Reference, ResultIn;
    ResultsAreMapped(c, k);
    var results := ReferenceResults(c, k);
    forall i | 0 <= i < |results| ensures results[i] == ResultOf(c, k, c.layers[k][i]) {}
    forall t | Fails(c, k, t) ensures exists i :: 0 <= i < |results| && c.layers[k][i] == t {}
    if OneError(results) {
      var st :| Fails(c, k, st) && ResultOf(c, k, st).stepId == name;
      var j :| 0 <= j < |results| && c.layers[k][j] == st;
      forall t | Fails(c, k, t) ensures ResultOf(c, k, t).stepId == name {
        var i :| 0 <= i < |results| && c.layers[k][i] == t;
      }
    }
  }

  /** The order of the first layer is free: its error is the same in every execution exactly when it has only one. */
  lemma ErrorInFirstLayer(steps: seq<PlanStep>, c: Config, s: State)
    requires NormalIds(steps) && Built(steps, c.layers) && Confluent(c) && c.maxParallel > 0 && ToolsReturn(c)
    requires Executed(c, s) && s.status.failed.Some? && s.k == 0
    ensures |c.layers| > 0 && (SameErrorAlways(steps, c, s) <==> OneError(ReferenceResults(c, 0)))
  {
    hide Confluent, ToolsReturn, Built, SameErrorAlways, OneError, Fails, ResultOf;
    var name := s.status.failed.value;
    AnewFails(steps, c, c, s, s);
    var at := ReportedAt(c, s);
    ErrorIsDeterminedIff(steps, c, s);
    FailingHasNames(c, 0, name);
    forall t | Fails(c, 0, t) && ResultOf(c, 0, t).stepId != name
      ensures t.id in RootsOf(steps, c, 0, t) && !NamedAhead(steps, c, 0, name, t, t.id)
    {
      NoneBefore(steps, c, name, t);
    }
  }

  lemma NoneBefore(steps: seq<PlanStep>, c: Config, name: string, t: PlanStep)
    requires |c.layers| > 0 && DistinctIds(c.layers) && Fails(c, 0, t) && ResultOf(c, 0, t).stepId != name
    ensures t.id in RootsOf(steps, c, 0, t) && !NamedAhead(steps, c, 0, name, t, t.id)
  {
    forall st | Fails(c, 0, st) && ResultOf(c, 0, st).stepId == name ensures !StepAhead(steps, c, 0, t.id, st, t) {
      if st.id == t.id { SameStep(c, 0, st, t); }
      NoneAheadAtFirst(PlanGraph(steps), IdStages(c.layers), ListOf(steps), st.id, t.id);
    }
    NoneAheadAtFirst(PlanGraph(steps), IdStages(c.layers), ListOf(steps), t.id, t.id);
  }

  lemma SameStep(c: Config, k: nat, a: PlanStep, b: PlanStep)
    requires k < |c.layers| && DistinctIds(c.layers) && a in c.layers[k] && b in c.layers[k] && a.id == b.id
    ensures a == b
  {
    var i :| 0 <= i < |c.layers[k]| && c.layers[k][i] == a;
    var j :| 0 <= j < |c.layers[k]| && c.layers[k][j] == b;
  }

  /** When results carry their step's identifier, one error means at most one failing step. */
  lemma OneErrorIsOneFailure(steps: seq<PlanStep>, c: Config, k: nat)
    requires LayersOf(steps, c) && k < |c.layers|
    requires forall i | 0 <= i < |c.layers[k]| :: ReferenceRun(c, k, i).final.stepId == c.layers[k][i].id
    ensures OneError(ReferenceResults(c, k)) <==>
      forall i, j | 0 <= i < |c.layers[k]| && 0 <= j < |c.layers[k]| && !ReferenceResults(c, k)[i].ok
        && !ReferenceResults(c, k)[j].ok :: i == j
  {
    LayersOfDistinct(steps, c);
    forall i | 0 <= i < |c.layers[k]| ensures ReferenceResults(c, k)[i].stepId == c.layers[k][i].id {}
  }

  // ---------- The condition in the second layer ----------

  ghost function References(st: PlanStep): set<string> {
    set d <- st.dependsOn | d != ""
  }

  /** The failing step `f` is listed before `t` and refers to nothing that `t` does not refer to. */
  ghost predicate ListedAhead(steps: seq<PlanStep>, f: PlanStep, t: PlanStep) {
    PlaceOfId(steps, f.id) < PlaceOfId(steps, t.id) && References(f) <= References(t)
  }

  lemma ReferencesAreEdges(steps: seq<PlanStep>, st: PlanStep, d: string)
    requires NormalIds(steps) && st in steps
    ensures (d, st.id) in PlanGraph(steps).edges <==> d in References(st)
  {
    if (d, st.id) in PlanGraph(steps).edges {
      var other :| other in steps && d in other.dependsOn && d != "" && other.id == st.id;
      var i :| 0 <= i < |steps| && steps[i] == st;
      var j :| 0 <= j < |steps| && steps[j] == other;
      assert i == j;
    }
  }

  /** The references of a step of the second layer are its roots, and there are some. */
  lemma ReferencesAreRoots(steps: seq<PlanStep>, c: Config, st: PlanStep)
    requires LayersOf(steps, c) && |c.layers| > 1 && st in c.layers[1]
    ensures FirstDependencies(PlanGraph(steps), IdStages(c.layers), st.id) == References(st)
    ensures RootsOf(steps, c, 1, st) == References(st)
  {
    hide LongestChain, PlanGraph;
    var i :| 0 <= i < |c.layers[1]| && c.layers[1][i] == st;
    DepthInPlan(steps, c, 1, i);
    forall d ensures d in FirstDependencies(PlanGraph(steps), IdStages(c.layers), st.id) <==> d in References(st) {
      ReferencesAreEdges(steps, st, d);
      if d in References(st) {
        DependencyIsEarlier(steps, c, 1, i, d);
        assert d in IdStages(c.layers)[0];
      }
    }
    RootsAtSecond(PlanGraph(steps), IdStages(c.layers), st.id);
  }

  lemma HasReference(steps: seq<PlanStep>, c: Config, k: nat, st: PlanStep) returns (d: string)
    requires NormalIds(steps) && Built(steps, c.layers) && 0 < k < |c.layers| && st in c.layers[k]
    ensures d in References(st)
  {
    hide LayersFrom, PartitionByDepth;
    var sources :| LayersFrom(steps, sources, c.layers);
    BuiltIsLayering(steps, c.layers, sources);
    var i :| 0 <= i < |c.layers[k]| && c.layers[k][i] == st;
    var ids := PlanIds(steps, sources);
    d := DependencyInLayer(PlanGraph(steps), ids, k, ids[k][i]);
    BuiltIsLayersOf(steps, c);
    DepthInPlan(steps, c, k, i);
    ReferencesAreEdges(steps, st, d);
  }

  lemma AheadIsListed(steps: seq<PlanStep>, c: Config, f: PlanStep, t: PlanStep, d: string)
    requires LayersOf(steps, c) && |c.layers| > 1 && f in c.layers[1] && t in c.layers[1] && d in References(t)
    ensures StepAhead(steps, c, 1, d, f, t) <==>
      References(f) <= References(t) && (d in References(f) ==> PlaceOfId(steps, f.id) < PlaceOfId(steps, t.id))
  {
    hide LayersOf, References, FirstDependencies, Ahead;
    ReferencesAreRoots(steps, c, f);
    ReferencesAreRoots(steps, c, t);
    AheadAtSecond(PlanGraph(steps), IdStages(c.layers), ListOf(steps), d, f.id, t.id);
  }

  ghost predicate OwnNames(c: Config, k: nat)
    requires k < |c.layers|
  {
    forall st <- c.layers[k] :: ResultOf(c, k, st).stepId == st.id
  }

  /**
   * When results carry their step's identifier: the error of the second layer is the same in every execution exactly
   * when the reported step is listed before every other failing one and refers to nothing that the other does not.
   */
  lemma ErrorInSecondLayer(steps: seq<PlanStep>, c: Config, s: State)
    requires NormalIds(steps) && Built(steps, c.layers) && Confluent(c) && c.maxParallel > 0 && ToolsReturn(c)
    requires Executed(c, s) && s.status.failed.Some? && s.k == 1 && (|c.layers| > 1 ==> OwnNames(c, 1))
    ensures |c.layers| > 1
    ensures SameErrorAlways(steps, c, s) <==>
      forall f, t | Fails(c, 1, f) && Fails(c, 1, t) && f.id == s.status.failed.value != t.id ::
        ListedAhead(steps, f, t)
  {
    hide Confluent, ToolsReturn, Built, SameErrorAlways, ResultOf, ListedAhead, ErrorIsFixed;
    var name := s.status.failed.value;
    AnewFails(steps, c, c, s, s);
    var at := ReportedAt(c, s);
    ErrorIsDeterminedIff(steps, c, s);
    var f := c.layers[1][at];
    BuiltIsLayersOf(steps, c);
    forall x | Fails(c, 1, x) && x.id == name ensures x == f { SameStep(c, 1, x, f); }
    FixedIsListed(steps, c, f, name);
  }

  lemma FixedIsListed(steps: seq<PlanStep>, c: Config, f: PlanStep, name: string)
    requires NormalIds(steps) && LayersOf(steps, c) && Built(steps, c.layers) && |c.layers| > 1 && OwnNames(c, 1)
    requires Fails(c, 1, f) && f.id == name && forall x | Fails(c, 1, x) && x.id == name :: x == f
    ensures ErrorIsFixed(steps, c, 1, name) <==> forall t | Fails(c, 1, t) && t.id != name :: ListedAhead(steps, f, t)
  {
    hide LayersOf, Built, ResultOf, StepAhead, RootsOf;
    forall t | Fails(c, 1, t) && t.id != name ensures RootsOf(steps, c, 1, t) == References(t) {
      ReferencesAreRoots(steps, c, t);
    }
    forall t, d | Fails(c, 1, t) && t.id != name && d in References(t)
      ensures NamedAhead(steps, c, 1, name, t, d) <==> StepAhead(steps, c, 1, d, f, t)
    {
      assert t in c.layers[1];
    }
    forall t | Fails(c, 1, t) && t.id != name
      ensures (forall d | d in References(t) :: NamedAhead(steps, c, 1, name, t, d)) <==> ListedAhead(steps, f, t)
    {
      TogetherListed(steps, c, f, t);
    }
  }

  lemma TogetherListed(steps: seq<PlanStep>, c: Config, f: PlanStep, t: PlanStep)
    requires NormalIds(steps) && LayersOf(steps, c) && Built(steps, c.layers)
    requires |c.layers| > 1 && f in c.layers[1] && t in c.layers[1]
    ensures (forall d | d in References(t) :: StepAhead(steps, c, 1, d, f, t)) <==> ListedAhead(steps, f, t)
  {
    hide LayersOf, Built, StepAhead, References;
    forall d | d in References(t)
      ensures StepAhead(steps, c, 1, d, f, t) <==>
        References(f) <= References(t) && (d in References(f) ==> PlaceOfId(steps, f.id) < PlaceOfId(steps, t.id))
    {
      AheadIsListed(steps, c, f, t, d);
    }
    var d := HasReference(steps, c, 1, f);
    var e := HasReference(steps, c, 1, t);
  }

  // ---------- Failing steps with the same references ----------

  /** The step `f` of layer `k` fails, and no failing step of the layer is listed before it. */
  ghost predicate FirstListed(steps: seq<PlanStep>, c: Config, k: nat, f: PlanStep)
    requires k < |c.layers|
  {
    Fails(c, k, f) && forall t | Fails(c, k, t) :: PlaceOfId(steps, f.id) <= PlaceOfId(steps, t.id)
  }

  /** In any later layer: when the failing steps refer to the same steps, every execution reports the first listed. */
  lemma CommonReferencesDecide(steps: seq<PlanStep>, c: Config, s: State, f: PlanStep)
    requires NormalIds(steps) && Built(steps, c.layers) && Confluent(c)
    requires Executed(c, s) && s.status.failed.Some? && 0 < s.k < |c.layers| && FirstListed(steps, c, s.k, f)
    requires forall t | Fails(c, s.k, t) :: References(t) == References(f)
    ensures s.status == Halted(Some(ResultOf(c, s.k, f).stepId)) && SameErrorAlways(steps, c, s)
  {
    hide Confluent, Built, Fails, ResultOf;
    AnewFails(steps, c, c, s, s);
    CommonIsReported(steps, c, c, s, s, f);
    forall c2, s2 | Anew(steps, c, c2) && Executed(c2, s2) ensures s2.status == s.status {
      AnewFails(steps, c, c2, s, s2);
      CommonIsReported(steps, c, c2, s, s2, f);
    }
  }

  lemma CommonIsReported(steps: seq<PlanStep>, c: Config, c2: Config, s: State, s2: State, f: PlanStep)
    requires BothFail(steps, c, c2, s, s2) && NormalIds(steps) && Built(steps, c2.layers)
    requires 0 < s.k < |c.layers| && FirstListed(steps, c, s.k, f)
    requires forall t | Fails(c, s.k, t) :: References(t) == References(f)
    ensures s2.status == Halted(Some(ResultOf(c, s.k, f).stepId))
  {
    hide LayersFrom, Reference, ResultIn, ResultOf, Complete, SamePlan, IdLayers, PartitionByDepth, References;
    var k := s.k;
    var i := ReportedAt(c2, s2);
    var x := c2.layers[k][i];
    SameFailures(c, c2, k, x);
    SameFailures(c, c2, k, f);
    if x != f { ListedComesFirst(steps, c2, k, i, f); }
  }

  lemma ListedComesFirst(steps: seq<PlanStep>, c: Config, k: nat, i: nat, f: PlanStep)
    requires NormalIds(steps) && Built(steps, c.layers) && 0 < k < |c.layers| && i < |c.layers[k]|
    requires Fails(c, k, f) && forall j | 0 <= j < i :: !Fails(c, k, c.layers[k][j])
    requires c.layers[k][i] != f && References(c.layers[k][i]) == References(f)
    ensures PlaceOfId(steps, c.layers[k][i].id) < PlaceOfId(steps, f.id)
  {
    hide LayersFrom, ResultOf, PartitionByDepth, References, PlanIds, PlanGraph, IdLayers, Ordered, LayersOf;
    var sources :| LayersFrom(steps, sources, c.layers);
    var g, ids, x := PlanGraph(steps), PlanIds(steps, sources), c.layers[k][i];
    BuiltIsLayering(steps, c.layers, sources);
    BuiltIsLayersOf(steps, c);
    FailsLater(steps, c, ids, k, i, f);
    DepthInPlan(steps, c, k, i);
    DepthInPlan(steps, c, k, Pos(ids[k], f.id));
    SameEdges(steps, x, f);
    ByList(steps, c, ids, k, x.id, f.id);
  }

  lemma FailsLater(steps: seq<PlanStep>, c: Config, ids: seq<seq<string>>, k: nat, i: nat, f: PlanStep)
    requires IdLayers(steps, c.layers, ids) && k < |c.layers| && i < |c.layers[k]|
    requires Fails(c, k, f) && c.layers[k][i] != f && forall j | 0 <= j < i :: !Fails(c, k, c.layers[k][j])
    ensures k < |ids| && c.layers[k][i].id in ids[k] && f.id in ids[k]
    ensures var n := Pos(ids[k], f.id); Pos(ids[k], c.layers[k][i].id) < n < |c.layers[k]| && c.layers[k][n] == f
  {
    hide Ordered, ResultOf;
    FailsAt(steps, c, ids, k, f);
    PlaceInLayer(steps, c, ids, k, i);
  }

  lemma PlaceInLayer(steps: seq<PlanStep>, c: Config, ids: seq<seq<string>>, k: nat, i: nat)
    requires IdLayers(steps, c.layers, ids) && k < |c.layers| && i < |c.layers[k]|
    ensures c.layers[k][i].id in ids[k] && Pos(ids[k], c.layers[k][i].id) == i
  {
    PosIs(PlanGraph(steps), ids, k, i);
  }

  /** With the same dependencies, the list decides. */
  lemma ByList(steps: seq<PlanStep>, c: Config, ids: seq<seq<string>>, k: nat, v: string, w: string)
    requires IdLayers(steps, c.layers, ids) && 0 < k < |ids| && v in ids[k] && w in ids[k]
    requires forall u :: (u, v) in PlanGraph(steps).edges <==> (u, w) in PlanGraph(steps).edges
    requires Pos(ids[k], v) < Pos(ids[k], w)
    ensures PlaceOfId(steps, v) < PlaceOfId(steps, w)
  {
    hide PlanGraph, Follows, IsLayering;
    var a := LastExists(PlanGraph(steps), ids, k, v);
    ByLast(PlanGraph(steps), ListOf(steps), ids, k, v, w, a, a);
  }

  lemma SameEdges(steps: seq<PlanStep>, a: PlanStep, b: PlanStep)
    requires NormalIds(steps) && a in steps && b in steps && References(a) == References(b)
    ensures forall u :: (u, a.id) in PlanGraph(steps).edges <==> (u, b.id) in PlanGraph(steps).edges
  {
    hide References, PlanGraph;
    forall u ensures (u, a.id) in PlanGraph(steps).edges <==> (u, b.id) in PlanGraph(steps).edges {
      ReferencesAreEdges(steps, a, u);
      ReferencesAreEdges(steps, b, u);
    }
  }

  // ---------- An instance ----------

  /** A tool that refuses every call for good. */
  function Refused(st: PlanStep): StepResult {
    StepResult(st.id, false, Scalar(""), "forbidden", Fatal, "", true)
  }

  function RefusingPlan(json: Encoder, repair: Repairer, layers: seq<seq<PlanStep>>): Config {
    Config(layers, 1, ProgramWorld(json, (st, rendered) => Refused(st), repair),
      (st, rendered, res) => res == Refused(st))
  }

  /** Two independent steps that both fail: either order can be built, and their executions report different steps. */
  lemma OrderDecidesError(json: Encoder, repair: Repairer, a: PlanStep, b: PlanStep) returns (s1: State, s2: State)
    requires NormalIds([a, b]) && a.dependsOn == [] && b.dependsOn == []
    requires Mentions(a.args) !! {a.id, b.id} && Mentions(b.args) !! {a.id, b.id}
    ensures Built([a, b], [[a, b]]) && Executed(RefusingPlan(json, repair, [[a, b]]), s1)
    ensures Built([a, b], [[b, a]]) && Executed(RefusingPlan(json, repair, [[b, a]]), s2)
    ensures s1.status == Halted(Some(a.id)) && s2.status == Halted(Some(b.id))
  {
    EitherOrderIsBuilt(a, b);
    s1 := FirstIsReported(json, repair, [a, b], a, b);
    s2 := FirstIsReported(json, repair, [a, b], b, a);
  }

  lemma EitherOrderIsBuilt(a: PlanStep, b: PlanStep)
    requires NormalIds([a, b]) && a.dependsOn == [] && b.dependsOn == []
    ensures Built([a, b], [[a, b]]) && Built([a, b], [[b, a]])
  {
    hide LayersFrom;
    OneLayerIsBuilt([a, b], [a, b]);
    OneLayerIsBuilt([a, b], [b, a]);
  }

  lemma OneLayerIsBuilt(steps: seq<PlanStep>, layer: seq<PlanStep>)
    requires |steps| == |layer| == 2 && NormalIds(steps) && steps[0].dependsOn == [] && steps[1].dependsOn == []
    requires layer == steps || layer == [steps[1], steps[0]]
    ensures LayersFrom(steps, [layer[0].id, layer[1].id], [layer])
  {
    hide IndexOf, PlanEdges, TrimSpace, Layering, Frontier, Before;
    var sources := [layer[0].id, layer[1].id];
    NoEdges(steps);
    IndexedSteps(steps);
    assert layer[0] in steps && layer[1] in steps;
    assert steps[0] in steps && steps[1] in steps && steps[0].id != steps[1].id;
    assert PlanDegrees(steps) == map[steps[0].id := 0, steps[1].id := 0];
    TwoFree(layer[0].id, layer[1].id, PlanDegrees(steps));
    StepsOfLayer(IndexOf(steps, 2), layer);
  }

  lemma StepsOfLayer(m: map<string, PlanStep>, layer: seq<PlanStep>)
    requires |layer| == 2 && forall st <- layer :: st.id in m && m[st.id] == st
    ensures StepLayers(m, [[layer[0].id, layer[1].id]]) == [layer]
  {
    assert StepAt(m, layer[0].id) == layer[0] && StepAt(m, layer[1].id) == layer[1];
    assert StepLayers(m, [[layer[0].id, layer[1].id]])[0] == layer;
  }

  lemma TwoFree(v: string, w: string, degrees: map<string, int>)
    requires v != w && degrees == map[v := 0, w := 0]
    ensures Frontier([v, w], degrees, {}) && Layering([], degrees, [v, w]) == [[v, w]] && |Before([[v, w]], 1)| == 2
  {
    NoDupAppend([], v);
    NoDupAppend([v], w);
    assert [] + [v] == [v] && [v] + [w] == [v, w];
    DrainsNothing(degrees, [v, w]);
    assert Layering([], degrees, []) == [];
    assert Before([[v, w]], 0) == {} && Before([[v, w]], 1) == {v, w};
  }

  lemma NoEdges(steps: seq<PlanStep>)
    requires |steps| == 2 && steps[0].dependsOn == [] && steps[1].dependsOn == []
    ensures PlanEdges(steps, 2) == []
  {
    assert PlanEdges(steps, 1) == [];
  }

  lemma {:induction false} DrainsNothing(degrees: map<string, int>, ids: seq<string>)
    ensures Drained([], degrees, ids) == (degrees, [])
    decreases |ids|
  {
    if ids != [] { DrainsNothing(degrees, ids[..|ids| - 1]); }
  }

  lemma FirstIsReported(json: Encoder, repair: Repairer, steps: seq<PlanStep>, a: PlanStep, b: PlanStep)
    returns (s: State)
    requires NormalIds(steps) && Built(steps, [[a, b]])
    requires Mentions(a.args) !! {a.id, b.id} && Mentions(b.args) !! {a.id, b.id}
    ensures Executed(RefusingPlan(json, repair, [[a, b]]), s) && s.status == Halted(Some(a.id))
  {
    var c := RefusingPlan(json, repair, [[a, b]]);
    BuiltIsLayersOf(steps, c);
    LayersOfDistinct(steps, c);
    RefusesAll(json, repair, [[a, b]]);
    s := ExecutionExists(c);
    RefusedRun(json, repair, [[a, b]], 0, 0);
    RefusedRun(json, repair, [[a, b]], 0, 1);
    hide ReferenceRun, Executed, LocalRendering, Deterministic, NoSiblingMentions, ToolsReturn, DistinctIds;
    NoneMentioned(c, a, b);
    assert Reachable(c, s) && s.status.Halted? && !s.cancelled by { ExecutedMeans(c, s); }
    CompleteRun(c, s);
    assert ReferenceResults(c, 0)[0] == Refused(a);
    ReportedIs(c, s, a.id);
  }

  lemma ExecutedMeans(c: Config, s: State)
    requires Executed(c, s)
    ensures Reachable(c, s) && s.status.Halted? && !s.cancelled
  {}

  lemma ReportedIs(c: Config, s: State, id: string)
    requires |c.layers| == 1 && Complete(c, s) && FirstFailure(ReferenceResults(c, 0)) == Some(id)
    ensures s.status == Halted(Some(id))
  {}

  lemma RefusesAll(json: Encoder, repair: Repairer, layers: seq<seq<PlanStep>>)
    ensures var c := RefusingPlan(json, repair, layers);
      LocalRendering(c.w) && Deterministic(c) && ToolsReturn(c) && c.maxParallel > 0
  {
    var c := RefusingPlan(json, repair, layers);
    ProgramRenderingIsLocal(json, (st, rendered) => Refused(st), repair);
    forall step, rendered ensures Returns(c, step, rendered) { assert c.may(step, rendered, Refused(step)); }
  }

  /** Each step makes one attempt, with the arguments as written. */
  lemma RefusedRun(json: Encoder, repair: Repairer, layers: seq<seq<PlanStep>>, k: nat, i: nat)
    requires k < |layers| && i < |layers[k]|
    ensures var run := ReferenceRun(RefusingPlan(json, repair, layers), k, i);
      run.final == Refused(layers[k][i]) && |run.attempts| == 1 && run.attempts[0].raw == layers[k][i].args
  {}

  lemma NoneMentioned(c: Config, a: PlanStep, b: PlanStep)
    requires c.layers == [[a, b]] && Mentions(a.args) !! {a.id, b.id} && Mentions(b.args) !! {a.id, b.id}
    requires forall i | 0 <= i < 2 :: var run := ReferenceRun(c, 0, i);
      |run.attempts| == 1 && run.attempts[0].raw == c.layers[0][i].args
    ensures NoSiblingMentions(c)
  {
    hide ReferenceRun, Mentions;
    forall k, i | 0 <= k < |c.layers| && 0 <= i < |c.layers[k]| ensures MentionsNoSibling(c, k, ReferenceRun(c, k, i)) {
      var run := ReferenceRun(c, 0, i);
      forall at, id | at in run.attempts && id in Mentions(at.raw) ensures !Sibling(c, 0, id) {
        assert at == run.attempts[0] && (at.raw == a.args || at.raw == b.args);
      }
    }
  }
}
