/** Confluence over all executions of a plan: each layers the plan anew, so the order inside a layer may differ. */
module PlanReordering {
  import opened Options
  import opened Sequences
  import opened DependencyGraph
  import opened PlanDag
  import opened Rendering
  import opened StepRetry
  import opened PlanExecution
  import opened PlanConfluence

  // ---------- Two layerings of one plan ----------

  /** The same layers, each in any order. */
  ghost predicate SameLayers(a: seq<seq<PlanStep>>, b: seq<seq<PlanStep>>) {
    |a| == |b| && forall k | 0 <= k < |a| :: multiset(a[k]) == multiset(b[k])
  }

  lemma StepIsInLayer(steps: seq<PlanStep>, c: Config, k: nat, st: PlanStep)
    requires LayersOf(steps, c) && st in steps && LongestChain(PlanGraph(steps), st.id, k)
    ensures k < |c.layers| && st in c.layers[k]
  {
    assert InSomeLayer(c.layers, st);
    var j :| 0 <= j < |c.layers| && st in c.layers[j];
    var i :| 0 <= i < |c.layers[j]| && c.layers[j][i] == st;
    DepthInPlan(steps, c, j, i);
    OneDepth(PlanGraph(steps), st.id, j, k);
  }

  lemma OneDepth<T(!new)>(g: Graph<T>, v: T, j: nat, k: nat)
    requires LongestChain(g, v, j) && LongestChain(g, v, k)
    ensures j == k
  {
    var a :| ChainTo(g, a, v) && |a| == j + 1;
    var b :| ChainTo(g, b, v) && |b| == k + 1;
  }

  lemma LayerIsWithin(steps: seq<PlanStep>, c1: Config, c2: Config, k: nat)
    requires LayersOf(steps, c1) && LayersOf(steps, c2) && k < |c1.layers|
    ensures k < |c2.layers| && forall st <- c1.layers[k] :: st in c2.layers[k]
  {
    forall st <- c1.layers[k] ensures k < |c2.layers| && st in c2.layers[k] {
      var i :| 0 <= i < |c1.layers[k]| && c1.layers[k][i] == st;
      DepthInPlan(steps, c1, k, i);
      StepIsInLayer(steps, c2, k, st);
    }
    assert c1.layers[k][0] in c1.layers[k];
  }

  lemma LayerHasNoDup(steps: seq<PlanStep>, c: Config, k: nat)
    requires LayersOf(steps, c) && k < |c.layers|
    ensures NoDup(c.layers[k])
  {
    forall i, j | 0 <= i < j < |c.layers[k]| ensures c.layers[k][i] != c.layers[k][j] {
      assert c.layers[k][i].id == c.layers[k][j].id ==> i == j;
    }
    DistinctIsNoDup(c.layers[k]);
  }

  lemma NotLonger(steps: seq<PlanStep>, c1: Config, c2: Config)
    requires LayersOf(steps, c1) && LayersOf(steps, c2)
    ensures |c1.layers| <= |c2.layers|
  {
    if |c1.layers| > 0 { LayerIsWithin(steps, c1, c2, |c1.layers| - 1); }
  }

  /** All layerings of a plan have the same layers. */
  lemma LayersAreSame(steps: seq<PlanStep>, c1: Config, c2: Config)
    requires LayersOf(steps, c1) && LayersOf(steps, c2)
    ensures SameLayers(c1.layers, c2.layers)
  {
    forall k | 0 <= k < |c1.layers| ensures k < |c2.layers| && multiset(c1.layers[k]) == multiset(c2.layers[k]) {
      LayerIsWithin(steps, c1, c2, k);
      LayerIsWithin(steps, c2, c1, k);
      LayerHasNoDup(steps, c1, k);
      LayerHasNoDup(steps, c2, k);
      SameElements(c1.layers[k], c2.layers[k]);
    }
    NotLonger(steps, c1, c2);
    NotLonger(steps, c2, c1);
  }

  // ---------- The reference does not depend on the order ----------

  /** The result of a step on the outputs of the earlier layers. */
  function ResultIn(w: World, base: Outputs): PlanStep -> StepResult {
    step => RunStep(w, step, base, Never).final
  }

  lemma ResultsAreMapped(c: Config, k: nat)
    requires k < |c.layers|
    ensures ReferenceResults(c, k) == Map(ResultIn(c.w, Reference(c, k, 0).outputs), c.layers[k])
  {
    var f := ResultIn(c.w, Reference(c, k, 0).outputs);
    forall i | 0 <= i < |c.layers[k]| ensures ReferenceResults(c, k)[i] == f(c.layers[k][i]) {}
  }

  ghost predicate SamePlan(c1: Config, c2: Config) {
    c1.w == c2.w && DistinctIds(c1.layers) && DistinctIds(c2.layers) && SameLayers(c1.layers, c2.layers)
  }

  ghost predicate SameProduct(a: Product, b: Product) {
    a.outputs == b.outputs && a.records == b.records && multiset(a.results) == multiset(b.results)
  }

  lemma StepIn(c1: Config, c2: Config, k: nat, i: nat) returns (j: nat)
    requires SamePlan(c1, c2) && k < |c1.layers| && i < |c1.layers[k]|
    ensures j < |c2.layers[k]| && c2.layers[k][j] == c1.layers[k][i]
  {
    var st := c1.layers[k][i];
    assert st in multiset(c1.layers[k]) && st in multiset(c2.layers[k]);
    j :| 0 <= j < |c2.layers[k]| && c2.layers[k][j] == st;
  }

  lemma SameSiblings(c1: Config, c2: Config, k: nat, id: string)
    requires SamePlan(c1, c2) && k < |c1.layers| && Sibling(c1, k, id)
    ensures Sibling(c2, k, id)
  {
    var i :| 0 <= i < |c1.layers[k]| && c1.layers[k][i].id == id;
    var j := StepIn(c1, c2, k, i);
  }

  lemma LayerProductAt(c1: Config, c2: Config, k: nat, id: string)
    requires SamePlan(c1, c2) && k < |c1.layers| && SameProduct(Reference(c1, k, 0), Reference(c2, k, 0))
    ensures var a, b := Reference(c1, k, |c1.layers[k]|), Reference(c2, k, |c2.layers[k]|);
      && (id in a.outputs <==> id in b.outputs) && (id in a.outputs ==> a.outputs[id] == b.outputs[id])
      && (id in a.records <==> id in b.records) && (id in a.records ==> a.records[id] == b.records[id])
  {
    if Sibling(c1, k, id) {
      var i :| 0 <= i < |c1.layers[k]| && c1.layers[k][i].id == id;
      var j := StepIn(c1, c2, k, i);
      ReferenceOwn(c1, k, |c1.layers[k]|, i);
      ReferenceOwn(c2, k, |c2.layers[k]|, j);
      assert ReferenceRun(c1, k, i) == ReferenceRun(c2, k, j);
    } else {
      if Sibling(c2, k, id) { SameSiblings(c2, c1, k, id); }
      ReferenceOff(c1, k, |c1.layers[k]|, id);
      ReferenceOff(c2, k, |c2.layers[k]|, id);
    }
  }

  lemma SameResults(c1: Config, c2: Config, k: nat)
    requires SamePlan(c1, c2) && k < |c1.layers| && SameProduct(Reference(c1, k, 0), Reference(c2, k, 0))
    ensures multiset(ReferenceResults(c1, k)) == multiset(ReferenceResults(c2, k))
  {
    ResultsAreMapped(c1, k);
    ResultsAreMapped(c2, k);
    MapPermutes(ResultIn(c1.w, Reference(c1, k, 0).outputs), c1.layers[k], c2.layers[k]);
  }

  lemma SameLayerProduct(c1: Config, c2: Config, k: nat)
    requires SamePlan(c1, c2) && k < |c1.layers| && SameProduct(Reference(c1, k, 0), Reference(c2, k, 0))
    ensures SameProduct(Reference(c1, k, |c1.layers[k]|), Reference(c2, k, |c2.layers[k]|))
  {
    SameLayerMaps(c1, c2, k);
    WholeLayerResults(c1, k);
    WholeLayerResults(c2, k);
    SameResults(c1, c2, k);
  }

  lemma SameLayerMaps(c1: Config, c2: Config, k: nat)
    requires SamePlan(c1, c2) && k < |c1.layers| && SameProduct(Reference(c1, k, 0), Reference(c2, k, 0))
    ensures var a, b := Reference(c1, k, |c1.layers[k]|), Reference(c2, k, |c2.layers[k]|);
      a.outputs == b.outputs && a.records == b.records
  {
    var a, b := Reference(c1, k, |c1.layers[k]|), Reference(c2, k, |c2.layers[k]|);
    hide Reference, SamePlan, SameProduct;
    forall id
      ensures (id in a.outputs <==> id in b.outputs) && (id in a.outputs ==> a.outputs[id] == b.outputs[id])
      ensures (id in a.records <==> id in b.records) && (id in a.records ==> a.records[id] == b.records[id])
    {
      LayerProductAt(c1, c2, k, id);
    }
    SameMap(a.outputs, b.outputs);
    SameMap(a.records, b.records);
  }

  lemma WholeLayerResults(c: Config, k: nat)
    requires k < |c.layers|
    ensures multiset(Reference(c, k, |c.layers[k]|).results) ==
      multiset(Reference(c, k, 0).results) + multiset(ReferenceResults(c, k))
  {
    ReferenceAppends(c, k, |c.layers[k]|);
    assert ReferenceResults(c, k)[..|c.layers[k]|] == ReferenceResults(c, k);
  }

  /** The first `k` layers produce the same in any order. */
  lemma {:induction false} SameProducts(c1: Config, c2: Config, k: nat)
    requires SamePlan(c1, c2) && k <= |c1.layers|
    ensures SameProduct(Reference(c1, k, 0), Reference(c2, k, 0))
  {
    if k > 0 {
      SameProducts(c1, c2, k - 1);
      SameLayerProduct(c1, c2, k - 1);
    }
  }

  lemma SameMentions(c1: Config, c2: Config)
    requires SamePlan(c1, c2) && NoSiblingMentions(c1)
    ensures NoSiblingMentions(c2)
  {
    forall k, j | 0 <= k < |c2.layers| && 0 <= j < |c2.layers[k]|
      ensures MentionsNoSibling(c2, k, ReferenceRun(c2, k, j))
    {
      var i := StepIn(c2, c1, k, j);
      SameProducts(c1, c2, k);
      assert ReferenceRun(c1, k, i) == ReferenceRun(c2, k, j);
      assert MentionsNoSibling(c1, k, ReferenceRun(c1, k, i));
      forall a, id | a in ReferenceRun(c2, k, j).attempts && id in Mentions(a.raw) ensures !Sibling(c2, k, id) {
        if Sibling(c2, k, id) { SameSiblings(c2, c1, k, id); }
      }
    }
  }

  // ---------- Where the runs stop ----------

  lemma {:induction false} NoFailureIsAllOk(results: seq<StepResult>)
    ensures FirstFailure(results).None? <==> forall r <- results :: r.ok
  {
    if results != [] {
      NoFailureIsAllOk(results[1..]);
      assert results == [results[0]] + results[1..];
      assert forall r :: r in results <==> r == results[0] || r in results[1..];
    }
  }

  lemma SameOk(a: seq<StepResult>, b: seq<StepResult>)
    requires multiset(a) == multiset(b)
    ensures FirstFailure(a).None? <==> FirstFailure(b).None?
  {
    NoFailureIsAllOk(a);
    NoFailureIsAllOk(b);
    assert forall r :: r in a <==> r in multiset(a);
    assert forall r :: r in b <==> r in multiset(b);
  }

  lemma SameLayerOk(c1: Config, c2: Config, k: nat)
    requires SamePlan(c1, c2) && k < |c1.layers|
    ensures FirstFailure(ReferenceResults(c1, k)).None? <==> FirstFailure(ReferenceResults(c2, k)).None?
  {
    SameProducts(c1, c2, k);
    SameResults(c1, c2, k);
    SameOk(ReferenceResults(c1, k), ReferenceResults(c2, k));
  }

  lemma NotEarlier(c1: Config, c2: Config, s1: State, s2: State)
    requires SamePlan(c1, c2) && Complete(c1, s1) && Complete(c2, s2)
    ensures s1.k >= s2.k
  {
    if s1.k < s2.k { SameLayerOk(c1, c2, s1.k); }
  }

  /** What any two complete executions of a plan have in common. */
  ghost predicate SameOutcome(s1: State, s2: State) {
    && s1.outputs == s2.outputs && s1.records == s2.records && multiset(s1.results) == multiset(s2.results)
    && s1.k == s2.k && (s1.status == Halted(None) <==> s2.status == Halted(None))
  }

  lemma CompleteIsSame(c1: Config, c2: Config, s1: State, s2: State)
    requires SamePlan(c1, c2) && Complete(c1, s1) && Complete(c2, s2)
    ensures SameOutcome(s1, s2)
  {
    NotEarlier(c1, c2, s1, s2);
    assert SamePlan(c2, c1);
    NotEarlier(c2, c1, s2, s1);
    SameProducts(c1, c2, s1.k);
    if s1.k < |c1.layers| { SameLayerProduct(c1, c2, s1.k); }
  }

  /** An uncancelled execution that has halted, with the tools' behaviour of `c`. */
  ghost predicate Executed(c: Config, s: State) {
    Reachable(c, s) && s.status.Halted? && !s.cancelled
  }

  ghost predicate Confluent(c: Config) {
    LocalRendering(c.w) && Deterministic(c) && NoSiblingMentions(c)
  }

  lemma BothComplete(steps: seq<PlanStep>, c1: Config, c2: Config, s1: State, s2: State)
    requires LayersOf(steps, c1) && LayersOf(steps, c2) && c1.w == c2.w && c1.may == c2.may
    requires Confluent(c1) && Executed(c1, s1) && Executed(c2, s2)
    ensures SamePlan(c1, c2) && Complete(c1, s1) && Complete(c2, s2)
  {
    LayersAreSame(steps, c1, c2);
    LayersOfDistinct(steps, c1);
    LayersOfDistinct(steps, c2);
    SameMentions(c1, c2);
    CompleteRun(c1, s1);
    CompleteRun(c2, s2);
  }

  /**
   * Confluence over all executions of a plan, each with its own order inside the layers, its own schedule and its own
   * number of slots: the same outputs, the same recorded runs with the same rendered arguments, the same results up to
   * their order, and the same layer reached, with a failure in all of them or in none.
   */
  lemma ExecutionsAgree(steps: seq<PlanStep>, c1: Config, c2: Config, s1: State, s2: State)
    requires LayersOf(steps, c1) && LayersOf(steps, c2) && c1.w == c2.w && c1.may == c2.may
    requires Confluent(c1) && Executed(c1, s1) && Executed(c2, s2)
    ensures SameOutcome(s1, s2)
    ensures forall id | id in s1.records :: |s1.records[id].attempts| <= MAX_STEP_RETRIES + 1
  {
    BothComplete(steps, c1, c2, s1, s2);
    CompleteIsSame(c1, c2, s1, s2);
    CompleteRunsAgree(c1, s1, s1);
  }
}
