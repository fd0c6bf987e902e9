/** `BuildDAG`: identifier indexing, dependency checks and Kahn layering of a plan. */
module PlanDag {
  import opened DependencyGraph
  import opened GoStrings
  import opened KahnLayering
  import opened Sequences

  datatype PlanStep = PlanStep(
    id: string, action: string, toolName: string, args: string,
    description: string, dependsOn: seq<string>, expectedOut: string)

  const NO_STEP := PlanStep("", "", "", "", "", [], "")

  datatype DagError = SelfDependency(id: string) | UnknownStep(id: string, dep: string) | CycleDetected(left: int)

  datatype DagResult = Layers(layers: seq<seq<PlanStep>>) | Invalid(error: DagError)

  // ---------- Specification: the plan as a graph ----------

  /** The identifiers the planner promises: non-empty, trimmed and distinct. */
  ghost predicate NormalIds(steps: seq<PlanStep>) {
    && (forall s <- steps :: s.id != "" && TrimSpace(s.id) == s.id)
    && forall i, j | 0 <= i < j < |steps| :: steps[i].id != steps[j].id
  }

  ghost function Ids(steps: seq<PlanStep>): set<string> {
    set s <- steps :: s.id
  }

  ghost predicate Refers(steps: seq<PlanStep>, d: string, v: string) {
    exists s :: s in steps && s.id == v && d in s.dependsOn && d != ""
  }

  /** Blank references are skipped; every other reference is an edge. */
  ghost function PlanGraph(steps: seq<PlanStep>): Graph<string> {
    Graph(Ids(steps), set s, d | s in steps && d in s.dependsOn && d != "" :: (d, s.id))
  }

  ghost predicate ReferencesExist(steps: seq<PlanStep>) {
    forall s, d | s in steps && d in s.dependsOn && d != "" :: d in Ids(steps)
  }

  // ---------- The algorithm ----------

  /** The key under which step `i` is indexed, and the step as stored. */
  function IndexKey(stepMap: map<string, PlanStep>, st: PlanStep, i: nat): (string, PlanStep) {
    var trimmed := TrimSpace(st.id);
    var blank := trimmed == "";
    var key := if blank then "step_" + Itoa(i + 1) else trimmed;
    var stored := if blank then st.(id := key) else st;
    if key in stepMap then
      var renamed := "step_" + Itoa(i + 1) + "_" + Itoa(i);
      (renamed, stored.(id := renamed))
    else (key, stored)
  }

  /** Under its trimmed identifier, or its number when that is blank, or both its numbers when that key is taken. */
  lemma KeysAreNamed(m: map<string, PlanStep>, st: PlanStep, i: nat)
    ensures var (key, stored) := IndexKey(m, st, i);
      && (Blank(st.id) && "step_" + Itoa(i + 1) !in m ==> key == "step_" + Itoa(i + 1) && stored == st.(id := key))
      && (!Blank(st.id) && TrimSpace(st.id) !in m ==> key == TrimSpace(st.id) && stored == st)
      && ((if Blank(st.id) then "step_" + Itoa(i + 1) else TrimSpace(st.id)) in m ==>
            key == "step_" + Itoa(i + 1) + "_" + Itoa(i) && stored == st.(id := key))
  {
    TrimsToNothingIffBlank(st.id);
  }

  /** The index after the first `i` steps. */
  function IndexOf(steps: seq<PlanStep>, i: nat): map<string, PlanStep>
    requires i <= |steps|
  {
    if i == 0 then map[]
    else
      var m := IndexOf(steps, i - 1);
      var (key, stored) := IndexKey(m, steps[i - 1], i - 1);
      m[key := stored]
  }

  /** On normal identifiers the index maps every identifier to its step. */
  ghost predicate Indexed(stepMap: map<string, PlanStep>, steps: seq<PlanStep>, i: nat)
    requires i <= |steps|
  {
    && (forall j | 0 <= j < i :: steps[j].id in stepMap && stepMap[steps[j].id] == steps[j])
    && (forall k | k in stepMap :: stepMap[k].id == k && stepMap[k] in steps[..i])
  }

  method IndexSteps(steps: seq<PlanStep>) returns (stepMap: map<string, PlanStep>, inDegree: map<string, int>)
    ensures inDegree.Keys == stepMap.Keys && forall k <- inDegree :: inDegree[k] == 0
    ensures stepMap == IndexOf(steps, |steps|)
    ensures NormalIds(steps) ==> Indexed(stepMap, steps, |steps|)
  {
    hide IndexKey, IndexOf, Indexed, NormalIds;
    stepMap, inDegree := map[], map[];
    NothingIndexed(steps);
    for i := 0 to |steps|
      invariant inDegree.Keys == stepMap.Keys && forall k <- inDegree :: inDegree[k] == 0
      invariant stepMap == IndexOf(steps, i)
      invariant NormalIds(steps) ==> Indexed(stepMap, steps, i)
    {
      var (key, stored) := IndexKey(stepMap, steps[i], i);
      IndexNext(steps, i);
      if NormalIds(steps) { IndexNormal(stepMap, steps, i); }
      stepMap := stepMap[key := stored];
      inDegree := inDegree[key := 0];
    }
  }

  lemma NothingIndexed(steps: seq<PlanStep>)
    ensures IndexOf(steps, 0) == map[] && Indexed(map[], steps, 0)
  {}

  lemma IndexNext(steps: seq<PlanStep>, i: nat)
    requires i < |steps|
    ensures var m := IndexOf(steps, i); var (key, stored) := IndexKey(m, steps[i], i);
      IndexOf(steps, i + 1) == m[key := stored]
  {}

  lemma IndexNormal(stepMap: map<string, PlanStep>, steps: seq<PlanStep>, i: nat)
    requires NormalIds(steps) && i < |steps| && Indexed(stepMap, steps, i)
    ensures IndexKey(stepMap, steps[i], i) == (steps[i].id, steps[i])
    ensures Indexed(stepMap[steps[i].id := steps[i]], steps, i + 1)
  {
    var id := steps[i].id;
    assert steps[i] in steps;
    assert id !in stepMap by {
      assert forall s <- steps[..i] :: s.id != id;
    }
    assert steps[..i + 1] == steps[..i] + [steps[i]];
  }

  /** The edges listed by the first `n` references of a step. */
  ghost function StepEdges(st: PlanStep, n: nat): Edges<string>
    requires n <= |st.dependsOn|
  {
    if n == 0 then [] else
      var d := st.dependsOn[n - 1];
      if d == "" then StepEdges(st, n - 1) else StepEdges(st, n - 1) + [(d, st.id)]
  }

  /** The edges listed by the first `i` steps. */
  ghost function PlanEdges(steps: seq<PlanStep>, i: nat): Edges<string>
    requires i <= |steps|
  {
    if i == 0 then [] else PlanEdges(steps, i - 1) + StepEdges(steps[i - 1], |steps[i - 1].dependsOn|)
  }

  lemma {:induction false} StepEdgesMean(st: PlanStep, n: nat, d: string, v: string)
    requires n <= |st.dependsOn|
    ensures (d, v) in StepEdges(st, n) <==> v == st.id && d != "" && d in st.dependsOn[..n]
  {
    if n > 0 {
      StepEdgesMean(st, n - 1, d, v);
      assert st.dependsOn[..n] == st.dependsOn[..n - 1] + [st.dependsOn[n - 1]];
    }
  }

  lemma {:induction false} PlanEdgesMean(steps: seq<PlanStep>, i: nat, d: string, v: string)
    requires i <= |steps|
    ensures (d, v) in PlanEdges(steps, i) <==> Refers(steps[..i], d, v)
  {
    if i > 0 {
      var st := steps[i - 1];
      PlanEdgesMean(steps, i - 1, d, v);
      StepEdgesMean(st, |st.dependsOn|, d, v);
      assert steps[..i] == steps[..i - 1] + [st];
      assert st.dependsOn[..|st.dependsOn|] == st.dependsOn;
    }
  }

  ghost predicate BadReference(steps: seq<PlanStep>, known: set<string>, s: PlanStep, d: string) {
    s in steps && d in s.dependsOn && d != "" && (d == s.id || d !in known)
  }

  /** The error names the step and what is wrong with its reference. */
  ghost predicate Explains(steps: seq<PlanStep>, known: set<string>, error: DagError) {
    match error
    case SelfDependency(id) => exists s :: s in steps && s.id == id && id in s.dependsOn && id != ""
    case UnknownStep(id, dep) =>
      dep != "" && dep != id && dep !in known && exists s :: s in steps && s.id == id && dep in s.dependsOn
    case CycleDetected(_) => false
  }

  method LinkDependencies(steps: seq<PlanStep>, stepMap: map<string, PlanStep>, inDegree0: map<string, int>)
    returns (error: DagResult, inDegree: map<string, int>, adjList: map<string, seq<string>>,
            ghost edges: Edges<string>)
    requires inDegree0.Keys == stepMap.Keys && forall k <- inDegree0 :: inDegree0[k] == 0
    ensures error.Invalid? ==> exists s: PlanStep, d :: BadReference(steps, stepMap.Keys, s, d)
    ensures error.Invalid? ==> Explains(steps, stepMap.Keys, error.error)
    ensures error.Layers? ==> edges == PlanEdges(steps, |steps|) && Linked(inDegree, adjList, edges, stepMap.Keys)
  {
    error, inDegree, adjList, edges := Layers([]), inDegree0, map[], [];
    for i := 0 to |steps|
      invariant error.Layers? && edges == PlanEdges(steps, i) && Linked(inDegree, adjList, edges, stepMap.Keys)
    {
      error, inDegree, adjList, edges := LinkStep(steps, i, stepMap, inDegree, adjList, edges);
      if error.Invalid? { return; }
    }
  }

  method LinkStep(steps: seq<PlanStep>, i: nat, stepMap: map<string, PlanStep>, inDegree0: map<string, int>,
          adjList0: map<string, seq<string>>, ghost edges0: Edges<string>)
    returns (error: DagResult, inDegree: map<string, int>, adjList: map<string, seq<string>>,
            ghost edges: Edges<string>)
    requires i < |steps| && Linked(inDegree0, adjList0, edges0, stepMap.Keys)
    ensures error.Invalid? ==> exists s: PlanStep, d :: BadReference(steps, stepMap.Keys, s, d)
    ensures error.Invalid? ==> Explains(steps, stepMap.Keys, error.error)
    ensures error.Layers? ==>
      edges == edges0 + StepEdges(steps[i], |steps[i].dependsOn|) && Linked(inDegree, adjList, edges, stepMap.Keys)
  {
    var st := steps[i];
    error, inDegree, adjList, edges := Layers([]), inDegree0, adjList0, edges0;
    for j := 0 to |st.dependsOn|
      invariant edges == edges0 + StepEdges(st, j)
      invariant Linked(inDegree, adjList, edges, stepMap.Keys)
    {
      var dep := st.dependsOn[j];
      if dep == "" { continue; }
      if dep == st.id || dep !in stepMap {
        assert BadReference(steps, stepMap.Keys, st, dep);
        error := Invalid(if dep == st.id then SelfDependency(st.id) else UnknownStep(st.id, dep));
        return;
      }
      LinkEdge(inDegree, adjList, edges, stepMap.Keys, dep, st.id);
      adjList := adjList[dep := Adjacent(adjList, dep) + [st.id]];
      inDegree := inDegree[st.id := Degree(inDegree, st.id) + 1];
      edges := edges + [(dep, st.id)];
    }
  }

  ghost predicate InSomeLayer(layers: seq<seq<PlanStep>>, s: PlanStep) {
    exists k :: 0 <= k < |layers| && s in layers[k]
  }

  /** `layers` partition the steps, and a step's layer index is the length of its longest dependency chain. */
  ghost predicate PartitionByDepth(steps: seq<PlanStep>, layers: seq<seq<PlanStep>>) {
    && (forall k | 0 <= k < |layers| :: layers[k] != [])
    && (forall k, i | 0 <= k < |layers| && 0 <= i < |layers[k]| ::
          layers[k][i] in steps && LongestChain(PlanGraph(steps), layers[k][i].id, k))
    && (forall s {:trigger InSomeLayer(layers, s)} | s in steps :: InSomeLayer(layers, s))
    && (forall k, i, l, j | 0 <= k < |layers| && 0 <= i < |layers[k]| && 0 <= l < |layers| && 0 <= j < |layers[l]| ::
          layers[k][i].id == layers[l][j].id ==> k == l && i == j)
  }

  /** The graph that is layered for any plan: the index, and the edges under the identifiers as written. */
  ghost function CodeGraph(steps: seq<PlanStep>): Graph<string> {
    var edges := PlanEdges(steps, |steps|);
    GraphOf(IndexOf(steps, |steps|).Keys + (set e <- edges :: e.1), edges)
  }

  /** Its degree table before the layering. */
  ghost function PlanDegrees(steps: seq<PlanStep>): map<string, int> {
    map v | v in CodeGraph(steps).nodes :: CountOpen(PlanEdges(steps, |steps|), v, {})
  }

  /** The layers of keys that the order of the sources gives. */
  ghost function PlanIds(steps: seq<PlanStep>, sources: seq<string>): seq<seq<string>> {
    Layering(PlanEdges(steps, |steps|), PlanDegrees(steps), sources)
  }

  /** No reference leads to the step itself or out of the index. */
  ghost predicate Linkable(steps: seq<PlanStep>) {
    forall e <- PlanEdges(steps, |steps|) :: e.0 != e.1 && e.0 in IndexOf(steps, |steps|)
  }

  /** `sources` lists the keys without dependencies, and the layers it gives reach as many nodes as there are steps. */
  ghost predicate LayersFrom(steps: seq<PlanStep>, sources: seq<string>, layers: seq<seq<PlanStep>>) {
    && Linkable(steps) && Frontier(sources, PlanDegrees(steps), {})
    && var ids := PlanIds(steps, sources);
       |Before(ids, |ids|)| == |steps| && layers == StepLayers(IndexOf(steps, |steps|), ids)
  }

  /** The layers that the map's order of the sources can give; no other order in them is free. */
  ghost predicate Built(steps: seq<PlanStep>, layers: seq<seq<PlanStep>>) {
    exists sources :: LayersFrom(steps, sources, layers)
  }

  method BuildDAG(steps: seq<PlanStep>) returns (r: DagResult)
    ensures NormalIds(steps) ==> (r.Layers? <==> ReferencesExist(steps) && !Cyclic(PlanGraph(steps)))
    ensures NormalIds(steps) && r.Layers? ==> PartitionByDepth(steps, r.layers)
    ensures r.Layers? ==> Built(steps, r.layers)
    ensures r.Invalid? && !r.error.CycleDetected? ==> Explains(steps, IndexOf(steps, |steps|).Keys, r.error)
    ensures r.Invalid? && r.error.CycleDetected? ==> r.error.left != 0 && Linkable(steps)
  {
    if |steps| == 0 {
      NothingBuilt(steps);
      assert !Cyclic(PlanGraph(steps)) by { RankedIsAcyclic(PlanGraph(steps), map[]); }
      return Layers([]);
    }
    var stepMap, inDegree := IndexSteps(steps);
    var error, adjList;
    ghost var edges;
    error, inDegree, adjList, edges := LinkDependencies(steps, stepMap, inDegree);
    if error.Invalid? {
      if NormalIds(steps) { IndexedKeys(stepMap, steps); BadReferenceIsInvalid(steps); }
      return error;
    }
    LinkedIsPlan(steps, inDegree, adjList);
    var order := IterationOrder(inDegree.Keys);
    var ids, visitedCount := LayerGraph(order, inDegree, adjList, edges);
    ghost var sources := Free(order, inDegree);
    if NormalIds(steps) { BuiltIff(steps, sources); }
    if visitedCount != |steps| {
      return Invalid(CycleDetected(|steps| - visitedCount));
    }
    assert LayersFrom(steps, sources, StepLayers(stepMap, ids));
    return Layers(StepLayers(stepMap, ids));
  }

  lemma NothingBuilt(steps: seq<PlanStep>)
    requires steps == []
    ensures Built(steps, [])
  {
    assert LayersFrom(steps, [], []);
  }

  lemma {:induction false} LinkedIsPlan(steps: seq<PlanStep>, inDegree: map<string, int>,
          adjList: map<string, seq<string>>)
    requires Linked(inDegree, adjList, PlanEdges(steps, |steps|), IndexOf(steps, |steps|).Keys)
    ensures inDegree == PlanDegrees(steps) && Linkable(steps)
  {
    forall v <- inDegree ensures inDegree[v] == PlanDegrees(steps)[v] { assert Degree(inDegree, v) == inDegree[v]; }
  }

  /** Every order of the sources gives a maximal layering. */
  lemma PlanIdsAreMaximal(steps: seq<PlanStep>, sources: seq<string>)
    requires Linkable(steps) && Frontier(sources, PlanDegrees(steps), {})
    ensures IsMaximalLayering(CodeGraph(steps), PlanIds(steps, sources))
  {
    hide Layering, IndexOf, PlanEdges;
    var edges, degrees := PlanEdges(steps, |steps|), PlanDegrees(steps);
    assert degrees.Keys == CodeGraph(steps).nodes;
    NothingLayered(edges, degrees) by {
      forall v ensures Degree(degrees, v) == CountOpen(edges, v, {}) {
        if v !in degrees { CountOpenZero(edges, v, {}); }
      }
    }
    LayeringIsMaximal(edges, degrees, sources, {}, []);
    assert [] + Layering(edges, degrees, sources) == Layering(edges, degrees, sources);
  }

  /** On normal identifiers every order of the sources succeeds when the plan is sound, and none does otherwise. */
  lemma BuiltIff(steps: seq<PlanStep>, sources: seq<string>)
    requires NormalIds(steps) && Linkable(steps) && Frontier(sources, PlanDegrees(steps), {})
    ensures var ids := PlanIds(steps, sources);
      && ReferencesExist(steps) && WellFormed(PlanGraph(steps)) && CodeGraph(steps) == PlanGraph(steps)
      && (|Before(ids, |ids|)| == |steps| <==> !Cyclic(PlanGraph(steps)))
      && (!Cyclic(PlanGraph(steps)) ==>
            Before(ids, |ids|) == Ids(steps) && PartitionByDepth(steps, StepLayers(IndexOf(steps, |steps|), ids)))
  {
    hide PartitionByDepth, Frontier, IndexOf, PlanEdges;
    var ids, index, edges := PlanIds(steps, sources), IndexOf(steps, |steps|), PlanEdges(steps, |steps|);
    IndexedSteps(steps);
    SameGraph(steps, CodeGraph(steps).nodes, edges);
    LinkedReferencesExist(steps, edges);
    PlanIdsAreMaximal(steps, sources);
    MaximalLayering(PlanGraph(steps), ids);
    CountIds(steps);
    CoversBySize(Before(ids, |ids|), Ids(steps));
    if !Cyclic(PlanGraph(steps)) { LayersOfIds(steps, index, ids); }
  }

  lemma {:induction false} IndexedFrom(steps: seq<PlanStep>, i: nat)
    requires NormalIds(steps) && i <= |steps|
    ensures Indexed(IndexOf(steps, i), steps, i)
  {
    hide IndexOf, Indexed, IndexKey, NormalIds;
    if i == 0 {
      NothingIndexed(steps);
    } else {
      IndexedFrom(steps, i - 1);
      IndexNext(steps, i - 1);
      IndexNormal(IndexOf(steps, i - 1), steps, i - 1);
    }
  }

  lemma IndexedSteps(steps: seq<PlanStep>)
    requires NormalIds(steps)
    ensures IndexOf(steps, |steps|).Keys == Ids(steps) && forall s <- steps :: IndexOf(steps, |steps|)[s.id] == s
  {
    IndexedFrom(steps, |steps|);
    IndexedKeys(IndexOf(steps, |steps|), steps);
  }

  /** The indexed step, or Go's zero value when the key is absent. */
  function StepAt(m: map<string, PlanStep>, k: string): PlanStep { if k in m then m[k] else NO_STEP }

  function StepLayers(m: map<string, PlanStep>, ids: seq<seq<string>>): seq<seq<PlanStep>> {
    seq(|ids|, k requires 0 <= k < |ids| => seq(|ids[k]|, i requires 0 <= i < |ids[k]| => StepAt(m, ids[k][i])))
  }

  lemma IndexedKeys(stepMap: map<string, PlanStep>, steps: seq<PlanStep>)
    requires Indexed(stepMap, steps, |steps|)
    ensures stepMap.Keys == Ids(steps) && forall s <- steps :: stepMap[s.id] == s
  {
    assert steps[..|steps|] == steps;
  }

  lemma BadReferenceIsInvalid(steps: seq<PlanStep>)
    requires exists s: PlanStep, d :: BadReference(steps, Ids(steps), s, d)
    ensures !ReferencesExist(steps) || Cyclic(PlanGraph(steps))
  {
    var s, d :| BadReference(steps, Ids(steps), s, d);
    if d == s.id { assert IsCycle(PlanGraph(steps), [d, d]); }
  }

  lemma SameGraph(steps: seq<PlanStep>, nodes: set<string>, edges: Edges<string>)
    requires nodes == Ids(steps) + (set e <- edges :: e.1) && edges == PlanEdges(steps, |steps|)
    ensures GraphOf(nodes, edges) == PlanGraph(steps)
  {
    var a, b := GraphOf(nodes, edges), PlanGraph(steps);
    assert steps[..|steps|] == steps;
    forall d, v ensures (d, v) in a.edges <==> (d, v) in b.edges {
      PlanEdgesMean(steps, |steps|, d, v);
    }
    forall e <- edges ensures e.1 in Ids(steps) { PlanEdgesMean(steps, |steps|, e.0, e.1); }
    assert a.edges == b.edges;
  }

  lemma LinkedReferencesExist(steps: seq<PlanStep>, edges: Edges<string>)
    requires edges == PlanEdges(steps, |steps|) && forall e <- edges :: e.0 in Ids(steps)
    ensures ReferencesExist(steps)
  {
    assert steps[..|steps|] == steps;
    forall s, d | s in steps && d in s.dependsOn && d != "" ensures d in Ids(steps) {
      assert Refers(steps, d, s.id);
      PlanEdgesMean(steps, |steps|, d, s.id);
    }
  }

  lemma {:induction false} CountIds(steps: seq<PlanStep>)
    requires NormalIds(steps)
    ensures |Ids(steps)| == |steps|
  {
    var ids := seq(|steps|, i requires 0 <= i < |steps| => steps[i].id);
    DistinctIsNoDup(ids);
    NoDupSize(ids);
    assert Elements(ids) == Ids(steps) by {
      forall v ensures v in Elements(ids) <==> v in Ids(steps) {
        if v in Ids(steps) { var i :| 0 <= i < |steps| && steps[i].id == v; assert ids[i] == v; }
      }
    }
  }

  lemma CoversBySize(a: set<string>, b: set<string>)
    requires a <= b
    ensures |a| == |b| <==> a == b
  {
    assert b == a + (b - a);
  }

  lemma LayersOfIds(steps: seq<PlanStep>, stepMap: map<string, PlanStep>, ids: seq<seq<string>>)
    requires NormalIds(steps) && WellFormed(PlanGraph(steps)) && IsLayering(PlanGraph(steps), ids)
    requires stepMap.Keys == Ids(steps) && forall s <- steps :: stepMap[s.id] == s
    requires Before(ids, |ids|) == Ids(steps)
    ensures PartitionByDepth(steps, StepLayers(stepMap, ids))
  {
    hide LongestChain, PlanGraph, IsLayering, NormalIds, StepAt, Before;
    var layers: seq<seq<PlanStep>> := StepLayers(stepMap, ids);
    forall k | 0 <= k < |layers| ensures layers[k] != [] { LayerIsNotEmpty(PlanGraph(steps), ids, k); }
    forall k, i | 0 <= k < |layers| && 0 <= i < |layers[k]|
      ensures layers[k][i] in steps && LongestChain(PlanGraph(steps), layers[k][i].id, k)
    {
      StepDepth(steps, stepMap, ids, k, i);
    }
    forall s: PlanStep | s in steps ensures InSomeLayer(layers, s) {
      var k := StepLayer(steps, stepMap, ids, s);
    }
    forall k, i, l, j | 0 <= k < |layers| && 0 <= i < |layers[k]| && 0 <= l < |layers| && 0 <= j < |layers[l]|
      && layers[k][i].id == layers[l][j].id
      ensures k == l && i == j
    {
      SameStepPlace(steps, stepMap, ids, k, i, l, j);
    }
  }

  lemma LayerIsNotEmpty(g: Graph<string>, ids: seq<seq<string>>, k: nat)
    requires IsLayering(g, ids) && k < |ids|
    ensures ids[k] != []
  {
    assert IsLayer(g, ids, k);
  }

  lemma SameStepPlace(steps: seq<PlanStep>, stepMap: map<string, PlanStep>, ids: seq<seq<string>>, k: nat, i: nat,
          l: nat, j: nat)
    requires WellFormed(PlanGraph(steps)) && IsLayering(PlanGraph(steps), ids)
    requires k < |ids| && i < |ids[k]| && l < |ids| && j < |ids[l]|
    requires stepMap.Keys == Ids(steps) && forall s <- steps :: stepMap[s.id] == s
    requires StepLayers(stepMap, ids)[k][i].id == StepLayers(stepMap, ids)[l][j].id
    ensures k == l && i == j
  {
    hide LongestChain, PlanGraph, IsLayering;
    StepDepth(steps, stepMap, ids, k, i);
    StepDepth(steps, stepMap, ids, l, j);
    SamePlace(PlanGraph(steps), ids, k, i, l, j);
  }

  lemma StepDepth(steps: seq<PlanStep>, stepMap: map<string, PlanStep>, ids: seq<seq<string>>, k: nat, i: nat)
    requires WellFormed(PlanGraph(steps)) && IsLayering(PlanGraph(steps), ids) && k < |ids| && i < |ids[k]|
    requires stepMap.Keys == Ids(steps) && forall s <- steps :: stepMap[s.id] == s
    ensures var s := StepLayers(stepMap, ids)[k][i];
            s in steps && s.id == ids[k][i] && LongestChain(PlanGraph(steps), s.id, k)
  {
    var g := PlanGraph(steps);
    assert IsLayer(g, ids, k);
    assert ids[k][i] in ids[k];
    LayerIsLongestChain(g, ids, k, ids[k][i]);
    assert ids[k][i] in Ids(steps);
  }

  lemma StepLayer(steps: seq<PlanStep>, stepMap: map<string, PlanStep>, ids: seq<seq<string>>, s: PlanStep)
    returns (k: nat)
    requires s in steps && s.id in Before(ids, |ids|)
    requires stepMap.Keys == Ids(steps) && stepMap[s.id] == s
    ensures k < |ids| && s in StepLayers(stepMap, ids)[k]
  {
    k := BeforeFrom(ids, |ids|, s.id);
    var i :| 0 <= i < |ids[k]| && ids[k][i] == s.id;
    assert StepLayers(stepMap, ids)[k][i] == s;
  }

  lemma SamePlace(g: Graph<string>, ids: seq<seq<string>>, k: nat, i: nat, l: nat, j: nat)
    requires IsLayering(g, ids) && k < |ids| && i < |ids[k]| && l < |ids| && j < |ids[l]| && ids[k][i] == ids[l][j]
    ensures k == l && i == j
  {
    LayersDisjoint(g, ids, k, l, ids[k][i]);
    assert IsLayer(g, ids, k);
    if i < j { NoDupIndex(ids[k], i, j); }
    if j < i { NoDupIndex(ids[k], j, i); }
  }
}
