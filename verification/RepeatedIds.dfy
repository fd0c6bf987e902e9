/** Plans whose identifiers repeat: the index renames a step, but the edges keep the identifier as written. */
module RepeatedIds {
  import opened DependencyGraph
  import opened GoStrings
  import opened KahnLayering
  import opened PlanDag
  import opened Sequences

  // ---------- Steps without edges ----------

  /** A step that is indexed under an identifier no step bears is in the first layer, whatever it depends on. */
  lemma RenamedRunsFirst(steps: seq<PlanStep>, layers: seq<seq<PlanStep>>, key: string)
    requires Built(steps, layers) && key in IndexOf(steps, |steps|) && key !in Ids(steps)
    ensures layers != [] && IndexOf(steps, |steps|)[key] in layers[0]
  {
    UnboundRunsFirst(steps, layers, key);
  }

  lemma UnboundRunsFirst(steps: seq<PlanStep>, layers: seq<seq<PlanStep>>, key: string)
    requires Built(steps, layers) && key in IndexOf(steps, |steps|) && forall d :: !Refers(steps, d, key)
    ensures layers != [] && IndexOf(steps, |steps|)[key] in layers[0]
  {
    var sources :| LayersFrom(steps, sources, layers);
    var g, ids := CodeGraph(steps), PlanIds(steps, sources);
    PlanIdsAreMaximal(steps, sources);
    assert steps[..|steps|] == steps;
    forall d ensures (d, key) !in g.edges { PlanEdgesMean(steps, |steps|, d, key); }
    FreeIsFirst(g, ids, key);
    var i :| 0 <= i < |ids[0]| && ids[0][i] == key;
    assert layers[0][i] == IndexOf(steps, |steps|)[key];
  }

  lemma FreeIsFirst<T(!new)>(g: Graph<T>, ids: seq<seq<T>>, v: T)
    requires IsMaximalLayering(g, ids) && v in g.nodes && forall d :: (d, v) !in g.edges
    ensures ids != [] && v in ids[0]
  {
    assert Ready(g, v, {}) && Before(ids, 0) == {};
    if ids != [] { assert IsLayer(g, ids, 0); }
  }

  // ---------- The exact condition ----------

  /** The identifier that the index gives to step `i` when its own is taken. */
  function Renamed(i: nat): string {
    "step_" + Itoa(i + 1) + "_" + Itoa(i)
  }

  /** An earlier step bears the same identifier. */
  ghost predicate Repeated(steps: seq<PlanStep>, i: nat)
    requires i < |steps|
  {
    steps[i].id in Ids(steps[..i])
  }

  /** Non-empty trimmed identifiers, possibly repeated, none of them one that the index would give. */
  ghost predicate TrimmedIds(steps: seq<PlanStep>) {
    && (forall s <- steps :: s.id != "" && TrimSpace(s.id) == s.id)
    && forall i: nat | i < |steps| :: Renamed(i) !in Ids(steps)
  }

  /** Step `i` as it is stored. */
  function Stored(steps: seq<PlanStep>, i: nat): PlanStep
    requires i < |steps|
  {
    IndexKey(IndexOf(steps, i), steps[i], i).1
  }

  /** Whatever a step refers to is in an earlier layer than the step. */
  ghost predicate OrderKept(steps: seq<PlanStep>, layers: seq<seq<PlanStep>>) {
    forall i: nat, d | i < |steps| && d in steps[i].dependsOn && d != "" ::
      EarlierLayer(layers, StepAt(IndexOf(steps, |steps|), d), Stored(steps, i))
  }

  ghost predicate EarlierLayer(layers: seq<seq<PlanStep>>, a: PlanStep, b: PlanStep) {
    exists j, k :: 0 <= j < k < |layers| && a in layers[j] && b in layers[k]
  }

  ghost predicate RefersToNothing(st: PlanStep) {
    forall d <- st.dependsOn :: d == ""
  }

  /** Of the identifiers `all`, the keys are those of `borne`. */
  ghost predicate KeysWithin(m: map<string, PlanStep>, borne: set<string>, all: set<string>) {
    && (forall id <- borne :: id in m)
    && (forall k <- m :: k in all ==> k in borne)
    && forall k <- m :: m[k].id == k
  }

  /** The keys of the first `i` steps: their identifiers and names that no step bears. */
  ghost predicate KeysAre(steps: seq<PlanStep>, m: map<string, PlanStep>, i: nat)
    requires i <= |steps|
  {
    KeysWithin(m, Ids(steps[..i]), Ids(steps)) && |m| <= i
  }

  lemma KeyIs(steps: seq<PlanStep>, m: map<string, PlanStep>, i: nat)
    requires TrimmedIds(steps) && i < |steps| && KeysAre(steps, m, i)
    ensures var key := if Repeated(steps, i) then Renamed(i) else steps[i].id;
      IndexKey(m, steps[i], i) == (key, steps[i].(id := key)) && (!Repeated(steps, i) ==> key !in m)
  {
    assert steps[i] in steps && steps[i].id in Ids(steps);
  }

  lemma KeysNext(steps: seq<PlanStep>, m: map<string, PlanStep>, i: nat)
    requires TrimmedIds(steps) && i < |steps| && KeysAre(steps, m, i)
    ensures var (key, stored) := IndexKey(m, steps[i], i); KeysAre(steps, m[key := stored], i + 1)
  {
    hide IndexKey, Ids, KeysWithin, TrimSpace, Itoa;
    KeyIs(steps, m, i);
    var (key, stored) := IndexKey(m, steps[i], i);
    IdsNext(steps, i);
    KeyAdded(m, Ids(steps[..i]), Ids(steps), steps[i].id, key, stored);
    assert m[key := stored].Keys == m.Keys + {key};
  }

  lemma KeyAdded(m: map<string, PlanStep>, borne: set<string>, all: set<string>, id: string, key: string, st: PlanStep)
    requires KeysWithin(m, borne, all) && st.id == key && (key == id || (id in borne && key !in all))
    ensures KeysWithin(m[key := st], borne + {id}, all)
  {}

  lemma IdsNext(steps: seq<PlanStep>, i: nat)
    requires i < |steps|
    ensures Ids(steps[..i + 1]) == Ids(steps[..i]) + {steps[i].id}
  {
    assert steps[..i + 1] == steps[..i] + [steps[i]];
  }

  lemma NoKeys(steps: seq<PlanStep>)
    ensures KeysAre(steps, IndexOf(steps, 0), 0)
  {}

  lemma {:induction false} KeysSoFar(steps: seq<PlanStep>, i: nat)
    requires TrimmedIds(steps) && i <= |steps|
    ensures KeysAre(steps, IndexOf(steps, i), i)
  {
    hide IndexOf, KeysAre, IndexKey, TrimmedIds;
    if i == 0 {
      NoKeys(steps);
    } else {
      KeysSoFar(steps, i - 1);
      KeysNext(steps, IndexOf(steps, i - 1), i - 1);
      IndexNext(steps, i - 1);
    }
  }

  /** When the index is as long as the plan, no step has replaced another one in it. */
  lemma {:induction false} NoneReplaced(steps: seq<PlanStep>, n: nat, i: nat)
    requires TrimmedIds(steps) && i < n <= |steps| && |IndexOf(steps, n)| == n
    ensures var (key, stored) := IndexKey(IndexOf(steps, i), steps[i], i);
      key in IndexOf(steps, n) && IndexOf(steps, n)[key] == stored
    decreases n
  {
    hide IndexOf, TrimmedIds, IndexKey, KeysWithin;
    var m := IndexOf(steps, n - 1);
    var (key, stored) := IndexKey(m, steps[n - 1], n - 1);
    KeysSoFar(steps, n - 1);
    IndexNext(steps, n - 1);
    assert m[key := stored].Keys == m.Keys + {key};
    if i < n - 1 { NoneReplaced(steps, n - 1, i); }
  }

  /** Every key is layered, and the index is as long as the plan. */
  lemma AllLayered(steps: seq<PlanStep>, sources: seq<string>, layers: seq<seq<PlanStep>>)
    requires TrimmedIds(steps) && LayersFrom(steps, sources, layers)
    ensures var ids := PlanIds(steps, sources);
      && IsMaximalLayering(CodeGraph(steps), ids) && Before(ids, |ids|) == IndexOf(steps, |steps|).Keys
      && |IndexOf(steps, |steps|)| == |steps|
  {
    hide IndexOf, PlanEdges, Layering, TrimmedIds, IsMaximalLayering, IsLayering;
    var ids, keys := PlanIds(steps, sources), IndexOf(steps, |steps|).Keys;
    PlanIdsAreMaximal(steps, sources);
    KeysSoFar(steps, |steps|);
    assert steps[..|steps|] == steps;
    forall e <- PlanEdges(steps, |steps|) ensures e.1 in keys { PlanEdgesMean(steps, |steps|, e.0, e.1); }
    assert CodeGraph(steps).nodes == keys;
    LayeredIsWithin(CodeGraph(steps), ids);
    SubsetCount(Before(ids, |ids|), keys);
    SameSize(Before(ids, |ids|), keys);
  }

  /** A reference under the step's own key is an edge that the layers respect. */
  lemma EdgeIsKept(steps: seq<PlanStep>, sources: seq<string>, layers: seq<seq<PlanStep>>, d: string, v: string)
    requires TrimmedIds(steps) && LayersFrom(steps, sources, layers)
    requires Refers(steps, d, v)
    ensures var m := IndexOf(steps, |steps|); v in m && EarlierLayer(layers, StepAt(m, d), StepAt(m, v))
  {
    hide IndexOf, PlanEdges, Layering, TrimmedIds, Frontier, Before;
    var ids, m := PlanIds(steps, sources), IndexOf(steps, |steps|);
    AllLayered(steps, sources, layers);
    KeysSoFar(steps, |steps|);
    assert steps[..|steps|] == steps;
    PlanEdgesMean(steps, |steps|, d, v);
    assert (d, v) in CodeGraph(steps).edges;
    var k := BeforeFrom(ids, |ids|, v);
    assert IsLayer(CodeGraph(steps), ids, k);
    var j := BeforeFrom(ids, k, d);
    StepIsThere(m, ids, j, d);
    StepIsThere(m, ids, k, v);
  }

  lemma StepIsThere(m: map<string, PlanStep>, ids: seq<seq<string>>, k: nat, v: string)
    requires k < |ids| && v in ids[k]
    ensures StepAt(m, v) in StepLayers(m, ids)[k]
  {
    var i :| 0 <= i < |ids[k]| && ids[k][i] == v;
    assert StepLayers(m, ids)[k][i] == StepAt(m, v);
  }

  /** A renamed step with a reference is in the first layer, so nothing is in an earlier one. */
  lemma RenamedIsNotKept(steps: seq<PlanStep>, sources: seq<string>, layers: seq<seq<PlanStep>>, i: nat, a: PlanStep)
    requires TrimmedIds(steps) && LayersFrom(steps, sources, layers) && i < |steps| && Repeated(steps, i)
    ensures !EarlierLayer(layers, a, Stored(steps, i))
  {
    hide IndexOf, PlanEdges, Layering, Frontier, Before, IndexKey, TrimSpace, Itoa;
    var ids, m, g := PlanIds(steps, sources), IndexOf(steps, |steps|), CodeGraph(steps);
    var key := Renamed(i);
    AllLayered(steps, sources, layers);
    KeysSoFar(steps, i);
    KeyIs(steps, IndexOf(steps, i), i);
    NoneReplaced(steps, |steps|, i);
    KeysSoFar(steps, |steps|);
    assert steps[..|steps|] == steps;
    forall d ensures (d, key) !in g.edges { PlanEdgesMean(steps, |steps|, d, key); }
    FreeIsFirst(g, ids, key);
    forall k | 0 <= k < |layers| && m[key] in layers[k] ensures k == 0 {
      var x :| 0 <= x < |layers[k]| && layers[k][x] == m[key];
      StoredUnderItsId(m, ids[k][x], key);
      LayersDisjoint(g, ids, 0, k, key);
    }
  }

  lemma StoredUnderItsId(m: map<string, PlanStep>, v: string, key: string)
    requires (forall k <- m :: m[k].id == k) && key in m && key != "" && StepAt(m, v) == m[key]
    ensures v == key
  {}

  /**
   * The exact condition under which a plan with repeated identifiers runs every step after what it refers to: no step
   * whose identifier an earlier step bears refers to anything.
   */
  lemma OrderIsKeptIff(steps: seq<PlanStep>, layers: seq<seq<PlanStep>>)
    requires TrimmedIds(steps) && Built(steps, layers)
    ensures OrderKept(steps, layers) <==>
      forall i: nat | i < |steps| && Repeated(steps, i) :: RefersToNothing(steps[i])
  {
    hide IndexOf, IndexKey, LayersFrom, EarlierLayer, TrimSpace, Itoa;
    var sources :| LayersFrom(steps, sources, layers);
    forall i: nat, d | i < |steps| && d in steps[i].dependsOn && d != "" && !Repeated(steps, i)
      ensures EarlierLayer(layers, StepAt(IndexOf(steps, |steps|), d), Stored(steps, i))
    {
      KeysSoFar(steps, i);
      KeyIs(steps, IndexOf(steps, i), i);
      assert Refers(steps, d, steps[i].id);
      AllLayered(steps, sources, layers);
      EdgeIsKept(steps, sources, layers, d, steps[i].id);
      NoneReplaced(steps, |steps|, i);
    }
    forall i: nat, d | i < |steps| && d in steps[i].dependsOn && d != "" && Repeated(steps, i)
      ensures !OrderKept(steps, layers)
    {
      RenamedIsNotKept(steps, sources, layers, i, StepAt(IndexOf(steps, |steps|), d));
      assert !EarlierLayer(layers, StepAt(IndexOf(steps, |steps|), d), Stored(steps, i));
    }
  }

  /** The smallest such plan: the third step depends on the first, yet both are in the first layer. */
  lemma RepeatedIdRunsEarly(x: PlanStep, a: PlanStep, late: PlanStep, layers: seq<seq<PlanStep>>)
    requires x.id != a.id == late.id && x.id != "" && a.id != ""
    requires TrimSpace(x.id) == x.id && TrimSpace(a.id) == a.id
    requires x.dependsOn == [] && a.dependsOn == [] && late.dependsOn == [x.id]
    requires Renamed(2) !in {x.id, a.id}
    requires Built([x, a, late], layers)
    ensures layers != [] && x in layers[0] && late.(id := Renamed(2)) in layers[0]
  {
    hide IndexOf, Built, TrimSpace, Renamed;
    var steps := [x, a, late];
    IndexOfThree(x, a, late);
    assert Ids(steps) == {x.id, a.id};
    RenamedRunsFirst(steps, layers, Renamed(2));
    UnboundRunsFirst(steps, layers, x.id);
  }

  lemma IndexOfThree(x: PlanStep, a: PlanStep, late: PlanStep)
    requires x.id != a.id == late.id && x.id != "" && a.id != ""
    requires TrimSpace(x.id) == x.id && TrimSpace(a.id) == a.id
    ensures IndexOf([x, a, late], 3) ==
      map[][x.id := x][a.id := a][Renamed(2) := late.(id := Renamed(2))]
  {
    hide TrimSpace, Itoa;
    var steps := [x, a, late];
    assert IndexOf(steps, 1) == map[][x.id := x];
    assert IndexOf(steps, 2) == map[][x.id := x][a.id := a];
  }
}
