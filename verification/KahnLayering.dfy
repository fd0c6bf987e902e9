/** Kahn's layering of a dependency graph, over nodes of any type. */
module KahnLayering {
  import opened DependencyGraph
  import opened Sequences

  type Edges<T> = seq<(T, T)>

  // ---------- Specification: layerings ----------

  ghost function Before<T(!new)>(layers: seq<seq<T>>, k: nat): set<T>
    requires k <= |layers|
  {
    if k == 0 then {} else Before(layers, k - 1) + Elements(layers[k - 1])
  }

  ghost predicate Ready<T(!new)>(g: Graph<T>, v: T, done: set<T>) {
    forall d | (d, v) in g.edges :: d in done
  }

  /** Layer `k` holds exactly the nodes that become ready once the first `k` layers are done. */
  ghost predicate IsLayer<T(!new)>(g: Graph<T>, layers: seq<seq<T>>, k: nat)
    requires k < |layers|
  {
    && layers[k] != [] && NoDup(layers[k])
    && forall v :: v in layers[k] <==> v in g.nodes && v !in Before(layers, k) && Ready(g, v, Before(layers, k))
  }

  ghost predicate IsLayering<T(!new)>(g: Graph<T>, layers: seq<seq<T>>) {
    forall k | 0 <= k < |layers| :: IsLayer(g, layers, k)
  }

  lemma {:induction false} BeforeHas<T(!new)>(layers: seq<seq<T>>, j: nat, k: nat, v: T)
    requires j < k <= |layers| && v in layers[j]
    ensures v in Before(layers, k)
  {
    if j < k - 1 { BeforeHas(layers, j, k - 1, v); }
  }

  lemma {:induction false} BeforeFrom<T(!new)>(layers: seq<seq<T>>, k: nat, v: T) returns (j: nat)
    requires k <= |layers| && v in Before(layers, k)
    ensures j < k && v in layers[j]
  {
    if v in layers[k - 1] { j := k - 1; } else { j := BeforeFrom(layers, k - 1, v); }
  }

  lemma {:induction false} BeforePrefix<T(!new)>(layers: seq<seq<T>>, more: seq<T>, k: nat)
    requires k <= |layers|
    ensures Before(layers + [more], k) == Before(layers, k)
  {
    if k > 0 {
      BeforePrefix(layers, more, k - 1);
      assert (layers + [more])[k - 1] == layers[k - 1];
    }
  }

  lemma ExtendLayering<T(!new)>(g: Graph<T>, layers: seq<seq<T>>, more: seq<T>)
    requires IsLayering(g, layers) && more != [] && NoDup(more)
    requires var done := Before(layers, |layers|);
             forall v :: v in more <==> v in g.nodes && v !in done && Ready(g, v, done)
    ensures IsLayering(g, layers + [more])
    ensures Before(layers + [more], |layers| + 1) == Before(layers, |layers|) + Elements(more)
  {
    var all := layers + [more];
    BeforePrefix(layers, more, |layers|);
    forall k | 0 <= k < |all| ensures IsLayer(g, all, k) {
      BeforePrefix(layers, more, k);
      if k < |layers| { assert IsLayer(g, layers, k); assert all[k] == layers[k]; }
    }
  }

  /** In a layering, the layer index of a node is the length of its longest dependency chain. */
  lemma {:induction false} LayerIsLongestChain<T(!new)>(g: Graph<T>, layers: seq<seq<T>>, k: nat, v: T)
    requires WellFormed(g) && IsLayering(g, layers) && k < |layers| && v in layers[k]
    ensures LongestChain(g, v, k)
  {
    assert IsLayer(g, layers, k);
    var lower := ChainOfLayer(g, layers, k, v);
    forall c | ChainTo(g, c, v) ensures |c| <= k + 1 {
      ChainBound(g, layers, k, v, c);
    }
  }

  lemma DependencyInLayer<T(!new)>(g: Graph<T>, layers: seq<seq<T>>, k: nat, v: T) returns (d: T)
    requires IsLayering(g, layers) && 0 < k < |layers| && v in layers[k]
    ensures (d, v) in g.edges && d in layers[k - 1]
  {
    assert IsLayer(g, layers, k) && IsLayer(g, layers, k - 1);
    assert !Ready(g, v, Before(layers, k - 1));
    d :| (d, v) in g.edges && d !in Before(layers, k - 1);
    assert d in Before(layers, k);
  }

  lemma {:induction false} ChainOfLayer<T(!new)>(g: Graph<T>, layers: seq<seq<T>>, k: nat, v: T) returns (c: seq<T>)
    requires WellFormed(g) && IsLayering(g, layers) && k < |layers| && v in layers[k]
    ensures ChainTo(g, c, v) && |c| == k + 1
  {
    assert IsLayer(g, layers, k);
    if k == 0 {
      c := [v];
    } else {
      var d := DependencyInLayer(g, layers, k, v);
      var tail := ChainOfLayer(g, layers, k - 1, d);
      c := tail + [v];
    }
  }

  lemma {:induction false} ChainBound<T(!new)>(g: Graph<T>, layers: seq<seq<T>>, k: nat, v: T, c: seq<T>)
    requires WellFormed(g) && IsLayering(g, layers) && k < |layers| && v in layers[k] && ChainTo(g, c, v)
    ensures |c| <= k + 1
  {
    if |c| >= 2 {
      assert IsLayer(g, layers, k);
      var d := c[|c| - 2];
      assert (d, v) in g.edges;
      var j := BeforeFrom(layers, k, d);
      ChainBound(g, layers, j, d, c[..|c| - 1]);
    }
  }

  lemma LayersDisjoint<T(!new)>(g: Graph<T>, layers: seq<seq<T>>, i: nat, j: nat, v: T)
    requires IsLayering(g, layers) && i < |layers| && j < |layers| && v in layers[i] && v in layers[j]
    ensures i == j
  {
    assert IsLayer(g, layers, i) && IsLayer(g, layers, j);
    if i < j { BeforeHas(layers, i, j, v); }
    if j < i { BeforeHas(layers, j, i, v); }
  }

  /** A layering that cannot be extended covers every node exactly when the graph has no cycle. */
  lemma MaximalLayering<T(!new)>(g: Graph<T>, layers: seq<seq<T>>)
    requires WellFormed(g) && IsMaximalLayering(g, layers)
    ensures Before(layers, |layers|) == g.nodes <==> !Cyclic(g)
  {
    var done := Before(layers, |layers|);
    if done == g.nodes {
      var rank := map v | v in done :: LayerIndex(layers, v);
      forall e <- g.edges ensures e.0 in rank && e.1 in rank && rank[e.0] < rank[e.1] {
        var k := rank[e.1];
        assert IsLayer(g, layers, k);
        assert Ready(g, e.1, Before(layers, k));
        assert (e.0, e.1) in g.edges;
        var j := BeforeFrom(layers, k, e.0);
        LayersDisjoint(g, layers, j, rank[e.0], e.0);
      }
      RankedIsAcyclic(g, rank);
    } else {
      var u := g.nodes - done;
      forall v | v in u ensures DependsInto(g, v, u) {
        var d :| (d, v) in g.edges && d !in done;
      }
      StuckSetHasCycle(g, u);
    }
  }

  ghost function LayerIndex<T(!new)>(layers: seq<seq<T>>, v: T): (k: nat)
    requires v in Before(layers, |layers|)
    ensures k < |layers| && v in layers[k]
  {
    assert exists j :: 0 <= j < |layers| && v in layers[j] by { var j := BeforeFrom(layers, |layers|, v); }
    var j :| 0 <= j < |layers| && v in layers[j]; j
  }

  // ---------- Specification: degree and adjacency tables of an edge list ----------

  ghost function GraphOf<T(!new)>(nodes: set<T>, edges: Edges<T>): Graph<T> {
    Graph(nodes, Elements(edges))
  }

  /** The number of listed edges into `v` whose source is not done. */
  ghost function CountOpen<T(!new)>(edges: Edges<T>, v: T, done: set<T>): nat {
    if edges == [] then 0 else
      var e := edges[|edges| - 1];
      CountOpen(edges[..|edges| - 1], v, done) + if e.1 == v && e.0 !in done then 1 else 0
  }

  ghost function Targets<T(!new)>(edges: Edges<T>, d: T): seq<T> {
    if edges == [] then [] else
      var e := edges[|edges| - 1];
      var rest := Targets(edges[..|edges| - 1], d);
      if e.0 == d then rest + [e.1] else rest
  }

  lemma {:induction false} CountOpenZero<T(!new)>(edges: Edges<T>, v: T, done: set<T>)
    ensures CountOpen(edges, v, done) == 0 <==> forall e <- edges :: e.1 == v ==> e.0 in done
  {
    if edges != [] {
      CountOpenZero(edges[..|edges| - 1], v, done);
      assert edges == edges[..|edges| - 1] + [edges[|edges| - 1]];
    }
  }

  lemma {:induction false} CloseNode<T(!new)>(edges: Edges<T>, d: T, v: T, done: set<T>)
    requires d !in done
    ensures CountOpen(edges, v, done) == CountOpen(edges, v, done + {d}) + multiset(Targets(edges, d))[v]
  {
    if edges != [] { CloseNode(edges[..|edges| - 1], d, v, done); }
  }

  lemma {:induction false} TargetIsEdge<T(!new)>(edges: Edges<T>, d: T, v: T)
    requires v in Targets(edges, d)
    ensures (d, v) in edges
  {
    if v in Targets(edges[..|edges| - 1], d) { TargetIsEdge(edges[..|edges| - 1], d, v); }
  }

  function Degree<T(==)>(m: map<T, int>, k: T): int { if k in m then m[k] else 0 }

  function Adjacent<T(==)>(m: map<T, seq<T>>, k: T): seq<T> { if k in m then m[k] else [] }

  /** The degree and adjacency tables that describe `edges`. */
  ghost predicate Tables<T(!new)>(inDegree: map<T, int>, adjList: map<T, seq<T>>, edges: Edges<T>) {
    && (forall v :: Degree(inDegree, v) == CountOpen(edges, v, {}))
    && (forall d :: Adjacent(adjList, d) == Targets(edges, d))
    && (forall e <- edges :: e.0 in inDegree && e.1 in inDegree)
  }

  /** What the dependency pass has built from `edges` over the indexed steps `known`. */
  ghost predicate Linked<T(!new)>(inDegree: map<T, int>, adjList: map<T, seq<T>>, edges: Edges<T>, known: set<T>) {
    && Tables(inDegree, adjList, edges)
    && inDegree.Keys == known + (set e <- edges :: e.1)
    && forall e <- edges :: e.0 != e.1 && e.0 in known
  }

  lemma LinkEdge<T(!new)>(inDegree: map<T, int>, adjList: map<T, seq<T>>, edges: Edges<T>, known: set<T>, d: T, v: T)
    requires Linked(inDegree, adjList, edges, known) && d != v && d in known
    ensures Linked(inDegree[v := Degree(inDegree, v) + 1], adjList[d := Adjacent(adjList, d) + [v]],
                   edges + [(d, v)], known)
  {
    var longer := edges + [(d, v)];
    assert longer[..|longer| - 1] == edges;
    forall x ensures CountOpen(longer, x, {}) == CountOpen(edges, x, {}) + if x == v then 1 else 0 {}
    forall x ensures Targets(longer, x) == if x == d then Targets(edges, x) + [v] else Targets(edges, x) {}
  }

  // ---------- Specification: the layering that an order of the free nodes gives ----------

  /** Degrees and queue after one edge to each of `targets` is removed, in this order. */
  ghost function Relaxing<T(!new)>(inDegree: map<T, int>, queue: seq<T>, targets: seq<T>): (map<T, int>, seq<T>) {
    if targets == [] then (inDegree, queue)
    else
      var v := targets[|targets| - 1];
      var (d, q) := Relaxing(inDegree, queue, targets[..|targets| - 1]);
      var d' := d[v := Degree(d, v) - 1];
      (d', if d'[v] == 0 then q + [v] else q)
  }

  /** Degrees after the nodes of a layer are removed, in this order, and the nodes that become free on the way. */
  ghost function Drained<T(!new)>(edges: Edges<T>, inDegree: map<T, int>, ids: seq<T>): (map<T, int>, seq<T>) {
    if ids == [] then (inDegree, [])
    else
      var (d, q) := Drained(edges, inDegree, ids[..|ids| - 1]);
      Relaxing(d, q, Targets(edges, ids[|ids| - 1]))
  }

  ghost function Open<T(!new)>(inDegree: map<T, int>): set<T> {
    set v | v in inDegree && inDegree[v] > 0
  }

  /** All layers, each but the first in the order in which draining the one before frees its nodes. */
  ghost function Layering<T(!new)>(edges: Edges<T>, inDegree: map<T, int>, queue: seq<T>): seq<seq<T>>
    decreases |Open(inDegree)|, |queue|
  {
    if queue == [] then []
    else
      var (d, q) := Drained(edges, inDegree, queue);
      DrainingCloses(edges, inDegree, queue);
      [queue] + Layering(edges, d, q)
  }

  lemma {:induction false} RelaxingCloses<T(!new)>(inDegree: map<T, int>, queue: seq<T>, targets: seq<T>, open: set<T>)
    requires Open(inDegree) <= open && forall v <- queue :: v in open && v !in Open(inDegree)
    ensures var (d, q) := Relaxing(inDegree, queue, targets);
      Open(d) <= open && forall v <- q :: v in open && v !in Open(d)
    decreases |targets|
  {
    if targets != [] { RelaxingCloses(inDegree, queue, targets[..|targets| - 1], open); }
  }

  lemma {:induction false} DrainingClosesWithin<T(!new)>(edges: Edges<T>, inDegree: map<T, int>, ids: seq<T>)
    ensures var (d, q) := Drained(edges, inDegree, ids);
      Open(d) <= Open(inDegree) && forall v <- q :: v in Open(inDegree) && v !in Open(d)
    decreases |ids|
  {
    if ids != [] {
      DrainingClosesWithin(edges, inDegree, ids[..|ids| - 1]);
      var (d, q) := Drained(edges, inDegree, ids[..|ids| - 1]);
      RelaxingCloses(d, q, Targets(edges, ids[|ids| - 1]), Open(inDegree));
    }
  }

  lemma DrainingCloses<T(!new)>(edges: Edges<T>, inDegree: map<T, int>, ids: seq<T>)
    ensures var (d, q) := Drained(edges, inDegree, ids);
      |Open(d)| <= |Open(inDegree)| && (q != [] ==> |Open(d)| < |Open(inDegree)|)
  {
    DrainingClosesWithin(edges, inDegree, ids);
    var (d, q) := Drained(edges, inDegree, ids);
    SubsetCount(Open(d), Open(inDegree));
    if q != [] {
      assert q[0] in q;
      SubsetCount(Open(d), Open(inDegree) - {q[0]});
    }
  }

  /** The state after `done` (a prefix of the out-edges of a node) has been relaxed. */
  ghost predicate Relaxed<T(!new)>(inDegree0: map<T, int>, queue0: seq<T>, done: seq<T>, inDegree: map<T, int>,
          queue: seq<T>)
  {
    && inDegree.Keys == inDegree0.Keys
    && (forall v <- inDegree :: inDegree[v] == inDegree0[v] - multiset(done)[v])
    && NoDup(queue)
    && (forall v :: v in queue <==> v in queue0 || (v in done && v in inDegree && inDegree[v] == 0))
  }

  lemma RelaxOne<T(!new)>(inDegree0: map<T, int>, queue0: seq<T>, done: seq<T>, n: T, inDegree: map<T, int>,
          queue: seq<T>)
    requires Relaxed(inDegree0, queue0, done, inDegree, queue)
    requires n in inDegree && inDegree0[n] >= multiset(done)[n] + 1
    requires forall v <- queue0 :: v in inDegree0 && inDegree0[v] == 0
    ensures var inDegree' := inDegree[n := inDegree[n] - 1];
            Relaxed(inDegree0, queue0, done + [n], inDegree', if inDegree'[n] == 0 then queue + [n] else queue)
  {
    var inDegree' := inDegree[n := inDegree[n] - 1];
    var queue' := if inDegree'[n] == 0 then queue + [n] else queue;
    if inDegree'[n] == 0 { NoDupAppend(queue, n); }
    forall v ensures v in queue' <==> v in queue0 || (v in done + [n] && v in inDegree' && inDegree'[v] == 0) {
      if v != n { assert v in done + [n] <==> v in done; }
    }
  }

  lemma {:induction false} RelaxingIsRelaxed<T(!new)>(inDegree: map<T, int>, queue: seq<T>, targets: seq<T>)
    requires forall v <- targets :: v in inDegree
    requires forall v <- inDegree :: inDegree[v] >= multiset(targets)[v]
    requires NoDup(queue) && forall v <- queue :: v in inDegree && inDegree[v] == 0
    ensures Relaxed(inDegree, queue, targets, Relaxing(inDegree, queue, targets).0,
      Relaxing(inDegree, queue, targets).1)
    decreases |targets|
  {
    if targets != [] {
      var n := |targets| - 1;
      var (d, q) := Relaxing(inDegree, queue, targets[..n]);
      assert targets == targets[..n] + [targets[n]];
      RelaxingIsRelaxed(inDegree, queue, targets[..n]);
      RelaxOne(inDegree, queue, targets[..n], targets[n], d, q) by { CountPrefix(targets, n); }
    }
  }

  method Relax<T(==, !new)>(inDegree0: map<T, int>, queue0: seq<T>, targets: seq<T>)
    returns (inDegree: map<T, int>, queue: seq<T>)
    ensures (inDegree, queue) == Relaxing(inDegree0, queue0, targets)
  {
    inDegree, queue := inDegree0, queue0;
    for j := 0 to |targets|
      invariant (inDegree, queue) == Relaxing(inDegree0, queue0, targets[..j])
    {
      var n := targets[j];
      assert targets[..j + 1][..j] == targets[..j];
      inDegree := inDegree[n := Degree(inDegree, n) - 1];
      if inDegree[n] == 0 { queue := queue + [n]; }
    }
    assert targets[..|targets|] == targets;
  }

  lemma CountPrefix<T>(s: seq<T>, j: nat)
    requires j < |s|
    ensures multiset(s)[s[j]] >= multiset(s[..j])[s[j]] + 1
  {
    assert s == s[..j] + s[j..];
    assert s[j] in s[j..] by { assert s[j..][0] == s[j]; }
  }

  /** The degree table once the nodes of `done` have been removed. */
  ghost predicate Degrees<T(!new)>(inDegree: map<T, int>, edges: Edges<T>, done: set<T>) {
    forall v <- inDegree :: inDegree[v] == CountOpen(edges, v, done)
  }

  /** Removes the nodes of one layer and collects the nodes that become free. */
  method DrainLayer<T(==, !new)>(inDegree0: map<T, int>, adjList: map<T, seq<T>>, ids: seq<T>, ghost edges: Edges<T>)
    returns (inDegree: map<T, int>, queue: seq<T>)
    requires forall d :: Adjacent(adjList, d) == Targets(edges, d)
    ensures (inDegree, queue) == Drained(edges, inDegree0, ids)
  {
    inDegree, queue := inDegree0, [];
    for i := 0 to |ids|
      invariant (inDegree, queue) == Drained(edges, inDegree0, ids[..i])
    {
      assert ids[..i + 1][..i] == ids[..i];
      inDegree, queue := Relax(inDegree, queue, Adjacent(adjList, ids[i]));
    }
    assert ids[..|ids|] == ids;
  }

  lemma {:induction false} DrainedSoFar<T(!new)>(edges: Edges<T>, inDegree0: map<T, int>, ids: seq<T>, i: nat,
          done: set<T>)
    requires forall e <- edges :: e.0 in inDegree0 && e.1 in inDegree0
    requires Degrees(inDegree0, edges, done) && Frontier(ids, inDegree0, done) && i <= |ids|
    ensures var (d, q) := Drained(edges, inDegree0, ids[..i]);
      d.Keys == inDegree0.Keys && Draining(d, q, edges, ids, i, done)
    decreases i
  {
    if i == 0 {
      StartDrain(inDegree0, edges, ids, done);
    } else {
      var (d, q) := Drained(edges, inDegree0, ids[..i - 1]);
      DrainedSoFar(edges, inDegree0, ids, i - 1, done);
      assert ids[..i][..i - 1] == ids[..i - 1];
      BeforeRelax(d, q, edges, ids, i - 1, done);
      RelaxingIsRelaxed(d, q, Targets(edges, ids[i - 1]));
      var (d', q') := Drained(edges, inDegree0, ids[..i]);
      AfterRelax(d, q, d', q', edges, ids, i - 1, done);
    }
  }

  lemma DrainedIsFrontier<T(!new)>(edges: Edges<T>, inDegree: map<T, int>, ids: seq<T>, done: set<T>)
    requires forall e <- edges :: e.0 in inDegree && e.1 in inDegree
    requires Degrees(inDegree, edges, done) && Frontier(ids, inDegree, done)
    ensures var (d, q) := Drained(edges, inDegree, ids);
      && d.Keys == inDegree.Keys && Degrees(d, edges, done + Elements(ids))
      && Frontier(q, d, done + Elements(ids))
  {
    DrainedSoFar(edges, inDegree, ids, |ids|, done);
    assert ids[..|ids|] == ids;
    var (d, q) := Drained(edges, inDegree, ids);
    EndDrain(d, q, edges, ids, done);
  }

  lemma StartDrain<T(!new)>(inDegree: map<T, int>, edges: Edges<T>, ids: seq<T>, done: set<T>)
    requires forall e <- edges :: e.0 in inDegree && e.1 in inDegree
    requires Degrees(inDegree, edges, done) && Frontier(ids, inDegree, done)
    ensures Draining(inDegree, [], edges, ids, 0, done)
  {
    assert done + Elements(ids[..0]) == done;
  }

  lemma EndDrain<T(!new)>(inDegree: map<T, int>, queue: seq<T>, edges: Edges<T>, ids: seq<T>, done: set<T>)
    requires Draining(inDegree, queue, edges, ids, |ids|, done)
    ensures Degrees(inDegree, edges, done + Elements(ids)) && Frontier(queue, inDegree, done + Elements(ids))
  {
    assert ids[..|ids|] == ids;
  }

  /** The state after the first `i` nodes of the layer `ids` are removed. */
  ghost predicate Draining<T(!new)>(inDegree: map<T, int>, queue: seq<T>, edges: Edges<T>, ids: seq<T>, i: nat,
          done: set<T>)
    requires i <= |ids|
  {
    && Degrees(inDegree, edges, done + Elements(ids[..i]))
    && NoDup(queue)
    && (forall v :: v in queue <==> v in inDegree && v !in done && v !in ids && inDegree[v] == 0)
    && (forall v <- inDegree :: v in done || v in ids ==> inDegree[v] == 0)
    && NoDup(ids) && (forall v <- ids :: v !in done)
    && (forall e <- edges :: e.0 in inDegree && e.1 in inDegree)
  }

  lemma BeforeRelax<T(!new)>(inDegree: map<T, int>, queue: seq<T>, edges: Edges<T>, ids: seq<T>, i: nat, done: set<T>)
    requires i < |ids| && Draining(inDegree, queue, edges, ids, i, done)
    ensures done + Elements(ids[..i + 1]) == done + Elements(ids[..i]) + {ids[i]}
    ensures forall v <- Targets(edges, ids[i]) :: v in inDegree && inDegree[v] > 0
    ensures forall v <- inDegree ::
      (inDegree[v] == CountOpen(edges, v, done + Elements(ids[..i + 1])) + multiset(Targets(edges, ids[i]))[v])
  {
    var id, before := ids[i], done + Elements(ids[..i]);
    assert ids[..i + 1] == ids[..i] + [id];
    NotBefore(ids, i);
    ElementsAppend(ids[..i], id);
    forall v <- inDegree ensures inDegree[v] == CountOpen(edges, v, before + {id}) + multiset(Targets(edges, id))[v] {
      CloseNode(edges, id, v, before);
    }
    forall v <- Targets(edges, id) ensures v in inDegree && inDegree[v] > 0 {
      TargetIsEdge(edges, id, v);
    }
    assert before + {id} == done + Elements(ids[..i + 1]);
  }

  lemma AfterRelax<T(!new)>(inDegree: map<T, int>, queue: seq<T>, inDegree': map<T, int>, queue': seq<T>,
          edges: Edges<T>, ids: seq<T>, i: nat, done: set<T>)
    requires i < |ids| && Draining(inDegree, queue, edges, ids, i, done)
    requires Relaxed(inDegree, queue, Targets(edges, ids[i]), inDegree', queue')
    ensures Draining(inDegree', queue', edges, ids, i + 1, done)
  {
    BeforeRelax(inDegree, queue, edges, ids, i, done);
  }

  /** A layering of all nodes that can be layered at all. */
  ghost predicate IsMaximalLayering<T(!new)>(g: Graph<T>, layers: seq<seq<T>>) {
    && IsLayering(g, layers)
    && var done := Before(layers, |layers|);
       done <= g.nodes && forall v | v in g.nodes && v !in done :: !Ready(g, v, done)
  }

  lemma LayeredIsWithin<T(!new)>(g: Graph<T>, layers: seq<seq<T>>)
    requires IsMaximalLayering(g, layers)
    ensures IsLayering(g, layers) && Before(layers, |layers|) <= g.nodes
  {}

  /**
   * Every order of the free nodes gives a maximal layering: the layers from the frontier `queue` on complete the layers
   * `before` it.
   */
  lemma {:induction false} LayeringIsMaximal<T(!new)>(edges: Edges<T>, inDegree: map<T, int>, queue: seq<T>,
          done: set<T>, before: seq<seq<T>>)
    requires forall e <- edges :: e.0 in inDegree && e.1 in inDegree
    requires Degrees(inDegree, edges, done) && Frontier(queue, inDegree, done)
    requires IsLayering(GraphOf(inDegree.Keys, edges), before) && done == Before(before, |before|) <= inDegree.Keys
    ensures IsMaximalLayering(GraphOf(inDegree.Keys, edges), before + Layering(edges, inDegree, queue))
    decreases |Open(inDegree)|, |queue|
  {
    hide Drained, Degrees, Frontier, Open, IsLayering, IsMaximalLayering, NoDup, Elements, GraphOf;
    var g := GraphOf(inDegree.Keys, edges);
    if queue == [] {
      NoMoreFree(edges, inDegree, done, before);
      assert before + [] == before;
    } else {
      var (d, q) := Drained(edges, inDegree, queue);
      DrainingCloses(edges, inDegree, queue);
      DrainedIsFrontier(edges, inDegree, queue, done);
      FrontierIsLayer(queue, inDegree, edges, done, g, before);
      FrontierIsWithin(queue, inDegree, done);
      LayeringIsMaximal(edges, d, q, done + Elements(queue), before + [queue]);
      Unfolding(edges, inDegree, queue, before);
    }
  }

  lemma NoMoreFree<T(!new)>(edges: Edges<T>, inDegree: map<T, int>, done: set<T>, before: seq<seq<T>>)
    requires Degrees(inDegree, edges, done) && Frontier([], inDegree, done)
    requires IsLayering(GraphOf(inDegree.Keys, edges), before) && done == Before(before, |before|) <= inDegree.Keys
    ensures IsMaximalLayering(GraphOf(inDegree.Keys, edges), before)
  {
    ReadyIsZero(inDegree, edges, done, GraphOf(inDegree.Keys, edges));
    assert forall v | v in inDegree && v !in done :: v !in [];
  }

  lemma FrontierIsWithin<T(!new)>(queue: seq<T>, inDegree: map<T, int>, done: set<T>)
    requires Frontier(queue, inDegree, done) && queue != []
    ensures Elements(queue) <= inDegree.Keys && done < done + Elements(queue)
  {
    assert queue[0] in Elements(queue) && queue[0] in queue;
  }

  /** The free nodes in the order of iteration. */
  ghost function Free<T(!new)>(order: seq<T>, inDegree: map<T, int>): seq<T> {
    if order == [] then []
    else
      var v := order[|order| - 1];
      Free(order[..|order| - 1], inDegree) + if Degree(inDegree, v) == 0 then [v] else []
  }

  /**
   * Kahn layering; `order` is the iteration order of the degree table. It decides the order of the first layer, and
   * that decides the others.
   */
  method LayerGraph<T(==, !new)>(order: seq<T>, inDegree0: map<T, int>, adjList: map<T, seq<T>>, ghost edges: Edges<T>)
    returns (layers: seq<seq<T>>, visitedCount: nat)
    requires NoDup(order) && Elements(order) == inDegree0.Keys
    requires Tables(inDegree0, adjList, edges)
    ensures layers == Layering(edges, inDegree0, Free(order, inDegree0))
    ensures Frontier(Free(order, inDegree0), inDegree0, {})
    ensures IsMaximalLayering(GraphOf(inDegree0.Keys, edges), layers)
    ensures visitedCount == |Before(layers, |layers|)|
  {
    hide Drained, Frontier, Open, IsLayering, IsMaximalLayering, NoDup, Elements, GraphOf, Layering, Free,
      Before, Degrees;
    ghost var g := GraphOf(inDegree0.Keys, edges);
    var inDegree := inDegree0;
    var queue := FreeNodes(order, inDegree);
    layers, visitedCount := [], 0;
    ghost var done: set<T> := {};
    NothingLayered(edges, inDegree0);
    LayeringIsMaximal(edges, inDegree0, queue, {}, []);
    assert [] + Layering(edges, inDegree, queue) == Layering(edges, inDegree, queue);
    while |queue| > 0
      invariant done == Before(layers, |layers|) && done <= inDegree0.Keys && visitedCount == |done|
      invariant inDegree.Keys == inDegree0.Keys && Degrees(inDegree, edges, done)
      invariant Frontier(queue, inDegree, done)
      invariant IsLayering(g, layers)
      invariant layers + Layering(edges, inDegree, queue) == Layering(edges, inDegree0, Free(order, inDegree0))
      decreases inDegree0.Keys - done
    {
      var current := queue;
      FrontierIsLayer(current, inDegree, edges, done, g, layers);
      DrainedIsFrontier(edges, inDegree, current, done);
      ghost var before := inDegree;
      inDegree, queue := DrainLayer(inDegree, adjList, current, edges);
      Unfolding(edges, before, current, layers);
      FrontierIsWithin(current, before, done);
      visitedCount := visitedCount + |current|;
      layers := layers + [current];
      done := done + Elements(current);
    }
    NothingToDrain(edges, inDegree);
    assert layers + [] == layers;
  }

  lemma NothingLayered<T(!new)>(edges: Edges<T>, inDegree: map<T, int>)
    requires forall v :: Degree(inDegree, v) == CountOpen(edges, v, {})
    ensures Degrees(inDegree, edges, {}) && IsLayering(GraphOf(inDegree.Keys, edges), []) && Before<T>([], 0) == {}
  {
    forall v <- inDegree ensures inDegree[v] == CountOpen(edges, v, {}) { assert Degree(inDegree, v) == inDegree[v]; }
  }

  lemma NothingToDrain<T(!new)>(edges: Edges<T>, inDegree: map<T, int>)
    ensures Layering(edges, inDegree, []) == []
  {}

  lemma Unfolding<T(!new)>(edges: Edges<T>, inDegree: map<T, int>, queue: seq<T>, before: seq<seq<T>>)
    requires queue != []
    ensures var (d, q) := Drained(edges, inDegree, queue);
      before + Layering(edges, inDegree, queue) == before + [queue] + Layering(edges, d, q)
  {
    var (d, q) := Drained(edges, inDegree, queue);
    assert before + ([queue] + Layering(edges, d, q)) == before + [queue] + Layering(edges, d, q);
  }

  /** The queue between two layers: the nodes that are neither done nor waiting. */
  ghost predicate Frontier<T(!new)>(queue: seq<T>, inDegree: map<T, int>, done: set<T>) {
    && NoDup(queue) && (forall v :: v in queue <==> v in inDegree && v !in done && inDegree[v] == 0)
    && forall v <- done :: v in inDegree ==> inDegree[v] == 0
  }

  method FreeNodes<T(==, !new)>(order: seq<T>, inDegree: map<T, int>) returns (queue: seq<T>)
    requires NoDup(order) && Elements(order) == inDegree.Keys
    ensures Frontier(queue, inDegree, {}) && queue == Free(order, inDegree)
  {
    hide NoDup, FreeAmong, Frontier, Elements;
    queue := [];
    NoneFree(inDegree);
    for i := 0 to |order|
      invariant queue == Free(order[..i], inDegree)
      invariant NoDup(queue) && FreeAmong(queue, inDegree, order[..i])
    {
      assert order[i] !in order[..i] by { NotBefore(order, i); }
      assert order[..i + 1] == order[..i] + [order[i]] && order[..i + 1][..i] == order[..i];
      IsKey(order, inDegree, i);
      FreeOne(queue, inDegree, order[..i], order[i]);
      if inDegree[order[i]] == 0 { queue := queue + [order[i]]; }
    }
    assert order[..|order|] == order;
    AllFree(queue, inDegree, order);
  }

  lemma NoneFree<T(!new)>(inDegree: map<T, int>)
    ensures NoDup<T>([]) && FreeAmong([], inDegree, [])
  {}

  lemma IsKey<T(!new)>(order: seq<T>, inDegree: map<T, int>, i: nat)
    requires Elements(order) == inDegree.Keys && i < |order|
    ensures order[i] in inDegree
  {
    assert order[i] in Elements(order);
  }

  lemma AllFree<T(!new)>(queue: seq<T>, inDegree: map<T, int>, order: seq<T>)
    requires NoDup(queue) && FreeAmong(queue, inDegree, order) && Elements(order) == inDegree.Keys
    ensures Frontier(queue, inDegree, {})
  {
    forall v ensures v in order <==> v in inDegree { assert v in order <==> v in Elements(order); }
  }

  ghost predicate FreeAmong<T(!new)>(queue: seq<T>, inDegree: map<T, int>, seen: seq<T>) {
    forall v :: v in queue <==> v in seen && v in inDegree && inDegree[v] == 0
  }

  lemma FreeOne<T(!new)>(queue: seq<T>, inDegree: map<T, int>, seen: seq<T>, n: T)
    requires NoDup(queue) && FreeAmong(queue, inDegree, seen) && n !in seen && n in inDegree
    ensures var queue' := if inDegree[n] == 0 then queue + [n] else queue;
            NoDup(queue') && FreeAmong(queue', inDegree, seen + [n])
  {
    if inDegree[n] == 0 { NoDupAppend(queue, n); }
    forall v | v != n ensures v in seen + [n] <==> v in seen {}
  }

  lemma FrontierIsLayer<T(!new)>(queue: seq<T>, inDegree: map<T, int>, edges: Edges<T>, done: set<T>, g: Graph<T>,
          ids: seq<seq<T>>)
    requires Frontier(queue, inDegree, done) && queue != [] && Degrees(inDegree, edges, done)
    requires g == GraphOf(inDegree.Keys, edges) && IsLayering(g, ids) && done == Before(ids, |ids|)
    ensures IsLayering(g, ids + [queue])
    ensures Before(ids + [queue], |ids| + 1) == done + Elements(queue)
    ensures |done + Elements(queue)| == |done| + |queue|
  {
    ReadyIsZero(inDegree, edges, done, g);
    ExtendLayering(g, ids, queue);
    NoDupSize(queue);
    assert done !! Elements(queue);
  }

  lemma ReadyIsZero<T(!new)>(inDegree: map<T, int>, edges: Edges<T>, done: set<T>, g: Graph<T>)
    requires Degrees(inDegree, edges, done) && g == GraphOf(inDegree.Keys, edges)
    ensures forall v <- inDegree :: inDegree[v] == 0 <==> Ready(g, v, done)
  {
    forall v <- inDegree ensures inDegree[v] == 0 <==> Ready(g, v, done) {
      CountOpenZero(edges, v, done);
      if Ready(g, v, done) {
        forall e <- edges ensures e.1 == v ==> e.0 in done { assert (e.0, e.1) in g.edges; }
      }
    }
  }
}
