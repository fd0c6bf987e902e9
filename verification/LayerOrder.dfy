/** The order inside the layers of Kahn's algorithm: that of the first layer is free, and it decides the others. */
module LayerOrder {
  import opened DependencyGraph
  import opened KahnLayering
  import opened Sequences

  /** The place of a node in the list of nodes; edges are listed by the place of their target. */
  type Rank<!T(!new)> = T -> int

  ghost function Pos<T(!new)>(s: seq<T>, v: T): (i: nat)
    requires v in s
    ensures i < |s| && s[i] == v
  {
    var i :| 0 <= i < |s| && s[i] == v; i
  }

  // ---------- The next layer is sorted ----------

  /** The last node of the layer that `v` depends on is at place `p`. */
  ghost predicate LastIs<T(!new)>(g: Graph<T>, layer: seq<T>, v: T, p: nat) {
    p < |layer| && (layer[p], v) in g.edges && forall q | p < q < |layer| :: (layer[q], v) !in g.edges
  }

  /** One comes before the other when its last dependency does, or it is the same and the list says so. */
  ghost predicate Sorted<T(!new)>(g: Graph<T>, rank: Rank<T>, layer: seq<T>, next: seq<T>) {
    forall i, j, p, q | 0 <= i < j < |next| && LastIs(g, layer, next[i], p) && LastIs(g, layer, next[j], q) ::
      p < q || (p == q && rank(next[i]) < rank(next[j]))
  }

  ghost predicate Follows<T(!new)>(g: Graph<T>, rank: Rank<T>, layers: seq<seq<T>>) {
    forall k | 0 <= k && k + 1 < |layers| :: Sorted(g, rank, layers[k], layers[k + 1])
  }

  ghost predicate Ascending<T(!new)>(rank: Rank<T>, s: seq<T>) {
    forall i, j | 0 <= i < j < |s| :: rank(s[i]) <= rank(s[j])
  }

  ghost predicate ListedByTarget<T(!new)>(rank: Rank<T>, edges: Edges<T>) {
    forall i, j | 0 <= i < j < |edges| :: rank(edges[i].1) <= rank(edges[j].1)
  }

  ghost predicate Injective<T(!new)>(rank: Rank<T>, nodes: set<T>) {
    forall v, w | v in nodes && w in nodes && rank(v) == rank(w) :: v == w
  }

  lemma {:induction false} TargetsAscend<T(!new)>(rank: Rank<T>, edges: Edges<T>, d: T)
    requires ListedByTarget(rank, edges)
    ensures Ascending(rank, Targets(edges, d))
    ensures forall v <- Targets(edges, d) :: edges != [] && rank(v) <= rank(edges[|edges| - 1].1)
    decreases |edges|
  {
    if edges != [] {
      var rest := edges[..|edges| - 1];
      TargetsAscend(rank, rest, d);
      forall v <- Targets(rest, d) ensures rank(v) <= rank(edges[|edges| - 1].1) {
        assert rank(rest[|rest| - 1].1) <= rank(edges[|edges| - 1].1);
      }
    }
  }

  /** What removing edges appends to the queue is in the order of their targets. */
  lemma {:induction false} RelaxingAppends<T(!new)>(rank: Rank<T>, inDegree: map<T, int>, queue: seq<T>,
          targets: seq<T>)
    requires Ascending(rank, targets)
    ensures var q := Relaxing(inDegree, queue, targets).1;
      queue <= q && (forall v <- q[|queue|..] :: v in targets) && Ascending(rank, q[|queue|..])
    decreases |targets|
  {
    if targets != [] {
      var n := |targets| - 1;
      var (d, q) := Relaxing(inDegree, queue, targets[..n]);
      var q' := Relaxing(inDegree, queue, targets).1;
      RelaxingAppends(rank, inDegree, queue, targets[..n]);
      var more := q[|queue|..];
      forall v <- more ensures v in targets && rank(v) <= rank(targets[n]) {
        var i :| 0 <= i < n && targets[..n][i] == v;
        assert targets[i] == v;
      }
      if q' != q { assert q'[|queue|..] == more + [targets[n]]; }
    }
  }

  /** Nothing freed before step `i` depends on a later node of the layer. */
  lemma FreedEarlier<T(!new)>(edges: Edges<T>, inDegree: map<T, int>, ids: seq<T>, i: nat, done: set<T>, v: T, p: nat)
    requires forall e <- edges :: e.0 in inDegree && e.1 in inDegree
    requires Degrees(inDegree, edges, done) && Frontier(ids, inDegree, done) && i <= |ids|
    requires v in Drained(edges, inDegree, ids[..i]).1 && p < |ids| && (ids[p], v) in edges
    ensures p < i
  {
    var (d, q) := Drained(edges, inDegree, ids[..i]);
    DrainedSoFar(edges, inDegree, ids, i, done);
    assert d[v] == CountOpen(edges, v, done + Elements(ids[..i])) == 0;
    CountOpenZero(edges, v, done + Elements(ids[..i]));
    assert ids[p] in ids && ids[p] !in done;
    if p >= i { NotAhead(ids, i, p); }
  }

  lemma NotAhead<T>(s: seq<T>, i: nat, p: nat)
    requires NoDup(s) && i <= p < |s|
    ensures s[p] !in s[..i]
  {
    if s[p] in s[..i] {
      var j :| 0 <= j < i && s[..i][j] == s[p];
      NoDupIndex(s, j, p);
    }
  }

  lemma {:induction false} DrainedIsSorted<T(!new)>(rank: Rank<T>, edges: Edges<T>, inDegree: map<T, int>, ids: seq<T>,
          i: nat, done: set<T>)
    requires forall e <- edges :: e.0 in inDegree && e.1 in inDegree
    requires Degrees(inDegree, edges, done) && Frontier(ids, inDegree, done) && i <= |ids|
    requires ListedByTarget(rank, edges) && Injective(rank, inDegree.Keys)
    ensures Sorted(GraphOf(inDegree.Keys, edges), rank, ids, Drained(edges, inDegree, ids[..i]).1)
    decreases i
  {
    if i > 0 {
      var (d, q) := Drained(edges, inDegree, ids[..i - 1]);
      var q' := Drained(edges, inDegree, ids[..i]).1;
      assert ids[..i][..i - 1] == ids[..i - 1];
      DrainedIsSorted(rank, edges, inDegree, ids, i - 1, done);
      TargetsAscend(rank, edges, ids[i - 1]);
      RelaxingAppends(rank, d, q, Targets(edges, ids[i - 1]));
      DrainedSoFar(edges, inDegree, ids, i, done);
      SortedMore(rank, edges, inDegree, ids, i, done, q, q');
    }
  }

  lemma SortedMore<T(!new)>(rank: Rank<T>, edges: Edges<T>, inDegree: map<T, int>, ids: seq<T>, i: nat, done: set<T>,
          q: seq<T>, q': seq<T>)
    requires forall e <- edges :: e.0 in inDegree && e.1 in inDegree
    requires Degrees(inDegree, edges, done) && Frontier(ids, inDegree, done) && 0 < i <= |ids|
    requires Injective(rank, inDegree.Keys)
    requires q == Drained(edges, inDegree, ids[..i - 1]).1 && q' == Drained(edges, inDegree, ids[..i]).1
    requires NoDup(q') && forall v <- q' :: v in inDegree
    requires q <= q' && (forall v <- q'[|q|..] :: v in Targets(edges, ids[i - 1])) && Ascending(rank, q'[|q|..])
    requires Sorted(GraphOf(inDegree.Keys, edges), rank, ids, q)
    ensures Sorted(GraphOf(inDegree.Keys, edges), rank, ids, q')
  {
    hide Drained, Degrees, Frontier, Targets, NoDup;
    var g := GraphOf(inDegree.Keys, edges);
    forall a, b, m, n | 0 <= a < b < |q'| && LastIs(g, ids, q'[a], m) && LastIs(g, ids, q'[b], n)
      ensures m < n || (m == n && rank(q'[a]) < rank(q'[b]))
    {
      if b < |q| {
        assert q'[a] == q[a] && q'[b] == q[b];
      } else {
        FreedHere(edges, inDegree, ids, i, done, q, q', b, n);
        if a < |q| {
          assert q'[a] in q by { assert q'[a] == q[a]; }
          FreedEarlier(edges, inDegree, ids, i - 1, done, q'[a], m);
        } else {
          FreedHere(edges, inDegree, ids, i, done, q, q', a, m);
          assert q'[|q|..][a - |q|] == q'[a] && q'[|q|..][b - |q|] == q'[b];
          NoDupIndex(q', a, b);
          assert q'[a] in q' && q'[b] in q';
        }
      }
    }
  }

  lemma FreedHere<T(!new)>(edges: Edges<T>, inDegree: map<T, int>, ids: seq<T>, i: nat, done: set<T>, q: seq<T>,
          q': seq<T>, b: nat, n: nat)
    requires forall e <- edges :: e.0 in inDegree && e.1 in inDegree
    requires Degrees(inDegree, edges, done) && Frontier(ids, inDegree, done) && 0 < i <= |ids|
    requires q' == Drained(edges, inDegree, ids[..i]).1 && |q| <= b < |q'|
    requires forall v <- q'[|q|..] :: v in Targets(edges, ids[i - 1])
    requires LastIs(GraphOf(inDegree.Keys, edges), ids, q'[b], n)
    ensures n == i - 1
  {
    assert q'[|q|..][b - |q|] == q'[b] && q'[|q|..][b - |q|] in q'[|q|..] && q'[b] in q';
    TargetIsEdge(edges, ids[i - 1], q'[b]);
    FreedEarlier(edges, inDegree, ids, i, done, q'[b], n);
  }

  /** Each layer but the first is sorted by the one before. */
  lemma {:induction false} LayeringFollows<T(!new)>(rank: Rank<T>, edges: Edges<T>, inDegree: map<T, int>,
          queue: seq<T>, done: set<T>)
    requires forall e <- edges :: e.0 in inDegree && e.1 in inDegree
    requires Degrees(inDegree, edges, done) && Frontier(queue, inDegree, done)
    requires ListedByTarget(rank, edges) && Injective(rank, inDegree.Keys)
    ensures Follows(GraphOf(inDegree.Keys, edges), rank, Layering(edges, inDegree, queue))
    decreases |Open(inDegree)|, |queue|
  {
    if queue != [] {
      var (d, q) := Drained(edges, inDegree, queue);
      DrainingCloses(edges, inDegree, queue);
      DrainedIsFrontier(edges, inDegree, queue, done);
      LayeringFollows(rank, edges, d, q, done + Elements(queue));
      DrainedIsSorted(rank, edges, inDegree, queue, |queue|, done);
      assert queue[..|queue|] == queue;
      FollowsMore(GraphOf(inDegree.Keys, edges), rank, queue, q, Layering(edges, d, q));
    }
  }

  lemma FollowsMore<T(!new)>(g: Graph<T>, rank: Rank<T>, first: seq<T>, second: seq<T>, rest: seq<seq<T>>)
    requires Follows(g, rank, rest) && Sorted(g, rank, first, second) && (rest != [] ==> rest[0] == second)
    ensures Follows(g, rank, [first] + rest)
  {
    var all := [first] + rest;
    forall k | 0 <= k && k + 1 < |all| ensures Sorted(g, rank, all[k], all[k + 1]) {
      if k > 0 { assert Sorted(g, rank, rest[k - 1], rest[k]); }
    }
  }

  // ---------- Roots ----------

  ghost function Stages<T(!new)>(layers: seq<seq<T>>): seq<set<T>> {
    seq(|layers|, k requires 0 <= k < |layers| => Elements(layers[k]))
  }

  /** A path through all stages leads from `d` in the first one to `v` in stage `k`. */
  ghost predicate Reaches<T(!new)>(g: Graph<T>, stages: seq<set<T>>, k: nat, d: T, v: T)
    requires k < |stages|
    decreases k
  {
    if k == 0 then d == v
    else exists u :: u in stages[k - 1] && (u, v) in g.edges && Reaches(g, stages, k - 1, d, u)
  }

  /** The nodes of the first stage from which such a path leads to `v`. */
  ghost function Roots<T(!new)>(g: Graph<T>, stages: seq<set<T>>, k: nat, v: T): set<T>
    requires k < |stages|
  {
    set d | d in stages[0] && Reaches(g, stages, k, d, v)
  }

  /** The dependencies of `v` in the stage before that have the root `d`. */
  ghost predicate Via<T(!new)>(g: Graph<T>, stages: seq<set<T>>, k: nat, d: T, v: T, u: T)
    requires 0 < k < |stages|
  {
    u in stages[k - 1] && (u, v) in g.edges && Reaches(g, stages, k - 1, d, u)
  }

  /**
   * The order of two nodes of stage `k` whenever `d` is the last of the roots of both: that of their last dependencies
   * with this root, or if these are the same, that of the list. No order of the first stage enters.
   */
  ghost predicate Earlier<T(!new)>(g: Graph<T>, stages: seq<set<T>>, rank: Rank<T>, k: nat, d: T, v: T, w: T)
    requires k < |stages|
    decreases k, 1
  {
    k > 0 && (Outrun(g, stages, rank, k, d, v, w)
              || (!Outrun(g, stages, rank, k, d, w, v) && rank(v) < rank(w)))
  }

  /** Some dependency of `w` comes after all those of `v`. */
  ghost predicate Outrun<T(!new)>(g: Graph<T>, stages: seq<set<T>>, rank: Rank<T>, k: nat, d: T, v: T, w: T)
    requires 0 < k < |stages|
    decreases k, 0
  {
    exists x :: Via(g, stages, k, d, w, x) && forall u | Via(g, stages, k, d, v, u) ::
      Earlier(g, stages, rank, k - 1, d, u, x)
  }

  /** Whenever `d` is the last root of `t`, `s` comes before `t`. */
  ghost predicate Ahead<T(!new)>(g: Graph<T>, stages: seq<set<T>>, rank: Rank<T>, k: nat, d: T, s: T, t: T)
    requires k < |stages|
  {
    && Roots(g, stages, k, s) <= Roots(g, stages, k, t)
    && (d in Roots(g, stages, k, s) ==> Earlier(g, stages, rank, k, d, s, t))
  }

  /** A layering in which every layer but the first is sorted by the one before. */
  ghost predicate Ordered<T(!new)>(g: Graph<T>, rank: Rank<T>, layers: seq<seq<T>>) {
    WellFormed(g) && IsLayering(g, layers) && Follows(g, rank, layers)
  }

  /** The last root of `v` is at place `p` of the first layer. */
  ghost predicate TopRoot<T(!new)>(g: Graph<T>, layers: seq<seq<T>>, k: nat, v: T, p: nat)
    requires k < |layers|
  {
    var roots := Roots(g, Stages(layers), k, v);
    p < |layers[0]| && layers[0][p] in roots && forall q | p < q < |layers[0]| :: layers[0][q] !in roots
  }

  lemma RootIsFirst<T(!new)>(g: Graph<T>, layers: seq<seq<T>>, k: nat, v: T, d: T)
    requires k < |layers| && d in Roots(g, Stages(layers), k, v)
    ensures d in layers[0]
  {}

  lemma {:induction false} HasRoot<T(!new)>(g: Graph<T>, layers: seq<seq<T>>, k: nat, v: T) returns (d: T)
    requires IsLayering(g, layers) && k < |layers| && v in layers[k]
    ensures d in Roots(g, Stages(layers), k, v)
    decreases k
  {
    if k == 0 {
      d := v;
    } else {
      var u := DependencyInLayer(g, layers, k, v);
      d := HasRoot(g, layers, k - 1, u);
      assert u in Stages(layers)[k - 1];
    }
  }

  lemma RootOfDependency<T(!new)>(g: Graph<T>, layers: seq<seq<T>>, k: nat, u: T, v: T)
    requires 0 < k < |layers| && u in layers[k - 1] && (u, v) in g.edges
    ensures Roots(g, Stages(layers), k - 1, u) <= Roots(g, Stages(layers), k, v)
  {
    assert u in Stages(layers)[k - 1];
  }

  /** The last place at which something holds. */
  lemma {:induction false} LastOf(n: nat, holds: nat -> bool) returns (p: nat)
    requires exists i: nat :: i < n && holds(i)
    ensures p < n && holds(p) && forall q | p < q < n :: !holds(q)
    decreases n
  {
    if holds(n - 1) { return n - 1; }
    p := LastOf(n - 1, holds);
  }

  lemma TopRootExists<T(!new)>(g: Graph<T>, layers: seq<seq<T>>, k: nat, v: T) returns (p: nat)
    requires IsLayering(g, layers) && k < |layers| && v in layers[k]
    ensures TopRoot(g, layers, k, v, p)
  {
    var roots := Roots(g, Stages(layers), k, v);
    var d := HasRoot(g, layers, k, v);
    var first := layers[0];
    var holds := (i: nat) => i < |first| && first[i] in roots;
    assert holds(Pos(first, d));
    p := LastOf(|first|, holds);
    forall q: nat | p < q < |first| ensures first[q] !in roots { assert !holds(q); }
  }

  lemma LastExists<T(!new)>(g: Graph<T>, layers: seq<seq<T>>, k: nat, v: T) returns (a: nat)
    requires IsLayering(g, layers) && 0 < k < |layers| && v in layers[k]
    ensures LastIs(g, layers[k - 1], v, a)
  {
    var u := DependencyInLayer(g, layers, k, v);
    var layer := layers[k - 1];
    var holds := (i: nat) => i < |layer| && (layer[i], v) in g.edges;
    assert holds(Pos(layer, u));
    a := LastOf(|layer|, holds);
    forall q: nat | a < q < |layer| ensures (layer[q], v) !in g.edges { assert !holds(q); }
  }

  lemma PosIs<T(!new)>(g: Graph<T>, layers: seq<seq<T>>, k: nat, i: nat)
    requires IsLayering(g, layers) && k < |layers| && i < |layers[k]|
    ensures layers[k][i] in layers[k] && Pos(layers[k], layers[k][i]) == i
  {
    assert IsLayer(g, layers, k);
    var j := Pos(layers[k], layers[k][i]);
    if i < j { NoDupIndex(layers[k], i, j); }
    if j < i { NoDupIndex(layers[k], j, i); }
  }

  /** Places in a layer compare as the last dependencies do, then as the list does. */
  lemma ByLast<T(!new)>(g: Graph<T>, rank: Rank<T>, layers: seq<seq<T>>, k: nat, v: T, w: T, a: nat, b: nat)
    requires Ordered(g, rank, layers) && 0 < k < |layers| && v in layers[k] && w in layers[k]
    requires LastIs(g, layers[k - 1], v, a) && LastIs(g, layers[k - 1], w, b)
    ensures Pos(layers[k], v) < Pos(layers[k], w) <==> a < b || (a == b && rank(v) < rank(w))
  {
    var i, j := Pos(layers[k], v), Pos(layers[k], w);
    assert Sorted(g, rank, layers[k - 1], layers[k - 1 + 1]);
    if v == w { assert a == b; }
  }

  /** The last dependency is not before any dependency. */
  lemma NotPastLast<T(!new)>(g: Graph<T>, layers: seq<seq<T>>, k: nat, u: T, v: T, a: nat)
    requires IsLayering(g, layers) && 0 < k < |layers| && LastIs(g, layers[k - 1], v, a)
    requires u in layers[k - 1] && (u, v) in g.edges
    ensures Pos(layers[k - 1], u) <= a
  {}

  lemma InStage<T(!new)>(layers: seq<seq<T>>, k: nat, v: T)
    requires k < |layers|
    ensures v in Stages(layers)[k] <==> v in layers[k]
  {}

  /** A dependency with the same last root. */
  lemma ThroughTop<T(!new)>(g: Graph<T>, layers: seq<seq<T>>, k: nat, v: T, p: nat) returns (u: T)
    requires IsLayering(g, layers) && 0 < k < |layers| && v in layers[k] && TopRoot(g, layers, k, v, p)
    ensures u in layers[k - 1] && (u, v) in g.edges && TopRoot(g, layers, k - 1, u, p)
    ensures Via(g, Stages(layers), k, layers[0][p], v, u)
  {
    var d := layers[0][p];
    u :| u in Stages(layers)[k - 1] && (u, v) in g.edges && Reaches(g, Stages(layers), k - 1, d, u);
    InStage(layers, k - 1, u);
    RootOfDependency(g, layers, k, u, v);
  }

  /** Last roots decide. */
  lemma {:induction false} TopRootsDecide<T(!new)>(g: Graph<T>, rank: Rank<T>, layers: seq<seq<T>>, k: nat, v: T, w: T,
          p: nat, q: nat)
    requires Ordered(g, rank, layers) && k < |layers| && v in layers[k] && w in layers[k]
    requires TopRoot(g, layers, k, v, p) && TopRoot(g, layers, k, w, q) && p < q
    ensures Pos(layers[k], v) < Pos(layers[k], w)
    decreases k
  {
    if k == 0 {
      PosIs(g, layers, 0, p);
      PosIs(g, layers, 0, q);
    } else {
      var a := LastExists(g, layers, k, v);
      var b := LastExists(g, layers, k, w);
      var u := layers[k - 1][a];
      var x := ThroughTop(g, layers, k, w, q);
      PosIs(g, layers, k - 1, a);
      RootOfDependency(g, layers, k, u, v);
      var m := TopRootExists(g, layers, k - 1, u);
      assert m <= p;
      TopRootsDecide(g, rank, layers, k - 1, u, x, m, q);
      NotPastLast(g, layers, k, x, w, b);
      ByLast(g, rank, layers, k, v, w, a, b);
    }
  }

  /** The last dependency has the same last root. */
  lemma LastHasTop<T(!new)>(g: Graph<T>, rank: Rank<T>, layers: seq<seq<T>>, k: nat, v: T, p: nat, a: nat)
    requires Ordered(g, rank, layers) && 0 < k < |layers| && v in layers[k] && TopRoot(g, layers, k, v, p)
    requires LastIs(g, layers[k - 1], v, a)
    ensures TopRoot(g, layers, k - 1, layers[k - 1][a], p)
    ensures Via(g, Stages(layers), k, layers[0][p], v, layers[k - 1][a])
  {
    var u := layers[k - 1][a];
    var x := ThroughTop(g, layers, k, v, p);
    PosIs(g, layers, k - 1, a);
    RootOfDependency(g, layers, k, u, v);
    var m := TopRootExists(g, layers, k - 1, u);
    NotPastLast(g, layers, k, x, v, a);
    if m < p { TopRootsDecide(g, rank, layers, k - 1, u, x, m, p); }
    InStage(layers, k - 1, u);
  }

  /** With the same last root, the order is that of `Earlier`. */
  lemma {:induction false} EarlierDecides<T(!new)>(g: Graph<T>, rank: Rank<T>, layers: seq<seq<T>>, k: nat, v: T, w: T,
          p: nat)
    requires Ordered(g, rank, layers) && k < |layers| && v in layers[k] && w in layers[k]
    requires TopRoot(g, layers, k, v, p) && TopRoot(g, layers, k, w, p)
    ensures Pos(layers[k], v) < Pos(layers[k], w) <==> Earlier(g, Stages(layers), rank, k, layers[0][p], v, w)
    decreases k, 1
  {
    if k > 0 {
      var a := LastExists(g, layers, k, v);
      var b := LastExists(g, layers, k, w);
      OutrunDecides(g, rank, layers, k, v, w, p, a, b);
      OutrunDecides(g, rank, layers, k, w, v, p, b, a);
      ByLast(g, rank, layers, k, v, w, a, b);
    }
  }

  lemma {:induction false} OutrunDecides<T(!new)>(g: Graph<T>, rank: Rank<T>, layers: seq<seq<T>>, k: nat, v: T, w: T,
          p: nat, a: nat, b: nat)
    requires Ordered(g, rank, layers) && 0 < k < |layers| && v in layers[k] && w in layers[k]
    requires TopRoot(g, layers, k, v, p) && TopRoot(g, layers, k, w, p)
    requires LastIs(g, layers[k - 1], v, a) && LastIs(g, layers[k - 1], w, b)
    ensures Outrun(g, Stages(layers), rank, k, layers[0][p], v, w) <==> a < b
    decreases k, 0
  {
    var stages, d := Stages(layers), layers[0][p];
    var u, x := layers[k - 1][a], layers[k - 1][b];
    PosIs(g, layers, k - 1, a);
    PosIs(g, layers, k - 1, b);
    LastHasTop(g, rank, layers, k, v, p, a);
    LastHasTop(g, rank, layers, k, w, p, b);
    if a < b {
      forall z | Via(g, stages, k, d, v, z) ensures Earlier(g, stages, rank, k - 1, d, z, x) {
        ViaHasTop(g, layers, k, v, z, p);
        NotPastLast(g, layers, k, z, v, a);
        EarlierDecides(g, rank, layers, k - 1, z, x, p);
      }
    }
    if Outrun(g, stages, rank, k, d, v, w) {
      var y :| Via(g, stages, k, d, w, y) && forall z | Via(g, stages, k, d, v, z) ::
        Earlier(g, stages, rank, k - 1, d, z, y);
      ViaHasTop(g, layers, k, w, y, p);
      EarlierDecides(g, rank, layers, k - 1, u, y, p);
      NotPastLast(g, layers, k, y, w, b);
    }
  }

  lemma ViaHasTop<T(!new)>(g: Graph<T>, layers: seq<seq<T>>, k: nat, v: T, u: T, p: nat)
    requires 0 < k < |layers| && TopRoot(g, layers, k, v, p) && Via(g, Stages(layers), k, layers[0][p], v, u)
    ensures u in layers[k - 1] && (u, v) in g.edges && TopRoot(g, layers, k - 1, u, p)
  {
    InStage(layers, k - 1, u);
    RootOfDependency(g, layers, k, u, v);
  }

  // ---------- Who can come first ----------

  /** A node that is ahead comes before, in every layering with this last root. */
  lemma AheadIsBefore<T(!new)>(g: Graph<T>, rank: Rank<T>, layers: seq<seq<T>>, k: nat, s: T, t: T, p: nat)
    requires Ordered(g, rank, layers) && k < |layers| && s in layers[k] && t in layers[k]
    requires TopRoot(g, layers, k, t, p) && Ahead(g, Stages(layers), rank, k, layers[0][p], s, t)
    ensures Pos(layers[k], s) < Pos(layers[k], t)
  {
    var q := TopRootExists(g, layers, k, s);
    assert q <= p;
    if q < p {
      TopRootsDecide(g, rank, layers, k, s, t, q, p);
    } else {
      EarlierDecides(g, rank, layers, k, s, t, p);
    }
  }

  /** When the roots of `t` are at the front of the first layer, only those come before it that are ahead. */
  lemma BeforeIsAhead<T(!new)>(g: Graph<T>, rank: Rank<T>, layers: seq<seq<T>>, k: nat, s: T, t: T, p: nat)
    requires Ordered(g, rank, layers) && k < |layers| && s in layers[k] && t in layers[k]
    requires TopRoot(g, layers, k, t, p) && (forall i | 0 <= i <= p :: layers[0][i] in Roots(g, Stages(layers), k, t))
    requires Pos(layers[k], s) < Pos(layers[k], t)
    ensures Ahead(g, Stages(layers), rank, k, layers[0][p], s, t)
  {
    var q := TopRootExists(g, layers, k, s);
    if q > p { TopRootsDecide(g, rank, layers, k, t, s, p, q); }
    forall d | d in Roots(g, Stages(layers), k, s) ensures d in Roots(g, Stages(layers), k, t) {
      RootIsFirst(g, layers, k, s, d);
      assert layers[0][Pos(layers[0], d)] == d;
    }
    if q == p {
      EarlierDecides(g, rank, layers, k, s, t, p);
    } else {
      assert layers[0][p] !in Roots(g, Stages(layers), k, s);
    }
  }

  /** All maximal layerings of a graph have the same stages. */
  lemma {:induction false} SameStage<T(!new)>(g: Graph<T>, a: seq<seq<T>>, b: seq<seq<T>>, k: nat)
    requires IsMaximalLayering(g, a) && IsMaximalLayering(g, b) && k <= |a|
    ensures k <= |b| && Before(a, k) == Before(b, k)
    ensures k < |a| ==> k < |b| && Elements(a[k]) == Elements(b[k])
    decreases k
  {
    if k > 0 { SameStage(g, a, b, k - 1); }
    if k < |a| {
      assert IsLayer(g, a, k);
      var v := a[k][0];
      assert v in a[k] && Ready(g, v, Before(a, k));
      assert k < |b|;
      assert IsLayer(g, b, k);
      forall x ensures x in a[k] <==> x in b[k] {}
    }
  }

  lemma SameStages<T(!new)>(g: Graph<T>, a: seq<seq<T>>, b: seq<seq<T>>)
    requires IsMaximalLayering(g, a) && IsMaximalLayering(g, b)
    ensures |a| == |b| && Stages(a) == Stages(b)
  {
    SameStage(g, a, b, |a|);
    SameStage(g, b, a, |b|);
    forall k | 0 <= k < |a| ensures Stages(a)[k] == Stages(b)[k] { SameStage(g, a, b, k); }
  }

  // ---------- The first two stages ----------

  /** In the first stage nothing is ahead of another node. */
  lemma NoneAheadAtFirst<T(!new)>(g: Graph<T>, stages: seq<set<T>>, rank: Rank<T>, s: T, t: T)
    requires |stages| > 0 && s in stages[0] && t in stages[0]
    ensures t in Roots(g, stages, 0, t) && !Ahead(g, stages, rank, 0, t, s, t)
  {
    if s != t { assert s in Roots(g, stages, 0, s); }
  }

  /** The dependencies of a node in the first stage. */
  ghost function FirstDependencies<T(!new)>(g: Graph<T>, stages: seq<set<T>>, v: T): set<T>
    requires |stages| > 0
  {
    set u | u in stages[0] && (u, v) in g.edges
  }

  lemma RootsAtSecond<T(!new)>(g: Graph<T>, stages: seq<set<T>>, v: T)
    requires |stages| > 1
    ensures Roots(g, stages, 1, v) == FirstDependencies(g, stages, v)
  {
    forall u ensures Reaches(g, stages, 1, u, v) <==> u in stages[0] && (u, v) in g.edges {
      if u in stages[0] && (u, v) in g.edges { assert u in stages[1 - 1] && Reaches(g, stages, 0, u, u); }
    }
  }

  /** Two nodes of the second stage with a common dependency are in the order of the list when that is the last one. */
  lemma EarlierAtSecond<T(!new)>(g: Graph<T>, stages: seq<set<T>>, rank: Rank<T>, d: T, s: T, t: T)
    requires |stages| > 1 && d in FirstDependencies(g, stages, s) && d in FirstDependencies(g, stages, t)
    ensures Earlier(g, stages, rank, 1, d, s, t) <==> rank(s) < rank(t)
  {
    NotOutrunAtSecond(g, stages, rank, d, s, t);
    NotOutrunAtSecond(g, stages, rank, d, t, s);
  }

  lemma NotOutrunAtSecond<T(!new)>(g: Graph<T>, stages: seq<set<T>>, rank: Rank<T>, d: T, s: T, t: T)
    requires |stages| > 1 && d in FirstDependencies(g, stages, s)
    ensures !Outrun(g, stages, rank, 1, d, s, t)
  {
    assert Via(g, stages, 1, d, s, d);
  }

  /** In the second stage the dependencies in the first one and the list decide. */
  lemma AheadAtSecond<T(!new)>(g: Graph<T>, stages: seq<set<T>>, rank: Rank<T>, d: T, s: T, t: T)
    requires |stages| > 1 && d in FirstDependencies(g, stages, t)
    ensures var of := v => FirstDependencies(g, stages, v);
      Ahead(g, stages, rank, 1, d, s, t) <==> of(s) <= of(t) && (d in of(s) ==> rank(s) < rank(t))
  {
    RootsAtSecond(g, stages, s);
    RootsAtSecond(g, stages, t);
    if d in FirstDependencies(g, stages, s) { EarlierAtSecond(g, stages, rank, d, s, t); }
  }
}
