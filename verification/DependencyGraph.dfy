/** Finite dependency graphs, shared by the plan layering and the Compose service sort.
    An edge `(d, v)` reads "v depends on d". */
module DependencyGraph {

  datatype Graph<T(==, !new)> = Graph(nodes: set<T>, edges: set<(T, T)>)

  ghost predicate WellFormed<T(!new)>(g: Graph<T>) {
    forall e <- g.edges :: e.0 in g.nodes && e.1 in g.nodes
  }

  /** A nonempty walk that goes from a dependency to a dependent at every step. */
  ghost predicate IsChain<T(!new)>(g: Graph<T>, c: seq<T>) {
    && |c| > 0
    && (forall i | 0 <= i < |c| :: c[i] in g.nodes)
    && forall i | 0 <= i < |c| - 1 :: (c[i], c[i + 1]) in g.edges
  }

  ghost predicate ChainTo<T(!new)>(g: Graph<T>, c: seq<T>, v: T) {
    IsChain(g, c) && c[|c| - 1] == v
  }

  ghost predicate IsCycle<T(!new)>(g: Graph<T>, c: seq<T>) {
    IsChain(g, c) && |c| >= 2 && c[0] == c[|c| - 1]
  }

  ghost predicate Cyclic<T(!new)>(g: Graph<T>) {
    exists c :: IsCycle(g, c)
  }

  /** `k` is the number of edges on the longest chain that ends in `v`. */
  ghost predicate LongestChain<T(!new)>(g: Graph<T>, v: T, k: nat) {
    && (exists c :: ChainTo(g, c, v) && |c| == k + 1)
    && (forall c :: ChainTo(g, c, v) ==> |c| <= k + 1)
  }

  /** `rank` goes up along every edge. */
  ghost predicate Ranked<T(!new)>(g: Graph<T>, rank: map<T, int>) {
    && rank.Keys >= g.nodes
    && forall e <- g.edges :: e.0 in rank && e.1 in rank && rank[e.0] < rank[e.1]
  }

  lemma {:induction false} RankGrowsAlongChain<T(!new)>(g: Graph<T>, rank: map<T, int>, c: seq<T>)
    requires Ranked(g, rank) && IsChain(g, c)
    ensures rank[c[0]] + |c| - 1 <= rank[c[|c| - 1]]
  {
    if |c| > 1 {
      var d := c[..|c| - 1];
      assert IsChain(g, d);
      RankGrowsAlongChain(g, rank, d);
      assert (c[|c| - 2], c[|c| - 1]) in g.edges;
    }
  }

  lemma RankedIsAcyclic<T(!new)>(g: Graph<T>, rank: map<T, int>)
    requires Ranked(g, rank)
    ensures !Cyclic(g)
  {
    forall c | IsCycle(g, c) ensures false {
      RankGrowsAlongChain(g, rank, c);
    }
  }

  /** Pigeonhole: a sequence longer than the set it draws from repeats an element. */
  lemma {:induction false} Repeats<T(!new)>(c: seq<T>, s: set<T>) returns (i: nat, j: nat)
    requires forall x <- c :: x in s
    requires |c| > |s|
    ensures i < j < |c| && c[i] == c[j]
  {
    var last := |c| - 1;
    if k :| 0 <= k < last && c[k] == c[last] {
      i, j := k, last;
    } else {
      i, j := Repeats(c[..last], s - {c[last]});
    }
  }

  ghost predicate DependsInto<T(!new)>(g: Graph<T>, v: T, u: set<T>) {
    exists d :: d in u && (d, v) in g.edges
  }

  /** Every node of `u` depends on some node of `u`. */
  ghost predicate Stuck<T(!new)>(g: Graph<T>, u: set<T>) {
    u != {} && u <= g.nodes && forall v {:trigger DependsInto(g, v, u)} | v in u :: DependsInto(g, v, u)
  }

  lemma {:induction false} WalkInside<T(!new)>(g: Graph<T>, u: set<T>, n: nat) returns (c: seq<T>)
    requires Stuck(g, u) && n > 0
    ensures IsChain(g, c) && |c| == n && forall x <- c :: x in u
  {
    if n == 1 {
      var v :| v in u;
      c := [v];
    } else {
      var tail := WalkInside(g, u, n - 1);
      assert DependsInto(g, tail[0], u);
      var d :| d in u && (d, tail[0]) in g.edges;
      c := [d] + tail;
    }
  }

  /** A nonempty set of nodes each of which waits for another node of the set contains a cycle. */
  lemma StuckSetHasCycle<T(!new)>(g: Graph<T>, u: set<T>)
    requires Stuck(g, u)
    ensures Cyclic(g)
  {
    var c := WalkInside(g, u, |u| + 1);
    var i, j := Repeats(c, u);
    assert IsCycle(g, c[i..j + 1]);
  }

  /** Depth grows along an edge. */
  lemma DependencyIsShallower<T(!new)>(g: Graph<T>, d: T, v: T, j: nat, k: nat)
    requires WellFormed(g) && (d, v) in g.edges && LongestChain(g, d, j) && LongestChain(g, v, k)
    ensures j < k
  {
    var c :| ChainTo(g, c, d) && |c| == j + 1;
    assert ChainTo(g, c + [v], v);
  }
}
