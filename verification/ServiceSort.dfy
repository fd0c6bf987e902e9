/** `sortServicesByDependencies`: depth-first topological sort of Compose services with cycle detection. */
module ServiceSort {
  import opened DependencyGraph
  import opened Sequences

  /** Each service with the names its `depends_on` lists, in the order the code visits them. */
  type Services<T> = map<T, seq<T>>

  datatype SortResult<T> = Sorted(order: seq<T>) | CycleFound

  /** References to names outside the file are ignored. */
  ghost function ServiceGraph<T(!new)>(services: Services<T>): Graph<T> {
    Graph(services.Keys, set s, d | s in services && d in services[s] && d in services :: (d, s))
  }

  /** `order` lists a dependency-closed set of nodes, each after its dependencies. */
  ghost predicate Ordered<T(!new)>(g: Graph<T>, order: seq<T>) {
    order == [] || (
      var init, last := order[..|order| - 1], order[|order| - 1];
      Ordered(g, init) && forall d | (d, last) in g.edges :: d in init)
  }

  /** A duplicate-free listing of all nodes with every dependency before its dependents. */
  ghost predicate TopologicalOrder<T(!new)>(g: Graph<T>, order: seq<T>) {
    && NoDup(order) && Elements(order) == g.nodes
    && forall i, d | 0 <= i < |order| && (d, order[i]) in g.edges :: d in order[..i]
  }

  lemma {:induction false} OrderedAt<T(!new)>(g: Graph<T>, order: seq<T>, i: nat, d: T)
    requires Ordered(g, order) && i < |order| && (d, order[i]) in g.edges
    ensures d in order[..i]
  {
    var init := order[..|order| - 1];
    if i < |init| {
      OrderedAt(g, init, i, d);
      assert init[..i] == order[..i];
    }
  }

  lemma TopologicalIsAcyclic<T(!new)>(g: Graph<T>, order: seq<T>)
    requires WellFormed(g) && TopologicalOrder(g, order)
    ensures !Cyclic(g)
  {
    var rank := map v | v in g.nodes :: IndexIn(order, v);
    forall e <- g.edges ensures e.0 in rank && e.1 in rank && rank[e.0] < rank[e.1] {
      var i := rank[e.1];
      assert (e.0, order[i]) in g.edges;
      var j :| 0 <= j < i && order[j] == e.0;
      if rank[e.0] < j { NoDupIndex(order, rank[e.0], j); }
      if j < rank[e.0] { NoDupIndex(order, j, rank[e.0]); }
    }
    RankedIsAcyclic(g, rank);
  }

  ghost function IndexIn<T(!new)>(s: seq<T>, v: T): (i: nat)
    requires v in Elements(s)
    ensures i < |s| && s[i] == v
  {
    var i :| 0 <= i < |s| && s[i] == v; i
  }

  /** `path` lists the open visits, outermost first; each depends on the next. */
  ghost predicate OpenPath<T(!new)>(g: Graph<T>, path: seq<T>) {
    && (forall v <- path :: v in g.nodes)
    && forall i | 0 <= i < |path| - 1 :: (path[i + 1], path[i]) in g.edges
  }

  ghost predicate Follows<T(!new)>(g: Graph<T>, path: seq<T>, name: T) {
    name in g.nodes && (path != [] ==> (name, path[|path| - 1]) in g.edges)
  }

  /** Meeting an open visit again closes a cycle. */
  lemma ReopenedIsCycle<T(!new)>(g: Graph<T>, path: seq<T>, name: T)
    requires OpenPath(g, path) && Follows(g, path, name) && name in path
    ensures Cyclic(g)
  {
    var j :| 0 <= j < |path| && path[j] == name;
    var n := |path| - j + 1;
    var c := seq(n, i requires 0 <= i < n => if i == 0 then name else path[|path| - i]);
    forall i | 0 <= i < n - 1 ensures (c[i], c[i + 1]) in g.edges {
      if i > 0 { assert (path[|path| - i - 1 + 1], path[|path| - i - 1]) in g.edges; }
    }
    assert IsCycle(g, c);
  }

  class Sorter<T(==, !new)> {
    const services: Services<T>
    var visited: set<T>
    var temp: set<T>
    var result: seq<T>

    ghost function G(): Graph<T> {
      ServiceGraph(services)
    }

    ghost predicate Valid(path: seq<T>)
      reads this
    {
      && Elements(result) == visited && NoDup(result) && Ordered(G(), result)
      && visited <= services.Keys
      && temp == Elements(path) && temp !! visited && OpenPath(G(), path)
    }

    constructor (services: Services<T>)
      ensures this.services == services && Valid([])
    {
      this.services := services;
      visited, temp, result := {}, {}, [];
    }

    /** Visits `name` below the open visits `path`. */
    method Visit(name: T, ghost path: seq<T>) returns (ok: bool)
      requires Valid(path) && Follows(G(), path, name)
      modifies this
      ensures ok ==> Valid(path) && name in visited && old(visited) <= visited
      ensures !ok ==> Cyclic(G())
      decreases services.Keys - temp
    {
      if name in temp {
        ReopenedIsCycle(G(), path, name);
        return false;
      }
      if name in visited { return true; }
      temp := temp + {name};
      ElementsAppend(path, name);
      var deps := services[name];
      for k := 0 to |deps|
        invariant Valid(path + [name]) && name !in visited && old(visited) <= visited
        invariant forall d | d in deps[..k] && d in services :: d in visited
      {
        var dep := deps[k];
        assert deps[..k + 1] == deps[..k] + [dep];
        if dep in services {
          assert (dep, name) in G().edges;
          ok := Visit(dep, path + [name]);
          if !ok { return false; }
          assert name in Elements(path + [name]);
        }
      }
      assert deps[..|deps|] == deps;
      Close(result, name);
      ElementsAppend(result, name);
      assert temp - {name} == Elements(path);
      temp := temp - {name};
      visited := visited + {name};
      result := result + [name];
      return true;
    }

    lemma Close(order: seq<T>, name: T)
      requires NoDup(order) && Ordered(G(), order) && name in services && name !in order
      requires forall d | d in services[name] && d in services :: d in order
      ensures NoDup(order + [name]) && Ordered(G(), order + [name])
    {
      NoDupAppend(order, name);
      assert (order + [name])[..|order|] == order;
    }
  }

  /** Sorts the services; `names` is the iteration order of the service map. */
  method SortServicesByDependencies<T(==, !new)>(services: Services<T>, names: seq<T>) returns (r: SortResult<T>)
    requires Elements(names) == services.Keys
    ensures r.CycleFound? <==> Cyclic(ServiceGraph(services))
    ensures r.Sorted? ==> TopologicalOrder(ServiceGraph(services), r.order)
  {
    var sorter := new Sorter(services);
    for i := 0 to |names|
      invariant fresh(sorter) && sorter.Valid([])
      invariant forall k | 0 <= k < i :: names[k] in sorter.visited
    {
      assert names[i] in Elements(names);
      if names[i] !in sorter.visited {
        var ok := sorter.Visit(names[i], []);
        if !ok { return CycleFound; }
      }
    }
    var order := sorter.result;
    ghost var g := ServiceGraph(services);
    forall i, d | 0 <= i < |order| && (d, order[i]) in g.edges ensures d in order[..i] {
      OrderedAt(g, order, i, d);
    }
    TopologicalIsAcyclic(g, order);
    return Sorted(order);
  }
}
