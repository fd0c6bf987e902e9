/** The container daemon as the Compose engine sees it: every call takes effect or fails without effect. */
module ContainerDaemon {
  import opened Sequences

  datatype Created = NotCreated | CreatedAs(id: nat)

  /** No two containers bear the same name. */
  ghost predicate UniqueNames<C(!new), N(!new)>(name: C -> N, cs: map<nat, C>) {
    forall a, b | a in cs && b in cs && name(cs[a]) == name(cs[b]) :: a == b
  }

  class Daemon<C(==, !new), N(==, !new)> {
    const name: C -> N
    var containers: map<nat, C>
    var nextId: nat
    /** Network identifiers with their names. */
    var networks: map<nat, string>
    var nextNetwork: nat
    /** Whether, since the last `Observe`, a removal of a present container or a listing has failed. */
    ghost var removeFailed: bool
    ghost var listFailed: bool
    ghost var networkListFailed: bool
    /** Whether, since then, a pull, a creation, a start or a network call has been refused. */
    ghost var refused: bool
    /** How many images have been pulled since then. */
    ghost var pulls: nat

    ghost predicate Valid()
      reads this
    {
      && (forall id | id in containers :: id < nextId)
      && (forall n | n in networks :: n < nextNetwork)
    }

    /** Forgets earlier failures, so that the flags speak of what follows. */
    ghost method Observe()
      modifies `removeFailed, `listFailed, `networkListFailed, `refused, `pulls
      ensures !removeFailed && !listFailed && !networkListFailed && !refused && pulls == 0
    {
      pulls := 0;
      removeFailed, listFailed, networkListFailed, refused := false, false, false, false;
    }

    /** The daemon's choice between success and failure. */
    method Chance() returns (ok: bool) {
      ok := *;
    }

    method Pull() returns (ok: bool)
      modifies `refused, `pulls
      ensures refused == (old(refused) || !ok) && pulls == old(pulls) + if ok then 1 else 0
    {
      ok := Chance();
      if ok { pulls := pulls + 1; } else { refused := true; }
    }

    method List() returns (ok: bool, order: seq<nat>)
      requires Valid()
      modifies `listFailed
      ensures ok ==> NoDup(order) && Elements(order) == containers.Keys
      ensures listFailed == (old(listFailed) || !ok)
    {
      ok := Chance();
      order := IterationOrder(containers.Keys);
      if !ok { listFailed := true; }
    }

    method Stop(id: nat, stop: C -> C)
      requires Valid()
      modifies `containers
      ensures Valid() && containers.Keys == old(containers).Keys
      ensures forall x | x in containers && x != id :: containers[x] == old(containers)[x]
    {
      var ok := Chance();
      if ok && id in containers { containers := containers[id := stop(containers[id])]; }
    }

    method Remove(id: nat) returns (ghost failed: bool)
      requires Valid()
      modifies `containers, `removeFailed
      ensures Valid() && removeFailed == (old(removeFailed) || failed)
      ensures containers == if failed then old(containers) else old(containers) - {id}
    {
      var ok := Chance();
      failed := !ok && id in containers;
      if ok { containers := containers - {id}; }
      if failed { removeFailed := true; }
      assert !failed && !ok ==> containers - {id} == containers;
    }

    /** `ContainerStop` followed by a forced `ContainerRemove`, both errors ignored. */
    method StopAndRemove(id: nat, stop: C -> C) returns (ghost failed: bool)
      requires Valid()
      modifies `containers, `removeFailed
      ensures Valid() && removeFailed == (old(removeFailed) || failed)
      ensures containers.Keys <= old(containers).Keys
      ensures forall x | x in old(containers) && x != id :: x in containers && containers[x] == old(containers)[x]
      ensures !failed ==> id !in containers
    {
      Stop(id, stop);
      failed := Remove(id);
    }

    /** Names are unique; a new container is stopped. */
    method Create(c: C) returns (r: Created)
      requires Valid()
      modifies `containers, `nextId, `refused
      ensures Valid() && nextId >= old(nextId) && refused == (old(refused) || r.NotCreated?)
      ensures r.NotCreated? ==> containers == old(containers)
      ensures r.CreatedAs? ==>
        r.id >= old(nextId) && r.id !in old(containers) && containers == old(containers)[r.id := c]
      ensures r.CreatedAs? ==> forall x | x in old(containers) :: name(old(containers)[x]) != name(c)
    {
      var ok := Chance();
      if !ok || exists x :: x in containers && name(containers[x]) == name(c) {
        refused := true;
        return NotCreated;
      }
      r := CreatedAs(nextId);
      containers := containers[nextId := c];
      nextId := nextId + 1;
    }

    method Start(id: nat, start: C -> C) returns (ok: bool)
      requires Valid() && id in containers
      modifies `containers, `refused
      ensures Valid() && refused == (old(refused) || !ok)
      ensures containers == if ok then old(containers)[id := start(old(containers)[id])] else old(containers)
    {
      ok := Chance();
      if ok { containers := containers[id := start(containers[id])]; } else { refused := true; }
    }

    /** The container with the given name; a failed listing finds none. */
    method FindByName(wanted: N) returns (r: Created)
      requires Valid()
      modifies `listFailed
      ensures listFailed ==> old(listFailed) || r.NotCreated?
      ensures old(listFailed) ==> listFailed
      ensures r.CreatedAs? ==> r.id in containers && name(containers[r.id]) == wanted
      ensures r.NotCreated? && !listFailed ==> forall x | x in containers :: name(containers[x]) != wanted
    {
      var ok, order := List();
      if !ok { return NotCreated; }
      for i := 0 to |order|
        invariant forall j | 0 <= j < i :: name(containers[order[j]]) != wanted
      {
        assert order[i] in Elements(order);
        if name(containers[order[i]]) == wanted { return CreatedAs(order[i]); }
      }
      forall x | x in containers ensures name(containers[x]) != wanted { assert x in Elements(order); }
      return NotCreated;
    }

    /** Looks a network up by its exact name and creates it if the lookup finds none. */
    method EnsureNetwork(netName: string) returns (r: Created)
      requires Valid()
      modifies `networks, `nextNetwork, `refused, `networkListFailed
      ensures Valid() && refused == (old(refused) || r.NotCreated?) && (old(networkListFailed) ==> networkListFailed)
      ensures r.NotCreated? ==> networks == old(networks)
      ensures r.CreatedAs? ==> r.id in networks && networks[r.id] == netName
      ensures r.CreatedAs? && r.id in old(networks) ==> networks == old(networks)
      ensures r.CreatedAs? && r.id !in old(networks) ==>
        networks == old(networks)[r.id := netName]
        && (networkListFailed || forall n | n in old(networks) :: old(networks)[n] != netName)
    {
      var listed := Chance();
      if listed {
        var order := IterationOrder(networks.Keys);
        for i := 0 to |order|
          invariant forall j | 0 <= j < i :: order[j] in networks && networks[order[j]] != netName
        {
          assert order[i] in Elements(order);
          if networks[order[i]] == netName { return CreatedAs(order[i]); }
        }
        forall n | n in networks ensures networks[n] != netName { assert n in Elements(order); }
      } else {
        networkListFailed := true;
      }
      var ok := Chance();
      if !ok {
        refused := true;
        return NotCreated;
      }
      networks := networks[nextNetwork := netName];
      r := CreatedAs(nextNetwork);
      nextNetwork := nextNetwork + 1;
    }

    method RemoveNetwork(id: nat) returns (ghost failed: bool)
      requires Valid()
      modifies `networks, `refused
      ensures Valid() && refused == (old(refused) || failed)
      ensures networks == if failed then old(networks) else old(networks) - {id}
    {
      var ok := Chance();
      failed := !ok;
      if ok { networks := networks - {id}; } else { refused := true; }
    }

    constructor (name: C -> N)
      ensures this.name == name && Valid() && containers == map[] && !removeFailed && !listFailed
        && !networkListFailed && !refused
    {
      this.name := name;
      containers, nextId, networks, nextNetwork, pulls := map[], 0, map[], 0, 0;
      removeFailed, listFailed, networkListFailed, refused := false, false, false, false;
    }
  }
}
