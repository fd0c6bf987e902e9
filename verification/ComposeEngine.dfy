/** The control flow of `UpComposeStack`, over any kind of service, container and name. */
module ComposeEngine {
  import opened Sequences
  import opened Reconciliation
  import opened ContainerDaemon
  import opened Options

  datatype UpError =
    | NoError | EmptyProject | BadYaml | NoServices | NetworkFailed | DependencyCycle
    | BadImage | PullFailed | BadPorts | CreateFailed | StartFailed

  /** An error the service loop itself can report, or none. */
  predicate FromServiceLoop(err: UpError) {
    err.NoError? || err.BadImage? || err.PullFailed? || err.BadPorts? || err.CreateFailed? || err.StartFailed?
  }

  predicate Refusal(err: UpError) {
    err.PullFailed? || err.CreateFailed? || err.StartFailed?
  }

  /** An error that comes after the service's old container has been cleared away. */
  predicate BrokeOff(err: UpError) {
    err.BadPorts? || err.CreateFailed? || err.StartFailed?
  }

  /** Once a service is brought up anew or breaks off, what it had has been cleared away. */
  predicate Clears(err: UpError) {
    err.NoError? || BrokeOff(err)
  }

  /** A request against a view: how services are checked and containers are made. */
  datatype Job<!S(!new), !C(!new), !N(!new)> = Job(
    view: View<S, C, N>,
    named: C -> bool,          // has a service label
    blank: S -> C,             // the container to create, stopped
    start: C -> C, stop: C -> C,
    imageOk: S -> bool, portsOk: S -> bool,
    recreate: bool, forcePull: bool)

  /** New containers are what their service wants once they run. */
  ghost predicate MakesGood<S(!new), C(!new), N(!new)>(job: Job<S, C, N>) {
    forall s | s in job.view.services ::
      Good(job.view, s, job.start(job.blank(s))) && job.view.name(job.blank(s)) == job.view.wanted(s)
  }

  ghost predicate EngineState<S(!new), C(!new), N(!new)>(job: Job<S, C, N>, cs: map<nat, C>) {
    && OnePerService(job.view, cs)
    && forall id | id in cs && job.view.mine(cs[id]) :: job.named(cs[id]) && job.view.made(cs[id])
  }

  // ---------- Discovery ----------

  ghost predicate ListedUpTo<S(!new), C(!new), N(!new)>(job: Job<S, C, N>, cs: map<nat, C>, seen: seq<nat>,
          existing: Existing<S, C>, all: seq<nat>)
  {
    && (forall s | s in existing ::
         existing[s].0 in seen && existing[s].0 in cs && cs[existing[s].0] == existing[s].1 &&
          job.view.mine(existing[s].1) && job.named(existing[s].1) && job.view.service(existing[s].1) == s)
    && (forall id | id in seen && id in cs && job.view.mine(cs[id]) && job.named(cs[id]) ::
         job.view.service(cs[id]) in existing)
    && (forall id :: id in all <==> id in seen && id in cs && job.view.mine(cs[id]))
  }

  predicate Named<S(!new), C(!new), N(!new)>(job: Job<S, C, N>, c: C) {
    job.view.mine(c) && job.named(c)
  }

  /** What the listing up to here says about each service: its last container. */
  ghost function LastListed<S(!new), C(!new), N(!new)>(job: Job<S, C, N>, cs: map<nat, C>,
          seen: seq<nat>): Existing<S, C>
    requires Elements(seen) <= cs.Keys
  {
    if seen == [] then map[]
    else
      var n := |seen| - 1;
      var id := seen[n];
      assert id in Elements(seen) && Elements(seen[..n]) <= Elements(seen);
      var before := LastListed(job, cs, seen[..n]);
      if Named(job, cs[id]) then before[job.view.service(cs[id]) := (id, cs[id])] else before
  }

  lemma ListedNext<S(!new), C(!new), N(!new)>(job: Job<S, C, N>, cs: map<nat, C>, seen: seq<nat>,
          existing: Existing<S, C>, all: seq<nat>, id: nat)
    requires ListedUpTo(job, cs, seen, existing, all) && id in cs
    ensures var all' := if job.view.mine(cs[id]) then all + [id] else all;
      var existing' := if Named(job, cs[id]) then existing[job.view.service(cs[id]) := (id, cs[id])] else existing;
      ListedUpTo(job, cs, seen + [id], existing', all')
  {}

  lemma LastListedNext<S(!new), C(!new), N(!new)>(job: Job<S, C, N>, cs: map<nat, C>, seen: seq<nat>, id: nat)
    requires Elements(seen) <= cs.Keys && id in cs
    ensures Elements(seen + [id]) <= cs.Keys
    ensures var before := LastListed(job, cs, seen);
      LastListed(job, cs, seen + [id]) ==
        if Named(job, cs[id]) then before[job.view.service(cs[id]) := (id, cs[id])] else before
  {
    ElementsAppend(seen, id);
    assert (seen + [id])[..|seen|] == seen;
  }

  /** Collects the containers of the project; for each service the last one listed wins. */
  method Discover<S(==, !new), C(==, !new), N(==, !new)>(job: Job<S, C, N>, cs: map<nat, C>, order: seq<nat>)
    returns (existing: Existing<S, C>, all: seq<nat>)
    requires Elements(order) <= cs.Keys
    ensures ListedUpTo(job, cs, order, existing, all) && existing == LastListed(job, cs, order)
  {
    existing, all := map[], [];
    for i := 0 to |order|
      invariant ListedUpTo(job, cs, order[..i], existing, all)
      invariant Elements(order[..i]) <= cs.Keys && existing == LastListed(job, cs, order[..i])
    {
      var id := order[i];
      assert id in Elements(order) && order[..i + 1] == order[..i] + [id];
      ListedNext(job, cs, order[..i], existing, all, id);
      LastListedNext(job, cs, order[..i], id);
      if job.view.mine(cs[id]) {
        all := all + [id];
        if job.named(cs[id]) { existing := existing[job.view.service(cs[id]) := (id, cs[id])]; }
      }
    }
    assert order[..|order|] == order;
  }

  lemma DiscoveryIsListing<S(!new), C(!new), N(!new)>(job: Job<S, C, N>, cs: map<nat, C>, order: seq<nat>,
          existing: Existing<S, C>, all: seq<nat>)
    requires Elements(order) == cs.Keys && ListedUpTo(job, cs, order, existing, all) && EngineState(job, cs)
    ensures Listed(job.view, cs, existing)
  {
    forall id | id in cs ensures id in order { assert id in Elements(order); }
    forall id | id in cs && job.view.mine(cs[id])
      ensures job.view.service(cs[id]) in existing && existing[job.view.service(cs[id])].0 == id
    {
      var s := job.view.service(cs[id]);
      assert s in existing;
      var other := existing[s].0;
      assert job.view.service(cs[other]) == job.view.service(cs[id]);
    }
  }

  // ---------- Orphans ----------

  /** A container of someone else, whose name no service asks for. */
  ghost predicate Foreign<S(!new), C(!new), N(!new)>(job: Job<S, C, N>, c: C) {
    !job.view.mine(c) && forall s | s in job.view.services :: job.view.name(c) != job.view.wanted(s)
  }

  /** Such containers are as they were. */
  ghost predicate Spared<S(!new), C(!new), N(!new)>(job: Job<S, C, N>, cs: map<nat, C>, cur: map<nat, C>) {
    forall x | x in cs && Foreign(job, cs[x]) :: x in cur && cur[x] == cs[x]
  }

  ghost predicate OfProject<S(!new), C(!new), N(!new)>(job: Job<S, C, N>, cs: map<nat, C>, existing: Existing<S, C>) {
    forall s | s in existing :: existing[s].0 in cs && job.view.mine(cs[existing[s].0])
  }

  lemma SparedExcept<S(!new), C(!new), N(!new)>(job: Job<S, C, N>, cs: map<nat, C>, cur: map<nat, C>, cur': map<nat, C>,
          id: nat)
    requires Spared(job, cs, cur) && forall x | x in cur && x != id :: x in cur' && cur'[x] == cur[x]
    requires id in cs ==> !Foreign(job, cs[id])
    ensures Spared(job, cs, cur')
  {}

  ghost predicate Orphan<S(!new), C(!new), N(!new)>(job: Job<S, C, N>, c: C) {
    job.named(c) && job.view.service(c) !in job.view.services
  }

  method RemoveOrphans<S(==, !new), C(==, !new), N(==, !new)>(job: Job<S, C, N>, d: Daemon<C, N>, cs: map<nat, C>,
          all: seq<nat>)
    requires d.Valid() && (forall id <- all :: id in cs)
    modifies d`containers, d`removeFailed
    ensures d.Valid() && (old(d.removeFailed) ==> d.removeFailed)
    ensures d.containers.Keys <= old(d.containers).Keys
    ensures forall x | x in old(d.containers) && !(x in all && Orphan(job, cs[x])) ::
      x in d.containers && d.containers[x] == old(d.containers)[x]
    ensures !d.removeFailed ==> forall x | x in all && Orphan(job, cs[x]) :: x !in d.containers
  {
    for i := 0 to |all|
      invariant d.Valid() && (old(d.removeFailed) ==> d.removeFailed)
      invariant d.containers.Keys <= old(d.containers).Keys
      invariant forall x | x in old(d.containers) && !(x in all && Orphan(job, cs[x])) ::
        x in d.containers && d.containers[x] == old(d.containers)[x]
      invariant !d.removeFailed ==> forall x | x in all[..i] && Orphan(job, cs[x]) :: x !in d.containers
    {
      var id := all[i];
      assert all[..i + 1] == all[..i] + [id];
      if job.named(cs[id]) && job.view.service(cs[id]) !in job.view.services {
        ghost var failed := d.StopAndRemove(id, job.stop);
      }
    }
    assert all[..|all|] == all;
  }

  // ---------- One service ----------

  /** The container is left alone. */
  predicate Keeps<S(!new), C(!new), N(!new)>(job: Job<S, C, N>, existing: Existing<S, C>, t: S) {
    t in existing && !job.recreate && !job.forcePull && job.view.upToDate(t, existing[t].1)
  }

  /** Removes the discovered container of `t` and any other container of the wanted name. */
  method ClearService<S(==, !new), C(==, !new), N(==, !new)>(job: Job<S, C, N>, d: Daemon<C, N>,
          existing: Existing<S, C>, t: S, ghost cs: map<nat, C>)
    requires d.Valid() && d.name == job.view.name && t in job.view.services && OfProject(job, cs, existing)
      && Spared(job, cs, d.containers)
    modifies d`containers, d`removeFailed, d`listFailed
    ensures Spared(job, cs, d.containers)
    ensures d.Valid() && (old(d.removeFailed) ==> d.removeFailed) && (old(d.listFailed) ==> d.listFailed)
    ensures d.containers.Keys <= old(d.containers).Keys
    ensures !d.removeFailed ==> Cleared(job, existing, t, old(d.containers), d.containers, d.listFailed)
  {
    hide Spared, OfProject, UniqueNames, Cleared;
    ghost var start := d.containers;
    ghost var failed, failed' := false, false;
    if t in existing {
      ListedIsNotForeign(job, cs, existing, t);
      failed := d.StopAndRemove(existing[t].0, job.stop);
      SparedExcept(job, cs, start, d.containers, existing[t].0);
    }
    ghost var mid := d.containers;
    var byName := d.FindByName(job.view.wanted(t));
    if byName.CreatedAs? && !(t in existing && byName.id == existing[t].0) {
      HolderIsNotForeign(job, cs, mid, t, byName.id);
      failed' := d.StopAndRemove(byName.id, job.stop);
      SparedExcept(job, cs, mid, d.containers, byName.id);
    }
    if !failed && !failed' { ClearedBoth(job, existing, t, start, mid, d.containers, byName, d.listFailed); }
  }

  lemma ListedIsNotForeign<S(!new), C(!new), N(!new)>(job: Job<S, C, N>, cs: map<nat, C>, existing: Existing<S, C>,
          t: S)
    requires OfProject(job, cs, existing) && t in existing
    ensures existing[t].0 in cs ==> !Foreign(job, cs[existing[t].0])
  {}

  lemma HolderIsNotForeign<S(!new), C(!new), N(!new)>(job: Job<S, C, N>, cs: map<nat, C>, cur: map<nat, C>, t: S,
          id: nat)
    requires Spared(job, cs, cur) && t in job.view.services && id in cur && job.view.name(cur[id]) == job.view.wanted(t)
    ensures id in cs ==> !Foreign(job, cs[id])
  {}

  /** What the two removals do: of the listed container, and of the one found by name unless that is the same. */
  lemma ClearedBoth<S(!new), C(!new), N(!new)>(job: Job<S, C, N>, existing: Existing<S, C>, t: S, start: map<nat, C>,
          mid: map<nat, C>, cur: map<nat, C>, byName: Created, listFailed: bool)
    requires if t in existing then Without(start, mid, existing[t].0) else mid == start
    requires byName.CreatedAs? ==> byName.id in mid && job.view.name(mid[byName.id]) == job.view.wanted(t)
    requires if byName.CreatedAs? && !(t in existing && byName.id == existing[t].0) then Without(mid, cur, byName.id)
      else cur == mid
    requires byName.NotCreated? && !listFailed ==> NoneNamed(job, t, mid)
    ensures Cleared(job, existing, t, start, cur, listFailed)
  {
    if !listFailed && UniqueNames(job.view.name, start) && byName.CreatedAs? {
      forall x | x in cur ensures job.view.name(cur[x]) != job.view.wanted(t) {
        assert x in start && byName.id in start && x != byName.id;
      }
    }
  }

  /** The container is gone and the others are as they were. */
  ghost predicate Without<C>(cur: map<nat, C>, cur': map<nat, C>, id: nat) {
    && cur'.Keys <= cur.Keys && id !in cur'
    && forall x | x in cur && x != id :: x in cur' && cur'[x] == cur[x]
  }

  /** Service `t` lays claim to a container: the discovered one of `t`, and any that bears the name `t` wants. */
  ghost predicate Claims<S(!new), C(!new), N(!new)>(job: Job<S, C, N>, existing: Existing<S, C>, t: S, x: nat, c: C) {
    (t in existing && existing[t].0 == x) || job.view.name(c) == job.view.wanted(t)
  }

  ghost predicate NoneNamed<S(!new), C(!new), N(!new)>(job: Job<S, C, N>, t: S, cs: map<nat, C>) {
    forall x | x in cs :: job.view.name(cs[x]) != job.view.wanted(t)
  }

  ghost predicate Cleared<S(!new), C(!new), N(!new)>(job: Job<S, C, N>, existing: Existing<S, C>, t: S,
          cur: map<nat, C>, cur': map<nat, C>, listFailed: bool)
  {
    && (forall x | x in cur' :: x in cur && cur'[x] == cur[x])
    && (forall x | x in cur && x !in cur' :: Claims(job, existing, t, x, cur[x]))
    && (t in existing ==> existing[t].0 !in cur')
    && (!listFailed && UniqueNames(job.view.name, cur) ==> NoneNamed(job, t, cur'))
  }

  /** What becomes of the containers `cur` when service `t` is brought up; `hit` says whether `t` has been cleared. */
  ghost predicate Stepped<S(!new), C(!new), N(!new)>(job: Job<S, C, N>, existing: Existing<S, C>, t: S, hit: bool,
          cur: map<nat, C>, cur': map<nat, C>, made: Created, listFailed: bool)
  {
    && (forall x | x in cur' :: x in cur || made == CreatedAs(x))
    && (forall x | x in cur' && x in cur :: cur'[x] == cur[x])
    && (forall x | x in cur' && x !in cur :: cur'[x] == job.blank(t) || cur'[x] == job.start(job.blank(t)))
    && (forall x | x in cur && x !in cur' :: hit && Claims(job, existing, t, x, cur[x]))
    && (hit && t in existing ==> existing[t].0 !in cur' || made == CreatedAs(existing[t].0))
    && (MakesGood(job) && UniqueNames(job.view.name, cur) ==> UniqueNames(job.view.name, cur'))
    && (hit && !listFailed && UniqueNames(job.view.name, cur) ==> OldNotNamed(job, t, cur, cur'))
  }

  lemma NothingStepped<S(!new), C(!new), N(!new)>(job: Job<S, C, N>, existing: Existing<S, C>, t: S, cur: map<nat, C>,
          listFailed: bool)
    ensures Stepped(job, existing, t, false, cur, cur, NotCreated, listFailed)
  {}

  ghost predicate OldNotNamed<S(!new), C(!new), N(!new)>(job: Job<S, C, N>, t: S, cur: map<nat, C>, cur': map<nat, C>) {
    forall x | x in cur && x in cur' :: job.view.name(cur[x]) != job.view.wanted(t)
  }

  /** The daemon after a creation: at most one more container, with a name that was free. */
  ghost predicate Grown<S(!new), C(!new), N(!new)>(job: Job<S, C, N>, t: S, mid: map<nat, C>, cur': map<nat, C>,
          made: Created)
  {
    && (forall x | x in mid :: x in cur' && cur'[x] == mid[x])
    && (forall x | x in cur' :: x in mid || made == CreatedAs(x))
    && (forall x | x in cur' && x !in mid :: cur'[x] == job.blank(t) || cur'[x] == job.start(job.blank(t)))
    && (made.CreatedAs? ==> forall x | x in mid :: job.view.name(mid[x]) != job.view.name(job.blank(t)))
  }

  lemma GrownIsUnique<S(!new), C(!new), N(!new)>(job: Job<S, C, N>, t: S, mid: map<nat, C>, cur': map<nat, C>,
          made: Created)
    requires t in job.view.services && Grown(job, t, mid, cur', made)
    requires MakesGood(job) && UniqueNames(job.view.name, mid)
    ensures UniqueNames(job.view.name, cur')
  {
    forall x | x in cur' && x !in mid
      ensures made == CreatedAs(x) && job.view.name(cur'[x]) == job.view.name(job.blank(t))
    {
      assert Good(job.view, t, job.start(job.blank(t)));
    }
  }

  lemma UniqueShrinks<C(!new), N(!new)>(name: C -> N, cur: map<nat, C>, cur': map<nat, C>)
    requires UniqueNames(name, cur) && forall x | x in cur' :: x in cur && cur'[x] == cur[x]
    ensures UniqueNames(name, cur')
  {}

  lemma ClearedThenGrown<S(!new), C(!new), N(!new)>(job: Job<S, C, N>, existing: Existing<S, C>, t: S, cur: map<nat, C>,
          mid: map<nat, C>, cur': map<nat, C>, made: Created, cleared: bool, listFailed: bool)
    requires t in job.view.services && Cleared(job, existing, t, cur, mid, cleared) && (cleared ==> listFailed)
    requires Grown(job, t, mid, cur', made) && (made.CreatedAs? ==> made.id !in cur)
    ensures Stepped(job, existing, t, true, cur, cur', made, listFailed)
  {
    if UniqueNames(job.view.name, cur) {
      UniqueShrinks(job.view.name, cur, mid);
      if MakesGood(job) { GrownIsUnique(job, t, mid, cur', made); }
    }
  }

  /** An error has a reason: an image or ports that are not acceptable, or a call that the daemon refused. */
  ghost predicate Justified<S(!new), C(!new), N(!new)>(job: Job<S, C, N>, refused: bool, err: UpError) {
    && (err.BadImage? ==> exists t :: t in job.view.services && !job.imageOk(t))
    && (err.BadPorts? ==> exists t :: t in job.view.services && !job.portsOk(t))
    && (Refusal(err) ==> refused)
  }

  lemma SparedGrows<S(!new), C(!new), N(!new)>(job: Job<S, C, N>, cs: map<nat, C>, cur: map<nat, C>, cur': map<nat, C>)
    requires Spared(job, cs, cur) && forall x | x in cur :: x in cur' && cur'[x] == cur[x]
    ensures Spared(job, cs, cur')
  {}

  method CreateAndStart<S(==, !new), C(==, !new), N(==, !new)>(job: Job<S, C, N>, d: Daemon<C, N>, t: S)
    returns (err: UpError, created: Created)
    requires d.Valid() && d.name == job.view.name
    modifies d`containers, d`nextId, d`refused
    ensures err.NoError? || err.CreateFailed? || err.StartFailed?
    ensures Grown(job, t, old(d.containers), d.containers, created)
    ensures d.Valid() && d.nextId >= old(d.nextId) && (old(d.refused) ==> d.refused) && (!err.NoError? ==> d.refused)
    ensures created.CreatedAs? ==> created.id >= old(d.nextId)
    ensures err.NoError? ==>
      created.CreatedAs? && created.id in d.containers && d.containers[created.id] == job.start(job.blank(t))
  {
    created := d.Create(job.blank(t));
    if created.NotCreated? { return CreateFailed, created; }
    var started := d.Start(created.id, job.start);
    if !started { return StartFailed, created; }
    return NoError, created;
  }

  /** Clears the service and creates its container. */
  method Replace<S(==, !new), C(==, !new), N(==, !new)>(job: Job<S, C, N>, d: Daemon<C, N>, existing: Existing<S, C>,
          t: S, ghost cs: map<nat, C>)
    returns (err: UpError, created: Created)
    requires d.Valid() && d.name == job.view.name && t in job.view.services && OfProject(job, cs, existing)
      && Spared(job, cs, d.containers)
    modifies d`containers, d`removeFailed, d`listFailed, d`nextId, d`refused
    ensures Clears(err) && Spared(job, cs, d.containers)
    ensures (old(d.refused) ==> d.refused) && (err.BadPorts? ==> !job.portsOk(t)) && (Refusal(err) ==> d.refused)
    ensures d.Valid() && d.nextId >= old(d.nextId) && (old(d.removeFailed) ==> d.removeFailed)
      && (old(d.listFailed) ==> d.listFailed)
    ensures created.CreatedAs? ==> created.id >= old(d.nextId)
    ensures forall x | x in d.containers :: x in old(d.containers) || created == CreatedAs(x)
    ensures err.NoError? ==>
      created.CreatedAs? && created.id in d.containers && d.containers[created.id] == job.start(job.blank(t))
    ensures !d.removeFailed ==>
      Stepped(job, existing, t, true, old(d.containers), d.containers, created, d.listFailed)
  {
    hide Spared, Cleared, Stepped, OfProject;
    ghost var start := d.containers;
    ClearService(job, d, existing, t, cs);
    ghost var mid, listFailed := d.containers, d.listFailed;
    if !job.portsOk(t) {
      created := NotCreated;
      if !d.removeFailed { ClearedThenGrown(job, existing, t, start, mid, mid, created, listFailed, listFailed); }
      return BadPorts, created;
    }
    err, created := CreateAndStart(job, d, t);
    SparedGrows(job, cs, mid, d.containers);
    if !d.removeFailed {
      ClearedThenGrown(job, existing, t, start, mid, d.containers, created, listFailed, d.listFailed);
    }
  }

  /** Replaces the container of a service; `created` is the identifier of a container this call made, if any. */
  method RecreateOne<S(==, !new), C(==, !new), N(==, !new)>(job: Job<S, C, N>, d: Daemon<C, N>,
          existing: Existing<S, C>, t: S, ghost cs: map<nat, C>)
    returns (err: UpError, created: Created)
    requires d.Valid() && d.name == job.view.name && t in job.view.services && OfProject(job, cs, existing)
      && Spared(job, cs, d.containers)
    modifies d`containers, d`removeFailed, d`listFailed, d`nextId, d`refused, d`pulls
    ensures FromServiceLoop(err) && Spared(job, cs, d.containers)
    ensures (old(d.refused) ==> d.refused) && !err.BadImage? && (err.BadPorts? ==> !job.portsOk(t))
      && (Refusal(err) ==> d.refused)
    ensures d.Valid() && d.nextId >= old(d.nextId) && (old(d.removeFailed) ==> d.removeFailed)
      && (old(d.listFailed) ==> d.listFailed)
    ensures created.CreatedAs? ==> created.id >= old(d.nextId)
    ensures forall x | x in d.containers :: x in old(d.containers) || created == CreatedAs(x)
    ensures err.NoError? ==>
      created.CreatedAs? && created.id in d.containers && d.containers[created.id] == job.start(job.blank(t))
    ensures !d.removeFailed ==>
      Stepped(job, existing, t, Clears(err), old(d.containers), d.containers, created, d.listFailed)
    ensures err.NoError? && job.forcePull ==> d.pulls == old(d.pulls) + 1
  {
    hide Spared, Stepped, OfProject;
    var haveImage := d.Chance();
    if job.forcePull || !haveImage {
      var pulled := d.Pull();
      if !pulled {
        NothingStepped(job, existing, t, d.containers, d.listFailed);
        return PullFailed, NotCreated;
      }
    }
    err, created := Replace(job, d, existing, t, cs);
  }

  // ---------- All services ----------

  /** The domain in which a successful run converges. */
  ghost predicate Sound<S(!new), C(!new), N(!new)>(job: Job<S, C, N>) {
    NamesSettled(job.view) && MakesGood(job)
  }

  /** What holds after `done` services, whatever failed: nothing remains but old and new containers. */
  ghost predicate OnlyNew<C(!new)>(before: map<nat, C>, cur: map<nat, C>, newIds: seq<nat>, removeFailed: bool) {
    && (forall x | x in cur :: x in before || x in newIds)
    && (!removeFailed ==> forall x | x in cur && x in before :: cur[x] == before[x])
  }

  ghost predicate IdsBelow<S(!new), C(!new)>(existing: Existing<S, C>, bound: nat) {
    forall s | s in existing :: existing[s].0 < bound
  }

  /** Bringing `t` up with this outcome has cleared away what `t` had. */
  predicate Hits<S(!new), C(!new), N(!new)>(job: Job<S, C, N>, existing: Existing<S, C>, t: S, err: UpError) {
    !Keeps(job, existing, t) && Clears(err)
  }

  /** Brings one service up; `id` is the container it ends with. */
  method UpService<S(==, !new), C(==, !new), N(==, !new)>(job: Job<S, C, N>, d: Daemon<C, N>, existing: Existing<S, C>,
          t: S, ghost done: set<S>, ghost created: map<S, nat>, ghost tracked: bool, ghost cs: map<nat, C>)
    returns (err: UpError, made: Created, id: nat)
    requires d.Valid() && d.name == job.view.name && IdsBelow(existing, d.nextId)
    requires t in job.view.services && t !in done && OfProject(job, cs, existing) && Spared(job, cs, d.containers)
    requires tracked && !d.removeFailed ==> Sound(job) && Reconciling(job.view, existing, done, created, d.containers)
    modifies d`containers, d`removeFailed, d`listFailed, d`nextId, d`refused, d`pulls
    ensures FromServiceLoop(err) && Spared(job, cs, d.containers)
    ensures (old(d.refused) ==> d.refused) && (err.BadImage? <==> !job.imageOk(t))
      && (err.BadPorts? ==> !job.portsOk(t)) && (Refusal(err) ==> d.refused)
    ensures d.Valid() && d.nextId >= old(d.nextId) && (old(d.removeFailed) ==> d.removeFailed)
      && (old(d.listFailed) ==> d.listFailed)
    ensures made.CreatedAs? ==> made.id >= old(d.nextId)
    ensures forall x | x in d.containers :: x in old(d.containers) || made == CreatedAs(x)
    ensures !d.removeFailed ==>
      Stepped(job, existing, t, Hits(job, existing, t, err), old(d.containers), d.containers, made, d.listFailed)
    ensures err.NoError? && tracked && !d.removeFailed ==>
      Reconciling(job.view, existing, done + {t}, created[t := id], d.containers)
    ensures Keeps(job, existing, t) ==> d.containers == old(d.containers) && made.NotCreated? && !BrokeOff(err)
    ensures err.NoError? && job.forcePull ==> d.pulls == old(d.pulls) + 1
  {
    err, made, id := NoError, NotCreated, 0;
    if !job.imageOk(t) { return BadImage, made, id; }
    if Keeps(job, existing, t) {
      if tracked && !d.removeFailed { KeepService(job.view, existing, done, created, d.containers, t); }
      return NoError, made, existing[t].0;
    }
    ghost var cur := d.containers;
    err, made := RecreateOne(job, d, existing, t, cs);
    if err.NoError? {
      id := made.id;
      if tracked && !d.removeFailed {
        RecreateService(job.view, existing, done, created, cur, d.containers, t, id);
      }
    }
  }

  ghost predicate ClaimedBySome<S(!new), C(!new), N(!new)>(job: Job<S, C, N>, existing: Existing<S, C>, hit: set<S>,
          x: nat, c: C)
  {
    exists t :: t in hit && Claims(job, existing, t, x, c)
  }

  /** A container that this engine has made for one of the services, started or not. */
  ghost predicate MadeHere<S(!new), C(!new), N(!new)>(job: Job<S, C, N>, c: C) {
    exists t :: t in job.view.services && (c == job.blank(t) || c == job.start(job.blank(t)))
  }

  ghost predicate NoneNamedFor<S(!new), C(!new), N(!new)>(job: Job<S, C, N>, hit: set<S>, before: map<nat, C>,
          cur: map<nat, C>)
  {
    forall t | t in hit :: OldNotNamed(job, t, before, cur)
  }

  /**
   * The containers lost between `before` and `cur` are those that a service of `hit` laid claim to; when names are
   * unique and no listing fails, all of them. Those that are new were made for a service.
   */
  ghost predicate Losses<S(!new), C(!new), N(!new)>(job: Job<S, C, N>, existing: Existing<S, C>, hit: set<S>,
          before: map<nat, C>, cur: map<nat, C>, listFailed: bool)
  {
    && (forall x | x in before && x !in cur :: ClaimedBySome(job, existing, hit, x, before[x]))
    && (forall x | x in cur && x !in before :: MadeHere(job, cur[x]))
    && (forall t | t in hit && t in existing :: existing[t].0 !in cur)
    && (MakesGood(job) && UniqueNames(job.view.name, before) ==>
         UniqueNames(job.view.name, cur) && (!listFailed ==> NoneNamedFor(job, hit, before, cur)))
  }

  lemma LossesGrow<S(!new), C(!new), N(!new)>(job: Job<S, C, N>, existing: Existing<S, C>, hit: set<S>, t: S,
          more: bool, before: map<nat, C>, cur: map<nat, C>, cur': map<nat, C>, made: Created, bound: nat, failed: bool,
          failed': bool)
    requires Losses(job, existing, hit, before, cur, failed) && (failed ==> failed')
    requires Stepped(job, existing, t, more, cur, cur', made, failed')
    requires forall x | x in before && x in cur :: cur[x] == before[x]
    requires (forall x | x in before :: x < bound) && (made.CreatedAs? ==> made.id >= bound)
    requires IdsBelow(existing, bound) && t in job.view.services
    ensures Losses(job, existing, if more then hit + {t} else hit, before, cur', failed')
  {
    hide MadeHere, MakesGood, OldNotNamed, Claims;
    var hit' := if more then hit + {t} else hit;
    MadeGrows(job, existing, t, more, before, cur, cur', made, failed');
    ClaimsGrow(job, existing, hit, t, more, before, cur, cur', made, failed');
    if MakesGood(job) && UniqueNames(job.view.name, before) && !failed' {
      forall s | s in hit' ensures OldNotNamed(job, s, before, cur') {
        StillNotNamed(job, hit, s, t, more, before, cur, cur', made, bound);
      }
    }
  }

  lemma ClaimsGrow<S(!new), C(!new), N(!new)>(job: Job<S, C, N>, existing: Existing<S, C>, hit: set<S>, t: S,
          more: bool, before: map<nat, C>, cur: map<nat, C>, cur': map<nat, C>, made: Created, listFailed: bool)
    requires forall x | x in before && x !in cur :: ClaimedBySome(job, existing, hit, x, before[x])
    requires Stepped(job, existing, t, more, cur, cur', made, listFailed)
    requires forall x | x in before && x in cur :: cur[x] == before[x]
    ensures forall x | x in before && x !in cur' ::
      ClaimedBySome(job, existing, if more then hit + {t} else hit, x, before[x])
  {
    var hit' := if more then hit + {t} else hit;
    forall x | x in before && x !in cur' ensures ClaimedBySome(job, existing, hit', x, before[x]) {
      if x !in cur {
        var s :| s in hit && Claims(job, existing, s, x, before[x]);
        assert s in hit';
      } else {
        assert t in hit' && Claims(job, existing, t, x, before[x]);
      }
    }
  }

  lemma MadeGrows<S(!new), C(!new), N(!new)>(job: Job<S, C, N>, existing: Existing<S, C>, t: S, more: bool,
          before: map<nat, C>, cur: map<nat, C>, cur': map<nat, C>, made: Created, listFailed: bool)
    requires Stepped(job, existing, t, more, cur, cur', made, listFailed) && t in job.view.services
    requires forall x | x in cur && x !in before :: MadeHere(job, cur[x])
    ensures forall x | x in cur' && x !in before :: MadeHere(job, cur'[x])
  {
    forall x | x in cur' && x !in before ensures MadeHere(job, cur'[x]) {
      if x in cur { assert MadeHere(job, cur[x]); }
    }
  }

  lemma StillNotNamed<S(!new), C(!new), N(!new)>(job: Job<S, C, N>, hit: set<S>, s: S, t: S, more: bool,
          before: map<nat, C>, cur: map<nat, C>, cur': map<nat, C>, made: Created, bound: nat)
    requires NoneNamedFor(job, hit, before, cur) && (more ==> OldNotNamed(job, t, cur, cur'))
    requires forall x | x in cur' :: x in cur || made == CreatedAs(x)
    requires forall x | x in before && x in cur :: cur[x] == before[x]
    requires (forall x | x in before :: x < bound) && (made.CreatedAs? ==> made.id >= bound)
    requires s in hit || (more && s == t)
    ensures OldNotNamed(job, s, before, cur')
  {
    forall x | x in before && x in cur' ensures job.view.name(before[x]) != job.view.wanted(s) {
      assert x in cur;
      if s in hit { assert OldNotNamed(job, s, before, cur); }
    }
  }

  ghost predicate AllKept<S(!new), C(!new), N(!new)>(job: Job<S, C, N>, existing: Existing<S, C>) {
    forall s | s in job.view.services :: Keeps(job, existing, s)
  }

  lemma OnlyNewGrows<C(!new)>(before: map<nat, C>, cur: map<nat, C>, cur': map<nat, C>, newIds: seq<nat>, made: Created,
          failed: bool, failed': bool, bound: nat)
    requires OnlyNew(before, cur, newIds, failed) && (failed ==> failed')
    requires forall x | x in before :: x < bound
    requires made.CreatedAs? ==> made.id >= bound
    requires forall x | x in cur' :: x in cur || made == CreatedAs(x)
    requires !failed' ==> forall x | x in cur' && x in cur :: cur'[x] == cur[x]
    ensures OnlyNew(before, cur', if made.CreatedAs? then newIds + [made.id] else newIds, failed')
  {}

  /**
   * The containers part of the loop invariant: only new ones besides those of before, foreign ones spared, and nothing
   * lost but what the services of `hit` laid claim to.
   */
  ghost predicate LoopOk<S(!new), C(!new), N(!new)>(job: Job<S, C, N>, cs: map<nat, C>, existing: Existing<S, C>,
          hit: set<S>, before: map<nat, C>, bound: nat, cur: map<nat, C>, newIds: seq<nat>, removeFailed: bool,
          listFailed: bool)
  {
    && OnlyNew(before, cur, newIds, removeFailed) && (forall x <- newIds :: x >= bound)
    && Spared(job, cs, cur)
    && (AllKept(job, existing) ==> cur == before && newIds == [])
    && (!removeFailed ==> Losses(job, existing, hit, before, cur, listFailed))
  }

  lemma LoopStarts<S(!new), C(!new), N(!new)>(job: Job<S, C, N>, cs: map<nat, C>, existing: Existing<S, C>,
          cur: map<nat, C>, bound: nat, removeFailed: bool, listFailed: bool)
    requires Spared(job, cs, cur)
    ensures LoopOk(job, cs, existing, {}, cur, bound, cur, [], removeFailed, listFailed)
    ensures ToClear(job, existing, {}) == {} && Elements<S>([]) == {}
  {}

  /** The services of `done` that are not left alone. */
  ghost function ToClear<S(!new), C(!new), N(!new)>(job: Job<S, C, N>, existing: Existing<S, C>, done: set<S>): set<S> {
    set s | s in done && !Keeps(job, existing, s)
  }

  lemma ToClearNext<S(!new), C(!new), N(!new)>(job: Job<S, C, N>, existing: Existing<S, C>, done: set<S>, t: S)
    requires t !in done
    ensures ToClear(job, existing, done + {t}) ==
      if Hits(job, existing, t, NoError) then ToClear(job, existing, done) + {t} else ToClear(job, existing, done)
  {}

  /** One step of the service loop. */
  method UpNext<S(==, !new), C(==, !new), N(==, !new)>(job: Job<S, C, N>, d: Daemon<C, N>, existing: Existing<S, C>,
          t: S, newIds: seq<nat>, ghost done: set<S>, ghost created: map<S, nat>, ghost tracked: bool,
          ghost cs: map<nat, C>, ghost before: map<nat, C>, ghost bound: nat, ghost hit: set<S>)
    returns (err: UpError, ids: seq<nat>, id: nat)
    requires d.Valid() && d.name == job.view.name && IdsBelow(existing, bound) && bound <= d.nextId
    requires (forall x | x in before :: x < bound) && OfProject(job, cs, existing)
    requires t in job.view.services && t !in done
    requires LoopOk(job, cs, existing, hit, before, bound, d.containers, newIds, d.removeFailed, d.listFailed)
    requires tracked && !d.removeFailed ==> Sound(job) && Reconciling(job.view, existing, done, created, d.containers)
    modifies d`containers, d`removeFailed, d`listFailed, d`nextId, d`refused, d`pulls
    ensures FromServiceLoop(err)
    ensures (old(d.refused) ==> d.refused) && FailedAt(job, err, t) && (Refusal(err) ==> d.refused)
      && (BrokeOff(err) ==> !Keeps(job, existing, t))
    ensures d.Valid() && d.nextId >= old(d.nextId) && (old(d.removeFailed) ==> d.removeFailed)
      && (old(d.listFailed) ==> d.listFailed)
    ensures LoopOk(job, cs, existing, if Hits(job, existing, t, err) then hit + {t} else hit, before, bound,
      d.containers, ids, d.removeFailed, d.listFailed)
    ensures err.NoError? && tracked && !d.removeFailed ==>
      Reconciling(job.view, existing, done + {t}, created[t := id], d.containers)
    ensures err.NoError? && job.forcePull ==> d.pulls == old(d.pulls) + 1
  {
    ghost var cur, failed, unlisted := d.containers, d.removeFailed, d.listFailed;
    var made;
    err, made, id := UpService(job, d, existing, t, done, created, tracked, cs);
    OnlyNewGrows(before, cur, d.containers, newIds, made, failed, d.removeFailed, bound);
    ids := newIds;
    if made.CreatedAs? { ids := ids + [made.id]; }
    if !d.removeFailed {
      LossesGrow(job, existing, hit, t, Hits(job, existing, t, err), before, cur, d.containers, made, bound,
        unlisted, d.listFailed);
    }
  }

  /**
   * Why the loop stopped: `at` is the service it stopped at, and `hit` are the services it has cleared, those before
   * `at` in the order that are not left alone, and `at` if the call broke off at it.
   */
  ghost predicate StoppedAt<S(!new), C(!new), N(!new)>(job: Job<S, C, N>, existing: Existing<S, C>, order: seq<S>,
          err: UpError, at: Option<S>, hit: set<S>)
  {
    && hit <= ToClear(job, existing, job.view.services)
    && (if err.NoError? then at.None? && hit == ToClear(job, existing, job.view.services)
        else
          && at.Some? && FailedAt(job, err, at.value) && (at.value in hit <==> BrokeOff(err))
          && hit == ToClear(job, existing, Elements(UpTo(order, at.value))) + if BrokeOff(err) then {at.value} else {})
  }

  ghost predicate FailedAt<S(!new), C(!new), N(!new)>(job: Job<S, C, N>, err: UpError, t: S) {
    t in job.view.services && (err.BadImage? <==> !job.imageOk(t)) && (err.BadPorts? ==> !job.portsOk(t))
  }

  lemma FailedIsJustified<S(!new), C(!new), N(!new)>(job: Job<S, C, N>, refused: bool, err: UpError, t: S)
    requires FailedAt(job, err, t) && (Refusal(err) ==> refused)
    ensures Justified(job, refused, err)
  {}

  lemma StopsAt<S(!new), C(!new), N(!new)>(job: Job<S, C, N>, existing: Existing<S, C>, order: seq<S>, err: UpError,
          i: nat)
    requires NoDup(order) && Elements(order) == job.view.services && i < |order|
    requires FromServiceLoop(err) && !err.NoError? && FailedAt(job, err, order[i])
    requires BrokeOff(err) ==> !Keeps(job, existing, order[i])
    ensures var hit := ToClear(job, existing, Elements(order[..i]));
      StoppedAt(job, existing, order, err, Some(order[i]),
        if Hits(job, existing, order[i], err) then hit + {order[i]} else hit)
  {
    UpToIs(order, i);
    NotBefore(order, i);
    assert forall s <- order[..i] :: s in order;
  }

  lemma StopsAtEnd<S(!new), C(!new), N(!new)>(job: Job<S, C, N>, existing: Existing<S, C>, order: seq<S>)
    ensures StoppedAt(job, existing, order, NoError, None, ToClear(job, existing, job.view.services))
    ensures forall refused :: Justified(job, refused, NoError)
  {}

  method UpServices<S(==, !new), C(==, !new), N(==, !new)>(job: Job<S, C, N>, d: Daemon<C, N>, existing: Existing<S, C>,
          order: seq<S>, ghost tracked: bool, ghost cs: map<nat, C>)
    returns (err: UpError, newIds: seq<nat>, ghost at: Option<S>, ghost hit: set<S>)
    requires d.Valid() && d.name == job.view.name && IdsBelow(existing, d.nextId)
    requires NoDup(order) && Elements(order) == job.view.services && OfProject(job, cs, existing)
      && Spared(job, cs, d.containers)
    requires tracked && !d.removeFailed ==> Sound(job) && Reconciling(job.view, existing, {}, map[], d.containers)
    modifies d`containers, d`removeFailed, d`listFailed, d`nextId, d`refused, d`pulls
    ensures FromServiceLoop(err) && (old(d.refused) ==> d.refused) && Justified(job, d.refused, err)
    ensures d.Valid() && (old(d.removeFailed) ==> d.removeFailed) && (old(d.listFailed) ==> d.listFailed)
    ensures LoopOk(job, cs, existing, hit, old(d.containers), old(d.nextId), d.containers, newIds, d.removeFailed,
      d.listFailed)
    ensures err.NoError? && tracked && !d.removeFailed ==> Converged(job.view, d.containers)
    ensures StoppedAt(job, existing, order, err, at, hit)
    ensures tracked && !d.removeFailed ==> KeptStay(job, existing, d.containers)
    ensures err.NoError? && job.forcePull ==> d.pulls == old(d.pulls) + |order|
  {
    hide KeptStay, LoopOk, Losses, Reconciling, Sound, Keeps, Spared, OnlyNew, OfProject, IdsBelow, AllKept, NoDup,
      StoppedAt, Converged, ToClear, FailedAt, Elements, Hits, Clears, Justified, BrokeOff, Refusal;
    newIds, at, hit := [], None, {};
    ghost var created: map<S, nat> := map[];
    ghost var before, bound := d.containers, d.nextId;
    LoopStarts(job, cs, existing, before, bound, d.removeFailed, d.listFailed);
    assert order[..0] == [];
    for i := 0 to |order|
      invariant job.forcePull ==> d.pulls == old(d.pulls) + i
      invariant d.Valid() && d.nextId >= bound && hit == ToClear(job, existing, Elements(order[..i]))
      invariant (old(d.removeFailed) ==> d.removeFailed) && (old(d.listFailed) ==> d.listFailed)
        && (old(d.refused) ==> d.refused)
      invariant LoopOk(job, cs, existing, hit, before, bound, d.containers, newIds, d.removeFailed, d.listFailed)
      invariant tracked && !d.removeFailed ==>
        Sound(job) && Reconciling(job.view, existing, Elements(order[..i]), created, d.containers)
    {
      var t := order[i];
      ghost var done := Elements(order[..i]);
      StepsThrough(order, i);
      var id;
      err, newIds, id := UpNext(job, d, existing, t, newIds, done, created, tracked, cs, before, bound, hit);
      if !err.NoError? {
        FailedIsJustified(job, d.refused, err, t);
        StopsAt(job, existing, order, err, i);
        at := Some(t);
        hit := if Hits(job, existing, t, err) then hit + {t} else hit;
        if tracked && !d.removeFailed {
          KeptAreThere(job, cs, existing, order, err, at, hit, before, bound, d.containers, newIds, d.listFailed);
        }
        return;
      }
      ToClearNext(job, existing, done, t);
      hit := ToClear(job, existing, done + {t});
      created := created[t := id];
    }
    assert order[..|order|] == order;
    StopsAtEnd(job, existing, order);
    err := NoError;
    if tracked && !d.removeFailed {
      AllDone(job.view, existing, Elements(order), created, d.containers);
      KeptAreThere(job, cs, existing, order, err, at, hit, before, bound, d.containers, newIds, d.listFailed);
    }
  }

  /** The services that are left alone have the container they had, as it was. */
  ghost predicate KeptStay<S(!new), C(!new), N(!new)>(job: Job<S, C, N>, existing: Existing<S, C>, cur: map<nat, C>) {
    forall s | s in job.view.services && Keeps(job, existing, s) :: StillThere(existing, s, cur)
  }

  lemma KeptAreThere<S(!new), C(!new), N(!new)>(job: Job<S, C, N>, cs: map<nat, C>, existing: Existing<S, C>,
          order: seq<S>, err: UpError, at: Option<S>, hit: set<S>, before: map<nat, C>, bound: nat, cur: map<nat, C>,
          newIds: seq<nat>, listFailed: bool)
    requires Sound(job) && Reconciling(job.view, existing, {}, map[], before)
    requires LoopOk(job, cs, existing, hit, before, bound, cur, newIds, false, listFailed)
    requires StoppedAt(job, existing, order, err, at, hit)
    ensures KeptStay(job, existing, cur)
  {
    forall s | s in job.view.services && Keeps(job, existing, s) ensures StillThere(existing, s, cur) {
      assert Waiting(job.view, existing, {}, s);
      assert StillThere(existing, s, before);
      if existing[s].0 !in cur { NotClaimed(job, existing, hit, before, s); }
    }
  }

  lemma NotClaimed<S(!new), C(!new), N(!new)>(job: Job<S, C, N>, existing: Existing<S, C>, hit: set<S>,
          before: map<nat, C>, s: S)
    requires NamesSettled(job.view) && Discovered(job.view, existing, before) && hit <= job.view.services
    requires s in job.view.services && s !in hit && Keeps(job, existing, s) && StillThere(existing, s, before)
    ensures !ClaimedBySome(job, existing, hit, existing[s].0, before[existing[s].0])
  {
    forall t | t in hit ensures !Claims(job, existing, t, existing[s].0, before[existing[s].0]) {
      assert job.view.name(existing[s].1) == job.view.wanted(s);
    }
  }

  lemma StepsThrough<S>(order: seq<S>, i: nat)
    requires NoDup(order) && i < |order|
    ensures order[i] in Elements(order) && order[i] !in Elements(order[..i]) && Elements(order[..i]) <= Elements(order)
    ensures Elements(order[..i + 1]) == Elements(order[..i]) + {order[i]}
  {
    NotBefore(order, i);
    assert order[..i + 1] == order[..i] + [order[i]];
    ElementsAppend(order[..i], order[i]);
  }

  // ---------- Rollback ----------

  method Rollback<S(==, !new), C(==, !new), N(==, !new)>(job: Job<S, C, N>, d: Daemon<C, N>, newIds: seq<nat>)
    returns (ghost failed: bool)
    requires d.Valid()
    modifies d`containers, d`removeFailed
    ensures d.Valid() && (old(d.removeFailed) ==> d.removeFailed) && (failed ==> d.removeFailed)
    ensures d.containers.Keys <= old(d.containers).Keys
    ensures forall x | x in old(d.containers) && x !in newIds ::
      x in d.containers && d.containers[x] == old(d.containers)[x]
    ensures !failed ==> forall x <- newIds :: x !in d.containers
  {
    failed := false;
    for i := 0 to |newIds|
      invariant d.Valid() && (old(d.removeFailed) ==> d.removeFailed) && (failed ==> d.removeFailed)
      invariant d.containers.Keys <= old(d.containers).Keys
      invariant forall x | x in old(d.containers) && x !in newIds ::
        x in d.containers && d.containers[x] == old(d.containers)[x]
      invariant !failed ==> forall x <- newIds[..i] :: x !in d.containers
    {
      assert newIds[..i + 1] == newIds[..i] + [newIds[i]];
      ghost var bad := d.StopAndRemove(newIds[i], job.stop);
      failed := failed || bad;
    }
    assert newIds[..|newIds|] == newIds;
  }

  method RemoveNetworks<C(==, !new), N(==, !new)>(d: Daemon<C, N>, ids: seq<nat>) returns (ghost failed: bool)
    requires d.Valid()
    modifies d`networks, d`refused
    ensures d.Valid() && d.networks.Keys <= old(d.networks).Keys
    ensures (old(d.refused) ==> d.refused) && (failed ==> d.refused)
    ensures !failed ==> forall n <- ids :: n !in d.networks
    ensures forall n | n in old(d.networks) && n !in ids :: n in d.networks && d.networks[n] == old(d.networks)[n]
  {
    failed := false;
    for i := 0 to |ids|
      invariant d.Valid() && d.networks.Keys <= old(d.networks).Keys
      invariant (old(d.refused) ==> d.refused) && (failed ==> d.refused)
      invariant forall n | n in old(d.networks) && n !in ids :: n in d.networks && d.networks[n] == old(d.networks)[n]
      invariant !failed ==> forall n <- ids[..i] :: n !in d.networks
    {
      assert ids[..i + 1] == ids[..i] + [ids[i]];
      ghost var bad := d.RemoveNetwork(ids[i]);
      failed := failed || bad;
    }
    assert ids[..|ids|] == ids;
  }

  // ---------- From discovery to the end ----------

  lemma OnlyNewAfter<C(!new)>(before: map<nat, C>, mid: map<nat, C>, cur: map<nat, C>, newIds: seq<nat>,
          removeFailed: bool)
    requires mid.Keys <= before.Keys && OnlyNew(mid, cur, newIds, removeFailed)
    requires !removeFailed ==> forall x | x in mid :: mid[x] == before[x]
    requires forall x | x in before :: x !in newIds
    ensures OnlyNew(before, cur, newIds, removeFailed)
  {}

  lemma KeptAreOld<S(!new), C(!new), N(!new)>(job: Job<S, C, N>, cs: map<nat, C>, all: seq<nat>, cur: map<nat, C>)
    requires cur.Keys <= cs.Keys
    requires forall x | x in cs && !(x in all && Orphan(job, cs[x])) :: x in cur && cur[x] == cs[x]
    ensures (forall x | x in all && x in cs && Orphan(job, cs[x]) :: x !in cur) ==>
      forall x | x in cur :: cur[x] == cs[x]
  {}

  lemma ListedAreOurs<S(!new), C(!new), N(!new)>(job: Job<S, C, N>, cs: map<nat, C>, order: seq<nat>,
          existing: Existing<S, C>, all: seq<nat>, cur: map<nat, C>)
    requires ListedUpTo(job, cs, order, existing, all)
    requires forall x | x in cs && !(x in all && Orphan(job, cs[x])) :: x in cur && cur[x] == cs[x]
    ensures OfProject(job, cs, existing) && Spared(job, cs, cur)
  {}

  /** No container belongs to the project. */
  ghost predicate IsNew<S(!new), C(!new), N(!new)>(job: Job<S, C, N>, cs: map<nat, C>) {
    forall x | x in cs :: !job.view.mine(cs[x])
  }

  lemma NoneListedIsNew<S(!new), C(!new), N(!new)>(job: Job<S, C, N>, cs: map<nat, C>, order: seq<nat>,
          existing: Existing<S, C>, all: seq<nat>)
    requires ListedUpTo(job, cs, order, existing, all) && Elements(order) == cs.Keys
    ensures all == [] <==> IsNew(job, cs)
  {
    if all != [] {
      assert all[0] in all;
    } else {
      forall x | x in cs ensures !job.view.mine(cs[x]) { assert x in Elements(order) && x !in all; }
    }
  }

  /** Exactly the project's containers whose service is not in the file are gone. */
  ghost predicate OrphansGone<S(!new), C(!new), N(!new)>(job: Job<S, C, N>, cs: map<nat, C>, cur: map<nat, C>) {
    forall x | x in cs :: x in cur <==> !(job.view.mine(cs[x]) && Orphan(job, cs[x]))
  }

  lemma OrphansAreGone<S(!new), C(!new), N(!new)>(job: Job<S, C, N>, cs: map<nat, C>, order: seq<nat>,
          existing: Existing<S, C>, all: seq<nat>, cur: map<nat, C>)
    requires ListedUpTo(job, cs, order, existing, all) && Elements(order) == cs.Keys
    requires forall x | x in cs && !(x in all && Orphan(job, cs[x])) :: x in cur && cur[x] == cs[x]
    requires forall x | x in all && Orphan(job, cs[x]) :: x !in cur
    ensures OrphansGone(job, cs, cur)
  {
    forall x | x in cs ensures x in all <==> job.view.mine(cs[x]) { assert x in Elements(order); }
  }

  /** Lists the project's containers and removes those of services that are not in the file. */
  method Survey<S(==, !new), C(==, !new), N(==, !new)>(job: Job<S, C, N>, d: Daemon<C, N>)
    returns (existing: Existing<S, C>, all: seq<nat>, ghost tracked: bool)
    requires d.Valid()
    modifies d`containers, d`removeFailed, d`listFailed
    ensures d.Valid() && (old(d.removeFailed) ==> d.removeFailed) && (old(d.listFailed) ==> d.listFailed)
    ensures d.containers.Keys <= old(d.containers).Keys
    ensures !d.removeFailed ==> forall x | x in d.containers :: d.containers[x] == old(d.containers)[x]
    ensures !d.removeFailed && !d.listFailed ==> OrphansGone(job, old(d.containers), d.containers)
    ensures IdsBelow(existing, d.nextId) && OfProject(job, old(d.containers), existing)
      && Spared(job, old(d.containers), d.containers)
    ensures Sound(job) && EngineState(job, old(d.containers)) && !d.listFailed ==> tracked
    ensures tracked && !d.removeFailed ==> Sound(job) && Reconciling(job.view, existing, {}, map[], d.containers)
    ensures !d.listFailed ==> (all == [] <==> IsNew(job, old(d.containers)))
    ensures EngineState(job, old(d.containers)) && !d.listFailed ==> Listed(job.view, old(d.containers), existing)
    ensures Converged(job.view, old(d.containers)) && EngineState(job, old(d.containers)) && !d.listFailed ==>
      d.containers == old(d.containers) && (!job.recreate && !job.forcePull ==> AllKept(job, existing))
  {
    hide ListedUpTo, LastListed, Reconciling, Listed, Converged, EngineState, Sound, IsNew, OfProject, Spared,
      OrphansGone,
      AllKept;
    ghost var before := d.containers;
    var listed, found := d.List();
    if !listed { found := []; }
    var cs := d.containers;
    existing, all := Discover(job, cs, found);
    RemoveOrphans(job, d, cs, all);
    ListedAreOurs(job, before, found, existing, all, d.containers);
    KeptAreOld(job, before, all, d.containers);
    tracked := listed && Sound(job) && EngineState(job, before);
    if listed { ListingMeans(job, before, found, existing, all, d.containers, d.removeFailed); }
  }

  /** What a successful listing and the removal of orphans give. */
  lemma ListingMeans<S(!new), C(!new), N(!new)>(job: Job<S, C, N>, cs: map<nat, C>, order: seq<nat>,
          existing: Existing<S, C>, all: seq<nat>, cur: map<nat, C>, removeFailed: bool)
    requires ListedUpTo(job, cs, order, existing, all) && Elements(order) == cs.Keys && cur.Keys <= cs.Keys
    requires forall x | x in cs && !(x in all && Orphan(job, cs[x])) :: x in cur && cur[x] == cs[x]
    requires !removeFailed ==> forall x | x in all && Orphan(job, cs[x]) :: x !in cur
    ensures all == [] <==> IsNew(job, cs)
    ensures !removeFailed ==> OrphansGone(job, cs, cur)
    ensures EngineState(job, cs) ==> Listed(job.view, cs, existing)
    ensures EngineState(job, cs) && !removeFailed ==> Reconciling(job.view, existing, {}, map[], cur)
    ensures EngineState(job, cs) && Converged(job.view, cs) ==>
      cur == cs && (!job.recreate && !job.forcePull ==> AllKept(job, existing))
  {
    NoneListedIsNew(job, cs, order, existing, all);
    if !removeFailed { OrphansAreGone(job, cs, order, existing, all, cur); }
    if EngineState(job, cs) {
      DiscoveryIsListing(job, cs, order, existing, all);
      if !removeFailed { DiscoveryStarts(job, cs, order, existing, all, cur); }
      if Converged(job.view, cs) { QuietDiscovery(job, cs, order, existing, all, cur); }
    }
  }

  // ---------- What is lost ----------

  /** A container of the project whose service is not in the file or has been cleared. */
  ghost predicate LostOwn<S(!new), C(!new), N(!new)>(job: Job<S, C, N>, hit: set<S>, c: C) {
    job.view.mine(c) && (job.view.service(c) !in job.view.services || job.view.service(c) in hit)
  }

  /** A container that bears the name of a cleared service. */
  ghost predicate LostName<S(!new), C(!new), N(!new)>(job: Job<S, C, N>, hit: set<S>, c: C) {
    exists s :: s in hit && job.view.name(c) == job.view.wanted(s)
  }

  /**
   * Of the containers of before, only those are gone that were orphans, belonged to a cleared service or bore its name,
   * and the first two kinds are; the others are as they were. With unique names the third kind is gone, too. What is
   * new was made for a service.
   */
  ghost predicate Leaves<S(!new), C(!new), N(!new)>(job: Job<S, C, N>, hit: set<S>, cs: map<nat, C>, cur: map<nat, C>) {
    && (forall x | x in cs && x in cur :: cur[x] == cs[x] && !LostOwn(job, hit, cs[x]))
    && (forall x | x in cs && x !in cur :: LostOwn(job, hit, cs[x]) || LostName(job, hit, cs[x]))
    && (MakesGood(job) && UniqueNames(job.view.name, cs) ==>
         forall x | x in cs && x in cur :: !LostName(job, hit, cs[x]))
    && (forall x | x in cur && x !in cs :: MadeHere(job, cur[x]))
  }

  lemma LossesLeave<S(!new), C(!new), N(!new)>(job: Job<S, C, N>, existing: Existing<S, C>, hit: set<S>,
          cs: map<nat, C>, mid: map<nat, C>, cur: map<nat, C>, newIds: seq<nat>)
    requires EngineState(job, cs) && Listed(job.view, cs, existing) && OrphansGone(job, cs, mid)
    requires mid.Keys <= cs.Keys && forall x | x in mid :: mid[x] == cs[x]
    requires OnlyNew(mid, cur, newIds, false) && forall x | x in cs :: x !in newIds
    requires Losses(job, existing, hit, mid, cur, false)
    ensures Leaves(job, hit, cs, cur)
  {
    forall x | x in cs && x in cur ensures cur[x] == cs[x] && !LostOwn(job, hit, cs[x]) {
      assert x in mid;
    }
    forall x | x in cs && x !in cur ensures LostOwn(job, hit, cs[x]) || LostName(job, hit, cs[x]) {
      if x in mid { ClaimedIsLost(job, existing, hit, cs, x); }
    }
    if MakesGood(job) && UniqueNames(job.view.name, cs) {
      UniqueShrinks(job.view.name, cs, mid);
      forall x | x in cs && x in cur ensures !LostName(job, hit, cs[x]) {
        assert x in mid;
        forall s | s in hit ensures job.view.name(cs[x]) != job.view.wanted(s) {
          assert OldNotNamed(job, s, mid, cur);
        }
      }
    }
  }

  lemma ClaimedIsLost<S(!new), C(!new), N(!new)>(job: Job<S, C, N>, existing: Existing<S, C>, hit: set<S>,
          cs: map<nat, C>, x: nat)
    requires Listed(job.view, cs, existing) && x in cs && ClaimedBySome(job, existing, hit, x, cs[x])
    ensures LostOwn(job, hit, cs[x]) || LostName(job, hit, cs[x])
  {
    var t :| t in hit && Claims(job, existing, t, x, cs[x]);
  }

  /** The service can be left alone: a container of before is up to date and nothing asks for a new one. */
  ghost predicate Stays<S(!new), C(!new), N(!new)>(job: Job<S, C, N>, cs: map<nat, C>, s: S) {
    !job.recreate && !job.forcePull && exists x :: x in cs && Current(job, cs[x], s)
  }

  ghost predicate Current<S(!new), C(!new), N(!new)>(job: Job<S, C, N>, c: C, s: S) {
    job.view.mine(c) && job.view.service(c) == s && job.view.upToDate(s, c)
  }

  /**
   * The cleared services are those that cannot be left alone, after an error only those before the service it stopped
   * at and that one if the call broke off at it.
   */
  ghost predicate ClearsOnly<S(!new), C(!new), N(!new)>(job: Job<S, C, N>, cs: map<nat, C>, order: seq<S>, err: UpError,
          at: Option<S>, hit: set<S>)
  {
    && (forall s | s in hit :: s in job.view.services && !Stays(job, cs, s))
    && if err.NoError? then forall s | s in job.view.services :: s in hit || Stays(job, cs, s)
       else
         && at.Some?
         && forall s :: s in hit <==>
              (s in UpTo(order, at.value) && !Stays(job, cs, s)) || (BrokeOff(err) && s == at.value)
  }

  lemma KeepsIsStays<S(!new), C(!new), N(!new)>(job: Job<S, C, N>, existing: Existing<S, C>, cs: map<nat, C>, s: S)
    requires Listed(job.view, cs, existing)
    ensures Keeps(job, existing, s) <==> Stays(job, cs, s)
  {
    if Keeps(job, existing, s) { assert Current(job, cs[existing[s].0], s); }
  }

  lemma StoppedClears<S(!new), C(!new), N(!new)>(job: Job<S, C, N>, existing: Existing<S, C>, cs: map<nat, C>,
          order: seq<S>, err: UpError, at: Option<S>, hit: set<S>)
    requires Listed(job.view, cs, existing) && StoppedAt(job, existing, order, err, at, hit)
    ensures ClearsOnly(job, cs, order, err, at, hit)
  {
    forall s ensures Keeps(job, existing, s) <==> Stays(job, cs, s) { KeepsIsStays(job, existing, cs, s); }
  }

  /** The error names a service that explains it, cleared exactly if the call broke off at it. */
  ghost predicate NamesCulprit<S(!new), C(!new), N(!new)>(job: Job<S, C, N>, err: UpError, at: Option<S>, hit: set<S>) {
    if err.NoError? then at.None? else at.Some? && FailedAt(job, err, at.value) && (at.value in hit <==> BrokeOff(err))
  }

  method UpProject<S(==, !new), C(==, !new), N(==, !new)>(job: Job<S, C, N>, d: Daemon<C, N>, order: seq<S>)
    returns (err: UpError, brandNew: bool, newIds: seq<nat>, ghost at: Option<S>, ghost hit: set<S>)
    requires d.Valid() && d.name == job.view.name
    requires NoDup(order) && Elements(order) == job.view.services
    modifies d`containers, d`removeFailed, d`listFailed, d`nextId, d`refused, d`pulls
    ensures FromServiceLoop(err) && Spared(job, old(d.containers), d.containers)
    ensures !d.listFailed ==> (brandNew <==> IsNew(job, old(d.containers)))
    ensures (old(d.refused) ==> d.refused) && Justified(job, d.refused, err)
    ensures d.Valid() && (old(d.removeFailed) ==> d.removeFailed) && (old(d.listFailed) ==> d.listFailed)
    ensures OnlyNew(old(d.containers), d.containers, newIds, d.removeFailed) && forall x <- newIds :: x >= old(d.nextId)
    ensures err.NoError? && Sound(job) && EngineState(job, old(d.containers)) && !d.removeFailed && !d.listFailed ==>
      Converged(job.view, d.containers)
    ensures !job.recreate && !job.forcePull && !d.listFailed ==>
      Converged(job.view, old(d.containers)) && EngineState(job, old(d.containers)) ==>
      d.containers == old(d.containers) && newIds == []
    ensures NamesCulprit(job, err, at, hit)
    ensures EngineState(job, old(d.containers)) && !d.listFailed ==>
      ClearsOnly(job, old(d.containers), order, err, at, hit)
    ensures EngineState(job, old(d.containers)) && !d.removeFailed && !d.listFailed ==>
      Leaves(job, hit, old(d.containers), d.containers)
    ensures err.NoError? && job.forcePull ==> d.pulls == old(d.pulls) + |order|
  {
    var existing, all;
    ghost var tracked;
    existing, all, tracked := Survey(job, d);
    brandNew := |all| == 0;
    ghost var listed := EngineState(job, old(d.containers)) && !d.listFailed;
    err, newIds, at, hit := UpListed(job, d, existing, order, tracked, listed, old(d.containers));
  }

  /** The service loop, seen from the containers `cs` of before. */
  method UpListed<S(==, !new), C(==, !new), N(==, !new)>(job: Job<S, C, N>, d: Daemon<C, N>, existing: Existing<S, C>,
          order: seq<S>, ghost tracked: bool, ghost listed: bool, ghost cs: map<nat, C>)
    returns (err: UpError, newIds: seq<nat>, ghost at: Option<S>, ghost hit: set<S>)
    requires d.Valid() && d.name == job.view.name && IdsBelow(existing, d.nextId)
    requires NoDup(order) && Elements(order) == job.view.services && OfProject(job, cs, existing)
      && Spared(job, cs, d.containers)
    requires tracked && !d.removeFailed ==> Sound(job) && Reconciling(job.view, existing, {}, map[], d.containers)
    requires d.containers.Keys <= cs.Keys && forall x | x in cs :: x < d.nextId
    requires !d.removeFailed ==> forall x | x in d.containers :: d.containers[x] == cs[x]
    requires listed ==> EngineState(job, cs) && Listed(job.view, cs, existing)
    requires listed && !d.removeFailed ==> OrphansGone(job, cs, d.containers)
    modifies d`containers, d`removeFailed, d`listFailed, d`nextId, d`refused, d`pulls
    ensures FromServiceLoop(err) && Spared(job, cs, d.containers)
    ensures (old(d.refused) ==> d.refused) && Justified(job, d.refused, err)
    ensures d.Valid() && (old(d.removeFailed) ==> d.removeFailed) && (old(d.listFailed) ==> d.listFailed)
    ensures OnlyNew(cs, d.containers, newIds, d.removeFailed) && forall x <- newIds :: x >= old(d.nextId)
    ensures err.NoError? && tracked && !d.removeFailed ==> Converged(job.view, d.containers)
    ensures AllKept(job, existing) ==> d.containers == old(d.containers) && newIds == []
    ensures NamesCulprit(job, err, at, hit) && (listed ==> ClearsOnly(job, cs, order, err, at, hit))
    ensures listed && !d.removeFailed && !d.listFailed ==> Leaves(job, hit, cs, d.containers)
    ensures err.NoError? && job.forcePull ==> d.pulls == old(d.pulls) + |order|
  {
    ghost var mid := d.containers;
    err, newIds, at, hit := UpServices(job, d, existing, order, tracked, cs);
    OnlyNewAfter(cs, mid, d.containers, newIds, d.removeFailed);
    if listed {
      StoppedClears(job, existing, cs, order, err, at, hit);
      if !d.removeFailed && !d.listFailed { LossesLeave(job, existing, hit, cs, mid, d.containers, newIds); }
    }
  }

  /** The whole reconciliation; on an error the new containers are removed again. */
  method Reconcile<S(==, !new), C(==, !new), N(==, !new)>(job: Job<S, C, N>, d: Daemon<C, N>, order: seq<S>)
    returns (err: UpError, brandNew: bool, ghost cleanupFailed: bool, ghost at: Option<S>, ghost hit: set<S>)
    requires d.Valid() && d.name == job.view.name
    requires NoDup(order) && Elements(order) == job.view.services
    modifies d`containers, d`removeFailed, d`listFailed, d`nextId, d`refused, d`pulls
    ensures FromServiceLoop(err) && Spared(job, old(d.containers), d.containers)
    ensures !d.listFailed ==> (brandNew <==> IsNew(job, old(d.containers)))
    ensures (old(d.refused) ==> d.refused) && Justified(job, d.refused, err)
    ensures d.Valid() && (old(d.removeFailed) ==> d.removeFailed) && (old(d.listFailed) ==> d.listFailed)
    ensures err.NoError? && Sound(job) && EngineState(job, old(d.containers)) && !d.removeFailed && !d.listFailed ==>
      Converged(job.view, d.containers)
    ensures cleanupFailed ==> !err.NoError? && d.removeFailed
    ensures !err.NoError? && !cleanupFailed ==> d.containers.Keys <= old(d.containers).Keys
    ensures !err.NoError? && !d.removeFailed ==>
      forall x | x in d.containers :: x in old(d.containers) && d.containers[x] == old(d.containers)[x]
    ensures !job.recreate && !job.forcePull && !d.listFailed ==>
      Converged(job.view, old(d.containers)) && EngineState(job, old(d.containers)) ==>
      d.containers == old(d.containers)
    ensures NamesCulprit(job, err, at, hit)
    ensures EngineState(job, old(d.containers)) && !d.listFailed ==>
      ClearsOnly(job, old(d.containers), order, err, at, hit)
    ensures EngineState(job, old(d.containers)) && !d.removeFailed && !d.listFailed ==>
      Leaves(job, hit, old(d.containers), d.containers)
    ensures err.NoError? && job.forcePull ==> d.pulls == old(d.pulls) + |order|
  {
    cleanupFailed := false;
    var newIds;
    err, brandNew, newIds, at, hit := UpProject(job, d, order);
    ghost var cur := d.containers;
    if !err.NoError? {
      cleanupFailed := Rollback(job, d, newIds);
      if EngineState(job, old(d.containers)) && !d.removeFailed && !d.listFailed {
        assert forall x | x in d.containers :: x in old(d.containers);
        LeavesWithout(job, hit, old(d.containers), cur, d.containers);
      }
    }
  }

  lemma LeavesWithout<S(!new), C(!new), N(!new)>(job: Job<S, C, N>, hit: set<S>, cs: map<nat, C>, cur: map<nat, C>,
          cur': map<nat, C>)
    requires Leaves(job, hit, cs, cur)
    requires forall x | x in cs :: (x in cur' <==> x in cur) && (x in cur ==> cur'[x] == cur[x])
    requires forall x | x in cur' :: x in cs
    ensures Leaves(job, hit, cs, cur')
  {}

  lemma DiscoveryStarts<S(!new), C(!new), N(!new)>(job: Job<S, C, N>, cs: map<nat, C>, order: seq<nat>,
          existing: Existing<S, C>, all: seq<nat>, cur: map<nat, C>)
    requires Elements(order) == cs.Keys && ListedUpTo(job, cs, order, existing, all) && EngineState(job, cs)
    requires cur.Keys <= cs.Keys
    requires forall x | x in cs && !(x in all && Orphan(job, cs[x])) :: x in cur && cur[x] == cs[x]
    requires forall x | x in all && Orphan(job, cs[x]) :: x !in cur
    ensures Reconciling(job.view, existing, {}, map[], cur)
  {
    DiscoveryIsListing(job, cs, order, existing, all);
    forall id
      ensures id in cur <==> id in cs && (job.view.mine(cs[id]) ==> job.view.service(cs[id]) in job.view.services)
    {
      assert id in cs ==> id in order by { assert id in cs ==> id in Elements(order); }
    }
    StartReconciling(job.view, cs, existing, cur);
  }

  /** In a converged state there is nothing to remove and nothing to recreate. */
  lemma QuietDiscovery<S(!new), C(!new), N(!new)>(job: Job<S, C, N>, cs: map<nat, C>, order: seq<nat>,
          existing: Existing<S, C>, all: seq<nat>, cur: map<nat, C>)
    requires Elements(order) == cs.Keys && ListedUpTo(job, cs, order, existing, all) && EngineState(job, cs)
      && Converged(job.view, cs)
    requires cur.Keys <= cs.Keys
    requires forall x | x in cs && !(x in all && Orphan(job, cs[x])) :: x in cur && cur[x] == cs[x]
    ensures cur == cs
    ensures !job.recreate && !job.forcePull ==> AllKept(job, existing)
  {
    DiscoveryIsListing(job, cs, order, existing, all);
    forall s | s in job.view.services ensures s in existing && job.view.upToDate(s, existing[s].1) {
      ConvergedIsUpToDate(job.view, cs, existing, s);
    }
  }

  /** A converged state is again a state made by the engine, so the promises compose. */
  lemma ConvergedIsEngineState<S(!new), C(!new), N(!new)>(job: Job<S, C, N>, cs: map<nat, C>)
    requires Converged(job.view, cs)
    requires forall c | job.view.service(c) in job.view.services :: job.named(c)
    ensures EngineState(job, cs)
  {
    forall id | id in cs && job.view.mine(cs[id]) ensures job.named(cs[id]) && job.view.made(cs[id]) {
      var s := job.view.service(cs[id]);
      assert HasGood(job.view, s, cs);
      var g :| g in cs && Good(job.view, s, cs[g]);
      assert g == id;
    }
  }
}
