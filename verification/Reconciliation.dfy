/** The invariant of the service loop of `UpComposeStack`, over any kind of container. */
module Reconciliation {

  /** How the reconciler looks at containers of type `C`, services of type `S` and container names of type `N`. */
  datatype View<!S(!new), !C(!new), !N(!new)> = View(
    services: set<S>,
    mine: C -> bool,            // belongs to the project
    made: C -> bool,            // bears the marks of this engine
    service: C -> S,
    upToDate: (S, C) -> bool,   // can stay as it is
    name: C -> N,
    wanted: S -> N)             // the name a new container of the service gets

  /** The container is what the service wants. */
  ghost predicate Good<S(!new), C(!new), N(!new)>(v: View<S, C, N>, s: S, c: C) {
    v.mine(c) && v.made(c) && v.service(c) == s && v.upToDate(s, c) && v.name(c) == v.wanted(s)
  }

  ghost predicate HasGood<S(!new), C(!new), N(!new)>(v: View<S, C, N>, s: S, cs: map<nat, C>) {
    exists id :: id in cs && Good(v, s, cs[id])
  }

  ghost predicate OnePerService<S(!new), C(!new), N(!new)>(v: View<S, C, N>, cs: map<nat, C>) {
    forall a, b | a in cs && b in cs && v.mine(cs[a]) && v.mine(cs[b]) && v.service(cs[a]) == v.service(cs[b]) :: a == b
  }

  ghost predicate NoOrphans<S(!new), C(!new), N(!new)>(v: View<S, C, N>, cs: map<nat, C>) {
    forall id | id in cs && v.mine(cs[id]) :: v.service(cs[id]) in v.services
  }

  /** Exactly one container per service, as wanted, and no orphan. */
  ghost predicate Converged<S(!new), C(!new), N(!new)>(v: View<S, C, N>, cs: map<nat, C>) {
    (forall s | s in v.services :: HasGood(v, s, cs)) && NoOrphans(v, cs) && OnePerService(v, cs)
  }

  /** Services want distinct names, and an up-to-date container made by the engine has the wanted name. */
  ghost predicate NamesSettled<S(!new), C(!new), N(!new)>(v: View<S, C, N>) {
    && (forall s, t | s in v.services && t in v.services && v.wanted(s) == v.wanted(t) :: s == t)
    && (forall s, c | s in v.services && v.made(c) && v.service(c) == s && v.upToDate(s, c) :: v.name(c) == v.wanted(s))
  }

  type Existing<S, C> = map<S, (nat, C)>

  /** The listing found one container of this engine for each service in `existing`; labels never change. */
  ghost predicate Discovered<S(!new), C(!new), N(!new)>(v: View<S, C, N>, existing: Existing<S, C>, cur: map<nat, C>) {
    forall s | s in existing ::
      && v.mine(existing[s].1) && v.made(existing[s].1) && v.service(existing[s].1) == s
      && (existing[s].0 in cur ==> v.service(cur[existing[s].0]) == s)
  }

  ghost predicate DoneGood<S(!new), C(!new), N(!new)>(v: View<S, C, N>, s: S, created: map<S, nat>, cur: map<nat, C>) {
    s in v.services && s in created && created[s] in cur && Good(v, s, cur[created[s]])
  }

  /** A container of the project is the result of a finished service or the discovered one of a waiting service. */
  ghost predicate Accounted<S(!new), C(!new), N(!new)>(v: View<S, C, N>, existing: Existing<S, C>, done: set<S>,
          created: map<S, nat>, id: nat, c: C)
  {
    var s := v.service(c);
    && s in v.services
    && if s in done then s in created && created[s] == id
         else s in existing && existing[s].0 == id && existing[s].1 == c
  }

  ghost predicate StillThere<S(!new), C(!new)>(existing: Existing<S, C>, s: S, cur: map<nat, C>) {
    s in existing && existing[s].0 in cur && cur[existing[s].0] == existing[s].1
  }

  ghost predicate Waiting<S(!new), C(!new), N(!new)>(v: View<S, C, N>, existing: Existing<S, C>, done: set<S>, s: S) {
    s in existing && s !in done && s in v.services && v.upToDate(s, existing[s].1)
  }

  ghost predicate Reconciling<S(!new), C(!new), N(!new)>(v: View<S, C, N>, existing: Existing<S, C>, done: set<S>,
          created: map<S, nat>, cur: map<nat, C>)
  {
    && Discovered(v, existing, cur)
    && (forall s | s in done :: DoneGood(v, s, created, cur))
    && (forall id | id in cur && v.mine(cur[id]) :: Accounted(v, existing, done, created, id, cur[id]))
    && (forall s | Waiting(v, existing, done, s) :: StillThere(existing, s, cur))
  }

  lemma KeepService<S(!new), C(!new), N(!new)>(v: View<S, C, N>, existing: Existing<S, C>, done: set<S>,
          created: map<S, nat>, cur: map<nat, C>, t: S)
    requires NamesSettled(v) && Reconciling(v, existing, done, created, cur) && Waiting(v, existing, done, t)
    ensures Reconciling(v, existing, done + {t}, created[t := existing[t].0], cur)
  {
    var done', created' := done + {t}, created[t := existing[t].0];
    assert StillThere(existing, t, cur);
    forall s | s in done' ensures DoneGood(v, s, created', cur) {
      if s != t { assert DoneGood(v, s, created, cur); }
    }
    forall id | id in cur && v.mine(cur[id]) ensures Accounted(v, existing, done', created', id, cur[id]) {
      assert Accounted(v, existing, done, created, id, cur[id]);
    }
    forall s | Waiting(v, existing, done', s) ensures StillThere(existing, s, cur) {
      assert Waiting(v, existing, done, s);
    }
  }

  /** What recreating service `t` does: its discovered container and any of the wanted name go, one new one comes. */
  ghost predicate Recreated<S(!new), C(!new), N(!new)>(v: View<S, C, N>, existing: Existing<S, C>, t: S,
          cur: map<nat, C>, cur': map<nat, C>, id: nat)
  {
    && id !in cur && id in cur' && (forall s | s in existing :: existing[s].0 != id)
    && (forall x | x in cur' && x != id :: x in cur && cur[x] == cur'[x])
    && (forall x | x in cur && x !in cur' :: (t in existing && existing[t].0 == x) || v.name(cur[x]) == v.wanted(t))
    && (t in existing ==> existing[t].0 !in cur')
  }

  lemma RecreateService<S(!new), C(!new), N(!new)>(v: View<S, C, N>, existing: Existing<S, C>, done: set<S>,
          created: map<S, nat>, cur: map<nat, C>, cur': map<nat, C>, t: S, id: nat)
    requires NamesSettled(v) && Reconciling(v, existing, done, created, cur)
    requires t in v.services && t !in done && Recreated(v, existing, t, cur, cur', id) && Good(v, t, cur'[id])
    ensures Reconciling(v, existing, done + {t}, created[t := id], cur')
  {
    var done', created' := done + {t}, created[t := id];
    forall s | s in done' ensures DoneGood(v, s, created', cur') {
      if s != t {
        assert DoneGood(v, s, created, cur);
        assert created[s] in cur';
      }
    }
    forall x | x in cur' && v.mine(cur'[x]) ensures Accounted(v, existing, done', created', x, cur'[x]) {
      if x != id { assert Accounted(v, existing, done, created, x, cur[x]); }
    }
    forall s | Waiting(v, existing, done', s) ensures StillThere(existing, s, cur') {
      assert Waiting(v, existing, done, s);
      assert StillThere(existing, s, cur);
    }
  }

  lemma AllDone<S(!new), C(!new), N(!new)>(v: View<S, C, N>, existing: Existing<S, C>, done: set<S>,
          created: map<S, nat>, cur: map<nat, C>)
    requires Reconciling(v, existing, done, created, cur) && done == v.services
    ensures Converged(v, cur)
  {
    forall s | s in v.services ensures HasGood(v, s, cur) {
      assert DoneGood(v, s, created, cur);
    }
    forall id | id in cur && v.mine(cur[id]) ensures v.service(cur[id]) in v.services {
      assert Accounted(v, existing, done, created, id, cur[id]);
    }
    forall a, b | a in cur && b in cur && v.mine(cur[a]) && v.mine(cur[b]) && v.service(cur[a]) == v.service(cur[b])
      ensures a == b
    {
      assert Accounted(v, existing, done, created, a, cur[a]) && Accounted(v, existing, done, created, b, cur[b]);
    }
  }

  /** The state after discovery and orphan removal. */
  ghost predicate Listed<S(!new), C(!new), N(!new)>(v: View<S, C, N>, old': map<nat, C>, existing: Existing<S, C>) {
    && (forall s | s in existing :: existing[s].0 in old' && old'[existing[s].0] == existing[s].1 &&
          v.mine(existing[s].1) && v.service(existing[s].1) == s)
    && (forall id | id in old' && v.mine(old'[id]) ::
         v.service(old'[id]) in existing && existing[v.service(old'[id])].0 == id)
  }

  lemma StartReconciling<S(!new), C(!new), N(!new)>(v: View<S, C, N>, old': map<nat, C>, existing: Existing<S, C>,
          cur: map<nat, C>)
    requires forall id | id in old' && v.mine(old'[id]) :: v.made(old'[id])
    requires Listed(v, old', existing)
    requires forall id :: id in cur <==> id in old' && (v.mine(old'[id]) ==> v.service(old'[id]) in v.services)
    requires forall id | id in cur :: cur[id] == old'[id]
    ensures Reconciling(v, existing, {}, map[], cur)
  {
    forall id | id in cur && v.mine(cur[id]) ensures Accounted(v, existing, {}, map[], id, cur[id]) {}
    forall s | Waiting(v, existing, {}, s) ensures StillThere(existing, s, cur) {}
  }

  /** In a converged state every discovered container of a service is up to date. */
  lemma ConvergedIsUpToDate<S(!new), C(!new), N(!new)>(v: View<S, C, N>, cs: map<nat, C>, existing: Existing<S, C>,
          s: S)
    requires Converged(v, cs) && Listed(v, cs, existing) && s in v.services
    ensures s in existing && v.upToDate(s, existing[s].1)
  {
    assert HasGood(v, s, cs);
    var id :| id in cs && Good(v, s, cs[id]);
    assert existing[s].0 == id;
  }
}
