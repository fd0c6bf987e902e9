/** Merging an exported configuration into the store. */
module ConfigImport {
  import opened GoStrings
  import opened Sequences
  import opened ConfigStore

  // ---------- Bookkeeping shared by connections and groups ----------

  lemma NotAmong<V>(es: seq<Entry<V>>, id: string)
    requires forall k | 0 <= k < |es| :: es[k].id != id
    ensures id !in Ids(es)
  {}

  lemma CountMore<V>(es: seq<Entry<V>>, e: Entry<V>)
    requires e.id !in Ids(es) && |Ids(es)| == |es|
    ensures |Ids(es + [e])| == |es| + 1
  {
    IdsMore(es, e);
  }

  lemma UniqueFront<V>(es: seq<Entry<V>>)
    requires UniqueIds(es) && es != []
    ensures UniqueIds(es[..|es| - 1]) && es[|es| - 1].id !in Ids(es[..|es| - 1])
  {
    NotAmong(es[..|es| - 1], es[|es| - 1].id);
  }

  lemma {:induction false} UniqueCount<V>(es: seq<Entry<V>>)
    requires UniqueIds(es)
    ensures |Ids(es)| == |es|
  {
    if es == [] {
      assert Ids(es) == {};
    } else {
      var front, last := es[..|es| - 1], es[|es| - 1];
      UniqueFront(es);
      UniqueCount(front);
      CountMore(front, last);
      assert es == front + [last];
    }
  }

  /**
   * What an import has done so far: the entries of before are untouched and come first, identifiers are unique, and
   * `ids` holds those of before and one for each counted entry.
   */
  ghost predicate Ledger<V>(was: seq<Entry<V>>, more: seq<Entry<V>>, ids: set<string>, count: nat, failures: nat) {
    && UniqueIds(was + more)
    && Ids(was) <= ids <= Ids(was + more)
    && |ids| == |was| + count
    && |more| <= count + failures
  }

  lemma LedgerStart<V>(was: seq<Entry<V>>)
    requires UniqueIds(was)
    ensures Ledger(was, [], Ids(was), 0, 0)
  {
    assert was + [] == was;
    UniqueCount(was);
  }

  /** Saving under an identifier that is not recorded leaves what was there before alone. */
  lemma LedgerStep<V>(was: seq<Entry<V>>, more: seq<Entry<V>>, ids: set<string>, count: nat, failures: nat, id: string,
          update: V, fresh': V)
    requires Ledger(was, more, ids, count, failures) && id !in ids
    ensures Put(was + more, id, update, fresh') == was + Put(more, id, update, fresh')
    ensures Ledger(was, Put(more, id, update, fresh'), ids + {id}, count + 1, failures)
    ensures Ledger(was, Put(more, id, update, fresh'), ids, count, failures + 1)
  {
    PutAfter(was, more, id, update, fresh');
    PutKeepsUnique(was + more, id, update, fresh');
    PutChangesOne(more, id, update, fresh');
  }

  lemma LedgerMeans<V>(was: seq<Entry<V>>, more: seq<Entry<V>>, ids: set<string>, count: nat, failures: nat)
    requires Ledger(was, more, ids, count, failures)
    ensures count <= |more| <= count + failures
  {
    UniqueCount(was + more);
    SubsetCount(ids, Ids(was + more));
  }

  // ---------- Groups ----------

  /** A group with this identifier whose name is this one, spaces aside. */
  ghost predicate Namesake(groups: seq<Entry<string>>, id: string, name: string) {
    exists g :: g in groups && g.id == id && TrimSpace(g.value) == TrimSpace(name)
  }

  ghost predicate NamesKnown(groups: seq<Entry<string>>, ids: set<string>, names: map<string, string>) {
    forall n | n in names :: names[n] in ids && Namesake(groups, names[n], n)
  }

  ghost predicate MappedFrom(groups: seq<Entry<string>>, ids: set<string>, file: seq<Entry<string>>, old': string,
          id: string)
  {
    id in ids && exists f :: f in file && f.id == old' && Namesake(groups, id, f.value)
  }

  /** An old identifier maps to a group that has the name the file gives it. */
  ghost predicate MapKnown(groups: seq<Entry<string>>, ids: set<string>, file: seq<Entry<string>>,
          groupIdMap: map<string, string>)
  {
    forall k | k in groupIdMap :: MappedFrom(groups, ids, file, k, groupIdMap[k])
  }

  lemma NamesakeKept(groups: seq<Entry<string>>, put: string, update: string, fresh': string, id: string, name: string)
    requires Namesake(groups, id, name) && id != put
    ensures Namesake(Put(groups, put, update, fresh'), id, name)
  {
    var g :| g in groups && g.id == id && TrimSpace(g.value) == TrimSpace(name);
    var k :| 0 <= k < |groups| && groups[k] == g;
    PutChangesOne(groups, put, update, fresh');
    assert Put(groups, put, update, fresh')[k] == g;
  }

  lemma TrimTwice(name: string)
    ensures TrimSpace(TrimSpace(name)) == TrimSpace(name)
  {
    TrimSpaceTrims(name);
    TrimmedIsFixed(TrimSpace(name));
  }

  lemma SavedIsNamesake(groups: seq<Entry<string>>, id: string, name: string)
    ensures Namesake(Put(groups, id, TrimSpace(name), name), id, name)
  {
    PutHas(groups, id, TrimSpace(name), name);
    TrimTwice(name);
  }

  /** Saving a group that is not recorded keeps what is known of the recorded ones. */
  lemma SaveKeepsKnown(groups: seq<Entry<string>>, ids: set<string>, names: map<string, string>,
          file: seq<Entry<string>>, groupIdMap: map<string, string>, id: string, name: string)
    requires NamesKnown(groups, ids, names) && MapKnown(groups, ids, file, groupIdMap) && id !in ids
    ensures var after := Put(groups, id, TrimSpace(name), name);
            NamesKnown(after, ids, names) && MapKnown(after, ids, file, groupIdMap)
  {
    var after := Put(groups, id, TrimSpace(name), name);
    forall n | n in names ensures names[n] in ids && Namesake(after, names[n], n) {
      NamesakeKept(groups, id, TrimSpace(name), name, names[n], n);
    }
    forall k | k in groupIdMap ensures MappedFrom(after, ids, file, k, groupIdMap[k]) {
      assert MappedFrom(groups, ids, file, k, groupIdMap[k]);
      var f :| f in file && f.id == k && Namesake(groups, groupIdMap[k], f.value);
      NamesakeKept(groups, id, TrimSpace(name), name, groupIdMap[k], f.value);
    }
  }

  lemma NewEntryKnown(groups: seq<Entry<string>>, ids: set<string>, names: map<string, string>,
          file: seq<Entry<string>>, groupIdMap: map<string, string>, f: Entry<string>, id: string)
    requires NamesKnown(groups, ids, names) && MapKnown(groups, ids, file, groupIdMap)
    requires id in ids && f in file && Namesake(groups, id, f.value)
    ensures NamesKnown(groups, ids, names[f.value := id]) && MapKnown(groups, ids, file, groupIdMap[f.id := id])
  {
    assert MappedFrom(groups, ids, file, f.id, id);
  }

  lemma MoreIds(groups: seq<Entry<string>>, ids: set<string>, names: map<string, string>, file: seq<Entry<string>>,
          groupIdMap: map<string, string>, id: string)
    requires NamesKnown(groups, ids, names) && MapKnown(groups, ids, file, groupIdMap)
    ensures NamesKnown(groups, ids + {id}, names) && MapKnown(groups, ids + {id}, file, groupIdMap)
  {
    forall k | k in groupIdMap ensures MappedFrom(groups, ids + {id}, file, k, groupIdMap[k]) {
      assert MappedFrom(groups, ids, file, k, groupIdMap[k]);
    }
  }

  /** The tables of the group loop. */
  datatype Merge = Merge(ids: set<string>, names: map<string, string>, idMap: map<string, string>, count: nat)

  /** What was in the store, what has been added, and how many writes failed. */
  datatype Progress<V> = Progress(was: seq<Entry<V>>, more: seq<Entry<V>>, failures: nat)

  ghost predicate GroupsOk(groups: seq<Entry<string>>, m: Merge, p: Progress<string>, file: seq<Entry<string>>) {
    && groups == p.was + p.more
    && Ledger(p.was, p.more, m.ids, m.count, p.failures)
    && NamesKnown(groups, m.ids, m.names)
    && MapKnown(groups, m.ids, file, m.idMap)
  }

  function Recorded(m: Merge, f: Entry<string>, id: string): Merge {
    Merge(m.ids + {id}, m.names[f.value := id], m.idMap[f.id := id], m.count + 1)
  }

  ghost function Added(p: Progress<string>, f: Entry<string>, id: string): Progress<string> {
    p.(more := Put(p.more, id, TrimSpace(f.value), f.value))
  }

  /** Saving a group keeps the tables true whether or not the write succeeds. */
  lemma SavingGroupIsOk(groups: seq<Entry<string>>, m: Merge, p: Progress<string>, file: seq<Entry<string>>,
          f: Entry<string>, id: string)
    requires GroupsOk(groups, m, p, file) && f in file && id !in m.ids
    ensures var after := Put(groups, id, TrimSpace(f.value), f.value);
      && GroupsOk(after, Recorded(m, f, id), Added(p, f, id), file)
      && GroupsOk(after, m, Added(p, f, id).(failures := p.failures + 1), file)
  {
    var after := Put(groups, id, TrimSpace(f.value), f.value);
    LedgerStep(p.was, p.more, m.ids, m.count, p.failures, id, TrimSpace(f.value), f.value);
    SaveKeepsKnown(groups, m.ids, m.names, file, m.idMap, id, f.value);
    SavedIsNamesake(groups, id, f.value);
    MoreIds(after, m.ids, m.names, file, m.idMap, id);
    NewEntryKnown(after, m.ids + {id}, m.names, file, m.idMap, f, id);
  }

  /** A group without a namesake is saved under its own identifier unless that is taken, and recorded if written. */
  ghost predicate SavedAs(before: seq<Entry<string>>, now: seq<Entry<string>>, m: Merge, after: Merge, f: Entry<string>,
          failed: bool)
  {
    exists id :: (f.id != "" && f.id !in m.ids ==> id == f.id) && id !in m.ids
      && after == (if failed then m else Recorded(m, f, id))
      && now == Put(before, id, TrimSpace(f.value), f.value)
  }

  /** One group of the file: skipped, merged with its namesake, or saved. */
  method ImportGroup<R>(store: Store<R>, m: Merge, ghost p: Progress<string>, file: seq<Entry<string>>,
          grp: Entry<string>)
    returns (after: Merge, ghost done: Progress<string>)
    requires GroupsOk(store.groups, m, p, file) && grp in file
    modifies store`groups
    ensures GroupsOk(store.groups, after, done, file) && done.was == p.was
    ensures m.idMap.Keys <= after.idMap.Keys && p.failures <= done.failures
    ensures done.failures == p.failures && TrimSpace(grp.value) != "" ==> grp.id in after.idMap
    ensures TrimSpace(grp.value) == "" || TrimSpace(grp.value) in m.names ==> done == p
    ensures TrimSpace(grp.value) == "" ==> after == m && store.groups == old(store.groups)
    ensures TrimSpace(grp.value) != "" && TrimSpace(grp.value) in m.names ==>
      store.groups == old(store.groups) && after == m.(idMap := m.idMap[grp.id := m.names[TrimSpace(grp.value)]])
    ensures TrimSpace(grp.value) != "" && TrimSpace(grp.value) !in m.names ==>
      SavedAs(old(store.groups), store.groups, m, after, grp, done.failures > p.failures)
  {
    after, done := m, p;
    var trimmedName := TrimSpace(grp.value);
    if trimmedName == "" { return; }
    if trimmedName in m.names {
      TrimTwice(grp.value);
      NewEntryKnown(store.groups, m.ids, m.names, file, m.idMap, grp, m.names[trimmedName]);
      after := m.(idMap := m.idMap[grp.id := m.names[trimmedName]]);
      return;
    }
    var id := grp.id;
    if id in m.ids || id == "" {
      var known := KnownIds(store.groups);
      id := NewId(known);
    }
    SavingGroupIsOk(store.groups, m, p, file, grp, id);
    var saved := store.SaveGroup(id, grp.value);
    done := Added(p, grp, id);
    if !saved.Ok? {
      done := done.(failures := p.failures + 1);
      return;
    }
    after := Merge(m.ids + {saved.value.id}, m.names[saved.value.value := saved.value.id],
      m.idMap[grp.id := saved.value.id], m.count + 1);
  }

  method KnownNames(groups: seq<Entry<string>>) returns (names: map<string, string>)
    ensures NamesKnown(groups, Ids(groups), names)
    ensures names.Keys == set g <- groups :: g.value
  {
    names := map[];
    for i := 0 to |groups|
      invariant NamesKnown(groups, Ids(groups), names)
      invariant names.Keys == set g <- groups[..i] :: g.value
    {
      assert groups[i] in groups && groups[..i + 1] == groups[..i] + [groups[i]];
      names := names[groups[i].value := groups[i].id];
    }
    assert groups[..|groups|] == groups;
  }

  // ---------- Importing again ----------

  ghost function NamesOf(groups: seq<Entry<string>>): set<string> {
    set g <- groups :: g.value
  }

  lemma NamesMore(groups: seq<Entry<string>>, e: Entry<string>)
    ensures NamesOf(groups + [e]) == NamesOf(groups) + {e.value}
  {
    forall n ensures n in NamesOf(groups + [e]) <==> n in NamesOf(groups) + {e.value} {
      if n in NamesOf(groups) { var g :| g in groups && g.value == n; assert g in groups + [e]; }
      if n == e.value { assert e in groups + [e]; }
    }
  }

  /** A group of the file that is not skipped. */
  predicate Counts(f: Entry<string>) {
    TrimSpace(f.value) != ""
  }

  /** Every name of the file is, without its surrounding spaces, the name of a group. */
  ghost predicate AllNamed(groups: seq<Entry<string>>, file: seq<Entry<string>>) {
    forall f <- file | Counts(f) :: TrimSpace(f.value) in NamesOf(groups)
  }

  /**
   * What the loop has done to the names while no write failed: the table has exactly the stored names, every added name
   * is one of the file's, and every name of the file was found or added; nothing was added exactly when all were found.
   */
  ghost predicate NamesExact(m: Merge, p: Progress<string>, file: seq<Entry<string>>) {
    && m.names.Keys == NamesOf(p.was + p.more)
    && (forall n | n in NamesOf(p.more) :: exists f :: f in file && Counts(f) && f.value == n)
    && (forall f <- file | Counts(f) :: TrimSpace(f.value) in NamesOf(p.was + p.more) || f.value in NamesOf(p.more))
    && (p.more == [] <==> AllNamed(p.was, file))
  }

  /** Without failed writes the recorded identifiers are all of them. */
  lemma AllRecorded<V>(was: seq<Entry<V>>, more: seq<Entry<V>>, ids: set<string>, count: nat)
    requires Ledger(was, more, ids, count, 0)
    ensures ids == Ids(was + more)
  {
    UniqueCount(was + more);
    SubsetCount(ids, Ids(was + more));
    SameSize(ids, Ids(was + more));
  }

  /** A file's name that is found adds nothing. */
  lemma FoundNext(m: Merge, p: Progress<string>, file: seq<Entry<string>>, f: Entry<string>, idMap: map<string, string>)
    requires NamesExact(m, p, file) && (Counts(f) ==> TrimSpace(f.value) in m.names)
    ensures NamesExact(m.(idMap := idMap), p, file + [f])
  {
    forall n | n in NamesOf(p.more) ensures exists g :: g in file + [f] && Counts(g) && g.value == n {
      var g :| g in file && Counts(g) && g.value == n;
      assert g in file + [f];
    }
    AllNamedMore(p.was, file, f);
    if p.more == [] { assert p.was + p.more == p.was; }
  }

  lemma AllNamedMore(groups: seq<Entry<string>>, file: seq<Entry<string>>, f: Entry<string>)
    ensures AllNamed(groups, file + [f]) <==>
      AllNamed(groups, file) && (Counts(f) ==> TrimSpace(f.value) in NamesOf(groups))
  {
    assert forall g :: g in file + [f] <==> g in file || g == f;
  }

  /** A name that is not found is added as it stands in the file. */
  lemma AddedNext(m: Merge, p: Progress<string>, file: seq<Entry<string>>, f: Entry<string>, id: string)
    requires NamesExact(m, p, file) && Counts(f) && TrimSpace(f.value) !in m.names
    ensures NamesExact(Recorded(m, f, id), p.(more := p.more + [Entry(id, f.value)]), file + [f])
  {
    hide TrimSpace, AllNamed;
    var e, all := Entry(id, f.value), file + [f];
    NamesMore(p.more, e);
    NamesMore(p.was + p.more, e);
    assert p.was + (p.more + [e]) == p.was + p.more + [e];
    forall n | n in NamesOf(p.more + [e]) ensures exists g :: g in all && Counts(g) && g.value == n {
      if n == f.value {
        assert f in all;
      } else {
        var g :| g in file && Counts(g) && g.value == n;
        assert g in all;
      }
    }
    forall g <- all | Counts(g)
      ensures TrimSpace(g.value) in NamesOf(p.was + p.more + [e]) || g.value in NamesOf(p.more + [e])
    {
      if g != f { assert g in file; }
    }
    AllNamedMore(p.was, file, f);
    WasIsNamed(p.was, p.more);
  }

  lemma WasIsNamed(was: seq<Entry<string>>, more: seq<Entry<string>>)
    ensures NamesOf(was) <= NamesOf(was + more)
  {
    forall n | n in NamesOf(was) ensures n in NamesOf(was + more) {
      var g :| g in was && g.value == n;
      assert g in was + more;
    }
  }

  lemma PutAppends<V>(es: seq<Entry<V>>, id: string, update: V, fresh': V)
    requires id !in Ids(es)
    ensures Put(es, id, update, fresh') == es + [Entry(id, fresh')]
  {
    assert es + [] == es;
    PutAfter(es, [], id, update, fresh');
  }

  /** One group keeps the account of the names. */
  lemma NamesStep(m: Merge, p: Progress<string>, file: seq<Entry<string>>, all: seq<Entry<string>>, f: Entry<string>,
          after: Merge, done: Progress<string>)
    requires NamesExact(m, p, file) && GroupsOk(p.was + p.more, m, p, all) && p.failures == 0
    requires done.failures == 0 && done.was == p.was
    requires if !Counts(f) then after == m && done == p
             else if TrimSpace(f.value) in m.names then done == p && after == m.(idMap := after.idMap)
             else SavedAs(p.was + p.more, done.was + done.more, m, after, f, false)
    ensures NamesExact(after, done, file + [f])
  {
    if !Counts(f) || TrimSpace(f.value) in m.names {
      FoundNext(m, p, file, f, after.idMap);
    } else {
      AllRecorded(p.was, p.more, m.ids, m.count);
      var id := SavedIsAdded(m, p, f, after, done);
      AddedNext(m, p, file, f, id);
    }
  }

  lemma SavedIsAdded(m: Merge, p: Progress<string>, f: Entry<string>, after: Merge, done: Progress<string>)
    returns (id: string)
    requires SavedAs(p.was + p.more, done.was + done.more, m, after, f, false) && m.ids == Ids(p.was + p.more)
    requires done.was == p.was && done.failures == p.failures
    ensures after == Recorded(m, f, id) && done == p.(more := p.more + [Entry(id, f.value)])
  {
    var before, now := p.was + p.more, done.was + done.more;
    id :| id !in m.ids && after == Recorded(m, f, id) && now == Put(before, id, TrimSpace(f.value), f.value);
    PutAppends(before, id, TrimSpace(f.value), f.value);
    var e := Entry(id, f.value);
    Associate(p.was, p.more, [e]);
    SameTail(p.was, done.more, p.more + [e]);
  }

  lemma SameTail<T>(a: seq<T>, b: seq<T>, c: seq<T>)
    ensures a + b == a + c ==> b == c
  {
    if a + b == a + c { assert b == (a + b)[|a|..] == (a + c)[|a|..] == c; }
  }

  /** Groups of the file are merged by name; the groups of before keep their identifiers, names and places. */
  method ImportGroups<R>(store: Store<R>, file: seq<Entry<string>>) returns (m: Merge, ghost p: Progress<string>)
    requires UniqueIds(store.groups)
    modifies store`groups
    ensures GroupsOk(store.groups, m, p, file) && p.was == old(store.groups)
    ensures p.failures == 0 ==> forall f <- file | TrimSpace(f.value) != "" :: f.id in m.idMap
    ensures p.failures == 0 ==> NamesExact(m, p, file)
  {
    LedgerStart(store.groups);
    var ids := KnownIds(store.groups);
    var names := KnownNames(store.groups);
    m, p := Merge(ids, names, map[], 0), Progress(store.groups, [], 0);
    assert store.groups + [] == store.groups;
    for i := 0 to |file|
      invariant GroupsOk(store.groups, m, p, file) && p.was == old(store.groups)
      invariant p.failures == 0 ==> forall f <- file[..i] | TrimSpace(f.value) != "" :: f.id in m.idMap
      invariant p.failures == 0 ==> NamesExact(m, p, file[..i])
    {
      ghost var m0, p0 := m, p;
      m, p := ImportGroup(store, m, p, file, file[i]);
      assert file[..i + 1] == file[..i] + [file[i]];
      if p.failures == 0 { NamesStep(m0, p0, file[..i], file, file[i], m, p); }
    }
    assert file[..|file|] == file;
  }

  /**
   * Importing the same file again, with successful writes, adds no group exactly when every name that the first import
   * added is, without its surrounding spaces, the name of a stored group.
   */
  method ImportGroupsTwice<R>(store: Store<R>, file: seq<Entry<string>>)
    returns (first: Merge, second: Merge, ghost p: Progress<string>, ghost q: Progress<string>)
    requires UniqueIds(store.groups)
    modifies store`groups
    ensures p.was == old(store.groups) && q.was == p.was + p.more && store.groups == q.was + q.more
    ensures p.failures == 0 && q.failures == 0 ==>
      (q.more == [] <==> forall g <- p.more :: TrimSpace(g.value) in NamesOf(p.was + p.more))
    ensures p.failures == 0 && q.failures == 0 && (forall g <- p.more :: Trimmed(g.value)) ==> q.more == []
  {
    first, p := ImportGroups(store, file);
    second, q := ImportGroups(store, file);
    if p.failures == 0 && q.failures == 0 { AgainAddsUnnamed(first, p, second, q, file); }
  }

  lemma AgainAddsUnnamed(m: Merge, p: Progress<string>, n: Merge, q: Progress<string>, file: seq<Entry<string>>)
    requires NamesExact(m, p, file) && NamesExact(n, q, file) && q.was == p.was + p.more
    ensures q.more == [] <==> forall g <- p.more :: TrimSpace(g.value) in NamesOf(q.was)
    ensures (forall g <- p.more :: Trimmed(g.value)) ==> q.more == []
  {
    if AllNamed(q.was, file) {
      forall g <- p.more ensures TrimSpace(g.value) in NamesOf(q.was) {
        assert g.value in NamesOf(p.more);
        var f :| f in file && Counts(f) && f.value == g.value;
      }
    }
    if forall g <- p.more :: TrimSpace(g.value) in NamesOf(q.was) {
      forall f <- file | Counts(f) ensures TrimSpace(f.value) in NamesOf(q.was) {
        if f.value in NamesOf(p.more) { var g :| g in p.more && g.value == f.value; }
      }
    }
    forall g <- p.more | Trimmed(g.value) ensures TrimSpace(g.value) in NamesOf(q.was) {
      TrimmedIsFixed(g.value);
      assert g in p.was + p.more;
    }
  }

  /** A name with spaces around it is not found again. */
  lemma PaddedNameIsAddedAgain(m: Merge, p: Progress<string>, n: Merge, q: Progress<string>, f: Entry<string>)
    requires NamesExact(m, p, [f]) && NamesExact(n, q, [f]) && q.was == p.was + p.more
    requires Counts(f) && !Trimmed(f.value) && p.was == []
    ensures p.more != [] && q.more != []
  {
    hide TrimSpace, Trimmed;
    assert f in [f];
    assert !AllNamed(p.was, [f]);
    forall x | x in NamesOf(q.was) ensures x == f.value {
      assert p.was + p.more == p.more;
      var g :| g in [f] && Counts(g) && g.value == x;
    }
    TrimSpaceTrims(f.value);
  }

  // ---------- Connections ----------

  /** The group a connection is put in: the one its group was merged into, else its own if that exists, else none. */
  function Placement(m: Merge, groupId: string): string {
    if groupId == "" then ""
    else if groupId in m.idMap then m.idMap[groupId]
    else if groupId in m.ids then groupId
    else ""
  }

  /** A connection of the file as the import hands it to the store. */
  function Prepared<R>(m: Merge, s: Server<R>): (r: Server<R>)
    ensures r.host == s.host && r.rest == s.rest
    ensures if s.name != "" then r.name == s.name else r.name == s.host
    ensures r.groupId != "" ==> s.groupId != "" && (r.groupId == s.groupId || s.groupId in m.idMap)
  {
    s.(groupId := Placement(m, s.groupId), name := if s.name == "" then s.host else s.name)
  }

  /** A stored connection comes from the file, with its group placed and the store's defaults filled in. */
  ghost predicate FromFile<R(!new)>(store: Store<R>, m: Merge, file: seq<Entry<Server<R>>>, stored: Server<R>) {
    exists f :: f in file && stored == store.Filled(Prepared(m, f.value)) && store.valid(Prepared(m, f.value))
  }

  ghost predicate AllFromFile<R(!new)>(store: Store<R>, m: Merge, file: seq<Entry<Server<R>>>,
          more: seq<Entry<Server<R>>>)
  {
    forall k | 0 <= k < |more| :: FromFile(store, m, file, more[k].value)
  }

  lemma {:induction false} PutFromFile<R(!new)>(store: Store<R>, m: Merge, file: seq<Entry<Server<R>>>,
          more: seq<Entry<Server<R>>>, id: string, v: Server<R>)
    requires AllFromFile(store, m, file, more) && FromFile(store, m, file, v)
    ensures AllFromFile(store, m, file, Put(more, id, v, v))
    decreases |more|
  {
    if more != [] && more[0].id != id {
      assert FromFile(store, m, file, more[0].value);
      assert AllFromFile(store, m, file, more[1..]);
      PutFromFile(store, m, file, more[1..], id, v);
    }
  }

  ghost predicate ServersOk<R(!new)>(store: Store<R>, ids: set<string>, count: nat, p: Progress<Server<R>>, m: Merge,
          file: seq<Entry<Server<R>>>)
    reads store
  {
    && store.servers == p.was + p.more
    && Ledger(p.was, p.more, ids, count, p.failures)
    && AllFromFile(store, m, file, p.more)
  }

  /** A connection keeps its identifier unless that is taken. */
  ghost predicate StoredAs<R(!new)>(store: Store<R>, before: seq<Entry<Server<R>>>, now: seq<Entry<Server<R>>>,
          m: Merge, ids: set<string>, f: Entry<Server<R>>)
  {
    var v := store.Filled(Prepared(m, f.value));
    exists id :: (f.id != "" && f.id !in ids ==> id == f.id) && id !in ids && now == Put(before, id, v, v)
  }

  /** One connection of the file. */
  method ImportServer<R(!new)>(store: Store<R>, m: Merge, ids: set<string>, count: nat, ghost p: Progress<Server<R>>,
          file: seq<Entry<Server<R>>>, f: Entry<Server<R>>)
    returns (idsAfter: set<string>, countAfter: nat, ghost done: Progress<Server<R>>)
    requires ServersOk(store, ids, count, p, m, file) && f in file
    modifies store`servers
    ensures ServersOk(store, idsAfter, countAfter, done, m, file) && done.was == p.was
    ensures done.failures == p.failures ==> countAfter == count + if store.valid(Prepared(m, f.value)) then 1 else 0
    ensures p.failures <= done.failures
    ensures if store.valid(Prepared(m, f.value)) then StoredAs(store, p.more, done.more, m, ids, f)
      else done.more == p.more
  {
    idsAfter, countAfter, done := ids, count, p;
    var id, srv := f.id, f.value;
    if id in ids || id == "" {
      var known := KnownIds(store.servers);
      id := NewId(known);
    }
    if srv.groupId != "" {
      if srv.groupId in m.idMap {
        srv := srv.(groupId := m.idMap[srv.groupId]);
      } else if srv.groupId !in m.ids {
        srv := srv.(groupId := "");
      }
    }
    if srv.name == "" { srv := srv.(name := srv.host); }
    assert srv == Prepared(m, f.value);
    var saved := store.Save(id, srv);
    if saved.Invalid? { return; }
    ghost var v := store.Filled(srv);
    LedgerStep(p.was, p.more, ids, count, p.failures, id, v, v);
    PutFromFile(store, m, file, p.more, id, v);
    done := p.(more := Put(p.more, id, v, v));
    if !saved.Ok? {
      done := done.(failures := p.failures + 1);
      return;
    }
    idsAfter := ids + {saved.value.id};
    countAfter := count + 1;
  }

  /** How many connections of the file the store accepts. */
  function Acceptable<R>(store: Store<R>, m: Merge, file: seq<Entry<Server<R>>>): nat {
    if file == [] then 0
    else Acceptable(store, m, file[..|file| - 1]) + if store.valid(Prepared(m, file[|file| - 1].value)) then 1 else 0
  }

  method ImportServers<R(!new)>(store: Store<R>, m: Merge, file: seq<Entry<Server<R>>>)
    returns (count: nat, ghost ids: set<string>, ghost p: Progress<Server<R>>)
    requires UniqueIds(store.servers)
    modifies store`servers
    ensures ServersOk(store, ids, count, p, m, file) && p.was == old(store.servers)
    ensures p.failures == 0 ==> count == Acceptable(store, m, file)
  {
    LedgerStart(store.servers);
    var known := KnownIds(store.servers);
    count, p := 0, Progress(store.servers, [], 0);
    assert store.servers + [] == store.servers;
    for i := 0 to |file|
      invariant ServersOk(store, known, count, p, m, file) && p.was == old(store.servers)
      invariant p.failures == 0 ==> count == Acceptable(store, m, file[..i])
    {
      assert file[..i + 1][..i] == file[..i];
      known, count, p := ImportServer(store, m, known, count, p, file, file[i]);
    }
    assert file[..|file|] == file;
    ids := known;
  }

  ghost predicate HasGroup(groups: seq<Entry<string>>, id: string) {
    exists g :: g in groups && g.id == id
  }

  // ---------- The import ----------

  /**
   * Merging a file is a conservative extension: what was in the store stays where it was, identifiers stay unique,
   * every added connection comes from the file, its group is none or exists, and when every write succeeds the reported
   * counts are the numbers added.
   */
  method ImportServersConfig<R(!new)>(store: Store<R>, fileGroups: seq<Entry<string>>,
          fileServers: seq<Entry<Server<R>>>)
    returns (serversCount: nat, groupsCount: nat, ghost m: Merge, ghost gp: Progress<string>,
            ghost sp: Progress<Server<R>>)
    requires UniqueIds(store.servers) && UniqueIds(store.groups)
    modifies store`servers, store`groups
    ensures store.groups == old(store.groups) + gp.more && UniqueIds(store.groups)
    ensures store.servers == old(store.servers) + sp.more && UniqueIds(store.servers)
    ensures groupsCount <= |gp.more| <= groupsCount + gp.failures
    ensures serversCount <= |sp.more| <= serversCount + sp.failures
    ensures sp.failures == 0 ==> serversCount == Acceptable(store, m, fileServers)
    ensures GroupsOk(store.groups, m, gp, fileGroups) && AllFromFile(store, m, fileServers, sp.more)
    ensures gp.failures == 0 ==> forall f <- fileGroups | TrimSpace(f.value) != "" :: f.id in m.idMap
    ensures forall e <- sp.more :: e.value.groupId == "" || HasGroup(store.groups, e.value.groupId)
  {
    var merge;
    merge, gp := ImportGroups(store, fileGroups);
    ghost var ids;
    serversCount, ids, sp := ImportServers(store, merge, fileServers);
    groupsCount, m := merge.count, merge;
    LedgerMeans(gp.was, gp.more, merge.ids, merge.count, gp.failures);
    LedgerMeans(sp.was, sp.more, ids, serversCount, sp.failures);
    forall e <- sp.more ensures e.value.groupId == "" || HasGroup(store.groups, e.value.groupId) {
      var k :| 0 <= k < |sp.more| && sp.more[k] == e;
      StoredGroupExists(store, m, gp, fileGroups, fileServers, e.value);
    }
  }

  lemma StoredGroupExists<R(!new)>(store: Store<R>, m: Merge, p: Progress<string>, fileGroups: seq<Entry<string>>,
          file: seq<Entry<Server<R>>>, stored: Server<R>)
    requires GroupsOk(store.groups, m, p, fileGroups) && FromFile(store, m, file, stored)
    ensures stored.groupId == "" || HasGroup(store.groups, stored.groupId)
  {
    var f :| f in file && stored == store.Filled(Prepared(m, f.value));
    PlacementIsAGroup(store.groups, m, p, fileGroups, f.value.groupId);
  }

  /**
   * A connection is left without a group or put in one that exists: the group it names, or one with the name that the
   * file gives that group. The latter whenever the file has the group and it was merged.
   */
  lemma PlacementIsAGroup(groups: seq<Entry<string>>, m: Merge, p: Progress<string>, file: seq<Entry<string>>,
          groupId: string)
    requires GroupsOk(groups, m, p, file)
    ensures var placed := Placement(m, groupId);
      && (placed == "" || HasGroup(groups, placed))
      && (placed == "" || placed == groupId
           || exists f :: f in file && f.id == groupId && Namesake(groups, placed, f.value))
    ensures groupId != "" && groupId in m.idMap ==>
      exists f :: f in file && f.id == groupId && Namesake(groups, Placement(m, groupId), f.value)
  {
    if groupId != "" && groupId in m.idMap {
      assert MappedFrom(groups, m.ids, file, groupId, m.idMap[groupId]);
    } else if groupId in m.ids {
      assert groupId in Ids(groups);
    }
  }
}
