/** The store of connections and groups. */
module ConfigStore {
  import opened GoStrings

  datatype Entry<V> = Entry(id: string, value: V)

  ghost function Ids<V>(es: seq<Entry<V>>): set<string> {
    set e <- es :: e.id
  }

  ghost predicate UniqueIds<V>(es: seq<Entry<V>>) {
    forall i, j | 0 <= i < j < |es| :: es[i].id != es[j].id
  }

  /** Updates the first entry with this identifier, or appends a new one. */
  function Put<V>(es: seq<Entry<V>>, id: string, update: V, fresh': V): seq<Entry<V>> {
    if es == [] then [Entry(id, fresh')]
    else if es[0].id == id then [Entry(id, update)] + es[1..]
    else [es[0]] + Put(es[1..], id, update, fresh')
  }

  lemma {:induction false} PutAfter<V>(a: seq<Entry<V>>, b: seq<Entry<V>>, id: string, update: V, fresh': V)
    requires id !in Ids(a)
    ensures Put(a + b, id, update, fresh') == a + Put(b, id, update, fresh')
    decreases |a|
  {
    if a == [] {
      assert a + b == b;
    } else {
      assert (a + b)[1..] == a[1..] + b && (a + b)[0] == a[0];
      assert a[0].id in Ids(a);
      forall e <- a[1..] ensures e.id != id { assert e in a; }
      PutAfter(a[1..], b, id, update, fresh');
      assert [a[0]] + (a[1..] + Put(b, id, update, fresh')) == a + Put(b, id, update, fresh');
    }
  }

  /** Only the entry with this identifier changes; no other appears or goes. */
  lemma {:induction false} PutChangesOne<V>(es: seq<Entry<V>>, id: string, update: V, fresh': V)
    ensures var r := Put(es, id, update, fresh');
      && |r| == |es| + (if id in Ids(es) then 0 else 1)
      && (forall k | 0 <= k < |es| :: r[k].id == es[k].id && (es[k].id != id ==> r[k] == es[k]))
      && (id !in Ids(es) ==> r[|es|] == Entry(id, fresh'))
  {
    if es != [] {
      assert es[0].id in Ids(es);
      if es[0].id != id {
        PutChangesOne(es[1..], id, update, fresh');
        assert id in Ids(es) <==> id in Ids(es[1..]) by {
          if id in Ids(es) { var e :| e in es && e.id == id; assert e in es[1..]; }
          if id in Ids(es[1..]) { var e :| e in es[1..] && e.id == id; assert e in es; }
        }
      }
    }
  }

  lemma PutKeepsUnique<V>(es: seq<Entry<V>>, id: string, update: V, fresh': V)
    requires UniqueIds(es)
    ensures UniqueIds(Put(es, id, update, fresh'))
    ensures Ids(Put(es, id, update, fresh')) == Ids(es) + {id}
  {
    var r := Put(es, id, update, fresh');
    PutChangesOne(es, id, update, fresh');
    forall i, j | 0 <= i < j < |r| ensures r[i].id != r[j].id {
      if j == |es| { assert es[i].id in Ids(es); }
    }
    PutIds(es, id, update, fresh');
  }

  lemma {:induction false} PutIds<V>(es: seq<Entry<V>>, id: string, update: V, fresh': V)
    ensures Ids(Put(es, id, update, fresh')) == Ids(es) + {id}
  {
    var r := Put(es, id, update, fresh');
    PutChangesOne(es, id, update, fresh');
    forall x ensures x in Ids(r) <==> x in Ids(es) + {id} {
      if x in Ids(r) {
        var k :| 0 <= k < |r| && r[k].id == x;
        if k < |es| { assert es[k] in es; }
      }
      if x in Ids(es) {
        var k :| 0 <= k < |es| && es[k].id == x;
        assert r[k] in r;
      }
      if x == id && id !in Ids(es) { assert r[|es|] in r; }
    }
  }

  /** The first entry with the identifier gets the value for an update, and no other entry changes. */
  lemma {:induction false} PutUpdatesFirst<V>(es: seq<Entry<V>>, id: string, update: V, fresh': V, n: nat)
    requires n < |es| && es[n].id == id && forall k | 0 <= k < n :: es[k].id != id
    ensures Put(es, id, update, fresh') == es[n := Entry(id, update)]
    decreases n
  {
    if n > 0 { PutUpdatesFirst(es[1..], id, update, fresh', n - 1); }
  }

  /** The updated or appended entry is there, with one of the two values. */
  lemma {:induction false} PutHas<V>(es: seq<Entry<V>>, id: string, update: V, fresh': V)
    ensures var r := Put(es, id, update, fresh'); Entry(id, update) in r || Entry(id, fresh') in r
  {
    if es != [] && es[0].id != id { PutHas(es[1..], id, update, fresh'); }
  }

  /** A new identifier: not empty and not known. */
  method NewId(known: set<string>) returns (id: string)
    ensures id != "" && id !in known
  {
    var rest, longest := known, 0;
    while rest != {}
      invariant rest <= known && longest >= 0
      invariant forall k <- known - rest :: |k| <= longest
      decreases rest
    {
      var k :| k in rest;
      rest := rest - {k};
      if |k| > longest { longest := |k|; }
    }
    id := seq(longest + 1, _ => 'u');
  }

  /** What a connection holds besides its identifier; `rest` stands for the fields that the import does not look at. */
  datatype Server<R> = Server(groupId: string, name: string, host: string, rest: R)

  datatype Result<T> = Ok(value: T) | Invalid | NotPersisted

  method KnownIds<V>(es: seq<Entry<V>>) returns (ids: set<string>)
    ensures ids == Ids(es)
  {
    ids := {};
    for i := 0 to |es|
      invariant ids == Ids(es[..i])
    {
      assert es[..i + 1] == es[..i] + [es[i]];
      IdsMore(es[..i], es[i]);
      ids := ids + {es[i].id};
    }
    assert es[..|es|] == es;
  }

  lemma IdsMore<V>(es: seq<Entry<V>>, e: Entry<V>)
    ensures Ids(es + [e]) == Ids(es) + {e.id}
  {
    forall x ensures x in Ids(es + [e]) <==> x in Ids(es) + {e.id} {
      if x in Ids(es) { var y :| y in es && y.id == x; assert y in es + [e]; }
      if x == e.id { assert e in es + [e]; }
    }
  }

  class Store<R> {
    var servers: seq<Entry<Server<R>>>
    var groups: seq<Entry<string>>
    /** Validation and the defaults that saving fills in. */
    const valid: Server<R> -> bool
    const defaults: Server<R> -> R

    constructor (valid: Server<R> -> bool, defaults: Server<R> -> R)
      ensures servers == [] && groups == [] && this.valid == valid && this.defaults == defaults
    {
      servers, groups := [], [];
      this.valid, this.defaults := valid, defaults;
    }

    /** Writing the file may fail. */
    method Persist() returns (ok: bool) {
      ok := *;
    }

    function Filled(cfg: Server<R>): Server<R> {
      cfg.(rest := defaults(cfg))
    }

    /** The store changes in memory even when it cannot be written. */
    method Save(id0: string, cfg: Server<R>) returns (saved: Result<Entry<Server<R>>>)
      modifies `servers
      ensures saved.Invalid? <==> !valid(cfg)
      ensures saved.Invalid? ==> servers == old(servers)
      ensures saved.Ok? ==> saved.value.value == Filled(cfg) && (id0 != "" ==> saved.value.id == id0)
      ensures !saved.Invalid? && id0 != "" ==> servers == Put(old(servers), id0, Filled(cfg), Filled(cfg))
      ensures !saved.Invalid? && id0 == "" ==>
        exists id: string :: id != "" && id !in Ids(old(servers)) && servers == old(servers) + [Entry(id, Filled(cfg))]
    {
      if !valid(cfg) { return Invalid; }
      var filled, id := Filled(cfg), id0;
      if id == "" {
        var known := KnownIds(servers);
        id := NewId(known);
        servers := servers + [Entry(id, filled)];
      } else {
        servers := Upsert(servers, id, filled, filled);
      }
      var ok := Persist();
      if !ok { return NotPersisted; }
      return Ok(Entry(id, filled));
    }

    /** An existing group gets the trimmed name; a new one keeps its name as given. */
    method SaveGroup(id0: string, name: string) returns (saved: Result<Entry<string>>)
      modifies `groups
      ensures saved.Invalid? <==> TrimSpace(name) == ""
      ensures saved.Invalid? ==> groups == old(groups)
      ensures saved.Ok? ==> saved.value.value == name && (id0 != "" ==> saved.value.id == id0)
      ensures !saved.Invalid? && id0 != "" ==> groups == Put(old(groups), id0, TrimSpace(name), name)
      ensures !saved.Invalid? && id0 == "" ==>
        exists id: string :: id != "" && id !in Ids(old(groups)) && groups == old(groups) + [Entry(id, name)]
    {
      var trimmed, id := TrimSpace(name), id0;
      if trimmed == "" { return Invalid; }
      if id == "" {
        var known := KnownIds(groups);
        id := NewId(known);
        groups := groups + [Entry(id, name)];
      } else {
        groups := Upsert(groups, id, trimmed, name);
      }
      var ok := Persist();
      if !ok { return NotPersisted; }
      return Ok(Entry(id, name));
    }
  }

  /** The search loop of both save operations. */
  method Upsert<V>(es: seq<Entry<V>>, id: string, update: V, fresh': V) returns (r: seq<Entry<V>>)
    ensures r == Put(es, id, update, fresh')
  {
    assert es[..0] + Put(es[0..], id, update, fresh') == Put(es, id, update, fresh') by { assert es[0..] == es; }
    for i := 0 to |es|
      invariant Put(es, id, update, fresh') == es[..i] + Put(es[i..], id, update, fresh')
    {
      assert es[i..][1..] == es[i + 1..];
      if es[i].id == id {
        assert es[..i] + ([Entry(id, update)] + es[i + 1..]) == es[i := Entry(id, update)];
        return es[i := Entry(id, update)];
      }
      assert es[..i + 1] == es[..i] + [es[i]];
      assert es[..i] + ([es[i]] + Put(es[i + 1..], id, update, fresh')) ==
        es[..i] + [es[i]] + Put(es[i + 1..], id, update, fresh');
    }
    assert es[..|es|] == es && es[|es|..] == [];
    r := es + [Entry(id, fresh')];
  }
}
