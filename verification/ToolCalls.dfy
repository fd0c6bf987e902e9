/** Tool calls that a model streams in fragments. */
module ToolCalls {
  import opened Options
  import opened GoStrings
  import opened Sequences
  import opened History

  /** One streamed fragment; a fragment without an index belongs to call 0. */
  datatype Fragment = Fragment(index: Option<int>, id: string, name: string, args: string)

  function IndexOf(f: Fragment): int {
    if f.index.Some? then f.index.value else 0
  }

  /** The fragments of call `i`, in the order received. */
  function FragmentsOf(fs: seq<Fragment>, i: int): seq<Fragment> {
    if fs == [] then []
    else FragmentsOf(fs[..|fs| - 1], i) + (if IndexOf(fs[|fs| - 1]) == i then [fs[|fs| - 1]] else [])
  }

  function Names(fs: seq<Fragment>): string {
    if fs == [] then "" else Names(fs[..|fs| - 1]) + fs[|fs| - 1].name
  }

  function Arguments(fs: seq<Fragment>): string {
    if fs == [] then "" else Arguments(fs[..|fs| - 1]) + fs[|fs| - 1].args
  }

  function LastId(fs: seq<Fragment>): string {
    if fs == [] then ""
    else if fs[|fs| - 1].id != "" then fs[|fs| - 1].id
    else LastId(fs[..|fs| - 1])
  }

  /** A call spelled by its own fragments: names and arguments in order, and the last identifier given. */
  function Spelled(fs: seq<Fragment>): ToolCall {
    ToolCall(LastId(fs), Names(fs), Arguments(fs))
  }

  ghost predicate Gathered(fs: seq<Fragment>, calls: map<int, ToolCall>) {
    && (forall i :: i in calls <==> FragmentsOf(fs, i) != [])
    && (forall i | i in calls :: calls[i] == Spelled(FragmentsOf(fs, i)))
  }

  function Extended(call: ToolCall, f: Fragment): ToolCall {
    ToolCall(if f.id != "" then f.id else call.id, call.name + f.name, call.args + f.args)
  }

  lemma SpelledMore(fs: seq<Fragment>, f: Fragment)
    ensures Spelled(fs + [f]) == Extended(Spelled(fs), f)
  {
    assert (fs + [f])[..|fs|] == fs;
  }

  lemma SpelledOne(f: Fragment)
    ensures Spelled([f]) == ToolCall(f.id, f.name, f.args)
  {
    SpelledMore([], f);
    assert [] + [f] == [f] && "" + f.name == f.name && "" + f.args == f.args;
  }

  lemma FragmentsOfMore(fs: seq<Fragment>, f: Fragment, i: int)
    ensures FragmentsOf(fs + [f], i) == if IndexOf(f) == i then FragmentsOf(fs, i) + [f] else FragmentsOf(fs, i)
  {
    assert (fs + [f])[..|fs|] == fs;
    assert FragmentsOf(fs, i) + [] == FragmentsOf(fs, i);
  }

  lemma GatheredMore(fs: seq<Fragment>, f: Fragment, calls: map<int, ToolCall>, call: ToolCall)
    requires Gathered(fs, calls)
    requires call == if IndexOf(f) in calls then Extended(calls[IndexOf(f)], f) else ToolCall(f.id, f.name, f.args)
    ensures Gathered(fs + [f], calls[IndexOf(f) := call])
  {
    var i := IndexOf(f);
    var mine, after := FragmentsOf(fs, i), calls[i := call];
    forall j ensures j in after <==> FragmentsOf(fs + [f], j) != [] { FragmentsOfMore(fs, f, j); }
    forall j | j in after ensures after[j] == Spelled(FragmentsOf(fs + [f], j)) {
      FragmentsOfMore(fs, f, j);
      if j == i {
        SpelledMore(mine, f);
        SpelledOne(f);
        if mine == [] { assert mine + [f] == [f]; }
      }
    }
  }

  method Extend(call: ToolCall, tc: Fragment) returns (existing: ToolCall)
    ensures existing == Extended(call, tc)
  {
    existing := call;
    if tc.id != "" { existing := existing.(id := tc.id); }
    if tc.name != "" { existing := existing.(name := existing.name + tc.name); }
    if tc.args != "" { existing := existing.(args := existing.args + tc.args); }
    assert call.name + "" == call.name && call.args + "" == call.args;
  }

  /** However the fragments of different calls interleave, each call is spelled by its own. */
  method AccumulateToolCalls(fs: seq<Fragment>) returns (calls: map<int, ToolCall>)
    ensures Gathered(fs, calls)
  {
    calls := map[];
    for k := 0 to |fs|
      invariant Gathered(fs[..k], calls)
    {
      var tc := fs[k];
      assert fs[..k + 1] == fs[..k] + [tc];
      var idx := 0;
      if tc.index.Some? { idx := tc.index.value; }
      var call := ToolCall(tc.id, tc.name, tc.args);
      if idx in calls { call := Extend(calls[idx], tc); }
      GatheredMore(fs[..k], tc, calls, call);
      calls := calls[idx := call];
    }
    assert fs[..|fs|] == fs;
  }

  // ---------- Collection ----------

  /** The identifier given to a call that came without one. */
  function GivenId(turn: nat, i: nat): (id: string)
    ensures id != ""
  {
    "call_" + Itoa(turn) + "_" + Itoa(i)
  }

  function Identified(call: ToolCall, turn: nat, i: nat): ToolCall {
    if call.id == "" then call.(id := GivenId(turn, i)) else call
  }

  predicate Named(calls: map<int, ToolCall>, i: int) {
    i in calls && calls[i].name != ""
  }

  /** The named calls below `n`, in index order. */
  function InIndexOrder(calls: map<int, ToolCall>, turn: nat, n: nat): seq<ToolCall> {
    if n == 0 then []
    else
      InIndexOrder(calls, turn, n - 1)
      + (if Named(calls, n - 1) then [Identified(calls[n - 1], turn, n - 1)] else [])
  }

  /** The named calls among `order`, numbered by their position in the result. */
  function InMapOrder(calls: map<int, ToolCall>, turn: nat, order: seq<int>): seq<ToolCall> {
    if order == [] then []
    else
      var before, i := InMapOrder(calls, turn, order[..|order| - 1]), order[|order| - 1];
      before + (if Named(calls, i) then [Identified(calls[i], turn, |before|)] else [])
  }

  ghost predicate Dense(calls: map<int, ToolCall>) {
    forall i | Named(calls, i) :: 0 <= i < |calls|
  }

  ghost function NamedBelow(calls: map<int, ToolCall>, n: nat): set<int> {
    set i | 0 <= i < n && Named(calls, i)
  }

  ghost function NamedIndices(calls: map<int, ToolCall>): set<int> {
    set i | i in calls && Named(calls, i)
  }

  lemma {:induction false} IndexOrderCounts(calls: map<int, ToolCall>, turn: nat, n: nat)
    ensures |InIndexOrder(calls, turn, n)| == |NamedBelow(calls, n)|
    decreases n
  {
    if n == 0 {
      assert NamedBelow(calls, 0) == {};
    } else {
      IndexOrderCounts(calls, turn, n - 1);
      var fewer := NamedBelow(calls, n - 1);
      assert NamedBelow(calls, n) == if Named(calls, n - 1) then fewer + {n - 1} else fewer;
    }
  }

  /**
   * The index loop collects every named call exactly when all their indices are below the number of calls;
   * a model that numbers its calls with gaps loses the calls above that number.
   */
  lemma AllCollectedIffDense(calls: map<int, ToolCall>, turn: nat)
    ensures |InIndexOrder(calls, turn, |calls|)| == |NamedIndices(calls)| <==> Dense(calls)
  {
    var below, all := NamedBelow(calls, |calls|), NamedIndices(calls);
    IndexOrderCounts(calls, turn, |calls|);
    assert below <= all;
    if |below| == |all| {
      SameSize(below, all);
      forall i | Named(calls, i) ensures 0 <= i < |calls| { assert i in all; }
    }
    if Dense(calls) { assert all == below; }
  }

  /** The fallback loop collects every named call, in whatever order the map is walked. */
  lemma MapOrderCounts(calls: map<int, ToolCall>, turn: nat, order: seq<int>)
    requires NoDup(order) && Elements(order) == calls.Keys
    ensures |InMapOrder(calls, turn, order)| == |NamedIndices(calls)|
  {
    MapOrderPrefix(calls, turn, order);
    assert NamedAmong(calls, order) == NamedIndices(calls) by {
      forall i ensures i in NamedAmong(calls, order) <==> i in NamedIndices(calls) {
        assert i in order <==> i in Elements(order);
      }
    }
  }

  ghost function NamedAmong(calls: map<int, ToolCall>, order: seq<int>): set<int> {
    set i | i in order && Named(calls, i)
  }

  lemma {:induction false} MapOrderPrefix(calls: map<int, ToolCall>, turn: nat, order: seq<int>)
    requires NoDup(order)
    ensures |InMapOrder(calls, turn, order)| == |NamedAmong(calls, order)|
    decreases |order|
  {
    if order == [] {
      assert NamedAmong(calls, order) == {};
    } else {
      var n := |order| - 1;
      MapOrderPrefix(calls, turn, order[..n]);
      var before := NamedAmong(calls, order[..n]);
      assert order == order[..n] + [order[n]];
      assert NamedAmong(calls, order) == if Named(calls, order[n]) then before + {order[n]} else before;
    }
  }

  /**
   * The collected calls are the named ones with an index below `n`, at the indices `at`, in order: name and arguments
   * as they are, and the identifier unless there is none.
   */
  ghost predicate Picks(calls: map<int, ToolCall>, turn: nat, n: nat, collected: seq<ToolCall>, at: seq<nat>) {
    && |at| == |collected|
    && (forall k | 0 <= k < |at| :: at[k] < n && at[k] in calls && calls[at[k]].name != ""
         && IsPicked(calls[at[k]], turn, at[k], collected[k]))
    && (forall k, l | 0 <= k < l < |at| :: at[k] < at[l])
    && forall i: nat | i < n && i in calls && calls[i].name != "" :: i in at
  }

  ghost predicate IsPicked(call: ToolCall, turn: nat, i: nat, picked: ToolCall) {
    && picked.name == call.name && picked.args == call.args
    && picked.id == if call.id != "" then call.id else "call_" + Itoa(turn) + "_" + Itoa(i)
  }

  lemma {:induction false} IndexOrderPicks(calls: map<int, ToolCall>, turn: nat, n: nat) returns (at: seq<nat>)
    ensures Picks(calls, turn, n, InIndexOrder(calls, turn, n), at)
    decreases n
  {
    at := [];
    if n > 0 {
      hide Picks, Identified;
      at := IndexOrderPicks(calls, turn, n - 1);
      PicksNext(calls, turn, n - 1, InIndexOrder(calls, turn, n - 1), at);
      if Named(calls, n - 1) { at := at + [n - 1]; }
      assert InIndexOrder(calls, turn, n - 1) + [] == InIndexOrder(calls, turn, n - 1);
    }
  }

  lemma PicksNext(calls: map<int, ToolCall>, turn: nat, n: nat, collected: seq<ToolCall>, at: seq<nat>)
    requires Picks(calls, turn, n, collected, at)
    ensures if Named(calls, n) then Picks(calls, turn, n + 1, collected + [Identified(calls[n], turn, n)], at + [n])
      else Picks(calls, turn, n + 1, collected, at)
  {
    if Named(calls, n) {
      PickedIs(calls[n], turn, n);
      hide IsPicked, Identified;
      var more, all := collected + [Identified(calls[n], turn, n)], at + [n];
      forall k | 0 <= k < |all|
        ensures all[k] < n + 1 && all[k] in calls && calls[all[k]].name != ""
        ensures IsPicked(calls[all[k]], turn, all[k], more[k])
      {
        if k < |at| { assert all[k] == at[k] && more[k] == collected[k]; }
      }
      forall i: nat | i < n + 1 && i in calls && calls[i].name != "" ensures i in all {
        if i < n { assert i in at; } else { assert all[|at|] == i; }
      }
    }
  }

  lemma PickedIs(call: ToolCall, turn: nat, i: nat)
    ensures IsPicked(call, turn, i, Identified(call, turn, i))
  {}

  /** The identifiers given to calls that came without one differ from turn to turn and from call to call. */
  lemma GivenIdsDiffer(turn: nat, i: nat, turn': nat, i': nat)
    requires GivenId(turn, i) == GivenId(turn', i')
    ensures turn == turn' && i == i'
  {
    hide Itoa, Split;
    ItoaMeans(turn);
    ItoaMeans(i);
    ItoaMeans(turn');
    ItoaMeans(i');
    GivenIdSplits(Itoa(turn), Itoa(i));
    GivenIdSplits(Itoa(turn'), Itoa(i'));
    assert Split(GivenId(turn, i), '_')[1] == Itoa(turn) && Split(GivenId(turn, i), '_')[2] == Itoa(i);
    assert Split(GivenId(turn', i'), '_')[1] == Itoa(turn') && Split(GivenId(turn', i'), '_')[2] == Itoa(i');
  }

  lemma GivenIdSplits(a: string, b: string)
    requires '_' !in a && '_' !in b
    ensures Split("call_" + a + "_" + b, '_') == ["call", a, b]
  {
    hide Split;
    assert "call_" + a + "_" + b == "call" + (['_'] + (a + (['_'] + b)));
    SplitLine("call", a + (['_'] + b), '_');
    SplitLine(a, b, '_');
    SplitOne(b, '_');
    assert ["call"] + ([a] + [b]) == ["call", a, b];
  }

  /** A fragment without an index belongs to call 0. */
  lemma UnnumberedIsFirst(f: Fragment)
    ensures FragmentsOf([f], if f.index.Some? then f.index.value else 0) == [f]
  {
    assert [f][..0] == [] && FragmentsOf([], IndexOf(f)) == [] && [] + [f] == [f];
  }

  /** The calls handed on: those of the index loop, or of the fallback over the map when it finds none. */
  ghost predicate Collects(calls: map<int, ToolCall>, turn: nat, collected: seq<ToolCall>) {
    var indexed := InIndexOrder(calls, turn, |calls|);
    if indexed != [] then collected == indexed
    else exists order :: NoDup(order) && Elements(order) == calls.Keys && collected == InMapOrder(calls, turn, order)
  }

  method CollectToolCalls(calls: map<int, ToolCall>, turn: nat) returns (collected: seq<ToolCall>)
    ensures Collects(calls, turn, collected)
    ensures |collected| == |NamedIndices(calls)| <==> Dense(calls) || NamedBelow(calls, |calls|) == {}
    ensures NamedBelow(calls, |calls|) != {} ==> exists at :: Picks(calls, turn, |calls|, collected, at)
    ensures forall c <- collected :: c.id != "" && c.name != ""
  {
    collected := [];
    for i := 0 to |calls|
      invariant collected == InIndexOrder(calls, turn, i)
      invariant forall c <- collected :: c.id != "" && c.name != ""
    {
      if i in calls && calls[i].name != "" {
        var tc := calls[i];
        if tc.id == "" { tc := tc.(id := GivenId(turn, i)); }
        collected := collected + [tc];
      }
    }
    IndexOrderCounts(calls, turn, |calls|);
    AllCollectedIffDense(calls, turn);
    ghost var at := IndexOrderPicks(calls, turn, |calls|);
    if |collected| == 0 { collected := CollectAll(calls, turn); }
  }

  /** The fallback walks the map in any order. */
  method CollectAll(calls: map<int, ToolCall>, turn: nat) returns (collected: seq<ToolCall>)
    ensures exists order :: NoDup(order) && Elements(order) == calls.Keys && collected == InMapOrder(calls, turn, order)
    ensures |collected| == |NamedIndices(calls)|
    ensures forall c <- collected :: c.id != "" && c.name != ""
  {
    collected := [];
    var order := IterationOrder(calls.Keys);
    for k := 0 to |order|
      invariant collected == InMapOrder(calls, turn, order[..k])
      invariant forall c <- collected :: c.id != "" && c.name != ""
    {
      assert order[..k + 1][..k] == order[..k];
      var i := order[k];
      assert i in Elements(order);
      if calls[i].name != "" {
        var tc := calls[i];
        if tc.id == "" { tc := tc.(id := GivenId(turn, |collected|)); }
        collected := collected + [tc];
      }
    }
    assert order[..|order|] == order;
    MapOrderCounts(calls, turn, order);
  }

  /** Calls 1 and 2 without a call 0: the second is lost. */
  lemma GapLosesACall(turn: nat)
    ensures var a, b := ToolCall("x", "f", ""), ToolCall("y", "g", "");
            InIndexOrder(map[1 := a, 2 := b], turn, 2) == [a]
  {
    var a, b := ToolCall("x", "f", ""), ToolCall("y", "g", "");
    var calls := map[1 := a, 2 := b];
    assert InIndexOrder(calls, turn, 1) == InIndexOrder(calls, turn, 0) + [] == [];
    assert InIndexOrder(calls, turn, 2) == InIndexOrder(calls, turn, 1) + [a];
  }
}
