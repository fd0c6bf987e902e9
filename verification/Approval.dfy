/** The rendezvous between a tool call that waits for approval and the calls that decide on it. */
module Approval {
  import opened Options
  import opened GoStrings

  datatype Decision = Decision(approved: bool, reason: string)

  /** A request waits, has taken a decision or seen its context cancelled, or has returned one of the two. */
  datatype Wait = Waiting | Took(decision: Decision) | Gone | Returned(result: Option<Decision>)

  /** A request and its response channel, which holds one decision at most. */
  datatype Request = Request(wait: Wait, slot: Option<Decision>)

  /** A resolving call that has found its request and is about to send. */
  datatype Resolver<I> = Resolver(id: I, decision: Decision)

  /** The result a resolving call reported for a request. */
  datatype Answer<I> = Answer(id: I, decision: Decision, accepted: bool)

  datatype State<I> = State(requests: map<I, Request>, pending: set<I>, resolvers: map<nat, Resolver<I>>,
      log: seq<Answer<I>>)

  datatype Event<I> =
    | Ask(id: I)
    | Take(id: I)
    | Cancel(id: I)
    | Return(id: I)
    | Load(call: nat, id: I, approved: bool, reason: string)
    | Send(call: nat)

  function Start<I>(): State<I> {
    State(map[], {}, map[], [])
  }

  /** Identifiers are taken to be fresh. */
  predicate Enabled<I(==)>(s: State<I>, e: Event<I>) {
    match e
    case Ask(id) => id !in s.requests
    case Take(id) => id in s.requests && s.requests[id].wait.Waiting? && s.requests[id].slot.Some?
    case Cancel(id) => id in s.requests && s.requests[id].wait.Waiting?
    case Return(id) => id in s.requests && (s.requests[id].wait.Took? || s.requests[id].wait.Gone?)
    case Load(call, _, _, _) => call !in s.resolvers
    case Send(call) => call in s.resolvers && s.resolvers[call].id in s.requests
  }

  function Without<I>(resolvers: map<nat, Resolver<I>>, call: nat): map<nat, Resolver<I>> {
    map c | c in resolvers && c != call :: resolvers[c]
  }

  /** Sending never blocks: a full channel refuses the decision. */
  function Sent<I>(s: State<I>, call: nat): State<I>
    requires call in s.resolvers && s.resolvers[call].id in s.requests
  {
    var r := s.resolvers[call];
    var req := s.requests[r.id];
    if req.slot.None? then
      s.(requests := s.requests[r.id := req.(slot := Some(r.decision))], resolvers := Without(s.resolvers, call),
         log := s.log + [Answer(r.id, r.decision, true)])
    else
      s.(resolvers := Without(s.resolvers, call), log := s.log + [Answer(r.id, r.decision, false)])
  }

  function Apply<I>(s: State<I>, e: Event<I>): State<I>
    requires Enabled(s, e)
  {
    match e
    case Ask(id) => s.(requests := s.requests[id := Request(Waiting, None)], pending := s.pending + {id})
    case Take(id) =>
      var req := s.requests[id];
      s.(requests := s.requests[id := Request(Took(req.slot.value), None)])
    case Cancel(id) => s.(requests := s.requests[id := s.requests[id].(wait := Gone)])
    case Return(id) =>
      var req := s.requests[id];
      var result := if req.wait.Took? then Some(req.wait.decision) else None;
      s.(requests := s.requests[id := req.(wait := Returned(result))], pending := s.pending - {id})
    case Load(call, id, approved, reason) =>
      var decision := Decision(approved, TrimSpace(reason));
      if id in s.pending then s.(resolvers := s.resolvers[call := Resolver(id, decision)])
      else s.(log := s.log + [Answer(id, decision, false)])
    case Send(call) => Sent(s, call)
  }

  ghost predicate Runs<I(!new)>(s: State<I>, run: seq<Event<I>>)
    decreases |run|
  {
    run == [] || (Enabled(s, run[0]) && Runs(Apply(s, run[0]), run[1..]))
  }

  ghost function After<I(!new)>(s: State<I>, run: seq<Event<I>>): State<I>
    requires Runs(s, run)
    decreases |run|
  {
    if run == [] then s else After(Apply(s, run[0]), run[1..])
  }

  /** The decisions on `id` that a resolving call reported as accepted, in order. */
  function Accepted<I(==)>(log: seq<Answer<I>>, id: I): seq<Decision> {
    if log == [] then []
    else
      var before, last := Accepted(log[..|log| - 1], id), log[|log| - 1];
      if last.id == id && last.accepted then before + [last.decision] else before
  }

  function SlotOf(slot: Option<Decision>): seq<Decision> {
    if slot.Some? then [slot.value] else []
  }

  /** What has been taken from the channel. */
  function TakenOf(w: Wait): seq<Decision> {
    match w
    case Waiting => []
    case Gone => []
    case Took(d) => [d]
    case Returned(result) => SlotOf(result)
  }

  /** The accepted decisions on a request are the one it took, if any, and the one left in the channel, if any. */
  ghost predicate Explained<I>(s: State<I>, id: I) {
    if id in s.requests then Accepted(s.log, id) == TakenOf(s.requests[id].wait) + SlotOf(s.requests[id].slot)
    else Accepted(s.log, id) == []
  }

  ghost predicate PendingUntilReturn<I(!new)>(s: State<I>) {
    && (forall id :: id in s.pending <==> id in s.requests && !s.requests[id].wait.Returned?)
    && (forall call | call in s.resolvers :: s.resolvers[call].id in s.requests)
  }

  ghost predicate AllExplained<I(!new)>(s: State<I>) {
    forall id :: Explained(s, id)
  }

  lemma AcceptedMore<I>(log: seq<Answer<I>>, a: Answer<I>, id: I)
    ensures Accepted(log + [a], id) ==
      if a.id == id && a.accepted then Accepted(log, id) + [a.decision] else Accepted(log, id)
  {
    assert (log + [a])[..|log|] == log;
  }

  lemma SendExplains<I(!new)>(s: State<I>, call: nat, id: I)
    requires Enabled(s, Send(call)) && Explained(s, id)
    ensures Explained(Sent(s, call), id)
  {
    var r := s.resolvers[call];
    var req := s.requests[r.id];
    AcceptedMore(s.log, Answer(r.id, r.decision, req.slot.None?), id);
    if r.id == id && req.slot.None? {
      assert TakenOf(req.wait) + [] == TakenOf(req.wait);
    }
  }

  lemma StepExplains<I(!new)>(s: State<I>, e: Event<I>, id: I)
    requires Enabled(s, e) && Explained(s, id)
    ensures Explained(Apply(s, e), id)
  {
    match e
    case Send(call) => SendExplains(s, call, id);
    case Load(_, other, approved, reason) =>
      AcceptedMore(s.log, Answer(other, Decision(approved, TrimSpace(reason)), false), id);
    case Ask(_) =>
    case Take(_) =>
    case Cancel(_) =>
    case Return(_) =>
  }

  lemma StepKeepsPending<I(!new)>(s: State<I>, e: Event<I>)
    requires Enabled(s, e) && PendingUntilReturn(s)
    ensures PendingUntilReturn(Apply(s, e))
  {}

  lemma {:induction false} RunsAreExplained<I(!new)>(s: State<I>, run: seq<Event<I>>)
    requires AllExplained(s) && PendingUntilReturn(s) && Runs(s, run)
    ensures AllExplained(After(s, run)) && PendingUntilReturn(After(s, run))
    decreases |run|
  {
    if run != [] {
      forall id ensures Explained(Apply(s, run[0]), id) { StepExplains(s, run[0], id); }
      StepKeepsPending(s, run[0]);
      RunsAreExplained(Apply(s, run[0]), run[1..]);
    }
  }

  /**
   * In every interleaving with fresh identifiers: a request that returns a decision returns the first one accepted
   * for it; at most two are ever accepted, and the second has no effect; a request that has returned is not pending;
   * and a request that was cancelled returns no decision, though one may have been accepted.
   */
  lemma ReturnsFirstAccepted<I(!new)>(run: seq<Event<I>>, id: I)
    requires Runs(Start(), run)
    requires id in After(Start(), run).requests && After(Start(), run).requests[id].wait.Returned?
    ensures var s := After(Start(), run);
            var accepted, result := Accepted(s.log, id), s.requests[id].wait.result;
      && id !in s.pending
      && (result.Some? ==> 1 <= |accepted| <= 2 && accepted[0] == result.value)
      && (result.None? ==> |accepted| <= 1)
  {
    var s := After(Start(), run);
    RunsAreExplained(Start(), run);
    assert Explained(s, id);
  }

  /** Whatever happens, no request ever has more than two accepted decisions. */
  lemma AtMostTwoAccepted<I(!new)>(run: seq<Event<I>>, id: I)
    requires Runs(Start(), run)
    ensures |Accepted(After(Start(), run).log, id)| <= 2
  {
    RunsAreExplained(Start(), run);
    assert Explained(After(Start(), run), id);
  }

  // ---------- Where a decision comes from ----------

  /** Some resolving call of the run was given this decision for `id`, with its reason trimmed. */
  ghost predicate Called<I(!new)>(run: seq<Event<I>>, id: I, d: Decision) {
    exists call, reason :: Load(call, id, d.approved, reason) in run && d.reason == TrimSpace(reason)
  }

  /** The decisions on `id` that are on their way, in the channel, taken, returned or reported. */
  ghost predicate Holds<I(!new)>(s: State<I>, id: I, d: Decision) {
    || (exists call :: call in s.resolvers && s.resolvers[call] == Resolver(id, d))
    || (id in s.requests && (s.requests[id].slot == Some(d) || d in TakenOf(s.requests[id].wait)))
    || exists accepted :: Answer(id, d, accepted) in s.log
  }

  /** A step brings no decision but that of the call it begins. */
  lemma StepHolds<I(!new)>(s: State<I>, e: Event<I>, id: I, d: Decision)
    requires Enabled(s, e) && Holds(Apply(s, e), id, d)
    ensures Holds(s, id, d) || Called([e], id, d)
  {
    match e
    case Load(call, other, approved, reason) =>
      assert e in [e];
      if !Holds(s, id, d) { assert other == id && d == Decision(approved, TrimSpace(reason)); }
    case Send(call) => SendHolds(s, call, id, d);
    case Ask(_) =>
    case Take(_) =>
    case Cancel(_) =>
    case Return(_) =>
  }

  lemma SendHolds<I(!new)>(s: State<I>, call: nat, id: I, d: Decision)
    requires Enabled(s, Send(call)) && Holds(Sent(s, call), id, d)
    ensures Holds(s, id, d)
  {
    var r, next := s.resolvers[call], Sent(s, call);
    if accepted :| Answer(id, d, accepted) in next.log {
      if Answer(id, d, accepted) !in s.log { assert s.resolvers[call] == Resolver(id, d); }
    } else if other :| other in next.resolvers && next.resolvers[other] == Resolver(id, d) {
      assert s.resolvers[other] == Resolver(id, d);
    } else if id == r.id {
      assert s.resolvers[call] == Resolver(id, r.decision);
    }
  }

  lemma CalledInMore<I(!new)>(run: seq<Event<I>>, more: seq<Event<I>>, id: I, d: Decision)
    requires Called(run, id, d) && forall e <- run :: e in more
    ensures Called(more, id, d)
  {}

  /** Whatever a state holds was there at the start or given to a call. */
  lemma {:induction false} HeldIsCalled<I(!new)>(s: State<I>, run: seq<Event<I>>, id: I, d: Decision)
    requires Runs(s, run) && Holds(After(s, run), id, d)
    ensures Holds(s, id, d) || Called(run, id, d)
    decreases |run|
  {
    if run != [] {
      HeldIsCalled(Apply(s, run[0]), run[1..], id, d);
      if Called(run[1..], id, d) {
        CalledInMore(run[1..], run, id, d);
      } else {
        StepHolds(s, run[0], id, d);
        if Called([run[0]], id, d) { CalledInMore([run[0]], run, id, d); }
      }
    }
  }

  lemma {:induction false} AcceptedIsLogged<I(!new)>(log: seq<Answer<I>>, id: I, d: Decision)
    requires d in Accepted(log, id)
    ensures Answer(id, d, true) in log
  {
    var n := |log| - 1;
    if d in Accepted(log[..n], id) {
      AcceptedIsLogged(log[..n], id, d);
    } else {
      assert log[n] == Answer(id, d, true);
    }
  }

  /**
   * No decision is made up: in every interleaving, each accepted decision on a request and the one it returns were
   * given to a resolving call for this request, approval as it is and reason trimmed.
   */
  lemma DecisionsAreCalled<I(!new)>(run: seq<Event<I>>, id: I, d: Decision)
    requires Runs(Start(), run)
    requires var s := After(Start(), run);
      || d in Accepted(s.log, id)
      || (id in s.requests && s.requests[id].wait == Returned(Some(d)))
    ensures Called(run, id, d)
  {
    var s := After(Start(), run);
    if d in Accepted(s.log, id) { AcceptedIsLogged(s.log, id, d); }
    HeldIsCalled(Start(), run, id, d);
  }

  /** How many resolving calls begin in the run. */
  function Calls<I>(run: seq<Event<I>>): nat {
    if run == [] then 0 else Calls(run[..|run| - 1]) + if run[|run| - 1].Load? then 1 else 0
  }

  lemma StepAnswers<I(!new)>(s: State<I>, e: Event<I>)
    requires Enabled(s, e)
    ensures |Apply(s, e).log| + |Apply(s, e).resolvers| == |s.log| + |s.resolvers| + if e.Load? then 1 else 0
  {
    if e.Send? {
      assert Apply(s, e).resolvers.Keys == s.resolvers.Keys - {e.call};
    } else if e.Load? {
      assert (s.resolvers[e.call := Resolver(e.id, Decision(e.approved, TrimSpace(e.reason)))]).Keys ==
        s.resolvers.Keys + {e.call};
    }
  }

  lemma {:induction false} LastStep<I(!new)>(s: State<I>, run: seq<Event<I>>)
    requires run != [] && Runs(s, run)
    ensures var before := run[..|run| - 1];
      && Runs(s, before) && Enabled(After(s, before), run[|run| - 1])
      && After(s, run) == Apply(After(s, before), run[|run| - 1])
    decreases |run|
  {
    if |run| > 1 {
      LastStep(Apply(s, run[0]), run[1..]);
      assert run[1..][..|run| - 2] == run[..|run| - 1][1..];
    } else {
      assert run[1..] == [];
    }
  }

  /** Every resolving call is answered once or still on its way, in every interleaving. */
  lemma {:induction false} CallsAreAnswered<I(!new)>(run: seq<Event<I>>)
    requires Runs(Start(), run)
    ensures var s := After(Start(), run); |s.log| + |s.resolvers| == Calls(run)
    decreases |run|
  {
    if run != [] {
      var before := run[..|run| - 1];
      LastStep(Start(), run);
      CallsAreAnswered(before);
      StepAnswers(After(Start(), before), run[|run| - 1]);
    }
  }

  /** The answer that the waiting tool call gets: whether it may go on, and why. */
  function Response(result: Option<Decision>): (bool, string) {
    match result
    case None => (false, "")
    case Some(d) => (d.approved, d.reason)
  }

  // ---------- When an accepted decision takes effect ----------

  /** The request has returned although some accepted decision is not the one it returned. */
  ghost predicate Wasted<I>(s: State<I>, id: I) {
    && id in s.requests && s.requests[id].wait.Returned?
    && Accepted(s.log, id) != SlotOf(s.requests[id].wait.result)
  }

  ghost predicate NeverCancelled<I>(run: seq<Event<I>>, id: I) {
    Cancel(id) !in run
  }

  /** How many resolving calls for this request begin in the run. */
  function Loads<I(==)>(run: seq<Event<I>>, id: I): nat {
    if run == [] then 0 else (if run[0].Load? && run[0].id == id then 1 else 0) + Loads(run[1..], id)
  }

  ghost function InFlight<I>(s: State<I>, id: I): set<nat> {
    set call | call in s.resolvers && s.resolvers[call].id == id
  }

  /** The acceptances there are and those still possible without another call. */
  ghost function Credit<I>(s: State<I>, id: I): nat {
    |Accepted(s.log, id)| + |InFlight(s, id)|
  }

  lemma SendKeepsCredit<I(!new)>(s: State<I>, call: nat, id: I)
    requires Enabled(s, Send(call))
    ensures Credit(Sent(s, call), id) <= Credit(s, id)
  {
    var r := s.resolvers[call];
    var left := InFlight(Sent(s, call), id);
    AcceptedMore(s.log, Answer(r.id, r.decision, s.requests[r.id].slot.None?), id);
    assert left == InFlight(s, id) - {call};
    if r.id == id { assert call in InFlight(s, id); }
  }

  lemma LoadAddsCredit<I(!new)>(s: State<I>, call: nat, other: I, approved: bool, reason: string, id: I)
    requires Enabled(s, Load(call, other, approved, reason))
    ensures Credit(Apply(s, Load(call, other, approved, reason)), id) <= Credit(s, id) + if other == id then 1 else 0
  {
    var d := Decision(approved, TrimSpace(reason));
    if other in s.pending {
      CallAdded(s, call, Resolver(other, d), id);
    } else {
      AcceptedMore(s.log, Answer(other, d, false), id);
    }
  }

  lemma CallAdded<I>(s: State<I>, call: nat, r: Resolver<I>, id: I)
    requires call !in s.resolvers
    ensures Credit(s.(resolvers := s.resolvers[call := r]), id) <= Credit(s, id) + if r.id == id then 1 else 0
  {
    var next := s.(resolvers := s.resolvers[call := r]);
    assert InFlight(next, id) == if r.id == id then InFlight(s, id) + {call} else InFlight(s, id);
  }

  lemma StepCredit<I(!new)>(s: State<I>, e: Event<I>, id: I)
    requires Enabled(s, e)
    ensures Credit(Apply(s, e), id) <= Credit(s, id) + if e.Load? && e.id == id then 1 else 0
  {
    match e
    case Send(call) => SendKeepsCredit(s, call, id);
    case Load(call, other, approved, reason) => LoadAddsCredit(s, call, other, approved, reason, id);
    case Ask(_) => assert InFlight(Apply(s, e), id) == InFlight(s, id);
    case Take(_) => assert InFlight(Apply(s, e), id) == InFlight(s, id);
    case Cancel(_) => assert InFlight(Apply(s, e), id) == InFlight(s, id);
    case Return(_) => assert InFlight(Apply(s, e), id) == InFlight(s, id);
  }

  /** There are no more acceptances than calls. */
  lemma {:induction false} AcceptancesNeedCalls<I(!new)>(s: State<I>, run: seq<Event<I>>, id: I)
    requires Runs(s, run)
    ensures |Accepted(After(s, run).log, id)| <= Credit(s, id) + Loads(run, id)
    decreases |run|
  {
    if run != [] {
      StepCredit(s, run[0], id);
      AcceptancesNeedCalls(Apply(s, run[0]), run[1..], id);
    }
  }

  ghost predicate NotGone<I>(s: State<I>, id: I) {
    id in s.requests ==> !s.requests[id].wait.Gone? && s.requests[id].wait != Returned(None)
  }

  lemma {:induction false} NeverGone<I(!new)>(s: State<I>, run: seq<Event<I>>, id: I)
    requires Runs(s, run) && NeverCancelled(run, id) && NotGone(s, id)
    ensures NotGone(After(s, run), id)
    decreases |run|
  {
    if run != [] {
      assert run[0] != Cancel(id) && run[0] in run;
      assert NotGone(Apply(s, run[0]), id);
      NeverGone(Apply(s, run[0]), run[1..], id);
    }
  }

  /**
   * In every interleaving, a request that has at most one resolving call and is never cancelled returns exactly what
   * was accepted: a call that reported success decided it.
   */
  lemma LoneAcceptanceCounts<I(!new)>(run: seq<Event<I>>, id: I)
    requires Runs(Start(), run) && Loads(run, id) <= 1 && NeverCancelled(run, id)
    requires id in After(Start(), run).requests && After(Start(), run).requests[id].wait.Returned?
    ensures var s := After(Start(), run); Accepted(s.log, id) == SlotOf(s.requests[id].wait.result)
  {
    ReturnsFirstAccepted(run, id);
    NeverGone(Start(), run, id);
    assert InFlight(Start<I>(), id) == {};
    AcceptancesNeedCalls(Start(), run, id);
  }

  lemma {:induction false} NoOtherCall<I(!new)>(run: seq<Event<I>>, id: I, e: Event<I>, f: Event<I>)
    requires Loads(run, id) <= 1 && e in run && f in run
    requires e.Load? && e.id == id && f.Load? && f.id == id
    ensures e == f
    decreases |run|
  {
    if e == run[0] && f != run[0] {
      CountsOne(run[1..], id, f);
    } else if f == run[0] && e != run[0] {
      CountsOne(run[1..], id, e);
    } else if e != run[0] {
      NoOtherCall(run[1..], id, e, f);
    }
  }

  lemma {:induction false} CountsOne<I(!new)>(run: seq<Event<I>>, id: I, e: Event<I>)
    requires e in run && e.Load? && e.id == id
    ensures Loads(run, id) >= 1
    decreases |run|
  {
    if e != run[0] { CountsOne(run[1..], id, e); }
  }

  /** With one resolving call and no cancellation, the request is approved exactly when that call approved it. */
  lemma LoneCallDecides<I(!new)>(run: seq<Event<I>>, id: I, call: nat, approved: bool, reason: string)
    requires Runs(Start(), run) && Loads(run, id) <= 1 && NeverCancelled(run, id)
    requires Load(call, id, approved, reason) in run
    requires id in After(Start(), run).requests && After(Start(), run).requests[id].wait.Returned?
    ensures Response(After(Start(), run).requests[id].wait.result) == (approved, TrimSpace(reason))
  {
    var result := After(Start(), run).requests[id].wait.result;
    NeverGone(Start(), run, id);
    DecisionsAreCalled(run, id, result.value);
    var other, given :| Load(other, id, result.value.approved, given) in run && result.value.reason == TrimSpace(given);
    NoOtherCall(run, id, Load(call, id, approved, reason), Load(other, id, result.value.approved, given));
  }

  lemma {:induction false} OneMore<I(!new)>(s: State<I>, run: seq<Event<I>>, e: Event<I>)
    requires Runs(s, run) && Enabled(After(s, run), e)
    ensures Runs(s, run + [e]) && After(s, run + [e]) == Apply(After(s, run), e)
    decreases |run|
  {
    if run == [] {
      assert run + [e] == [e] && [e][1..] == [];
    } else {
      assert (run + [e])[1..] == run[1..] + [e];
      OneMore(Apply(s, run[0]), run[1..], e);
    }
  }

  lemma WaitingIsPending<I(!new)>(run: seq<Event<I>>, id: I)
    requires Runs(Start(), run) && id in After(Start(), run).requests && After(Start(), run).requests[id].wait.Waiting?
    ensures id in After(Start(), run).pending
  {
    RunsAreExplained(Start(), run);
  }

  /** A waiting request with an empty channel has no accepted decision yet. */
  lemma NothingAccepted<I(!new)>(run: seq<Event<I>>, id: I)
    requires Runs(Start(), run)
    requires id in After(Start(), run).requests && After(Start(), run).requests[id] == Request(Waiting, None)
    ensures Accepted(After(Start(), run).log, id) == []
  {
    RunsAreExplained(Start(), run);
    assert Explained(After(Start(), run), id);
  }

  /** A call is told at once that it failed exactly when nobody has asked or the request has returned. */
  lemma CallIsRefusedIff<I(!new)>(run: seq<Event<I>>, id: I, call: nat, approved: bool, reason: string)
    requires Runs(Start(), run) && Enabled(After(Start(), run), Load(call, id, approved, reason))
    ensures var s := After(Start(), run); var next := Apply(s, Load(call, id, approved, reason));
      && (call !in next.resolvers <==> id !in s.requests || s.requests[id].wait.Returned?)
      && (call !in next.resolvers ==> next.log == s.log + [Answer(id, Decision(approved, TrimSpace(reason)), false)])
      && (call in next.resolvers ==> next.log == s.log)
  {
    RunsAreExplained(Start(), run);
  }

  /** From every undecided wait a call can be accepted, and then the request gets its decision. */
  lemma CallCanDecide<I(!new)>(run: seq<Event<I>>, id: I, call: nat, approved: bool, reason: string)
    requires Runs(Start(), run)
    requires var s := After(Start(), run);
      call !in s.resolvers && id in s.requests && s.requests[id] == Request(Waiting, None)
    ensures var all := run + [Load(call, id, approved, reason)] + [Send(call)] + [Take(id)] + [Return(id)];
      && Runs(Start(), all) && id in After(Start(), all).requests && After(Start(), all).requests[id].wait.Returned?
      && Response(After(Start(), all).requests[id].wait.result) == (approved, TrimSpace(reason))
  {
    WaitingIsPending(run, id);
    OneMore(Start(), run, Load(call, id, approved, reason));
    var r1 := run + [Load(call, id, approved, reason)];
    OneMore(Start(), r1, Send(call));
    OneMore(Start(), r1 + [Send(call)], Take(id));
    OneMore(Start(), r1 + [Send(call)] + [Take(id)], Return(id));
  }

  /** With a second resolving call the condition fails: its decision can be sent after the first has been taken. */
  lemma SecondCanBeAccepted<I(!new)>(run: seq<Event<I>>, id: I, first: nat, second: nat, a: Decision, b: Decision)
    requires Runs(Start(), run)
    requires var s := After(Start(), run);
      && first !in s.resolvers && second !in s.resolvers && first != second
      && id in s.requests && s.requests[id] == Request(Waiting, None)
    ensures var all := run + [Load(first, id, a.approved, a.reason)] + [Load(second, id, b.approved, b.reason)]
                       + [Send(first)] + [Take(id)] + [Send(second)] + [Return(id)];
      && Runs(Start(), all) && Wasted(After(Start(), all), id)
      && |Accepted(After(Start(), all).log, id)| == 2
      && Accepted(After(Start(), all).log, id)[1].approved == b.approved
      && Response(After(Start(), all).requests[id].wait.result) == (a.approved, TrimSpace(a.reason))
  {
    hide TrimSpace, Wasted, Accepted;
    var s := After(Start(), run);
    WaitingIsPending(run, id);
    NothingAccepted(run, id);
    var da, db := Decision(a.approved, TrimSpace(a.reason)), Decision(b.approved, TrimSpace(b.reason));
    OneMore(Start(), run, Load(first, id, a.approved, a.reason));
    var r1 := run + [Load(first, id, a.approved, a.reason)];
    OneMore(Start(), r1, Load(second, id, b.approved, b.reason));
    var r2 := r1 + [Load(second, id, b.approved, b.reason)];
    assert After(Start(), r2).log == s.log;
    OneMore(Start(), r2, Send(first));
    var r3 := r2 + [Send(first)];
    AcceptedMore(s.log, Answer(id, da, true), id);
    OneMore(Start(), r3, Take(id));
    var r4 := r3 + [Take(id)];
    OneMore(Start(), r4, Send(second));
    var r5 := r4 + [Send(second)];
    AcceptedMore(After(Start(), r4).log, Answer(id, db, true), id);
    OneMore(Start(), r5, Return(id));
    WastedIs(After(Start(), r5 + [Return(id)]), id, da, db);
  }

  lemma WastedIs<I(!new)>(s: State<I>, id: I, a: Decision, b: Decision)
    requires id in s.requests && s.requests[id].wait == Returned(Some(a)) && Accepted(s.log, id) == [a, b]
    ensures Wasted(s, id)
  {}

  /** With a cancellation it fails for a single call: its decision can be sent before the request returns. */
  lemma CancelledCanBeAccepted<I(!new)>(run: seq<Event<I>>, id: I, call: nat, d: Decision)
    requires Runs(Start(), run)
    requires var s := After(Start(), run);
      call !in s.resolvers && id in s.requests && s.requests[id] == Request(Waiting, None)
    ensures var all := run + [Load(call, id, d.approved, d.reason)] + [Cancel(id)] + [Send(call)] + [Return(id)];
      && Runs(Start(), all) && Wasted(After(Start(), all), id)
      && Accepted(After(Start(), all).log, id) == [Decision(d.approved, TrimSpace(d.reason))]
      && After(Start(), all).requests[id].wait == Returned(None)
      && Response(After(Start(), all).requests[id].wait.result) == (false, "")
  {
    var s := After(Start(), run);
    WaitingIsPending(run, id);
    NothingAccepted(run, id);
    OneMore(Start(), run, Load(call, id, d.approved, d.reason));
    var r1 := run + [Load(call, id, d.approved, d.reason)];
    OneMore(Start(), r1, Cancel(id));
    var r2 := r1 + [Cancel(id)];
    OneMore(Start(), r2, Send(call));
    var r3 := r2 + [Send(call)];
    AcceptedMore(s.log, Answer(id, Decision(d.approved, TrimSpace(d.reason)), true), id);
    OneMore(Start(), r3, Return(id));
  }
}
