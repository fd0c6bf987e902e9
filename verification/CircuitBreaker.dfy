/** The circuit breaker in front of a Redis client. */
module CircuitBreaker {
  /** Nanoseconds since the epoch. */
  type Time = nat

  const DEFAULT_THRESHOLD := 5
  const DEFAULT_COOLDOWN := 10_000_000_000

  /** What the wrapped function returned; a missing key is not a failure. */
  datatype Outcome = Success | MissingKey | Failure

  /** A call that ran the function: when it was let through, when it ended, and whether it failed. */
  datatype Executed = Executed(start: Time, end: Time, failed: bool)

  /** The length of the trailing run of failures. */
  function TrailingFailures(h: seq<Executed>): (n: nat)
    ensures n <= |h|
  {
    if h == [] || !h[|h| - 1].failed then 0 else 1 + TrailingFailures(h[..|h| - 1])
  }

  /** Whether the calls so far have tripped a breaker. */
  predicate Tripped(h: seq<Executed>, threshold: nat) {
    TrailingFailures(h) >= threshold > 0
  }

  /** The end of the cooldown after the last failure, or 0. */
  function Reopening(h: seq<Executed>, threshold: nat, cooldown: nat): Time {
    if Tripped(h, threshold) then h[|h| - 1].end + cooldown else 0
  }

  class Breaker {
    var failures: nat
    const threshold: nat
    const cooldown: nat
    var openUntil: Time
    var lastResult: int
    ghost var history: seq<Executed>

    /** The fields say no more than the trailing failures do. */
    ghost predicate Valid()
      reads this
    {
      && threshold > 0 && cooldown > 0
      && failures == TrailingFailures(history)
      && openUntil == Reopening(history, threshold, cooldown)
      && (history != [] ==> lastResult == if history[|history| - 1].failed then 0 else 1)
    }

    constructor (threshold: int, cooldown: int)
      ensures Valid() && history == []
      ensures this.threshold == if threshold <= 0 then DEFAULT_THRESHOLD else threshold
      ensures this.cooldown == if cooldown <= 0 then DEFAULT_COOLDOWN else cooldown
    {
      this.threshold := if threshold <= 0 then DEFAULT_THRESHOLD else threshold;
      this.cooldown := if cooldown <= 0 then DEFAULT_COOLDOWN else cooldown;
      failures, openUntil, lastResult, history := 0, 0, 0, [];
    }

    method Allow(now: Time) returns (ok: bool)
      requires Valid()
      ensures ok <==> !Tripped(history, threshold) || now > history[|history| - 1].end + cooldown
    {
      if openUntil == 0 { return true; }
      if now > openUntil { return true; }
      return false;
    }

    method OnSuccess(start: Time, end: Time)
      requires Valid()
      modifies this
      ensures Valid() && history == old(history) + [Executed(start, end, false)]
    {
      history := history + [Executed(start, end, false)];
      failures := 0;
      openUntil := 0;
      lastResult := 1;
    }

    method OnFailure(start: Time, end: Time)
      requires Valid()
      modifies this
      ensures Valid() && history == old(history) + [Executed(start, end, true)]
    {
      assert (history + [Executed(start, end, true)])[..|history|] == history;
      history := history + [Executed(start, end, true)];
      lastResult := 0;
      failures := failures + 1;
      if failures >= threshold { openUntil := end + cooldown; }
    }

    /** Open within the cooldown, half-open after it, closed when not tripped. */
    method State(now: Time) returns (state: string)
      requires Valid()
      ensures state == "closed" <==> !Tripped(history, threshold)
      ensures state == "open" <==> Tripped(history, threshold) && now <= history[|history| - 1].end + cooldown
      ensures state == "half-open" <==> Tripped(history, threshold) && now > history[|history| - 1].end + cooldown
    {
      if openUntil == 0 { return "closed"; }
      if now > openUntil { return "half-open"; }
      return "open";
    }

    /**
     * Runs the function unless the breaker is open. The function's outcome and the two clock readings are
     * parameters; `ran` says whether it was called.
     */
    method Do(start: Time, outcome: Outcome, end: Time) returns (ran: bool)
      requires Valid()
      modifies this
      ensures Valid()
      ensures ran <==> old(!Tripped(history, threshold) || start > history[|history| - 1].end + cooldown)
      ensures history == if ran then old(history) + [Executed(start, end, outcome == Failure)] else old(history)
      ensures !ran ==> failures == old(failures) && openUntil == old(openUntil) && lastResult == old(lastResult)
    {
      ran := Allow(start);
      if !ran { return; }
      if outcome == Failure {
        OnFailure(start, end);
      } else {
        OnSuccess(start, end);
      }
    }
  }

  datatype Attempt = Attempt(start: Time, outcome: Outcome, end: Time)

  /** Which attempts reach the function, and when. */
  function Ran(threshold: nat, cooldown: nat, attempts: seq<Attempt>): seq<Executed> {
    if attempts == [] then []
    else
      var h, a := Ran(threshold, cooldown, attempts[..|attempts| - 1]), attempts[|attempts| - 1];
      if Tripped(h, threshold) && a.start <= h[|h| - 1].end + cooldown then h
      else h + [Executed(a.start, a.end, a.outcome == Failure)]
  }

  /** A sequential run of calls on a fresh breaker. */
  method RunAll(threshold: int, cooldown: int, attempts: seq<Attempt>) returns (b: Breaker)
    ensures fresh(b) && b.Valid() && b.history == Ran(b.threshold, b.cooldown, attempts)
  {
    b := new Breaker(threshold, cooldown);
    for i := 0 to |attempts|
      invariant b.Valid() && b.history == Ran(b.threshold, b.cooldown, attempts[..i]) && fresh(b)
    {
      assert attempts[..i + 1][..i] == attempts[..i];
      var ran := b.Do(attempts[i].start, attempts[i].outcome, attempts[i].end);
    }
    assert attempts[..|attempts|] == attempts;
  }

  /** Once a prefix of the calls has tripped the breaker, the next call starts only after a full cooldown. */
  ghost predicate CoolsDown(h: seq<Executed>, threshold: nat, cooldown: nat) {
    forall j | 0 < j < |h| && Tripped(h[..j], threshold) :: h[j].start > h[j - 1].end + cooldown
  }

  /** No call runs inside a cooldown, in any run. */
  lemma {:induction false} CooldownIsQuiet(threshold: nat, cooldown: nat, attempts: seq<Attempt>)
    ensures CoolsDown(Ran(threshold, cooldown, attempts), threshold, cooldown)
  {
    if attempts != [] {
      var earlier := attempts[..|attempts| - 1];
      CooldownIsQuiet(threshold, cooldown, earlier);
      var h, all := Ran(threshold, cooldown, earlier), Ran(threshold, cooldown, attempts);
      forall j | 0 < j < |all| && Tripped(all[..j], threshold) ensures all[j].start > all[j - 1].end + cooldown {
        if all != h {
          assert all[..|h|] == h;
          if j < |h| { assert all[..j] == h[..j]; }
        }
      }
    }
  }

  /** A call that runs while tripped is a probe after a full cooldown: a failure starts another, a success ends it. */
  lemma ProbesAreSingle(threshold: nat, cooldown: nat, attempts: seq<Attempt>, j: nat)
    requires var h := Ran(threshold, cooldown, attempts); 0 < j && j + 1 < |h| && Tripped(h[..j], threshold)
    ensures var h := Ran(threshold, cooldown, attempts);
      && h[j].start > h[j - 1].end + cooldown
      && (h[j].failed ==> h[j + 1].start > h[j].end + cooldown)
      && (!h[j].failed ==> TrailingFailures(h[..j + 1]) == 0)
  {
    var h := Ran(threshold, cooldown, attempts);
    CooldownIsQuiet(threshold, cooldown, attempts);
    assert h[..j + 1][..j] == h[..j];
    assert h[..j + 1][j] == h[j];
    assert h[j].failed ==> TrailingFailures(h[..j + 1]) == 1 + TrailingFailures(h[..j]);
    assert h[j].failed ==> h[j + 1].start > h[j + 1 - 1].end + cooldown;
  }

  lemma {:induction false} TrailingRun(h: seq<Executed>)
    ensures var n := TrailingFailures(h);
      && (forall k | |h| - n <= k < |h| :: h[k].failed)
      && (n < |h| ==> !h[|h| - 1 - n].failed)
  {
    if h != [] && h[|h| - 1].failed { TrailingRun(h[..|h| - 1]); }
  }

  /** The breaker has tripped exactly when the last calls that ran, as many as the threshold, have all failed. */
  lemma TrippedIffRow(h: seq<Executed>, threshold: nat)
    ensures Tripped(h, threshold) <==>
      0 < threshold <= |h| && forall k | |h| - threshold <= k < |h| :: h[k].failed
  {
    TrailingRun(h);
    var n := TrailingFailures(h);
    if n < threshold <= |h| { assert !h[|h| - 1 - n].failed; }
  }

  ghost predicate SucceedsWithin(attempts: seq<Attempt>, k: int, n: nat) {
    exists i :: 0 <= k <= i < k + n && i < |attempts| && attempts[i].outcome != Failure
  }

  /** A run in which no `threshold` calls in a row fail is never refused anything. */
  lemma {:induction false} HealthyRunIsNotRefused(threshold: nat, cooldown: nat, attempts: seq<Attempt>)
    requires forall k | 0 <= k <= |attempts| - threshold :: SucceedsWithin(attempts, k, threshold)
    ensures |Ran(threshold, cooldown, attempts)| == |attempts|
    ensures forall k | 0 <= k < |attempts| ::
      Ran(threshold, cooldown, attempts)[k].failed == (attempts[k].outcome == Failure)
  {
    if attempts != [] {
      hide SucceedsWithin, Tripped;
      var n := |attempts| - 1;
      var earlier := attempts[..n];
      forall k | 0 <= k <= n - threshold ensures SucceedsWithin(earlier, k, threshold) {
        EarlierSucceeds(attempts, k, threshold);
      }
      HealthyRunIsNotRefused(threshold, cooldown, earlier);
      NotTripped(threshold, earlier, Ran(threshold, cooldown, earlier));
    }
  }

  lemma EarlierSucceeds(attempts: seq<Attempt>, k: int, n: nat)
    requires 0 <= k <= |attempts| - 1 - n && SucceedsWithin(attempts, k, n)
    ensures SucceedsWithin(attempts[..|attempts| - 1], k, n)
  {
    var i :| 0 <= k <= i < k + n && i < |attempts| && attempts[i].outcome != Failure;
    assert attempts[..|attempts| - 1][i] == attempts[i];
  }

  lemma NotTripped(threshold: nat, attempts: seq<Attempt>, h: seq<Executed>)
    requires |h| == |attempts| && forall k | 0 <= k < |h| :: h[k].failed == (attempts[k].outcome == Failure)
    requires threshold <= |h| ==> SucceedsWithin(attempts, |h| - threshold, threshold)
    ensures !Tripped(h, threshold)
  {
    TrailingRun(h);
    if threshold <= |h| {
      var i :| |h| - threshold <= i < |h| && attempts[i].outcome != Failure;
      assert !h[i].failed;
    }
  }
}
