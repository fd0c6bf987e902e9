/** `executeStepWithRetry`: bounded retry and repair of one plan step. */
module StepRetry {
  import opened GoStrings
  import opened PlanDag
  import opened Rendering

  /** The class the verifier gave a failure; `Unclassified` is the empty or an unknown class. */
  datatype VerdictClass = Fatal | Transient | Permanent | Unclassified

  datatype StepResult = StepResult(
    stepId: string, ok: bool, output: Value, error: string, verdict: VerdictClass, fixSuggestion: string, fatal: bool)

  /** One executed attempt: the arguments before and after rendering, and what came back. */
  datatype Attempt = Attempt(raw: string, rendered: string, result: StepResult)

  /** The argument rewriting that adds a repair suggestion and the previous error. */
  type Repairer = (string, string, string) -> string

  /** What the retry loop calls: the rendering of arguments, one execution of a step on rendered arguments,
      the failure classifier and the argument rewriting. The program renders with `RenderStepArgs` and
      classifies with `ClassifyFailure`; see `ProgramWorld`. */
  datatype World = World(
    render: (string, Outputs) -> string,
    tool: (PlanStep, string) -> StepResult,
    classify: StepResult -> VerdictClass,
    repair: Repairer)

  function ProgramWorld(json: Encoder, tool: (PlanStep, string) -> StepResult, repair: Repairer): World {
    World((raw, outputs) => Rendered(json, raw, outputs), tool, res => ClassifyFailure(res), repair)
  }

  const MAX_STEP_RETRIES := 2
  const MAX_FIX_ATTEMPTS := 2

  function ClassifyFailure(res: StepResult): VerdictClass {
    if res.verdict != Unclassified then res.verdict
    else
      var e := ToLower(res.error);
      if Contains(e, "timeout") || Contains(e, "connection refused") || Contains(e, "reset by peer")
        || Contains(e, "temporary")
      then Transient
      else if Contains(e, "context canceled") || Contains(e, "killed") || Contains(e, "forbidden") then Fatal
      else Permanent
  }

  /** What follows an attempt: the final result, a pause before the same arguments, or new arguments at once. */
  datatype Decision = Stop(final: StepResult) | Pause(held: StepResult) | Repair(args: string)

  function Decide(classify: StepResult -> VerdictClass, repair: Repairer, attempt: nat, args: string, fixes: nat,
          res: StepResult): Decision
  {
    if res.ok then Stop(res)
    else
      var kind := classify(res);
      if kind == Fatal then Stop(res.(fatal := true))
      else if kind == Transient && attempt < MAX_STEP_RETRIES then Pause(res)
      else if kind == Permanent && fixes < MAX_FIX_ATTEMPTS && res.fixSuggestion != "" && attempt < MAX_STEP_RETRIES
      then Repair(repair(args, res.fixSuggestion, res.error))
      else Stop(res)
  }

  /** The outcome of a step whose context was cancelled before an attempt. */
  function Cancelled(step: PlanStep): StepResult {
    StepResult(step.id, false, Scalar("<nil>"), "context canceled", Unclassified, "", true)
  }

  /** A finished step: its attempts in order and the result it reports. */
  datatype StepRun = StepRun(attempts: seq<Attempt>, final: StepResult)

  function Log(a: Attempt, run: StepRun): StepRun {
    run.(attempts := [a] + run.attempts)
  }

  /** The variables of the retry loop: attempt number, arguments of the working copy, repairs so far. */
  datatype Loop = Loop(attempt: nat, args: string, fixes: nat)

  /** One iteration either ends the step or goes round again. */
  datatype Iteration = Ended(run: StepRun) | Again(tried: Attempt, next: Loop)

  /** `stop(2k)` says whether the context is cancelled when attempt `k` is about to start,
      `stop(2k + 1)` whether it ends the pause after attempt `k`. */
  function Iterate(w: World, step: PlanStep, snap: Outputs, stop: nat -> bool, l: Loop): (it: Iteration)
    ensures it.Again? ==> l.attempt < MAX_STEP_RETRIES && it.next.attempt == l.attempt + 1
  {
    if stop(2 * l.attempt) then Ended(StepRun([], Cancelled(step)))
    else
      var rendered := w.render(l.args, snap);
      var res := w.tool(step, rendered);
      var a := Attempt(l.args, rendered, res);
      match Decide(w.classify, w.repair, l.attempt, l.args, l.fixes, res)
      case Stop(final) => Ended(StepRun([a], final))
      case Pause(held) =>
        if stop(2 * l.attempt + 1) then Ended(StepRun([a], held.(fatal := true)))
        else Again(a, Loop(l.attempt + 1, l.args, l.fixes))
      case Repair(newArgs) => Again(a, Loop(l.attempt + 1, newArgs, l.fixes + 1))
  }

  /** The run of a step from some point of its retry loop, on the output snapshot `snap`. */
  function RunFrom(w: World, step: PlanStep, snap: Outputs, stop: nat -> bool, l: Loop): (r: StepRun)
    decreases MAX_STEP_RETRIES - l.attempt
  {
    match Iterate(w, step, snap, stop, l)
    case Ended(run) => run
    case Again(a, next) => Log(a, RunFrom(w, step, snap, stop, next))
  }

  function RunStep(w: World, step: PlanStep, snap: Outputs, stop: nat -> bool): StepRun {
    RunFrom(w, step, snap, stop, Loop(0, step.args, 0))
  }

  /** The attempts made so far together with what the loop still does. */
  ghost function Whole(before: seq<Attempt>, rest: StepRun): StepRun {
    StepRun(before + rest.attempts, rest.final)
  }

  lemma Unroll(w: World, step: PlanStep, snap: Outputs, stop: nat -> bool, l: Loop, before: seq<Attempt>)
    ensures match Iterate(w, step, snap, stop, l)
            case Ended(run) => Whole(before, RunFrom(w, step, snap, stop, l)) == Whole(before, run)
            case Again(a, next) =>
              Whole(before, RunFrom(w, step, snap, stop, l)) == Whole(before + [a], RunFrom(w, step, snap, stop, next))
  {
    var it := Iterate(w, step, snap, stop, l);
    if it.Again? {
      var rest := RunFrom(w, step, snap, stop, it.next).attempts;
      assert before + ([it.tried] + rest) == (before + [it.tried]) + rest;
    }
  }

  /** The retry loop; `currentArgs` is the field of the working copy of the step that the loop rewrites. */
  method ExecuteStepWithRetry(w: World, step: PlanStep, stepOutputs: Outputs, stop: nat -> bool)
    returns (final: StepResult, attempts: seq<Attempt>)
    ensures StepRun(attempts, final) == RunStep(w, step, stepOutputs, stop)
    ensures FollowsPolicy(w, step, stepOutputs, stop, 0, step.args, StepRun(attempts, final))
  {
    hide RunFrom, ClassifyFailure, FollowsPolicy, RunStep;
    StepFollows(w, step, stepOutputs, stop);
    var currentArgs, fixAttempts, attempt := step.args, 0, 0;
    attempts := [];
    final := Cancelled(step);
    while attempt <= MAX_STEP_RETRIES
      invariant attempt <= MAX_STEP_RETRIES
      invariant RunStep(w, step, stepOutputs, stop) ==
                Whole(attempts, RunFrom(w, step, stepOutputs, stop, Loop(attempt, currentArgs, fixAttempts)))
      decreases MAX_STEP_RETRIES - attempt
    {
      ghost var l := Loop(attempt, currentArgs, fixAttempts);
      ghost var it := Iterate(w, step, stepOutputs, stop, l);
      Unroll(w, step, stepOutputs, stop, l, attempts);
      if stop(2 * attempt) {
        final := Cancelled(step);
        assert attempts + [] == attempts;
        return;
      }
      var rendered := w.render(currentArgs, stepOutputs);
      final := w.tool(step, rendered);
      attempts := attempts + [Attempt(currentArgs, rendered, final)];
      if final.ok { return; }
      var kind := w.classify(final);
      if kind == Fatal {
        final := final.(fatal := true);
        return;
      }
      if kind == Transient && attempt < MAX_STEP_RETRIES {
        if stop(2 * attempt + 1) {
          final := final.(fatal := true);
          return;
        }
        attempt := attempt + 1;
        assert it.Again? && it.next == Loop(attempt, currentArgs, fixAttempts);
        continue;
      }
      if kind == Permanent && fixAttempts < MAX_FIX_ATTEMPTS && final.fixSuggestion != "" {
        // On the last attempt the loop ends here with the unrepaired result.
        if attempt == MAX_STEP_RETRIES { return; }
        currentArgs := w.repair(currentArgs, final.fixSuggestion, final.error);
        fixAttempts := fixAttempts + 1;
        attempt := attempt + 1;
        assert it.Again? && it.next == Loop(attempt, currentArgs, fixAttempts);
        continue;
      }
      return;
    }
  }

  ghost predicate WellAttempt(w: World, step: PlanStep, snap: Outputs, a: Attempt) {
    a.rendered == w.render(a.raw, snap) && a.result == w.tool(step, a.rendered)
  }

  ghost predicate Retried(w: World, a: Attempt) {
    !a.result.ok && w.classify(a.result) != Fatal
  }

  /** What every run of a step satisfies. */
  ghost predicate WellRun(w: World, step: PlanStep, snap: Outputs, run: StepRun) {
    if run.attempts == [] then !run.final.ok
    else
      var n := |run.attempts|;
      && (forall i | 0 <= i < n :: WellAttempt(w, step, snap, run.attempts[i]))
      && (forall i | 0 <= i < n - 1 :: Retried(w, run.attempts[i]))
      && (run.final.ok <==> run.attempts[n - 1].result.ok)
      && (run.final.ok ==> run.final == run.attempts[n - 1].result)
  }

  lemma LogWell(w: World, step: PlanStep, snap: Outputs, a: Attempt, rest: StepRun)
    requires WellRun(w, step, snap, rest) && WellAttempt(w, step, snap, a) && Retried(w, a)
    ensures WellRun(w, step, snap, Log(a, rest))
  {
    var all := Log(a, rest).attempts;
    forall i | 0 < i < |all| ensures all[i] == rest.attempts[i - 1] {}
  }

  lemma IterationIsWell(w: World, step: PlanStep, snap: Outputs, stop: nat -> bool, l: Loop)
    ensures match Iterate(w, step, snap, stop, l)
            case Ended(run) => |run.attempts| <= 1 && WellRun(w, step, snap, run)
            case Again(a, next) => WellAttempt(w, step, snap, a) && Retried(w, a)
  {}

  /** A step is executed at most three times, always on its own snapshot; only failures that are not fatal are retried;
      the step succeeds exactly when its last attempt does, and then reports that attempt's result. */
  lemma {:induction false} RetryIsBounded(w: World, step: PlanStep, snap: Outputs, stop: nat -> bool, l: Loop)
    requires l.attempt <= MAX_STEP_RETRIES
    ensures var run := RunFrom(w, step, snap, stop, l);
            |run.attempts| <= MAX_STEP_RETRIES + 1 - l.attempt && WellRun(w, step, snap, run)
    decreases MAX_STEP_RETRIES - l.attempt
  {
    IterationIsWell(w, step, snap, stop, l);
    var it := Iterate(w, step, snap, stop, l);
    if it.Again? {
      RetryIsBounded(w, step, snap, stop, it.next);
      LogWell(w, step, snap, it.tried, RunFrom(w, step, snap, stop, it.next));
    }
  }

  // ---------- When a retry happens ----------

  /** A failure for good that tells of the cancellation. */
  predicate TellsOfCancellation(step: PlanStep, final: StepResult) {
    final.stepId == step.id && !final.ok && final.fatal && final.error == "context canceled"
    && final.verdict == Unclassified && final.fixSuggestion == ""
  }

  lemma CancelledTells(step: PlanStep)
    ensures TellsOfCancellation(step, Cancelled(step))
  {}

  /** The step ends with this attempt: it succeeded, or nothing is left to try. */
  ghost predicate Over(w: World, k: nat, a: Attempt) {
    || a.result.ok || k == 2
    || w.classify(a.result) == Fatal || w.classify(a.result) == Unclassified
    || (w.classify(a.result) == Permanent && a.result.fixSuggestion == "")
  }

  /** The arguments after a failure: the same for one that may pass, rewritten for one with a suggestion. */
  ghost predicate NextArgs(w: World, a: Attempt, next: string) {
    && (w.classify(a.result) == Transient ==> next == a.raw)
    && (w.classify(a.result) == Permanent ==> next == w.repair(a.raw, a.result.fixSuggestion, a.result.error))
  }

  /** Attempt `k` is followed by another one, and no cancellation comes in between. */
  ghost predicate Continues(w: World, stop: nat -> bool, k: nat, a: Attempt, next: string) {
    && !Over(w, k, a) && NextArgs(w, a, next)
    && (w.classify(a.result) == Transient ==> !stop(2 * k + 1)) && !stop(2 * k + 2)
  }

  /**
   * The retry policy of a step whose attempts from number `k` on are those of `run`, the first with arguments `args`: a
   * failure that is not the end of the step is followed by another attempt, unless a cancellation comes first.
   */
  ghost predicate FollowsPolicy(w: World, step: PlanStep, snap: Outputs, stop: nat -> bool, k: nat, args: string,
          run: StepRun)
  {
    var n := |run.attempts|;
    && (forall i | 0 <= i < n :: WellAttempt(w, step, snap, run.attempts[i]))
    && (forall i, j | 0 <= i && j == i + 1 < n :: Continues(w, stop, k + i, run.attempts[i], run.attempts[j].raw))
    && if n == 0 then stop(2 * k) && TellsOfCancellation(step, run.final)
       else
         && !stop(2 * k) && run.attempts[0].raw == args
         && EndsWell(w, step, stop, k + n - 1, run.attempts[n - 1], run.final)
  }

  /** How the step ends after its last attempt. */
  ghost predicate EndsWell(w: World, step: PlanStep, stop: nat -> bool, k: nat, last: Attempt, final: StepResult) {
    var kind := w.classify(last.result);
    if Over(w, k, last) then final == if !last.result.ok && kind ==
      Fatal then last.result.(fatal := true) else last.result
    else if kind == Transient && stop(2 * k + 1) then final == last.result.(fatal := true)
    else stop(2 * k + 2) && TellsOfCancellation(step, final)
  }

  lemma IterationFollows(w: World, step: PlanStep, snap: Outputs, stop: nat -> bool, l: Loop)
    requires l.attempt <= MAX_STEP_RETRIES && l.fixes <= l.attempt
    ensures match Iterate(w, step, snap, stop, l)
            case Ended(run) => FollowsPolicy(w, step, snap, stop, l.attempt, l.args, run)
            case Again(a, next) =>
              && !stop(2 * l.attempt) && a.raw == l.args && WellAttempt(w, step, snap, a)
              && !Over(w, l.attempt, a) && NextArgs(w, a, next.args)
              && (w.classify(a.result) == Transient ==> !stop(2 * l.attempt + 1))
              && next.attempt == l.attempt + 1 <= MAX_STEP_RETRIES && next.fixes <= next.attempt
  {}

  lemma LogFollows(w: World, step: PlanStep, snap: Outputs, stop: nat -> bool, k: nat, a: Attempt, args: string,
          rest: StepRun)
    requires FollowsPolicy(w, step, snap, stop, k + 1, args, rest) && !stop(2 * k) && !Over(w, k, a)
    requires WellAttempt(w, step, snap, a) && NextArgs(w, a, args)
    requires w.classify(a.result) == Transient ==> !stop(2 * k + 1)
    ensures FollowsPolicy(w, step, snap, stop, k, a.raw, Log(a, rest))
  {
    hide Over, NextArgs, WellAttempt;
    var all := Log(a, rest).attempts;
    assert 2 * (k + 1) == 2 * k + 2;
    forall i | 0 <= i < |all| ensures WellAttempt(w, step, snap, all[i]) {
      if i > 0 { assert all[i] == rest.attempts[i - 1]; }
    }
    forall i, j | 0 <= i && j == i + 1 < |all| ensures Continues(w, stop, k + i, all[i], all[j].raw) {
      assert all[j] == rest.attempts[i];
      if i > 0 { ContinuesLater(w, stop, k, rest.attempts, i); }
    }
    if rest.attempts != [] { assert all[|all| - 1] == rest.attempts[|rest.attempts| - 1]; }
  }

  lemma ContinuesLater(w: World, stop: nat -> bool, k: nat, rest: seq<Attempt>, i: nat)
    requires 0 < i < |rest|
    requires forall m, n | 0 <= m && n == m + 1 < |rest| :: Continues(w, stop, k + 1 + m, rest[m], rest[n].raw)
    ensures Continues(w, stop, k + i, rest[i - 1], rest[i].raw)
  {
    assert k + 1 + (i - 1) == k + i;
  }

  lemma {:induction false} RunFollows(w: World, step: PlanStep, snap: Outputs, stop: nat -> bool, l: Loop)
    requires l.attempt <= MAX_STEP_RETRIES && l.fixes <= l.attempt
    ensures FollowsPolicy(w, step, snap, stop, l.attempt, l.args, RunFrom(w, step, snap, stop, l))
    decreases MAX_STEP_RETRIES - l.attempt
  {
    IterationFollows(w, step, snap, stop, l);
    var it := Iterate(w, step, snap, stop, l);
    if it.Again? {
      RunFollows(w, step, snap, stop, it.next);
      LogFollows(w, step, snap, stop, l.attempt, it.tried, it.next.args, RunFrom(w, step, snap, stop, it.next));
    }
  }

  lemma StepFollows(w: World, step: PlanStep, snap: Outputs, stop: nat -> bool)
    ensures RunStep(w, step, snap, stop) == Whole([], RunFrom(w, step, snap, stop, Loop(0, step.args, 0)))
    ensures FollowsPolicy(w, step, snap, stop, 0, step.args, RunStep(w, step, snap, stop))
  {
    var run := RunStep(w, step, snap, stop);
    assert [] + run.attempts == run.attempts;
    RunFollows(w, step, snap, stop, Loop(0, step.args, 0));
  }

  /** What an attempt that failed leads to in a step that is not cancelled. */
  ghost predicate LeadsOn(w: World, attempts: seq<Attempt>, i: nat)
    requires i < |attempts|
  {
    var a, kind := attempts[i], w.classify(attempts[i].result);
    && (i < 2 && kind == Transient ==> i + 1 < |attempts| && attempts[i + 1].raw == a.raw)
    && (i < 2 && kind == Permanent && a.result.fixSuggestion != "" ==>
          i + 1 < |attempts| && attempts[i + 1].raw == w.repair(a.raw, a.result.fixSuggestion, a.result.error))
    && (i + 1 == |attempts| ==>
          i == 2 || kind in {Fatal, Unclassified} || (kind == Permanent && a.result.fixSuggestion == ""))
  }

  /**
   * A step that is not cancelled: a failure that may pass is tried again with the same arguments, one with a suggestion
   * with rewritten ones, and the step fails only at its third attempt or at a failure that is neither.
   */
  lemma FailuresAreRetried(w: World, step: PlanStep, snap: Outputs, stop: nat -> bool)
    requires forall n :: !stop(n)
    ensures var run := RunStep(w, step, snap, stop);
      && 1 <= |run.attempts| <= 3 && run.attempts[0].raw == step.args
      && (forall i | 0 <= i < |run.attempts| && !run.attempts[i].result.ok :: LeadsOn(w, run.attempts, i))
      && (forall i | 0 <= i < |run.attempts| && run.attempts[i].result.ok :: i + 1 == |run.attempts|)
  {
    hide RunFrom, NextArgs;
    RunFollows(w, step, snap, stop, Loop(0, step.args, 0));
    RetryIsBounded(w, step, snap, stop, Loop(0, step.args, 0));
    var attempts := RunStep(w, step, snap, stop).attempts;
    forall i | 0 <= i < |attempts| && !attempts[i].result.ok ensures LeadsOn(w, attempts, i) {
      LeadsOnAt(w, step, snap, stop, RunStep(w, step, snap, stop), i);
    }
  }

  lemma LeadsOnAt(w: World, step: PlanStep, snap: Outputs, stop: nat -> bool, run: StepRun, i: nat)
    requires FollowsPolicy(w, step, snap, stop, 0, step.args, run) && forall n :: !stop(n)
    requires i < |run.attempts| && !run.attempts[i].result.ok
    ensures LeadsOn(w, run.attempts, i)
  {
    var as' := run.attempts;
    if i + 1 < |as'| {
      assert Continues(w, stop, 0 + i, as'[i], as'[i + 1].raw);
    } else {
      assert EndsWell(w, step, stop, i, as'[i], run.final);
      assert !stop(2 * i + 1) && !stop(2 * i + 2);
    }
  }

  ghost predicate MayPass(e: string) {
    Embeds(e, "timeout") || Embeds(e, "connection refused") || Embeds(e, "reset by peer") || Embeds(e, "temporary")
  }

  ghost predicate IsFinal(e: string) {
    Embeds(e, "context canceled") || Embeds(e, "killed") || Embeds(e, "forbidden")
  }

  /** How the program sorts a failure that its verifier has not classified: by its error text, in any letter case. */
  lemma ProgramClassifies(json: Encoder, tool: (PlanStep, string) -> StepResult, repair: Repairer, res: StepResult)
    ensures var kind, e := ProgramWorld(json, tool, repair).classify(res), ToLower(res.error);
      && (res.verdict != Unclassified ==> kind == res.verdict)
      && (res.verdict == Unclassified && MayPass(e) ==> kind == Transient)
      && (res.verdict == Unclassified && !MayPass(e) && IsFinal(e) ==> kind == Fatal)
      && (res.verdict == Unclassified && !MayPass(e) && !IsFinal(e) ==> kind == Permanent)
    ensures MayPass(res.error) ==> MayPass(ToLower(res.error))
    ensures IsFinal(res.error) ==> IsFinal(ToLower(res.error))
  {
    hide Contains, Embeds, ToLower;
    var e := ToLower(res.error);
    forall t: string ensures Contains(e, t) <==> Embeds(e, t) { ContainsIffEmbeds(e, t); }
    LoweredMayPass(res.error);
    LoweredIsFinal(res.error);
  }

  lemma LoweredMayPass(e: string)
    ensures MayPass(e) ==> MayPass(ToLower(e))
  {
    hide Embeds;
    LowerTexts();
    forall t: string | Embeds(e, t) && ToLower(t) == t ensures Embeds(ToLower(e), t) { LowerEmbeds(e, t); }
  }

  lemma LoweredIsFinal(e: string)
    ensures IsFinal(e) ==> IsFinal(ToLower(e))
  {
    hide Embeds;
    LowerTexts();
    forall t: string | Embeds(e, t) && ToLower(t) == t ensures Embeds(ToLower(e), t) { LowerEmbeds(e, t); }
  }

  lemma LowerTexts()
    ensures forall t | t in ["timeout", "connection refused", "reset by peer", "temporary"] :: ToLower(t) == t
    ensures forall t | t in ["context canceled", "killed", "forbidden"] :: ToLower(t) == t
  {}

  /** Every argument text the run tries mentions only steps on which the two snapshots agree. */
  ghost predicate TriesOnly(run: StepRun, o1: Outputs, o2: Outputs) {
    forall a <- run.attempts :: AgreeOn(Mentions(a.raw), o1, o2)
  }

  /** Rendering reads only the outputs of mentioned steps. */
  ghost predicate LocalRendering(w: World) {
    forall raw, o1: Outputs, o2: Outputs | AgreeOn(Mentions(raw), o1, o2) :: w.render(raw, o1) == w.render(raw, o2)
  }

  /** The program's rendering is local, whatever the encoder. */
  lemma ProgramRenderingIsLocal(json: Encoder, tool: (PlanStep, string) -> StepResult, repair: Repairer)
    ensures LocalRendering(ProgramWorld(json, tool, repair))
  {
    forall raw, o1: Outputs, o2: Outputs | AgreeOn(Mentions(raw), o1, o2)
      ensures Rendered(json, raw, o1) == Rendered(json, raw, o2)
    {
      RenderingIsLocal(json, raw, o1, o2);
    }
  }

  lemma TailTries(a: Attempt, rest: StepRun, o1: Outputs, o2: Outputs)
    requires TriesOnly(Log(a, rest), o1, o2)
    ensures TriesOnly(rest, o1, o2) && AgreeOn(Mentions(a.raw), o1, o2)
  {
    forall b <- rest.attempts ensures b in Log(a, rest).attempts {}
    assert a == Log(a, rest).attempts[0];
  }

  lemma IterationIsLocal(w: World, step: PlanStep, o1: Outputs, o2: Outputs, stop: nat -> bool, l: Loop)
    requires LocalRendering(w)
    requires match Iterate(w, step, o1, stop, l)
             case Ended(run) => TriesOnly(run, o1, o2)
             case Again(a, next) => AgreeOn(Mentions(a.raw), o1, o2)
    ensures Iterate(w, step, o1, stop, l) == Iterate(w, step, o2, stop, l)
  {
    if !stop(2 * l.attempt) {
      assert AgreeOn(Mentions(l.args), o1, o2) by {
        var it := Iterate(w, step, o1, stop, l);
        if it.Ended? { assert it.run.attempts[0].raw == l.args; }
      }
      assert w.render(l.args, o1) == w.render(l.args, o2);
    }
  }

  /** Snapshots that agree on what the attempts mention give the same run. */
  lemma {:induction false} RunIsLocal(w: World, step: PlanStep, o1: Outputs, o2: Outputs, stop: nat -> bool, l: Loop)
    requires LocalRendering(w) && TriesOnly(RunFrom(w, step, o1, stop, l), o1, o2)
    ensures RunFrom(w, step, o1, stop, l) == RunFrom(w, step, o2, stop, l)
    decreases MAX_STEP_RETRIES - l.attempt
  {
    var it := Iterate(w, step, o1, stop, l);
    if it.Again? {
      TailTries(it.tried, RunFrom(w, step, o1, stop, it.next), o1, o2);
      RunIsLocal(w, step, o1, o2, stop, it.next);
    }
    IterationIsLocal(w, step, o1, o2, stop, l);
  }
}
