/** The turns of a chat: stream a reply, run the tools it calls, append both, and ask again. */
module ChatLoop {
  import opened GoStrings
  import opened ReplyMatching
  import opened History
  import opened ToolCalls

  const MAX_TURNS := 50
  const MAX_OUTPUT := 32768
  const CUT_NOTE := "\n...(输出过长已截断)..."

  /** What one model turn streams, or that it failed or was cancelled. */
  datatype Reply = Failed | Cancelled | Streamed(content: string, reasoning: string, fragments: seq<Fragment>)

  /**
   * Everything outside the loop: the reply of each turn, the output of each call of a turn, and whether the chat has
   * been cancelled before a turn (position 0) or before a call of it (its position plus one).
   */
  datatype World = World(model: nat -> Reply, tool: (nat, nat) -> string, cancelled: (nat, nat) -> bool)

  datatype Outcome = Finished | Broken | Stopped | Exhausted

  /** A tool's answer, cut when it is too long. */
  function Clip(output: string): (r: string)
    ensures |r| <= MAX_OUTPUT + |CUT_NOTE|
    ensures |output| <= MAX_OUTPUT ==> r == output
    ensures |output| > MAX_OUTPUT ==>
      |r| == MAX_OUTPUT + |CUT_NOTE| && r[..MAX_OUTPUT] == output[..MAX_OUTPUT] && r[MAX_OUTPUT..] == CUT_NOTE
  {
    if |output| > MAX_OUTPUT then output[..MAX_OUTPUT] + CUT_NOTE else output
  }

  ghost predicate Answers(w: World, turn: nat, replies: seq<Schema>, calls: seq<ToolCall>) {
    && |replies| == |calls|
    && forall k | 0 <= k < |calls| :: replies[k] == ToolReply(Clip(w.tool(turn, k)), calls[k].id)
  }

  ghost predicate CalledIn(r: Reply, turn: nat, calls: seq<ToolCall>) {
    r.Streamed? && exists gathered :: Gathered(r.fragments, gathered) && Collects(gathered, turn, calls)
  }

  /** One completed turn appends what the model said, with its calls, and one reply to each, in order. */
  ghost predicate Round(w: World, turn: nat, before: seq<Schema>, after: seq<Schema>) {
    var n, r := |before|, w.model(turn);
    && r.Streamed? && n < |after| && after[..n] == before
    && after[n].Assistant? && after[n].calls != [] && CalledIn(r, turn, after[n].calls)
    && after[n].content == r.content && after[n].reasoning == r.reasoning
    && Answers(w, turn, after[n + 1..], after[n].calls)
  }

  lemma AnswersShape(w: World, turn: nat, replies: seq<Schema>, calls: seq<ToolCall>)
    requires Answers(w, turn, replies, calls)
    ensures SchemaShapes(replies) == Replies(CallIds(calls))
  {}

  lemma RoundIsWellFormed(w: World, turn: nat, before: seq<Schema>, after: seq<Schema>)
    requires WellFormed(SchemaShapes(before)) && Round(w, turn, before, after)
    ensures WellFormed(SchemaShapes(after))
  {
    var n := |before|;
    MatchedIsWellFormed(SchemaShapes(before));
    RoundIsMatched(SchemaShapes(before), CallIds(after[n].calls));
    AnswersShape(w, turn, after[n + 1..], after[n].calls);
    SplitAt(after, n);
    RoundShape(before, after[n], after[n + 1..]);
    MatchedIsWellFormed(SchemaShapes(after));
  }

  lemma SplitAt<T>(s: seq<T>, n: nat)
    requires n < |s|
    ensures s == s[..n] + [s[n]] + s[n + 1..]
  {}

  lemma RoundShape(before: seq<Schema>, said: Schema, replies: seq<Schema>)
    requires said.Assistant?
    ensures SchemaShapes(before + [said] + replies) ==
      SchemaShapes(before) + [Calls(CallIds(said.calls))] + SchemaShapes(replies)
  {
    SchemaShapesAppend(before + [said], replies);
    SchemaShapesAppend(before, [said]);
    assert SchemaShapes([said]) == [Calls(CallIds(said.calls))];
  }

  /** The requests of a chat: the first is the given history, and each next adds one round. */
  ghost predicate Requests(w: World, first: seq<Schema>, sent: seq<seq<Schema>>) {
    && (sent != [] ==> sent[0] == first)
    && forall k | 0 <= k < |sent| - 1 :: Round(w, k + 1, sent[k], sent[k + 1])
  }

  /** Every request a chat sends is well-formed, whatever model and tools return and whenever it is cancelled. */
  lemma {:induction false} RequestsAreWellFormed(w: World, first: seq<Schema>, sent: seq<seq<Schema>>)
    requires Requests(w, first, sent) && WellFormed(SchemaShapes(first))
    ensures forall h <- sent :: WellFormed(SchemaShapes(h))
  {
    if sent != [] {
      var n := |sent| - 1;
      var earlier := sent[..n];
      assert Requests(w, first, earlier) by {
        forall k | 0 <= k < n - 1
          ensures Round(w, k + 1, earlier[k], earlier[k + 1])
        {
          assert Round(w, k + 1, sent[k], sent[k + 1]);
        }
      }
      RequestsAreWellFormed(w, first, earlier);
      if n > 0 {
        assert sent[n - 1] == earlier[n - 1];
        assert Round(w, n - 1 + 1, sent[n - 1], sent[n - 1 + 1]);
        RoundIsWellFormed(w, n, sent[n - 1], sent[n]);
      }
      forall h <- sent ensures WellFormed(SchemaShapes(h)) {
        if h != sent[n] { assert h in earlier; }
      }
    }
  }

  /** Runs the tools in order; a cancellation before one of them ends the chat. */
  method ExecuteTools(w: World, turn: nat, calls: seq<ToolCall>) returns (replies: seq<Schema>, stopped: bool)
    ensures !stopped ==> Answers(w, turn, replies, calls)
    ensures stopped <==> exists k: nat :: 0 < k <= |calls| && w.cancelled(turn, k)
  {
    replies := [];
    for k := 0 to |calls|
      invariant Answers(w, turn, replies, calls[..k])
      invariant forall j: nat | 0 < j <= k :: !w.cancelled(turn, j)
    {
      if w.cancelled(turn, k + 1) { return replies, true; }
      replies := replies + [ToolReply(Clip(w.tool(turn, k)), calls[k].id)];
    }
    assert calls[..|calls|] == calls;
    stopped := false;
  }

  /** Why a chat ends after the requests it has sent. */
  ghost predicate EndsWith(w: World, sent: seq<seq<Schema>>, outcome: Outcome) {
    var turn := |sent|;
    match outcome
    case Finished => turn > 0 && CalledIn(w.model(turn), turn, [])
    case Broken => turn > 0 && w.model(turn).Failed?
    case Exhausted => turn == MAX_TURNS
    case Stopped =>
      || w.cancelled(turn + 1, 0)
      || (turn > 0 && (w.model(turn).Cancelled? || exists k: nat :: k > 0 && w.cancelled(turn, k)))
  }

  /** The turn loop, returning the requests it sent. */
  method RunTurns(w: World, first: seq<Schema>) returns (sent: seq<seq<Schema>>, outcome: Outcome)
    ensures |sent| <= MAX_TURNS && Requests(w, first, sent)
    ensures EndsWith(w, sent, outcome)
  {
    var schemaMsgs := first;
    sent := [];
    for turn := 1 to MAX_TURNS + 1
      invariant |sent| == turn - 1 && Requests(w, first, sent)
      invariant Requests(w, first, sent + [schemaMsgs])
    {
      if w.cancelled(turn, 0) { return sent, Stopped; }
      sent := sent + [schemaMsgs];
      var reply := w.model(turn);
      if reply.Cancelled? { return sent, Stopped; }
      if reply.Failed? { return sent, Broken; }
      var calls := AccumulateToolCalls(reply.fragments);
      var collected := CollectToolCalls(calls, turn);
      assert CalledIn(reply, turn, collected);
      if |collected| == 0 { return sent, Finished; }
      var replies, stopped := ExecuteTools(w, turn, collected);
      if stopped { return sent, Stopped; }
      schemaMsgs := schemaMsgs + [Assistant(reply.content, reply.reasoning, collected)] + replies;
      NextRequest(w, first, sent, schemaMsgs, collected, replies);
    }
    outcome := Exhausted;
  }

  lemma NextRequest(w: World, first: seq<Schema>, sent: seq<seq<Schema>>, next: seq<Schema>, calls: seq<ToolCall>,
          replies: seq<Schema>)
    requires sent != [] && Requests(w, first, sent)
    requires var turn := |sent|;
      && CalledIn(w.model(turn), turn, calls) && calls != [] && Answers(w, turn, replies, calls)
      && next == sent[turn - 1] + [Assistant(w.model(turn).content, w.model(turn).reasoning, calls)] + replies
    ensures Requests(w, first, sent + [next])
  {
    var last := sent[|sent| - 1];
    assert next[|last| + 1..] == replies;
    assert Round(w, |sent|, last, next);
    var all := sent + [next];
    forall k | 0 <= k < |all| - 1 ensures Round(w, k + 1, all[k], all[k + 1]) {
      if k < |sent| - 1 { assert Round(w, k + 1, sent[k], sent[k + 1]); }
    }
  }

  /** What compression makes of a history. */
  ghost predicate Compressed(c: Settings, summary: Summary, ms: seq<Message>, kept: seq<Message>) {
    && CompressesTo(c, summary, ms, kept)
    && if Fits(c, ms) then kept == ms else exists cut: nat :: CutsAt(c, summary, ms, kept, cut)
  }

  /** The first request presents the system prompt, unless it is blank, and the whole compressed history. */
  ghost predicate FirstRequest(c: Settings, summary: Summary, sysPrompt: string, multimodal: bool, ms: seq<Message>,
          first: seq<Schema>)
  {
    exists kept :: Compressed(c, summary, ms, kept)
      && first == Prompt(sysPrompt) + ConvertedAll(kept, multimodal) && Presents(sysPrompt, multimodal, kept, first)
  }

  /** A whole chat: compress the history, convert it, and run the turns. */
  method StreamChat(w: World, c: Settings, summary: Summary, sysPrompt: string, multimodal: bool, ms: seq<Message>)
    returns (sent: seq<seq<Schema>>, outcome: Outcome)
    ensures |sent| <= MAX_TURNS && EndsWith(w, sent, outcome)
    ensures sent != [] ==> FirstRequest(c, summary, sysPrompt, multimodal, ms, sent[0])
    ensures WellFormed(Shapes(ms)) ==> forall h <- sent :: WellFormed(SchemaShapes(h))
    ensures forall k | 0 <= k < |sent| - 1 :: Round(w, k + 1, sent[k], sent[k + 1])
  {
    var compressed, cut := ApplyContextCompression(c, summary, ms);
    var first := BuildSchemaMessages(sysPrompt, multimodal, compressed);
    FitsIffShort(c, ms);
    if !Fits(c, ms) { CutIsCut(c, summary, ms, compressed, cut); }
    assert Compressed(c, summary, ms, compressed);
    sent, outcome := RunTurns(w, first);
    if WellFormed(Shapes(ms)) {
      if !Fits(c, ms) { CompressionKeepsWellFormed(c, summary, ms, compressed, cut); }
      RequestIsWellFormed(sysPrompt, multimodal, compressed);
      RequestsAreWellFormed(w, first, sent);
    }
  }
}
