/** The mutable state of the chat loop that receives content chunks. */
module ThinkStream {
  import opened Sequences
  import opened ThinkTags

  /** A provider that repeats everything sent so far is reduced to what is new. */
  function NormalizeChunkDelta<T(==)>(accumulated: seq<T>, chunk: seq<T>): seq<T> {
    if |accumulated| > 0 && |chunk| > |accumulated| && StartsWith(chunk, accumulated)
      then chunk[|accumulated|..] else chunk
  }

  /** The text accumulated from `chunks`. */
  function Accumulate<T(==)>(acc: seq<T>, chunks: seq<seq<T>>): seq<T>
    decreases |chunks|
  {
    if chunks == [] then acc else Accumulate(acc + NormalizeChunkDelta(acc, chunks[0]), chunks[1..])
  }

  /** Every chunk properly extends the one before. */
  ghost predicate Cumulative<T>(prev: seq<T>, chunks: seq<seq<T>>)
    decreases |chunks|
  {
    chunks != [] ==> |chunks[0]| > |prev| && StartsWith(chunks[0], prev) && Cumulative(chunks[0], chunks[1..])
  }

  /** A cumulative stream is reduced to increments that rebuild its last chunk. */
  lemma {:induction false} CumulativeStreamRebuilds<T>(prev: seq<T>, chunks: seq<seq<T>>)
    requires Cumulative(prev, chunks)
    ensures Accumulate(prev, chunks) == if chunks == [] then prev else chunks[|chunks| - 1]
    decreases |chunks|
  {
    if chunks != [] {
      assert prev + NormalizeChunkDelta(prev, chunks[0]) == chunks[0] by {
        if prev == [] {
          assert prev + chunks[0] == chunks[0];
        } else {
          assert chunks[0][..|prev|] + chunks[0][|prev|..] == chunks[0];
        }
      }
      CumulativeStreamRebuilds(chunks[0], chunks[1..]);
    }
  }

  /** What each chunk is reduced to. */
  function Increments<T(==)>(acc: seq<T>, chunks: seq<seq<T>>): seq<seq<T>>
    decreases |chunks|
  {
    if chunks == [] then []
    else
      var delta := NormalizeChunkDelta(acc, chunks[0]);
      [delta] + Increments(acc + delta, chunks[1..])
  }

  /** The chunk repeats the text so far and adds to it. */
  predicate Extends<T(==)>(acc: seq<T>, chunk: seq<T>) {
    |acc| > 0 && |chunk| > |acc| && StartsWith(chunk, acc)
  }

  /** No chunk extends all the chunks before it. */
  ghost predicate NoneExtends<T>(acc: seq<T>, chunks: seq<seq<T>>)
    decreases |chunks|
  {
    chunks != [] ==> !Extends(acc, chunks[0]) && NoneExtends(acc + chunks[0], chunks[1..])
  }

  /**
   * An incremental provider's chunks are kept as they are exactly when none of them happens to extend the text so far;
   * such a chunk loses its beginning.
   */
  lemma {:induction false} IncrementsAreChunks<T>(acc: seq<T>, chunks: seq<seq<T>>)
    ensures Increments(acc, chunks) == chunks <==> NoneExtends(acc, chunks)
    ensures NoneExtends(acc, chunks) ==> Accumulate(acc, chunks) == acc + Flatten(chunks)
    decreases |chunks|
  {
    if chunks == [] {
      assert acc + [] == acc;
    } else {
      var chunk, rest := chunks[0], chunks[1..];
      assert chunks == [chunk] + rest;
      var delta := NormalizeChunkDelta(acc, chunk);
      assert Extends(acc, chunk) ==> |delta| < |chunk|;
      IncrementsAreChunks(acc + chunk, rest);
      Associate(acc, chunk, Flatten(rest));
      var all := Increments(acc, chunks);
      assert all[0] == delta && all[1..] == Increments(acc + delta, rest);
    }
  }

  lemma {:induction false} SplitOneMore<T>(t: Tags<T>, inThink: bool, chunks: seq<seq<T>>, chunk: seq<T>)
    ensures var (pieces, mid) := SplitChunks(t, inThink, chunks);
            var (last, after) := SplitChunk(t, mid, chunk);
            SplitChunks(t, inThink, chunks + [chunk]) == (pieces + last, after)
    decreases |chunks|
  {
    if chunks == [] {
      assert [chunk][1..] == [] && chunks + [chunk] == [chunk];
      var (last, after) := SplitChunk(t, inThink, chunk);
      assert last + [] == last && [] + last == last;
    } else {
      var (first, state) := SplitChunk(t, inThink, chunks[0]);
      SplitOneMore(t, state, chunks[1..], chunk);
      assert (chunks + [chunk])[1..] == chunks[1..] + [chunk];
      var (rest, mid) := SplitChunks(t, state, chunks[1..]);
      Associate(first, rest, SplitChunk(t, mid, chunk).0);
    }
  }

  lemma {:induction false} FlattenOneMore<T>(chunks: seq<seq<T>>, chunk: seq<T>)
    ensures Flatten(chunks + [chunk]) == Flatten(chunks) + chunk
    decreases |chunks|
  {
    if chunks == [] {
      assert [chunk][1..] == [] && chunks + [chunk] == [chunk] && chunk + [] == chunk && [] + chunk == chunk;
    } else {
      FlattenOneMore(chunks[1..], chunk);
      assert (chunks + [chunk])[1..] == chunks[1..] + [chunk];
      Associate(chunks[0], Flatten(chunks[1..]), chunk);
    }
  }

  lemma ChunkStep<T>(t: Tags<T>, began: bool, deltas: seq<seq<T>>, text: seq<T>)
    ensures var r, s := ChunksResult(t, began, deltas), ChunkResult(t, ChunksResult(t, began, deltas).inThink, text);
            ChunksResult(t, began, deltas + [text]) == Then(r, s)
  {
    SplitOneMore(t, began, deltas, text);
    var (pieces, mid) := SplitChunks(t, began, deltas);
    RawAppend(t, pieces, SplitChunk(t, mid, text).0);
  }

  function AfterOpenResult<T(==)>(t: Tags<T>, inThink: bool, text: seq<T>): Split<T> {
    var (pieces, after) := AfterOpen(t, inThink, text);
    Split(ContentOf(pieces), ReasoningOf(pieces), after)
  }

  lemma SplitByOpening<T>(t: Tags<T>, inThink: bool, text: seq<T>)
    ensures ChunkResult(t, inThink, text) == (
      var c := CutAt(text, t.open);
      if text == [] then Split([], [], inThink)
      else if c.Cut? then
        var r := AfterOpenResult(t, true, c.after);
        Split(c.before + r.content, r.reasoning, r.inThink)
      else AfterOpenResult(t, inThink, text))
  {
    SplitChunkParts(t, inThink, text);
  }

  lemma NothingSplit<T>(t: Tags<T>, inThink: bool)
    ensures ChunksResult(t, inThink, []) == Split([], [], inThink) && Flatten<T>([]) == []
  {}

  /** The buffers of the chat loop: those of the whole reply, and those of the current turn. */
  class Receiver<T(==)> {
    const tags: Tags<T>
    var fullResp: seq<T>
    var reasoningResp: seq<T>
    var inThinkTag: bool
    var turnContentAcc: seq<T>
    var turnReasoningAcc: seq<T>
    var streamReasoningAcc: seq<T>
    var streamContentAcc: seq<T>
    /** The increments received in this turn, the block state it began in, and what earlier turns left. */
    ghost var deltas: seq<seq<T>>
    ghost var began: bool
    ghost var separate: bool
    ghost var earlierContent: seq<T>
    ghost var earlierReasoning: seq<T>

    /** The buffers of the whole reply extend those of the turn. */
    ghost predicate InStep()
      reads this
    {
      && fullResp == earlierContent + turnContentAcc
      && reasoningResp == earlierReasoning + turnReasoningAcc
      && streamReasoningAcc == turnReasoningAcc
    }

    /** What the turn has shown is what its increments spell; reasoning text sent apart may be mixed in. */
    ghost predicate Spelled()
      reads this
    {
      var r := ChunksResult(tags, began, deltas);
      && inThinkTag == r.inThink && turnContentAcc == r.content && (separate || turnReasoningAcc == r.reasoning)
    }

    ghost predicate Valid()
      reads this
    {
      InStep() && Spelled() && streamContentAcc == Flatten(deltas)
    }

    constructor (tags: Tags<T>)
      ensures this.tags == tags && Valid() && deltas == [] && !began && !separate
      ensures earlierContent == [] && earlierReasoning == []
    {
      this.tags := tags;
      fullResp, reasoningResp, streamContentAcc, streamReasoningAcc, inThinkTag := [], [], [], [], false;
      turnContentAcc, turnReasoningAcc, earlierContent, earlierReasoning := [], [], [], [];
      deltas, began, separate := [], false, false;
    }

    /** Sends a text to one of the two channels. */
    method Send(reasoning: bool, text: seq<T>)
      requires InStep()
      modifies `fullResp, `reasoningResp, `turnContentAcc, `turnReasoningAcc, `streamReasoningAcc
      ensures InStep()
      ensures turnContentAcc == if reasoning then old(turnContentAcc) else old(turnContentAcc) + text
      ensures turnReasoningAcc == if reasoning then old(turnReasoningAcc) + text else old(turnReasoningAcc)
    {
      if reasoning {
        Associate(earlierReasoning, turnReasoningAcc, text);
        reasoningResp, turnReasoningAcc, streamReasoningAcc := reasoningResp + text, turnReasoningAcc + text,
          streamReasoningAcc + text;
      } else {
        Associate(earlierContent, turnContentAcc, text);
        fullResp, turnContentAcc := fullResp + text, turnContentAcc + text;
      }
    }

    /** Reasoning text that the provider sends apart from the content. */
    method OnReasoning(text: seq<T>)
      requires Valid()
      modifies `fullResp, `reasoningResp, `turnContentAcc, `turnReasoningAcc, `streamReasoningAcc, `separate
      ensures Valid() && separate && turnContentAcc == old(turnContentAcc)
      ensures turnReasoningAcc == Accumulate(old(turnReasoningAcc), [text])
    {
      assert [text][1..] == [];
      Send(true, NormalizeChunkDelta(streamReasoningAcc, text));
      separate := true;
    }

    /** A content chunk: only what is new in it is split. */
    method OnChunk(chunk: seq<T>)
      requires Valid()
      modifies this
      ensures Valid() && began == old(began) && separate == old(separate)
      ensures earlierContent == old(earlierContent) && earlierReasoning == old(earlierReasoning)
      ensures deltas == old(deltas) + [NormalizeChunkDelta(old(streamContentAcc), chunk)]
      ensures streamContentAcc == Accumulate(old(streamContentAcc), [chunk])
    {
      assert [chunk][1..] == [];
      var text := NormalizeChunkDelta(streamContentAcc, chunk);
      FlattenOneMore(deltas, text);
      streamContentAcc := streamContentAcc + text;
      Absorb(text);
    }

    /** Splits an increment and records it. */
    method Absorb(text: seq<T>)
      requires InStep() && Spelled()
      modifies `fullResp, `reasoningResp, `turnContentAcc, `turnReasoningAcc, `streamReasoningAcc, `inThinkTag, `deltas
      ensures InStep() && Spelled() && deltas == old(deltas) + [text]
    {
      ChunkStep(tags, began, deltas, text);
      Handle(text);
      deltas := deltas + [text];
    }

    /** Splits one nonempty increment; an empty one is skipped. */
    method Handle(text: seq<T>)
      requires InStep()
      modifies `fullResp, `reasoningResp, `turnContentAcc, `turnReasoningAcc, `streamReasoningAcc, `inThinkTag
      ensures InStep()
      ensures var r := ChunkResult(tags, old(inThinkTag), text);
        && turnContentAcc == old(turnContentAcc) + r.content && turnReasoningAcc == old(turnReasoningAcc) + r.reasoning
        && inThinkTag == r.inThink
    {
      SplitByOpening(tags, inThinkTag, text);
      if text == [] {
        assert turnContentAcc + [] == turnContentAcc && turnReasoningAcc + [] == turnReasoningAcc;
        return;
      }
      var cut := CutAt(text, tags.open);
      if cut.Cut? {
        Associate(turnContentAcc, cut.before, AfterOpenResult(tags, true, cut.after).content);
        Open(cut.before);
        Inside(cut.after);
      } else {
        Inside(text);
      }
    }

    /** Enters a block, after the text before its opening tag. */
    method Open(before: seq<T>)
      requires InStep()
      modifies `fullResp, `reasoningResp, `turnContentAcc, `turnReasoningAcc, `streamReasoningAcc, `inThinkTag
      ensures InStep() && inThinkTag
      ensures turnContentAcc == old(turnContentAcc) + before && turnReasoningAcc == old(turnReasoningAcc)
    {
      if before != [] { Send(false, before); }
      inThinkTag := true;
    }

    /** What follows an opening tag, or the whole increment when it has none. */
    method Inside(text: seq<T>)
      requires InStep()
      modifies `fullResp, `reasoningResp, `turnContentAcc, `turnReasoningAcc, `streamReasoningAcc, `inThinkTag
      ensures InStep()
      ensures var r := AfterOpenResult(tags, old(inThinkTag), text);
        && turnContentAcc == old(turnContentAcc) + r.content && turnReasoningAcc == old(turnReasoningAcc) + r.reasoning
        && inThinkTag == r.inThink
    {
      AfterOpenParts(tags, inThinkTag, text);
      assert turnContentAcc + [] == turnContentAcc && turnReasoningAcc + [] == turnReasoningAcc;
      if inThinkTag {
        var end := CutAt(text, tags.close);
        if end.Cut? {
          if end.before != [] { Send(true, end.before); }
          inThinkTag := false;
          if end.after != [] { Send(false, end.after); }
        } else {
          Send(true, text);
        }
      } else {
        Send(false, text);
      }
    }

    /** The next turn of the model starts its own buffers; the reply and an open block are kept. */
    method NewTurn()
      requires Valid()
      modifies this
      ensures Valid() && deltas == [] && began == inThinkTag == old(inThinkTag) && !separate
      ensures fullResp == earlierContent == old(fullResp) && reasoningResp == earlierReasoning == old(reasoningResp)
    {
      hide ChunksResult, Flatten;
      NothingSplit(tags, inThinkTag);
      assert fullResp + [] == fullResp && reasoningResp + [] == reasoningResp;
      earlierContent, earlierReasoning := fullResp, reasoningResp;
      turnContentAcc, turnReasoningAcc, streamContentAcc, streamReasoningAcc := [], [], [], [];
      deltas, began, separate := [], inThinkTag, false;
    }
  }
}
