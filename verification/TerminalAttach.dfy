/** Two readers, any number of Attach calls, the timer and close, interleaved step by step under one lock. */
module TerminalAttach {
  import opened TerminalBuffer

  datatype Pair<T> = Pair(out: T, err: T) {
    function Get(src: Source): T { if src == Stdout then out else err }
    function Put(src: Source, v: T): Pair<T> { if src == Stdout then this.(out := v) else this.(err := v) }
  }

  /** A reader waits for data, holds a chunk it has read, has the lock, or has released it with a chunk to send. */
  datatype Phase<B> = Idle | Holding(chunk: seq<B>) | Locked(chunk: seq<B>) | Sending(chunk: seq<B>)

  /** The lock, with the progress of the Attach call or timer that holds it. */
  datatype Lock = Free | ByReader(src: Source) | Entered(timer: bool) | Marked | Replayed

  datatype Emission<B> = Emission(replay: bool, items: seq<Item<B>>)

  /** A chunk that a reader stored before anyone attached. */
  datatype Chunk = Chunk(src: Source, size: nat)

  datatype State<B> = State(
    term: Terminal<B>, lock: Lock, phase: Pair<Phase<B>>, delivered: seq<Emission<B>>,
    read: Pair<seq<B>>, lost: Pair<nat>, early: seq<Chunk>, closed: bool)

  datatype Event<B> =
    | Read(src: Source, chunk: seq<B>)
    | Acquire(src: Source)
    | Store(src: Source)
    | Send(src: Source)
    | Enter(timer: bool)
    | Mark
    | Replay
    | Clear
    | Close

  function Start<B>(): State<B> {
    State(Terminal(false, []), Free, Pair(Idle, Idle), [], Pair([], []), Pair(0, 0), [], false)
  }

  predicate Enabled<B>(s: State<B>, e: Event<B>) {
    match e
    case Read(src, chunk) => s.phase.Get(src).Idle? && 0 < |chunk| <= CHUNK_LIMIT
    case Acquire(src) => s.phase.Get(src).Holding? && s.lock == Free
    case Store(src) => s.phase.Get(src).Locked? && s.lock == ByReader(src)
    case Send(src) => s.phase.Get(src).Sending?
    case Enter(_) => s.lock == Free
    case Mark => s.lock.Entered?
    case Replay => s.lock == Marked
    case Clear => s.lock == Replayed
    case Close => s.lock == Free
  }

  function Stored<B>(s: State<B>, src: Source): State<B>
    requires s.phase.Get(src).Locked?
  {
    var chunk := s.phase.Get(src).chunk;
    if s.term.attached then s.(lock := Free, phase := s.phase.Put(src, Sending(chunk)))
    else
      s.(lock := Free, phase := s.phase.Put(src, Idle), term := Buffered(s.term, Tag(src, chunk)),
        early := s.early + [Chunk(src, |chunk|)],
         lost := if |s.term.buffer| < BUFFER_LIMIT then s.lost else s.lost.Put(src, s.lost.Get(src) + |chunk|))
  }

  function Apply<B>(s: State<B>, e: Event<B>): State<B>
    requires Enabled(s, e)
  {
    match e
    case Read(src, chunk) => s.(phase := s.phase.Put(src, Holding(chunk)),
      read := s.read.Put(src, s.read.Get(src) + chunk))
    case Acquire(src) => s.(lock := ByReader(src), phase := s.phase.Put(src, Locked(s.phase.Get(src).chunk)))
    case Store(src) => Stored(s, src)
    case Send(src) =>
      s.(phase := s.phase.Put(src, Idle),
        delivered := s.delivered + [Emission(false, Tag(src, s.phase.Get(src).chunk))])
    case Enter(timer) => s.(lock := Entered(timer))
    case Mark => if s.lock.timer && s.term.attached then s.(lock := Free)
      else s.(term := s.term.(attached := true), lock := Marked)
    case Replay =>
      if |s.term.buffer| > 0 then s.(delivered := s.delivered + [Emission(true, s.term.buffer)], lock := Replayed)
      else s.(lock := Free)
    case Clear => s.(term := s.term.(buffer := []), lock := Free)
    case Close => s.(term := s.term.(buffer := []), closed := true)
  }

  predicate Runs<B>(s: State<B>, run: seq<Event<B>>)
    decreases |run|
  {
    run == [] || (Enabled(s, run[0]) && Runs(Apply(s, run[0]), run[1..]))
  }

  function After<B>(s: State<B>, run: seq<Event<B>>): State<B>
    requires Runs(s, run)
    decreases |run|
  {
    if run == [] then s else After(Apply(s, run[0]), run[1..])
  }

  // ---------- Invariants ----------

  predicate NoSender<B>(s: State<B>) {
    !s.phase.out.Sending? && !s.phase.err.Sending?
  }

  /** Only the first emission can be a replay. */
  predicate ReplayFirst<B>(delivered: seq<Emission<B>>) {
    forall k | 0 < k < |delivered| :: !delivered[k].replay
  }

  ghost predicate LockCoherent<B>(s: State<B>) {
    (s.phase.out.Locked? <==> s.lock == ByReader(Stdout)) && (s.phase.err.Locked? <==> s.lock == ByReader(Stderr))
  }

  /** While something is buffered nothing has been sent, and nobody is about to send. */
  ghost predicate Ordered<B>(s: State<B>) {
    && (!s.term.attached ==> s.lock != Marked && s.lock != Replayed && s.delivered == [] && NoSender(s))
    && (s.term.attached && s.lock != Marked && s.lock != Replayed ==> s.term.buffer == [])
    && (s.lock == Marked && s.term.buffer != [] ==> s.delivered == [] && NoSender(s))
    && (s.lock == Replayed ==> s.term.buffer != [] && s.delivered == [Emission(true, s.term.buffer)] && NoSender(s))
    && ReplayFirst(s.delivered)
  }

  function AllItems<B>(delivered: seq<Emission<B>>): seq<Item<B>> {
    if delivered == [] then [] else AllItems(delivered[..|delivered| - 1]) + delivered[|delivered| - 1].items
  }

  function InHand<B>(p: Phase<B>): seq<B> {
    if p.Idle? then [] else p.chunk
  }

  /** Buffered and not yet replayed. */
  function Unsent<B>(s: State<B>): seq<Item<B>> {
    if s.lock == Replayed then [] else s.term.buffer
  }

  function Sent<B>(s: State<B>, src: Source): seq<B> {
    Project(AllItems(s.delivered), src)
  }

  function Waiting<B>(s: State<B>, src: Source): seq<B> {
    Project(Unsent(s), src)
  }

  /** Bytes are lost only from a reader's hands; what is sent, waiting and in hand is the rest, in the order read. */
  ghost predicate Balanced<B>(sent: seq<B>, waiting: seq<B>, hand: seq<B>, lost: nat, read: seq<B>) {
    && |sent| + |waiting| + |hand| + lost == |read|
    && (lost == 0 ==> sent + waiting + hand == read)
  }

  ghost predicate Conserved<B>(s: State<B>, src: Source) {
    Balanced(Sent(s, src), Waiting(s, src), InHand(s.phase.Get(src)), s.lost.Get(src), s.read.Get(src))
  }

  predicate FitsChunk<B>(p: Phase<B>) {
    p.Idle? || 0 < |p.chunk| <= CHUNK_LIMIT
  }

  function Total(chunks: seq<Chunk>): nat {
    if chunks == [] then 0 else Total(chunks[..|chunks| - 1]) + chunks[|chunks| - 1].size
  }

  function Lost<B>(s: State<B>): nat {
    s.lost.out + s.lost.err
  }

  /** Each early chunk of the stream came while less than 512 KiB had come before it, from either stream. */
  ghost predicate AllKept(early: seq<Chunk>, src: Source) {
    forall k | 0 <= k < |early| && early[k].src == src :: Total(early[..k]) < BUFFER_LIMIT
  }

  lemma TotalMore(early: seq<Chunk>, c: Chunk)
    ensures Total(early + [c]) == Total(early) + c.size
  {
    assert (early + [c])[..|early|] == early;
  }

  lemma AllKeptMore(early: seq<Chunk>, c: Chunk, src: Source)
    ensures AllKept(early + [c], src) <==> AllKept(early, src) && (c.src == src ==> Total(early) < BUFFER_LIMIT)
  {
    var all := early + [c];
    assert all[..|early|] == early;
    if AllKept(all, src) {
      forall k | 0 <= k < |early| && early[k].src == src ensures Total(early[..k]) < BUFFER_LIMIT {
        assert all[k] == early[k] && all[..k] == early[..k];
      }
      if c.src == src { assert all[|early|] == c; }
    }
    if AllKept(early, src) && (c.src == src ==> Total(early) < BUFFER_LIMIT) {
      forall k | 0 <= k < |all| && all[k].src == src ensures Total(all[..k]) < BUFFER_LIMIT {
        if k < |early| { assert all[k] == early[k] && all[..k] == early[..k]; }
      }
    }
  }

  lemma {:induction false} TotalGrows(early: seq<Chunk>, k: nat)
    requires k < |early|
    ensures Total(early[..k]) + early[k].size <= Total(early)
    decreases |early|
  {
    var n := |early| - 1;
    if k < n {
      TotalGrows(early[..n], k);
      assert early[..n][..k] == early[..k];
    }
  }

  /** Nothing is lost while at most 512 KiB arrive before the first Attach. */
  lemma SmallIsKept(early: seq<Chunk>, src: Source)
    requires Total(early) <= BUFFER_LIMIT && forall c <- early :: c.size > 0
    ensures AllKept(early, src)
  {
    forall k | 0 <= k < |early| && early[k].src == src ensures Total(early[..k]) < BUFFER_LIMIT {
      TotalGrows(early, k);
      assert early[k] in early;
    }
  }

  /** The buffer stays bounded, and holds all early output until some is lost. */
  ghost predicate Bounded<B>(s: State<B>) {
    && |s.term.buffer| < BUFFER_LIMIT + CHUNK_LIMIT
    && FitsChunk(s.phase.out) && FitsChunk(s.phase.err) && (forall c <- s.early :: c.size > 0)
    && (!s.closed && !s.term.attached ==>
         Lost(s) + |s.term.buffer| == Total(s.early) && (Lost(s) > 0 ==> |s.term.buffer| >= BUFFER_LIMIT))
    && (!s.closed ==>
         (s.lost.out == 0 <==> AllKept(s.early, Stdout)) && (s.lost.err == 0 <==> AllKept(s.early, Stderr)))
  }

  ghost predicate Safe<B>(s: State<B>) {
    && LockCoherent(s) && Ordered(s) && Bounded(s)
    && (s.closed || (Conserved(s, Stdout) && Conserved(s, Stderr)))
  }

  lemma StepKeepsOrder<B>(s: State<B>, e: Event<B>)
    requires LockCoherent(s) && Ordered(s) && Enabled(s, e)
    ensures LockCoherent(Apply(s, e)) && Ordered(Apply(s, e))
  {}

  lemma StoreKeepsBound<B>(s: State<B>, src: Source)
    requires Bounded(s) && Enabled(s, Store(src))
    ensures Bounded(Stored(s, src))
  {
    var chunk := s.phase.Get(src).chunk;
    var c := Chunk(src, |chunk|);
    assert 0 < |chunk| <= CHUNK_LIMIT;
    TotalMore(s.early, c);
    AllKeptMore(s.early, c, Stdout);
    AllKeptMore(s.early, c, Stderr);
  }

  lemma StepKeepsBound<B>(s: State<B>, e: Event<B>)
    requires Ordered(s) && Bounded(s) && Enabled(s, e)
    ensures Bounded(Apply(s, e))
  {
    if e.Store? { StoreKeepsBound(s, e.src); }
  }

  lemma Moves<B>(sent: seq<B>, waiting: seq<B>, hand: seq<B>, lost: nat, read: seq<B>)
    requires Balanced(sent, waiting, hand, lost, read)
    ensures Balanced(sent, waiting + hand, [], lost, read)
    ensures Balanced(sent, waiting, [], lost + |hand|, read)
    ensures waiting == [] ==> Balanced(sent + hand, waiting, [], lost, read)
    ensures Balanced(sent + waiting, [], hand, lost, read)
  {}

  lemma Arrives<B>(sent: seq<B>, waiting: seq<B>, lost: nat, read: seq<B>, chunk: seq<B>)
    requires Balanced(sent, waiting, [], lost, read)
    ensures Balanced(sent, waiting, chunk, lost, read + chunk)
  {}

  lemma SendDelivers<B>(delivered: seq<Emission<B>>, e: Emission<B>, src: Source)
    ensures Project(AllItems(delivered + [e]), src) == Project(AllItems(delivered), src) + Project(e.items, src)
  {
    assert (delivered + [e])[..|delivered|] == delivered;
    ProjectAppend(AllItems(delivered), e.items, src);
  }

  lemma ReadKeepsBytes<B>(s: State<B>, from: Source, chunk: seq<B>, src: Source)
    requires Enabled(s, Read(from, chunk)) && Conserved(s, src)
    ensures Conserved(Apply(s, Read(from, chunk)), src)
  {
    if from == src { Arrives(Sent(s, src), Waiting(s, src), s.lost.Get(src), s.read.Get(src), chunk); }
  }

  lemma KeptBytes<B>(buffer: seq<Item<B>>, chunk: seq<B>, from: Source, src: Source)
    ensures Project(buffer + Tag(from, chunk), src) ==
      if from == src then Project(buffer, src) + chunk else Project(buffer, src)
  {
    ProjectAppend(buffer, Tag(from, chunk), src);
    ProjectTag(chunk, from, src);
    assert Project(buffer, src) + [] == Project(buffer, src);
  }

  lemma StoreKeepsOwnBytes<B>(s: State<B>, src: Source)
    requires Enabled(s, Store(src)) && Conserved(s, src)
    ensures Conserved(Stored(s, src), src)
  {
    var chunk := s.phase.Get(src).chunk;
    Moves(Sent(s, src), Waiting(s, src), chunk, s.lost.Get(src), s.read.Get(src));
    if !s.term.attached { KeptBytes(s.term.buffer, chunk, src, src); }
  }

  lemma StoreKeepsOtherBytes<B>(s: State<B>, from: Source, src: Source)
    requires Enabled(s, Store(from)) && Conserved(s, src) && from != src
    ensures Conserved(Stored(s, from), src)
  {
    if !s.term.attached { KeptBytes(s.term.buffer, s.phase.Get(from).chunk, from, src); }
    assert Waiting(Stored(s, from), src) == Waiting(s, src);
  }

  lemma SendKeepsBytes<B>(s: State<B>, from: Source, src: Source)
    requires Ordered(s) && Enabled(s, Send(from)) && Conserved(s, src)
    ensures Conserved(Apply(s, Send(from)), src)
  {
    var chunk := s.phase.Get(from).chunk;
    Moves(Sent(s, src), Waiting(s, src), InHand(s.phase.Get(src)), s.lost.Get(src), s.read.Get(src));
    SendDelivers(s.delivered, Emission(false, Tag(from, chunk)), src);
    ProjectTag(chunk, from, src);
    assert Sent(s, src) + [] == Sent(s, src);
  }

  lemma ReplayKeepsBytes<B>(s: State<B>, src: Source)
    requires Enabled(s, Replay) && Conserved(s, src)
    ensures Conserved(Apply(s, Replay), src)
  {
    Moves(Sent(s, src), Waiting(s, src), InHand(s.phase.Get(src)), s.lost.Get(src), s.read.Get(src));
    SendDelivers(s.delivered, Emission(true, s.term.buffer), src);
  }

  /** The other steps move no byte: clearing follows a replay. */
  lemma QuietKeepsBytes<B>(s: State<B>, e: Event<B>, src: Source)
    requires Enabled(s, e) && Conserved(s, src)
    requires e.Acquire? || e.Enter? || e.Mark? || e.Clear?
    ensures Conserved(Apply(s, e), src)
  {
    assert Unsent(Apply(s, e)) == Unsent(s);
    assert InHand(Apply(s, e).phase.Get(src)) == InHand(s.phase.Get(src));
  }

  lemma StepKeepsBytes<B>(s: State<B>, e: Event<B>, src: Source)
    requires Ordered(s) && Enabled(s, e) && Conserved(s, src) && !e.Close?
    ensures Conserved(Apply(s, e), src)
  {
    match e
    case Read(from, chunk) => ReadKeepsBytes(s, from, chunk, src);
    case Store(from) => if from == src { StoreKeepsOwnBytes(s, src); } else { StoreKeepsOtherBytes(s, from, src); }
    case Send(from) => SendKeepsBytes(s, from, src);
    case Replay => ReplayKeepsBytes(s, src);
    case Acquire(_) => QuietKeepsBytes(s, e, src);
    case Enter(_) => QuietKeepsBytes(s, e, src);
    case Mark => QuietKeepsBytes(s, e, src);
    case Clear => QuietKeepsBytes(s, e, src);
  }

  lemma {:induction false} RunsAreSafe<B>(s: State<B>, run: seq<Event<B>>)
    requires Safe(s) && Runs(s, run)
    ensures Safe(After(s, run))
    decreases |run|
  {
    if run != [] {
      StepKeepsOrder(s, run[0]);
      StepKeepsBound(s, run[0]);
      if !s.closed && !run[0].Close? {
        StepKeepsBytes(s, run[0], Stdout);
        StepKeepsBytes(s, run[0], Stderr);
      }
      RunsAreSafe(Apply(s, run[0]), run[1..]);
    }
  }

  lemma StartIsSafe<B>()
    ensures Safe(Start<B>())
  {}

  // ---------- Results ----------

  predicate Settled<B>(s: State<B>) {
    s.phase == Pair(Idle, Idle) && s.term.attached && s.lock == Free
  }

  ghost predicate NoClose<B>(run: seq<Event<B>>) {
    forall e <- run :: !e.Close?
  }

  lemma {:induction false} StaysOpen<B>(s: State<B>, run: seq<Event<B>>)
    requires Runs(s, run) && NoClose(run) && !s.closed
    ensures !After(s, run).closed
    decreases |run|
  {
    if run != [] {
      assert !run[0].Close?;
      StaysOpen(Apply(s, run[0]), run[1..]);
    }
  }

  lemma ConservedMeans<B>(s: State<B>, src: Source)
    requires Safe(s) && !s.closed
    ensures AllKept(s.early, src) ==> Sent(s, src) <= s.read.Get(src)
    ensures Settled(s) ==> (Sent(s, src) == s.read.Get(src) <==> AllKept(s.early, src))
    ensures Total(s.early) <= BUFFER_LIMIT ==> AllKept(s.early, src)
  {
    assert Conserved(s, src);
    if Total(s.early) <= BUFFER_LIMIT { SmallIsKept(s.early, src); }
    if Settled(s) {
      assert Waiting(s, src) == [] && InHand(s.phase.Get(src)) == [];
      assert Sent(s, src) + [] + [] == Sent(s, src);
    }
  }

  /** An undisturbed Attach, or a timer that finds nobody attached, replays the buffer and empties it. */
  lemma AttachSection<B>(s: State<B>, timer: bool)
    requires s.lock == Free && s.term.buffer != [] && !(timer && s.term.attached)
    ensures var run := [Enter(timer), Mark, Replay, Clear];
      && Runs(s, run)
      && After(s, run) == s.(term := Terminal(true, []), delivered := s.delivered + [Emission(true, s.term.buffer)])
  {
    var run: seq<Event<B>> := [Enter(timer), Mark, Replay, Clear];
    var s1 := Apply(s, Enter(timer));
    var s2 := Apply(s1, Mark);
    var s3 := Apply(s2, Replay);
    var s4 := Apply(s3, Clear);
    assert run[1..] == [Mark, Replay, Clear] && run[1..][1..] == [Replay, Clear];
    assert run[1..][1..][1..] == [Clear] && run[1..][1..][1..][1..] == [];
    assert Runs(s4, []) && After(s4, []) == s4;
    assert Runs(s3, [Clear]) && After(s3, [Clear]) == s4;
    assert Runs(s2, [Replay, Clear]) && After(s2, [Replay, Clear]) == s4;
    assert Runs(s1, [Mark, Replay, Clear]) && After(s1, [Mark, Replay, Clear]) == s4;
  }

  /**
   * In every interleaving without a close: once things have settled, a stream has delivered exactly what was read from
   * it, in order, if and only if each of its chunks from before the first Attach came while less than 512 KiB had been
   * stored; if that holds, what it has delivered until then is a prefix of what was read. At most 512 KiB of early
   * output lose nothing.
   */
  lemma DeliveredInOrder<B>(run: seq<Event<B>>, src: Source)
    requires Runs(Start(), run) && NoClose(run)
    ensures var s := After(Start(), run);
      && (Settled(s) ==> (Sent(s, src) == s.read.Get(src) <==> AllKept(s.early, src)))
      && (AllKept(s.early, src) ==> Sent(s, src) <= s.read.Get(src))
      && (Total(s.early) <= BUFFER_LIMIT ==> AllKept(s.early, src))
  {
    var s := After(Start(), run);
    StartIsSafe<B>();
    RunsAreSafe(Start(), run);
    StaysOpen(Start(), run);
    ConservedMeans(s, src);
  }

  /** In every interleaving, a close included, replayed data is emitted first and the buffer stays below 544 KiB. */
  lemma ReplayComesFirst<B>(run: seq<Event<B>>)
    requires Runs(Start(), run)
    ensures var s := After(Start(), run);
      && ReplayFirst(s.delivered)
      && |s.term.buffer| < BUFFER_LIMIT + CHUNK_LIMIT
      && (s.delivered != [] ==> s.term.attached)
  {
    StartIsSafe<B>();
    RunsAreSafe(Start(), run);
  }
}
