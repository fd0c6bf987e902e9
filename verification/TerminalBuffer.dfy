/** The buffer of early terminal output, as each critical section of the session's lock changes it. */
module TerminalBuffer {
  import opened Sequences

  const BUFFER_LIMIT := 512 * 1024
  const CHUNK_LIMIT := 32 * 1024

  datatype Source = Stdout | Stderr

  /** A byte and the stream it came from. */
  datatype Item<B> = Item(src: Source, byte: B)

  datatype Terminal<B> = Terminal(attached: bool, buffer: seq<Item<B>>)

  function Tag<B>(src: Source, chunk: seq<B>): (items: seq<Item<B>>)
    ensures |items| == |chunk| && forall k | 0 <= k < |chunk| :: items[k] == Item(src, chunk[k])
  {
    seq(|chunk|, k requires 0 <= k < |chunk| => Item(src, chunk[k]))
  }

  /** The bytes of one stream, in order. */
  function Project<B>(items: seq<Item<B>>, src: Source): seq<B> {
    if items == [] then []
    else (if items[0].src == src then [items[0].byte] else []) + Project(items[1..], src)
  }

  /** Before anyone attaches, a chunk is kept unless the buffer has reached its limit. */
  function Buffered<B>(t: Terminal<B>, items: seq<Item<B>>): Terminal<B> {
    if !t.attached && |t.buffer| < BUFFER_LIMIT then t.(buffer := t.buffer + items) else t
  }

  lemma {:induction false} ProjectAppend<B>(a: seq<Item<B>>, b: seq<Item<B>>, src: Source)
    ensures Project(a + b, src) == Project(a, src) + Project(b, src)
    decreases |a|
  {
    if a == [] {
      assert a + b == b;
    } else {
      assert (a + b)[1..] == a[1..] + b;
      ProjectAppend(a[1..], b, src);
      Associate(if a[0].src == src then [a[0].byte] else [], Project(a[1..], src), Project(b, src));
    }
  }

  lemma {:induction false} ProjectTag<B>(chunk: seq<B>, from: Source, src: Source)
    ensures Project(Tag(from, chunk), src) == if from == src then chunk else []
    decreases |chunk|
  {
    if chunk != [] {
      assert Tag(from, chunk)[1..] == Tag(from, chunk[1..]);
      ProjectTag(chunk[1..], from, src);
    }
  }

  /** A session's buffer; each method is one critical section. */
  class Session<B> {
    var buffer: seq<Item<B>>
    var attached: bool

    ghost function Now(): Terminal<B>
      reads this
    {
      Terminal(attached, buffer)
    }

    constructor ()
      ensures Now() == Terminal(false, [])
    {
      buffer, attached := [], false;
    }

    /** A reader stores its chunk, or finds that it must be sent live. */
    method Pump(src: Source, chunk: seq<B>) returns (live: bool)
      modifies this
      ensures Now() == Buffered(old(Now()), Tag(src, chunk)) && live == old(attached)
    {
      live := attached;
      if !attached {
        if |buffer| < BUFFER_LIMIT { buffer := buffer + Tag(src, chunk); }
      }
    }

    /** Attaches and returns what is replayed: everything buffered. */
    method Attach() returns (replay: seq<Item<B>>)
      modifies this
      ensures Now() == Terminal(true, []) && replay == old(buffer)
    {
      attached := true;
      replay := [];
      if |buffer| > 0 {
        replay := buffer;
        buffer := [];
      }
    }

    /** The fallback timer does the same, unless someone has attached. */
    method FireTimer() returns (replay: seq<Item<B>>)
      modifies this
      ensures attached
      ensures if old(attached) then Now() == old(Now()) && replay == []
        else Now() == Terminal(true, []) && replay == old(buffer)
    {
      replay := [];
      if !attached {
        attached := true;
        if |buffer| > 0 {
          replay := buffer;
          buffer := [];
        }
      }
    }

    method Close()
      modifies this
      ensures Now() == old(Now()).(buffer := [])
    {
      buffer := [];
    }
  }
}
