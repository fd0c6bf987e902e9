/** The streaming splitter that sends `<think>` blocks of a model's answer to the reasoning channel. */
module ThinkTags {
  import opened Sequences

  /** The opening and closing tag, over any alphabet. */
  datatype Tags<T> = Tags(open: seq<T>, close: seq<T>)

  const THINK := Tags("<think>", "</think>")

  /** Both tags start with a symbol that occurs nowhere else in them, and differ in their second symbol. */
  ghost predicate Distinct<T>(t: Tags<T>) {
    && |t.open| >= 2 && |t.close| >= 2 && t.open[0] == t.close[0] && t.open[1] != t.close[1]
    && (forall i | 1 <= i < |t.open| :: t.open[i] != t.open[0])
    && (forall i | 1 <= i < |t.close| :: t.close[i] != t.close[0])
  }

  lemma ThinkTagsAreDistinct()
    ensures Distinct(THINK)
  {}

  predicate StartsWith<T(==)>(s: seq<T>, t: seq<T>) {
    |t| <= |s| && s[..|t|] == t
  }

  datatype Cut<T> = Uncut | Cut(before: seq<T>, after: seq<T>)

  /** `strings.SplitN` into two parts at the first occurrence of `tag`; `Uncut` when there is none. */
  function CutAt<T(==)>(s: seq<T>, tag: seq<T>): Cut<T> {
    if StartsWith(s, tag) then Cut([], s[|tag|..])
    else if s == [] then Uncut
    else
      var c := CutAt(s[1..], tag);
      if c.Uncut? then Uncut else Cut([s[0]] + c.before, c.after)
  }

  lemma {:induction false} CutRebuilds<T>(s: seq<T>, tag: seq<T>)
    ensures var c := CutAt(s, tag); c.Cut? ==> c.before + tag + c.after == s
    decreases |s|
  {
    if StartsWith(s, tag) {
      assert [] + tag + s[|tag|..] == s;
    } else if s != [] {
      CutRebuilds(s[1..], tag);
      var c := CutAt(s[1..], tag);
      if c.Cut? { ConsThree(s[0], c.before, tag, c.after); }
    }
  }

  lemma ConsThree<T>(x: T, a: seq<T>, b: seq<T>, c: seq<T>)
    ensures ([x] + a) + b + c == [x] + (a + b + c)
  {}

  /** The tag does not start at any of the first `n` positions. */
  ghost predicate NoStart<T>(s: seq<T>, tag: seq<T>, n: nat) {
    n == 0 || (s != [] && !StartsWith(s, tag) && NoStart(s[1..], tag, n - 1))
  }

  lemma {:induction false} NoStartFrom<T>(s: seq<T>, tag: seq<T>, i: nat, n: nat)
    requires i <= n <= |s| && forall k | i <= k < n :: !StartsWith(s[k..], tag)
    ensures NoStart(s[i..], tag, n - i)
    decreases n - i
  {
    if i < n {
      NoStartFrom(s, tag, i + 1, n);
      assert s[i..][1..] == s[i + 1..];
    }
  }

  /** Where the tag does not start, the cut skips. */
  lemma {:induction false} CutSkips<T>(s: seq<T>, tag: seq<T>, n: nat)
    requires n <= |s| && NoStart(s, tag, n)
    ensures var c := CutAt(s[n..], tag); CutAt(s, tag) == if c.Uncut? then Uncut else Cut(s[..n] + c.before, c.after)
    decreases n
  {
    var c := CutAt(s[n..], tag);
    if n == 0 {
      assert s[0..] == s;
      if c.Cut? { assert s[..0] + c.before == c.before; }
    } else {
      CutSkips(s[1..], tag, n - 1);
      assert s[1..][n - 1..] == s[n..];
      if c.Cut? {
        assert s[..n] == [s[0]] + s[1..][..n - 1];
        Associate([s[0]], s[1..][..n - 1], c.before);
      }
    }
  }

  lemma {:induction false} UncutTail<T>(s: seq<T>, tag: seq<T>, n: nat)
    requires CutAt(s, tag).Uncut? && n <= |s|
    ensures CutAt(s[n..], tag).Uncut?
    decreases n
  {
    if n == 0 {
      assert s[0..] == s;
    } else {
      UncutTail(s[1..], tag, n - 1);
      assert s[1..][n - 1..] == s[n..];
    }
  }

  // ---------- The splitter ----------

  /** What a chunk is cut into: channel pieces and consumed tags. */
  datatype Piece<T> = Content(text: seq<T>) | Reasoning(text: seq<T>) | OpenTag | CloseTag

  function NonEmpty<T>(p: Piece<T>): seq<Piece<T>>
    requires p.Content? || p.Reasoning?
  {
    if p.text == [] then [] else [p]
  }

  /** The part of a chunk that follows a possible opening tag. */
  function AfterOpen<T(==)>(t: Tags<T>, inThink: bool, text: seq<T>): (seq<Piece<T>>, bool) {
    if !inThink then ([Content(text)], false)
    else
      match CutAt(text, t.close)
      case Cut(before, after) => (NonEmpty(Reasoning(before)) + [CloseTag] + NonEmpty(Content(after)), false)
      case Uncut => ([Reasoning(text)], true)
  }

  /** One chunk handles at most one opening and one closing tag. */
  function SplitChunk<T(==)>(t: Tags<T>, inThink: bool, text: seq<T>): (seq<Piece<T>>, bool) {
    if text == [] then ([], inThink)
    else
      match CutAt(text, t.open)
      case Cut(before, after) =>
        var (rest, state) := AfterOpen(t, true, after);
        (NonEmpty(Content(before)) + [OpenTag] + rest, state)
      case Uncut => AfterOpen(t, inThink, text)
  }

  function SplitChunks<T(==)>(t: Tags<T>, inThink: bool, chunks: seq<seq<T>>): (seq<Piece<T>>, bool)
    decreases |chunks|
  {
    if chunks == [] then ([], inThink)
    else
      var (first, mid) := SplitChunk(t, inThink, chunks[0]);
      var (rest, after) := SplitChunks(t, mid, chunks[1..]);
      (first + rest, after)
  }

  function RawOf<T>(t: Tags<T>, p: Piece<T>): seq<T> {
    match p case OpenTag => t.open case CloseTag => t.close case Content(x) => x case Reasoning(x) => x
  }

  function Raw<T>(t: Tags<T>, pieces: seq<Piece<T>>): seq<T> {
    if pieces == [] then [] else RawOf(t, pieces[0]) + Raw(t, pieces[1..])
  }

  function ContentOf<T>(pieces: seq<Piece<T>>): seq<T> {
    if pieces == [] then [] else (if pieces[0].Content? then pieces[0].text else []) + ContentOf(pieces[1..])
  }

  function ReasoningOf<T>(pieces: seq<Piece<T>>): seq<T> {
    if pieces == [] then [] else (if pieces[0].Reasoning? then pieces[0].text else []) + ReasoningOf(pieces[1..])
  }

  /** What reached the two channels, and whether a block is open. */
  datatype Split<T> = Split(content: seq<T>, reasoning: seq<T>, inThink: bool)

  function Then<T>(a: Split<T>, b: Split<T>): Split<T> {
    Split(a.content + b.content, a.reasoning + b.reasoning, b.inThink)
  }

  function ChunkResult<T(==)>(t: Tags<T>, inThink: bool, text: seq<T>): Split<T> {
    var (pieces, after) := SplitChunk(t, inThink, text);
    Split(ContentOf(pieces), ReasoningOf(pieces), after)
  }

  function ChunksResult<T(==)>(t: Tags<T>, inThink: bool, chunks: seq<seq<T>>): Split<T> {
    var (pieces, after) := SplitChunks(t, inThink, chunks);
    Split(ContentOf(pieces), ReasoningOf(pieces), after)
  }

  function Flatten<T>(chunks: seq<seq<T>>): seq<T> {
    if chunks == [] then [] else chunks[0] + Flatten(chunks[1..])
  }

  // ---------- Nothing is lost ----------

  lemma {:induction false} RawAppend<T>(t: Tags<T>, a: seq<Piece<T>>, b: seq<Piece<T>>)
    ensures Raw(t, a + b) == Raw(t, a) + Raw(t, b)
    ensures ContentOf(a + b) == ContentOf(a) + ContentOf(b) && ReasoningOf(a + b) == ReasoningOf(a) + ReasoningOf(b)
    decreases |a|
  {
    if a == [] {
      assert a + b == b;
    } else {
      assert (a + b)[1..] == a[1..] + b && (a + b)[0] == a[0];
      RawAppend(t, a[1..], b);
      Associate(RawOf(t, a[0]), Raw(t, a[1..]), Raw(t, b));
      var none: seq<T> := [];
      Associate(if a[0].Content? then a[0].text else none, ContentOf(a[1..]), ContentOf(b));
      Associate(if a[0].Reasoning? then a[0].text else none, ReasoningOf(a[1..]), ReasoningOf(b));
    }
  }

  lemma OnePiece<T>(t: Tags<T>, p: Piece<T>)
    ensures Raw(t, [p]) == RawOf(t, p)
    ensures ContentOf([p]) == if p.Content? then p.text else []
    ensures ReasoningOf([p]) == if p.Reasoning? then p.text else []
  {
    assert [p][1..] == [];
    assert RawOf(t, p) + [] == RawOf(t, p);
    if p.Content? || p.Reasoning? { assert p.text + [] == p.text; }
  }

  /** A possibly empty text piece, a tag and more pieces. */
  lemma TextTagRest<T>(t: Tags<T>, text: Piece<T>, tag: Piece<T>, rest: seq<Piece<T>>)
    requires (text.Content? || text.Reasoning?) && (tag.OpenTag? || tag.CloseTag?)
    ensures var ps := NonEmpty(text) + [tag] + rest;
      && Raw(t, ps) == text.text + RawOf(t, tag) + Raw(t, rest)
      && ContentOf(ps) == (if text.Content? then text.text else []) + ContentOf(rest)
      && ReasoningOf(ps) == (if text.Reasoning? then text.text else []) + ReasoningOf(rest)
  {
    OnePiece(t, text);
    OnePiece(t, tag);
    RawAppend(t, NonEmpty(text), [tag]);
    RawAppend(t, NonEmpty(text) + [tag], rest);
  }

  lemma AfterOpenParts<T>(t: Tags<T>, inThink: bool, text: seq<T>)
    ensures var pieces, c := AfterOpen(t, inThink, text).0, CutAt(text, t.close);
      && Raw(t, pieces) == text
      && ContentOf(pieces) == (if !inThink then text else if c.Cut? then c.after else [])
      && ReasoningOf(pieces) == (if !inThink then [] else if c.Cut? then c.before else text)
  {
    var c := CutAt(text, t.close);
    OnePiece(t, Content(text));
    OnePiece(t, Reasoning(text));
    if inThink && c.Cut? {
      CutRebuilds(text, t.close);
      OnePiece(t, Content(c.after));
      TextTagRest(t, Reasoning(c.before), CloseTag, NonEmpty(Content(c.after)));
    }
  }

  lemma SplitChunkParts<T>(t: Tags<T>, inThink: bool, text: seq<T>)
    ensures var pieces, c := SplitChunk(t, inThink, text).0, CutAt(text, t.open);
      && Raw(t, pieces) == text
      && (text != [] && c.Cut? ==>
            var rest := AfterOpen(t, true, c.after).0;
            ContentOf(pieces) == c.before + ContentOf(rest) && ReasoningOf(pieces) == ReasoningOf(rest))
  {
    var c := CutAt(text, t.open);
    if text != [] && c.Cut? {
      CutRebuilds(text, t.open);
      AfterOpenParts(t, true, c.after);
      TextTagRest(t, Content(c.before), OpenTag, AfterOpen(t, true, c.after).0);
    } else if text != [] {
      AfterOpenParts(t, inThink, text);
    }
  }

  /** For every chunking, the emitted pieces and the consumed tags rebuild the input exactly. */
  lemma {:induction false} PiecesRebuildInput<T>(t: Tags<T>, inThink: bool, chunks: seq<seq<T>>)
    ensures Raw(t, SplitChunks(t, inThink, chunks).0) == Flatten(chunks)
    decreases |chunks|
  {
    if chunks != [] {
      var (first, mid) := SplitChunk(t, inThink, chunks[0]);
      SplitChunkParts(t, inThink, chunks[0]);
      PiecesRebuildInput(t, mid, chunks[1..]);
      RawAppend(t, first, SplitChunks(t, mid, chunks[1..]).0);
    }
  }

  // ---------- The whole-string parser ----------

  function Emit<T>(inThink: bool, x: T, r: Split<T>): Split<T> {
    if inThink then r.(reasoning := [x] + r.reasoning) else r.(content := [x] + r.content)
  }

  function Whole<T(==)>(t: Tags<T>, inThink: bool, s: seq<T>): Split<T>
    requires |t.open| > 0 && |t.close| > 0
    decreases |s|
  {
    if s == [] then Split([], [], inThink)
    else if !inThink && StartsWith(s, t.open) then Whole(t, true, s[|t.open|..])
    else if inThink && StartsWith(s, t.close) then Whole(t, false, s[|t.close|..])
    else Emit(inThink, s[0], Whole(t, inThink, s[1..]))
  }

  /** The tag that ends the current state. */
  function Exit<T>(t: Tags<T>, inThink: bool): seq<T> {
    if inThink then t.close else t.open
  }

  /** Text of the current state goes to its channel. */
  function Side<T>(inThink: bool, text: seq<T>, r: Split<T>): Split<T> {
    if inThink then r.(reasoning := text + r.reasoning) else r.(content := text + r.content)
  }

  lemma {:induction false} WholeByCut<T>(t: Tags<T>, inThink: bool, s: seq<T>)
    requires |t.open| > 0 && |t.close| > 0
    ensures Whole(t, inThink, s) ==
      match CutAt(s, Exit(t, inThink))
      case Cut(before, after) => Side(inThink, before, Whole(t, !inThink, after))
      case Uncut => Side(inThink, s, Split([], [], inThink))
    decreases |s|
  {
    var e := Exit(t, inThink);
    if StartsWith(s, e) {
      SideNothing(inThink, Whole(t, !inThink, s[|e|..]));
    } else if s != [] {
      WholeByCut(t, inThink, s[1..]);
      match CutAt(s[1..], e)
      case Cut(before, after) => SideEmit(inThink, s[0], before, Whole(t, !inThink, after));
      case Uncut =>
        SideEmit(inThink, s[0], s[1..], Split([], [], inThink));
        assert [s[0]] + s[1..] == s;
    }
  }

  lemma SideNothing<T>(inThink: bool, r: Split<T>)
    ensures Side(inThink, [], r) == r
  {
    assert [] + r.content == r.content && [] + r.reasoning == r.reasoning;
  }

  lemma SideEmit<T>(inThink: bool, x: T, text: seq<T>, r: Split<T>)
    ensures Emit(inThink, x, Side(inThink, text, r)) == Side(inThink, [x] + text, r)
  {
    assert [x] + (text + r.content) == ([x] + text) + r.content;
    assert [x] + (text + r.reasoning) == ([x] + text) + r.reasoning;
  }

  lemma {:induction false} WholeIsShort<T>(t: Tags<T>, inThink: bool, s: seq<T>)
    requires |t.open| > 0 && |t.close| > 0
    ensures |Whole(t, inThink, s).content| + |Whole(t, inThink, s).reasoning| <= |s|
    decreases |s|
  {
    if s != [] {
      if StartsWith(s, Exit(t, inThink)) {
        WholeIsShort(t, !inThink, s[|Exit(t, inThink)|..]);
      } else {
        WholeIsShort(t, inThink, s[1..]);
      }
    }
  }

  // ---------- When one chunk is read correctly ----------

  /** A chunk with an opening tag starts outside a block, and no opening tag follows the end of its block. */
  predicate SafeChunk<T(==)>(t: Tags<T>, inThink: bool, text: seq<T>) {
    match CutAt(text, t.open)
    case Uncut => true
    case Cut(_, rest) =>
      !inThink &&
      match CutAt(rest, t.close)
      case Uncut => true
      case Cut(_, tail) => CutAt(tail, t.open).Uncut?
  }

  lemma SafeChunkIsWhole<T>(t: Tags<T>, inThink: bool, text: seq<T>)
    requires Distinct(t) && SafeChunk(t, inThink, text)
    ensures ChunkResult(t, inThink, text) == Whole(t, inThink, text)
  {
    var c := CutAt(text, t.open);
    if text == [] {
    } else if c.Cut? {
      SplitChunkParts(t, inThink, text);
      WholeByCut(t, false, text);
      AfterOpenIsWhole(t, true, c.after);
      assert Split(c.before + Whole(t, true, c.after).content, Whole(t, true, c.after).reasoning,
        Whole(t, true, c.after).inThink)
        == Side(false, c.before, Whole(t, true, c.after));
    } else {
      if inThink && CutAt(text, t.close).Cut? {
        CutRebuilds(text, t.close);
        var d := CutAt(text, t.close);
        assert text[|d.before| + |t.close|..] == d.after;
        UncutTail(text, t.open, |d.before| + |t.close|);
      }
      AfterOpenIsWhole(t, inThink, text);
    }
  }

  /** After the opening tag the splitter and the parser agree when no opening tag remains in the content. */
  lemma AfterOpenIsWhole<T>(t: Tags<T>, inThink: bool, text: seq<T>)
    requires Distinct(t)
    requires !inThink ==> CutAt(text, t.open).Uncut?
    requires inThink && CutAt(text, t.close).Cut? ==> CutAt(CutAt(text, t.close).after, t.open).Uncut?
    ensures var (pieces, after) := AfterOpen(t, inThink, text);
            Split(ContentOf(pieces), ReasoningOf(pieces), after) == Whole(t, inThink, text)
  {
    AfterOpenParts(t, inThink, text);
    WholeByCut(t, inThink, text);
    var none: seq<T> := [];
    assert text + none == text;
    if inThink && CutAt(text, t.close).Cut? {
      var d := CutAt(text, t.close);
      WholeByCut(t, false, d.after);
      assert d.after + none == d.after && d.before + none == d.before;
    }
  }

  /** An opening tag left in the content after a block makes the chunk differ. */
  lemma SecondOpeningDiffers<T>(t: Tags<T>, text: seq<T>)
    requires Distinct(t) && !SafeChunk(t, false, text)
    ensures ChunkResult(t, false, text) != Whole(t, false, text)
  {
    var c := CutAt(text, t.open);
    var d := CutAt(c.after, t.close);
    var e := CutAt(d.after, t.open);
    CutRebuilds(text, t.open);
    SplitChunkParts(t, false, text);
    AfterOpenParts(t, true, c.after);
    WholeByCut(t, false, text);
    WholeByCut(t, true, c.after);
    WholeByCut(t, false, d.after);
    CutRebuilds(d.after, t.open);
    WholeIsShort(t, true, e.after);
    assert |ContentOf(SplitChunk(t, false, text).0)| == |c.before| + |d.after|;
    assert |Whole(t, false, text).content| == |c.before| + |e.before| + |Whole(t, true, e.after).content|;
  }

  /** The content after an opening tag, parsed as a whole, is no longer than what the splitter sends. */
  lemma ContentAfterOpening<T>(t: Tags<T>, rest: seq<T>)
    requires Distinct(t)
    ensures |Whole(t, true, rest).content| <= |ContentOf(AfterOpen(t, true, rest).0)|
  {
    AfterOpenParts(t, true, rest);
    WholeByCut(t, true, rest);
    var d := CutAt(rest, t.close);
    if d.Cut? { WholeIsShort(t, false, d.after); }
  }

  /** Inside an occurrence of one tag the other does not start. */
  lemma NoTagInside<T>(t: Tags<T>, s: seq<T>, isOpen: bool)
    requires Distinct(t) && StartsWith(s, if isOpen then t.open else t.close)
    ensures var tag, other := if isOpen then t.open else t.close, if isOpen then t.close else t.open;
            NoStart(s, other, |tag|)
  {
    var tag, other := if isOpen then t.open else t.close, if isOpen then t.close else t.open;
    forall k | 0 <= k < |tag| ensures !StartsWith(s[k..], other) {
      assert s[k] == s[..|tag|][k] == tag[k];
      if k == 0 {
        assert s[0..] == s && s[1] == s[..|tag|][1] == tag[1];
        PrefixSymbol(s, other, 1);
      } else {
        PrefixSymbol(s[k..], other, 0);
      }
    }
    NoStartFrom(s, other, 0, |tag|);
    assert s[0..] == s;
  }

  lemma PrefixSymbol<T>(s: seq<T>, tag: seq<T>, i: nat)
    requires i < |tag|
    ensures StartsWith(s, tag) ==> i < |s| && s[i] == tag[i]
  {
    if StartsWith(s, tag) { assert s[..|tag|][i] == s[i]; }
  }

  /** The first occurrences of both tags: one lies wholly before the other and the cuts nest. */
  lemma {:induction false} TwoCuts<T>(t: Tags<T>, s: seq<T>)
    requires Distinct(t) && CutAt(s, t.open).Cut?
    ensures var o, c := CutAt(s, t.open), CutAt(s, t.close);
      || (c.Uncut? && CutAt(o.after, t.close).Uncut?)
      || (c.Cut? && var m := CutAt(o.after, t.close); m.Cut? && |c.before| == |o.before| + |t.open| + |m.before|)
      || (c.Cut? && var m := CutAt(c.after, t.open);
           m.Cut? && m.after == o.after && |o.before| == |c.before| + |t.close| + |m.before|)
    decreases |s|
  {
    if StartsWith(s, t.open) {
      NoTagInside(t, s, true);
      CutSkips(s, t.close, |t.open|);
    } else if StartsWith(s, t.close) {
      NoTagInside(t, s, false);
      CutSkips(s, t.open, |t.close|);
    } else {
      TwoCuts(t, s[1..]);
    }
  }

  /** A chunk with an opening tag that starts inside a block differs: its block text goes to the wrong channel. */
  lemma OpeningInsideDiffers<T>(t: Tags<T>, text: seq<T>)
    requires Distinct(t) && CutAt(text, t.open).Cut?
    ensures ChunkResult(t, true, text) != Whole(t, true, text)
  {
    var o, c := CutAt(text, t.open), CutAt(text, t.close);
    CutRebuilds(text, t.open);
    SplitChunkParts(t, true, text);
    AfterOpenParts(t, true, o.after);
    WholeByCut(t, true, text);
    TwoCuts(t, text);
    var m := CutAt(o.after, t.close);
    var code := ChunkResult(t, true, text);
    assert |code.reasoning| == if m.Cut? then |m.before| else |o.after|;
    assert |code.content| == |o.before| + |ContentOf(AfterOpen(t, true, o.after).0)|;
    if c.Cut? && !(m.Cut? && |c.before| == |o.before| + |t.open| + |m.before|) {
      WholeByCut(t, false, c.after);
      ContentAfterOpening(t, o.after);
      assert |Whole(t, true, text).content| < |code.content|;
    } else {
      assert |code.reasoning| < |Whole(t, true, text).reasoning|;
    }
  }

  /** A chunk is split as the whole-string parser would split it exactly when it is safe. */
  lemma ChunkIsWholeIffSafe<T>(t: Tags<T>, inThink: bool, text: seq<T>)
    requires Distinct(t)
    ensures ChunkResult(t, inThink, text) == Whole(t, inThink, text) <==> SafeChunk(t, inThink, text)
  {
    if SafeChunk(t, inThink, text) {
      SafeChunkIsWhole(t, inThink, text);
    } else if inThink {
      OpeningInsideDiffers(t, text);
    } else {
      SecondOpeningDiffers(t, text);
    }
  }

  // ---------- Many chunks ----------

  /** No tag begins in `a` and ends in `b`. */
  ghost predicate NoStraddle<T>(t: Tags<T>, a: seq<T>, b: seq<T>) {
    forall k | 0 <= k < |a| ::
      && (StartsWith((a + b)[k..], t.open) ==> k + |t.open| <= |a|)
      && (StartsWith((a + b)[k..], t.close) ==> k + |t.close| <= |a|)
  }

  lemma StraddleTail<T>(t: Tags<T>, a: seq<T>, b: seq<T>, n: nat)
    requires NoStraddle(t, a, b) && n <= |a|
    ensures NoStraddle(t, a[n..], b)
  {
    forall k | 0 <= k < |a[n..]|
      ensures StartsWith((a[n..] + b)[k..], t.open) ==> k + |t.open| <= |a[n..]|
      ensures StartsWith((a[n..] + b)[k..], t.close) ==> k + |t.close| <= |a[n..]|
    {
      assert (a[n..] + b)[k..] == (a + b)[n + k..];
    }
  }

  lemma PrefixOfSum<T>(a: seq<T>, b: seq<T>, tag: seq<T>)
    requires StartsWith(a + b, tag) ==> |tag| <= |a|
    ensures StartsWith(a + b, tag) <==> StartsWith(a, tag)
  {
    if |tag| <= |a| { assert (a + b)[..|tag|] == a[..|tag|]; }
  }

  /** Without a straddling tag the whole-string parser works piecewise. */
  lemma {:induction false} WholeAppend<T>(t: Tags<T>, inThink: bool, a: seq<T>, b: seq<T>)
    requires Distinct(t) && NoStraddle(t, a, b)
    ensures Whole(t, inThink, a + b) == Then(Whole(t, inThink, a), Whole(t, Whole(t, inThink, a).inThink, b))
    decreases |a|
  {
    if a == [] {
      assert a + b == b;
      ThenNothing(Whole(t, inThink, b), inThink);
    } else {
      var e := Exit(t, inThink);
      assert (a + b)[0..] == a + b;
      PrefixOfSum(a, b, e);
      if StartsWith(a, e) {
        StraddleTail(t, a, b, |e|);
        WholeAppend(t, !inThink, a[|e|..], b);
        assert (a + b)[|e|..] == a[|e|..] + b;
        assert Whole(t, inThink, a + b) == Whole(t, !inThink, a[|e|..] + b);
        assert Whole(t, inThink, a) == Whole(t, !inThink, a[|e|..]);
      } else {
        StraddleTail(t, a, b, 1);
        WholeAppend(t, inThink, a[1..], b);
        WholeStep(t, inThink, a, b);
      }
    }
  }

  lemma WholeStep<T>(t: Tags<T>, inThink: bool, a: seq<T>, b: seq<T>)
    requires Distinct(t) && a != [] && !StartsWith(a, Exit(t, inThink)) && !StartsWith(a + b, Exit(t, inThink))
    requires var head := Whole(t, inThink, a[1..]);
      Whole(t, inThink, a[1..] + b) == Then(head, Whole(t, head.inThink, b))
    ensures Whole(t, inThink, a + b) == Then(Whole(t, inThink, a), Whole(t, Whole(t, inThink, a).inThink, b))
  {
    hide Whole, StartsWith, Then;
    assert (a + b)[1..] == a[1..] + b && (a + b)[0] == a[0];
    WholeSkips(t, inThink, a);
    WholeSkips(t, inThink, a + b);
    EmitThen(inThink, a[0], Whole(t, inThink, a[1..]), Whole(t, Whole(t, inThink, a[1..]).inThink, b));
  }

  lemma WholeSkips<T>(t: Tags<T>, inThink: bool, s: seq<T>)
    requires Distinct(t) && s != [] && !StartsWith(s, Exit(t, inThink))
    ensures Whole(t, inThink, s) == Emit(inThink, s[0], Whole(t, inThink, s[1..]))
  {}

  lemma ThenNothing<T>(r: Split<T>, inThink: bool)
    ensures Then(Split([], [], inThink), r) == r
  {
    assert [] + r.content == r.content && [] + r.reasoning == r.reasoning;
  }

  lemma EmitThen<T>(inThink: bool, x: T, a: Split<T>, b: Split<T>)
    ensures Emit(inThink, x, Then(a, b)) == Then(Emit(inThink, x, a), b)
  {
    assert [x] + (a.content + b.content) == ([x] + a.content) + b.content;
    assert [x] + (a.reasoning + b.reasoning) == ([x] + a.reasoning) + b.reasoning;
  }

  ghost predicate NoneStraddles<T>(t: Tags<T>, chunks: seq<seq<T>>) {
    chunks != [] ==> NoStraddle(t, chunks[0], Flatten(chunks[1..])) && NoneStraddles(t, chunks[1..])
  }

  ghost predicate AllSafe<T>(t: Tags<T>, inThink: bool, chunks: seq<seq<T>>)
    decreases |chunks|
  {
    chunks != [] ==>
      SafeChunk(t, inThink, chunks[0]) && AllSafe(t, SplitChunk(t, inThink, chunks[0]).1, chunks[1..])
  }

  /** When no tag straddles two chunks and every chunk is safe, the splitter agrees with the whole-string parser. */
  lemma {:induction false} ChunksAreWhole<T>(t: Tags<T>, inThink: bool, chunks: seq<seq<T>>)
    requires Distinct(t) && NoneStraddles(t, chunks) && AllSafe(t, inThink, chunks)
    ensures ChunksResult(t, inThink, chunks) == Whole(t, inThink, Flatten(chunks))
    decreases |chunks|
  {
    if chunks != [] {
      var (first, mid) := SplitChunk(t, inThink, chunks[0]);
      SafeChunkIsWhole(t, inThink, chunks[0]);
      ChunksAreWhole(t, mid, chunks[1..]);
      WholeAppend(t, inThink, chunks[0], Flatten(chunks[1..]));
      RawAppend(t, first, SplitChunks(t, mid, chunks[1..]).0);
    }
  }

  /** The result then does not depend on how the text was cut into chunks. */
  lemma ChunkingDoesNotMatter<T>(t: Tags<T>, inThink: bool, a: seq<seq<T>>, b: seq<seq<T>>)
    requires Distinct(t) && Flatten(a) == Flatten(b)
    requires NoneStraddles(t, a) && AllSafe(t, inThink, a) && NoneStraddles(t, b) && AllSafe(t, inThink, b)
    ensures ChunksResult(t, inThink, a) == ChunksResult(t, inThink, b)
  {
    ChunksAreWhole(t, inThink, a);
    ChunksAreWhole(t, inThink, b);
  }

  /** The tags of the chat loop: one chunk. */
  lemma ThinkChunkIsWholeIffSafe(inThink: bool, text: string)
    ensures ChunkResult(THINK, inThink, text) == Whole(THINK, inThink, text) <==> SafeChunk(THINK, inThink, text)
  {
    ThinkTagsAreDistinct();
    ChunkIsWholeIffSafe(THINK, inThink, text);
  }

  /** The tags of the chat loop: a stream of chunks. */
  lemma ThinkChunksAreWhole(inThink: bool, chunks: seq<string>)
    requires NoneStraddles(THINK, chunks) && AllSafe(THINK, inThink, chunks)
    ensures ChunksResult(THINK, inThink, chunks) == Whole(THINK, inThink, Flatten(chunks))
  {
    ThinkTagsAreDistinct();
    ChunksAreWhole(THINK, inThink, chunks);
  }
}
