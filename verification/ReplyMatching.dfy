/** What a chat provider demands of a history: every tool call is answered, in order and at once. */
module ReplyMatching {
  datatype Shape<I> = Calls(ids: seq<I>) | Reply(id: I) | Plain

  function Replies<I>(ids: seq<I>): (r: seq<Shape<I>>)
    ensures |r| == |ids| && forall k | 0 <= k < |ids| :: r[k] == Reply(ids[k])
  {
    seq(|ids|, k requires 0 <= k < |ids| => Reply(ids[k]))
  }

  ghost predicate AnsweredAt<I>(s: seq<Shape<I>>, i: nat, ids: seq<I>) {
    i + |ids| <= |s| && s[i..i + |ids|] == Replies(ids)
  }

  ghost predicate Covers<I>(s: seq<Shape<I>>, i: int, j: int) {
    0 <= i < j < |s| && s[i].Calls? && j <= i + |s[i].ids|
  }

  /** Every message with tool calls is followed by their replies in order, and there is no other reply. */
  ghost predicate WellFormed<I>(s: seq<Shape<I>>) {
    && (forall i | 0 <= i < |s| && s[i].Calls? :: AnsweredAt(s, i + 1, s[i].ids))
    && (forall j | 0 <= j < |s| && s[j].Reply? :: exists i :: Covers(s, i, j))
  }

  /** The same, read from the left with the list of replies still due. */
  predicate Matched<I(==)>(due: seq<I>, s: seq<Shape<I>>)
    decreases |s|
  {
    if s == [] then due == []
    else match s[0]
      case Reply(id) => due != [] && due[0] == id && Matched(due[1..], s[1..])
      case Calls(ids) => due == [] && Matched(ids, s[1..])
      case Plain => due == [] && Matched([], s[1..])
  }

  lemma {:induction false} DueFirst<I>(due: seq<I>, s: seq<Shape<I>>)
    ensures Matched(due, s) <==> AnsweredAt(s, 0, due) && Matched([], s[|due|..])
    decreases |s|
  {
    if due == [] {
      assert s[0..] == s && s[0..0] == Replies(due);
    } else if s != [] && s[0] == Reply(due[0]) {
      DueFirst(due[1..], s[1..]);
      if |due| <= |s| {
        assert s[1..][|due| - 1..] == s[|due|..];
        assert s[0..|due|] == [s[0]] + s[1..][0..|due| - 1];
        assert Replies(due) == [Reply(due[0])] + Replies(due[1..]);
        assert s[0..|due|][1..] == s[1..][0..|due| - 1] && Replies(due)[1..] == Replies(due[1..]);
      }
    } else if |due| <= |s| {
      assert s[0..|due|][0] == s[0] && Replies(due)[0] == Reply(due[0]);
    }
  }

  lemma AnsweredMeans<I>(s: seq<Shape<I>>, i: nat, ids: seq<I>)
    requires AnsweredAt(s, i, ids)
    ensures forall k | i <= k < i + |ids| :: s[k] == Reply(ids[k - i])
  {
    assert forall k | i <= k < i + |ids| :: s[i..i + |ids|][k - i] == s[k];
  }

  lemma AnsweredShift<I>(s: seq<Shape<I>>, n: nat, i: nat, ids: seq<I>)
    requires n <= |s|
    ensures AnsweredAt(s, n + i, ids) == AnsweredAt(s[n..], i, ids)
  {
    if n + i + |ids| <= |s| { assert s[n..][i..i + |ids|] == s[n + i..n + i + |ids|]; }
  }

  /** A well-formed history stays so without a first block. */
  lemma WellFormedDrop<I>(s: seq<Shape<I>>, n: nat)
    requires WellFormed(s) && n <= |s| && (n < |s| ==> !s[n].Reply?)
    ensures WellFormed(s[n..])
  {
    var t := s[n..];
    forall i | 0 <= i < |t| && t[i].Calls?
      ensures AnsweredAt(t, i + 1, t[i].ids)
    {
      AnsweredShift(s, n, i + 1, t[i].ids);
    }
    forall j | 0 <= j < |t| && t[j].Reply? ensures exists i :: Covers(t, i, j) {
      var i :| Covers(s, i, n + j);
      if i < n {
        AnsweredMeans(s, i + 1, s[i].ids);
        assert false;
      }
      assert Covers(t, i - n, j);
    }
  }

  /** Prepending one answered block. */
  lemma WellFormedCons<I>(s: seq<Shape<I>>, n: nat)
    requires 0 < n <= |s| && WellFormed(s[n..])
    requires (s[0] == Plain && n == 1) || (s[0].Calls? && n == 1 + |s[0].ids| && AnsweredAt(s, 1, s[0].ids))
    ensures WellFormed(s)
  {
    var t := s[n..];
    if s[0].Calls? { assert forall k | 1 <= k < n :: s[k] == s[1..n][k - 1]; }
    forall i | 0 <= i < |s| && s[i].Calls? ensures AnsweredAt(s, i + 1, s[i].ids) {
      if i >= n {
        assert t[i - n].Calls?;
        AnsweredShift(s, n, i - n + 1, s[i].ids);
      }
    }
    forall j | 0 <= j < |s| && s[j].Reply? ensures exists i :: Covers(s, i, j) {
      if j < n {
        assert Covers(s, 0, j);
      } else {
        assert t[j - n].Reply?;
        var i :| Covers(t, i, j - n);
        assert Covers(s, i + n, j);
      }
    }
  }

  /** The reading from the left accepts exactly the well-formed histories. */
  lemma {:induction false} MatchedIsWellFormed<I>(s: seq<Shape<I>>)
    ensures Matched([], s) <==> WellFormed(s)
    decreases |s|
  {
    if s != [] {
      var n := if s[0].Calls? then 1 + |s[0].ids| else 1;
      if s[0].Reply? {
        assert forall i :: !Covers(s, i, 0);
      } else if n <= |s| {
        MatchedIsWellFormed(s[n..]);
        BlockFirst(s);
        if WellFormed(s) {
          if s[0].Calls? { assert AnsweredAt(s, 1, s[0].ids); }
          BlockEnds(s, n);
          WellFormedDrop(s, n);
        }
        if Matched([], s) { WellFormedCons(s, n); }
      } else {
        DueFirst(s[0].ids, s[1..]);
      }
    }
  }

  lemma BlockFirst<I>(s: seq<Shape<I>>)
    requires s != [] && !s[0].Reply? && (s[0].Calls? ==> |s[0].ids| < |s|)
    ensures s[0] == Plain ==> Matched([], s) == Matched([], s[1..])
    ensures s[0].Calls? ==> Matched([], s) == (AnsweredAt(s, 1, s[0].ids) && Matched([], s[1 + |s[0].ids|..]))
  {
    if s[0].Calls? {
      var n := |s[0].ids|;
      DueFirst(s[0].ids, s[1..]);
      AnsweredShift(s, 1, 0, s[0].ids);
      assert s[1..][n..] == s[1 + n..];
    }
  }

  lemma BlockEnds<I>(s: seq<Shape<I>>, n: nat)
    requires WellFormed(s) && 0 < n <= |s|
    requires (s[0] == Plain && n == 1) || (s[0].Calls? && n == 1 + |s[0].ids|)
    ensures n < |s| ==> !s[n].Reply?
  {
    if s[0].Calls? { AnsweredMeans(s, 1, s[0].ids); }
  }

  lemma {:induction false} MatchedAppend<I>(due: seq<I>, a: seq<Shape<I>>, b: seq<Shape<I>>)
    requires Matched(due, a) && Matched([], b)
    ensures Matched(due, a + b)
    decreases |a|
  {
    if a == [] {
      assert a + b == b;
    } else {
      assert (a + b)[1..] == a[1..] + b;
      MatchedAppend(match a[0] case Reply(_) => due[1..] case Calls(ids) => ids case Plain => [], a[1..], b);
    }
  }

  /** A suffix that does not start with a reply. */
  lemma {:induction false} MatchedSuffix<I>(due: seq<I>, a: seq<Shape<I>>, b: seq<Shape<I>>)
    requires Matched(due, a + b) && (b == [] || b[0] == Plain)
    ensures Matched([], b)
    decreases |a|
  {
    if a == [] {
      assert a + b == b;
    } else {
      assert (a + b)[1..] == a[1..] + b;
      MatchedSuffix(match a[0] case Reply(_) => due[1..] case Calls(ids) => ids case Plain => [], a[1..], b);
    }
  }

  /** Calls that have all been answered complete a history. */
  lemma RoundIsMatched<I>(s: seq<Shape<I>>, ids: seq<I>)
    requires Matched([], s)
    ensures Matched([], s + [Calls(ids)] + Replies(ids))
  {
    var round := [Calls(ids)] + Replies(ids);
    DueFirst(ids, Replies(ids));
    assert round[1..] == Replies(ids) && Replies(ids)[|ids|..] == [] && Replies(ids)[0..|ids|] == Replies(ids);
    MatchedAppend([], s, round);
    assert s + [Calls(ids)] + Replies(ids) == s + round;
  }
}
