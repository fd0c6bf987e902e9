/** The string functions of Go's standard library that the modelled code calls. */
module GoStrings {

  /** White space as Go's `unicode.IsSpace` defines it. */
  predicate IsSpace(c: char) {
    || '\t' <= c <= '\r' || c == ' ' || c == '\U{85}' || c == '\U{A0}' || c == '\U{1680}'
    || '\U{2000}' <= c <= '\U{200a}' || c == '\U{2028}' || c == '\U{2029}'
    || c == '\U{202f}' || c == '\U{205f}' || c == '\U{3000}'
  }

  function TrimLeft(s: string): string {
    if s != [] && IsSpace(s[0]) then TrimLeft(s[1..]) else s
  }

  function TrimRight(s: string): string {
    if s != [] && IsSpace(s[|s| - 1]) then TrimRight(s[..|s| - 1]) else s
  }

  function TrimSpace(s: string): string {
    TrimRight(TrimLeft(s))
  }

  /** Decimal digits of a natural number. */
  function Itoa(n: nat): string {
    if n < 10 then ['0' + n as char] else Itoa(n / 10) + ['0' + (n % 10) as char]
  }

  /** The number that decimal digits stand for. */
  function NumberOf(digits: string): nat
    requires forall c <- digits :: '0' <= c <= '9'
  {
    if digits == "" then 0
    else
      var n := |digits| - 1;
      assert digits[n] in digits && forall c <- digits[..n] :: c in digits;
      10 * NumberOf(digits[..n]) + (digits[n] - '0') as nat
  }

  /** Decimal digits stand for the number, without a zero in front of others. */
  lemma {:induction false} ItoaMeans(n: nat)
    ensures var s := Itoa(n);
      (forall c <- s :: '0' <= c <= '9') && NumberOf(s) == n && s != "" && (|s| > 1 ==> s[0] != '0')
  {
    if n >= 10 {
      ItoaMeans(n / 10);
      var s := Itoa(n / 10);
      assert Itoa(n)[..|s|] == s;
    } else {
      assert NumberOf(Itoa(n)[..0]) == 0;
    }
  }

  /** `strings.Split` on a one-character separator. */
  function Split(s: string, sep: char): (parts: seq<string>)
    ensures |parts| >= 1
  {
    if s == [] then [""]
    else
      var rest := Split(s[1..], sep);
      if s[0] == sep then [""] + rest else [[s[0]] + rest[0]] + rest[1..]
  }

  /** `strings.Contains`. */
  predicate Contains(s: string, t: string) {
    HasPrefix(s, t) || (s != [] && Contains(s[1..], t))
  }

  predicate HasPrefix(s: string, t: string) {
    |t| <= |s| && s[..|t|] == t
  }

  predicate HasSuffix(s: string, t: string) {
    |t| <= |s| && s[|s| - |t|..] == t
  }

  /** `strings.ToLower` on ASCII letters. */
  function ToLower(s: string): (r: string)
    ensures |r| == |s|
    ensures forall i | 0 <= i < |s| :: 'A' <= s[i] <= 'Z' ==> r[i] as int - 'a' as int == s[i] as int - 'A' as int
    ensures forall i | 0 <= i < |s| :: !('A' <= s[i] <= 'Z') ==> r[i] == s[i]
  {
    seq(|s|, i requires 0 <= i < |s| => if 'A' <= s[i] <= 'Z' then s[i] + ('a' - 'A') else s[i])
  }

  /** `strings.ReplaceAll` for a nonempty pattern. */
  function ReplaceAll(s: string, old': string, new': string): string
    requires |old'| > 0
  {
    if s == [] then []
    else if HasPrefix(s, old') then new' + ReplaceAll(s[|old'|..], old', new')
    else [s[0]] + ReplaceAll(s[1..], old', new')
  }

  lemma PrefixAt(s: string, t: string, i: nat)
    requires i < |t| && i < |s|
    ensures HasPrefix(s, t) ==> s[i] == t[i]
  {
    if HasPrefix(s, t) { assert s[..|t|][i] == s[i]; }
  }

  /** Text without the first character of the pattern is copied. */
  lemma {:induction false} ReplaceSkips(text: string, rest: string, old': string, new': string)
    requires |old'| > 0 && old'[0] !in text
    ensures ReplaceAll(text + rest, old', new') == text + ReplaceAll(rest, old', new')
  {
    if text == [] {
      assert text + rest == rest;
    } else {
      assert (text + rest)[1..] == text[1..] + rest;
      assert (text + rest)[0] == text[0] && text[0] in text;
      PrefixAt(text + rest, old', 0);
      ReplaceSkips(text[1..], rest, old', new');
    }
  }

  lemma ReplaceHits(rest: string, old': string, new': string)
    requires |old'| > 0
    ensures ReplaceAll(old' + rest, old', new') == new' + ReplaceAll(rest, old', new')
  {
    assert (old' + rest)[|old'|..] == rest;
  }

  lemma LowerAppend(a: string, b: string)
    ensures ToLower(a + b) == ToLower(a) + ToLower(b)
  {}

  const LOWER := "abcdefghijklm" + "nopqrstuvwxyz"
  const UPPER := "ABCDEFGHIJKLM" + "NOPQRSTUVWXYZ"
  const DIGITS := "0123456789"

  lemma LowerAre(c: char)
    ensures 'a' <= c <= 'z' <==> c in LOWER
  {
    if 'a' <= c <= 'z' { assert LOWER[(c - 'a') as int] == c; }
  }

  lemma UpperAre(c: char)
    ensures 'A' <= c <= 'Z' <==> c in UPPER
  {
    if 'A' <= c <= 'Z' { assert UPPER[(c - 'A') as int] == c; }
  }

  lemma DigitsAre(c: char)
    ensures '0' <= c <= '9' <==> c in DIGITS
  {
    if '0' <= c <= '9' { assert DIGITS[(c - '0') as int] == c; }
  }

  /** Letters and digits one by one. */
  lemma LettersAre(c: char)
    ensures 'a' <= c <= 'z' <==> c in LOWER
    ensures 'A' <= c <= 'Z' <==> c in UPPER
    ensures '0' <= c <= '9' <==> c in DIGITS
  {
    LowerAre(c);
    UpperAre(c);
    DigitsAre(c);
  }

  const SPACES := "\t\n\U{0B}\U{0C}\r \U{85}\U{A0}\U{1680}\U{2000}\U{2001}\U{2002}\U{2003}\U{2004}\U{2005}"
    + "\U{2006}\U{2007}\U{2008}\U{2009}\U{200A}\U{2028}\U{2029}\U{202F}\U{205F}\U{3000}"

  /** The white-space characters one by one. */
  lemma SpacesAre(c: char)
    ensures IsSpace(c) <==> c in SPACES
  {}

  lemma {:induction false} TrimLeftAppend(s: string, c: char)
    requires IsSpace(c)
    ensures TrimLeft(s + [c]) == if TrimLeft(s) == [] then [] else TrimLeft(s) + [c]
  {
    if s == [] {
      assert s + [c] == [c] && [c][1..] == [];
    } else if IsSpace(s[0]) {
      assert (s + [c])[1..] == s[1..] + [c];
      TrimLeftAppend(s[1..], c);
    }
  }

  /** White space at the end does not matter to `TrimSpace`. */
  lemma TrimSpaceAppend(s: string, c: char)
    requires IsSpace(c)
    ensures TrimSpace(s + [c]) == TrimSpace(s)
  {
    TrimLeftAppend(s, c);
    var t := TrimLeft(s);
    assert (t + [c])[..|t|] == t;
  }

  /** White space at the front does not matter to `TrimSpace`. */
  lemma TrimSpacePrepend(c: char, s: string)
    requires IsSpace(c)
    ensures TrimSpace([c] + s) == TrimSpace(s)
  {
    assert ([c] + s)[1..] == s;
  }

  /** Text that neither starts nor ends with white space. */
  predicate Trimmed(s: string) {
    s == [] || (!IsSpace(s[0]) && !IsSpace(s[|s| - 1]))
  }

  lemma TrimmedIsFixed(s: string)
    requires Trimmed(s)
    ensures TrimSpace(s) == s
  {}

  lemma {:induction false} TrimLeftStart(s: string)
    ensures TrimLeft(s) == [] || !IsSpace(TrimLeft(s)[0])
  {
    if s != [] { TrimLeftStart(s[1..]); }
  }

  lemma {:induction false} TrimRightKeepsStart(s: string)
    requires s == [] || !IsSpace(s[0])
    ensures Trimmed(TrimRight(s))
  {
    if s != [] && IsSpace(s[|s| - 1]) { TrimRightKeepsStart(s[..|s| - 1]); }
  }

  lemma TrimSpaceTrims(s: string)
    ensures Trimmed(TrimSpace(s))
  {
    TrimLeftStart(s);
    TrimRightKeepsStart(TrimLeft(s));
  }

  /** Nothing but white space. */
  predicate Blank(s: string) {
    forall c <- s :: IsSpace(c)
  }

  lemma {:induction false} TrimLeftDrops(s: string) returns (n: nat)
    ensures n <= |s| && TrimLeft(s) == s[n..] && Blank(s[..n])
  {
    if s != [] && IsSpace(s[0]) {
      var m := TrimLeftDrops(s[1..]);
      n := m + 1;
      assert s[n..] == s[1..][m..] && s[..n] == [s[0]] + s[1..][..m];
    } else {
      n := 0;
    }
  }

  lemma {:induction false} TrimRightDrops(s: string) returns (n: nat)
    ensures n <= |s| && TrimRight(s) == s[..n] && Blank(s[n..])
  {
    if s != [] && IsSpace(s[|s| - 1]) {
      n := TrimRightDrops(s[..|s| - 1]);
      assert s[n..] == s[..|s| - 1][n..] + [s[|s| - 1]];
    } else {
      n := |s|;
    }
  }

  /** `TrimSpace` takes away white space at both ends, all of it and nothing else. */
  lemma TrimSpaceIsMiddle(s: string) returns (left: string, right: string)
    ensures s == left + TrimSpace(s) + right && Blank(left) && Blank(right) && Trimmed(TrimSpace(s))
  {
    var i := TrimLeftDrops(s);
    var t := TrimLeft(s);
    var j := TrimRightDrops(t);
    left, right := s[..i], t[j..];
    TrimSpaceTrims(s);
    Split3(s, i, t, j);
  }

  lemma Split3(s: string, i: nat, t: string, j: nat)
    requires i <= |s| && t == s[i..] && j <= |t|
    ensures s == s[..i] + t[..j] + t[j..]
  {}

  lemma {:induction false} TrimLeftSkips(left: string, rest: string)
    requires Blank(left)
    ensures TrimLeft(left + rest) == TrimLeft(rest)
  {
    if left == [] {
      assert left + rest == rest;
    } else {
      assert left[0] in left && (left + rest)[1..] == left[1..] + rest;
      TrimLeftSkips(left[1..], rest);
    }
  }

  lemma {:induction false} TrimSpaceDrops(s: string, right: string)
    requires Blank(right)
    ensures TrimSpace(s + right) == TrimSpace(s)
    decreases |right|
  {
    if right == [] {
      assert s + right == s;
    } else {
      var n := |right| - 1;
      assert right[n] in right && s + right == (s + right[..n]) + [right[n]];
      TrimSpaceAppend(s + right[..n], right[n]);
      TrimSpaceDrops(s, right[..n]);
    }
  }

  /** A trimmed text between white space is what `TrimSpace` leaves. */
  lemma TrimIsMiddle(left: string, middle: string, right: string)
    requires Blank(left) && Blank(right) && Trimmed(middle)
    ensures TrimSpace(left + middle + right) == middle
  {
    TrimSpaceDrops(left + middle, right);
    TrimLeftSkips(left, middle);
    TrimmedIsFixed(middle);
  }

  lemma TrimsToNothingIffBlank(s: string)
    ensures TrimSpace(s) == "" <==> Blank(s)
  {
    var left, right := TrimSpaceIsMiddle(s);
    var t := TrimSpace(s);
    if t != "" { assert t[0] in s && !IsSpace(t[0]); }
  }

  /** `t` stands somewhere in `s`. */
  ghost predicate Embeds(s: string, t: string) {
    exists p, q :: s == p + t + q
  }

  lemma {:induction false} ContainsIffEmbeds(s: string, t: string)
    ensures Contains(s, t) <==> Embeds(s, t)
  {
    hide Embeds;
    if HasPrefix(s, t) {
      PrefixEmbeds(s, t);
    } else if s != [] {
      ContainsIffEmbeds(s[1..], t);
      TailEmbeds(s, t);
    } else {
      NothingEmbeds(t);
    }
  }

  lemma PrefixEmbeds(s: string, t: string)
    requires HasPrefix(s, t)
    ensures Embeds(s, t)
  {
    assert s == [] + t + s[|t|..];
  }

  lemma NothingEmbeds(t: string)
    ensures Embeds([], t) ==> HasPrefix([], t)
  {}

  /** A text that does not start with `t` has it exactly when its tail does. */
  lemma TailEmbeds(s: string, t: string)
    requires s != [] && !HasPrefix(s, t)
    ensures Embeds(s, t) <==> Embeds(s[1..], t)
  {
    if Embeds(s[1..], t) {
      var p, q :| s[1..] == p + t + q;
      assert s == ([s[0]] + p) + t + q;
    }
    if Embeds(s, t) {
      var p, q :| s == p + t + q;
      NotAtFront(p, t, q);
      assert s[1..] == p[1..] + t + q;
    }
  }

  /** A lower-case text is still there when everything is lower-cased. */
  lemma LowerEmbeds(s: string, t: string)
    requires Embeds(s, t) && ToLower(t) == t
    ensures Embeds(ToLower(s), t)
  {
    var p, q :| s == p + t + q;
    LowerAppend(p + t, q);
    LowerAppend(p, t);
    assert ToLower(s) == ToLower(p) + t + ToLower(q);
  }

  lemma NotAtFront(p: string, t: string, q: string)
    requires !HasPrefix(p + t + q, t)
    ensures p != []
  {
    assert [] + t + q == t + q;
  }

  lemma {:induction false} SplitLine(line: string, rest: string, sep: char)
    requires sep !in line
    ensures Split(line + ([sep] + rest), sep) == [line] + Split(rest, sep)
    decreases |line|
  {
    var s := line + ([sep] + rest);
    if line == [] {
      assert s == [sep] + rest && s[1..] == rest;
    } else {
      SplitLine(line[1..], rest, sep);
      assert s[1..] == line[1..] + ([sep] + rest);
      assert [line[0]] + line[1..] == line;
    }
  }

  lemma {:induction false} SplitOne(s: string, sep: char)
    requires sep !in s
    ensures Split(s, sep) == [s]
  {
    if s != [] {
      assert s[0] in s;
      SplitOne(s[1..], sep);
      assert [s[0]] + s[1..] == s;
    }
  }

  /** The parts put together again with the separator are the text. */
  lemma {:induction false} SplitJoins(s: string, sep: char)
    ensures Join(Split(s, sep), [sep]) == s
    decreases |s|
  {
    if s != [] {
      SplitJoins(s[1..], sep);
      var rest := Split(s[1..], sep);
      assert s == [s[0]] + s[1..];
      if s[0] == sep {
        assert ([""] + rest)[1..] == rest;
        assert "" + [sep] + s[1..] == s;
      } else if |rest| > 1 {
        assert ([[s[0]] + rest[0]] + rest[1..])[1..] == rest[1..];
        assert [s[0]] + rest[0] + [sep] + Join(rest[1..], [sep]) == [s[0]] + (rest[0] + [sep] + Join(rest[1..], [sep]));
      }
    }
  }

  lemma {:induction false} SplitHasNoSeparator(s: string, sep: char)
    ensures forall part <- Split(s, sep) :: sep !in part
    decreases |s|
  {
    if s != [] {
      SplitHasNoSeparator(s[1..], sep);
      var rest := Split(s[1..], sep);
      assert rest[0] in rest;
      forall part <- Split(s, sep) ensures sep !in part {
        if s[0] == sep {
          assert part == "" || part in rest;
        } else {
          assert part == [s[0]] + rest[0] || part in rest[1..];
        }
      }
    }
  }

  /** `strings.Join`. */
  function Join(parts: seq<string>, sep: string): string {
    if parts == [] then [] else if |parts| == 1 then parts[0] else parts[0] + sep + Join(parts[1..], sep)
  }

  function WordEnd(s: string, i: nat): (j: nat)
    requires i <= |s|
    ensures i <= j <= |s| && (j < |s| ==> IsSpace(s[j])) && forall k | i <= k < j :: !IsSpace(s[k])
    decreases |s| - i
  {
    if i < |s| && !IsSpace(s[i]) then WordEnd(s, i + 1) else i
  }

  lemma {:induction false} TrimLeftLength(s: string)
    ensures |TrimLeft(s)| <= |s|
  {
    if s != [] && IsSpace(s[0]) { TrimLeftLength(s[1..]); }
  }

  /** `strings.Fields`. */
  function Fields(s: string): seq<string>
    decreases |s|
  {
    var t := TrimLeft(s);
    TrimLeftLength(s);
    TrimLeftStart(s);
    if t == [] then [] else [t[..WordEnd(t, 0)]] + Fields(t[WordEnd(t, 0)..])
  }

  predicate IsWord(w: string) {
    w != [] && forall i | 0 <= i < |w| :: !IsSpace(w[i])
  }

  lemma {:induction false} FieldsAreWords(s: string)
    ensures forall w <- Fields(s) :: IsWord(w)
    decreases |s|
  {
    var t := TrimLeft(s);
    TrimLeftLength(s);
    TrimLeftStart(s);
    if t != [] { FieldsAreWords(t[WordEnd(t, 0)..]); }
  }

  lemma {:induction false} WordEndIs(s: string, i: nat, j: nat)
    requires i <= j <= |s| && (forall k | i <= k < j :: !IsSpace(s[k])) && (j < |s| ==> IsSpace(s[j]))
    ensures WordEnd(s, i) == j
    decreases j - i
  {
    if i < j { WordEndIs(s, i + 1, j); }
  }

  lemma FieldsFirst(w: string, rest: string)
    requires IsWord(w) && (rest == [] || IsSpace(rest[0]))
    ensures Fields(w + rest) == [w] + Fields(rest)
  {
    var s := w + rest;
    assert s[0] == w[0];
    assert TrimLeft(s) == s;
    forall k | 0 <= k < |w| ensures !IsSpace(s[k]) { assert s[k] == w[k]; }
    if rest != [] { assert s[|w|] == rest[0]; }
    WordEndIs(s, 0, |w|);
    assert s[..|w|] == w && s[|w|..] == rest;
  }

  lemma FieldsSkip(c: char, s: string)
    requires IsSpace(c)
    ensures Fields([c] + s) == Fields(s)
  {
    assert ([c] + s)[1..] == s;
  }

  lemma {:induction false} FieldsOfJoin(ws: seq<string>)
    requires forall w <- ws :: IsWord(w)
    ensures Fields(Join(ws, " ")) == ws
    decreases |ws|
  {
    if |ws| == 1 {
      assert ws[0] in ws;
      FieldsFirst(ws[0], []);
      assert ws[0] + [] == ws[0];
      assert Fields([]) == [];
    } else if |ws| > 1 {
      assert ws[0] in ws;
      forall w <- ws[1..] ensures IsWord(w) { assert w in ws; }
      FieldsOfJoin(ws[1..]);
      FieldsThen(ws[0], Join(ws[1..], " "));
      assert [ws[0]] + ws[1..] == ws;
    }
  }

  lemma FieldsThen(w: string, rest: string)
    requires IsWord(w)
    ensures Fields(w + " " + rest) == [w] + Fields(rest)
  {
    BlankIsSpace();
    FieldsFirst(w, [' '] + rest);
    FieldsSkip(' ', rest);
    assert w + " " + rest == w + ([' '] + rest);
  }

  lemma BlankIsSpace()
    ensures IsSpace(' ')
  {}

  lemma {:induction false} JoinIsTrimmed(ws: seq<string>)
    requires ws != [] && forall w <- ws :: IsWord(w)
    ensures var s := Join(ws, " "); s != [] && ws[0] != [] && s[0] == ws[0][0] && Trimmed(s)
    decreases |ws|
  {
    assert ws[0] in ws;
    if |ws| > 1 {
      forall w <- ws[1..] ensures IsWord(w) { assert w in ws; }
      JoinIsTrimmed(ws[1..]);
      var rest := Join(ws[1..], " ");
      var s := ws[0] + " " + rest;
      assert s[|s| - 1] == rest[|rest| - 1];
    }
  }

  lemma {:induction false} JoinAppend(a: seq<string>, b: seq<string>, sep: string)
    requires a != [] && b != []
    ensures Join(a + b, sep) == Join(a, sep) + sep + Join(b, sep)
    decreases |a|
  {
    if |a| == 1 {
      assert (a + b)[1..] == b;
    } else {
      assert (a + b)[1..] == a[1..] + b;
      JoinAppend(a[1..], b, sep);
      assert a[0] + sep + (Join(a[1..], sep) + sep + Join(b, sep)) ==
        (a[0] + sep + Join(a[1..], sep)) + sep + Join(b, sep);
    }
  }
}
