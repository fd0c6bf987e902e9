/** `interpolateEnv`: variable interpolation in Compose files. */
module Interpolation {
  import opened GoStrings
  import opened Options

  type Vars = map<string, string>

  /** The operator between a variable name and its operand; `Plain` is a bare `${NAME}`. */
  datatype Operator = Plain | DefaultIfEmpty | DefaultIfUnset | FallbackIfEmpty | FallbackIfUnset |
      AltIfSetNonEmpty | AltIfSet

  datatype Match = NoMatch | Match(length: nat, name: string, op: Operator, operand: string)

  predicate IsNameStart(c: char) {
    'a' <= c <= 'z' || 'A' <= c <= 'Z' || c == '_'
  }

  predicate IsNameChar(c: char) {
    IsNameStart(c) || '0' <= c <= '9'
  }

  function NameEnd(s: string, i: nat): (j: nat)
    requires i <= |s|
    ensures i <= j <= |s|
    decreases |s| - i
  {
    if i < |s| && IsNameChar(s[i]) then NameEnd(s, i + 1) else i
  }

  /** The index of the first closing brace at or after `i`, or the end. */
  function BraceEnd(s: string, i: nat): (j: nat)
    requires i <= |s|
    ensures i <= j <= |s|
    decreases |s| - i
  {
    if i < |s| && s[i] != '}' then BraceEnd(s, i + 1) else i
  }

  /** The operator at the front of `s` and its length. */
  function OperatorAt(s: string): (Operator, nat) {
    if |s| >= 2 && s[0] == ':' && s[1] == '-' then (DefaultIfEmpty, 2)
    else if |s| >= 2 && s[0] == ':' && s[1] == '?' then (FallbackIfEmpty, 2)
    else if |s| >= 2 && s[0] == ':' && s[1] == '+' then (AltIfSetNonEmpty, 2)
    else if |s| >= 1 && s[0] == '-' then (DefaultIfUnset, 1)
    else if |s| >= 1 && s[0] == '?' then (FallbackIfUnset, 1)
    else if |s| >= 1 && s[0] == '+' then (AltIfSet, 1)
    else (Plain, 0)
  }

  /** The rest of a braced expression once its name `s[2..j]` and its operator are read. */
  function OperandAt(s: string, j: nat, op: Operator, n: nat): (m: Match)
    requires 2 <= j <= |s|
    ensures m.Match? ==> 0 < m.length <= |s|
  {
    if j + n > |s| then NoMatch
    else
      var k := BraceEnd(s, j + n);
      if k == |s| || (op == Plain && k != j + n) then NoMatch else Match(k + 1, s[2..j], op, s[j + n..k])
  }

  /** The braced expression at the front of `s`. */
  function BracedAt(s: string): (m: Match)
    ensures m.Match? ==> 0 < m.length <= |s|
  {
    if |s| < 3 || s[0] != '$' || s[1] != '{' || !IsNameStart(s[2]) then NoMatch
    else
      var j := NameEnd(s, 2);
      var (op, n) := OperatorAt(s[j..]);
      OperandAt(s, j, op, n)
  }

  /** The replacement of one expression, for all operators. */
  function Expand(vars: Vars, name: string, op: Operator, operand: string): string {
    var has := name in vars;
    var val := if has then vars[name] else "";
    match op
    case DefaultIfEmpty => if has && val != "" then val else operand
    case DefaultIfUnset => if has then val else operand
    case FallbackIfEmpty => if has && val != "" then val else if operand != "" then operand else ""
    case FallbackIfUnset => if has then val else if operand != "" then operand else ""
    case AltIfSetNonEmpty => if has && val != "" then operand else ""
    case AltIfSet => if has then operand else ""
    case Plain => if has then val else ""
  }

  /** The pass over braced expressions. */
  function ExpandBraced(vars: Vars, s: string): string {
    if s == [] then []
    else
      var m := BracedAt(s);
      if m.Match? then Expand(vars, m.name, m.op, m.operand) + ExpandBraced(vars, s[m.length..])
      else [s[0]] + ExpandBraced(vars, s[1..])
  }

  /** The pass over `$NAME` without braces. */
  function ExpandBare(vars: Vars, s: string): string {
    if s == [] then []
    else if |s| >= 2 && s[0] == '$' && IsNameStart(s[1]) then
      var j := NameEnd(s, 2);
      (if s[1..j] in vars then vars[s[1..j]] else "") + ExpandBare(vars, s[j..])
    else [s[0]] + ExpandBare(vars, s[1..])
  }

  /** Three rewriting passes between hiding and restoring escaped dollars. */
  function InterpolateWith(mark: string, vars: Vars, content: string): string
    requires |mark| > 0
  {
    ReplaceAll(ExpandBare(vars, ExpandBraced(vars, ReplaceAll(content, "$$", mark))), mark, "$")
  }

  const MARK := "\U{0}ESCAPED_DOLLAR\U{0}"

  /** The variables of the process, overridden by those of the request. */
  function InterpolateEnv(content: string, osVars: Vars, envVars: Vars): string {
    InterpolateWith(MARK, osVars + envVars, content)
  }

  // ---------- The one-pass meaning ----------

  /** `Bare` is a reference without braces. */
  datatype Token = Literal(text: string) | EscapedDollar | Bare(name: string) |
      Reference(name: string, op: Operator, operand: string)

  function OperatorText(op: Operator): string {
    match op
    case Plain => ""
    case DefaultIfEmpty => ":-"
    case DefaultIfUnset => "-"
    case FallbackIfEmpty => ":?"
    case FallbackIfUnset => "?"
    case AltIfSetNonEmpty => ":+"
    case AltIfSet => "+"
  }

  function Body(t: Token): string
    requires t.Reference?
  {
    t.name + (OperatorText(t.op) + (t.operand + "}"))
  }

  function Written(t: Token): string {
    match t
    case Literal(text) => text
    case EscapedDollar => "$$"
    case Bare(name) => "$" + name
    case Reference(_, _, _) => "${" + Body(t)
  }

  function Meaning(vars: Vars, t: Token): string {
    match t
    case Literal(text) => text
    case EscapedDollar => "$"
    case Bare(name) => ValueOf(vars, name)
    case Reference(name, op, operand) => Expand(vars, name, op, operand)
  }

  function ValueOf(vars: Vars, name: string): string {
    if name in vars then vars[name] else ""
  }

  function Source(ts: seq<Token>): string {
    if ts == [] then [] else Written(ts[0]) + Source(ts[1..])
  }

  function OnePass(vars: Vars, ts: seq<Token>): string {
    if ts == [] then [] else Meaning(vars, ts[0]) + OnePass(vars, ts[1..])
  }

  predicate Clean(s: string) {
    '$' !in s && '\U{0}' !in s
  }

  /** A dollar sign that, with what follows it in the text, starts no escape and no reference. */
  predicate IsStray(text: string, i: nat) {
    && i + 1 < |text| && text[i + 1] != '$' && !IsNameStart(text[i + 1])
    && (text[i + 1] == '{' ==> i + 2 < |text| && !IsNameStart(text[i + 2]))
  }

  /** Text without a token in it. */
  predicate Loose(text: string) {
    '\U{0}' !in text && forall i | 0 <= i < |text| && text[i] == '$' :: IsStray(text, i)
  }

  predicate IsName(s: string) {
    s != [] && IsNameStart(s[0]) && forall c | c in s :: IsNameChar(c)
  }

  /** Operands and the values of referenced variables are free of `$` and NUL, literals of NUL and of other tokens. */
  predicate WellFormed(vars: Vars, t: Token) {
    match t
    case Literal(text) => Loose(text)
    case EscapedDollar => true
    case Bare(name) => IsName(name) && Clean(ValueOf(vars, name))
    case Reference(name, op, operand) =>
      && IsName(name) && Clean(operand) && '}' !in operand && (op == Plain ==> operand == "")
      && (name in vars ==> Clean(vars[name]))
  }

  /** Once the braces are expanded, no character of a name is in front. */
  predicate StartsApart(vars: Vars, ts: seq<Token>) {
    ts == [] || ts[0].EscapedDollar? || ts[0].Bare?
    || if Meaning(vars, ts[0]) == "" then StartsApart(vars, ts[1..]) else !IsNameChar(Meaning(vars, ts[0])[0])
  }

  /** The name of a reference without braces ends where its token does. */
  predicate Separated(vars: Vars, ts: seq<Token>) {
    ts == [] || ((ts[0].Bare? ==> StartsApart(vars, ts[1..])) && Separated(vars, ts[1..]))
  }

  /** The characters of a name one by one. */
  lemma NameCharactersAre(c: char)
    ensures IsNameStart(c) <==> c in LOWER || c in UPPER || c == '_'
    ensures IsNameChar(c) <==> c in LOWER || c in UPPER || c == '_' || c in DIGITS
  {
    hide LOWER, UPPER, DIGITS;
    LettersAre(c);
  }

  // ---------- The meaning in the Compose Specification ----------

  /** Text, or the first variable that is required and missing. */
  datatype Interpolated = Text(text: string) | Required(name: string)

  /** The value of a variable that is set. */
  function Lookup(vars: Vars, name: string): Option<string> {
    if name in vars then Some(vars[name]) else None
  }

  /** A reference after the section Interpolation of the Compose Specification. */
  function Substituted(value: Option<string>, name: string, op: Operator, operand: string): Interpolated {
    match op
    case Plain => Text(if value.Some? then value.value else "")
    case DefaultIfUnset => Text(if value.Some? then value.value else operand)
    case DefaultIfEmpty => Text(if value.Some? && value.value != "" then value.value else operand)
    case FallbackIfUnset => if value.Some? then Text(value.value) else Required(name)
    case FallbackIfEmpty => if value.Some? && value.value != "" then Text(value.value) else Required(name)
    case AltIfSet => Text(if value.Some? then operand else "")
    case AltIfSetNonEmpty => Text(if value.Some? && value.value != "" then operand else "")
  }

  function SpecifiedToken(vars: Vars, t: Token): Interpolated {
    match t
    case Literal(text) => Text(text)
    case EscapedDollar => Text("$")
    case Bare(name) => Substituted(Lookup(vars, name), name, Plain, "")
    case Reference(name, op, operand) => Substituted(Lookup(vars, name), name, op, operand)
  }

  /** The whole template, or the error for its first required variable that is missing. */
  function Specified(vars: Vars, ts: seq<Token>): Interpolated {
    if ts == [] then Text("")
    else
      match SpecifiedToken(vars, ts[0])
      case Required(name) => Required(name)
      case Text(first) =>
        match Specified(vars, ts[1..])
        case Required(name) => Required(name)
        case Text(rest) => Text(first + rest)
  }

  /** The variable is required by its operator and missing: unset, or with a colon also empty. */
  predicate MissesVariable(vars: Vars, t: Token) {
    && t.Reference?
    && (t.op == FallbackIfUnset || t.op == FallbackIfEmpty)
    && (t.name !in vars || (t.op == FallbackIfEmpty && vars[t.name] == ""))
  }

  lemma TokenAsSpecified(vars: Vars, t: Token)
    ensures SpecifiedToken(vars, t) == if MissesVariable(vars, t) then Required(t.name) else Text(Meaning(vars, t))
  {}

  lemma {:induction false} PassAsSpecified(vars: Vars, ts: seq<Token>)
    ensures Specified(vars, ts).Required? <==> exists t <- ts :: MissesVariable(vars, t)
    ensures Specified(vars, ts).Text? ==> Specified(vars, ts) == Text(OnePass(vars, ts))
  {
    if ts != [] {
      TokenAsSpecified(vars, ts[0]);
      PassAsSpecified(vars, ts[1..]);
      assert ts == [ts[0]] + ts[1..];
    }
  }

  // ---------- The passes, token by token ----------

  /** The text after the escaped dollars are hidden. */
  function Hidden(mark: string, ts: seq<Token>): string {
    if ts == [] then [] else (if ts[0].EscapedDollar? then mark else Written(ts[0])) + Hidden(mark, ts[1..])
  }

  /** The text after the braced expressions are expanded. */
  function Expanded(mark: string, vars: Vars, ts: seq<Token>): string {
    if ts == [] then []
    else HalfExpanded(mark, vars, ts[0]) + Expanded(mark, vars, ts[1..])
  }

  function HalfExpanded(mark: string, vars: Vars, t: Token): string {
    match t
    case Literal(text) => text
    case EscapedDollar => mark
    case Bare(name) => "$" + name
    case Reference(_, _, _) => Meaning(vars, t)
  }

  /** The text after the references without braces are expanded, too. */
  function Finished(mark: string, vars: Vars, ts: seq<Token>): string {
    if ts == [] then []
    else (if ts[0].EscapedDollar? then mark else Meaning(vars, ts[0])) + Finished(mark, vars, ts[1..])
  }

  lemma NameIsClean(name: string)
    requires IsName(name)
    ensures '$' !in name && '}' !in name
  {}

  lemma BodyHasNoDollar(t: Token)
    requires t.Reference? && IsName(t.name) && Clean(t.operand)
    ensures '$' !in Body(t)
  {
    NameIsClean(t.name);
  }

  lemma {:induction false} HidingEscapes(mark: string, vars: Vars, ts: seq<Token>)
    requires forall t <- ts :: WellFormed(vars, t)
    ensures ReplaceAll(Source(ts), "$$", mark) == Hidden(mark, ts)
  {
    if ts != [] {
      var t, rest := ts[0], Source(ts[1..]);
      assert t in ts && WellFormed(vars, t);
      HidingEscapes(mark, vars, ts[1..]);
      match t
      case Literal(text) => LooseIsNotHidden(mark, text, rest);
      case EscapedDollar => ReplaceHits(rest, "$$", mark);
      case Bare(name) =>
        NameIsClean(name);
        HideDollar(mark, name, rest);
        assert "$" + name == ['$'] + name;
      case Reference(_, _, _) => HideReference(mark, t, rest);
    }
  }

  lemma LooseTail(text: string, rest: string)
    requires Loose(text) && text != []
    ensures Loose(text[1..]) && (text + rest)[1..] == text[1..] + rest && (text + rest)[0] == text[0]
    ensures text[0] == '$' ==>
      && |text| > 1 && (text + rest)[1] == text[1] && text[1] != '$' && !IsNameStart(text[1])
      && (text[1] == '{' ==> |text| > 2 && (text + rest)[2] == text[2] && !IsNameStart(text[2]))
  {
    var tail := text[1..];
    assert forall c <- tail :: c in text;
    if text[0] == '$' { assert IsStray(text, 0); }
    forall i | 0 <= i < |tail| && tail[i] == '$' ensures IsStray(tail, i) { assert IsStray(text, i + 1); }
  }

  lemma {:induction false} LooseIsNotHidden(mark: string, text: string, rest: string)
    requires Loose(text)
    ensures ReplaceAll(text + rest, "$$", mark) == text + ReplaceAll(rest, "$$", mark)
    decreases |text|
  {
    if text == [] {
      assert text + rest == rest;
    } else {
      LooseTail(text, rest);
      LooseIsNotHidden(mark, text[1..], rest);
      PrefixAt(text + rest, "$$", 0);
      if text[0] == '$' { PrefixAt(text + rest, "$$", 1); }
    }
  }

  lemma {:induction false} LooseIsNotBraced(vars: Vars, text: string, rest: string)
    requires Loose(text)
    ensures ExpandBraced(vars, text + rest) == text + ExpandBraced(vars, rest)
    decreases |text|
  {
    hide ExpandBraced;
    if text == [] {
      assert text + rest == rest;
    } else {
      LooseTail(text, rest);
      NotBraced(vars, text + rest);
      LooseIsNotBraced(vars, text[1..], rest);
      assert [text[0]] + (text[1..] + ExpandBraced(vars, rest)) == text + ExpandBraced(vars, rest);
    }
  }

  lemma {:induction false} LooseIsNotBare(vars: Vars, text: string, rest: string)
    requires Loose(text)
    ensures ExpandBare(vars, text + rest) == text + ExpandBare(vars, rest)
    decreases |text|
  {
    if text == [] {
      assert text + rest == rest;
    } else {
      LooseTail(text, rest);
      LooseIsNotBare(vars, text[1..], rest);
    }
  }

  lemma HideReference(mark: string, t: Token, rest: string)
    requires t.Reference? && IsName(t.name) && Clean(t.operand)
    ensures ReplaceAll(Written(t) + rest, "$$", mark) == Written(t) + ReplaceAll(rest, "$$", mark)
  {
    var tail := "{" + Body(t);
    BodyHasNoDollar(t);
    assert '$' !in tail;
    assert Written(t) == ['$'] + tail;
    HideDollar(mark, tail, rest);
  }

  lemma HideDollar(mark: string, tail: string, rest: string)
    requires tail != [] && '$' !in tail
    ensures ReplaceAll((['$'] + tail) + rest, "$$", mark) == (['$'] + tail) + ReplaceAll(rest, "$$", mark)
  {
    var s := (['$'] + tail) + rest;
    assert s[1..] == tail + rest;
    assert s[1] == tail[0] && tail[0] in tail;
    PrefixAt(s, "$$", 1);
    ReplaceSkips(tail, rest, "$$", mark);
  }

  lemma {:induction false} NameEndIs(s: string, i: nat, j: nat)
    requires i <= j < |s| && !IsNameChar(s[j]) && forall k | i <= k < j :: IsNameChar(s[k])
    ensures NameEnd(s, i) == j
    decreases j - i
  {
    if i < j { NameEndIs(s, i + 1, j); }
  }

  lemma {:induction false} BraceEndIs(s: string, i: nat, j: nat)
    requires i <= j < |s| && s[j] == '}' && forall k | i <= k < j :: s[k] != '}'
    ensures BraceEnd(s, i) == j
    decreases j - i
  {
    if i < j { BraceEndIs(s, i + 1, j); }
  }

  /** A well-formed reference is matched as a whole, whatever follows it. */
  lemma ReferenceMatches(t: Token, rest: string)
    requires t.Reference? && IsName(t.name) && '}' !in t.operand && (t.op == Plain ==> t.operand == "")
    ensures BracedAt(Written(t) + rest) == Match(|Written(t)|, t.name, t.op, t.operand)
  {
    var opText, tail := OperatorText(t.op), t.operand + ("}" + rest);
    var s := "${" + (t.name + (opText + tail));
    assert Written(t) + rest == s;
    MatchParts(s, t.name, t.op, t.operand, rest);
  }

  lemma MatchParts(s: string, name: string, op: Operator, operand: string, rest: string)
    requires s == "${" + (name + (OperatorText(op) + (operand + ("}" + rest))))
    requires IsName(name) && '}' !in operand && (op == Plain ==> operand == "")
    ensures BracedAt(s) == Match(3 + |name| + |OperatorText(op)| + |operand|, name, op, operand)
  {
    hide BracedAt, NameEnd, BraceEnd, OperatorAt, OperandAt, OperatorText;
    var opText, tail := OperatorText(op), operand + ("}" + rest);
    var j, start, k := 2 + |name|, 2 + |name| + |opText|, 2 + |name| + |opText| + |operand|;
    Slices(s, name, opText, operand, "}" + rest);
    TailStarts(op, operand, rest);
    OperatorReads(op, tail);
    NameReads(s, name, opText + tail);
    OperandReads(s, start, operand, rest);
    Unfolded(s, j, op, |opText|, k);
  }

  lemma TailStarts(op: Operator, operand: string, rest: string)
    requires op == Plain ==> operand == ""
    ensures operand + ("}" + rest) != [] && (op == Plain ==> (operand + ("}" + rest))[0] == '}')
  {}

  /** What the matcher returns once the ends of the name and of the operand are known. */
  lemma Unfolded(s: string, j: nat, op: Operator, n: nat, k: nat)
    requires |s| >= 3 && s[0] == '$' && s[1] == '{' && IsNameStart(s[2]) && NameEnd(s, 2) == j
    requires OperatorAt(s[j..]) == (op, n) && j + n <= |s| && BraceEnd(s, j + n) == k < |s|
    requires op == Plain ==> k == j + n
    ensures BracedAt(s) == Match(k + 1, s[2..j], op, s[j + n..k])
  {}

  lemma Slices(s: string, name: string, opText: string, operand: string, rest: string)
    requires s == "${" + (name + (opText + (operand + rest)))
    ensures var j := 2 + |name|; var start := j + |opText|; var k := start + |operand|;
      && k <= |s| && s[2..] == name + (opText + (operand + rest)) && s[j..] == opText + (operand + rest)
      && s[start..] == operand + rest && s[2..j] == name && s[start..k] == operand
      && (name != [] ==> s[2] == name[0])
  {
    var t := name + (opText + (operand + rest));
    assert s[2..] == t;
    assert t[|name|..] == opText + (operand + rest);
    assert (opText + (operand + rest))[|opText|..] == operand + rest;
    assert s[2 + |name|..] == s[2..][|name|..];
    assert s[2 + |name| + |opText|..] == s[2 + |name|..][|opText|..];
    assert s[2..2 + |name|] == t[..|name|];
    var start := 2 + |name| + |opText|;
    assert s[start..start + |operand|] == s[start..][..|operand|];
  }

  lemma NameReads(s: string, name: string, tail: string)
    requires |s| >= 2 && s[2..] == name + tail && IsName(name)
    requires tail != [] && !IsNameChar(tail[0])
    ensures NameEnd(s, 2) == 2 + |name|
  {
    forall i | 2 <= i < 2 + |name| ensures IsNameChar(s[i]) {
      assert s[i] == s[2..][i - 2] == name[i - 2] && name[i - 2] in name;
    }
    assert s[2 + |name|] == s[2..][|name|] == tail[0];
    NameEndIs(s, 2, 2 + |name|);
  }

  lemma OperandReads(s: string, start: nat, operand: string, rest: string)
    requires start <= |s| && s[start..] == operand + ("}" + rest) && '}' !in operand
    ensures BraceEnd(s, start) == start + |operand| < |s|
  {
    var k := start + |operand|;
    forall i | start <= i < k ensures s[i] != '}' {
      assert s[i] == s[start..][i - start] == operand[i - start] && operand[i - start] in operand;
    }
    assert s[k] == s[start..][|operand|] == '}';
    BraceEndIs(s, start, k);
  }

  lemma OperatorReads(op: Operator, rest: string)
    requires op == Plain ==> rest != [] && rest[0] == '}'
    ensures OperatorAt(OperatorText(op) + rest) == (op, |OperatorText(op)|)
    ensures OperatorText(op) + rest != [] ==> !IsNameChar((OperatorText(op) + rest)[0]) || (op == Plain && rest == [])
  {}

  lemma NotBraced(vars: Vars, s: string)
    requires s != [] && (s[0] == '$' ==> |s| > 1 && (s[1] == '{' ==> |s| > 2 && !IsNameStart(s[2])))
    ensures ExpandBraced(vars, s) == [s[0]] + ExpandBraced(vars, s[1..])
  {}

  lemma {:induction false} BracedSkips(vars: Vars, text: string, rest: string)
    requires '$' !in text
    ensures ExpandBraced(vars, text + rest) == text + ExpandBraced(vars, rest)
  {
    hide ExpandBraced;
    if text == [] {
      assert text + rest == rest;
    } else {
      assert (text + rest)[1..] == text[1..] + rest && (text + rest)[0] == text[0] && text[0] in text;
      NotBraced(vars, text + rest);
      BracedSkips(vars, text[1..], rest);
      assert [text[0]] + (text[1..] + ExpandBraced(vars, rest)) == text + ExpandBraced(vars, rest);
    }
  }

  lemma {:induction false} ExpandingBraces(mark: string, vars: Vars, ts: seq<Token>)
    requires '$' !in mark && forall t <- ts :: WellFormed(vars, t)
    ensures ExpandBraced(vars, Hidden(mark, ts)) == Expanded(mark, vars, ts)
  {
    if ts != [] {
      var t, rest := ts[0], Hidden(mark, ts[1..]);
      assert t in ts && WellFormed(vars, t);
      ExpandingBraces(mark, vars, ts[1..]);
      match t
      case Literal(text) => LooseIsNotBraced(vars, text, rest);
      case EscapedDollar => BracedSkips(vars, mark, rest);
      case Bare(name) => BareIsNotBraced(vars, name, rest);
      case Reference(_, _, _) =>
        ReferenceMatches(t, rest);
        assert (Written(t) + rest)[|Written(t)|..] == rest;
    }
  }

  lemma MeaningIsClean(vars: Vars, t: Token)
    requires WellFormed(vars, t) && !t.EscapedDollar?
    ensures '\U{0}' !in Meaning(vars, t) && (t.Reference? ==> Clean(Meaning(vars, t)))
  {}

  lemma BareIsNotBraced(vars: Vars, name: string, rest: string)
    requires IsName(name)
    ensures ExpandBraced(vars, "$" + name + rest) == "$" + name + ExpandBraced(vars, rest)
  {
    hide ExpandBraced;
    var s := "$" + name + rest;
    NameIsClean(name);
    assert s[1] == name[0] && s[1..] == name + rest && s[1] != '{';
    NotBraced(vars, s);
    BracedSkips(vars, name, rest);
    assert [s[0]] + (name + ExpandBraced(vars, rest)) == "$" + name + ExpandBraced(vars, rest);
  }

  lemma {:induction false} BareSkips(vars: Vars, text: string, rest: string)
    requires '$' !in text
    ensures ExpandBare(vars, text + rest) == text + ExpandBare(vars, rest)
  {
    if text == [] {
      assert text + rest == rest;
    } else {
      assert (text + rest)[1..] == text[1..] + rest && (text + rest)[0] == text[0] && text[0] in text;
      BareSkips(vars, text[1..], rest);
    }
  }

  lemma {:induction false} NameRunsTo(s: string, i: nat, j: nat)
    requires i <= j <= |s| && (j < |s| ==> !IsNameChar(s[j])) && forall k | i <= k < j :: IsNameChar(s[k])
    ensures NameEnd(s, i) == j
    decreases j - i
  {
    if i < j { NameRunsTo(s, i + 1, j); }
  }

  /** A name without braces is read up to the first character that cannot be part of it, and replaced by its value. */
  lemma BareReads(vars: Vars, name: string, rest: string)
    requires IsName(name) && (rest == [] || !IsNameChar(rest[0]))
    ensures ExpandBare(vars, "$" + name + rest) == ValueOf(vars, name) + ExpandBare(vars, rest)
  {
    var s, j := "$" + name + rest, 1 + |name|;
    assert s[1] == name[0] && s[1..j] == name && s[j..] == rest;
    forall k | 2 <= k < j ensures IsNameChar(s[k]) { assert s[k] == name[k - 1] && name[k - 1] in name; }
    if rest != [] { assert s[j] == rest[0]; }
    NameRunsTo(s, 2, j);
  }

  lemma {:induction false} StartsApartMeans(mark: string, vars: Vars, ts: seq<Token>)
    requires StartsApart(vars, ts) && |mark| > 0 && !IsNameChar(mark[0])
    ensures var s := Expanded(mark, vars, ts); s == [] || !IsNameChar(s[0])
  {
    if ts != [] && !ts[0].EscapedDollar? && !ts[0].Bare? && Meaning(vars, ts[0]) == "" {
      StartsApartMeans(mark, vars, ts[1..]);
      assert Expanded(mark, vars, ts) == Expanded(mark, vars, ts[1..]);
    }
  }

  lemma {:induction false} ExpandingBare(mark: string, vars: Vars, ts: seq<Token>)
    requires |mark| > 0 && mark[0] == '\U{0}' && '$' !in mark
    requires Separated(vars, ts) && forall t <- ts :: WellFormed(vars, t)
    ensures ExpandBare(vars, Expanded(mark, vars, ts)) == Finished(mark, vars, ts)
  {
    if ts != [] {
      var t, rest := ts[0], Expanded(mark, vars, ts[1..]);
      assert t in ts && WellFormed(vars, t);
      ExpandingBare(mark, vars, ts[1..]);
      match t
      case Bare(name) =>
        StartsApartMeans(mark, vars, ts[1..]);
        BareReads(vars, name, rest);
      case EscapedDollar => BareSkips(vars, mark, rest);
      case Literal(text) => LooseIsNotBare(vars, text, rest);
      case Reference(_, _, _) =>
        MeaningIsClean(vars, t);
        BareSkips(vars, Meaning(vars, t), rest);
    }
  }

  lemma {:induction false} RestoringDollars(mark: string, vars: Vars, ts: seq<Token>)
    requires |mark| > 0 && mark[0] == '\U{0}' && forall t <- ts :: WellFormed(vars, t)
    ensures ReplaceAll(Finished(mark, vars, ts), mark, "$") == OnePass(vars, ts)
  {
    if ts != [] {
      var t, rest := ts[0], Finished(mark, vars, ts[1..]);
      assert t in ts && WellFormed(vars, t);
      RestoringDollars(mark, vars, ts[1..]);
      if t.EscapedDollar? {
        ReplaceHits(rest, mark, "$");
      } else {
        MeaningIsClean(vars, t);
        ReplaceSkips(Meaning(vars, t), rest, mark, "$");
      }
    }
  }

  lemma PassesMeanOnePass(mark: string, vars: Vars, ts: seq<Token>)
    requires |mark| > 0 && mark[0] == '\U{0}' && '$' !in mark
    requires Separated(vars, ts) && forall t <- ts :: WellFormed(vars, t)
    ensures InterpolateWith(mark, vars, Source(ts)) == OnePass(vars, ts)
  {
    HidingEscapes(mark, vars, ts);
    ExpandingBraces(mark, vars, ts);
    ExpandingBare(mark, vars, ts);
    RestoringDollars(mark, vars, ts);
  }

  /** The three rewriting passes compute the concatenation of the token meanings. */
  lemma InterpolationIsOnePass(ts: seq<Token>, osVars: Vars, envVars: Vars)
    requires Separated(osVars + envVars, ts) && forall t <- ts :: WellFormed(osVars + envVars, t)
    ensures InterpolateEnv(Source(ts), osVars, envVars) == OnePass(osVars + envVars, ts)
  {
    PassesMeanOnePass(MARK, osVars + envVars, ts);
  }

  /** The passes do what the specification asks for exactly when no required variable is missing. */
  lemma InterpolationIsSpecifiedIff(ts: seq<Token>, osVars: Vars, envVars: Vars)
    requires Separated(osVars + envVars, ts) && forall t <- ts :: WellFormed(osVars + envVars, t)
    ensures Specified(osVars + envVars, ts) == Text(InterpolateEnv(Source(ts), osVars, envVars)) <==>
      forall t <- ts :: !MissesVariable(osVars + envVars, t)
  {
    InterpolationIsOnePass(ts, osVars, envVars);
    PassAsSpecified(osVars + envVars, ts);
  }

  /** A required variable that is not set: the specification asks for an error, the passes yield the message. */
  lemma MissingYieldsMessage(name: string, colon: bool, message: string, osVars: Vars, envVars: Vars)
    requires IsName(name) && name !in osVars + envVars && Clean(message) && '}' !in message
    ensures var t := Reference(name, if colon then FallbackIfEmpty else FallbackIfUnset, message);
      && InterpolateEnv(Written(t), osVars, envVars) == message
      && Specified(osVars + envVars, [t]) == Required(name)
  {
    var t := Reference(name, if colon then FallbackIfEmpty else FallbackIfUnset, message);
    assert forall u <- [t] :: WellFormed(osVars + envVars, u);
    InterpolationIsOnePass([t], osVars, envVars);
    assert [t][1..] == [] && Source([t]) == Written(t) + Source([]) && Written(t) + [] == Written(t);
    assert OnePass(osVars + envVars, [t]) == message + OnePass(osVars + envVars, []);
    assert message + [] == message;
  }

  /**
   * A value that continues a name: a reference without braces takes the value of the next reference into its name,
   * where the specification puts one value after the other.
   */
  lemma BareTakesMore(name: string, next: string, osVars: Vars, envVars: Vars)
    requires var vars := osVars + envVars;
      && IsName(name) && IsName(next) && next in vars && vars[next] != ""
      && (forall c <- vars[next] :: IsNameChar(c))
      && Clean(ValueOf(vars, name)) && Clean(ValueOf(vars, name + vars[next]))
    ensures var vars, ts := osVars + envVars, [Bare(name), Reference(next, Plain, "")];
      && InterpolateEnv(Source(ts), osVars, envVars) == ValueOf(vars, name + vars[next])
      && Specified(vars, ts) == Text(ValueOf(vars, name) + vars[next])
  {
    hide ReplaceAll, ExpandBare, ExpandBraced, Written, WellFormed, Specified, IsName, Clean, HalfExpanded;
    var vars, ts := osVars + envVars, [Bare(name), Reference(next, Plain, "")];
    BareAndBraced(vars, name, next);
    HidingEscapes(MARK, vars, ts);
    ExpandingBraces(MARK, vars, ts);
    LoneBareReads(vars, name + vars[next]);
    assert "$" + (name + vars[next]) == "$" + name + vars[next];
  }

  lemma LoneBareReads(vars: Vars, name: string)
    requires IsName(name) && Clean(ValueOf(vars, name))
    ensures ReplaceAll(ExpandBare(vars, "$" + name), MARK, "$") == ValueOf(vars, name)
  {
    hide ReplaceAll, ExpandBare, IsName;
    var value := ValueOf(vars, name);
    BareReads(vars, name, "");
    assert "$" + name + "" == "$" + name && value + "" == value;
    ReplaceSkips(value, "", MARK, "$");
    NothingLeft(vars);
  }

  lemma NothingLeft(vars: Vars)
    ensures ExpandBare(vars, "") == "" && ReplaceAll("", MARK, "$") == ""
  {}

  lemma BareAndBraced(vars: Vars, name: string, next: string)
    requires IsName(name) && IsName(next) && next in vars && Clean(ValueOf(vars, name))
    requires forall c <- vars[next] :: IsNameChar(c)
    ensures var ts := [Bare(name), Reference(next, Plain, "")];
      && (forall t <- ts :: WellFormed(vars, t))
      && Expanded(MARK, vars, ts) == "$" + name + vars[next]
      && Specified(vars, ts) == Text(ValueOf(vars, name) + vars[next])
    ensures IsName(name + vars[next])
  {
    var second := Reference(next, Plain, "");
    var ts := [Bare(name), second];
    assert ts[1..] == [second] && [second][1..] == [];
    assert vars[next] + "" == vars[next];
    assert Clean(vars[next]);
    assert (name + vars[next])[0] == name[0];
    assert Expanded(MARK, vars, [second]) == vars[next] + Expanded(MARK, vars, []);
    assert Specified(vars, [second]) == Text(vars[next]) by { assert Specified(vars, []) == Text(""); }
  }
}
