/** `RenderStepArgs`: placeholder rendering of step arguments from the outputs of finished steps. */
module Rendering {
  import opened Options
  import opened GoStrings
  import opened Sequences

  /** A tool output: text, a printed number or boolean, an object, or any other JSON value. */
  datatype Value = Text(s: string) | Scalar(printed: string) | Object(fields: map<string, Value>) | Other(json: string)

  type Outputs = map<string, Value>

  /** The JSON encoder. */
  type Encoder = Value -> string

  predicate IsRefChar(c: char) {
    'a' <= c <= 'z' || 'A' <= c <= 'Z' || '0' <= c <= '9' || c == '_' || c == '-' || c == '.'
  }

  /** The end of the run of reference characters that starts at `i`. */
  function RunEnd(s: string, i: nat): (j: nat)
    requires i <= |s|
    ensures i <= j <= |s| && (j < |s| ==> !IsRefChar(s[j])) && forall k | i <= k < j :: IsRefChar(s[k])
    decreases |s| - i
  {
    if i < |s| && IsRefChar(s[i]) then RunEnd(s, i + 1) else i
  }

  /** The length of the placeholder at the front of `s`, or 0: two opening braces, a nonempty run of
      reference characters, two closing braces. */
  function PlaceholderLength(s: string): (n: nat)
    ensures n <= |s| && (n > 0 ==> n >= 5)
  {
    if |s| >= 2 && s[0] == '{' && s[1] == '{' then
      var j := RunEnd(s, 2);
      if j > 2 && j + 1 < |s| && s[j] == '}' && s[j + 1] == '}' then j + 2 else 0
    else 0
  }

  /** The dotted path between the braces. */
  function Path(placeholder: string): (p: seq<string>)
    requires |placeholder| >= 5
    ensures |p| >= 1
  {
    Split(placeholder[2..|placeholder| - 2], '.')
  }

  /** Follows `parts[i..]` from `curr`; a leading `output` is optional. */
  function Follow(curr: Value, parts: seq<string>, i: nat): Option<Value>
    requires 1 <= i <= |parts|
    decreases |parts| - i
  {
    if i == |parts| then Some(curr)
    else if parts[i] == "output" && i == 1 then
      Follow(if curr.Object? && "output" in curr.fields then curr.fields["output"] else curr, parts, i + 1)
    else if curr.Object? && parts[i] in curr.fields then Follow(curr.fields[parts[i]], parts, i + 1)
    else None
  }

  /** Text is spliced JSON-escaped but unquoted; other values are printed. */
  function Splice(json: Encoder, v: Value): string {
    match v
    case Text(s) =>
      var b := json(v);
      if |b| >= 2 && b[0] == '"' && b[|b| - 1] == '"' then b[1..|b| - 1] else s
    case Scalar(printed) => printed
    case _ => json(v)
  }

  function Replacement(json: Encoder, placeholder: string, outputs: Outputs): string
    requires |placeholder| >= 5
  {
    var parts := Path(placeholder);
    if parts[0] !in outputs then placeholder
    else
      var r := Follow(outputs[parts[0]], parts, 1);
      if r.None? then placeholder else Splice(json, r.value)
  }

  function Substitute(json: Encoder, s: string, outputs: Outputs): string {
    if s == [] then []
    else
      var n := PlaceholderLength(s);
      if n > 0 then Replacement(json, s[..n], outputs) + Substitute(json, s[n..], outputs)
      else [s[0]] + Substitute(json, s[1..], outputs)
  }

  function Rendered(json: Encoder, raw: string, outputs: Outputs): string {
    if TrimSpace(raw) == "" then "{}"
    else if |outputs| == 0 then raw
    else Substitute(json, raw, outputs)
  }

  // ---------- What a path leads to ----------

  /** From each value to the next one leads the field of that name. */
  ghost predicate IsTrail(vs: seq<Value>, names: seq<string>) {
    && |vs| == |names| + 1
    && forall k | 0 <= k < |names| ::
         vs[k].Object? && names[k] in vs[k].fields && vs[k].fields[names[k]] == vs[k + 1]
  }

  ghost predicate Leads(start: Value, names: seq<string>, w: Value) {
    exists vs :: IsTrail(vs, names) && vs[0] == start && vs[|names|] == w
  }

  /** Where the trail of a reference starts: a leading `output` stands for that field, if the value has one. */
  function TrailStart(v: Value, parts: seq<string>): Value {
    if |parts| > 1 && parts[1] == "output" && v.Object? && "output" in v.fields then v.fields["output"] else v
  }

  /** The names that a reference follows after the step's identifier; a leading `output` is not one of them. */
  function TrailNames(parts: seq<string>): seq<string>
    requires |parts| >= 1
  {
    if |parts| > 1 && parts[1] == "output" then parts[2..] else parts[1..]
  }

  ghost predicate Denotes(v: Value, parts: seq<string>, w: Value)
    requires |parts| >= 1
  {
    Leads(TrailStart(v, parts), TrailNames(parts), w)
  }

  lemma {:induction false} TrailFollows(vs: seq<Value>, parts: seq<string>, i: nat)
    requires 1 <= i <= |parts| && IsTrail(vs, parts[i..]) && (i < |parts| && i == 1 ==> parts[1] != "output")
    ensures Follow(vs[0], parts, i) == Some(vs[|vs| - 1])
    decreases |parts| - i
  {
    if i < |parts| {
      assert parts[i..][0] == parts[i] && parts[i..][1..] == parts[i + 1..];
      forall k | 0 <= k < |parts| - i - 1
        ensures vs[1..][k].Object? && parts[i + 1..][k] in vs[1..][k].fields
        ensures vs[1..][k].fields[parts[i + 1..][k]] == vs[1..][k + 1]
      {
        assert parts[i..][k + 1] == parts[i + 1..][k] && vs[k + 1] == vs[1..][k];
      }
      TrailFollows(vs[1..], parts, i + 1);
    }
  }

  lemma {:induction false} FollowsTrail(v: Value, parts: seq<string>, i: nat) returns (vs: seq<Value>)
    requires 1 <= i <= |parts| && (i < |parts| && i == 1 ==> parts[1] != "output")
    requires Follow(v, parts, i).Some?
    ensures IsTrail(vs, parts[i..]) && vs[0] == v && vs[|vs| - 1] == Follow(v, parts, i).value
    decreases |parts| - i
  {
    vs := [v];
    if i < |parts| {
      var rest := FollowsTrail(v.fields[parts[i]], parts, i + 1);
      vs := [v] + rest;
      forall k | 0 <= k < |parts| - i
        ensures vs[k].Object? && parts[i..][k] in vs[k].fields && vs[k].fields[parts[i..][k]] == vs[k + 1]
      {
        if k > 0 { assert parts[i..][k] == parts[i + 1..][k - 1] && vs[k] == rest[k - 1]; }
      }
    }
  }

  /** Following a path finds the value that it denotes, if there is one; and it denotes at most one. */
  lemma FollowDenotes(v: Value, parts: seq<string>, w: Value)
    requires |parts| >= 1
    ensures Follow(v, parts, 1) == Some(w) <==> Denotes(v, parts, w)
  {
    var start, i := TrailStart(v, parts), if |parts| > 1 && parts[1] == "output" then 2 else 1;
    assert Follow(v, parts, 1) == Follow(start, parts, i) && TrailNames(parts) == parts[i..];
    if Follow(start, parts, i) == Some(w) { var vs := FollowsTrail(start, parts, i); }
    if Denotes(v, parts, w) {
      var vs :| IsTrail(vs, TrailNames(parts)) && vs[0] == start && vs[|TrailNames(parts)|] == w;
      TrailFollows(vs, parts, i);
    }
  }

  method FollowPath(start: Value, parts: seq<string>) returns (r: Option<Value>)
    requires |parts| >= 1
    ensures r == Follow(start, parts, 1)
    ensures forall w :: r == Some(w) <==> Denotes(start, parts, w)
  {
    forall w ensures Follow(start, parts, 1) == Some(w) <==> Denotes(start, parts, w) {
      FollowDenotes(start, parts, w);
    }
    var curr := start;
    for i := 1 to |parts|
      invariant Follow(start, parts, 1) == Follow(curr, parts, i)
    {
      var p := parts[i];
      if p == "output" && i == 1 {
        if curr.Object? && "output" in curr.fields { curr := curr.fields["output"]; }
        continue;
      }
      if curr.Object? && p in curr.fields { curr := curr.fields[p]; } else { return None; }
    }
    return Some(curr);
  }

  lemma SubstituteStep(json: Encoder, s: string, outputs: Outputs)
    requires s != []
    ensures var n := PlaceholderLength(s);
      Substitute(json, s, outputs) ==
        if n > 0 then Replacement(json, s[..n], outputs) + Substitute(json, s[n..], outputs)
        else [s[0]] + Substitute(json, s[1..], outputs)
  {}

  method RenderStepArgs(json: Encoder, raw: string, stepOutputs: Outputs) returns (rendered: string)
    ensures rendered == Rendered(json, raw, stepOutputs) && RendersTo(json, raw, stepOutputs, rendered)
  {
    hide RendersTo;
    RenderedYields(json, raw, stepOutputs);
    if TrimSpace(raw) == "" { return "{}"; }
    if |stepOutputs| == 0 { return raw; }
    rendered := [];
    var rest := raw;
    while rest != []
      invariant rendered + Substitute(json, rest, stepOutputs) == Substitute(json, raw, stepOutputs)
      decreases |rest|
    {
      var n := PlaceholderLength(rest);
      var piece := [rest[0]];
      if n > 0 { piece := ReplacePlaceholder(json, rest[..n], stepOutputs); } else { n := 1; }
      SubstituteStep(json, rest, stepOutputs);
      Associate(rendered, piece, Substitute(json, rest[n..], stepOutputs));
      rendered, rest := rendered + piece, rest[n..];
    }
  }

  method ReplacePlaceholder(json: Encoder, placeholder: string, stepOutputs: Outputs) returns (piece: string)
    requires |placeholder| >= 5
    ensures piece == Replacement(json, placeholder, stepOutputs)
  {
    var parts := Path(placeholder);
    if parts[0] !in stepOutputs { return placeholder; }
    var v := FollowPath(stepOutputs[parts[0]], parts);
    if v.None? { return placeholder; }
    return Splice(json, v.value);
  }

  /** The step identifiers that the placeholders of `s` refer to. */
  ghost function Mentions(s: string): set<string> {
    if s == [] then {}
    else
      var n := PlaceholderLength(s);
      if n > 0 then {Path(s[..n])[0]} + Mentions(s[n..]) else Mentions(s[1..])
  }

  ghost predicate AgreeOn(ids: set<string>, o1: Outputs, o2: Outputs) {
    forall id | id in ids :: (id in o1 <==> id in o2) && (id in o1 && id in o2 ==> o1[id] == o2[id])
  }

  lemma MentionsStep(s: string)
    requires s != []
    ensures var n := PlaceholderLength(s);
      Mentions(s) == if n > 0 then {Path(s[..n])[0]} + Mentions(s[n..]) else Mentions(s[1..])
  {}

  lemma Unsplit<T>(s: seq<T>, n: nat)
    requires n <= |s|
    ensures s[..n] + s[n..] == s && (n == 1 ==> [s[0]] + s[n..] == s)
  {}

  /** A placeholder that resolves to nothing stays as written. */
  lemma {:induction false} UnresolvedIsIdentity(json: Encoder, s: string, outputs: Outputs)
    requires Mentions(s) !! outputs.Keys
    ensures Substitute(json, s, outputs) == s
  {
    if s != [] {
      var n := PlaceholderLength(s);
      SubstituteStep(json, s, outputs);
      MentionsStep(s);
      if n > 0 {
        UnresolvedIsIdentity(json, s[n..], outputs);
        Unsplit(s, n);
      } else {
        UnresolvedIsIdentity(json, s[1..], outputs);
        Unsplit(s, 1);
      }
    }
  }

  lemma {:induction false} SubstituteIsLocal(json: Encoder, s: string, o1: Outputs, o2: Outputs)
    requires AgreeOn(Mentions(s), o1, o2)
    ensures Substitute(json, s, o1) == Substitute(json, s, o2)
  {
    if s != [] {
      var n := PlaceholderLength(s);
      if n > 0 {
        assert Mentions(s) == {Path(s[..n])[0]} + Mentions(s[n..]);
        SubstituteIsLocal(json, s[n..], o1, o2);
      } else {
        SubstituteIsLocal(json, s[1..], o1, o2);
      }
    }
  }

  /** Rendering reads nothing but the outputs of the steps that the arguments mention, although the
      code takes a short cut when no output exists yet. */
  lemma RenderingIsLocal(json: Encoder, raw: string, o1: Outputs, o2: Outputs)
    requires AgreeOn(Mentions(raw), o1, o2)
    ensures Rendered(json, raw, o1) == Rendered(json, raw, o2)
  {
    SubstituteIsLocal(json, raw, o1, o2);
    if |o1| == 0 { assert o1 == map[]; UnresolvedIsIdentity(json, raw, o2); }
    if |o2| == 0 { assert o2 == map[]; UnresolvedIsIdentity(json, raw, o1); }
  }

  // ---------- What a template means ----------

  /** A template is plain text and references. */
  datatype Part = Literal(text: string) | Placed(path: string)

  /** No placeholder can begin in the text: an opening brace is followed by something else. */
  predicate Plain(text: string) {
    forall i | 0 <= i < |text| && text[i] == '{' :: i + 1 < |text| && text[i + 1] != '{'
  }

  predicate WellFormedPart(p: Part) {
    match p
    case Literal(text) => Plain(text)
    case Placed(path) => path != [] && forall c <- path :: IsRefChar(c)
  }

  function Placeholder(path: string): (r: string)
    ensures |r| == |path| + 4
  {
    "{{" + path + "}}"
  }

  function Written(ps: seq<Part>): string {
    if ps == [] then []
    else (match ps[0] case Literal(text) => text case Placed(path) => Placeholder(path)) + Written(ps[1..])
  }

  /** Text stands for itself; a reference for the value at its path, or for itself when there is none. */
  function Meaning(json: Encoder, ps: seq<Part>, outputs: Outputs): string {
    if ps == [] then []
    else
      (match ps[0] case Literal(text) => text case Placed(path) =>
        if path == [] then Placeholder(path) else Replacement(json, Placeholder(path), outputs))
      + Meaning(json, ps[1..], outputs)
  }

  lemma {:induction false} LiteralPasses(json: Encoder, text: string, rest: string, outputs: Outputs)
    requires Plain(text)
    ensures Substitute(json, text + rest, outputs) == text + Substitute(json, rest, outputs)
    decreases |text|
  {
    var s := text + rest;
    if text == [] {
      assert s == rest;
    } else {
      PlainTail(text, rest);
      SubstituteStep(json, s, outputs);
      LiteralPasses(json, text[1..], rest, outputs);
      Associate([text[0]], text[1..], Substitute(json, rest, outputs));
    }
  }

  lemma PlainTail(text: string, rest: string)
    requires Plain(text) && text != []
    ensures Plain(text[1..]) && PlaceholderLength(text + rest) == 0
    ensures (text + rest)[1..] == text[1..] + rest && text == [text[0]] + text[1..]
  {
    var tail := text[1..];
    forall i | 0 <= i < |tail| && tail[i] == '{'
      ensures i + 1 < |tail| && tail[i + 1] != '{'
    {
      assert text[i + 1] == '{';
    }
    if text[0] == '{' { assert (text + rest)[1] == text[1]; }
  }

  lemma {:induction false} RunEndIs(s: string, i: nat, j: nat)
    requires i <= j < |s| && (forall k | i <= k < j :: IsRefChar(s[k])) && !IsRefChar(s[j])
    ensures RunEnd(s, i) == j
    decreases j - i
  {
    if i < j { RunEndIs(s, i + 1, j); }
  }

  lemma ReferenceIsRead(path: string, rest: string)
    requires WellFormedPart(Placed(path))
    ensures PlaceholderLength(Placeholder(path) + rest) == |path| + 4
  {
    var s := Placeholder(path) + rest;
    assert forall k | 2 <= k < |path| + 2 :: s[k] == path[k - 2];
    RunEndIs(s, 2, |path| + 2);
  }

  /** Rendering replaces each reference by the value at its path and keeps everything else. */
  lemma {:induction false} RenderingIsMeaning(json: Encoder, ps: seq<Part>, outputs: Outputs)
    requires forall p <- ps :: WellFormedPart(p)
    ensures Substitute(json, Written(ps), outputs) == Meaning(json, ps, outputs)
    ensures Yields(json, ps, outputs, Meaning(json, ps, outputs))
  {
    if ps != [] {
      hide Becomes, Replacement;
      var rest := Written(ps[1..]);
      assert WellFormedPart(ps[0]);
      forall p <- ps[1..] ensures WellFormedPart(p) { assert p in ps; }
      RenderingIsMeaning(json, ps[1..], outputs);
      match ps[0]
      case Literal(text) => LiteralPasses(json, text, rest, outputs);
      case Placed(path) =>
        var s := Placeholder(path) + rest;
        ReferenceIsPlaced(path);
        ReplacementBecomes(json, path, outputs);
        ReferenceIsRead(path, rest);
        assert s[..|path| + 4] == Placeholder(path) && s[|path| + 4..] == rest;
    }
  }

  // ---------- What rendering yields ----------

  ghost predicate IsReference(path: string) {
    path != [] && forall c <- path :: c in LOWER || c in UPPER || c in DIGITS || c in "_-."
  }

  /** The names of a dotted path. */
  ghost predicate IsDotted(path: string, names: seq<string>) {
    names != [] && Join(names, ".") == path && forall name <- names :: '.' !in name
  }

  /** How a value is written: a text as what its JSON has between the quotes, a scalar as printed, others as JSON. */
  ghost predicate ShownAs(json: Encoder, v: Value, piece: string) {
    match v
    case Text(s) => if InQuotes(json(v)) then json(v) == "\"" + piece + "\"" else piece == s
    case Scalar(printed) => piece == printed
    case Object(_) => piece == json(v)
    case Other(_) => piece == json(v)
  }

  ghost predicate InQuotes(s: string) {
    exists body :: s == "\"" + body + "\""
  }

  /** The reference has a value: its first name is a step with an output, and the other names lead on from that. */
  ghost predicate HasValue(names: seq<string>, outputs: Outputs, w: Value)
    requires names != []
  {
    names[0] in outputs && Denotes(outputs[names[0]], names, w)
  }

  /** What a reference becomes: its value, or itself when it has none. */
  ghost predicate Becomes(json: Encoder, path: string, outputs: Outputs, piece: string) {
    exists names :: IsDotted(path, names)
      && ((exists w :: HasValue(names, outputs, w) && ShownAs(json, w, piece))
          || ((forall w :: !HasValue(names, outputs, w)) && piece == "{{" + path + "}}"))
  }

  /** `text` is the template with each reference replaced by what it becomes. */
  ghost predicate Yields(json: Encoder, ps: seq<Part>, outputs: Outputs, text: string) {
    if ps == [] then text == []
    else
      exists piece, rest :: text == piece + rest && Yields(json, ps[1..], outputs, rest)
        && PartYields(json, ps[0], outputs, piece)
  }

  ghost predicate PartYields(json: Encoder, p: Part, outputs: Outputs, piece: string) {
    match p
    case Literal(lit) => piece == lit
    case Placed(path) => Becomes(json, path, outputs, piece)
  }

  ghost predicate StartsWithReference(s: string, path: string) {
    IsReference(path) && "{{" + path + "}}" <= s
  }

  /** The template that a text is: read from the left, a reference wherever one starts, else a single character. */
  ghost predicate Reads(s: string, ps: seq<Part>)
    decreases |ps|
  {
    if s == [] then ps == []
    else
      && ps != []
      && match ps[0]
         case Placed(path) => StartsWithReference(s, path) && Reads(s[|path| + 4..], ps[1..])
         case Literal(lit) =>
           lit == [s[0]] && (forall path :: !StartsWithReference(s, path)) && Reads(s[1..], ps[1..])
  }

  /** Blank arguments are an empty object; others are read as a template that yields the result. */
  ghost predicate RendersTo(json: Encoder, raw: string, outputs: Outputs, text: string) {
    if Blank(raw) then text == "{}" else exists ps :: Reads(raw, ps) && Yields(json, ps, outputs, text)
  }

  lemma ReferenceIsPlaced(path: string)
    ensures IsReference(path) <==> WellFormedPart(Placed(path))
  {
    forall c: char ensures IsRefChar(c) <==> c in LOWER || c in UPPER || c in DIGITS || c in "_-." {
      hide LOWER, UPPER, DIGITS;
      LettersAre(c);
    }
  }

  /** A placeholder is found exactly where a reference starts. */
  lemma PlaceholderIsReference(s: string)
    ensures PlaceholderLength(s) > 0 ==>
      var path := s[2..PlaceholderLength(s) - 2]; StartsWithReference(s, path) && |path| + 4 == PlaceholderLength(s)
    ensures forall path | StartsWithReference(s, path) :: PlaceholderLength(s) == |path| + 4
  {
    var n := PlaceholderLength(s);
    if n > 0 {
      var path := s[2..n - 2];
      assert forall k | 0 <= k < |path| :: path[k] == s[k + 2];
      ReferenceIsPlaced(path);
      assert s[..n] == "{{" + path + "}}";
    }
    forall path | StartsWithReference(s, path) ensures PlaceholderLength(s) == |path| + 4 {
      ReferenceIsPlaced(path);
      ReferenceIsRead(path, s[|path| + 4..]);
      assert s == Placeholder(path) + s[|path| + 4..];
    }
  }

  lemma InQuotesIff(b: string)
    ensures InQuotes(b) <==> |b| >= 2 && b[0] == '"' && b[|b| - 1] == '"'
    ensures InQuotes(b) ==> b == "\"" + b[1..|b| - 1] + "\""
  {
    if |b| >= 2 && b[0] == '"' && b[|b| - 1] == '"' { assert b == "\"" + b[1..|b| - 1] + "\""; }
  }

  lemma SpliceShows(json: Encoder, v: Value)
    ensures ShownAs(json, v, Splice(json, v))
  {
    InQuotesIff(json(v));
  }

  lemma ReplacementBecomes(json: Encoder, path: string, outputs: Outputs)
    requires IsReference(path)
    ensures Becomes(json, path, outputs, Replacement(json, Placeholder(path), outputs))
  {
    var names, piece := Split(path, '.'), Replacement(json, Placeholder(path), outputs);
    assert Placeholder(path)[2..|Placeholder(path)| - 2] == path;
    SplitJoins(path, '.');
    SplitHasNoSeparator(path, '.');
    if names[0] in outputs {
      var r := Follow(outputs[names[0]], names, 1);
      forall w ensures r == Some(w) <==> HasValue(names, outputs, w) { FollowDenotes(outputs[names[0]], names, w); }
      if r.Some? {
        SpliceShows(json, r.value);
        assert HasValue(names, outputs, r.value) && ShownAs(json, r.value, piece);
      }
    }
    assert IsDotted(path, names);
  }

  /** Substitution reads any text as a template and yields what that becomes. */
  lemma {:induction false} SubstitutionYields(json: Encoder, s: string, outputs: Outputs) returns (ps: seq<Part>)
    ensures Reads(s, ps) && Yields(json, ps, outputs, Substitute(json, s, outputs))
    decreases |s|
  {
    if s == [] {
      ps := [];
      NothingYields(json, outputs);
    } else {
      var n := PlaceholderLength(s);
      var rest := SubstitutionYields(json, s[if n > 0 then n else 1..], outputs);
      if n > 0 {
        ps := ReferenceYields(json, s, rest, outputs);
      } else {
        ps := CharacterYields(json, s, rest, outputs);
      }
    }
  }

  lemma ReferenceYields(json: Encoder, s: string, rest: seq<Part>, outputs: Outputs) returns (ps: seq<Part>)
    requires s != [] && PlaceholderLength(s) > 0
    requires var tail := s[PlaceholderLength(s)..];
      Reads(tail, rest) && Yields(json, rest, outputs, Substitute(json, tail, outputs))
    ensures Reads(s, ps) && Yields(json, ps, outputs, Substitute(json, s, outputs))
  {
    hide Reads, Yields, StartsWithReference, Substitute;
    var n := PlaceholderLength(s);
    var path := s[2..n - 2];
    PlaceholderIsReference(s);
    ReadsMore(s, Placed(path), n, rest);
    ReplacedYields(json, s, path, rest, outputs);
    ps := [Placed(path)] + rest;
  }

  lemma ReplacedYields(json: Encoder, s: string, path: string, rest: seq<Part>, outputs: Outputs)
    requires s != [] && StartsWithReference(s, path) && PlaceholderLength(s) == |path| + 4
    requires Yields(json, rest, outputs, Substitute(json, s[|path| + 4..], outputs))
    ensures Yields(json, [Placed(path)] + rest, outputs, Substitute(json, s, outputs))
  {
    hide Yields, Replacement, PartYields, StartsWithReference;
    var n := |path| + 4;
    SubstituteStep(json, s, outputs);
    ReplacesFirst(json, s, path, outputs);
    YieldsMore(json, Placed(path), Replacement(json, s[..n], outputs), rest,
      Substitute(json, s[n..], outputs), outputs);
  }

  lemma CharacterYields(json: Encoder, s: string, rest: seq<Part>, outputs: Outputs) returns (ps: seq<Part>)
    requires s != [] && PlaceholderLength(s) == 0
    requires Reads(s[1..], rest) && Yields(json, rest, outputs, Substitute(json, s[1..], outputs))
    ensures Reads(s, ps) && Yields(json, ps, outputs, Substitute(json, s, outputs))
  {
    hide Reads, Yields, PartYields, StartsWithReference;
    PlaceholderIsReference(s);
    SubstituteStep(json, s, outputs);
    CopiesFirst(json, s, outputs);
    ReadsMore(s, Literal([s[0]]), 1, rest);
    YieldsMore(json, Literal([s[0]]), [s[0]], rest, Substitute(json, s[1..], outputs), outputs);
    ps := [Literal([s[0]])] + rest;
  }

  lemma NothingYields(json: Encoder, outputs: Outputs)
    ensures Reads([], []) && Yields(json, [], outputs, Substitute(json, [], outputs))
  {}

  lemma ReplacesFirst(json: Encoder, s: string, path: string, outputs: Outputs)
    requires StartsWithReference(s, path)
    ensures PartYields(json, Placed(path), outputs, Replacement(json, s[..|path| + 4], outputs))
  {
    assert s[..|path| + 4] == Placeholder(path);
    ReplacementBecomes(json, path, outputs);
  }

  lemma CopiesFirst(json: Encoder, s: string, outputs: Outputs)
    requires s != []
    ensures PartYields(json, Literal([s[0]]), outputs, [s[0]])
  {}

  lemma ReadsMore(s: string, p: Part, n: nat, ps: seq<Part>)
    requires 0 < n <= |s| && Reads(s[n..], ps)
    requires p.Placed? ==> StartsWithReference(s, p.path) && n == |p.path| + 4
    requires p.Literal? ==> n == 1 && p == Literal([s[0]]) && forall path :: !StartsWithReference(s, path)
    ensures Reads(s, [p] + ps)
  {
    hide StartsWithReference;
    assert ([p] + ps)[1..] == ps;
  }

  lemma YieldsMore(json: Encoder, p: Part, piece: string, ps: seq<Part>, text: string, outputs: Outputs)
    requires Yields(json, ps, outputs, text)
    requires PartYields(json, p, outputs, piece)
    ensures Yields(json, [p] + ps, outputs, piece + text)
  {
    hide PartYields;
    assert ([p] + ps)[1..] == ps;
  }

  /** The arguments of a step are rendered to what they yield, whichever short cut is taken. */
  lemma RenderedYields(json: Encoder, raw: string, outputs: Outputs)
    ensures RendersTo(json, raw, outputs, Rendered(json, raw, outputs))
  {
    TrimsToNothingIffBlank(raw);
    var ps := SubstitutionYields(json, raw, outputs);
    if |outputs| == 0 {
      assert outputs == map[];
      UnresolvedIsIdentity(json, raw, outputs);
    }
  }
}
