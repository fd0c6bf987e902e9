/** Compression of a chat history and its conversion for the model. */
module History {
  import opened Options
  import opened GoStrings
  import opened Sequences
  import opened ReplyMatching

  datatype ToolCall = ToolCall(id: string, name: string, args: string)

  datatype Message = Message(role: string, content: string, images: seq<string>, toolCalls: seq<ToolCall>,
      toolCallId: string)

  datatype Kind = SystemKind | AssistantKind | ToolKind | UserKind | UnknownKind

  /** Roles are compared after lower-casing. */
  function KindOf(role: string): Kind {
    var r := ToLower(role);
    if r == "system" then SystemKind
    else if r == "assistant" then AssistantKind
    else if r == "tool" then ToolKind
    else if r == "user" then UserKind
    else UnknownKind
  }

  function CallIds(calls: seq<ToolCall>): (ids: seq<string>)
    ensures |ids| == |calls| && forall k | 0 <= k < |ids| :: ids[k] == calls[k].id
  {
    seq(|calls|, k requires 0 <= k < |calls| => calls[k].id)
  }

  /** What a message of kind `k` is for the matching of replies; unknown kinds never reach the model. */
  function ShapeFor(k: Kind, m: Message): seq<Shape<string>> {
    match k
    case AssistantKind => [Calls(CallIds(m.toolCalls))]
    case ToolKind => [Reply(m.toolCallId)]
    case UnknownKind => []
    case SystemKind => [Plain]
    case UserKind => [Plain]
  }

  function Shapes(ms: seq<Message>): seq<Shape<string>> {
    if ms == [] then [] else ShapeFor(KindOf(ms[0].role), ms[0]) + Shapes(ms[1..])
  }

  lemma {:induction false} ShapesAppend(a: seq<Message>, b: seq<Message>)
    ensures Shapes(a + b) == Shapes(a) + Shapes(b)
    decreases |a|
  {
    if a == [] {
      assert a + b == b;
    } else {
      assert (a + b)[1..] == a[1..] + b;
      ShapesAppend(a[1..], b);
      Associate(ShapeFor(KindOf(a[0].role), a[0]), Shapes(a[1..]), Shapes(b));
    }
  }

  // ---------- Compression ----------

  predicate IsUser(m: Message) {
    KindOf(m.role) == UserKind
  }

  /** The last user message at or before `cut`, or 0. */
  ghost predicate IsUserCut(ms: seq<Message>, cut: nat, r: nat) {
    && r <= cut < |ms|
    && (r == 0 || IsUser(ms[r]))
    && forall k | r < k <= cut :: !IsUser(ms[k])
  }

  method AlignCutToUserMessage(ms: seq<Message>, cutIdx: int) returns (r: int)
    ensures 0 <= cutIdx < |ms| ==> r >= 0 && IsUserCut(ms, cutIdx, r)
    ensures cutIdx < 0 ==> r == 0
    ensures cutIdx >= |ms| ==> r == cutIdx
  {
    r := cutIdx;
    while 0 < r < |ms| && !IsUser(ms[r])
      invariant 0 <= cutIdx < |ms| ==> 0 <= r <= cutIdx && forall k | r < k <= cutIdx :: !IsUser(ms[k])
      invariant cutIdx < 0 || cutIdx >= |ms| ==> r == cutIdx
      decreases r
    {
      r := r - 1;
    }
    if r < 0 { r := 0; }
  }

  datatype Settings = Settings(strategy: string, maxContextTokens: int, modelContextTokens: int, compressRatio: int)

  /** The outcome of asking the model for a summary: no client or an error, or its text. */
  datatype Summary = NoSummary | Text(content: string)

  const SUMMARY_PREFIX := "[历史对话摘要]: "

  function MaxTokens(c: Settings): int {
    if c.maxContextTokens > 0 then c.maxContextTokens
    else
      var scaled := if c.modelContextTokens > 0 && c.compressRatio > 0
        then c.modelContextTokens * c.compressRatio / 100 else 0;
      if scaled <= 0 then 52428 else scaled
  }

  function TotalChars(ms: seq<Message>): nat {
    if ms == [] then 0 else TotalChars(ms[..|ms| - 1]) + |ms[|ms| - 1].content|
  }

  function SummaryMessage(text: string): Message {
    Message("system", SUMMARY_PREFIX + TrimSpace(text), [], [], "")
  }

  /** Compression cuts only a history that is too long for the configured budget. */
  predicate Fits(c: Settings, ms: seq<Message>) {
    c.strategy == "none" || TotalChars(ms) / 3 <= MaxTokens(c) || |ms| <= 4
  }

  predicate HasText(s: Summary) {
    s.Text? && TrimSpace(s.content) != ""
  }

  /** What is put in front of the kept messages: a summary of the others, if there is one. */
  function Front(c: Settings, summary: Summary, cut: nat): (r: seq<Message>)
    ensures |r| <= 1 && (cut == 0 ==> r == [])
  {
    if cut > 0 && c.strategy != "sliding" && HasText(summary) then [SummaryMessage(summary.content)] else []
  }

  /** Compression cuts at `cut`, putting a summary in front when there is one. */
  ghost predicate CutsAt(c: Settings, summary: Summary, ms: seq<Message>, out: seq<Message>, cut: nat) {
    && !Fits(c, ms)
    && IsUserCut(ms, |ms| - (if c.strategy == "sliding" then 4 else 3), cut)
    && out == Front(c, summary, cut) + ms[cut..]
  }

  method ApplyContextCompression(c: Settings, summary: Summary, ms: seq<Message>) returns (out: seq<Message>, cut: nat)
    ensures if Fits(c, ms) then out == ms && cut == 0 else CutsAt(c, summary, ms, out, cut)
  {
    hide TrimSpace;
    cut := 0;
    if c.strategy == "none" { return ms, 0; }
    var maxTokens := c.maxContextTokens;
    if maxTokens <= 0 {
      if c.modelContextTokens > 0 && c.compressRatio > 0 {
        maxTokens := c.modelContextTokens * c.compressRatio / 100;
      }
      if maxTokens <= 0 { maxTokens := 52428; }
    }
    var totalChars := 0;
    for i := 0 to |ms|
      invariant totalChars == TotalChars(ms[..i])
    {
      assert ms[..i + 1][..i] == ms[..i];
      totalChars := totalChars + |ms[i].content|;
    }
    assert ms[..|ms|] == ms;
    if totalChars / 3 <= maxTokens || |ms| <= 4 { return ms, 0; }
    if c.strategy == "sliding" {
      var cutIdx := AlignCutToUserMessage(ms, |ms| - 4);
      return ms[cutIdx..], cutIdx;
    }
    var cutIdx := AlignCutToUserMessage(ms, |ms| - 3);
    if cutIdx <= 0 { return ms, 0; }
    var recent := ms[cutIdx..];
    if summary.Text? {
      if TrimSpace(summary.content) != "" {
        return [SummaryMessage(summary.content)] + recent, cutIdx;
      }
    }
    return recent, cutIdx;
  }

  // ---------- Compression in plain terms ----------

  function AllText(ms: seq<Message>): string {
    if ms == [] then [] else ms[0].content + AllText(ms[1..])
  }

  /** The configured number of tokens, or the given share of the model's, or a default. */
  ghost predicate IsBudget(c: Settings, tokens: int) {
    var scaled := c.modelContextTokens * c.compressRatio;
    if c.maxContextTokens > 0 then tokens == c.maxContextTokens
    else if c.modelContextTokens > 0 && c.compressRatio > 0 && scaled >= 100 then
      100 * tokens <= scaled < 100 * (tokens + 1)
    else tokens == 52428
  }

  /** Nothing is cut when that is switched off, from at most four messages, or at three characters a token. */
  ghost predicate IsShort(c: Settings, ms: seq<Message>) {
    c.strategy == "none" || |ms| <= 4 || exists tokens :: IsBudget(c, tokens) && |AllText(ms)| < 3 * (tokens + 1)
  }

  ghost predicate IsUserAt(ms: seq<Message>, k: nat)
    requires k < |ms|
  {
    ToLower(ms[k].role) == "user"
  }

  /** The summary of the model as a system message, without white space around it. */
  ghost predicate IsSummary(text: string, m: Message) {
    && ToLower(m.role) == "system" && m.images == [] && m.toolCalls == [] && m.toolCallId == ""
    && exists middle :: IsMiddle(text, middle) && m.content == "[历史对话摘要]: " + middle
  }

  /** The text without the white space around it. */
  ghost predicate IsMiddle(text: string, middle: string) {
    Trimmed(middle) && exists left, right :: text == left + middle + right && Blank(left) && Blank(right)
  }

  /**
   * A long history keeps its end, from the last user message at or before its third message from the end, or the fourth
   * when sliding, or else all of it. In front of a proper end comes a summary that is not blank, unless sliding.
   */
  ghost predicate IsCut(c: Settings, summary: Summary, ms: seq<Message>, out: seq<Message>) {
    exists cut: nat ::
      && IsCutFrom(ms, |ms| - (if c.strategy == "sliding" then 4 else 3), cut)
      && if cut > 0 && c.strategy != "sliding" && summary.Text? && !Blank(summary.content)
         then out != [] && IsSummary(summary.content, out[0]) && out[1..] == ms[cut..]
         else out == ms[cut..]
  }

  ghost predicate IsCutFrom(ms: seq<Message>, from: int, cut: nat) {
    cut <= from < |ms| && (cut == 0 || IsUserAt(ms, cut)) && forall k: nat | cut < k <= from :: !IsUserAt(ms, k)
  }

  ghost predicate CompressesTo(c: Settings, summary: Summary, ms: seq<Message>, out: seq<Message>) {
    if IsShort(c, ms) then out == ms else IsCut(c, summary, ms, out)
  }

  lemma {:induction false} AllTextAppend(a: seq<Message>, m: Message)
    ensures AllText(a + [m]) == AllText(a) + m.content
  {
    if a == [] {
      assert a + [m] == [m] && [m][1..] == [];
      assert m.content + [] == m.content;
    } else {
      assert (a + [m])[1..] == a[1..] + [m];
      AllTextAppend(a[1..], m);
      Associate(a[0].content, AllText(a[1..]), m.content);
    }
  }

  lemma {:induction false} TotalIsAllText(ms: seq<Message>)
    ensures TotalChars(ms) == |AllText(ms)|
  {
    if ms != [] {
      var n := |ms| - 1;
      TotalIsAllText(ms[..n]);
      AllTextAppend(ms[..n], ms[n]);
      assert ms == ms[..n] + [ms[n]];
    }
  }

  lemma BudgetIs(c: Settings)
    ensures IsBudget(c, MaxTokens(c)) && forall tokens | IsBudget(c, tokens) :: tokens == MaxTokens(c)
  {
    var scaled := c.modelContextTokens * c.compressRatio;
    if c.modelContextTokens > 0 && c.compressRatio > 0 { assert scaled > 0; }
  }

  lemma FitsIffShort(c: Settings, ms: seq<Message>)
    ensures Fits(c, ms) <==> IsShort(c, ms)
  {
    hide IsBudget, MaxTokens;
    BudgetIs(c);
    TotalIsAllText(ms);
  }

  lemma SummaryIsSummary(text: string)
    ensures IsSummary(text, SummaryMessage(text))
  {
    var left, right := TrimSpaceIsMiddle(text);
    assert ToLower("system") == "system";
  }

  lemma CutIsCut(c: Settings, summary: Summary, ms: seq<Message>, out: seq<Message>, cut: nat)
    requires CutsAt(c, summary, ms, out, cut)
    ensures IsCut(c, summary, ms, out)
  {
    hide Fits, IsSummary, SummaryMessage, Blank, TrimSpace, ToLower;
    forall k: nat | k < |ms| ensures IsUser(ms[k]) <==> IsUserAt(ms, k) {}
    assert IsCutFrom(ms, |ms| - (if c.strategy == "sliding" then 4 else 3), cut);
    if summary.Text? { TrimsToNothingIffBlank(summary.content); }
    if cut > 0 && c.strategy != "sliding" && HasText(summary) {
      SummaryIsSummary(summary.content);
      assert out[1..] == ms[cut..];
    }
  }

  lemma UserShape(ms: seq<Message>, r: nat)
    requires r < |ms| && IsUser(ms[r])
    ensures Shapes(ms[r..]) != [] && Shapes(ms[r..])[0] == Plain
  {
  }

  /** A cut is a whole history or starts at a user message, so replies stay with their calls. */
  lemma CutKeepsMatched(ms: seq<Message>, cut: nat, r: nat)
    requires IsUserCut(ms, cut, r) && Matched([], Shapes(ms))
    ensures Matched([], Shapes(ms[r..]))
  {
    if r > 0 {
      assert ms == ms[..r] + ms[r..];
      ShapesAppend(ms[..r], ms[r..]);
      UserShape(ms, r);
      MatchedSuffix([], Shapes(ms[..r]), Shapes(ms[r..]));
    } else {
      assert ms[0..] == ms;
    }
  }

  lemma SummaryShape(text: string, rest: seq<Message>)
    ensures Shapes([SummaryMessage(text)] + rest) == [Plain] + Shapes(rest)
  {
    SystemIsSystem();
    assert ([SummaryMessage(text)] + rest)[1..] == rest;
  }

  lemma SystemIsSystem()
    ensures KindOf("system") == SystemKind
  {
    assert ToLower("system") == "system";
  }

  /** Compression keeps a well-formed history well-formed. */
  lemma CompressionKeepsWellFormed(c: Settings, summary: Summary, ms: seq<Message>, out: seq<Message>, cut: nat)
    requires CutsAt(c, summary, ms, out, cut) && WellFormed(Shapes(ms))
    ensures WellFormed(Shapes(out))
  {
    MatchedIsWellFormed(Shapes(ms));
    CutKeepsMatched(ms, |ms| - (if c.strategy == "sliding" then 4 else 3), cut);
    if cut > 0 && c.strategy != "sliding" && HasText(summary) {
      SummaryShape(summary.content, ms[cut..]);
      assert ([Plain] + Shapes(ms[cut..]))[1..] == Shapes(ms[cut..]);
    } else {
      assert [] + ms[cut..] == ms[cut..];
    }
    MatchedIsWellFormed(Shapes(out));
  }

  /** What is kept is the whole history or a suffix from a user message on, with the last three messages in it. */
  lemma CompressionKeepsRecent(c: Settings, summary: Summary, ms: seq<Message>, out: seq<Message>, cut: nat)
    requires CutsAt(c, summary, ms, out, cut)
    ensures |out| >= 3 && out[|out| - 3..] == ms[|ms| - 3..]
    ensures cut == 0 ==> out == ms
    ensures cut > 0 ==> IsUser(ms[cut])
    ensures |out| <= |ms|
  {
    LastKept(Front(c, summary, cut), ms, cut, 3);
    if cut == 0 { WholeKept(ms); }
  }

  lemma WholeKept<T>(s: seq<T>)
    ensures [] + s[0..] == s
  {}

  lemma LastKept<T>(front: seq<T>, s: seq<T>, cut: nat, n: nat)
    requires cut + n <= |s|
    ensures var out := front + s[cut..]; |out| >= n && out[|out| - n..] == s[|s| - n..]
  {}

  // ---------- Conversion for the model ----------

  datatype Part = TextPart(text: string) | ImagePart(url: string)

  datatype Schema =
    | System(content: string)
    | User(content: string)
    | UserParts(parts: seq<Part>)
    | Assistant(content: string, reasoning: string, calls: seq<ToolCall>)
    | ToolReply(content: string, id: string)

  function SchemaShape(s: Schema): Shape<string> {
    match s
    case Assistant(_, _, calls) => Calls(CallIds(calls))
    case ToolReply(_, id) => Reply(id)
    case System(_) => Plain
    case User(_) => Plain
    case UserParts(_) => Plain
  }

  function SchemaShapes(s: seq<Schema>): (r: seq<Shape<string>>)
    ensures |r| == |s| && forall k | 0 <= k < |s| :: r[k] == SchemaShape(s[k])
  {
    seq(|s|, k requires 0 <= k < |s| => SchemaShape(s[k]))
  }

  lemma SchemaShapesAppend(a: seq<Schema>, b: seq<Schema>)
    ensures SchemaShapes(a + b) == SchemaShapes(a) + SchemaShapes(b)
  {}

  function Images(urls: seq<string>): (r: seq<Part>)
    ensures |r| == |urls| && forall k | 0 <= k < |r| :: r[k] == ImagePart(urls[k])
  {
    seq(|urls|, k requires 0 <= k < |urls| => ImagePart(urls[k]))
  }

  /** The schema message for a message of kind `k`, if it has one. */
  function Converted(k: Kind, m: Message, multimodal: bool): seq<Schema> {
    match k
    case SystemKind => [System(m.content)]
    case AssistantKind => [Assistant(m.content, "", m.toolCalls)]
    case ToolKind => [ToolReply(m.content, m.toolCallId)]
    case UserKind =>
      if m.images != [] && multimodal then
        [UserParts((if TrimSpace(m.content) != "" then [TextPart(m.content)] else []) + Images(m.images))]
      else [User(m.content)]
    case UnknownKind => []
  }

  function ConvertedAll(ms: seq<Message>, multimodal: bool): seq<Schema> {
    if ms == [] then []
    else ConvertedAll(ms[..|ms| - 1], multimodal) + Converted(KindOf(ms[|ms| - 1].role), ms[|ms| - 1], multimodal)
  }

  /** One message is converted branch by branch, as the source's switch does. */
  method ConvertOne(m: Message, multimodal: bool) returns (out: seq<Schema>)
    ensures out == Converted(KindOf(m.role), m, multimodal)
  {
    match KindOf(m.role)
    case SystemKind => out := [System(m.content)];
    case AssistantKind =>
      var toolCalls: seq<ToolCall> := [];
      for i := 0 to |m.toolCalls|
        invariant toolCalls == m.toolCalls[..i]
      {
        toolCalls := toolCalls + [ToolCall(m.toolCalls[i].id, m.toolCalls[i].name, m.toolCalls[i].args)];
      }
      assert m.toolCalls[..|m.toolCalls|] == m.toolCalls;
      out := [Assistant(m.content, "", toolCalls)];
    case ToolKind => out := [ToolReply(m.content, m.toolCallId)];
    case UserKind =>
      if |m.images| > 0 && multimodal {
        var parts: seq<Part> := [];
        if TrimSpace(m.content) != "" { parts := [TextPart(m.content)]; }
        ghost var text := parts;
        for i := 0 to |m.images|
          invariant parts == text + Images(m.images[..i])
        {
          assert Images(m.images[..i + 1]) == Images(m.images[..i]) + [ImagePart(m.images[i])];
          parts := parts + [ImagePart(m.images[i])];
        }
        assert m.images[..|m.images|] == m.images;
        out := [UserParts(parts)];
      } else {
        out := [User(m.content)];
      }
    case UnknownKind => out := [];
  }

  // ---------- What the model sees ----------

  function RoleOf(x: Schema): string {
    match x
    case System(_) => "system"
    case User(_) => "user"
    case UserParts(_) => "user"
    case Assistant(_, _, _) => "assistant"
    case ToolReply(_, _) => "tool"
  }

  function PartsOf(x: Schema): seq<Part> {
    match x
    case System(content) => [TextPart(content)]
    case User(content) => [TextPart(content)]
    case UserParts(parts) => parts
    case Assistant(content, _, _) => [TextPart(content)]
    case ToolReply(content, _) => [TextPart(content)]
  }

  function CallsOf(x: Schema): seq<ToolCall> {
    if x.Assistant? then x.calls else []
  }

  function ReplyIdOf(x: Schema): Option<string> {
    if x.ToolReply? then Some(x.id) else None
  }

  predicate KnownRole(m: Message) {
    ToLower(m.role) in ["system", "assistant", "tool", "user"]
  }

  /** The messages whose role the model knows, in order. */
  function Known(ms: seq<Message>): seq<Message> {
    if ms == [] then []
    else if KnownRole(ms[0]) then [ms[0]] + Known(ms[1..])
    else Known(ms[1..])
  }

  /** A text that is not blank comes first, then every image in order. */
  ghost predicate TextThenImages(m: Message, parts: seq<Part>) {
    var t := if Blank(m.content) then 0 else 1;
    && |parts| == t + |m.images|
    && (t == 1 ==> parts[0] == TextPart(m.content))
    && forall i | 0 <= i < |m.images| :: parts[t + i] == ImagePart(m.images[i])
  }

  /** The model sees `m` as `x`: under its role, with its content, the calls of an assistant and the id of a reply. */
  ghost predicate SeenAs(m: Message, multimodal: bool, x: Schema) {
    var role := ToLower(m.role);
    && RoleOf(x) == role
    && CallsOf(x) == (if role == "assistant" then m.toolCalls else [])
    && ReplyIdOf(x) == (if role == "tool" then Some(m.toolCallId) else None)
    && (x.UserParts? <==> role == "user" && multimodal && m.images != [])
    && if x.UserParts? then TextThenImages(m, PartsOf(x)) else PartsOf(x) == [TextPart(m.content)]
  }

  /** A request: the prompt unless it is blank, then each message of a known role, in order. */
  ghost predicate Presents(sysPrompt: string, multimodal: bool, ms: seq<Message>, out: seq<Schema>) {
    var p, known := if Blank(sysPrompt) then 0 else 1, Known(ms);
    && |out| == p + |known|
    && (p == 1 ==> out[0] == System(sysPrompt))
    && forall k | 0 <= k < |known| :: SeenAs(known[k], multimodal, out[p + k])
  }

  lemma ConvertedIsSeen(m: Message, multimodal: bool)
    ensures var xs := Converted(KindOf(m.role), m, multimodal);
      if KnownRole(m) then |xs| == 1 && SeenAs(m, multimodal, xs[0]) else xs == []
  {
    hide ToLower, TrimSpace;
    TrimsToNothingIffBlank(m.content);
  }

  lemma {:induction false} KnownAppend(a: seq<Message>, m: Message)
    ensures Known(a + [m]) == Known(a) + if KnownRole(m) then [m] else []
  {
    if a == [] {
      assert a + [m] == [m] && [m][1..] == [];
    } else {
      assert (a + [m])[1..] == a[1..] + [m];
      KnownAppend(a[1..], m);
    }
  }

  lemma {:induction false} ConversionPresents(sysPrompt: string, multimodal: bool, ms: seq<Message>)
    ensures Presents(sysPrompt, multimodal, ms, Prompt(sysPrompt) + ConvertedAll(ms, multimodal))
  {
    if ms == [] {
      PromptPresents(sysPrompt, multimodal);
    } else {
      var n := |ms| - 1;
      ConversionPresents(sysPrompt, multimodal, ms[..n]);
      ConversionStep(sysPrompt, multimodal, ms);
    }
  }

  lemma PromptPresents(sysPrompt: string, multimodal: bool)
    ensures Presents(sysPrompt, multimodal, [], Prompt(sysPrompt) + ConvertedAll([], multimodal))
  {
    TrimsToNothingIffBlank(sysPrompt);
  }

  lemma ConversionStep(sysPrompt: string, multimodal: bool, ms: seq<Message>)
    requires ms != []
    requires var rest := ms[..|ms| - 1];
      Presents(sysPrompt, multimodal, rest, Prompt(sysPrompt) + ConvertedAll(rest, multimodal))
    ensures Presents(sysPrompt, multimodal, ms, Prompt(sysPrompt) + ConvertedAll(ms, multimodal))
  {
    hide SeenAs, Converted, KnownRole, Presents, Prompt, KindOf;
    var rest, m := ms[..|ms| - 1], ms[|ms| - 1];
    var xs := Converted(KindOf(m.role), m, multimodal);
    ConvertedIsSeen(m, multimodal);
    PresentsMore(sysPrompt, multimodal, rest, m, Prompt(sysPrompt) + ConvertedAll(rest, multimodal), xs);
    assert ms == rest + [m];
    Associate(Prompt(sysPrompt), ConvertedAll(rest, multimodal), xs);
  }

  lemma PresentsMore(sysPrompt: string, multimodal: bool, ms: seq<Message>, m: Message, out: seq<Schema>,
          xs: seq<Schema>)
    requires Presents(sysPrompt, multimodal, ms, out)
    requires if KnownRole(m) then |xs| == 1 && SeenAs(m, multimodal, xs[0]) else xs == []
    ensures Presents(sysPrompt, multimodal, ms + [m], out + xs)
  {
    hide SeenAs, KnownRole, Blank;
    KnownAppend(ms, m);
  }

  function Prompt(sysPrompt: string): seq<Schema> {
    if TrimSpace(sysPrompt) != "" then [System(sysPrompt)] else []
  }

  method BuildSchemaMessages(sysPrompt: string, multimodal: bool, ms: seq<Message>) returns (out: seq<Schema>)
    ensures out == Prompt(sysPrompt) + ConvertedAll(ms, multimodal)
    ensures Presents(sysPrompt, multimodal, ms, out)
  {
    out := [];
    if TrimSpace(sysPrompt) != "" { out := [System(sysPrompt)]; }
    ghost var prompt := out;
    assert ms[..0] == [];
    for i := 0 to |ms|
      invariant out == prompt + ConvertedAll(ms[..i], multimodal)
    {
      var one := ConvertOne(ms[i], multimodal);
      assert ms[..i + 1][..i] == ms[..i];
      Associate(prompt, ConvertedAll(ms[..i], multimodal), one);
      out := out + one;
    }
    assert ms[..|ms|] == ms;
    ConversionPresents(sysPrompt, multimodal, ms);
  }

  lemma ConvertedShape(k: Kind, m: Message, multimodal: bool)
    ensures SchemaShapes(Converted(k, m, multimodal)) == ShapeFor(k, m)
  {}

  /** Conversion drops unknown roles and keeps the calls and replies of the others, in order. */
  lemma {:induction false} ConversionKeepsShapes(ms: seq<Message>, multimodal: bool)
    ensures SchemaShapes(ConvertedAll(ms, multimodal)) == Shapes(ms)
  {
    if ms != [] {
      var n := |ms| - 1;
      ConversionKeepsShapes(ms[..n], multimodal);
      ConvertedShape(KindOf(ms[n].role), ms[n], multimodal);
      SchemaShapesAppend(ConvertedAll(ms[..n], multimodal), Converted(KindOf(ms[n].role), ms[n], multimodal));
      ShapesAppend(ms[..n], [ms[n]]);
      assert [ms[n]][1..] == [] && ms[..n] + [ms[n]] == ms;
      assert Shapes([ms[n]]) == ShapeFor(KindOf(ms[n].role), ms[n]) + [];
    }
  }

  /** A well-formed conversation becomes a well-formed request, whatever the system prompt. */
  lemma RequestIsWellFormed(sysPrompt: string, multimodal: bool, ms: seq<Message>)
    requires WellFormed(Shapes(ms))
    ensures WellFormed(SchemaShapes(Prompt(sysPrompt) + ConvertedAll(ms, multimodal)))
  {
    var prompt := Prompt(sysPrompt);
    ConversionKeepsShapes(ms, multimodal);
    SchemaShapesAppend(prompt, ConvertedAll(ms, multimodal));
    MatchedIsWellFormed(Shapes(ms));
    PromptMatched(prompt);
    MatchedAppend([], SchemaShapes(prompt), Shapes(ms));
    MatchedIsWellFormed(SchemaShapes(prompt) + Shapes(ms));
  }

  lemma PromptMatched(prompt: seq<Schema>)
    requires prompt == [] || (|prompt| == 1 && prompt[0].System?)
    ensures Matched([], SchemaShapes(prompt))
  {
    if prompt != [] { assert SchemaShapes(prompt)[1..] == []; }
  }
}
