/** Rendering a JSON template: references inside string literals keep the template's structure. */
module JsonSplicing {
  import opened Options
  import opened GoStrings
  import opened Rendering

  // ---------- Lexing JSON (RFC 8259) ----------

  /** A string literal with its decoded text, or a character outside of all string literals. */
  datatype Lexeme = Quoted(text: string) | Mark(c: char)

  predicate IsHex(c: char) {
    '0' <= c <= '9' || 'a' <= c <= 'f' || 'A' <= c <= 'F'
  }

  function HexValue(c: char): (n: nat)
    requires IsHex(c)
    ensures n < 16
  {
    if '0' <= c <= '9' then (c - '0') as nat
    else if 'a' <= c <= 'f' then (c - 'a') as nat + 10
    else (c - 'A') as nat + 10
  }

  function HexOfFour(s: string): (n: nat)
    requires |s| == 4 && forall c <- s :: IsHex(c)
    ensures n < 0x10000
  {
    assert s[0] in s && s[1] in s && s[2] in s && s[3] in s;
    ((HexValue(s[0]) * 16 + HexValue(s[1])) * 16 + HexValue(s[2])) * 16 + HexValue(s[3])
  }

  /** The character that a two-character escape stands for. */
  function Escape(c: char): Option<char> {
    if c == '"' || c == '\\' || c == '/' then Some(c)
    else if c == 'b' then Some('\U{8}')
    else if c == 'f' then Some('\U{C}')
    else if c == 'n' then Some('\n')
    else if c == 'r' then Some('\r')
    else if c == 't' then Some('\t')
    else None
  }

  /** The first character of a string body (section 7): how many characters spell it, and which it is. Escaped
      surrogates do not count: an encoder writes those characters as they are. */
  datatype Unit = NoUnit | Unit(length: nat, c: char)

  function UnitAt(s: string): (u: Unit)
    ensures u.Unit? ==> 0 < u.length <= |s|
  {
    if s == [] || s[0] == '"' || s[0] < ' ' then NoUnit
    else if s[0] != '\\' then Unit(1, s[0])
    else if |s| >= 2 && Escape(s[1]).Some? then Unit(2, Escape(s[1]).value)
    else if |s| >= 6 && s[1] == 'u' && (forall c <- s[2..6] :: IsHex(c)) && IsScalar(HexOfFour(s[2..6])) then
      Unit(6, HexOfFour(s[2..6]) as char)
    else NoUnit
  }

  predicate IsScalar(n: nat) {
    n < 0xD800 || 0xE000 <= n < 0x10000
  }

  function Prefixed(x: Lexeme, rest: Option<seq<Lexeme>>): Option<seq<Lexeme>> {
    if rest.None? then None else Some([x] + rest.value)
  }

  /** The lexemes of a text, if every string literal in it is closed. */
  function Lex(s: string): Option<seq<Lexeme>>
    decreases |s|
  {
    if s == [] then Some([])
    else if s[0] == '"' then LexString(s[1..], [])
    else Prefixed(Mark(s[0]), Lex(s[1..]))
  }

  /** Inside a string literal of which `text` has been read. */
  function LexString(s: string, text: string): Option<seq<Lexeme>>
    decreases |s|
  {
    if s == [] then None
    else if s[0] == '"' then Prefixed(Quoted(text), Lex(s[1..]))
    else
      var u := UnitAt(s);
      if u.NoUnit? then None else LexString(s[u.length..], text + [u.c])
  }

  /** The lexemes without the texts of string literals: what a parser of the structure sees. */
  function Shape(xs: seq<Lexeme>): seq<Lexeme> {
    seq(|xs|, i requires 0 <= i < |xs| => if xs[i].Quoted? then Quoted("") else xs[i])
  }

  // ---------- String bodies ----------

  /** `body` can stand inside a string literal, where it spells `text`. */
  ghost predicate Spells(body: string, text: string)
    decreases |body|
  {
    if body == [] then text == []
    else
      var u := UnitAt(body);
      u.Unit? && text != [] && text[0] == u.c && Spells(body[u.length..], text[1..])
  }

  lemma UnitAppend(s: string, rest: string)
    requires UnitAt(s).Unit?
    ensures UnitAt(s + rest) == UnitAt(s)
  {
    if s[0] == '\\' && |s| >= 6 { assert (s + rest)[2..6] == s[2..6]; }
  }

  /** A body inside a literal adds exactly its text. */
  lemma {:induction false} BodyLexes(body: string, text: string, rest: string, before: string)
    requires Spells(body, text)
    ensures LexString(body + rest, before) == LexString(rest, before + text)
    decreases |body|
  {
    if body == [] {
      assert body + rest == rest && before + text == before;
    } else {
      var u := UnitAt(body);
      UnitAppend(body, rest);
      assert (body + rest)[u.length..] == body[u.length..] + rest;
      BodyLexes(body[u.length..], text[1..], rest, before + [u.c]);
      assert before + [u.c] + text[1..] == before + text;
    }
  }

  /** Plain text spells itself. */
  lemma {:induction false} PlainSpells(s: string)
    requires forall c <- s :: c != '"' && c != '\\' && c >= ' '
    ensures Spells(s, s)
    decreases |s|
  {
    if s != [] {
      assert s[0] in s;
      forall c <- s[1..] ensures c != '"' && c != '\\' && c >= ' ' { assert c in s; }
      PlainSpells(s[1..]);
    }
  }

  lemma PlaceholderSpells(path: string)
    requires WellFormedPart(Placed(path))
    ensures Spells(Placeholder(path), Placeholder(path))
  {
    forall c <- Placeholder(path) ensures c != '"' && c != '\\' && c >= ' ' {
      assert c == '{' || c == '}' || c in path;
    }
    PlainSpells(Placeholder(path));
  }

  // ---------- Templates ----------

  /** What fills the references: the text that is spliced in, and the text it spells. */
  type Filling = string -> string

  function Filled(ps: seq<Part>, splice: Filling): string {
    if ps == [] then []
    else (match ps[0] case Literal(text) => text case Placed(path) => splice(path)) + Filled(ps[1..], splice)
  }

  /**
   * The lexemes of a template whose references stand for the texts of `fill`, if each reference is inside a string
   * literal and no escape is torn apart by one. `inside` and `text` say where the template starts.
   */
  function LexTemplate(ps: seq<Part>, fill: Filling, inside: bool, text: string): Option<seq<Lexeme>>
    decreases |ps|, 1, 0
  {
    if ps == [] then (if inside then None else Some([]))
    else
      match ps[0]
      case Literal(lit) => LexLiteral(lit, ps[1..], fill, inside, text)
      case Placed(path) => if inside then LexTemplate(ps[1..], fill, true, text + fill(path)) else None
  }

  function LexLiteral(lit: string, ps: seq<Part>, fill: Filling, inside: bool, text: string): Option<seq<Lexeme>>
    decreases |ps| + 1, 0, |lit|
  {
    if lit == [] then LexTemplate(ps, fill, inside, text)
    else if !inside then
      if lit[0] == '"' then LexLiteral(lit[1..], ps, fill, true, [])
      else Prefixed(Mark(lit[0]), LexLiteral(lit[1..], ps, fill, false, []))
    else if lit[0] == '"' then Prefixed(Quoted(text), LexLiteral(lit[1..], ps, fill, false, []))
    else
      var u := UnitAt(lit);
      if u.NoUnit? then None else LexLiteral(lit[u.length..], ps, fill, true, text + [u.c])
  }

  function LexFrom(s: string, inside: bool, text: string): Option<seq<Lexeme>> {
    if inside then LexString(s, text) else Lex(s)
  }

  ghost predicate SpellsAll(ps: seq<Part>, splice: Filling, fill: Filling) {
    forall p <- ps :: p.Placed? ==> Spells(splice(p.path), fill(p.path))
  }

  /** Lexing the filled text is filling the lexed template. */
  lemma {:induction false} FilledLexes(ps: seq<Part>, splice: Filling, fill: Filling, inside: bool, text: string)
    requires SpellsAll(ps, splice, fill) && LexTemplate(ps, fill, inside, text).Some?
    ensures LexFrom(Filled(ps, splice), inside, text) == LexTemplate(ps, fill, inside, text)
    decreases |ps|, 1, 0
  {
    if ps != [] {
      assert ps[0] in ps;
      forall p <- ps[1..] | p.Placed? ensures Spells(splice(p.path), fill(p.path)) { assert p in ps; }
      match ps[0]
      case Literal(lit) => LiteralLexes(lit, ps[1..], splice, fill, inside, text);
      case Placed(path) =>
        FilledLexes(ps[1..], splice, fill, true, text + fill(path));
        BodyLexes(splice(path), fill(path), Filled(ps[1..], splice), text);
    }
  }

  lemma {:induction false} LiteralLexes(lit: string, ps: seq<Part>, splice: Filling, fill: Filling, inside: bool,
          text: string)
    requires SpellsAll(ps, splice, fill) && LexLiteral(lit, ps, fill, inside, text).Some?
    ensures LexFrom(lit + Filled(ps, splice), inside, text) == LexLiteral(lit, ps, fill, inside, text)
    decreases |ps| + 1, 0, |lit|
  {
    var rest := Filled(ps, splice);
    if lit == [] {
      assert lit + rest == rest;
      FilledLexes(ps, splice, fill, inside, text);
    } else {
      assert (lit + rest)[1..] == lit[1..] + rest && (lit + rest)[0] == lit[0];
      if !inside {
        LiteralLexes(lit[1..], ps, splice, fill, lit[0] == '"', []);
      } else if lit[0] == '"' {
        LiteralLexes(lit[1..], ps, splice, fill, false, []);
      } else {
        var u := UnitAt(lit);
        UnitAppend(lit, rest);
        assert (lit + rest)[u.length..] == lit[u.length..] + rest;
        LiteralLexes(lit[u.length..], ps, splice, fill, true, text + [u.c]);
      }
    }
  }

  // ---------- Other texts in the same places ----------

  ghost predicate SameShape(a: Option<seq<Lexeme>>, b: Option<seq<Lexeme>>) {
    (a.Some? <==> b.Some?) && (a.Some? && b.Some? ==> Shape(a.value) == Shape(b.value))
  }

  lemma PrefixedShape(x: Lexeme, y: Lexeme, a: Option<seq<Lexeme>>, b: Option<seq<Lexeme>>)
    requires SameShape(a, b) && (x == y || (x.Quoted? && y.Quoted?))
    ensures SameShape(Prefixed(x, a), Prefixed(y, b))
  {
    if a.Some? {
      var s, t := Shape([x] + a.value), Shape([y] + b.value);
      forall i | 0 <= i < |s| ensures i < |t| && s[i] == t[i] {
        if i > 0 { assert s[i] == Shape(a.value)[i - 1] && t[i] == Shape(b.value)[i - 1]; }
      }
    }
  }

  lemma {:induction false} TemplateShape(ps: seq<Part>, f: Filling, g: Filling, inside: bool, t: string, u: string)
    ensures SameShape(LexTemplate(ps, f, inside, t), LexTemplate(ps, g, inside, u))
    decreases |ps|, 1, 0
  {
    if ps != [] {
      match ps[0]
      case Literal(lit) => LiteralShape(lit, ps[1..], f, g, inside, t, u);
      case Placed(path) => if inside { TemplateShape(ps[1..], f, g, true, t + f(path), u + g(path)); }
    }
  }

  lemma {:induction false} LiteralShape(lit: string, ps: seq<Part>, f: Filling, g: Filling, inside: bool, t: string,
          u: string)
    ensures SameShape(LexLiteral(lit, ps, f, inside, t), LexLiteral(lit, ps, g, inside, u))
    decreases |ps| + 1, 0, |lit|
  {
    if lit == [] {
      TemplateShape(ps, f, g, inside, t, u);
    } else if !inside {
      LiteralShape(lit[1..], ps, f, g, lit[0] == '"', [], []);
      if lit[0] != '"' {
        PrefixedShape(Mark(lit[0]), Mark(lit[0]), LexLiteral(lit[1..], ps, f, false, []),
          LexLiteral(lit[1..], ps, g, false, []));
      }
    } else if lit[0] == '"' {
      LiteralShape(lit[1..], ps, f, g, false, [], []);
      PrefixedShape(Quoted(t), Quoted(u), LexLiteral(lit[1..], ps, f, false, []),
        LexLiteral(lit[1..], ps, g, false, []));
    } else {
      var unit := UnitAt(lit);
      if unit.Unit? { LiteralShape(lit[unit.length..], ps, f, g, true, t + [unit.c], u + [unit.c]); }
    }
  }

  // ---------- Rendering ----------

  /** The encoder prints a text as a JSON string that spells it. */
  ghost predicate Faithful(json: Encoder) {
    forall s :: IsLiteralOf(json(Text(s)), s)
  }

  ghost predicate IsLiteralOf(literal: string, text: string) {
    && |literal| >= 2 && literal[0] == '"' && literal[|literal| - 1] == '"'
    && Spells(literal[1..|literal| - 1], text)
  }

  /** What the reference at `path` resolves to. */
  function Resolved(path: string, outputs: Outputs): Option<Value>
    requires path != []
  {
    var parts := Path(Placeholder(path));
    if parts[0] in outputs then Follow(outputs[parts[0]], parts, 1) else None
  }

  /** The text that a reference stands for inside a string literal. */
  function TextAt(json: Encoder, path: string, outputs: Outputs): string {
    if path == [] || Resolved(path, outputs).None? then Placeholder(path)
    else
      match Resolved(path, outputs).value
      case Text(s) => s
      case Scalar(printed) => printed
      case v => json(v)
  }

  /** A reference that resolves to a text, or to a value whose print needs no quoting; or to nothing. */
  ghost predicate FitsString(json: Encoder, path: string, outputs: Outputs)
    requires path != []
  {
    match Resolved(path, outputs)
    case None => true
    case Some(Text(_)) => true
    case Some(Scalar(printed)) => Spells(printed, printed)
    case Some(v) => Spells(json(v), json(v))
  }

  function Spliced(json: Encoder, outputs: Outputs): Filling {
    path => if path == [] then Placeholder(path) else Replacement(json, Placeholder(path), outputs)
  }

  function Texts(json: Encoder, outputs: Outputs): Filling {
    path => TextAt(json, path, outputs)
  }

  function AsWritten(path: string): string {
    Placeholder(path)
  }

  ghost predicate GoodReferences(json: Encoder, ps: seq<Part>, outputs: Outputs) {
    forall p <- ps :: WellFormedPart(p) && (p.Placed? ==> FitsString(json, p.path, outputs))
  }

  lemma SpliceSpells(json: Encoder, path: string, outputs: Outputs)
    requires Faithful(json) && WellFormedPart(Placed(path)) && FitsString(json, path, outputs)
    ensures Spells(Spliced(json, outputs)(path), TextAt(json, path, outputs))
  {
    PlaceholderSpells(path);
    var v := Resolved(path, outputs);
    if v.Some? && v.value.Text? { assert IsLiteralOf(json(v.value), v.value.s); }
  }

  lemma {:induction false} MeaningIsFilled(json: Encoder, ps: seq<Part>, outputs: Outputs)
    ensures Filled(ps, Spliced(json, outputs)) == Meaning(json, ps, outputs)
  {
    if ps != [] { MeaningIsFilled(json, ps[1..], outputs); }
  }

  lemma {:induction false} WrittenIsFilled(ps: seq<Part>)
    ensures Filled(ps, AsWritten) == Written(ps)
  {
    if ps != [] { WrittenIsFilled(ps[1..]); }
  }

  /**
   * A JSON template with its references inside string literals stays lexically well-formed when it is rendered, with
   * the same structure; and its string literals mean those of the template with each reference replaced by its text,
   * whatever quotes, backslashes or line ends the text holds.
   */
  lemma RenderingKeepsStructure(json: Encoder, ps: seq<Part>, outputs: Outputs)
    requires Faithful(json) && GoodReferences(json, ps, outputs) && LexTemplate(ps, AsWritten, false, []).Some?
    ensures var rendered := Substitute(json, Written(ps), outputs);
      && Lex(rendered).Some? && Lex(Written(ps)).Some?
      && Shape(Lex(rendered).value) == Shape(Lex(Written(ps)).value)
      && Lex(rendered) == LexTemplate(ps, Texts(json, outputs), false, [])
  {
    RenderingIsMeaning(json, ps, outputs);
    MeaningIsFilled(json, ps, outputs);
    WrittenIsFilled(ps);
    TemplateShape(ps, AsWritten, Texts(json, outputs), false, [], []);
    forall p <- ps | p.Placed? ensures Spells(Spliced(json, outputs)(p.path), TextAt(json, p.path, outputs)) {
      SpliceSpells(json, p.path, outputs);
    }
    forall p <- ps | p.Placed? ensures Spells(AsWritten(p.path), AsWritten(p.path)) { PlaceholderSpells(p.path); }
    FilledLexes(ps, Spliced(json, outputs), Texts(json, outputs), false, []);
    FilledLexes(ps, AsWritten, AsWritten, false, []);
  }

  // ---------- Quotes in what is spliced in ----------

  /** A print without escapes in which every string literal is closed. */
  ghost predicate ClosedPrint(s: string) {
    Lex(s).Some? && forall c <- s :: c != '\\' && c >= ' '
  }

  /** Whether reading `s`, which holds no escape, leads into a string literal or out of it. */
  function Turns(s: string): bool {
    s != [] && (s[0] == '"') != Turns(s[1..])
  }

  /** The text of the open literal once `s` is read, from `text` on. */
  function TextAfter(s: string, inside: bool, text: string): string
    decreases |s|
  {
    if s == [] then text
    else if s[0] == '"' then TextAfter(s[1..], !inside, [])
    else TextAfter(s[1..], inside, if inside then text + [s[0]] else text)
  }

  ghost predicate LongerBy(a: Option<seq<Lexeme>>, b: Option<seq<Lexeme>>, n: nat) {
    (a.Some? <==> b.Some?) && (a.Some? && b.Some? ==> |a.value| >= |b.value| + n)
  }

  /** A print inside a literal adds lexemes exactly when it holds a quote. */
  lemma {:induction false} PrintLexes(s: string, rest: string, inside: bool, text: string)
    requires forall c <- s :: c != '\\' && c >= ' '
    ensures LongerBy(LexFrom(s + rest, inside, text), LexFrom(rest, inside != Turns(s), TextAfter(s, inside, text)),
        if inside && '"' in s then 1 else 0)
    decreases |s|
  {
    if s == [] {
      assert s + rest == rest;
    } else {
      assert s[0] in s;
      forall c <- s[1..] ensures c != '\\' && c >= ' ' { assert c in s; }
      assert (s + rest)[1..] == s[1..] + rest && (s + rest)[0] == s[0] && s == [s[0]] + s[1..];
      if s[0] == '"' {
        PrintLexes(s[1..], rest, !inside, []);
      } else {
        PrintLexes(s[1..], rest, inside, if inside then text + [s[0]] else text);
      }
    }
  }

  lemma ClosedTurnsBack(s: string)
    requires ClosedPrint(s)
    ensures !Turns(s)
  {
    PrintLexes(s, [], false, []);
    assert s + [] == s;
  }

  ghost predicate IsBody(s: string) {
    exists text :: Spells(s, text)
  }

  lemma {:induction false} QuoteIsNoBody(s: string, text: string)
    requires (forall c <- s :: c != '\\' && c >= ' ') && Spells(s, text)
    ensures '"' !in s
    decreases |s|
  {
    if s != [] {
      assert s[0] in s && s == [s[0]] + s[1..];
      forall c <- s[1..] ensures c != '\\' && c >= ' ' { assert c in s; }
      QuoteIsNoBody(s[1..], text[1..]);
    }
  }

  ghost predicate ClosedAll(ps: seq<Part>, splice: Filling) {
    forall p <- ps :: p.Placed? ==> IsBody(splice(p.path)) || ClosedPrint(splice(p.path))
  }

  ghost predicate Breaks(ps: seq<Part>, splice: Filling) {
    exists p :: p in ps && p.Placed? && !IsBody(splice(p.path))
  }

  ghost function Added(ps: seq<Part>, splice: Filling): nat {
    if Breaks(ps, splice) then 1 else 0
  }

  lemma BreaksFirst(ps: seq<Part>, splice: Filling)
    requires ps != [] && ClosedAll(ps, splice)
    ensures ClosedAll(ps[1..], splice)
    ensures Breaks(ps, splice) <==> (ps[0].Placed? && !IsBody(splice(ps[0].path))) || Breaks(ps[1..], splice)
  {
    assert ps == [ps[0]] + ps[1..];
  }

  /** What stands in for a reference inside a literal leads back into it, with a lexeme more when it is no body. */
  lemma SpliceLexes(s: string, rest: string, text: string) returns (after: string)
    requires IsBody(s) || ClosedPrint(s)
    ensures LongerBy(LexString(s + rest, text), LexString(rest, after), if IsBody(s) then 0 else 1)
  {
    if IsBody(s) {
      var spelled :| Spells(s, spelled);
      BodyLexes(s, spelled, rest, text);
      after := text + spelled;
    } else {
      PrintLexes(s, rest, true, text);
      ClosedTurnsBack(s);
      if '"' !in s { PlainSpells(s); }
      after := TextAfter(s, true, text);
    }
  }

  /** The filled template lexes, into more lexemes than the template when some reference breaks its literal. */
  lemma {:induction false} FilledIsLonger(ps: seq<Part>, splice: Filling, fill: Filling, inside: bool, text: string,
          other: string)
    requires ClosedAll(ps, splice) && LexTemplate(ps, fill, inside, other).Some?
    ensures LongerBy(LexFrom(Filled(ps, splice), inside, text), LexTemplate(ps, fill, inside, other), Added(ps, splice))
    decreases |ps|, 1, 0
  {
    if ps != [] {
      BreaksFirst(ps, splice);
      match ps[0]
      case Literal(lit) => LiteralIsLonger(lit, ps[1..], splice, fill, inside, text, other);
      case Placed(path) =>
        var after := SpliceLexes(splice(path), Filled(ps[1..], splice), text);
        FilledIsLonger(ps[1..], splice, fill, true, after, other + fill(path));
    }
  }

  lemma {:induction false} LiteralIsLonger(lit: string, ps: seq<Part>, splice: Filling, fill: Filling, inside: bool,
          text: string, other: string)
    requires ClosedAll(ps, splice) && LexLiteral(lit, ps, fill, inside, other).Some?
    ensures LongerBy(LexFrom(lit + Filled(ps, splice), inside, text), LexLiteral(lit, ps, fill, inside, other),
        Added(ps, splice))
    decreases |ps| + 1, 0, |lit|
  {
    var rest := Filled(ps, splice);
    if lit == [] {
      assert lit + rest == rest;
      FilledIsLonger(ps, splice, fill, inside, text, other);
    } else {
      assert (lit + rest)[1..] == lit[1..] + rest && (lit + rest)[0] == lit[0];
      if !inside {
        LiteralIsLonger(lit[1..], ps, splice, fill, lit[0] == '"', [], []);
      } else if lit[0] == '"' {
        LiteralIsLonger(lit[1..], ps, splice, fill, false, [], []);
      } else {
        var u := UnitAt(lit);
        UnitAppend(lit, rest);
        assert (lit + rest)[u.length..] == lit[u.length..] + rest;
        LiteralIsLonger(lit[u.length..], ps, splice, fill, true, text + [u.c], other + [u.c]);
      }
    }
  }

  function Printed(json: Encoder, v: Value): string {
    if v.Scalar? then v.printed else json(v)
  }

  /** Whatever is not a text is printed without escapes. */
  ghost predicate ClosedReferences(json: Encoder, ps: seq<Part>, outputs: Outputs) {
    forall p <- ps :: WellFormedPart(p) && (p.Placed? ==>
      var v := Resolved(p.path, outputs); v.Some? && !v.value.Text? ==> ClosedPrint(Printed(json, v.value)))
  }

  /** Nothing but texts and values whose print holds no quote. */
  ghost predicate Unquoted(json: Encoder, path: string, outputs: Outputs)
    requires path != []
  {
    var v := Resolved(path, outputs);
    v.Some? && !v.value.Text? ==> '"' !in Printed(json, v.value)
  }

  lemma UnquotedIsBody(json: Encoder, path: string, outputs: Outputs)
    requires Faithful(json) && WellFormedPart(Placed(path))
    requires var v := Resolved(path, outputs); v.Some? && !v.value.Text? ==> ClosedPrint(Printed(json, v.value))
    ensures var s := Spliced(json, outputs)(path);
      && (IsBody(s) || ClosedPrint(s)) && (IsBody(s) <==> Unquoted(json, path, outputs))
      && (Unquoted(json, path, outputs) ==> FitsString(json, path, outputs))
  {
    var v, s := Resolved(path, outputs), Spliced(json, outputs)(path);
    if v.Some? && !v.value.Text? {
      assert s == Printed(json, v.value);
      if '"' !in s { PlainSpells(s); }
      if IsBody(s) {
        var text :| Spells(s, text);
        QuoteIsNoBody(s, text);
      }
    } else {
      SpliceSpells(json, path, outputs);
    }
  }

  /**
   * The exact condition, for values that are printed without escapes: rendering keeps the structure of a template with
   * its references inside string literals exactly when no reference resolves to a value, other than a text, whose print
   * holds a quote.
   */
  lemma StructureIsKeptIff(json: Encoder, ps: seq<Part>, outputs: Outputs)
    requires Faithful(json) && ClosedReferences(json, ps, outputs) && LexTemplate(ps, AsWritten, false, []).Some?
    ensures SameShape(Lex(Substitute(json, Written(ps), outputs)), Lex(Written(ps))) <==>
      forall p <- ps :: p.Placed? ==> Unquoted(json, p.path, outputs)
  {
    forall p <- ps | p.Placed?
      ensures var s := Spliced(json, outputs)(p.path);
        && (IsBody(s) || ClosedPrint(s)) && (IsBody(s) <==> Unquoted(json, p.path, outputs))
        && (Unquoted(json, p.path, outputs) ==> FitsString(json, p.path, outputs))
    {
      UnquotedIsBody(json, p.path, outputs);
    }
    if forall p <- ps :: p.Placed? ==> Unquoted(json, p.path, outputs) {
      RenderingKeepsStructure(json, ps, outputs);
    } else {
      RenderingIsMeaning(json, ps, outputs);
      MeaningIsFilled(json, ps, outputs);
      WrittenIsFilled(ps);
      FilledIsLonger(ps, Spliced(json, outputs), AsWritten, false, [], []);
      forall p <- ps | p.Placed? ensures Spells(AsWritten(p.path), AsWritten(p.path)) { PlaceholderSpells(p.path); }
      FilledLexes(ps, AsWritten, AsWritten, false, []);
    }
  }

  /**
   * An object that is not empty, alone between two quotes, is printed with its own quotes and ends the literal,
   * whatever its fields hold.
   */
  lemma ObjectBreaksString(json: Encoder, id: string, fields: map<string, Value>)
    requires id != [] && forall c <- id :: IsRefChar(c) && c != '.'
    requires "{\"" <= json(Object(fields))
    ensures var ps := [Literal("\""), Placed(id), Literal("\"")];
      && LexTemplate(ps, AsWritten, false, []) == Some([Quoted(Placeholder(id))])
      && !SameShape(Lex(Substitute(json, Written(ps), map[id := Object(fields)])), Some([Quoted(Placeholder(id))]))
  {
    hide Lex, LexTemplate, Substitute, Meaning, Replacement, Split;
    var ps, outputs := [Literal("\""), Placed(id), Literal("\"")], map[id := Object(fields)];
    assert forall p <- ps :: WellFormedPart(p);
    RenderingIsMeaning(json, ps, outputs);
    ObjectIsPrinted(json, id, fields);
    MeaningOfOne(json, id, outputs);
    EarlyQuote(json(Object(fields)));
    TemplateOfOne(id);
  }

  lemma ObjectIsPrinted(json: Encoder, id: string, fields: map<string, Value>)
    requires id != [] && '.' !in id
    ensures Replacement(json, Placeholder(id), map[id := Object(fields)]) == json(Object(fields))
  {
    SplitOne(id, '.');
    assert Placeholder(id)[2..|Placeholder(id)| - 2] == id;
  }

  lemma MeaningOfOne(json: Encoder, id: string, outputs: Outputs)
    requires id != []
    ensures Meaning(json, [Literal("\""), Placed(id), Literal("\"")], outputs) ==
      "\"" + (Replacement(json, Placeholder(id), outputs) + "\"")
  {
    var three, two, one := [Literal("\""), Placed(id), Literal("\"")], [Placed(id), Literal("\"")], [Literal("\"")];
    assert three[1..] == two && two[1..] == one && one[1..] == [];
    assert "\"" + [] == "\"";
    assert Meaning(json, one, outputs) == "\"" + Meaning(json, [], outputs);
    assert Meaning(json, two, outputs) == Replacement(json, Placeholder(id), outputs) + Meaning(json, one, outputs);
  }

  lemma EarlyQuote(body: string)
    requires "{\"" <= body
    ensures Lex("\"" + (body + "\"")).Some? ==> |Lex("\"" + (body + "\"")).value| > 1
  {
    var s, more := "\"" + (body + "\""), body[2..] + "\"";
    assert s[1..] == ['{', '"'] + more && s[1..][1..] == ['"'] + more && s[1..][1..][1..] == more;
    assert Lex(s) == LexString(['"'] + more, [] + ['{']) == Prefixed(Quoted([] + ['{']), Lex(more));
    LexesToSome(more);
  }

  lemma {:induction false} LexesToSome(s: string)
    requires s != []
    ensures Lex(s).Some? ==> |Lex(s).value| > 0
  {
    if s[0] == '"' { StringLexesToSome(s[1..], []); }
  }

  lemma {:induction false} StringLexesToSome(s: string, text: string)
    ensures LexString(s, text).Some? ==> |LexString(s, text).value| > 0
    decreases |s|
  {
    if s != [] && s[0] != '"' && UnitAt(s).Unit? {
      StringLexesToSome(s[UnitAt(s).length..], text + [UnitAt(s).c]);
    }
  }

  lemma TemplateOfOne(id: string)
    ensures LexTemplate([Literal("\""), Placed(id), Literal("\"")], AsWritten, false, []) ==
      Some([Quoted(Placeholder(id))])
  {
    var three, two, one := [Literal("\""), Placed(id), Literal("\"")], [Placed(id), Literal("\"")], [Literal("\"")];
    assert three[1..] == two && two[1..] == one && one[1..] == [] && "\""[1..] == "";
    assert [] + AsWritten(id) == Placeholder(id);
    assert LexLiteral("\"", [], AsWritten, true, Placeholder(id)) == Prefixed(Quoted(Placeholder(id)), Some([]));
    assert LexTemplate(two, AsWritten, true, []) == LexTemplate(one, AsWritten, true, [] + AsWritten(id));
    assert LexLiteral("\"", two, AsWritten, false, []) == LexLiteral("", two, AsWritten, true, []);
    assert [Quoted(Placeholder(id))] + [] == [Quoted(Placeholder(id))];
  }
}
