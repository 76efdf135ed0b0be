/**
 The JSON grammar of RFC 8259 (sections 2 to 7) as concrete syntax trees with
 their layout, and the bracket machine both scanners of the repository run over
 raw text.  JSON.parse is taken to accept exactly this grammar.
 */
module JsonGrammar {
  import opened Wrappers
  import opened JavaScriptText

  // ---- Concrete syntax (RFC 8259) ----

  datatype Json =
    | Literal(word: string)
    | Number(minus: bool, whole: string, fraction: string, exponent: string)
    | Str(raw: string)                       // the characters between the quotes, escapes included
    | Array(gap: string, items: Items)       // `gap` is the white space of an empty array
    | Object(gap: string, items: Items)

  datatype Items = NoItems | Item(before: string, name: Option<Name>, value: Json, after: string, rest: Items)

  datatype Name = Name(raw: string, beforeColon: string, afterColon: string)

  predicate IsSpace(s: string) {
    forall c | c in s :: c == ' ' || c == '\t' || c == '\n' || c == '\r'
  }

  predicate IsHex(c: char) {
    IsDigit(c) || 'a' <= c <= 'f' || 'A' <= c <= 'F'
  }

  /** Section 6: int. */
  predicate IsWhole(s: string) {
    s == "0" || (AllDigits(s) && s[0] != '0')
  }

  predicate IsFraction(s: string) {
    s == "" || (s[0] == '.' && AllDigits(s[1..]))
  }

  predicate IsExponent(s: string) {
    s == "" || ((s[0] == 'e' || s[0] == 'E')
        && (AllDigits(s[1..]) || (|s| > 1 && (s[1] == '+' || s[1] == '-') && AllDigits(s[2..]))))
  }

  /** Section 7: the characters of a string. */
  predicate IsRaw(s: string)
    decreases |s|
  {
    if s == "" then true
    else if s[0] != '\\' then ' ' <= s[0] && s[0] != '"' && IsRaw(s[1..])
    else if |s| == 1 then false
    else if s[1] in "\"\\/bfnrt" then IsRaw(s[2..])
    else s[1] == 'u' && |s| >= 6 && (forall i | 2 <= i < 6 :: IsHex(s[i])) && IsRaw(s[6..])
  }

  predicate WellFormed(v: Json) {
    match v
    case Literal(word) => word == "null" || word == "true" || word == "false"
    case Number(_, whole, fraction, exponent) => IsWhole(whole) && IsFraction(fraction) && IsExponent(exponent)
    case Str(raw) => IsRaw(raw)
    case Array(gap, items) => IsSpace(gap) && WellFormedItems(items, false)
    case Object(gap, items) => IsSpace(gap) && WellFormedItems(items, true)
  }

  predicate WellFormedItems(items: Items, named: bool) {
    items.Item? ==>
      && IsSpace(items.before) && IsSpace(items.after)
      && items.name.Some? == named
      && (named ==>
            && IsRaw(items.name.value.raw)
            && IsSpace(items.name.value.beforeColon) && IsSpace(items.name.value.afterColon))
      && WellFormed(items.value) && WellFormedItems(items.rest, named)
  }

  function Quote(raw: string): string {
    "\"" + raw + "\""
  }

  function Render(v: Json): string
    decreases v, 0
  {
    match v
    case Literal(word) => word
    case Number(minus, whole, fraction, exponent) => (if minus then "-" else "") + whole + fraction + exponent
    case Str(raw) => Quote(raw)
    case Array(gap, items) => "[" + RenderBody(gap, items) + "]"
    case Object(gap, items) => "{" + RenderBody(gap, items) + "}"
  }

  function RenderBody(gap: string, items: Items): string
    decreases items, 1
  {
    if items.NoItems? then gap else RenderItems(items)
  }

  function RenderItems(items: Items): string
    requires items.Item?
    decreases items, 0
  {
    items.before + RenderName(items.name) + Render(items.value) + items.after
    + (if items.rest.NoItems? then "" else "," + RenderItems(items.rest))
  }

  function RenderName(name: Option<Name>): string {
    if name.None? then "" else Quote(name.value.raw) + name.value.beforeColon + ":" + name.value.afterColon
  }

  predicate IsContainer(v: Json) {
    v.Array? || v.Object?
  }

  /** Section 2: a text that is the value `v`, with white space around it. */
  ghost predicate Denotes(v: Json, text: string) {
    WellFormed(v) && exists lead, trail :: IsSpace(lead) && IsSpace(trail) && text == lead + Render(v) + trail
  }

  ghost predicate IsJson(text: string) {
    exists v :: Denotes(v, text)
  }

  lemma RenderedIsJson(v: Json)
    requires WellFormed(v)
    ensures Denotes(v, Render(v)) && IsJson(Render(v))
  {
    assert IsSpace("") && Render(v) == "" + Render(v) + "";
  }

  // ---- The bracket machine ----

  datatype Mode = Plain | Quoted | Escape

  /** Inside or outside a string, and the closing brackets owed; stuck after a bracket nobody owes. */
  datatype Nesting = Nesting(mode: Mode, closers: seq<char>) | Stuck

  const OUTSIDE := Nesting(Plain, [])

  function NextMode(mode: Mode, c: char): Mode {
    match mode
    case Escape => Quoted
    case Quoted => if c == '\\' then Escape else if c == '"' then Plain else Quoted
    case Plain => if c == '"' then Quoted else Plain
  }

  predicate Opens(c: char) {
    c == '[' || c == '{'
  }

  predicate Closes(c: char) {
    c == ']' || c == '}'
  }

  predicate BracketFree(s: string) {
    forall c | c in s :: !Opens(c) && !Closes(c)
  }

  function CloserOf(c: char): char {
    if c == '[' then ']' else '}'
  }

  function Advance(n: Nesting, c: char): Nesting {
    if n.Stuck? then Stuck
    else if n.mode != Plain then n.(mode := NextMode(n.mode, c))
    else if Opens(c) then n.(closers := n.closers + [CloserOf(c)])
    else if Closes(c) then
      var k := |n.closers|;
      if k > 0 && n.closers[k - 1] == c then n.(closers := n.closers[..k - 1]) else Stuck
    else n.(mode := NextMode(Plain, c))
  }

  function Nest(n: Nesting, text: string): Nesting
    decreases |text|
  {
    if text == "" then n else Advance(Nest(n, text[..|text| - 1]), text[|text| - 1])
  }

  lemma {:induction false} NestConcat(n: Nesting, a: string, b: string)
    ensures Nest(n, a + b) == Nest(Nest(n, a), b)
    decreases |b|
  {
    if b == "" {
      assert a + b == a;
    } else {
      assert (a + b)[..|a + b| - 1] == a + b[..|b| - 1];
      NestConcat(n, a, b[..|b| - 1]);
    }
  }

  /** Brackets owed before the text began play no part in it. */
  lemma {:induction false} NestFrame(mode: Mode, base: seq<char>, closers: seq<char>, text: string)
    requires Nest(Nesting(mode, closers), text).Nesting?
    ensures var n := Nest(Nesting(mode, closers), text);
            Nest(Nesting(mode, base + closers), text) == Nesting(n.mode, base + n.closers)
    decreases |text|
  {
    if text != "" {
      var front, c := text[..|text| - 1], text[|text| - 1];
      NestFrame(mode, base, closers, front);
      var n := Nest(Nesting(mode, closers), front);
      if n.mode == Plain && Opens(c) {
        assert base + (n.closers + [CloserOf(c)]) == (base + n.closers) + [CloserOf(c)];
      } else if n.mode == Plain && Closes(c) {
        var k := |n.closers|;
        assert (base + n.closers)[..|base| + k - 1] == base + n.closers[..k - 1];
      }
    }
  }

  /** Every bracket opened is closed by its own kind, and every string ends. */
  predicate Balanced(text: string) {
    Nest(OUTSIDE, text) == OUTSIDE
  }

  lemma BalancedConcat(a: string, b: string)
    requires Balanced(a) && Balanced(b)
    ensures Balanced(a + b)
  {
    NestConcat(OUTSIDE, a, b);
  }

  function Enclose(open: char, inner: string): string {
    [open] + inner + [CloserOf(open)]
  }

  lemma NestOne(n: Nesting, c: char)
    ensures Nest(n, [c]) == Advance(n, c)
  {
    assert [c][..0] == "" && Nest(n, "") == n;
  }

  /** Inside an enclosed balanced text its own closing bracket is owed all along. */
  lemma EnclosedStaysOpen(open: char, inner: string, k: nat)
    requires Opens(open) && Balanced(inner) && 0 < k <= |inner| + 1
    ensures var n := Nest(OUTSIDE, Enclose(open, inner)[..k]);
            n.Nesting? && n.closers != [] && n.closers[0] == CloserOf(open)
            && (k == |inner| + 1 ==> n == Nesting(Plain, [CloserOf(open)]))
  {
    var front, back := inner[..k - 1], inner[k - 1..];
    assert Enclose(open, inner)[..k] == [open] + front;
    NestConcat(OUTSIDE, [open], front);
    NestOne(OUTSIDE, open);
    assert inner == front + back;
    NestConcat(OUTSIDE, front, back);
    StuckForGood(back);
    NestFrame(Plain, [CloserOf(open)], [], front);
    assert [CloserOf(open)] + [] == [CloserOf(open)];
    assert Nest(OUTSIDE, [open]) == Nesting(Plain, [CloserOf(open)]);
    assert Nest(OUTSIDE, front).Nesting?;
    if k == |inner| + 1 { assert front == inner; }
  }

  lemma {:induction false} StuckForGood(text: string)
    ensures Nest(Stuck, text) == Stuck
    decreases |text|
  {
    if text != "" { StuckForGood(text[..|text| - 1]); }
  }

  lemma EnclosedBalanced(open: char, inner: string)
    requires Opens(open) && Balanced(inner)
    ensures Balanced(Enclose(open, inner))
  {
    EnclosedStaysOpen(open, inner, |inner| + 1);
    var all := Enclose(open, inner);
    assert all[..|all| - 1] == all[..|inner| + 1];
  }

  // ---- Values are balanced ----

  predicate Quiet(s: string) {
    forall c | c in s :: !Opens(c) && !Closes(c) && c != '"'
  }

  lemma {:induction false} QuietBalanced(s: string)
    requires Quiet(s)
    ensures Balanced(s)
    decreases |s|
  {
    if s != "" { QuietBalanced(s[..|s| - 1]); }
  }

  /** Walking over what stands between two quotes stays inside the string, whatever brackets are there. */
  lemma {:induction false} RawStaysQuoted(s: string)
    requires IsRaw(s)
    ensures Nest(Nesting(Quoted, []), s) == Nesting(Quoted, [])
    decreases |s|
  {
    if s != "" {
      var n := if s[0] != '\\' then 1 else if s[1] == 'u' then 6 else 2;
      assert s == s[..n] + s[n..];
      NestConcat(Nesting(Quoted, []), s[..n], s[n..]);
      RawStaysQuoted(s[n..]);
      RawUnit(s[..n]);
    }
  }

  lemma RawUnit(s: string)
    requires |s| == 1 || |s| == 2 || |s| == 6
    requires |s| == 1 ==> s[0] != '\\' && s[0] != '"'
    requires |s| > 1 ==> s[0] == '\\'
    requires |s| == 6 ==> forall i | 2 <= i < 6 :: IsHex(s[i])
    ensures Nest(Nesting(Quoted, []), s) == Nesting(Quoted, [])
  {
    var q := Nesting(Quoted, []);
    NestOne(q, s[0]);
    if |s| == 1 {
      assert s == [s[0]];
    } else {
      assert s[..2] == [s[0]] + [s[1]];
      NestConcat(q, [s[0]], [s[1]]);
      NestOne(Nesting(Escape, []), s[1]);
      if |s| == 2 {
        assert s == s[..2];
      } else {
        assert s == s[..2] + s[2..];
        NestConcat(q, s[..2], s[2..]);
        InertQuoted(s[2..]);
      }
    }
  }

  lemma {:induction false} InertQuoted(s: string)
    requires forall i | 0 <= i < |s| :: s[i] != '\\' && s[i] != '"'
    ensures Nest(Nesting(Quoted, []), s) == Nesting(Quoted, [])
    decreases |s|
  {
    if s != "" { InertQuoted(s[..|s| - 1]); }
  }

  lemma QuoteBalanced(raw: string)
    requires IsRaw(raw)
    ensures Balanced(Quote(raw))
  {
    NestConcat(OUTSIDE, "\"" + raw, "\"");
    NestConcat(OUTSIDE, "\"", raw);
    NestOne(OUTSIDE, '"');
    RawStaysQuoted(raw);
    NestOne(Nesting(Quoted, []), '"');
  }

  lemma NameBalanced(name: Option<Name>)
    requires name.Some? ==> IsRaw(name.value.raw) && IsSpace(name.value.beforeColon) && IsSpace(name.value.afterColon)
    ensures Balanced(RenderName(name))
  {
    if name.Some? {
      var tail := name.value.beforeColon + ":" + name.value.afterColon;
      QuietBalanced(tail);
      QuoteBalanced(name.value.raw);
      BalancedConcat(Quote(name.value.raw), tail);
      assert RenderName(name) == Quote(name.value.raw) + tail;
    }
  }

  lemma DigitsQuiet(s: string)
    requires AllDigits(s)
    ensures Quiet(s)
  {
    forall c | c in s ensures !Opens(c) && !Closes(c) && c != '"' { assert IsDigit(c); }
  }

  lemma QuietConcat(a: string, b: string)
    requires Quiet(a) && Quiet(b)
    ensures Quiet(a + b)
  {
  }

  lemma FractionQuiet(s: string)
    requires IsFraction(s)
    ensures Quiet(s)
  {
    if s != "" {
      DigitsQuiet(s[1..]);
      QuietConcat([s[0]], s[1..]);
      assert s == [s[0]] + s[1..];
    }
  }

  lemma ExponentQuiet(s: string)
    requires IsExponent(s)
    ensures Quiet(s)
  {
    if s != "" {
      var n := if AllDigits(s[1..]) then 1 else 2;
      DigitsQuiet(s[n..]);
      assert Quiet(s[..n]);
      QuietConcat(s[..n], s[n..]);
      assert s == s[..n] + s[n..];
    }
  }

  lemma AtomQuiet(v: Json)
    requires WellFormed(v) && (v.Literal? || v.Number?)
    ensures Quiet(Render(v))
  {
    if v.Number? {
      if v.whole != "0" { DigitsQuiet(v.whole); }
      FractionQuiet(v.fraction);
      ExponentQuiet(v.exponent);
      var sign := if v.minus then "-" else "";
      QuietConcat(sign, v.whole);
      QuietConcat(sign + v.whole, v.fraction);
      QuietConcat(sign + v.whole + v.fraction, v.exponent);
    }
  }

  /** Every JSON text balances, whatever its strings contain. */
  lemma {:induction false} RenderBalanced(v: Json)
    requires WellFormed(v)
    ensures Balanced(Render(v))
  {
    match v
    case Literal(_) => AtomQuiet(v); QuietBalanced(Render(v));
    case Number(_, _, _, _) => AtomQuiet(v); QuietBalanced(Render(v));
    case Str(raw) => QuoteBalanced(raw);
    case Array(gap, items) => BodyBalanced(gap, items, false); EnclosedBalanced('[', RenderBody(gap, items));
    case Object(gap, items) => BodyBalanced(gap, items, true); EnclosedBalanced('{', RenderBody(gap, items));
  }

  lemma {:induction false} BodyBalanced(gap: string, items: Items, named: bool)
    requires IsSpace(gap) && WellFormedItems(items, named)
    ensures Balanced(RenderBody(gap, items))
    decreases items, 1
  {
    if items.NoItems? { QuietBalanced(gap); } else { ItemsBalanced(items, named); }
  }

  lemma {:induction false} ItemsBalanced(items: Items, named: bool)
    requires items.Item? && WellFormedItems(items, named)
    ensures Balanced(RenderItems(items))
    decreases items, 0
  {
    QuietBalanced(items.before);
    NameBalanced(items.name);
    RenderBalanced(items.value);
    QuietBalanced(items.after);
    BalancedConcat(items.before, RenderName(items.name));
    BalancedConcat(items.before + RenderName(items.name), Render(items.value));
    BalancedConcat(items.before + RenderName(items.name) + Render(items.value), items.after);
    if items.rest.Item? {
      ItemsBalanced(items.rest, named);
      QuietBalanced(",");
      BalancedConcat(",", RenderItems(items.rest));
      BalancedConcat(items.before + RenderName(items.name) + Render(items.value) + items.after,
          "," + RenderItems(items.rest));
    } else {
      assert RenderItems(items) == items.before + RenderName(items.name) + Render(items.value) + items.after;
    }
  }

  function OpenerOf(v: Json): char
    requires IsContainer(v)
  {
    if v.Array? then '[' else '{'
  }

  lemma ContainerEncloses(v: Json)
    requires WellFormed(v) && IsContainer(v)
    ensures Opens(OpenerOf(v)) && Balanced(RenderBody(v.gap, v.items))
    ensures Render(v) == Enclose(OpenerOf(v), RenderBody(v.gap, v.items))
  {
    BodyBalanced(v.gap, v.items, v.Object?);
  }

  lemma SpaceOpensNothing(space: string, rest: string)
    requires IsSpace(space) && space != ""
    ensures !Opens((space + rest)[0])
  {
    assert (space + rest)[0] in space;
  }

  /** Of the texts that denote a value, those of arrays and objects start with a bracket, after white space. */
  lemma BracketsMeanContainer(v: Json, text: string)
    requires Denotes(v, text) && text != "" && Opens(text[0])
    ensures IsContainer(v) && exists trail :: IsSpace(trail) && text == Render(v) + trail
  {
    var lead, trail :| IsSpace(lead) && IsSpace(trail) && text == lead + Render(v) + trail;
    if lead != "" { SpaceOpensNothing(lead, Render(v) + trail); }
    assert text == lead + (Render(v) + trail);
    assert text == Render(v) + trail;
    RenderNonEmpty(v);
    assert text[0] == Render(v)[0] && text[0] in Render(v);
    if v.Literal? || v.Number? { AtomQuiet(v); }
  }

  lemma RenderNonEmpty(v: Json)
    requires WellFormed(v)
    ensures Render(v) != ""
  {
    if v.Number? { assert v.whole != ""; }
  }

  lemma ContainerHasBracket(v: Json, text: string)
    requires Denotes(v, text) && IsContainer(v)
    ensures !BracketFree(text)
  {
    var lead, trail :| IsSpace(lead) && IsSpace(trail) && text == lead + Render(v) + trail;
    assert text[|lead|] == OpenerOf(v);
    assert text[|lead|] in text;
  }
}
