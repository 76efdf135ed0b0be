/**
 What a user types, key by key: the byte loop of the console reads any sequence of
 typed keys as the edits of a text, whatever escape sequences stand between them.
 */
module LineKeys {
  import opened Wrappers
  import opened LineEditing

  /** A key and the bytes a terminal sends for it; Escape, which may repeat, comes with the key behind it. */
  datatype Key =
    | Letter(letter: scalar)
    | Enter(code: byte)
    | Rubout(code: byte)
    | Function(parameters: seq<byte>, last: byte)     // arrows, paging and function keys
    | Application(middle: seq<byte>, last: byte)
    | Escape(repeats: nat, next: Key)
    | Close(code: byte)

  function Sent(key: Key): seq<byte> {
    match key
    case Letter(letter) => Encode(letter)
    case Enter(code) => [code]
    case Rubout(code) => [code]
    case Function(parameters, last) => [0x1B, 0x5B] + (parameters + [last])
    case Application(middle, last) => [0x1B, 0x4F] + (middle + [last])
    case Escape(repeats, next) => seq(repeats + 1, _ => 0x1B as byte) + Sent(next)
    case Close(code) => [code]
  }

  predicate Simple(key: Key) {
    match key
    case Letter(letter) => IsLetter(letter)
    case Enter(code) => code == 0x0A || code == 0x0D
    case Rubout(code) => code == 0x08 || code == 0x7F
    case _ => false
  }

  /** The byte belongs to a sequence that ends with a byte of `low` to 0x7E, and is not its last. */
  predicate Inner(b: byte, low: byte) {
    !(low <= b <= 0x7E) && b != 0x03 && b != 0x04
  }

  predicate Typable(key: Key) {
    match key
    case Function(parameters, last) =>
      && (forall b | b in parameters :: Inner(b, 0x40)) && 0x40 <= last <= 0x7E
      && !(last == 0x7E && (parameters == [0x32, 0x30, 0x30] || parameters == [0x32, 0x30, 0x31]))
    case Application(middle, last) => (forall b | b in middle :: Inner(b, 0x30)) && 0x30 <= last <= 0x7E
    case Escape(_, next) => Simple(next) && next != Letter(0x5B) && next != Letter(0x4F)
    case Close(code) => code == 0x03 || code == 0x04
    case _ => Simple(key)
  }

  // ---- The text behind the bytes ----

  datatype View = View(text: seq<scalar>, messages: seq<seq<scalar>>, interrupts: nat, stopped: Option<Reason>)

  /** What a key does to the text: a letter goes to its end, as long as the line's bytes stay within the
      ceiling, Rubout takes its last letter, Enter sends it unless it is all white space, Escape interrupts
      once and leaves its next key to itself, Close ends the console, and the other keys do nothing. */
  function Press(c: Console, v: View, key: Key): View
    decreases key
  {
    if v.stopped.Some? then v
    else
      match key
      case Letter(letter) =>
        if |EncodeAll(v.text + [letter])| > c.maxInput then v.(stopped := Some(InputTooLarge))
        else v.(text := v.text + [letter])
      case Enter(_) =>
        if forall letter | letter in v.text :: BlankScalar(letter) then v.(text := [])
        else
          var sent := v.(text := [], messages := v.messages + [v.text]);
          if c.exits(EncodeAll(v.text)) then sent.(stopped := Some(Exit), interrupts := v.interrupts + 1) else sent
      case Rubout(_) => if v.text == [] then v else v.(text := v.text[..|v.text| - 1])
      case Function(_, _) => v
      case Application(_, _) => v
      case Escape(_, next) => Press(c, v.(interrupts := v.interrupts + 1), next)
      case Close(code) => v.(stopped := Some(if code == 0x03 then Exit else Eof), interrupts := v.interrupts + 1)
  }

  function PressAll(c: Console, v: View, keys: seq<Key>): View
    decreases |keys|
  {
    if keys == [] then v else PressAll(c, Press(c, v, keys[0]), keys[1..])
  }

  function SentAll(keys: seq<Key>): seq<byte>
    decreases |keys|
  {
    if keys == [] then [] else Sent(keys[0]) + SentAll(keys[1..])
  }

  function EncodeEach(messages: seq<seq<scalar>>): seq<seq<byte>> {
    seq(|messages|, i requires 0 <= i < |messages| => EncodeAll(messages[i]))
  }

  /** The editor shows the view: its line is the text in UTF-8, and nothing is half read. */
  ghost predicate Shows(e: Editor, v: View, before: seq<seq<byte>>) {
    && e.queued == before + EncodeEach(v.messages) && e.interrupts == v.interrupts && e.stopped == v.stopped
    && (v.stopped.None? ==> Typing(e) && e.line == EncodeAll(v.text))
  }

  // ---- Key by key ----

  lemma OneMore(messages: seq<seq<scalar>>, text: seq<scalar>)
    ensures EncodeEach(messages + [text]) == EncodeEach(messages) + [EncodeAll(text)]
  {
  }

  lemma EncodeLast(text: seq<scalar>, letter: scalar)
    ensures EncodeAll(text + [letter]) == EncodeAll(text) + Encode(letter)
  {
    assert (text + [letter])[..|text|] == text;
  }

  lemma FedOne(c: Console, e: Editor, b: byte)
    ensures FeedAll(c, e, [b]) == Feed(c, e, b)
  {
    var e' := Feed(c, e, b);
    assert [b][1..] == [] && FeedAll(c, e', []) == e';
  }

  /** Ordinary bytes are appended until the ceiling, and there the console stops. */
  lemma {:induction false} TooMuchTyped(c: Console, e: Editor, bytes: seq<byte>)
    requires Typing(e) && (forall i | 0 <= i < |bytes| :: Ordinary(bytes[i])) && |e.line| + |bytes| > c.maxInput
    requires bytes != []
    ensures var e' := FeedAll(c, e, bytes);
            e'.stopped == Some(InputTooLarge) && e'.queued == e.queued && e'.interrupts == e.interrupts
    decreases |bytes|
  {
    assert Ordinary(bytes[0]);
    var e1 := Feed(c, e, bytes[0]);
    if |e.line| >= c.maxInput {
      FeedStopped(c, e1, bytes[1..]);
    } else {
      TooMuchTyped(c, e1, bytes[1..]);
    }
  }

  lemma LetterShown(c: Console, e: Editor, v: View, before: seq<seq<byte>>, letter: scalar)
    requires Shows(e, v, before) && v.stopped.None? && IsLetter(letter)
    ensures Shows(FeedAll(c, e, Encode(letter)), Press(c, v, Letter(letter)), before)
  {
    EncodeLast(v.text, letter);
    LetterOrdinary(letter);
    EncodedShape(letter);
    if |EncodeAll(v.text + [letter])| > c.maxInput {
      TooMuchTyped(c, e, Encode(letter));
    } else {
      TypedAppends(c, e, Encode(letter));
    }
  }

  lemma EnterShown(c: Console, e: Editor, v: View, before: seq<seq<byte>>, code: byte)
    requires Shows(e, v, before) && v.stopped.None? && (code == LF || code == CR)
    ensures Shows(FeedAll(c, e, [code]), Press(c, v, Enter(code)), before)
  {
    FedOne(c, e, code);
    BlankExactly(v.text);
    OneMore(v.messages, v.text);
    assert EncodeAll([]) == [];
    assert before + (EncodeEach(v.messages) + [EncodeAll(v.text)])
        == (before + EncodeEach(v.messages)) + [EncodeAll(v.text)];
  }

  lemma RuboutShown(c: Console, e: Editor, v: View, before: seq<seq<byte>>, code: byte)
    requires Shows(e, v, before) && v.stopped.None? && (code == BS || code == DEL)
    ensures Shows(FeedAll(c, e, [code]), Press(c, v, Rubout(code)), before)
  {
    FedOne(c, e, code);
    if v.text != [] {
      EraseRemovesOneCodePoint(v.text);
    } else {
      assert EncodeAll([]) == [];
    }
  }

  lemma SimpleShown(c: Console, e: Editor, v: View, before: seq<seq<byte>>, key: Key)
    requires Shows(e, v, before) && v.stopped.None? && Simple(key)
    ensures Shows(FeedAll(c, e, Sent(key)), Press(c, v, key), before)
  {
    match key
    case Letter(letter) => LetterShown(c, e, v, before, letter);
    case Enter(code) => EnterShown(c, e, v, before, code);
    case Rubout(code) => RuboutShown(c, e, v, before, code);
  }

  lemma {:induction false} InnerCsi(c: Console, e: Editor, parameters: seq<byte>)
    requires e.escape == InCsi && e.stopped.None? && forall b | b in parameters :: Inner(b, 0x40)
    ensures FeedAll(c, e, parameters) == e.(csi := e.csi + parameters)
    decreases |parameters|
  {
    if parameters == [] {
      assert e.csi + [] == e.csi;
    } else {
      assert Inner(parameters[0], 0x40) && parameters[0] in parameters;
      InnerCsi(c, e.(csi := e.csi + [parameters[0]]), parameters[1..]);
      assert (e.csi + [parameters[0]]) + parameters[1..] == e.csi + parameters;
    }
  }

  lemma {:induction false} InnerSs3(c: Console, e: Editor, middle: seq<byte>)
    requires e.escape == InSs3 && e.stopped.None? && forall b | b in middle :: Inner(b, 0x30)
    ensures FeedAll(c, e, middle) == e
    decreases |middle|
  {
    if middle != [] {
      assert Inner(middle[0], 0x30);
      InnerSs3(c, e, middle[1..]);
    }
  }

  /** Outside paste mode or inside it, a function key leaves everything as it was. */
  lemma FunctionKeyIgnored(c: Console, e: Editor, parameters: seq<byte>, last: byte)
    requires e.escape == InText && e.stopped.None? && Typable(Function(parameters, last))
    ensures FeedAll(c, e, Sent(Function(parameters, last))) == e.(csi := parameters)
  {
    var e1 := e.(escape := InCsi, csi := []);
    FeedTwo(c, e, 0x1B, 0x5B);
    FeedConcat(c, e, [0x1B, 0x5B], parameters + [last]);
    FeedConcat(c, e1, parameters, [last]);
    InnerCsi(c, e1, parameters);
    assert [] + parameters == parameters;
    FedOne(c, e1.(csi := parameters), last);
  }

  lemma ApplicationKeyIgnored(c: Console, e: Editor, middle: seq<byte>, last: byte)
    requires e.escape == InText && e.stopped.None? && Typable(Application(middle, last))
    ensures FeedAll(c, e, Sent(Application(middle, last))) == e.(csi := [])
  {
    var e1 := e.(escape := InSs3, csi := []);
    FeedTwo(c, e, 0x1B, 0x4F);
    FeedConcat(c, e, [0x1B, 0x4F], middle + [last]);
    FeedConcat(c, e1, middle, [last]);
    InnerSs3(c, e1, middle);
    FedOne(c, e1, last);
  }

  lemma {:induction false} EscapesRead(c: Console, e: Editor, n: nat)
    requires e.escape == InText && e.stopped.None?
    ensures FeedAll(c, e, seq(n + 1, _ => 0x1B as byte)) == e.(escape := AfterEscape, csi := [])
    decreases n
  {
    var all, one := seq(n + 1, _ => 0x1B as byte), [0x1B as byte];
    if n == 0 {
      assert all == one;
      FedOne(c, e, 0x1B);
    } else {
      var front := seq(n, _ => 0x1B as byte);
      EscapesRead(c, e, n - 1);
      assert all == front + one;
      FeedConcat(c, e, front, one);
      FedOne(c, e.(escape := AfterEscape, csi := []), 0x1B);
    }
  }

  /** An escape in front of a key that does not continue a sequence interrupts, once however often it
      repeats, and the key counts. */
  lemma EscapeInterrupts(c: Console, e: Editor, repeats: nat, next: Key)
    requires Typing(e) && Typable(Escape(repeats, next))
    ensures FeedAll(c, e, Sent(Escape(repeats, next)))
            == FeedAll(c, e.(csi := [], interrupts := e.interrupts + 1), Sent(next))
  {
    var bytes, e0, e1 := Sent(next), e.(escape := AfterEscape, csi := []),
        e.(csi := [], interrupts := e.interrupts + 1);
    if next.Letter? {
      EncodedShape(next.letter);
      LetterOrdinary(next.letter);
      FirstByte(next.letter);
    }
    var b := bytes[0];
    assert b != 0x1B && b != 0x5B && b != 0x4F && b != ETX && b != EOT;
    EscapesRead(c, e, repeats);
    FeedConcat(c, e, seq(repeats + 1, _ => 0x1B as byte), bytes);
    assert Feed(c, e0, b) == Feed(c, e1, b);
  }

  /** With nothing behind it the deadline does the same; it does nothing once a sequence has begun. */
  lemma LoneEscapeInterrupts(c: Console, e: Editor, repeats: nat)
    requires Typing(e)
    ensures Deadline(FeedAll(c, e, seq(repeats + 1, _ => 0x1B as byte)))
            == e.(csi := [], interrupts := e.interrupts + 1)
    ensures forall b: byte | b == 0x5B || b == 0x4F ::
              Deadline(Feed(c, Feed(c, e, 0x1B), b)) == Feed(c, Feed(c, e, 0x1B), b)
    ensures Deadline(e) == e
  {
    EscapesRead(c, e, repeats);
  }

  lemma FirstByte(letter: scalar)
    ensures Encode(letter)[0] < 0x80 ==> Encode(letter) == [letter]
  {
  }

  lemma KeyShown(c: Console, e: Editor, v: View, before: seq<seq<byte>>, key: Key)
    requires Shows(e, v, before) && v.stopped.None? && Typable(key)
    ensures Shows(FeedAll(c, e, Sent(key)), Press(c, v, key), before)
  {
    match key
    case Function(parameters, last) => FunctionKeyIgnored(c, e, parameters, last);
    case Application(middle, last) => ApplicationKeyIgnored(c, e, middle, last);
    case Escape(repeats, next) =>
      EscapeInterrupts(c, e, repeats, next);
      SimpleShown(c, e.(csi := [], interrupts := e.interrupts + 1), v.(interrupts := v.interrupts + 1), before, next);
    case Close(code) => FedOne(c, e, code);
    case _ => SimpleShown(c, e, v, before, key);
  }

  /** Whatever keys are typed, in whatever order, the console shows, sends and ends as the text does. */
  lemma {:induction false} KeysAreRead(c: Console, e: Editor, v: View, before: seq<seq<byte>>, keys: seq<Key>)
    requires Shows(e, v, before) && forall key | key in keys :: Typable(key)
    ensures Shows(FeedAll(c, e, SentAll(keys)), PressAll(c, v, keys), before)
    decreases |keys|
  {
    if v.stopped.Some? {
      FeedStopped(c, e, SentAll(keys));
      StoppedView(c, v, keys);
    } else if keys != [] {
      FeedConcat(c, e, Sent(keys[0]), SentAll(keys[1..]));
      KeyShown(c, e, v, before, keys[0]);
      KeysAreRead(c, FeedAll(c, e, Sent(keys[0])), Press(c, v, keys[0]), before, keys[1..]);
    }
  }

  lemma {:induction false} StoppedView(c: Console, v: View, keys: seq<Key>)
    requires v.stopped.Some?
    ensures PressAll(c, v, keys) == v
    decreases |keys|
  {
    if keys != [] { StoppedView(c, v, keys[1..]); }
  }

  /** From a fresh console in particular. */
  lemma TypedKeysAreRead(c: Console, keys: seq<Key>)
    requires forall key | key in keys :: Typable(key)
    ensures Shows(FeedAll(c, FRESH, SentAll(keys)), PressAll(c, View([], [], 0, None), keys), [])
  {
    assert EncodeAll([]) == [] && EncodeEach([]) == [];
    KeysAreRead(c, FRESH, View([], [], 0, None), [], keys);
  }

  // ---- Erasing inside a paste ----

  /** Rubout works in a paste as well, below the ceiling; at it and above, it stops the console. */
  lemma PastedRubout(c: Console, e: Editor, code: byte)
    requires Pasting(e) && (code == 0x08 || code == 0x7F)
    ensures var e' := Feed(c, e, code);
            && (|e.line| >= c.maxInput ==> e'.stopped == Some(InputTooLarge) && e'.line == e.line)
            && (|e.line| < c.maxInput ==>
                  e' == e.(pendingCr := false, line := if e.line == [] then [] else Erase(e.line)))
  {
  }

  // ---- UTF-8 ----

  /** The bytes of a letter, by the table of section 3 of RFC 3629. */
  lemma EncodedExactly(letter: scalar)
    ensures var u := Encode(letter);
            if letter <= 0x7F then u == [letter]
            else if letter <= 0x7FF then |u| == 2 && 0xC2 <= u[0] <= 0xDF && (u[0] - 0xC0) * 64 + Rest(u, 1) == letter
            else if letter <= 0xFFFF then
              |u| == 3 && 0xE0 <= u[0] <= 0xEF && (u[0] - 0xE0) * 4096 + Rest(u, 1) * 64 + Rest(u, 2) == letter
            else
              |u| == 4 && 0xF0 <= u[0] <= 0xF4
              && (u[0] - 0xF0) * 262144 + Rest(u, 1) * 4096 + Rest(u, 2) * 64 + Rest(u, 3) == letter
  {
    assert letter / 64 == letter / 4096 * 64 + letter / 64 % 64;
    assert letter / 4096 == letter / 262144 * 64 + letter / 4096 % 64;
  }

  /** The six bits of a byte that continues a letter. */
  function Rest(u: seq<byte>, i: nat): int
    requires i < |u|
  {
    var b: int := u[i];
    b - 0x80
  }
}
