/**
 The byte loop of the console on a terminal (runConsole in src/cli/console.ts):
 escape sequences, bracketed paste, the folding of line endings, and erasing.
 Which dispatched lines end the console is a parameter.
 */
module LineEditing {
  import opened Wrappers
  import JavaScriptText

  type byte = b: int | 0 <= b < 256

  const ETX: byte := 0x03
  const EOT: byte := 0x04
  const BS: byte := 0x08
  const LF: byte := 0x0A
  const CR: byte := 0x0D
  const ESC: byte := 0x1B
  const DEL: byte := 0x7F

  datatype EscapeState = InText | AfterEscape | InCsi | InSs3

  datatype Reason = Exit | Eof | InputTooLarge

  datatype Editor = Editor(
    line: seq<byte>,
    escape: EscapeState,
    csi: seq<byte>,
    paste: bool,
    pendingCr: bool,
    stopped: Option<Reason>,
    queued: seq<seq<byte>>,       // dispatched lines
    interrupts: nat)

  datatype Console = Console(maxInput: nat, exits: seq<byte> -> bool)

  const FRESH := Editor([], InText, [], false, false, None, [], 0)

  /** Erasing pops the last byte, and goes on while what it popped continues a code point. */
  function Erase(line: seq<byte>): seq<byte>
    requires line != []
    decreases |line|
  {
    var last, front := line[|line| - 1], line[..|line| - 1];
    if front != [] && 0x80 <= last <= 0xBF then Erase(front) else front
  }

  /** How many bytes the white space at the front of a UTF-8 line takes; none when it begins otherwise. */
  function BlankAhead(line: seq<byte>): (n: nat)
    ensures n <= |line|
  {
    if line == [] then 0
    else if 0x09 <= line[0] <= 0x0D || line[0] == 0x20 then 1
    else if [0xC2, 0xA0] <= line then 2
    else if |line| < 3 then 0
    else
      var a, b, c := line[0], line[1], line[2];
      if a == 0xE1 && b == 0x9A && c == 0x80 then 3
      else if a == 0xE2 && b == 0x80 && (0x80 <= c <= 0x8A || c == 0xA8 || c == 0xA9 || c == 0xAF) then 3
      else if a == 0xE2 && b == 0x81 && c == 0x9F then 3
      else if a == 0xE3 && b == 0x80 && c == 0x80 then 3
      else if a == 0xEF && b == 0xBB && c == 0xBF then 3
      else 0
  }

  /** Nothing is left of the line's text once it is trimmed. */
  predicate Blank(line: seq<byte>)
    decreases |line|
  {
    line == [] || (BlankAhead(line) > 0 && Blank(line[BlankAhead(line)..]))
  }

  /** A blank line is dropped, and any other one is queued. */
  function Dispatch(c: Console, e: Editor): Editor {
    if Blank(e.line) then e.(line := [])
    else if c.exits(e.line)
        then e.(line := [], queued := e.queued + [e.line], stopped := Some(Exit), interrupts := e.interrupts + 1)
    else e.(line := [], queued := e.queued + [e.line])
  }

  function Edit(c: Console, e: Editor, b: byte): Editor {
    if b == LF || b == CR then Dispatch(c, e)
    else if b == BS || b == DEL then (if e.line == [] then e else e.(line := Erase(e.line)))
    else if |e.line| >= c.maxInput then e.(stopped := Some(InputTooLarge))
    else e.(line := e.line + [b])
  }

  function Paste(c: Console, e: Editor, b: byte): Editor {
    if b == CR then e.(pendingCr := true, line := e.line + [LF])
    else if b == LF then (if e.pendingCr then e.(pendingCr := false) else e.(line := e.line + [LF]))
    else if |e.line| >= c.maxInput then e.(pendingCr := false, stopped := Some(InputTooLarge))
    else Edit(c, e.(pendingCr := false), b)
  }

  function Typed(c: Console, e: Editor, b: byte): Editor {
    if b == ESC then e.(escape := AfterEscape, csi := []) else if e.paste then Paste(c, e, b) else Edit(c, e, b)
  }

  function Interrupted(e: Editor): Editor {
    e.(escape := InText, interrupts := e.interrupts + 1)
  }

  const PASTE_ON: seq<byte> := [0x32, 0x30, 0x30]      // 200
  const PASTE_OFF: seq<byte> := [0x32, 0x30, 0x31]     // 201

  function Sequence(c: Console, e: Editor, b: byte): Editor
    requires e.escape != InText
  {
    match e.escape
    case AfterEscape =>
      if b == ESC then e
      else if b == 0x5B then e.(escape := InCsi, csi := [])
      else if b == 0x4F then e.(escape := InSs3)
      else Typed(c, Interrupted(e), b)
    case InCsi =>
      if 0x40 <= b <= 0x7E then
        e.(escape := InText, paste := if b == 0x7E && e.csi == PASTE_ON then true
            else if b == 0x7E && e.csi == PASTE_OFF then false else e.paste)
      else e.(csi := e.csi + [b])
    case InSs3 => if 0x30 <= b <= 0x7E then e.(escape := InText) else e
  }

  /** One byte from the terminal; after the console has stopped nothing is read. */
  function Feed(c: Console, e: Editor, b: byte): Editor {
    if e.stopped.Some? then e
    else if b == ETX || b == EOT
        then e.(stopped := Some(if b == ETX then Exit else Eof), interrupts := e.interrupts + 1)
    else if e.escape != InText then Sequence(c, e, b)
    else Typed(c, e, b)
  }

  function FeedAll(c: Console, e: Editor, bytes: seq<byte>): Editor
    decreases |bytes|
  {
    if bytes == [] then e else FeedAll(c, Feed(c, e, bytes[0]), bytes[1..])
  }

  /** The deadline of a lone escape. */
  function Deadline(e: Editor): Editor {
    if e.escape == AfterEscape then Interrupted(e) else e
  }

  class LineEditor {
    const console: Console
    var lineBytes: seq<byte>
    var escapeState: EscapeState
    var csiParams: seq<byte>
    var pasteMode: bool
    var pendingCr: bool
    var reason: Option<Reason>
    var queued: seq<seq<byte>>
    var interrupts: nat

    ghost function Now(): Editor
      reads this
    {
      Editor(lineBytes, escapeState, csiParams, pasteMode, pendingCr, reason, queued, interrupts)
    }

    constructor (console: Console)
      ensures this.console == console && Now() == FRESH
    {
      this.console := console;
      lineBytes, escapeState, csiParams, pasteMode, pendingCr := [], InText, [], false, false;
      reason, queued, interrupts := None, [], 0;
    }

    method EscapeDeadline()
      modifies this
      ensures Now() == Deadline(old(Now()))
    {
      if escapeState == AfterEscape { RequestEscapeInterrupt(); }
    }

    method RequestEscapeInterrupt()
      modifies this
      ensures Now() == Interrupted(old(Now()))
    {
      escapeState := InText;
      interrupts := interrupts + 1;
    }

    method QueueLine()
      modifies this
      ensures Now() == Dispatch(console, old(Now()))
    {
      if !Blank(lineBytes) {
        queued := queued + [lineBytes];
        if console.exits(lineBytes) {
          reason := Some(Exit);
          interrupts := interrupts + 1;
        }
      }
      lineBytes := [];
    }

    method EraseLast()
      requires lineBytes != []
      modifies this`lineBytes
      ensures lineBytes == Erase(old(lineBytes))
    {
      var removed := lineBytes[|lineBytes| - 1];
      lineBytes := lineBytes[..|lineBytes| - 1];
      while |lineBytes| > 0 && 0x80 <= removed <= 0xBF
        invariant Erase(old(lineBytes)) == if |lineBytes| > 0 && 0x80 <= removed <= 0xBF then Erase(lineBytes)
                  else lineBytes
        decreases |lineBytes|
      {
        removed := lineBytes[|lineBytes| - 1];
        lineBytes := lineBytes[..|lineBytes| - 1];
      }
    }

    method EditByte(b: byte)
      modifies this
      ensures Now() == Edit(console, old(Now()), b)
    {
      if b == LF || b == CR {
        QueueLine();
      } else if b == BS || b == DEL {
        if |lineBytes| > 0 { EraseLast(); }
      } else if |lineBytes| >= console.maxInput {
        reason := Some(InputTooLarge);
      } else {
        lineBytes := lineBytes + [b];
      }
    }

    method TypeByte(b: byte)
      modifies this
      ensures Now() == Typed(console, old(Now()), b)
    {
      if b == ESC {
        escapeState := AfterEscape;
        csiParams := [];
        return;
      }
      if pasteMode {
        if b == CR {
          pendingCr := true;
          lineBytes := lineBytes + [LF];
          return;
        }
        if b == LF {
          if pendingCr {
            pendingCr := false;
            return;
          }
          lineBytes := lineBytes + [b];
          return;
        }
        pendingCr := false;
        if |lineBytes| >= console.maxInput {
          reason := Some(InputTooLarge);
          return;
        }
      }
      EditByte(b);
    }

    method FeedByte(b: byte)
      modifies this
      ensures Now() == Feed(console, old(Now()), b)
    {
      if reason.Some? { return; }
      if b == ETX || b == EOT {
        reason := Some(if b == ETX then Exit else Eof);
        interrupts := interrupts + 1;
        return;
      }
      if escapeState == InText {
        TypeByte(b);
      } else if escapeState == AfterEscape {
        if b == ESC { return; }
        if b == 0x5B {
          escapeState := InCsi;
          csiParams := [];
          return;
        }
        if b == 0x4F {
          escapeState := InSs3;
          return;
        }
        RequestEscapeInterrupt();
        TypeByte(b);
      } else if escapeState == InCsi {
        if 0x40 <= b <= 0x7E {
          if b == 0x7E && csiParams == PASTE_ON { pasteMode := true; }
          if b == 0x7E && csiParams == PASTE_OFF { pasteMode := false; }
          escapeState := InText;
        } else {
          csiParams := csiParams + [b];
        }
      } else if 0x30 <= b <= 0x7E {
        escapeState := InText;
      }
    }

    method FeedChunk(chunk: seq<byte>)
      modifies this
      ensures Now() == FeedAll(console, old(Now()), chunk)
    {
      ghost var start := Now();
      FeedConcat(console, start, [], chunk);
      for n := 0 to |chunk|
        invariant FeedAll(console, start, chunk) == FeedAll(console, Now(), chunk[n..])
      {
        if reason.Some? {
          FeedStopped(console, Now(), chunk[n..]);
          return;
        }
        FeedByte(chunk[n]);
      }
    }
  }

  // ---- Chunks ----

  lemma {:induction false} FeedStopped(c: Console, e: Editor, bytes: seq<byte>)
    requires e.stopped.Some?
    ensures FeedAll(c, e, bytes) == e
    decreases |bytes|
  {
    if bytes != [] { FeedStopped(c, e, bytes[1..]); }
  }

  /** Where the stream is cut into chunks makes no difference. */
  lemma {:induction false} FeedConcat(c: Console, e: Editor, a: seq<byte>, b: seq<byte>)
    ensures FeedAll(c, e, a + b) == FeedAll(c, FeedAll(c, e, a), b)
    decreases |a|
  {
    if a == [] {
      assert a + b == b;
    } else {
      assert (a + b)[0] == a[0] && (a + b)[1..] == a[1..] + b;
      FeedConcat(c, Feed(c, e, a[0]), a[1..], b);
    }
  }

  function Join(chunks: seq<seq<byte>>): seq<byte> {
    if chunks == [] then [] else chunks[0] + Join(chunks[1..])
  }

  function FeedChunks(c: Console, e: Editor, chunks: seq<seq<byte>>): Editor
    decreases |chunks|
  {
    if chunks == [] then e else FeedChunks(c, FeedAll(c, e, chunks[0]), chunks[1..])
  }

  lemma {:induction false} ChunksAreJoined(c: Console, e: Editor, chunks: seq<seq<byte>>)
    ensures FeedChunks(c, e, chunks) == FeedAll(c, e, Join(chunks))
    decreases |chunks|
  {
    if chunks != [] {
      FeedConcat(c, e, chunks[0], Join(chunks[1..]));
      ChunksAreJoined(c, FeedAll(c, e, chunks[0]), chunks[1..]);
    }
  }

  // ---- Folding line endings in a paste ----

  /** Every CRLF, and every other CR, replaced by a line feed. */
  function Fold(bytes: seq<byte>): seq<byte>
    decreases |bytes|
  {
    if bytes == [] then []
    else if bytes[0] == CR then [LF] + Fold(if |bytes| > 1 && bytes[1] == LF then bytes[2..] else bytes[1..])
    else [bytes[0]] + Fold(bytes[1..])
  }

  predicate IsControl(b: byte) {
    b == ESC || b == ETX || b == EOT || b == BS || b == DEL
  }

  predicate NoControl(bytes: seq<byte>) {
    forall i | 0 <= i < |bytes| :: !IsControl(bytes[i])
  }

  predicate Pasting(e: Editor) {
    e.paste && e.escape == InText && e.stopped.None?
  }

  /** A carriage return is pending, and the line feed that completes it comes first. */
  predicate Completes(pendingCr: bool, bytes: seq<byte>) {
    pendingCr && bytes != [] && bytes[0] == LF
  }

  /** What a paste adds to the line. */
  function Folded(pendingCr: bool, bytes: seq<byte>): seq<byte> {
    Fold(if Completes(pendingCr, bytes) then bytes[1..] else bytes)
  }

  /** How much of it is added: only line endings are taken at the ceiling and past it. */
  function Accepted(max: nat, length: nat, text: seq<byte>): (n: nat)
    ensures n <= |text|
    decreases |text|
  {
    if text == [] || (text[0] != LF && length >= max) then 0 else 1 + Accepted(max, length + 1, text[1..])
  }

  /** Every byte at the ceiling or past it is a line ending. */
  predicate Fits(max: nat, length: nat, text: seq<byte>) {
    forall i | 0 <= i < |text| && length + i >= max :: text[i] == LF
  }

  lemma {:induction false} AcceptedMeans(max: nat, length: nat, text: seq<byte>)
    ensures var n := Accepted(max, length, text);
            && (n == |text| <==> Fits(max, length, text))
            && Fits(max, length, text[..n])
            && (n < |text| ==> length + n >= max && text[n] != LF)
    decreases |text|
  {
    if text != [] && !(text[0] != LF && length >= max) {
      var n := Accepted(max, length, text);
      AcceptedMeans(max, length + 1, text[1..]);
      assert text[1..][..n - 1] == text[..n][1..];
      assert Fits(max, length, text) ==> Fits(max, length + 1, text[1..]) by {
        forall i | 0 <= i < |text[1..]| ensures text[1..][i] == text[i + 1] {}
      }
      assert Fits(max, length + 1, text[1..]) ==> Fits(max, length, text) by {
        forall i | 0 < i < |text| ensures text[i] == text[1..][i - 1] {}
      }
      forall i | 0 <= i < n && length + i >= max ensures text[..n][i] == LF {
        if i > 0 { assert text[..n][i] == text[1..][..n - 1][i - 1]; }
      }
    } else if text != [] {
      assert length + 0 >= max && text[0] != LF;
    }
  }

  /** The editor after a paste of which everything, or not everything, is accepted. */
  function AfterPaste(c: Console, e: Editor, bytes: seq<byte>): Editor {
    var text := Folded(e.pendingCr, bytes);
    var n := Accepted(c.maxInput, |e.line|, text);
    e.(line := e.line + text[..n],
       pendingCr := if bytes == [] then e.pendingCr else n == |text| && bytes[|bytes| - 1] == CR,
       stopped := if n == |text| then None else Some(InputTooLarge))
  }

  /** One pasted byte that is no control. */
  function PasteByte(c: Console, e: Editor, b: byte): Editor {
    if b == CR then e.(pendingCr := true, line := e.line + [LF])
    else if b == LF && e.pendingCr then e.(pendingCr := false)
    else if b != LF && |e.line| >= c.maxInput then e.(pendingCr := false, stopped := Some(InputTooLarge))
    else e.(pendingCr := false, line := e.line + [b])
  }

  lemma FeedFolds(c: Console, e: Editor, b: byte)
    requires Pasting(e) && !IsControl(b)
    ensures Feed(c, e, b) == PasteByte(c, e, b)
  {
  }

  lemma AcceptedStep(max: nat, length: nat, b: byte, rest: seq<byte>)
    ensures Accepted(max, length, [b] + rest)
            == if b != LF && length >= max then 0 else 1 + Accepted(max, length + 1, rest)
  {
    assert ([b] + rest)[1..] == rest;
  }

  lemma FoldedHead(pendingCr: bool, b: byte, rest: seq<byte>)
    requires !(b == LF && pendingCr)
    ensures Folded(pendingCr, [b] + rest) == [if b == CR then LF else b] + Folded(b == CR, rest)
  {
    FoldStep(b, rest);
  }

  /** What is accepted when the first byte is. */
  lemma AcceptedHead(max: nat, line: seq<byte>, first: byte, tail: seq<byte>)
    requires first == LF || |line| < max
    ensures var n := Accepted(max, |line| + 1, tail);
            Accepted(max, |line|, [first] + tail) == 1 + n
            && line + ([first] + tail)[..1 + n] == (line + [first]) + tail[..n]
  {
    AcceptedStep(max, |line|, first, tail);
    var n := Accepted(max, |line| + 1, tail);
    assert ([first] + tail)[..1 + n] == [first] + tail[..n];
  }

  lemma LastByte(b: byte, rest: seq<byte>)
    ensures var bytes := [b] + rest; bytes[|bytes| - 1] == if rest == [] then b else rest[|rest| - 1]
  {
  }

  /** The first byte of the folded text is taken. */
  lemma FirstFolded(c: Console, e: Editor, b: byte, rest: seq<byte>)
    requires Pasting(e) && PasteByte(c, e, b).stopped.None? && !(b == LF && e.pendingCr)
    ensures AfterPaste(c, PasteByte(c, e, b), rest) == AfterPaste(c, e, [b] + rest)
  {
    FoldedHead(e.pendingCr, b, rest);
    AcceptedHead(c.maxInput, e.line, if b == CR then LF else b, Folded(b == CR, rest));
    LastByte(b, rest);
  }

  lemma SwallowedFirst(c: Console, e: Editor, rest: seq<byte>)
    requires Pasting(e) && e.pendingCr
    ensures AfterPaste(c, PasteByte(c, e, LF), rest) == AfterPaste(c, e, [LF] + rest)
  {
    var bytes := [LF] + rest;
    assert bytes[1..] == rest && (rest != [] ==> bytes[|bytes| - 1] == rest[|rest| - 1]);
  }

  lemma StoppedFirst(c: Console, e: Editor, b: byte, rest: seq<byte>)
    requires Pasting(e) && PasteByte(c, e, b).stopped.Some?
    ensures PasteByte(c, e, b) == AfterPaste(c, e, [b] + rest)
  {
    FoldStep(b, rest);
    assert ([b] + rest)[1..] == rest;
    var text := [b] + Fold(rest);
    assert Folded(e.pendingCr, [b] + rest) == text;
    AcceptedStep(c.maxInput, |e.line|, b, Fold(rest));
    assert text[..0] == [] && e.line + [] == e.line;
  }

  /** What any control-free paste does: its bytes are appended, with every CRLF or CR folded into a line
      feed, up to the first byte at the ceiling or past it that is no line ending; there the console stops. */
  lemma {:induction false} PasteFolds(c: Console, e: Editor, bytes: seq<byte>)
    requires Pasting(e) && NoControl(bytes)
    ensures FeedAll(c, e, bytes) == AfterPaste(c, e, bytes)
    decreases |bytes|
  {
    if bytes == [] {
      assert e.line + [] == e.line;
    } else {
      var b, rest := bytes[0], bytes[1..];
      assert !IsControl(b) && [b] + rest == bytes;
      FeedFolds(c, e, b);
      if PasteByte(c, e, b).stopped.Some? {
        FeedStopped(c, PasteByte(c, e, b), rest);
        StoppedFirst(c, e, b, rest);
      } else {
        PasteFolds(c, PasteByte(c, e, b), rest);
        if b == LF && e.pendingCr { SwallowedFirst(c, e, rest); } else { FirstFolded(c, e, b, rest); }
      }
    }
  }

  lemma FoldStep(b: byte, rest: seq<byte>)
    ensures Fold([b] + rest)
            == if b == CR then [LF] + Fold(if Completes(true, rest) then rest[1..] else rest) else [b] + Fold(rest)
  {
    var all := [b] + rest;
    assert all[1..] == rest;
    if Completes(true, rest) { assert all[2..] == rest[1..]; }
  }

  /** One paste frame, cut into chunks anywhere, with no carriage return pending: its bytes are appended
      with every CRLF or CR folded into a line feed, all of them exactly when they fit. */
  lemma PasteFoldsAnyChunks(c: Console, e: Editor, chunks: seq<seq<byte>>)
    requires Pasting(e) && !e.pendingCr && NoControl(Join(chunks))
    ensures var text := Fold(Join(chunks)); var e' := FeedChunks(c, e, chunks);
            && e'.line == e.line + text[..Accepted(c.maxInput, |e.line|, text)]
            && (e'.line == e.line + text <==> Fits(c.maxInput, |e.line|, text))
            && (e'.stopped == Some(InputTooLarge) <==> !Fits(c.maxInput, |e.line|, text))
  {
    var text := Fold(Join(chunks));
    ChunksAreJoined(c, e, chunks);
    PasteFolds(c, e, Join(chunks));
    AcceptedMeans(c.maxInput, |e.line|, text);
    assert text[..|text|] == text;
  }

  const FRAME_START: seq<byte> := [0x1B, 0x5B, 0x32, 0x30, 0x30, 0x7E]
  const FRAME_END: seq<byte> := [0x1B, 0x5B, 0x32, 0x30, 0x31, 0x7E]

  lemma FeedTwo(c: Console, e: Editor, a: byte, b: byte)
    ensures FeedAll(c, e, [a, b]) == Feed(c, Feed(c, e, a), b)
  {
    assert [a, b][1..] == [b] && [b][1..] == [];
    var e2 := Feed(c, Feed(c, e, a), b);
    assert FeedAll(c, e2, []) == e2;
  }

  lemma FrameOpens(c: Console, e: Editor)
    requires e.escape == InText && e.stopped.None?
    ensures FeedAll(c, e, [0x1B, 0x5B, 0x32, 0x30]) == e.(escape := InCsi, csi := [0x32, 0x30])
  {
    FeedTwo(c, e, 0x1B, 0x5B);
    FeedTwo(c, e.(escape := InCsi, csi := []), 0x32, 0x30);
    FeedConcat(c, e, [0x1B, 0x5B], [0x32, 0x30]);
    assert [0x1B, 0x5B] + [0x32, 0x30] == [0x1B, 0x5B, 0x32, 0x30];
  }

  lemma FrameCloses(c: Console, e: Editor, start: bool)
    requires e.escape == InCsi && e.stopped.None? && e.csi == [0x32, 0x30]
    ensures FeedAll(c, e, [if start then 0x30 else 0x31, 0x7E])
            == e.(escape := InText, paste := start, csi := if start then PASTE_ON else PASTE_OFF)
  {
    FeedTwo(c, e, if start then 0x30 else 0x31, 0x7E);
    assert e.csi + [0x30] == PASTE_ON && e.csi + [0x31] == PASTE_OFF;
  }

  /** The six bytes that frame a paste only switch the mode. */
  lemma FrameSwitches(c: Console, e: Editor, start: bool)
    requires e.escape == InText && e.stopped.None?
    ensures FeedAll(c, e, if start then FRAME_START else FRAME_END)
            == e.(paste := start, csi := if start then PASTE_ON else PASTE_OFF)
  {
    FrameOpens(c, e);
    FrameCloses(c, e.(escape := InCsi, csi := [0x32, 0x30]), start);
    FeedConcat(c, e, [0x1B, 0x5B, 0x32, 0x30], [if start then 0x30 else 0x31, 0x7E]);
  }

  function Framed(bytes: seq<byte>): seq<byte> {
    FRAME_START + bytes + FRAME_END
  }

  /** A whole frame: when its text fits, paste mode is off again behind it. */
  lemma FrameResult(c: Console, e: Editor, bytes: seq<byte>)
    requires e.escape == InText && e.stopped.None? && NoControl(bytes)
    ensures var e1 := AfterPaste(c, e.(paste := true, csi := PASTE_ON), bytes);
            FeedAll(c, e, Framed(bytes)) == if e1.stopped.Some? then e1 else e1.(paste := false, csi := PASTE_OFF)
  {
    var e1 := AfterPaste(c, e.(paste := true, csi := PASTE_ON), bytes);
    FrameSwitches(c, e, true);
    PasteFolds(c, e.(paste := true, csi := PASTE_ON), bytes);
    if e1.stopped.Some? { FeedStopped(c, e1, FRAME_END); } else { FrameSwitches(c, e1, false); }
    FeedConcat(c, e, FRAME_START + bytes, FRAME_END);
    FeedConcat(c, e, FRAME_START, bytes);
  }

  /** A whole paste appends its folded bytes exactly when they fit and it does not begin with a line feed
      that an earlier paste's last carriage return swallows. */
  lemma PasteExactlyFolds(c: Console, e: Editor, bytes: seq<byte>)
    requires e.escape == InText && e.stopped.None? && NoControl(bytes)
    ensures FeedAll(c, e, Framed(bytes)).line == e.line + Fold(bytes)
            <==> !Completes(e.pendingCr, bytes) && Fits(c.maxInput, |e.line|, Fold(bytes))
  {
    FrameResult(c, e, bytes);
    var text := Folded(e.pendingCr, bytes);
    AcceptedMeans(c.maxInput, |e.line|, text);
    var n := Accepted(c.maxInput, |e.line|, text);
    assert |e.line + text[..n]| == |e.line| + n;
    if Completes(e.pendingCr, bytes) {
      assert Fold(bytes) == [LF] + text;
    } else if n == |text| {
      assert text[..n] == text;
    }
  }

  /** The ceiling, for every control-free paste: the console stops exactly when some byte at the ceiling
      or past it is no line ending, and the line grows past the ceiling exactly when the byte at the
      ceiling is a line ending. */
  lemma CeilingExactly(c: Console, e: Editor, bytes: seq<byte>)
    requires e.escape == InText && e.stopped.None? && NoControl(bytes) && |e.line| <= c.maxInput
    ensures var text := Folded(e.pendingCr, bytes); var e' := FeedAll(c, e, Framed(bytes));
            && (e'.stopped == Some(InputTooLarge) <==> !Fits(c.maxInput, |e.line|, text))
            && (|e'.line| > c.maxInput <==>
                  c.maxInput - |e.line| < |text| && text[c.maxInput - |e.line|] == LF)
  {
    var text, room := Folded(e.pendingCr, bytes), c.maxInput - |e.line|;
    FrameResult(c, e, bytes);
    AcceptedMeans(c.maxInput, |e.line|, text);
    var n := Accepted(c.maxInput, |e.line|, text);
    if n > room { assert text[..n][room] == LF; }
  }

  /** A pasted message that fits is dispatched as it is, unless it is blank, however long its line endings
      have made it. */
  lemma PastedMessageIsDispatched(c: Console, e: Editor, bytes: seq<byte>)
    requires e.escape == InText && e.stopped.None? && NoControl(bytes)
    requires Fits(c.maxInput, |e.line|, Folded(e.pendingCr, bytes))
    ensures var message := e.line + Folded(e.pendingCr, bytes);
            FeedAll(c, e, Framed(bytes) + [CR]).queued == e.queued + if Blank(message) then [] else [message]
  {
    var text := Folded(e.pendingCr, bytes);
    FrameResult(c, e, bytes);
    AcceptedMeans(c.maxInput, |e.line|, text);
    assert text[..|text|] == text;
    var e1 := FeedAll(c, e, Framed(bytes));
    FeedConcat(c, e, Framed(bytes), [CR]);
    var e2 := Feed(c, e1, CR);
    assert [CR][1..] == [] && FeedAll(c, e2, []) == e2;
    assert e.queued + [] == e.queued;
  }

  /** It does happen: of two pastes the second loses its empty first line. */
  lemma SecondPasteLosesLineFeed(c: Console, a: byte, b: byte)
    requires c.maxInput >= 4 && !IsControl(a) && !IsControl(b) && a != CR && a != LF && b != CR && b != LF
    ensures FeedAll(c, FRESH, Framed([a, CR]) + Framed([LF, b])).line == [a, LF, b]
    ensures Fold([a, CR]) + Fold([LF, b]) == [a, LF, LF, b]
  {
    FoldStep(a, [CR]);
    FoldStep(CR, []);
    FoldStep(LF, [b]);
    FoldStep(b, []);
    assert [a] + [CR] == [a, CR] && [CR] + [] == [CR] && [LF] + [b] == [LF, b] && [b] + [] == [b];
    assert Fold([a, CR]) == [a, LF] && Fold([b]) == [b] && [LF, b][1..] == [b];
    FeedConcat(c, FRESH, Framed([a, CR]), Framed([LF, b]));
    FrameResult(c, FRESH, [a, CR]);
    AcceptedMeans(c.maxInput, 0, [a, LF]);
    assert [] + [a, LF][..2] == [a, LF];
    var e1 := FRESH.(line := [a, LF], pendingCr := true, csi := PASTE_OFF);
    assert FeedAll(c, FRESH, Framed([a, CR])) == e1;
    FrameResult(c, e1, [LF, b]);
    AcceptedMeans(c.maxInput, 2, [b]);
    assert [a, LF] + [b][..1] == [a, LF, b];
  }

  // ---- Erasing code points ----

  type scalar = c: int | 0 <= c <= 0xD7FF || 0xE000 <= c <= 0x10FFFF witness 0

  /** Section 3 of RFC 3629. */
  function Encode(c: scalar): seq<byte> {
    if c < 0x80 then [c]
    else if c < 0x800 then [0xC0 + c / 64, 0x80 + c % 64]
    else if c < 0x10000 then [0xE0 + c / 4096, 0x80 + c / 64 % 64, 0x80 + c % 64]
    else [0xF0 + c / 262144, 0x80 + c / 4096 % 64, 0x80 + c / 64 % 64, 0x80 + c % 64]
  }

  function EncodeAll(s: seq<scalar>): seq<byte>
    decreases |s|
  {
    if s == [] then [] else EncodeAll(s[..|s| - 1]) + Encode(s[|s| - 1])
  }

  predicate Continues(b: byte) {
    0x80 <= b <= 0xBF
  }

  lemma EncodedShape(c: scalar)
    ensures var u := Encode(c); u != [] && !Continues(u[0]) && forall i | 1 <= i < |u| :: Continues(u[i])
  {
  }

  /** Erasing takes away the bytes from the last one that starts a code point. */
  lemma {:induction false} EraseUnit(front: seq<byte>, unit: seq<byte>)
    requires unit != [] && !Continues(unit[0]) && forall i | 1 <= i < |unit| :: Continues(unit[i])
    ensures Erase(front + unit) == front
    decreases |unit|
  {
    var n := |unit| - 1;
    assert (front + unit)[..|front| + n] == front + unit[..n];
    if n == 0 {
      assert front + [] == front;
    } else {
      EraseUnit(front, unit[..n]);
    }
  }

  /** On a line that is UTF-8, one erase removes one code point. */
  lemma EraseRemovesOneCodePoint(s: seq<scalar>)
    requires s != []
    ensures EncodeAll(s) != [] && Erase(EncodeAll(s)) == EncodeAll(s[..|s| - 1])
  {
    EncodedShape(s[|s| - 1]);
    EraseUnit(EncodeAll(s[..|s| - 1]), Encode(s[|s| - 1]));
  }

  predicate IsLetter(c: scalar) {
    c != 0x03 && c != 0x04 && c != 0x08 && c != 0x0A && c != 0x0D && c != 0x1B && c != 0x7F
  }

  predicate Ordinary(b: byte) {
    !IsControl(b) && b != LF && b != CR
  }

  predicate Typing(e: Editor) {
    !e.paste && e.escape == InText && e.stopped.None?
  }

  lemma {:induction false} TypedAppends(c: Console, e: Editor, bytes: seq<byte>)
    requires Typing(e) && (forall i | 0 <= i < |bytes| :: Ordinary(bytes[i])) && |e.line| + |bytes| <= c.maxInput
    ensures FeedAll(c, e, bytes) == e.(line := e.line + bytes)
    decreases |bytes|
  {
    if bytes == [] {
      assert e.line + [] == e.line;
    } else {
      assert Ordinary(bytes[0]);
      TypedAppends(c, e.(line := e.line + [bytes[0]]), bytes[1..]);
      assert (e.line + [bytes[0]]) + bytes[1..] == e.line + bytes;
    }
  }

  lemma {:induction false} LettersOrdinary(s: seq<scalar>)
    requires forall i | 0 <= i < |s| :: IsLetter(s[i])
    ensures forall i | 0 <= i < |EncodeAll(s)| :: Ordinary(EncodeAll(s)[i])
    decreases |s|
  {
    if s != [] {
      var last := s[|s| - 1];
      LettersOrdinary(s[..|s| - 1]);
      assert IsLetter(last);
      LetterOrdinary(last);
    }
  }

  lemma LetterOrdinary(c: scalar)
    requires IsLetter(c)
    ensures forall i | 0 <= i < |Encode(c)| :: Ordinary(Encode(c)[i])
  {
    if c >= 0x80 {
      EncodedShape(c);
      forall i | 0 <= i < |Encode(c)| ensures Ordinary(Encode(c)[i]) {
        if i > 0 { assert Continues(Encode(c)[i]); }
      }
    }
  }

  /** `n` erases. */
  lemma EraseFed(c: Console, e: Editor, s: seq<scalar>)
    requires Typing(e) && e.line == EncodeAll(s) && s != []
    ensures Feed(c, e, DEL) == e.(line := EncodeAll(s[..|s| - 1]))
  {
    EraseRemovesOneCodePoint(s);
    DeleteErases(c, e, EncodeAll(s[..|s| - 1]));
  }

  lemma DeleteErases(c: Console, e: Editor, front: seq<byte>)
    requires Typing(e) && e.line != [] && Erase(e.line) == front
    ensures Feed(c, e, DEL) == e.(line := front)
  {
  }

  lemma {:induction false} ErasesRemove(c: Console, e: Editor, s: seq<scalar>, n: nat)
    requires Typing(e) && e.line == EncodeAll(s) && n <= |s|
    ensures FeedAll(c, e, seq(n, _ => DEL)) == e.(line := EncodeAll(s[..|s| - n]))
    decreases n
  {
    if n == 0 {
      assert s[..|s|] == s;
    } else {
      var all, front := seq(n, _ => DEL), s[..|s| - 1];
      var e' := e.(line := EncodeAll(front));
      assert all[1..] == seq(n - 1, _ => DEL) && all[0] == DEL;
      EraseFed(c, e, s);
      ErasesRemove(c, e', front, n - 1);
      assert FeedAll(c, e, all) == FeedAll(c, e', all[1..]);
      assert front[..|front| - (n - 1)] == s[..|s| - n];
    }
  }

  /** Typing any text that fits and erasing `n` times leaves the text without its last `n` code points. */
  lemma TypeThenErase(c: Console, e: Editor, s: seq<scalar>, n: nat)
    requires Typing(e) && e.line == [] && n <= |s| && |EncodeAll(s)| <= c.maxInput
    requires forall i | 0 <= i < |s| :: IsLetter(s[i])
    ensures FeedAll(c, e, EncodeAll(s) + seq(n, _ => DEL)).line == EncodeAll(s[..|s| - n])
  {
    LettersOrdinary(s);
    TypedAppends(c, e, EncodeAll(s));
    assert [] + EncodeAll(s) == EncodeAll(s);
    FeedConcat(c, e, EncodeAll(s), seq(n, _ => DEL));
    ErasesRemove(c, e.(line := EncodeAll(s)), s, n);
  }

  // ---- Blank lines ----

  predicate BlankScalar(c: scalar) {
    JavaScriptText.IsBlank(c as char)
  }

  lemma BlankUnit(c: scalar, rest: seq<byte>)
    ensures BlankAhead(Encode(c) + rest) == if BlankScalar(c) then |Encode(c)| else 0
  {
    var unit := Encode(c);
    var u := unit + rest;
    assert u[0] == unit[0];
    if |unit| > 1 { assert u[1] == unit[1]; }
    if |unit| > 2 { assert u[2] == unit[2]; }
  }

  lemma {:induction false} EncodeFront(c: scalar, rest: seq<scalar>)
    ensures EncodeAll([c] + rest) == Encode(c) + EncodeAll(rest)
    decreases |rest|
  {
    var all := [c] + rest;
    if rest == [] {
      assert all[..0] == [] && EncodeAll([]) == [];
      assert EncodeAll(all) == [] + Encode(c) == Encode(c) + [];
    } else {
      assert all[..|all| - 1] == [c] + rest[..|rest| - 1];
      EncodeFront(c, rest[..|rest| - 1]);
    }
  }

  /** A line of UTF-8 is dropped exactly when its text is all ECMAScript white space. */
  lemma {:induction false} BlankExactly(s: seq<scalar>)
    ensures Blank(EncodeAll(s)) <==> forall c | c in s :: BlankScalar(c)
    decreases |s|
  {
    if s != [] {
      var c, rest := s[0], s[1..];
      assert s == [c] + rest;
      EncodeFront(c, rest);
      BlankUnit(c, EncodeAll(rest));
      EncodedShape(c);
      assert (Encode(c) + EncodeAll(rest))[|Encode(c)|..] == EncodeAll(rest);
      BlankExactly(rest);
    }
  }
}
