/**
 Removing terminal control sequences from untrusted text (sanitizeTerminalText in
 src/cli/console.ts), against the control sequences and control strings of
 sections 5.4 and 5.6 of ECMA-48.
 */
module TerminalText {
  import opened Wrappers

  datatype EscapeState = Text | Escape | EscapeIntermediate | Csi | Str | StrEscape

  datatype Machine = Machine(state: EscapeState, result: string)

  const BEL := '\U{07}'
  const ESC := '\U{1B}'
  const ST := '\U{9C}'

  predicate OpensString8(c: char) {
    c == '\U{90}' || c == '\U{98}' || c == '\U{9D}' || c == '\U{9E}' || c == '\U{9F}'
  }

  predicate OpensString7(c: char) {
    c == 'P' || c == 'X' || c == '^' || c == '_' || c == ']'
  }

  /** A character that text keeps: it moves no cursor and opens no sequence. */
  predicate Plain(c: char) {
    c == '\t' || c == '\n' || (' ' <= c && c != '\U{7F}' && c != '\U{9B}' && !OpensString8(c))
  }

  function NextState(state: EscapeState, c: char): EscapeState {
    match state
    case Str => if c == BEL || c == ST then Text else if c == ESC then StrEscape else Str
    case StrEscape => if c == '\\' then Text else if c == ESC then StrEscape else Str
    case Csi => if '@' <= c <= '~' then Text else Csi
    case EscapeIntermediate => if '0' <= c <= '~' then Text else EscapeIntermediate
    case Escape =>
      if c == '[' || c == '\U{9B}' then Csi
      else if OpensString7(c) then Str
      else if ' ' <= c <= '/' then EscapeIntermediate
      else Text
    case Text => if c == ESC then Escape else if c == '\U{9B}' then Csi else if OpensString8(c) then Str else Text
  }

  function Read(m: Machine, c: char): Machine {
    Machine(NextState(m.state, c), if m.state == Text && Plain(c) then m.result + [c] else m.result)
  }

  function ReadAll(m: Machine, s: string): Machine
    decreases |s|
  {
    if s == "" then m else Read(ReadAll(m, s[..|s| - 1]), s[|s| - 1])
  }

  function Sanitize(s: string): string {
    ReadAll(Machine(Text, ""), s).result
  }

  method SanitizeTerminalText(value: string) returns (result: string)
    ensures result == Sanitize(value)
  {
    var state := Text;
    result := "";
    var n := 0;
    while n < |value|
      invariant 0 <= n <= |value|
      invariant ReadAll(Machine(Text, ""), value[..n]) == Machine(state, result)
    {
      var c := value[n];
      assert value[..n + 1][..n] == value[..n];
      n := n + 1;
      if state == Str {
        if c == BEL || c == ST { state := Text; } else if c == ESC { state := StrEscape; }
      } else if state == StrEscape {
        state := if c == '\\' then Text else if c == ESC then StrEscape else Str;
      } else if state == Csi {
        if '@' <= c <= '~' { state := Text; }
      } else if state == EscapeIntermediate {
        if '0' <= c <= '~' { state := Text; }
      } else if state == Escape {
        if c == '[' || c == '\U{9B}' { state := Csi; }
        else if c in "PX^_]" { state := Str; }
        else if ' ' <= c <= '/' { state := EscapeIntermediate; }
        else { state := Text; }
      } else if c == ESC {
        state := Escape;
      } else if c == '\U{9B}' {
        state := Csi;
      } else if OpensString8(c) {
        state := Str;
      } else if c == '\t' || c == '\n' || (c >= ' ' && c != '\U{7F}') {
        result := result + [c];
      }
    }
    assert value[..n] == value;
  }

  // ---- Reading in pieces ----

  lemma {:induction false} ReadConcat(m: Machine, a: string, b: string)
    ensures ReadAll(m, a + b) == ReadAll(ReadAll(m, a), b)
    decreases |b|
  {
    if b == "" {
      assert a + b == a;
    } else {
      assert (a + b)[..|a + b| - 1] == a + b[..|b| - 1];
      ReadConcat(m, a, b[..|b| - 1]);
    }
  }

  /** What is already written plays no part in reading on. */
  lemma {:induction false} ReadFrame(state: EscapeState, written: string, s: string)
    ensures var m := ReadAll(Machine(state, ""), s);
            ReadAll(Machine(state, written), s) == Machine(m.state, written + m.result)
    decreases |s|
  {
    if s != "" { ReadFrame(state, written, s[..|s| - 1]); }
  }

  lemma ReadOne(m: Machine, c: char)
    ensures ReadAll(m, [c]) == Read(m, c)
  {
    assert [c][..0] == "";
  }

  // ---- What comes out ----

  /** `sub` is `s` with some characters left out. */
  predicate IsSubsequence(sub: string, s: string)
    decreases |s|
  {
    if s == "" then sub == ""
    else IsSubsequence(sub, s[..|s| - 1])
         || (sub != "" && sub[|sub| - 1] == s[|s| - 1] && IsSubsequence(sub[..|sub| - 1], s[..|s| - 1]))
  }

  predicate AllPlain(s: string) {
    forall i | 0 <= i < |s| :: Plain(s[i])
  }

  /** The output is a subsequence of the input, of characters that control nothing. */
  lemma {:induction false} OutputIsPlainSubsequence(s: string)
    ensures IsSubsequence(Sanitize(s), s) && AllPlain(Sanitize(s))
    decreases |s|
  {
    if s != "" {
      OutputIsPlainSubsequence(s[..|s| - 1]);
      var m := ReadAll(Machine(Text, ""), s[..|s| - 1]);
      if m.state == Text && Plain(s[|s| - 1]) {
        assert Sanitize(s)[..|Sanitize(s)| - 1] == m.result;
      }
    }
  }

  lemma {:induction false} PlainReadsAsIs(s: string)
    requires AllPlain(s)
    ensures ReadAll(Machine(Text, ""), s) == Machine(Text, s)
    decreases |s|
  {
    if s != "" {
      PlainReadsAsIs(s[..|s| - 1]);
      assert s[..|s| - 1] + [s[|s| - 1]] == s;
    }
  }

  /** Exactly the texts without stripped characters are left as they are, and what was sanitized is one. */
  lemma UnchangedExactlyWhenPlain(s: string)
    ensures Sanitize(s) == s <==> AllPlain(s)
    ensures Sanitize(Sanitize(s)) == Sanitize(s)
  {
    OutputIsPlainSubsequence(s);
    PlainReadsAsIs(Sanitize(s));
    if AllPlain(s) { PlainReadsAsIs(s); }
  }

  // ---- Control sequences and strings leave no trace ----

  /** Read where text is read, `s` writes nothing and text goes on behind it. */
  predicate Invisible(s: string) {
    ReadAll(Machine(Text, ""), s) == Machine(Text, "")
  }

  predicate InText(s: string) {
    ReadAll(Machine(Text, ""), s).state == Text
  }

  /** An invisible text can be inserted, or taken out, wherever the machine is in text. */
  lemma InsertInvisible(before: string, s: string, after: string)
    requires InText(before) && Invisible(s)
    ensures Sanitize(before + s + after) == Sanitize(before + after) == Sanitize(before) + Sanitize(after)
  {
    var start := Machine(Text, "");
    ReadConcat(start, before + s, after);
    ReadConcat(start, before, s);
    ReadConcat(start, before, after);
    ReadFrame(Text, Sanitize(before), s);
    assert Sanitize(before) + "" == Sanitize(before);
    ReadFrame(Text, Sanitize(before), after);
  }

  /** Putting `s` anywhere text is read changes nothing. */
  ghost predicate Insertable(s: string) {
    forall before, after | InText(before) :: Sanitize(before + s + after) == Sanitize(before + after)
  }

  /** Outside text the next character is never written. */
  lemma SwallowsLetter(s: string)
    requires !InText(s)
    ensures Sanitize(s + "a") == Sanitize(s)
  {
    ReadConcat(Machine(Text, ""), s, "a");
    ReadOne(ReadAll(Machine(Text, ""), s), 'a');
    assert "a" == ['a'];
  }

  /** Exactly the invisible texts can be put anywhere text is read. */
  lemma InsertableExactly(s: string)
    ensures Insertable(s) <==> Invisible(s)
  {
    if Invisible(s) {
      forall before, after | InText(before) ensures Sanitize(before + s + after) == Sanitize(before + after) {
        InsertInvisible(before, s, after);
      }
    }
    if Insertable(s) {
      InsertedAlone(s, "");
      InsertedAlone(s, "a");
      PlainReadsAsIs("a");
      assert s + "" == s && Sanitize("") == "";
      if !InText(s) { SwallowsLetter(s); }
    }
  }

  lemma InsertedAlone(s: string, after: string)
    requires Insertable(s)
    ensures Sanitize(s + after) == Sanitize(after)
  {
    assert InText("") && "" + s + after == s + after && "" + after == after;
  }

  predicate All(s: string, low: char, high: char) {
    forall i | 0 <= i < |s| :: low <= s[i] <= high
  }

  predicate IsCsi(s: string) {
    s == [ESC, '['] || s == "\U{9B}"
  }

  /** Section 5.4: parameter bytes, intermediate bytes and a final byte after the introducer. */
  ghost predicate IsControlSequence(s: string) {
    exists csi: string, parameters: string, intermediates: string, last: char ::
      && s == csi + parameters + intermediates + [last]
      && IsCsi(csi) && All(parameters, '0', '?') && All(intermediates, ' ', '/') && '@' <= last <= '~'
  }

  lemma {:induction false} StaysCsi(s: string)
    requires All(s, ' ', '?')
    ensures ReadAll(Machine(Csi, ""), s) == Machine(Csi, "")
    decreases |s|
  {
    if s != "" { StaysCsi(s[..|s| - 1]); }
  }

  lemma Introduced(opener: string, entered: EscapeState)
    requires (entered == Csi && IsCsi(opener)) || (entered == Str && IsStringOpener(opener))
    ensures ReadAll(Machine(Text, ""), opener) == Machine(entered, "")
  {
    ReadOne(Machine(Text, ""), opener[0]);
    if |opener| == 2 {
      assert opener == [opener[0]] + [opener[1]];
      ReadConcat(Machine(Text, ""), [opener[0]], [opener[1]]);
      ReadOne(Machine(Escape, ""), opener[1]);
    } else {
      assert opener == [opener[0]];
    }
  }

  lemma CsiInvisible(csi: string, middle: string, last: char)
    requires IsCsi(csi) && All(middle, ' ', '?') && '@' <= last <= '~'
    ensures Invisible(csi + (middle + [last]))
  {
    Introduced(csi, Csi);
    StaysCsi(middle);
    ReadConcat(Machine(Text, ""), csi, middle + [last]);
    ReadConcat(Machine(Csi, ""), middle, [last]);
    ReadOne(Machine(Csi, ""), last);
  }

  lemma ControlSequenceInvisible(s: string)
    requires IsControlSequence(s)
    ensures Invisible(s)
  {
    var csi: string, parameters: string, intermediates: string, last: char :|
      && s == csi + parameters + intermediates + [last]
      && IsCsi(csi) && All(parameters, '0', '?') && All(intermediates, ' ', '/') && '@' <= last <= '~';
    CsiInvisible(csi, parameters + intermediates, last);
    assert s == csi + ((parameters + intermediates) + [last]);
  }

  predicate IsStringOpener(s: string) {
    (|s| == 2 && s[0] == ESC && OpensString7(s[1])) || (|s| == 1 && OpensString8(s[0]))
  }

  predicate IsTerminator(s: string) {
    s == [ESC, '\\'] || s == "\U{9C}"
  }

  /** Section 5.6: what may stand in a command string. */
  predicate IsCommandString(s: string) {
    forall i | 0 <= i < |s| :: '\U{08}' <= s[i] <= '\r' || ' ' <= s[i] <= '~'
  }

  /** Section 5.6: a character string holds anything but its own terminator. */
  predicate IsCharacterString(s: string) {
    (forall i | 0 <= i < |s| :: s[i] != ST) && (forall i | 0 <= i < |s| - 1 :: !(s[i] == ESC && s[i + 1] == '\\'))
  }

  predicate IsSosOpener(s: string) {
    s == [ESC, 'X'] || s == "\U{98}"
  }

  /** Section 5.6: a control string; only SOS opens a character string. */
  predicate IsControlString(opener: string, body: string, terminator: string) {
    && IsStringOpener(opener) && IsTerminator(terminator)
    && (if IsSosOpener(opener) then IsCharacterString(body) else IsCommandString(body))
  }

  /** The machine takes a bell for the end of the string, except right behind an escape. */
  predicate BellAt(body: string, i: nat)
    requires i < |body|
  {
    body[i] == BEL && (i == 0 || body[i - 1] != ESC)
  }

  predicate NoBell(body: string) {
    forall i | 0 <= i < |body| :: !BellAt(body, i)
  }

  function InString(body: string): EscapeState {
    if body != "" && body[|body| - 1] == ESC then StrEscape else Str
  }

  /** A body without its terminator, and without a bell after the opener, stays inside the string. */
  lemma {:induction false} StaysInString(body: string)
    requires IsCharacterString(body)
    requires NoBell(body)
    ensures ReadAll(Machine(Str, ""), body) == Machine(InString(body), "")
    decreases |body|
  {
    if body != "" {
      var front := body[..|body| - 1];
      forall i | 0 <= i < |front| ensures !BellAt(front, i) { assert !BellAt(body, i); }
      assert !BellAt(body, |front|);
      StaysInString(front);
    }
  }

  lemma CommandIsCharacterString(body: string)
    requires IsCommandString(body)
    ensures IsCharacterString(body) && NoBell(body) && InString(body) == Str
  {
  }

  lemma TerminatorEnds(state: EscapeState, terminator: string)
    requires IsTerminator(terminator) && (state == Str || (state == StrEscape && terminator != "\U{9C}"))
    ensures ReadAll(Machine(state, ""), terminator) == Machine(Text, "")
  {
    ReadOne(Machine(state, ""), terminator[0]);
    if |terminator| == 2 {
      assert terminator == [terminator[0]] + [terminator[1]];
      ReadConcat(Machine(state, ""), [terminator[0]], [terminator[1]]);
      ReadOne(Machine(StrEscape, ""), terminator[1]);
    } else {
      assert terminator == [terminator[0]];
    }
  }

  /** The only terminator that is missed is the single-character one right behind an escape. */
  lemma UnbelledString(opener: string, body: string, terminator: string)
    requires IsStringOpener(opener) && IsTerminator(terminator) && IsCharacterString(body) && NoBell(body)
    ensures Invisible(opener + body + terminator) <==> !(InString(body) == StrEscape && terminator == "\U{9C}")
  {
    var s := opener + body + terminator;
    assert s == opener + (body + terminator);
    Introduced(opener, Str);
    StaysInString(body);
    ReadConcat(Machine(Text, ""), opener, body + terminator);
    ReadConcat(Machine(Str, ""), body, terminator);
    if InString(body) == StrEscape && terminator == "\U{9C}" {
      ReadOne(Machine(StrEscape, ""), ST);
      assert terminator == [ST];
    } else {
      TerminatorEnds(InString(body), terminator);
    }
  }

  /** A bell ends any string early: what stands behind it is read as text. */
  lemma BelledString(opener: string, body: string, i: nat, after: string)
    requires i < |body| && IsStringOpener(opener) && IsCharacterString(body[..i]) && BellAt(body, i)
             && NoBell(body[..i])
    ensures ReadAll(Machine(Text, ""), opener + body + after) == ReadAll(Machine(Text, ""), body[i + 1..] + after)
  {
    var rest := body[i + 1..] + after;
    assert opener + body + after == opener + (body[..i] + ([BEL] + rest));
    Introduced(opener, Str);
    StaysInString(body[..i]);
    ReadConcat(Machine(Text, ""), opener, body[..i] + ([BEL] + rest));
    ReadConcat(Machine(Str, ""), body[..i], [BEL] + rest);
    ReadConcat(Machine(Str, ""), [BEL], rest);
    ReadOne(Machine(Str, ""), BEL);
  }

  /** Every control sequence, and every command string, leaves no trace wherever text is read. */
  lemma ControlLeavesNoTrace(before: string, s: string, opener: string, body: string, terminator: string, after: string)
    requires InText(before)
    ensures IsControlSequence(s) ==> Sanitize(before + s + after) == Sanitize(before + after)
    ensures IsControlString(opener, body, terminator) && !IsSosOpener(opener)
            ==> Sanitize(before + (opener + body + terminator) + after) == Sanitize(before + after)
  {
    if IsControlSequence(s) {
      ControlSequenceInvisible(s);
      InsertInvisible(before, s, after);
    }
    if IsControlString(opener, body, terminator) && !IsSosOpener(opener) {
      CommandIsCharacterString(body);
      UnbelledString(opener, body, terminator);
      InsertInvisible(before, opener + body + terminator, after);
    }
  }

  /** A character string leaves no trace exactly when it has no bell and its terminator is not missed,
      or when what stands behind its first bell would leave none as text. */
  lemma CharacterStringTrace(opener: string, body: string, terminator: string)
    requires IsControlString(opener, body, terminator) && IsSosOpener(opener)
    ensures NoBell(body)
            ==> (Invisible(opener + body + terminator) <==> !(InString(body) == StrEscape && terminator == "\U{9C}"))
    ensures forall i | 0 <= i < |body| && BellAt(body, i) && NoBell(body[..i]) ::
              Invisible(opener + body + terminator) <==> Invisible(body[i + 1..] + terminator)
  {
    if NoBell(body) { UnbelledString(opener, body, terminator); }
    forall i | 0 <= i < |body| && BellAt(body, i) && NoBell(body[..i])
      ensures Invisible(opener + body + terminator) <==> Invisible(body[i + 1..] + terminator)
    {
      BelledString(opener, body, i, terminator);
    }
  }

  /** Such a string does occur: its rest, and the terminator itself, come out as text. */
  lemma CharacterStringLeaks(opener: string, letter: char)
    requires opener == "\U{98}" && 'a' <= letter <= 'z'
    ensures IsControlString(opener, [BEL, letter], [ST]) && Sanitize(opener + [BEL, letter] + [ST]) == [letter, ST]
  {
    var body := [BEL, letter];
    assert body[..0] == [] && BellAt(body, 0);
    BelledString(opener, body, 0, [ST]);
    var rest := body[1..] + [ST];
    assert rest == [letter, ST];
    PlainReadsAsIs(rest);
  }
}
