/**
 What the sanitizer reads: every text is a sequence of units (single characters,
 escape sequences, control sequences and control strings) with at most one cut off at
 its end, and what comes out is exactly the single characters that control nothing.
 */
module TerminalUnits {
  import opened Wrappers
  import opened TerminalText

  // ---- Units ----

  const OPENING_LETTERS := "PX^_]"
  const OPENING_CONTROLS := "\U{90}\U{98}\U{9D}\U{9E}\U{9F}"

  /** A character that is a unit by itself. */
  predicate IsSingle(c: char) {
    c != '\U{1B}' && c != '\U{9B}' && c !in OPENING_CONTROLS
  }

  /** ... and that comes out: a tab, a line feed, or no control character of ASCII. */
  predicate ComesOut(c: char) {
    c == '\t' || c == '\n' || ('\U{20}' <= c && c != '\U{7F}')
  }

  /** An escape and one character that opens nothing. */
  predicate IsShortEscape(u: string) {
    |u| == 2 && u[0] == '\U{1B}' && u[1] !in OPENING_LETTERS && u[1] != '[' && u[1] != '\U{9B}' && !(' ' <= u[1] <= '/')
  }

  /** An escape, an intermediate, and more up to the first character that ends an escape sequence. */
  predicate BeginsLongEscape(u: string) {
    && |u| >= 2 && u[0] == '\U{1B}' && ' ' <= u[1] <= '/'
    && forall i | 2 <= i < |u| :: !('0' <= u[i] <= '~')
  }

  /** How many characters introduce a control sequence. */
  function CsiLength(u: string): nat {
    if |u| >= 1 && u[0] == '\U{9B}' then 1
    else if |u| >= 2 && u[0] == '\U{1B}' && (u[1] == '[' || u[1] == '\U{9B}') then 2 else 0
  }

  predicate BeginsCsi(u: string) {
    CsiLength(u) > 0 && forall i | CsiLength(u) <= i < |u| :: !('@' <= u[i] <= '~')
  }

  function OpenerLength(u: string): nat {
    if |u| >= 1 && u[0] in OPENING_CONTROLS then 1
    else if |u| >= 2 && u[0] == '\U{1B}' && u[1] in OPENING_LETTERS then 2 else 0
  }

  /** A control string ends with a bell or a terminator, behind an escape with a backslash only. */
  predicate EndsString(u: string, i: nat)
    requires i < |u|
  {
    if i > OpenerLength(u) && u[i - 1] == '\U{1B}' then u[i] == '\\' else u[i] == '\U{07}' || u[i] == '\U{9C}'
  }

  predicate BeginsString(u: string) {
    OpenerLength(u) > 0 && forall i | OpenerLength(u) <= i < |u| :: !EndsString(u, i)
  }

  /** A unit, from its first to its last character. */
  ghost predicate IsUnit(u: string) {
    u != "" &&
    var front, last := u[..|u| - 1], u[|u| - 1];
    || (|u| == 1 && IsSingle(last))
    || IsShortEscape(u)
    || (BeginsLongEscape(front) && '0' <= last <= '~')
    || (BeginsCsi(front) && '@' <= last <= '~')
    || (BeginsString(front) && EndsString(u, |u| - 1))
  }

  /** The beginning of a unit that is not over. */
  ghost predicate IsCutOff(u: string) {
    u == "\U{1B}" || BeginsLongEscape(u) || BeginsCsi(u) || BeginsString(u)
  }

  // ---- What the machine makes of them ----

  /** The state in which the beginning of a unit leaves the machine. */
  function StateAfter(u: string): EscapeState {
    if u == "" then Text
    else if u == "\U{1B}" then Escape
    else if BeginsCsi(u) then Csi
    else if BeginsString(u) then (if |u| > OpenerLength(u) && u[|u| - 1] == '\U{1B}' then StrEscape else Str)
    else EscapeIntermediate
  }

  lemma LongerBegins(u: string, c: char)
    requires u != ""
    ensures u != "\U{1B}" ==> CsiLength(u + [c]) == CsiLength(u) && OpenerLength(u + [c]) == OpenerLength(u)
    ensures BeginsCsi(u) ==> (BeginsCsi(u + [c]) <==> !('@' <= c <= '~'))
    ensures BeginsLongEscape(u) ==> (BeginsLongEscape(u + [c]) <==> !('0' <= c <= '~'))
    ensures BeginsString(u) ==> (BeginsString(u + [c]) <==> !EndsString(u + [c], |u|))
    ensures BeginsCsi(u + [c]) && u != "\U{1B}" ==> BeginsCsi(u)
    ensures BeginsString(u + [c]) && u != "\U{1B}" ==> BeginsString(u)
    ensures BeginsLongEscape(u + [c]) && u != "\U{1B}" ==> BeginsLongEscape(u)
  {
    var w := u + [c];
    assert w[|u|] == c && forall i | 0 <= i < |u| :: w[i] == u[i];
    if BeginsCsi(w) { assert forall i | 0 <= i < |u| :: u[i] == w[i]; }
    if BeginsString(w) && u != "\U{1B}" {
      forall i | OpenerLength(u) <= i < |u| ensures !EndsString(u, i) { assert EndsString(u, i) == EndsString(w, i); }
    }
    if BeginsString(u) {
      forall i | OpenerLength(u) <= i < |u| ensures !EndsString(w, i) { assert EndsString(u, i) == EndsString(w, i); }
    }
  }

  /** One character more: either the unit goes on, or it is over and text is read again. */
  lemma NextCharacter(u: string, c: char)
    requires u == "" || IsCutOff(u)
    ensures var w := u + [c];
            if IsCutOff(w) then NextState(StateAfter(u), c) == StateAfter(w) != Text
            else IsUnit(w) && NextState(StateAfter(u), c) == Text
  {
    var w := u + [c];
    assert w[..|w| - 1] == u && w[|w| - 1] == c;
    if u == "" {
      assert w == [c];
    } else {
      LongerBegins(u, c);
      if u == "\U{1B}" { assert w == ['\U{1B}', c]; }
    }
  }

  lemma {:induction false} CutOffRead(u: string)
    requires u == "" || IsCutOff(u)
    ensures ReadAll(Machine(Text, ""), u) == Machine(StateAfter(u), "")
    decreases |u|
  {
    if u != "" {
      var front, last := u[..|u| - 1], u[|u| - 1];
      assert u == front + [last];
      FrontCutOff(front, last);
      CutOffRead(front);
      NextCharacter(front, last);
    }
  }

  lemma FrontCutOff(front: string, last: char)
    requires IsCutOff(front + [last])
    ensures front == "" || IsCutOff(front)
  {
    if front != "" { LongerBegins(front, last); }
  }

  /** What comes out of one unit. */
  function Out(u: string): string {
    if |u| == 1 && IsSingle(u[0]) && ComesOut(u[0]) then u else ""
  }

  lemma UnitRead(u: string)
    requires IsUnit(u)
    ensures ReadAll(Machine(Text, ""), u) == Machine(Text, Out(u))
  {
    var front, last := u[..|u| - 1], u[|u| - 1];
    assert u == front + [last];
    if |u| == 1 {
      ReadOne(Machine(Text, ""), last);
      assert u == [last] && front == "";
    } else {
      UnitIsNotCutOff(front, last);
      CutOffRead(front);
      NextCharacter(front, last);
    }
  }

  lemma UnitIsNotCutOff(front: string, last: char)
    requires IsUnit(front + [last]) && front != ""
    ensures IsCutOff(front) && !IsCutOff(front + [last])
  {
    var u := front + [last];
    assert u[..|u| - 1] == front && u[|u| - 1] == last;
    LongerBegins(front, last);
    if IsShortEscape(u) { assert front == "\U{1B}"; }
  }

  function Joined(units: seq<string>): string
    decreases |units|
  {
    if units == [] then "" else Joined(units[..|units| - 1]) + units[|units| - 1]
  }

  function AllOut(units: seq<string>): string
    decreases |units|
  {
    if units == [] then "" else AllOut(units[..|units| - 1]) + Out(units[|units| - 1])
  }

  ghost predicate AllUnits(units: seq<string>) {
    forall u | u in units :: IsUnit(u)
  }

  lemma {:induction false} UnitsRead(units: seq<string>)
    requires AllUnits(units)
    ensures ReadAll(Machine(Text, ""), Joined(units)) == Machine(Text, AllOut(units))
    decreases |units|
  {
    if units != [] {
      var front, last := units[..|units| - 1], units[|units| - 1];
      assert last in units && forall u | u in front :: u in units;
      UnitsRead(front);
      UnitRead(last);
      ReadConcat(Machine(Text, ""), Joined(front), last);
      ReadFrame(Text, AllOut(front), last);
    }
  }

  /** Every text is a sequence of units, with at most one that is cut off at its end. */
  lemma {:induction false} TextIsUnits(s: string) returns (units: seq<string>, rest: string)
    ensures AllUnits(units) && s == Joined(units) + rest && (rest == "" || IsCutOff(rest))
    decreases |s|
  {
    if s == "" {
      units, rest := [], "";
    } else {
      var last := s[|s| - 1];
      units, rest := TextIsUnits(s[..|s| - 1]);
      assert s == Joined(units) + (rest + [last]);
      NextCharacter(rest, last);
      rest := rest + [last];
      if !IsCutOff(rest) {
        assert (units + [rest])[..|units|] == units;
        units, rest := units + [rest], "";
        assert s == Joined(units) + rest;
      }
    }
  }

  /** What is written of any such text: the single characters that control nothing, and no other. */
  lemma SanitizedUnits(units: seq<string>, rest: string)
    requires AllUnits(units) && (rest == "" || IsCutOff(rest))
    ensures Sanitize(Joined(units) + rest) == AllOut(units)
  {
    UnitsRead(units);
    CutOffRead(rest);
    ReadConcat(Machine(Text, ""), Joined(units), rest);
    ReadFrame(Text, AllOut(units), rest);
  }

  /** A text leaves no trace exactly when it is made of whole units of which none comes out. */
  lemma InvisibleExactly(s: string)
    ensures Invisible(s)
            <==> exists units :: AllUnits(units) && s == Joined(units) && forall u | u in units :: Out(u) == ""
  {
    if Invisible(s) {
      var units, rest := TextIsUnits(s);
      UnitsRead(units);
      CutOffRead(rest);
      ReadConcat(Machine(Text, ""), Joined(units), rest);
      ReadFrame(Text, AllOut(units), rest);
      assert rest == "";
      assert s == Joined(units);
      NothingOut(units);
    }
    if units :| AllUnits(units) && s == Joined(units) && forall u | u in units :: Out(u) == "" {
      UnitsRead(units);
      NothingOut(units);
    }
  }

  lemma {:induction false} NothingOut(units: seq<string>)
    ensures AllOut(units) == "" <==> forall u | u in units :: Out(u) == ""
    decreases |units|
  {
    if units != [] {
      var front, last := units[..|units| - 1], units[|units| - 1];
      NothingOut(front);
      assert units == front + [last];
    }
  }
}
