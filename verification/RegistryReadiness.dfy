/**
 Reading one JSON object from a registry command's standard output
 (scripts/wait-registry-readiness.ts): the scan for complete values, the residual
 lines, and exactly when an object is returned.
 */
module RegistryReadiness {
  import opened Wrappers
  import opened JsonGrammar
  import opened JavaScriptText
  import opened ArtifactExtraction

  type Parser = string -> Option<Json>

  /** JSON.parse: it accepts exactly the grammar, and returns what the text denotes. */
  ghost predicate IsParser(parse: Parser) {
    forall text :: if parse(text).Some? then Denotes(parse(text).value, text) else !IsJson(text)
  }

  // ---- One complete value ----

  /** The brackets owed from `start` up to `end`. */
  function NestAt(text: string, start: nat, end: nat): Nesting
    requires start <= end <= |text|
  {
    Nest(OUTSIDE, text[start..end])
  }

  lemma NestStep(text: string, start: nat, end: nat)
    requires start <= end < |text|
    ensures NestAt(text, start, end + 1) == Advance(NestAt(text, start, end), text[end])
  {
    assert text[start..end + 1][..end - start] == text[start..end];
  }

  lemma StuckAt(text: string, start: nat, mid: nat, end: nat)
    requires start <= mid <= end <= |text| && NestAt(text, start, mid).Stuck?
    ensures NestAt(text, start, end).Stuck?
  {
    assert text[start..end] == text[start..mid] + text[mid..end];
    NestConcat(OUTSIDE, text[start..mid], text[mid..end]);
    StuckForGood(text[mid..end]);
  }

  /** Where every bracket opened since `start` has been closed by its own kind, first of all. */
  ghost predicate ClosedAt(text: string, start: nat, end: nat) {
    && start < end <= |text| && NestAt(text, start, end) == OUTSIDE
    && forall mid | start < mid < end :: NestAt(text, start, mid) != OUTSIDE
  }

  ghost function ValueEnd(text: string, start: nat): (r: Option<nat>)
    ensures r.Some? ==> ClosedAt(text, start, r.value)
    ensures r.None? ==> forall end :: !ClosedAt(text, start, end)
  {
    if end: nat :| ClosedAt(text, start, end) then Some(end) else None
  }

  lemma ValueEndIs(text: string, start: nat, end: nat)
    requires ClosedAt(text, start, end)
    ensures ValueEnd(text, start) == Some(end)
  {
    assert ValueEnd(text, start).Some?;
  }

  method CompleteValue(text: string, start: nat) returns (end: Option<nat>)
    requires start < |text| && Opens(text[start])
    ensures end == ValueEnd(text, start)
  {
    var closers: seq<char> := [];
    var inString, escaped := false, false;
    var index := start;
    while index < |text|
      invariant start <= index <= |text|
      invariant escaped ==> inString
      invariant index > start ==> closers != []
      invariant NestAt(text, start, index) == Nesting(ModeOf(inString, escaped), closers)
      invariant forall mid | start < mid <= index :: NestAt(text, start, mid) != OUTSIDE
    {
      var c := text[index];
      NestStep(text, start, index);
      index := index + 1;
      if inString {
        if escaped { escaped := false; }
        else if c == '\\' { escaped := true; }
        else if c == '"' { inString := false; }
      } else if c == '"' {
        inString := true;
      } else if c == '{' {
        closers := closers + ['}'];
      } else if c == '[' {
        closers := closers + [']'];
      } else if c == '}' || c == ']' {
        if closers == [] || closers[|closers| - 1] != c {
          forall later | index <= later <= |text| ensures NestAt(text, start, later).Stuck? {
            StuckAt(text, start, index, later);
          }
          assert forall later :: !ClosedAt(text, start, later);
          return None;
        }
        closers := closers[..|closers| - 1];
        if closers == [] {
          ValueEndIs(text, start, index);
          return Some(index);
        }
      }
    }
    return None;
  }

  // ---- Lines ----

  function Min(a: nat, b: nat): nat { if a < b then a else b }

  function FirstOpener(text: string, from: nat): (r: Option<nat>)
    requires from <= |text|
    ensures r.Some? ==> from <= r.value < |text| && Opens(text[r.value]) && forall i | from <= i < r.value ::
            !Opens(text[i])
    ensures r.None? ==> forall i | from <= i < |text| :: !Opens(text[i])
  {
    var objectStart, arrayStart := IndexOf(text, '{', from), IndexOf(text, '[', from);
    if objectStart.None? then arrayStart else if arrayStart.None? then objectStart
    else Some(Min(objectStart.value, arrayStart.value))
  }

  predicate HasCloser(s: string) {
    exists i | 0 <= i < |s| :: Closes(s[i])
  }

  /** Splitting at line feeds, each with the carriage return before it. */
  function SplitLines(s: string): seq<string>
    decreases |s|
  {
    var newline := IndexOf(s, '\n', 0);
    if newline.None? then [s]
    else
      var n := newline.value;
      [if n > 0 && s[n - 1] == '\r' then s[..n - 1] else s[..n]] + SplitLines(s[n + 1..])
  }

  function LineValues(lines: seq<string>, parse: Parser): seq<Json>
    decreases |lines|
  {
    if lines == [] then []
    else
      var front, candidate := LineValues(lines[..|lines| - 1], parse), Trim(lines[|lines| - 1]);
      if candidate != "" && parse(candidate).Some? then front + [parse(candidate).value] else front
  }

  // ---- The whole output ----

  datatype Piece = Broken | NoMore | One(span: Span, value: Json)

  /** The next complete value from `cursor` on; broken when a bracket there belongs to none, or it is not JSON. */
  ghost function Peek(text: string, cursor: nat, parse: Parser): (r: Piece)
    requires cursor <= |text|
    ensures r.One? ==> cursor <= r.span.start < r.span.end <= |text|
  {
    var start := FirstOpener(text, cursor);
    if start.None? then (if HasCloser(text[cursor..]) then Broken else NoMore)
    else if HasCloser(text[cursor..start.value]) then Broken
    else
      var end := ValueEnd(text, start.value);
      if end.None? then Broken
      else
        var parsed := parse(text[start.value..end.value]);
        if parsed.None? then Broken else One(Span(start.value, end.value), parsed.value)
  }

  /** All complete values from `cursor` on, in order. */
  ghost function Collect(text: string, cursor: nat, parse: Parser): (r: Option<seq<Span>>)
    requires cursor <= |text|
    decreases |text| - cursor
  {
    match Peek(text, cursor, parse)
    case Broken => None
    case NoMore => Some([])
    case One(s, _) => Prepend([s], Collect(text, s.end, parse))
  }

  function Prepend(spans: seq<Span>, rest: Option<seq<Span>>): Option<seq<Span>> {
    if rest.None? then None else Some(spans + rest.value)
  }

  function SpanValues(text: string, spans: seq<Span>, parse: Parser): seq<Json>
    decreases |spans|
  {
    if spans == [] then []
    else
      var parsed := parse(Slice(text, spans[|spans| - 1]));
      SpanValues(text, spans[..|spans| - 1], parse) + (if parsed.Some? then [parsed.value] else [])
  }

  function LastEnd(spans: seq<Span>): nat {
    if spans == [] then 0 else spans[|spans| - 1].end
  }

  /** What stands before the spans and between them, a line feed in the place of each. */
  function Gaps(text: string, spans: seq<Span>): string
    decreases |spans|
  {
    if spans == [] then ""
    else
      var front, last := spans[..|spans| - 1], spans[|spans| - 1];
      Gaps(text, front) + Slice(text, Span(LastEnd(front), last.start)) + "\n"
  }

  function Residual(text: string, spans: seq<Span>): string {
    Gaps(text, spans) + Slice(text, Span(LastEnd(spans), |text|))
  }

  /** The object, or the object that is the only element of an array. */
  function Payload(parsed: Json): Option<Json> {
    var v := if parsed.Array? && parsed.items.Item? && parsed.items.rest.NoItems? then parsed.items.value else parsed;
    if v.Object? then Some(v) else None
  }

  function Pick(values: seq<Json>): Option<Json> {
    if |values| != 1 then None else Payload(values[0])
  }

  ghost function ReadObject(exitCode: int, text: string, parse: Parser): Option<Json> {
    if exitCode != 0 then None
    else
      var spans := Collect(text, 0, parse);
      if spans.None? then None
      else Pick(SpanValues(text, spans.value, parse) + LineValues(SplitLines(Residual(text, spans.value)), parse))
  }

  method NextValue(stdout: string, cursor: nat, parse: Parser) returns (r: Piece)
    requires cursor <= |stdout|
    ensures r == Peek(stdout, cursor, parse)
  {
    var objectStart, arrayStart := IndexOf(stdout, '{', cursor), IndexOf(stdout, '[', cursor);
    if objectStart.None? && arrayStart.None? {
      return if HasCloser(stdout[cursor..]) then Broken else NoMore;
    }
    var start := if objectStart.None? then arrayStart.value else if arrayStart.None? then objectStart.value
                 else Min(objectStart.value, arrayStart.value);
    assert FirstOpener(stdout, cursor) == Some(start);
    if HasCloser(stdout[cursor..start]) { return Broken; }
    var end := CompleteValue(stdout, start);
    if end.None? { return Broken; }
    var parsed := parse(stdout[start..end.value]);
    return if parsed.None? then Broken else One(Span(start, end.value), parsed.value);
  }

  /** Where the loop over the values stands. */
  ghost predicate Collected(text: string, cursor: nat, spans: seq<Span>, values: seq<Json>, parse: Parser) {
    && cursor <= |text| && LastEnd(spans) == cursor && Ordered(text, spans)
    && Collect(text, 0, parse) == Prepend(spans, Collect(text, cursor, parse))
    && values == SpanValues(text, spans, parse)
  }

  lemma OrderedAppend(text: string, spans: seq<Span>, s: Span)
    requires Ordered(text, spans) && LastEnd(spans) <= s.start <= s.end <= |text|
    ensures Ordered(text, spans + [s])
  {
  }

  lemma CollectedStep(text: string, cursor: nat, spans: seq<Span>, values: seq<Json>, parse: Parser)
    requires Collected(text, cursor, spans, values, parse) && Peek(text, cursor, parse).One?
    ensures var p := Peek(text, cursor, parse); Collected(text, p.span.end, spans + [p.span], values + [p.value], parse)
  {
    var p := Peek(text, cursor, parse);
    PrependTwice(spans, [p.span], Collect(text, p.span.end, parse));
    SpanValuesAppend(text, spans, p.span, parse);
    OrderedAppend(text, spans, p.span);
  }

  method CollectValues(stdout: string, parse: Parser) returns (r: Option<seq<Span>>, values: seq<Json>)
    ensures r == Collect(stdout, 0, parse)
    ensures r.Some? ==> values == SpanValues(stdout, r.value, parse) && Ordered(stdout, r.value)
  {
    var spans: seq<Span> := [];
    var cursor := 0;
    values := [];
    PrependNothing(Collect(stdout, 0, parse));
    while true
      invariant Collected(stdout, cursor, spans, values, parse)
      decreases |stdout| - cursor
    {
      var piece := NextValue(stdout, cursor, parse);
      if piece.Broken? { return None, values; }
      if piece.NoMore? {
        assert spans + [] == spans;
        return Some(spans), values;
      }
      CollectedStep(stdout, cursor, spans, values, parse);
      values := values + [piece.value];
      spans := spans + [piece.span];
      cursor := piece.span.end;
    }
  }

  predicate Ordered(text: string, spans: seq<Span>) {
    && (forall i | 0 <= i < |spans| :: spans[i].start <= spans[i].end <= |text|)
    && (forall i | 0 < i < |spans| :: spans[i - 1].end <= spans[i].start)
  }

  lemma SpanValuesAppend(text: string, spans: seq<Span>, s: Span, parse: Parser)
    requires s.start <= s.end <= |text| && parse(text[s.start..s.end]).Some?
    ensures SpanValues(text, spans + [s], parse) == SpanValues(text, spans, parse) + [parse(text[s.start..s.end]).value]
  {
    assert (spans + [s])[..|spans|] == spans;
  }

  lemma GapsAppend(text: string, spans: seq<Span>, s: Span)
    requires LastEnd(spans) <= s.start <= |text|
    ensures Gaps(text, spans + [s]) == Gaps(text, spans) + text[LastEnd(spans)..s.start] + "\n"
  {
    assert (spans + [s])[..|spans|] == spans;
  }

  method JoinResidual(stdout: string, spans: seq<Span>) returns (residual: string)
    requires Ordered(stdout, spans)
    ensures residual == Residual(stdout, spans)
  {
    var previous, n := 0, 0;
    residual := "";
    while n < |spans|
      invariant 0 <= n <= |spans|
      invariant previous == LastEnd(spans[..n]) <= |stdout|
      invariant residual == Gaps(stdout, spans[..n])
    {
      assert spans[..n + 1] == spans[..n] + [spans[n]];
      GapsAppend(stdout, spans[..n], spans[n]);
      residual := residual + stdout[previous..spans[n].start];
      residual := residual + "\n";
      previous := spans[n].end;
      n := n + 1;
    }
    assert spans[..n] == spans;
    residual := residual + stdout[previous..];
    assert stdout[previous..] == Slice(stdout, Span(previous, |stdout|));
  }

  method CollectLineValues(lines: seq<string>, parse: Parser) returns (values: seq<Json>)
    ensures values == LineValues(lines, parse)
  {
    values := [];
    for k := 0 to |lines|
      invariant values == LineValues(lines[..k], parse)
    {
      assert lines[..k + 1][..k] == lines[..k];
      var candidate := Trim(lines[k]);
      if candidate == "" { continue; }
      var parsed := parse(candidate);
      if parsed.Some? { values := values + [parsed.value]; }
    }
    assert lines[..|lines|] == lines;
  }

  method ReadJsonObject(exitCode: int, stdout: string, parse: Parser) returns (r: Option<Json>)
    ensures r == ReadObject(exitCode, stdout, parse)
  {
    if exitCode != 0 { return None; }
    var spans, values := CollectValues(stdout, parse);
    if spans.None? { return None; }
    var residual := JoinResidual(stdout, spans.value);
    var lineValues := CollectLineValues(SplitLines(residual), parse);
    return Pick(values + lineValues);
  }

  lemma PrependTwice(a: seq<Span>, b: seq<Span>, rest: Option<seq<Span>>)
    ensures Prepend(a, Prepend(b, rest)) == Prepend(a + b, rest)
  {
    if rest.Some? { assert a + (b + rest.value) == (a + b) + rest.value; }
  }

  lemma PrependNothing(rest: Option<seq<Span>>)
    ensures Prepend([], rest) == rest
  {
    if rest.Some? { assert [] + rest.value == rest.value; }
  }

  // ---- Exactly when an object is returned ----

  /** One bracketed JSON text stands alone: no bracket around it, and no line around it parses. */
  ghost predicate StandsAlone(text: string, before: string, span: string, after: string, parse: Parser) {
    && text == before + span + after && BracketFree(before) && BracketFree(after)
    && span != "" && Opens(span[0]) && Closes(span[|span| - 1]) && parse(span).Some?
    && LineValues(SplitLines(before + "\n" + after), parse) == []
  }

  lemma {:induction false} TrimKeepsFree(s: string)
    requires BracketFree(s)
    ensures BracketFree(Trim(s))
    decreases |s|
  {
    if s != "" {
      if IsBlank(s[0]) { TrimKeepsFree(s[1..]); }
      else if IsBlank(s[|s| - 1]) { TrimKeepsFree(s[..|s| - 1]); }
    }
  }

  lemma {:induction false} LinesFree(s: string)
    requires BracketFree(s)
    ensures forall line | line in SplitLines(s) :: BracketFree(line)
    decreases |s|
  {
    var newline := IndexOf(s, '\n', 0);
    if newline.Some? {
      LinesFree(s[newline.value + 1..]);
    }
  }

  /** Lines without brackets denote no array and no object. */
  lemma {:induction false} LinesHoldNoContainer(lines: seq<string>, parse: Parser)
    requires IsParser(parse) && forall line | line in lines :: BracketFree(line)
    ensures forall v | v in LineValues(lines, parse) :: !IsContainer(v)
    decreases |lines|
  {
    if lines != [] {
      var line := lines[|lines| - 1];
      LinesHoldNoContainer(lines[..|lines| - 1], parse);
      assert line in lines;
      TrimKeepsFree(line);
      var parsed := parse(Trim(line));
      if parsed.Some? && IsContainer(parsed.value) { ContainerHasBracket(parsed.value, Trim(line)); }
    }
  }

  /** A bracketed text that denotes a value is that value's serialization, and closed only at its end. */
  lemma BracketedIsRendered(span: string, v: Json)
    requires Denotes(v, span) && span != "" && Opens(span[0]) && Closes(span[|span| - 1])
    ensures IsContainer(v) && span == Render(v)
  {
    BracketsMeanContainer(v, span);
    var trail :| IsSpace(trail) && span == Render(v) + trail;
    if trail != "" { SpaceClosesNothing(Render(v), trail); }
  }

  lemma RenderedCloses(text: string, start: nat, v: Json)
    requires WellFormed(v) && IsContainer(v) && start + |Render(v)| <= |text|
             && text[start..start + |Render(v)|] == Render(v)
    ensures ClosedAt(text, start, start + |Render(v)|)
  {
    ContainerEncloses(v);
    EnclosedCloses(text, start, OpenerOf(v), RenderBody(v.gap, v.items));
  }

  lemma EnclosedCloses(text: string, start: nat, open: char, inner: string)
    requires Opens(open) && Balanced(inner) && start + |inner| + 2 <= |text|
    requires text[start..start + |inner| + 2] == Enclose(open, inner)
    ensures ClosedAt(text, start, start + |inner| + 2)
  {
    var all, end := Enclose(open, inner), start + |inner| + 2;
    EnclosedBalanced(open, inner);
    forall mid | start < mid < end ensures NestAt(text, start, mid) != OUTSIDE {
      SliceOfSlice(text, start, end, 0, mid - start);
      assert text[start..mid] == all[..mid - start];
      EnclosedStaysOpen(open, inner, mid - start);
    }
  }

  lemma FreeMeans(s: string)
    ensures BracketFree(s) <==> (forall i | 0 <= i < |s| :: !Opens(s[i])) && !HasCloser(s)
  {
    if BracketFree(s) {
      forall i | 0 <= i < |s| ensures !Opens(s[i]) && !Closes(s[i]) { assert s[i] in s; }
    }
  }

  lemma CollectsNothing(text: string, cursor: nat, parse: Parser)
    requires cursor <= |text|
    ensures BracketFree(text[cursor..]) <==> Collect(text, cursor, parse) == Some([])
  {
    FreeMeans(text[cursor..]);
    forall i | cursor <= i < |text| ensures text[i] == text[cursor..][i - cursor] {}
    if FirstOpener(text, cursor).Some? {
      var i := FirstOpener(text, cursor).value;
      assert text[cursor..][i - cursor] == text[i];
    }
  }

  lemma AloneIsCollected(text: string, before: string, span: string, after: string, parse: Parser)
    requires IsParser(parse) && StandsAlone(text, before, span, after, parse)
    ensures text[|before|..|before| + |span|] == span
    ensures Collect(text, 0, parse) == Some([Span(|before|, |before| + |span|)])
  {
    var start, end, v := |before|, |before| + |span|, parse(span).value;
    assert text[start..end] == span && text[end..] == after && text[0..start] == before;
    assert text[start] == span[0];
    FreeMeans(before);
    assert forall i | 0 <= i < start :: text[i] == before[i];
    assert FirstOpener(text, 0) == Some(start);
    BracketedIsRendered(span, v);
    RenderedCloses(text, start, v);
    ValueEndIs(text, start, end);
    CollectsNothing(text, end, parse);
    assert [Span(start, end)] + [] == [Span(start, end)];
  }

  lemma OneSpanValue(text: string, s: Span, parse: Parser)
    requires s.start <= s.end <= |text| && parse(text[s.start..s.end]).Some?
    ensures SpanValues(text, [s], parse) == [parse(text[s.start..s.end]).value]
  {
    assert [] + [s] == [s];
    SpanValuesAppend(text, [], s, parse);
  }

  lemma OneSpanResidual(text: string, s: Span)
    requires s.start <= s.end <= |text|
    ensures Residual(text, [s]) == text[..s.start] + "\n" + text[s.end..]
  {
    assert [] + [s] == [s];
    GapsAppend(text, [], s);
    assert "" + text[0..s.start] == text[..s.start];
  }

  lemma AloneIsRead(text: string, before: string, span: string, after: string, parse: Parser)
    requires IsParser(parse) && StandsAlone(text, before, span, after, parse)
    ensures ReadObject(0, text, parse) == Payload(parse(span).value)
  {
    AloneIsCollected(text, before, span, after, parse);
    var s := Span(|before|, |before| + |span|);
    assert text[..s.start] == before && text[s.end..] == after;
    OneSpanValue(text, s, parse);
    OneSpanResidual(text, s);
  }

  /** A complete value that parses is a serialization without white space around it. */
  lemma CompleteIsRendered(text: string, start: nat, end: nat, v: Json)
    requires ClosedAt(text, start, end) && Opens(text[start]) && Denotes(v, text[start..end])
    ensures text[start..end] == Render(v) && Closes(text[end - 1])
  {
    var span := text[start..end];
    BracketsMeanContainer(v, span);
    var trail :| IsSpace(trail) && span == Render(v) + trail;
    var n := |Render(v)|;
    SliceOfSlice(text, start, end, 0, n);
    assert span[0..n] == Render(v);
    RenderedCloses(text, start, v);
    ClosedOnce(text, start, start + n, end);
    RenderEndsClosed(v);
    assert text[end - 1] == text[start..end][n - 1];
  }

  lemma ClosedOnce(text: string, start: nat, a: nat, b: nat)
    requires ClosedAt(text, start, a) && ClosedAt(text, start, b)
    ensures a == b
  {
    ValueEndIs(text, start, a);
    ValueEndIs(text, start, b);
  }

  lemma RenderEndsClosed(v: Json)
    requires WellFormed(v) && IsContainer(v)
    ensures Render(v) != "" && Closes(Render(v)[|Render(v)| - 1])
  {
    ContainerEncloses(v);
  }

  lemma FreeBefore(text: string, start: nat)
    requires FirstOpener(text, 0) == Some(start) && !HasCloser(text[0..start])
    ensures BracketFree(text[..start])
  {
    assert text[..start] == text[0..start];
    forall i | 0 <= i < start ensures !Opens(text[..start][i]) { assert text[..start][i] == text[i]; }
    FreeMeans(text[..start]);
  }

  /** The first value collected: it is bracketed, and nothing before it has a bracket. */
  lemma FirstCollected(text: string, parse: Parser) returns (s: Span)
    requires IsParser(parse) && Collect(text, 0, parse).Some? && Collect(text, 0, parse).value != []
    ensures s.start < s.end <= |text| && BracketFree(text[..s.start]) && Opens(text[s.start]) && Closes(text[s.end - 1])
    ensures parse(text[s.start..s.end]).Some?
    ensures Collect(text, 0, parse) == Prepend([s], Collect(text, s.end, parse))
  {
    var start := FirstOpener(text, 0).value;
    var end := ValueEnd(text, start).value;
    s := Span(start, end);
    FreeBefore(text, start);
    var v := parse(text[start..end]).value;
    assert Denotes(v, text[start..end]);
    CompleteIsRendered(text, start, end, v);
  }

  lemma SpanValuesCount(text: string, spans: seq<Span>, parse: Parser)
    requires forall i | 0 <= i < |spans| :: parse(Slice(text, spans[i])).Some?
    ensures |SpanValues(text, spans, parse)| == |spans|
    decreases |spans|
  {
    if spans != [] { SpanValuesCount(text, spans[..|spans| - 1], parse); }
  }

  lemma {:induction false} CollectedParse(text: string, cursor: nat, parse: Parser)
    requires cursor <= |text| && Collect(text, cursor, parse).Some?
    ensures var spans := Collect(text, cursor, parse).value;
            forall i | 0 <= i < |spans| :: parse(Slice(text, spans[i])).Some?
    decreases |text| - cursor
  {
    var start := FirstOpener(text, cursor);
    if start.Some? {
      CollectedParse(text, ValueEnd(text, start.value).value, parse);
    }
  }

  /** Output without brackets yields no object, whatever its lines are. */
  lemma FreeYieldsNothing(text: string, parse: Parser)
    requires IsParser(parse) && BracketFree(text)
    ensures ReadObject(0, text, parse).None?
  {
    assert text[0..] == text;
    CollectsNothing(text, 0, parse);
    assert Residual(text, []) == text;
    var found := LineValues(SplitLines(text), parse);
    LinesFree(text);
    LinesHoldNoContainer(SplitLines(text), parse);
    assert SpanValues(text, [], parse) + found == found;
    if |found| == 1 { assert found[0] in found; }
  }

  lemma OneIsCollected(text: string, parse: Parser)
    requires IsParser(parse) && ReadObject(0, text, parse).Some?
    ensures Collect(text, 0, parse).Some? && |Collect(text, 0, parse).value| == 1
    ensures LineValues(SplitLines(Residual(text, Collect(text, 0, parse).value)), parse) == []
  {
    var spans := Collect(text, 0, parse).value;
    CollectedParse(text, 0, parse);
    SpanValuesCount(text, spans, parse);
    CollectsNothing(text, 0, parse);
    assert text[0..] == text;
    if spans == [] {
      FreeYieldsNothing(text, parse);
      assert false;
    }
  }

  lemma OnlySpan(text: string, s: Span, parse: Parser)
    requires Collect(text, 0, parse).Some? && |Collect(text, 0, parse).value| == 1 && s.end <= |text|
    requires Collect(text, 0, parse) == Prepend([s], Collect(text, s.end, parse))
    ensures Collect(text, 0, parse) == Some([s]) && BracketFree(text[s.end..])
  {
    CollectsNothing(text, s.end, parse);
    var rest := Collect(text, s.end, parse).value;
    assert |[s] + rest| == 1 && rest == [];
    assert [s] + [] == [s];
  }

  lemma ReadIsAlone(text: string, parse: Parser)
    requires IsParser(parse) && ReadObject(0, text, parse).Some?
    ensures exists before, span, after :: StandsAlone(text, before, span, after, parse)
  {
    OneIsCollected(text, parse);
    var s := FirstCollected(text, parse);
    OnlySpan(text, s, parse);
    OneSpanResidual(text, s);
    SpanStandsAlone(text, s, parse);
  }

  lemma SpanStandsAlone(text: string, s: Span, parse: Parser)
    requires s.start < s.end <= |text| && BracketFree(text[..s.start]) && BracketFree(text[s.end..])
    requires Opens(text[s.start]) && Closes(text[s.end - 1]) && parse(text[s.start..s.end]).Some?
    requires LineValues(SplitLines(text[..s.start] + "\n" + text[s.end..]), parse) == []
    ensures StandsAlone(text, text[..s.start], text[s.start..s.end], text[s.end..], parse)
  {
    assert text == text[..s.start] + text[s.start..s.end] + text[s.end..];
  }

  /** An object is returned exactly when the output is one bracketed JSON text standing alone, which is
      that object or an array of just that object. */
  lemma ReadExactlyWhenAlone(text: string, parse: Parser, v: Json)
    requires IsParser(parse)
    ensures ReadObject(0, text, parse) == Some(v)
            <==> exists before, span, after ::
                   StandsAlone(text, before, span, after, parse) && Payload(parse(span).value) == Some(v)
  {
    if ReadObject(0, text, parse) == Some(v) {
      ReadIsAlone(text, parse);
      var before, span, after :| StandsAlone(text, before, span, after, parse);
      AloneIsRead(text, before, span, after, parse);
    }
    forall before, span, after | StandsAlone(text, before, span, after, parse) && Payload(parse(span).value) == Some(v)
      ensures ReadObject(0, text, parse) == Some(v)
    {
      AloneIsRead(text, before, span, after, parse);
    }
  }
}
