/**
 Finding the JSON artifact in a role's output (evals/runner/report.ts): the bracket
 scan, the choice of the last top-level span that parses, and what they recover.
 */
module ArtifactExtraction {
  import opened Wrappers
  import opened JsonGrammar
  import opened JavaScriptText

  // ---- The bracket count of one kind ----

  datatype Tally = Tally(mode: Mode, depth: int)

  function Count(open: char, t: Tally, c: char): Tally {
    if t.mode != Plain || c == '"' then t.(mode := NextMode(t.mode, c))
    else if c == open then t.(depth := t.depth + 1)
    else if c == CloserOf(open) then t.(depth := t.depth - 1)
    else t
  }

  function TallyOver(open: char, text: string): Tally
    decreases |text|
  {
    if text == "" then Tally(Plain, 0) else Count(open, TallyOver(open, text[..|text| - 1]), text[|text| - 1])
  }

  /** The count over the text from the bracket at `start` up to `end`. */
  function TallyAt(text: string, start: nat, end: nat): Tally
    requires start <= end <= |text| && start < |text|
  {
    TallyOver(text[start], text[start..end])
  }

  lemma TallyStep(text: string, start: nat, end: nat)
    requires start <= end < |text|
    ensures TallyAt(text, start, end + 1) == Count(text[start], TallyAt(text, start, end), text[end])
    ensures TallyAt(text, start, start) == Tally(Plain, 0)
  {
    assert text[start..end + 1][..end - start] == text[start..end];
  }

  predicate DepthZero(text: string, start: nat, end: nat)
    requires start < end <= |text|
  {
    TallyAt(text, start, end).depth == 0
  }

  /** Where the bracket at `start` is closed: the first place its count is back to zero. */
  ghost function SpanEnd(text: string, start: nat): (r: Option<nat>)
    requires start < |text|
    ensures r.Some? ==> start < r.value <= |text| && DepthZero(text, start, r.value)
    ensures r.Some? ==> forall mid | start < mid < r.value :: !DepthZero(text, start, mid)
    ensures r.None? ==> forall end | start < end <= |text| :: !DepthZero(text, start, end)
  {
    SpanEndFrom(text, start, start + 1)
  }

  ghost function SpanEndFrom(text: string, start: nat, k: nat): (r: Option<nat>)
    requires start < k <= |text| + 1
    ensures r.Some? ==> k <= r.value <= |text| && DepthZero(text, start, r.value)
    ensures r.Some? ==> forall mid | k <= mid < r.value :: !DepthZero(text, start, mid)
    ensures r.None? ==> forall end | k <= end <= |text| :: !DepthZero(text, start, end)
    decreases |text| + 1 - k
  {
    if k > |text| then None else if DepthZero(text, start, k) then Some(k) else SpanEndFrom(text, start, k + 1)
  }

  lemma SpanEndIs(text: string, start: nat, end: nat)
    requires start < end <= |text| && DepthZero(text, start, end)
    requires forall mid | start < mid < end :: !DepthZero(text, start, mid)
    ensures SpanEnd(text, start) == Some(end)
  {
    assert SpanEnd(text, start).Some?;
  }

  ghost function SpanText(text: string, start: nat): Option<string>
    requires start < |text|
  {
    var end := SpanEnd(text, start);
    if end.Some? then Some(text[start..end.value]) else None
  }

  function ModeOf(inString: bool, escaped: bool): Mode {
    if !inString then Plain else if escaped then Escape else Quoted
  }

  method BalancedSpan(text: string, start: nat) returns (span: Option<string>)
    requires start < |text| && Opens(text[start])
    ensures span == SpanText(text, start)
  {
    var open := text[start];
    var close := CloserOf(open);
    var depth, inString, escaped := 0, false, false;
    var index := start;
    while index < |text|
      invariant start <= index <= |text|
      invariant escaped ==> inString
      invariant index > start ==> depth > 0
      invariant TallyAt(text, start, index) == Tally(ModeOf(inString, escaped), depth)
      invariant forall mid | start < mid <= index :: !DepthZero(text, start, mid)
    {
      var c := text[index];
      TallyStep(text, start, index);
      index := index + 1;
      if inString {
        if escaped { escaped := false; }
        else if c == '\\' { escaped := true; }
        else if c == '"' { inString := false; }
      } else if c == '"' {
        inString := true;
      } else if c == open {
        depth := depth + 1;
      } else if c == close {
        depth := depth - 1;
        if depth == 0 {
          SpanEndIs(text, start, index);
          return Some(text[start..index]);
        }
      }
    }
    return None;
  }

  lemma {:induction false} DepthPositive(text: string, start: nat, end: nat)
    requires start < end <= |text| && Opens(text[start])
    requires forall mid | start < mid <= end :: !DepthZero(text, start, mid)
    ensures TallyAt(text, start, end).depth > 0
    decreases end
  {
    TallyStep(text, start, end - 1);
    if end > start + 1 {
      DepthPositive(text, start, end - 1);
      assert !DepthZero(text, start, end);
    }
  }

  /** The count returns to zero at a closing bracket of the same kind, outside strings. */
  lemma SpanEndsClosed(text: string, start: nat)
    requires start < |text| && Opens(text[start]) && SpanEnd(text, start).Some?
    ensures text[SpanEnd(text, start).value - 1] == CloserOf(text[start])
  {
    var end := SpanEnd(text, start).value;
    assert DepthZero(text, start, end);
    TallyStep(text, start, end - 1);
    if end > start + 1 { DepthPositive(text, start, end - 1); }
  }

  // ---- The choice among spans ----

  datatype Span = Span(start: nat, end: nat)

  datatype Scan = Scan(accepted: seq<Span>, sawBracket: bool, unterminated: bool)

  datatype Artifact = Found(text: string) | NoArtifact | Unreadable | Unterminated

  /** Where the scan goes on, if it does. */
  datatype Move = Stop(scan: Scan) | On(index: nat, scan: Scan)

  ghost function Look(out: string, index: nat, scan: Scan): (m: Move)
    requires index < |out|
    ensures m.On? ==> index < m.index <= |out|
  {
    if !Opens(out[index]) then On(index + 1, scan)
    else
      var end := SpanEnd(out, index);
      if end.None? then
        var newline := IndexOf(out, '\n', index);
        if newline.None? then Stop(Scan(scan.accepted, true, true))
            else On(newline.value + 1, Scan(scan.accepted, true, true))
      else if !IsJson(out[index..end.value]) then On(index + 1, scan.(sawBracket := true))
      else if scan.unterminated then Stop(scan.(sawBracket := true))
      else On(end.value, Scan(scan.accepted + [Span(index, end.value)], true, false))
  }

  ghost function ScanFrom(out: string, index: nat, scan: Scan): Scan
    requires index <= |out|
    decreases |out| - index
  {
    if index == |out| then scan
    else var m := Look(out, index, scan); if m.Stop? then m.scan else ScanFrom(out, m.index, m.scan)
  }

  const START := Scan([], false, false)

  ghost function ScanAll(out: string): Scan {
    ScanFrom(out, 0, START)
  }

  function Slice(out: string, s: Span): string {
    if s.start <= s.end <= |out| then out[s.start..s.end] else ""
  }

  function Answer(out: string, accepted: seq<Span>): Option<string> {
    if accepted == [] then None else Some(Slice(out, accepted[|accepted| - 1]))
  }

  function Outcome(out: string, s: Scan): Artifact {
    if s.accepted != [] then Found(Answer(out, s.accepted).value)
    else if !s.sawBracket then NoArtifact
    else if s.unterminated then Unterminated
    else Unreadable
  }

  ghost function Extract(out: string): Artifact {
    Outcome(out, ScanAll(out))
  }

  method ExtractJsonArtifact(stdout: string, parses: string -> bool) returns (r: Artifact)
    requires forall text :: parses(text) <==> IsJson(text)
    ensures r == Extract(stdout)
  {
    var sawBracket, unterminated := false, false;
    var answer: Option<string> := None;
    ghost var accepted: seq<Span> := [];
    var index := 0;
    while index < |stdout|
      invariant index <= |stdout|
      invariant ScanAll(stdout) == ScanFrom(stdout, index, Scan(accepted, sawBracket, unterminated))
      invariant answer == Answer(stdout, accepted)
      decreases |stdout| - index
    {
      if !Opens(stdout[index]) { index := index + 1; continue; }
      sawBracket := true;
      var span := BalancedSpan(stdout, index);
      if span.None? {
        unterminated := true;
        var nextLine := IndexOf(stdout, '\n', index);
        if nextLine.None? { break; }
        index := nextLine.value + 1;
        continue;
      }
      if !parses(span.value) { index := index + 1; continue; }
      if unterminated { break; }
      answer := span;
      accepted := accepted + [Span(index, index + |span.value|)];
      index := index + |span.value|;
    }
    assert ScanAll(stdout) == Scan(accepted, sawBracket, unterminated);
    if answer.Some? { return Found(answer.value); }
    return if !sawBracket then NoArtifact else if unterminated then Unterminated else Unreadable;
  }

  // ---- Spans of JSON texts are exact ----

  /** How many of the brackets owed are `close`. */
  function Owed(closers: seq<char>, close: char): nat
    decreases |closers|
  {
    if closers == [] then 0
    else Owed(closers[..|closers| - 1], close) + if closers[|closers| - 1] == close then 1 else 0
  }

  lemma {:induction false} OwedFirst(closers: seq<char>)
    requires closers != []
    ensures Owed(closers, closers[0]) > 0
    decreases |closers|
  {
    if |closers| > 1 { OwedFirst(closers[..|closers| - 1]); }
  }

  /** What counting one kind keeps of the brackets owed. */
  function Share(open: char, n: Nesting): Tally
    requires n.Nesting?
  {
    Tally(n.mode, Owed(n.closers, CloserOf(open)))
  }

  lemma CountShare(open: char, n: Nesting, c: char)
    requires Opens(open) && n.Nesting? && Advance(n, c).Nesting?
    ensures Count(open, Share(open, n), c) == Share(open, Advance(n, c))
  {
    if n.mode == Plain && Opens(c) {
      assert (n.closers + [CloserOf(c)])[..|n.closers|] == n.closers;
    }
  }

  /** Where brackets nest, counting one kind keeps that kind's share of what is owed. */
  lemma {:induction false} TallyProjects(open: char, text: string)
    requires Opens(open) && Nest(OUTSIDE, text).Nesting?
    ensures TallyOver(open, text) == Share(open, Nest(OUTSIDE, text))
    decreases |text|
  {
    if text != "" {
      TallyProjects(open, text[..|text| - 1]);
      CountShare(open, Nest(OUTSIDE, text[..|text| - 1]), text[|text| - 1]);
    }
  }

  /** Inside an enclosed balanced text the count is positive; at its end it is zero. */
  lemma EnclosedDepth(open: char, inner: string, k: nat)
    requires Opens(open) && Balanced(inner) && 0 < k <= |inner| + 2
    ensures var t := TallyOver(open, Enclose(open, inner)[..k]); if k <= |inner| + 1 then t.depth > 0 else t.depth == 0
  {
    var all := Enclose(open, inner);
    if k <= |inner| + 1 {
      EnclosedStaysOpen(open, inner, k);
      TallyProjects(open, all[..k]);
      OwedFirst(Nest(OUTSIDE, all[..k]).closers);
    } else {
      EnclosedBalanced(open, inner);
      assert all[..k] == all;
      TallyProjects(open, all);
    }
  }

  /** The count at every prefix of a serialized array or object. */
  lemma ContainerDepth(text: string, start: nat, v: Json, k: nat)
    requires WellFormed(v) && IsContainer(v) && 0 < k <= |Render(v)| && start + k <= |text|
    requires text[start..start + k] == Render(v)[..k]
    ensures Opens(text[start]) && (DepthZero(text, start, start + k) <==> k == |Render(v)|)
  {
    ContainerEncloses(v);
    assert text[start] == text[start..start + k][0] == OpenerOf(v);
    EnclosedDepth(OpenerOf(v), RenderBody(v.gap, v.items), k);
  }

  /** Whatever surrounds it, the span found at a serialized array or object is that serialization. */
  lemma SpanIsExact(text: string, start: nat, v: Json)
    requires WellFormed(v) && IsContainer(v) && start + |Render(v)| <= |text|
    requires text[start..start + |Render(v)|] == Render(v)
    ensures start < |text| && Opens(text[start]) && SpanEnd(text, start) == Some(start + |Render(v)|)
    ensures SpanText(text, start) == Some(Render(v))
  {
    RenderNonEmpty(v);
    var n := |Render(v)|;
    forall end | start < end <= start + n
      ensures Opens(text[start]) && (DepthZero(text, start, end) <==> end == start + n)
    {
      SliceOfSlice(text, start, start + n, 0, end - start);
      ContainerDepth(text, start, v, end - start);
    }
    SpanEndIs(text, start, start + n);
  }

  /** A serialization cut short is never closed. */
  lemma CutNeverCloses(text: string, start: nat, v: Json)
    requires WellFormed(v) && IsContainer(v) && start < |text| && |text| - start < |Render(v)|
    requires text[start..] == Render(v)[..|text| - start]
    ensures Opens(text[start]) && SpanEnd(text, start).None?
  {
    forall end | start < end <= |text| ensures Opens(text[start]) && !DepthZero(text, start, end) {
      assert text[start..end] == text[start..][..end - start];
      ContainerDepth(text, start, v, end - start);
    }
  }

  // ---- Exact recovery ----

  predicate Prose(s: string) {
    forall i | 0 <= i < |s| :: !Opens(s[i])
  }

  datatype Part = Part(prose: string, value: Json)

  predicate IsPart(p: Part) {
    Prose(p.prose) && WellFormed(p.value) && IsContainer(p.value)
  }

  predicate IsDocument(parts: seq<Part>) {
    forall i | 0 <= i < |parts| :: IsPart(parts[i])
  }

  function Text(parts: seq<Part>): string {
    if parts == [] then "" else parts[0].prose + Render(parts[0].value) + Text(parts[1..])
  }

  lemma {:induction false} SkipProse(out: string, index: nat, end: nat, scan: Scan)
    requires index <= end <= |out| && Prose(out[index..end])
    ensures ScanFrom(out, index, scan) == ScanFrom(out, end, scan)
    decreases end - index
  {
    if index < end {
      assert out[index] == out[index..end][0] && out[index + 1..end] == out[index..end][1..];
      SkipProse(out, index + 1, end, scan);
    }
  }

  /** A value where the scan stands is accepted, and the scan goes on behind it. */
  lemma ScanValue(out: string, index: nat, v: Json, scan: Scan)
    requires WellFormed(v) && IsContainer(v) && index + |Render(v)| <= |out| && !scan.unterminated
    requires out[index..index + |Render(v)|] == Render(v)
    ensures var end := index + |Render(v)|;
            ScanFrom(out, index, scan) == ScanFrom(out, end, Scan(scan.accepted + [Span(index, end)], true, false))
  {
    SpanIsExact(out, index, v);
    RenderedIsJson(v);
  }

  /** Where the first part of a document and the rest of it stand. */
  lemma PartSlices(out: string, index: nat, parts: seq<Part>)
    requires parts != [] && index + |Text(parts)| <= |out| && out[index..index + |Text(parts)|] == Text(parts)
    ensures var start := index + |parts[0].prose|; var end := start + |Render(parts[0].value)|;
            && end + |Text(parts[1..])| == index + |Text(parts)|
            && out[index..start] == parts[0].prose && out[start..end] == Render(parts[0].value)
            && out[end..end + |Text(parts[1..])|] == Text(parts[1..])
  {
    SplitInThree(out, index, parts[0].prose, Render(parts[0].value), Text(parts[1..]));
  }

  lemma SplitInThree(out: string, index: nat, a: string, b: string, c: string)
    requires index + |a + b + c| <= |out| && out[index..index + |a + b + c|] == a + b + c
    ensures var i := index + |a|; var j := i + |b|;
            j + |c| == index + |a + b + c| && out[index..i] == a && out[i..j] == b && out[j..j + |c|] == c
  {
    var all := a + b + c;
    var end := index + |all|;
    SliceOfSlice(out, index, end, 0, |a|);
    SliceOfSlice(out, index, end, |a|, |a| + |b|);
    SliceOfSlice(out, index, end, |a| + |b|, |all|);
    assert all[0..|a|] == a && all[|a|..|a| + |b|] == b && all[|a| + |b|..|all|] == c;
  }

  lemma ScanPart(out: string, index: nat, p: Part, scan: Scan)
    requires IsPart(p) && !scan.unterminated && index + |p.prose| + |Render(p.value)| <= |out|
    requires out[index..index + |p.prose|] == p.prose
    requires out[index + |p.prose|..index + |p.prose| + |Render(p.value)|] == Render(p.value)
    ensures var start := index + |p.prose|; var end := start + |Render(p.value)|;
            ScanFrom(out, index, scan) == ScanFrom(out, end, Scan(scan.accepted + [Span(start, end)], true, false))
  {
    SkipProse(out, index, index + |p.prose|, scan);
    ScanValue(out, index + |p.prose|, p.value, scan);
  }

  lemma AnswerOfLast(out: string, accepted: seq<Span>, s: Span)
    ensures Answer(out, accepted + [s]) == Some(Slice(out, s))
  {
  }

  /** What scanning a document makes of `scan`. */
  ghost predicate Scanned(out: string, parts: seq<Part>, scan: Scan, s': Scan) {
    && !s'.unterminated && s'.sawBracket == (scan.sawBracket || parts != [])
    && (if parts == [] then s' == scan else Answer(out, s'.accepted) == Some(Render(parts[|parts| - 1].value)))
  }

  lemma ScannedFirst(out: string, parts: seq<Part>, scan: Scan, start: nat, s': Scan)
    requires parts != [] && start + |Render(parts[0].value)| <= |out|
    requires out[start..start + |Render(parts[0].value)|] == Render(parts[0].value)
    requires Scanned(out, parts[1..],
             Scan(scan.accepted + [Span(start, start + |Render(parts[0].value)|)], true, false), s')
    ensures Scanned(out, parts, scan, s')
  {
    AnswerOfLast(out, scan.accepted, Span(start, start + |Render(parts[0].value)|));
  }

  lemma {:induction false} ScanDocument(out: string, index: nat, parts: seq<Part>, scan: Scan) returns (s': Scan)
    requires IsDocument(parts) && !scan.unterminated && index + |Text(parts)| <= |out|
    requires out[index..index + |Text(parts)|] == Text(parts)
    ensures ScanFrom(out, index, scan) == ScanFrom(out, index + |Text(parts)|, s') && Scanned(out, parts, scan, s')
    decreases |parts|
  {
    s' := scan;
    if parts != [] {
      var start, end, next := ScanFirst(out, index, parts, scan);
      s' := ScanDocument(out, end, parts[1..], next);
      ScannedFirst(out, parts, scan, start, s');
    }
  }

  /** Scanning the first part of a document leaves the rest of it to be scanned. */
  lemma ScanFirst(out: string, index: nat, parts: seq<Part>, scan: Scan) returns (start: nat, end: nat, next: Scan)
    requires IsDocument(parts) && parts != [] && !scan.unterminated && index + |Text(parts)| <= |out|
    requires out[index..index + |Text(parts)|] == Text(parts)
    ensures IsDocument(parts[1..]) && end == start + |Render(parts[0].value)| <= |out|
    ensures out[start..end] == Render(parts[0].value)
    ensures next == Scan(scan.accepted + [Span(start, end)], true, false)
    ensures end + |Text(parts[1..])| == index + |Text(parts)| && out[end..end + |Text(parts[1..])|] == Text(parts[1..])
    ensures ScanFrom(out, index, scan) == ScanFrom(out, end, next)
  {
    assert IsPart(parts[0]);
    PartSlices(out, index, parts);
    ScanPart(out, index, parts[0], scan);
    start := index + |parts[0].prose|;
    end := start + |Render(parts[0].value)|;
    next := Scan(scan.accepted + [Span(start, end)], true, false);
  }

  function AnswerOr(parts: seq<Part>, otherwise: Artifact): Artifact {
    if parts == [] then otherwise else Found(Render(parts[|parts| - 1].value))
  }

  /** Serialized arrays and objects among prose without an opening bracket: the last one is the answer. */
  lemma LastValueIsTheAnswer(parts: seq<Part>, tail: string)
    requires IsDocument(parts) && Prose(tail)
    ensures Extract(Text(parts) + tail) == AnswerOr(parts, NoArtifact)
  {
    var out := Text(parts) + tail;
    assert out[0..|Text(parts)|] == Text(parts) && out[|Text(parts)|..|out|] == tail;
    var s' := ScanDocument(out, 0, parts, START);
    SkipProse(out, |Text(parts)|, |out|, s');
  }

  /** After an unclosed bracket nothing is accepted any more. */
  lemma {:induction false} NothingAfterUnclosed(out: string, index: nat, scan: Scan)
    requires index <= |out| && scan.unterminated && scan.sawBracket
    ensures ScanFrom(out, index, scan) == scan
    decreases |out| - index
  {
    if index < |out| {
      var m := Look(out, index, scan);
      assert m.scan == scan;
      if m.On? { NothingAfterUnclosed(out, m.index, scan); }
    }
  }

  lemma ScanUnclosed(out: string, index: nat, scan: Scan)
    requires index < |out| && Opens(out[index]) && SpanEnd(out, index).None?
    ensures ScanFrom(out, index, scan) == Scan(scan.accepted, true, true)
  {
    var m := Look(out, index, scan);
    if m.On? { NothingAfterUnclosed(out, m.index, m.scan); }
  }

  /** Output that stops inside a value: what was complete before it is the answer, and if nothing was,
      the output is unterminated, whatever complete values the fragment contains. */
  lemma CutValueIsNoAnswer(parts: seq<Part>, cut: Part, k: nat)
    requires IsDocument(parts) && IsPart(cut) && 0 < k < |Render(cut.value)|
    ensures Extract(Text(parts) + cut.prose + Render(cut.value)[..k]) == AnswerOr(parts, Unterminated)
  {
    var n, piece := |Text(parts)|, Render(cut.value)[..k];
    var out := Text(parts) + cut.prose + piece;
    var m := n + |cut.prose|;
    assert out[0..n] == Text(parts) && out[n..m] == cut.prose && out[m..] == piece;
    var s' := ScanDocument(out, 0, parts, START);
    SkipProse(out, n, m, s');
    CutNeverCloses(out, m, cut.value);
    ScanUnclosed(out, m, s');
  }

  lemma {:induction false} SawIffOpener(out: string, index: nat, scan: Scan)
    requires index <= |out| && !scan.sawBracket
    ensures ScanFrom(out, index, scan).sawBracket <==> !Prose(out[index..])
    decreases |out| - index
  {
    if index < |out| {
      assert out[index] == out[index..][0];
      if !Opens(out[index]) {
        assert out[index..] == [out[index]] + out[index + 1..];
        SawIffOpener(out, index + 1, scan);
      } else {
        var m := Look(out, index, scan);
        if m.On? { SawForGood(out, m.index, m.scan); }
      }
    }
  }

  lemma {:induction false} SawForGood(out: string, index: nat, scan: Scan)
    requires index <= |out| && scan.sawBracket
    ensures ScanFrom(out, index, scan).sawBracket
    decreases |out| - index
  {
    if index < |out| {
      var m := Look(out, index, scan);
      if m.On? { SawForGood(out, m.index, m.scan); }
    }
  }

  // ---- Which spans are accepted ----

  /** Position `p` opens a bracket that lies in no accepted span. */
  ghost predicate TopLevel(out: string, accepted: seq<Span>, p: nat) {
    p < |out| && Opens(out[p]) && forall i | 0 <= i < |accepted| :: !(accepted[i].start <= p < accepted[i].end)
  }

  ghost predicate Readable(out: string, s: Span) {
    s.start < s.end <= |out| && Opens(out[s.start]) && SpanEnd(out, s.start) == Some(s.end)
        && IsJson(out[s.start..s.end])
  }

  /** The bracket at `p` closes, around something that is not JSON. */
  ghost predicate NotJson(out: string, p: nat)
    requires p < |out|
  {
    SpanEnd(out, p).Some? && !IsJson(out[p..SpanEnd(out, p).value])
  }

  /** Up to `limit` the accepted spans are the readable ones that do not lie in another accepted span:
      every top-level bracket there closes, around something that is not JSON. */
  ghost predicate Settled(out: string, accepted: seq<Span>, limit: nat) {
    && (forall i | 0 <= i < |accepted| :: Readable(out, accepted[i]) && accepted[i].end <= limit)
    && (forall i, j | 0 <= i < j < |accepted| :: accepted[i].end <= accepted[j].start)
    && (forall p: nat | p < limit && TopLevel(out, accepted, p) :: NotJson(out, p))
  }

  /** The spans accepted are settled up to the end of the output, or up to its first unclosed
      top-level bracket. */
  ghost predicate Limit(out: string, s: Scan, limit: nat) {
    && limit <= |out| && Settled(out, s.accepted, limit)
    && (if s.unterminated then TopLevel(out, s.accepted, limit) && SpanEnd(out, limit).None? else limit == |out|)
  }

  lemma SettledAccept(out: string, accepted: seq<Span>, index: nat, end: nat)
    requires Settled(out, accepted, index) && Readable(out, Span(index, end))
    ensures Settled(out, accepted + [Span(index, end)], end)
  {
    var more := accepted + [Span(index, end)];
    assert more[|accepted|] == Span(index, end);
    forall p: nat | p < end && TopLevel(out, more, p) ensures NotJson(out, p) {
      assert p < index;
      forall i | 0 <= i < |accepted| ensures !(accepted[i].start <= p < accepted[i].end) {
        assert more[i] == accepted[i];
      }
      assert TopLevel(out, accepted, p);
    }
  }

  lemma TopLevelPast(out: string, accepted: seq<Span>, index: nat)
    requires Settled(out, accepted, index) && index < |out| && Opens(out[index])
    ensures TopLevel(out, accepted, index)
  {
    forall i | 0 <= i < |accepted| ensures !(accepted[i].start <= index < accepted[i].end) {
      assert Readable(out, accepted[i]) && accepted[i].end <= index;
    }
  }

  lemma {:induction false} ScanSettles(out: string, index: nat, scan: Scan) returns (limit: nat)
    requires index <= |out| && !scan.unterminated && Settled(out, scan.accepted, index)
    ensures Limit(out, ScanFrom(out, index, scan), limit)
    decreases |out| - index
  {
    limit := index;
    if index < |out| {
      var m := Look(out, index, scan);
      if Opens(out[index]) && SpanEnd(out, index).None? {
        TopLevelPast(out, scan.accepted, index);
        ScanUnclosed(out, index, scan);
      } else {
        if m.scan.accepted != scan.accepted { SettledAccept(out, scan.accepted, index, m.index); }
        limit := ScanSettles(out, m.index, m.scan);
      }
    }
  }

  /** Of any output: accepted spans parse, are disjoint and in order, and up to the first unclosed
      top-level bracket no other top-level span parses. */
  lemma AcceptedAreTopLevel(out: string) returns (limit: nat)
    ensures Limit(out, ScanAll(out), limit)
  {
    limit := ScanSettles(out, 0, START);
  }

  lemma SpanIsRendered(out: string, s: Span)
    requires Readable(out, s)
    ensures exists v :: WellFormed(v) && IsContainer(v) && out[s.start..s.end] == Render(v)
  {
    var text := out[s.start..s.end];
    var v :| Denotes(v, text);
    BracketsMeanContainer(v, text);
    var trail :| IsSpace(trail) && text == Render(v) + trail;
    SpanEndsClosed(out, s.start);
    assert Closes(text[|text| - 1]);
    if trail != "" { SpaceClosesNothing(Render(v), trail); }
    assert text == Render(v);
  }

  lemma SpaceClosesNothing(text: string, space: string)
    requires IsSpace(space) && space != ""
    ensures !Closes((text + space)[|text + space| - 1])
  {
    assert (text + space)[|text + space| - 1] == space[|space| - 1] && space[|space| - 1] in space;
  }

  ghost predicate Contains(out: string, piece: string) {
    exists i, j :: 0 <= i <= j <= |out| && out[i..j] == piece
  }

  /** An answer is the serialization of an array or object, taken from the output. */
  lemma AnswerIsJson(out: string)
    requires Extract(out).Found?
    ensures Contains(out, Extract(out).text)
    ensures exists v :: WellFormed(v) && IsContainer(v) && Extract(out).text == Render(v)
  {
    var s := ScanAll(out);
    var limit := AcceptedAreTopLevel(out);
    var last := s.accepted[|s.accepted| - 1];
    assert Readable(out, last);
    SpanIsRendered(out, last);
    assert out[last.start..last.end] == Extract(out).text;
  }

  /** There is no artifact exactly when nothing opens a bracket. */
  lemma NoArtifactMeans(out: string)
    ensures Extract(out) == NoArtifact <==> Prose(out)
  {
    SawIffOpener(out, 0, START);
    assert out[0..] == out;
    if Prose(out) {
      SkipProse(out, 0, |out|, START);
    }
  }

  /** The first bracket of the output that does not close, with nothing readable before it. */
  ghost predicate FirstUnclosed(out: string, p: nat) {
    && p < |out| && Opens(out[p]) && SpanEnd(out, p).None?
    && forall q: nat | q < p && Opens(out[q]) :: NotJson(out, q)
  }

  /** Before such a bracket nothing is accepted, so nothing is. */
  lemma UnclosedFirst(out: string, p: nat)
    requires FirstUnclosed(out, p)
    ensures Extract(out) == Unterminated
  {
    var s := ScanAll(out);
    var limit := AcceptedAreTopLevel(out);
    forall i | 0 <= i < |s.accepted| ensures p < s.accepted[i].start {
      assert Readable(out, s.accepted[i]);
    }
    if s.accepted != [] {
      assert Readable(out, s.accepted[0]) && TopLevel(out, s.accepted, p);
      assert false;
    }
    assert TopLevel(out, [], p);
    SawIffOpener(out, 0, START);
    assert out[0..] == out;
  }

  /** The two errors behind a bracket: the output is unterminated exactly when some bracket never closes
      and nothing before it can be read, and unreadable exactly when every bracket closes around
      something that is not JSON. */
  lemma ErrorsExactly(out: string)
    ensures Extract(out) == Unterminated <==> exists p: nat :: FirstUnclosed(out, p)
    ensures Extract(out) == Unreadable
            <==> !Prose(out) && forall p: nat | p < |out| && Opens(out[p]) :: NotJson(out, p)
  {
    var s := ScanAll(out);
    var limit := AcceptedAreTopLevel(out);
    SawIffOpener(out, 0, START);
    assert out[0..] == out;
    if p: nat :| FirstUnclosed(out, p) { UnclosedFirst(out, p); }
    if s.accepted == [] {
      forall p: nat | p < limit && Opens(out[p]) ensures NotJson(out, p) { assert TopLevel(out, [], p); }
      if s.unterminated { assert FirstUnclosed(out, limit); }
    } else {
      assert Readable(out, s.accepted[0]);
    }
  }
}
