/**
 What a registry command's output must be, spelled out on its text: exactly when an
 object is returned, line by line around it.
 */
module RegistryLines {
  import opened Wrappers
  import opened JsonGrammar
  import opened JavaScriptText
  import opened RegistryReadiness

  predicate AllBlank(s: string) {
    forall i | 0 <= i < |s| :: IsBlank(s[i])
  }

  /** `core` is what stands on `line` between white space. */
  predicate IsCore(core: string) {
    core != "" && !IsBlank(core[0]) && !IsBlank(core[|core| - 1])
  }

  /** `line` is the line of `text` between `front` and `back`. */
  predicate IsLineBetween(text: string, front: string, line: string, back: string) {
    && text == front + line + back && '\n' !in line
    && (front == "" || front[|front| - 1] == '\n') && (back == "" || back[0] == '\n')
  }

  ghost predicate IsLine(text: string, line: string) {
    exists front, back :: IsLineBetween(text, front, line, back)
  }

  /** Some line of `text` is `core` between white space. */
  ghost predicate LineHolds(text: string, core: string) {
    IsCore(core) && exists lead: string, trail: string ::
      AllBlank(lead) && AllBlank(trail) && IsLine(text, lead + core + trail)
  }

  // ---- Trimming ----

  lemma OneMoreBlank(c: char, lead: string, core: string, trail: string)
    requires IsBlank(c) && AllBlank(lead) && AllBlank(trail)
    ensures AllBlank([c] + lead) && [c] + (lead + core + trail) == ([c] + lead) + core + trail
    ensures AllBlank(trail + [c]) && (lead + core + trail) + [c] == lead + core + (trail + [c])
  {
  }

  lemma {:induction false} TrimSplits(s: string) returns (lead: string, trail: string)
    ensures s == lead + Trim(s) + trail && AllBlank(lead) && AllBlank(trail)
    ensures Trim(s) == "" || IsCore(Trim(s))
    decreases |s|
  {
    lead, trail := "", "";
    if s == "" {
    } else if IsBlank(s[0]) {
      lead, trail := TrimSplits(s[1..]);
      OneMoreBlank(s[0], lead, Trim(s), trail);
      lead := [s[0]] + lead;
    } else if IsBlank(s[|s| - 1]) {
      lead, trail := TrimSplits(s[..|s| - 1]);
      OneMoreBlank(s[|s| - 1], lead, Trim(s), trail);
      trail := trail + [s[|s| - 1]];
    }
  }

  lemma {:induction false} TrimBlank(s: string)
    requires AllBlank(s)
    ensures Trim(s) == ""
    decreases |s|
  {
    if s != "" { TrimBlank(s[1..]); }
  }

  lemma {:induction false} TrimIs(lead: string, core: string, trail: string)
    requires AllBlank(lead) && AllBlank(trail) && (core == "" || IsCore(core))
    ensures Trim(lead + core + trail) == core
    decreases |lead| + |trail|
  {
    var s := lead + core + trail;
    if core == "" {
      TrimBlank(s);
    } else if lead != "" {
      assert s[0] == lead[0] && s[1..] == lead[1..] + core + trail;
      TrimIs(lead[1..], core, trail);
    } else if trail != "" {
      assert s[0] == core[0] && s[|s| - 1] == trail[|trail| - 1];
      assert s[..|s| - 1] == lead + core + trail[..|trail| - 1];
      TrimIs(lead, core, trail[..|trail| - 1]);
    } else {
      assert s == core;
    }
  }

  /** A carriage return at the end makes no difference. */
  lemma TrimLast(s: string, c: char)
    requires IsBlank(c)
    ensures Trim(s + [c]) == Trim(s)
  {
    var lead, trail := TrimSplits(s);
    assert s + [c] == lead + Trim(s) + (trail + [c]);
    TrimIs(lead, Trim(s), trail + [c]);
  }

  // ---- Lines ----

  /** What SplitLines makes of the first line, a line feed behind it. */
  lemma FirstLineTrimmed(s: string, n: nat)
    requires n <= |s|
    ensures Trim(if n > 0 && s[n - 1] == '\r' then s[..n - 1] else s[..n]) == Trim(s[..n])
  {
    if n > 0 && s[n - 1] == '\r' {
      assert s[..n] == s[..n - 1] + ['\r'];
      TrimLast(s[..n - 1], '\r');
    }
  }

  lemma FirstLine(text: string, n: nat, line: string)
    requires n < |text| && text[n] == '\n' && '\n' !in text[..n]
    ensures IsLine(text, line) <==> line == text[..n] || IsLine(text[n + 1..], line)
  {
    if IsLine(text, line) {
      var front, back :| IsLineBetween(text, front, line, back);
      if front == "" { LineAtFront(text, n, line, back); } else { LineBehind(text, n, front, line, back); }
    }
    if line == text[..n] {
      assert IsLineBetween(text, "", line, text[n..]);
    } else if IsLine(text[n + 1..], line) {
      LineFurtherOn(text, n, line);
    }
  }

  lemma LineAtFront(text: string, n: nat, line: string, back: string)
    requires n < |text| && text[n] == '\n' && '\n' !in text[..n] && IsLineBetween(text, "", line, back)
    ensures line == text[..n]
  {
    assert forall j | 0 <= j < n :: text[..n][j] == text[j];
    assert forall j | 0 <= j < |line| :: line[j] == text[j];
    assert back != "" ==> text[|line|] == back[0];
  }

  lemma LineBehind(text: string, n: nat, front: string, line: string, back: string)
    requires n < |text| && text[n] == '\n' && '\n' !in text[..n]
    requires front != "" && IsLineBetween(text, front, line, back)
    ensures IsLine(text[n + 1..], line)
  {
    var i := |front| - 1;
    assert text[i] == front[i];
    assert forall j | 0 <= j < n :: text[..n][j] == text[j];
    var rest := front[n + 1..];
    assert text[n + 1..] == rest + line + back;
    if rest != "" { assert rest[|rest| - 1] == front[i]; }
    assert IsLineBetween(text[n + 1..], rest, line, back);
  }

  lemma LineFurtherOn(text: string, n: nat, line: string)
    requires n < |text| && text[n] == '\n' && IsLine(text[n + 1..], line)
    ensures IsLine(text, line)
  {
    var front, back :| IsLineBetween(text[n + 1..], front, line, back);
    var longer := text[..n + 1] + front;
    assert text == text[..n + 1] + text[n + 1..];
    assert text == longer + line + back;
    assert longer[|longer| - 1] == '\n';
    assert IsLineBetween(text, longer, line, back);
  }

  lemma OnlyLine(text: string, line: string)
    requires '\n' !in text
    ensures IsLine(text, line) <==> line == text
  {
    if line == text { assert IsLineBetween(text, "", line, ""); }
    if IsLine(text, line) {
      var front, back :| IsLineBetween(text, front, line, back);
      assert forall c | c in front || c in back :: c in text;
    }
  }

  /** The lines as the source splits and trims them. */
  lemma {:induction false} TrimmedLines(text: string, core: string)
    ensures (exists line :: line in SplitLines(text) && Trim(line) == core)
            <==> exists line :: IsLine(text, line) && Trim(line) == core
    decreases |text|
  {
    var newline := IndexOf(text, '\n', 0);
    if newline.None? {
      forall line ensures IsLine(text, line) <==> line == text { OnlyLine(text, line); }
      assert text in SplitLines(text);
    } else {
      var n := newline.value;
      var rest := text[n + 1..];
      var first := if n > 0 && text[n - 1] == '\r' then text[..n - 1] else text[..n];
      assert SplitLines(text) == [first] + SplitLines(rest);
      FirstLineTrimmed(text, n);
      forall line ensures IsLine(text, line) <==> line == text[..n] || IsLine(rest, line) { FirstLine(text, n, line); }
      TrimmedLines(rest, core);
      assert forall line :: line in SplitLines(text) <==> line == first || line in SplitLines(rest);
      assert IsLine(text, text[..n]);
    }
  }

  lemma HeldIsTrimmed(text: string, core: string)
    requires core != ""
    ensures LineHolds(text, core) <==> exists line :: IsLine(text, line) && Trim(line) == core
  {
    if LineHolds(text, core) {
      var lead: string, trail: string :| AllBlank(lead) && AllBlank(trail) && IsLine(text, lead + core + trail);
      TrimIs(lead, core, trail);
    }
    if line :| IsLine(text, line) && Trim(line) == core {
      var lead, trail := TrimSplits(line);
      assert IsLine(text, lead + core + trail);
    }
  }

  lemma {:induction false} NoLineValue(lines: seq<string>, parse: Parser)
    ensures LineValues(lines, parse) == []
            <==> forall line | line in lines :: Trim(line) == "" || parse(Trim(line)).None?
    decreases |lines|
  {
    if lines != [] {
      var front, last := lines[..|lines| - 1], lines[|lines| - 1];
      NoLineValue(front, parse);
      assert lines == front + [last];
    }
  }

  /** No line yields a value exactly when no line is a JSON text between white space. */
  lemma QuietExactly(text: string, parse: Parser)
    ensures LineValues(SplitLines(text), parse) == []
            <==> forall core | LineHolds(text, core) :: parse(core).None?
  {
    NoLineValue(SplitLines(text), parse);
    forall core | core != ""
      ensures LineHolds(text, core) <==> exists line :: line in SplitLines(text) && Trim(line) == core
    {
      HeldIsTrimmed(text, core);
      TrimmedLines(text, core);
    }
  }

  // ---- Exactly when an object is returned ----

  /** `w` is the object `v`, or the array whose only element it is. */
  predicate Carries(w: Json, v: Json) {
    v.Object? && (w == v || (w.Array? && w.items.Item? && w.items.value == v && w.items.rest == NoItems))
  }

  /** The output is one bracketed JSON text that carries `v`, with no bracket around it and no other JSON
      text on a line around it. */
  ghost predicate IsOutputOf(text: string, v: Json, before: string, span: string, after: string, parse: Parser) {
    && text == before + span + after
    && (forall c | c in before + after :: c !in "{}[]")
    && span != "" && span[0] in "{[" && span[|span| - 1] in "}]"
    && parse(span).Some? && Carries(parse(span).value, v)
    && forall core | LineHolds(before + "\n" + after, core) :: parse(core).None?
  }

  lemma AloneExactly(text: string, v: Json, before: string, span: string, after: string, parse: Parser)
    ensures IsOutputOf(text, v, before, span, after, parse)
            <==> StandsAlone(text, before, span, after, parse) && Payload(parse(span).value) == Some(v)
  {
    QuietExactly(before + "\n" + after, parse);
    assert forall c :: c in before + after <==> c in before || c in after;
  }

  /** An object is returned exactly for exit code zero and such an output. */
  lemma ObjectReadExactly(exitCode: int, text: string, parse: Parser, v: Json)
    requires IsParser(parse)
    ensures ReadObject(exitCode, text, parse) == Some(v)
            <==> exitCode == 0 && exists before, span, after :: IsOutputOf(text, v, before, span, after, parse)
  {
    ReadExactlyWhenAlone(text, parse, v);
    forall before, span, after
      ensures IsOutputOf(text, v, before, span, after, parse)
              <==> StandsAlone(text, before, span, after, parse) && Payload(parse(span).value) == Some(v)
    {
      AloneExactly(text, v, before, span, after, parse);
    }
  }
}
