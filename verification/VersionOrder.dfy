/**
 Version precedence as the release check computes it (scripts/check-release.ts): its
 comparison on every string, its agreement with section 11 of SemVer 2.0.0, and the
 lifting of its adjacent-pair loop to the whole changelog.
 */
module VersionOrder {
  import opened Wrappers
  import opened JavaScriptText

  // ---- The comparison ----

  datatype Parts = Parts(core: seq<Option<int>>, pre: Option<seq<string>>)

  function ParseAll(segments: seq<string>): (r: seq<Option<int>>)
    ensures |r| == |segments| && forall i | 0 <= i < |r| :: r[i] == ParseInt(segments[i])
  {
    if segments == [] then [] else [ParseInt(segments[0])] + ParseAll(segments[1..])
  }

  function SplitSemver(v: string): Parts {
    var withoutBuild := Before(v, '+');
    var pre := Behind(withoutBuild, '-');
    Parts(ParseAll(Split(Before(withoutBuild, '-'), '.')), if pre.None? then None else Some(Split(pre.value, '.')))
  }

  /** A missing segment is zero; None is NaN. */
  function Segment(p: Parts, i: nat): Option<int> {
    if i < |p.core| then p.core[i] else Some(0)
  }

  function ComparePre(a: seq<string>, b: seq<string>): int
    decreases |a| + |b|
  {
    if a == [] && b == [] then 0
    else if a == [] then -1
    else if b == [] then 1
    else
      var numericA, numericB := AllDigits(a[0]), AllDigits(b[0]);
      if numericA && numericB && Value(a[0]) != Value(b[0]) then Value(a[0]) - Value(b[0])
      else if numericA && !numericB then -1
      else if numericB && !numericA then 1
      else if a[0] != b[0] then (if TextLess(a[0], b[0]) then -1 else 1)
      else ComparePre(a[1..], b[1..])
  }

  function CompareFrom(a: Parts, b: Parts, i: nat): Option<int>
    requires i <= 3
    decreases 3 - i
  {
    if i < 3 then
      var x, y := Segment(a, i), Segment(b, i);
      if x.None? || y.None? then None
      else if x != y then Some(x.value - y.value)
      else CompareFrom(a, b, i + 1)
    else if a.pre.None? || b.pre.None? then Some((if a.pre.None? then 1 else 0) - (if b.pre.None? then 1 else 0))
    else Some(ComparePre(a.pre.value, b.pre.value))
  }

  function Compare(a: string, b: string): Option<int> {
    CompareFrom(SplitSemver(a), SplitSemver(b), 0)
  }

  method ComparePrereleases(p: seq<string>, q: seq<string>) returns (r: int)
    ensures r == ComparePre(p, q)
  {
    var i := 0;
    assert p[0..] == p && q[0..] == q;
    while i < |p| || i < |q|
      invariant i <= |p| && i <= |q|
      invariant ComparePre(p, q) == ComparePre(p[i..], q[i..])
      decreases |p| + |q| - i
    {
      if i == |p| { return -1; }
      if i == |q| { return 1; }
      var x, y := p[i], q[i];
      assert p[i..][0] == x && p[i..][1..] == p[i + 1..] && q[i..][0] == y && q[i..][1..] == q[i + 1..];
      var numericA, numericB := AllDigits(x), AllDigits(y);
      if numericA && numericB {
        if Value(x) != Value(y) { return Value(x) - Value(y); }
      } else if numericA {
        return -1;
      } else if numericB {
        return 1;
      }
      if x != y { return if TextLess(x, y) then -1 else 1; }
      i := i + 1;
    }
    return 0;
  }

  method CompareSemver(a: string, b: string) returns (r: Option<int>)
    ensures r == Compare(a, b)
  {
    var left, right := SplitSemver(a), SplitSemver(b);
    r := CompareParts(left, right);
  }

  method CompareParts(left: Parts, right: Parts) returns (r: Option<int>)
    ensures r == CompareFrom(left, right, 0)
  {
    for i := 0 to 3
      invariant CompareFrom(left, right, 0) == CompareFrom(left, right, i)
    {
      var x, y := Segment(left, i), Segment(right, i);
      if x.None? || y.None? { return None; }
      if x != y { return Some(x.value - y.value); }
    }
    if left.pre.None? || right.pre.None? {
      return Some((if left.pre.None? then 1 else 0) - (if right.pre.None? then 1 else 0));
    }
    var order := ComparePrereleases(left.pre.value, right.pre.value);
    return Some(order);
  }

  // ---- Versions as keys under one lexicographic order ----

  datatype Token = End | Number(value: int, text: string) | Word(text: string) | Top

  function Rank(t: Token): int {
    match t case End => 0 case Number(_, _) => 1 case Word(_) => 2 case Top => 3
  }

  function CompareToken(s: Token, t: Token): int {
    if Rank(s) != Rank(t) then Rank(s) - Rank(t)
    else if s.Number? then (if s.value != t.value then s.value - t.value else CompareText(s.text, t.text))
    else if s.Word? then CompareText(s.text, t.text)
    else 0
  }

  function Lex(a: seq<Token>, b: seq<Token>): int {
    if a == [] then (if b == [] then 0 else -1)
    else if b == [] then 1
    else if CompareToken(a[0], b[0]) != 0 then CompareToken(a[0], b[0])
    else Lex(a[1..], b[1..])
  }

  predicate SameSign(x: int, y: int) {
    (x < 0 <==> y < 0) && (x > 0 <==> y > 0)
  }

  lemma TokenAntisymmetric(s: Token, t: Token)
    ensures SameSign(CompareToken(s, t), -CompareToken(t, s)) && (CompareToken(s, t) == 0 <==> s == t)
  {
    if (s.Number? && t.Number?) || (s.Word? && t.Word?) { TextAntisymmetric(s.text, t.text); }
  }

  lemma TokenTransitive(s: Token, t: Token, u: Token)
    requires CompareToken(s, t) <= 0 && CompareToken(t, u) <= 0
    ensures CompareToken(s, u) <= 0 && (CompareToken(s, u) == 0 ==> CompareToken(s, t) == 0 && CompareToken(t, u) == 0)
  {
    if Rank(s) == Rank(t) == Rank(u) && (s.Number? || s.Word?) {
      TextAntisymmetric(s.text, t.text);
      TextAntisymmetric(t.text, u.text);
      if CompareText(s.text, t.text) <= 0 && CompareText(t.text, u.text) <= 0 {
        TextTransitive(s.text, t.text, u.text);
      }
    }
  }

  lemma {:induction false} LexAntisymmetric(a: seq<Token>, b: seq<Token>)
    ensures SameSign(Lex(a, b), -Lex(b, a)) && (Lex(a, b) == 0 <==> a == b)
    decreases |a|
  {
    if a != [] && b != [] {
      TokenAntisymmetric(a[0], b[0]);
      LexAntisymmetric(a[1..], b[1..]);
      assert a == [a[0]] + a[1..] && b == [b[0]] + b[1..];
    }
  }

  lemma {:induction false} LexTransitive(a: seq<Token>, b: seq<Token>, c: seq<Token>)
    requires Lex(a, b) <= 0 && Lex(b, c) <= 0
    ensures Lex(a, c) <= 0
    decreases |a|
  {
    if a != [] && b != [] && c != [] {
      TokenTransitive(a[0], b[0], c[0]);
      TokenAntisymmetric(a[0], b[0]);
      TokenAntisymmetric(b[0], c[0]);
      if CompareToken(a[0], b[0]) == 0 && CompareToken(b[0], c[0]) == 0 { LexTransitive(a[1..], b[1..], c[1..]); }
    }
  }

  function Identifiers(pre: seq<string>): seq<Token> {
    if pre == [] then [End]
    else [if AllDigits(pre[0]) then Number(Value(pre[0]), pre[0]) else Word(pre[0])] + Identifiers(pre[1..])
  }

  predicate HasNumbers(p: Parts) {
    forall i | 0 <= i < 3 :: Segment(p, i).Some?
  }

  /** Where comparing gives a number: the first three segments are. */
  predicate Comparable(v: string) {
    HasNumbers(SplitSemver(v))
  }

  function PreKey(pre: Option<seq<string>>): seq<Token> {
    if pre.None? then [Top] else Identifiers(pre.value)
  }

  function KeyFrom(p: Parts, i: nat): seq<Token>
    requires HasNumbers(p) && i <= 3
    decreases 3 - i
  {
    if i == 3 then PreKey(p.pre) else [Number(Segment(p, i).value, "")] + KeyFrom(p, i + 1)
  }

  function Key(v: string): seq<Token>
    requires Comparable(v)
  {
    KeyFrom(SplitSemver(v), 0)
  }

  lemma LexHead(x: Token, a: seq<Token>, y: Token, b: seq<Token>)
    ensures Lex([x] + a, [y] + b) == if CompareToken(x, y) != 0 then CompareToken(x, y) else Lex(a, b)
  {
    assert ([x] + a)[1..] == a && ([y] + b)[1..] == b;
  }

  lemma {:induction false} PreIsLex(a: seq<string>, b: seq<string>)
    ensures SameSign(ComparePre(a, b), Lex(Identifiers(a), Identifiers(b)))
    decreases |a|
  {
    if a != [] && b != [] {
      TextAntisymmetric(a[0], b[0]);
      PreIsLex(a[1..], b[1..]);
    }
  }

  lemma {:induction false} PartsAreLex(a: Parts, b: Parts, i: nat)
    requires HasNumbers(a) && HasNumbers(b) && i <= 3
    ensures CompareFrom(a, b, i).Some? && SameSign(CompareFrom(a, b, i).value, Lex(KeyFrom(a, i), KeyFrom(b, i)))
    decreases 3 - i
  {
    if i < 3 {
      PartsAreLex(a, b, i + 1);
      LexHead(Number(Segment(a, i).value, ""), KeyFrom(a, i + 1), Number(Segment(b, i).value, ""), KeyFrom(b, i + 1));
    } else if a.pre.Some? && b.pre.Some? {
      PreIsLex(a.pre.value, b.pre.value);
    }
  }

  /** The comparison is the lexicographic order of keys, wherever it gives a number. */
  lemma CompareIsLex(a: string, b: string)
    requires Comparable(a) && Comparable(b)
    ensures Compare(a, b).Some? && SameSign(Compare(a, b).value, Lex(Key(a), Key(b)))
  {
    PartsAreLex(SplitSemver(a), SplitSemver(b), 0);
  }

  /** On comparable versions the comparison is total, antisymmetric and transitive. */
  lemma CompareIsOrder(a: string, b: string, c: string)
    requires Comparable(a) && Comparable(b) && Comparable(c)
    ensures Compare(a, b).Some? && Compare(b, a).Some? && Compare(b, c).Some? && Compare(a, c).Some?
    ensures SameSign(Compare(a, b).value, -Compare(b, a).value)
    ensures Compare(a, b).value <= 0 && Compare(b, c).value <= 0 ==> Compare(a, c).value <= 0
  {
    CompareIsLex(a, b);
    CompareIsLex(b, a);
    CompareIsLex(b, c);
    CompareIsLex(a, c);
    LexAntisymmetric(Key(a), Key(b));
    if Lex(Key(a), Key(b)) <= 0 && Lex(Key(b), Key(c)) <= 0 { LexTransitive(Key(a), Key(b), Key(c)); }
  }

  // ---- Section 11 of SemVer 2.0.0 ----

  datatype Identifier = Numeric(n: nat) | Alphanumeric(text: string)

  /** No prerelease identifiers make a release. */
  datatype Version = Version(major: nat, minor: nat, patch: nat, pre: seq<Identifier>, build: string)

  predicate IsIdentifierChar(c: char) {
    IsDigit(c) || 'A' <= c <= 'Z' || 'a' <= c <= 'z' || c == '-'
  }

  predicate IsIdentifier(x: Identifier) {
    x.Alphanumeric? ==> x.text != "" && !AllDigits(x.text) && forall c | c in x.text :: IsIdentifierChar(c)
  }

  predicate IsVersion(v: Version) {
    forall x | x in v.pre :: IsIdentifier(x)
  }

  function ShowIdentifier(x: Identifier): string {
    if x.Numeric? then Decimal(x.n) else x.text
  }

  function ShowAll(pre: seq<Identifier>): (r: seq<string>)
    ensures |r| == |pre| && forall i | 0 <= i < |r| :: r[i] == ShowIdentifier(pre[i])
  {
    if pre == [] then [] else [ShowIdentifier(pre[0])] + ShowAll(pre[1..])
  }

  function ShowCore(v: Version): seq<string> {
    [Decimal(v.major), Decimal(v.minor), Decimal(v.patch)]
  }

  function ShowRelease(v: Version): string {
    Join(ShowCore(v), '.') + if v.pre == [] then "" else "-" + Join(ShowAll(v.pre), '.')
  }

  function Show(v: Version): string {
    ShowRelease(v) + if v.build == "" then "" else "+" + v.build
  }

  predicate SameCore(a: Version, b: Version) {
    a.major == b.major && a.minor == b.minor && a.patch == b.patch
  }

  predicate CoreBelow(a: Version, b: Version) {
    a.major < b.major || (a.major == b.major && (a.minor < b.minor || (a.minor == b.minor && a.patch < b.patch)))
  }

  predicate IdentifierBelow(x: Identifier, y: Identifier) {
    if x.Numeric? && y.Numeric? then x.n < y.n
    else if x.Alphanumeric? && y.Alphanumeric? then TextLess(x.text, y.text)
    else x.Numeric?
  }

  /** The first difference decides; where there is none, the longer list is above. */
  ghost predicate FirstBelow(a: seq<Identifier>, b: seq<Identifier>) {
    exists k :: 0 <= k <= |a| && k <= |b| && a[..k] == b[..k] && DecidedAt(a, b, k)
  }

  predicate DecidedAt(a: seq<Identifier>, b: seq<Identifier>, k: nat)
    requires k <= |a| && k <= |b|
  {
    k < |b| && (k == |a| || IdentifierBelow(a[k], b[k]))
  }

  /** Precedence; build metadata plays no part in it. */
  ghost predicate Below(a: Version, b: Version) {
    CoreBelow(a, b)
        || (SameCore(a, b)
           && (if a.pre == [] || b.pre == [] then a.pre != [] && b.pre == [] else FirstBelow(a.pre, b.pre)))
  }

  lemma {:induction false} FirstBelowStep(a: seq<Identifier>, b: seq<Identifier>)
    requires a != [] && b != [] && a[0] == b[0] && !IdentifierBelow(a[0], a[0])
    ensures FirstBelow(a, b) <==> FirstBelow(a[1..], b[1..])
  {
    if FirstBelow(a, b) {
      var k :| 0 <= k <= |a| && k <= |b| && a[..k] == b[..k] && DecidedAt(a, b, k);
      assert a[1..][..k - 1] == a[..k][1..] && b[1..][..k - 1] == b[..k][1..];
      assert DecidedAt(a[1..], b[1..], k - 1);
    }
    if FirstBelow(a[1..], b[1..]) {
      var a', b' := a[1..], b[1..];
      var k :| 0 <= k <= |a'| && k <= |b'| && a'[..k] == b'[..k] && DecidedAt(a', b', k);
      assert a[..k + 1] == [a[0]] + a'[..k] && b[..k + 1] == [b[0]] + b'[..k];
      assert DecidedAt(a, b, k + 1);
    }
  }

  lemma SharedHead(a: seq<Identifier>, b: seq<Identifier>, k: nat)
    requires 0 < k <= |a| && k <= |b| && a[..k] == b[..k]
    ensures a[0] == b[0]
  {
    assert a[0] == a[..k][0];
  }

  lemma FirstBelowHead(a: seq<Identifier>, b: seq<Identifier>)
    requires a != [] && b != [] && a[0] != b[0]
    ensures FirstBelow(a, b) <==> IdentifierBelow(a[0], b[0])
  {
    if FirstBelow(a, b) {
      var k :| 0 <= k <= |a| && k <= |b| && a[..k] == b[..k] && DecidedAt(a, b, k);
      if k > 0 { SharedHead(a, b, k); }
    }
    if IdentifierBelow(a[0], b[0]) { assert a[..0] == b[..0] && DecidedAt(a, b, 0); }
  }

  lemma IdentifierText(x: Identifier)
    requires IsIdentifier(x)
    ensures AllDigits(ShowIdentifier(x)) <==> x.Numeric?
    ensures x.Numeric? ==> Value(ShowIdentifier(x)) == x.n
    ensures '.' !in ShowIdentifier(x) && '+' !in ShowIdentifier(x)
  {
    if x.Numeric? { DecimalPlain(x.n); }
  }

  lemma DecimalPlain(n: nat)
    ensures AllDigits(Decimal(n)) && Value(Decimal(n)) == n && '.' !in Decimal(n) && '+' !in Decimal(n)
            && '-' !in Decimal(n)
  {
    DecimalValue(n);
    forall c | c in Decimal(n) ensures IsDigit(c) {
      var i :| 0 <= i < |Decimal(n)| && Decimal(n)[i] == c;
    }
  }

  lemma DifferentHeads(x: Identifier, y: Identifier, a: seq<string>, b: seq<string>)
    requires IsIdentifier(x) && IsIdentifier(y) && x != y && a != [] && b != []
    requires a[0] == ShowIdentifier(x) && b[0] == ShowIdentifier(y)
    ensures ComparePre(a, b) < 0 <==> IdentifierBelow(x, y)
    ensures ComparePre(a, b) != 0
  {
    IdentifierText(x);
    IdentifierText(y);
    TextAntisymmetric(a[0], b[0]);
  }

  lemma EqualHeads(a: seq<string>, b: seq<string>)
    requires a != [] && b != [] && a[0] == b[0]
    ensures ComparePre(a, b) == ComparePre(a[1..], b[1..])
  {
  }

  lemma NeverBelowItself(x: Identifier)
    ensures !IdentifierBelow(x, x)
  {
    if x.Alphanumeric? { TextAntisymmetric(x.text, x.text); }
  }

  /** Comparing the shown identifiers is section 11's order of identifiers. */
  lemma {:induction false} PreRefines(a: seq<Identifier>, b: seq<Identifier>)
    requires (forall x | x in a :: IsIdentifier(x)) && (forall x | x in b :: IsIdentifier(x))
    ensures ComparePre(ShowAll(a), ShowAll(b)) < 0 <==> FirstBelow(a, b)
    ensures ComparePre(ShowAll(a), ShowAll(b)) == 0 <==> a == b
    decreases |a|
  {
    if a == [] || b == [] {
      if a == [] && b != [] { assert a[..0] == b[..0] && DecidedAt(a, b, 0); }
    } else if a[0] != b[0] {
      assert a[0] in a && b[0] in b;
      DifferentHeads(a[0], b[0], ShowAll(a), ShowAll(b));
      FirstBelowHead(a, b);
    } else {
      assert ShowAll(a)[1..] == ShowAll(a[1..]) && ShowAll(b)[1..] == ShowAll(b[1..]);
      EqualHeads(ShowAll(a), ShowAll(b));
      NeverBelowItself(a[0]);
      FirstBelowStep(a, b);
      PreRefines(a[1..], b[1..]);
      assert a == [a[0]] + a[1..] && b == [b[0]] + b[1..];
    }
  }

  lemma {:induction false} NotInJoin(parts: seq<string>, c: char, separator: char)
    requires parts != [] && c != separator && forall p | p in parts :: c !in p
    ensures c !in Join(parts, separator)
    decreases |parts|
  {
    if |parts| > 1 { NotInJoin(parts[1..], c, separator); }
  }

  lemma CutAt(s: string, c: char, front: string, rest: string)
    requires s == front + [c] + rest && c !in front
    ensures Before(s, c) == front && Behind(s, c) == Some(rest)
  {
    IndexOfIs(s, c, front, rest);
  }

  lemma NoCut(s: string, c: char)
    requires c !in s
    ensures Before(s, c) == s && Behind(s, c) == None
  {
  }

  lemma CoreParses(v: Version)
    ensures ParseAll(ShowCore(v)) == [Some(v.major), Some(v.minor), Some(v.patch)]
    ensures forall p | p in ShowCore(v) :: '.' !in p && '-' !in p && '+' !in p
  {
    DecimalPlain(v.major);
    DecimalPlain(v.minor);
    DecimalPlain(v.patch);
    DigitsParse(Decimal(v.major));
    DigitsParse(Decimal(v.minor));
    DigitsParse(Decimal(v.patch));
  }

  lemma PreTexts(pre: seq<Identifier>)
    requires forall x | x in pre :: IsIdentifier(x)
    ensures forall p | p in ShowAll(pre) :: '.' !in p && '+' !in p
  {
    forall p | p in ShowAll(pre) ensures '.' !in p && '+' !in p {
      var i :| 0 <= i < |pre| && ShowAll(pre)[i] == p;
      assert pre[i] in pre;
      IdentifierText(pre[i]);
    }
  }

  lemma ReleaseHasNoPlus(v: Version)
    requires IsVersion(v)
    ensures '+' !in ShowRelease(v)
  {
    CoreParses(v);
    NotInJoin(ShowCore(v), '+', '.');
    if v.pre != [] {
      PreTexts(v.pre);
      NotInJoin(ShowAll(v.pre), '+', '.');
    }
  }

  function PartsOf(v: Version): Parts {
    Parts([Some(v.major), Some(v.minor), Some(v.patch)], if v.pre == [] then None else Some(ShowAll(v.pre)))
  }

  lemma ReleaseSplits(v: Version)
    requires IsVersion(v)
    ensures Before(ShowRelease(v), '-') == Join(ShowCore(v), '.')
    ensures Behind(ShowRelease(v), '-') == if v.pre == [] then None else Some(Join(ShowAll(v.pre), '.'))
  {
    var core, release := Join(ShowCore(v), '.'), ShowRelease(v);
    CoreParses(v);
    NotInJoin(ShowCore(v), '-', '.');
    if v.pre == [] {
      assert release == core;
      NoCut(release, '-');
    } else {
      assert release == core + ['-'] + Join(ShowAll(v.pre), '.');
      CutAt(release, '-', core, Join(ShowAll(v.pre), '.'));
    }
  }

  /** Reading back what a version shows, without its build metadata. */
  lemma ShownSplits(v: Version)
    requires IsVersion(v)
    ensures SplitSemver(Show(v)) == PartsOf(v)
  {
    var release := ShowRelease(v);
    ReleaseHasNoPlus(v);
    if v.build == "" {
      assert Show(v) == release;
      NoCut(release, '+');
    } else {
      assert Show(v) == release + ['+'] + v.build;
      CutAt(Show(v), '+', release, v.build);
    }
    ReleaseSplits(v);
    CoreParses(v);
    SplitJoin(ShowCore(v), '.');
    if v.pre != [] {
      PreTexts(v.pre);
      SplitJoin(ShowAll(v.pre), '.');
    }
  }

  lemma PreAntisymmetric(a: seq<string>, b: seq<string>)
    ensures SameSign(ComparePre(a, b), -ComparePre(b, a))
  {
    PreIsLex(a, b);
    PreIsLex(b, a);
    LexAntisymmetric(Identifiers(a), Identifiers(b));
  }

  lemma PartsCompare(a: Version, b: Version)
    ensures var p, q := PartsOf(a), PartsOf(b);
            CompareFrom(p, q, 0) ==
              if a.major != b.major then Some(a.major - b.major)
              else if a.minor != b.minor then Some(a.minor - b.minor)
              else if a.patch != b.patch then Some(a.patch - b.patch)
              else CompareFrom(p, q, 3)
  {
    var p, q := PartsOf(a), PartsOf(b);
    assert Segment(p, 0) == Some(a.major) && Segment(p, 1) == Some(a.minor) && Segment(p, 2) == Some(a.patch);
    assert Segment(q, 0) == Some(b.major) && Segment(q, 1) == Some(b.minor) && Segment(q, 2) == Some(b.patch);
    assert a.major == b.major ==> CompareFrom(p, q, 0) == CompareFrom(p, q, 1);
    assert a.minor == b.minor ==> CompareFrom(p, q, 1) == CompareFrom(p, q, 2);
    assert a.patch == b.patch ==> CompareFrom(p, q, 2) == CompareFrom(p, q, 3);
  }

  /** On valid versions the comparison is section 11's precedence: below, equal but for build metadata, above. */
  lemma CompareRefinesPrecedence(a: Version, b: Version)
    requires IsVersion(a) && IsVersion(b)
    ensures var r := Compare(Show(a), Show(b));
            && r.Some?
            && (r.value < 0 <==> Below(a, b))
            && (r.value > 0 <==> Below(b, a))
            && (r.value == 0 <==> SameCore(a, b) && a.pre == b.pre)
  {
    ShownSplits(a);
    ShownSplits(b);
    PartsCompare(a, b);
    PreRefines(a.pre, b.pre);
    PreRefines(b.pre, a.pre);
    PreAntisymmetric(ShowAll(a.pre), ShowAll(b.pre));
  }

  // ---- The changelog ----

  /** A dated release heading; dates are ISO calendar days. */
  datatype Entry = Entry(version: string, date: string)

  datatype OrderCheck = TooFew | DatesBackwards(at: nat) | VersionsBackwards(at: nat) | Ordered

  predicate Backwards(newer: Entry, older: Entry) {
    newer.date == older.date && Compare(older.version, newer.version).Some?
        && Compare(older.version, newer.version).value > 0
  }

  function CheckFrom(dated: seq<Entry>, i: nat): OrderCheck
    requires 1 <= i <= |dated|
    decreases |dated| - i
  {
    if i == |dated| then Ordered
    else if TextLess(dated[i - 1].date, dated[i].date) then DatesBackwards(i)
    else if Backwards(dated[i - 1], dated[i]) then VersionsBackwards(i)
    else CheckFrom(dated, i + 1)
  }

  function Check(dated: seq<Entry>): OrderCheck {
    if |dated| < 2 then TooFew else CheckFrom(dated, 1)
  }

  method CheckOrder(dated: seq<Entry>) returns (r: OrderCheck)
    ensures r == Check(dated)
  {
    if |dated| < 2 { return TooFew; }
    for i := 1 to |dated|
      invariant Check(dated) == CheckFrom(dated, i)
    {
      var previous, current := dated[i - 1], dated[i];
      if TextLess(previous.date, current.date) { return DatesBackwards(i); }
      if current.date == previous.date {
        var order := CompareSemver(current.version, previous.version);
        if order.Some? && order.value > 0 { return VersionsBackwards(i); }
      }
    }
    return Ordered;
  }

  /** `older` may stand anywhere below `newer`. */
  predicate InOrder(newer: Entry, older: Entry) {
    TextLess(older.date, newer.date)
    || (older.date == newer.date && Compare(older.version, newer.version).Some?
       && Compare(older.version, newer.version).value <= 0)
  }

  predicate AllComparable(dated: seq<Entry>) {
    forall i | 0 <= i < |dated| :: Comparable(dated[i].version)
  }

  lemma InOrderTransitive(x: Entry, y: Entry, z: Entry)
    requires Comparable(x.version) && Comparable(y.version) && Comparable(z.version)
    requires InOrder(x, y) && InOrder(y, z)
    ensures InOrder(x, z)
  {
    TextAntisymmetric(y.date, x.date);
    TextAntisymmetric(z.date, y.date);
    TextAntisymmetric(z.date, x.date);
    TextTransitive(z.date, y.date, x.date);
    CompareIsOrder(z.version, y.version, x.version);
  }

  predicate PairPasses(x: Entry, y: Entry) {
    !TextLess(x.date, y.date) && !Backwards(x, y)
  }

  lemma PairCheck(x: Entry, y: Entry)
    requires Comparable(x.version) && Comparable(y.version)
    ensures InOrder(x, y) <==> PairPasses(x, y)
  {
    TextAntisymmetric(x.date, y.date);
    CompareIsOrder(y.version, x.version, y.version);
  }

  lemma {:induction false} CheckIsAdjacent(dated: seq<Entry>, i: nat)
    requires 1 <= i <= |dated|
    ensures CheckFrom(dated, i) == Ordered <==> forall k | i <= k < |dated| :: PairPasses(dated[k - 1], dated[k])
    decreases |dated| - i
  {
    if i < |dated| {
      CheckIsAdjacent(dated, i + 1);
      assert PairPasses(dated[i - 1], dated[i])
          <==> CheckFrom(dated, i) == CheckFrom(dated, i + 1) && PairPasses(dated[i - 1], dated[i]);
    }
  }

  predicate Related(below: (Entry, Entry) -> bool, x: Entry, y: Entry) {
    below(x, y)
  }

  /** A transitive relation between neighbours holds between all. */
  lemma {:induction false} NeighboursLift(dated: seq<Entry>, below: (Entry, Entry) -> bool, i: nat, j: nat)
    requires i < j < |dated|
    requires forall k | 1 <= k < |dated| :: Related(below, dated[k - 1], dated[k])
    requires forall x, y, z | x in dated && y in dated && z in dated && Related(below, x, y)
             && Related(below, y, z) :: Related(below, x, z)
    ensures Related(below, dated[i], dated[j])
    decreases j
  {
    assert Related(below, dated[j - 1], dated[j]);
    if i < j - 1 { NeighboursLift(dated, below, i, j - 1); }
  }

  lemma OrderTransitive(dated: seq<Entry>)
    requires AllComparable(dated)
    ensures forall x, y, z | x in dated && y in dated && z in dated && Related(InOrder, x, y)
            && Related(InOrder, y, z) :: Related(InOrder, x, z)
  {
    forall x, y, z | x in dated && y in dated && z in dated && Related(InOrder, x, y) && Related(InOrder, y, z)
      ensures Related(InOrder, x, z)
    {
      InOrderTransitive(x, y, z);
    }
  }

  /** Comparing neighbours decides the order of the whole changelog. */
  lemma AdjacentOrdersAll(dated: seq<Entry>)
    requires |dated| >= 2 && AllComparable(dated)
    ensures Check(dated) == Ordered <==> forall i, j | 0 <= i < j < |dated| :: InOrder(dated[i], dated[j])
  {
    CheckIsAdjacent(dated, 1);
    OrderTransitive(dated);
    forall k | 1 <= k < |dated| ensures PairPasses(dated[k - 1], dated[k])
        <==> Related(InOrder, dated[k - 1], dated[k]) {
      PairCheck(dated[k - 1], dated[k]);
    }
    if Check(dated) == Ordered {
      forall i, j | 0 <= i < j < |dated| ensures InOrder(dated[i], dated[j]) {
        NeighboursLift(dated, InOrder, i, j);
        assert Related(InOrder, dated[i], dated[j]);
      }
    }
  }

  function CoreOf(v: Version, i: nat): nat
    requires i < 3
  {
    if i == 0 then v.major else if i == 1 then v.minor else v.patch
  }

  /** The version has the numbers of the heading up to the first one the heading lacks. */
  predicate SharesUntil(odd: Parts, v: Version, i: nat)
    requires i < 3
  {
    Segment(odd, i).None? && forall j: nat | j < i :: Segment(odd, j) == Some(CoreOf(v, j))
  }

  lemma {:induction false} SharedNoNumber(p: Parts, q: Parts, i: nat, n: nat)
    requires i <= n < 3 && (Segment(p, n).None? || Segment(q, n).None?)
    requires forall j: nat | j < n :: Segment(p, j).Some? && Segment(p, j) == Segment(q, j)
    ensures CompareFrom(p, q, i) == None
    decreases n - i
  {
    if i < n { SharedNoNumber(p, q, i + 1, n); }
  }

  lemma ShownSegments(v: Version, i: nat)
    requires IsVersion(v) && i < 3
    ensures Segment(SplitSemver(Show(v)), i) == Some(CoreOf(v, i))
  {
    ShownSplits(v);
  }

  lemma OddComparesNaN(odd: string, v: Version, i: nat)
    requires IsVersion(v) && i < 3 && SharesUntil(SplitSemver(odd), v, i)
    ensures Compare(odd, Show(v)) == None && Compare(Show(v), odd) == None
  {
    var p, q := SplitSemver(odd), SplitSemver(Show(v));
    forall j: nat | j <= i ensures Segment(q, j) == Some(CoreOf(v, j)) { ShownSegments(v, j); }
    SharedNoNumber(p, q, 0, i);
    SharedNoNumber(q, p, 0, i);
  }

  /** A heading that is not comparable separates what stands above it from what stands below: versions
      that share its numbers pass around it in the wrong order. */
  lemma NotComparableSeparates(a: Version, b: Version, odd: string, i: nat, date: string)
    requires IsVersion(a) && IsVersion(b) && Below(a, b) && i < 3
    requires SharesUntil(SplitSemver(odd), a, i) && SharesUntil(SplitSemver(odd), b, i)
    ensures Check([Entry(Show(a), date), Entry(odd, date), Entry(Show(b), date)]) == Ordered
    ensures !InOrder(Entry(Show(a), date), Entry(Show(b), date))
  {
    var dated := [Entry(Show(a), date), Entry(odd, date), Entry(Show(b), date)];
    TextAntisymmetric(date, date);
    CompareRefinesPrecedence(b, a);
    OddComparesNaN(odd, a, i);
    OddComparesNaN(odd, b, i);
    assert CheckFrom(dated, 3) == Ordered;
    assert CheckFrom(dated, 2) == Ordered;
  }

  // ---- Such versions exist for every such heading ----

  lemma {:induction false} BeforeKeepsOut(s: string, c: char)
    ensures c !in Before(s, c)
  {
    forall i | 0 <= i < |Before(s, c)| ensures Before(s, c)[i] != c {}
  }

  lemma {:induction false} PartsKeepOut(s: string, separator: char, c: char)
    requires c !in s
    ensures forall p | p in Split(s, separator) :: c !in p
    decreases |s|
  {
    var i := IndexOf(s, separator, 0);
    if i.Some? { PartsKeepOut(s[i.value + 1..], separator, c); }
  }

  lemma {:induction false} TrimLeftKeepsOut(s: string, c: char)
    requires c !in s
    ensures c !in TrimLeft(s)
    decreases |s|
  {
    if s != "" && IsBlank(s[0]) { TrimLeftKeepsOut(s[1..], c); }
  }

  /** A dash ends the numbers of a heading, so none of them is negative. */
  lemma SegmentsNatural(v: string, i: nat)
    ensures Segment(SplitSemver(v), i).Some? ==> Segment(SplitSemver(v), i).value >= 0
  {
    var core := Before(Before(v, '+'), '-');
    var segments := Split(core, '.');
    BeforeKeepsOut(Before(v, '+'), '-');
    PartsKeepOut(core, '.', '-');
    if i < |segments| {
      assert segments[i] in segments;
      TrimLeftKeepsOut(segments[i], '-');
    }
  }

  /** The version with the given numbers before place `i`, `x` there, and zeros behind it. */
  function WithNumber(odd: Parts, i: nat, x: nat): Version
    requires i < 3 && forall j: nat | j < i :: Segment(odd, j).Some? && Segment(odd, j).value >= 0
  {
    Version(if i == 0 then x else Segment(odd, 0).value,
            if i == 1 then x else if i == 2 then Segment(odd, 1).value else 0,
            if i == 2 then x else 0, [], "")
  }

  lemma WithNumberShares(odd: Parts, i: nat, x: nat)
    requires i < 3 && (forall j: nat | j < i :: Segment(odd, j).Some? && Segment(odd, j).value >= 0)
    requires Segment(odd, i).None?
    ensures IsVersion(WithNumber(odd, i, x)) && SharesUntil(odd, WithNumber(odd, i, x), i)
  {
  }

  lemma WithNumberBelow(odd: Parts, i: nat)
    requires i < 3 && (forall j: nat | j < i :: Segment(odd, j).Some? && Segment(odd, j).value >= 0)
    ensures Below(WithNumber(odd, i, 0), WithNumber(odd, i, 1))
  {
  }

  /** The first place where a heading that is not comparable lacks a number. */
  lemma FirstLack(odd: string) returns (i: nat)
    requires !Comparable(odd)
    ensures i < 3 && Segment(SplitSemver(odd), i).None?
    ensures forall j: nat | j < i :: Segment(SplitSemver(odd), j).Some? && Segment(SplitSemver(odd), j).value >= 0
  {
    var p := SplitSemver(odd);
    SegmentsNatural(odd, 0);
    SegmentsNatural(odd, 1);
    i := if Segment(p, 0).None? then 0 else if Segment(p, 1).None? then 1 else 2;
  }

  /** Every heading that is not comparable hides some disorder, so that AdjacentOrdersAll needs each of
      its headings to be comparable. */
  lemma EveryOddHeadingSeparates(odd: string, date: string) returns (a: Version, b: Version)
    requires !Comparable(odd)
    ensures IsVersion(a) && IsVersion(b) && Below(a, b)
    ensures Check([Entry(Show(a), date), Entry(odd, date), Entry(Show(b), date)]) == Ordered
    ensures !InOrder(Entry(Show(a), date), Entry(Show(b), date))
  {
    var p := SplitSemver(odd);
    var i := FirstLack(odd);
    a, b := WithNumber(p, i, 0), WithNumber(p, i, 1);
    WithNumberShares(p, i, 0);
    WithNumberShares(p, i, 1);
    WithNumberBelow(p, i);
    NotComparableSeparates(a, b, odd, i, date);
  }
}
