/**
 Which texts the version gate takes for versions, and what it reads in them.
 */
module VersionSyntax {
  import opened Wrappers
  import opened JavaScriptText
  import opened VersionClaims
  import VersionOrder

  /** Three numbers, and behind a dash letters, digits, dots and dashes. */
  ghost predicate IsSemver(v: string, a: string, b: string, c: string, tail: Option<string>) {
    && v == a + "." + b + "." + c + (if tail.None? then "" else "-" + tail.value)
    && (forall ch | ch in a + b + c :: '0' <= ch <= '9') && a != "" && b != "" && c != ""
    && (tail.Some? ==>
          tail.value != "" && forall ch | ch in tail.value ::
            '0' <= ch <= '9' || 'A' <= ch <= 'Z' || 'a' <= ch <= 'z' || ch == '.' || ch == '-')
  }

  lemma DigitsOnly(s: string)
    requires s != "" && forall ch | ch in s :: '0' <= ch <= '9'
    ensures AllDigits(s) && '.' !in s && '-' !in s
  {
    forall i | 0 <= i < |s| ensures IsDigit(s[i]) { assert s[i] in s; }
  }

  lemma ThreeJoined(a: string, b: string, c: string)
    ensures Join([a, b, c], '.') == a + "." + b + "." + c
  {
    assert [a, b, c][1..] == [b, c] && [b, c][1..] == [c];
    assert Join([b, c], '.') == b + ['.'] + c;
    assert a + ['.'] + (b + ['.'] + c) == a + "." + b + "." + c;
  }

  lemma CoreSplits(a: string, b: string, c: string)
    requires AllDigits(a) && AllDigits(b) && AllDigits(c) && '.' !in a && '.' !in b && '.' !in c
    ensures Split(a + "." + b + "." + c, '.') == [a, b, c]
  {
    ThreeJoined(a, b, c);
    SplitJoin([a, b, c], '.');
  }

  lemma CutThere(v: string, c: char)
    ensures Behind(v, c).None? ==> Before(v, c) == v && c !in v
    ensures Behind(v, c).Some? ==> v == Before(v, c) + [c] + Behind(v, c).value && c !in Before(v, c)
  {
  }

  lemma {:induction false} SplitsBack(s: string, c: char)
    ensures Join(Split(s, c), c) == s
    decreases |s|
  {
    var i := IndexOf(s, c, 0);
    if i.Some? {
      var rest := s[i.value + 1..];
      SplitsBack(rest, c);
      assert Split(s, c)[1..] == Split(rest, c);
      assert s == s[..i.value] + [c] + rest;
    }
  }

  /** The number a text of digits stands for. */
  function Number(digits: string): nat {
    if forall i | 0 <= i < |digits| :: IsDigit(digits[i]) then Value(digits) else 0
  }

  lemma NumbersSplit(a: string, b: string, c: string)
    requires (forall ch | ch in a + b + c :: '0' <= ch <= '9') && a != "" && b != "" && c != ""
    ensures AllDigits(a) && AllDigits(b) && AllDigits(c)
    ensures var core := a + "." + b + "." + c; Split(core, '.') == [a, b, c] && '-' !in core
  {
    assert (forall ch | ch in a :: ch in a + b + c) && (forall ch | ch in b :: ch in a + b + c)
        && (forall ch | ch in c :: ch in a + b + c);
    DigitsOnly(a);
    DigitsOnly(b);
    DigitsOnly(c);
    CoreSplits(a, b, c);
  }

  lemma ReadPlain(core: string, a: string, b: string, c: string)
    requires AllDigits(a) && AllDigits(b) && AllDigits(c) && Split(core, '.') == [a, b, c] && '-' !in core
    ensures ParseSemver(core) == Some(SemVer(Value(a), Value(b), Value(c), ""))
  {
    VersionOrder.NoCut(core, '-');
  }

  lemma ReadTailed(core: string, a: string, b: string, c: string, tail: string)
    requires AllDigits(a) && AllDigits(b) && AllDigits(c) && Split(core, '.') == [a, b, c] && '-' !in core
    requires IsPrerelease(tail)
    ensures ParseSemver(core + "-" + tail) == Some(SemVer(Value(a), Value(b), Value(c), Before(tail, '-')))
  {
    var v := core + "-" + tail;
    assert v == core + ['-'] + tail;
    VersionOrder.CutAt(v, '-', core, tail);
  }

  /** What is read in a version: its three numbers, and the text behind the first dash up to a second. */
  lemma SemverRead(v: string, a: string, b: string, c: string, tail: Option<string>)
    requires IsSemver(v, a, b, c, tail)
    ensures Parses(v)
    ensures var x := ParseSemver(v).value;
            && x.major == Number(a) && x.minor == Number(b) && x.patch == Number(c)
            && (tail.None? ==> x.rest == "")
            && (tail.Some? ==>
                  '-' !in x.rest && x.rest <= tail.value && (x.rest < tail.value ==> tail.value[|x.rest|] == '-'))
  {
    var core := a + "." + b + "." + c;
    NumbersSplit(a, b, c);
    if tail.Some? {
      assert IsPrerelease(tail.value);
      CutThere(tail.value, '-');
      ReadTailed(core, a, b, c, tail.value);
      assert v == core + "-" + tail.value;
    } else {
      ReadPlain(core, a, b, c);
      assert v == core;
    }
  }

  /** A text is taken for a version exactly when it is one of that form. */
  lemma ParsesExactly(v: string)
    ensures Parses(v) <==> exists a, b, c, tail :: IsSemver(v, a, b, c, tail)
  {
    if Parses(v) {
      var tail, core := Behind(v, '-'), Split(Before(v, '-'), '.');
      CutThere(v, '-');
      SplitsBack(Before(v, '-'), '.');
      var a, b, c := core[0], core[1], core[2];
      assert core == [a, b, c];
      ThreeJoined(a, b, c);
      assert v == a + "." + b + "." + c + (if tail.None? then "" else "-" + tail.value);
      assert IsSemver(v, a, b, c, tail);
    }
    if a, b, c, tail :| IsSemver(v, a, b, c, tail) { SemverRead(v, a, b, c, tail); }
  }

  // ---- The order ----

  /** `s` comes before `t`: it is its beginning, or has the smaller character where they first differ. */
  ghost predicate EarlierText(s: string, t: string) {
    exists i: nat :: EarlierAt(s, t, i)
  }

  predicate FirstDifference(s: string, t: string, i: nat) {
    i <= |s| && i <= |t| && s[..i] == t[..i] && s != t && (i < |s| && i < |t| ==> s[i] != t[i])
  }

  predicate EarlierAt(s: string, t: string, i: nat) {
    FirstDifference(s, t, i) && (i == |s| || (i < |t| && s[i] < t[i]))
  }

  /** A common first character shifts the difference. */
  lemma DifferenceShifts(s: string, t: string, i: nat)
    requires s != "" && t != "" && s[0] == t[0]
    ensures EarlierAt(s, t, i + 1) <==> EarlierAt(s[1..], t[1..], i)
    ensures !EarlierAt(s, t, 0)
  {
    var s', t' := s[1..], t[1..];
    assert s == [s[0]] + s' && t == [t[0]] + t';
    if i <= |s'| && i <= |t'| {
      assert s[..i + 1] == [s[0]] + s'[..i] && t[..i + 1] == [t[0]] + t'[..i];
      assert s'[..i] == s[..i + 1][1..] && t'[..i] == t[..i + 1][1..];
    }
  }

  lemma {:induction false} TextLessExactly(s: string, t: string)
    ensures TextLess(s, t) <==> EarlierText(s, t)
    decreases |s|
  {
    if s == "" || t == "" || s[0] != t[0] {
      assert s[..0] == t[..0];
      if EarlierText(s, t) {
        var i: nat :| EarlierAt(s, t, i);
        assert forall j | 0 <= j < i :: s[..i][j] == s[j] && t[..i][j] == t[j];
      } else {
        assert !EarlierAt(s, t, 0);
      }
    } else {
      TextLessExactly(s[1..], t[1..]);
      DifferenceShifts(s, t, 0);
      if EarlierText(s, t) {
        var i: nat :| EarlierAt(s, t, i);
        DifferenceShifts(s, t, i - 1);
      }
      if EarlierText(s[1..], t[1..]) {
        var i: nat :| EarlierAt(s[1..], t[1..], i);
        DifferenceShifts(s, t, i);
      }
    }
  }

  /** The gate's order: by the three numbers, then a prerelease before the release, then by the texts of
      the prereleases. */
  lemma OrderExactly(a: SemVer, b: SemVer)
    ensures CompareParsed(a, b) < 0
            <==> || a.major < b.major
                 || (a.major == b.major && a.minor < b.minor)
                 || (a.major == b.major && a.minor == b.minor && a.patch < b.patch)
                 || (a.major == b.major && a.minor == b.minor && a.patch == b.patch
                     && a.rest != "" && (b.rest == "" || EarlierText(a.rest, b.rest)))
  {
    TextLessExactly(a.rest, b.rest);
    TextAntisymmetric(a.rest, b.rest);
  }
}
