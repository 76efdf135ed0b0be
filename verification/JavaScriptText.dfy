/**
 The string operations of JavaScript that the scanners and the version scripts
 use, and their laws.
 */
module JavaScriptText {
  import opened Wrappers

  function IndexOf(text: string, c: char, from: nat): (r: Option<nat>)
    requires from <= |text|
    ensures r.Some? ==> from <= r.value < |text| && text[r.value] == c && forall i | from <= i < r.value :: text[i] != c
    ensures r.None? ==> forall i | from <= i < |text| :: text[i] != c
    decreases |text| - from
  {
    if from == |text| then None else if text[from] == c then Some(from) else IndexOf(text, c, from + 1)
  }

  /** What String.prototype.trim removes: ECMAScript white space and line terminators. */
  predicate IsBlank(c: char) {
    '\t' <= c <= '\r' || c == ' ' || c == '\U{A0}' || c == '\U{1680}' || '\U{2000}' <= c <= '\U{200A}'
    || c == '\U{2028}' || c == '\U{2029}' || c == '\U{202F}' || c == '\U{205F}' || c == '\U{3000}' || c == '\U{FEFF}'
  }

  function Trim(s: string): string
    decreases |s|
  {
    if s == "" then ""
    else if IsBlank(s[0]) then Trim(s[1..])
    else if IsBlank(s[|s| - 1]) then Trim(s[..|s| - 1])
    else s
  }

  lemma SliceOfSlice<T>(s: seq<T>, i: nat, j: nat, a: nat, b: nat)
    requires i <= j <= |s| && a <= b <= j - i
    ensures s[i..j][a..b] == s[i + a..i + b]
  {
    var inner, outer := s[i..j][a..b], s[i + a..i + b];
    forall k | 0 <= k < b - a ensures inner[k] == outer[k] {
      assert inner[k] == s[i..j][a + k] == s[i + (a + k)];
    }
  }

  /** The text before the first `c`, or all of it. */
  function Before(s: string, c: char): string {
    var i := IndexOf(s, c, 0);
    if i.None? then s else s[..i.value]
  }

  /** The text behind the first `c`, if there is one. */
  function Behind(s: string, c: char): Option<string> {
    var i := IndexOf(s, c, 0);
    if i.None? then None else Some(s[i.value + 1..])
  }

  function Split(s: string, c: char): (parts: seq<string>)
    ensures parts != []
    decreases |s|
  {
    var i := IndexOf(s, c, 0);
    if i.None? then [s] else [s[..i.value]] + Split(s[i.value + 1..], c)
  }

  function Join(parts: seq<string>, c: char): string
    requires parts != []
  {
    if |parts| == 1 then parts[0] else parts[0] + [c] + Join(parts[1..], c)
  }

  lemma IndexOfIs(s: string, c: char, front: string, rest: string)
    requires s == front + [c] + rest && c !in front
    ensures IndexOf(s, c, 0) == Some(|front|) && s[..|front|] == front && s[|front| + 1..] == rest
  {
    assert s[|front|] == c;
    assert forall i | 0 <= i < |front| :: s[i] == front[i];
    assert IndexOf(s, c, 0).Some?;
  }

  lemma {:induction false} SplitJoin(parts: seq<string>, c: char)
    requires parts != [] && forall p | p in parts :: c !in p
    ensures Split(Join(parts, c), c) == parts
    decreases |parts|
  {
    if |parts| == 1 {
      assert c !in parts[0];
      assert IndexOf(parts[0], c, 0).None?;
    } else {
      assert parts[0] in parts && parts == [parts[0]] + parts[1..];
      IndexOfIs(Join(parts, c), c, parts[0], Join(parts[1..], c));
      SplitJoin(parts[1..], c);
    }
  }

  // ---- Numbers ----

  predicate IsDigit(c: char) {
    '0' <= c <= '9'
  }

  predicate AllDigits(s: string) {
    s != "" && forall i | 0 <= i < |s| :: IsDigit(s[i])
  }

  function DigitValue(c: char): nat
    requires IsDigit(c)
  {
    c as int - '0' as int
  }

  function Value(s: string): nat
    requires forall i | 0 <= i < |s| :: IsDigit(s[i])
    decreases |s|
  {
    if s == "" then 0 else 10 * Value(s[..|s| - 1]) + DigitValue(s[|s| - 1])
  }

  function Decimal(n: nat): string {
    var digit := [(n % 10 + '0' as int) as char];
    if n < 10 then digit else Decimal(n / 10) + digit
  }

  lemma {:induction false} DecimalValue(n: nat)
    ensures AllDigits(Decimal(n)) && Value(Decimal(n)) == n
    decreases n
  {
    var digit := [(n % 10 + '0' as int) as char];
    if n < 10 {
      assert digit[..0] == "";
    } else {
      DecimalValue(n / 10);
      assert Decimal(n)[..|Decimal(n)| - 1] == Decimal(n / 10);
    }
  }

  function DigitsAhead(s: string): (n: nat)
    ensures n <= |s| && (forall i | 0 <= i < n :: IsDigit(s[i])) && (n < |s| ==> !IsDigit(s[n]))
  {
    if s == "" || !IsDigit(s[0]) then 0 else 1 + DigitsAhead(s[1..])
  }

  function TrimLeft(s: string): string {
    if s != "" && IsBlank(s[0]) then TrimLeft(s[1..]) else s
  }

  /** Number.parseInt with radix 10: the number a text begins with; None is NaN. */
  function ParseInt(s: string): Option<int> {
    var t := TrimLeft(s);
    var signed := t != "" && (t[0] == '-' || t[0] == '+');
    var digits := if signed then t[1..] else t;
    var n := DigitsAhead(digits);
    if n == 0 then None
    else
      var value: int := Value(digits[..n]);
      Some(if signed && t[0] == '-' then -value else value)
  }

  lemma DigitsParse(s: string)
    requires AllDigits(s)
    ensures ParseInt(s) == Some(Value(s))
  {
    assert IsDigit(s[0]);
    assert TrimLeft(s) == s;
    var n := DigitsAhead(s);
    assert n == |s|;
    assert s[..n] == s;
  }

  // ---- The order of strings ----

  function CompareText(a: string, b: string): int {
    if a == "" then (if b == "" then 0 else -1)
    else if b == "" then 1
    else if a[0] != b[0] then (if a[0] < b[0] then -1 else 1)
    else CompareText(a[1..], b[1..])
  }

  predicate TextLess(a: string, b: string) {
    CompareText(a, b) < 0
  }

  lemma {:induction false} TextAntisymmetric(a: string, b: string)
    ensures CompareText(a, b) == -CompareText(b, a) && (CompareText(a, b) == 0 <==> a == b)
    decreases |a|
  {
    if a != "" && b != "" && a[0] == b[0] {
      TextAntisymmetric(a[1..], b[1..]);
      assert a == [a[0]] + a[1..] && b == [b[0]] + b[1..];
    }
  }

  lemma {:induction false} TextTransitive(a: string, b: string, c: string)
    requires CompareText(a, b) <= 0 && CompareText(b, c) <= 0
    ensures CompareText(a, c) <= 0 && (CompareText(a, c) == 0 ==> CompareText(a, b) == 0 && CompareText(b, c) == 0)
    decreases |a|
  {
    if a != "" && b != "" && c != "" && a[0] == b[0] == c[0] { TextTransitive(a[1..], b[1..], c[1..]); }
  }
}
