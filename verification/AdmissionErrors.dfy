/**
 The two admission failures as message texts, and recovering them from a text
 (src/provider-admission.ts): the round trip, and exactly which texts are recovered.
 */
module AdmissionErrors {
  import opened Wrappers
  import opened JavaScriptText

  datatype Failure = QueueSaturated(scope: string, position: nat) | Cancelled(scope: string)

  const QUEUE := "admission queue for scope \""
  const SCOPE := "admission for scope \""
  const FULL := "\" is full ("
  const WAITING := [' '] + "waiting); retry later or raise queueCapacityPerScope"
  const CANCELLED := "\" was cancelled"

  function SaturatedText(scope: string, digits: string): string {
    QUEUE + scope + FULL + digits + WAITING
  }

  function CancelledText(scope: string): string {
    SCOPE + scope + CANCELLED
  }

  function Message(f: Failure): string {
    match f
    case QueueSaturated(scope, position) => SaturatedText(scope, Decimal(position))
    case Cancelled(scope) => CancelledText(scope)
  }

  predicate IsLabelChar(c: char) {
    IsDigit(c) || 'A' <= c <= 'Z' || 'a' <= c <= 'z' || c == '_' || c == '.' || c == '-'
  }

  /** What a caller may name a scope. */
  predicate IsLabel(scope: string) {
    1 <= |scope| <= 64 && forall c | c in scope :: IsLabelChar(c)
  }

  /** What the patterns take for a label. */
  predicate IsQuotable(scope: string) {
    scope != "" && '"' !in scope
  }

  // ---- The two patterns ----

  function Strip(prefix: string, s: string): Option<string> {
    if prefix <= s then Some(s[|prefix|..]) else None
  }

  /** The text up to the first quotation mark, and the rest from there on; neither pattern takes an empty label. */
  function Label(s: string): Option<(string, string)> {
    var scope := Before(s, '"');
    if scope == "" || scope == s then None else Some((scope, s[|scope|..]))
  }

  /** A number, with the rest of the message behind it. */
  function Count(s: string): Option<string> {
    var n := DigitsAhead(s);
    if n > 0 && s[n..] == WAITING then Some(s[..n]) else None
  }

  function MatchSaturated(message: string): Option<(string, string)> {
    var behind := Strip(QUEUE, message);
    if behind.None? then None
    else
      var scope := Label(behind.value);
      if scope.None? then None
      else
        var full := Strip(FULL, scope.value.1);
        if full.None? then None
        else
          var digits := Count(full.value);
          if digits.None? then None else Some((scope.value.0, digits.value))
  }

  function MatchCancelled(message: string): Option<string> {
    var behind := Strip(SCOPE, message);
    if behind.None? then None
    else
      var scope := Label(behind.value);
      if scope.Some? && scope.value.1 == CANCELLED then Some(scope.value.0) else None
  }

  predicate Pinned(pin: Option<string>, scope: string) {
    pin.None? || pin.value == scope
  }

  lemma CountDigits(s: string)
    requires Count(s).Some?
    ensures AllDigits(Count(s).value) && s == Count(s).value + WAITING
  {
    var n := DigitsAhead(s);
    assert s == s[..n] + s[n..];
  }

  lemma Reassociate(scope: string, digits: string)
    ensures SaturatedText(scope, digits) == QUEUE + (scope + (FULL + (digits + WAITING)))
  {
  }

  lemma SaturatedMatches(message: string)
    requires MatchSaturated(message).Some?
    ensures var (scope, digits) := MatchSaturated(message).value;
            IsQuotable(scope) && AllDigits(digits) && message == SaturatedText(scope, digits)
  {
    var s := Strip(QUEUE, message).value;
    var l := Label(s).value;
    var rest := Strip(FULL, l.1).value;
    CountDigits(rest);
    assert message == QUEUE + s;
    assert s == l.0 + l.1;
    assert l.1 == FULL + rest;
    Reassociate(l.0, Count(rest).value);
  }

  lemma CancelledMatches(message: string)
    requires MatchCancelled(message).Some?
    ensures IsQuotable(MatchCancelled(message).value) && message == CancelledText(MatchCancelled(message).value)
  {
    var s := Strip(SCOPE, message).value;
    assert message == SCOPE + s;
    assert s == Label(s).value.0 + Label(s).value.1;
  }

  /** Recovering a failure from the message of an error, if it has a text for one; `pin` is the label
      the caller wrapped with. */
  function Recover(message: Option<string>, pin: Option<string>): Option<Failure> {
    if message.None? then None
    else
      var saturated := MatchSaturated(message.value);
      if saturated.Some? then
        SaturatedMatches(message.value);
        var (scope, digits) := saturated.value;
        if Pinned(pin, scope) then Some(QueueSaturated(scope, Value(digits))) else None
      else
        var cancelled := MatchCancelled(message.value);
        if cancelled.Some? && Pinned(pin, cancelled.value) then Some(Cancelled(cancelled.value)) else None
  }

  // ---- Every text of the two formats is matched ----

  lemma LabelFound(scope: string, rest: string)
    requires IsQuotable(scope) && rest != "" && rest[0] == '"'
    ensures Label(scope + rest) == Some((scope, rest))
  {
    var s := scope + rest;
    assert s == scope + ['"'] + rest[1..];
    IndexOfIs(s, '"', scope, rest[1..]);
    assert s[|scope|..] == rest;
  }

  lemma StripFound(prefix: string, rest: string)
    ensures Strip(prefix, prefix + rest) == Some(rest)
  {
    assert (prefix + rest)[|prefix|..] == rest;
  }

  lemma CountFound(digits: string)
    requires AllDigits(digits)
    ensures Count(digits + WAITING) == Some(digits)
  {
    var s := digits + WAITING;
    var n := DigitsAhead(s);
    assert WAITING[0] == ' ' && s[|digits|] == WAITING[0];
    assert forall i | 0 <= i < |digits| :: IsDigit(s[i]);
    assert n == |digits|;
    assert s[..n] == digits && s[n..] == WAITING;
  }

  lemma SaturatedFound(scope: string, digits: string)
    requires IsQuotable(scope) && AllDigits(digits)
    ensures MatchSaturated(SaturatedText(scope, digits)) == Some((scope, digits))
  {
    var tail := digits + WAITING;
    Reassociate(scope, digits);
    StripFound(QUEUE, scope + (FULL + tail));
    LabelFound(scope, FULL + tail);
    StripFound(FULL, tail);
    CountFound(digits);
  }

  lemma CancelledFound(scope: string)
    requires IsQuotable(scope)
    ensures MatchCancelled(CancelledText(scope)) == Some(scope)
  {
    assert CancelledText(scope) == SCOPE + (scope + CANCELLED);
    StripFound(SCOPE, scope + CANCELLED);
    LabelFound(scope, CANCELLED);
  }

  /** No text is of both formats, whatever the labels and counts. */
  lemma FormatsNeverOverlap(scope: string, digits: string, other: string)
    ensures SaturatedText(scope, digits) != CancelledText(other)
    ensures MatchSaturated(CancelledText(other)).None? && MatchCancelled(SaturatedText(scope, digits)).None?
  {
    var s, t := SaturatedText(scope, digits), CancelledText(other);
    assert QUEUE[10] == 'q' && SCOPE[10] == 'f';
    assert s[10] == QUEUE[10] && t[10] == SCOPE[10];
  }

  /** A label the source accepts is such a label: not empty, and without a quotation mark. */
  lemma LabelsAreQuotable(scope: string)
    requires IsLabel(scope)
    ensures scope != "" && '"' !in scope
  {
    assert !IsLabelChar('"');
  }

  /** For every label a scope may have, and any other without a quotation mark, and every count, the
      message gives back the failure, and gives nothing to a caller that wrapped with another scope. */
  lemma MessageRoundTrip(f: Failure, pin: Option<string>)
    requires f.scope != "" && '"' !in f.scope
    ensures Recover(Some(Message(f)), pin) == if pin == None || pin == Some(f.scope) then Some(f) else None
  {
    match f
    case QueueSaturated(scope, position) =>
      DecimalValue(position);
      SaturatedFound(scope, Decimal(position));
    case Cancelled(scope) =>
      CancelledFound(scope);
      FormatsNeverOverlap(scope, "", scope);
  }

  /** A text of one of the two formats, with a label between its quotation marks. */
  ghost predicate Says(message: string, f: Failure) {
    && f.scope != "" && '"' !in f.scope
    && match f
       case QueueSaturated(scope, position) =>
         exists digits :: AllDigits(digits) && Value(digits) == position && message == SaturatedText(scope, digits)
       case Cancelled(scope) => message == CancelledText(scope)
  }

  /** A text is recovered exactly when it is of one of the two formats and names the caller's label;
      a count may have leading zeros. */
  lemma RecoveredExactly(message: string, pin: Option<string>, f: Failure)
    ensures Recover(Some(message), pin) == Some(f) <==> Says(message, f) && (pin == None || pin == Some(f.scope))
    ensures Recover(None, pin) == None
  {
    if Recover(Some(message), pin) == Some(f) {
      if MatchSaturated(message).Some? { SaturatedMatches(message); } else { CancelledMatches(message); }
    }
    if Says(message, f) && Pinned(pin, f.scope) {
      match f
      case QueueSaturated(scope, position) =>
        var digits :| AllDigits(digits) && Value(digits) == position && message == SaturatedText(scope, digits);
        SaturatedFound(scope, digits);
      case Cancelled(scope) =>
        CancelledFound(scope);
        FormatsNeverOverlap(scope, "", scope);
    }
  }

  /** Messages tell failures apart. */
  lemma MessagesAreDistinct(f: Failure, g: Failure)
    requires f.scope != "" && '"' !in f.scope && g.scope != "" && '"' !in g.scope && Message(f) == Message(g)
    ensures f == g
  {
    MessageRoundTrip(f, None);
    MessageRoundTrip(g, None);
  }
}
