/**
 The accounting of permits: what a scope counts against what its tokens hold, over
 every operation, whatever tokens callers name.
 */
module AdmissionPermits {
  import opened Wrappers
  import opened AdmissionModel
  import opened AdmissionPump
  import opened AdmissionSteps
  import opened AdmissionRuns

  // ---- Which permit an operation returns ----

  /** The token an operation settles, if any; the permit of its scope goes back with it. */
  function Settles(s: State, step: Step): Option<nat>
    requires Legal(s, step)
  {
    match step
    case Reserving(_, _) => None
    case Cancelling(_) => None
    case Releasing(t) =>
      var tok := s.tokens[t];
      if tok.released || tok.phase == Queued || !tok.attached || tok.settled then None else Some(t)
    case Settling(t) => if s.tokens[t].released || s.tokens[t].settled then None else Some(t)
    case Rejecting(t, _) => if s.tokens[t].released || s.tokens[t].settled then None else Some(t)
    case Resolving(t) =>
      var tok := s.tokens[t];
      if !tok.uncertain || tok.phase != Uncertain || tok.released || tok.settled then None else Some(t)
    case Returning(t) => if s.tokens[t].settled then None else Some(t)
  }

  /** The state in which an operation gives the permit back: its flag raised, its cooldown opened. */
  function Flagged(c: Config, s: State, step: Step, now: Ms): State
    requires Legal(s, step)
  {
    match step
    case Releasing(t) => SetToken(s, t, s.tokens[t].(released := true))
    case Rejecting(t, hint) => OpenCooldown(c, s, s.tokens[t].scopeKey, hint, now)
    case _ => s
  }

  /** Every operation that settles a token is: flag, give back, pump. */
  lemma SettlesApply(c: Config, s: State, step: Step, now: Ms)
    requires Legal(s, step) && ScopesOk(s) && Settles(s, step).Some?
    ensures var t, s1 := Settles(s, step).value, Flagged(c, s, step, now);
            && t < |s.tokens| && |s1.tokens| == |s.tokens| && s1.tokens[t].scopeKey in s1.scopes
            && s1.order == s.order
            && Apply(c, s, step, now) == Pump(c, Returned(s1, t), s.order, now)
  {
  }

  lemma FlaggedOk(c: Config, s: State, step: Step, now: Ms)
    requires Legal(s, step) && ScopesOk(s) && Settles(s, step).Some?
    ensures var s1 := Flagged(c, s, step, now);
            && ScopesOk(s1) && Prepared(s, s1)
            && forall u: nat | u < |s.tokens| :: s1.tokens[u].settled == s.tokens[u].settled
  {
    PreparedRefl(s);
    match step
    case Releasing(t) => FlagReleased(s, t);
    case Rejecting(t, hint) => CooldownOpened(c, s, s.tokens[t].scopeKey, hint, now);
    case _ =>
  }

  /** What the pump of a settling operation starts from. */
  lemma SettlingPump(c: Config, s: State, clock: Ms, step: Step, now: Ms) returns (s2: State)
    requires ValidConfig(c) && Inv(s, clock) && Legal(s, step) && Settles(s, step).Some?
    ensures var t := Settles(s, step).value; var s1 := Flagged(c, s, step, now);
            && t < |s.tokens| && |s1.tokens| == |s.tokens| && s1.tokens[t].scopeKey in s1.scopes
            && s2 == Returned(s1, t) && ScopesOk(s2) && Prepared(s1, s2)
            && Apply(c, s, step, now) == Pump(c, s2, s.order, now)
    ensures PumpedAll(c, s2, Apply(c, s, step, now), now) && ScopesOk(Apply(c, s, step, now))
  {
    SettlesApply(c, s, step, now);
    FlaggedOk(c, s, step, now);
    s2 := Returned(Flagged(c, s, step, now), Settles(s, step).value);
    PermitBack(Flagged(c, s, step, now), Settles(s, step).value);
    PumpEffect(c, s2, s.order, now);
  }

  // ---- Tokens ----

  /** How one operation may change a token that is there before it. */
  predicate TokenStep(a: Token, b: Token, settles: bool, cancels: bool) {
    && b.settled == (a.settled || settles)
    && b.scopeKey == a.scopeKey && b.unowned == a.unowned && (a.released ==> b.released)
    && (if a.phase == Queued then b.phase != Uncertain && (b.phase == Cancelled ==> cancels) else b.phase == a.phase)
  }

  /** The waiting token an operation cancels, if any. */
  function Cancels(s: State, step: Step): Option<nat>
    requires Legal(s, step)
  {
    if (step.Cancelling? || step.Releasing?) && s.tokens[step.token].phase == Queued then Some(step.token) else None
  }

  ghost predicate TokensStep(s: State, s': State, settles: Option<nat>, cancels: Option<nat>) {
    && |s.tokens| <= |s'.tokens|
    && forall u: nat | u < |s.tokens| :: TokenStep(s.tokens[u], s'.tokens[u], settles == Some(u), cancels == Some(u))
  }

  lemma PumpTokens(c: Config, a: State, b: State, now: Ms)
    requires PumpedAll(c, a, b, now)
    ensures TokensStep(a, b, None, None) && |b.tokens| == |a.tokens|
  {
    forall u: nat | u < |a.tokens| ensures TokenStep(a.tokens[u], b.tokens[u], false, false) {
      assert SameIdentity(a.tokens[u], b.tokens[u]);
    }
  }

  lemma ReturnedTokens(c: Config, s: State, step: Step, now: Ms)
    requires Legal(s, step) && ScopesOk(s) && Settles(s, step).Some?
    requires var t, s1 := Settles(s, step).value, Flagged(c, s, step, now);
             t < |s1.tokens| && s1.tokens[t].scopeKey in s1.scopes
    ensures var s2 := Returned(Flagged(c, s, step, now), Settles(s, step).value);
            |s2.tokens| == |s.tokens| && TokensStep(s, s2, Settles(s, step), None)
  {
  }

  lemma TokensStepTrans(a: State, b: State, d: State, settles: Option<nat>)
    requires TokensStep(a, b, settles, None) && TokensStep(b, d, None, None)
    ensures TokensStep(a, d, settles, None)
  {
    forall u: nat | u < |a.tokens| ensures TokenStep(a.tokens[u], d.tokens[u], settles == Some(u), false) {
      assert TokenStep(a.tokens[u], b.tokens[u], settles == Some(u), false);
      assert TokenStep(b.tokens[u], d.tokens[u], false, false);
    }
  }

  lemma SettlingTokens(c: Config, s: State, clock: Ms, step: Step, now: Ms)
    requires ValidConfig(c) && Inv(s, clock) && Legal(s, step) && Settles(s, step).Some?
    ensures var s' := Apply(c, s, step, now); |s'.tokens| == |s.tokens| && TokensStep(s, s', Settles(s, step), None)
  {
    var s2 := SettlingPump(c, s, clock, step, now);
    ReturnedTokens(c, s, step, now);
    PumpTokens(c, s2, Apply(c, s, step, now), now);
    TokensStepTrans(s, s2, Apply(c, s, step, now), Settles(s, step));
  }

  lemma ServedTokens(c: Config, s: State, clock: Ms, k: Key, now: Ms)
    requires ValidConfig(c) && Inv(s, clock)
    ensures var s2 := Served(c, s, k, now); |s2.tokens| == |s.tokens| && TokensStep(s, s2, None, None)
  {
    var s1 := EnsureScope(s, k);
    EnsureKeepsInv(s, k, clock);
    PumpEffect(c, s1, s1.order, now);
    PumpTokens(c, s1, Pump(c, s1, s1.order, now), now);
  }

  lemma ReservingTokens(c: Config, s: State, clock: Ms, k: Key, p: Priority, now: Ms)
    requires ValidConfig(c) && Inv(s, clock)
    ensures var s' := Reserve(c, s, k, p, now).0;
            && TokensStep(s, s', None, None)
            && (forall u: nat | |s.tokens| <= u < |s'.tokens| ::
                 !s'.tokens[u].settled && s'.tokens[u].phase != Uncertain)
  {
    ServedTokens(c, s, clock, k, now);
    var s2, s' := Served(c, s, k, now), Reserve(c, s, k, p, now).0;
    assert s'.tokens == s2.tokens || (|s'.tokens| == |s2.tokens| + 1 && s'.tokens[..|s2.tokens|] == s2.tokens);
    forall u: nat | u < |s.tokens| ensures TokenStep(s.tokens[u], s'.tokens[u], false, false) {
      assert s'.tokens[u] == s2.tokens[u];
    }
  }

  lemma StillTokens(c: Config, s: State, step: Step, now: Ms)
    requires Legal(s, step) && !step.Reserving? && Settles(s, step).None?
    ensures var s' := Apply(c, s, step, now); |s'.tokens| == |s.tokens| && TokensStep(s, s', None, Cancels(s, step))
  {
  }

  /** What one operation does to tokens: it settles the one it names, admits or cancels waiting ones,
      and adds fresh ones. */
  lemma StepTokens(c: Config, s: State, clock: Ms, step: Step, now: Ms)
    requires ValidConfig(c) && Inv(s, clock) && Legal(s, step)
    ensures var s' := Apply(c, s, step, now);
            && TokensStep(s, s', Settles(s, step), Cancels(s, step))
            && (forall u: nat | |s.tokens| <= u < |s'.tokens| ::
                 !s'.tokens[u].settled && s'.tokens[u].phase != Uncertain)
  {
    if step.Reserving? {
      ReservingTokens(c, s, clock, step.key, step.priority, now);
    } else if Settles(s, step).Some? {
      SettlingTokens(c, s, clock, step, now);
    } else {
      StillTokens(c, s, step, now);
    }
  }

  // ---- The account ----

  /** A permit given back to a scope that counts none. */
  predicate Clips(s: State, step: Step, k: Key)
    requires Legal(s, step)
  {
    var t := Settles(s, step);
    t.Some? && t.value < |s.tokens| && s.tokens[t.value].scopeKey == k && ScopeAt(s, k).concurrent == 0
  }

  lemma SameAccount(a: State, b: State, k: Key)
    requires |a.tokens| == |b.tokens| && ScopeAt(a, k).concurrent == ScopeAt(b, k).concurrent
    requires forall u: nat | u < |a.tokens| ::
               && b.tokens[u].scopeKey == a.tokens[u].scopeKey && b.tokens[u].settled == a.tokens[u].settled
               && b.tokens[u].phase == a.tokens[u].phase
    ensures Account(ScopeAt(a, k), a.tokens, k) == Account(ScopeAt(b, k), b.tokens, k)
  {
    assert Holders(a.tokens, k) == Holders(b.tokens, k) && Prepayers(a.tokens, k) == Prepayers(b.tokens, k);
  }

  lemma ReturnedAccount(c: Config, s: State, step: Step, now: Ms, k: Key)
    requires Legal(s, step) && ScopesOk(s) && Settles(s, step).Some? && k in s.scopes
    requires var t, s1 := Settles(s, step).value, Flagged(c, s, step, now);
             t < |s1.tokens| && s1.tokens[t].scopeKey in s1.scopes
    ensures var s2 := Returned(Flagged(c, s, step, now), Settles(s, step).value);
            k in s2.scopes
            && Account(s2.scopes[k], s2.tokens, k)
                 == Account(s.scopes[k], s.tokens, k) + (if Clips(s, step, k) then 1 else 0)
  {
    var s1 := Flagged(c, s, step, now);
    FlaggedOk(c, s, step, now);
    SameAccount(s, s1, k);
    PermitBackAccount(s1, Settles(s, step).value, k);
  }

  lemma SettlingAccount(c: Config, s: State, clock: Ms, step: Step, now: Ms, k: Key)
    requires ValidConfig(c) && Inv(s, clock) && Legal(s, step) && Settles(s, step).Some? && k in s.scopes
    ensures var s' := Apply(c, s, step, now);
            Account(ScopeAt(s', k), s'.tokens, k)
            == Account(s.scopes[k], s.tokens, k) + (if Clips(s, step, k) then 1 else 0)
  {
    var s' := Apply(c, s, step, now);
    var s2 := SettlingPump(c, s, clock, step, now);
    ReturnedAccount(c, s, step, now, k);
    assert Pumped(c, k, s2.scopes[k], s2.tokens, s'.scopes[k], s'.tokens, now);
  }

  lemma StillAccount(c: Config, s: State, clock: Ms, step: Step, now: Ms, k: Key)
    requires Inv(s, clock) && Legal(s, step) && !step.Reserving? && Settles(s, step).None? && k in s.scopes
    ensures var s' := Apply(c, s, step, now);
            Account(ScopeAt(s', k), s'.tokens, k) == Account(s.scopes[k], s.tokens, k)
  {
    var s' := Apply(c, s, step, now);
    match step
    case Cancelling(t) => CancelAccount(s, t, k);
    case Releasing(t) =>
      if s.tokens[t].phase == Queued && !s.tokens[t].released {
        ReleaseOfQueued(s, t);
        CancelAccount(s, t, k);
        SameAccount(Cancel(s, t), s', k);
      } else {
        SameAccount(s, s', k);
      }
    case _ => SameAccount(s, s', k);
  }

  /** The law of permits: what a scope counts, less the permits its tokens hold, plus the permits
      given back by tokens that never had one, changes only when a permit is given back at a count of
      zero. */
  lemma AccountLaw(c: Config, s: State, clock: Ms, step: Step, now: Ms, k: Key)
    requires ValidConfig(c) && Inv(s, clock) && clock <= now && Legal(s, step)
    ensures var s' := Apply(c, s, step, now);
            Account(ScopeAt(s', k), s'.tokens, k)
            == Account(ScopeAt(s, k), s.tokens, k) + (if Clips(s, step, k) then 1 else 0)
  {
    if step.Reserving? {
      ReserveKeeps(c, s, clock, step.key, step.priority, now, k);
    } else if k !in s.scopes {
      StepKeeps(c, s, clock, step, now, k);
      ScopesAreOpenedByReservations(c, s, clock, step, now);
      var s' := Apply(c, s, step, now);
      assert Holders(s'.tokens, k) == {} == Holders(s.tokens, k);
      assert Prepayers(s'.tokens, k) == {} == Prepayers(s.tokens, k);
    } else if Settles(s, step).Some? {
      SettlingAccount(c, s, clock, step, now, k);
    } else {
      StillAccount(c, s, clock, step, now, k);
    }
  }

  // ---- The debt ----

  /** The operation gives back a permit of scope `k` its token was never given. */
  predicate ReturnsUnheld(s: State, step: Step, k: Key)
    requires Legal(s, step)
  {
    var t := Settles(s, step);
    t.Some? && t.value < |s.tokens| && s.tokens[t.value].scopeKey == k && !GivenPermit(s.tokens, k, t.value)
  }

  /** ... and takes it from somebody: the scope counts one. */
  predicate LosesPermit(s: State, step: Step, k: Key)
    requires Legal(s, step)
  {
    ReturnsUnheld(s, step, k) && ScopeAt(s, k).concurrent > 0
  }

  /** Who gets a permit of the scope that it cannot give back any more. */
  ghost function Leaks(s: State, s': State, k: Key): set<nat> {
    set u: nat | u < |s'.tokens| && Gains(s, s', k, u) && s'.tokens[u].settled
  }

  lemma PrepayersStep(c: Config, s: State, clock: Ms, step: Step, now: Ms, k: Key)
    requires ValidConfig(c) && Inv(s, clock) && Legal(s, step)
    ensures var s' := Apply(c, s, step, now);
            && Leaks(s, s', k) !! Prepayers(s'.tokens, k)
            && Leaks(s, s', k) + Prepayers(s'.tokens, k)
               == Prepayers(s.tokens, k) + (if ReturnsUnheld(s, step, k) then {Settles(s, step).value} else {})
  {
    StepTokens(c, s, clock, step, now);
    var s' := Apply(c, s, step, now);
  }

  lemma PrepayersLaw(c: Config, s: State, clock: Ms, step: Step, now: Ms, k: Key)
    requires ValidConfig(c) && Inv(s, clock) && Legal(s, step)
    ensures var s' := Apply(c, s, step, now);
            |Leaks(s, s', k)| + |Prepayers(s'.tokens, k)|
            == |Prepayers(s.tokens, k)| + (if ReturnsUnheld(s, step, k) then 1 else 0)
  {
    PrepayersStep(c, s, clock, step, now, k);
    var s' := Apply(c, s, step, now);
    assert |Leaks(s, s', k) + Prepayers(s'.tokens, k)| == |Leaks(s, s', k)| + |Prepayers(s'.tokens, k)|;
    if ReturnsUnheld(s, step, k) { assert Settles(s, step).value !in Prepayers(s.tokens, k); }
  }

  lemma HoldersNonEmpty(toks: seq<Token>, k: Key, t: nat)
    requires Holds(toks, k, t)
    ensures |Holders(toks, k)| >= 1
  {
    assert t in Holders(toks, k);
  }

  /** The exact law of the debt: an operation changes what a scope counts beyond its holders only by
      taking a permit nobody gave it, and by granting one to a token that has already settled. */
  lemma DebtLaw(c: Config, s: State, clock: Ms, step: Step, now: Ms, k: Key)
    requires ValidConfig(c) && Inv(s, clock) && clock <= now && Legal(s, step)
    requires Debt(ScopeAt(s, k), s.tokens, k) >= 0
    ensures var s' := Apply(c, s, step, now);
            Debt(ScopeAt(s', k), s'.tokens, k)
            == Debt(ScopeAt(s, k), s.tokens, k) - (if LosesPermit(s, step, k) then 1 else 0) + |Leaks(s, s', k)|
  {
    AccountLaw(c, s, clock, step, now, k);
    PrepayersLaw(c, s, clock, step, now, k);
    if Clips(s, step, k) && !ReturnsUnheld(s, step, k) {
      HoldersNonEmpty(s.tokens, k, Settles(s, step).value);
    }
  }

  // ---- Orderly operations ----

  /** No token still waiting has given a permit back. */
  predicate WaitersClean(s: State) {
    forall t: nat | t < |s.tokens| && s.tokens[t].phase == Queued :: !s.tokens[t].settled
  }

  /** releaseToken called for a token that still waits. */
  predicate ReturnsWaiter(s: State, step: Step) {
    step.Returning? && step.token < |s.tokens| && s.tokens[step.token].phase == Queued
  }

  lemma WaitersStayClean(c: Config, s: State, clock: Ms, step: Step, now: Ms, k: Key)
    requires ValidConfig(c) && Inv(s, clock) && Legal(s, step) && WaitersClean(s) && !ReturnsWaiter(s, step)
    ensures var s' := Apply(c, s, step, now); WaitersClean(s') && Leaks(s, s', k) == {}
  {
    StepTokens(c, s, clock, step, now);
    var s' := Apply(c, s, step, now);
  }

  /** The in-flight mark names a token that holds its permit. */
  predicate MarkHeld(s: State, k: Key) {
    ScopeAt(s, k).inFlight.Some? ==> Holds(s.tokens, k, ScopeAt(s, k).inFlight.value)
  }

  lemma MarkTidy(s: State, k: Key)
    requires ScopesOk(s) && k in s.scopes && WaitersClean(s)
    ensures MarkHeld(s, k) <==> Tidy(s.scopes[k], s.tokens)
  {
    assert ScopeOk(k, s.scopes[k], s.tokens);
  }

  lemma FlaggedTidy(c: Config, s: State, step: Step, now: Ms, k: Key)
    requires Legal(s, step) && ScopesOk(s) && k in s.scopes && Settles(s, step).Some?
    requires WaitersClean(s) && MarkHeld(s, k)
    ensures var s1 := Flagged(c, s, step, now); k in s1.scopes && WaitersClean(s1) && MarkHeld(s1, k)
  {
  }

  lemma ReturnedTidy(s: State, t: nat, k: Key)
    requires ScopesOk(s) && k in s.scopes && WaitersClean(s) && MarkHeld(s, k)
    requires t < |s.tokens| && s.tokens[t].phase != Queued
    ensures Tidy(Returned(s, t).scopes[k], Returned(s, t).tokens)
  {
    assert ScopeOk(k, s.scopes[k], s.tokens);
  }

  lemma SettlingMark(c: Config, s: State, clock: Ms, step: Step, now: Ms, k: Key)
    requires ValidConfig(c) && Inv(s, clock) && Legal(s, step) && Settles(s, step).Some? && k in s.scopes
    requires WaitersClean(s) && !ReturnsWaiter(s, step) && MarkHeld(s, k)
    ensures k in Apply(c, s, step, now).scopes && MarkHeld(Apply(c, s, step, now), k)
  {
    var s2 := SettlingPump(c, s, clock, step, now);
    var s' := Apply(c, s, step, now);
    FlaggedOk(c, s, step, now);
    FlaggedTidy(c, s, step, now, k);
    ReturnedTidy(Flagged(c, s, step, now), Settles(s, step).value, k);
    assert Pumped(c, k, s2.scopes[k], s2.tokens, s'.scopes[k], s'.tokens, now);
    WaitersStayClean(c, s, clock, step, now, k);
    MarkTidy(s', k);
  }

  lemma ReservingMark(c: Config, s: State, clock: Ms, k0: Key, p: Priority, now: Ms, k: Key)
    requires ValidConfig(c) && Inv(s, clock) && clock <= now && WaitersClean(s) && MarkHeld(s, k)
    ensures MarkHeld(Reserve(c, s, k0, p, now).0, k)
  {
    if k in s.scopes { MarkTidy(s, k); }
    ServedKeeps(c, s, clock, k0, now, k);
    var s2, s' := Served(c, s, k0, now), Reserve(c, s, k0, p, now).0;
    ArrivalTidy(s2, k0, p, now, k);
    WaitersStayClean(c, s, clock, Reserving(k0, p), now, k);
    ReserveKeeps(c, s, clock, k0, p, now, k);
    if k in s'.scopes { MarkTidy(s', k); }
  }

  lemma MarkStaysHeld(c: Config, s: State, clock: Ms, step: Step, now: Ms, k: Key)
    requires ValidConfig(c) && Inv(s, clock) && clock <= now && Legal(s, step)
    requires WaitersClean(s) && !ReturnsWaiter(s, step) && MarkHeld(s, k)
    ensures MarkHeld(Apply(c, s, step, now), k)
  {
    if step.Reserving? {
      ReservingMark(c, s, clock, step.key, step.priority, now, k);
    } else if k !in s.scopes {
      ScopesAreOpenedByReservations(c, s, clock, step, now);
    } else if Settles(s, step).Some? {
      SettlingMark(c, s, clock, step, now, k);
    } else {
      StepTokens(c, s, clock, step, now);
    }
  }

  // ---- Operations on tokens callers were given ----

  /** The public interface hands a token out once it is admitted; the only other token an operation can
      be called for is the uncertain one of a restart. */
  predicate Given(s: State, step: Step) {
    step.Reserving? ||
    (step.token < |s.tokens| && (s.tokens[step.token].phase == Admitted || s.tokens[step.token].phase == Uncertain))
  }

  lemma GivenIsOrderly(s: State, step: Step, k: Key)
    requires Legal(s, step) && Given(s, step)
    ensures !ReturnsUnheld(s, step, k) && !LosesPermit(s, step, k) && !ReturnsWaiter(s, step)
  {
  }
}
