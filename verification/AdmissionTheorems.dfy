/**
 The promises of the admission controller over every run of it.
 */
module AdmissionTheorems {
  import opened Wrappers
  import opened AdmissionModel
  import opened AdmissionPump
  import opened AdmissionSteps
  import opened AdmissionRuns
  import opened AdmissionPermits

  /** A run: the clock never goes back, and every step is open to its caller. */
  predicate LegalRun(c: Config, s: State, clock: Ms, run: seq<Timed>)
    decreases |run|
  {
    run == [] ||
    (clock <= run[0].now && Legal(s, run[0].step) &&
     LegalRun(c, Apply(c, s, run[0].step, run[0].now), run[0].now, run[1..]))
  }

  function Exec(c: Config, s: State, clock: Ms, run: seq<Timed>): State
    requires LegalRun(c, s, clock, run)
    decreases |run|
  {
    if run == [] then s
    else Exec(c, Apply(c, s, run[0].step, run[0].now), run[0].now, run[1..])
  }

  function EndOf(clock: Ms, run: seq<Timed>): Ms {
    if run == [] then clock else run[|run| - 1].now
  }

  lemma StepInv(c: Config, s: State, clock: Ms, step: Step, now: Ms)
    requires ValidConfig(c) && Inv(s, clock) && clock <= now && Legal(s, step)
    ensures Inv(Apply(c, s, step, now), now)
  {
    StepKeeps(c, s, clock, step, now, "");
  }

  lemma EndOfTail(clock: Ms, run: seq<Timed>)
    requires run != []
    ensures EndOf(clock, run) == EndOf(run[0].now, run[1..])
  {
  }

  /** The invariant holds in every state a run reaches. */
  lemma {:induction false} RunKeepsInv(c: Config, s: State, clock: Ms, run: seq<Timed>)
    requires ValidConfig(c) && Inv(s, clock) && LegalRun(c, s, clock, run)
    ensures Inv(Exec(c, s, clock, run), EndOf(clock, run)) && clock <= EndOf(clock, run)
    decreases |run|
  {
    if run != [] {
      StepInv(c, s, clock, run[0].step, run[0].now);
      RunKeepsInv(c, Apply(c, s, run[0].step, run[0].now), run[0].now, run[1..]);
      EndOfTail(clock, run);
    }
  }

  // ---- Permit conservation ----

  /** Every scope counts exactly the permits its tokens hold. */
  ghost predicate Balanced(s: State) {
    forall k :: Debt(ScopeAt(s, k), s.tokens, k) == 0
  }

  ghost predicate AlwaysBalanced(c: Config, s: State, clock: Ms, run: seq<Timed>)
    requires LegalRun(c, s, clock, run)
    decreases |run|
  {
    Balanced(s) && (run != [] ==> AlwaysBalanced(c, Apply(c, s, run[0].step, run[0].now), run[0].now, run[1..]))
  }

  /** An operation takes as many permits nobody was given as it grants to tokens that have already
      settled; of both there is usually none. */
  ghost predicate Even(c: Config, s: State, step: Step, now: Ms)
    requires Legal(s, step)
  {
    forall k {:trigger LosesPermit(s, step, k)} ::
      |Leaks(s, Apply(c, s, step, now), k)| == if LosesPermit(s, step, k) then 1 else 0
  }

  ghost predicate AlwaysEven(c: Config, s: State, clock: Ms, run: seq<Timed>)
    requires LegalRun(c, s, clock, run)
    decreases |run|
  {
    run == [] ||
    (Even(c, s, run[0].step, run[0].now) && AlwaysEven(c, Apply(c, s, run[0].step, run[0].now), run[0].now, run[1..]))
  }

  lemma EvenKeepsBalance(c: Config, s: State, clock: Ms, step: Step, now: Ms)
    requires ValidConfig(c) && Inv(s, clock) && clock <= now && Legal(s, step) && Balanced(s)
    ensures Balanced(Apply(c, s, step, now)) <==> Even(c, s, step, now)
  {
    var s' := Apply(c, s, step, now);
    forall k
      ensures Debt(ScopeAt(s', k), s'.tokens, k) == |Leaks(s, s', k)| - (if LosesPermit(s, step, k) then 1 else 0)
    {
      DebtLaw(c, s, clock, step, now, k);
    }
    if Balanced(s') {
      forall k ensures |Leaks(s, s', k)| == if LosesPermit(s, step, k) then 1 else 0 {
        assert Debt(ScopeAt(s', k), s'.tokens, k) == 0;
      }
    }
    if Even(c, s, step, now) {
      forall k ensures Debt(ScopeAt(s', k), s'.tokens, k) == 0 {
        assert LosesPermit(s, step, k) || !LosesPermit(s, step, k);
      }
    }
  }

  /** Of any run over any tokens: from a balanced start the count stays exact all along if and only if
      every operation is even. */
  lemma {:induction false} PermitConservation(c: Config, s: State, clock: Ms, run: seq<Timed>)
    requires ValidConfig(c) && Inv(s, clock) && LegalRun(c, s, clock, run) && Balanced(s)
    ensures AlwaysBalanced(c, s, clock, run) <==> AlwaysEven(c, s, clock, run)
    decreases |run|
  {
    if run != [] {
      EvenKeepsBalance(c, s, clock, run[0].step, run[0].now);
      StepInv(c, s, clock, run[0].step, run[0].now);
      if Even(c, s, run[0].step, run[0].now) {
        PermitConservation(c, Apply(c, s, run[0].step, run[0].now), run[0].now, run[1..]);
      } else {
        assert !AlwaysBalanced(c, Apply(c, s, run[0].step, run[0].now), run[0].now, run[1..]);
      }
    }
  }

  /** A permit is taken that nobody was given: the token named is cancelled, or still waits. */
  predicate LosesSome(s: State, step: Step)
    requires Legal(s, step)
  {
    var t := Settles(s, step);
    t.Some? && t.value < |s.tokens| && LosesPermit(s, step, s.tokens[t.value].scopeKey)
  }

  predicate NeverLoses(c: Config, s: State, clock: Ms, run: seq<Timed>)
    requires LegalRun(c, s, clock, run)
    decreases |run|
  {
    run == [] ||
    (!LosesSome(s, run[0].step) && NeverLoses(c, Apply(c, s, run[0].step, run[0].now), run[0].now, run[1..]))
  }

  /** No operation of the run calls releaseToken for a token that still waits. */
  predicate Orderly(c: Config, s: State, clock: Ms, run: seq<Timed>)
    requires LegalRun(c, s, clock, run)
    decreases |run|
  {
    run == [] ||
    (!ReturnsWaiter(s, run[0].step) && Orderly(c, Apply(c, s, run[0].step, run[0].now), run[0].now, run[1..]))
  }

  /** While no waiting token is returned, evenness is decided by the call alone: it does not take a
      permit for a cancelled token while one is out. */
  lemma {:induction false} OrderlyConservation(c: Config, s: State, clock: Ms, run: seq<Timed>)
    requires ValidConfig(c) && Inv(s, clock) && LegalRun(c, s, clock, run)
    requires WaitersClean(s) && Orderly(c, s, clock, run)
    ensures AlwaysEven(c, s, clock, run) <==> NeverLoses(c, s, clock, run)
    decreases |run|
  {
    if run != [] {
      var step, now := run[0].step, run[0].now;
      OrderlyEven(c, s, clock, step, now);
      WaitersStayClean(c, s, clock, step, now, "");
      StepInv(c, s, clock, step, now);
      OrderlyConservation(c, Apply(c, s, step, now), now, run[1..]);
    }
  }

  lemma OrderlyEven(c: Config, s: State, clock: Ms, step: Step, now: Ms)
    requires ValidConfig(c) && Inv(s, clock) && clock <= now && Legal(s, step) && WaitersClean(s)
             && !ReturnsWaiter(s, step)
    ensures Even(c, s, step, now) <==> !LosesSome(s, step)
  {
    forall k ensures Leaks(s, Apply(c, s, step, now), k) == {} { WaitersStayClean(c, s, clock, step, now, k); }
    if LosesSome(s, step) {
      assert LosesPermit(s, step, s.tokens[Settles(s, step).value].scopeKey);
    }
  }

  // ---- Callers of the public interface ----

  /** Every operation names a token its caller was given. */
  predicate GivenRun(c: Config, s: State, clock: Ms, run: seq<Timed>)
    requires LegalRun(c, s, clock, run)
    decreases |run|
  {
    run == [] || (Given(s, run[0].step) && GivenRun(c, Apply(c, s, run[0].step, run[0].now), run[0].now, run[1..]))
  }

  lemma {:induction false} GivenRunsAreOrderly(c: Config, s: State, clock: Ms, run: seq<Timed>)
    requires LegalRun(c, s, clock, run) && GivenRun(c, s, clock, run)
    ensures Orderly(c, s, clock, run) && NeverLoses(c, s, clock, run)
    decreases |run|
  {
    if run != [] {
      var t := Settles(s, run[0].step);
      GivenIsOrderly(s, run[0].step, if t.Some? && t.value < |s.tokens| then s.tokens[t.value].scopeKey else "");
      GivenRunsAreOrderly(c, Apply(c, s, run[0].step, run[0].now), run[0].now, run[1..]);
    }
  }

  /** Permits are conserved, without any condition, while callers use the tokens they were given: in
      every state each scope counts exactly the tokens that hold a permit of it. */
  lemma ConservationForCallers(c: Config, s: State, clock: Ms, run: seq<Timed>)
    requires ValidConfig(c) && Inv(s, clock) && LegalRun(c, s, clock, run) && GivenRun(c, s, clock, run)
    requires Balanced(s) && WaitersClean(s)
    ensures AlwaysBalanced(c, s, clock, run)
  {
    GivenRunsAreOrderly(c, s, clock, run);
    OrderlyConservation(c, s, clock, run);
    PermitConservation(c, s, clock, run);
  }

  lemma FreshStart(clock: Ms)
    ensures Inv(EMPTY_STATE, clock) && Balanced(EMPTY_STATE) && WaitersClean(EMPTY_STATE)
  {
    assert forall k :: Holders([], k) == {};
  }

  /** From a fresh start, in particular, never more tokens hold permits of a scope than the cap allows. */
  lemma FreshCallersStayWithinCap(c: Config, clock: Ms, run: seq<Timed>, k: Key)
    requires ValidConfig(c) && LegalRun(c, EMPTY_STATE, clock, run) && GivenRun(c, EMPTY_STATE, clock, run)
    ensures AlwaysBalanced(c, EMPTY_STATE, clock, run)
    ensures var s := Exec(c, EMPTY_STATE, clock, run);
            ScopeAt(s, k).concurrent == |Holders(s.tokens, k)| <= c.maxConcurrent
  {
    FreshStart(clock);
    ConservationForCallers(c, EMPTY_STATE, clock, run);
    CapNeverExceeded(c, EMPTY_STATE, clock, run, k);
    EndsBalanced(c, EMPTY_STATE, clock, run);
    assert Debt(ScopeAt(Exec(c, EMPTY_STATE, clock, run), k), Exec(c, EMPTY_STATE, clock, run).tokens, k) == 0;
  }

  lemma {:induction false} EndsBalanced(c: Config, s: State, clock: Ms, run: seq<Timed>)
    requires LegalRun(c, s, clock, run) && AlwaysBalanced(c, s, clock, run)
    ensures Balanced(Exec(c, s, clock, run))
    decreases |run|
  {
    if run != [] { EndsBalanced(c, Apply(c, s, run[0].step, run[0].now), run[0].now, run[1..]); }
  }

  /** The cap holds on every run, whatever callers do with their tokens. */
  lemma {:induction false} CapNeverExceeded(c: Config, s: State, clock: Ms, run: seq<Timed>, k: Key)
    requires ValidConfig(c) && Inv(s, clock) && LegalRun(c, s, clock, run)
    requires ScopeAt(s, k).concurrent <= c.maxConcurrent && |ScopeAt(s, k).queue| <= c.queueCapacity
    ensures var s' := Exec(c, s, clock, run);
            ScopeAt(s', k).concurrent <= c.maxConcurrent && |ScopeAt(s', k).queue| <= c.queueCapacity
    decreases |run|
  {
    if run != [] {
      StepKeeps(c, s, clock, run[0].step, run[0].now, k);
      CapNeverExceeded(c, Apply(c, s, run[0].step, run[0].now), run[0].now, run[1..], k);
    }
  }

  // ---- Exactly once ----

  /** The same but for the flag that remembers a release() call on `t`. */
  predicate SameButReleased(a: State, b: State, t: nat) {
    && a.order == b.order && a.scopes == b.scopes && a.restored == b.restored
    && |a.tokens| == |b.tokens|
    && forall u | 0 <= u < |a.tokens| :: b.tokens[u]
         == (if u == t then a.tokens[u].(released := b.tokens[u].released) else a.tokens[u])
  }

  predicate Returns(step: Step, t: nat) {
    step == Releasing(t) || step == Settling(t) || step == Returning(t) || (step.Rejecting? && step.token == t)
  }

  /** A token that has settled, or has left the queue, stays so. */
  lemma {:induction false} SettledForGood(c: Config, s: State, clock: Ms, run: seq<Timed>, t: nat)
    requires ValidConfig(c) && Inv(s, clock) && LegalRun(c, s, clock, run) && t < |s.tokens|
    ensures var s' := Exec(c, s, clock, run);
            && t < |s'.tokens|
            && (s.tokens[t].settled ==> s'.tokens[t].settled)
            && (s.tokens[t].phase != Queued ==> s'.tokens[t].phase == s.tokens[t].phase)
    decreases |run|
  {
    if run != [] {
      var s' := Apply(c, s, run[0].step, run[0].now);
      StepTokens(c, s, clock, run[0].step, run[0].now);
      assert TokenStep(s.tokens[t], s'.tokens[t], Settles(s, run[0].step) == Some(t),
          Cancels(s, run[0].step) == Some(t));
      StepInv(c, s, clock, run[0].step, run[0].now);
      SettledForGood(c, s', run[0].now, run[1..], t);
    }
  }

  /** After the first settle or release of a token, whatever run follows, each further one in it is void:
      no permit moves.  (A further rejection may still move the cooldown.) */
  lemma ReturnedOnce(c: Config, s: State, clock: Ms, run: seq<Timed>, t: nat, step: Step, now: Ms)
    requires ValidConfig(c) && Inv(s, clock) && LegalRun(c, s, clock, run)
    requires t < |s.tokens| && s.tokens[t].phase != Queued && s.tokens[t].settled
    requires step == Releasing(t) || step == Settling(t) || step == Returning(t) || step == Resolving(t)
    requires Legal(Exec(c, s, clock, run), step)
    ensures var s' := Exec(c, s, clock, run);
            t < |s'.tokens| && s'.tokens[t].settled && SameButReleased(s', Apply(c, s', step, now), t)
  {
    SettledForGood(c, s, clock, run, t);
  }

  /** The first one does return it. */
  lemma FirstReturn(c: Config, s: State, clock: Ms, t: nat, step: Step, now: Ms)
    requires ValidConfig(c) && Inv(s, clock) && clock <= now && Legal(s, step) && Returns(step, t)
    requires t < |s.tokens| && s.tokens[t].phase == Admitted && !s.tokens[t].settled && !s.tokens[t].released
    ensures var s' := Apply(c, s, step, now);
            t < |s'.tokens| && s'.tokens[t].settled && s'.tokens[t].phase == Admitted
  {
    match step
    case Settling(_) => ReturnSettles(c, s, t, now);
    case Returning(_) => ReturnSettles(c, s, t, now);
    case Releasing(_) =>
      FlagReleased(s, t);
      ReturnSettles(c, SetToken(s, t, s.tokens[t].(released := true)), t, now);
    case Rejecting(_, hint) =>
      CooldownOpened(c, s, s.tokens[t].scopeKey, hint, now);
      ReturnSettles(c, OpenCooldown(c, s, s.tokens[t].scopeKey, hint, now), t, now);
  }

  lemma ReturnSettles(c: Config, s: State, t: nat, now: Ms)
    requires ValidConfig(c) && ScopesOk(s) && t < |s.tokens| && s.tokens[t].phase == Admitted && !s.tokens[t].settled
    requires forall k | k in s.order :: k in s.scopes
    ensures var s' := ReturnPermit(c, s, t, now);
            t < |s'.tokens| && s'.tokens[t].settled && s'.tokens[t].phase == Admitted
  {
    if s.tokens[t].scopeKey in s.scopes {
      PermitBack(s, t);
      PumpEffect(c, Returned(s, t), s.order, now);
    }
  }

  // ---- Work conservation ----

  /** After a permit came back, no scope leaves an owned waiter behind a free permit. */
  lemma ReturnConservesWork(c: Config, s: State, clock: Ms, t: nat, step: Step, now: Ms, k: Key)
    requires ValidConfig(c) && Inv(s, clock) && clock <= now && Legal(s, step) && Returns(step, t)
    requires t < |s.tokens| && s.tokens[t].phase == Admitted && !s.tokens[t].settled && !s.tokens[t].released
    requires k in s.scopes
    ensures var s' := Apply(c, s, step, now);
            k in s'.scopes && WorkConserving(c, s'.scopes[k], s'.tokens, now)
  {
    PreparedRefl(s);
    var s1 := if step.Rejecting? then OpenCooldown(c, s, s.tokens[t].scopeKey, step.hint, now)
              else if step.Releasing? then SetToken(s, t, s.tokens[t].(released := true)) else s;
    FlagReleased(s, t);
    if step.Rejecting? { CooldownOpened(c, s, s.tokens[t].scopeKey, step.hint, now); }
    PermitBack(s1, t);
    PumpEffect(c, Returned(s1, t), s.order, now);
    assert Apply(c, s, step, now) == Pump(c, Returned(s1, t), s.order, now);
  }

  /** A reservation leaves its own scope without an idle permit, and its direct grant passes nobody. */
  lemma ReserveConservesWork(c: Config, s: State, clock: Ms, k: Key, p: Priority, now: Ms)
    requires ValidConfig(c) && Inv(s, clock) && clock <= now
    ensures var (s', outcome) := Reserve(c, s, k, p, now);
            && k in s'.scopes
            && WorkConserving(c, s'.scopes[k], s'.tokens, now)
            && (outcome.Granted? ==> forall i | 0 <= i < |s'.scopes[k].queue| ::
                 Unowned(s'.tokens, s'.scopes[k].queue[i].token))
            && (outcome.Parked? || outcome.Saturated? ==>
                  s'.scopes[k].concurrent >= c.maxConcurrent
                  || (s'.scopes[k].cooldownUntil.Some? && now < s'.scopes[k].cooldownUntil.value))
            && (outcome.Saturated? ==>
                  |s'.scopes[k].queue| >= c.queueCapacity && outcome.waiting == |s'.scopes[k].queue|)
  {
    ServedKeeps(c, s, clock, k, now, k);
    ReserveKeeps(c, s, clock, k, p, now, k);
  }

  // ---- Cooldown ----

  lemma DelayPositive(c: Config, hint: Option<Ms>)
    requires ValidConfig(c) && (hint.Some? ==> hint.value > 0.0)
    ensures Delay(c, hint) > 0.0
    ensures hint.Some? ==> Delay(c, hint) <= c.cooldownMaxMs && Delay(c, hint) <= hint.value
  {
  }

  /** The limit rejection of an operation of scope `k`. */
  predicate StandsDown(s: State, step: Step, k: Key) {
    step.Rejecting? && step.token < |s.tokens| && s.tokens[step.token].scopeKey == k
  }

  lemma ReturnLeavesCooldown(c: Config, s: State, t: nat, now: Ms, k: Key)
    requires ValidConfig(c) && ScopesOk(s) && t < |s.tokens| && k in s.scopes
    requires forall k' | k' in s.order :: k' in s.scopes
    ensures ScopeAt(ReturnPermit(c, s, t, now), k).cooldownUntil == s.scopes[k].cooldownUntil
  {
    if !s.tokens[t].settled {
      PermitBack(s, t);
      var s1 := Returned(s, t);
      PumpEffect(c, s1, s.order, now);
      var s' := Pump(c, s1, s.order, now);
      assert Pumped(c, k, s1.scopes[k], s1.tokens, s'.scopes[k], s'.tokens, now);
    }
  }

  lemma RejectionMovesCooldown(c: Config, s: State, t: nat, hint: Option<Ms>, now: Ms, k: Key)
    requires ValidConfig(c) && ScopesOk(s) && t < |s.tokens| && s.tokens[t].phase == Admitted && k in s.scopes
    requires forall k' | k' in s.order :: k' in s.scopes
    ensures ScopeAt(Reject(c, s, t, hint, now), k).cooldownUntil
            == if s.tokens[t].scopeKey == k then Some(now + Delay(c, hint)) else s.scopes[k].cooldownUntil
  {
    var s1 := OpenCooldown(c, s, s.tokens[t].scopeKey, hint, now);
    CooldownOpened(c, s, s.tokens[t].scopeKey, hint, now);
    ReturnLeavesCooldown(c, s1, t, now, k);
  }

  lemma ReleaseLeavesCooldown(c: Config, s: State, t: nat, now: Ms, k: Key)
    requires ValidConfig(c) && ScopesOk(s) && t < |s.tokens| && k in s.scopes
    requires forall k' | k' in s.order :: k' in s.scopes
    ensures ScopeAt(Release(c, s, t, now), k).cooldownUntil == s.scopes[k].cooldownUntil
  {
    if s.tokens[t].phase != Queued {
      FlagReleased(s, t);
      ReturnLeavesCooldown(c, SetToken(s, t, s.tokens[t].(released := true)), t, now, k);
    }
  }

  lemma ReserveLeavesCooldown(c: Config, s: State, clock: Ms, k0: Key, p: Priority, now: Ms, k: Key)
    requires ValidConfig(c) && Inv(s, clock) && clock <= now
    ensures ScopeAt(Reserve(c, s, k0, p, now).0, k).cooldownUntil == ScopeAt(s, k).cooldownUntil
  {
    ServedKeeps(c, s, clock, k0, now, k);
    ArrivalLeavesCooldown(c, s, k0, p, now, k);
  }

  lemma ArrivalLeavesCooldown(c: Config, s: State, k0: Key, p: Priority, now: Ms, k: Key)
    ensures ScopeAt(Reserve(c, s, k0, p, now).0, k).cooldownUntil == ScopeAt(Served(c, s, k0, now), k).cooldownUntil
  {
  }

  lemma SettleLeavesCooldown(c: Config, s: State, t: nat, now: Ms, k: Key)
    requires ValidConfig(c) && ScopesOk(s) && t < |s.tokens| && s.tokens[t].phase != Queued && k in s.scopes
    requires forall k' | k' in s.order :: k' in s.scopes
    ensures ScopeAt(Settle(c, s, t, now), k).cooldownUntil == s.scopes[k].cooldownUntil
  {
    ReturnLeavesCooldown(c, s, t, now, k);
  }

  lemma CooldownMovesByDelay(c: Config, s: State, clock: Ms, step: Step, now: Ms, k: Key)
    requires ValidConfig(c) && Inv(s, clock) && clock <= now && Legal(s, step)
    ensures ScopeAt(Apply(c, s, step, now), k).cooldownUntil
            == if StandsDown(s, step, k) then Some(now + Delay(c, step.hint)) else ScopeAt(s, k).cooldownUntil
  {
    if step.Reserving? {
      ReserveLeavesCooldown(c, s, clock, step.key, step.priority, now, k);
    } else if k !in s.scopes {
      ScopesAreOpenedByReservations(c, s, clock, step, now);
    } else {
      KnownCooldownMoves(c, s, step, now, k);
    }
  }

  /** The end of a cooldown opened now: after the provider's hint, up to the configured bound, or after
      the configured delay, which is not bounded. */
  predicate CooldownEnds(c: Config, hint: Option<Ms>, now: Ms, end: Option<Ms>) {
    && (hint.None? ==> end == Some(now + c.retryDelayMs))
    && (hint.Some? && hint.value <= c.cooldownMaxMs ==> end == Some(now + hint.value))
    && (hint.Some? && hint.value >= c.cooldownMaxMs ==> end == Some(now + c.cooldownMaxMs))
  }

  lemma DelayEnds(c: Config, hint: Option<Ms>, now: Ms)
    ensures CooldownEnds(c, hint, now, Some(now + Delay(c, hint)))
  {
  }

  /** Only a limit rejection moves a cooldown, and it overwrites it. */
  lemma CooldownMoves(c: Config, s: State, clock: Ms, step: Step, now: Ms, k: Key)
    requires ValidConfig(c) && Inv(s, clock) && clock <= now && Legal(s, step)
    ensures var before, after := ScopeAt(s, k).cooldownUntil, ScopeAt(Apply(c, s, step, now), k).cooldownUntil;
            if StandsDown(s, step, k) then CooldownEnds(c, step.hint, now, after) else after == before
  {
    if step.Rejecting? { DelayEnds(c, step.hint, now); }
    CooldownMovesByDelay(c, s, clock, step, now, k);
  }

  lemma KnownCooldownMoves(c: Config, s: State, step: Step, now: Ms, k: Key)
    requires ValidConfig(c) && ScopesOk(s) && (forall k' | k' in s.order :: k' in s.scopes) && Legal(s, step)
    requires !step.Reserving? && k in s.scopes
    ensures ScopeAt(Apply(c, s, step, now), k).cooldownUntil
            == if StandsDown(s, step, k) then Some(now + Delay(c, step.hint)) else s.scopes[k].cooldownUntil
  {
    match step
    case Cancelling(t) =>
    case Settling(t) => SettleLeavesCooldown(c, s, t, now, k);
    case Resolving(t) => if s.tokens[t].phase == Uncertain { SettleLeavesCooldown(c, s, t, now, k); }
    case Rejecting(t, hint) => RejectionMovesCooldown(c, s, t, hint, now, k);
    case Releasing(t) => ReleaseLeavesCooldown(c, s, t, now, k);
    case Returning(t) => ReturnLeavesCooldown(c, s, t, now, k);
  }

  /** A rejection that opens a positive cooldown hands no permit of its scope on, although it
      returns one and pumps. */
  lemma RejectionGrantsNobody(c: Config, s: State, clock: Ms, t: nat, hint: Option<Ms>, now: Ms, u: nat)
    requires ValidConfig(c) && Inv(s, clock) && clock <= now && Legal(s, Rejecting(t, hint))
    requires hint.Some? ==> hint.value > 0.0
    ensures !Gains(s, Apply(c, s, Rejecting(t, hint), now), s.tokens[t].scopeKey, u)
  {
    var k := s.tokens[t].scopeKey;
    StepKeeps(c, s, clock, Rejecting(t, hint), now, k);
    CooldownMoves(c, s, clock, Rejecting(t, hint), now, k);
    DelayPositive(c, hint);
  }

  /** Every step of the run happens while the scope's cooldown of that moment is open. */
  predicate DuringCooldown(c: Config, s: State, clock: Ms, run: seq<Timed>, k: Key)
    requires LegalRun(c, s, clock, run)
    decreases |run|
  {
    run == [] ||
    (ScopeAt(s, k).cooldownUntil.Some? && run[0].now < ScopeAt(s, k).cooldownUntil.value &&
     DuringCooldown(c, Apply(c, s, run[0].step, run[0].now), run[0].now, run[1..], k))
  }

  predicate PositiveHints(run: seq<Timed>) {
    forall i | 0 <= i < |run| :: run[i].step.Rejecting? && run[i].step.hint.Some? ==> run[i].step.hint.value > 0.0
  }

  lemma NoGrantInCooldown(c: Config, s: State, clock: Ms, step: Step, now: Ms, k: Key, u: nat)
    requires ValidConfig(c) && Inv(s, clock) && clock <= now && Legal(s, step)
    requires ScopeAt(s, k).cooldownUntil.Some? && now < ScopeAt(s, k).cooldownUntil.value
    requires step.Rejecting? && step.hint.Some? ==> step.hint.value > 0.0
    ensures !Gains(s, Apply(c, s, step, now), k, u)
  {
    StepKeeps(c, s, clock, step, now, k);
    CooldownMoves(c, s, clock, step, now, k);
    if StandsDown(s, step, k) { DelayPositive(c, step.hint); }
  }

  lemma GainsSplit(a: State, b: State, d: State, k: Key, u: nat)
    requires |a.tokens| <= |b.tokens| <= |d.tokens|
    requires forall t: nat | t < |b.tokens| :: d.tokens[t].scopeKey == b.tokens[t].scopeKey
    ensures Gains(a, d, k, u) ==> Gains(a, b, k, u) || Gains(b, d, k, u)
  {
  }

  /** Tokens are only ever added, keep their scope, and keep a permit once admitted. */
  lemma {:induction false} RunKeepsTokens(c: Config, s: State, clock: Ms, run: seq<Timed>)
    requires ValidConfig(c) && Inv(s, clock) && LegalRun(c, s, clock, run)
    ensures var s' := Exec(c, s, clock, run);
            && |s.tokens| <= |s'.tokens|
            && forall t: nat | t < |s.tokens| ::
                 && s'.tokens[t].scopeKey == s.tokens[t].scopeKey && s'.tokens[t].unowned == s.tokens[t].unowned
                 && (s.tokens[t].phase == Admitted ==> s'.tokens[t].phase == Admitted)
    decreases |run|
  {
    if run != [] {
      StepKeeps(c, s, clock, run[0].step, run[0].now, "");
      RunKeepsTokens(c, Apply(c, s, run[0].step, run[0].now), run[0].now, run[1..]);
    }
  }

  /** The barrier: while a cooldown is open, a run of any operations grants nothing in the scope. */
  lemma {:induction false} CooldownBarrier(c: Config, s: State, clock: Ms, run: seq<Timed>, k: Key, u: nat)
    requires ValidConfig(c) && Inv(s, clock) && LegalRun(c, s, clock, run)
    requires DuringCooldown(c, s, clock, run, k) && PositiveHints(run)
    ensures !Gains(s, Exec(c, s, clock, run), k, u)
    decreases |run|
  {
    if run != [] {
      var step, now := run[0].step, run[0].now;
      var s' := Apply(c, s, step, now);
      StepKeeps(c, s, clock, step, now, k);
      NoGrantInCooldown(c, s, clock, step, now, k, u);
      CooldownBarrier(c, s', now, run[1..], k, u);
      RunKeepsTokens(c, s', now, run[1..]);
      GainsSplit(s, s', Exec(c, s', now, run[1..]), k, u);
    }
  }

  // ---- Bounded overtaking ----

  ghost predicate AgedIn(c: Config, s: State, k: Key, now: Ms, t: nat) {
    AgedWaiter(c, ScopeAt(s, k).queue, s.tokens, now, t)
  }

  predicate WaitsIn(s: State, k: Key, t: nat) {
    Waits(ScopeAt(s, k).queue, t)
  }

  /** A token that left a queue never comes back to it. */
  lemma {:induction false} GoneForGood(c: Config, s: State, clock: Ms, run: seq<Timed>, k: Key, t: nat)
    requires ValidConfig(c) && Inv(s, clock) && LegalRun(c, s, clock, run)
    requires t < |s.tokens| && WaitsIn(Exec(c, s, clock, run), k, t)
    ensures WaitsIn(s, k, t)
    decreases |run|
  {
    if run != [] {
      var s' := Apply(c, s, run[0].step, run[0].now);
      StepKeeps(c, s, clock, run[0].step, run[0].now, k);
      GoneForGood(c, s', run[0].now, run[1..], k, t);
      WaitsBefore(ScopeAt(s, k).queue, ScopeAt(s', k).queue, |s.tokens|, t);
    }
  }

  /** In a shielded scope, from the moment an owned entry has waited out its bound until it leaves
      the queue, whatever arrives and whatever callers do, every permit of its scope goes to an entry
      that was ahead of it. */
  lemma {:induction false} BoundedOvertaking(c: Config, s: State, clock: Ms, run: seq<Timed>, k: Key, t: nat, u: nat)
    requires ValidConfig(c) && Shielded(c, s, k) && Inv(s, clock) && LegalRun(c, s, clock, run)
    requires AgedIn(c, s, k, clock, t) && t < |s.tokens| && WaitsIn(Exec(c, s, clock, run), k, t)
    requires Gains(s, Exec(c, s, clock, run), k, u)
    ensures Before(ScopeAt(s, k).queue, u, t)
    decreases |run|
  {
    if run != [] {
      var step, now := run[0].step, run[0].now;
      var s' := Apply(c, s, step, now);
      StepKeeps(c, s, clock, step, now, k);
      GoneForGood(c, s', now, run[1..], k, t);
      OvertakingStep(c, s, s', clock, now, k, t);
      RunKeepsTokens(c, s', now, run[1..]);
      GainsSplit(s, s', Exec(c, s', now, run[1..]), k, u);
      if Gains(s', Exec(c, s', now, run[1..]), k, u) {
        BoundedOvertaking(c, s', now, run[1..], k, t, u);
      }
    }
  }

  lemma OvertakingStep(c: Config, s: State, s': State, clock: Ms, now: Ms, k: Key, t: nat)
    requires Shielded(c, s, k) && Inv(s, clock) && clock <= now && StepEffect(c, s, s', k, now)
    requires AgedIn(c, s, k, clock, t) && t < |s.tokens| && WaitsIn(s', k, t)
    ensures AgedIn(c, s', k, now, t) && Shielded(c, s', k)
    ensures forall u: nat | Gains(s, s', k, u) :: Before(ScopeAt(s, k).queue, u, t)
    ensures forall u: nat | Before(ScopeAt(s', k).queue, u, t) :: Before(ScopeAt(s, k).queue, u, t)
  {
    StillAged(c, k, s, s', clock, now, t);
    assert AgedIn(c, s, k, now, t);
  }

  /** Who got a permit of the scope between the two states. */
  ghost function Gainers(s: State, s': State, k: Key): set<nat> {
    set u: nat | u < |s'.tokens| && Gains(s, s', k, u)
  }

  /** The owned entries ahead of `t`. */
  ghost function OwnedAhead(s: State, k: Key, t: nat): set<nat> {
    set u: nat | u < |s.tokens| && !Unowned(s.tokens, u) && Before(ScopeAt(s, k).queue, u, t)
  }

  lemma {:induction false} Subset<T>(a: set<T>, b: set<T>)
    requires a <= b
    ensures |a| <= |b|
  {
    if a != {} {
      var x :| x in a;
      Subset(a - {x}, b - {x});
    }
  }

  lemma {:induction false} LeavesDecided(c: Config, s: State, clock: Ms, run: seq<Timed>, k: Key, t: nat)
    requires ValidConfig(c) && Inv(s, clock) && LegalRun(c, s, clock, run)
    requires t < |s.tokens| && WaitsIn(s, k, t)
    ensures var s' := Exec(c, s, clock, run);
            t < |s'.tokens| && (WaitsIn(s', k, t) || Final(s'.tokens[t].phase))
    decreases |run|
  {
    if run != [] {
      var s', now := Apply(c, s, run[0].step, run[0].now), run[0].now;
      StepKeeps(c, s, clock, run[0].step, now, k);
      if WaitsIn(s', k, t) {
        LeavesDecided(c, s', now, run[1..], k, t);
      } else {
        FinalForGood(c, s', now, run[1..], t);
      }
    }
  }

  lemma {:induction false} FinalForGood(c: Config, s: State, clock: Ms, run: seq<Timed>, t: nat)
    requires ValidConfig(c) && Inv(s, clock) && LegalRun(c, s, clock, run)
    requires t < |s.tokens| && Final(s.tokens[t].phase)
    ensures var s' := Exec(c, s, clock, run);
            t < |s'.tokens| && s'.tokens[t].phase == s.tokens[t].phase
    decreases |run|
  {
    if run != [] {
      StepKeeps(c, s, clock, run[0].step, run[0].now, "");
      FinalForGood(c, Apply(c, s, run[0].step, run[0].now), run[0].now, run[1..], t);
    }
  }

  /** Once an owned entry is aged, as many grants as there are owned entries ahead of it, plus one,
      decide it: it has its permit, unless its caller cancelled. */
  lemma BoundedWait(c: Config, s: State, clock: Ms, run: seq<Timed>, k: Key, t: nat)
    requires ValidConfig(c) && Shielded(c, s, k) && Inv(s, clock) && LegalRun(c, s, clock, run)
    requires AgedIn(c, s, k, clock, t) && t < |s.tokens|
    requires |Gainers(s, Exec(c, s, clock, run), k)| > |OwnedAhead(s, k, t)|
    ensures var s' := Exec(c, s, clock, run);
            t < |s'.tokens| && (s'.tokens[t].phase == Admitted || s'.tokens[t].phase == Cancelled)
  {
    var s' := Exec(c, s, clock, run);
    LeavesDecided(c, s, clock, run, k, t);
    if WaitsIn(s', k, t) {
      RunKeepsTokens(c, s, clock, run);
      forall u: nat | u in Gainers(s, s', k) ensures u in OwnedAhead(s, k, t) {
        BoundedOvertaking(c, s, clock, run, k, t, u);
        RunKeepsInv(c, s, clock, run);
        assert k in s.scopes && ScopeOk(k, s.scopes[k], s.tokens);
      }
      Subset(Gainers(s, s', k), OwnedAhead(s, k, t));
    }
  }

  lemma {:induction false} GivenNeverCancels(c: Config, s: State, clock: Ms, run: seq<Timed>, t: nat)
    requires ValidConfig(c) && Inv(s, clock) && LegalRun(c, s, clock, run) && GivenRun(c, s, clock, run)
    requires t < |s.tokens| && s.tokens[t].phase != Cancelled
    ensures var s' := Exec(c, s, clock, run); t < |s'.tokens| && s'.tokens[t].phase != Cancelled
    decreases |run|
  {
    if run != [] {
      var s' := Apply(c, s, run[0].step, run[0].now);
      StepTokens(c, s, clock, run[0].step, run[0].now);
      assert TokenStep(s.tokens[t], s'.tokens[t], Settles(s, run[0].step) == Some(t),
          Cancels(s, run[0].step) == Some(t));
      StepInv(c, s, clock, run[0].step, run[0].now);
      GivenNeverCancels(c, s', run[0].now, run[1..], t);
    }
  }

  /** No caller can cancel what waits, so such a token has its permit then. */
  lemma CallersAreServed(c: Config, s: State, clock: Ms, run: seq<Timed>, k: Key, t: nat)
    requires ValidConfig(c) && Shielded(c, s, k) && Inv(s, clock) && LegalRun(c, s, clock, run)
             && GivenRun(c, s, clock, run)
    requires AgedIn(c, s, k, clock, t) && t < |s.tokens|
    requires |Gainers(s, Exec(c, s, clock, run), k)| > |OwnedAhead(s, k, t)|
    ensures var s' := Exec(c, s, clock, run); t < |s'.tokens| && s'.tokens[t].phase == Admitted
  {
    BoundedWait(c, s, clock, run, k, t);
    assert k in s.scopes && ScopeOk(k, s.scopes[k], s.tokens);
    GivenNeverCancels(c, s, clock, run, t);
  }
}
