/**
 What every operation of the admission controller keeps and does, and the runs of it.
 */
module AdmissionRuns {
  import opened Wrappers
  import opened AdmissionModel
  import opened AdmissionPump
  import opened AdmissionSteps

  datatype Timed = Timed(step: Step, now: Ms)

  // ---- Every step ----

  lemma ReleaseOfQueued(s: State, t: nat)
    requires t < |s.tokens| && s.tokens[t].phase == Queued
    ensures var s1 := Cancel(s, t);
            t < |s1.tokens| && s1.tokens[t].phase == Cancelled &&
            Cancel(SetToken(s, t, s.tokens[t].(released := true)), t)
                == SetToken(s1, t, s1.tokens[t].(released := true))
  {
    var s0, s1 := SetToken(s, t, s.tokens[t].(released := true)), Cancel(s, t);
    assert Cancel(s0, t).tokens == SetToken(s1, t, s1.tokens[t].(released := true)).tokens;
  }

  lemma ReleaseKeeps(c: Config, s: State, clock: Ms, t: nat, now: Ms, k: Key)
    requires ValidConfig(c) && Inv(s, clock) && clock <= now && Named(s, t)
    ensures Kept(c, s, Release(c, s, t, now), k, now)
  {
    var tok := s.tokens[t];
    PreparedRefl(s);
    if tok.released {
      NothingMoved(c, s, s, clock, now, k);
    } else if tok.phase == Queued {
      ReleaseOfQueued(s, t);
      CancelKeeps(c, s, clock, t, now, k);
      var s1 := Cancel(s, t);
      FlagReleased(s1, t);
      NothingMoved(c, s1, Release(c, s, t, now), now, now, k);
      StepTrans(c, s, s1, Release(c, s, t, now), k, now);
    } else {
      FlagReleased(s, t);
      var s1 := SetToken(s, t, tok.(released := true));
      if tok.attached {
        ReturnPermitKeeps(c, s, s1, clock, t, now, k);
      } else {
        NothingMoved(c, s, s1, clock, now, k);
      }
    }
  }

  lemma SettleKeeps(c: Config, s0: State, s: State, clock: Ms, t: nat, now: Ms, k: Key)
    requires ValidConfig(c) && Inv(s0, clock) && clock <= now && Prepared(s0, s) && ScopesOk(s) && t < |s.tokens|
    ensures Kept(c, s0, Settle(c, s, t, now), k, now)
  {
    if s.tokens[t].released || s.tokens[t].settled {
      NothingMoved(c, s0, s, clock, now, k);
    } else {
      ReturnPermitKeeps(c, s0, s, clock, t, now, k);
    }
  }

  lemma GrantedKeeps(c: Config, s: State, k0: Key, p: Priority, now: Ms, k: Key)
    requires Inv(s, now) && k0 in s.scopes && WorkConserving(c, s.scopes[k0], s.tokens, now)
             && CanGrant(c, s.scopes[k0], now)
    ensures var s' := ArriveGranted(s, k0, p);
            Kept(c, s, s', k, now) && Account(ScopeAt(s', k), s'.tokens, k) == Account(ScopeAt(s, k), s.tokens, k)
  {
    GrantedKeepsInv(s, k0, p, now);
    GrantedAccount(s, k0, p, k);
    if k in s.scopes { GrantedEffect(c, s, k0, p, now, k); } else { NoScope(c, s, ArriveGranted(s, k0, p), k, now); }
  }

  lemma ParkedKeeps(c: Config, s: State, k0: Key, p: Priority, now: Ms, k: Key)
    requires Inv(s, now) && k0 in s.scopes && |s.scopes[k0].queue| < c.queueCapacity
    ensures var s' := ArriveParked(s, k0, p, now);
            Kept(c, s, s', k, now) && Account(ScopeAt(s', k), s'.tokens, k) == Account(ScopeAt(s, k), s.tokens, k)
  {
    ParkedKeepsInv(s, k0, p, now);
    ParkedAccount(s, k0, p, now, k);
    if k in s.scopes { ParkedEffect(c, s, k0, p, now, k); } else { NoScope(c, s, ArriveParked(s, k0, p, now), k, now); }
  }

  lemma GrantedAfter(c: Config, s: State, s2: State, k0: Key, p: Priority, now: Ms, k: Key)
    requires ScopesOk(s) && Kept(c, s, s2, k, now) && k0 in s2.scopes
    requires WorkConserving(c, s2.scopes[k0], s2.tokens, now) && CanGrant(c, s2.scopes[k0], now)
    ensures Kept(c, s, ArriveGranted(s2, k0, p), k, now)
  {
    GrantedKeeps(c, s2, k0, p, now, k);
    StepTrans(c, s, s2, ArriveGranted(s2, k0, p), k, now);
  }

  lemma ParkedAfter(c: Config, s: State, s2: State, k0: Key, p: Priority, now: Ms, k: Key)
    requires ScopesOk(s) && Kept(c, s, s2, k, now) && k0 in s2.scopes && |s2.scopes[k0].queue| < c.queueCapacity
    ensures Kept(c, s, ArriveParked(s2, k0, p, now), k, now)
  {
    ParkedKeeps(c, s2, k0, p, now, k);
    StepTrans(c, s, s2, ArriveParked(s2, k0, p, now), k, now);
  }

  lemma ReserveKeeps(c: Config, s: State, clock: Ms, k0: Key, p: Priority, now: Ms, k: Key)
    requires ValidConfig(c) && Inv(s, clock) && clock <= now
    ensures var s' := Reserve(c, s, k0, p, now).0;
            Kept(c, s, s', k, now) && Account(ScopeAt(s', k), s'.tokens, k) == Account(ScopeAt(s, k), s.tokens, k)
  {
    ServedKeeps(c, s, clock, k0, now, k);
    var s2 := Served(c, s, k0, now);
    GrantedAccount(s2, k0, p, k);
    ParkedAccount(s2, k0, p, now, k);
    if CanGrant(c, s2.scopes[k0], now) {
      GrantedAfter(c, s, s2, k0, p, now, k);
    } else if |s2.scopes[k0].queue| < c.queueCapacity {
      ParkedAfter(c, s, s2, k0, p, now, k);
    }
  }

  /** Every operation keeps the invariant and has the effect StepEffect describes on every scope. */
  lemma StepKeeps(c: Config, s: State, clock: Ms, step: Step, now: Ms, k: Key)
    requires ValidConfig(c) && Inv(s, clock) && clock <= now && Legal(s, step)
    ensures Kept(c, s, Apply(c, s, step, now), k, now)
  {
    PreparedRefl(s);
    match step
    case Reserving(k0, p) => ReserveKeeps(c, s, clock, k0, p, now, k);
    case Releasing(t) => ReleaseKeeps(c, s, clock, t, now, k);
    case Settling(t) => SettleKeeps(c, s, s, clock, t, now, k);
    case Rejecting(t, hint) =>
      CooldownOpened(c, s, s.tokens[t].scopeKey, hint, now);
      SettleKeeps(c, s, OpenCooldown(c, s, s.tokens[t].scopeKey, hint, now), clock, t, now, k);
    case Cancelling(t) => CancelKeeps(c, s, clock, t, now, k);
    case Resolving(t) =>
      if s.tokens[t].phase == Uncertain {
        SettleKeeps(c, s, s, clock, t, now, k);
      } else {
        NothingMoved(c, s, s, clock, now, k);
      }
    case Returning(t) => ReturnPermitKeeps(c, s, s, clock, t, now, k);
  }

  // ---- Scopes ----

  lemma {:induction false} PumpKeys(c: Config, s: State, keys: seq<Key>, now: Ms)
    requires forall k | k in keys :: k in s.scopes
    ensures Pump(c, s, keys, now).scopes.Keys == s.scopes.Keys
    decreases |keys|
  {
    if keys != [] { PumpKeys(c, PumpOne(c, s, keys[0], now), keys[1..], now); }
  }

  /** Only a reservation opens a scope. */
  lemma ScopesAreOpenedByReservations(c: Config, s: State, clock: Ms, step: Step, now: Ms)
    requires Inv(s, clock) && Legal(s, step) && !step.Reserving?
    ensures Apply(c, s, step, now).scopes.Keys == s.scopes.Keys
  {
    if step.Cancelling? {
    } else {
      var t := step.token;
      var s1 := if step.Rejecting? then OpenCooldown(c, s, s.tokens[t].scopeKey, step.hint, now)
                else if step.Releasing? then SetToken(s, t, s.tokens[t].(released := true)) else s;
      PumpKeys(c, Returned(s1, t), s.order, now);
    }
  }
}
