/**
 What one operation of the admission controller keeps, and what it does to the
 queue and the permits of any one scope.
 */
module AdmissionSteps {
  import opened Wrappers
  import opened AdmissionModel
  import opened AdmissionPump

  datatype Step =
    | Reserving(key: Key, priority: Priority)
    | Releasing(token: nat)
    | Settling(token: nat)
    | Rejecting(token: nat, hint: Option<Ms>)
    | Cancelling(token: nat)
    | Resolving(token: nat)
    | Returning(token: nat)          // releaseToken called on the controller, past the token

  /** The token a step names exists and has a caller. */
  predicate Named(s: State, t: nat) {
    t < |s.tokens| && !s.tokens[t].unowned
  }

  /** Settlement is private to the call seam, which settles a token only after its reservation
      returned it; every other operation is open to whoever has the token. */
  predicate Legal(s: State, step: Step) {
    match step
    case Reserving(_, _) => true
    case Settling(t) => Named(s, t) && s.tokens[t].phase == Admitted
    case Rejecting(t, _) => Named(s, t) && s.tokens[t].phase == Admitted
    case Releasing(t) => Named(s, t)
    case Cancelling(t) => Named(s, t)
    case Resolving(t) => Named(s, t)
    case Returning(t) => Named(s, t)
  }

  function Apply(c: Config, s: State, step: Step, now: Ms): State
    requires Legal(s, step)
  {
    match step
    case Reserving(k, p) => Reserve(c, s, k, p, now).0
    case Releasing(t) => Release(c, s, t, now)
    case Settling(t) => Settle(c, s, t, now)
    case Rejecting(t, hint) => Reject(c, s, t, hint, now)
    case Cancelling(t) => Cancel(s, t)
    case Resolving(t) => Resolve(c, s, t, now)
    case Returning(t) => ReturnPermit(c, s, t, now)
  }

  // ---- The invariant ----

  ghost predicate TokensOk(s: State) {
    forall t: nat | t < |s.tokens| ::
      && (s.tokens[t].unowned ==> s.tokens[t].phase == Queued)
      && (s.tokens[t].attached <==> !s.tokens[t].unowned && s.tokens[t].phase != Uncertain)
  }

  /** Nothing was enqueued after `clock`. */
  ghost predicate NotAfter(s: State, clock: Ms) {
    forall k, i | k in s.scopes && 0 <= i < |s.scopes[k].queue| && !Unowned(s.tokens, s.scopes[k].queue[i].token) ::
      s.scopes[k].queue[i].enqueuedAt <= clock
  }

  ghost predicate Inv(s: State, clock: Ms) {
    && ScopesOk(s)
    && TokensOk(s)
    && NotAfter(s, clock)
    && (forall k | k in s.order :: k in s.scopes)
    && (forall k | k in s.scopes :: k in s.order)
  }

  // ---- One step, one scope ----

  /** `u` gets a permit of scope `k` between the two states. */
  ghost predicate Gains(s: State, s': State, k: Key, u: nat) {
    && u < |s'.tokens| && s'.tokens[u].scopeKey == k && s'.tokens[u].phase == Admitted
    && (u >= |s.tokens| || s.tokens[u].phase != Admitted)
  }

  ghost predicate CooldownOver(sc: Scope, now: Ms) {
    sc.cooldownUntil.None? || now >= sc.cooldownUntil.value
  }

  /** Waiting entries stay put: what is new is behind them. */
  ghost predicate QueueGrows(s: State, s': State, k: Key) {
    var q, q' := ScopeAt(s, k).queue, ScopeAt(s', k).queue;
    && (forall e | e in q' && e.token < |s.tokens| :: e in q)
    && (forall u: nat, t: nat | t < |s.tokens| && Before(q', u, t) :: Before(q, u, t))
    && Tombstones(q', s'.tokens) == Tombstones(q, s.tokens)
  }

  /** What protects an aged entry from later arrivals: interactive work before background work, or a
      queue with room for only one. */
  ghost predicate Shielded(c: Config, s: State, k: Key) {
    Fair(c) || (c.queueCapacity == 1 && |ScopeAt(s, k).queue| <= 1)
  }

  ghost predicate NotOvertaken(c: Config, s: State, s': State, k: Key, now: Ms) {
    forall t: nat, u: nat | AgedWaiter(c, ScopeAt(s, k).queue, s.tokens, now, t) && Waits(ScopeAt(s', k).queue, t)
        && Gains(s, s', k, u) ::
      Before(ScopeAt(s, k).queue, u, t)
  }

  predicate Final(p: Phase) {
    p == Admitted || p == Cancelled
  }

  /** Without a grant, the in-flight token leaves only together with a permit. */
  predicate InFlightLeft(sc: Scope, sc': Scope) {
    sc'.concurrent <= sc.concurrent && (sc.inFlight.Some? && sc.concurrent > 0 ==> sc'.concurrent < sc.concurrent)
  }

  ghost predicate TokensKept(s: State, s': State) {
    && |s.tokens| <= |s'.tokens|
    && (forall t: nat | t < |s.tokens| ::
          s'.tokens[t].scopeKey == s.tokens[t].scopeKey && s'.tokens[t].unowned == s.tokens[t].unowned)
    && (forall t: nat | t < |s.tokens| && Final(s.tokens[t].phase) :: s'.tokens[t].phase == s.tokens[t].phase)
  }

  /** Whoever leaves the queue has a permit or was cancelled. */
  ghost predicate LeaversDecided(s: State, s': State, k: Key)
    requires |s.tokens| <= |s'.tokens|
  {
    forall t: nat | t < |s.tokens| && Waits(ScopeAt(s, k).queue, t) && !Waits(ScopeAt(s', k).queue, t) ::
        Final(s'.tokens[t].phase)
  }

  ghost predicate GainsAfterCooldown(s: State, s': State, k: Key, now: Ms) {
    forall u: nat | Gains(s, s', k, u) :: CooldownOver(ScopeAt(s', k), now)
  }

  ghost predicate StepEffect(c: Config, s: State, s': State, k: Key, now: Ms) {
    && (k in s.scopes ==> k in s'.scopes)
    && TokensKept(s, s') && LeaversDecided(s, s', k) && GainsAfterCooldown(s, s', k, now)
    && QueueGrows(s, s', k)
    && (Shielded(c, s, k) ==> NotOvertaken(c, s, s', k, now))
    && (ScopeAt(s', k).concurrent <= ScopeAt(s, k).concurrent || ScopeAt(s', k).concurrent <= c.maxConcurrent)
    && (|ScopeAt(s', k).queue| <= |ScopeAt(s, k).queue| || |ScopeAt(s', k).queue| <= c.queueCapacity)
    && (ScopeAt(s', k).inFlight.None? ==> InFlightLeft(ScopeAt(s, k), ScopeAt(s', k)))
  }

  /** The preparations of an operation: flags, the returned permit, the cooldown; no queue moves. */
  ghost predicate Prepared(s: State, s1: State) {
    && s1.order == s.order && s1.restored == s.restored && s1.scopes.Keys == s.scopes.Keys
    && |s1.tokens| == |s.tokens|
    && (forall t: nat | t < |s.tokens| ::
          && s1.tokens[t].scopeKey == s.tokens[t].scopeKey && s1.tokens[t].phase == s.tokens[t].phase
          && s1.tokens[t].unowned == s.tokens[t].unowned && s1.tokens[t].attached == s.tokens[t].attached)
    && (forall k | k in s.scopes ::
          && s1.scopes[k].queue == s.scopes[k].queue
          && s1.scopes[k].concurrent <= s.scopes[k].concurrent
          && (s1.scopes[k].inFlight == s.scopes[k].inFlight ||
              (s1.scopes[k].inFlight.None? && InFlightLeft(s.scopes[k], s1.scopes[k]))))
  }

  lemma PumpAfterPreparing(c: Config, s: State, s1: State, clock: Ms, now: Ms, k: Key)
    requires ValidConfig(c) && Inv(s, clock) && clock <= now && Prepared(s, s1) && ScopesOk(s1)
    ensures var s' := Pump(c, s1, s1.order, now);
            && Inv(s', now)
            && StepEffect(c, s, s', k, now)
            && PumpedAll(c, s1, s', now)
            && (forall k' | k' in s.scopes :: WorkConserving(c, s'.scopes[k'], s'.tokens, now))
  {
    var s' := Pump(c, s1, s1.order, now);
    PumpEffect(c, s1, s1.order, now);
    PumpKeepsInv(c, s, s1, s', clock, now);
    if k in s.scopes { PumpStepEffect(c, s, s1, s', k, now); } else { NoScope(c, s, s', k, now); }
  }

  lemma PumpKeepsInv(c: Config, s: State, s1: State, s': State, clock: Ms, now: Ms)
    requires Inv(s, clock) && clock <= now && Prepared(s, s1) && ScopesOk(s1) && ScopesOk(s')
             && PumpedAll(c, s1, s', now)
    ensures Inv(s', now)
  {
    forall k, i | k in s'.scopes && 0 <= i < |s'.scopes[k].queue| && !Unowned(s'.tokens, s'.scopes[k].queue[i].token)
      ensures s'.scopes[k].queue[i].enqueuedAt <= now
    {
      assert Pumped(c, k, s1.scopes[k], s1.tokens, s'.scopes[k], s'.tokens, now);
      assert s'.scopes[k].queue[i] in s1.scopes[k].queue;
    }
  }

  lemma PumpQueueGrows(c: Config, s: State, s1: State, s': State, k: Key, now: Ms)
    requires ScopesOk(s) && k in s.scopes && Prepared(s, s1) && PumpedAll(c, s1, s', now) && k in s'.scopes
    ensures QueueGrows(s, s', k)
  {
    assert Pumped(c, k, s1.scopes[k], s1.tokens, s'.scopes[k], s'.tokens, now);
    TombstonesSame(s.scopes[k].queue, s.tokens, s1.tokens);
  }

  lemma OneSlot(q: seq<Entry>, q': seq<Entry>, t: nat, u: nat)
    requires |q| <= 1 && (forall e | e in q' :: e in q) && Waits(q', t) && Waits(q, u)
    ensures t == u
  {
    var i :| 0 <= i < |q'| && q'[i].token == t;
    assert q'[i] in q;
  }

  lemma PumpFairness(c: Config, s: State, s1: State, s': State, k: Key, now: Ms)
    requires ScopesOk(s) && k in s.scopes && Prepared(s, s1) && PumpedAll(c, s1, s', now) && k in s'.scopes
             && Shielded(c, s, k)
    requires |s'.tokens| == |s1.tokens|
    ensures NotOvertaken(c, s, s', k, now)
  {
    assert Pumped(c, k, s1.scopes[k], s1.tokens, s'.scopes[k], s'.tokens, now);
    var q, q' := s.scopes[k].queue, s'.scopes[k].queue;
    forall t: nat, u: nat | AgedWaiter(c, q, s.tokens, now, t) && Waits(q', t) && Gains(s, s', k, u)
      ensures Before(q, u, t)
    {
      assert AgedWaiter(c, q, s1.tokens, now, t) && Newly(s1.tokens, s'.tokens, u);
      if !Fair(c) { OneSlot(q, q', t, u); }
    }
  }

  lemma PumpGains(c: Config, s: State, s1: State, s': State, k: Key, now: Ms)
    requires ScopesOk(s) && k in s.scopes && Prepared(s, s1) && PumpedAll(c, s1, s', now)
    ensures k in s'.scopes && |s'.tokens| == |s1.tokens|
    ensures GainsAfterCooldown(s, s', k, now)
  {
    assert Pumped(c, k, s1.scopes[k], s1.tokens, s'.scopes[k], s'.tokens, now);
    forall u: nat | Gains(s, s', k, u) ensures CooldownOver(s'.scopes[k], now) {
      assert Waits(s1.scopes[k].queue, u) && !Waits(s'.scopes[k].queue, u);
    }
  }

  lemma PumpLeavers(c: Config, s: State, s1: State, s': State, k: Key, now: Ms)
    requires ScopesOk(s) && k in s.scopes && Prepared(s, s1) && PumpedAll(c, s1, s', now) && k in s'.scopes
    requires |s'.tokens| == |s1.tokens|
    ensures TokensKept(s, s') && LeaversDecided(s, s', k)
  {
    assert Pumped(c, k, s1.scopes[k], s1.tokens, s'.scopes[k], s'.tokens, now);
  }

  lemma PumpStepEffect(c: Config, s: State, s1: State, s': State, k: Key, now: Ms)
    requires ScopesOk(s) && k in s.scopes && Prepared(s, s1) && PumpedAll(c, s1, s', now)
    ensures StepEffect(c, s, s', k, now)
  {
    PumpGains(c, s, s1, s', k, now);
    PumpLeavers(c, s, s1, s', k, now);
    PumpQueueGrows(c, s, s1, s', k, now);
    if Shielded(c, s, k) { PumpFairness(c, s, s1, s', k, now); }
    assert Pumped(c, k, s1.scopes[k], s1.tokens, s'.scopes[k], s'.tokens, now);
  }

  /** No token and no entry belongs to a scope nobody asked for. */
  lemma NoScope(c: Config, s: State, s': State, k: Key, now: Ms)
    requires k !in s.scopes && k !in s'.scopes && ScopesOk(s')
    requires |s.tokens| <= |s'.tokens|
    requires forall t: nat | t < |s.tokens| ::
               && s'.tokens[t].scopeKey == s.tokens[t].scopeKey && s'.tokens[t].unowned == s.tokens[t].unowned
               && (Final(s.tokens[t].phase) ==> s'.tokens[t].phase == s.tokens[t].phase)
    ensures StepEffect(c, s, s', k, now)
  {
  }

  // ---- Preparations ----

  lemma PreparedTrans(a: State, b: State, d: State)
    requires Prepared(a, b) && Prepared(b, d)
    ensures Prepared(a, d)
  {
  }

  lemma FlagReleased(s: State, t: nat)
    requires ScopesOk(s) && t < |s.tokens| && s.tokens[t].phase != Queued
    ensures var s1 := SetToken(s, t, s.tokens[t].(released := true));
            ScopesOk(s1) && Prepared(s, s1)
  {
    var s1 := SetToken(s, t, s.tokens[t].(released := true));
    forall k | k in s.scopes ensures ScopeOk(k, s1.scopes[k], s1.tokens) {
      assert ScopeOk(k, s.scopes[k], s.tokens);
    }
  }

  lemma CooldownOpened(c: Config, s: State, k: Key, hint: Option<Ms>, now: Ms)
    requires ScopesOk(s)
    ensures var s1 := OpenCooldown(c, s, k, hint, now);
            ScopesOk(s1) && Prepared(s, s1) && s1.tokens == s.tokens
  {
    var s1 := OpenCooldown(c, s, k, hint, now);
    forall k' | k' in s.scopes ensures ScopeOk(k', s1.scopes[k'], s1.tokens) {
      assert ScopeOk(k', s.scopes[k'], s.tokens);
    }
  }

  /** The state releaseToken pumps: the token settled and its scope's permit back. */
  function Returned(s: State, t: nat): State
    requires t < |s.tokens| && s.tokens[t].scopeKey in s.scopes
  {
    var k := s.tokens[t].scopeKey;
    WithScope(SetToken(s, t, s.tokens[t].(settled := true)), k, ReleasedScope(s.scopes[k], t))
  }

  lemma SettledScopeOk(k: Key, sc: Scope, toks: seq<Token>, t: nat)
    requires ScopeOk(k, sc, toks) && t < |toks|
    ensures var toks' := toks[t := toks[t].(settled := true)];
            && (toks[t].scopeKey != k ==> ScopeOk(k, sc, toks'))
            && ScopeOk(k, ReleasedScope(sc, t), toks')
  {
  }

  lemma PermitBack(s: State, t: nat)
    requires ScopesOk(s) && t < |s.tokens|
    ensures ScopesOk(Returned(s, t)) && Prepared(s, Returned(s, t))
  {
    ReturnedScopesOk(s, t);
    ReturnedPrepared(s, t);
  }

  lemma ReturnedScopesOk(s: State, t: nat)
    requires ScopesOk(s) && t < |s.tokens|
    ensures ScopesOk(Returned(s, t))
  {
    var s1 := Returned(s, t);
    forall k | k in s.scopes ensures ScopeOk(k, s1.scopes[k], s1.tokens) {
      SettledScopeOk(k, s.scopes[k], s.tokens, t);
    }
  }

  lemma ReturnedPrepared(s: State, t: nat)
    requires t < |s.tokens| && s.tokens[t].scopeKey in s.scopes
    ensures Prepared(s, Returned(s, t))
  {
  }

  lemma HeldPermitBack(toks: seq<Token>, t: nat, k: Key)
    requires Holds(toks, k, t)
    ensures var toks' := toks[t := toks[t].(settled := true)];
            |Holders(toks', k)| == |Holders(toks, k)| - 1 && Prepayers(toks', k) == Prepayers(toks, k)
  {
    var toks' := toks[t := toks[t].(settled := true)];
    assert t in Holders(toks, k) && Holders(toks', k) == Holders(toks, k) - {t};
  }

  lemma UnheldPermitBack(toks: seq<Token>, t: nat, k: Key)
    requires t < |toks| && toks[t].scopeKey == k && !toks[t].settled && !GivenPermit(toks, k, t)
    ensures var toks' := toks[t := toks[t].(settled := true)];
            Holders(toks', k) == Holders(toks, k) && |Prepayers(toks', k)| == |Prepayers(toks, k)| + 1
  {
    var toks' := toks[t := toks[t].(settled := true)];
    assert t !in Prepayers(toks, k) && Prepayers(toks', k) == Prepayers(toks, k) + {t};
  }

  /** Giving a permit back, held or not, keeps the account unless the count is already zero. */
  lemma PermitBackAccount(s: State, t: nat, k: Key)
    requires t < |s.tokens| && s.tokens[t].scopeKey in s.scopes && k in s.scopes && !s.tokens[t].settled
    ensures var s1 := Returned(s, t);
            Account(s1.scopes[k], s1.tokens, k)
            == Account(s.scopes[k], s.tokens, k)
               + (if s.tokens[t].scopeKey == k && s.scopes[k].concurrent == 0 then 1 else 0)
  {
    if s.tokens[t].scopeKey != k {
      var toks' := Returned(s, t).tokens;
      assert Holders(toks', k) == Holders(s.tokens, k) && Prepayers(toks', k) == Prepayers(s.tokens, k);
    } else if GivenPermit(s.tokens, k, t) {
      HeldPermitBack(s.tokens, t, k);
    } else {
      UnheldPermitBack(s.tokens, t, k);
    }
  }

  ghost predicate Kept(c: Config, s: State, s': State, k: Key, now: Ms) {
    Inv(s', now) && StepEffect(c, s, s', k, now)
  }

  lemma NothingMoved(c: Config, s: State, s1: State, clock: Ms, now: Ms, k: Key)
    requires Inv(s, clock) && clock <= now && Prepared(s, s1) && ScopesOk(s1)
    ensures Kept(c, s, s1, k, now)
  {
    if k in s.scopes { TombstonesSame(s.scopes[k].queue, s.tokens, s1.tokens); } else { NoScope(c, s, s1, k, now); }
  }

  lemma ReturnPermitKeeps(c: Config, s0: State, s: State, clock: Ms, t: nat, now: Ms, k: Key)
    requires ValidConfig(c) && Inv(s0, clock) && clock <= now && Prepared(s0, s) && ScopesOk(s) && t < |s.tokens|
    ensures Kept(c, s0, ReturnPermit(c, s, t, now), k, now)
  {
    if s.tokens[t].settled {
      NothingMoved(c, s0, s, clock, now, k);
    } else {
      PermitBack(s, t);
      PreparedTrans(s0, s, Returned(s, t));
      PumpAfterPreparing(c, s0, Returned(s, t), clock, now, k);
    }
  }

  // ---- Cancellation ----

  lemma {:induction false} FirstEntry(q: seq<Entry>, t: nat, n: nat) returns (i: nat)
    requires n < |q| && q[n].token == t
    ensures i <= n && q[i].token == t && forall j | 0 <= j < i :: q[j].token != t
  {
    if j: nat :| j < n && q[j].token == t { i := FirstEntry(q, t, j); } else { i := n; }
  }

  lemma WithoutRemoves(q: seq<Entry>, t: nat)
    ensures !Waits(q, t) ==> Without(q, t) == q
    ensures Waits(q, t) ==> exists i: nat :: i < |q| && q[i].token == t && Without(q, t) == RemoveAt(q, i)
  {
    if Waits(q, t) {
      var n :| 0 <= n < |q| && q[n].token == t;
      var i := FirstEntry(q, t, n);
      WithoutFirst(q, t, i);
    } else {
      WithoutFirst(q, t, |q|);
    }
  }

  lemma LeaverKeepsScopeOk(k: Key, sc: Scope, toks: seq<Token>, i: nat)
    requires ScopeOk(k, sc, toks) && i < |sc.queue|
    ensures var t := sc.queue[i].token;
            ScopeOk(k, sc.(queue := RemoveAt(sc.queue, i)), toks[t := toks[t].(phase := Cancelled)])
  {
    var t, q' := sc.queue[i].token, RemoveAt(sc.queue, i);
    RemovedIsGone(k, sc.queue, i, toks);
    forall j | 0 <= j < |q'| ensures q'[j].token != t && q'[j] == sc.queue[if j < i then j else j + 1] {
      assert Waits(q', q'[j].token);
    }
  }

  lemma AbsentKeepsScopeOk(k: Key, sc: Scope, toks: seq<Token>, t: nat)
    requires ScopeOk(k, sc, toks) && t < |toks| && toks[t].phase == Queued && !Waits(sc.queue, t)
    ensures ScopeOk(k, sc, toks[t := toks[t].(phase := Cancelled)])
  {
    assert forall j | 0 <= j < |sc.queue| :: sc.queue[j].token != t;
  }

  lemma CancelKeepsScopeOk(k: Key, sc: Scope, toks: seq<Token>, t: nat)
    requires ScopeOk(k, sc, toks) && t < |toks| && toks[t].phase == Queued
    ensures ScopeOk(k, sc.(queue := Without(sc.queue, t)), toks[t := toks[t].(phase := Cancelled)])
  {
    WithoutRemoves(sc.queue, t);
    if Waits(sc.queue, t) {
      ghost var i: nat :| i < |sc.queue| && sc.queue[i].token == t && Without(sc.queue, t) == RemoveAt(sc.queue, i);
      LeaverKeepsScopeOk(k, sc, toks, i);
    } else {
      AbsentKeepsScopeOk(k, sc, toks, t);
    }
  }

  /** What a cancellation leaves of the queue of the cancelled token. */
  lemma CancelQueue(q: seq<Entry>, toks: seq<Token>, t: nat)
    requires t < |toks| && !toks[t].unowned
    ensures var q' := Without(q, t);
            && |q'| <= |q|
            && (forall e | e in q' :: e in q)
            && (forall u: nat, x: nat | Before(q', u, x) :: Before(q, u, x))
            && Tombstones(q', toks[t := toks[t].(phase := Cancelled)]) == Tombstones(q, toks)
            && (forall x: nat | Waits(q, x) && x != t :: Waits(q', x))
  {
    WithoutRemoves(q, t);
    if Waits(q, t) {
      var i: nat :| i < |q| && q[i].token == t && Without(q, t) == RemoveAt(q, i);
      RemoveKeepsOrder(q, i);
      TombstonesRemove(q, i, toks);
    }
    TombstonesSame(Without(q, t), toks, toks[t := toks[t].(phase := Cancelled)]);
  }

  lemma OtherScopeCancelled(k: Key, sc: Scope, toks: seq<Token>, t: nat)
    requires ScopeOk(k, sc, toks) && t < |toks| && toks[t].phase == Queued && toks[t].scopeKey != k
    ensures ScopeOk(k, sc, toks[t := toks[t].(phase := Cancelled)])
    ensures Tombstones(sc.queue, toks[t := toks[t].(phase := Cancelled)]) == Tombstones(sc.queue, toks)
    ensures Holders(toks[t := toks[t].(phase := Cancelled)], k) == Holders(toks, k)
  {
    TombstonesSame(sc.queue, toks, toks[t := toks[t].(phase := Cancelled)]);
  }

  lemma CancelKeepsScopes(s: State, t: nat)
    requires ScopesOk(s) && Named(s, t) && s.tokens[t].phase == Queued
    ensures ScopesOk(Cancel(s, t))
  {
    var k0, s' := s.tokens[t].scopeKey, Cancel(s, t);
    CancelKeepsScopeOk(k0, s.scopes[k0], s.tokens, t);
    forall k' | k' in s.scopes && k' != k0 ensures ScopeOk(k', s'.scopes[k'], s'.tokens) {
      OtherScopeCancelled(k', s.scopes[k'], s.tokens, t);
    }
  }

  lemma CancelQueueGrows(s: State, t: nat, k: Key)
    requires ScopesOk(s) && Named(s, t) && s.tokens[t].phase == Queued && k in s.scopes
    ensures var s' := Cancel(s, t);
            && QueueGrows(s, s', k) && |s'.scopes[k].queue| <= |s.scopes[k].queue|
            && (forall x: nat | Waits(s.scopes[k].queue, x) && x != t :: Waits(s'.scopes[k].queue, x))
  {
    if k == s.tokens[t].scopeKey {
      CancelQueue(s.scopes[k].queue, s.tokens, t);
    } else {
      OtherScopeCancelled(k, s.scopes[k], s.tokens, t);
    }
  }

  lemma CancelStepEffect(c: Config, s: State, t: nat, now: Ms, k: Key)
    requires ScopesOk(s) && Named(s, t) && s.tokens[t].phase == Queued && k in s.scopes
    ensures StepEffect(c, s, Cancel(s, t), k, now)
  {
    CancelQueueGrows(s, t, k);
    assert forall u: nat :: !Gains(s, Cancel(s, t), k, u);
  }

  lemma CancelKeeps(c: Config, s: State, clock: Ms, t: nat, now: Ms, k: Key)
    requires Inv(s, clock) && clock <= now && Named(s, t)
    ensures Kept(c, s, Cancel(s, t), k, now)
  {
    var s' := Cancel(s, t);
    if s.tokens[t].phase != Queued {
      NothingMoved(c, s, s, clock, now, k);
    } else {
      CancelKeepsScopes(s, t);
      var k0 := s.tokens[t].scopeKey;
      CancelQueue(s.scopes[k0].queue, s.tokens, t);
      forall k', i | k' in s'.scopes && 0 <= i < |s'.scopes[k'].queue|
          && !Unowned(s'.tokens, s'.scopes[k'].queue[i].token)
        ensures s'.scopes[k'].queue[i].enqueuedAt <= now
      {
        assert s'.scopes[k'].queue[i] in s.scopes[k'].queue;
      }
      if k in s.scopes { CancelStepEffect(c, s, t, now, k); } else { NoScope(c, s, s', k, now); }
    }
  }

  /** A cancellation neither takes nor returns a permit. */
  lemma CancelAccount(s: State, t: nat, k: Key)
    requires t < |s.tokens| && k in s.scopes
    ensures var s' := Cancel(s, t);
            k in s'.scopes && Account(s'.scopes[k], s'.tokens, k) == Account(s.scopes[k], s.tokens, k)
  {
    assert Holders(Cancel(s, t).tokens, k) == Holders(s.tokens, k);
    assert Prepayers(Cancel(s, t).tokens, k) == Prepayers(s.tokens, k);
  }

  // ---- Reservation ----

  lemma SameStart(c: Config, a: State, b: State, s': State, k: Key, now: Ms)
    requires a.tokens == b.tokens && ScopeAt(a, k) == ScopeAt(b, k) && (k in a.scopes ==> k in b.scopes)
             && StepEffect(c, b, s', k, now)
    ensures StepEffect(c, a, s', k, now)
  {
    assert forall u: nat :: Gains(a, s', k, u) == Gains(b, s', k, u);
  }

  lemma EnsureKeepsInv(s: State, k: Key, clock: Ms)
    requires Inv(s, clock)
    ensures Inv(EnsureScope(s, k), clock)
  {
    var s1 := EnsureScope(s, k);
    forall x | x in s1.order ensures x in s1.scopes { assert x in s.order || x == k; }
    forall x | x in s1.scopes ensures x in s1.order { assert x in s.scopes || x == k; }
    forall k' | k' in s1.scopes ensures ScopeOk(k', s1.scopes[k'], s1.tokens) {
      assert k' in s.scopes ==> ScopeOk(k', s.scopes[k'], s.tokens);
    }
  }

  lemma PreparedRefl(s: State)
    ensures Prepared(s, s)
  {
  }

  lemma ServedKeeps(c: Config, s: State, clock: Ms, k0: Key, now: Ms, k: Key)
    requires ValidConfig(c) && Inv(s, clock) && clock <= now
    ensures var s2 := Served(c, s, k0, now);
            && Kept(c, s, s2, k, now)
            && k0 in s2.scopes && WorkConserving(c, s2.scopes[k0], s2.tokens, now)
            && ScopeAt(s2, k).cooldownUntil == ScopeAt(s, k).cooldownUntil
            && Account(ScopeAt(s2, k), s2.tokens, k) == Account(ScopeAt(s, k), s.tokens, k)
            && (Tidy(ScopeAt(s, k), s.tokens) ==> Tidy(ScopeAt(s2, k), s2.tokens))
  {
    ServedEffect(c, s, clock, k0, now, k);
    ServedCounts(c, s, clock, k0, now, k);
  }

  lemma ServedEffect(c: Config, s: State, clock: Ms, k0: Key, now: Ms, k: Key)
    requires ValidConfig(c) && Inv(s, clock) && clock <= now
    ensures var s2 := Served(c, s, k0, now);
            Kept(c, s, s2, k, now) && k0 in s2.scopes && WorkConserving(c, s2.scopes[k0], s2.tokens, now)
  {
    var s1 := EnsureScope(s, k0);
    EnsureKeepsInv(s, k0, clock);
    PreparedRefl(s1);
    if |s1.scopes[k0].queue| > 0 {
      PumpAfterPreparing(c, s1, s1, clock, now, k);
      var s2 := Pump(c, s1, s1.order, now);
      assert WorkConserving(c, s2.scopes[k0], s2.tokens, now);
      SameStart(c, s, s1, s2, k, now);
    } else {
      NothingMoved(c, s1, s1, clock, now, k);
      SameStart(c, s, s1, s1, k, now);
    }
  }

  lemma ServedCounts(c: Config, s: State, clock: Ms, k0: Key, now: Ms, k: Key)
    requires ValidConfig(c) && Inv(s, clock) && clock <= now
    ensures var s2 := Served(c, s, k0, now);
            && ScopeAt(s2, k).cooldownUntil == ScopeAt(s, k).cooldownUntil
            && Account(ScopeAt(s2, k), s2.tokens, k) == Account(ScopeAt(s, k), s.tokens, k)
            && (Tidy(ScopeAt(s, k), s.tokens) ==> Tidy(ScopeAt(s2, k), s2.tokens))
  {
    var s1 := EnsureScope(s, k0);
    EnsureKeepsInv(s, k0, clock);
    if |s1.scopes[k0].queue| > 0 {
      PumpEffect(c, s1, s1.order, now);
      var s2 := Pump(c, s1, s1.order, now);
      if k in s1.scopes {
        assert Pumped(c, k, s1.scopes[k], s1.tokens, s2.scopes[k], s2.tokens, now);
      } else {
        assert Holders(s2.tokens, k) == {} == Holders(s1.tokens, k);
        assert Prepayers(s2.tokens, k) == {} == Prepayers(s1.tokens, k);
      }
    }
  }

  /** A free permit goes to the fresh arrival. */
  function ArriveGranted(s: State, k: Key, p: Priority): State {
    WithScope(s, k, Grant(ScopeAt(s, k), |s.tokens|)).(tokens := s.tokens + [NewToken(k, p, Admitted)])
  }

  /** The fresh arrival joins the end of the queue. */
  function ArriveParked(s: State, k: Key, p: Priority, now: Ms): State {
    var sc := ScopeAt(s, k);
    var s1 := WithScope(s, k, sc.(queue := sc.queue + [Entry(p, now, |s.tokens|)]));
    s1.(tokens := s.tokens + [NewToken(k, p, Queued)])
  }

  lemma MoreTokensScopeOk(k: Key, sc: Scope, toks: seq<Token>, tok: Token)
    requires ScopeOk(k, sc, toks)
    ensures ScopeOk(k, sc, toks + [tok])
    ensures Tombstones(sc.queue, toks + [tok]) == Tombstones(sc.queue, toks)
  {
    TombstonesSame(sc.queue, toks, toks + [tok]);
  }

  lemma GrantedScope(s: State, k0: Key, p: Priority, now: Ms, k: Key)
    requires Inv(s, now) && k0 in s.scopes && k in s.scopes
    ensures var s' := ArriveGranted(s, k0, p); ScopeOk(k, s'.scopes[k], s'.tokens)
  {
    MoreTokensScopeOk(k, s.scopes[k], s.tokens, NewToken(k0, p, Admitted));
  }

  lemma GrantedKeepsInv(s: State, k0: Key, p: Priority, now: Ms)
    requires Inv(s, now) && k0 in s.scopes
    ensures Inv(ArriveGranted(s, k0, p), now)
  {
    var s' := ArriveGranted(s, k0, p);
    GrantedScopes(s, k0, p, now);
    assert forall k | k in s'.scopes :: s'.scopes[k].queue == s.scopes[k].queue;
  }

  lemma GrantedScopes(s: State, k0: Key, p: Priority, now: Ms)
    requires Inv(s, now) && k0 in s.scopes
    ensures ScopesOk(ArriveGranted(s, k0, p))
  {
    var s' := ArriveGranted(s, k0, p);
    forall k | k in s'.scopes ensures ScopeOk(k, s'.scopes[k], s'.tokens) { GrantedScope(s, k0, p, now, k); }
  }

  lemma ParkedScopeOk(k: Key, sc: Scope, toks: seq<Token>, p: Priority, now: Ms)
    requires ScopeOk(k, sc, toks)
    requires forall i | 0 <= i < |sc.queue| && !Unowned(toks, sc.queue[i].token) :: sc.queue[i].enqueuedAt <= now
    ensures ScopeOk(k, sc.(queue := sc.queue + [Entry(p, now, |toks|)]), toks + [NewToken(k, p, Queued)])
  {
  }

  lemma ParkedScope(s: State, k0: Key, p: Priority, now: Ms, k: Key)
    requires Inv(s, now) && k0 in s.scopes && k in s.scopes
    ensures var s' := ArriveParked(s, k0, p, now); ScopeOk(k, s'.scopes[k], s'.tokens)
  {
    MoreTokensScopeOk(k, s.scopes[k], s.tokens, NewToken(k0, p, Queued));
    if k == k0 { ParkedScopeOk(k0, s.scopes[k0], s.tokens, p, now); }
  }

  lemma ParkedScopes(s: State, k0: Key, p: Priority, now: Ms)
    requires Inv(s, now) && k0 in s.scopes
    ensures ScopesOk(ArriveParked(s, k0, p, now))
  {
    var s' := ArriveParked(s, k0, p, now);
    forall k | k in s'.scopes ensures ScopeOk(k, s'.scopes[k], s'.tokens) { ParkedScope(s, k0, p, now, k); }
  }

  lemma ParkedNotAfter(s: State, k0: Key, p: Priority, now: Ms)
    requires Inv(s, now) && k0 in s.scopes
    ensures NotAfter(ArriveParked(s, k0, p, now), now)
  {
    var s' := ArriveParked(s, k0, p, now);
    forall k, i | k in s'.scopes && 0 <= i < |s'.scopes[k].queue| && !Unowned(s'.tokens, s'.scopes[k].queue[i].token)
      ensures s'.scopes[k].queue[i].enqueuedAt <= now
    {
      if i < |s.scopes[k].queue| {
        assert ScopeOk(k, s.scopes[k], s.tokens) && s'.scopes[k].queue[i] == s.scopes[k].queue[i];
      }
    }
  }

  lemma ParkedKeepsInv(s: State, k0: Key, p: Priority, now: Ms)
    requires Inv(s, now) && k0 in s.scopes
    ensures Inv(ArriveParked(s, k0, p, now), now)
  {
    ParkedScopes(s, k0, p, now);
    ParkedNotAfter(s, k0, p, now);
  }

  /** A direct grant overtakes nobody: it happens only when no owned waiter remains. */
  lemma GrantedEffect(c: Config, s: State, k0: Key, p: Priority, now: Ms, k: Key)
    requires Inv(s, now) && k0 in s.scopes && k in s.scopes
    requires WorkConserving(c, s.scopes[k0], s.tokens, now) && CanGrant(c, s.scopes[k0], now)
    ensures StepEffect(c, s, ArriveGranted(s, k0, p), k, now)
  {
    GrantedQueue(s, k0, p, now, k);
    GrantedOvertakesNobody(c, s, k0, p, now, k);
  }

  lemma GrantedQueue(s: State, k0: Key, p: Priority, now: Ms, k: Key)
    requires Inv(s, now) && k0 in s.scopes && k in s.scopes
    ensures QueueGrows(s, ArriveGranted(s, k0, p), k)
  {
    MoreTokensScopeOk(k, s.scopes[k], s.tokens, NewToken(k0, p, Admitted));
  }

  lemma GrantedOvertakesNobody(c: Config, s: State, k0: Key, p: Priority, now: Ms, k: Key)
    requires Inv(s, now) && k0 in s.scopes && k in s.scopes
    requires WorkConserving(c, s.scopes[k0], s.tokens, now) && CanGrant(c, s.scopes[k0], now)
    ensures NotOvertaken(c, s, ArriveGranted(s, k0, p), k, now)
  {
    var q := s.scopes[k].queue;
    forall t: nat, u: nat | Gains(s, ArriveGranted(s, k0, p), k, u) ensures !AgedWaiter(c, q, s.tokens, now, t) {
      assert u == |s.tokens| && k == k0;
    }
  }

  lemma GrantedAccount(s: State, k0: Key, p: Priority, k: Key)
    requires k0 in s.scopes
    ensures var s' := ArriveGranted(s, k0, p);
            Account(ScopeAt(s', k), s'.tokens, k) == Account(ScopeAt(s, k), s.tokens, k)
  {
    var s' := ArriveGranted(s, k0, p);
    assert Holders(s'.tokens, k) == if k == k0 then Holders(s.tokens, k) + {|s.tokens|} else Holders(s.tokens, k);
    assert Prepayers(s'.tokens, k) == Prepayers(s.tokens, k);
  }

  lemma ParkedAccount(s: State, k0: Key, p: Priority, now: Ms, k: Key)
    requires k0 in s.scopes
    ensures var s' := ArriveParked(s, k0, p, now);
            Account(ScopeAt(s', k), s'.tokens, k) == Account(ScopeAt(s, k), s.tokens, k)
  {
    var s' := ArriveParked(s, k0, p, now);
    assert Holders(s'.tokens, k) == Holders(s.tokens, k) && Prepayers(s'.tokens, k) == Prepayers(s.tokens, k);
  }

  /** A fresh arrival has given nothing back. */
  lemma ArrivalTidy(s: State, k0: Key, p: Priority, now: Ms, k: Key)
    requires ScopesOk(s) && k0 in s.scopes && Tidy(ScopeAt(s, k), s.tokens)
    ensures var s' := ArriveGranted(s, k0, p); Tidy(ScopeAt(s', k), s'.tokens)
    ensures var s' := ArriveParked(s, k0, p, now); Tidy(ScopeAt(s', k), s'.tokens)
  {
    GrantedTidy(s, k0, p, k);
    ParkedTidy(s, k0, p, now, k);
  }

  lemma GrantedTidy(s: State, k0: Key, p: Priority, k: Key)
    requires ScopesOk(s) && k0 in s.scopes && Tidy(ScopeAt(s, k), s.tokens)
    ensures var s' := ArriveGranted(s, k0, p); Tidy(ScopeAt(s', k), s'.tokens)
  {
    if k in s.scopes { assert ScopeOk(k, s.scopes[k], s.tokens); }
  }

  lemma ParkedTidy(s: State, k0: Key, p: Priority, now: Ms, k: Key)
    requires ScopesOk(s) && k0 in s.scopes && Tidy(ScopeAt(s, k), s.tokens)
    ensures var s' := ArriveParked(s, k0, p, now); Tidy(ScopeAt(s', k), s'.tokens)
  {
    if k in s.scopes { assert ScopeOk(k, s.scopes[k], s.tokens); }
  }

  lemma BehindEverybody(q: seq<Entry>, e: Entry)
    ensures forall u: nat, t: nat | t != e.token && Before(q + [e], u, t) :: Before(q, u, t)
    ensures forall x | x in q + [e] && x != e :: x in q
    ensures forall t: nat | Waits(q, t) :: Waits(q + [e], t)
  {
    forall t: nat | Waits(q, t) ensures Waits(q + [e], t) {
      var i :| 0 <= i < |q| && q[i].token == t;
      assert (q + [e])[i].token == t;
    }
  }

  lemma ParkedQueueGrows(s: State, k0: Key, p: Priority, now: Ms, k: Key)
    requires ScopesOk(s) && k0 in s.scopes && k in s.scopes
    ensures QueueGrows(s, ArriveParked(s, k0, p, now), k)
  {
    var s' := ArriveParked(s, k0, p, now);
    var q := s.scopes[k].queue;
    MoreTokensScopeOk(k, s.scopes[k], s.tokens, s'.tokens[|s.tokens|]);
    if k == k0 {
      TombstonesAppend(q, [s'.scopes[k].queue[|q|]], s'.tokens);
      BehindEverybody(q, s'.scopes[k].queue[|q|]);
    }
  }

  lemma ParkedEffect(c: Config, s: State, k0: Key, p: Priority, now: Ms, k: Key)
    requires Inv(s, now) && k0 in s.scopes && k in s.scopes && |s.scopes[k0].queue| < c.queueCapacity
    ensures StepEffect(c, s, ArriveParked(s, k0, p, now), k, now)
  {
    ParkedQueueGrows(s, k0, p, now, k);
    if k == k0 { BehindEverybody(s.scopes[k].queue, Entry(p, now, |s.tokens|)); }
    assert forall u: nat :: !Gains(s, ArriveParked(s, k0, p, now), k, u);
  }

  // ---- Two effects at one reading of the clock ----

  lemma WaitsBefore(q: seq<Entry>, q': seq<Entry>, n: nat, t: nat)
    requires (forall e | e in q' && e.token < n :: e in q) && t < n && Waits(q', t)
    ensures Waits(q, t)
  {
    var i :| 0 <= i < |q'| && q'[i].token == t;
    assert q'[i] in q;
  }

  /** An aged waiter that still waits, at the same or a later time. */
  lemma StillAged(c: Config, k: Key, a: State, b: State, now: Ms, later: Ms, t: nat)
    requires ScopesOk(a) && k in a.scopes && QueueGrows(a, b, k) && t < |a.tokens| && t < |b.tokens| && now <= later
    requires b.tokens[t].unowned == a.tokens[t].unowned
    requires AgedWaiter(c, a.scopes[k].queue, a.tokens, now, t) && Waits(ScopeAt(b, k).queue, t)
    ensures AgedWaiter(c, ScopeAt(b, k).queue, b.tokens, later, t)
  {
    assert ScopeOk(k, a.scopes[k], a.tokens);
    var q' := ScopeAt(b, k).queue;
    var j :| 0 <= j < |q'| && q'[j].token == t;
    assert q'[j] in a.scopes[k].queue;
  }

  lemma FairTrans(c: Config, a: State, b: State, d: State, k: Key, now: Ms)
    requires ScopesOk(a) && StepEffect(c, a, b, k, now) && StepEffect(c, b, d, k, now) && Shielded(c, a, k)
    ensures NotOvertaken(c, a, d, k, now)
  {
    var q, q2, q3 := ScopeAt(a, k).queue, ScopeAt(b, k).queue, ScopeAt(d, k).queue;
    forall t: nat, u: nat | AgedWaiter(c, q, a.tokens, now, t) && Waits(q3, t) && Gains(a, d, k, u)
        ensures Before(q, u, t) {
      assert Gains(a, b, k, u) || Gains(b, d, k, u);
      assert k in a.scopes && ScopeOk(k, a.scopes[k], a.tokens);
      WaitsBefore(q2, q3, |b.tokens|, t);
      StillAged(c, k, a, b, now, now, t);
      assert Before(q, u, t) || Before(q2, u, t);
    }
  }

  lemma QueueTrans(a: State, b: State, d: State, k: Key)
    requires |a.tokens| <= |b.tokens| && QueueGrows(a, b, k) && QueueGrows(b, d, k)
    ensures QueueGrows(a, d, k)
  {
  }

  lemma TokensTrans(a: State, b: State, d: State)
    requires TokensKept(a, b) && TokensKept(b, d)
    ensures TokensKept(a, d)
  {
  }

  lemma LeaversTrans(a: State, b: State, d: State, k: Key)
    requires TokensKept(a, b) && TokensKept(b, d) && LeaversDecided(a, b, k) && LeaversDecided(b, d, k)
    ensures LeaversDecided(a, d, k)
  {
  }

  lemma GainsTrans(a: State, b: State, d: State, k: Key, now: Ms)
    requires TokensKept(a, b) && TokensKept(b, d) && GainsAfterCooldown(a, b, k, now)
             && GainsAfterCooldown(b, d, k, now)
    requires ScopeAt(d, k).cooldownUntil == ScopeAt(b, k).cooldownUntil
    ensures GainsAfterCooldown(a, d, k, now)
  {
    forall u: nat | Gains(a, d, k, u) ensures CooldownOver(ScopeAt(d, k), now) {
      assert Gains(a, b, k, u) || Gains(b, d, k, u);
    }
  }

  lemma StepTrans(c: Config, a: State, b: State, d: State, k: Key, now: Ms)
    requires ScopesOk(a) && StepEffect(c, a, b, k, now) && StepEffect(c, b, d, k, now)
    requires ScopeAt(d, k).cooldownUntil == ScopeAt(b, k).cooldownUntil
    requires ScopeAt(d, k).inFlight.Some?
             || (ScopeAt(b, k).inFlight.None? && ScopeAt(d, k).concurrent == ScopeAt(b, k).concurrent)
    ensures StepEffect(c, a, d, k, now)
  {
    TokensTrans(a, b, d);
    LeaversTrans(a, b, d, k);
    GainsTrans(a, b, d, k, now);
    QueueTrans(a, b, d, k);
    if Shielded(c, a, k) { FairTrans(c, a, b, d, k, now); }
  }
}
