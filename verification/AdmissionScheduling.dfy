/**
 The scheduler's decisions in terms of the configured class order, the ages of the
 entries and the counts of a scope: which entry a permit goes to, how many permits an
 operation hands out, and what becomes of a request.
 */
module AdmissionScheduling {
  import opened Wrappers
  import opened AdmissionModel
  import opened AdmissionPump
  import opened AdmissionSteps
  import opened AdmissionRuns
  import opened AdmissionTheorems

  lemma EachOnce(x: Priority, y: Priority, z: Priority)
    ensures x != y && x != z && y != z <==> multiset{x, y, z} == multiset{Interactive, Background, Title}
  {
    if x == y { assert multiset{x, y, z}[x] >= 2; }
    if x == z { assert multiset{x, y, z}[x] >= 2; }
    if y == z { assert multiset{x, y, z}[y] >= 2; }
  }

  /** A configuration is accepted exactly when its amounts are positive and its classes are the three
      there are, in any order. */
  lemma AcceptedConfigs(c: Config)
    ensures ValidConfig(c)
            <==> && c.maxConcurrent > 0 && c.queueCapacity > 0
                 && c.maxWaitMs > 0.0 && c.retryDelayMs > 0.0 && c.cooldownMaxMs > 0.0
                 && multiset(c.classes) == multiset{Interactive, Background, Title}
  {
    if |c.classes| == 3 {
      assert c.classes == [c.classes[0], c.classes[1], c.classes[2]];
      EachOnce(c.classes[0], c.classes[1], c.classes[2]);
    } else {
      assert |multiset(c.classes)| == |c.classes| && |multiset{Interactive, Background, Title}| == 3;
    }
  }

  // ---- Which entry ----

  /** Entry `i` may take a permit as the class at place `m` of the configured order: its own, or
      interactive once it has waited out the bound; a title only while no owned entry is interactive. */
  ghost predicate CompetesAs(c: Config, q: seq<Entry>, toks: seq<Token>, now: Ms, i: nat, m: nat) {
    && i < |q| && m < |c.classes| && !Unowned(toks, q[i].token)
    && c.classes[m] == (if now - q[i].enqueuedAt >= c.maxWaitMs then Interactive else q[i].priority)
    && (c.classes[m] == Title ==>
          forall j | 0 <= j < |q| && !Unowned(toks, q[j].token) ::
            q[j].priority != Interactive && now - q[j].enqueuedAt < c.maxWaitMs)
  }

  lemma PlaceInOrder(c: Config, p: Priority) returns (m: nat)
    requires ValidConfig(c)
    ensures m < |c.classes| && c.classes[m] == p && Rank(c, p) == m
    ensures forall n: nat | n < |c.classes| && c.classes[n] == p :: n == m
  {
    m := if c.classes[0] == p then 0 else if c.classes[1] == p then 1 else 2;
  }

  lemma EligibleCompetes(c: Config, q: seq<Entry>, toks: seq<Token>, now: Ms, i: nat) returns (m: nat)
    requires ValidConfig(c) && i < |q|
    ensures m == Rank(c, Effective(c, q[i], now))
    ensures forall n: nat :: CompetesAs(c, q, toks, now, i, n) <==> n == m && Eligible(c, q, toks, now, i)
  {
    m := PlaceInOrder(c, Effective(c, q[i], now));
  }

  /** Competing as class `m`, entry `i` goes before entry `j`, which competes as class `n`. */
  predicate GoesFirst(q: seq<Entry>, i: nat, m: nat, j: nat, n: nat)
    requires i < |q| && j < |q|
  {
    m < n || (m == n && (q[i].enqueuedAt < q[j].enqueuedAt || (q[i].enqueuedAt == q[j].enqueuedAt && i < j)))
  }

  /** The scheduler chooses exactly the entry that goes before all others that may take a permit: by the
      place of its class in the configuration, then by age, then by its place in the queue. */
  lemma ChoiceExactly(c: Config, q: seq<Entry>, toks: seq<Token>, now: Ms, b: nat)
    requires ValidConfig(c) && b < |q|
    ensures Best(c, q, toks, now, |q|) == Some(b)
            <==> exists m: nat :: CompetesAs(c, q, toks, now, b, m)
                   && forall j: nat, n: nat | j != b && CompetesAs(c, q, toks, now, j, n) :: GoesFirst(q, b, m, j, n)
  {
    var m := EligibleCompetes(c, q, toks, now, b);
    var best := Best(c, q, toks, now, |q|);
    if best == Some(b) {
      assert CompetesAs(c, q, toks, now, b, m);
      forall j: nat, n: nat | j != b && CompetesAs(c, q, toks, now, j, n) ensures GoesFirst(q, b, m, j, n) {
        var n' := EligibleCompetes(c, q, toks, now, j);
        assert Eligible(c, q, toks, now, j);
      }
    } else if CompetesAs(c, q, toks, now, b, m) {
      assert Eligible(c, q, toks, now, b);
      var n := EligibleCompetes(c, q, toks, now, best.value);
      assert CompetesAs(c, q, toks, now, best.value, n);
      assert !GoesFirst(q, b, m, best.value, n);
    }
  }

  /** It declines exactly a queue of tombstones. */
  lemma DeclinesExactly(c: Config, q: seq<Entry>, toks: seq<Token>, now: Ms)
    ensures Best(c, q, toks, now, |q|).None? <==> forall i | 0 <= i < |q| :: Unowned(toks, q[i].token)
  {
    if Best(c, q, toks, now, |q|).None? { EveryoneUnowned(c, q, toks, now); }
  }

  // ---- How many permits ----

  /** What a scope may hand out: nothing during a cooldown, otherwise what the cap leaves. */
  function Free(c: Config, concurrent: nat, cooldownUntil: Option<Ms>, now: Ms): nat {
    if cooldownUntil.Some? && now < cooldownUntil.value then 0
    else if concurrent >= c.maxConcurrent then 0 else c.maxConcurrent - concurrent
  }

  /** The entries somebody waits behind. */
  function Owned(q: seq<Entry>, toks: seq<Token>): int {
    |q| - |Tombstones(q, toks)|
  }

  function Min(a: int, b: int): int {
    if a <= b then a else b
  }

  /** What one pump of a scope hands out: as much as it may, as long as somebody waits. */
  function HandedOut(c: Config, sc: Scope, toks: seq<Token>, now: Ms): int {
    Min(Free(c, sc.concurrent, sc.cooldownUntil, now), Owned(sc.queue, toks))
  }

  lemma {:induction false} OwnedCounts(q: seq<Entry>, toks: seq<Token>)
    ensures 0 <= Owned(q, toks)
    ensures Owned(q, toks) == 0 <==> forall i | 0 <= i < |q| :: Unowned(toks, q[i].token)
  {
    if q != [] {
      OwnedCounts(q[1..], toks);
      assert forall i | 1 <= i < |q| :: q[i] == q[1..][i - 1];
    }
  }

  /** One grant leaves one permit and one owned entry less. */
  lemma GrantHandsOut(c: Config, k: Key, sc: Scope, toks: seq<Token>, now: Ms, b: nat)
    requires ScopeOk(k, sc, toks) && Chosen(c, sc, toks, now, b)
    ensures var t := sc.queue[b].token; var sc1 := Grant(sc.(queue := RemoveAt(sc.queue, b)), t);
            HandedOut(c, sc1, Admit(toks, t), now) == HandedOut(c, sc, toks, now) - 1
  {
    var t, q' := sc.queue[b].token, RemoveAt(sc.queue, b);
    TombstonesRemove(sc.queue, b, toks);
    TombstonesSame(q', toks, Admit(toks, t));
  }

  lemma {:induction false} PumpHandsOut(c: Config, k: Key, sc: Scope, toks: seq<Token>, now: Ms)
    requires ValidConfig(c) && ScopeOk(k, sc, toks)
    ensures var sc' := PumpScope(c, sc, toks, now).0;
            && sc'.concurrent == sc.concurrent + HandedOut(c, sc, toks, now)
            && |sc'.queue| == |sc.queue| - HandedOut(c, sc, toks, now)
    decreases |sc.queue|
  {
    var b := Best(c, sc.queue, toks, now, |sc.queue|);
    if CanGrant(c, sc, now) && b.Some? {
      var t := sc.queue[b.value].token;
      var sc1 := Grant(sc.(queue := RemoveAt(sc.queue, b.value)), t);
      GrantKeepsScopeOk(c, k, sc, toks, now, b.value);
      GrantHandsOut(c, k, sc, toks, now, b.value);
      PumpHandsOut(c, k, sc1, Admit(toks, t), now);
    } else {
      OwnedCounts(sc.queue, toks);
      DeclinesExactly(c, sc.queue, toks, now);
    }
  }

  /** The first permit a pump of the scope hands out goes to the scheduler's choice. */
  lemma ChosenIsServed(c: Config, k: Key, sc: Scope, toks: seq<Token>, now: Ms, b: nat)
    requires ValidConfig(c) && ScopeOk(k, sc, toks) && b < |sc.queue|
    requires Free(c, sc.concurrent, sc.cooldownUntil, now) > 0 && Best(c, sc.queue, toks, now, |sc.queue|) == Some(b)
    ensures var toks' := PumpScope(c, sc, toks, now).1; var t := sc.queue[b].token;
            t < |toks'| && toks'[t].phase == Admitted
  {
    var t := sc.queue[b].token;
    var sc1, toks1 := Grant(sc.(queue := RemoveAt(sc.queue, b)), t), Admit(toks, t);
    GrantKeepsScopeOk(c, k, sc, toks, now, b);
    PumpScopeEffect(c, k, sc1, toks1, now);
    assert SameIdentity(toks1[t], PumpScope(c, sc1, toks1, now).1[t]);
  }

  lemma {:induction false} BestSame(c: Config, q: seq<Entry>, toks: seq<Token>, toks': seq<Token>, now: Ms, n: nat)
    requires n <= |q| && forall i | 0 <= i < |q| :: Unowned(toks, q[i].token) == Unowned(toks', q[i].token)
    ensures Best(c, q, toks, now, n) == Best(c, q, toks', now, n)
  {
    if n > 0 {
      BestSame(c, q, toks, toks', now, n - 1);
      assert Eligible(c, q, toks, now, n - 1) == Eligible(c, q, toks', now, n - 1);
    }
  }

  /** What pumping another scope leaves of this one. */
  lemma OtherScopeSame(c: Config, s: State, k0: Key, k: Key, now: Ms)
    requires ValidConfig(c) && ScopesOk(s) && k0 in s.scopes && k in s.scopes && k != k0
    ensures var s1 := PumpOne(c, s, k0, now);
            && s1.scopes[k] == s.scopes[k] && ScopeOk(k, s1.scopes[k], s1.tokens)
            && HandedOut(c, s1.scopes[k], s1.tokens, now) == HandedOut(c, s.scopes[k], s.tokens, now)
            && Best(c, s1.scopes[k].queue, s1.tokens, now, |s1.scopes[k].queue|)
               == Best(c, s.scopes[k].queue, s.tokens, now, |s.scopes[k].queue|)
  {
    var s1, q := PumpOne(c, s, k0, now), s.scopes[k].queue;
    PumpScopeEffect(c, k0, s.scopes[k0], s.tokens, now);
    assert |s1.tokens| == |s.tokens| && forall t: nat | t < |s.tokens| :: SameIdentity(s.tokens[t], s1.tokens[t]);
    OtherScopePumped(c, k, s.scopes[k], s.tokens, s1.tokens, now);
    TombstonesSame(q, s.tokens, s1.tokens);
    BestSame(c, q, s.tokens, s1.tokens, now, |q|);
  }

  /** A scope that was pumped has nothing more to hand out. */
  lemma SamePumpedScope(c: Config, s: State, k: Key, now: Ms)
    requires ValidConfig(c) && ScopesOk(s) && k in s.scopes
    ensures var s1 := PumpOne(c, s, k, now);
            && k in s1.scopes && HandedOut(c, s1.scopes[k], s1.tokens, now) == 0
            && s1.scopes[k].concurrent == s.scopes[k].concurrent + HandedOut(c, s.scopes[k], s.tokens, now)
            && |s1.scopes[k].queue| == |s.scopes[k].queue| - HandedOut(c, s.scopes[k], s.tokens, now)
  {
    PumpHandsOut(c, k, s.scopes[k], s.tokens, now);
    PumpScopeEffect(c, k, s.scopes[k], s.tokens, now);
    OwnedCounts(s.scopes[k].queue, s.tokens);
  }

  /** Pumping a list of scopes hands out in each of them what a pump of it alone does. */
  lemma {:induction false} PumpAllHandsOut(c: Config, s: State, keys: seq<Key>, now: Ms, k: Key)
    requires ValidConfig(c) && ScopesOk(s) && k in s.scopes && forall x | x in keys :: x in s.scopes
    ensures var s' := Pump(c, s, keys, now); var n := if k in keys then HandedOut(c, s.scopes[k], s.tokens, now) else 0;
            && k in s'.scopes && s'.scopes[k].concurrent == s.scopes[k].concurrent + n
            && |s'.scopes[k].queue| == |s.scopes[k].queue| - n
    decreases |keys|
  {
    if keys != [] {
      var s1 := PumpOne(c, s, keys[0], now);
      PumpOneKeepsScopes(c, s, keys[0], now);
      PumpAllHandsOut(c, s1, keys[1..], now, k);
      if k == keys[0] { SamePumpedScope(c, s, k, now); } else { OtherScopeSame(c, s, keys[0], k, now); }
    }
  }

  lemma {:induction false} PumpAllServes(c: Config, s: State, keys: seq<Key>, now: Ms, k: Key, b: nat)
    requires ValidConfig(c) && ScopesOk(s) && k in keys && forall x | x in keys :: x in s.scopes
    requires var sc := s.scopes[k];
             && b < |sc.queue| && Best(c, sc.queue, s.tokens, now, |sc.queue|) == Some(b)
             && Free(c, sc.concurrent, sc.cooldownUntil, now) > 0
    ensures var s', t := Pump(c, s, keys, now), s.scopes[k].queue[b].token;
            t < |s'.tokens| && s'.tokens[t].phase == Admitted
    decreases |keys|
  {
    var s1, t := PumpOne(c, s, keys[0], now), s.scopes[k].queue[b].token;
    PumpOneKeepsScopes(c, s, keys[0], now);
    if k == keys[0] {
      ChosenIsServed(c, k, s.scopes[k], s.tokens, now, b);
      PumpEffect(c, s1, keys[1..], now);
      assert SameIdentity(s1.tokens[t], Pump(c, s1, keys[1..], now).tokens[t]);
    } else {
      OtherScopeSame(c, s, keys[0], k, now);
      PumpAllServes(c, s1, keys[1..], now, k, b);
    }
  }

  // ---- Reservations ----

  lemma ServedHandsOut(c: Config, s: State, clock: Ms, k: Key, now: Ms)
    requires ValidConfig(c) && Inv(s, clock) && clock <= now
    ensures var s2, sc := Served(c, s, k, now), ScopeAt(s, k);
            && k in s2.scopes && s2.scopes[k].cooldownUntil == sc.cooldownUntil && |s2.tokens| == |s.tokens|
            && s2.scopes[k].concurrent == sc.concurrent + HandedOut(c, sc, s.tokens, now)
            && |s2.scopes[k].queue| == |sc.queue| - HandedOut(c, sc, s.tokens, now)
  {
    var s1 := EnsureScope(s, k);
    EnsureKeepsInv(s, k, clock);
    ServedKeeps(c, s, clock, k, now, k);
    if |s1.scopes[k].queue| > 0 {
      PumpAllHandsOut(c, s1, s1.order, now, k);
      PumpEffect(c, s1, s1.order, now);
    }
  }

  /** What becomes of a request: it is admitted at once exactly when more permits may be handed out than
      owned entries wait; otherwise those waiters get what there is, and the request is parked with its
      class and this moment, unless the queue is still full. */
  lemma ReservationExactly(c: Config, s: State, clock: Ms, k: Key, p: Priority, now: Ms)
    requires ValidConfig(c) && Inv(s, clock) && clock <= now
    ensures var (s', outcome) := Reserve(c, s, k, p, now); var sc, sc' := ScopeAt(s, k), ScopeAt(s', k);
            var free, owned := Free(c, sc.concurrent, sc.cooldownUntil, now), Owned(sc.queue, s.tokens);
            && (outcome.Granted? <==> free > owned)
            && (outcome.Saturated? <==> free <= owned && |sc.queue| - free >= c.queueCapacity)
            && sc'.concurrent == sc.concurrent + Min(free, owned + 1)
            && |sc'.queue| == |sc.queue| - Min(free, owned) + (if outcome.Parked? then 1 else 0)
            && (outcome.Parked? ==> sc'.queue[|sc'.queue| - 1] == Entry(p, now, outcome.token))
            && (outcome.Saturated? ==> outcome.waiting == |sc'.queue|)
            && (!outcome.Saturated? ==>
                  && outcome.token == |s.tokens| < |s'.tokens|
                  && s'.tokens[outcome.token].scopeKey == k
                  && s'.tokens[outcome.token].phase == if outcome.Granted? then Admitted else Queued)
  {
    ServedHandsOut(c, s, clock, k, now);
    OwnedCounts(ScopeAt(s, k).queue, s.tokens);
  }

  // ---- Returns ----

  function ReturnedCount(s: State, t: nat, k: Key): nat
    requires t < |s.tokens|
  {
    var n := ScopeAt(s, k).concurrent;
    if s.tokens[t].scopeKey == k && n > 0 then n - 1 else n
  }

  /** A return of a permit that is out, by whatever call. */
  predicate ReturnsPermit(s: State, step: Step, t: nat) {
    && Legal(s, step) && Returns(step, t)
    && t < |s.tokens| && s.tokens[t].phase == Admitted && !s.tokens[t].settled && !s.tokens[t].released
  }

  /** What is done before the permit itself goes back. */
  function BeforeReturn(c: Config, s: State, t: nat, step: Step, now: Ms): State
    requires t < |s.tokens|
  {
    if step.Rejecting? then OpenCooldown(c, s, s.tokens[t].scopeKey, step.hint, now)
    else if step.Releasing? then SetToken(s, t, s.tokens[t].(released := true)) else s
  }

  lemma BeforeReturnKeeps(c: Config, s: State, t: nat, step: Step, now: Ms)
    requires ScopesOk(s) && ReturnsPermit(s, step, t)
    ensures var s0 := BeforeReturn(c, s, t, step, now);
            && ScopesOk(s0) && s0.scopes.Keys == s.scopes.Keys && s0.order == s.order && |s0.tokens| == |s.tokens|
            && s0.tokens[t] == s.tokens[t].(released := s0.tokens[t].released)
            && (forall u: nat | u < |s.tokens| :: s0.tokens[u].unowned == s.tokens[u].unowned)
            && (forall k | k in s.scopes ::
                  s0.scopes[k] == s.scopes[k].(cooldownUntil := s0.scopes[k].cooldownUntil))
  {
    FlagReleased(s, t);
    if step.Rejecting? { CooldownOpened(c, s, s.tokens[t].scopeKey, step.hint, now); }
  }

  lemma ReturnApplied(c: Config, s: State, t: nat, step: Step, now: Ms)
    requires ScopesOk(s) && TokensOk(s) && ReturnsPermit(s, step, t)
    requires var s0 := BeforeReturn(c, s, t, step, now);
             && s0.order == s.order && t < |s0.tokens| && s0.tokens[t].scopeKey in s0.scopes
             && s0.tokens[t] == s.tokens[t].(released := s0.tokens[t].released)
    ensures Apply(c, s, step, now) == Pump(c, Returned(BeforeReturn(c, s, t, step, now), t), s.order, now)
  {
    assert Apply(c, s, step, now) == ReturnPermit(c, BeforeReturn(c, s, t, step, now), t, now);
  }

  lemma ReturnedFields(s0: State, t: nat, k: Key)
    requires t < |s0.tokens| && s0.tokens[t].scopeKey in s0.scopes && k in s0.scopes
    ensures var s1 := Returned(s0, t);
            && s1.scopes.Keys == s0.scopes.Keys && |s1.tokens| == |s0.tokens|
            && (forall u: nat | u < |s0.tokens| :: s1.tokens[u].unowned == s0.tokens[u].unowned)
            && s1.scopes[k].queue == s0.scopes[k].queue && s1.scopes[k].concurrent == ReturnedCount(s0, t, k)
  {
  }

  /** The state a return pumps, and what it holds of scope `k`. */
  lemma ReturnPumps(c: Config, s: State, t: nat, step: Step, now: Ms, k: Key) returns (s1: State)
    requires ScopesOk(s) && TokensOk(s) && ReturnsPermit(s, step, t) && k in s.scopes
    ensures ScopesOk(s1) && s1.scopes.Keys == s.scopes.Keys && Apply(c, s, step, now) == Pump(c, s1, s.order, now)
    ensures |s1.tokens| == |s.tokens| && forall u: nat | u < |s.tokens| :: s1.tokens[u].unowned == s.tokens[u].unowned
    ensures s1.scopes[k].queue == s.scopes[k].queue && s1.scopes[k].concurrent == ReturnedCount(s, t, k)
  {
    var s0 := BeforeReturn(c, s, t, step, now);
    BeforeReturnKeeps(c, s, t, step, now);
    s1 := Returned(s0, t);
    ReturnApplied(c, s, t, step, now);
    ReturnedScopesOk(s0, t);
    ReturnedFields(s0, t, k);
  }

  /** The cooldown of a scope when the pump begins is the one it ends with. */
  lemma PumpLeavesCooldown(c: Config, s: State, keys: seq<Key>, now: Ms, k: Key)
    requires ValidConfig(c) && ScopesOk(s) && k in s.scopes && forall x | x in keys :: x in s.scopes
    ensures var s' := Pump(c, s, keys, now); k in s'.scopes && s'.scopes[k].cooldownUntil == s.scopes[k].cooldownUntil
  {
    PumpEffect(c, s, keys, now);
    var s' := Pump(c, s, keys, now);
    assert Pumped(c, k, s.scopes[k], s.tokens, s'.scopes[k], s'.tokens, now);
  }

  lemma PumpedExactly(c: Config, s: State, keys: seq<Key>, now: Ms, k: Key)
    requires ValidConfig(c) && ScopesOk(s) && k in keys && forall x | x in keys :: x in s.scopes
    ensures var sc, sc' := s.scopes[k], ScopeAt(Pump(c, s, keys, now), k);
            var n := Min(Free(c, sc.concurrent, sc'.cooldownUntil, now), Owned(sc.queue, s.tokens));
            sc'.concurrent == sc.concurrent + n && |sc'.queue| == |sc.queue| - n
  {
    PumpAllHandsOut(c, s, keys, now, k);
    PumpLeavesCooldown(c, s, keys, now, k);
  }

  /** When a permit comes back, every scope hands out what it may, as long as somebody waits; the first
      permit of a scope goes to the entry ChoiceExactly describes. */
  lemma ReturnExactly(c: Config, s: State, clock: Ms, t: nat, step: Step, now: Ms, k: Key)
    requires ValidConfig(c) && Inv(s, clock) && clock <= now && ReturnsPermit(s, step, t) && k in s.scopes
    ensures var sc, sc' := s.scopes[k], ScopeAt(Apply(c, s, step, now), k);
            var free := Free(c, ReturnedCount(s, t, k), sc'.cooldownUntil, now);
            && sc'.concurrent == ReturnedCount(s, t, k) + Min(free, Owned(sc.queue, s.tokens))
            && |sc'.queue| == |sc.queue| - Min(free, Owned(sc.queue, s.tokens))
  {
    var s1 := ReturnPumps(c, s, t, step, now, k);
    PumpedExactly(c, s1, s.order, now, k);
    TombstonesSame(s.scopes[k].queue, s.tokens, s1.tokens);
  }

  lemma ReturnServes(c: Config, s: State, clock: Ms, t: nat, step: Step, now: Ms, k: Key, b: nat)
    requires ValidConfig(c) && Inv(s, clock) && clock <= now && ReturnsPermit(s, step, t)
    requires k in s.scopes && b < |s.scopes[k].queue|
    requires Free(c, ReturnedCount(s, t, k), ScopeAt(Apply(c, s, step, now), k).cooldownUntil, now) > 0
    requires Best(c, s.scopes[k].queue, s.tokens, now, |s.scopes[k].queue|) == Some(b)
    ensures Gains(s, Apply(c, s, step, now), k, s.scopes[k].queue[b].token)
  {
    var q := s.scopes[k].queue;
    var s1 := ReturnPumps(c, s, t, step, now, k);
    BestSame(c, q, s.tokens, s1.tokens, now, |q|);
    PumpLeavesCooldown(c, s1, s.order, now, k);
    PumpAllServes(c, s1, s.order, now, k, b);
    WaiterGains(c, s, clock, step, now, k, b);
  }

  lemma WaiterGains(c: Config, s: State, clock: Ms, step: Step, now: Ms, k: Key, b: nat)
    requires ValidConfig(c) && Inv(s, clock) && clock <= now && Legal(s, step)
    requires k in s.scopes && b < |s.scopes[k].queue|
    requires var s', t := Apply(c, s, step, now), s.scopes[k].queue[b].token;
             t < |s'.tokens| && s'.tokens[t].phase == Admitted
    ensures Gains(s, Apply(c, s, step, now), k, s.scopes[k].queue[b].token)
  {
    StepKeeps(c, s, clock, step, now, k);
    assert ScopeOk(k, s.scopes[k], s.tokens);
  }

  /** The cooldown ends: the first reservation at or after its end serves the waiter ChoiceExactly
      describes, before its own request. */
  lemma ReservationServes(c: Config, s: State, clock: Ms, k: Key, p: Priority, now: Ms, b: nat)
    requires ValidConfig(c) && Inv(s, clock) && clock <= now && k in s.scopes && b < |s.scopes[k].queue|
    requires Free(c, s.scopes[k].concurrent, s.scopes[k].cooldownUntil, now) > 0
    requires Best(c, s.scopes[k].queue, s.tokens, now, |s.scopes[k].queue|) == Some(b)
    ensures Gains(s, Reserve(c, s, k, p, now).0, k, s.scopes[k].queue[b].token)
  {
    assert ScopeOk(k, s.scopes[k], s.tokens);
    ServedServes(c, s, clock, k, now, b);
  }

  lemma ServedServes(c: Config, s: State, clock: Ms, k: Key, now: Ms, b: nat)
    requires ValidConfig(c) && Inv(s, clock) && clock <= now && k in s.scopes && b < |s.scopes[k].queue|
    requires Free(c, s.scopes[k].concurrent, s.scopes[k].cooldownUntil, now) > 0
    requires Best(c, s.scopes[k].queue, s.tokens, now, |s.scopes[k].queue|) == Some(b)
    ensures var s2, t := Served(c, s, k, now), s.scopes[k].queue[b].token;
            t < |s.tokens| == |s2.tokens| && s2.tokens[t].phase == Admitted && s2.tokens[t].scopeKey == k
  {
    var t := s.scopes[k].queue[b].token;
    assert ScopeOk(k, s.scopes[k], s.tokens);
    PumpAllServes(c, s, s.order, now, k, b);
    PumpEffect(c, s, s.order, now);
    assert SameIdentity(s.tokens[t], Pump(c, s, s.order, now).tokens[t]);
  }
}
