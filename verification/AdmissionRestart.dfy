/**
 Restart: what a snapshot keeps, what a restored controller may and may not do,
 and how the permit of an uncertain call comes back.
 */
module AdmissionRestart {
  import opened Wrappers
  import opened AdmissionModel
  import opened AdmissionPump
  import opened AdmissionSteps
  import opened AdmissionRuns
  import opened AdmissionPermits
  import opened AdmissionTheorems
  import opened AdmissionScheduling

  // ---- Fidelity ----

  /** A scope loaded from the snapshot: it saves as it was, only tombstones wait in it, and of the
      permits it counts only the uncertain one is held. */
  ghost predicate Loaded(s: State, snap: Snapshot, k: Key) {
    && k in s.scopes && k in snap.scopes
    && ScopeOk(k, s.scopes[k], s.tokens)
    && SaveScope(s.scopes[k]) == snap.scopes[k]
    && (forall i | 0 <= i < |s.scopes[k].queue| :: Unowned(s.tokens, s.scopes[k].queue[i].token))
    && Debt(s.scopes[k], s.tokens, k) == snap.scopes[k].concurrent - (if snap.scopes[k].inFlight then 1 else 0)
  }

  /** The state while `done` of the snapshot's scopes are loaded. */
  ghost predicate Loading(s: State, snap: Snapshot, done: seq<Key>) {
    && s.order == done
    && (forall k {:trigger Loaded(s, snap, k)} | k in done :: Loaded(s, snap, k))
    && (forall k | k in s.scopes :: k in done)
    && (forall t: nat | t < |s.tokens| :: s.tokens[t].scopeKey in done)
    && TokensOk(s)
  }

  lemma LoadedFresh(s: State, snap: Snapshot, k: Key)
    requires k !in s.scopes && k in snap.scopes && forall t: nat | t < |s.tokens| :: s.tokens[t].scopeKey != k
    ensures Loaded(RestoreScope(s, k, snap.scopes[k]), snap, k)
  {
    var st := snap.scopes[k];
    var sc, toks := RestoredScope(st, |s.tokens|), s.tokens + RestoredTokens(k, st);
    assert SaveQueue(sc.queue) == st.queue;
    assert Holders(toks, k) == if st.inFlight then {|s.tokens| + |st.queue|} else {};
  }

  lemma LoadedStays(s: State, snap: Snapshot, k: Key, k0: Key)
    requires Loaded(s, snap, k) && k != k0 && k0 in snap.scopes
    ensures Loaded(RestoreScope(s, k0, snap.scopes[k0]), snap, k)
  {
    var s' := RestoreScope(s, k0, snap.scopes[k0]);
    assert Holders(s'.tokens, k) == Holders(s.tokens, k);
  }

  lemma LoadOneScopes(s: State, snap: Snapshot, done: seq<Key>, k0: Key)
    requires Loading(s, snap, done) && k0 !in done && k0 in snap.scopes
    ensures var s' := RestoreScope(s, k0, snap.scopes[k0]);
            forall k {:trigger Loaded(s', snap, k)} | k in done || k == k0 :: Loaded(s', snap, k)
  {
    var s' := RestoreScope(s, k0, snap.scopes[k0]);
    LoadedFresh(s, snap, k0);
    forall k | k in done ensures Loaded(s', snap, k) { LoadedStays(s, snap, k, k0); }
  }

  lemma LoadOneTokens(s: State, k0: Key, st: ScopeState)
    requires TokensOk(s)
    ensures var s' := RestoreScope(s, k0, st);
            && TokensOk(s') && |s.tokens| <= |s'.tokens|
            && forall t: nat | t < |s'.tokens| ::
                 s'.tokens[t].scopeKey == if t < |s.tokens| then s.tokens[t].scopeKey else k0
  {
  }

  lemma LoadOne(s: State, snap: Snapshot, done: seq<Key>, k0: Key)
    requires Loading(s, snap, done) && k0 !in done && k0 in snap.scopes
    ensures Loading(RestoreScope(s, k0, snap.scopes[k0]), snap, done + [k0])
  {
    LoadOneScopes(s, snap, done, k0);
    LoadOneTokens(s, k0, snap.scopes[k0]);
    assert (done + [k0])[|done|] == k0;
    assert forall k :: k in done + [k0] <==> k in done || k == k0;
  }

  lemma {:induction false} LoadAll(s: State, snap: Snapshot, done: seq<Key>, rest: seq<Key>)
    requires ValidSnapshot(snap) && snap.order == done + rest && Loading(s, snap, done)
    requires forall k | k in rest :: k in snap.scopes
    ensures Loading(RestoreScopes(s, snap, rest), snap, done + rest)
    decreases |rest|
  {
    if rest == [] {
      assert done + rest == done;
    } else {
      forall i | 0 <= i < |done| ensures done[i] != rest[0] {
        assert snap.order[i] == done[i] && snap.order[|done|] == rest[0];
      }
      LoadOne(s, snap, done, rest[0]);
      assert done + [rest[0]] + rest[1..] == done + rest;
      LoadAll(RestoreScope(s, rest[0], snap.scopes[rest[0]]), snap, done + [rest[0]], rest[1..]);
    }
  }

  lemma LoadedSaves(s: State, snap: Snapshot)
    requires ValidSnapshot(snap) && Loading(s, snap, snap.order)
    ensures Save(s).scopes == snap.scopes && ScopesOk(s)
  {
    forall k | k in snap.scopes ensures k in s.scopes && SaveScope(s.scopes[k]) == snap.scopes[k] {
      assert Loaded(s, snap, k);
    }
    forall k | k in s.scopes ensures ScopeOk(k, s.scopes[k], s.tokens) {
      assert Loaded(s, snap, k);
    }
    forall t: nat | t < |s.tokens| ensures s.tokens[t].scopeKey in s.scopes {
      assert Loaded(s, snap, s.tokens[t].scopeKey);
    }
  }

  lemma LoadedInv(s: State, snap: Snapshot, clock: Ms)
    requires ValidSnapshot(snap) && Loading(s, snap, snap.order)
    ensures Inv(s.(restored := true), clock)
  {
    LoadedSaves(s, snap);
    forall k | k in s.order ensures k in s.scopes { assert Loaded(s, snap, k); }
    forall k, i | k in s.scopes && 0 <= i < |s.scopes[k].queue| ensures Unowned(s.tokens, s.scopes[k].queue[i].token) {
      assert Loaded(s, snap, k);
    }
  }

  /** A fresh controller loads any version-1 snapshot into a well-formed state that saves as the same
      snapshot; of the permits a scope counts, only the uncertain one is held. */
  lemma RestoreFidelity(snap: Snapshot, clock: Ms)
    requires ValidSnapshot(snap) && snap.version == 1
    ensures var r := Restore(EMPTY_STATE, snap);
            && r.Some? && r.value.restored
            && Save(r.value) == snap
            && Inv(r.value, clock)
            && (forall k | k in snap.scopes :: k in r.value.scopes &&
                  Debt(r.value.scopes[k], r.value.tokens, k)
                      == snap.scopes[k].concurrent - (if snap.scopes[k].inFlight then 1 else 0))
  {
    var s := RestoreScopes(EMPTY_STATE, snap, snap.order);
    assert [] + snap.order == snap.order;
    LoadAll(EMPTY_STATE, snap, [], snap.order);
    LoadedSaves(s, snap);
    LoadedInv(s, snap, clock);
    forall k | k in snap.scopes
      ensures k in s.scopes && Debt(s.scopes[k], s.tokens, k)
              == snap.scopes[k].concurrent - (if snap.scopes[k].inFlight then 1 else 0)
    {
      assert Loaded(s, snap, k);
    }
  }

  /** Loading into a controller that is in use: the scopes of the snapshot are replaced by what it says, the
      others stay, and new ones come last. */
  lemma {:induction false} RestoreReplaces(s: State, snap: Snapshot, keys: seq<Key>)
    requires (forall k | k in keys :: k in snap.scopes) && (forall k :: k in s.order <==> k in s.scopes)
    requires (forall i, j | 0 <= i < j < |keys| :: keys[i] != keys[j])
             && (forall i, j | 0 <= i < j < |s.order| :: s.order[i] != s.order[j])
    ensures var s' := RestoreScopes(s, snap, keys);
            && s.order <= s'.order && (forall k :: k in s'.order <==> k in s'.scopes)
            && (forall i, j | 0 <= i < j < |s'.order| :: s'.order[i] != s'.order[j])
            && (forall k | k in keys :: k in s'.scopes && SaveScope(s'.scopes[k]) == snap.scopes[k])
            && (forall k | k !in keys :: ScopeAt(s', k) == ScopeAt(s, k) && (k in s'.scopes <==> k in s.scopes))
    decreases |keys|
  {
    if keys != [] {
      var k0, s1 := keys[0], RestoreScope(s, keys[0], snap.scopes[keys[0]]);
      assert SaveQueue(s1.scopes[k0].queue) == snap.scopes[k0].queue;
      assert forall k | k in keys[1..] :: k in keys && k != k0;
      RestoreReplaces(s1, snap, keys[1..]);
    }
  }

  /** A second restore, of whatever snapshot, changes nothing; another version is refused. */
  lemma SecondRestore(snap: Snapshot, other: Snapshot)
    requires ValidSnapshot(snap) && ValidSnapshot(other)
    ensures snap.version == 1 ==> Restore(Restore(EMPTY_STATE, snap).value, other) == Restore(EMPTY_STATE, snap)
    ensures snap.version != 1 ==> Restore(EMPTY_STATE, snap) == None
  {
  }

  /** A restored token: a tombstone in a queue, or an uncertain call that can be resolved. */
  predicate AsRestored(tok: Token) {
    && !tok.settled && !tok.released && !tok.attached
    && (if tok.unowned then tok.phase == Queued else tok.phase == Uncertain && tok.uncertain)
  }

  /** What a restored state starts a run from. */
  lemma {:induction false} LoadsCleanly(s: State, snap: Snapshot, keys: seq<Key>)
    requires (forall k | k in keys :: k in snap.scopes) && forall t: nat | t < |s.tokens| :: AsRestored(s.tokens[t])
    ensures var s' := RestoreScopes(s, snap, keys); forall t: nat | t < |s'.tokens| :: AsRestored(s'.tokens[t])
    decreases |keys|
  {
    if keys != [] {
      var s1 := RestoreScope(s, keys[0], snap.scopes[keys[0]]);
      assert forall t: nat | t < |s1.tokens| :: AsRestored(s1.tokens[t]);
      LoadsCleanly(s1, snap, keys[1..]);
      assert RestoreScopes(s, snap, keys) == RestoreScopes(s1, snap, keys[1..]);
    }
  }

  /** A snapshot in which every scope counts its uncertain call and nothing else, as the default cap
      leaves it. */
  predicate CountsUncertainOnly(snap: Snapshot) {
    forall k | k in snap.scopes :: snap.scopes[k].concurrent == if snap.scopes[k].inFlight then 1 else 0
  }

  lemma RestoredTokensClean(snap: Snapshot)
    requires ValidSnapshot(snap) && snap.version == 1
    ensures var s := Restore(EMPTY_STATE, snap).value;
            && WaitersClean(s)
            && (forall t: nat | t < |s.tokens| :: AsRestored(s.tokens[t]) && !s.tokens[t].settled)
  {
    LoadsCleanly(EMPTY_STATE, snap, snap.order);
    assert Restore(EMPTY_STATE, snap).value.tokens == RestoreScopes(EMPTY_STATE, snap, snap.order).tokens;
  }

  lemma RestoredDebt(snap: Snapshot, clock: Ms, k: Key)
    requires ValidSnapshot(snap) && snap.version == 1
    ensures var s := Restore(EMPTY_STATE, snap).value;
            Debt(ScopeAt(s, k), s.tokens, k)
            == if k in snap.scopes then snap.scopes[k].concurrent - (if snap.scopes[k].inFlight then 1 else 0) else 0
  {
    RestoreFidelity(snap, clock);
    var s := Restore(EMPTY_STATE, snap).value;
    assert Save(s).scopes.Keys == s.scopes.Keys;
    if k !in snap.scopes { assert Holders(s.tokens, k) == {}; }
  }

  lemma RestoredStart(snap: Snapshot, clock: Ms)
    requires ValidSnapshot(snap) && snap.version == 1
    ensures var s := Restore(EMPTY_STATE, snap).value;
            Inv(s, clock) && WaitersClean(s) && (Balanced(s) <==> CountsUncertainOnly(snap))
  {
    RestoreFidelity(snap, clock);
    RestoredTokensClean(snap);
    var s := Restore(EMPTY_STATE, snap).value;
    forall k
      ensures Debt(ScopeAt(s, k), s.tokens, k)
              == if k in snap.scopes then snap.scopes[k].concurrent - (if snap.scopes[k].inFlight then 1 else 0) else 0
    {
      RestoredDebt(snap, clock, k);
    }
    if Balanced(s) {
      forall k | k in snap.scopes ensures snap.scopes[k].concurrent == if snap.scopes[k].inFlight then 1 else 0 {
        assert Debt(ScopeAt(s, k), s.tokens, k) == 0;
      }
    }
  }

  /** After such a restart, too, permits are conserved whatever callers do with the tokens they get. */
  lemma RestoredCallersConserve(c: Config, snap: Snapshot, clock: Ms, run: seq<Timed>)
    requires ValidConfig(c) && ValidSnapshot(snap) && snap.version == 1 && CountsUncertainOnly(snap)
    requires var s := Restore(EMPTY_STATE, snap).value; LegalRun(c, s, clock, run) && GivenRun(c, s, clock, run)
    ensures AlwaysBalanced(c, Restore(EMPTY_STATE, snap).value, clock, run)
  {
    RestoredStart(snap, clock);
    ConservationForCallers(c, Restore(EMPTY_STATE, snap).value, clock, run);
  }

  // ---- Tombstones ----

  lemma {:induction false} TombstonesFit(q: seq<Entry>, toks: seq<Token>)
    ensures |Tombstones(q, toks)| <= |q|
  {
    if q != [] { TombstonesFit(q[1..], toks); }
  }

  /** Over any run the tombstones of a scope keep their order and their slots, and none of them
      ever gets a permit. */
  lemma {:induction false} TombstonesForever(c: Config, s: State, clock: Ms, run: seq<Timed>, k: Key)
    requires ValidConfig(c) && Inv(s, clock) && LegalRun(c, s, clock, run)
    ensures var s' := Exec(c, s, clock, run);
            && Tombstones(ScopeAt(s', k).queue, s'.tokens) == Tombstones(ScopeAt(s, k).queue, s.tokens)
            && (forall t: nat | t < |s.tokens| && s.tokens[t].unowned ::
                  t < |s'.tokens| && s'.tokens[t].unowned && s'.tokens[t].phase == Queued)
    decreases |run|
  {
    if run != [] {
      StepKeeps(c, s, clock, run[0].step, run[0].now, k);
      TombstonesForever(c, Apply(c, s, run[0].step, run[0].now), run[0].now, run[1..], k);
    }
  }

  /** A scope restored with a full queue of tombstones never queues anybody again. */
  lemma TombstonesOccupy(c: Config, s: State, clock: Ms, run: seq<Timed>, k: Key, p: Priority, now: Ms)
    requires ValidConfig(c) && Inv(s, clock) && LegalRun(c, s, clock, run) && EndOf(clock, run) <= now
    requires |Tombstones(ScopeAt(s, k).queue, s.tokens)| >= c.queueCapacity
    ensures !Reserve(c, Exec(c, s, clock, run), k, p, now).1.Parked?
  {
    var s1 := Exec(c, s, clock, run);
    RunKeepsInv(c, s, clock, run);
    TombstonesForever(c, s, clock, run, k);
    var s2 := Served(c, s1, k, now);
    ServedKeeps(c, s1, EndOf(clock, run), k, now, k);
    TombstonesFit(ScopeAt(s2, k).queue, s2.tokens);
  }

  // ---- The uncertain permit ----

  /** At a cap of one, the in-flight mark is exact. */
  predicate InFlightExact(s: State, k: Key) {
    ScopeAt(s, k).inFlight.Some? <==> ScopeAt(s, k).concurrent == 1
  }

  /** One permit at most, counted exactly and marked exactly. */
  ghost predicate SinglePermit(s: State, k: Key) {
    && InFlightExact(s, k) && ScopeAt(s, k).concurrent <= 1
    && Debt(ScopeAt(s, k), s.tokens, k) == 0 && MarkHeld(s, k)
  }

  lemma InFlightExactStep(c: Config, s: State, clock: Ms, step: Step, now: Ms, k: Key)
    requires ValidConfig(c) && c.maxConcurrent == 1 && Inv(s, clock) && clock <= now && Legal(s, step)
    requires SinglePermit(s, k) && WaitersClean(s) && !LosesPermit(s, step, k) && !ReturnsWaiter(s, step)
    ensures SinglePermit(Apply(c, s, step, now), k)
  {
    var s' := Apply(c, s, step, now);
    StepKeeps(c, s, clock, step, now, k);
    WaitersStayClean(c, s, clock, step, now, k);
    DebtLaw(c, s, clock, step, now, k);
    MarkStaysHeld(c, s, clock, step, now, k);
    if ScopeAt(s', k).inFlight.Some? { HoldersNonEmpty(s'.tokens, k, ScopeAt(s', k).inFlight.value); }
  }

  /** At a cap of one a run that takes no permit nobody was given, and returns no waiting token, has an
      in-flight token exactly while one permit is out. */
  lemma {:induction false} InFlightExactRun(c: Config, s: State, clock: Ms, run: seq<Timed>, k: Key)
    requires ValidConfig(c) && c.maxConcurrent == 1 && Inv(s, clock) && LegalRun(c, s, clock, run)
    requires NeverLoses(c, s, clock, run) && Orderly(c, s, clock, run)
    requires SinglePermit(s, k) && WaitersClean(s)
    ensures SinglePermit(Exec(c, s, clock, run), k)
    decreases |run|
  {
    if run != [] {
      var step, now := run[0].step, run[0].now;
      InFlightExactStep(c, s, clock, step, now, k);
      WaitersStayClean(c, s, clock, step, now, k);
      StepInv(c, s, clock, step, now);
      InFlightExactRun(c, Apply(c, s, step, now), now, run[1..], k);
    }
  }

  /** While callers use the tokens they were given, without any condition: from a fresh start, and from
      a restart that counts the uncertain call only. */
  lemma InFlightExactForCallers(c: Config, snap: Snapshot, clock: Ms, run: seq<Timed>, k: Key)
    requires ValidConfig(c) && c.maxConcurrent == 1
    requires ValidSnapshot(snap) && snap.version == 1 && CountsUncertainOnly(snap)
    ensures LegalRun(c, EMPTY_STATE, clock, run) && GivenRun(c, EMPTY_STATE, clock, run)
            ==> SinglePermit(Exec(c, EMPTY_STATE, clock, run), k)
    ensures var s := Restore(EMPTY_STATE, snap).value;
            LegalRun(c, s, clock, run) && GivenRun(c, s, clock, run) ==> SinglePermit(Exec(c, s, clock, run), k)
  {
    if LegalRun(c, EMPTY_STATE, clock, run) && GivenRun(c, EMPTY_STATE, clock, run) {
      FreshStart(clock);
      GivenRunsAreOrderly(c, EMPTY_STATE, clock, run);
      assert Debt(ScopeAt(EMPTY_STATE, k), [], k) == 0;
      InFlightExactRun(c, EMPTY_STATE, clock, run, k);
    }
    var s := Restore(EMPTY_STATE, snap).value;
    if LegalRun(c, s, clock, run) && GivenRun(c, s, clock, run) {
      RestoredSingle(snap, clock, k);
      GivenRunsAreOrderly(c, s, clock, run);
      InFlightExactRun(c, s, clock, run, k);
    }
  }

  lemma RestoredSingle(snap: Snapshot, clock: Ms, k: Key)
    requires ValidSnapshot(snap) && snap.version == 1 && CountsUncertainOnly(snap)
    ensures var s := Restore(EMPTY_STATE, snap).value; Inv(s, clock) && WaitersClean(s) && SinglePermit(s, k)
  {
    var s := Restore(EMPTY_STATE, snap).value;
    RestoredStart(snap, clock);
    RestoredTokensClean(snap);
    assert Debt(ScopeAt(s, k), s.tokens, k) == 0;
    if k in s.scopes { RestoredMark(snap, clock, k); }
  }

  lemma RestoredMark(snap: Snapshot, clock: Ms, k: Key)
    requires ValidSnapshot(snap) && snap.version == 1
    requires k in Restore(EMPTY_STATE, snap).value.scopes
    ensures var s := Restore(EMPTY_STATE, snap).value;
            && k in snap.scopes && MarkHeld(s, k)
            && s.scopes[k].inFlight.Some? == snap.scopes[k].inFlight
               && s.scopes[k].concurrent == snap.scopes[k].concurrent
  {
    var s := Restore(EMPTY_STATE, snap).value;
    RestoreFidelity(snap, clock);
    RestoredTokensClean(snap);
    assert k in Save(s).scopes && Save(s).scopes[k] == SaveScope(s.scopes[k]);
    assert ScopeOk(k, s.scopes[k], s.tokens);
  }

  lemma PumpLeaves(c: Config, s: State, now: Ms, t: nat)
    requires ValidConfig(c) && ScopesOk(s) && (forall k | k in s.order :: k in s.scopes)
    requires t < |s.tokens| && s.tokens[t].phase != Queued
    ensures var s' := Pump(c, s, s.order, now); t < |s'.tokens| && s'.tokens[t] == s.tokens[t]
  {
    PumpEffect(c, s, s.order, now);
  }

  /** Resolving the uncertain call returns its permit, once, and hands the capacity on. */
  lemma ResolveReturnsPermit(c: Config, s: State, clock: Ms, t: nat, now: Ms, again: Ms)
    requires ValidConfig(c) && Inv(s, clock) && clock <= now && Named(s, t)
    requires var tok := s.tokens[t]; tok.phase == Uncertain && tok.uncertain && !tok.settled && !tok.released
    requires Debt(ScopeAt(s, s.tokens[t].scopeKey), s.tokens, s.tokens[t].scopeKey) >= 0
    ensures var s', k := Resolve(c, s, t, now), s.tokens[t].scopeKey;
            && Named(s', t) && !Holds(s'.tokens, k, t)
            && Debt(ScopeAt(s', k), s'.tokens, k) == Debt(ScopeAt(s, k), s.tokens, k) + |Leaks(s, s', k)|
            && (WaitersClean(s) ==> Leaks(s, s', k) == {})
            && WorkConserving(c, ScopeAt(s', k), s'.tokens, now)
            && Resolve(c, s', t, again) == s'
  {
    var k := s.tokens[t].scopeKey;
    DebtLaw(c, s, clock, Resolving(t), now, k);
    if WaitersClean(s) { WaitersStayClean(c, s, clock, Resolving(t), now, k); }
    PermitBack(s, t);
    PumpEffect(c, Returned(s, t), s.order, now);
    PumpLeaves(c, Returned(s, t), now, t);
  }

  /** So the call in flight at a restart can be resolved: its permit is off the count, nobody gets it, as
      only tombstones wait, and nothing is in flight. */
  lemma RestoredCallResolves(c: Config, snap: Snapshot, clock: Ms, k: Key, now: Ms)
    requires ValidConfig(c) && ValidSnapshot(snap) && snap.version == 1 && clock <= now
    requires k in snap.scopes && snap.scopes[k].inFlight
    ensures var s := Restore(EMPTY_STATE, snap).value;
            && k in s.scopes && s.scopes[k].inFlight.Some? && Legal(s, Resolving(s.scopes[k].inFlight.value))
            && var t, n := s.scopes[k].inFlight.value, snap.scopes[k].concurrent;
               var s' := Resolve(c, s, t, now);
               && ScopeAt(s', k).concurrent == (if n > 0 then n - 1 else 0)
               && |ScopeAt(s', k).queue| == |s.scopes[k].queue|
               && t < |s'.tokens| && s'.tokens[t].settled
  {
    var s := Restore(EMPTY_STATE, snap).value;
    RestoreFidelity(snap, clock);
    RestoredTokensClean(snap);
    assert k in Save(s).scopes && Save(s).scopes[k] == SaveScope(s.scopes[k]);
    assert ScopeOk(k, s.scopes[k], s.tokens);
    var t := s.scopes[k].inFlight.value;
    PermitBack(s, t);
    ResolvedCounts(c, s, t, now, k);
    PumpLeaves(c, Returned(s, t), now, t);
  }

  lemma ResolvedCounts(c: Config, s: State, t: nat, now: Ms, k: Key)
    requires ValidConfig(c) && ScopesOk(s) && k in s.order && (forall x | x in s.order :: x in s.scopes)
    requires t < |s.tokens| && s.tokens[t].scopeKey == k && ScopesOk(Returned(s, t))
    requires forall i | 0 <= i < |s.scopes[k].queue| :: Unowned(s.tokens, s.scopes[k].queue[i].token)
    ensures var s' := Pump(c, Returned(s, t), s.order, now); var n := s.scopes[k].concurrent;
            && ScopeAt(s', k).concurrent == (if n > 0 then n - 1 else 0)
            && |ScopeAt(s', k).queue| == |s.scopes[k].queue|
  {
    var s1 := Returned(s, t);
    PumpAllHandsOut(c, s1, s.order, now, k);
    OwnedCounts(s1.scopes[k].queue, s1.tokens);
  }

  /** The permit of a restored uncertain call, once release() was called on its token. */
  predicate Stranded(s: State, t: nat) {
    t < |s.tokens| && var tok := s.tokens[t]; tok.phase == Uncertain && tok.released && !tok.settled && !tok.unowned
  }

  /** Only releaseToken itself settles a stranded token. */
  lemma StrandedStep(c: Config, s: State, clock: Ms, step: Step, now: Ms, t: nat)
    requires ValidConfig(c) && Inv(s, clock) && Legal(s, step) && Stranded(s, t)
    ensures var s' := Apply(c, s, step, now);
            && t < |s'.tokens| && s'.tokens[t].settled == (step == Returning(t)) && s'.tokens[t].phase == Uncertain
            && (step != Returning(t) ==> Stranded(s', t))
  {
    StepTokens(c, s, clock, step, now);
    var s' := Apply(c, s, step, now);
    assert TokenStep(s.tokens[t], s'.tokens[t], Settles(s, step) == Some(t), Cancels(s, step) == Some(t));
  }

  /** The run calls releaseToken for `t`. */
  predicate ReturnsDirectly(run: seq<Timed>, t: nat) {
    exists i :: 0 <= i < |run| && run[i].step == Returning(t)
  }

  lemma DirectTail(run: seq<Timed>, t: nat)
    requires run != []
    ensures ReturnsDirectly(run, t) <==> run[0].step == Returning(t) || ReturnsDirectly(run[1..], t)
  {
    if ReturnsDirectly(run, t) && run[0].step != Returning(t) {
      var i :| 0 <= i < |run| && run[i].step == Returning(t);
      assert run[1..][i - 1].step == Returning(t);
    }
    if ReturnsDirectly(run[1..], t) {
      var i :| 0 <= i < |run[1..]| && run[1..][i].step == Returning(t);
      assert run[i + 1].step == Returning(t);
    }
  }

  lemma {:induction false} StrandedRun(c: Config, s: State, clock: Ms, run: seq<Timed>, t: nat)
    requires ValidConfig(c) && Inv(s, clock) && LegalRun(c, s, clock, run) && Stranded(s, t)
    ensures Stranded(Exec(c, s, clock, run), t) <==> !ReturnsDirectly(run, t)
    decreases |run|
  {
    if run != [] {
      var step, now := run[0].step, run[0].now;
      var s' := Apply(c, s, step, now);
      StrandedStep(c, s, clock, step, now, t);
      StepInv(c, s, clock, step, now);
      DirectTail(run, t);
      if step == Returning(t) {
        SettledForGood(c, s', now, run[1..], t);
      } else {
        StrandedRun(c, s', now, run[1..], t);
      }
    }
  }

  /** Calling release() on a restored uncertain token returns nothing: the token has no controller
      to return its permit to, and resolveUncertain then refuses it.  The permit is out in every later
      state, exactly until releaseToken is called for the token on the controller itself. */
  lemma ReleaseStrandsUncertain(c: Config, s: State, clock: Ms, t: nat, now: Ms, run: seq<Timed>)
    requires ValidConfig(c) && Inv(s, clock) && clock <= now && Named(s, t)
    requires s.tokens[t].phase == Uncertain && !s.tokens[t].settled
    requires LegalRun(c, Apply(c, s, Releasing(t), now), now, run)
    ensures var s' := Exec(c, Apply(c, s, Releasing(t), now), now, run);
            && t < |s'.tokens| && s'.tokens[t].scopeKey == s.tokens[t].scopeKey
            && (Holds(s'.tokens, s.tokens[t].scopeKey, t) <==> !ReturnsDirectly(run, t))
  {
    var s1 := Apply(c, s, Releasing(t), now);
    StepInv(c, s, clock, Releasing(t), now);
    StrandedRun(c, s1, now, run, t);
    RunKeepsTokens(c, s1, now, run);
    SettledForGood(c, s1, now, run, t);
    StaysMarked(c, s1, now, run, t);
  }

  lemma {:induction false} StaysMarked(c: Config, s: State, clock: Ms, run: seq<Timed>, t: nat)
    requires ValidConfig(c) && Inv(s, clock) && LegalRun(c, s, clock, run)
    requires t < |s.tokens| && s.tokens[t].phase != Queued && s.tokens[t].released
    ensures var s' := Exec(c, s, clock, run); t < |s'.tokens| && s'.tokens[t].released
    decreases |run|
  {
    if run != [] {
      StepTokens(c, s, clock, run[0].step, run[0].now);
      assert TokenStep(s.tokens[t], Apply(c, s, run[0].step, run[0].now).tokens[t],
                       Settles(s, run[0].step) == Some(t), Cancels(s, run[0].step) == Some(t));
      StepInv(c, s, clock, run[0].step, run[0].now);
      StaysMarked(c, Apply(c, s, run[0].step, run[0].now), run[0].now, run[1..], t);
    }
  }
}
