/**
 The controller as the source runs it: scopes and tokens changed in place, the
 scheduler and the pump as loops.  Every operation is proved to compute exactly
 the state AdmissionModel.dfy gives it, and to leave the store with the snapshot
 of that state.

 A queue entry names its token by its index in `registry`, which stands for the
 identity of the token object.
 */
module AdmissionController {
  import opened Wrappers
  import opened AdmissionModel

  class AdmissionToken {
    const scopeKey: Key
    const priority: Priority
    const unowned: bool
    const attached: bool
    var phase: Phase
    var uncertain: bool
    var released: bool
    var settled: bool

    constructor (tok: Token)
      ensures Value() == tok
    {
      scopeKey, priority, unowned, attached := tok.scopeKey, tok.priority, tok.unowned, tok.attached;
      phase, uncertain, released, settled := tok.phase, tok.uncertain, tok.released, tok.settled;
    }

    function Value(): Token
      reads this
    {
      Token(scopeKey, priority, phase, uncertain, released, settled, unowned, attached)
    }
  }

  ghost function Values(registry: seq<AdmissionToken>): seq<Token>
    reads registry
  {
    seq(|registry|, i requires 0 <= i < |registry| reads registry => registry[i].Value())
  }

  /** The scope and the tokens after one grant from the queue, if there is a candidate. */
  function Turn(c: Config, sc: Scope, toks: seq<Token>, now: Ms): Option<(Scope, seq<Token>)> {
    var b := Best(c, sc.queue, toks, now, |sc.queue|);
    if b.None? then None
    else
      var t := sc.queue[b.value].token;
      Some((Grant(sc.(queue := RemoveAt(sc.queue, b.value)), t), Admit(toks, t)))
  }

  lemma PumpUnfold(c: Config, sc: Scope, toks: seq<Token>, now: Ms)
    requires CanGrant(c, sc, now) && |sc.queue| > 0
    ensures var next := Turn(c, sc, toks, now);
            && (next.Some? ==> |next.value.0.queue| < |sc.queue|)
            && PumpScope(c, sc, toks, now)
               == if next.None? then (sc, toks) else PumpScope(c, next.value.0, next.value.1, now)
  {
  }

  lemma OverwriteTwice(m: map<Key, Scope>, k: Key, a: Scope, b: Scope)
    ensures m[k := a][k := b] == m[k := b]
  {
  }

  class ProviderAdmissionController {
    const config: Config
    var order: seq<Key>
    var scopes: map<Key, Scope>
    var registry: seq<AdmissionToken>
    var restored: bool
    var saved: Option<Snapshot>

    ghost predicate Valid()
      reads this
    {
      && ValidConfig(config)
      && (forall i, j | 0 <= i < j < |registry| :: registry[i] != registry[j])
      && (forall k | k in order :: k in scopes)
      && (forall i | 0 <= i < |registry| :: registry[i].scopeKey in scopes)
      && (forall k | k in scopes :: forall i | 0 <= i < |scopes[k].queue| :: scopes[k].queue[i].token < |registry|)
    }

    ghost function Tokens(): (toks: seq<Token>)
      reads `registry, registry
      ensures |toks| == |registry| && forall i | 0 <= i < |registry| :: toks[i] == registry[i].Value()
    {
      Values(registry)
    }

    ghost function State(): State
      reads this, registry
    {
      AdmissionModel.State.State(order, scopes, Tokens(), restored)
    }

    /** What is in the store is the snapshot of the state as it is now. */
    ghost predicate Persisted()
      reads this, registry
    {
      saved == Some(Save(State()))
    }

    constructor (c: Config)
      requires ValidConfig(c)
      ensures Valid() && config == c && State() == EMPTY_STATE && registry == []
    {
      config := c;
      order, scopes, registry, restored, saved := [], map[], [], false, None;
    }

    method Persist()
      modifies this`saved
      ensures Persisted() && State() == old(State())
    {
      saved := Some(Snapshot(1, order, map k | k in scopes :: SaveScope(scopes[k])));
    }

    // ---- The scheduler ----

    /** Title deferral looks for any interactive entry first. */
    method AnyInteractiveWaiting(q: seq<Entry>, now: Ms) returns (found: bool)
      requires forall i | 0 <= i < |q| :: q[i].token < |registry|
      ensures found == InteractiveWaiting(config, q, Tokens(), now)
    {
      found := false;
      for i := 0 to |q|
        invariant found <==> exists j | 0 <= j < i ::
                  !Unowned(Tokens(), q[j].token) && Effective(config, q[j], now) == Interactive
      {
        if !registry[q[i].token].unowned && Effective(config, q[i], now) == Interactive {
          found := true;
        }
      }
    }

    /** Takes the best candidate out of the queue of scope `k`. */
    method DequeueCandidate(k: Key, now: Ms) returns (t: Option<nat>)
      requires Valid() && k in scopes
      modifies this`scopes
      ensures Valid() && scopes.Keys == old(scopes.Keys) && (t.Some? ==> t.value < |registry|)
      ensures var q := old(scopes[k].queue);
              var b := Best(config, q, old(Tokens()), now, |q|);
              if b.None? then t.None? && scopes == old(scopes)
              else
                && t == Some(q[b.value].token)
                && scopes == old(scopes)[k := old(scopes[k]).(queue := RemoveAt(q, b.value))]
    {
      var q := scopes[k].queue;
      var anyInteractive := AnyInteractiveWaiting(q, now);
      var best: Option<nat> := None;
      var bestRank, bestEnqueuedAt := 0, 0.0;
      for i := 0 to |q|
        invariant best == Best(config, q, Tokens(), now, i)
        invariant best.Some? ==> bestRank == Rank(config, Effective(config, q[best.value], now))
        invariant best.Some? ==> bestEnqueuedAt == q[best.value].enqueuedAt
      {
        var cls := Effective(config, q[i], now);
        var rank := Rank(config, cls);
        if !registry[q[i].token].unowned && !(cls == Title && anyInteractive) {
          if best.None? || rank < bestRank || (rank == bestRank && q[i].enqueuedAt < bestEnqueuedAt) {
            bestRank, bestEnqueuedAt, best := rank, q[i].enqueuedAt, Some(i);
          }
        }
      }
      if best.None? {
        t := None;
      } else {
        t := Some(q[best.value].token);
        TakeOut(k, best.value);
      }
    }

    method TakeOut(k: Key, i: nat)
      requires Valid() && k in scopes && i < |scopes[k].queue|
      modifies this`scopes
      ensures Valid() && scopes == old(scopes)[k := old(scopes[k]).(queue := RemoveAt(old(scopes[k].queue), i))]
    {
      scopes := scopes[k := scopes[k].(queue := RemoveAt(scopes[k].queue, i))];
    }

    /** Hands a permit of scope `k` to token `t`. */
    method GrantPermit(k: Key, t: nat)
      requires Valid() && k in scopes && t < |registry|
      modifies this`scopes, registry
      ensures Valid() && scopes.Keys == old(scopes.Keys)
      ensures scopes == old(scopes)[k := Grant(old(scopes[k]), t)] && Tokens() == Admit(old(Tokens()), t)
    {
      registry[t].phase := Admitted;
      registry[t].uncertain := false;
      scopes := scopes[k := scopes[k].(concurrent := scopes[k].concurrent + 1, inFlight := Some(t))];
      assert Tokens() == Admit(old(Tokens()), t);
    }

    /** Where the pump of scope `k` stands: only that scope has changed since `start`, and what is left
        to do leads to `goal`. */
    ghost predicate Pumping(start: map<Key, Scope>, k: Key, goal: (Scope, seq<Token>), now: Ms)
      reads this, registry
    {
      Valid() && k in scopes && scopes == start[k := scopes[k]] && PumpScope(config, scopes[k], Tokens(), now) == goal
    }

    /** The best candidate, if any, gets a permit. */
    method GrantBest(k: Key, now: Ms) returns (granted: bool)
      requires Valid() && k in scopes
      modifies this`scopes, registry
      ensures Valid() && k in scopes && scopes == old(scopes)[k := scopes[k]]
      ensures granted == Turn(config, old(scopes[k]), old(Tokens()), now).Some?
      ensures (scopes[k], Tokens())
              == if granted then Turn(config, old(scopes[k]), old(Tokens()), now).value
                  else (old(scopes[k]), old(Tokens()))
    {
      var candidate := DequeueCandidate(k, now);
      granted := candidate.Some?;
      if granted {
        GrantPermit(k, candidate.value);
      }
    }

    /** One turn of the pump. */
    method PumpTurn(k: Key, now: Ms, ghost start: map<Key, Scope>, ghost goal: (Scope, seq<Token>))
                    returns (granted: bool)
      requires Pumping(start, k, goal, now) && CanGrant(config, scopes[k], now) && |scopes[k].queue| > 0
      modifies this`scopes, registry
      ensures Pumping(start, k, goal, now)
      ensures granted ==> |scopes[k].queue| < |old(scopes[k].queue)|
      ensures !granted ==> goal == (scopes[k], Tokens())
    {
      PumpUnfold(config, scopes[k], Tokens(), now);
      granted := GrantBest(k, now);
      OverwriteTwice(start, k, old(scopes[k]), scopes[k]);
    }

    method PumpKey(k: Key, now: Ms)
      requires Valid() && k in scopes
      modifies this`scopes, registry
      ensures Pumping(old(scopes), k, PumpScope(config, old(scopes[k]), old(Tokens()), now), now)
      ensures PumpScope(config, old(scopes[k]), old(Tokens()), now) == (scopes[k], Tokens())
    {
      ghost var start, goal := scopes, PumpScope(config, scopes[k], Tokens(), now);
      var served := false;
      while !served && CanGrant(config, scopes[k], now) && |scopes[k].queue| > 0
        invariant Pumping(start, k, goal, now)
        invariant served ==> goal == (scopes[k], Tokens())
        decreases !served, |scopes[k].queue|
      {
        var granted := PumpTurn(k, now, start, goal);
        served := !granted;
      }
    }

    method PumpAll(now: Ms)
      requires Valid()
      modifies this`scopes, this`saved, registry
      ensures Valid() && Persisted()
      ensures scopes.Keys == old(scopes.Keys) && State() == Pump(config, old(State()), order, now)
    {
      for i := 0 to |order|
        invariant Valid() && scopes.Keys == old(scopes.Keys)
        invariant Pump(config, State(), order[i..], now) == Pump(config, old(State()), order, now)
      {
        PumpKey(order[i], now);
        assert order[i..][1..] == order[i + 1..];
      }
      Persist();
    }

    // ---- Permits ----

    /** Settles the token and gives its scope the permit back. */
    method TakeBack(t: nat)
      requires Valid() && t < |registry|
      modifies this`scopes, this`saved, registry
      ensures Valid() && Persisted()
      ensures var s, tok := old(State()), old(registry[t].Value());
              State() == WithScope(SetToken(s, t, tok.(settled := true)), tok.scopeKey,
                  ReleasedScope(s.scopes[tok.scopeKey], t))
    {
      MarkSettled(t);
      CountBack(registry[t].scopeKey, t);
      Persist();
    }

    method CountBack(k: Key, t: nat)
      requires Valid() && k in scopes
      modifies this`scopes
      ensures Valid() && scopes == old(scopes)[k := ReleasedScope(old(scopes[k]), t)]
    {
      var sc := scopes[k];
      if sc.inFlight == Some(t) { sc := sc.(inFlight := None); }
      if sc.concurrent > 0 { sc := sc.(concurrent := sc.concurrent - 1); }
      scopes := scopes[k := sc];
    }

    method MarkSettled(t: nat)
      requires Valid() && t < |registry|
      modifies registry
      ensures Valid() && Tokens() == old(Tokens())[t := old(registry[t].Value()).(settled := true)]
    {
      registry[t].settled := true;
    }

    /** Returns a permit once: later calls for the same token find it settled. */
    method ReleaseToken(t: nat, now: Ms)
      requires Valid() && t < |registry|
      modifies this`scopes, this`saved, registry
      ensures Valid() && State() == ReturnPermit(config, old(State()), t, now)
      ensures old(Persisted()) || !old(registry[t].settled) ==> Persisted()
    {
      if registry[t].settled { return; }
      TakeBack(t);
      PumpAll(now);
    }

    method SettleToken(t: nat, now: Ms)
      requires Valid() && t < |registry|
      modifies this`scopes, this`saved, registry
      ensures Valid() && State() == Settle(config, old(State()), t, now)
      ensures old(Persisted()) ==> Persisted()
    {
      if registry[t].released || registry[t].settled { return; }
      ReleaseToken(t, now);
    }

    method RemoveFromQueue(k: Key, t: nat)
      requires Valid() && k in scopes
      modifies this`scopes
      ensures Valid() && scopes == old(scopes)[k := old(scopes[k]).(queue := Without(old(scopes[k].queue), t))]
    {
      var q := scopes[k].queue;
      var i := 0;
      while i < |q| && q[i].token != t
        invariant i <= |q| && forall j | 0 <= j < i :: q[j].token != t
      {
        i := i + 1;
      }
      WithoutFirst(q, t, i);
      if i < |q| {
        scopes := scopes[k := scopes[k].(queue := RemoveAt(q, i))];
      }
    }

    /** cancel(), and the removal the waiting reservation does when its wait is rejected. */
    method CancelToken(t: nat)
      requires Valid() && t < |registry|
      modifies this`scopes, this`saved, registry
      ensures Valid() && State() == Cancel(old(State()), t)
      ensures old(Persisted()) ==> Persisted()
    {
      if registry[t].phase != Queued { return; }
      registry[t].phase := Cancelled;
      assert Tokens() == old(Tokens())[t := old(registry[t].Value()).(phase := Cancelled)];
      if !registry[t].unowned {
        RemoveFromQueue(registry[t].scopeKey, t);
        Persist();
      }
    }

    /** release(): a queued request removes itself, an admitted one returns its permit. */
    method ReleaseByCaller(t: nat, now: Ms)
      requires Valid() && t < |registry|
      modifies this`scopes, this`saved, registry
      ensures Valid() && State() == Release(config, old(State()), t, now)
      ensures old(Persisted()) ==> Persisted()
    {
      if registry[t].released { return; }
      registry[t].released := true;
      assert Tokens() == old(Tokens())[t := old(registry[t].Value()).(released := true)];
      if registry[t].phase == Queued {
        CancelToken(t);
      } else if registry[t].attached {
        ReleaseToken(t, now);
      }
    }

    method OpenScopeCooldown(k: Key, hint: Option<Ms>, now: Ms)
      requires Valid()
      modifies this`scopes, this`saved
      ensures Valid() && State() == OpenCooldown(config, old(State()), k, hint, now)
      ensures old(Persisted()) || k in scopes ==> Persisted()
    {
      if k !in scopes { return; }
      scopes := scopes[k := scopes[k].(cooldownUntil := Some(now + Delay(config, hint)))];
      Persist();
    }

    /** A call rejected with a provider limit: stand down first, then return the permit. */
    method RejectWithLimit(t: nat, hint: Option<Ms>, now: Ms)
      requires Valid() && t < |registry|
      modifies this`scopes, this`saved, registry
      ensures Valid() && Persisted() && State() == Reject(config, old(State()), t, hint, now)
    {
      OpenScopeCooldown(registry[t].scopeKey, hint, now);
      SettleToken(t, now);
    }

    method ResolveUncertain(t: nat, now: Ms)
      requires Valid() && t < |registry|
      modifies this`scopes, this`saved, registry
      ensures Valid() && State() == Resolve(config, old(State()), t, now)
      ensures old(Persisted()) ==> Persisted()
    {
      if !registry[t].uncertain || registry[t].phase != Uncertain { return; }
      SettleToken(t, now);
    }

    // ---- Reservation ----

    method NewRegistered(tok: Token) returns (t: nat)
      requires Valid() && tok.scopeKey in scopes
      modifies this`registry
      ensures Valid() && t == |old(registry)| && |registry| == t + 1
      ensures Tokens() == old(Tokens()) + [tok]
    {
      t := |registry|;
      var token := new AdmissionToken(tok);
      registry := registry + [token];
      assert Tokens() == old(Tokens()) + [tok];
    }

    method GrantFresh(k: Key, p: Priority) returns (t: nat)
      requires Valid() && k in scopes
      modifies this`scopes, this`registry, this`saved
      ensures Valid() && Persisted() && t == |old(registry)|
      ensures var s, tok := old(State()), NewToken(k, p, Admitted);
              State() == WithScope(s, k, Grant(s.scopes[k], t)).(tokens := s.tokens + [tok])
    {
      t := NewRegistered(NewToken(k, p, Admitted));
      scopes := scopes[k := Grant(scopes[k], t)];
      Persist();
    }

    method Park(k: Key, p: Priority, now: Ms) returns (t: nat)
      requires Valid() && k in scopes
      modifies this`scopes, this`registry, this`saved
      ensures Valid() && Persisted() && t == |old(registry)|
      ensures var sc := old(scopes[k]);
              var s := WithScope(old(State()), k, sc.(queue := sc.queue + [Entry(p, now, t)]));
              State() == s.(tokens := old(Tokens()) + [NewToken(k, p, Queued)])
    {
      t := NewRegistered(NewToken(k, p, Queued));
      scopes := scopes[k := scopes[k].(queue := scopes[k].queue + [Entry(p, now, t)])];
      Persist();
    }

    /** Parked requests are served before a fresh arrival. */
    method ReservePermit(k: Key, p: Priority, now: Ms) returns (outcome: Outcome)
      requires Valid()
      modifies this`order, this`scopes, this`registry, this`saved, registry
      ensures Valid() && (State(), outcome) == Reserve(config, old(State()), k, p, now)
      ensures Persisted()
    {
      EnsureScopeExists(k);
      if |scopes[k].queue| > 0 { PumpAll(now); }
      ghost var served := State();
      assert served == Served(config, old(State()), k, now);
      if CanGrant(config, scopes[k], now) {
        var t := GrantFresh(k, p);
        outcome := Granted(t);
      } else if |scopes[k].queue| >= config.queueCapacity {
        outcome := Saturated(|scopes[k].queue|);
        Persist();
      } else {
        var t := Park(k, p, now);
        outcome := Parked(t);
      }
    }

    method EnsureScopeExists(k: Key)
      requires Valid()
      modifies this`order, this`scopes
      ensures Valid() && k in scopes && State() == EnsureScope(old(State()), k)
    {
      if k !in scopes {
        order, scopes := order + [k], scopes[k := EMPTY_SCOPE];
      }
    }

    // ---- Restart ----

    /** Saved entries become tombstones that keep their order and their slots. */
    method LoadQueue(k: Key, saved: seq<SavedEntry>) returns (q: seq<Entry>)
      requires Valid() && k in scopes
      modifies this`registry
      ensures Valid() && |registry| == |old(registry)| + |saved|
      ensures Tokens() == old(Tokens()) + seq(|saved|, j requires 0 <= j < |saved| => Tombstone(k, saved[j]))
      ensures q
              == seq(|saved|, j requires 0 <= j < |saved| =>
                  Entry(saved[j].priority, saved[j].enqueuedAt, |old(registry)| + j))
    {
      var first := |registry|;
      q := [];
      for i := 0 to |saved|
        invariant Valid() && |registry| == first + i && |q| == i
        invariant Tokens() == old(Tokens()) + seq(i, j requires 0 <= j < i => Tombstone(k, saved[j]))
        invariant forall j | 0 <= j < i :: q[j] == Entry(saved[j].priority, saved[j].enqueuedAt, first + j)
      {
        var t := NewRegistered(Tombstone(k, saved[i]));
        q := q + [Entry(saved[i].priority, saved[i].enqueuedAt, t)];
      }
    }

    method LoadTokens(k: Key, st: ScopeState) returns (q: seq<Entry>, inFlight: Option<nat>)
      requires Valid() && k in scopes
      modifies this`registry
      ensures Valid() && Tokens() == old(Tokens()) + RestoredTokens(k, st)
      ensures Scope(st.concurrent, st.cooldownUntil, q, inFlight) == RestoredScope(st, |old(registry)|)
      ensures forall i | 0 <= i < |q| :: q[i].token < |registry|
    {
      q := LoadQueue(k, st.queue);
      inFlight := None;
      if st.inFlight {
        var t := NewRegistered(UncertainToken(k));
        inFlight := Some(t);
      }
    }

    method LoadScope(k: Key, st: ScopeState)
      requires Valid()
      modifies this`order, this`scopes, this`registry
      ensures Valid() && State() == RestoreScope(old(State()), k, st)
    {
      EnsureScopeExists(k);
      var q, inFlight := LoadTokens(k, st);
      scopes := scopes[k := Scope(st.concurrent, st.cooldownUntil, q, inFlight)];
      assert scopes == old(scopes)[k := scopes[k]];
    }

    method LoadScopes(snap: Snapshot)
      requires Valid() && ValidSnapshot(snap)
      modifies this`order, this`scopes, this`registry
      ensures Valid() && State() == RestoreScopes(old(State()), snap, snap.order)
    {
      ghost var goal := RestoreScopes(State(), snap, snap.order);
      assert snap.order[0..] == snap.order;
      for i := 0 to |snap.order|
        invariant Valid()
        invariant RestoreScopes(State(), snap, snap.order[i..]) == goal
      {
        LoadScope(snap.order[i], snap.scopes[snap.order[i]]);
        assert snap.order[i..][0] == snap.order[i] && snap.order[i..][1..] == snap.order[i + 1..];
      }
    }

    /** Loads a snapshot at most once; false is the refusal of an unknown version. */
    method RestoreFrom(snap: Snapshot) returns (ok: bool)
      requires Valid() && ValidSnapshot(snap)
      modifies this`order, this`scopes, this`registry, this`restored
      ensures Valid() && ok == Restore(old(State()), snap).Some?
      ensures State() == if ok then Restore(old(State()), snap).value else old(State())
    {
      if restored { return true; }
      if snap.version != 1 { return false; }
      LoadScopes(snap);
      restored := true;
      return true;
    }
  }
}
