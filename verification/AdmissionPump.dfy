/**
 What handing out permits does to one scope, whatever the other scopes do: the
 relation `Pumped` and the proof that a pump over any list of scopes satisfies it.
 */
module AdmissionPump {
  import opened Wrappers
  import opened AdmissionModel

  // ---- Well-formed states ----

  ghost predicate QueueOk(k: Key, q: seq<Entry>, toks: seq<Token>) {
    && (forall i | 0 <= i < |q| ::
          && q[i].token < |toks|
          && var tok := toks[q[i].token];
             tok.scopeKey == k && tok.phase == Queued && !tok.released)
    && (forall i, j | 0 <= i < j < |q| :: q[i].token != q[j].token)
  }

  /** Owned entries are in arrival order. */
  ghost predicate Ordered(q: seq<Entry>, toks: seq<Token>) {
    forall i, j | 0 <= i < j < |q| && !Unowned(toks, q[i].token) && !Unowned(toks, q[j].token) ::
      q[i].enqueuedAt <= q[j].enqueuedAt
  }

  /** The token was given a permit of scope `k`. */
  predicate GivenPermit(toks: seq<Token>, k: Key, t: nat) {
    && t < |toks|
    && toks[t].scopeKey == k
    && (toks[t].phase == Admitted || toks[t].phase == Uncertain)
  }

  /** The token holds a permit of scope `k`. */
  predicate Holds(toks: seq<Token>, k: Key, t: nat) {
    GivenPermit(toks, k, t) && !toks[t].settled
  }

  /** The token has given back a permit of scope `k` it was never given. */
  predicate Prepaid(toks: seq<Token>, k: Key, t: nat) {
    t < |toks| && toks[t].scopeKey == k && toks[t].settled && !GivenPermit(toks, k, t)
  }

  ghost predicate ScopeOk(k: Key, sc: Scope, toks: seq<Token>) {
    && QueueOk(k, sc.queue, toks)
    && Ordered(sc.queue, toks)
    && (sc.inFlight.Some? ==> GivenPermit(toks, k, sc.inFlight.value))
  }

  ghost function Holders(toks: seq<Token>, k: Key): set<nat> {
    set t: nat | t < |toks| && Holds(toks, k, t)
  }

  /** Permits a scope counts beyond those its tokens hold. */
  ghost function Debt(sc: Scope, toks: seq<Token>, k: Key): int {
    sc.concurrent - |Holders(toks, k)|
  }

  ghost function Prepayers(toks: seq<Token>, k: Key): set<nat> {
    set t: nat | t < |toks| && Prepaid(toks, k, t)
  }

  /** What every operation conserves: a prepaid permit is missing from the count until it is granted. */
  ghost function Account(sc: Scope, toks: seq<Token>, k: Key): int {
    Debt(sc, toks, k) + |Prepayers(toks, k)|
  }

  /** Nothing that waits or is marked as in flight has given a permit back. */
  ghost predicate Tidy(sc: Scope, toks: seq<Token>) {
    && (forall i | 0 <= i < |sc.queue| && sc.queue[i].token < |toks| :: !toks[sc.queue[i].token].settled)
    && (sc.inFlight.Some? && sc.inFlight.value < |toks| ==> !toks[sc.inFlight.value].settled)
  }

  predicate Waits(q: seq<Entry>, t: nat) {
    exists i | 0 <= i < |q| :: q[i].token == t
  }

  ghost predicate Before(q: seq<Entry>, u: nat, t: nat) {
    exists i, j :: 0 <= i < j < |q| && q[i].token == u && q[j].token == t
  }

  function Tombstones(q: seq<Entry>, toks: seq<Token>): seq<Entry> {
    if q == [] then []
    else (if Unowned(toks, q[0].token) then [q[0]] else []) + Tombstones(q[1..], toks)
  }

  /** An owned entry of `t` that has waited out its bound. */
  ghost predicate AgedWaiter(c: Config, q: seq<Entry>, toks: seq<Token>, now: Ms, t: nat) {
    !Unowned(toks, t) && exists i :: 0 <= i < |q| && q[i].token == t && Aged(c, q[i], now)
  }

  /** Interactive work is configured before background work. */
  predicate Fair(c: Config) {
    Rank(c, Interactive) < Rank(c, Background)
  }

  /** `t` gets its permit between the two token tables. */
  ghost predicate Newly(toks: seq<Token>, toks': seq<Token>, t: nat) {
    t < |toks| && t < |toks'| && toks[t].phase != Admitted && toks'[t].phase == Admitted
  }

  /** The parts of a token no pump touches. */
  ghost predicate SameIdentity(a: Token, b: Token) {
    b == a || (a.phase == Queued && !a.unowned && b == a.(phase := Admitted, uncertain := false))
  }

  // ---- The effect of a pump on scope k ----

  // Permits go to waiters of the scope, and every waiter that left has one.
  ghost predicate PermitsGoToWaiters(k: Key, q: seq<Entry>, toks: seq<Token>, q': seq<Entry>, toks': seq<Token>) {
    && |toks'| == |toks|
    && (forall t: nat | t < |toks| :: SameIdentity(toks[t], toks'[t]))
    && (forall t: nat | t < |toks| && toks[t].scopeKey == k && toks'[t] != toks[t] :: Waits(q, t) && !Waits(q', t))
    && (forall t: nat | Waits(q, t) && !Waits(q', t) :: Newly(toks, toks', t))
  }

  // Whoever still waits keeps its entry and its place.
  ghost predicate QueueKept(q: seq<Entry>, toks: seq<Token>, q': seq<Entry>, toks': seq<Token>) {
    && |q'| <= |q|
    && (forall e | e in q' :: e in q)
    && (forall u, t | Before(q', u, t) :: Before(q, u, t))
    && Tombstones(q', toks') == Tombstones(q, toks)
  }

  ghost predicate PermitsCounted(c: Config, k: Key, sc: Scope, toks: seq<Token>, sc': Scope, toks': seq<Token>,
                                 now: Ms) {
    && sc'.cooldownUntil == sc.cooldownUntil
    && Account(sc', toks', k) == Account(sc, toks, k)
    && (Tidy(sc, toks) ==> Tidy(sc', toks'))
    && sc.concurrent <= sc'.concurrent
    && (sc' != sc ==> sc'.concurrent <= c.maxConcurrent && (sc.cooldownUntil.None? || now >= sc.cooldownUntil.value))
    && (sc' != sc ==> sc'.inFlight.Some? && sc.concurrent < sc'.concurrent)
  }

  // No permit passes an aged waiter that stays.
  ghost predicate AgeRespected(c: Config, k: Key, q: seq<Entry>, toks: seq<Token>, q': seq<Entry>, toks': seq<Token>,
                               now: Ms) {
    forall t: nat, u: nat | AgedWaiter(c, q, toks, now, t) && Waits(q', t) && Newly(toks, toks', u)
        && toks[u].scopeKey == k ::
      Before(q, u, t)
  }

  ghost predicate Pumped(c: Config, k: Key, sc: Scope, toks: seq<Token>, sc': Scope, toks': seq<Token>, now: Ms) {
    && PermitsGoToWaiters(k, sc.queue, toks, sc'.queue, toks')
    && QueueKept(sc.queue, toks, sc'.queue, toks')
    && PermitsCounted(c, k, sc, toks, sc', toks', now)
    && (Fair(c) ==> AgeRespected(c, k, sc.queue, toks, sc'.queue, toks', now))
  }

  /** Nobody who may take a permit is left waiting while one is free and no cooldown is open. */
  ghost predicate WorkConserving(c: Config, sc: Scope, toks: seq<Token>, now: Ms) {
    sc.concurrent < c.maxConcurrent && (sc.cooldownUntil.None? || sc.cooldownUntil.value <= now)
    ==> forall i | 0 <= i < |sc.queue| :: Unowned(toks, sc.queue[i].token)
  }

  lemma {:induction false} TombstonesAppend(a: seq<Entry>, b: seq<Entry>, toks: seq<Token>)
    ensures Tombstones(a + b, toks) == Tombstones(a, toks) + Tombstones(b, toks)
  {
    if a == [] {
      assert a + b == b;
    } else {
      assert (a + b)[0] == a[0] && (a + b)[1..] == a[1..] + b;
      TombstonesAppend(a[1..], b, toks);
    }
  }

  lemma {:induction false} TombstonesSame(q: seq<Entry>, toks: seq<Token>, toks': seq<Token>)
    requires forall i | 0 <= i < |q| :: Unowned(toks, q[i].token) == Unowned(toks', q[i].token)
    ensures Tombstones(q, toks) == Tombstones(q, toks')
  {
    if q != [] { TombstonesSame(q[1..], toks, toks'); }
  }

  lemma TombstonesRemove(q: seq<Entry>, i: nat, toks: seq<Token>)
    requires i < |q| && !Unowned(toks, q[i].token)
    ensures Tombstones(RemoveAt(q, i), toks) == Tombstones(q, toks)
  {
    assert q == q[..i] + ([q[i]] + q[i + 1..]);
    TombstonesAppend(q[..i], [q[i]] + q[i + 1..], toks);
    TombstonesAppend([q[i]], q[i + 1..], toks);
    TombstonesAppend(q[..i], q[i + 1..], toks);
  }

  /** Every entry that stays keeps its place relative to the others. */
  lemma RemoveKeepsOrder(q: seq<Entry>, i: nat)
    requires i < |q|
    ensures forall e | e in RemoveAt(q, i) :: e in q
    ensures forall u, t | Before(RemoveAt(q, i), u, t) :: Before(q, u, t)
    ensures forall t | Waits(q, t) && !Waits(RemoveAt(q, i), t) :: t == q[i].token
  {
    var q' := RemoveAt(q, i);
    forall u, t | Before(q', u, t) ensures Before(q, u, t) {
      var a, b :| 0 <= a < b < |q'| && q'[a].token == u && q'[b].token == t;
      var a', b' := if a < i then a else a + 1, if b < i then b else b + 1;
      assert q[a'] == q'[a] && q[b'] == q'[b];
    }
    forall t | Waits(q, t) && t != q[i].token ensures Waits(q', t) {
      var a :| 0 <= a < |q| && q[a].token == t;
      assert q'[if a < i then a else a - 1] == q[a];
    }
  }

  lemma RemovedIsGone(k: Key, q: seq<Entry>, i: nat, toks: seq<Token>)
    requires QueueOk(k, q, toks) && i < |q|
    ensures !Waits(RemoveAt(q, i), q[i].token)
  {
    var q' := RemoveAt(q, i);
    forall a | 0 <= a < |q'| ensures q'[a].token != q[i].token {
      assert q'[a] == q[if a < i then a else a + 1];
    }
  }

  lemma HeldAccount(k: Key, toks: seq<Token>, t: nat)
    requires t < |toks| && toks[t].scopeKey == k && toks[t].phase == Queued && !toks[t].settled
    ensures |Holders(Admit(toks, t), k)| == |Holders(toks, k)| + 1
    ensures Prepayers(Admit(toks, t), k) == Prepayers(toks, k)
  {
    assert Holders(Admit(toks, t), k) == Holders(toks, k) + {t};
  }

  lemma PrepaidAccount(k: Key, toks: seq<Token>, t: nat)
    requires t < |toks| && toks[t].scopeKey == k && toks[t].phase == Queued && toks[t].settled
    ensures Holders(Admit(toks, t), k) == Holders(toks, k)
    ensures |Prepayers(Admit(toks, t), k)| == |Prepayers(toks, k)| - 1
  {
    assert t in Prepayers(toks, k) && Prepayers(Admit(toks, t), k) == Prepayers(toks, k) - {t};
  }

  /** A granted permit is held, or it is the one the token had given back in advance. */
  lemma GrantAccount(k: Key, toks: seq<Token>, t: nat)
    requires t < |toks| && toks[t].scopeKey == k && toks[t].phase == Queued
    ensures var toks' := Admit(toks, t);
            |Holders(toks', k)| - |Prepayers(toks', k)| == |Holders(toks, k)| - |Prepayers(toks, k)| + 1
  {
    if toks[t].settled { PrepaidAccount(k, toks, t); } else { HeldAccount(k, toks, t); }
  }

  /** With interactive work first, nobody behind an aged waiter is chosen before it. */
  lemma ChoiceRespectsAge(c: Config, q: seq<Entry>, toks: seq<Token>, now: Ms, t: nat)
    requires ValidConfig(c) && Fair(c) && Ordered(q, toks) && AgedWaiter(c, q, toks, now, t)
    ensures var b := Best(c, q, toks, now, |q|);
            b.Some? && (q[b.value].token == t || Before(q, q[b.value].token, t))
  {
    var i :| 0 <= i < |q| && q[i].token == t && Aged(c, q[i], now);
    var b := Best(c, q, toks, now, |q|);
    assert Effective(c, q[i], now) == Interactive;
    assert Eligible(c, q, toks, now, i);
    assert !Outranks(c, q, now, i, b.value);
    assert Effective(c, q[b.value], now) != Title;
    assert Effective(c, q[b.value], now) == Interactive;
    if i < b.value { assert false; }
  }

  ghost predicate Chosen(c: Config, sc: Scope, toks: seq<Token>, now: Ms, b: nat) {
    CanGrant(c, sc, now) && Best(c, sc.queue, toks, now, |sc.queue|) == Some(b)
  }

  lemma GrantKeepsScopeOk(c: Config, k: Key, sc: Scope, toks: seq<Token>, now: Ms, b: nat)
    requires ScopeOk(k, sc, toks) && Chosen(c, sc, toks, now, b)
    ensures var t := sc.queue[b].token;
            ScopeOk(k, Grant(sc.(queue := RemoveAt(sc.queue, b)), t), Admit(toks, t))
  {
    var t, q' := sc.queue[b].token, RemoveAt(sc.queue, b);
    RemovedIsGone(k, sc.queue, b, toks);
    forall i | 0 <= i < |q'| ensures q'[i].token != t && q'[i] == sc.queue[if i < b then i else i + 1] {
      assert Waits(q', q'[i].token);
    }
  }

  lemma GrantTidy(sc: Scope, toks: seq<Token>, b: nat)
    requires b < |sc.queue| && sc.queue[b].token < |toks| && Tidy(sc, toks)
    ensures var t := sc.queue[b].token; Tidy(Grant(sc.(queue := RemoveAt(sc.queue, b)), t), Admit(toks, t))
  {
    var q' := RemoveAt(sc.queue, b);
    assert forall i | 0 <= i < |q'| :: q'[i] == sc.queue[if i < b then i else i + 1];
  }

  lemma OneGrant(c: Config, k: Key, sc: Scope, toks: seq<Token>, now: Ms, b: nat)
    requires ValidConfig(c) && ScopeOk(k, sc, toks) && Chosen(c, sc, toks, now, b)
    ensures var t := sc.queue[b].token;
            Pumped(c, k, sc, toks, Grant(sc.(queue := RemoveAt(sc.queue, b)), t), Admit(toks, t), now)
  {
    var t, q' := sc.queue[b].token, RemoveAt(sc.queue, b);
    var toks' := Admit(toks, t);
    assert PermitsGoToWaiters(k, sc.queue, toks, q', toks') by {
      RemoveKeepsOrder(sc.queue, b);
      RemovedIsGone(k, sc.queue, b, toks);
      assert Waits(sc.queue, t);
    }
    assert QueueKept(sc.queue, toks, q', toks') by {
      RemoveKeepsOrder(sc.queue, b);
      TombstonesRemove(sc.queue, b, toks);
      TombstonesSame(q', toks, toks');
    }
    GrantAccount(k, toks, t);
    if Tidy(sc, toks) { GrantTidy(sc, toks, b); }
    if Fair(c) {
      forall x: nat | AgedWaiter(c, sc.queue, toks, now, x) && Waits(q', x) ensures Before(sc.queue, t, x) {
        RemovedIsGone(k, sc.queue, b, toks);
        ChoiceRespectsAge(c, sc.queue, toks, now, x);
      }
    }
  }

  // ---- Composition ----

  lemma PermitsTrans(k: Key, a: seq<Entry>, ta: seq<Token>, b: seq<Entry>, tb: seq<Token>, d: seq<Entry>,
                     td: seq<Token>)
    requires PermitsGoToWaiters(k, a, ta, b, tb) && PermitsGoToWaiters(k, b, tb, d, td)
    requires (forall e | e in b :: e in a) && (forall e | e in d :: e in b)
    ensures PermitsGoToWaiters(k, a, ta, d, td)
  {
    WaitsKept(b, d);
    WaitsKept(a, b);
  }

  lemma AgeTrans(c: Config, k: Key, a: seq<Entry>, ta: seq<Token>, b: seq<Entry>, tb: seq<Token>, d: seq<Entry>,
                 td: seq<Token>, now: Ms)
    requires QueueOk(k, a, ta) && PermitsGoToWaiters(k, a, ta, b, tb) && PermitsGoToWaiters(k, b, tb, d, td)
    requires QueueKept(a, ta, b, tb) && QueueKept(b, tb, d, td)
    requires AgeRespected(c, k, a, ta, b, tb, now) && AgeRespected(c, k, b, tb, d, td, now)
    ensures AgeRespected(c, k, a, ta, d, td, now)
  {
    forall t: nat, u: nat | AgedWaiter(c, a, ta, now, t) && Waits(d, t) && Newly(ta, td, u) && ta[u].scopeKey == k
      ensures Before(a, u, t)
    {
      WaitsKept(b, d);
      AgedWaiterKept(c, k, a, ta, b, tb, now, t);
      if Newly(ta, tb, u) {
        assert Before(a, u, t);
      } else {
        assert Newly(tb, td, u);
        assert Before(b, u, t);
      }
    }
  }

  lemma PumpedTrans(c: Config, k: Key, a: Scope, ta: seq<Token>, b: Scope, tb: seq<Token>, d: Scope, td: seq<Token>,
                    now: Ms)
    requires QueueOk(k, a.queue, ta) && Pumped(c, k, a, ta, b, tb, now) && Pumped(c, k, b, tb, d, td, now)
    ensures Pumped(c, k, a, ta, d, td, now)
  {
    PermitsTrans(k, a.queue, ta, b.queue, tb, d.queue, td);
    if Fair(c) {
      AgeTrans(c, k, a.queue, ta, b.queue, tb, d.queue, td, now);
    }
  }

  lemma WaitsKept(q: seq<Entry>, q': seq<Entry>)
    requires forall e | e in q' :: e in q
    ensures forall t | Waits(q', t) :: Waits(q, t)
  {
    forall t | Waits(q', t) ensures Waits(q, t) {
      var i :| 0 <= i < |q'| && q'[i].token == t;
      assert q'[i] in q;
    }
  }

  /** An aged waiter that stays is still an aged waiter: it has one entry. */
  lemma AgedWaiterKept(c: Config, k: Key, a: seq<Entry>, ta: seq<Token>, b: seq<Entry>, tb: seq<Token>, now: Ms, t: nat)
    requires QueueOk(k, a, ta) && PermitsGoToWaiters(k, a, ta, b, tb) && (forall e | e in b :: e in a)
    requires AgedWaiter(c, a, ta, now, t) && Waits(b, t)
    ensures AgedWaiter(c, b, tb, now, t)
  {
    var j :| 0 <= j < |b| && b[j].token == t;
    assert b[j] in a;
  }

  // ---- A whole pump ----

  lemma {:induction false} PumpScopeEffect(c: Config, k: Key, sc: Scope, toks: seq<Token>, now: Ms)
    requires ValidConfig(c) && ScopeOk(k, sc, toks)
    ensures var (sc', toks') := PumpScope(c, sc, toks, now);
            && ScopeOk(k, sc', toks')
            && Pumped(c, k, sc, toks, sc', toks', now)
            && WorkConserving(c, sc', toks', now)
            && (forall t: nat | t < |toks| && toks[t].scopeKey != k :: toks'[t] == toks[t])
    decreases |sc.queue|
  {
    if CanGrant(c, sc, now) && |sc.queue| > 0 {
      var b := Best(c, sc.queue, toks, now, |sc.queue|);
      if b.None? {
        EveryoneUnowned(c, sc.queue, toks, now);
      } else {
        var t := sc.queue[b.value].token;
        var sc1, toks1 := Grant(sc.(queue := RemoveAt(sc.queue, b.value)), t), Admit(toks, t);
        GrantKeepsScopeOk(c, k, sc, toks, now, b.value);
        OneGrant(c, k, sc, toks, now, b.value);
        PumpScopeEffect(c, k, sc1, toks1, now);
        var (sc', toks') := PumpScope(c, sc1, toks1, now);
        PumpedTrans(c, k, sc, toks, sc1, toks1, sc', toks', now);
      }
    }
  }

  /** The scheduler declines only a queue of tombstones: title deferral never blocks everyone. */
  lemma EveryoneUnowned(c: Config, q: seq<Entry>, toks: seq<Token>, now: Ms)
    requires Best(c, q, toks, now, |q|).None?
    ensures forall i | 0 <= i < |q| :: Unowned(toks, q[i].token)
  {
    forall i: nat | i < |q| ensures Unowned(toks, q[i].token) {
      assert !Eligible(c, q, toks, now, i);
      if !Unowned(toks, q[i].token) {
        var j: nat :| j < |q| && !Unowned(toks, q[j].token) && Effective(c, q[j], now) == Interactive;
        assert Eligible(c, q, toks, now, j);
      }
    }
  }

  /** Pumping another scope leaves this one as it was. */
  lemma OtherScopePumped(c: Config, k: Key, sc: Scope, toks: seq<Token>, toks': seq<Token>, now: Ms)
    requires ScopeOk(k, sc, toks) && |toks'| == |toks|
    requires forall t: nat | t < |toks| :: SameIdentity(toks[t], toks'[t])
    requires forall t: nat | t < |toks| && toks[t].scopeKey == k :: toks'[t] == toks[t]
    ensures ScopeOk(k, sc, toks') && Pumped(c, k, sc, toks, sc, toks', now)
    ensures WorkConserving(c, sc, toks, now) ==> WorkConserving(c, sc, toks', now)
  {
    TombstonesSame(sc.queue, toks, toks');
    assert Holders(toks', k) == Holders(toks, k);
    assert Prepayers(toks', k) == Prepayers(toks, k);
  }

  ghost predicate ScopesOk(s: State) {
    && (forall k | k in s.scopes :: ScopeOk(k, s.scopes[k], s.tokens))
    && (forall t: nat | t < |s.tokens| :: s.tokens[t].scopeKey in s.scopes)
  }

  /** What a pump leaves of every scope, pumped or not. */
  ghost predicate PumpedAll(c: Config, s: State, s': State, now: Ms) {
    && s'.order == s.order && s'.restored == s.restored && s'.scopes.Keys == s.scopes.Keys
    && |s'.tokens| == |s.tokens|
    && (forall t: nat | t < |s.tokens| :: SameIdentity(s.tokens[t], s'.tokens[t]))
    && (forall k {:trigger Pumped(c, k, s.scopes[k], s.tokens, s'.scopes[k], s'.tokens, now)} | k in s.scopes ::
          Pumped(c, k, s.scopes[k], s.tokens, s'.scopes[k], s'.tokens, now))
    && (forall k {:trigger WorkConserving(c, s'.scopes[k], s'.tokens, now)} |
          k in s.scopes && WorkConserving(c, s.scopes[k], s.tokens, now) ::
              WorkConserving(c, s'.scopes[k], s'.tokens, now))
  }

  /** The state after pumping one scope. */
  function PumpOne(c: Config, s: State, k: Key, now: Ms): State {
    var (sc, toks) := PumpScope(c, ScopeAt(s, k), s.tokens, now);
    WithScope(s, k, sc).(tokens := toks)
  }

  lemma PumpOneKeepsScopes(c: Config, s: State, k0: Key, now: Ms)
    requires ValidConfig(c) && ScopesOk(s) && k0 in s.scopes
    ensures ScopesOk(PumpOne(c, s, k0, now))
  {
    PumpScopeEffect(c, k0, s.scopes[k0], s.tokens, now);
    var s1 := PumpOne(c, s, k0, now);
    forall k | k in s.scopes && k != k0 ensures ScopeOk(k, s1.scopes[k], s1.tokens) {
      OtherScopePumped(c, k, s.scopes[k], s.tokens, s1.tokens, now);
    }
  }

  lemma PumpOneOnScope(c: Config, s: State, k0: Key, k: Key, now: Ms)
    requires ValidConfig(c) && ScopesOk(s) && k0 in s.scopes && k in s.scopes
    ensures var s1 := PumpOne(c, s, k0, now);
            && Pumped(c, k, s.scopes[k], s.tokens, s1.scopes[k], s1.tokens, now)
            && (k == k0 || WorkConserving(c, s.scopes[k], s.tokens, now) ==>
                  WorkConserving(c, s1.scopes[k], s1.tokens, now))
  {
    PumpScopeEffect(c, k0, s.scopes[k0], s.tokens, now);
    if k != k0 {
      OtherScopePumped(c, k, s.scopes[k], s.tokens, PumpOne(c, s, k0, now).tokens, now);
    }
  }

  lemma PumpOneEffect(c: Config, s: State, k0: Key, now: Ms)
    requires ValidConfig(c) && ScopesOk(s) && k0 in s.scopes
    ensures var s' := PumpOne(c, s, k0, now);
            ScopesOk(s') && PumpedAll(c, s, s', now) && WorkConserving(c, s'.scopes[k0], s'.tokens, now)
  {
    PumpOneKeepsScopes(c, s, k0, now);
    PumpOneOnScope(c, s, k0, k0, now);
    forall k | k in s.scopes
      ensures var s1 := PumpOne(c, s, k0, now);
              Pumped(c, k, s.scopes[k], s.tokens, s1.scopes[k], s1.tokens, now)
      ensures var s1 := PumpOne(c, s, k0, now);
              WorkConserving(c, s.scopes[k], s.tokens, now) ==> WorkConserving(c, s1.scopes[k], s1.tokens, now)
    {
      PumpOneOnScope(c, s, k0, k, now);
    }
  }

  lemma PumpedAllTrans(c: Config, a: State, b: State, d: State, now: Ms)
    requires ScopesOk(a) && PumpedAll(c, a, b, now) && PumpedAll(c, b, d, now)
    ensures PumpedAll(c, a, d, now)
  {
    forall k | k in a.scopes ensures Pumped(c, k, a.scopes[k], a.tokens, d.scopes[k], d.tokens, now) {
      PumpedTrans(c, k, a.scopes[k], a.tokens, b.scopes[k], b.tokens, d.scopes[k], d.tokens, now);
    }
  }

  lemma {:induction false} PumpEffect(c: Config, s: State, keys: seq<Key>, now: Ms)
    requires ValidConfig(c) && ScopesOk(s) && forall k | k in keys :: k in s.scopes
    ensures var s' := Pump(c, s, keys, now);
            && ScopesOk(s') && PumpedAll(c, s, s', now)
            && (forall k | k in keys :: WorkConserving(c, s'.scopes[k], s'.tokens, now))
    decreases |keys|
  {
    if keys == [] {
      forall k | k in s.scopes ensures Pumped(c, k, s.scopes[k], s.tokens, s.scopes[k], s.tokens, now) {
        OtherScopePumped(c, k, s.scopes[k], s.tokens, s.tokens, now);
      }
    } else {
      var s1 := PumpOne(c, s, keys[0], now);
      PumpOneEffect(c, s, keys[0], now);
      PumpEffect(c, s1, keys[1..], now);
      PumpedAllTrans(c, s, s1, Pump(c, s1, keys[1..], now), now);
    }
  }
}
