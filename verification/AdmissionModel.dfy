/**
 The admission controller of src/provider-admission.ts on values: what each
 operation computes from the state before it.  Every function is total, and one
 clock reading `now` serves a whole operation.  AdmissionController.dfy proves
 the in-place form equal to these functions; AdmissionRuns.dfy proves what the
 controller promises about them.
 */
module AdmissionModel {
  import opened Wrappers

  type Key = string
  type Ms = real

  datatype Priority = Interactive | Background | Title

  // The source also names a state "settled", but never assigns it: a token whose
  // permit was returned keeps its state and has its `settled` flag raised.
  datatype Phase = Queued | Admitted | Cancelled | Uncertain

  datatype Config = Config(
    maxConcurrent: nat,
    queueCapacity: nat,
    maxWaitMs: Ms,
    classes: seq<Priority>,
    retryDelayMs: Ms,
    cooldownMaxMs: Ms)

  /** What assertConfig accepts: any order of the three classes. */
  predicate ValidConfig(c: Config) {
    && c.maxConcurrent >= 1
    && c.queueCapacity >= 1
    && c.maxWaitMs > 0.0
    && c.retryDelayMs > 0.0
    && c.cooldownMaxMs > 0.0
    && |c.classes| == 3
    && c.classes[0] != c.classes[1] && c.classes[0] != c.classes[2] && c.classes[1] != c.classes[2]
  }

  datatype Entry = Entry(priority: Priority, enqueuedAt: Ms, token: nat)

  datatype Token = Token(
    scopeKey: Key,
    priority: Priority,
    phase: Phase,
    uncertain: bool,
    released: bool,
    settled: bool,
    unowned: bool,
    attached: bool)  // has the back-reference to its controller

  datatype Scope = Scope(concurrent: nat, cooldownUntil: Option<Ms>, queue: seq<Entry>, inFlight: Option<nat>)

  datatype State = State(order: seq<Key>, scopes: map<Key, Scope>, tokens: seq<Token>, restored: bool)

  const EMPTY_SCOPE := Scope(0, None, [], None)
  const EMPTY_STATE := State([], map[], [], false)

  function ScopeAt(s: State, k: Key): Scope {
    if k in s.scopes then s.scopes[k] else EMPTY_SCOPE
  }

  function WithScope(s: State, k: Key, sc: Scope): State {
    s.(scopes := s.scopes[k := sc])
  }

  // ---- Scheduling one scope ----

  /** Position of a class in the configured order (indexOf). */
  function Rank(c: Config, p: Priority): nat {
    if |c.classes| > 0 && c.classes[0] == p then 0
    else if |c.classes| > 1 && c.classes[1] == p then 1
    else 2
  }

  predicate Unowned(toks: seq<Token>, t: nat) {
    t < |toks| && toks[t].unowned
  }

  predicate CanGrant(c: Config, sc: Scope, now: Ms) {
    sc.concurrent < c.maxConcurrent && (sc.cooldownUntil.None? || now >= sc.cooldownUntil.value)
  }

  predicate Aged(c: Config, e: Entry, now: Ms) {
    now - e.enqueuedAt >= c.maxWaitMs
  }

  function Effective(c: Config, e: Entry, now: Ms): Priority {
    if Aged(c, e, now) then Interactive else e.priority
  }

  predicate InteractiveWaiting(c: Config, q: seq<Entry>, toks: seq<Token>, now: Ms) {
    exists i | 0 <= i < |q| :: !Unowned(toks, q[i].token) && Effective(c, q[i], now) == Interactive
  }

  /** Neither a tombstone nor a title deferred behind interactive work. */
  predicate Eligible(c: Config, q: seq<Entry>, toks: seq<Token>, now: Ms, i: nat)
    requires i < |q|
  {
    && !Unowned(toks, q[i].token)
    && !(Effective(c, q[i], now) == Title && InteractiveWaiting(c, q, toks, now))
  }

  /** Entry `i` goes before entry `j`: by rank, then by age. */
  predicate Outranks(c: Config, q: seq<Entry>, now: Ms, i: nat, j: nat)
    requires i < |q| && j < |q|
  {
    var ri, rj := Rank(c, Effective(c, q[i], now)), Rank(c, Effective(c, q[j], now));
    ri < rj || (ri == rj && q[i].enqueuedAt < q[j].enqueuedAt)
  }

  /** The scheduler's choice among the first `n` entries: eligible, and outranked by no eligible
      entry; among equals, the first in the queue. */
  function Best(c: Config, q: seq<Entry>, toks: seq<Token>, now: Ms, n: nat): (b: Option<nat>)
    requires n <= |q|
    ensures b.None? ==> forall j: nat | j < n :: !Eligible(c, q, toks, now, j)
    ensures b.Some? ==> b.value < n && Eligible(c, q, toks, now, b.value)
    ensures b.Some? ==> forall j: nat | j < n && Eligible(c, q, toks, now, j) ::
              !Outranks(c, q, now, j, b.value) && (j < b.value ==> Outranks(c, q, now, b.value, j))
  {
    if n == 0 then None
    else
      var b := Best(c, q, toks, now, n - 1);
      if Eligible(c, q, toks, now, n - 1) && (b.None? || Outranks(c, q, now, n - 1, b.value))
      then Some(n - 1)
      else b
  }

  function RemoveAt(q: seq<Entry>, i: nat): seq<Entry>
    requires i < |q|
  {
    q[..i] + q[i + 1..]
  }

  function Grant(sc: Scope, t: nat): Scope {
    sc.(concurrent := sc.concurrent + 1, inFlight := Some(t))
  }

  function Admit(toks: seq<Token>, t: nat): seq<Token> {
    if t < |toks| then toks[t := toks[t].(phase := Admitted, uncertain := false)] else toks
  }

  /** Hand out permits of one scope until none is free, a cooldown is open, or nobody may take one. */
  function PumpScope(c: Config, sc: Scope, toks: seq<Token>, now: Ms): (Scope, seq<Token>)
    decreases |sc.queue|
  {
    if CanGrant(c, sc, now) && |sc.queue| > 0 then
      var b := Best(c, sc.queue, toks, now, |sc.queue|);
      if b.None? then (sc, toks)
      else
        var t := sc.queue[b.value].token;
        PumpScope(c, Grant(sc.(queue := RemoveAt(sc.queue, b.value)), t), Admit(toks, t), now)
    else (sc, toks)
  }

  function Pump(c: Config, s: State, keys: seq<Key>, now: Ms): State
    decreases |keys|
  {
    if keys == [] then s
    else
      var (sc, toks) := PumpScope(c, ScopeAt(s, keys[0]), s.tokens, now);
      Pump(c, WithScope(s, keys[0], sc).(tokens := toks), keys[1..], now)
  }

  // ---- Operations ----

  function EnsureScope(s: State, k: Key): State {
    if k in s.scopes then s
    else State(s.order + [k], s.scopes[k := EMPTY_SCOPE], s.tokens, s.restored)
  }

  datatype Outcome = Granted(token: nat) | Parked(token: nat) | Saturated(waiting: nat)

  function NewToken(k: Key, p: Priority, phase: Phase): Token {
    Token(k, p, phase, false, false, false, false, true)
  }

  /** The state in which a reservation decides: the scope exists and parked work was served first. */
  function Served(c: Config, s: State, k: Key, now: Ms): State {
    var s1 := EnsureScope(s, k);
    if |s1.scopes[k].queue| > 0 then Pump(c, s1, s1.order, now) else s1
  }

  function Reserve(c: Config, s: State, k: Key, p: Priority, now: Ms): (State, Outcome) {
    var s2 := Served(c, s, k, now);
    var sc := ScopeAt(s2, k);
    var t := |s2.tokens|;
    if CanGrant(c, sc, now) then
      (WithScope(s2, k, Grant(sc, t)).(tokens := s2.tokens + [NewToken(k, p, Admitted)]), Granted(t))
    else if |sc.queue| >= c.queueCapacity then
      (s2, Saturated(|sc.queue|))
    else
      (WithScope(s2, k, sc.(queue := sc.queue + [Entry(p, now, t)])).(tokens := s2.tokens + [NewToken(k, p, Queued)]),
       Parked(t))
  }

  function SetToken(s: State, t: nat, tok: Token): State
    requires t < |s.tokens|
  {
    s.(tokens := s.tokens[t := tok])
  }

  function ReleasedScope(sc: Scope, t: nat): Scope {
    sc.(inFlight := if sc.inFlight == Some(t) then None else sc.inFlight,
        concurrent := if sc.concurrent > 0 then sc.concurrent - 1 else 0)
  }

  /** releaseToken: the permit goes back once, and the freed capacity is handed on. */
  function ReturnPermit(c: Config, s: State, t: nat, now: Ms): State
    requires t < |s.tokens|
  {
    var tok := s.tokens[t];
    if tok.settled then s
    else
      var s1 := SetToken(s, t, tok.(settled := true));
      if tok.scopeKey !in s.scopes then s1
      else Pump(c, WithScope(s1, tok.scopeKey, ReleasedScope(s.scopes[tok.scopeKey], t)), s.order, now)
  }

  function Settle(c: Config, s: State, t: nat, now: Ms): State
    requires t < |s.tokens|
  {
    if s.tokens[t].released || s.tokens[t].settled then s else ReturnPermit(c, s, t, now)
  }

  /** removeFromQueue: the first entry of the token leaves the queue. */
  function Without(q: seq<Entry>, t: nat): seq<Entry> {
    if q == [] then [] else if q[0].token == t then q[1..] else [q[0]] + Without(q[1..], t)
  }

  /** Searching the queue for the index of the first entry of the token, and taking that one out. */
  lemma {:induction false} WithoutFirst(q: seq<Entry>, t: nat, i: nat)
    requires i <= |q| && forall j | 0 <= j < i :: q[j].token != t
    ensures i == |q| ==> Without(q, t) == q
    ensures i < |q| && q[i].token == t ==> Without(q, t) == RemoveAt(q, i)
  {
    if i > 0 {
      WithoutFirst(q[1..], t, i - 1);
    }
  }

  /** cancel() together with the removal it triggers in the waiting reservation; a tombstone has
      no waiting reservation, so its entry stays. */
  function Cancel(s: State, t: nat): State
    requires t < |s.tokens|
  {
    var tok := s.tokens[t];
    if tok.phase != Queued then s
    else
      var s1 := SetToken(s, t, tok.(phase := Cancelled));
      if tok.unowned || tok.scopeKey !in s.scopes then s1
      else
        var sc := s.scopes[tok.scopeKey];
        WithScope(s1, tok.scopeKey, sc.(queue := Without(sc.queue, t)))
  }

  function Release(c: Config, s: State, t: nat, now: Ms): State
    requires t < |s.tokens|
  {
    var tok := s.tokens[t];
    if tok.released then s
    else
      var s1 := SetToken(s, t, tok.(released := true));
      if tok.phase == Queued then Cancel(s1, t)
      else if tok.attached then ReturnPermit(c, s1, t, now)
      else s1
  }

  function Delay(c: Config, hint: Option<Ms>): Ms {
    if hint.None? then c.retryDelayMs
    else if hint.value < c.cooldownMaxMs then hint.value
    else c.cooldownMaxMs
  }

  function OpenCooldown(c: Config, s: State, k: Key, hint: Option<Ms>, now: Ms): State {
    if k !in s.scopes then s
    else WithScope(s, k, s.scopes[k].(cooldownUntil := Some(now + Delay(c, hint))))
  }

  /** A provider limit: the scope stands down before the permit is returned. */
  function Reject(c: Config, s: State, t: nat, hint: Option<Ms>, now: Ms): State
    requires t < |s.tokens|
  {
    Settle(c, OpenCooldown(c, s, s.tokens[t].scopeKey, hint, now), t, now)
  }

  function Resolve(c: Config, s: State, t: nat, now: Ms): State
    requires t < |s.tokens|
  {
    if !s.tokens[t].uncertain || s.tokens[t].phase != Uncertain then s else Settle(c, s, t, now)
  }

  // ---- Snapshots ----

  datatype SavedEntry = SavedEntry(priority: Priority, enqueuedAt: Ms)
  datatype ScopeState = ScopeState(concurrent: nat, queue: seq<SavedEntry>, cooldownUntil: Option<Ms>, inFlight: bool)
  datatype Snapshot = Snapshot(version: int, order: seq<Key>, scopes: map<Key, ScopeState>)

  /** A record with its keys in insertion order. */
  predicate ValidSnapshot(snap: Snapshot) {
    && (forall k | k in snap.order :: k in snap.scopes)
    && (forall k | k in snap.scopes :: k in snap.order)
    && (forall i, j | 0 <= i < j < |snap.order| :: snap.order[i] != snap.order[j])
  }

  function SaveQueue(q: seq<Entry>): seq<SavedEntry> {
    seq(|q|, i requires 0 <= i < |q| => SavedEntry(q[i].priority, q[i].enqueuedAt))
  }

  function SaveScope(sc: Scope): ScopeState {
    ScopeState(sc.concurrent, SaveQueue(sc.queue), sc.cooldownUntil, sc.inFlight.Some?)
  }

  function Save(s: State): Snapshot {
    Snapshot(1, s.order, map k | k in s.scopes :: SaveScope(s.scopes[k]))
  }

  function Tombstone(k: Key, p: SavedEntry): Token {
    Token(k, p.priority, Queued, false, false, false, true, false)
  }

  function UncertainToken(k: Key): Token {
    Token(k, Interactive, Uncertain, true, false, false, false, false)
  }

  /** The tokens a restored scope creates: a tombstone for each queue entry, then the uncertain one. */
  function RestoredTokens(k: Key, st: ScopeState): seq<Token> {
    seq(|st.queue|, i requires 0 <= i < |st.queue| => Tombstone(k, st.queue[i]))
    + (if st.inFlight then [UncertainToken(k)] else [])
  }

  function RestoredScope(st: ScopeState, first: nat): Scope {
    Scope(st.concurrent, st.cooldownUntil,
          seq(|st.queue|, i requires 0 <= i < |st.queue| =>
              Entry(st.queue[i].priority, st.queue[i].enqueuedAt, first + i)),
          if st.inFlight then Some(first + |st.queue|) else None)
  }

  function RestoreScope(s: State, k: Key, st: ScopeState): State {
    State(if k in s.scopes then s.order else s.order + [k],
          s.scopes[k := RestoredScope(st, |s.tokens|)],
          s.tokens + RestoredTokens(k, st),
          s.restored)
  }

  function RestoreScopes(s: State, snap: Snapshot, keys: seq<Key>): State
    requires forall k | k in keys :: k in snap.scopes
    decreases |keys|
  {
    if keys == [] then s
    else RestoreScopes(RestoreScope(s, keys[0], snap.scopes[keys[0]]), snap, keys[1..])
  }

  /** Loads at most once; None is the refusal of an unknown version. */
  function Restore(s: State, snap: Snapshot): Option<State>
    requires ValidSnapshot(snap)
  {
    if s.restored then Some(s)
    else if snap.version != 1 then None
    else Some(RestoreScopes(s, snap, snap.order).(restored := true))
  }
}
