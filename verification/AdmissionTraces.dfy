/**
 Runs of the admission controller from a fresh start, step by step: two permits out
 at a cap of one, and an aged entry passed by a later arrival.  They show that the
 conditions of AdmissionTheorems.PermitConservation and BoundedOvertaking are needed.
 */
module AdmissionTraces {
  import opened Wrappers
  import opened AdmissionModel
  import opened AdmissionPump
  import opened AdmissionSteps
  import opened AdmissionRuns
  import opened AdmissionPermits
  import opened AdmissionTheorems

  /** The state a fresh controller is in after some run, whose last step was taken at `clock`. */
  ghost predicate Reach(c: Config, s: State, clock: Ms) {
    exists run :: LegalRun(c, EMPTY_STATE, 0.0, run) && Exec(c, EMPTY_STATE, 0.0, run) == s && EndOf(0.0, run) == clock
  }

  lemma {:induction false} RunAppend(c: Config, s: State, clock: Ms, run: seq<Timed>, step: Step, now: Ms)
    requires LegalRun(c, s, clock, run) && EndOf(clock, run) <= now && Legal(Exec(c, s, clock, run), step)
    ensures var longer := run + [Timed(step, now)];
            LegalRun(c, s, clock, longer) && Exec(c, s, clock, longer) == Apply(c, Exec(c, s, clock, run), step, now)
    decreases |run|
  {
    var last := [Timed(step, now)];
    if run == [] {
      assert run + last == last && last[1..] == [];
      var s' := Apply(c, s, step, now);
      assert LegalRun(c, s', now, []) && Exec(c, s', now, []) == s';
    } else {
      EndOfTail(clock, run);
      RunAppend(c, Apply(c, s, run[0].step, run[0].now), run[0].now, run[1..], step, now);
      assert (run + last)[0] == run[0] && (run + last)[1..] == run[1..] + last;
    }
  }

  lemma Fresh(c: Config)
    ensures Reach(c, EMPTY_STATE, 0.0)
  {
    assert LegalRun(c, EMPTY_STATE, 0.0, []) && Exec(c, EMPTY_STATE, 0.0, []) == EMPTY_STATE;
  }

  /** One more step. */
  lemma Go(c: Config, s: State, clock: Ms, step: Step, now: Ms)
    requires Reach(c, s, clock) && clock <= now && Legal(s, step)
    ensures Reach(c, Apply(c, s, step, now), now)
  {
    var run :| LegalRun(c, EMPTY_STATE, 0.0, run) && Exec(c, EMPTY_STATE, 0.0, run) == s && EndOf(0.0, run) == clock;
    RunAppend(c, EMPTY_STATE, 0.0, run, step, now);
    assert EndOf(0.0, run + [Timed(step, now)]) == now;
  }

  // ---- States with one scope ----

  const KEY := "scope"
  const HOLDER := NewToken(KEY, Interactive, Admitted)

  function OneScope(sc: Scope, toks: seq<Token>): State {
    State([KEY], map[KEY := sc], toks, false)
  }

  function Crowd(n: nat): seq<Token> {
    seq(n, _ => HOLDER)
  }

  /** `n` permits out, and whoever waits. */
  function Busy(n: nat, queue: seq<Entry>, waiting: seq<Token>): State
    requires n > 0
  {
    OneScope(Scope(n, None, queue, Some(n - 1)), Crowd(n) + waiting)
  }

  lemma FirstGranted(c: Config)
    requires ValidConfig(c)
    ensures Apply(c, EMPTY_STATE, Reserving(KEY, Interactive), 0.0) == Busy(1, [], [])
  {
    assert EMPTY_STATE.order + [KEY] == [KEY];
    assert [] + [HOLDER] == Crowd(1) + [];
  }

  lemma NextGranted(c: Config, n: nat)
    requires 0 < n < c.maxConcurrent
    ensures Apply(c, Busy(n, [], []), Reserving(KEY, Interactive), 0.0) == Busy(n + 1, [], [])
  {
    assert (Crowd(n) + []) + [HOLDER] == Crowd(n + 1) + [];
  }

  /** Reservations of a fresh controller take its permits one after another. */
  lemma {:induction false} Fills(c: Config, n: nat)
    requires ValidConfig(c) && 0 < n <= c.maxConcurrent
    ensures Reach(c, Busy(n, [], []), 0.0)
    decreases n
  {
    if n == 1 {
      Fresh(c);
      FirstGranted(c);
      Go(c, EMPTY_STATE, 0.0, Reserving(KEY, Interactive), 0.0);
    } else {
      Fills(c, n - 1);
      NextGranted(c, n - 1);
      Go(c, Busy(n - 1, [], []), 0.0, Reserving(KEY, Interactive), 0.0);
    }
  }

  /** Without a free permit, or without anybody waiting, a pump does nothing. */
  lemma PumpIdles(c: Config, sc: Scope, toks: seq<Token>, now: Ms)
    requires !CanGrant(c, sc, now) || sc.queue == []
    ensures Pump(c, OneScope(sc, toks), [KEY], now) == OneScope(sc, toks)
  {
    assert [KEY][1..] == [];
    assert OneScope(sc, toks).scopes[KEY := sc] == OneScope(sc, toks).scopes;
  }

  lemma Parks(c: Config, queue: seq<Entry>, waiting: seq<Token>, p: Priority, now: Ms)
    requires ValidConfig(c) && |queue| < c.queueCapacity
    ensures var n := c.maxConcurrent;
            Apply(c, Busy(n, queue, waiting), Reserving(KEY, p), now)
            == Busy(n, queue + [Entry(p, now, n + |waiting|)], waiting + [NewToken(KEY, p, Queued)])
  {
    var n := c.maxConcurrent;
    var s := Busy(n, queue, waiting);
    PumpIdles(c, s.scopes[KEY], s.tokens, now);
    assert (Crowd(n) + waiting) + [NewToken(KEY, p, Queued)] == Crowd(n) + (waiting + [NewToken(KEY, p, Queued)]);
  }

  // ---- Two permits out at a cap of one ----

  const DEFAULT_CONFIG := Config(1, 8, 60000.0, [Interactive, Background, Title], 1000.0, 86400000.0)

  const WAITER := NewToken(KEY, Interactive, Queued)
  const CANCELLED := WAITER.(phase := Cancelled)
  const GONE := CANCELLED.(released := true, settled := true)

  lemma CancelsSecond()
    ensures Apply(DEFAULT_CONFIG, Busy(1, [Entry(Interactive, 0.0, 1)], [WAITER]), Cancelling(1), 0.0)
            == Busy(1, [], [CANCELLED])
  {
    assert (Crowd(1) + [WAITER])[1 := CANCELLED] == Crowd(1) + [CANCELLED];
    assert Without([Entry(Interactive, 0.0, 1)], 1) == [];
  }

  lemma ReleasesSecond()
    ensures Apply(DEFAULT_CONFIG, Busy(1, [], [CANCELLED]), Releasing(1), 0.0)
            == OneScope(Scope(0, None, [], Some(0)), Crowd(1) + [GONE])
  {
    var s := Busy(1, [], [CANCELLED]);
    var s1 := SetToken(s, 1, CANCELLED.(released := true));
    assert s.tokens[1] == CANCELLED && Release(DEFAULT_CONFIG, s, 1, 0.0) == ReturnPermit(DEFAULT_CONFIG, s1, 1, 0.0);
    assert s1.tokens[1 := GONE] == Crowd(1) + [GONE];
    var sc := Scope(0, None, [], Some(0));
    assert s1.scopes[KEY := sc] == OneScope(sc, []).scopes;
    PumpIdles(DEFAULT_CONFIG, sc, Crowd(1) + [GONE], 0.0);
  }

  lemma AdmitsThird()
    ensures Apply(DEFAULT_CONFIG, OneScope(Scope(0, None, [], Some(0)), Crowd(1) + [GONE]),
            Reserving(KEY, Interactive), 0.0)
            == OneScope(Scope(1, None, [], Some(2)), (Crowd(1) + [GONE]) + [HOLDER])
  {
  }

  lemma SecondReached()
    ensures Reach(DEFAULT_CONFIG, Busy(1, [Entry(Interactive, 0.0, 1)], [WAITER]), 0.0)
  {
    Fills(DEFAULT_CONFIG, 1);
    Parks(DEFAULT_CONFIG, [], [], Interactive, 0.0);
    assert [] + [Entry(Interactive, 0.0, 1)] == [Entry(Interactive, 0.0, 1)] && [] + [WAITER] == [WAITER];
    Go(DEFAULT_CONFIG, Busy(1, [], []), 0.0, Reserving(KEY, Interactive), 0.0);
  }

  lemma ReleasedReached()
    ensures Reach(DEFAULT_CONFIG, OneScope(Scope(0, None, [], Some(0)), Crowd(1) + [GONE]), 0.0)
  {
    SecondReached();
    CancelsSecond();
    Go(DEFAULT_CONFIG, Busy(1, [Entry(Interactive, 0.0, 1)], [WAITER]), 0.0, Cancelling(1), 0.0);
    ReleasesSecond();
    Go(DEFAULT_CONFIG, Busy(1, [], [CANCELLED]), 0.0, Releasing(1), 0.0);
  }

  /** Under the default configuration a fresh controller can end with two permits out at a cap of
      one: a second request is parked, cancelled and released, and a third is then admitted. */
  lemma CancelThenReleaseOverruns() returns (s: State)
    ensures ValidConfig(DEFAULT_CONFIG) && DEFAULT_CONFIG.maxConcurrent == 1
    ensures Reach(DEFAULT_CONFIG, s, 0.0) && |Holders(s.tokens, KEY)| == 2
  {
    ReleasedReached();
    AdmitsThird();
    Go(DEFAULT_CONFIG, OneScope(Scope(0, None, [], Some(0)), Crowd(1) + [GONE]), 0.0, Reserving(KEY, Interactive), 0.0);
    s := OneScope(Scope(1, None, [], Some(2)), (Crowd(1) + [GONE]) + [HOLDER]);
    assert s.tokens == [HOLDER, GONE, HOLDER];
    assert Holders(s.tokens, KEY) == {0, 2};
  }

  // ---- A waiting token returned on the controller ----

  const PARKED := [Entry(Interactive, 0.0, 1), Entry(Interactive, 0.0, 2)]

  const SETTLED := WAITER.(settled := true)

  lemma TwoParked()
    ensures Reach(DEFAULT_CONFIG, Busy(1, PARKED, [WAITER, WAITER]), 0.0)
  {
    SecondReached();
    var first := [Entry(Interactive, 0.0, 1)];
    Parks(DEFAULT_CONFIG, first, [WAITER], Interactive, 0.0);
    assert first + [Entry(Interactive, 0.0, 2)] == PARKED;
    assert [WAITER] + [WAITER] == [WAITER, WAITER];
    Go(DEFAULT_CONFIG, Busy(1, first, [WAITER]), 0.0, Reserving(KEY, Interactive), 0.0);
  }

  /** The pump of one scope that finds its first entry, and then no free permit. */
  lemma PumpsFirst(sc: Scope, toks: seq<Token>)
    requires sc == Scope(0, None, PARKED, Some(0))
    requires toks == [HOLDER, WAITER, SETTLED]
    ensures PumpScope(DEFAULT_CONFIG, sc, toks, 0.0)
            == (Scope(1, None, [Entry(Interactive, 0.0, 2)], Some(1)), [HOLDER, HOLDER, SETTLED])
  {
    var c, q := DEFAULT_CONFIG, sc.queue;
    assert Eligible(c, q, toks, 0.0, 0) && Eligible(c, q, toks, 0.0, 1) && !Outranks(c, q, 0.0, 1, 0);
    assert Best(c, q, toks, 0.0, 2) == Some(0);
    assert RemoveAt(q, 0) == [Entry(Interactive, 0.0, 2)];
    assert Admit(toks, 1) == [HOLDER, HOLDER, SETTLED];
    var sc1 := Grant(sc.(queue := RemoveAt(q, 0)), 1);
    assert PumpScope(c, sc, toks, 0.0) == PumpScope(c, sc1, Admit(toks, 1), 0.0);
  }

  lemma PumpsOnly(c: Config, sc: Scope, toks: seq<Token>, now: Ms)
    ensures var (sc', toks') := PumpScope(c, sc, toks, now);
            Pump(c, OneScope(sc, toks), [KEY], now) == OneScope(sc', toks')
  {
    var (sc', toks') := PumpScope(c, sc, toks, now);
    assert [KEY][1..] == [] && OneScope(sc, toks).scopes[KEY := sc'] == OneScope(sc', toks').scopes;
    assert Pump(c, OneScope(sc', toks'), [], now) == OneScope(sc', toks');
  }

  lemma ReturnsThird()
    ensures Apply(DEFAULT_CONFIG, Busy(1, PARKED, [WAITER, WAITER]), Returning(2), 0.0)
            == OneScope(Scope(1, None, [Entry(Interactive, 0.0, 2)], Some(1)), [HOLDER, HOLDER, SETTLED])
  {
    var s, sc := Busy(1, PARKED, [WAITER, WAITER]), Scope(0, None, PARKED, Some(0));
    assert s.tokens == [HOLDER, WAITER, WAITER];
    assert s.tokens[2 := SETTLED] == [HOLDER, WAITER, SETTLED];
    assert s.scopes[KEY := sc] == OneScope(sc, []).scopes;
    assert Returned(s, 2) == OneScope(sc, [HOLDER, WAITER, SETTLED]);
    PumpsOnly(DEFAULT_CONFIG, sc, [HOLDER, WAITER, SETTLED], 0.0);
    PumpsFirst(sc, [HOLDER, WAITER, SETTLED]);
  }

  /** releaseToken called for a token that still waits takes the permit of the one in flight: a fresh
      controller then has two permits out at a cap of one, though nothing was cancelled. */
  lemma ReturnedWaiterOverruns() returns (s: State, s': State)
    ensures Reach(DEFAULT_CONFIG, s, 0.0) && Legal(s, Returning(2)) && ReturnsWaiter(s, Returning(2))
    ensures s' == Apply(DEFAULT_CONFIG, s, Returning(2), 0.0)
    ensures ScopeAt(s', KEY).concurrent == 1 && |Holders(s'.tokens, KEY)| == 2
  {
    s := Busy(1, PARKED, [WAITER, WAITER]);
    TwoParked();
    assert s.tokens == [HOLDER, WAITER, WAITER];
    ReturnsThird();
    s' := OneScope(Scope(1, None, [Entry(Interactive, 0.0, 2)], Some(1)), [HOLDER, HOLDER, SETTLED]);
    assert Holders(s'.tokens, KEY) == {0, 1};
  }

  // ---- An aged entry passed by a later arrival ----

  /** All permits out, an aged title in the queue, and a background request of this moment behind it. */
  function Contended(c: Config): State
    requires ValidConfig(c)
  {
    Busy(c.maxConcurrent, [Entry(Title, 0.0, c.maxConcurrent), Entry(Background, c.maxWaitMs, c.maxConcurrent + 1)],
         [NewToken(KEY, Title, Queued), NewToken(KEY, Background, Queued)])
  }

  lemma TitleReached(c: Config)
    requires ValidConfig(c)
    ensures Reach(c, Busy(c.maxConcurrent, [Entry(Title, 0.0, c.maxConcurrent)], [NewToken(KEY, Title, Queued)]), 0.0)
  {
    var n := c.maxConcurrent;
    Fills(c, n);
    Parks(c, [], [], Title, 0.0);
    assert [] + [Entry(Title, 0.0, n)] == [Entry(Title, 0.0, n)]
        && [] + [NewToken(KEY, Title, Queued)] == [NewToken(KEY, Title, Queued)];
    Go(c, Busy(n, [], []), 0.0, Reserving(KEY, Title), 0.0);
  }

  lemma ContendedReached(c: Config)
    requires ValidConfig(c) && c.queueCapacity >= 2
    ensures Reach(c, Contended(c), c.maxWaitMs)
  {
    var n := c.maxConcurrent;
    var first, title := [Entry(Title, 0.0, n)], [NewToken(KEY, Title, Queued)];
    TitleReached(c);
    Parks(c, first, title, Background, c.maxWaitMs);
    Go(c, Busy(n, first, title), 0.0, Reserving(KEY, Background), c.maxWaitMs);
    assert first + [Entry(Background, c.maxWaitMs, n + 1)] == Contended(c).scopes[KEY].queue;
    assert title + [NewToken(KEY, Background, Queued)]
        == [NewToken(KEY, Title, Queued), NewToken(KEY, Background, Queued)];
  }

  lemma ContendedChoice(c: Config, toks: seq<Token>)
    requires ValidConfig(c) && !Fair(c) && !Unowned(toks, c.maxConcurrent) && !Unowned(toks, c.maxConcurrent + 1)
    ensures Best(c, Contended(c).scopes[KEY].queue, toks, c.maxWaitMs, 2) == Some(1)
  {
    var q, now := Contended(c).scopes[KEY].queue, c.maxWaitMs;
    assert Aged(c, q[0], now) && !Aged(c, q[1], now);
    assert Eligible(c, q, toks, now, 0) && Eligible(c, q, toks, now, 1);
    assert Outranks(c, q, now, 1, 0);
  }

  lemma ContendedSettle(c: Config)
    requires ValidConfig(c) && !Fair(c)
    ensures var s', n := Settle(c, Contended(c), 0, c.maxWaitMs), c.maxConcurrent;
            && |s'.tokens| == n + 2 && s'.tokens[n + 1] == NewToken(KEY, Background, Admitted)
            && ScopeAt(s', KEY).queue == [Entry(Title, 0.0, n)]
  {
    var s, now := Contended(c), c.maxWaitMs;
    var s1 := Returned(s, 0);
    var sc1 := s1.scopes[KEY];
    ContendedChoice(c, s1.tokens);
    assert RemoveAt(sc1.queue, 1) == [Entry(Title, 0.0, c.maxConcurrent)];
    var sc2, toks2 := Grant(sc1.(queue := RemoveAt(sc1.queue, 1)), c.maxConcurrent + 1),
        Admit(s1.tokens, c.maxConcurrent + 1);
    assert PumpScope(c, sc1, s1.tokens, now) == PumpScope(c, sc2, toks2, now);
    assert PumpScope(c, sc2, toks2, now) == (sc2, toks2);
    assert Pump(c, s1, [KEY], now) == Pump(c, PumpOne(c, s1, KEY, now), [], now) by { assert [KEY][1..] == []; }
  }

  /** What shields an aged entry is needed: with room for two and background work configured ahead of
      interactive work, a fresh controller reaches a state in which the next return of a permit goes to
      an entry behind an aged one. */
  lemma UnfairOvertakes(c: Config) returns (s: State, t: nat, u: nat)
    requires ValidConfig(c) && !Fair(c) && c.queueCapacity >= 2
    ensures Reach(c, s, c.maxWaitMs) && Legal(s, Settling(0)) && t < |s.tokens| && AgedIn(c, s, KEY, c.maxWaitMs, t)
    ensures var s' := Apply(c, s, Settling(0), c.maxWaitMs); WaitsIn(s', KEY, t) && Gains(s, s', KEY, u)
    ensures Before(ScopeAt(s, KEY).queue, t, u) && !Before(ScopeAt(s, KEY).queue, u, t)
  {
    s, t, u := Contended(c), c.maxConcurrent, c.maxConcurrent + 1;
    ContendedReached(c);
    ContendedSettle(c);
    var q := s.scopes[KEY].queue;
    assert q[0].token == t && q[1].token == u && Aged(c, q[0], c.maxWaitMs);
    var s' := Settle(c, s, 0, c.maxWaitMs);
    assert s'.scopes[KEY].queue[0].token == t;
  }
}
