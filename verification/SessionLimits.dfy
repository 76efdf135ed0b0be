/**
 The session spend controller (src/session-limits.ts): admission of model calls
 under a turn limit and a cost limit, its latches, and its restart.
 */
module SessionLimits {
  import opened Wrappers

  datatype Reason = Turns | Cost | CostInFlight | CostUnknown

  /** Zero is no limit. */
  datatype Limits = Limits(maxTurns: nat, maxCost: real)

  datatype Failure = Failure(reason: Reason, limit: real, observed: real)

  datatype State = State(admitted: nat, observed: real, inFlight: bool, terminal: Option<Reason>)

  datatype Snapshot = Snapshot(limits: Limits, admitted: nat, observed: real, inFlight: bool, terminal: Option<Reason>)

  const FRESH := State(0, 0.0, false, None)

  /** The configured limits, exactly when they are a non-negative integer and a non-negative number. */
  function ResolveLimits(maxTurns: Option<real>, maxCost: Option<real>): (r: Option<Limits>)
    ensures r.Some? ==> r.value.maxTurns as real == if maxTurns.Some? then maxTurns.value else 0.0
    ensures r.Some? ==> r.value.maxCost == if maxCost.Some? then maxCost.value else 0.0
    ensures r.Some? <==> (maxTurns.None? || (maxTurns.value >= 0.0 && maxTurns.value == maxTurns.value.Floor as real))
                         && (maxCost.None? || maxCost.value >= 0.0)
  {
    var turns := if maxTurns.Some? then maxTurns.value else 0.0;
    var cost := if maxCost.Some? then maxCost.value else 0.0;
    if turns.Floor as real != turns || turns < 0.0 || cost < 0.0 then None else Some(Limits(turns.Floor, cost))
  }

  function CurrentError(l: Limits, s: State): Option<Failure> {
    if s.terminal.Some? then Some(Failure(s.terminal.value, l.maxCost, s.observed))
    else if l.maxTurns > 0 && s.admitted >= l.maxTurns then Some(Failure(Turns, l.maxTurns as real, s.admitted as real))
    else if l.maxCost > 0.0 && s.observed >= l.maxCost then Some(Failure(Cost, l.maxCost, s.observed))
    else if l.maxCost > 0.0 && s.inFlight then Some(Failure(CostInFlight, l.maxCost, s.observed))
    else None
  }

  function ReasonOf(l: Limits, s: State): Option<Reason> {
    var e := CurrentError(l, s);
    if e.Some? then Some(e.value.reason) else None
  }

  function Admitted(l: Limits, s: State): State {
    s.(admitted := s.admitted + 1, inFlight := s.inFlight || l.maxCost > 0.0)
  }

  /** The end of a call; no cost stands for a failed call or a cost that is no finite number. */
  function Settled(l: Limits, s: State, cost: Option<real>): State {
    if l.maxCost == 0.0 then s
    else if cost.None? || cost.value < 0.0 then s.(inFlight := false, terminal := Some(CostUnknown))
    else s.(inFlight := false, observed := s.observed + cost.value)
  }

  function Save(l: Limits, s: State): Snapshot {
    Snapshot(l, s.admitted, s.observed, s.inFlight, ReasonOf(l, s))
  }

  predicate Untouched(s: State) {
    s.admitted == 0 && s.observed == 0.0 && !s.inFlight
  }

  /** No state when the limits differ from the configured ones. */
  function Restored(l: Limits, s: State, saved: Snapshot): Option<State> {
    if !Untouched(s) then Some(s)
    else if saved.limits != l then None
    else Some(State(saved.admitted, saved.observed, saved.inFlight, saved.terminal))
  }

  class SessionLimitController {
    const limits: Limits
    var admittedTurns: nat
    var observedCostUsd: real
    var costInFlight: bool
    var terminalReason: Option<Reason>
    var boundaryFailure: Option<Failure>

    ghost function Now(): State
      reads this
    {
      State(admittedTurns, observedCostUsd, costInFlight, terminalReason)
    }

    constructor (limits: Limits)
      ensures this.limits == limits && Now() == FRESH && boundaryFailure.None?
    {
      this.limits := limits;
      admittedTurns, observedCostUsd, costInFlight := 0, 0.0, false;
      terminalReason, boundaryFailure := None, None;
    }

    /** A controller with the limits configured, unless they are refused. */
    static method Configure(maxTurns: Option<real>, maxCost: Option<real>) returns (r: Option<SessionLimitController>)
      ensures r.Some? <==> ResolveLimits(maxTurns, maxCost).Some?
      ensures r.Some? ==> fresh(r.value) && Some(r.value.limits) == ResolveLimits(maxTurns, maxCost)
      ensures r.Some? ==> r.value.Now() == FRESH && r.value.boundaryFailure.None?
    {
      var limits := ResolveLimits(maxTurns, maxCost);
      if limits.None? { return None; }
      var controller := new SessionLimitController(limits.value);
      return Some(controller);
    }

    method Restore(saved: Snapshot) returns (accepted: bool)
      modifies this
      ensures boundaryFailure == old(boundaryFailure)
      ensures accepted == Restored(limits, old(Now()), saved).Some?
      ensures Now() == if accepted then Restored(limits, old(Now()), saved).value else old(Now())
    {
      if admittedTurns != 0 || observedCostUsd != 0.0 || costInFlight { return true; }
      if saved.limits.maxTurns != limits.maxTurns || saved.limits.maxCost != limits.maxCost { return false; }
      admittedTurns := saved.admitted;
      observedCostUsd := saved.observed;
      costInFlight := saved.inFlight;
      terminalReason := saved.terminal;
      return true;
    }

    method TakeSnapshot() returns (saved: Snapshot)
      ensures saved == Save(limits, Now())
    {
      var current := AssertActive();
      var reason := if current.Some? then Some(current.value.reason) else None;
      return Snapshot(limits, admittedTurns, observedCostUsd, costInFlight, reason);
    }

    method AssertActive() returns (error: Option<Failure>)
      ensures error == CurrentError(limits, Now())
    {
      if terminalReason.Some? { return Some(Failure(terminalReason.value, limits.maxCost, observedCostUsd)); }
      if limits.maxTurns > 0 && admittedTurns >= limits.maxTurns {
        return Some(Failure(Turns, limits.maxTurns as real, admittedTurns as real));
      }
      if limits.maxCost > 0.0 && observedCostUsd >= limits.maxCost {
        return Some(Failure(Cost, limits.maxCost, observedCostUsd));
      }
      if limits.maxCost > 0.0 && costInFlight { return Some(Failure(CostInFlight, limits.maxCost, observedCostUsd)); }
      return None;
    }

    method AssertNoBoundaryFailure() returns (error: Option<Failure>)
      ensures error == boundaryFailure
    {
      return boundaryFailure;
    }

    /** A refused call leaves its refusal behind; an admitted one counts, and occupies the budget. */
    method Reserve() returns (error: Option<Failure>)
      modifies this
      ensures error == CurrentError(limits, old(Now()))
      ensures Now() == if error.Some? then old(Now()) else Admitted(limits, old(Now()))
      ensures boundaryFailure == if error.Some? then error else old(boundaryFailure)
    {
      error := AssertActive();
      if error.Some? {
        boundaryFailure := error;
        return;
      }
      admittedTurns := admittedTurns + 1;
      if limits.maxCost > 0.0 { costInFlight := true; }
    }

    method Settle(cost: Option<real>)
      modifies this
      ensures Now() == Settled(limits, old(Now()), cost) && boundaryFailure == old(boundaryFailure)
    {
      if limits.maxCost == 0.0 { return; }
      costInFlight := false;
      if cost.None? || cost.value < 0.0 {
        terminalReason := Some(CostUnknown);
        return;
      }
      observedCostUsd := observedCostUsd + cost.value;
    }
  }

  // ---- Runs: every admitted call settles at most once ----

  datatype Step = Call | Settle(cost: Option<real>)

  /** A controller and what happened: `granted` calls were admitted, of which `open` have not settled;
      `last` is the last cost settled, `spent` the sum of all, and `unknown` says whether one was unknown. */
  datatype Session = Session(state: State, granted: nat, open: nat, last: real, spent: real, unknown: bool)

  const START := Session(FRESH, 0, 0, 0.0, 0.0, false)

  predicate Known(cost: Option<real>) {
    cost.Some? && cost.value >= 0.0
  }

  predicate Admits(l: Limits, s: State) {
    CurrentError(l, s).None?
  }

  function Next(l: Limits, s: Session, step: Step): Option<Session> {
    match step
    case Call =>
      if !Admits(l, s.state) then Some(s)
      else Some(s.(state := Admitted(l, s.state), granted := s.granted + 1, open := s.open + 1))
    case Settle(cost) =>
      if s.open == 0 then None
      else
        var s1 := s.(state := Settled(l, s.state, cost), open := s.open - 1);
        Some(if Known(cost) then s1.(last := cost.value, spent := s.spent + cost.value) else s1.(unknown := true))
  }

  predicate Legal(l: Limits, s: Session, run: seq<Step>)
    decreases |run|
  {
    run == [] || (Next(l, s, run[0]).Some? && Legal(l, Next(l, s, run[0]).value, run[1..]))
  }

  function Exec(l: Limits, s: Session, run: seq<Step>): Session
    requires Legal(l, s, run)
    decreases |run|
  {
    if run == [] then s else Exec(l, Next(l, s, run[0]).value, run[1..])
  }

  // ---- The spend bound ----

  ghost predicate Inv(l: Limits, s: Session) {
    && l.maxCost >= 0.0 && s.last >= 0.0
    && s.state.admitted == s.granted
    && (s.state.terminal.Some? ==> s.state.terminal == Some(CostUnknown))
    && (l.maxTurns > 0 ==> s.granted <= l.maxTurns)
    && (l.maxCost == 0.0 ==> !s.state.inFlight && s.state.terminal.None?)
    && (l.maxCost > 0.0 ==> (s.state.terminal.Some? <==> s.unknown))
    && (l.maxCost > 0.0 ==>
          && s.open == (if s.state.inFlight then 1 else 0)
          && (s.state.inFlight ==> s.state.observed < l.maxCost && s.state.terminal.None?)
          && s.state.observed - s.last < l.maxCost
          && s.state.observed == s.spent)
  }

  lemma NextKeeps(l: Limits, s: Session, step: Step)
    requires Inv(l, s) && Next(l, s, step).Some?
    ensures Inv(l, Next(l, s, step).value)
  {
  }

  lemma {:induction false} RunKeeps(l: Limits, s: Session, run: seq<Step>)
    requires Inv(l, s) && Legal(l, s, run)
    ensures Inv(l, Exec(l, s, run))
    decreases |run|
  {
    if run != [] {
      NextKeeps(l, s, run[0]);
      RunKeeps(l, Next(l, s, run[0]).value, run[1..]);
    }
  }

  /** Over every run under a cost limit: one call in flight at most, every settled cost accounted for,
      and less than the limit spent before the last settlement. */
  lemma SpendBound(l: Limits, run: seq<Step>)
    requires l.maxCost > 0.0 && Legal(l, START, run)
    ensures var s := Exec(l, START, run); s.open <= 1 && s.state.observed == s.spent && s.spent - s.last < l.maxCost
  {
    RunKeeps(l, START, run);
  }

  lemma TurnBound(l: Limits, run: seq<Step>)
    requires l.maxTurns > 0 && l.maxCost >= 0.0 && Legal(l, START, run)
    ensures Exec(l, START, run).granted <= l.maxTurns
  {
    RunKeeps(l, START, run);
  }

  // ---- Which calls are admitted ----

  /** After any run a call is admitted exactly when no limit stands against it: fewer calls than the turn
      limit were admitted, and under a cost limit all costs were known, less than the limit was spent and
      no call is in flight. */
  lemma AdmittedExactly(l: Limits, run: seq<Step>)
    requires l.maxCost >= 0.0 && Legal(l, START, run)
    ensures var s := Exec(l, START, run);
            Next(l, s, Call).Some? &&
            (Next(l, s, Call).value.granted == s.granted + 1
             <==> && (l.maxTurns == 0 || s.granted < l.maxTurns)
                  && (l.maxCost == 0.0 || (!s.unknown && s.spent < l.maxCost && s.open == 0)))
  {
    RunKeeps(l, START, run);
  }

  /** And a refusal says why: an unknown cost first, then the turns, then the money spent, then the call
      in flight, with the limit concerned and what was counted against it. */
  lemma RefusalExactly(l: Limits, run: seq<Step>, e: Failure)
    requires l.maxCost >= 0.0 && Legal(l, START, run)
    ensures var s := Exec(l, START, run);
            var blind := l.maxCost > 0.0 && s.unknown;
            var full := l.maxTurns > 0 && s.granted == l.maxTurns;
            var spent := l.maxCost > 0.0 && s.spent >= l.maxCost;
            CurrentError(l, s.state) == Some(e) <==>
              || (blind && e == Failure(CostUnknown, l.maxCost, s.spent))
              || (!blind && full && e == Failure(Turns, l.maxTurns as real, s.granted as real))
              || (!blind && !full && spent && e == Failure(Cost, l.maxCost, s.spent))
              || (!blind && !full && !spent && l.maxCost > 0.0 && s.open == 1
                  && e == Failure(CostInFlight, l.maxCost, s.spent))
  {
    RunKeeps(l, START, run);
  }

  // ---- Latches ----

  predicate Latched(l: Limits, s: State) {
    ReasonOf(l, s) in {Some(Turns), Some(Cost), Some(CostUnknown)}
  }

  /** Once the reason is turns, cost or unknown cost, no call is admitted any more, whatever settles. */
  lemma {:induction false} NeverAdmitsAgain(l: Limits, s: Session, run: seq<Step>)
    requires Latched(l, s.state) && Legal(l, s, run)
    ensures Latched(l, Exec(l, s, run).state) && Exec(l, s, run).granted == s.granted
    decreases |run|
  {
    if run != [] { NeverAdmitsAgain(l, Next(l, s, run[0]).value, run[1..]); }
  }

  /** A call in flight is the one refusal that passes: the next call is admitted exactly when the cost
      that settled is known and leaves something of the budget. */
  lemma InFlightPasses(l: Limits, s: Session, cost: Option<real>)
    requires Inv(l, s) && ReasonOf(l, s.state) == Some(CostInFlight)
    ensures Next(l, s, Settle(cost)).Some?
    ensures Admits(l, Next(l, s, Settle(cost)).value.state)
            <==> Known(cost) && s.state.observed + cost.value < l.maxCost
  {
  }

  // ---- Restart ----

  /** What a fresh controller with the same limits holds after restoring what another one saved. */
  function Restart(l: Limits, s: State): State {
    Restored(l, FRESH, Save(l, s)).value
  }

  /** The controller a process starts with: nothing in flight that it could settle. */
  function Reopened(s: State): Session {
    Session(s, s.admitted, 0, 0.0, s.observed, s.terminal == Some(CostUnknown))
  }

  /** Usage is restored into an unused controller only, and only under the same limits; a controller that
      holds any usage, its own or restored, is left as it is. */
  lemma RestoredOnce(l: Limits, s: State, saved: Snapshot, other: Snapshot)
    ensures Restored(l, s, saved).None?
            <==> s.admitted == 0 && s.observed == 0.0 && !s.inFlight && saved.limits != l
    ensures s.admitted > 0 || s.observed != 0.0 || s.inFlight ==> Restored(l, s, saved) == Some(s)
    ensures saved.limits == l && (saved.admitted > 0 || saved.observed != 0.0 || saved.inFlight)
            && Restored(l, s, saved).Some? ==>
              Restored(l, Restored(l, s, saved).value, other) == Restored(l, s, saved)
  {
  }

  /** Restoring the snapshot of any reachable controller gives a controller with an equal snapshot;
      it has the same state unless the other one was refusing. */
  lemma RestartFidelity(l: Limits, run: seq<Step>)
    requires l.maxCost >= 0.0 && Legal(l, START, run)
    ensures var s := Exec(l, START, run).state;
            && Save(l, Restart(l, s)) == Save(l, s)
            && (Admits(l, s) ==> Restart(l, s) == s)
  {
    RunKeeps(l, START, run);
  }

  /** The calls of a run that were admitted. */
  function Verdicts(l: Limits, s: Session, run: seq<Step>): seq<bool>
    requires Legal(l, s, run)
    decreases |run|
  {
    if run == [] then []
    else (if run[0].Call? then [Admits(l, s.state)] else []) + Verdicts(l, Next(l, s, run[0]).value, run[1..])
  }

  /** Two sessions whose controllers agree admit the same calls, whatever they counted before. */
  lemma {:induction false} Lockstep(l: Limits, s: Session, t: Session, run: seq<Step>)
    requires s.state == t.state && Legal(l, s, run) && Legal(l, t, run)
    ensures Verdicts(l, s, run) == Verdicts(l, t, run)
    decreases |run|
  {
    if run != [] { Lockstep(l, Next(l, s, run[0]).value, Next(l, t, run[0]).value, run[1..]); }
  }

  lemma {:induction false} TerminalRefusesAll(l: Limits, s: Session, run: seq<Step>)
    requires s.state.terminal.Some? && Legal(l, s, run)
    ensures forall v | v in Verdicts(l, s, run) :: !v
    decreases |run|
  {
    if run != [] { TerminalRefusesAll(l, Next(l, s, run[0]).value, run[1..]); }
  }

  /** A restarted controller accepts and refuses what the original would have, when that was admitting;
      when it was not, for whatever reason, the restarted one refuses every call. */
  lemma RestartSimulates(l: Limits, run: seq<Step>, more: seq<Step>)
    requires l.maxCost >= 0.0 && Legal(l, START, run)
    ensures var s := Exec(l, START, run); var t := Reopened(Restart(l, s.state));
            && (Admits(l, s.state) && Legal(l, s, more) && Legal(l, t, more) ==>
                  Verdicts(l, s, more) == Verdicts(l, t, more))
            && (!Admits(l, s.state) && Legal(l, t, more) ==> forall v | v in Verdicts(l, t, more) :: !v)
  {
    RestartFidelity(l, run);
    var s := Exec(l, START, run);
    var t := Reopened(Restart(l, s.state));
    if Admits(l, s.state) && Legal(l, s, more) && Legal(l, t, more) { Lockstep(l, s, t, more); }
    if !Admits(l, s.state) && Legal(l, t, more) { TerminalRefusesAll(l, t, more); }
  }
}
