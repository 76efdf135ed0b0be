/**
 When a run can be taken up again.  Once its processes are gone, a resume is served,
 by the role runner, a finalization or the durable verdict, exactly when there is a
 record of a run that is not complete, or is complete with a verdict, and a session to
 go on with; otherwise every resume is refused.
 */
module StandaloneResume {
  import opened Wrappers
  import opened StandaloneModel
  import opened StandaloneSafety
  import opened StandaloneTraces
  import opened StandaloneRecord
  import StandaloneCompletion

  /** Every process is gone, and with the last one the session's holder. */
  predicate Deserted(s: Sys) {
    s.procs == map[] && s.lease.None?
  }

  /** From any state of any run the processes can all die; record and session stay. */
  lemma {:induction false} CanBeDeserted(from: Sys, s: Sys) returns (s': Sys)
    requires Reach(from, s) && (s.lease.Some? ==> s.lease.value in s.procs)
    ensures Reach(from, s') && Deserted(s') && s'.reg == s.reg && s'.session == s.session && s'.born == s.born
    decreases |s.procs|
  {
    if s.procs == map[] {
      s' := s;
    } else {
      var p :| p in s.procs;
      var s1 := Died(from, s, p);
      assert s1.procs.Keys == s.procs.Keys - {p};
      assert |s1.procs.Keys| == |s.procs.Keys| - 1;
      s' := CanBeDeserted(from, s1);
    }
  }

  /** What one resume does by itself. */
  predicate OnlyResume(run: seq<Action>, p: Pid, capture: bool) {
    forall i | 0 <= i < |run| :: run[i].p == p && (run[i].Spawn? ==> run[i].resume && run[i].capture == capture)
  }

  ghost predicate ResumeReaches(s: Sys, s': Sys, p: Pid, capture: bool) {
    exists run :: OnlyResume(run, p, capture) && Legal(s, run) && Exec(s, run) == s'
  }

  lemma Resumes(from: Sys, s: Sys, a: Action, p: Pid, capture: bool) returns (s': Sys)
    requires ResumeReaches(from, s, p, capture) && Next(s, a).Some?
    requires a.p == p && (a.Spawn? ==> a.resume && a.capture == capture)
    ensures s' == Next(s, a).value && ResumeReaches(from, s', p, capture)
  {
    s' := Next(s, a).value;
    var run :| OnlyResume(run, p, capture) && Legal(from, run) && Exec(from, run) == s;
    assert [a][1..] == [] && Legal(s', []) && Exec(s', []) == s';
    assert Legal(s, [a]) && Exec(s, [a]) == Exec(s', [a][1..]);
    ExecConcat(from, run, [a]);
    assert OnlyResume(run + [a], p, capture);
  }

  // ---- It is served ----

  predicate Over(c: Checkpoint) {
    c.status == Complete && c.verdict.None?
  }

  /** The record a resume acts on: one that says running is marked first. */
  function Found(reg: Versioned): Versioned {
    if reg.value.status != Running then reg
    else Versioned(reg.version + 1, reg.value.(status := Failed, failure := true))
  }

  /** `s` with one process, and what it has made of record and session. */
  function Alone(s: Sys, session: bool, reg: Versioned, lease: Option<Pid>, p: Pid, proc: Proc): Sys {
    Sys(Some(reg), session, lease, map[p := proc], s.born + {p}, s.calls)
  }

  lemma AloneMoves(s: Sys, session: bool, reg: Versioned, lease: Option<Pid>, p: Pid, proc: Proc, pc: Pc)
    ensures Goto(Alone(s, session, reg, lease, p, proc), p, pc)
            == Alone(s, session, reg, lease, p, proc.(pc := pc))
  {
    assert map[p := proc][p := proc.(pc := pc)] == map[p := proc.(pc := pc)];
  }

  lemma AloneWrites(s: Sys, session: bool, reg: Versioned, lease: Option<Pid>, p: Pid, proc: Proc,
                    value: Checkpoint, pc: Pc)
    ensures var next := Versioned(reg.version + 1, value);
            Write(Alone(s, session, reg, lease, p, proc), p, value, pc)
            == Alone(s, session, next, lease, p, proc.(pc := pc, local := Some(next)))
  {
    var proc' := proc.(pc := pc, local := Some(Versioned(reg.version + 1, value)));
    assert map[p := proc][p := proc'] == map[p := proc'];
  }

  /** A run to take up: its record is there and not over, and a dead process owns it. */
  predicate Left(s: Sys, p: Pid) {
    Deserted(s) && p !in s.born && s.reg.Some? && !Over(s.reg.value.value) && s.reg.value.value.process != p
  }

  lemma HasRead(s: Sys, p: Pid, capture: bool) returns (s': Sys)
    requires Left(s, p)
    ensures ResumeReaches(s, s', p, capture)
    ensures s' == Alone(s, s.session, s.reg.value, None, p,
                        Proc(if s.reg.value.value.status == Running then MarkOrphan else Decide,
                             true, capture, s.reg, None))
  {
    assert OnlyResume([], p, capture) && Legal(s, []) && Exec(s, []) == s;
    var s1 := Resumes(s, s, Spawn(p, true, capture), p, capture);
    var proc := Proc(Begin, true, capture, None, None);
    assert s1 == Alone(s, s.session, s.reg.value, None, p, proc);
    s' := Resumes(s, s1, ReadPrior(p), p, capture);
    var proc' := s'.procs[p];
    assert map[p := proc][p := proc'] == map[p := proc'];
  }

  lemma HasLooked(s: Sys, p: Pid, capture: bool) returns (s': Sys)
    requires Left(s, p)
    ensures ResumeReaches(s, s', p, capture)
    ensures var found := Found(s.reg.value);
            s' == Alone(s, s.session, found, None, p, Proc(Decide, true, capture, Some(found), None))
  {
    s' := HasRead(s, p, capture);
    if s.reg.value.value.status == Running {
      AloneWrites(s, s.session, s.reg.value, None, p, s'.procs[p], Found(s.reg.value).value, Decide);
      s' := Resumes(s, s', MarkOrphaned(p), p, capture);
    }
  }

  lemma GoesForVerdict(s: Sys, p: Pid) returns (s': Sys)
    requires Left(s, p) && s.reg.value.value.verdict.Some?
    ensures ResumeReaches(s, s', p, true)
    ensures var found, verdict := Found(s.reg.value), s.reg.value.value.verdict;
            var done := found.value.status == Complete && found.value.result.Some?;
            s' == Alone(s, s.session, found, None, p,
                        Proc(if done then Returned(Answer(verdict, found.value.result.value)) else VerdictOpen,
                             true, true, Some(found), verdict))
  {
    var s1 := HasLooked(s, p, true);
    s' := Resumes(s, s1, DecideResume(p), p, true);
    var proc, proc1 := s1.procs[p], s1.procs[p].(captured := s.reg.value.value.verdict);
    assert map[p := proc][p := proc1] == map[p := proc1];
    AloneMoves(s, s.session, Found(s.reg.value), None, p, proc1, s'.procs[p].pc);
  }

  lemma ReadsForVerdict(s: Sys, p: Pid) returns (s': Sys)
    requires Left(s, p) && s.reg.value.value.verdict.Some?
    requires var c := Found(s.reg.value).value; !(c.status == Complete && c.result.Some?)
    ensures ResumeReaches(s, s', p, true)
    ensures var found, verdict := Found(s.reg.value), s.reg.value.value.verdict;
            s' == Alone(s, s.session, found, None, p, Proc(VerdictWrite, true, true, Some(found), verdict))
  {
    var found := Found(s.reg.value);
    var s1 := GoesForVerdict(s, p);
    AloneMoves(s, s.session, found, None, p, s1.procs[p], VerdictRead);
    var s2 := Resumes(s, s1, OpenForVerdict(p), p, true);
    AloneMoves(s, s.session, found, None, p, s2.procs[p], VerdictWrite);
    s' := Resumes(s, s2, ReadForVerdict(p), p, true);
  }

  /** With a verdict to collect: the resume returns it, and the run is complete. */
  lemma CollectsVerdict(s: Sys, p: Pid) returns (s': Sys)
    requires Left(s, p) && s.reg.value.value.verdict.Some?
    ensures ResumeReaches(s, s', p, true) && s'.calls == s.calls && s'.reg.Some? && p in s'.procs
    ensures s'.procs[p].pc.Returned? && s'.procs[p].pc.answer.verdict == s.reg.value.value.verdict
    ensures s'.reg.value.value.status == Complete
  {
    var c := Found(s.reg.value).value;
    if c.status == Complete && c.result.Some? {
      s' := GoesForVerdict(s, p);
    } else {
      var s1 := ReadsForVerdict(s, p);
      s' := Resumes(s, s1, FinishVerdict(p), p, true);
    }
  }

  lemma HasOpened(s: Sys, p: Pid, capture: bool) returns (s': Sys)
    requires Left(s, p) && !(capture && s.reg.value.value.verdict.Some?)
    requires s.session || s.reg.value.value.status == Starting
    ensures ResumeReaches(s, s', p, capture)
    ensures var found := Found(s.reg.value);
            s' == Alone(s, true, found, Some(p), p, Proc(Claim, true, capture, Some(found), None))
  {
    var found := Found(s.reg.value);
    var s1 := HasLooked(s, p, capture);
    AloneMoves(s, s.session, found, None, p, s1.procs[p], OpenSession);
    var s2 := Resumes(s, s1, DecideResume(p), p, capture);
    AloneMoves(s, true, found, Some(p), p, s2.procs[p], Claim);
    s' := Resumes(s, s2, Open(p), p, capture);
  }

  /** Otherwise, with a session to open: the resume holds it and owns the record, with the usage and the
      verdict found there; a settled operation waits for its finalization, else the runner is next. */
  lemma TakesOver(s: Sys, p: Pid, capture: bool) returns (s': Sys, taken: Versioned)
    requires Left(s, p) && !(capture && s.reg.value.value.verdict.Some?)
    requires s.session || s.reg.value.value.status == Starting
    ensures ResumeReaches(s, s', p, capture)
    ensures var c, c' := s.reg.value.value, taken.value;
            && c'.process == p && c'.usage == c.usage && c'.verdict == c.verdict && c'.settled == c.settled
            && c'.status == (if c.settled.None? then Running else Settling)
            && c'.pause.None? && !c'.failure && c'.result.None?
            && s' == Alone(s, true, taken, Some(p), p, Proc(AfterClaim(c), true, capture, Some(taken), None))
  {
    var found := Found(s.reg.value);
    var s1 := HasOpened(s, p, capture);
    AloneWrites(s, true, found, Some(p), p, s1.procs[p], Claimed(found.value, p), AfterClaim(found.value));
    s' := Resumes(s, s1, ClaimRun(p), p, capture);
    taken := s'.reg.value;
  }

  lemma CallsRunner(s: Sys, p: Pid, capture: bool) returns (s': Sys)
    requires Left(s, p) && !(capture && s.reg.value.value.verdict.Some?)
    requires s.session || s.reg.value.value.status == Starting
    requires s.reg.value.value.settled.None?
    ensures ResumeReaches(s, s', p, capture) && s'.calls == s.calls + 1
    ensures p in s'.procs && s'.procs[p].pc == InRunner && s'.lease == Some(p)
    ensures s'.reg.Some? && var c, c' := s.reg.value.value, s'.reg.value.value;
            c'.process == p && c'.status == Running && c'.usage == c.usage && c'.verdict == c.verdict
  {
    var s1, taken := TakesOver(s, p, capture);
    s' := Resumes(s, s1, CallRunner(p), p, capture);
  }

  lemma ClosesFound(s: Sys, p: Pid, capture: bool) returns (s': Sys, taken: Versioned)
    requires Left(s, p) && !(capture && s.reg.value.value.verdict.Some?)
    requires s.session || s.reg.value.value.status == Starting
    requires s.reg.value.value.settled.Some?
    ensures ResumeReaches(s, s', p, capture)
    ensures var op := s.reg.value.value.settled.value;
            s' == Alone(s, true, taken, None, p, Proc(FinalizeRead(op, false), true, capture, Some(taken), None))
  {
    var s1;
    s1, taken := TakesOver(s, p, capture);
    AloneMoves(s, true, taken, None, p, s1.procs[p], FinalizeRead(s.reg.value.value.settled.value, false));
    s' := Resumes(s, s1, CloseSession(p), p, capture);
  }

  /** A settled operation is finalized without the runner. */
  lemma FinalizesFound(s: Sys, p: Pid, capture: bool) returns (s': Sys)
    requires Left(s, p) && !(capture && s.reg.value.value.verdict.Some?)
    requires s.session || s.reg.value.value.status == Starting
    requires s.reg.value.value.settled.Some?
    ensures ResumeReaches(s, s', p, capture) && s'.calls == s.calls
    ensures var op := s.reg.value.value.settled.value;
            && p in s'.procs && s'.procs[p].pc == Returned(Answer(None, OfOperation(op)))
            && s'.reg.Some? && var c := s'.reg.value.value;
               && c.settled.None? && c.result == Some(OfOperation(op))
               && c.status == if op.closeout.None? then Complete else Paused
  {
    var s1, taken := ClosesFound(s, p, capture);
    AloneMoves(s, true, taken, None, p, s1.procs[p], FinalizeWrite(s.reg.value.value.settled.value, false));
    var s2 := Resumes(s, s1, ReadTranscript(p), p, capture);
    s' := Resumes(s, s2, FinalizeAs(p, false), p, capture);
  }

  // ---- It is refused ----

  /** Over, or never begun. */
  ghost predicate NothingLeft(s: Sys, p: Pid) {
    && (s.reg.None? || Over(s.reg.value.value))
    && (p in s.procs ==> s.procs[p].resume && (s.procs[p].pc == Begin || s.procs[p].pc == Threw))
  }

  /** The session was never created, and the record no longer says that it may not have been. */
  ghost predicate NoSession(s: Sys, p: Pid, capture: bool) {
    && !s.session && s.reg.Some? && !Over(s.reg.value.value) && s.reg.value.value.status != Starting
    && !(capture && s.reg.value.value.verdict.Some?)
    && (p in s.procs ==>
          var proc := s.procs[p];
          && proc.resume && proc.capture == capture
          && proc.pc in {Begin, MarkOrphan, Decide, OpenSession, OpenFailed, Threw}
          && (proc.pc in {Decide, OpenSession} ==>
                proc.local.Some? && proc.local.value.value.status != Starting
                && !(capture && proc.local.value.value.verdict.Some?)))
  }

  lemma NothingLeftStep(s: Sys, a: Action, p: Pid)
    requires NothingLeft(s, p) && Next(s, a).Some? && a.p == p && (a.Spawn? ==> a.resume)
    ensures NothingLeft(Next(s, a).value, p)
  {
  }

  lemma NoSessionStep(s: Sys, a: Action, p: Pid, capture: bool)
    requires NoSession(s, p, capture) && Next(s, a).Some? && a.p == p
    requires a.Spawn? ==> a.resume && a.capture == capture
    ensures NoSession(Next(s, a).value, p, capture)
  {
    match a
    case Spawn(_, _, _) =>
    case ReadPrior(_) =>
    case MarkOrphaned(_) =>
    case DecideResume(_) =>
    case RecordOpenFailure(_, _) =>
    case _ =>
  }

  lemma {:induction false} Refused(s: Sys, run: seq<Action>, p: Pid, capture: bool)
    requires OnlyResume(run, p, capture) && Legal(s, run)
    ensures NothingLeft(s, p) ==> NothingLeft(Exec(s, run), p)
    ensures NoSession(s, p, capture) ==> NoSession(Exec(s, run), p, capture)
    decreases |run|
  {
    if run != [] {
      assert run[0].p == p && forall i | 0 <= i < |run[1..]| :: run[1..][i] == run[i + 1];
      if NothingLeft(s, p) { NothingLeftStep(s, run[0], p); }
      if NoSession(s, p, capture) { NoSessionStep(s, run[0], p, capture); }
      Refused(Next(s, run[0]).value, run[1..], p, capture);
    }
  }

  // ---- Exactly when ----

  predicate Served(s: Sys, p: Pid) {
    p in s.procs && (s.procs[p].pc == InRunner || s.procs[p].pc.Returned?)
  }

  ghost predicate CanBeServed(s: Sys, p: Pid, capture: bool) {
    exists s' :: ResumeReaches(s, s', p, capture) && Served(s', p)
  }

  /** The run of a deserted record can be taken up: it is not over, and there is a session, or it may
      still be created, or the durable verdict is all that is asked for. */
  predicate CanBeTakenUp(s: Sys, capture: bool) {
    && s.reg.Some? && !Over(s.reg.value.value)
    && (s.session || s.reg.value.value.status == Starting || (capture && s.reg.value.value.verdict.Some?))
  }

  lemma ResumeServedExactly(s: Sys, p: Pid, capture: bool)
    requires Deserted(s) && p !in s.born && (s.reg.Some? ==> s.reg.value.value.process in s.born)
    ensures CanBeServed(s, p, capture) <==> CanBeTakenUp(s, capture)
  {
    if CanBeTakenUp(s, capture) {
      if capture && s.reg.value.value.verdict.Some? {
        var s' := CollectsVerdict(s, p);
      } else if s.reg.value.value.settled.None? {
        var s' := CallsRunner(s, p, capture);
      } else {
        var s' := FinalizesFound(s, p, capture);
      }
    } else if CanBeServed(s, p, capture) {
      var s' :| ResumeReaches(s, s', p, capture) && Served(s', p);
      var run :| OnlyResume(run, p, capture) && Legal(s, run) && Exec(s, run) == s';
      Refused(s, run, p, capture);
    }
  }

  /** From every state of every run: once its processes are gone, any further resume is served exactly
      when the run can be taken up, by what record and session say now. */
  lemma AbandonedRunResumes(run: seq<Action>, p: Pid, capture: bool) returns (gone: Sys)
    requires Legal(INITIAL, run) && p !in Exec(INITIAL, run).born
    ensures var s := Exec(INITIAL, run);
            && Reach(s, gone) && Deserted(gone) && gone.reg == s.reg && gone.session == s.session
            && (CanBeServed(gone, p, capture) <==> CanBeTakenUp(s, capture))
  {
    var s := Exec(INITIAL, run);
    StandaloneCompletion.RunPlaced(INITIAL, run);
    Here(s);
    gone := CanBeDeserted(s, s);
    ResumeServedExactly(gone, p, capture);
  }

  /** The third case does occur: a start whose session could not be created leaves a failed record, and
      though the failure asks for a retry, no resume of it is ever served. */
  lemma FailedStartIsLost(p: Pid, capture: bool) returns (s: Sys)
    requires p > 0
    ensures Reach(INITIAL, s) && Deserted(s) && s.reg.Some? && s.reg.value.value.status == Failed
    ensures s.reg.value.value.usage == 0 && s.calls == 0 && !CanBeServed(s, p, capture)
  {
    s := FailedStart();
    ResumeServedExactly(s, p, capture);
  }

  lemma FailedCreation() returns (s: Sys)
    ensures Reach(INITIAL, s)
    ensures var first := Versioned(1, FreshCheckpoint(0));
            s == Alone(INITIAL, false, first, None, 0, Proc(OpenFailed, false, false, Some(first), None))
  {
    Here(INITIAL);
    var s1 := Spawned(INITIAL, INITIAL, 0, false);
    var s2 := Started(INITIAL, s1, 0);
    var first := Versioned(1, FreshCheckpoint(0));
    var proc := Proc(CreateSession, false, false, Some(first), None);
    assert s2 == Alone(INITIAL, false, first, None, 0, proc);
    AloneMoves(INITIAL, false, first, None, 0, proc, OpenFailed);
    s := Go(INITIAL, s2, FailOpen(0));
  }

  lemma FailedStart() returns (s: Sys)
    ensures Reach(INITIAL, s)
    ensures s
            == Sys(Some(Versioned(2, FreshCheckpoint(0).(status := Failed, failure := true))), false, None, map[],
                {0}, 0)
  {
    var s1 := FailedCreation();
    var first := Versioned(1, FreshCheckpoint(0));
    AloneWrites(INITIAL, false, first, None, 0, s1.procs[0], first.value.(status := Failed, failure := true), Threw);
    var s2 := Go(INITIAL, s1, RecordOpenFailure(0, false));
    s := Died(INITIAL, s2, 0);
  }
}
