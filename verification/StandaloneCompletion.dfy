/**
 When a completed run stays completed: exactly when no process is left at a place
 from which it can still write the record.
 */
module StandaloneCompletion {
  import opened Wrappers
  import opened StandaloneModel
  import opened StandaloneSafety
  import opened StandaloneTraces

  /** From here a process only returns, fails, or loses a versioned write. */
  predicate Harmless(pc: Pc) {
    pc == Begin || pc == WriteRunning || pc == Claim || pc.Returned? || pc == Threw
  }

  ghost predicate AllHarmless(s: Sys) {
    forall p {:trigger Harmless(s.procs[p].pc)} | p in s.procs :: Harmless(s.procs[p].pc)
  }

  // ---- What processes hold, place by place ----

  predicate Finished(c: Checkpoint) {
    c.status == Complete && c.verdict.None?
  }

  predicate HoldsNoSession(pc: Pc) {
    pc in {Begin, MarkOrphan, Decide, VerdictOpen, VerdictRead} || pc.FinalizeRead?
  }

  predicate BeforeOwning(pc: Pc) {
    pc in {Begin, MarkOrphan, Decide, OpenSession, Claim}
  }

  ghost predicate PlaceOk(s: Sys, p: Pid, proc: Proc) {
    && (proc.pc in {Decide, OpenSession, Claim} ==> proc.local.Some? && !Finished(proc.local.value.value))
    && (proc.pc in {CreateSession, WriteRunning} ==> proc.local.Some? && proc.local.value.value.status == Starting)
    && (HoldsNoSession(proc.pc) ==> s.lease != Some(p))
    && (BeforeOwning(proc.pc) ==>
          && (s.reg.Some? ==> s.reg.value.value.process != p)
          && (proc.local.Some? ==> proc.local.value.value.process != p))
    && (proc.local.Some? && proc.local.value.value.verdict.Some? ==>
          s.reg.Some? && s.reg.value.value.verdict.Some?)
  }

  ghost predicate Placed(s: Sys) {
    && Inv(s)
    && (s.reg.Some? ==> s.reg.value.value.process in s.born)
    && (forall p {:trigger PlaceOk(s, p, s.procs[p])} | p in s.procs :: PlaceOk(s, p, s.procs[p]))
  }

  /** How an action of `a.p` may move what it shares with the others. */
  ghost predicate SharedStep(s: Sys, s': Sys, p: Pid) {
    && (s'.lease == s.lease || s'.lease == None || s'.lease == Some(p))
    && (s'.reg == s.reg
        || (s'.reg.Some? && s'.reg.value.value.process in s'.born
            && (s'.reg.value.value.process == p
               || (s.reg.Some? && s'.reg.value.value.process == s.reg.value.value.process))
            && (s.reg.Some? && s.reg.value.value.verdict.Some? ==> s'.reg.value.value.verdict.Some?)))
  }

  lemma SharedMoves(s: Sys, a: Action)
    requires Placed(s) && Next(s, a).Some?
    ensures SharedStep(s, Next(s, a).value, a.p) && forall q | q in s.born :: q in Next(s, a).value.born
  {
    if a.p in s.procs { assert ProcOk(s, a.p, s.procs[a.p]); }
    match a
    case WriteStarting(_) =>
    case WriteRunningAs(_) =>
    case ClaimRun(_) =>
    case MarkOrphaned(_) =>
    case PersistVerdict(_, _, _) =>
    case RecordCatch(_, _, _) =>
    case FinalizeAs(_, _) =>
    case _ =>
  }

  lemma OthersPlaced(s: Sys, a: Action, q: Pid)
    requires Placed(s) && Next(s, a).Some? && q != a.p && q in Next(s, a).value.procs
    ensures PlaceOk(Next(s, a).value, q, Next(s, a).value.procs[q])
  {
    SharedMoves(s, a);
    OthersUntouched(s, a, q);
    assert PlaceOk(s, q, s.procs[q]);
  }

  predicate Resumes(a: Action) {
    a.Spawn? || a.ReadPrior? || a.MarkOrphaned? || a.DecideResume? || a.Open? || a.ClaimRun?
  }

  predicate StartsRun(a: Action) {
    a.WriteStarting? || a.OpenNew? || a.WriteRunningAs? || a.FailOpen? || a.RecordOpenFailure? || a.Refuse? || a.Die?
  }

  predicate AtRunner(a: Action) {
    a.CallRunner? || a.Observe? || a.PersistVerdict? || a.RunnerReturns? || a.RunnerFails?
  }

  lemma AllBorn(s: Sys)
    requires Inv(s)
    ensures forall p | p in s.procs :: p in s.born
  {
    forall p | p in s.procs ensures p in s.born { assert ProcOk(s, p, s.procs[p]); }
  }

  lemma NewcomerPlaced(s: Sys, a: Action)
    requires Placed(s) && Next(s, a).Some? && (a.Spawn? || a.ReadPrior?) && a.p in Next(s, a).value.procs
    ensures PlaceOk(Next(s, a).value, a.p, Next(s, a).value.procs[a.p])
  {
    AllBorn(s);
    if a.p in s.procs { assert PlaceOk(s, a.p, s.procs[a.p]); }
    match a
    case Spawn(_, _, _) =>
    case ReadPrior(_) =>
  }

  lemma MarkerPlaced(s: Sys, a: Action)
    requires Placed(s) && Next(s, a).Some? && (a.MarkOrphaned? || a.DecideResume?) && a.p in Next(s, a).value.procs
    ensures PlaceOk(Next(s, a).value, a.p, Next(s, a).value.procs[a.p])
  {
    assert PlaceOk(s, a.p, s.procs[a.p]);
    match a
    case MarkOrphaned(_) =>
    case DecideResume(_) =>
  }

  lemma ClaimerPlaced(s: Sys, a: Action)
    requires Placed(s) && Next(s, a).Some? && (a.Open? || a.ClaimRun?) && a.p in Next(s, a).value.procs
    ensures PlaceOk(Next(s, a).value, a.p, Next(s, a).value.procs[a.p])
  {
    assert ProcOk(s, a.p, s.procs[a.p]) && PlaceOk(s, a.p, s.procs[a.p]);
    match a
    case Open(_) =>
    case ClaimRun(_) =>
  }

  lemma StarterPlaced(s: Sys, a: Action)
    requires Placed(s) && Next(s, a).Some? && StartsRun(a) && a.p in Next(s, a).value.procs
    ensures PlaceOk(Next(s, a).value, a.p, Next(s, a).value.procs[a.p])
  {
    assert ProcOk(s, a.p, s.procs[a.p]) && PlaceOk(s, a.p, s.procs[a.p]);
    match a
    case WriteStarting(_) =>
    case WriteRunningAs(_) =>
    case RecordOpenFailure(_, _) =>
    case _ =>
  }

  lemma RunnerPlaced(s: Sys, a: Action)
    requires Placed(s) && Next(s, a).Some? && AtRunner(a) && a.p in Next(s, a).value.procs
    ensures PlaceOk(Next(s, a).value, a.p, Next(s, a).value.procs[a.p])
  {
    assert ProcOk(s, a.p, s.procs[a.p]) && PlaceOk(s, a.p, s.procs[a.p]);
    match a
    case PersistVerdict(_, _, _) =>
    case _ =>
  }

  lemma CloserPlaced(s: Sys, a: Action)
    requires Placed(s) && Next(s, a).Some? && a.p in Next(s, a).value.procs
    requires !Resumes(a) && !StartsRun(a) && !AtRunner(a)
    ensures PlaceOk(Next(s, a).value, a.p, Next(s, a).value.procs[a.p])
  {
    assert ProcOk(s, a.p, s.procs[a.p]) && PlaceOk(s, a.p, s.procs[a.p]);
    match a
    case FinalizeAs(_, _) =>
    case EnterCatch(_) =>
    case RecordCatch(_, _, _) =>
    case _ =>
  }

  lemma NextPlaced(s: Sys, a: Action)
    requires Placed(s) && Next(s, a).Some?
    ensures Placed(Next(s, a).value)
  {
    var s' := Next(s, a).value;
    NextKeeps(s, a);
    SharedMoves(s, a);
    forall q | q in s'.procs ensures PlaceOk(s', q, s'.procs[q]) {
      if q != a.p { OthersPlaced(s, a, q); }
      else if a.Spawn? || a.ReadPrior? { NewcomerPlaced(s, a); }
      else if a.MarkOrphaned? || a.DecideResume? { MarkerPlaced(s, a); }
      else if a.Open? || a.ClaimRun? { ClaimerPlaced(s, a); }
      else if StartsRun(a) { StarterPlaced(s, a); }
      else if AtRunner(a) { RunnerPlaced(s, a); }
      else { CloserPlaced(s, a); }
    }
  }

  /** It holds in every state any run reaches. */
  lemma {:induction false} RunPlaced(s: Sys, run: seq<Action>)
    requires Placed(s) && Legal(s, run)
    ensures Placed(Exec(s, run))
    decreases |run|
  {
    if run != [] {
      NextPlaced(s, run[0]);
      RunPlaced(Next(s, run[0]).value, run[1..]);
    }
  }

  // ---- With only harmless processes a completed run stays ----

  lemma HarmlessStep(s: Sys, a: Action)
    requires Placed(s) && Next(s, a).Some? && CompleteNoVerdict(s) && AllHarmless(s)
    ensures var s' := Next(s, a).value; s'.reg == s.reg && s'.calls == s.calls && AllHarmless(s')
  {
    var s' := Next(s, a).value;
    if a.p in s.procs {
      assert Harmless(s.procs[a.p].pc) && ProcOk(s, a.p, s.procs[a.p]) && PlaceOk(s, a.p, s.procs[a.p]);
    }
    forall q | q in s'.procs && q != a.p ensures Harmless(s'.procs[q].pc) {
      OthersUntouched(s, a, q);
      assert Harmless(s.procs[q].pc);
    }
  }

  /** When nobody is left who can still write, a completed run stays as it is: every later start or
      resume is refused without a runner call. */
  lemma {:induction false} CompletedStays(s: Sys, run: seq<Action>)
    requires Placed(s) && Legal(s, run) && CompleteNoVerdict(s) && AllHarmless(s)
    ensures Exec(s, run).reg == s.reg && Exec(s, run).calls == s.calls
    decreases |run|
  {
    if run != [] {
      HarmlessStep(s, run[0]);
      NextPlaced(s, run[0]);
      CompletedStays(Next(s, run[0]).value, run[1..]);
    }
  }

  // ---- Anybody else can still write ----

  ghost predicate CanChange(s: Sys) {
    exists run :: Legal(s, run) && Exec(s, run).reg != s.reg
  }

  lemma ReachesChange(s: Sys, s': Sys)
    requires Reach(s, s') && s'.reg != s.reg
    ensures CanChange(s)
  {
    var run :| Legal(s, run) && Exec(s, run) == s';
  }

  lemma Changes(from: Sys, s: Sys, a: Action)
    requires Reach(from, s) && s.reg == from.reg && Next(s, a).Some? && Next(s, a).value.reg != s.reg
    ensures CanChange(from)
  {
    var s' := Go(from, s, a);
    ReachesChange(from, s');
  }

  /** The death of another process, which frees the session if it held it. */
  lemma OtherDies(from: Sys, s: Sys, q: Pid, p: Pid) returns (s': Sys)
    requires Reach(from, s) && q in s.procs && p in s.procs && q != p
    ensures Reach(from, s') && s' == Freed(s.(procs := s.procs - {q}), q)
    ensures p in s'.procs && s'.procs[p] == s.procs[p] && s'.reg == s.reg && q !in s'.procs
  {
    s' := Died(from, s, q);
  }

  /** The session is free, or is freed by the death of its holder. */
  lemma SessionFreed(from: Sys, s: Sys, p: Pid) returns (s': Sys)
    requires Reach(from, s) && p in s.procs && s.lease != Some(p) && (s.lease.Some? ==> s.lease.value in s.procs)
    ensures Reach(from, s') && s'.lease.None? && s'.reg == s.reg && p in s'.procs && s'.procs[p] == s.procs[p]
  {
    if s.lease.Some? { s' := OtherDies(from, s, s.lease.value, p); } else { s' := s; }
  }

  lemma OpenFailedChanges(from: Sys, s: Sys, p: Pid)
    requires Reach(from, s) && s.reg == from.reg && s.reg.Some? && p in s.procs && s.procs[p].pc == OpenFailed
    ensures CanChange(from)
  {
    Changes(from, s, RecordOpenFailure(p, false));
  }

  lemma OpenerChanges(from: Sys, s: Sys, p: Pid)
    requires Reach(from, s) && s.reg == from.reg && s.reg.Some? && p in s.procs
    requires s.procs[p].pc == CreateSession || s.procs[p].pc == OpenSession
    ensures CanChange(from)
  {
    var s' := Go(from, s, FailOpen(p));
    OpenFailedChanges(from, s', p);
  }

  lemma DeciderChanges(from: Sys, s: Sys, p: Pid)
    requires Reach(from, s) && s.reg == from.reg && CompleteNoVerdict(s) && p in s.procs && s.procs[p].pc == Decide
    requires PlaceOk(s, p, s.procs[p])
    ensures CanChange(from)
  {
    var owner, s1 := s.procs[p].local.value.value.process, s;
    if owner in s.procs { s1 := OtherDies(from, s, owner, p); }
    var s2 := Decided(from, s1, p);
    assert s2.procs[p].pc == OpenSession;
    OpenerChanges(from, s2, p);
  }

  lemma MarkerChanges(from: Sys, s: Sys, p: Pid)
    requires Reach(from, s) && s.reg == from.reg && CompleteNoVerdict(s) && p in s.procs && s.procs[p].pc == MarkOrphan
    requires PlaceOk(s, p, s.procs[p])
    ensures CanChange(from)
  {
    var owner, s1 := s.reg.value.value.process, s;
    if owner in s.procs { s1 := OtherDies(from, s, owner, p); }
    Changes(from, s1, MarkOrphaned(p));
  }

  lemma RunnerChanges(from: Sys, s: Sys, p: Pid)
    requires Reach(from, s) && s.reg == from.reg && s.reg.Some? && p in s.procs
    requires s.procs[p].pc == Invoke || s.procs[p].pc == InRunner
    ensures CanChange(from)
  {
    var s1 := s;
    if s.procs[p].pc == Invoke { s1 := Called(from, s, p); }
    Changes(from, s1, Observe(p, 0));
  }

  lemma FinalWriterChanges(from: Sys, s: Sys, p: Pid)
    requires Reach(from, s) && s.reg == from.reg && s.reg.Some? && p in s.procs && s.procs[p].pc.FinalizeWrite?
    ensures CanChange(from)
  {
    Changes(from, s, FinalizeAs(p, false));
  }

  lemma FinalReaderChanges(from: Sys, s: Sys, p: Pid)
    requires Reach(from, s) && s.reg == from.reg && s.reg.Some? && p in s.procs && s.procs[p].pc.FinalizeRead?
    requires s.lease != Some(p) && (s.lease.Some? ==> s.lease.value in s.procs)
    ensures CanChange(from)
  {
    var s1 := SessionFreed(from, s, p);
    var s2 := TranscriptRead(from, s1, p);
    FinalWriterChanges(from, s2, p);
  }

  lemma CloserChanges(from: Sys, s: Sys, p: Pid)
    requires Reach(from, s) && s.reg == from.reg && s.reg.Some? && p in s.procs && s.procs[p].pc.FinalizeClose?
    requires s.lease.Some? ==> s.lease.value in s.procs
    ensures CanChange(from)
  {
    var s1 := SessionClosed(from, s, p);
    FinalReaderChanges(from, s1, p);
  }

  lemma VerdictWriterChanges(from: Sys, s: Sys, p: Pid)
    requires Reach(from, s) && s.reg == from.reg && s.reg.Some? && p in s.procs && s.procs[p].pc == VerdictWrite
    ensures CanChange(from)
  {
    Changes(from, s, FinishVerdict(p));
  }

  lemma VerdictReaderChanges(from: Sys, s: Sys, p: Pid)
    requires Reach(from, s) && s.reg == from.reg && s.reg.Some? && p in s.procs && s.procs[p].pc == VerdictRead
    requires s.lease != Some(p) && (s.lease.Some? ==> s.lease.value in s.procs)
    ensures CanChange(from)
  {
    var s1 := SessionFreed(from, s, p);
    var s2 := Go(from, s1, ReadForVerdict(p));
    VerdictWriterChanges(from, s2, p);
  }

  lemma VerdictOpenerChanges(from: Sys, s: Sys, p: Pid)
    requires Reach(from, s) && s.reg == from.reg && s.reg.Some? && p in s.procs && s.procs[p].pc == VerdictOpen
    requires s.lease != Some(p) && (s.lease.Some? ==> s.lease.value in s.procs)
    ensures CanChange(from)
  {
    var s1 := SessionFreed(from, s, p);
    var s2 := Go(from, s1, OpenForVerdict(p));
    VerdictReaderChanges(from, s2, p);
  }

  lemma CatcherChanges(from: Sys, s: Sys, p: Pid)
    requires Reach(from, s) && s.reg == from.reg && s.reg.Some? && p in s.procs
    requires s.lease.Some? ==> s.lease.value in s.procs
    requires s.procs[p].pc == Catch || s.procs[p].pc == CatchWrite
    ensures CanChange(from)
  {
    var s1 := s;
    if s.procs[p].pc == Catch { s1 := CatchEntered(from, s, p); }
    if s1.procs[p].pc == CatchWrite {
      Changes(from, s1, RecordCatch(p, OtherFailure, true));
    } else {
      VerdictReaderChanges(from, s1, p);
    }
  }

  lemma WriterChanges(s: Sys, p: Pid)
    requires Placed(s) && CompleteNoVerdict(s) && p in s.procs && !Harmless(s.procs[p].pc)
    ensures CanChange(s)
  {
    Here(s);
    assert PlaceOk(s, p, s.procs[p]);
    match s.procs[p].pc
    case CreateSession => OpenerChanges(s, s, p);
    case OpenSession => OpenerChanges(s, s, p);
    case OpenFailed => OpenFailedChanges(s, s, p);
    case MarkOrphan => MarkerChanges(s, s, p);
    case Decide => DeciderChanges(s, s, p);
    case Invoke => RunnerChanges(s, s, p);
    case InRunner => RunnerChanges(s, s, p);
    case FinalizeClose(_, _) => CloserChanges(s, s, p);
    case FinalizeRead(_, _) => FinalReaderChanges(s, s, p);
    case FinalizeWrite(_, _) => FinalWriterChanges(s, s, p);
    case Catch => CatcherChanges(s, s, p);
    case CatchWrite => CatcherChanges(s, s, p);
    case VerdictOpen => VerdictOpenerChanges(s, s, p);
    case VerdictRead => VerdictReaderChanges(s, s, p);
    case VerdictWrite => VerdictWriterChanges(s, s, p);
  }

  /** Of every state a run reaches in which the run is complete without a verdict: the record can still
      change exactly when some process stands at a place from which it can write. */
  lemma CompletedStaysExactly(run: seq<Action>)
    requires Legal(INITIAL, run) && CompleteNoVerdict(Exec(INITIAL, run))
    ensures CanChange(Exec(INITIAL, run)) <==> !AllHarmless(Exec(INITIAL, run))
  {
    var s := Exec(INITIAL, run);
    RunPlaced(INITIAL, run);
    if AllHarmless(s) {
      forall more | Legal(s, more) ensures Exec(s, more).reg == s.reg { CompletedStays(s, more); }
    } else {
      var p :| p in s.procs && !Harmless(s.procs[p].pc);
      WriterChanges(s, p);
    }
  }
}
