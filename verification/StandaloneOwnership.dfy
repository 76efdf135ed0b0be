/**
 Whose operation a finalization closes.  Three writes of the protocol do not look
 at who owns the record: the note of a failed session open, the note of a caught
 failure and the completion from a persisted verdict.  As long as none of them
 overwrites the record of another live process, every finalization closes the
 operation its own process settled; StandaloneTraces.dfy shows that this is needed.
 */
module StandaloneOwnership {
  import opened Wrappers
  import opened StandaloneModel
  import opened StandaloneSafety

  /** The action does not overwrite the record of another live process. */
  predicate Polite(s: Sys, a: Action) {
    (a.RecordOpenFailure? || a.RecordCatch? || a.FinishVerdict?) && s.reg.Some? && s.reg.value.value.process != a.p
    ==> !Alive(s, s.reg.value.value.process)
  }

  predicate PoliteRun(s: Sys, run: seq<Action>)
    requires Legal(s, run)
    decreases |run|
  {
    run == [] || (Polite(s, run[0]) && PoliteRun(Next(s, run[0]).value, run[1..]))
  }

  predicate Finalizing(pc: Pc) {
    pc.FinalizeClose? || pc.FinalizeRead? || pc.FinalizeWrite?
  }

  predicate Owns(s: Sys, p: Pid) {
    s.reg.Some? && s.reg.value.value.process == p
  }

  // A record that a resume may take over although it says starting or settling.
  predicate Abandoned(s: Sys, c: Checkpoint) {
    (c.status == Starting || c.status == Settling) ==> !Alive(s, c.process)
  }

  ghost predicate OwnerOk(s: Sys, p: Pid, proc: Proc) {
    && (NearRunner(proc.pc) ==> Owns(s, p) && s.reg.value.value.status == Running)
    && (Finalizing(proc.pc) ==>
          Owns(s, p) && s.reg.value.value.status == Settling && s.reg.value.value.settled == Some(proc.pc.op))
    && (proc.local.Some? ==> proc.local.value.value.process in s.born)
    && (proc.pc == OpenSession || proc.pc == Claim ==> proc.local.Some? && Abandoned(s, proc.local.value.value))
    && (proc.pc == CreateSession || proc.pc == WriteRunning ==> proc.local.Some? && proc.local.value.value.process == p)
  }

  ghost predicate OwnerInv(s: Sys) {
    && Inv(s)
    && (s.reg.Some? ==> s.reg.value.value.process in s.born)
    && (forall p {:trigger OwnerOk(s, p, s.procs[p])} | p in s.procs :: OwnerOk(s, p, s.procs[p]))
  }

  /** Processes other than `p` that hold the record's fate. */
  ghost predicate NoOtherAtWork(s: Sys, p: Pid) {
    forall q | q in s.procs && q != p :: !NearRunner(s.procs[q].pc) && !Finalizing(s.procs[q].pc)
  }

  /** The owner of the record is the only process at work on it. */
  lemma OwnerAlone(s: Sys, p: Pid)
    requires OwnerInv(s) && s.reg.Some? && (Owns(s, p) || !Alive(s, s.reg.value.value.process))
    ensures NoOtherAtWork(s, p)
  {
    forall q | q in s.procs && q != p ensures !NearRunner(s.procs[q].pc) && !Finalizing(s.procs[q].pc) {
      assert OwnerOk(s, q, s.procs[q]);
    }
  }

  lemma WriteOwned(s: Sys, p: Pid, value: Checkpoint, pc: Pc)
    requires OwnerInv(s) && p in s.procs && NoOtherAtWork(s, p) && Inv(Write(s, p, value, pc))
    requires value.process in s.born
    requires NearRunner(pc) ==> value.process == p && value.status == Running
    requires Finalizing(pc) ==> value.process == p && value.status == Settling && value.settled == Some(pc.op)
    requires pc != OpenSession && pc != Claim && (pc == CreateSession || pc == WriteRunning ==> value.process == p)
    ensures OwnerInv(Write(s, p, value, pc))
  {
    var s' := Write(s, p, value, pc);
    forall q | q in s'.procs ensures OwnerOk(s', q, s'.procs[q]) {
      assert OwnerOk(s, q, s.procs[q]);
    }
  }

  /** Any step that leaves the record alone and changes one process. */
  lemma MovedOwned(s: Sys, s': Sys, p: Pid)
    requires OwnerInv(s) && Inv(s') && p in s.procs && p in s'.procs
    requires s'.reg == s.reg && s'.born == s.born && s'.procs.Keys == s.procs.Keys
    requires forall q | q in s.procs && q != p :: s'.procs[q] == s.procs[q]
    requires OwnerOk(s, p, s'.procs[p])
    ensures OwnerInv(s')
  {
    forall q | q in s'.procs ensures OwnerOk(s', q, s'.procs[q]) {
      if q != p { assert OwnerOk(s, q, s.procs[q]); }
    }
  }

  lemma ReadOwned(s: Sys, p: Pid)
    requires OwnerInv(s) && p in s.procs && s.procs[p].pc == Begin && Inv(ReadPriorStep(s, p))
    ensures OwnerInv(ReadPriorStep(s, p))
  {
    assert OwnerOk(s, p, s.procs[p]);
    MovedOwned(s, ReadPriorStep(s, p), p);
  }

  lemma BornOrDeadOwned(s: Sys, a: Action)
    requires OwnerInv(s) && Next(s, a).Some? && (a.Spawn? || a.Die?) && Inv(Next(s, a).value)
    ensures OwnerInv(Next(s, a).value)
  {
    var s' := Next(s, a).value;
    forall q | q in s'.procs ensures OwnerOk(s', q, s'.procs[q]) {
      if q in s.procs { assert OwnerOk(s, q, s.procs[q]); }
    }
  }

  /** A versioned write over a record nobody changed since it was read: the record was abandoned. */
  lemma ClaimOwned(s: Sys, p: Pid)
    requires OwnerInv(s) && p in s.procs && Next(s, ClaimRun(p)).Some? && Inv(Next(s, ClaimRun(p)).value)
    ensures OwnerInv(Next(s, ClaimRun(p)).value)
  {
    assert ProcOk(s, p, s.procs[p]) && OwnerOk(s, p, s.procs[p]);
    var c := s.procs[p].local.value.value;
    if s.reg.Some? && s.reg.value.version == s.procs[p].local.value.version {
      forall q | q in s.procs && q != p ensures !NearRunner(s.procs[q].pc) && !Finalizing(s.procs[q].pc) {
        assert ProcOk(s, q, s.procs[q]) && OwnerOk(s, q, s.procs[q]);
      }
      WriteOwned(s, p, Claimed(c, p), if c.settled.None? then Invoke else FinalizeClose(c.settled.value, false));
    } else {
      MovedOwned(s, Next(s, ClaimRun(p)).value, p);
    }
  }

  lemma WriteRunningOwned(s: Sys, p: Pid)
    requires OwnerInv(s) && p in s.procs && Next(s, WriteRunningAs(p)).Some? && Inv(Next(s, WriteRunningAs(p)).value)
    ensures OwnerInv(Next(s, WriteRunningAs(p)).value)
  {
    assert ProcOk(s, p, s.procs[p]) && OwnerOk(s, p, s.procs[p]);
    if s.reg.value.version == s.procs[p].local.value.version {
      OwnerAlone(s, p);
      WriteOwned(s, p, s.procs[p].local.value.value.(status := Running), Invoke);
    } else {
      MovedOwned(s, Next(s, WriteRunningAs(p)).value, p);
    }
  }

  lemma RunnerWritesOwned(s: Sys, a: Action)
    requires OwnerInv(s) && Next(s, a).Some? && (a.Observe? || a.PersistVerdict? || a.RunnerReturns? || a.FinalizeAs?)
    requires Inv(Next(s, a).value)
    ensures OwnerInv(Next(s, a).value)
    ensures a.FinalizeAs? ==> s.reg.value.value.settled == Some(s.procs[a.p].pc.op) && Owns(s, a.p)
  {
    var p, s' := a.p, Next(s, a).value;
    assert OwnerOk(s, p, s.procs[p]);
    OwnerAlone(s, p);
    forall q | q in s'.procs ensures OwnerOk(s', q, s'.procs[q]) {
      assert OwnerOk(s, q, s.procs[q]);
    }
  }

  lemma MarkOrphanOwned(s: Sys, p: Pid)
    requires OwnerInv(s) && p in s.procs && s.procs[p].pc == MarkOrphan && Inv(MarkOrphanStep(s, p))
    ensures OwnerInv(MarkOrphanStep(s, p))
  {
    assert OwnerOk(s, p, s.procs[p]);
    if s.reg.None? || Alive(s, s.reg.value.value.process) {
      MovedOwned(s, MarkOrphanStep(s, p), p);
    } else {
      OwnerAlone(s, p);
      WriteOwned(s, p, s.reg.value.value.(status := Failed, failure := true), Decide);
    }
  }

  lemma UncheckedWritesOwned(s: Sys, a: Action)
    requires OwnerInv(s) && Next(s, a).Some? && Polite(s, a)
             && (a.RecordOpenFailure? || a.RecordCatch? || a.FinishVerdict?)
    requires Inv(Next(s, a).value)
    ensures OwnerInv(Next(s, a).value)
  {
    OwnerAlone(s, a.p);
    match a
    case RecordOpenFailure(p, ambiguous) =>
      var c := s.reg.value.value;
      WriteOwned(s, p, OpenNoted(c, ambiguous), Threw);
    case RecordCatch(p, kind, last) =>
        WriteOwned(s, p, Caught(s.reg.value.value, kind), if last then Threw else CatchWrite);
    case FinishVerdict(p) =>
      var s' := Next(s, a).value;
      WriteOwned(s, p, s'.reg.value.value, s'.procs[p].pc);
  }

  predicate Writes(a: Action) {
    a.WriteStarting? || a.WriteRunningAs? || a.ReadPrior? || a.MarkOrphaned? || a.RecordOpenFailure? || a.ClaimRun?
        || a.Observe? ||
    a.PersistVerdict? || a.RunnerReturns? || a.FinalizeAs? || a.RecordCatch? || a.FinishVerdict?
  }

  lemma DecideMove(s: Sys, p: Pid)
    requires p in s.procs && s.procs[p].pc == Decide && s.procs[p].local.Some? && OwnerOk(s, p, s.procs[p])
    ensures var s' := DecideStep(s, p);
            && s'.reg == s.reg && s'.born == s.born && s'.procs == s.procs[p := s'.procs[p]]
            && OwnerOk(s, p, s'.procs[p])
  {
    var proc, c := s.procs[p], s.procs[p].local.value.value;
    if c.verdict.Some? && proc.capture {
      var s1 := s.(procs := s.procs[p := proc.(captured := c.verdict)]);
      var pc := DecideStep(s, p).procs[p].pc;
      assert DecideStep(s, p) == Goto(s1, p, pc);
      assert s1.procs[p := s1.procs[p].(pc := pc)] == s.procs[p := proc.(captured := c.verdict, pc := pc)];
    }
  }

  lemma DecideOwned(s: Sys, p: Pid)
    requires OwnerInv(s) && p in s.procs && s.procs[p].pc == Decide && s.procs[p].local.Some? && Inv(DecideStep(s, p))
    ensures OwnerInv(DecideStep(s, p))
  {
    assert OwnerOk(s, p, s.procs[p]);
    DecideMove(s, p);
    MovedOwned(s, DecideStep(s, p), p);
  }

  lemma OwnMove(s: Sys, a: Action)
    requires OwnerInv(s) && Next(s, a).Some? && !Writes(a) && !a.Spawn? && !a.Die? && !a.DecideResume?
    ensures var s', p := Next(s, a).value, a.p;
            && p in s.procs && s'.reg == s.reg && s'.born == s.born && s'.procs.Keys == s.procs.Keys
            && (forall q | q in s.procs && q != p :: s'.procs[q] == s.procs[q])
            && s'.procs[p] == s.procs[p].(pc := s'.procs[p].pc)
            && OwnerOk(s, p, s'.procs[p])
  {
    assert OwnerOk(s, a.p, s.procs[a.p]);
  }

  lemma NextOwned(s: Sys, a: Action)
    requires OwnerInv(s) && Next(s, a).Some? && Polite(s, a)
    ensures OwnerInv(Next(s, a).value)
  {
    NextKeeps(s, a);
    if a.Spawn? || a.Die? { BornOrDeadOwned(s, a); }
    else if a.DecideResume? { DecideOwned(s, a.p); }
    else if !Writes(a) { OwnMove(s, a); MovedOwned(s, Next(s, a).value, a.p); }
    else if a.MarkOrphaned? { MarkOrphanOwned(s, a.p); }
    else if a.ReadPrior? { ReadOwned(s, a.p); }
    else if a.ClaimRun? { ClaimOwned(s, a.p); }
    else if a.WriteRunningAs? { WriteRunningOwned(s, a.p); }
    else if a.WriteStarting? { StartOwned(s, a.p); }
    else if a.Observe? || a.PersistVerdict? || a.RunnerReturns? || a.FinalizeAs? { RunnerWritesOwned(s, a); }
    else { UncheckedWritesOwned(s, a); }
  }

  lemma StartOwned(s: Sys, p: Pid)
    requires OwnerInv(s) && Next(s, WriteStarting(p)).Some? && Inv(Next(s, WriteStarting(p)).value)
    ensures OwnerInv(Next(s, WriteStarting(p)).value)
  {
    assert OwnerOk(s, p, s.procs[p]);
    if s.reg.Some? {
      MovedOwned(s, Next(s, WriteStarting(p)).value, p);
    } else {
      forall q | q in s.procs && q != p ensures !NearRunner(s.procs[q].pc) && !Finalizing(s.procs[q].pc) {
        assert OwnerOk(s, q, s.procs[q]);
      }
      assert ProcOk(s, p, s.procs[p]);
      WriteOwned(s, p, FreshCheckpoint(p), CreateSession);
    }
  }

  lemma {:induction false} PoliteRunOwned(s: Sys, run: seq<Action>)
    requires OwnerInv(s) && Legal(s, run) && PoliteRun(s, run)
    ensures OwnerInv(Exec(s, run))
    decreases |run|
  {
    if run != [] {
      NextOwned(s, run[0]);
      PoliteRunOwned(Next(s, run[0]).value, run[1..]);
    }
  }

  /** In a polite run every finalization closes exactly the operation that is durable, and its own
      process owns the record: no operation is cleared on behalf of another. */
  lemma FinalizesOwnOperation(run: seq<Action>, a: Action)
    requires Legal(INITIAL, run) && PoliteRun(INITIAL, run) && a.FinalizeAs? && Next(Exec(INITIAL, run), a).Some?
    ensures var s := Exec(INITIAL, run);
            s.reg.Some? && s.reg.value.value.settled == Some(s.procs[a.p].pc.op) && Owns(s, a.p)
  {
    PoliteRunOwned(INITIAL, run);
    NextKeeps(Exec(INITIAL, run), a);
    RunnerWritesOwned(Exec(INITIAL, run), a);
  }
}
