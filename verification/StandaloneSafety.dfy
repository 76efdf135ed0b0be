/**
 What the standalone checkpoint protocol guarantees over every interleaving,
 crash and resume.
 */
module StandaloneSafety {
  import opened Wrappers
  import opened StandaloneModel

  predicate HoldsSession(pc: Pc) {
    pc == WriteRunning || pc == Claim || pc == Invoke || pc == InRunner
  }

  predicate NearRunner(pc: Pc) {
    pc == Invoke || pc == InRunner
  }

  predicate HasSettled(s: Sys) {
    s.reg.Some? && s.reg.value.value.settled.Some?
  }

  // What is known of one process.
  ghost predicate ProcOk(s: Sys, p: Pid, proc: Proc) {
    && p in s.born
    && (HoldsSession(proc.pc) ==> s.lease == Some(p))
    && (NearRunner(proc.pc) ==> s.reg.Some? && !HasSettled(s))
    && (proc.local.Some? ==>
          s.reg.Some? && proc.local.value.version <= s.reg.value.version &&
          (proc.local.value.version == s.reg.value.version ==> proc.local == s.reg))
    && (proc.pc == CreateSession || proc.pc == WriteRunning ==>
          proc.local.Some? && proc.local.value.value.settled.None?)
  }

  ghost predicate Inv(s: Sys) {
    && (s.lease.Some? ==> s.lease.value in s.procs)
    && (forall p {:trigger ProcOk(s, p, s.procs[p])} | p in s.procs :: ProcOk(s, p, s.procs[p]))
  }

  lemma WriteKeeps(s: Sys, p: Pid, value: Checkpoint, pc: Pc)
    requires Inv(s) && p in s.procs
    requires HoldsSession(pc) ==> s.lease == Some(p)
    requires NearRunner(pc) ==> value.settled.None?
    requires pc == CreateSession || pc == WriteRunning ==> value.settled.None?
    requires value.settled.Some? ==> HasSettled(s) || s.lease == Some(p)
    ensures Inv(Write(s, p, value, pc))
  {
    var s' := Write(s, p, value, pc);
    forall q | q in s'.procs ensures ProcOk(s', q, s'.procs[q]) {
      assert ProcOk(s, q, s.procs[q]);
    }
  }

  lemma GotoKeeps(s: Sys, p: Pid, pc: Pc)
    requires Inv(s) && p in s.procs
    requires HoldsSession(pc) ==> s.lease == Some(p)
    requires NearRunner(pc) ==> s.reg.Some? && !HasSettled(s)
    requires pc != CreateSession && (pc == WriteRunning ==> s.procs[p].pc == CreateSession)
    ensures Inv(Goto(s, p, pc))
  {
    var s' := Goto(s, p, pc);
    forall q | q in s'.procs ensures ProcOk(s', q, s'.procs[q]) {
      assert ProcOk(s, q, s.procs[q]);
    }
  }

  lemma FreedKeeps(s: Sys, p: Pid)
    requires Inv(s) && (p in s.procs ==> !HoldsSession(s.procs[p].pc))
    ensures Inv(Freed(s, p))
  {
    forall q | q in s.procs ensures ProcOk(Freed(s, p), q, s.procs[q]) {
      assert ProcOk(s, q, s.procs[q]);
    }
  }

  lemma SpawnKeeps(s: Sys, p: Pid, resume: bool, capture: bool)
    requires Inv(s) && p !in s.born
    ensures Inv(Next(s, Spawn(p, resume, capture)).value)
  {
    var s' := Next(s, Spawn(p, resume, capture)).value;
    forall q | q in s'.procs ensures ProcOk(s', q, s'.procs[q]) {
      if q != p { assert ProcOk(s, q, s.procs[q]); }
    }
  }

  lemma DieKeeps(s: Sys, p: Pid)
    requires Inv(s) && p in s.procs
    ensures Inv(Next(s, Die(p)).value)
  {
    var s' := Next(s, Die(p)).value;
    forall q | q in s'.procs ensures ProcOk(s', q, s'.procs[q]) {
      assert ProcOk(s, q, s.procs[q]);
    }
  }

  /** Taking the free lease. */
  lemma LeaseKeeps(s: Sys, p: Pid, pc: Pc)
    requires Inv(s) && p in s.procs && s.lease.None? && !NearRunner(pc) && pc != CreateSession
    requires pc == WriteRunning ==> s.procs[p].pc == CreateSession
    ensures Inv(Goto(s.(session := true, lease := Some(p)), p, pc))
  {
    var s' := Goto(s.(session := true, lease := Some(p)), p, pc);
    forall q | q in s'.procs ensures ProcOk(s', q, s'.procs[q]) {
      assert ProcOk(s, q, s.procs[q]);
    }
  }

  /** Remembering a verdict, or the record as it stands. */
  lemma MemoKeeps(s: Sys, p: Pid, local: Option<Versioned>, captured: Option<Verdict>)
    requires Inv(s) && p in s.procs && (local == s.procs[p].local || (local == s.reg && s.procs[p].pc == Begin))
    ensures Inv(s.(procs := s.procs[p := s.procs[p].(local := local, captured := captured)]))
  {
    var s' := s.(procs := s.procs[p := s.procs[p].(local := local, captured := captured)]);
    forall q | q in s'.procs ensures ProcOk(s', q, s'.procs[q]) {
      assert ProcOk(s, q, s.procs[q]);
    }
  }

  lemma ClaimKeeps(s: Sys, p: Pid)
    requires Inv(s) && p in s.procs && Next(s, ClaimRun(p)).Some?
    ensures Inv(Next(s, ClaimRun(p)).value)
  {
    assert ProcOk(s, p, s.procs[p]);
    var c := s.procs[p].local.value.value;
    if s.reg.Some? && s.reg.value.version == s.procs[p].local.value.version {
      WriteKeeps(s, p, Claimed(c, p), if c.settled.None? then Invoke else FinalizeClose(c.settled.value, false));
    } else {
      GotoKeeps(s, p, Threw);
      FreedKeeps(Goto(s, p, Threw), p);
    }
  }

  lemma WriteRunningKeeps(s: Sys, p: Pid)
    requires Inv(s) && p in s.procs && Next(s, WriteRunningAs(p)).Some?
    ensures Inv(Next(s, WriteRunningAs(p)).value)
  {
    assert ProcOk(s, p, s.procs[p]);
    if s.reg.value.version == s.procs[p].local.value.version {
      WriteKeeps(s, p, s.procs[p].local.value.value.(status := Running), Invoke);
    } else {
      GotoKeeps(s, p, Threw);
    }
  }

  lemma CatchKeeps(s: Sys, p: Pid)
    requires Inv(s) && p in s.procs && s.procs[p].pc == Catch
    ensures Inv(Next(s, EnterCatch(p)).value)
  {
    FreedKeeps(s, p);
    GotoKeeps(Freed(s, p), p, if s.procs[p].captured.Some? then VerdictRead else CatchWrite);
  }

  lemma CloseKeeps(s: Sys, p: Pid)
    requires Inv(s) && p in s.procs && s.procs[p].pc.FinalizeClose?
    ensures Inv(Next(s, CloseSession(p)).value)
  {
    FreedKeeps(s, p);
    GotoKeeps(Freed(s, p), p, FinalizeRead(s.procs[p].pc.op, s.procs[p].pc.guarded));
  }

  lemma DecideKeeps(s: Sys, p: Pid)
    requires Inv(s) && p in s.procs && s.procs[p].local.Some? && s.procs[p].pc == Decide
    ensures Inv(DecideStep(s, p))
  {
    var proc, c := s.procs[p], s.procs[p].local.value.value;
    if c.verdict.Some? && proc.capture {
      MemoKeeps(s, p, proc.local, c.verdict);
      var s1 := s.(procs := s.procs[p := proc.(captured := c.verdict)]);
      assert s1 == s.(procs := s.procs[p := s.procs[p].(local := proc.local, captured := c.verdict)]);
      GotoKeeps(s1, p, DecideStep(s, p).procs[p].pc);
    } else {
      GotoKeeps(s, p, DecideStep(s, p).procs[p].pc);
    }
  }

  lemma ReadPriorKeeps(s: Sys, p: Pid)
    requires Inv(s) && p in s.procs && s.procs[p].pc == Begin
    ensures Inv(ReadPriorStep(s, p))
  {
    if s.reg.None? || (s.reg.value.value.status == Complete && s.reg.value.value.verdict.None?) {
      GotoKeeps(s, p, Threw);
    } else {
      var pc := ReadPriorStep(s, p).procs[p].pc;
      MemoKeeps(s, p, s.reg, s.procs[p].captured);
      var s1 := s.(procs := s.procs[p := s.procs[p].(local := s.reg, captured := s.procs[p].captured)]);
      GotoKeeps(s1, p, pc);
      assert Goto(s1, p, pc) == ReadPriorStep(s, p);
    }
  }

  lemma PersistKeeps(s: Sys, p: Pid, verdict: Verdict, acknowledged: bool)
    requires Inv(s) && p in s.procs && Next(s, PersistVerdict(p, verdict, acknowledged)).Some?
    ensures Inv(Next(s, PersistVerdict(p, verdict, acknowledged)).value)
  {
    assert ProcOk(s, p, s.procs[p]);
    var s1 := Write(s, p, s.reg.value.value.(verdict := Some(verdict)), InRunner);
    WriteKeeps(s, p, s.reg.value.value.(verdict := Some(verdict)), InRunner);
    if acknowledged { MemoKeeps(s1, p, s1.procs[p].local, Some(verdict)); }
  }

  predicate Starts(a: Action) {
    a.Spawn? || a.Die? || a.Refuse? || a.WriteStarting? || a.OpenNew? || a.WriteRunningAs? || a.ReadPrior?
        || a.MarkOrphaned? || a.DecideResume?
  }

  predicate Runs(a: Action) {
    a.Open? || a.FailOpen? || a.RecordOpenFailure? || a.ClaimRun? || a.CallRunner? || a.Observe? || a.PersistVerdict?
        || a.RunnerReturns? || a.RunnerFails?
  }

  lemma StartKeeps(s: Sys, a: Action)
    requires Inv(s) && Next(s, a).Some? && Starts(a)
    ensures Inv(Next(s, a).value)
  {
    if a.Spawn? {
      SpawnKeeps(s, a.p, a.resume, a.capture);
    } else {
      var p := a.p;
      match a
      case Die(_) => DieKeeps(s, p);
      case Refuse(_) => GotoKeeps(s, p, Threw);
      case WriteStarting(_) =>
        if s.reg.Some? { GotoKeeps(s, p, Threw); } else { WriteKeeps(s, p, FreshCheckpoint(p), CreateSession); }
      case OpenNew(_) => LeaseKeeps(s, p, WriteRunning);
      case WriteRunningAs(_) => WriteRunningKeeps(s, p);
      case ReadPrior(_) => ReadPriorKeeps(s, p);
      case MarkOrphaned(_) =>
        if s.reg.None? || Alive(s, s.reg.value.value.process) { GotoKeeps(s, p, Threw); }
        else { WriteKeeps(s, p, s.reg.value.value.(status := Failed, failure := true), Decide); }
      case DecideResume(_) => DecideKeeps(s, p);
    }
  }

  lemma RunnerKeeps(s: Sys, a: Action)
    requires Inv(s) && Next(s, a).Some? && Runs(a)
    ensures Inv(Next(s, a).value)
  {
    var p := a.p;
    assert ProcOk(s, p, s.procs[p]);
    match a
    case Open(_) => LeaseKeeps(s, p, Claim);
    case FailOpen(_) => GotoKeeps(s, p, OpenFailed);
    case RecordOpenFailure(_, ambiguous) =>
      var c := s.reg.value.value;
      WriteKeeps(s, p, OpenNoted(c, ambiguous), Threw);
    case ClaimRun(_) => ClaimKeeps(s, p);
    case CallRunner(_) =>
      GotoKeeps(s, p, InRunner);
      CallsKeep(Goto(s, p, InRunner), s.calls + 1);
    case Observe(_, usage) => WriteKeeps(s, p, s.reg.value.value.(usage := usage), InRunner);
    case PersistVerdict(_, verdict, acknowledged) => PersistKeeps(s, p, verdict, acknowledged);
    case RunnerReturns(_, op) =>
      WriteKeeps(s, p, s.reg.value.value.(status := Settling, settled := Some(op)), FinalizeClose(op, true));
    case RunnerFails(_) => GotoKeeps(s, p, Catch);
  }

  lemma ClosingKeeps(s: Sys, a: Action)
    requires Inv(s) && Next(s, a).Some? && !Starts(a) && !Runs(a)
    ensures Inv(Next(s, a).value)
  {
    var p := a.p;
    match a
    case CloseSession(_) => CloseKeeps(s, p);
    case ReadTranscript(_) => GotoKeeps(s, p, FinalizeWrite(s.procs[p].pc.op, s.procs[p].pc.guarded));
    case FinalizeFails(_) => GotoKeeps(s, p, if s.procs[p].pc.guarded then Catch else Threw);
    case FinalizeAs(_, stale) =>
      var op := s.procs[p].pc.op;
      WriteKeeps(s, p, Finalized(s.reg.value.value, op, stale), Returned(Answer(None, OfOperation(op))));
    case EnterCatch(_) => CatchKeeps(s, p);
    case RecordCatch(_, kind, last) =>
        WriteKeeps(s, p, Caught(s.reg.value.value, kind), if last then Threw else CatchWrite);
    case OpenForVerdict(_) => GotoKeeps(s, p, VerdictRead);
    case ReadForVerdict(_) => GotoKeeps(s, p, VerdictWrite);
    case FinishVerdict(_) =>
      var s' := Next(s, a).value;
      WriteKeeps(s, p, s'.reg.value.value, s'.procs[p].pc);
  }

  /** Every action of every process keeps the invariant. */
  lemma NextKeeps(s: Sys, a: Action)
    requires Inv(s) && Next(s, a).Some?
    ensures Inv(Next(s, a).value)
  {
    if Starts(a) { StartKeeps(s, a); } else if Runs(a) { RunnerKeeps(s, a); } else { ClosingKeeps(s, a); }
  }

  lemma CallsKeep(s: Sys, calls: nat)
    requires Inv(s)
    ensures Inv(s.(calls := calls))
  {
    forall q | q in s.procs ensures ProcOk(s.(calls := calls), q, s.procs[q]) {
      assert ProcOk(s, q, s.procs[q]);
    }
  }

  lemma {:induction false} RunKeeps(s: Sys, run: seq<Action>)
    requires Inv(s) && Legal(s, run)
    ensures Inv(Exec(s, run))
    decreases |run|
  {
    if run != [] {
      NextKeeps(s, run[0]);
      RunKeeps(Next(s, run[0]).value, run[1..]);
    }
  }

  // ---- A settled operation is never replayed ----

  predicate Finalizes(run: seq<Action>) {
    exists i | 0 <= i < |run| :: run[i].FinalizeAs?
  }

  lemma SettledStep(s: Sys, a: Action)
    requires Inv(s) && Next(s, a).Some? && HasSettled(s) && !a.FinalizeAs?
    ensures var s' := Next(s, a).value;
            HasSettled(s') && s'.reg.value.value.settled == s.reg.value.value.settled && s'.calls == s.calls
  {
    if !a.Spawn? { assert ProcOk(s, a.p, s.procs[a.p]); }
  }

  /** Once a settled operation is durable, no crash, failure, interruption or resume calls the role
      runner again, or replaces that operation, before a finalization has written the outcome. */
  lemma {:induction false} SettledNeverReplayed(s: Sys, run: seq<Action>)
    requires Inv(s) && Legal(s, run) && HasSettled(s) && !Finalizes(run)
    ensures var s' := Exec(s, run);
            HasSettled(s') && s'.reg.value.value.settled == s.reg.value.value.settled && s'.calls == s.calls
    decreases |run|
  {
    if run != [] {
      SettledStep(s, run[0]);
      NextKeeps(s, run[0]);
      assert forall i | 0 <= i < |run[1..]| :: run[1..][i] == run[i + 1];
      SettledNeverReplayed(Next(s, run[0]).value, run[1..]);
    }
  }

  /** At most one process is at the runner. */
  lemma OneAtTheRunner(run: seq<Action>, p: Pid, q: Pid)
    requires Legal(INITIAL, run)
    requires var s := Exec(INITIAL, run);
             p in s.procs && q in s.procs && NearRunner(s.procs[p].pc) && NearRunner(s.procs[q].pc)
    ensures p == q
  {
    RunKeeps(INITIAL, run);
    var s := Exec(INITIAL, run);
    assert ProcOk(s, p, s.procs[p]) && ProcOk(s, q, s.procs[q]);
  }

  // ---- A durable verdict ----

  predicate HasVerdict(s: Sys, v: Verdict) {
    s.reg.Some? && s.reg.value.value.verdict == Some(v)
  }

  /** A durable verdict stays; only a process at the runner can replace it. */
  lemma VerdictDurable(s: Sys, a: Action, v: Verdict)
    requires Inv(s) && Next(s, a).Some? && HasVerdict(s, v)
    ensures var s' := Next(s, a).value;
            HasVerdict(s', v) || (a.PersistVerdict? && HasVerdict(s', a.verdict) && s.procs[a.p].pc == InRunner)
  {
    if !a.Spawn? { assert ProcOk(s, a.p, s.procs[a.p]); }
  }

  /** A resume that collects verdicts, once verdict `v` is durable: never at the runner, and if it
      returns an answer, `v` is the answer. */
  ghost predicate Told(s: Sys, p: Pid, v: Verdict) {
    p in s.procs && var proc := s.procs[p];
    && proc.resume && proc.capture
    && (proc.pc == MarkOrphan || proc.pc == Decide ==> proc.local.Some? && proc.local.value.value.verdict == Some(v))
    && (proc.pc == VerdictOpen || proc.pc == VerdictRead || proc.pc == VerdictWrite ==> proc.captured == Some(v))
    && (proc.pc.Returned? ==> proc.pc.answer.verdict == Some(v))
    && (proc.pc == Begin || proc.pc == MarkOrphan || proc.pc == Decide || proc.pc == VerdictOpen
       || proc.pc == VerdictRead ||
        proc.pc == VerdictWrite || proc.pc.Returned? || proc.pc == Threw)
  }

  /** Not started yet, on its way to the durable verdict, or dead. */
  ghost predicate WillBeTold(s: Sys, p: Pid, v: Verdict) {
    p !in s.born || p !in s.procs || Told(s, p, v)
  }

  predicate StartsAsCollector(run: seq<Action>, p: Pid) {
    forall i | 0 <= i < |run| :: run[i].Spawn? && run[i].p == p ==> run[i].resume && run[i].capture
  }

  predicate Persists(run: seq<Action>) {
    exists i | 0 <= i < |run| :: run[i].PersistVerdict?
  }

  /** An action leaves every other process as it was. */
  lemma OthersUntouched(s: Sys, a: Action, p: Pid)
    requires Next(s, a).Some? && a.p != p
    ensures var s' := Next(s, a).value;
            (p in s'.procs <==> p in s.procs) && (p in s.procs ==> s'.procs[p] == s.procs[p])
                && (p in s'.born <==> p in s.born)
  {
    match a
    case Spawn(_, _, _) =>
    case Die(_) =>
    case MarkOrphaned(_) =>
    case DecideResume(_) =>
    case ClaimRun(_) =>
    case PersistVerdict(_, _, _) =>
    case _ =>
  }

  lemma ToldOwnStep(s: Sys, a: Action, v: Verdict)
    requires Next(s, a).Some? && HasVerdict(s, v) && !a.Spawn? && !a.Die? && Told(s, a.p, v)
    ensures Told(Next(s, a).value, a.p, v)
  {
    var s', pc := Next(s, a).value, s.procs[a.p].pc;
    assert a.Refuse? || a.ReadPrior? || a.MarkOrphaned? || a.DecideResume? || a.OpenForVerdict? || a.ReadForVerdict?
        || a.FinishVerdict?;
  }

  lemma ToldStep(s: Sys, a: Action, p: Pid, v: Verdict)
    requires Inv(s) && Next(s, a).Some? && HasVerdict(s, v) && WillBeTold(s, p, v)
    requires !a.PersistVerdict? && (a.Spawn? && a.p == p ==> a.resume && a.capture)
    ensures WillBeTold(Next(s, a).value, p, v)
  {
    if a.p != p {
      OthersUntouched(s, a, p);
    } else if !a.Spawn? && !a.Die? {
      assert ProcOk(s, p, s.procs[p]);
      ToldOwnStep(s, a, v);
    }
  }

  /** Every later resume that supplies a verdict capture returns the durable verdict, or nothing, and
      never reaches the role runner. */
  lemma {:induction false} ResumesReturnTheVerdict(s: Sys, run: seq<Action>, p: Pid, v: Verdict)
    requires Inv(s) && Legal(s, run) && HasVerdict(s, v) && WillBeTold(s, p, v)
    requires StartsAsCollector(run, p) && !Persists(run)
    ensures HasVerdict(Exec(s, run), v) && WillBeTold(Exec(s, run), p, v)
    decreases |run|
  {
    if run != [] {
      assert forall i | 0 <= i < |run[1..]| :: run[1..][i] == run[i + 1];
      ToldStep(s, run[0], p, v);
      VerdictDurable(s, run[0], v);
      NextKeeps(s, run[0]);
      ResumesReturnTheVerdict(Next(s, run[0]).value, run[1..], p, v);
    }
  }

  // ---- What a resume starts from ----

  /** Past its look at the record, a resume holds one that does not say running. */
  predicate PriorIdle(proc: Proc) {
    proc.pc in {Decide, OpenSession, Claim} ==> proc.local.Some? && proc.local.value.value.status != Running
  }

  ghost predicate PriorsIdle(s: Sys) {
    forall p {:trigger PriorIdle(s.procs[p])} | p in s.procs :: PriorIdle(s.procs[p])
  }

  predicate BeforeClaim(a: Action) {
    a.Spawn? || a.ReadPrior? || a.MarkOrphaned? || a.DecideResume? || a.Open?
  }

  lemma ResumeStep(s: Sys, a: Action)
    requires Next(s, a).Some? && BeforeClaim(a) && (a.p in s.procs ==> PriorIdle(s.procs[a.p]))
    ensures var s' := Next(s, a).value; a.p in s'.procs ==> PriorIdle(s'.procs[a.p])
  {
    match a
    case Spawn(_, _, _) =>
    case ReadPrior(_) =>
    case MarkOrphaned(_) =>
    case DecideResume(_) =>
    case Open(_) =>
  }

  lemma LaterStep(s: Sys, a: Action)
    requires Next(s, a).Some? && !BeforeClaim(a)
    ensures var s' := Next(s, a).value; a.p in s'.procs ==> s'.procs[a.p].pc !in {Decide, OpenSession, Claim}
  {
    match a
    case Die(_) =>
    case ClaimRun(_) =>
    case WriteRunningAs(_) =>
    case PersistVerdict(_, _, _) =>
    case RecordCatch(_, _, _) =>
    case EnterCatch(_) =>
    case FinalizeAs(_, _) =>
    case _ =>
  }

  lemma PriorsStep(s: Sys, a: Action)
    requires PriorsIdle(s) && Next(s, a).Some?
    ensures PriorsIdle(Next(s, a).value)
  {
    var s' := Next(s, a).value;
    forall q | q in s'.procs ensures PriorIdle(s'.procs[q]) {
      if q != a.p { OthersUntouched(s, a, q); } else if BeforeClaim(a) { ResumeStep(s, a); } else { LaterStep(s, a); }
    }
  }

  /** No process ever claims a run from a record that says running, so nothing is ever recovered there. */
  lemma {:induction false} NeverClaimsRunning(s: Sys, run: seq<Action>)
    requires PriorsIdle(s) && Legal(s, run)
    ensures PriorsIdle(Exec(s, run))
    decreases |run|
  {
    if run != [] {
      PriorsStep(s, run[0]);
      NeverClaimsRunning(Next(s, run[0]).value, run[1..]);
    }
  }

  // ---- A completed run ----

  predicate CompleteNoVerdict(s: Sys) {
    s.reg.Some? && s.reg.value.value.status == Complete && s.reg.value.value.verdict.None?
  }
}
