/**
 What the durable record says.  Field by field: which action can change it, and to what.
 Over every run: the record explains its own status.  And how an attempt can end.
 */
module StandaloneRecord {
  import opened Wrappers
  import opened StandaloneModel
  import opened StandaloneSafety
  import opened StandaloneTraces

  predicate Wrote(s: Sys, a: Action) {
    Next(s, a).Some? && Next(s, a).value.reg != s.reg
  }

  /** Usage is what the runner last reported, the verdict what a tool last persisted, the settled
      operation what the runner last returned, until a finalization clears it; the owner is the last
      process that claimed the run; every write takes the next version. */
  lemma FieldsMove(s: Sys, a: Action)
    requires Inv(s) && s.reg.Some? && Next(s, a).Some?
    ensures var s' := Next(s, a).value;
            && s'.reg.Some? && s'.reg.value.version == s.reg.value.version + (if Wrote(s, a) then 1 else 0)
            && var c, c' := s.reg.value.value, s'.reg.value.value;
               && c'.usage == (if a.Observe? then a.usage else c.usage)
               && c'.verdict == (if a.PersistVerdict? then Some(a.verdict) else c.verdict)
               && c'.settled == (if a.RunnerReturns? then Some(a.op) else if a.FinalizeAs? then None else c.settled)
               && c'.process == (if a.ClaimRun? && Wrote(s, a) then a.p else c.process)
  {
    if !a.Spawn? { assert ProcOk(s, a.p, s.procs[a.p]); }
  }

  /** The result is what the last finalization left, a finished verdict, or nothing once the run was
      claimed again. */
  lemma ResultMoves(s: Sys, a: Action)
    requires Inv(s) && s.reg.Some? && Next(s, a).Some?
    ensures var s' := Next(s, a).value;
            && s'.reg.Some?
            && s'.reg.value.value.result
               == if a.FinalizeAs? then (if a.stale then None else Some(OfOperation(s.procs[a.p].pc.op)))
                  else if a.FinishVerdict? then Some(OfVerdict)
                  else if a.ClaimRun? && Wrote(s, a) then None else s.reg.value.value.result
  {
    if !a.Spawn? { assert ProcOk(s, a.p, s.procs[a.p]); }
  }

  /** The first record says that its process is starting, and nothing more; once there is one no start
      writes another. */
  lemma FirstRecord(s: Sys, a: Action)
    requires Inv(s) && Next(s, a).Some?
    ensures s.reg.None? && Next(s, a).value.reg.Some? ==>
              && a.WriteStarting?
              && Next(s, a).value.reg == Some(Versioned(1, Checkpoint(Starting, a.p, 0, None, None, None, None, false)))
    ensures s.reg.Some? && a.WriteStarting? ==>
              Next(s, a).value.reg == s.reg && Next(s, a).value.procs[a.p].pc == Threw
  {
    if !a.Spawn? { assert ProcOk(s, a.p, s.procs[a.p]); }
  }

  /** Which action can lead to which status. */
  predicate MayLeadTo(s: Sys, a: Action, status: Status) {
    match status
    case Starting => false
    case Running => a.WriteRunningAs? || a.ClaimRun?
    case Settling => a.RunnerReturns? || a.ClaimRun?
    case Complete =>
      || a.FinishVerdict?
      || (a.FinalizeAs? && !a.stale && a.p in s.procs && s.procs[a.p].pc.FinalizeWrite?
          && s.procs[a.p].pc.op.closeout.None?)
    case Paused =>
      || (a.RecordCatch? && !a.kind.OtherFailure?) || (a.RecordOpenFailure? && a.ambiguous)
      || (a.FinalizeAs? && a.p in s.procs && s.procs[a.p].pc.FinalizeWrite?
          && (a.stale || s.procs[a.p].pc.op.closeout.Some?))
    case Failed => a.MarkOrphaned? || (a.RecordCatch? && a.kind.OtherFailure?) || (a.RecordOpenFailure? && !a.ambiguous)
  }

  /** The status moves only so; a run becomes complete only by the finalization of an operation without
      a closeout, or from its verdict. */
  lemma StatusMoves(s: Sys, a: Action)
    requires Inv(s) && s.reg.Some? && Next(s, a).Some?
    ensures var s' := Next(s, a).value;
            s'.reg.Some? &&
            (s'.reg.value.value.status == s.reg.value.value.status || MayLeadTo(s, a, s'.reg.value.value.status))
  {
    if !a.Spawn? { assert ProcOk(s, a.p, s.procs[a.p]); }
  }

  /** How an attempt ends in the record: a stage limit pauses it with that limit, an interrupt pauses it,
      any other failure fails it, a session whose journal is ambiguous waits for an operator, and a
      finalization completes it, or pauses it when a limit had cut it short or the answer is stale. */
  lemma EndsAs(s: Sys, a: Action)
    requires Next(s, a).Some? && (a.RecordCatch? || a.RecordOpenFailure? || a.FinalizeAs? || a.FinishVerdict?)
    ensures var s' := Next(s, a).value;
            && s'.reg.Some?
            && var c := s'.reg.value.value;
               && (a.RecordCatch? && a.kind.LimitReached? ==>
                     c.status == Paused && c.pause == Some(StageLimit(a.kind.limit)))
               && (a.RecordCatch? && a.kind.WasInterrupted? ==> c.status == Paused && c.pause == Some(Interrupted))
               && (a.RecordCatch? && a.kind.OtherFailure? ==> c.status == Failed && c.failure)
               && (a.RecordOpenFailure? && a.ambiguous ==> c.status == Paused && c.pause == Some(ManualRecovery))
               && (a.RecordOpenFailure? && !a.ambiguous ==> c.status == Failed && c.failure)
               && (a.FinishVerdict? ==> c.status == Complete && c.pause.None? && !c.failure)
               && (a.FinalizeAs? ==>
                     && !c.failure
                     && var closeout := s.procs[a.p].pc.op.closeout;
                        if a.stale then c.status == Paused && c.pause == Some(StaleCloseout)
                        else if closeout.Some? then c.status == Paused && c.pause == Some(StageCloseout(closeout.value))
                        else c.status == Complete && c.pause.None?)
  {
  }

  // ---- Over every run ----

  /** A complete run has its result, which no limit cut short, and neither a pause nor a failure; a paused
      one has its pause, and the answer so far when a limit made it close; a failed one its failure. */
  ghost predicate Explained(c: Checkpoint) {
    && (c.status == Complete ==>
          c.pause.None? && !c.failure && c.result.Some? &&
          (c.result.value.OfOperation? ==> c.result.value.op.closeout.None?))
    && (c.status == Paused ==> c.pause.Some?)
    && (c.status == Failed ==> c.failure)
    && (c.pause.Some? && c.pause.value.StageCloseout? ==>
          c.result.Some? && c.result.value.OfOperation? && c.result.value.op.closeout == Some(c.pause.value.limit))
    && (c.pause == Some(StaleCloseout) ==> c.result.None?)
  }

  ghost predicate RecordOk(s: Sys) {
    s.reg.Some? ==> Explained(s.reg.value.value)
  }

  lemma NextExplained(s: Sys, a: Action)
    requires Inv(s) && RecordOk(s) && Next(s, a).Some?
    ensures RecordOk(Next(s, a).value)
  {
    if s.reg.Some? && !(a.RecordCatch? || a.RecordOpenFailure? || a.FinalizeAs? || a.FinishVerdict?) {
      AtWorkExplained(s, a);
    }
  }

  lemma AtWorkExplained(s: Sys, a: Action)
    requires Inv(s) && s.reg.Some? && RecordOk(s) && Next(s, a).Some?
    requires !(a.RecordCatch? || a.RecordOpenFailure? || a.FinalizeAs? || a.FinishVerdict?)
    ensures RecordOk(Next(s, a).value)
  {
    if !a.Spawn? { assert ProcOk(s, a.p, s.procs[a.p]); }
  }

  /** In every state any run reaches, through every crash and every late write, the record explains its
      status. */
  lemma {:induction false} RecordExplained(s: Sys, run: seq<Action>)
    requires Inv(s) && RecordOk(s) && Legal(s, run)
    ensures RecordOk(Exec(s, run))
    decreases |run|
  {
    if run != [] {
      NextExplained(s, run[0]);
      NextKeeps(s, run[0]);
      RecordExplained(Next(s, run[0]).value, run[1..]);
    }
  }

  // ---- The session and what a process has seen ----

  /** The session is taken by opening it, and given back by closing it, by a failure, by a lost claim and
      by death, always by its holder. */
  lemma LeaseMoves(s: Sys, a: Action)
    requires Inv(s) && Next(s, a).Some?
    ensures var s' := Next(s, a).value;
            var gives := a.Die? || a.CloseSession? || a.EnterCatch? || (a.ClaimRun? && !Wrote(s, a));
            && s'.lease == (if a.OpenNew? || a.Open? then Some(a.p)
                            else if gives && s.lease == Some(a.p) then None else s.lease)
            && (a.OpenNew? || a.Open? ==> s.lease.None?)
            && s'.session == (s.session || a.OpenNew? || a.Open?)
  {
    if !a.Spawn? { assert ProcOk(s, a.p, s.procs[a.p]); }
  }

  /** What a process holds as the captured verdict was acknowledged by the store, or read back. */
  lemma CapturedMoves(s: Sys, a: Action, q: Pid)
    requires Inv(s) && Next(s, a).Some? && q in s.procs && q in Next(s, a).value.procs
    ensures Next(s, a).value.procs[q].captured
            == if a.p == q && a.PersistVerdict? && a.acknowledged then Some(a.verdict)
               else if a.p == q && a.DecideResume? && s.procs[q].capture && s.procs[q].local.value.value.verdict.Some?
                    then s.procs[q].local.value.value.verdict
               else s.procs[q].captured
  {
    if a.p != q { OthersUntouched(s, a, q); } else { OwnCapture(s, a); }
  }

  lemma OwnCapture(s: Sys, a: Action)
    requires Inv(s) && Next(s, a).Some? && a.p in s.procs && a.p in Next(s, a).value.procs
    ensures Next(s, a).value.procs[a.p].captured
            == if a.PersistVerdict? && a.acknowledged then Some(a.verdict)
               else if a.DecideResume? && s.procs[a.p].capture && s.procs[a.p].local.value.value.verdict.Some?
                    then s.procs[a.p].local.value.value.verdict
               else s.procs[a.p].captured
  {
    assert ProcOk(s, a.p, s.procs[a.p]);
  }

  /** The runner may report, persist a verdict where one is collected, with or without hearing of it,
      return or fail at any time; and a finalization may fail until it writes, which ends an attempt that
      called the runner in its catch, and a mere recovery at once. */
  lemma AnythingMayHappen(s: Sys, p: Pid, usage: nat, verdict: Verdict, acknowledged: bool, op: Operation)
    requires p in s.procs && s.reg.Some?
    ensures s.procs[p].pc == InRunner ==>
              && Next(s, Observe(p, usage)).Some? && Next(s, RunnerReturns(p, op)).Some?
              && Next(s, RunnerFails(p)).Some?
              && (Next(s, PersistVerdict(p, verdict, acknowledged)).Some? <==> s.procs[p].capture)
              && Next(s, RunnerFails(p)).value.procs[p].pc == Catch
    ensures s.procs[p].pc.FinalizeClose? || s.procs[p].pc.FinalizeRead? ==>
              Next(s, FinalizeFails(p)).Some?
              && Next(s, FinalizeFails(p)).value.procs[p].pc == if s.procs[p].pc.guarded then Catch else Threw
  {
  }

  /** A check on arguments or identity can stop a process only before it holds anything, and only an attempt
      that was resumed and called the runner can find that its answer is the stale one. */
  lemma ChecksExactly(s: Sys, p: Pid)
    requires p in s.procs
    ensures Next(s, Refuse(p)).Some? <==> s.procs[p].pc in {Begin, MarkOrphan, Decide, VerdictOpen, VerdictRead}
    ensures s.procs[p].pc.FinalizeWrite? && s.reg.Some? ==>
              && Next(s, FinalizeAs(p, false)).Some?
              && (Next(s, FinalizeAs(p, true)).Some? <==> s.procs[p].resume && s.procs[p].pc.guarded)
  {
  }

  /** Reading the transcript and completing the run from its verdict. */
  lemma VerdictCompletes(from: Sys, s: Sys, p: Pid) returns (s': Sys)
    requires Reach(from, s) && p in s.procs && s.procs[p].pc == VerdictRead && s.reg.Some? && s.lease.None?
    ensures Reach(from, s') && s'.reg.Some? && s'.calls == s.calls && s'.lease.None? && p in s'.procs
    ensures s'.procs[p].pc == Returned(Answer(s.procs[p].captured, OfVerdict))
    ensures s'.reg.value.value
            == s.reg.value.value.(status := Complete, pause := None, failure := false, result := Some(OfVerdict))
  {
    var s1 := Go(from, s, ReadForVerdict(p));
    assert s1.procs[p] == s.procs[p].(pc := VerdictWrite) && s1.reg == s.reg;
    s' := Go(from, s1, FinishVerdict(p));
  }

  /** After a failure at the runner, with the session free or its own, a process that saw its verdict
      acknowledged can complete the run with it and return it, without another call. */
  lemma VerdictOutlivesFailure(s: Sys, p: Pid) returns (s': Sys)
    requires p in s.procs && s.procs[p].pc == Catch && s.procs[p].captured.Some?
    requires s.reg.Some? && (s.lease.None? || s.lease == Some(p))
    ensures Reach(s, s') && s'.reg.Some? && s'.calls == s.calls && s'.lease.None? && p in s'.procs
    ensures s'.procs[p].pc == Returned(Answer(s.procs[p].captured, OfVerdict))
    ensures s'.reg.value.value
            == s.reg.value.value.(status := Complete, pause := None, failure := false, result := Some(OfVerdict))
  {
    Here(s);
    var s1 := CatchEntered(s, s, p);
    assert s1.procs[p] == s.procs[p].(pc := VerdictRead) && s1.lease.None? && s1.reg == s.reg;
    s' := VerdictCompletes(s, s1, p);
  }

  /** One that saw none can record why the attempt failed, and fails; the session is free then. */
  lemma FailureIsRecorded(s: Sys, p: Pid, kind: CatchKind) returns (s': Sys)
    requires p in s.procs && s.procs[p].pc == Catch && s.procs[p].captured.None?
    requires s.reg.Some? && (s.lease.None? || s.lease == Some(p))
    ensures Reach(s, s') && s'.reg.Some? && s'.calls == s.calls && s'.lease.None? && s'.session == s.session
    ensures p in s'.procs && s'.procs[p].pc == Threw
    ensures var c := s'.reg.value.value;
            && (kind.OtherFailure? ==> c.status == Failed && c.failure)
            && (kind.LimitReached? ==> c.status == Paused && c.pause == Some(StageLimit(kind.limit)))
            && (kind.WasInterrupted? ==> c.status == Paused && c.pause == Some(Interrupted))
  {
    Here(s);
    var s1 := CatchEntered(s, s, p);
    assert s1.procs[p] == s.procs[p].(pc := CatchWrite) && s1.reg == s.reg && s1.lease.None?;
    s' := Go(s, s1, RecordCatch(p, kind, true));
  }
}
