/**
 Two interleavings of the checkpoint protocol, step by step: a completed run that
 is run again, and a finalization that clears an operation of another process.
 They show that the conditions of StandaloneCompletion.CompletedStays and
 StandaloneOwnership.FinalizesOwnOperation are needed.
 */
module StandaloneTraces {
  import opened Wrappers
  import opened StandaloneModel
  import opened StandaloneSafety

  ghost predicate Reach(s: Sys, s': Sys) {
    exists run :: Legal(s, run) && Exec(s, run) == s'
  }

  lemma {:induction false} ExecConcat(s: Sys, a: seq<Action>, b: seq<Action>)
    requires Legal(s, a) && Legal(Exec(s, a), b)
    ensures Legal(s, a + b) && Exec(s, a + b) == Exec(Exec(s, a), b)
    decreases |a|
  {
    if a == [] {
      assert a + b == b;
    } else {
      assert (a + b)[0] == a[0] && (a + b)[1..] == a[1..] + b;
      ExecConcat(Next(s, a[0]).value, a[1..], b);
    }
  }

  lemma Here(s: Sys)
    ensures Reach(s, s)
  {
    assert Legal(s, []) && Exec(s, []) == s;
  }

  lemma Onward(s: Sys, mid: Sys, s': Sys)
    requires Reach(s, mid) && Reach(mid, s')
    ensures Reach(s, s')
  {
    var a :| Legal(s, a) && Exec(s, a) == mid;
    var b :| Legal(mid, b) && Exec(mid, b) == s';
    ExecConcat(s, a, b);
  }

  /** One more action. */
  lemma Go(from: Sys, s: Sys, a: Action) returns (s': Sys)
    requires Reach(from, s) && Next(s, a).Some?
    ensures s' == Next(s, a).value && Reach(from, s')
  {
    s' := Next(s, a).value;
    assert [a][1..] == [] && Legal(s', []) && Exec(s', []) == s';
    assert Legal(s, [a]) && Exec(s, [a]) == Exec(s', [a][1..]);
    Onward(from, s, s');
  }

  // ---- Single actions, with the state each leaves ----

  lemma Spawned(from: Sys, s: Sys, p: Pid, resume: bool) returns (s': Sys)
    requires Reach(from, s) && p !in s.born
    ensures Reach(from, s')
            && s' == s.(procs := s.procs[p := Proc(Begin, resume, false, None, None)], born := s.born + {p})
  {
    s' := Go(from, s, Spawn(p, resume, false));
  }

  lemma Died(from: Sys, s: Sys, p: Pid) returns (s': Sys)
    requires Reach(from, s) && p in s.procs && true
    ensures Reach(from, s') && s' == Freed(s.(procs := s.procs - {p}), p)
  {
    s' := Go(from, s, Die(p));
  }

  lemma Started(from: Sys, s: Sys, p: Pid) returns (s': Sys)
    requires Reach(from, s) && p in s.procs && s.procs[p].pc == Begin && !s.procs[p].resume && s.reg.None?
    ensures Reach(from, s') && s' == Write(s, p, FreshCheckpoint(p), CreateSession)
  {
    s' := Go(from, s, WriteStarting(p));
  }

  lemma Created(from: Sys, s: Sys, p: Pid) returns (s': Sys)
    requires Reach(from, s) && p in s.procs && s.procs[p].pc == CreateSession && !s.session && s.lease.None?
    ensures Reach(from, s') && s' == Goto(s.(session := true, lease := Some(p)), p, WriteRunning)
  {
    s' := Go(from, s, OpenNew(p));
  }

  lemma Published(from: Sys, s: Sys, p: Pid) returns (s': Sys)
    requires Reach(from, s) && p in s.procs && s.procs[p].pc == WriteRunning && s.procs[p].local.Some?
    ensures Reach(from, s') && s' == CompareAndSwap(s, p, s.procs[p].local.value.value.(status := Running), Invoke)
  {
    s' := Go(from, s, WriteRunningAs(p));
  }

  lemma HasRead(from: Sys, s: Sys, p: Pid) returns (s': Sys)
    requires Reach(from, s) && p in s.procs && s.procs[p].pc == Begin && s.procs[p].resume
    ensures Reach(from, s') && s' == ReadPriorStep(s, p)
  {
    s' := Go(from, s, ReadPrior(p));
  }

  lemma Marked(from: Sys, s: Sys, p: Pid) returns (s': Sys)
    requires Reach(from, s) && p in s.procs && s.procs[p].pc == MarkOrphan
    ensures Reach(from, s') && s' == MarkOrphanStep(s, p)
  {
    s' := Go(from, s, MarkOrphaned(p));
  }

  lemma Decided(from: Sys, s: Sys, p: Pid) returns (s': Sys)
    requires Reach(from, s) && p in s.procs && s.procs[p].pc == Decide && s.procs[p].local.Some?
    ensures Reach(from, s') && s' == DecideStep(s, p)
  {
    s' := Go(from, s, DecideResume(p));
  }

  lemma Opened(from: Sys, s: Sys, p: Pid) returns (s': Sys)
    requires Reach(from, s) && p in s.procs && s.procs[p].pc == OpenSession && s.session && s.lease.None?
             && s.procs[p].local.Some?
    ensures Reach(from, s') && s' == Goto(s.(session := true, lease := Some(p)), p, Claim)
  {
    s' := Go(from, s, Open(p));
  }

  lemma FailedOpen(from: Sys, s: Sys, p: Pid) returns (s': Sys)
    requires Reach(from, s) && p in s.procs && s.procs[p].pc == OpenSession
    ensures Reach(from, s') && s' == Goto(s, p, OpenFailed)
  {
    s' := Go(from, s, FailOpen(p));
  }

  lemma NotedFailure(from: Sys, s: Sys, p: Pid) returns (s': Sys)
    requires Reach(from, s) && p in s.procs && s.procs[p].pc == OpenFailed && s.reg.Some?
    ensures Reach(from, s') && s' == Write(s, p, s.reg.value.value.(status := Failed, failure := true), Threw)
  {
    s' := Go(from, s, RecordOpenFailure(p, false));
  }

  lemma ClaimedRun(from: Sys, s: Sys, p: Pid) returns (s': Sys)
    requires Reach(from, s) && p in s.procs && s.procs[p].pc == Claim && s.reg.Some? && s.procs[p].local == s.reg
    ensures Reach(from, s')
    ensures var c := s.reg.value.value;
            s' == Write(s, p, Claimed(c, p), if c.settled.None? then Invoke else FinalizeClose(c.settled.value, false))
  {
    s' := Go(from, s, ClaimRun(p));
  }

  lemma Called(from: Sys, s: Sys, p: Pid) returns (s': Sys)
    requires Reach(from, s) && p in s.procs && s.procs[p].pc == Invoke
    ensures Reach(from, s') && s' == Goto(s, p, InRunner).(calls := s.calls + 1)
  {
    s' := Go(from, s, CallRunner(p));
  }

  lemma RunnerReturned(from: Sys, s: Sys, p: Pid, op: Operation) returns (s': Sys)
    requires Reach(from, s) && p in s.procs && s.procs[p].pc == InRunner && s.reg.Some?
    ensures Reach(from, s')
            && s' == Write(s, p, s.reg.value.value.(status := Settling, settled := Some(op)), FinalizeClose(op, true))
  {
    s' := Go(from, s, RunnerReturns(p, op));
  }

  lemma RunnerFailed(from: Sys, s: Sys, p: Pid) returns (s': Sys)
    requires Reach(from, s) && p in s.procs && s.procs[p].pc == InRunner
    ensures Reach(from, s') && s' == Goto(s, p, Catch)
  {
    s' := Go(from, s, RunnerFails(p));
  }

  lemma SessionClosed(from: Sys, s: Sys, p: Pid) returns (s': Sys)
    requires Reach(from, s) && p in s.procs && s.procs[p].pc.FinalizeClose?
    ensures Reach(from, s') && s' == Goto(Freed(s, p), p, FinalizeRead(s.procs[p].pc.op, s.procs[p].pc.guarded))
  {
    s' := Go(from, s, CloseSession(p));
  }

  lemma TranscriptRead(from: Sys, s: Sys, p: Pid) returns (s': Sys)
    requires Reach(from, s) && p in s.procs && s.procs[p].pc.FinalizeRead? && s.lease.None?
    ensures Reach(from, s') && s' == Goto(s, p, FinalizeWrite(s.procs[p].pc.op, s.procs[p].pc.guarded))
  {
    s' := Go(from, s, ReadTranscript(p));
  }

  lemma FinalWrite(from: Sys, s: Sys, p: Pid) returns (s': Sys)
    requires Reach(from, s) && p in s.procs && s.procs[p].pc.FinalizeWrite? && s.reg.Some?
    ensures Next(s, FinalizeAs(p, false)) == Some(s')
    ensures Reach(from, s')
            && s' == Write(s, p, Finalized(s.reg.value.value, s.procs[p].pc.op, false),
                 Returned(Answer(None, OfOperation(s.procs[p].pc.op))))
  {
    s' := Go(from, s, FinalizeAs(p, false));
  }

  lemma CatchEntered(from: Sys, s: Sys, p: Pid) returns (s': Sys)
    requires Reach(from, s) && p in s.procs && s.procs[p].pc == Catch
    ensures Reach(from, s') && s' == CatchStep(s, p)
  {
    s' := Go(from, s, EnterCatch(p));
  }

  lemma CatchRecorded(from: Sys, s: Sys, p: Pid) returns (s': Sys)
    requires Reach(from, s) && p in s.procs && s.procs[p].pc == CatchWrite && s.reg.Some?
    ensures Reach(from, s') && s' == Write(s, p, Caught(s.reg.value.value, WasInterrupted), Threw)
  {
    s' := Go(from, s, RecordCatch(p, WasInterrupted, true));
  }

  // ---- Stretches ----

  /** Where a claim of the record leads. */
  function AfterClaim(c: Checkpoint): Pc {
    if c.settled.None? then Invoke else FinalizeClose(c.settled.value, false)
  }

  function Resumed(pc: Pc, local: Option<Versioned>): Proc {
    Proc(pc, true, false, local, None)
  }

  predicate Idle(s: Sys) {
    s.reg.Some? && s.session && s.lease.None?
        && (s.reg.value.value.status == Paused || s.reg.value.value.status == Failed)
  }

  lemma IdleRead(from: Sys, s: Sys, p: Pid) returns (s': Sys)
    requires Reach(from, s) && p !in s.born && Idle(s)
    ensures Reach(from, s')
    ensures s' == Sys(s.reg, true, None, s.procs[p := Resumed(Decide, s.reg)], s.born + {p}, s.calls)
  {
    var s1 := Spawned(from, s, p, true);
    s' := HasRead(from, s1, p);
    assert s'.procs == s.procs[p := Resumed(Decide, s.reg)];
  }

  /** A resume of an idle record up to the opened session. */
  lemma ResumeOpens(from: Sys, s: Sys, p: Pid) returns (s': Sys)
    requires Reach(from, s) && p !in s.born && Idle(s)
    ensures Reach(from, s')
    ensures s' == Sys(s.reg, true, None, s.procs[p := Resumed(OpenSession, s.reg)], s.born + {p}, s.calls)
  {
    var s1 := IdleRead(from, s, p);
    s' := Decided(from, s1, p);
    assert s'.procs == s.procs[p := Resumed(OpenSession, s.reg)];
  }

  /** ... and on to its call of the role runner, or to the finalization it owes. */
  lemma ResumeClaims(from: Sys, s: Sys, p: Pid) returns (s': Sys)
    requires Reach(from, s) && p !in s.born && Idle(s)
    ensures Reach(from, s')
    ensures var c, next := s.reg.value.value, Versioned(s.reg.value.version + 1, Claimed(s.reg.value.value, p));
            s' == Sys(Some(next), true, Some(p),
                      s.procs[p := Resumed(AfterClaim(c), Some(next))],
                      s.born + {p}, s.calls)
  {
    var s3 := ResumeOpens(from, s, p);
    var s4 := Opened(from, s3, p);
    assert s4.procs == s.procs[p := Resumed(Claim, s.reg)];
    s' := ClaimedRun(from, s4, p);
  }

  /** From the claim to a settled operation whose session is released. */
  lemma RunSettles(from: Sys, s: Sys, p: Pid, op: Operation) returns (s': Sys)
    requires Reach(from, s) && p in s.procs && s.procs[p].pc == Invoke && s.reg.Some? && s.lease == Some(p)
    ensures Reach(from, s')
    ensures var next := Versioned(s.reg.value.version + 1, s.reg.value.value.(status := Settling, settled := Some(op)));
            s' == Sys(Some(next), s.session, None,
                      s.procs[p := s.procs[p].(pc := FinalizeRead(op, true), local := Some(next))], s.born, s.calls + 1)
  {
    var s1 := Called(from, s, p);
    var s2 := RunnerReturned(from, s1, p, op);
    s' := SessionClosed(from, s2, p);
  }

  /** The rest of a finalization. */
  lemma Finalization(from: Sys, s: Sys, p: Pid) returns (s': Sys)
    requires Reach(from, s) && p in s.procs && s.procs[p].pc.FinalizeRead? && s.reg.Some? && s.lease.None?
    ensures Reach(from, s')
    ensures var op := s.procs[p].pc.op;
            var next := Versioned(s.reg.value.version + 1, Finalized(s.reg.value.value, op, false));
            s' == Sys(Some(next), s.session, None,
                      s.procs[p := s.procs[p].(pc := Returned(Answer(None, OfOperation(op))), local := Some(next))],
                      s.born, s.calls)
  {
    var s1 := TranscriptRead(from, s, p);
    s' := FinalWrite(from, s1, p);
  }

  /** A fresh start up to its call of the role runner. */
  lemma FreshStart(p: Pid) returns (s': Sys)
    ensures Reach(INITIAL, s')
    ensures var reg := Some(Versioned(2, FreshCheckpoint(p).(status := Running)));
            s' == Sys(reg, true, Some(p), map[p := Proc(Invoke, false, false, reg, None)], {p}, 0)
  {
    Here(INITIAL);
    var s1 := Spawned(INITIAL, INITIAL, p, false);
    var s2 := Started(INITIAL, s1, p);
    var s3 := Created(INITIAL, s2, p);
    s' := Published(INITIAL, s3, p);
    assert s'.procs == map[p := Proc(Invoke, false, false, s'.reg, None)];
  }

  /** A completed run is run again: a resume that read the record while the run was alive marks it
      orphaned after the run has completed and its process has gone. */
  lemma CompletedRunIsRunAgain() returns (done: Sys, again: Sys)
    ensures Reach(INITIAL, done) && CompleteNoVerdict(done) && done.calls == 1
    ensures Reach(done, again) && again.calls == 2
  {
    var s1 := FreshStart(0);
    var s2 := Spawned(INITIAL, s1, 1, true);
    var s3 := HasRead(INITIAL, s2, 1);
    assert s3.procs[1] == Resumed(MarkOrphan, s1.reg) && s3.procs[0] == s1.procs[0];
    var s4 := RunSettles(INITIAL, s3, 0, Operation(7, None));
    done := Finalization(INITIAL, s4, 0);
    assert done.procs[1] == Resumed(MarkOrphan, s1.reg);
    Here(done);
    again := LateResume(done);
  }

  lemma LateResume(done: Sys) returns (again: Sys)
    requires CompleteNoVerdict(done) && done.reg.value.value.settled.None? && done.reg.value.value.process == 0
    requires 0 in done.procs && 1 in done.procs && done.procs[1].pc == MarkOrphan && !done.procs[1].capture
    requires done.session && done.lease.None?
    ensures Reach(done, again) && again.calls == done.calls + 1
  {
    Here(done);
    var s1 := Died(done, done, 0);
    var s2 := Marked(done, s1, 1);
    assert s2.procs[1].pc == Decide && s2.procs[1].local == s2.reg;
    var s3 := Decided(done, s2, 1);
    assert s3.procs[1].pc == OpenSession && s3.procs[1].local == s2.reg;
    var s4 := Opened(done, s3, 1);
    var s5 := ClaimedRun(done, s4, 1);
    again := Called(done, s5, 1);
  }

  /** Process 0 fails; process 1 reads the paused record and stalls before it opens the session;
      process 2 resumes and settles `first`, which a stage limit cut short. */
  lemma StalledContender(first: Operation) returns (s': Sys)
    ensures Reach(INITIAL, s') && s'.reg.Some? && s'.session && s'.lease.None? && s'.born == {0, 1, 2}
    ensures 1 in s'.procs && 2 in s'.procs && s'.procs[1].pc == OpenSession
            && s'.procs[2].pc == FinalizeRead(first, true)
    ensures s'.reg.value.value.settled == Some(first)
  {
    var s1 := FreshStart(0);
    var s2 := Called(INITIAL, s1, 0);
    var s3 := RunnerFailed(INITIAL, s2, 0);
    var s4 := CatchEntered(INITIAL, s3, 0);
    assert s4.procs[0].pc == CatchWrite;
    var s5 := CatchRecorded(INITIAL, s4, 0);
    var s6 := Died(INITIAL, s5, 0);
    var s7 := ResumeOpens(INITIAL, s6, 1);
    var s8 := ResumeClaims(INITIAL, s7, 2);
    s' := RunSettles(INITIAL, s8, 2, first);
  }

  /** The stalled contender's note of its failure hides that process 2 is alive, and process 3
      finalizes in its place. */
  lemma ContenderHidesOwner(first: Operation) returns (s': Sys)
    requires first.closeout.Some?
    ensures Reach(INITIAL, s') && Idle(s') && s'.reg.value.value.settled.None? && s'.born == {0, 1, 2, 3}
    ensures 2 in s'.procs && s'.procs[2].pc == FinalizeRead(first, true)
  {
    var s1 := StalledContender(first);
    var s2 := FailedOpen(INITIAL, s1, 1);
    var s3 := NotedFailure(INITIAL, s2, 1);
    assert s3.procs[2] == s1.procs[2];
    s' := TakenOver(INITIAL, s3, 3, first);
  }

  /** A finalization clears an operation of another process: after process 3 finalized in place of
      process 2, process 4 goes on and settles `second`, and the late finalization of process 2
      removes it, with its own operation as the outcome. */
  lemma ForeignOperationCleared(first: Operation, second: Operation) returns (s: Sys, s': Sys)
    requires first.closeout.Some? && first != second
    ensures Reach(INITIAL, s) && s.reg.Some? && s.reg.value.value.settled == Some(second)
    ensures 2 in s.procs && s.procs[2].pc == FinalizeWrite(first, true) && Next(s, FinalizeAs(2, false)) == Some(s')
    ensures s'.reg.Some? && var c := s'.reg.value.value;
            c.settled.None? && c.status == Paused && c.result == Some(OfOperation(first))
  {
    var s6 := ContenderHidesOwner(first);
    var s7 := ResumeClaims(INITIAL, s6, 4);
    var s8 := RunSettles(INITIAL, s7, 4, second);
    assert s8.procs[2] == s6.procs[2];
    s := TranscriptRead(INITIAL, s8, 2);
    s' := FinalWrite(INITIAL, s, 2);
  }

  /** A resume finalizes the settled operation it finds, which a stage limit cut short. */
  lemma TakenOver(from: Sys, s: Sys, p: Pid, op: Operation) returns (s': Sys)
    requires Reach(from, s) && p !in s.born && Idle(s) && s.reg.value.value.settled == Some(op) && op.closeout.Some?
    ensures Reach(from, s') && Idle(s') && s'.reg.value.value.settled.None? && s'.born == s.born + {p}
    ensures forall q | q in s.procs && q != p :: q in s'.procs && s'.procs[q] == s.procs[q]
  {
    var s1 := ResumeClaims(from, s, p);
    var s2 := SessionClosed(from, s1, p);
    s' := Finalization(from, s2, p);
  }
}
