/**
 The durable protocol of runRoleStandalone (src/cli.ts): a versioned checkpoint
 record, an exclusive session lease, and any number of launcher processes, each of
 which may die between any two durable actions.

 The project store is taken as a compare-and-swap register (a versioned write
 fails on another version, a mutation reads and writes under its lock), the
 session as an exclusive lease freed by the death of its holder, and the role
 runner as a step that may report usage, persist a verdict, return or fail.  A
 recorded process is found live exactly while it has not died; not being able to
 tell is a refusal.
 */
module StandaloneModel {
  import opened Wrappers

  type Pid = nat
  type Verdict = nat

  datatype Status = Starting | Running | Settling | Paused | Complete | Failed

  // What a settled provider operation recorded; the closeout is the stage limit that cut it short.
  datatype Operation = Operation(id: nat, closeout: Option<int>)

  datatype Pause = StageLimit(limit: int) | StageCloseout(limit: int) | StaleCloseout | Interrupted | ManualRecovery

  datatype Result = OfOperation(op: Operation) | OfVerdict

  datatype Checkpoint = Checkpoint(
    status: Status,
    process: Pid,
    usage: nat,
    verdict: Option<Verdict>,
    result: Option<Result>,
    settled: Option<Operation>,
    pause: Option<Pause>,
    failure: bool)

  datatype Versioned = Versioned(version: nat, value: Checkpoint)

  datatype Answer = Answer(verdict: Option<Verdict>, result: Result)

  /** Where a launcher is: between two durable actions. */
  datatype Pc =
    | Begin
    | CreateSession                     // start intent written
    | WriteRunning                      // session created
    | MarkOrphan                        // read a running checkpoint
    | Decide                            // holds the checkpoint it resumes from
    | OpenSession
    | OpenFailed
    | Claim                             // holds the session, has not published its identity
    | Invoke                            // about to call the role runner
    | InRunner
    | FinalizeClose(op: Operation, guarded: bool)
    | FinalizeRead(op: Operation, guarded: bool)
    | FinalizeWrite(op: Operation, guarded: bool)
    | Catch
    | CatchWrite
    | VerdictOpen
    | VerdictRead
    | VerdictWrite
    | Returned(answer: Answer)
    | Threw

  datatype Proc = Proc(
    pc: Pc,
    resume: bool,
    capture: bool,               // a verdictCapture was supplied
    local: Option<Versioned>,    // the checkpoint as this process last read or wrote it
    captured: Option<Verdict>)

  datatype Sys = Sys(
    reg: Option<Versioned>,
    session: bool,
    lease: Option<Pid>,
    procs: map<Pid, Proc>,
    born: set<Pid>,
    calls: nat)                  // role-runner invocations so far

  const INITIAL := Sys(None, false, None, map[], {}, 0)

  datatype CatchKind = LimitReached(limit: int) | WasInterrupted | OtherFailure

  datatype Action =
    | Spawn(p: Pid, resume: bool, capture: bool)
    | Die(p: Pid)
    | Refuse(p: Pid)                          // a check on arguments or on identity fails
    | WriteStarting(p: Pid)
    | OpenNew(p: Pid)
    | WriteRunningAs(p: Pid)
    | ReadPrior(p: Pid)
    | MarkOrphaned(p: Pid)
    | DecideResume(p: Pid)
    | Open(p: Pid)
    | FailOpen(p: Pid)
    | RecordOpenFailure(p: Pid, ambiguous: bool)
    | ClaimRun(p: Pid)
    | CallRunner(p: Pid)
    | Observe(p: Pid, usage: nat)
    | PersistVerdict(p: Pid, verdict: Verdict, acknowledged: bool)
    | RunnerReturns(p: Pid, op: Operation)
    | RunnerFails(p: Pid)
    | CloseSession(p: Pid)
    | ReadTranscript(p: Pid)
    | FinalizeFails(p: Pid)
    | FinalizeAs(p: Pid, stale: bool)
    | EnterCatch(p: Pid)
    | RecordCatch(p: Pid, kind: CatchKind, last: bool)
    | OpenForVerdict(p: Pid)
    | ReadForVerdict(p: Pid)
    | FinishVerdict(p: Pid)

  // ---- Pieces of the transition function ----

  function Goto(s: Sys, p: Pid, pc: Pc): Sys
    requires p in s.procs
  {
    s.(procs := s.procs[p := s.procs[p].(pc := pc)])
  }

  /** A write under the register's lock: the next version, remembered by the writer. */
  function Write(s: Sys, p: Pid, value: Checkpoint, pc: Pc): Sys
    requires p in s.procs
  {
    var next := Versioned((if s.reg.Some? then s.reg.value.version else 0) + 1, value);
    s.(reg := Some(next), procs := s.procs[p := s.procs[p].(pc := pc, local := Some(next))])
  }

  function Freed(s: Sys, p: Pid): Sys {
    if s.lease == Some(p) then s.(lease := None) else s
  }

  function FreshCheckpoint(p: Pid): Checkpoint {
    Checkpoint(Starting, p, 0, None, None, None, None, false)
  }

  /** The checkpoint a resuming process publishes: pause, failure and result dropped, itself the owner. */
  function Claimed(c: Checkpoint, p: Pid): Checkpoint {
    c.(pause := None, failure := false, result := None, process := p,
       status := if c.settled.None? then Running else Settling)
  }

  /** The settled operation turned into the run's result, or into a pause. */
  function Finalized(c: Checkpoint, op: Operation, stale: bool): Checkpoint {
    var c1 := c.(pause := None, failure := false, settled := None);
    if stale then c1.(status := Paused, pause := Some(StaleCloseout), result := None)
    else if op.closeout.None? then c1.(status := Complete, result := Some(OfOperation(op)))
    else c1.(status := Paused, pause := Some(StageCloseout(op.closeout.value)), result := Some(OfOperation(op)))
  }

  function Caught(c: Checkpoint, kind: CatchKind): Checkpoint {
    match kind
    case LimitReached(limit) => c.(status := Paused, pause := Some(StageLimit(limit)))
    case WasInterrupted => c.(status := Paused, pause := Some(Interrupted))
    case OtherFailure => c.(status := Failed, failure := true)
  }

  /** What a failure to open the session leaves in the record. */
  function OpenNoted(c: Checkpoint, ambiguous: bool): Checkpoint {
    if ambiguous then c.(status := Paused, pause := Some(ManualRecovery)) else c.(status := Failed, failure := true)
  }

  predicate Alive(s: Sys, p: Pid) {
    p in s.procs
  }

  /** The versioned write of `c` by `p`, and what becomes of `p` on a conflict. */
  function CompareAndSwap(s: Sys, p: Pid, c: Checkpoint, pc: Pc): Sys
    requires p in s.procs && s.procs[p].local.Some?
  {
    if s.reg.Some? && s.reg.value.version == s.procs[p].local.value.version
    then Write(s, p, c, pc)
    else Goto(s, p, Threw)
  }

  function ReadPriorStep(s: Sys, p: Pid): Sys
    requires p in s.procs
  {
    if s.reg.None? then Goto(s, p, Threw)
    else
      var c := s.reg.value.value;
      if c.status == Complete && c.verdict.None? then Goto(s, p, Threw)
      else
        s.(procs := s.procs[p := s.procs[p].(local := s.reg, pc := if c.status == Running then MarkOrphan else Decide)])
  }

  /** Under the record's lock, whatever the record says by now: only its process is inspected. */
  function MarkOrphanStep(s: Sys, p: Pid): Sys
    requires p in s.procs
  {
    if s.reg.None? || Alive(s, s.reg.value.value.process) then Goto(s, p, Threw)
    else Write(s, p, s.reg.value.value.(status := Failed, failure := true), Decide)
  }

  function DecideStep(s: Sys, p: Pid): Sys
    requires p in s.procs && s.procs[p].local.Some?
  {
    var proc, c := s.procs[p], s.procs[p].local.value.value;
    if c.verdict.Some? && proc.capture then
      var s1 := s.(procs := s.procs[p := proc.(captured := c.verdict)]);
      if c.status == Complete && c.result.Some? then Goto(s1, p, Returned(Answer(c.verdict, c.result.value)))
      else Goto(s1, p, VerdictOpen)
    else if (c.status == Starting || c.status == Settling) && Alive(s, c.process) then Goto(s, p, Threw)
    else Goto(s, p, OpenSession)
  }

  function CatchStep(s: Sys, p: Pid): Sys
    requires p in s.procs
  {
    Goto(Freed(s, p), p, if s.procs[p].captured.Some? then VerdictRead else CatchWrite)
  }

  /** One action, when the process is at the point where it can take it. */
  function Next(s: Sys, a: Action): Option<Sys> {
    if a.Spawn? then
      if a.p in s.born then None
      else Some(s.(procs := s.procs[a.p := Proc(Begin, a.resume, a.capture, None, None)], born := s.born + {a.p}))
    else if a.p !in s.procs then None
    else
      var p, proc := a.p, s.procs[a.p];
      var pc := proc.pc;
      match a
      case Die(_) => Some(Freed(s.(procs := s.procs - {p}), p))
      case Refuse(_) => if pc == Begin || pc == Decide || pc == MarkOrphan || pc == VerdictOpen || pc == VerdictRead
          then Some(Goto(s, p, Threw)) else None
      case WriteStarting(_) =>
        if pc != Begin || proc.resume then None
        else if s.reg.Some? then Some(Goto(s, p, Threw))
        else Some(Write(s, p, FreshCheckpoint(p), CreateSession))
      case OpenNew(_) =>
        if pc != CreateSession || s.session || s.lease.Some? then None
        else Some(Goto(s.(session := true, lease := Some(p)), p, WriteRunning))
      case WriteRunningAs(_) =>
        if pc != WriteRunning || proc.local.None? then None
        else Some(CompareAndSwap(s, p, proc.local.value.value.(status := Running), Invoke))
      case ReadPrior(_) => if pc != Begin || !proc.resume then None else Some(ReadPriorStep(s, p))
      case MarkOrphaned(_) => if pc != MarkOrphan then None else Some(MarkOrphanStep(s, p))
      case DecideResume(_) => if pc != Decide || proc.local.None? then None else Some(DecideStep(s, p))
      case Open(_) =>
        if pc != OpenSession || s.lease.Some? || proc.local.None?
            || !(s.session || proc.local.value.value.status == Starting) then None
        else Some(Goto(s.(session := true, lease := Some(p)), p, Claim))
      case FailOpen(_) => if pc == CreateSession || pc == OpenSession then Some(Goto(s, p, OpenFailed)) else None
      case RecordOpenFailure(_, ambiguous) =>
        if pc != OpenFailed || s.reg.None? then None
        else
          var c := s.reg.value.value;
          Some(Write(s, p, OpenNoted(c, ambiguous), Threw))
      case ClaimRun(_) =>
        if pc != Claim || proc.local.None? then None
        else
          var c := proc.local.value.value;
          var s1 := CompareAndSwap(s, p, Claimed(c, p), if c.settled.None? then Invoke
              else FinalizeClose(c.settled.value, false));
          Some(if s1.procs[p].pc == Threw then Freed(s1, p) else s1)
      case CallRunner(_) => if pc != Invoke then None else Some(Goto(s, p, InRunner).(calls := s.calls + 1))
      case Observe(_, usage) =>
        if pc != InRunner || s.reg.None? then None else Some(Write(s, p, s.reg.value.value.(usage := usage), InRunner))
      case PersistVerdict(_, verdict, acknowledged) =>
        if pc != InRunner || s.reg.None? || !proc.capture then None
        else
          var s1 := Write(s, p, s.reg.value.value.(verdict := Some(verdict)), InRunner);
          Some(if acknowledged then s1.(procs := s1.procs[p := s1.procs[p].(captured := Some(verdict))]) else s1)
      case RunnerReturns(_, op) =>
        if pc != InRunner || s.reg.None? then None
        else Some(Write(s, p, s.reg.value.value.(status := Settling, settled := Some(op)), FinalizeClose(op, true)))
      case RunnerFails(_) => if pc != InRunner then None else Some(Goto(s, p, Catch))
      case CloseSession(_) => if !pc.FinalizeClose? then None
          else Some(Goto(Freed(s, p), p, FinalizeRead(pc.op, pc.guarded)))
      case ReadTranscript(_) => if !pc.FinalizeRead? || s.lease.Some? then None
          else Some(Goto(s, p, FinalizeWrite(pc.op, pc.guarded)))
      case FinalizeFails(_) =>
        if !pc.FinalizeClose? && !pc.FinalizeRead? then None
        else Some(Goto(s, p, if pc.guarded then Catch else Threw))
      case FinalizeAs(_, stale) =>
        // Only a resumed run that called the runner again can repeat a prior closeout.
        if !pc.FinalizeWrite? || s.reg.None? || (stale && !(proc.resume && pc.guarded)) then None
        else Some(Write(s, p, Finalized(s.reg.value.value, pc.op, stale), Returned(Answer(None, OfOperation(pc.op)))))
      case EnterCatch(_) => if pc != Catch then None else Some(CatchStep(s, p))
      case RecordCatch(_, kind, last) =>
        if pc != CatchWrite || s.reg.None? then None
        else Some(Write(s, p, Caught(s.reg.value.value, kind), if last then Threw else CatchWrite))
      case OpenForVerdict(_) => if pc != VerdictOpen || s.lease.Some? then None else Some(Goto(s, p, VerdictRead))
      case ReadForVerdict(_) => if pc != VerdictRead || s.lease.Some? then None else Some(Goto(s, p, VerdictWrite))
      case FinishVerdict(_) =>
        if pc != VerdictWrite || s.reg.None? then None
        else
          var c := s.reg.value.value.(pause := None, failure := false, status := Complete, result := Some(OfVerdict));
          Some(Write(s, p, c, Returned(Answer(proc.captured, OfVerdict))))
  }

  /** A run: every action is enabled where it is taken. */
  predicate Legal(s: Sys, run: seq<Action>)
    decreases |run|
  {
    run == [] || (Next(s, run[0]).Some? && Legal(Next(s, run[0]).value, run[1..]))
  }

  function Exec(s: Sys, run: seq<Action>): Sys
    requires Legal(s, run)
    decreases |run|
  {
    if run == [] then s else Exec(Next(s, run[0]).value, run[1..])
  }
}
