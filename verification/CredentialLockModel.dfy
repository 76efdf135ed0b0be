/**
 The credential store's file lock and its read-modify-publish cycle
 (src/auth/credential-store.ts): any number of store instances in any number of
 processes, interleaved between system calls, with processes dying anywhere.

 Inodes and process ids are never reused, and the clock never goes back.  Removing
 a lock by name is the two calls it is in the source, a comparison and an unlink.
 A lock file records its creator; that field stands for no content of the file.
 */
module CredentialLockModel {
  import opened Wrappers

  type Pid = nat
  type Ino = nat
  type Actor = nat        // one store instance
  type Id = string
  type Credential = string
  type Store = map<Id, Credential>

  /** What the callback of modify() decides: nothing to write, a credential, or an exception. */
  datatype Decision = Keep | Put(credential: Credential) | Throw

  datatype Op = Modify(id: Id, decide: Option<Credential> -> Decision) | Delete(id: Id)

  function Lookup(m: Store, id: Id): Option<Credential> {
    if id in m then Some(m[id]) else None
  }

  predicate Throws(op: Op, m: Store) {
    op.Modify? && op.decide(Lookup(m, op.id)) == Throw
  }

  /** The stored map after an operation that ran alone on `m`. */
  function ApplyOp(op: Op, m: Store): Store {
    match op
    case Modify(id, decide) =>
      var d := decide(Lookup(m, id));
      if d.Put? then m[id := d.credential] else m
    case Delete(id) => m - {id}
  }

  function ApplyAll(log: seq<Op>, m: Store): Store
    decreases |log|
  {
    if log == [] then m else ApplyOp(log[|log| - 1], ApplyAll(log[..|log| - 1], m))
  }

  datatype Pc =
    | Waiting                             // in the acquisition loop
    | Created(ino: Ino)                   // lock file created, still empty
    | Holding(ino: Ino)                   // pid and time written
    | HasRead(ino: Ino, all: Store)
    | Releasing(ino: Ino)
    | ReleaseChecked(ino: Ino)            // compared, about to unlink its own lock
    | Inspecting(ino: Ino, mtime: int)    // opened a lock it found
    | Removing(ino: Ino)                  // judged it abandoned
    | RemoveChecked(ino: Ino)             // compared, about to unlink it
    | Finished

  datatype File = File(creator: Actor, pid: Pid, mtime: int, metadata: Option<Pid>)

  datatype Instance = Instance(pid: Pid, pc: Pc, op: Op)

  datatype Sys = Sys(
    lock: Option<Ino>,             // what the lock's name denotes
    files: map<Ino, File>,         // every lock file ever created
    store: Store,                  // the published credential file
    actors: map<Actor, Instance>,
    dead: set<Pid>,
    log: seq<Op>,                  // operations that took effect, in that order
    now: int)

  datatype Action =
    | Start(a: Actor, pid: Pid, op: Op)
    | Kill(pid: Pid)
    | Tick(ms: nat)
    | Create(a: Actor, ino: Ino)
    | WriteMetadata(a: Actor)
    | ReadAll(a: Actor)
    | Publish(a: Actor)
    | Abort(a: Actor)
    | CompareOwn(a: Actor)
    | UnlinkOwn(a: Actor)
    | Contend(a: Actor)
    | Judge(a: Actor, stale: nat)
    | Decline(a: Actor)
    | CompareStale(a: Actor)
    | UnlinkStale(a: Actor)
    | GiveUp(a: Actor)

  function Goto(s: Sys, a: Actor, pc: Pc): Sys
    requires a in s.actors
  {
    s.(actors := s.actors[a := s.actors[a].(pc := pc)])
  }

  predicate Live(s: Sys, a: Actor) {
    a in s.actors && s.actors[a].pid !in s.dead
  }

  /** What an inspection makes of the lock file it opened, `stale` milliseconds being the bound. */
  function JudgeStep(s: Sys, a: Actor, f: File, ino: Ino, mtime: int, stale: nat): Sys
    requires a in s.actors
  {
    if s.now - mtime < stale then Goto(s, a, Waiting)
    else if f.metadata.None? then Goto(s, a, Finished)        // unreadable metadata: the operation fails
    else if f.metadata.value !in s.dead then Goto(s, a, Waiting)
    else Goto(s, a, Removing(ino))
  }

  function Next(s: Sys, act: Action): Option<Sys> {
    match act
    case Start(a, pid, op) =>
      if pid in s.dead || (a in s.actors && (s.actors[a].pc != Finished || s.actors[a].pid != pid)) then None
      else Some(s.(actors := s.actors[a := Instance(pid, Waiting, op)]))
    case Kill(pid) => Some(s.(dead := s.dead + {pid}))
    case Tick(ms) => Some(s.(now := s.now + ms))
    case Create(a, ino) =>
      if !Live(s, a) || s.actors[a].pc != Waiting || s.lock.Some? || ino in s.files then None
      else Some(Goto(s.(lock := Some(ino), files := s.files[ino := File(a, s.actors[a].pid, s.now, None)]), a,
          Created(ino)))
    case WriteMetadata(a) =>
      if !Live(s, a) || !s.actors[a].pc.Created? || s.actors[a].pc.ino !in s.files then None
      else
        var ino := s.actors[a].pc.ino;
        Some(Goto(s.(files := s.files[ino := s.files[ino].(metadata := Some(s.actors[a].pid), mtime := s.now)]), a,
            Holding(ino)))
    case ReadAll(a) =>
      if !Live(s, a) || !s.actors[a].pc.Holding? then None
      else Some(Goto(s, a, HasRead(s.actors[a].pc.ino, s.store)))
    case Publish(a) =>
      if !Live(s, a) || !s.actors[a].pc.HasRead? || Throws(s.actors[a].op, s.actors[a].pc.all) then None
      else
        var op := s.actors[a].op;
        Some(Goto(s.(store := ApplyOp(op, s.actors[a].pc.all), log := s.log + [op]), a, Releasing(s.actors[a].pc.ino)))
    case Abort(a) =>
      if !Live(s, a) then None
      else
        var pc := s.actors[a].pc;
        if pc.Created? || pc.Holding? || pc.HasRead? then Some(Goto(s, a, Releasing(pc.ino))) else None
    case CompareOwn(a) =>
      if !Live(s, a) || !s.actors[a].pc.Releasing? then None
      else Some(Goto(s, a, if s.lock == Some(s.actors[a].pc.ino) then ReleaseChecked(s.actors[a].pc.ino) else Finished))
    case UnlinkOwn(a) =>
      if !Live(s, a) || !s.actors[a].pc.ReleaseChecked? then None
      else Some(Goto(s.(lock := None), a, Finished))
    case Contend(a) =>
      if !Live(s, a) || s.actors[a].pc != Waiting || s.lock.None? || s.lock.value !in s.files then None
      else Some(Goto(s, a, Inspecting(s.lock.value, s.files[s.lock.value].mtime)))
    case Judge(a, stale) =>
      if !Live(s, a) || !s.actors[a].pc.Inspecting? || s.actors[a].pc.ino !in s.files then None
      else Some(JudgeStep(s, a, s.files[s.actors[a].pc.ino], s.actors[a].pc.ino, s.actors[a].pc.mtime, stale))
    case Decline(a) =>                                      // released meanwhile, or not allowed to tell
      if !Live(s, a) || !s.actors[a].pc.Inspecting? then None else Some(Goto(s, a, Waiting))
    case CompareStale(a) =>
      if !Live(s, a) || !s.actors[a].pc.Removing? then None
      else
        var ino := s.actors[a].pc.ino;
        Some(Goto(s, a, if s.lock.None? then Waiting else if s.lock == Some(ino) then RemoveChecked(ino) else Finished))
    case UnlinkStale(a) =>
      if !Live(s, a) || !s.actors[a].pc.RemoveChecked? then None else Some(Goto(s.(lock := None), a, Waiting))
    case GiveUp(a) =>
      if !Live(s, a) || !(s.actors[a].pc == Waiting || s.actors[a].pc.Inspecting?) then None
          else Some(Goto(s, a, Finished))
  }

  predicate Legal(s: Sys, run: seq<Action>)
    decreases |run|
  {
    run == [] || (Next(s, run[0]).Some? && Legal(Next(s, run[0]).value, run[1..]))
  }

  function Exec(s: Sys, run: seq<Action>): Sys
    requires Legal(s, run)
    decreases |run|
  {
    if run == [] then s else Exec(Next(s, run[0]).value, run[1..])
  }

  function Initially(store: Store, now: int): Sys {
    Sys(None, map[], store, map[], {}, [], now)
  }
}
