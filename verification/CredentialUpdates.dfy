/**
 What the credential store holds, id by id: each publication against what it found,
 the last write over whole runs, an operation from the free lock to its release, and
 when the lock of a dead process may be removed.
 */
module CredentialUpdates {
  import opened Wrappers
  import opened CredentialLockModel
  import opened CredentialLockSafety

  // ---- One id ----

  /** The action publishes an operation that writes `id`, where it finds what is stored now: a credential
      put, or none after a deletion. */
  ghost predicate Writes(s: Sys, act: Action, id: Id, written: Option<Credential>) {
    && act.Publish? && act.a in s.actors && s.actors[act.a].op.id == id
    && match s.actors[act.a].op
       case Delete(_) => written.None?
       case Modify(_, decide) => written.Some? && decide(Lookup(s.store, id)) == Put(written.value)
  }

  /** A publication writes its own id, unless its callback declines, and no other; nothing else writes. */
  lemma StoreMoves(s: Sys, initial: Store, act: Action, id: Id)
    requires Inv(s, initial) && Next(s, act).Some?
    ensures var s' := Next(s, act).value;
            && (forall written :: Writes(s, act, id, written) ==> Lookup(s'.store, id) == written)
            && ((forall written :: !Writes(s, act, id, written)) ==> Lookup(s'.store, id) == Lookup(s.store, id))
            && s'.log == if act.Publish? then s.log + [s.actors[act.a].op] else s.log
  {
    var s' := Next(s, act).value;
    if act.Publish? {
      assert ActorOk(s, act.a, s.actors[act.a]);
      var op := s.actors[act.a].op;
      if op.id == id && Lookup(s'.store, id) != Lookup(s.store, id) {
        assert Writes(s, act, id, Lookup(s'.store, id));
      }
    }
  }

  /** A callback that throws publishes nothing. */
  lemma ThrowingPublishesNothing(s: Sys, initial: Store, a: Actor)
    requires Inv(s, initial) && a in s.actors && s.actors[a].op.Modify?
    requires s.actors[a].op.decide(Lookup(s.store, s.actors[a].op.id)) == Throw
    ensures Next(s, Publish(a)).None?
  {
    assert ActorOk(s, a, s.actors[a]);
  }

  /** The last write of `id` in the run, if there is one. */
  ghost function LastWrite(s: Sys, run: seq<Action>, id: Id): Option<Option<Credential>>
    requires Legal(s, run)
    decreases |run|
  {
    if run == [] then None
    else
      var later := LastWrite(Next(s, run[0]).value, run[1..], id);
      if later.Some? then later
      else if written :| Writes(s, run[0], id, written) then Some(written) else None
  }

  /** After any sparing run each id holds what the last operation that wrote it put there, or nothing
      when that deleted it, and what it held before when none did. */
  lemma {:induction false} LastWriteWins(s: Sys, initial: Store, run: seq<Action>, id: Id)
    requires Inv(s, initial) && Legal(s, run) && Sparing(s, run)
    ensures var last := LastWrite(s, run, id);
            Lookup(Exec(s, run).store, id) == if last.Some? then last.value else Lookup(s.store, id)
    decreases |run|
  {
    if run != [] {
      StoreMoves(s, initial, run[0], id);
      NextKeeps(s, initial, run[0]);
      LastWriteWins(Next(s, run[0]).value, initial, run[1..], id);
    }
  }

  // ---- One operation, when the lock is free ----

  /** The instance takes the free lock and has read the map. */
  lemma Entered(s: Sys, a: Actor, ino: Ino) returns (s': Sys)
    requires Live(s, a) && s.actors[a].pc == Waiting && s.lock.None? && ino !in s.files
    ensures Reach(s, s', true) && s'.lock == Some(ino) && s'.store == s.store && s'.log == s.log && s'.dead == s.dead
    ensures a in s'.actors && s'.actors[a] == s.actors[a].(pc := HasRead(ino, s.store))
  {
    Here(s, true);
    var s1 := LockCreated(s, s, a, ino, true);
    var s2 := Go(s, s1, WriteMetadata(a), true);
    s' := Go(s, s2, ReadAll(a), true);
  }

  lemma Left(from: Sys, s: Sys, a: Actor) returns (s': Sys)
    requires Reach(from, s, true) && Live(s, a) && s.actors[a].pc.Releasing? && s.lock == Some(s.actors[a].pc.ino)
    ensures Reach(from, s', true) && s'.lock.None? && s'.store == s.store && s'.log == s.log
    ensures a in s'.actors && s'.actors[a].pc == Finished
  {
    var s1 := Go(from, s, CompareOwn(a), true);
    s' := Go(from, s1, UnlinkOwn(a), true);
  }

  /** An instance that finds the lock free can run its operation to the end: its id holds what the
      callback put there, or nothing after a deletion, every other id what it held, and the lock is free
      again; after a callback that throws too. */
  lemma CompletesWhenFree(s: Sys, a: Actor, ino: Ino) returns (s': Sys)
    requires Live(s, a) && s.actors[a].pc == Waiting && s.lock.None? && ino !in s.files
    ensures Reach(s, s', true) && s'.lock.None? && a in s'.actors && s'.actors[a].pc == Finished
    ensures var op := s.actors[a].op;
            && (forall id | id != op.id :: Lookup(s'.store, id) == Lookup(s.store, id))
            && (op.Delete? ==> Lookup(s'.store, op.id).None? && s'.log == s.log + [op])
            && (op.Modify? ==>
                  match op.decide(Lookup(s.store, op.id))
                  case Put(credential) => Lookup(s'.store, op.id) == Some(credential) && s'.log == s.log + [op]
                  case Keep => s'.store == s.store
                  case Throw => s'.store == s.store && s'.log == s.log)
  {
    var op := s.actors[a].op;
    var s1 := Entered(s, a, ino);
    if op.Modify? && op.decide(Lookup(s.store, op.id)) == Throw {
      var s2 := Go(s, s1, Abort(a), true);
      s' := Left(s, s2, a);
    } else {
      var s2 := Go(s, s1, Publish(a), true);
      s' := Left(s, s2, a);
    }
  }

  // ---- When an abandoned lock may go ----

  /** Nobody is about to remove the lock, and whoever inspects it saw its age. */
  ghost predicate NobodyRemoves(s: Sys, i: Ino) {
    forall a | Live(s, a) ::
      && !s.actors[a].pc.RemoveChecked? && s.actors[a].pc != Removing(i)
      && (s.actors[a].pc.Inspecting? && s.actors[a].pc.ino == i && i in s.files ==>
            s.actors[a].pc.mtime == s.files[i].mtime)
  }

  predicate JudgedBy(run: seq<Action>, bound: nat) {
    forall j | 0 <= j < |run| :: run[j].Judge? ==> run[j].stale == bound
  }

  lemma YoungStep(s: Sys, initial: Store, act: Action, i: Ino, bound: nat)
    requires Inv(s, initial) && Next(s, act).Some? && Abandoned(s, i) && NobodyRemoves(s, i)
    requires (act.Judge? ==> act.stale == bound) && Next(s, act).value.now - s.files[i].mtime < bound
    ensures var s' := Next(s, act).value;
            Abandoned(s', i) && NobodyRemoves(s', i) && s'.files[i] == s.files[i] && s'.now >= s.now
  {
    if !(act.Start? || act.Kill? || act.Tick?) { assert ActorOk(s, act.a, s.actors[act.a]); }
  }

  lemma {:induction false} TimePasses(s: Sys, run: seq<Action>)
    requires Legal(s, run)
    ensures s.now <= Exec(s, run).now
    decreases |run|
  {
    if run != [] { TimePasses(Next(s, run[0]).value, run[1..]); }
  }

  /** Before the bound nobody removes it: over every run that ends earlier the lock stays. */
  lemma {:induction false} NotBeforeBound(s: Sys, initial: Store, run: seq<Action>, i: Ino, bound: nat)
    requires Inv(s, initial) && Legal(s, run) && Abandoned(s, i) && NobodyRemoves(s, i) && JudgedBy(run, bound)
    requires Exec(s, run).now - s.files[i].mtime < bound
    ensures Abandoned(Exec(s, run), i)
    decreases |run|
  {
    if run != [] {
      var s' := Next(s, run[0]).value;
      TimePasses(s', run[1..]);
      YoungStep(s, initial, run[0], i, bound);
      NextKeeps(s, initial, run[0]);
      assert forall j | 0 <= j < |run[1..]| :: run[1..][j] == run[j + 1];
      NotBeforeBound(s', initial, run[1..], i, bound);
    }
  }

  /** What an inspection does: it fails on an old lock without a pid, goes on waiting for a young one and
      for one of a living process, and removes any other. */
  lemma InspectionExactly(s: Sys, initial: Store, a: Actor, bound: nat)
    requires Inv(s, initial) && Live(s, a) && s.actors[a].pc.Inspecting?
    ensures Next(s, Judge(a, bound)).Some?
    ensures var i, age := s.actors[a].pc.ino, s.now - s.actors[a].pc.mtime;
            var pc' := Next(s, Judge(a, bound)).value.actors[a].pc;
            && (pc' == Removing(i) <==> age >= bound && s.files[i].metadata.Some? && s.files[i].pid in s.dead)
            && (pc' == Finished <==> age >= bound && s.files[i].metadata.None?)
            && (pc' == Waiting <==> age < bound || (s.files[i].metadata.Some? && s.files[i].pid !in s.dead))
  {
    assert ActorOk(s, a, s.actors[a]);
  }

  /** The age counts from the writing of the pid: of a process that dies right behind it, and that nobody
      was inspecting, the lock stays for the whole bound. */
  lemma AgeCountsFromPid(s: Sys, initial: Store, a: Actor, run: seq<Action>, bound: nat)
    requires Inv(s, initial) && Live(s, a) && s.actors[a].pc.Created? && NobodyRemoves(s, s.actors[a].pc.ino)
    requires forall b | Live(s, b) && s.actors[b].pc.Inspecting? :: s.actors[b].pc.ino != s.actors[a].pc.ino
    requires Legal(s, [WriteMetadata(a), Kill(s.actors[a].pid)] + run) && JudgedBy(run, bound)
    requires Exec(s, [WriteMetadata(a), Kill(s.actors[a].pid)] + run).now - s.now < bound
    ensures Abandoned(Exec(s, [WriteMetadata(a), Kill(s.actors[a].pid)] + run), s.actors[a].pc.ino)
  {
    var i, pid := s.actors[a].pc.ino, s.actors[a].pid;
    var all := [WriteMetadata(a), Kill(pid)] + run;
    assert ActorOk(s, a, s.actors[a]);
    var s1 := Next(s, WriteMetadata(a)).value;
    var s2 := Next(s1, Kill(pid)).value;
    assert all[1..] == [Kill(pid)] + run && all[1..][1..] == run;
    assert Exec(s, all) == Exec(s1, all[1..]) == Exec(s2, run);
    MetadataKeeps(s, initial, a);
    EnvironmentKeeps(s1, initial, Kill(pid));
    NotBeforeBound(s2, initial, run, i, bound);
  }

  /** A lock is compared before it is unlinked, by whoever removes it: when the name denotes another lock
      file by then, nobody unlinks it, and when it denotes none, there is nothing to unlink. */
  lemma ComparisonExactly(s: Sys, a: Actor)
    requires Live(s, a)
    ensures s.actors[a].pc.Releasing? ==>
              var ino, r := s.actors[a].pc.ino, Next(s, CompareOwn(a));
              r == Some(Goto(s, a, if s.lock == Some(ino) then ReleaseChecked(ino) else Finished))
    ensures s.actors[a].pc.Removing? ==>
              var ino, r := s.actors[a].pc.ino, Next(s, CompareStale(a));
              && (s.lock == Some(ino) ==> r == Some(Goto(s, a, RemoveChecked(ino))))
              && (s.lock == None ==> r == Some(Goto(s, a, Waiting)))
              && (s.lock.Some? && s.lock.value != ino ==> r == Some(Goto(s, a, Finished)))
  {
  }
}
