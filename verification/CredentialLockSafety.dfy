/**
 Mutual exclusion and no lost updates for the credential store, over exactly the
 interleavings in which no stale unlink removes the lock of a live process; that a
 comparison not separated from its unlink ensures it; and exactly which abandoned
 locks can be recovered then.
 */
module CredentialLockSafety {
  import opened Wrappers
  import opened CredentialLockModel

  predicate Inside(pc: Pc) {
    pc.Created? || pc.Holding? || pc.HasRead? || pc.Releasing? || pc.ReleaseChecked?
  }

  predicate Removes(pc: Pc) {
    pc.Removing? || pc.RemoveChecked?
  }

  ghost predicate ActorOk(s: Sys, a: Actor, it: Instance) {
    it.pid !in s.dead ==>
      && (Inside(it.pc) ==>
            s.lock == Some(it.pc.ino) && it.pc.ino in s.files && s.files[it.pc.ino].creator == a
                && s.files[it.pc.ino].pid == it.pid)
      && (it.pc.HasRead? ==> s.store == it.pc.all)
      && (Removes(it.pc) ==>
            it.pc.ino in s.files && s.files[it.pc.ino].metadata.Some? && s.files[it.pc.ino].pid in s.dead)
      && (it.pc.Inspecting? ==> it.pc.ino in s.files)
  }

  /** A lock whose creator lives has its creator inside. */
  predicate LockOwned(s: Sys, i: Ino)
    requires i in s.files
  {
    var b := s.files[i].creator;
    s.files[i].pid !in s.dead ==>
      b in s.actors && s.actors[b].pid == s.files[i].pid && Inside(s.actors[b].pc) && s.actors[b].pc.ino == i
  }

  ghost predicate Inv(s: Sys, initial: Store) {
    && (s.lock.Some? ==> s.lock.value in s.files && LockOwned(s, s.lock.value))
    && (forall i | i in s.files ::
            (s.files[i].metadata.Some? ==> s.files[i].metadata.value == s.files[i].pid) && s.files[i].mtime <= s.now)
    && (forall a {:trigger ActorOk(s, a, s.actors[a])} | a in s.actors :: ActorOk(s, a, s.actors[a]))
    && s.store == ApplyAll(s.log, initial)
  }

  /** A stale unlink does not remove the lock of a live process. */
  predicate SparesLiving(s: Sys, act: Action) {
    act.UnlinkStale? && act.a in s.actors && s.actors[act.a].pc.RemoveChecked?
    && s.lock.Some? && s.lock.value in s.files
    ==> s.files[s.lock.value].pid in s.dead
  }

  predicate Sparing(s: Sys, run: seq<Action>)
    requires Legal(s, run)
    decreases |run|
  {
    run == [] || (SparesLiving(s, run[0]) && Sparing(Next(s, run[0]).value, run[1..]))
  }

  /** When a stale lock is unlinked, the lock's name still denotes the file that was compared. */
  predicate StillSame(s: Sys, act: Action) {
    act.UnlinkStale? && act.a in s.actors && s.actors[act.a].pc.RemoveChecked? && s.lock.Some?
    ==> s.lock == Some(s.actors[act.a].pc.ino)
  }

  predicate Undisturbed(s: Sys, run: seq<Action>)
    requires Legal(s, run)
    decreases |run|
  {
    run == [] || (StillSame(s, run[0]) && Undisturbed(Next(s, run[0]).value, run[1..]))
  }

  lemma LogAppend(log: seq<Op>, op: Op, m: Store)
    ensures ApplyAll(log + [op], m) == ApplyOp(op, ApplyAll(log, m))
  {
    assert (log + [op])[..|log|] == log;
  }

  /** Only one live actor is inside: they would own the same lock file. */
  lemma InsideAlone(s: Sys, initial: Store, a: Actor, b: Actor)
    requires Inv(s, initial) && Live(s, a) && Live(s, b) && Inside(s.actors[a].pc) && Inside(s.actors[b].pc)
    ensures a == b
  {
    assert ActorOk(s, a, s.actors[a]) && ActorOk(s, b, s.actors[b]);
  }

  lemma MoveKeeps(s: Sys, s': Sys, initial: Store, a: Actor)
    requires Inv(s, initial) && Live(s, a) && a in s'.actors && s' == Goto(s, a, s'.actors[a].pc)
             && ActorOk(s, a, s'.actors[a])
    requires var pc, pc' := s.actors[a].pc, s'.actors[a].pc; Inside(pc) ==> Inside(pc') && pc'.ino == pc.ino
    ensures Inv(s', initial)
  {
    forall b | b in s'.actors ensures ActorOk(s', b, s'.actors[b]) {
      if b != a { assert ActorOk(s, b, s.actors[b]); }
    }
  }

  lemma CreateKeeps(s: Sys, initial: Store, a: Actor, ino: Ino)
    requires Inv(s, initial) && Next(s, Create(a, ino)).Some?
    ensures Inv(Next(s, Create(a, ino)).value, initial)
  {
    var s' := Next(s, Create(a, ino)).value;
    forall b | b in s'.actors ensures ActorOk(s', b, s'.actors[b]) {
      assert ActorOk(s, b, s.actors[b]);
    }
  }

  lemma MetadataKeeps(s: Sys, initial: Store, a: Actor)
    requires Inv(s, initial) && Next(s, WriteMetadata(a)).Some?
    ensures Inv(Next(s, WriteMetadata(a)).value, initial)
  {
    var s' := Next(s, WriteMetadata(a)).value;
    forall b | b in s'.actors ensures ActorOk(s', b, s'.actors[b]) {
      assert ActorOk(s, b, s.actors[b]) && ActorOk(s, a, s.actors[a]);
    }
  }

  /** A publication applies its operation to what the previous one left: nobody else is inside. */
  lemma PublishKeeps(s: Sys, initial: Store, a: Actor)
    requires Inv(s, initial) && Next(s, Publish(a)).Some?
    ensures var s' := Next(s, Publish(a)).value;
            Inv(s', initial) && s'.store == ApplyOp(s.actors[a].op, s.store) && s'.log == s.log + [s.actors[a].op]
  {
    var s' := Next(s, Publish(a)).value;
    assert ActorOk(s, a, s.actors[a]);
    LogAppend(s.log, s.actors[a].op, initial);
    forall b | b in s'.actors ensures ActorOk(s', b, s'.actors[b]) {
      assert ActorOk(s, b, s.actors[b]);
      if b != a && Live(s, b) && Inside(s.actors[b].pc) { InsideAlone(s, initial, a, b); }
    }
  }

  lemma UnlinkKeeps(s: Sys, initial: Store, act: Action)
    requires Inv(s, initial) && Next(s, act).Some? && (act.UnlinkOwn? || act.UnlinkStale?) && SparesLiving(s, act)
    ensures Inv(Next(s, act).value, initial)
  {
    var s', a := Next(s, act).value, act.a;
    assert ActorOk(s, a, s.actors[a]);
    forall b | b in s'.actors ensures ActorOk(s', b, s'.actors[b]) {
      assert ActorOk(s, b, s.actors[b]);
    }
  }

  lemma EnvironmentKeeps(s: Sys, initial: Store, act: Action)
    requires Inv(s, initial) && Next(s, act).Some? && (act.Start? || act.Kill? || act.Tick?)
    ensures Inv(Next(s, act).value, initial)
  {
    var s' := Next(s, act).value;
    forall b | b in s'.actors ensures ActorOk(s', b, s'.actors[b]) {
      if b in s.actors { assert ActorOk(s, b, s.actors[b]); }
    }
  }

  lemma NextKeeps(s: Sys, initial: Store, act: Action)
    requires Inv(s, initial) && Next(s, act).Some? && SparesLiving(s, act)
    ensures Inv(Next(s, act).value, initial)
  {
    if act.Start? || act.Kill? || act.Tick? { EnvironmentKeeps(s, initial, act); }
    else if act.Create? { CreateKeeps(s, initial, act.a, act.ino); }
    else if act.WriteMetadata? { MetadataKeeps(s, initial, act.a); }
    else if act.Publish? { PublishKeeps(s, initial, act.a); }
    else if act.UnlinkOwn? || act.UnlinkStale? { UnlinkKeeps(s, initial, act); }
    else {
      assert ActorOk(s, act.a, s.actors[act.a]);
      MoveKeeps(s, Next(s, act).value, initial, act.a);
    }
  }

  lemma {:induction false} RunKeeps(s: Sys, initial: Store, run: seq<Action>)
    requires Inv(s, initial) && Legal(s, run) && Sparing(s, run)
    ensures Inv(Exec(s, run), initial)
    decreases |run|
  {
    if run != [] {
      NextKeeps(s, initial, run[0]);
      RunKeeps(Next(s, run[0]).value, initial, run[1..]);
    }
  }

  /** What was compared is the lock of a process that has died, so an unlink that is not separated from
      its comparison spares the living. */
  lemma StillSameSpares(s: Sys, initial: Store, act: Action)
    requires Inv(s, initial) && Next(s, act).Some? && StillSame(s, act)
    ensures SparesLiving(s, act)
  {
    if act.UnlinkStale? { assert ActorOk(s, act.a, s.actors[act.a]); }
  }

  lemma {:induction false} UndisturbedSpares(s: Sys, initial: Store, run: seq<Action>)
    requires Inv(s, initial) && Legal(s, run) && Undisturbed(s, run)
    ensures Sparing(s, run)
    decreases |run|
  {
    if run != [] {
      StillSameSpares(s, initial, run[0]);
      NextKeeps(s, initial, run[0]);
      UndisturbedSpares(Next(s, run[0]).value, initial, run[1..]);
    }
  }

  // ---- The promises ----

  /** Over every sparing run, and so over every one whose comparisons are not separated from their
      unlinks: at most one live actor is in the critical section, and the stored map is what the
      operations that took effect give one after another, in lock order. */
  lemma MutualExclusionAndNoLostUpdates(initial: Store, now: int, run: seq<Action>, a: Actor, b: Actor)
    requires Legal(Initially(initial, now), run)
    requires Sparing(Initially(initial, now), run) || Undisturbed(Initially(initial, now), run)
    ensures var s := Exec(Initially(initial, now), run);
            && s.store == ApplyAll(s.log, initial)
            && (Live(s, a) && Live(s, b) && Inside(s.actors[a].pc) && Inside(s.actors[b].pc) ==> a == b)
  {
    var s0 := Initially(initial, now);
    if Undisturbed(s0, run) { UndisturbedSpares(s0, initial, run); }
    RunKeeps(s0, initial, run);
    var s := Exec(s0, run);
    if Live(s, a) && Live(s, b) && Inside(s.actors[a].pc) && Inside(s.actors[b].pc) { InsideAlone(s, initial, a, b); }
  }

  /** A live holder's lock leaves only by the holder's own unlink. */
  lemma HolderKeepsLock(s: Sys, initial: Store, act: Action, a: Actor)
    requires Inv(s, initial) && Next(s, act).Some? && SparesLiving(s, act)
    requires Live(s, a) && Inside(s.actors[a].pc) && act != UnlinkOwn(a)
    ensures Next(s, act).value.lock == s.lock == Some(s.actors[a].pc.ino)
  {
    assert ActorOk(s, a, s.actors[a]);
    if act.UnlinkOwn? {
      assert ActorOk(s, act.a, s.actors[act.a]);
      InsideAlone(s, initial, a, act.a);
    }
  }

  // ---- The condition is exact ----

  ghost predicate Excludes(s: Sys) {
    forall a, b | Live(s, a) && Live(s, b) && Inside(s.actors[a].pc) && Inside(s.actors[b].pc) :: a == b
  }

  /** At most one live actor is inside, now and after any one lock file more. */
  ghost predicate Safe(s: Sys) {
    Excludes(s) && forall a, ino :: StillExcludes(s, a, ino)
  }

  ghost predicate StillExcludes(s: Sys, a: Actor, ino: Ino) {
    Next(s, Create(a, ino)).Some? ==> Excludes(Next(s, Create(a, ino)).value)
  }

  ghost predicate AlwaysSafe(s: Sys, run: seq<Action>)
    requires Legal(s, run)
    decreases |run|
  {
    Safe(s) && (run != [] ==> AlwaysSafe(Next(s, run[0]).value, run[1..]))
  }

  lemma InvExcludes(s: Sys, initial: Store)
    requires Inv(s, initial)
    ensures Excludes(s)
  {
    forall a, b | Live(s, a) && Live(s, b) && Inside(s.actors[a].pc) && Inside(s.actors[b].pc) ensures a == b {
      InsideAlone(s, initial, a, b);
    }
  }

  lemma InvSafe(s: Sys, initial: Store)
    requires Inv(s, initial)
    ensures Safe(s)
  {
    InvExcludes(s, initial);
    forall a, ino ensures StillExcludes(s, a, ino) {
      if Next(s, Create(a, ino)).Some? {
        CreateKeeps(s, initial, a, ino);
        InvExcludes(Next(s, Create(a, ino)).value, initial);
      }
    }
  }

  lemma {:induction false} Above(used: set<nat>) returns (n: nat)
    ensures forall x | x in used :: x < n
  {
    if used == {} {
      n := 0;
    } else {
      var x :| x in used;
      var m := Above(used - {x});
      n := if m <= x then x + 1 else m;
      forall y | y in used ensures y < n {
        if y != x { assert y in used - {x}; }
      }
    }
  }

  /** A stale unlink that removes the lock of a live process opens the critical section to a second. */
  lemma UnsparingIsUnsafe(s: Sys, initial: Store, act: Action)
    requires Inv(s, initial) && Next(s, act).Some? && !SparesLiving(s, act)
    ensures !Safe(Next(s, act).value)
  {
    var s1 := Next(s, act).value;
    var owner := s.files[s.lock.value].creator;
    var ino := Above(s1.files.Keys);
    assert Next(s1, Create(act.a, ino)).Some?;
    var s2 := Next(s1, Create(act.a, ino)).value;
    assert Live(s2, owner) && Inside(s2.actors[owner].pc);
    assert Live(s2, act.a) && Inside(s2.actors[act.a].pc) && act.a != owner;
    assert !StillExcludes(s1, act.a, ino);
  }

  /** Exclusion is safe all along a run if and only if no stale unlink of it removes the lock of a live
      process. */
  lemma {:induction false} ExclusionExactly(s: Sys, initial: Store, run: seq<Action>)
    requires Inv(s, initial) && Legal(s, run)
    ensures AlwaysSafe(s, run) <==> Sparing(s, run)
    decreases |run|
  {
    InvSafe(s, initial);
    if run != [] {
      if SparesLiving(s, run[0]) {
        NextKeeps(s, initial, run[0]);
        ExclusionExactly(Next(s, run[0]).value, initial, run[1..]);
      } else {
        UnsparingIsUnsafe(s, initial, run[0]);
      }
    }
  }

  // ---- Abandoned locks ----

  /** The name denotes a lock file of a process that has died. */
  predicate Abandoned(s: Sys, i: Ino) {
    s.lock == Some(i) && i in s.files && s.files[i].pid in s.dead
  }

  lemma OrphanStep(s: Sys, initial: Store, i: Ino, act: Action)
    requires Inv(s, initial) && Next(s, act).Some? && StillSame(s, act) && Abandoned(s, i) && s.files[i].metadata.None?
    ensures Abandoned(Next(s, act).value, i) && Next(s, act).value.files[i].metadata.None?
  {
    if !(act.Start? || act.Kill? || act.Tick?) {
      assert ActorOk(s, act.a, s.actors[act.a]);
    }
  }

  /** A name that no longer denotes a lock file never does so again. */
  lemma {:induction false} GoneForGood(s: Sys, i: Ino, run: seq<Action>)
    requires Legal(s, run) && i in s.files && s.lock != Some(i)
    ensures Exec(s, run).lock != Some(i)
    decreases |run|
  {
    if run != [] { GoneForGood(Next(s, run[0]).value, i, run[1..]); }
  }

  /** A process that dies between creating its lock and writing its pid into it leaves a lock that stays,
      however long anybody waits, exactly as long as no stale unlink is separated from its comparison. */
  lemma {:induction false} OrphanForever(s: Sys, initial: Store, i: Ino, run: seq<Action>)
    requires Inv(s, initial) && Legal(s, run) && Abandoned(s, i) && s.files[i].metadata.None?
    ensures Abandoned(Exec(s, run), i) <==> Undisturbed(s, run)
    decreases |run|
  {
    if run != [] {
      var s' := Next(s, run[0]).value;
      if StillSame(s, run[0]) {
        OrphanStep(s, initial, i, run[0]);
        StillSameSpares(s, initial, run[0]);
        NextKeeps(s, initial, run[0]);
        OrphanForever(s', initial, i, run[1..]);
      } else {
        GoneForGood(s', i, run[1..]);
      }
    }
  }

  // ---- Runs put together step by step; a calm one is undisturbed ----

  ghost predicate Reach(s: Sys, s': Sys, calm: bool) {
    exists run :: Legal(s, run) && (calm ==> Undisturbed(s, run)) && Exec(s, run) == s'
  }

  lemma {:induction false} ExecAppend(s: Sys, run: seq<Action>, act: Action)
    requires Legal(s, run) && Next(Exec(s, run), act).Some?
    ensures Legal(s, run + [act]) && Exec(s, run + [act]) == Next(Exec(s, run), act).value
    ensures Undisturbed(s, run) && StillSame(Exec(s, run), act) ==> Undisturbed(s, run + [act])
    decreases |run|
  {
    if run == [] {
      assert run + [act] == [act] && [act][1..] == [];
    } else {
      assert (run + [act])[0] == run[0] && (run + [act])[1..] == run[1..] + [act];
      ExecAppend(Next(s, run[0]).value, run[1..], act);
    }
  }

  lemma Here(s: Sys, calm: bool)
    ensures Reach(s, s, calm)
  {
    assert Legal(s, []) && Undisturbed(s, []) && Exec(s, []) == s;
  }

  lemma Go(from: Sys, s: Sys, act: Action, calm: bool) returns (s': Sys)
    requires Reach(from, s, calm) && Next(s, act).Some? && (calm ==> StillSame(s, act))
    ensures s' == Next(s, act).value && Reach(from, s', calm)
  {
    var run :| Legal(from, run) && (calm ==> Undisturbed(from, run)) && Exec(from, run) == s;
    ExecAppend(from, run, act);
    s' := Next(s, act).value;
  }

  lemma Started(from: Sys, s: Sys, a: Actor, pid: Pid, op: Op, calm: bool) returns (s': Sys)
    requires Reach(from, s, calm) && a !in s.actors && pid !in s.dead
    ensures Reach(from, s', calm) && s' == s.(actors := s.actors[a := Instance(pid, Waiting, op)])
  {
    s' := Go(from, s, Start(a, pid, op), calm);
  }

  lemma Ticked(from: Sys, s: Sys, ms: nat, calm: bool) returns (s': Sys)
    requires Reach(from, s, calm)
    ensures Reach(from, s', calm) && s' == s.(now := s.now + ms)
  {
    s' := Go(from, s, Tick(ms), calm);
  }

  lemma LockCreated(from: Sys, s: Sys, a: Actor, ino: Ino, calm: bool) returns (s': Sys)
    requires Reach(from, s, calm) && Live(s, a) && s.actors[a].pc == Waiting && s.lock.None? && ino !in s.files
    ensures Reach(from, s', calm)
    ensures s'
            == Goto(s.(lock := Some(ino), files := s.files[ino := File(a, s.actors[a].pid, s.now, None)]), a,
                Created(ino))
  {
    s' := Go(from, s, Create(a, ino), calm);
  }

  lemma StaleUnlinked(from: Sys, s: Sys, a: Actor, calm: bool) returns (s': Sys)
    requires Reach(from, s, calm) && Live(s, a) && s.actors[a].pc.RemoveChecked?
    requires calm ==> s.lock == Some(s.actors[a].pc.ino)
    ensures Reach(from, s', calm) && s' == Goto(s.(lock := None), a, Waiting)
  {
    s' := Go(from, s, UnlinkStale(a), calm);
  }

  lemma Inspected(from: Sys, s: Sys, a: Actor, i: Ino, stale: nat, calm: bool) returns (s': Sys)
    requires Reach(from, s, calm) && Live(s, a) && s.actors[a].pc == Waiting && Abandoned(s, i)
    requires s.files[i].metadata == Some(s.files[i].pid) && s.now - s.files[i].mtime >= stale
    ensures Reach(from, s', calm) && s' == Goto(s, a, Removing(i))
  {
    var s1 := Go(from, s, Contend(a), calm);
    assert s1 == Goto(s, a, Inspecting(i, s.files[i].mtime));
    s' := Go(from, s1, Judge(a, stale), calm);
    assert s'.actors == s.actors[a := s.actors[a].(pc := Removing(i))];
  }

  lemma Compared(from: Sys, s: Sys, a: Actor, i: Ino, calm: bool) returns (s': Sys)
    requires Reach(from, s, calm) && Live(s, a) && s.actors[a].pc == Removing(i) && s.lock == Some(i)
    ensures Reach(from, s', calm) && s' == Goto(s, a, RemoveChecked(i))
  {
    s' := Go(from, s, CompareStale(a), calm);
  }

  /** A waiting instance finds an abandoned lock old enough, and is about to unlink it. */
  lemma FoundAbandoned(from: Sys, s: Sys, a: Actor, i: Ino, stale: nat, calm: bool) returns (s': Sys)
    requires Reach(from, s, calm) && Live(s, a) && s.actors[a].pc == Waiting && Abandoned(s, i)
    requires s.files[i].metadata == Some(s.files[i].pid) && s.now - s.files[i].mtime >= stale
    ensures Reach(from, s', calm) && s' == Goto(s, a, RemoveChecked(i))
  {
    var s1 := Inspected(from, s, a, i, stale, calm);
    s' := Compared(from, s1, a, i, calm);
    assert s'.actors == s.actors[a := s.actors[a].(pc := RemoveChecked(i))];
  }

  /** Whoever comes later, and waits for the bound, removes the lock of a dead process whose pid was written. */
  lemma DeadOwnerRecovered(s: Sys, initial: Store, i: Ino, a: Actor, pid: Pid, op: Op, stale: nat) returns (s': Sys)
    requires Inv(s, initial) && Abandoned(s, i) && s.files[i].metadata.Some? && a !in s.actors && pid !in s.dead
    ensures Reach(s, s', true) && s'.lock.None? && s'.store == s.store && s'.log == s.log
  {
    Here(s, true);
    var s1 := Started(s, s, a, pid, op, true);
    var s2 := Ticked(s, s1, stale, true);
    var s3 := FoundAbandoned(s, s2, a, i, stale, true);
    s' := StaleUnlinked(s, s3, a, true);
  }

  ghost predicate Recoverable(s: Sys, i: Ino) {
    exists s' :: Reach(s, s', true) && s'.lock != Some(i)
  }

  /** Of the locks dead processes leave, exactly those are recoverable whose pid was written. */
  lemma RecoverableExactlyWithMetadata(s: Sys, initial: Store, i: Ino, a: Actor, pid: Pid, op: Op)
    requires Inv(s, initial) && Abandoned(s, i) && a !in s.actors && pid !in s.dead
    ensures Recoverable(s, i) <==> s.files[i].metadata.Some?
  {
    if s.files[i].metadata.Some? {
      var s' := DeadOwnerRecovered(s, initial, i, a, pid, op, 0);
    } else if Recoverable(s, i) {
      var s' :| Reach(s, s', true) && s'.lock != Some(i);
      var run :| Legal(s, run) && Undisturbed(s, run) && Exec(s, run) == s';
      OrphanForever(s, initial, i, run);
    }
  }

  // ---- Without the assumption ----

  /** An abandoned lock with two instances of live processes waiting. */
  lemma TwoWaitForTheDead(store: Store, now: int, op: Op) returns (s: Sys)
    ensures Reach(Initially(store, now), s, false) && Abandoned(s, 0)
    ensures s.files == map[0 := File(0, 0, now, Some(0))] && s.now == now && s.dead == {0}
    ensures Live(s, 1) && Live(s, 2) && s.actors[1].pc == Waiting && s.actors[2].pc == Waiting
  {
    var s0 := Initially(store, now);
    Here(s0, false);
    var s1 := Started(s0, s0, 0, 0, op, false);
    var s2 := LockCreated(s0, s1, 0, 0, false);
    var s3 := Go(s0, s2, WriteMetadata(0), false);
    assert s3.lock == Some(0) && s3.dead == {} && s3.now == now;
    var s4 := Go(s0, s3, Kill(0), false);
    var s5 := Started(s0, s4, 1, 1, op, false);
    s := Started(s0, s5, 2, 2, op, false);
  }

  /** When the name changes hands between a comparison and the unlink it guards, two live processes
      end up in the critical section together. */
  lemma SeparatedUnlinkLetsTwoIn(store: Store, now: int, op: Op) returns (s: Sys)
    ensures Reach(Initially(store, now), s, false)
    ensures Live(s, 1) && Live(s, 2) && Inside(s.actors[1].pc) && Inside(s.actors[2].pc)
  {
    var s0 := Initially(store, now);
    var s1 := TwoWaitForTheDead(store, now, op);
    var s2 := FoundAbandoned(s0, s1, 1, 0, 0, false);
    var s3 := FoundAbandoned(s0, s2, 2, 0, 0, false);
    var s4 := StaleUnlinked(s0, s3, 2, false);
    var s5 := LockCreated(s0, s4, 2, 1, false);
    var s6 := StaleUnlinked(s0, s5, 1, false);
    s := LockCreated(s0, s6, 1, 2, false);
  }
}
