/** What holds at the end of every run of the server, however its requests interleave. */
module ServerTheorems {
  import opened Bytes
  import opened Accounts
  import opened Protocol
  import opened ProtocolProofs

  lemma {:induction false} RunKeepsInvariant(s0: Server, run: Run)
    requires Initial(s0) && Legal(s0, run)
    ensures Invariant(End(s0, run))
  {
    if run != [] {
      var front, last := run[..|run| - 1], run[|run| - 1];
      RunKeepsInvariant(s0, front);
      StepKeepsInvariant(End(s0, front), last.0, last.1);
    }
  }

  predicate Finished(pc: Pc) { pc.Done? || pc.PollDone? }

  /** No request is in flight. */
  predicate Idle(s: Server) {
    forall t :: t in s.threads ==> Finished(s.threads[t])
  }

  /** At most one request is inside `rebuild`'s critical section. */
  lemma OneRebuildAtATime(s0: Server, run: Run, t: Tid, w: Tid)
    requires Initial(s0) && Legal(s0, run)
    requires t in End(s0, run).threads && w in End(s0, run).threads
    requires InRebuild(End(s0, run).threads[t]) && InRebuild(End(s0, run).threads[w])
    ensures t == w
  {
    RunKeepsInvariant(s0, run);
  }

  lemma NoDifference(a: map<Text, Text>, b: map<Text, Text>)
    requires forall x :: !Differ(a, b, x)
    ensures a == b
  {
    assert forall x :: x in a <==> x in b by {
      forall x ensures x in a <==> x in b { assert !Differ(a, b, x); }
    }
    assert forall x :: x in a ==> a[x] == b[x] by {
      forall x | x in a ensures a[x] == b[x] { assert !Differ(a, b, x); }
    }
  }

  lemma IdleTarget(s: Server)
    requires MutexHeld(s) && Idle(s)
    ensures Target(s) == s.core && forall x :: !SomeoneOwes(s, x)
  {
  }

  /** Whatever failed on the way, an idle server's core can differ from its store only at ids a
      fault has left unreconciled since the last listing: the one it was about, for a write, and
      all of them for an Apply. The core's history says at which of those it does differ. */
  lemma IdleDifferencesAreFaults(s0: Server, run: Run, x: Text)
    requires Initial(s0) && Legal(s0, run) && Idle(End(s0, run))
    requires Differ(End(s0, run).core, Active(End(s0, run).users), x)
    ensures x in End(s0, run).stale && End(s0, run).faults > 0
  {
    RunKeepsInvariant(s0, run);
    IdleTarget(End(s0, run));
  }

  /** With no failed write and no failed Apply, an idle server serves exactly the enabled users,
      and the file on disk is the store. */
  lemma IdleServerIsCurrent(s0: Server, run: Run)
    requires Initial(s0) && Legal(s0, run) && Idle(End(s0, run)) && End(s0, run).faults == 0
    ensures End(s0, run).core == Active(End(s0, run).users)
    ensures End(s0, run).disk == End(s0, run).users
  {
    var s := End(s0, run);
    RunKeepsInvariant(s0, run);
    IdleTarget(s);
    NoDifference(s.core, Active(s.users));
  }

  /** `t` has still to complete a rebuild: it is before or inside one, or is a poll that has
      seen, or is about to see, a crossing. */
  predicate StillToRebuild(s: Server, pc: Pc, x: Text) {
    pc.Listed? || Owes(s.users, pc, x)
  }

  /** While requests are in flight, any difference is owed by one of them. */
  lemma DifferenceIsOwed(s0: Server, run: Run, x: Text)
    requires Initial(s0) && Legal(s0, run) && End(s0, run).faults == 0
    requires Differ(End(s0, run).core, Active(End(s0, run).users), x)
    ensures exists t :: t in End(s0, run).threads && StillToRebuild(End(s0, run), End(s0, run).threads[t], x)
  {
    var s := End(s0, run);
    RunKeepsInvariant(s0, run);
    if Target(s) == s.core {
      var t :| t in s.threads && Owes(s.users, s.threads[t], x);
      assert StillToRebuild(s, s.threads[t], x);
    } else {
      assert StillToRebuild(s, s.threads[s.mutex.value], x);
    }
  }

  predicate PastLoop(pc: Pc) {
    PollOf(pc).Some? && !pc.PollLoop? && !pc.PollSet? && !pc.PollRecheck?
  }

  /** A crossing this poll caused and saved is never lost, whatever fails elsewhere: it rebuilds,
      or the user was removed by a request that rebuilds, or by one that failed to save or rolled
      back. With no failure the rebuild succeeds and an idle server no longer serves the user. */
  lemma CrossingNotLost(s0: Server, run: Run, t: Tid, x: Text)
    requires Initial(s0) && Legal(s0, run)
    requires t in End(s0, run).threads && PastLoop(End(s0, run).threads[t])
    requires Crossed(End(s0, run).threads[t], x)
    ensures var s := End(s0, run); var pc := s.threads[t];
      && (|| PollOf(pc).value.limitHit
          || (x in s.removedBy && s.removedBy[x] in s.threads && DeleteRebuilds(s.threads[s.removedBy[x]]))
          || x in s.dropped)
      && (s.faults == 0 ==> x !in s.dropped)
      && (s.faults == 0 && PollOf(pc).value.limitHit && (pc.PollDone? || pc.PollEnd?) ==> pc.rebuilt)
      && (s.faults == 0 && Idle(s) ==> x !in s.core)
  {
    var s := End(s0, run);
    RunKeepsInvariant(s0, run);
    assert ThreadOk(s, s.threads[t]);
    assert CrossingKept(s, s.threads[t], x);
    if Idle(s) && s.faults == 0 {
      IdleServerIsCurrent(s0, run);
    }
  }

  // ---- flags never rise ----

  /** Once disabled or removed, an account is never enabled again. */
  lemma {:induction false} DisabledForGood(s0: Server, run: Run, i: nat, x: Text)
    requires Initial(s0) && Legal(s0, run) && i <= |run| && Legal(s0, run[..i])
    requires x in End(s0, run[..i]).issued && x !in Active(End(s0, run[..i]).users)
    ensures x in End(s0, run).issued && x !in Active(End(s0, run).users)
  {
    if i < |run| {
      var front, last := run[..|run| - 1], run[|run| - 1];
      assert front[..i] == run[..i];
      DisabledForGood(s0, front, i, x);
      RunKeepsInvariant(s0, front);
      StepEvolves(End(s0, front), last.0, last.1);
    } else {
      assert run[..i] == run;
    }
  }

  // ---- where a fault does break the promise ----

  lemma Extend(s0: Server, run: Run, t: Tid, a: Action)
    requires Legal(s0, run) && Enabled(End(s0, run), t, a)
    ensures Legal(s0, run + [(t, a)]) && End(s0, run + [(t, a)]) == Do(End(s0, run), t, a)
  {
    var r := run + [(t, a)];
    assert r[..|r| - 1] == run;
  }

  lemma GotoTwice(s: Server, t: Tid, pc: Pc, pc': Pc)
    ensures Goto(Goto(s, t, pc), t, pc') == Goto(s, t, pc')
  {
    assert s.threads[t := pc][t := pc'] == s.threads[t := pc'];
  }

  /** A poll that reads one user, up to the end of its SetUsage. */
  function PollUpTo(t: Tid, x: Text, bytes: int, saved: bool): Run {
    [(t, Arrive(PollLoop(OneReading(x, bytes)))), (t, PollGet(x)), (t, StoreSetUsage(saved))]
  }

  function OneReading(x: Text, bytes: int): Poll { Poll(map[x := bytes], false, {}) }

  const NO_READING := Poll(map[], false, {})

  /** Three steps of one thread in a row. */
  lemma Three(s0: Server, run: Run, t: Tid, a: Action, b: Action, c: Action)
    requires Legal(s0, run) && Enabled(End(s0, run), t, a) && Enabled(Do(End(s0, run), t, a), t, b)
    requires Enabled(Do(Do(End(s0, run), t, a), t, b), t, c)
    ensures Legal(s0, run + [(t, a), (t, b), (t, c)])
    ensures End(s0, run + [(t, a), (t, b), (t, c)]) == Do(Do(Do(End(s0, run), t, a), t, b), t, c)
  {
    Extend(s0, run, t, a);
    Extend(s0, run + [(t, a)], t, b);
    Extend(s0, run + [(t, a)] + [(t, b)], t, c);
    assert run + [(t, a), (t, b), (t, c)] == run + [(t, a)] + [(t, b)] + [(t, c)];
  }

  function Polled(s: Server, t: Tid, x: Text, bytes: int, saved: bool): Server
    requires x in s.users
  {
    Goto(SetReading(s, x, bytes, saved), t,
         if saved then PollRecheck(NO_READING, x, s.users[x]) else PollLoop(NO_READING))
  }

  lemma PollSteps(s: Server, t: Tid, x: Text, bytes: int, saved: bool)
    requires t !in s.threads && x in s.users && (saved ==> !s.users[x].enabled)
    ensures var a, b, c := Arrive(PollLoop(OneReading(x, bytes))), PollGet(x), StoreSetUsage(saved);
      && Enabled(s, t, a) && Enabled(Do(s, t, a), t, b) && Enabled(Do(Do(s, t, a), t, b), t, c)
      && Do(Do(Do(s, t, a), t, b), t, c) == Polled(s, t, x, bytes, saved)
  {
    var p := OneReading(x, bytes);
    var set1 := PollSet(NO_READING, x, bytes, s.users[x]);
    assert p.todo - {x} == map[];
    GotoTwice(s, t, PollLoop(p), set1);
    GotoTwice(SetReading(s, x, bytes, saved), t, set1, Polled(s, t, x, bytes, saved).threads[t]);
  }

  lemma PollReaches(s0: Server, run: Run, t: Tid, x: Text, bytes: int, saved: bool)
    requires Legal(s0, run) && t !in End(s0, run).threads && x in End(s0, run).users
    requires saved ==> !End(s0, run).users[x].enabled
    ensures Legal(s0, run + PollUpTo(t, x, bytes, saved))
    ensures End(s0, run + PollUpTo(t, x, bytes, saved)) == Polled(End(s0, run), t, x, bytes, saved)
  {
    PollSteps(End(s0, run), t, x, bytes, saved);
    Three(s0, run, t, Arrive(PollLoop(OneReading(x, bytes))), PollGet(x), StoreSetUsage(saved));
  }

  lemma PollReturns(s0: Server, run: Run, t: Tid)
    requires Legal(s0, run) && t in End(s0, run).threads && End(s0, run).threads[t] == PollLoop(NO_READING)
    ensures Legal(s0, run + [(t, PollLeaveLoop), (t, PollReturn)])
    ensures End(s0, run + [(t, PollLeaveLoop), (t, PollReturn)]) == Goto(End(s0, run), t, PollDone(NO_READING, false))
  {
    Extend(s0, run, t, PollLeaveLoop);
    Extend(s0, run + [(t, PollLeaveLoop)], t, PollReturn);
    GotoTwice(End(s0, run), t, PollEnd(NO_READING, false), PollDone(NO_READING, false));
    assert run + [(t, PollLeaveLoop), (t, PollReturn)] == run + [(t, PollLeaveLoop)] + [(t, PollReturn)];
  }

  function UnsavedPoll(t: Tid, x: Text, bytes: int): Run {
    PollUpTo(t, x, bytes, false) + [(t, PollLeaveLoop), (t, PollReturn)]
  }

  function SavedPoll(t: Tid, x: Text, bytes: int): Run {
    PollUpTo(t, x, bytes, true) + [(t, PollGetAgain)] + [(t, PollLeaveLoop), (t, PollReturn)]
  }

  lemma UnsavedPollEnds(s0: Server, run: Run, t: Tid, x: Text, bytes: int)
    requires Legal(s0, run) && t !in End(s0, run).threads && x in End(s0, run).users
    ensures Legal(s0, run + UnsavedPoll(t, x, bytes))
    ensures End(s0, run + UnsavedPoll(t, x, bytes))
         == Goto(SetReading(End(s0, run), x, bytes, false), t, PollDone(NO_READING, false))
  {
    var r := run + PollUpTo(t, x, bytes, false);
    PollReaches(s0, run, t, x, bytes, false);
    PollReturns(s0, r, t);
    GotoTwice(SetReading(End(s0, run), x, bytes, false), t, PollLoop(NO_READING), PollDone(NO_READING, false));
    assert run + UnsavedPoll(t, x, bytes) == r + [(t, PollLeaveLoop), (t, PollReturn)];
  }

  lemma RecheckPasses(s0: Server, run: Run, t: Tid, x: Text, before: User)
    requires Legal(s0, run) && t in End(s0, run).threads && !before.enabled
    requires End(s0, run).threads[t] == PollRecheck(NO_READING, x, before)
    ensures Legal(s0, run + [(t, PollGetAgain)])
    ensures End(s0, run + [(t, PollGetAgain)]) == Goto(End(s0, run), t, PollLoop(NO_READING))
  {
    Extend(s0, run, t, PollGetAgain);
  }

  /** A poll that finds the user already off neither rebuilds nor fails. */
  lemma SavedPollEnds(s0: Server, run: Run, t: Tid, x: Text, bytes: int)
    requires Legal(s0, run) && t !in End(s0, run).threads
    requires x in End(s0, run).users && !End(s0, run).users[x].enabled
    ensures Legal(s0, run + SavedPoll(t, x, bytes))
    ensures End(s0, run + SavedPoll(t, x, bytes))
         == Goto(SetReading(End(s0, run), x, bytes, true), t, PollDone(NO_READING, false))
  {
    var s1 := SetReading(End(s0, run), x, bytes, true);
    var r := run + PollUpTo(t, x, bytes, true);
    PollReaches(s0, run, t, x, bytes, true);
    RecheckPasses(s0, r, t, x, End(s0, run).users[x]);
    GotoTwice(s1, t, End(s0, r).threads[t], PollLoop(NO_READING));
    PollReturns(s0, r + [(t, PollGetAgain)], t);
    GotoTwice(s1, t, PollLoop(NO_READING), PollDone(NO_READING, false));
    assert run + SavedPoll(t, x, bytes) == r + [(t, PollGetAgain)] + [(t, PollLeaveLoop), (t, PollReturn)];
  }

  /** Without the no-fault hypothesis the promise fails, for every user a poll can turn off: when
      that one reading cannot be saved the flag is cleared in memory only, no later poll rebuilds
      for it, and the idle core still serves the user. */
  lemma UnsavedCrossingIsLost(s0: Server, x: Text, bytes: int, later: int)
    requires Initial(s0) && TurnsOff(s0.users, x, bytes)
    ensures var run := [] + UnsavedPoll(0, x, bytes) + SavedPoll(1, x, later);
      && Legal(s0, run) && Idle(End(s0, run)) && End(s0, run).faults == 1
      && x in End(s0, run).core && x !in Active(End(s0, run).users)
  {
    UnsavedPollEnds(s0, [], 0, x, bytes);
    SavedPollEnds(s0, [] + UnsavedPoll(0, x, bytes), 1, x, later);
  }

  /** A create request up to the end of its rebuild. */
  function CreateRun(t: Tid, u: User, r: ApplyResult): Run {
    [(t, Arrive(CreateCall)), (t, StoreCreate(u, true)), (t, Lock)] + [(t, List), (t, Apply(r)), (t, Unlock)]
  }

  function Admitted(s: Server, t: Tid, u: User): Server {
    Goto(AddUser(s, u, true).(mutex := Some(t)), t, Locked(FromCreate(u.id)))
  }

  lemma CreateSteps(s: Server, t: Tid, u: User)
    requires t !in s.threads && s.mutex == None && u.id !in s.issued && u.enabled && u.usedBytes == 0
    ensures var a, b := Arrive(CreateCall), StoreCreate(u, true);
      && Enabled(s, t, a) && Enabled(Do(s, t, a), t, b) && Enabled(Do(Do(s, t, a), t, b), t, Lock)
      && Do(Do(Do(s, t, a), t, b), t, Lock) == Admitted(s, t, u)
  {
    GotoTwice(AddUser(s, u, true), t, CreateCall, Waiting(FromCreate(u.id)));
    GotoTwice(AddUser(s, u, true).(mutex := Some(t)), t, Waiting(FromCreate(u.id)), Locked(FromCreate(u.id)));
  }

  function Rebuild(s: Server, t: Tid, c: Caller, r: ApplyResult): Server {
    Goto(SetCore(s.(stale := {}), Active(s.users), r).(mutex := None), t, AfterRebuild(c, r == Running))
  }

  lemma RebuildSteps(s: Server, t: Tid, c: Caller, r: ApplyResult)
    requires t in s.threads && s.threads[t] == Locked(c)
    ensures Enabled(s, t, List) && Enabled(Do(s, t, List), t, Apply(r))
      && Enabled(Do(Do(s, t, List), t, Apply(r)), t, Unlock)
    ensures Do(Do(Do(s, t, List), t, Apply(r)), t, Unlock) == Rebuild(s, t, c, r)
  {
    var s1 := s.(stale := {});
    var listed, applied := Listed(c, Active(s.users)), Applied(c, r == Running);
    assert Do(s, t, List) == Goto(s1, t, listed);
    ApplyStep(s1, t, c, Active(s.users), r);
    UnlockStep(SetCore(s1, Active(s.users), r), t, c, r == Running);
  }

  lemma ApplyStep(s: Server, t: Tid, c: Caller, clients: map<Text, Text>, r: ApplyResult)
    ensures Do(Goto(s, t, Listed(c, clients)), t, Apply(r)) == Goto(SetCore(s, clients, r), t, Applied(c, r == Running))
  {
    GotoTwice(SetCore(s, clients, r), t, Listed(c, clients), Applied(c, r == Running));
  }

  lemma UnlockStep(s: Server, t: Tid, c: Caller, ok: bool)
    ensures Do(Goto(s, t, Applied(c, ok)), t, Unlock) == Goto(s.(mutex := None), t, AfterRebuild(c, ok))
  {
    GotoTwice(s.(mutex := None), t, Applied(c, ok), AfterRebuild(c, ok));
  }

  lemma Recreated(s: Server, t: Tid, u: User, r: ApplyResult)
    ensures var s' := Rebuild(Admitted(s, t, u), t, FromCreate(u.id), r);
      && s'.users == s.users[u.id := u] && s'.issued == s.issued + {u.id} && s'.mutex == None
      && s'.threads == s.threads[t := AfterRebuild(FromCreate(u.id), r == Running)]
      && (r != CoreDown ==> s'.core == (if r == Running then Active(s'.users) else s.core))
      && s'.faults == (if r == Running then s.faults else s.faults + 1)
  {
    GotoTwice(s, t, Locked(FromCreate(u.id)), AfterRebuild(FromCreate(u.id), r == Running));
  }

  lemma CreateLocks(s0: Server, run: Run, t: Tid, u: User)
    requires Legal(s0, run) && t !in End(s0, run).threads && End(s0, run).mutex == None
    requires u.id !in End(s0, run).issued && u.enabled && u.usedBytes == 0
    ensures var a := [(t, Arrive(CreateCall)), (t, StoreCreate(u, true)), (t, Lock)];
      Legal(s0, run + a) && End(s0, run + a) == Admitted(End(s0, run), t, u)
  {
    CreateSteps(End(s0, run), t, u);
    Three(s0, run, t, Arrive(CreateCall), StoreCreate(u, true), Lock);
  }

  lemma LockedRebuilds(s0: Server, run: Run, t: Tid, c: Caller, r: ApplyResult)
    requires Legal(s0, run) && t in End(s0, run).threads && End(s0, run).threads[t] == Locked(c)
    ensures var a := [(t, List), (t, Apply(r)), (t, Unlock)];
      Legal(s0, run + a) && End(s0, run + a) == Rebuild(End(s0, run), t, c, r)
  {
    RebuildSteps(End(s0, run), t, c, r);
    Three(s0, run, t, List, Apply(r), Unlock);
  }

  lemma Joined(run: Run, a: Run, b: Run)
    ensures run + (a + b) == run + a + b
  {
  }

  lemma CreateRunEnds(s0: Server, run: Run, t: Tid, u: User, r: ApplyResult)
    requires Legal(s0, run) && t !in End(s0, run).threads && End(s0, run).mutex == None
    requires u.id !in End(s0, run).issued && u.enabled && u.usedBytes == 0
    ensures Legal(s0, run + CreateRun(t, u, r))
    ensures End(s0, run + CreateRun(t, u, r)) == Rebuild(Admitted(End(s0, run), t, u), t, FromCreate(u.id), r)
  {
    var a := [(t, Arrive(CreateCall)), (t, StoreCreate(u, true)), (t, Lock)];
    CreateLocks(s0, run, t, u);
    LockedRebuilds(s0, run + a, t, FromCreate(u.id), r);
    Joined(run, a, [(t, List), (t, Apply(r)), (t, Unlock)]);
  }

  /** The rollback of a failed create is not followed by a rebuild, so a second create that
      completes before it leaves the core serving an account that is in no store. */
  lemma RollbackLeavesClient(s0: Server, u: User, w: User)
    requires Initial(s0) && u.id !in s0.issued && w.id !in s0.issued && u.id != w.id
    requires u.enabled && u.usedBytes == 0 && w.enabled && w.usedBytes == 0
    ensures var run := [] + CreateRun(0, u, NotWritten) + CreateRun(1, w, Running) + [(0, StoreRollback(true))];
      && Legal(s0, run) && Idle(End(s0, run)) && End(s0, run).faults == 1
      && u.id in End(s0, run).core && u.id !in End(s0, run).users
  {
    var r1 := [] + CreateRun(0, u, NotWritten);
    FirstCreate(s0, u);
    SecondCreate(s0, r1, u, w);
    RolledBack(s0, r1 + CreateRun(1, w, Running), u.id);
  }

  lemma FirstCreate(s0: Server, u: User)
    requires Initial(s0) && u.id !in s0.issued && u.enabled && u.usedBytes == 0
    ensures Legal(s0, [] + CreateRun(0, u, NotWritten))
    ensures var s := End(s0, [] + CreateRun(0, u, NotWritten));
      && s.threads == map[0 := Rollback(u.id)] && s.mutex == None && s.faults == 1
      && s.users == s0.users[u.id := u] && s.issued == s0.issued + {u.id}
  {
    CreateRunEnds(s0, [], 0, u, NotWritten);
    Recreated(s0, 0, u, NotWritten);
  }

  lemma RolledBack(s0: Server, run: Run, x: Text)
    requires Legal(s0, run) && End(s0, run).threads == map[0 := Rollback(x), 1 := Done(Rebuilt)]
    requires x in End(s0, run).core && x in End(s0, run).users
    ensures Legal(s0, run + [(0, StoreRollback(true))])
    ensures var s := End(s0, run + [(0, StoreRollback(true))]);
      Idle(s) && s.faults == End(s0, run).faults && x in s.core && x !in s.users
  {
    Extend(s0, run, 0, StoreRollback(true));
  }

  lemma SecondCreate(s0: Server, run: Run, u: User, w: User)
    requires Legal(s0, run) && End(s0, run).threads == map[0 := Rollback(u.id)] && End(s0, run).mutex == None
    requires u.id in End(s0, run).users && End(s0, run).users[u.id].enabled
    requires w.id !in End(s0, run).issued && w.enabled && w.usedBytes == 0 && u.id != w.id
    ensures Legal(s0, run + CreateRun(1, w, Running))
    ensures var s, s' := End(s0, run), End(s0, run + CreateRun(1, w, Running));
      && s'.threads == map[0 := Rollback(u.id), 1 := Done(Rebuilt)]
      && s'.faults == s.faults && u.id in s'.core && u.id in s'.users
  {
    CreateRunEnds(s0, run, 1, w, Running);
    Recreated(End(s0, run), 1, w, Running);
  }
}
