/** Every step of the server keeps the invariant: the mover is checked action by action, the
    other threads rely only on `Evolves`. */
module ProtocolProofs {
  import opened Bytes
  import opened Accounts
  import opened Protocol

  lemma OthersStayOk(s: Server, s': Server, pc: Pc)
    requires IdsFresh(s) && ThreadOk(s, pc) && Evolves(s, s')
    ensures ThreadOk(s', pc)
  {
    forall x | Crossed(pc, x) ensures CrossingKept(s', pc, x) {
      assert CrossingKept(s, pc, x);
    }
  }

  /** A step that only moves one thread, outside Lock and Unlock. */
  lemma MoveBooks(s: Server, t: Tid, pc: Pc)
    requires Bookkeeping(s) && ThreadOk(s, pc)
    requires if t in s.threads then InRebuild(s.threads[t]) == InRebuild(pc) else !InRebuild(pc)
    requires t in s.threads && DeleteRebuilds(s.threads[t]) ==> DeleteRebuilds(pc)
    ensures Bookkeeping(Goto(s, t, pc))
  {
    var s' := Goto(s, t, pc);
    forall w | w in s'.threads ensures ThreadOk(s', s'.threads[w]) {
      OthersStayOk(s, s', s'.threads[w]);
    }
  }

  /** A step that moves no thread. */
  lemma StoreBooks(s: Server, s': Server)
    requires Bookkeeping(s) && Evolves(s, s')
    requires s'.threads == s.threads && s'.mutex == s.mutex
    requires IdsFresh(s') && FaultsRecorded(s') && RemoversRebuild(s')
    ensures Bookkeeping(s')
  {
    forall w | w in s'.threads ensures ThreadOk(s', s'.threads[w]) {
      OthersStayOk(s, s', s'.threads[w]);
    }
  }

  /** An owing thread keeps owing if `x` did not change and, should it be the mover, its new
      program counter owes too. */
  lemma StillOwes(s: Server, s': Server, t: Tid, x: Text)
    requires SomeoneOwes(s, x) && t in s'.threads && s'.threads == s.threads[t := s'.threads[t]]
    requires (x in s.users) == (x in s'.users)
    requires x in s.users ==> s.users[x].enabled == s'.users[x].enabled
    requires t in s.threads && Owes(s.users, s.threads[t], x) ==> Owes(s'.users, s'.threads[t], x)
    ensures SomeoneOwes(s', x)
  {
    var w :| w in s.threads && Owes(s.users, s.threads[w], x);
    assert w in s'.threads && Owes(s'.users, s'.threads[w], x);
  }

  lemma SamePoll(s: Server, pc: Pc, pc': Pc)
    requires ThreadOk(s, pc) && PollOf(pc') == PollOf(pc) && !pc.PollRecheck?
    ensures forall x :: Crossed(pc', x) ==> CrossingKept(s, pc', x)
  {
    forall x | Crossed(pc', x) ensures CrossingKept(s, pc', x) {
      assert Crossed(pc, x);
    }
  }

  lemma ArriveBooks(s: Server, t: Tid, pc: Pc)
    requires Bookkeeping(s) && Enabled(s, t, Arrive(pc))
    ensures Bookkeeping(Goto(s, t, pc))
  {
    MoveBooks(s, t, pc);
  }

  lemma AddUserBooks(s: Server, u: User, saved: bool)
    requires Bookkeeping(s) && u.id !in s.issued
    ensures Bookkeeping(AddUser(s, u, saved))
  {
    StoreBooks(s, AddUser(s, u, saved));
  }

  lemma CreateBooks(s: Server, t: Tid, u: User, saved: bool)
    requires Bookkeeping(s) && Enabled(s, t, StoreCreate(u, saved))
    ensures Bookkeeping(DoCreate(s, t, u, saved))
  {
    AddUserBooks(s, u, saved);
    MoveBooks(AddUser(s, u, saved), t, DoCreate(s, t, u, saved).threads[t]);
  }

  /** Taking `id` out of the store, on the record. */
  lemma RemovalEvolves(s: Server, s': Server, t: Tid, id: Text)
    requires IdsFresh(s) && id in s.users && s'.users == s.users - {id}
    requires s'.issued == s.issued && s.faults <= s'.faults
    requires (s'.removedBy == s.removedBy[id := t] && s'.dropped == s.dropped) ||
             (s'.removedBy == s.removedBy && s'.dropped == s.dropped + {id})
    ensures Evolves(s, s') && IdsFresh(s')
  {
  }

  lemma DropUserBooks(s: Server, id: Text, saved: bool)
    requires Bookkeeping(s) && id in s.users && (!saved || s.faults > 0)
    ensures Bookkeeping(DropUser(s, id, saved))
  {
    RemovalEvolves(s, DropUser(s, id, saved), 0, id);
    StoreBooks(s, DropUser(s, id, saved));
  }

  lemma RemoveUserBooks(s: Server, t: Tid, id: Text)
    requires Bookkeeping(s) && id in s.users
    requires t in s.threads && s.threads[t] == Waiting(FromDelete)
    ensures Bookkeeping(RemoveUser(s, t, id))
  {
    RemovalEvolves(s, RemoveUser(s, t, id), t, id);
    StoreBooks(s, RemoveUser(s, t, id));
  }

  lemma DeleteBooks(s: Server, t: Tid, id: Text, saved: bool)
    requires Bookkeeping(s) && t in s.threads && s.threads[t] == DeleteCall(id)
    ensures Bookkeeping(DoDelete(s, t, id, saved))
  {
    if id !in s.users {
      MoveBooks(s, t, Done(NoRebuild));
    } else if saved {
      DeleteSavedBooks(s, t, id);
    } else {
      DropUserBooks(s, id, false);
      MoveBooks(DropUser(s, id, false), t, Done(Failed));
    }
  }

  lemma DeleteSavedBooks(s: Server, t: Tid, id: Text)
    requires Bookkeeping(s) && t in s.threads && s.threads[t] == DeleteCall(id) && id in s.users
    ensures Bookkeeping(RemoveUser(Goto(s, t, Waiting(FromDelete)), t, id))
  {
    MoveBooks(s, t, Waiting(FromDelete));
    RemoveUserBooks(Goto(s, t, Waiting(FromDelete)), t, id);
  }

  lemma GetBooks(s: Server, t: Tid, p: Poll, id: Text)
    requires Bookkeeping(s) && t in s.threads && s.threads[t] == PollLoop(p) && id in p.todo
    ensures Bookkeeping(DoPollGet(s, t, p, id))
  {
    var pc := DoPollGet(s, t, p, id).threads[t];
    forall x | Crossed(pc, x) ensures CrossingKept(s, pc, x) {
      assert Crossed(s.threads[t], x);
    }
    MoveBooks(s, t, pc);
  }

  lemma SetReadingBooks(s: Server, id: Text, bytes: int, saved: bool)
    requires Bookkeeping(s) && id in s.users
    ensures Bookkeeping(SetReading(s, id, bytes, saved))
  {
    StoreBooks(s, SetReading(s, id, bytes, saved));
  }

  lemma SetUsageBooks(s: Server, t: Tid, p: Poll, id: Text, bytes: int, before: User, saved: bool)
    requires Bookkeeping(s) && t in s.threads && s.threads[t] == PollSet(p, id, bytes, before)
    ensures Bookkeeping(DoSetUsage(s, t, p, id, bytes, before, saved))
  {
    if id !in s.users {
      SamePoll(s, s.threads[t], PollLoop(p));
      MoveBooks(s, t, PollLoop(p));
    } else {
      var s1 := SetReading(s, id, bytes, saved);
      SetReadingBooks(s, id, bytes, saved);
      SamePoll(s1, s.threads[t], PollLoop(p));
      if saved {
        RecheckOk(s, t, p, id, bytes, before);
        MoveBooks(s1, t, PollRecheck(WithCrossing(s, p, id, bytes), id, before));
      } else {
        MoveBooks(s1, t, PollLoop(p));
      }
    }
  }

  /** A flag this poll has just cleared was set when the poll first read it. */
  lemma RecheckOk(s: Server, t: Tid, p: Poll, id: Text, bytes: int, before: User)
    requires Bookkeeping(s) && t in s.threads && s.threads[t] == PollSet(p, id, bytes, before)
    requires id in s.users && Bookkeeping(SetReading(s, id, bytes, true))
    ensures ThreadOk(SetReading(s, id, bytes, true), PollRecheck(WithCrossing(s, p, id, bytes), id, before))
  {
    var s1 := SetReading(s, id, bytes, true);
    var pc := PollRecheck(WithCrossing(s, p, id, bytes), id, before);
    forall x | Crossed(pc, x) ensures CrossingKept(s1, pc, x) {
      if x in p.crossed { assert Crossed(s1.threads[t], x); }
    }
  }

  lemma GetAgainBooks(s: Server, t: Tid, p: Poll, id: Text, before: User)
    requires Bookkeeping(s) && t in s.threads && s.threads[t] == PollRecheck(p, id, before)
    ensures Bookkeeping(DoGetAgain(s, t, p, id, before))
  {
    var pc := DoGetAgain(s, t, p, id, before).threads[t];
    forall x | Crossed(pc, x) ensures CrossingKept(s, pc, x) {
      assert Crossed(s.threads[t], x);
    }
    MoveBooks(s, t, pc);
  }

  lemma ApplyBooks(s: Server, t: Tid, c: Caller, clients: map<Text, Text>, r: ApplyResult)
    requires Bookkeeping(s) && t in s.threads && s.threads[t] == Listed(c, clients)
    ensures Bookkeeping(DoApply(s, t, c, clients, r))
  {
    var s1 := SetCore(s, clients, r);
    StoreBooks(s, s1);
    SamePoll(s1, s.threads[t], Applied(c, r == Running));
    MoveBooks(s1, t, Applied(c, r == Running));
  }

  lemma RollbackBooks(s: Server, t: Tid, id: Text, saved: bool)
    requires Bookkeeping(s) && t in s.threads && s.threads[t] == Rollback(id)
    ensures Bookkeeping(DoRollback(s, t, id, saved))
  {
    assert ThreadOk(s, s.threads[t]);
    if id in s.users {
      DropUserBooks(s, id, saved);
    }
    MoveBooks(if id in s.users then DropUser(s, id, saved) else s, t, Done(Failed));
  }

  lemma LockBooks(s: Server, t: Tid, pc: Pc, mutex: Option<Tid>)
    requires Bookkeeping(s) && t in s.threads && ThreadOk(s, pc)
    requires s.mutex == None || s.mutex == Some(t)
    requires mutex == if InRebuild(pc) then Some(t) else None
    requires DeleteRebuilds(s.threads[t]) ==> DeleteRebuilds(pc)
    ensures Bookkeeping(Goto(s.(mutex := mutex), t, pc))
  {
    var s' := Goto(s.(mutex := mutex), t, pc);
    forall w | w in s'.threads ensures ThreadOk(s', s'.threads[w]) {
      OthersStayOk(s, s', s'.threads[w]);
    }
  }

  /** The remaining steps of `rebuild` and of PollNow change no more than the mutex. */
  lemma RebuildBooks(s: Server, t: Tid, a: Action)
    requires Bookkeeping(s) && Enabled(s, t, a) && (a == Lock || a == Unlock)
    ensures Bookkeeping(Do(s, t, a))
  {
    var pc := Do(s, t, a).threads[t];
    SamePoll(s, s.threads[t], pc);
    LockBooks(s, t, pc, Do(s, t, a).mutex);
  }

  lemma ListBooks(s: Server, t: Tid, c: Caller)
    requires Bookkeeping(s) && t in s.threads && s.threads[t] == Locked(c)
    ensures Bookkeeping(DoList(s, t, c))
  {
    var s1 := s.(stale := {});
    var pc := Listed(c, Active(s.users));
    StoreBooks(s, s1);
    SamePoll(s1, s.threads[t], pc);
    MoveBooks(s1, t, pc);
  }

  lemma LeaveBooks(s: Server, t: Tid, a: Action)
    requires Bookkeeping(s) && Enabled(s, t, a) && (a == PollLeaveLoop || a == PollReturn)
    ensures Bookkeeping(Do(s, t, a))
  {
    var pc := Do(s, t, a).threads[t];
    SamePoll(s, s.threads[t], pc);
    MoveBooks(s, t, pc);
  }

  // ---- every step evolves the store ----

  lemma CreateEvolves(s: Server, t: Tid, u: User, saved: bool)
    requires IdsFresh(s) && u.id !in s.issued
    ensures Evolves(s, DoCreate(s, t, u, saved))
  {
  }

  lemma DeleteEvolves(s: Server, t: Tid, id: Text, saved: bool)
    requires IdsFresh(s)
    ensures Evolves(s, DoDelete(s, t, id, saved))
  {
    if id in s.users {
      RemovalEvolves(s, DoDelete(s, t, id, saved), t, id);
    }
  }

  lemma SetUsageEvolves(s: Server, t: Tid, p: Poll, id: Text, bytes: int, before: User, saved: bool)
    requires IdsFresh(s)
    ensures Evolves(s, DoSetUsage(s, t, p, id, bytes, before, saved))
  {
    if id in s.users {
      var s1 := SetReading(s, id, bytes, saved);
      assert s1.users == s.users[id := WithUsage(s.users[id], bytes)];
    }
  }

  lemma RollbackEvolves(s: Server, t: Tid, id: Text, saved: bool)
    requires IdsFresh(s)
    ensures Evolves(s, DoRollback(s, t, id, saved))
  {
    if id in s.users {
      RemovalEvolves(s, DoRollback(s, t, id, saved), t, id);
    }
  }

  lemma StepEvolves(s: Server, t: Tid, a: Action)
    requires IdsFresh(s) && Enabled(s, t, a)
    ensures Evolves(s, Do(s, t, a))
  {
    if !a.Arrive? {
      var pc := s.threads[t];
      match a
      case StoreCreate(u, saved) => CreateEvolves(s, t, u, saved);
      case StoreDelete(saved) => DeleteEvolves(s, t, pc.id, saved);
      case StoreSetUsage(saved) => SetUsageEvolves(s, t, pc.poll, pc.id, pc.bytes, pc.before, saved);
      case StoreRollback(saved) => RollbackEvolves(s, t, pc.id, saved);
      case PollGet(id) => GotoEvolves(s, t, DoPollGet(s, t, pc.poll, id).threads[t]);
      case Apply(r) => ApplyEvolves(s, t, pc.caller, pc.clients, r);
      case _ =>
    }
  }

  lemma GotoEvolves(s: Server, t: Tid, pc: Pc)
    ensures Evolves(s, Goto(s, t, pc))
  {
  }

  lemma ApplyEvolves(s: Server, t: Tid, c: Caller, clients: map<Text, Text>, r: ApplyResult)
    ensures Evolves(s, DoApply(s, t, c, clients, r))
  {
    var s' := SetCore(s, clients, r);
    assert s'.users == s.users && s'.issued == s.issued;
  }

  // ---- the core and the store ----

  predicate SameFlag(a: Users, b: Users, x: Text) {
    (x in a) == (x in b) && (x in a ==> a[x].enabled == b[x].enabled && a[x].shortId == b[x].shortId)
  }

  /** A step keeps the debts if, wherever the target is wrong, either the mover owes or nothing
      about `x` changed and the mover forgot no debt. */
  lemma ReconcileStep(s: Server, s': Server, t: Tid)
    requires Reconciled(s) && Target(s') == Target(s)
    requires t in s'.threads && s'.threads == s.threads[t := s'.threads[t]]
    requires forall x :: x !in s'.stale ==>
      || Owes(s'.users, s'.threads[t], x)
      || (&& SameFlag(s.users, s'.users, x) && x !in s.stale
          && !(t in s.threads && Owes(s.users, s.threads[t], x)))
    ensures Reconciled(s')
  {
    forall x | Differ(Target(s'), Active(s'.users), x) && x !in s'.stale ensures SomeoneOwes(s', x) {
      if !Owes(s'.users, s'.threads[t], x) {
        assert Differ(Target(s), Active(s.users), x);
        StillOwes(s, s', t, x);
      }
    }
  }

  lemma SetUsageReconciles(s: Server, t: Tid, p: Poll, id: Text, bytes: int, before: User, saved: bool)
    requires Reconciled(s) && t in s.threads && s.threads[t] == PollSet(p, id, bytes, before)
    requires ReadingCurrent(s, s.threads[t])
    ensures Reconciled(DoSetUsage(s, t, p, id, bytes, before, saved))
  {
    if id in s.users {
      SetReadingReconciles(s, t, p, id, bytes, before, saved);
    } else {
      ReconcileStep(s, Goto(s, t, PollLoop(p)), t);
    }
  }

  lemma SetReadingReconciles(s: Server, t: Tid, p: Poll, id: Text, bytes: int, before: User, saved: bool)
    requires Reconciled(s) && t in s.threads && s.threads[t] == PollSet(p, id, bytes, before)
    requires ReadingCurrent(s, s.threads[t]) && id in s.users
    ensures Reconciled(DoSetUsage(s, t, p, id, bytes, before, saved))
  {
    var s1 := SetReading(s, id, bytes, saved);
    assert s1.users == s.users[id := WithUsage(s.users[id], bytes)];
    ReconcileStep(s, DoSetUsage(s, t, p, id, bytes, before, saved), t);
  }

  lemma CreateReconciles(s: Server, t: Tid, u: User, saved: bool)
    requires Reconciled(s) && Enabled(s, t, StoreCreate(u, saved))
    ensures Reconciled(DoCreate(s, t, u, saved))
  {
    ReconcileStep(s, DoCreate(s, t, u, saved), t);
  }

  lemma DeleteReconciles(s: Server, t: Tid, id: Text, saved: bool)
    requires Reconciled(s) && t in s.threads && s.threads[t] == DeleteCall(id)
    ensures Reconciled(DoDelete(s, t, id, saved))
  {
    if id !in s.users {
      ReconcileStep(s, Goto(s, t, Done(NoRebuild)), t);
    } else if saved {
      ReconcileStep(s, RemoveUser(Goto(s, t, Waiting(FromDelete)), t, id), t);
    } else {
      ReconcileStep(s, Goto(DropUser(s, id, false), t, Done(Failed)), t);
    }
  }

  lemma RollbackReconciles(s: Server, t: Tid, id: Text, saved: bool)
    requires Reconciled(s) && t in s.threads && s.threads[t] == Rollback(id)
    ensures Reconciled(DoRollback(s, t, id, saved))
  {
    ReconcileStep(s, DoRollback(s, t, id, saved), t);
  }

  lemma GetAgainReconciles(s: Server, t: Tid, p: Poll, id: Text, before: User)
    requires Reconciled(s) && t in s.threads && s.threads[t] == PollRecheck(p, id, before)
    ensures Reconciled(DoGetAgain(s, t, p, id, before))
  {
    var s' := DoGetAgain(s, t, p, id, before);
    forall x | Differ(Target(s'), Active(s'.users), x) && x !in s'.stale ensures SomeoneOwes(s', x) {
      StillOwes(s, s', t, x);
    }
  }

  /** A List makes the target right for every user; a failed Apply gives up on all of them. */
  lemma ApplyReconciles(s: Server, t: Tid, c: Caller, clients: map<Text, Text>, r: ApplyResult)
    requires Reconciled(s) && MutexHeld(s) && t in s.threads && s.threads[t] == Listed(c, clients)
    ensures Reconciled(DoApply(s, t, c, clients, r))
  {
    var s' := DoApply(s, t, c, clients, r);
    if r == Running {
      ReconcileStep(s, s', t);
    }
  }

  lemma ListReconciles(s: Server, t: Tid, c: Caller)
    requires MutexHeld(s) && t in s.threads && s.threads[t] == Locked(c)
    ensures Reconciled(DoList(s, t, c))
  {
    assert Target(DoList(s, t, c)) == Active(s.users);
  }

  /** A step that moves one thread outside Locked and Listed, and loses no debt. */
  lemma MoveReconciles(s: Server, s': Server, t: Tid, pc: Pc)
    requires Reconciled(s) && Target(s') == Target(s)
    requires s'.threads == s.threads[t := pc] && s'.users == s.users && s'.stale == s.stale
    requires forall x :: t in s.threads && Owes(s.users, s.threads[t], x) ==> Owes(s.users, pc, x)
    ensures Reconciled(s')
  {
    forall x | Differ(Target(s'), Active(s'.users), x) && x !in s'.stale ensures SomeoneOwes(s', x) {
      StillOwes(s, s', t, x);
    }
  }

  // ---- all steps ----

  lemma StepKeepsBooks(s: Server, t: Tid, pc: Pc, a: Action)
    requires Bookkeeping(s) && t in s.threads && pc == s.threads[t] && MayTake(s, pc, a)
    ensures Bookkeeping(DoAt(s, t, pc, a))
  {
    match a
    case StoreCreate(u, saved) => CreateBooks(s, t, u, saved);
    case StoreDelete(saved) => DeleteBooks(s, t, pc.id, saved);
    case PollGet(id) => GetBooks(s, t, pc.poll, id);
    case StoreSetUsage(saved) => SetUsageBooks(s, t, pc.poll, pc.id, pc.bytes, pc.before, saved);
    case PollGetAgain => GetAgainBooks(s, t, pc.poll, pc.id, pc.before);
    case List => ListBooks(s, t, pc.caller);
    case Apply(r) => ApplyBooks(s, t, pc.caller, pc.clients, r);
    case StoreRollback(saved) => RollbackBooks(s, t, pc.id, saved);
    case Lock | Unlock => RebuildBooks(s, t, a);
    case PollLeaveLoop | PollReturn => LeaveBooks(s, t, a);
  }

  lemma StepKeepsDebts(s: Server, t: Tid, pc: Pc, a: Action)
    requires Reconciled(s) && MutexHeld(s) && t in s.threads && pc == s.threads[t]
    requires ReadingCurrent(s, pc) && MayTake(s, pc, a)
    ensures Reconciled(DoAt(s, t, pc, a))
  {
    match a
    case StoreCreate(u, saved) => CreateReconciles(s, t, u, saved);
    case StoreDelete(saved) => DeleteReconciles(s, t, pc.id, saved);
    case StoreSetUsage(saved) => SetUsageReconciles(s, t, pc.poll, pc.id, pc.bytes, pc.before, saved);
    case PollGetAgain => GetAgainReconciles(s, t, pc.poll, pc.id, pc.before);
    case List => ListReconciles(s, t, pc.caller);
    case Apply(r) => ApplyReconciles(s, t, pc.caller, pc.clients, r);
    case StoreRollback(saved) => RollbackReconciles(s, t, pc.id, saved);
    case PollGet(id) => GetKeepsDebts(s, t, pc.poll, id);
    case Lock | Unlock => MutexKeepsDebts(s, t, pc, a);
    case PollLeaveLoop | PollReturn => LeaveKeepsDebts(s, t, pc, a);
  }

  lemma GetKeepsDebts(s: Server, t: Tid, p: Poll, id: Text)
    requires Reconciled(s) && t in s.threads && s.threads[t] == PollLoop(p) && id in p.todo
    ensures Reconciled(DoPollGet(s, t, p, id))
  {
    var s' := DoPollGet(s, t, p, id);
    MoveReconciles(s, s', t, s'.threads[t]);
  }

  lemma MutexKeepsDebts(s: Server, t: Tid, pc: Pc, a: Action)
    requires Reconciled(s) && MutexHeld(s) && t in s.threads && pc == s.threads[t] && MayTake(s, pc, a)
    requires a == Lock || a == Unlock
    ensures Reconciled(DoAt(s, t, pc, a))
  {
    var s' := DoAt(s, t, pc, a);
    MoveReconciles(s, s', t, s'.threads[t]);
  }

  lemma LeaveKeepsDebts(s: Server, t: Tid, pc: Pc, a: Action)
    requires Reconciled(s) && t in s.threads && pc == s.threads[t] && MayTake(s, pc, a)
    requires a == PollLeaveLoop || a == PollReturn
    ensures Reconciled(DoAt(s, t, pc, a))
  {
    var s' := DoAt(s, t, pc, a);
    MoveReconciles(s, s', t, s'.threads[t]);
  }

  lemma StepKeepsInvariant(s: Server, t: Tid, a: Action)
    requires Invariant(s) && Enabled(s, t, a)
    ensures Invariant(Do(s, t, a))
  {
    if a.Arrive? {
      ArriveBooks(s, t, a.pc);
      MoveReconciles(s, Goto(s, t, a.pc), t, a.pc);
    } else {
      var pc := s.threads[t];
      assert ThreadOk(s, pc);
      StepKeepsBooks(s, t, pc, a);
      StepKeepsDebts(s, t, pc, a);
    }
  }
}
