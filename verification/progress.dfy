/** Requests that are let finish do finish: no reachable state is stuck, a measure falls with
    every step but an arrival, and so what `DifferenceIsOwed` says is owed is paid. */
module Progress {
  import opened Bytes
  import opened Sums
  import opened Accounts
  import opened Protocol
  import opened ProtocolProofs
  import opened ServerTheorems

  /** At most this many steps are left to the thread. */
  function Left(pc: Pc): nat {
    match pc
    case Done(_) | PollDone(_, _) => 0
    case PollEnd(_, _) | Rollback(_) => 1
    case Applied(_, _) => 2
    case Listed(_, _) => 3
    case Locked(_) => 4
    case Waiting(_) => 5
    case CreateCall | DeleteCall(_) => 6
    case PollLoop(p) => 6 + 3 * |p.todo|
    case PollRecheck(p, _, _) => 7 + 3 * |p.todo|
    case PollSet(p, _, _, _) => 8 + 3 * |p.todo|
  }

  function AllLeft(threads: map<Tid, Pc>): map<Tid, int> {
    map t | t in threads :: Left(threads[t])
  }

  /** At most this many steps are left to the requests in flight. */
  ghost function StepsLeft(s: Server): int { Sum(AllLeft(s.threads)) }

  lemma {:induction false} SumBounds(m: map<Tid, int>)
    requires forall t :: t in m ==> m[t] >= 0
    ensures Sum(m) >= 0
    ensures Sum(m) == 0 ==> forall t :: t in m ==> m[t] == 0
    decreases |m|
  {
    forall t | t in m ensures Sum(m) >= m[t] {
      SumAnyKey(m, t);
      SumBounds(m - {t});
    }
    if m != map[] { var t :| t in m; }
  }

  lemma Moved(s: Server, s': Server, t: Tid, pc: Pc)
    requires t in s.threads && s'.threads == s.threads[t := pc]
    ensures StepsLeft(s') == StepsLeft(s) - Left(s.threads[t]) + Left(pc)
  {
    SumUpdate(AllLeft(s.threads), t, Left(pc));
    assert AllLeft(s'.threads) == AllLeft(s.threads)[t := Left(pc)];
  }

  /** A step moves its thread, to a place nearer the end. */
  ghost predicate Nears(s: Server, s': Server, t: Tid)
    requires t in s.threads
  {
    t in s'.threads && s'.threads == s.threads[t := s'.threads[t]] && Left(s'.threads[t]) < Left(s.threads[t])
  }

  lemma FewerReadings(p: Poll, id: Text)
    requires id in p.todo
    ensures |(p.todo - {id})| == |p.todo| - 1
  {
    assert (p.todo - {id}).Keys == p.todo.Keys - {id};
  }

  lemma GetNears(s: Server, t: Tid, id: Text)
    requires Enabled(s, t, PollGet(id))
    ensures Nears(s, Do(s, t, PollGet(id)), t)
  {
    FewerReadings(s.threads[t].poll, id);
  }

  lemma CreateNears(s: Server, t: Tid, u: User, saved: bool)
    requires t in s.threads && s.threads[t] == CreateCall
    ensures Nears(s, DoCreate(s, t, u, saved), t)
  {
  }

  lemma DeleteNears(s: Server, t: Tid, id: Text, saved: bool)
    requires t in s.threads && s.threads[t] == DeleteCall(id)
    ensures Nears(s, DoDelete(s, t, id, saved), t)
  {
  }

  lemma SetUsageNears(s: Server, t: Tid, p: Poll, id: Text, bytes: int, before: User, saved: bool)
    requires t in s.threads && s.threads[t] == PollSet(p, id, bytes, before)
    ensures Nears(s, DoSetUsage(s, t, p, id, bytes, before, saved), t)
  {
  }

  lemma RollbackNears(s: Server, t: Tid, id: Text, saved: bool)
    requires t in s.threads && s.threads[t] == Rollback(id)
    ensures Nears(s, DoRollback(s, t, id, saved), t)
  {
  }

  lemma ApplyNears(s: Server, t: Tid, c: Caller, clients: map<Text, Text>, r: ApplyResult)
    requires t in s.threads && s.threads[t] == Listed(c, clients)
    ensures Nears(s, DoApply(s, t, c, clients, r), t)
  {
  }

  lemma OtherNears(s: Server, t: Tid, a: Action)
    requires Enabled(s, t, a)
    requires a.PollGetAgain? || a.PollLeaveLoop? || a.Lock? || a.List? || a.Unlock? || a.PollReturn?
    ensures Nears(s, Do(s, t, a), t)
  {
  }

  lemma StepNears(s: Server, t: Tid, a: Action)
    requires Enabled(s, t, a) && !a.Arrive?
    ensures Nears(s, Do(s, t, a), t)
  {
    var pc := s.threads[t];
    match a
    case PollGet(id) => GetNears(s, t, id);
    case StoreCreate(u, saved) => CreateNears(s, t, u, saved);
    case StoreDelete(saved) => DeleteNears(s, t, pc.id, saved);
    case StoreSetUsage(saved) => SetUsageNears(s, t, pc.poll, pc.id, pc.bytes, pc.before, saved);
    case StoreRollback(saved) => RollbackNears(s, t, pc.id, saved);
    case Apply(r) => ApplyNears(s, t, pc.caller, pc.clients, r);
    case _ => OtherNears(s, t, a);
  }

  /** Every step of a request leaves fewer to take, whatever fails in it. */
  lemma StepProgress(s: Server, t: Tid, a: Action)
    requires Enabled(s, t, a) && !a.Arrive?
    ensures StepsLeft(Do(s, t, a)) < StepsLeft(s)
  {
    StepNears(s, t, a);
    Moved(s, Do(s, t, a), t, Do(s, t, a).threads[t]);
  }

  // ---- no state is stuck ----

  lemma {:induction false} LongerId(ids: set<Text>) returns (x: Text)
    ensures forall y :: y in ids ==> |y| < |x|
    decreases |ids|
  {
    if ids == {} {
      x := [];
    } else {
      var y :| y in ids;
      var longer := LongerId(ids - {y});
      x := longer + y + ['-'];
    }
  }

  /** A step of a request in which nothing fails. */
  ghost predicate CanStep(s: Server, t: Tid, a: Action) {
    Enabled(s, t, a) && !a.Arrive? && Do(s, t, a).faults == s.faults
  }

  lemma StoreSteps(s: Server, t: Tid) returns (a: Action)
    requires t in s.threads
    requires var pc := s.threads[t]; pc.CreateCall? || pc.DeleteCall? || pc.PollSet? || pc.Rollback?
    ensures CanStep(s, t, a)
  {
    match s.threads[t]
    case CreateCall =>
      var id := LongerId(s.issued);
      a := StoreCreate(NewUser(id, [], [], 0.0, 0), true);
    case DeleteCall(_) => a := StoreDelete(true);
    case PollSet(_, _, _, _) => a := StoreSetUsage(true);
    case Rollback(_) => a := StoreRollback(true);
  }

  lemma PollSteps(s: Server, t: Tid) returns (a: Action)
    requires t in s.threads
    requires var pc := s.threads[t]; pc.PollLoop? || pc.PollRecheck? || pc.PollEnd?
    ensures CanStep(s, t, a)
  {
    match s.threads[t]
    case PollLoop(p) =>
      if p.todo == map[] {
        a := PollLeaveLoop;
      } else {
        var id :| id in p.todo;
        a := PollGet(id);
      }
    case PollRecheck(_, _, _) => a := PollGetAgain;
    case PollEnd(_, _) => a := PollReturn;
  }

  lemma RebuildSteps(s: Server, t: Tid) returns (a: Action)
    requires t in s.threads
    requires InRebuild(s.threads[t]) || (s.threads[t].Waiting? && s.mutex == None)
    ensures CanStep(s, t, a)
  {
    match s.threads[t]
    case Waiting(_) => a := Lock;
    case Locked(_) => a := List;
    case Listed(_, _) => a := Apply(Running);
    case Applied(_, _) => a := Unlock;
  }

  /** Unless it is idle, some request can step: one that waits for the mutex is behind its holder,
      who never waits. */
  lemma NeverStuck(s: Server) returns (t: Tid, a: Action)
    requires MutexHeld(s) && !Idle(s)
    ensures CanStep(s, t, a)
  {
    t :| t in s.threads && !Finished(s.threads[t]);
    match s.threads[t]
    case Waiting(_) =>
      if s.mutex.Some? { t := s.mutex.value; }
      a := RebuildSteps(s, t);
    case Locked(_) => a := RebuildSteps(s, t);
    case Listed(_, _) => a := RebuildSteps(s, t);
    case Applied(_, _) => a := RebuildSteps(s, t);
    case PollLoop(_) => a := PollSteps(s, t);
    case PollRecheck(_, _, _) => a := PollSteps(s, t);
    case PollEnd(_, _) => a := PollSteps(s, t);
    case _ => a := StoreSteps(s, t);
  }

  /** No request can step. */
  ghost predicate Settled(s: Server) {
    forall t, a :: Enabled(s, t, a) ==> a.Arrive?
  }

  /** The server settles exactly when every request has returned: no run deadlocks. */
  lemma SettledIffIdle(s0: Server, run: Run)
    requires Initial(s0) && Legal(s0, run)
    ensures Settled(End(s0, run)) <==> Idle(End(s0, run))
  {
    RunKeepsInvariant(s0, run);
    if !Idle(End(s0, run)) {
      var t, a := NeverStuck(End(s0, run));
    }
  }

  // ---- runs in which no further request arrives ----

  predicate NoArrivals(more: Run) {
    forall e :: e in more ==> !e.1.Arrive?
  }

  /** However the requests in flight interleave and whatever fails, they take no more steps than
      the measure says. */
  lemma {:induction false} StepsBounded(s0: Server, run: Run, more: Run)
    requires Legal(s0, run + more) && NoArrivals(more)
    ensures Legal(s0, run) && |more| <= StepsLeft(End(s0, run)) - StepsLeft(End(s0, run + more))
  {
    if more == [] {
      assert run + more == run;
    } else {
      var front, last := more[..|more| - 1], more[|more| - 1];
      assert (run + more)[..|run + more| - 1] == run + front;
      assert last in more;
      StepsBounded(s0, run, front);
      StepProgress(End(s0, run + front), last.0, last.1);
    }
  }

  lemma LeftNonNegative(s: Server)
    ensures StepsLeft(s) >= 0
    ensures StepsLeft(s) == 0 ==> Idle(s)
  {
    SumBounds(AllLeft(s.threads));
    if StepsLeft(s) == 0 {
      forall t | t in s.threads ensures Finished(s.threads[t]) { assert AllLeft(s.threads)[t] == 0; }
    }
  }

  /** Every debt is paid: once requests stop arriving, a run takes at most `StepsLeft` more steps
      whatever the schedule, a run that long or with no step left to take is idle, and unless
      something failed its core serves exactly the enabled users. */
  lemma DebtsArePaid(s0: Server, run: Run, more: Run)
    requires Initial(s0) && Legal(s0, run + more) && NoArrivals(more)
    ensures Legal(s0, run) && |more| <= StepsLeft(End(s0, run))
    ensures var s := End(s0, run + more);
      && (|more| == StepsLeft(End(s0, run)) ==> Settled(s))
      && (Settled(s) ==> Idle(s) && (s.faults == 0 ==> s.core == Active(s.users) && s.disk == s.users))
  {
    var s := End(s0, run + more);
    StepsBounded(s0, run, more);
    LeftNonNegative(s);
    SettledIffIdle(s0, run + more);
    if Settled(s) && s.faults == 0 { IdleServerIsCurrent(s0, run + more); }
  }

  /** `more` lets the requests in flight return, with nothing failing. */
  ghost predicate Finishes(s0: Server, run: Run, more: Run)
    requires Legal(s0, run)
  {
    && NoArrivals(more) && Legal(s0, run + more)
    && Idle(End(s0, run + more)) && End(s0, run + more).faults == End(s0, run).faults
  }

  lemma FinishesAfter(s0: Server, run: Run, t: Tid, a: Action, rest: Run)
    requires Legal(s0, run) && CanStep(End(s0, run), t, a)
    requires Legal(s0, run + [(t, a)]) && Finishes(s0, run + [(t, a)], rest)
    ensures Finishes(s0, run, [(t, a)] + rest)
  {
    Extend(s0, run, t, a);
    assert run + ([(t, a)] + rest) == run + [(t, a)] + rest;
  }

  lemma FaultlessFinish(s0: Server, run: Run) returns (more: Run)
    requires Initial(s0) && Legal(s0, run)
    ensures Finishes(s0, run, more)
    decreases StepsLeft(End(s0, run))
  {
    RunKeepsInvariant(s0, run);
    if Idle(End(s0, run)) {
      more := [];
      assert run + more == run;
    } else {
      var t, a := NeverStuck(End(s0, run));
      Extend(s0, run, t, a);
      StepProgress(End(s0, run), t, a);
      LeftNonNegative(End(s0, run));
      var rest := FaultlessFinish(s0, run + [(t, a)]);
      FinishesAfter(s0, run, t, a, rest);
      more := [(t, a)] + rest;
    }
  }

  /** From every reachable state the requests in flight can all return with nothing failing; if
      nothing had failed before, the core is then current. */
  lemma CanFinish(s0: Server, run: Run)
    requires Initial(s0) && Legal(s0, run)
    ensures exists more ::
      (Finishes(s0, run, more)
       && (End(s0, run).faults == 0 ==> End(s0, run + more).core == Active(End(s0, run + more).users)))
  {
    var more := FaultlessFinish(s0, run);
    if End(s0, run).faults == 0 { IdleServerIsCurrent(s0, run + more); }
  }
}
