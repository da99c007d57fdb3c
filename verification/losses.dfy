/** Exactly when a fault leaves the core serving someone it should not. */
module Losses {
  import opened Bytes
  import opened Accounts
  import opened Protocol
  import opened ProtocolProofs
  import opened ServerTheorems
  import opened CoreHistory

  // ---- what a run never undoes ----

  lemma {:induction false} AtEvolves(s0: Server, run: Run, i: nat, j: nat)
    requires Initial(s0) && Legal(s0, run) && i <= j <= |run|
    ensures Evolves(At(s0, run, i), At(s0, run, j))
    decreases j - i
  {
    AtKeepsInvariant(s0, run, i);
    if i < j {
      AtEvolves(s0, run, i, j - 1);
      AtKeepsInvariant(s0, run, j - 1);
      AtStep(s0, run, j - 1);
      StepEvolves(At(s0, run, j - 1), run[j - 1].0, run[j - 1].1);
      EvolvesFurther(At(s0, run, i), At(s0, run, j - 1), At(s0, run, j));
    }
  }

  lemma EvolvesFurther(a: Server, b: Server, c: Server)
    requires Evolves(a, b) && Evolves(b, c) && IdsFresh(a)
    ensures Evolves(a, c)
  {
    forall x | x in a.users ensures x in c.users || Removed(c, x) {
      assert x in b.users || Removed(b, x);
    }
  }

  /** An id once issued and inactive, or gone, stays so. */
  lemma StaysGone(s0: Server, run: Run, i: nat, j: nat, x: Text)
    requires Initial(s0) && Legal(s0, run) && i <= j <= |run| && x in At(s0, run, i).issued
    ensures x !in Active(At(s0, run, i).users) ==> x !in Active(At(s0, run, j).users)
    ensures x !in At(s0, run, i).users ==> x !in At(s0, run, j).users
  {
    AtEvolves(s0, run, i, j);
  }

  predicate Faulty(s: Server, t: Tid, a: Action)
    requires Enabled(s, t, a)
  {
    Do(s, t, a).faults > s.faults
  }

  /** With one fault in the run, every other step is free of them. */
  lemma OneFault(s0: Server, run: Run, i: nat, n: nat)
    requires Initial(s0) && Legal(s0, run) && End(s0, run).faults == 1
    requires i < |run| && n < |run| && n != i
    requires At(s0, run, i + 1).faults > At(s0, run, i).faults
    ensures At(s0, run, n + 1).faults == At(s0, run, n).faults
    ensures At(s0, run, i).faults == 0 && At(s0, run, i + 1).faults == 1
  {
    var a, b := if i < n then i else n, if i < n then n else i;
    AtEvolves(s0, run, 0, a);
    AtEvolves(s0, run, a, a + 1);
    AtEvolves(s0, run, a + 1, b);
    AtEvolves(s0, run, b, b + 1);
    AtEvolves(s0, run, b + 1, |run|);
  }

  // ---- an unsaved crossing ----

  /** Already served, or about to be looked at by a rebuild. */
  ghost predicate ServedOrOwed(s: Server, x: Text) {
    x in Target(s) || SomeoneOwes(s, x)
  }

  /** No rebuild has failed. */
  ghost predicate NoFailedRebuild(s: Server) {
    forall t :: t in s.threads ==> !s.threads[t].Rollback? && (s.threads[t].Applied? ==> s.threads[t].ok)
  }

  lemma TargetStays(s: Server, t: Tid, a: Action)
    requires MutexHeld(s) && Enabled(s, t, a) && a != List && (a.Apply? ==> a.result == Running)
    ensures Target(Do(s, t, a)) == Target(s)
  {
    if IsRebuild(a) { RebuildStep(s, t, a); } else { OthersAside(s, t, a); }
  }

  lemma OnlyDeleteRemoves(s: Server, t: Tid, a: Action, x: Text)
    requires Enabled(s, t, a) && !Faulty(s, t, a) && !a.StoreRollback?
    requires x in s.users && x !in Do(s, t, a).users
    ensures a.StoreDelete? && Do(s, t, a).threads[t] == Waiting(FromDelete)
  {
    if a.StoreSetUsage? {
      var pc := s.threads[t];
      SetUsageKeeps(s, t, pc.poll, pc.id, pc.bytes, pc.before, a.saved, x);
    } else if a.StoreDelete? {
      DeleteRemoves(s, t, s.threads[t].id, a.saved, x);
    } else {
      UsersKept(s, t, a, x);
    }
  }

  lemma UsersKept(s: Server, t: Tid, a: Action, x: Text)
    requires Enabled(s, t, a) && x in s.users
    requires !a.StoreDelete? && !a.StoreSetUsage? && !a.StoreRollback?
    ensures x in Do(s, t, a).users
  {
    if a.StoreCreate? { CreateKeeps(s, t, a.user, a.saved, x); } else { UsersStay(s, t, a); }
  }

  lemma UsersStay(s: Server, t: Tid, a: Action)
    requires Enabled(s, t, a)
    requires !a.StoreCreate? && !a.StoreDelete? && !a.StoreSetUsage? && !a.StoreRollback?
    ensures Do(s, t, a).users == s.users
  {
  }

  lemma CreateKeeps(s: Server, t: Tid, u: User, saved: bool, x: Text)
    ensures x in s.users ==> x in DoCreate(s, t, u, saved).users
  {
  }

  lemma SetUsageKeeps(s: Server, t: Tid, p: Poll, id: Text, bytes: int, before: User, saved: bool, x: Text)
    ensures x in s.users ==> x in DoSetUsage(s, t, p, id, bytes, before, saved).users
  {
  }

  lemma DeleteRemoves(s: Server, t: Tid, id: Text, saved: bool, x: Text)
    requires x in s.users && x !in DoDelete(s, t, id, saved).users && DoDelete(s, t, id, saved).faults == s.faults
    ensures DoDelete(s, t, id, saved).threads[t] == Waiting(FromDelete)
  {
  }

  /** A debt of another thread outlives the step, or passes to a delete. */
  lemma OwedByOther(s: Server, t: Tid, a: Action, w: Tid, x: Text)
    requires IdsFresh(s) && NoFailedRebuild(s) && Enabled(s, t, a) && !Faulty(s, t, a)
    requires w in s.threads && w != t && Owes(s.users, s.threads[w], x)
    ensures SomeoneOwes(Do(s, t, a), x)
  {
    var s' := Do(s, t, a);
    StepMoves(s, t, a);
    StepEvolves(s, t, a);
    if x in s.users && x !in s'.users {
      OnlyDeleteRemoves(s, t, a, x);
      assert Owes(s'.users, s'.threads[t], x);
    } else {
      assert Owes(s'.users, s'.threads[w], x);
    }
  }

  lemma OwedBySetter(s: Server, t: Tid, p: Poll, id: Text, bytes: int, before: User, saved: bool, x: Text)
    requires p.limitHit
    ensures Owes(DoSetUsage(s, t, p, id, bytes, before, saved).users,
                 DoSetUsage(s, t, p, id, bytes, before, saved).threads[t], x)
  {
  }

  /** A thread that owes a rebuild goes on owing it until it lists. */
  lemma OwedByMover(s: Server, t: Tid, a: Action, x: Text)
    requires Enabled(s, t, a) && a != List && t in s.threads && Owes(s.users, s.threads[t], x)
    ensures t in Do(s, t, a).threads && Owes(Do(s, t, a).users, Do(s, t, a).threads[t], x)
  {
    var pc := s.threads[t];
    match a
    case StoreSetUsage(saved) => OwedBySetter(s, t, pc.poll, pc.id, pc.bytes, pc.before, saved, x);
    case _ =>
  }

  lemma NoFailureStep(s: Server, t: Tid, a: Action)
    requires NoFailedRebuild(s) && Enabled(s, t, a) && !Faulty(s, t, a)
    ensures NoFailedRebuild(Do(s, t, a))
    ensures a.Apply? ==> a.result == Running
  {
    var s' := Do(s, t, a);
    StepMoves(s, t, a);
    if a.Apply? { ApplyFaults(s, t, s.threads[t].caller, s.threads[t].clients, a.result); }
    assert !s'.threads[t].Rollback? && (s'.threads[t].Applied? ==> s'.threads[t].ok);
  }

  lemma ApplyFaults(s: Server, t: Tid, c: Caller, clients: map<Text, Text>, r: ApplyResult)
    ensures var s' := DoApply(s, t, c, clients, r);
      && s'.threads[t] == Applied(c, r == Running) && s'.faults == if r == Running then s.faults else s.faults + 1
  {
  }

  lemma StepKeepsServed(s: Server, t: Tid, a: Action, x: Text)
    requires MutexHeld(s) && IdsFresh(s) && NoFailedRebuild(s) && Enabled(s, t, a) && a != List && !Faulty(s, t, a)
    requires ServedOrOwed(s, x)
    ensures ServedOrOwed(Do(s, t, a), x)
  {
    NoFailureStep(s, t, a);
    TargetStays(s, t, a);
    if x !in Target(s) {
      var w :| w in s.threads && Owes(s.users, s.threads[w], x);
      if w == t { OwedByMover(s, t, a, x); } else { OwedByOther(s, t, a, w, x); }
    }
  }

  /** From step `i` on, no listing and no fault: whoever was served or owed a rebuild still is. */
  lemma {:induction false} ServedUntilListed(s0: Server, run: Run, i: nat, j: nat, x: Text)
    requires Initial(s0) && Legal(s0, run) && i <= j <= |run|
    requires NoFailedRebuild(At(s0, run, i)) && ServedOrOwed(At(s0, run, i), x)
    requires forall n :: i <= n < j ==> run[n].1 != List && At(s0, run, n + 1).faults == At(s0, run, n).faults
    ensures NoFailedRebuild(At(s0, run, j)) && ServedOrOwed(At(s0, run, j), x)
    decreases j - i
  {
    if i < j {
      ServedUntilListed(s0, run, i, j - 1, x);
      AtKeepsInvariant(s0, run, j - 1);
      AtStep(s0, run, j - 1);
      NoFailureStep(At(s0, run, j - 1), run[j - 1].0, run[j - 1].1);
      StepKeepsServed(At(s0, run, j - 1), run[j - 1].0, run[j - 1].1, x);
    }
  }

  /** Step `i` turns `x` off in memory and fails to save it. */
  predicate UnsavedCrossing(s0: Server, run: Run, i: nat, x: Text)
    requires Legal(s0, run)
  {
    i < |run| && run[i].1 == StoreSetUsage(false) &&
    var s, t := At(s0, run, i), run[i].0;
    && t in s.threads && s.threads[t].PollSet? && s.threads[t].id == x
    && TurnsOff(s.users, x, s.threads[t].bytes)
  }

  lemma CrossingStep(s: Server, t: Tid, p: Poll, x: Text, bytes: int, before: User)
    requires t in s.threads && s.threads[t] == PollSet(p, x, bytes, before) && TurnsOff(s.users, x, bytes)
    requires Invariant(s) && s.faults == 0
    ensures var s' := DoSetUsage(s, t, p, x, bytes, before, false);
      s'.faults == 1 && x !in Active(s'.users) && x in s'.issued && ServedOrOwed(s', x) && NoFailedRebuild(s')
  {
    var s' := DoSetUsage(s, t, p, x, bytes, before, false);
    assert forall w :: w in s.threads ==> ThreadOk(s, s.threads[w]);
    SetUsageAside(s, t, p, x, bytes, before, false);
    if x !in Target(s) {
      assert Differ(Target(s), Active(s.users), x);
      var w :| w in s.threads && Owes(s.users, s.threads[w], x);
      assert Owes(s'.users, s'.threads[w], x);
    } else {
      assert Target(s') == Target(s);
    }
  }

  lemma CrossingFault(s0: Server, run: Run, i: nat, x: Text)
    requires Initial(s0) && Legal(s0, run) && UnsavedCrossing(s0, run, i, x) && End(s0, run).faults == 1
    ensures At(s0, run, i + 1).faults > At(s0, run, i).faults
    ensures var s' := At(s0, run, i + 1);
      x !in Active(s'.users) && x in s'.issued && ServedOrOwed(s', x) && NoFailedRebuild(s')
  {
    AtStep(s0, run, i);
    AtKeepsInvariant(s0, run, i);
    AtEvolves(s0, run, 0, i);
    AtEvolves(s0, run, i + 1, |run|);
    var s, pc := At(s0, run, i), At(s0, run, i).threads[run[i].0];
    ReadingFaults(s, run[i].0, pc.poll, x, pc.bytes, pc.before);
    CrossingStep(s, run[i].0, pc.poll, x, pc.bytes, pc.before);
  }

  lemma ReadingFaults(s: Server, t: Tid, p: Poll, x: Text, bytes: int, before: User)
    requires x in s.users
    ensures DoSetUsage(s, t, p, x, bytes, before, false).faults == s.faults + 1
  {
  }

  lemma NeverListed(s0: Server, run: Run, i: nat, x: Text)
    requires Initial(s0) && Legal(s0, run) && Idle(End(s0, run)) && End(s0, run).faults == 1
    requires UnsavedCrossing(s0, run, i, x) && forall n :: i < n < |run| ==> run[n].1 != List
    ensures x in End(s0, run).core
  {
    CrossingFault(s0, run, i, x);
    forall n | i < n < |run| ensures At(s0, run, n + 1).faults == At(s0, run, n).faults {
      OneFault(s0, run, i, n);
    }
    ServedUntilListed(s0, run, i + 1, |run|, x);
    RunKeepsInvariant(s0, run);
    IdleTarget(End(s0, run));
  }

  /** In a run whose one fault is that write, an idle server still serves the disabled user if and
      only if no rebuild has listed the store since. */
  lemma UnsavedCrossingLostIff(s0: Server, run: Run, i: nat, x: Text)
    requires Initial(s0) && Legal(s0, run) && Idle(End(s0, run)) && End(s0, run).faults == 1
    requires UnsavedCrossing(s0, run, i, x)
    ensures x !in Active(End(s0, run).users)
    ensures x in End(s0, run).core <==> forall n :: i < n < |run| ==> run[n].1 != List
  {
    CrossingFault(s0, run, i, x);
    StaysGone(s0, run, i + 1, |run|, x);
    if forall n :: i < n < |run| ==> run[n].1 != List {
      NeverListed(s0, run, i, x);
    } else {
      var n :| i < n < |run| && run[n].1 == List;
      ListedSince(s0, run, i, n, x);
    }
  }

  lemma NoApplyFails(s0: Server, run: Run, i: nat)
    requires Initial(s0) && Legal(s0, run) && End(s0, run).faults == 1
    requires i < |run| && run[i].1.StoreSetUsage? && At(s0, run, i + 1).faults > At(s0, run, i).faults
    ensures OnlyDoomedFail(run, {})
  {
    forall n | 0 <= n < |run| && run[n].1.Apply? ensures run[n].1.result == Running {
      OneFault(s0, run, i, n);
      AtStep(s0, run, n);
      var s, t := At(s0, run, n), run[n].0;
      ApplyFaults(s, t, s.threads[t].caller, s.threads[t].clients, run[n].1.result);
    }
  }

  lemma {:induction false} LastSoundSince(run: Run, n: nat)
    requires n < |run| && run[n].1 == List && OnlyDoomedFail(run, {})
    ensures LastSound(run, {}).Listing? && LastSound(run, {}).at >= n
  {
    var front, last := run[..|run| - 1], run[|run| - 1];
    assert last.1.Apply? ==> last.1.result == Running;
    if n < |front| { LastSoundSince(front, n); }
  }

  lemma ListedSince(s0: Server, run: Run, i: nat, n: nat, x: Text)
    requires Initial(s0) && Legal(s0, run) && Idle(End(s0, run)) && End(s0, run).faults == 1
    requires UnsavedCrossing(s0, run, i, x) && i < n < |run| && run[n].1 == List
    ensures x !in End(s0, run).core
  {
    CrossingFault(s0, run, i, x);
    NoApplyFails(s0, run, i);
    IdleSource(s0, run, {});
    CoreIsLastApplied(s0, run);
    LastSoundSince(run, n);
    StaysGone(s0, run, i + 1, SourceOf(run).at, x);
  }

  // ---- a rolled-back create ----

  /** This program counter belongs to a create of `x` past its write. */
  predicate Creates(pc: Pc, x: Text) {
    match pc
    case Waiting(c) => c == FromCreate(x)
    case Locked(c) => c == FromCreate(x)
    case Listed(c, _) => c == FromCreate(x)
    case Applied(c, _) => c == FromCreate(x)
    case Rollback(id) => id == x
    case _ => false
  }

  predicate CreatedAt(run: Run, t: Tid, x: Text, c: nat) {
    c < |run| && run[c].0 == t && run[c].1.StoreCreate? && run[c].1.user.id == x
  }

  lemma StoreNotCreates(s: Server, t: Tid, a: Action, x: Text)
    requires Enabled(s, t, a) && (a.StoreDelete? || a.StoreSetUsage? || a.StoreRollback?)
    ensures !Creates(Do(s, t, a).threads[t], x)
  {
    var pc := s.threads[t];
    match a
    case StoreDelete(saved) => assert !Creates(DoDelete(s, t, pc.id, saved).threads[t], x);
    case StoreSetUsage(saved) =>
      assert !Creates(DoSetUsage(s, t, pc.poll, pc.id, pc.bytes, pc.before, saved).threads[t], x);
    case StoreRollback(saved) => assert !Creates(DoRollback(s, t, pc.id, saved).threads[t], x);
  }

  lemma PollNotCreates(s: Server, t: Tid, a: Action, x: Text)
    requires Enabled(s, t, a) && (a.Arrive? || a.PollGet? || a.PollGetAgain? || a.PollLeaveLoop? || a.PollReturn?)
    ensures !Creates(Do(s, t, a).threads[t], x)
  {
  }

  lemma RebuildCreates(s: Server, t: Tid, a: Action, x: Text)
    requires Enabled(s, t, a) && IsRebuild(a) && Creates(Do(s, t, a).threads[t], x)
    ensures Creates(s.threads[t], x)
  {
    if a.Apply? { ApplyFaults(s, t, s.threads[t].caller, s.threads[t].clients, a.result); }
  }

  lemma CreatesStep(s: Server, t: Tid, a: Action, x: Text)
    requires Enabled(s, t, a) && t in Do(s, t, a).threads && Creates(Do(s, t, a).threads[t], x)
    ensures (t in s.threads && Creates(s.threads[t], x)) || (a.StoreCreate? && a.user.id == x)
  {
    if IsRebuild(a) {
      RebuildCreates(s, t, a, x);
    } else if a.StoreDelete? || a.StoreSetUsage? || a.StoreRollback? {
      StoreNotCreates(s, t, a, x);
    } else if !a.StoreCreate? {
      PollNotCreates(s, t, a, x);
    }
  }

  lemma {:induction false} WasCreated(s0: Server, run: Run, t: Tid, x: Text) returns (c: nat)
    requires Initial(s0) && Legal(s0, run) && t in End(s0, run).threads && Creates(End(s0, run).threads[t], x)
    ensures CreatedAt(run, t, x, c)
  {
    var front, last := run[..|run| - 1], run[|run| - 1];
    if last.0 == t && last.1.StoreCreate? && last.1.user.id == x { return |run| - 1; }
    StepMoves(End(s0, front), last.0, last.1);
    if last.0 == t { CreatesStep(End(s0, front), t, last.1, x); }
    c := WasCreated(s0, front, t, x);
  }

  /** Thread `t` is about to take the account it created back out. */
  predicate RollsBack(s0: Server, run: Run, t: Tid, b: nat, x: Text)
    requires Legal(s0, run)
  {
    b < |run| && run[b].0 == t && run[b].1.StoreRollback? &&
    t in At(s0, run, b).threads && At(s0, run, b).threads[t] == Rollback(x)
  }

  lemma {:induction false} PrefixAt(s0: Server, run: Run, b: nat)
    requires Legal(s0, run) && b <= |run|
    ensures Legal(s0, run[..b]) && At(s0, run, b) == End(s0, run[..b])
    decreases |run|
  {
    if b == |run| {
      assert run[..b] == run;
    } else {
      PrefixAt(s0, run[..|run| - 1], b);
      assert run[..|run| - 1][..b] == run[..b];
    }
  }

  /** The account did not exist before its create, and does not after the rollback. */
  lemma LivesBetween(s0: Server, run: Run, t: Tid, b: nat, x: Text) returns (c: nat)
    requires Initial(s0) && Legal(s0, run) && RollsBack(s0, run, t, b, x)
    ensures CreatedAt(run, t, x, c) && c < b
    ensures forall j :: 0 <= j <= |run| && x in At(s0, run, j).users ==> c < j <= b
  {
    PrefixAt(s0, run, b);
    c := WasCreated(s0, run[..b], t, x);
    AtStep(s0, run, c);
    AtStep(s0, run, b);
    RollbackRemoves(At(s0, run, b), t, x, run[b].1.saved);
    forall j | 0 <= j <= |run| && x in At(s0, run, j).users ensures c < j <= b {
      AtKeepsInvariant(s0, run, j);
      if j <= c { AtEvolves(s0, run, j, c); }
      if j > b {
        AtKeepsInvariant(s0, run, b);
        IssuedByCreate(s0, run, c, b, x);
        StaysGone(s0, run, b + 1, j, x);
      }
    }
  }

  lemma RollbackRemoves(s: Server, t: Tid, x: Text, saved: bool)
    ensures x !in DoRollback(s, t, x, saved).users && DoRollback(s, t, x, saved).issued == s.issued
  {
  }

  lemma IssuedByCreate(s0: Server, run: Run, c: nat, b: nat, x: Text)
    requires Initial(s0) && Legal(s0, run) && c < b < |run| && run[c].1.StoreCreate? && run[c].1.user.id == x
    ensures x in At(s0, run, b).issued && x in At(s0, run, b + 1).issued
  {
    AtStep(s0, run, c);
    AtEvolves(s0, run, c + 1, b);
    AtEvolves(s0, run, b, b + 1);
  }

  /** `j` is the last listing of another request, it saw `x` enabled, and the core did not go
      down since. */
  predicate LeftBy(s0: Server, run: Run, t: Tid, j: nat, x: Text)
    requires Legal(s0, run)
  {
    IsLastSound(run, {t}, j) && x in Active(At(s0, run, j).users)
  }

  /** In a run whose failing Applies are those of one create, an idle core is left with the
      account that create rolled back if and only if the last listing of any other request saw it
      enabled; that listing then fell between the create and the rollback. */
  lemma RollbackLeavesClientIff(s0: Server, run: Run, t: Tid, b: nat, x: Text)
    requires Initial(s0) && Legal(s0, run) && Idle(End(s0, run)) && RollsBack(s0, run, t, b, x)
    requires OnlyDoomedFail(run, {t})
    ensures x !in End(s0, run).users
    ensures x in End(s0, run).core <==> exists j: nat :: LeftBy(s0, run, t, j, x)
    ensures forall j: nat :: LeftBy(s0, run, t, j, x) ==> j < b && exists c: nat :: CreatedAt(run, t, x, c) && c < j
  {
    var c := LivesBetween(s0, run, t, b, x);
    var src := SourceOf(run);
    assert At(s0, run, |run|) == End(s0, run);
    IdleSource(s0, run, {t});
    CoreIsLastApplied(s0, run);
    forall j: nat | LeftBy(s0, run, t, j, x) ensures src == Listing(j) && c < j < b {
      LastSoundIsLast(run, {t}, j);
      assert run[j].1 == List;
    }
    if src.Listing? { LastSoundIsLast(run, {t}, src.at); }
    NotInitially(s0, run, c, x);
    if x in End(s0, run).core {
      assert LeftBy(s0, run, t, src.at, x);
    }
  }

  /** With any other failures, at any later moment: the account is in the core exactly when the
      listing it shows saw it enabled. */
  lemma LeftoverSource(s0: Server, run: Run, t: Tid, b: nat, x: Text)
    requires Initial(s0) && Legal(s0, run) && RollsBack(s0, run, t, b, x)
    ensures x !in End(s0, run).users
    ensures x in End(s0, run).core <==>
      SourceOf(run).Listing? && x in Active(At(s0, run, SourceOf(run).at).users)
  {
    var c := LivesBetween(s0, run, t, b, x);
    assert At(s0, run, |run|) == End(s0, run);
    CoreIsLastApplied(s0, run);
    NotInitially(s0, run, c, x);
  }

  lemma NotInitially(s0: Server, run: Run, c: nat, x: Text)
    requires Initial(s0) && Legal(s0, run) && c < |run| && run[c].1.StoreCreate? && run[c].1.user.id == x
    ensures x !in s0.core
  {
    AtStep(s0, run, c);
    AtEvolves(s0, run, 0, c);
    PrefixAt(s0, run, 0);
  }

  /** Whatever failed before, at every reachable rollback: the account leaves the store and not the
      core, no rebuild is owed for it by this request, and core and store then differ at it exactly
      when the core, or the rebuild in progress, has it. */
  lemma RollbackStep(s: Server, t: Tid, x: Text, saved: bool)
    requires Invariant(s) && t in s.threads && s.threads[t] == Rollback(x)
    ensures var s' := Do(s, t, StoreRollback(saved));
      && x !in s'.users && s'.core == s.core && Target(s') == Target(s)
      && !Owes(s'.users, s'.threads[t], x)
      && (Differ(Target(s'), Active(s'.users), x) <==> x in Target(s))
      && (Idle(s') ==> (Differ(s'.core, Active(s'.users), x) <==> x in s.core))
  {
    RollbackAside(s, t, x, saved);
    RollbackRemoves(s, t, x, saved);
  }
}
