/** What the requests of a run did: the accounts a create adds and a delete removes, what becomes of
    a record in between, and what each outcome promises. Everything is read off the steps of the
    run and the servers between them. */
module Requests {
  import opened Bytes
  import opened Accounts
  import opened Protocol
  import opened ProtocolProofs
  import opened ServerTheorems
  import opened CoreHistory
  import opened Losses

  // ---- one record through a run ----

  /** The removal, and the reading, of `x` that a step is. */
  predicate Removing(s: Server, t: Tid, a: Action, x: Text) {
    t in s.threads && ((a.StoreDelete? && s.threads[t] == DeleteCall(x)) || (a.StoreRollback? && s.threads[t] == Rollback(x)))
  }

  function Reading(s: Server, t: Tid, a: Action, x: Text): Option<int> {
    if a.StoreSetUsage? && t in s.threads && s.threads[t].PollSet? && s.threads[t].id == x
    then Some(s.threads[t].bytes) else None
  }

  predicate RemovedAt(s0: Server, run: Run, n: nat, x: Text)
    requires Legal(s0, run) && n < |run|
  {
    Removing(At(s0, run, n), run[n].0, run[n].1, x)
  }

  function ReadAt(s0: Server, run: Run, n: nat, x: Text): Option<int>
    requires Legal(s0, run) && n < |run|
  {
    Reading(At(s0, run, n), run[n].0, run[n].1, x)
  }

  /** The readings of `x` from step `i` on. */
  function ReadingsSince(s0: Server, run: Run, i: nat, x: Text): seq<int>
    requires Legal(s0, run)
  {
    if |run| <= i then []
    else
      var n := |run| - 1;
      ReadingsSince(s0, run[..n], i, x) + match ReadAt(s0, run, n, x) case None => [] case Some(bytes) => [bytes]
  }

  /** What the step makes of a record. */
  ghost predicate RecordMoves(s: Server, s': Server, x: Text, removed: bool, reading: Option<int>)
    requires x in s.users
  {
    && (x in s'.users <==> !removed)
    && (x in s'.users ==> s'.users[x] == if reading.Some? then WithUsage(s.users[x], reading.value) else s.users[x])
  }

  lemma CreateMoves(s: Server, t: Tid, u: User, saved: bool, x: Text)
    requires x in s.users && x != u.id
    ensures RecordMoves(s, DoCreate(s, t, u, saved), x, false, None)
  {
  }

  lemma DeleteMoves(s: Server, t: Tid, id: Text, saved: bool, x: Text)
    requires x in s.users
    ensures RecordMoves(s, DoDelete(s, t, id, saved), x, id == x, None)
  {
  }

  lemma RollbackMoves(s: Server, t: Tid, id: Text, saved: bool, x: Text)
    requires x in s.users
    ensures RecordMoves(s, DoRollback(s, t, id, saved), x, id == x, None)
  {
  }

  lemma SetUsageMoves(s: Server, t: Tid, p: Poll, id: Text, bytes: int, before: User, saved: bool, x: Text)
    requires x in s.users
    ensures RecordMoves(s, DoSetUsage(s, t, p, id, bytes, before, saved), x, false, if id == x then Some(bytes) else None)
  {
  }

  lemma RemovalMoves(s: Server, t: Tid, a: Action, x: Text)
    requires Enabled(s, t, a) && x in s.users && (a.StoreDelete? || a.StoreRollback?)
    ensures RecordMoves(s, Do(s, t, a), x, Removing(s, t, a, x), None)
  {
    if a.StoreDelete? {
      DeleteMoves(s, t, s.threads[t].id, a.saved, x);
    } else {
      RollbackMoves(s, t, s.threads[t].id, a.saved, x);
    }
  }

  lemma StepMovesRecord(s: Server, t: Tid, a: Action, x: Text)
    requires IdsFresh(s) && Enabled(s, t, a) && x in s.users
    ensures RecordMoves(s, Do(s, t, a), x, Removing(s, t, a, x), Reading(s, t, a, x))
  {
    if a.StoreCreate? {
      CreateMoves(s, t, a.user, a.saved, x);
    } else if a.StoreSetUsage? {
      var pc := s.threads[t];
      SetUsageMoves(s, t, pc.poll, pc.id, pc.bytes, pc.before, a.saved, x);
    } else if a.StoreDelete? || a.StoreRollback? {
      RemovalMoves(s, t, a, x);
    } else {
      UsersStay(s, t, a);
    }
  }

  lemma RecordStep(s0: Server, run: Run, x: Text)
    requires Initial(s0) && Legal(s0, run) && run != []
    requires x in At(s0, run, |run| - 1).users
    ensures var n := |run| - 1; var s := At(s0, run, n);
      RecordMoves(s, End(s0, run), x, RemovedAt(s0, run, n, x), ReadAt(s0, run, n, x))
  {
    var n := |run| - 1;
    AtKeepsInvariant(s0, run, n);
    AtStep(s0, run, n);
    StepMovesRecord(At(s0, run, n), run[n].0, run[n].1, x);
  }

  lemma HistoryStep(s0: Server, run: Run, i: nat, x: Text)
    requires Initial(s0) && Legal(s0, run) && i < |run| && x in At(s0, run, i).users
    requires var s := At(s0, run, |run| - 1);
      x in s.users && Follows(At(s0, run, i).users[x], s.users[x], ReadingsSince(s0, run[..|run| - 1], i, x))
    ensures x in End(s0, run).users <==> !RemovedAt(s0, run, |run| - 1, x)
    ensures x in End(s0, run).users ==>
      Follows(At(s0, run, i).users[x], End(s0, run).users[x], ReadingsSince(s0, run, i, x))
  {
    var n := |run| - 1;
    RecordStep(s0, run, x);
    if ReadAt(s0, run, n, x).Some? {
      OneMoreReading(At(s0, run, i).users[x], At(s0, run, n).users[x], ReadingsSince(s0, run[..n], i, x),
                     ReadAt(s0, run, n, x).value);
    } else {
      assert ReadingsSince(s0, run, i, x) == ReadingsSince(s0, run[..n], i, x);
    }
  }

  lemma RemovedStays(s0: Server, run: Run, i: nat, j: nat, x: Text)
    requires Initial(s0) && Legal(s0, run) && i <= j <= |run|
    requires x in At(s0, run, i).users && x !in At(s0, run, j).users
    ensures x !in End(s0, run).users
  {
    AtKeepsInvariant(s0, run, i);
    AtEvolves(s0, run, i, j);
    StaysGone(s0, run, j, |run|, x);
  }

  lemma SameRemovals(s0: Server, run: Run, i: nat, x: Text)
    requires Legal(s0, run) && run != []
    ensures var front := run[..|run| - 1];
      (forall m :: i <= m < |front| ==> !RemovedAt(s0, front, m, x))
      <==> (forall m :: i <= m < |front| ==> !RemovedAt(s0, run, m, x))
  {
    var front := run[..|run| - 1];
    assert forall m: nat :: m < |front| ==> (RemovedAt(s0, run, m, x) <==> RemovedAt(s0, front, m, x));
  }

  /** From any moment of any run: an account is still stored exactly when no delete or rollback has
      taken it out, and its record is then the old one but for the last reading and for the flag,
      which is up exactly when it was and no reading since has reached the limit. Nothing else in
      the run touches it, whatever is created, deleted or polled beside it and whatever fails. */
  lemma {:induction false} AccountHistory(s0: Server, run: Run, i: nat, x: Text)
    requires Initial(s0) && Legal(s0, run) && i <= |run| && x in At(s0, run, i).users
    ensures x in End(s0, run).users <==> forall n :: i <= n < |run| ==> !RemovedAt(s0, run, n, x)
    ensures x in End(s0, run).users ==>
      var u, w, rs := At(s0, run, i).users[x], End(s0, run).users[x], ReadingsSince(s0, run, i, x);
      && w == u.(usedBytes := w.usedBytes, enabled := w.enabled)
      && w.usedBytes == (if rs == [] then u.usedBytes else rs[|rs| - 1])
      && (w.enabled <==>
            u.enabled && forall r :: r in rs ==> u.limitGB <= 0.0 || r as real < u.limitGB * 1073741824.0)
    decreases |run|
  {
    if i < |run| {
      var front := run[..|run| - 1];
      AccountHistory(s0, front, i, x);
      SameRemovals(s0, run, i, x);
      if x in End(s0, front).users {
        HistoryStep(s0, run, i, x);
      } else {
        RemovedStays(s0, run, i, |run| - 1, x);
      }
    }
  }

  // ---- a thread keeps to its request ----

  function Front(run: Run): Run
    requires run != []
  {
    run[..|run| - 1]
  }

  function Last(run: Run): (Tid, Action)
    requires run != []
  {
    run[|run| - 1]
  }

  /** A thread is moved only by its own steps, and arrives once. */
  lemma ThreadStep(s: Server, t: Tid, a: Action, w: Tid)
    requires Enabled(s, t, a)
    ensures w != t ==> (w in Do(s, t, a).threads <==> w in s.threads)
    ensures w != t && w in s.threads ==> Do(s, t, a).threads[w] == s.threads[w]
    ensures t in Do(s, t, a).threads && (t in s.threads <==> !a.Arrive?)
  {
    StepMoves(s, t, a);
  }

  lemma NoNewCall(s: Server, t: Tid, a: Action)
    requires Enabled(s, t, a) && !a.Arrive?
    ensures t in Do(s, t, a).threads && !Do(s, t, a).threads[t].CreateCall? && !Do(s, t, a).threads[t].DeleteCall?
  {
    StepMoves(s, t, a);
    if a.StoreDelete? { DeleteLeaves(s, t, s.threads[t].id, a.saved); }
    if a.StoreSetUsage? {
      var pc := s.threads[t];
      SetUsageLeaves(s, t, pc.poll, pc.id, pc.bytes, pc.before, a.saved);
    }
  }

  lemma DeleteLeaves(s: Server, t: Tid, id: Text, saved: bool)
    ensures var s' := DoDelete(s, t, id, saved);
      t in s'.threads && s'.threads[t] ==
        if id !in s.users then Done(NoRebuild) else if saved then Waiting(FromDelete) else Done(Failed)
  {
  }

  lemma SetUsageLeaves(s: Server, t: Tid, p: Poll, id: Text, bytes: int, before: User, saved: bool)
    ensures var s' := DoSetUsage(s, t, p, id, bytes, before, saved);
      t in s'.threads && (s'.threads[t].PollLoop? || s'.threads[t].PollRecheck?)
  {
  }

  /** A delete request names one id for good. */
  lemma {:induction false} DeleteKeepsId(s0: Server, run: Run, k: nat, t: Tid, id: Text)
    requires Legal(s0, run) && k < |run| && run[k] == (t, Arrive(DeleteCall(id)))
    ensures t in End(s0, run).threads
    ensures End(s0, run).threads[t].DeleteCall? ==> End(s0, run).threads[t] == DeleteCall(id)
    decreases |run|
  {
    if k < |run| - 1 {
      var s, last := End(s0, Front(run)), Last(run);
      DeleteKeepsId(s0, Front(run), k, t, id);
      ThreadStep(s, last.0, last.1, t);
      if last.0 == t { NoNewCall(s, t, last.1); }
    }
  }

  // ---- what a finished rebuild has shown ----

  predicate IsStore(a: Action) { a.StoreCreate? || a.StoreDelete? || a.StoreSetUsage? || a.StoreRollback? }

  /** Step `n` is a listing of `t`, after every change of its own to the store. */
  predicate ListedAfter(run: Run, t: Tid, n: nat) {
    n < |run| && run[n] == (t, List) &&
    forall q :: 0 <= q < |run| && run[q].0 == t && IsStore(run[q].1) ==> q < n
  }

  /** Step `m` made the core serve the users enabled at step `n`. */
  predicate ShownAt(s0: Server, run: Run, t: Tid, n: nat, m: nat)
    requires Legal(s0, run)
  {
    && n < m < |run| && ListedAfter(run, t, n) && run[m] == (t, Apply(Running))
    && At(s0, run, m + 1).core == Active(At(s0, run, n).users)
  }

  ghost predicate Showed(s0: Server, run: Run, t: Tid)
    requires Legal(s0, run)
  {
    exists n: nat, m: nat :: ShownAt(s0, run, t, n, m)
  }

  predicate ListedAs(s0: Server, run: Run, t: Tid, n: nat, clients: map<Text, Text>)
    requires Legal(s0, run)
  {
    ListedAfter(run, t, n) && clients == Active(At(s0, run, n).users)
  }

  ghost predicate RebuildStands(s0: Server, run: Run, t: Tid, pc: Pc)
    requires Legal(s0, run)
  {
    match pc
    case Listed(_, clients) => exists n: nat :: ListedAs(s0, run, t, n, clients)
    case Applied(_, ok) => ok ==> Showed(s0, run, t)
    case PollEnd(_, rebuilt) => rebuilt ==> Showed(s0, run, t)
    case PollDone(_, rebuilt) => rebuilt ==> Showed(s0, run, t)
    case Done(o) => o == Rebuilt ==> Showed(s0, run, t)
    case _ => true
  }

  predicate NotStoredBy(e: (Tid, Action), t: Tid) { e.0 == t ==> !IsStore(e.1) }

  lemma ListedStays(s0: Server, run: Run, t: Tid, n: nat, clients: map<Text, Text>)
    requires Legal(s0, run) && run != [] && NotStoredBy(Last(run), t) && ListedAs(s0, Front(run), t, n, clients)
    ensures ListedAs(s0, run, t, n, clients)
  {
  }

  lemma ShownStays(s0: Server, run: Run, t: Tid, n: nat, m: nat)
    requires Legal(s0, run) && run != [] && NotStoredBy(Last(run), t) && ShownAt(s0, Front(run), t, n, m)
    ensures ShownAt(s0, run, t, n, m)
  {
    ListedStays(s0, run, t, n, Active(At(s0, Front(run), n).users));
    assert At(s0, run, m + 1) == At(s0, Front(run), m + 1);
  }

  lemma RebuildStays(s0: Server, run: Run, t: Tid, pc: Pc)
    requires Legal(s0, run) && run != [] && NotStoredBy(Last(run), t) && RebuildStands(s0, Front(run), t, pc)
    ensures RebuildStands(s0, run, t, pc)
  {
    if pc.Listed? {
      var n: nat :| ListedAs(s0, Front(run), t, n, pc.clients);
      ListedStays(s0, run, t, n, pc.clients);
    } else if Showed(s0, Front(run), t) {
      var n: nat, m: nat :| ShownAt(s0, Front(run), t, n, m);
      ShownStays(s0, run, t, n, m);
    }
  }

  lemma OwnList(s0: Server, run: Run, t: Tid)
    requires Legal(s0, run) && run != [] && Last(run) == (t, List)
    ensures t in End(s0, run).threads && RebuildStands(s0, run, t, End(s0, run).threads[t])
  {
    RebuildStep(End(s0, Front(run)), t, List);
    assert ListedAs(s0, run, t, |run| - 1, End(s0, run).threads[t].clients);
  }

  lemma OwnApply(s0: Server, run: Run, t: Tid, r: ApplyResult)
    requires Legal(s0, run) && run != [] && Last(run) == (t, Apply(r))
    requires t in End(s0, Front(run)).threads && RebuildStands(s0, Front(run), t, End(s0, Front(run)).threads[t])
    ensures t in End(s0, run).threads && RebuildStands(s0, run, t, End(s0, run).threads[t])
  {
    var s := End(s0, Front(run));
    var clients := s.threads[t].clients;
    ApplyFaults(s, t, s.threads[t].caller, clients, r);
    RebuildStep(s, t, Apply(r));
    if r == Running {
      var n: nat :| ListedAs(s0, Front(run), t, n, clients);
      ListedStays(s0, run, t, n, clients);
      assert At(s0, run, |run|) == End(s0, run);
      assert ShownAt(s0, run, t, n, |run| - 1);
    }
  }

  /** Steps after which a thread claims nothing about a rebuild, or what it claimed before. */
  lemma OtherOwn(s0: Server, run: Run, t: Tid)
    requires Legal(s0, run) && run != [] && Last(run).0 == t && Last(run).1 != List && !Last(run).1.Apply?
    requires t in End(s0, Front(run)).threads ==> RebuildStands(s0, Front(run), t, End(s0, Front(run)).threads[t])
    ensures t in End(s0, run).threads && RebuildStands(s0, run, t, End(s0, run).threads[t])
  {
    var s, a := End(s0, Front(run)), Last(run).1;
    StepMoves(s, t, a);
    if IsStore(a) {
      StoreClaimsNothing(s, t, a);
    } else if a == Unlock || a == PollReturn {
      RebuildStays(s0, run, t, s.threads[t]);
    }
  }

  lemma StoreClaimsNothing(s: Server, t: Tid, a: Action)
    requires Enabled(s, t, a) && IsStore(a)
    ensures t in Do(s, t, a).threads
    ensures var pc := Do(s, t, a).threads[t];
      pc.Waiting? || pc.PollLoop? || pc.PollRecheck? || (pc.Done? && pc.outcome != Rebuilt)
  {
    match a
    case StoreDelete(saved) => DeleteLeaves(s, t, s.threads[t].id, saved);
    case StoreSetUsage(saved) =>
      var pc := s.threads[t];
      SetUsageLeaves(s, t, pc.poll, pc.id, pc.bytes, pc.before, saved);
    case _ =>
  }

  /** A request that reports a rebuild has had one: after its own changes to the store it took a
      listing, and its Apply made the core serve exactly the users enabled then. */
  lemma {:induction false} RebuiltMeansShown(s0: Server, run: Run, t: Tid)
    requires Initial(s0) && Legal(s0, run) && t in End(s0, run).threads
    ensures RebuildStands(s0, run, t, End(s0, run).threads[t])
    decreases |run|
  {
    if run != [] {
      var s, last := End(s0, Front(run)), Last(run);
      ThreadStep(s, last.0, last.1, t);
      if t in s.threads { RebuiltMeansShown(s0, Front(run), t); }
      if last.0 != t {
        RebuildStays(s0, run, t, s.threads[t]);
      } else if last.1 == List {
        OwnList(s0, run, t);
      } else if last.1.Apply? {
        OwnApply(s0, run, t, last.1.result);
      } else {
        OtherOwn(s0, run, t);
      }
    }
  }

  /** Once a listing taken at step `n` has been applied, the core never goes back behind it. */
  lemma {:induction false} SourceSince(s0: Server, run: Run, n: nat, m: nat)
    requires n < m < |run| && run[n].1 == List && run[m].1 == Apply(Running)
    ensures SourceOf(run) == Down || (SourceOf(run).Listing? && SourceOf(run).at >= n)
    decreases |run|
  {
    if m < |run| - 1 { SourceSince(s0, Front(run), n, m); }
    LastListSince(Front(run), n);
  }

  lemma {:induction false} LastListSince(run: Run, n: nat)
    requires n < |run| && run[n].1 == List
    ensures LastList(run).Some? && LastList(run).value >= n
  {
    if n < |run| - 1 { LastListSince(Front(run), n); }
  }

  // ---- deletes ----

  /** What the delete's thread may still become, by whether the account was stored and the removal
      saved. */
  predicate DeleteFits(pc: Pc, stored: bool, saved: bool) {
    if !stored then pc == Done(NoRebuild) else if !saved then pc == Done(Failed) else DeleteRebuilds(pc)
  }

  lemma RebuildsOn(s: Server, t: Tid, a: Action)
    requires Enabled(s, t, a) && t in s.threads && DeleteRebuilds(s.threads[t])
    ensures t in Do(s, t, a).threads && DeleteRebuilds(Do(s, t, a).threads[t])
  {
    if a.Apply? { ApplyFaults(s, t, s.threads[t].caller, s.threads[t].clients, a.result); }
  }

  lemma DeleteFrom(s: Server, t: Tid, id: Text, saved: bool)
    requires t in s.threads && s.threads[t] == DeleteCall(id)
    ensures var s' := Do(s, t, StoreDelete(saved));
      t in s'.threads && DeleteFits(s'.threads[t], id in s.users, saved)
  {
    DeleteLeaves(s, t, id, saved);
  }

  lemma DeleteOn(s: Server, w: Tid, a: Action, t: Tid, stored: bool, saved: bool)
    requires Enabled(s, w, a) && t in s.threads && DeleteFits(s.threads[t], stored, saved)
    ensures t in Do(s, w, a).threads && DeleteFits(Do(s, w, a).threads[t], stored, saved)
  {
    ThreadStep(s, w, a, t);
    if w == t {
      assert !s.threads[t].Done?;
      RebuildsOn(s, t, a);
    }
  }

  lemma {:induction false} DeleteStands(s0: Server, run: Run, i: nat, t: Tid, id: Text, saved: bool)
    requires Legal(s0, run) && i < |run| && run[i] == (t, StoreDelete(saved))
    requires t in At(s0, run, i).threads && At(s0, run, i).threads[t] == DeleteCall(id)
    ensures t in End(s0, run).threads && DeleteFits(End(s0, run).threads[t], id in At(s0, run, i).users, saved)
    decreases |run|
  {
    var s := End(s0, Front(run));
    if i == |run| - 1 {
      DeleteFrom(s, t, id, saved);
    } else {
      DeleteStands(s0, Front(run), i, t, id, saved);
      DeleteOn(s, Last(run).0, Last(run).1, t, id in At(s0, Front(run), i).users, saved);
    }
  }

  lemma DeleteTakesOut(s: Server, t: Tid, id: Text, saved: bool)
    ensures var s' := DoDelete(s, t, id, saved);
      && id !in s'.users && s'.issued == s.issued && (id in s.users && saved ==> id !in s'.disk)
  {
  }

  /** The file follows the store or stays. */
  lemma DiskStep(s: Server, t: Tid, a: Action)
    requires Enabled(s, t, a)
    ensures Do(s, t, a).disk == s.disk || Do(s, t, a).disk == Do(s, t, a).users
  {
    if !a.Arrive? {
      var pc := s.threads[t];
      match a
      case StoreDelete(saved) => DeleteDisk(s, t, pc.id, saved);
      case StoreSetUsage(saved) => SetUsageDisk(s, t, pc.poll, pc.id, pc.bytes, pc.before, saved);
      case StoreRollback(saved) => RollbackDisk(s, t, pc.id, saved);
      case StoreCreate(u, saved) => CreateDisk(s, t, u, saved);
      case _ => DiskStays(s, t, a);
    }
  }

  lemma CreateDisk(s: Server, t: Tid, u: User, saved: bool)
    ensures var s' := DoCreate(s, t, u, saved); s'.disk == if saved then s'.users else s.disk
  {
  }

  lemma DeleteDisk(s: Server, t: Tid, id: Text, saved: bool)
    ensures var s' := DoDelete(s, t, id, saved); s'.disk == s.disk || s'.disk == s'.users
  {
  }

  lemma SetUsageDisk(s: Server, t: Tid, p: Poll, id: Text, bytes: int, before: User, saved: bool)
    ensures var s' := DoSetUsage(s, t, p, id, bytes, before, saved); s'.disk == s.disk || s'.disk == s'.users
  {
  }

  lemma RollbackDisk(s: Server, t: Tid, id: Text, saved: bool)
    ensures var s' := DoRollback(s, t, id, saved); s'.disk == s.disk || s'.disk == s'.users
  {
  }

  lemma DiskStays(s: Server, t: Tid, a: Action)
    requires Enabled(s, t, a) && !IsStore(a)
    ensures Do(s, t, a).disk == s.disk
  {
  }

  lemma {:induction false} OffDisk(s0: Server, run: Run, i: nat, x: Text)
    requires Initial(s0) && Legal(s0, run) && i <= |run|
    requires x in At(s0, run, i).issued && x !in At(s0, run, i).users && x !in At(s0, run, i).disk
    ensures x !in End(s0, run).disk
    decreases |run|
  {
    if i < |run| {
      OffDisk(s0, Front(run), i, x);
      StaysGone(s0, run, i, |run|, x);
      DiskStep(End(s0, Front(run)), Last(run).0, Last(run).1);
    }
  }

  /** A delete that has had its rebuild has taken the account out of the core too. */
  lemma OutOfCore(s0: Server, run: Run, i: nat, t: Tid, x: Text)
    requires Initial(s0) && Legal(s0, run) && i < |run| && run[i].0 == t && IsStore(run[i].1) && Showed(s0, run, t)
    requires x in At(s0, run, i + 1).issued && x !in At(s0, run, i + 1).users
    ensures x !in End(s0, run).core
  {
    var n: nat, m: nat :| ShownAt(s0, run, t, n, m);
    assert i < n;
    SourceSince(s0, run, n, m);
    CoreIsLastApplied(s0, run);
    if SourceOf(run).Listing? { StaysGone(s0, run, i + 1, SourceOf(run).at, x); }
  }

  /** Whatever runs beside it and whatever fails: a delete takes the account it names out of the
      store, and an account that has existed never returns. The request reports that there was
      none exactly when there was none; and once it reports success the account is, from then on,
      in neither the store nor the file nor the core. */
  lemma DeleteOutcome(s0: Server, run: Run, k: nat, i: nat, t: Tid, id: Text)
    requires Initial(s0) && Legal(s0, run) && k < i < |run|
    requires run[k] == (t, Arrive(DeleteCall(id))) && run[i].0 == t && run[i].1.StoreDelete?
    ensures id !in At(s0, run, i + 1).users
    ensures forall j :: i < j <= |run| && id in At(s0, run, i).issued ==> id !in At(s0, run, j).users
    ensures t in End(s0, run).threads
    ensures var s, pc := End(s0, run), End(s0, run).threads[t];
      pc.Done? ==>
        && (pc.outcome == NoRebuild <==> id !in At(s0, run, i).users)
        && (pc.outcome == Rebuilt ==> id !in s.users && id !in s.disk && id !in s.core)
  {
    var saved := run[i].1.saved;
    PrefixAt(s0, run, i);
    DeleteKeepsId(s0, run[..i], k, t, id);
    AtStep(s0, run, i);
    AtKeepsInvariant(s0, run, i);
    DeleteTakesOut(At(s0, run, i), t, id, saved);
    DeleteStands(s0, run, i, t, id, saved);
    forall j | i < j <= |run| && id in At(s0, run, i).issued ensures id !in At(s0, run, j).users {
      StaysGone(s0, run, i + 1, j, id);
    }
    if End(s0, run).threads[t] == Done(Rebuilt) {
      RebuiltMeansShown(s0, run, t);
      OutOfCore(s0, run, i, t, id);
      OffDisk(s0, run, i + 1, id);
      assert At(s0, run, |run|) == End(s0, run);
    }
  }

  // ---- creates ----

  /** What the create's thread may still become, by whether the account was saved. */
  ghost predicate CreateFits(s0: Server, run: Run, t: Tid, x: Text, saved: bool)
    requires Legal(s0, run)
  {
    t in End(s0, run).threads &&
    var pc := End(s0, run).threads[t];
    if !saved then pc == Done(Failed)
    else || Creates(pc, x) || pc == Done(Rebuilt)
         || (pc == Done(Failed) && exists b: nat :: RollsBack(s0, run, t, b, x))
  }

  lemma RollsBackStays(s0: Server, run: Run, t: Tid, b: nat, x: Text)
    requires Legal(s0, run) && run != [] && RollsBack(s0, Front(run), t, b, x)
    ensures RollsBack(s0, run, t, b, x)
  {
  }

  lemma CreatesOn(s: Server, t: Tid, a: Action, x: Text)
    requires Enabled(s, t, a) && t in s.threads && Creates(s.threads[t], x)
    ensures t in Do(s, t, a).threads
    ensures var pc := Do(s, t, a).threads[t];
      || Creates(pc, x) || pc == Done(Rebuilt)
      || (pc == Done(Failed) && a.StoreRollback? && s.threads[t] == Rollback(x))
  {
    if a.Apply? { ApplyFaults(s, t, s.threads[t].caller, s.threads[t].clients, a.result); }
    if a.StoreRollback? { RollbackLeaves(s, t, x, a.saved); }
  }

  lemma RollbackLeaves(s: Server, t: Tid, x: Text, saved: bool)
    ensures t in DoRollback(s, t, x, saved).threads && DoRollback(s, t, x, saved).threads[t] == Done(Failed)
  {
  }

  lemma CreateAdds(s: Server, t: Tid, u: User, saved: bool)
    ensures var s' := DoCreate(s, t, u, saved);
      && s'.users == s.users[u.id := u] && u.id in s'.issued && t in s'.threads
      && s'.threads[t] == if saved then Waiting(FromCreate(u.id)) else Done(Failed)
  {
  }

  lemma CreateNext(s0: Server, run: Run, t: Tid, x: Text, saved: bool)
    requires Legal(s0, run) && run != [] && CreateFits(s0, Front(run), t, x, saved)
    ensures CreateFits(s0, run, t, x, saved)
  {
    var s, last := End(s0, Front(run)), Last(run);
    ThreadStep(s, last.0, last.1, t);
    if last.0 == t && Creates(s.threads[t], x) {
      CreatesOn(s, t, last.1, x);
      if s.threads[t] == Rollback(x) { assert RollsBack(s0, run, t, |run| - 1, x); }
    }
    if b: nat :| RollsBack(s0, Front(run), t, b, x) { RollsBackStays(s0, run, t, b, x); }
  }

  lemma {:induction false} CreateStands(s0: Server, run: Run, i: nat, t: Tid, u: User, saved: bool)
    requires Legal(s0, run) && i < |run| && run[i] == (t, StoreCreate(u, saved))
    ensures CreateFits(s0, run, t, u.id, saved)
    decreases |run|
  {
    if i == |run| - 1 {
      CreateAdds(End(s0, Front(run)), t, u, saved);
    } else {
      CreateStands(s0, Front(run), i, t, u, saved);
      CreateNext(s0, run, t, u.id, saved);
    }
  }

  /** The step that adds an account adds its record and nothing else, for an id the store never
      had, whether or not the write succeeds. If the request reports success the account was saved,
      and listed and applied since; if it reports a failure after the write succeeded, the account
      is out of the store again. */
  lemma CreateOutcome(s0: Server, run: Run, i: nat, t: Tid, u: User, saved: bool)
    requires Initial(s0) && Legal(s0, run) && i < |run| && run[i] == (t, StoreCreate(u, saved))
    ensures u.id !in At(s0, run, i).users && At(s0, run, i + 1).users == At(s0, run, i).users[u.id := u]
    ensures t in End(s0, run).threads
    ensures var s, pc := End(s0, run), End(s0, run).threads[t];
      pc.Done? ==>
        && pc.outcome != NoRebuild
        && (pc.outcome == Rebuilt ==> saved && exists n: nat, m: nat :: i < n && ShownAt(s0, run, t, n, m))
        && (pc.outcome == Failed && saved ==> u.id !in s.users)
  {
    AtStep(s0, run, i);
    AtKeepsInvariant(s0, run, i);
    CreateAdds(At(s0, run, i), t, u, saved);
    CreateStands(s0, run, i, t, u, saved);
    assert At(s0, run, |run|) == End(s0, run);
    if End(s0, run).threads[t] == Done(Rebuilt) {
      RebuiltMeansShown(s0, run, t);
      var n: nat, m: nat :| ShownAt(s0, run, t, n, m);
      assert i < n;
    }
    if End(s0, run).threads[t] == Done(Failed) && saved {
      var b: nat :| RollsBack(s0, run, t, b, u.id);
      var c := LivesBetween(s0, run, t, b, u.id);
    }
  }

  /** With no failure, whenever no request is in flight: the core serves a created account, under
      its own short id, exactly when it has not been deleted and every reading of it since its
      creation was under its limit. */
  lemma CreatedIsServed(s0: Server, run: Run, i: nat, t: Tid, u: User)
    requires Initial(s0) && Legal(s0, run) && Idle(End(s0, run)) && End(s0, run).faults == 0
    requires i < |run| && run[i] == (t, StoreCreate(u, true))
    ensures var rs := ReadingsSince(s0, run, i + 1, u.id);
      u.id in End(s0, run).core <==>
        (&& (forall n :: i < n < |run| ==> !RemovedAt(s0, run, n, u.id))
         && (forall r :: r in rs ==> u.limitGB <= 0.0 || r as real < u.limitGB * 1073741824.0))
    ensures u.id in End(s0, run).core ==> End(s0, run).core[u.id] == u.shortId
  {
    AtStep(s0, run, i);
    CreateAdds(At(s0, run, i), t, u, true);
    AccountHistory(s0, run, i + 1, u.id);
    IdleServerIsCurrent(s0, run);
    assert (forall n :: i < n < |run| ==> !RemovedAt(s0, run, n, u.id))
      <==> forall n :: i + 1 <= n < |run| ==> !RemovedAt(s0, run, n, u.id);
  }

  // ---- polls ----

  /** The poll's readings, each as it arrived, are still to be taken, being taken, or behind it. */
  ghost predicate PollFits(s0: Server, run: Run, t: Tid, usage: map<Text, int>)
    requires Legal(s0, run)
  {
    t in End(s0, run).threads &&
    var pc := End(s0, run).threads[t];
    PollOf(pc).Some? &&
    var todo := PollOf(pc).value.todo;
    && (forall x :: x in todo ==> x in usage && todo[x] == usage[x])
    && (forall x :: x in usage ==> x in todo || Taking(pc, x, usage[x]) || Taken(s0, run, t, x, usage[x]))
    && (pc.PollSet? ==> pc.id in usage && pc.bytes == usage[pc.id])
    && (!pc.PollLoop? && !pc.PollSet? && !pc.PollRecheck? ==> todo == map[])
  }

  predicate Taking(pc: Pc, x: Text, bytes: int) { pc.PollSet? && pc.id == x && pc.bytes == bytes }

  /** The poll found no such account, or stored the reading. */
  ghost predicate Taken(s0: Server, run: Run, t: Tid, x: Text, bytes: int)
    requires Legal(s0, run)
  {
    exists n: nat :: MissedAt(s0, run, t, n, x) || StoredAt(s0, run, t, n, x, bytes)
  }

  predicate MissedAt(s0: Server, run: Run, t: Tid, n: nat, x: Text)
    requires Legal(s0, run)
  {
    n < |run| && run[n] == (t, PollGet(x)) && x !in At(s0, run, n).users
  }

  predicate StoredAt(s0: Server, run: Run, t: Tid, n: nat, x: Text, bytes: int)
    requires Legal(s0, run)
  {
    n < |run| && run[n].0 == t && ReadAt(s0, run, n, x) == Some(bytes)
  }

  lemma TakenStays(s0: Server, run: Run, t: Tid, x: Text, bytes: int)
    requires Legal(s0, run) && run != [] && Taken(s0, Front(run), t, x, bytes)
    ensures Taken(s0, run, t, x, bytes)
  {
    var n: nat :| MissedAt(s0, Front(run), t, n, x) || StoredAt(s0, Front(run), t, n, x, bytes);
    assert MissedAt(s0, run, t, n, x) || StoredAt(s0, run, t, n, x, bytes);
  }

  /** The part of `PollFits` about the program counter alone. */
  ghost predicate PcFits(pc: Pc, usage: map<Text, int>) {
    PollOf(pc).Some? &&
    var todo := PollOf(pc).value.todo;
    && (forall x :: x in todo ==> x in usage && todo[x] == usage[x])
    && (pc.PollSet? ==> pc.id in usage && pc.bytes == usage[pc.id])
    && (!pc.PollLoop? && !pc.PollSet? && !pc.PollRecheck? ==> todo == map[])
  }

  /** How a poll's own step moves it: entries leave `todo` one by one. */
  ghost predicate PollMoved(s: Server, pc: Pc, pc': Pc, a: Action, usage: map<Text, int>) {
    && PollOf(pc).Some? && PcFits(pc', usage)
    && (if a.PollGet? then
          && (forall x :: x in PollOf(pc).value.todo ==> x in PollOf(pc').value.todo || x == a.id)
          && (a.id in s.users ==> a.id in usage && Taking(pc', a.id, usage[a.id]))
        else PollOf(pc').value.todo == PollOf(pc).value.todo)
    && (pc.PollSet? ==> a.StoreSetUsage?)
  }

  lemma PollMoves(s: Server, t: Tid, a: Action, usage: map<Text, int>)
    requires Enabled(s, t, a) && t in s.threads && PcFits(s.threads[t], usage)
    ensures t in Do(s, t, a).threads && PollMoved(s, s.threads[t], Do(s, t, a).threads[t], a, usage)
  {
    var pc := s.threads[t];
    if a.StoreSetUsage? {
      SetUsagePolls(s, t, pc.poll, pc.id, pc.bytes, pc.before, a.saved);
    } else if a.PollGet? {
      GetPolls(s, t, pc.poll, a.id);
    } else if IsRebuild(a) {
      RebuildPolls(s, t, a);
    } else {
      LoopPolls(s, t, a);
    }
  }

  lemma LoopPolls(s: Server, t: Tid, a: Action)
    requires Enabled(s, t, a) && t in s.threads && PollOf(s.threads[t]).Some?
    requires !IsRebuild(a) && !a.PollGet? && !a.StoreSetUsage?
    ensures t in Do(s, t, a).threads
    ensures var pc, pc' := s.threads[t], Do(s, t, a).threads[t];
      && PollOf(pc').Some? && PollOf(pc').value.todo == PollOf(pc).value.todo && !pc.PollSet? && !pc'.PollSet?
      && (pc'.PollLoop? || PollOf(pc).value.todo == map[] || a == PollReturn)
  {
  }

  lemma GetPolls(s: Server, t: Tid, p: Poll, id: Text)
    requires id in p.todo
    ensures var pc := DoPollGet(s, t, p, id).threads[t];
      && PollOf(pc) == Some(p.(todo := p.todo - {id}))
      && (pc.PollLoop? || pc.PollSet?) && (pc.PollSet? ==> Taking(pc, id, p.todo[id])) && (id in s.users ==> pc.PollSet?)
  {
  }

  lemma SetUsagePolls(s: Server, t: Tid, p: Poll, id: Text, bytes: int, before: User, saved: bool)
    ensures var s' := DoSetUsage(s, t, p, id, bytes, before, saved);
      && t in s'.threads && (s'.threads[t].PollLoop? || s'.threads[t].PollRecheck?)
      && PollOf(s'.threads[t]).Some? && PollOf(s'.threads[t]).value.todo == p.todo
  {
  }

  lemma RebuildPolls(s: Server, t: Tid, a: Action)
    requires Enabled(s, t, a) && IsRebuild(a) && PollOf(s.threads[t]).Some?
    ensures t in Do(s, t, a).threads
    ensures var pc := Do(s, t, a).threads[t];
      !pc.PollLoop? && !pc.PollSet? && !pc.PollRecheck? && PollOf(pc) == PollOf(s.threads[t])
  {
    if a.Apply? { ApplyFaults(s, t, s.threads[t].caller, s.threads[t].clients, a.result); }
  }

  /** What the step has done for one reading of the poll that takes it. */
  lemma PollTakes(s0: Server, run: Run, t: Tid, usage: map<Text, int>, x: Text)
    requires Legal(s0, run) && run != [] && Last(run).0 == t && PollFits(s0, Front(run), t, usage) && x in usage
    ensures t in End(s0, run).threads
    ensures var pc := End(s0, run).threads[t];
      && PollOf(pc).Some?
      && (x in PollOf(pc).value.todo || Taking(pc, x, usage[x]) || Taken(s0, run, t, x, usage[x]))
  {
    var s, a, n := End(s0, Front(run)), Last(run).1, |run| - 1;
    var pc := s.threads[t];
    PollMoves(s, t, a, usage);
    if Taken(s0, Front(run), t, x, usage[x]) {
      TakenStays(s0, run, t, x, usage[x]);
    } else if Taking(pc, x, usage[x]) {
      assert At(s0, run, n) == s;
      assert StoredAt(s0, run, t, n, x, usage[x]);
    } else if a == PollGet(x) && x !in s.users {
      assert MissedAt(s0, run, t, n, x);
    }
  }

  lemma {:induction false} PollKeepsFit(s0: Server, run: Run, k: nat, t: Tid, p: Poll)
    requires Legal(s0, run) && k < |run| && run[k] == (t, Arrive(PollLoop(p)))
    ensures PollFits(s0, run, t, p.todo)
    decreases |run|
  {
    var s, last := End(s0, Front(run)), Last(run);
    if k < |run| - 1 {
      PollKeepsFit(s0, Front(run), k, t, p);
      ThreadStep(s, last.0, last.1, t);
      if last.0 == t {
        PollMoves(s, t, last.1, p.todo);
        forall x | x in p.todo
          ensures var pc := End(s0, run).threads[t];
            x in PollOf(pc).value.todo || Taking(pc, x, p.todo[x]) || Taken(s0, run, t, x, p.todo[x])
        {
          PollTakes(s0, run, t, p.todo, x);
        }
      } else {
        forall x | x in p.todo && Taken(s0, Front(run), t, x, p.todo[x]) ensures Taken(s0, run, t, x, p.todo[x]) {
          TakenStays(s0, run, t, x, p.todo[x]);
        }
      }
    }
  }

  /** A poll that is past its loop has taken every reading it came with, each exactly as reported:
      either the account was not there, or the reading was stored. */
  lemma PollTakesAll(s0: Server, run: Run, k: nat, t: Tid, p: Poll, x: Text)
    requires Legal(s0, run) && k < |run| && run[k] == (t, Arrive(PollLoop(p)))
    requires t in End(s0, run).threads && PastLoop(End(s0, run).threads[t]) && x in p.todo
    ensures Taken(s0, run, t, x, p.todo[x])
  {
    PollKeepsFit(s0, run, k, t, p);
  }

  /** And no reading is stored that no poll reported. */
  lemma ReadingsAreReported(s0: Server, run: Run, k: nat, t: Tid, p: Poll, n: nat, x: Text)
    requires Legal(s0, run) && k < n < |run| && run[k] == (t, Arrive(PollLoop(p)))
    requires run[n].0 == t && ReadAt(s0, run, n, x).Some?
    ensures x in p.todo && ReadAt(s0, run, n, x) == Some(p.todo[x])
  {
    PrefixAt(s0, run, n);
    PollKeepsFit(s0, run[..n], k, t, p);
  }
}
