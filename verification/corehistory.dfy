/** Which clients the core serves, read off the steps of a run: the enabled users of the last
    listing whose Apply took effect. */
module CoreHistory {
  import opened Bytes
  import opened Accounts
  import opened Protocol
  import opened ProtocolProofs
  import opened ServerTheorems

  /** The server before step `i`. */
  function At(s0: Server, run: Run, i: nat): Server
    requires Legal(s0, run) && i <= |run|
    decreases |run|
  {
    if i == |run| then End(s0, run) else At(s0, run[..|run| - 1], i)
  }

  lemma AtStep(s0: Server, run: Run, i: nat)
    requires Legal(s0, run) && i < |run|
    ensures Enabled(At(s0, run, i), run[i].0, run[i].1)
    ensures At(s0, run, i + 1) == Do(At(s0, run, i), run[i].0, run[i].1)
    decreases |run|
  {
    if i < |run| - 1 {
      AtStep(s0, run[..|run| - 1], i);
    }
  }

  lemma {:induction false} AtKeepsInvariant(s0: Server, run: Run, i: nat)
    requires Initial(s0) && Legal(s0, run) && i <= |run|
    ensures Invariant(At(s0, run, i))
    decreases |run|
  {
    if i == |run| {
      RunKeepsInvariant(s0, run);
    } else {
      AtKeepsInvariant(s0, run[..|run| - 1], i);
    }
  }

  // ---- the last listing applied ----

  // Start is the listing NewService applied.
  datatype Source = Start | Listing(at: nat) | Down

  function LastList(run: Run): (r: Option<nat>)
    ensures r.Some? ==> r.value < |run| && run[r.value].1 == List
  {
    if run == [] then None
    else if run[|run| - 1].1 == List then Some(|run| - 1)
    else LastList(run[..|run| - 1])
  }

  /** What the last Apply to change the core left it with. */
  function SourceOf(run: Run): (src: Source)
    ensures src.Listing? ==> src.at < |run| && run[src.at].1 == List
  {
    if run == [] then Start
    else
      var front := run[..|run| - 1];
      match run[|run| - 1].1
      case Apply(r) =>
        if r == Running && LastList(front).Some? then Listing(LastList(front).value)
        else if r == CoreDown then Down
        else SourceOf(front)
      case _ => SourceOf(front)
  }

  function Shown(s0: Server, run: Run, src: Source): map<Text, Text>
    requires Legal(s0, run) && (src.Listing? ==> src.at <= |run|)
  {
    match src
    case Start => s0.core
    case Listing(j) => Active(At(s0, run, j).users)
    case Down => map[]
  }

  /** A listing not yet applied is the last one, and belongs to its thread. */
  ghost predicate ListedIsLast(s0: Server, run: Run)
    requires Legal(s0, run)
  {
    forall t :: t in End(s0, run).threads && End(s0, run).threads[t].Listed? ==>
      && LastList(run).Some? && run[LastList(run).value].0 == t
      && End(s0, run).threads[t].clients == Active(At(s0, run, LastList(run).value).users)
  }

  predicate IsRebuild(a: Action) { a == Lock || a == List || a.Apply? || a == Unlock }

  predicate Moved(s: Server, s': Server, t: Tid) {
    t in s'.threads && s'.threads == s.threads[t := s'.threads[t]]
  }

  /** Nothing that a rebuild works on changes. */
  predicate Aside(s: Server, s': Server, t: Tid) {
    Moved(s, s', t) && !s'.threads[t].Listed? && s'.core == s.core && s'.mutex == s.mutex
  }

  lemma DeleteAside(s: Server, t: Tid, id: Text, saved: bool)
    ensures Aside(s, DoDelete(s, t, id, saved), t)
  {
  }

  lemma SetUsageAside(s: Server, t: Tid, p: Poll, id: Text, bytes: int, before: User, saved: bool)
    ensures Aside(s, DoSetUsage(s, t, p, id, bytes, before, saved), t)
  {
  }

  lemma RollbackAside(s: Server, t: Tid, id: Text, saved: bool)
    ensures Aside(s, DoRollback(s, t, id, saved), t)
  {
  }

  lemma OthersAside(s: Server, t: Tid, a: Action)
    requires Enabled(s, t, a) && !IsRebuild(a)
    ensures Aside(s, Do(s, t, a), t)
  {
    if !a.Arrive? {
      var pc := s.threads[t];
      match a
      case StoreDelete(saved) => DeleteAside(s, t, pc.id, saved);
      case StoreSetUsage(saved) => SetUsageAside(s, t, pc.poll, pc.id, pc.bytes, pc.before, saved);
      case StoreRollback(saved) => RollbackAside(s, t, pc.id, saved);
      case _ =>
    }
  }

  /** What a step of a rebuild does to its thread, the mutex and the core. */
  lemma RebuildStep(s: Server, t: Tid, a: Action)
    requires Enabled(s, t, a) && IsRebuild(a)
    ensures var s' := Do(s, t, a);
      && Moved(s, s', t) && (s'.threads[t].Listed? <==> a == List) && (a == List ==> s'.threads[t].clients == Active(s.users))
      && s'.mutex == (if a == Lock then Some(t) else if a == Unlock then None else s.mutex)
      && s'.core == if a == Apply(Running) then s.threads[t].clients else if a == Apply(CoreDown) then map[] else s.core
  {
    if a.Apply? { ApplyShape(s, t, s.threads[t].caller, s.threads[t].clients, a.result); }
  }

  lemma ApplyShape(s: Server, t: Tid, c: Caller, clients: map<Text, Text>, r: ApplyResult)
    ensures var s' := DoApply(s, t, c, clients, r);
      && Moved(s, s', t) && !s'.threads[t].Listed? && s'.mutex == s.mutex
      && s'.core == if r == Running then clients else if r == CoreDown then map[] else s.core
  {
  }

  lemma ListingStep(s0: Server, run: Run)
    requires Initial(s0) && Legal(s0, run) && run != [] && run[|run| - 1].1 == List
    ensures ListedIsLast(s0, run)
  {
    var front := run[..|run| - 1];
    RunKeepsInvariant(s0, front);
  }

  lemma OtherStep(s0: Server, run: Run)
    requires Legal(s0, run) && run != [] && run[|run| - 1].1 != List && ListedIsLast(s0, run[..|run| - 1])
    ensures ListedIsLast(s0, run)
  {
    StepMoves(End(s0, run[..|run| - 1]), run[|run| - 1].0, run[|run| - 1].1);
  }

  lemma StepMoves(s: Server, t: Tid, a: Action)
    requires Enabled(s, t, a)
    ensures Moved(s, Do(s, t, a), t) && (Do(s, t, a).threads[t].Listed? <==> a == List)
  {
    if IsRebuild(a) { RebuildStep(s, t, a); } else { OthersAside(s, t, a); }
  }

  lemma CoreStep(s0: Server, run: Run)
    requires Legal(s0, run) && run != [] && ListedIsLast(s0, run[..|run| - 1])
    requires End(s0, run[..|run| - 1]).core == Shown(s0, run[..|run| - 1], SourceOf(run[..|run| - 1]))
    ensures End(s0, run).core == Shown(s0, run, SourceOf(run))
  {
    var front, last := run[..|run| - 1], run[|run| - 1];
    if IsRebuild(last.1) {
      RebuildStep(End(s0, front), last.0, last.1);
    } else {
      OthersAside(End(s0, front), last.0, last.1);
    }
  }

  /** Whatever fails, the core serves exactly the enabled users of the last listing whose Apply
      took effect, as they were when it was taken; or none, if starting it failed since. */
  lemma {:induction false} CoreIsLastApplied(s0: Server, run: Run)
    requires Initial(s0) && Legal(s0, run)
    ensures ListedIsLast(s0, run)
    ensures End(s0, run).core == Shown(s0, run, SourceOf(run))
  {
    if run != [] {
      var front, last := run[..|run| - 1], run[|run| - 1];
      CoreIsLastApplied(s0, front);
      if last.1 == List {
        ListingStep(s0, run);
      } else {
        OtherStep(s0, run);
      }
      CoreStep(s0, run);
    }
  }

  /** So at every moment of every run, with any failures, core and store differ at exactly the
      ids whose status has changed since that listing. */
  lemma DifferenceIsChange(s0: Server, run: Run, x: Text)
    requires Initial(s0) && Legal(s0, run)
    ensures var now := Active(End(s0, run).users);
      Differ(End(s0, run).core, now, x) <==>
      match SourceOf(run)
      case Start => Differ(Active(s0.users), now, x)
      case Listing(j) => Differ(Active(At(s0, run, j).users), now, x)
      case Down => x in now
  {
    CoreIsLastApplied(s0, run);
  }

  // ---- runs in which the failing rebuilds are known ----

  /** The Applies that fail are exactly those of the doomed threads. */
  predicate OnlyDoomedFail(run: Run, doomed: set<Tid>) {
    forall n :: 0 <= n < |run| && run[n].1.Apply? ==> (run[n].1.result == Running <==> run[n].0 !in doomed)
  }

  /** The last listing by a thread that is not doomed, unless the core went down since. */
  function LastSound(run: Run, doomed: set<Tid>): (src: Source)
    ensures src.Listing? ==> src.at < |run|
  {
    if run == [] then Start
    else
      var last := run[|run| - 1];
      if last.1 == List && last.0 !in doomed then Listing(|run| - 1)
      else if last.1 == Apply(CoreDown) then Down
      else LastSound(run[..|run| - 1], doomed)
  }

  predicate IsLastSound(run: Run, doomed: set<Tid>, j: nat) {
    && j < |run| && run[j].1 == List && run[j].0 !in doomed
    && forall n :: j < n < |run| ==> (run[n].1 == List ==> run[n].0 in doomed) && run[n].1 != Apply(CoreDown)
  }

  lemma {:induction false} LastSoundIsLast(run: Run, doomed: set<Tid>, j: nat)
    ensures LastSound(run, doomed) == Listing(j) <==> IsLastSound(run, doomed, j)
  {
    if run != [] {
      var front := run[..|run| - 1];
      LastSoundIsLast(front, doomed, j);
      assert IsLastSound(run, doomed, j) && j < |run| - 1 ==> IsLastSound(front, doomed, j);
    }
  }

  /** The source once the rebuild in progress, if it is sound, has applied its listing. */
  function Pending(s0: Server, run: Run, doomed: set<Tid>): Source
    requires Legal(s0, run)
  {
    var s := End(s0, run);
    if s.mutex.Some? && s.mutex.value in s.threads && s.mutex.value !in doomed
       && s.threads[s.mutex.value].Listed? && LastList(run).Some?
    then Listing(LastList(run).value) else SourceOf(run)
  }

  lemma {:induction false} PendingIsLastSound(s0: Server, run: Run, doomed: set<Tid>)
    requires Initial(s0) && Legal(s0, run) && OnlyDoomedFail(run, doomed)
    ensures Pending(s0, run, doomed) == LastSound(run, doomed)
  {
    if run != [] {
      var front := run[..|run| - 1];
      PendingIsLastSound(s0, front, doomed);
      RunKeepsInvariant(s0, front);
      CoreIsLastApplied(s0, front);
      PendingStep(s0, run, doomed);
    }
  }

  lemma PendingStep(s0: Server, run: Run, doomed: set<Tid>)
    requires Legal(s0, run) && run != [] && OnlyDoomedFail(run, doomed)
    requires var front := run[..|run| - 1];
      MutexHeld(End(s0, front)) && ListedIsLast(s0, front) && Pending(s0, front, doomed) == LastSound(front, doomed)
    ensures Pending(s0, run, doomed) == LastSound(run, doomed)
  {
    var front, t, a := run[..|run| - 1], run[|run| - 1].0, run[|run| - 1].1;
    var s := End(s0, front);
    if IsRebuild(a) {
      RebuildStep(s, t, a);
    } else {
      OthersAside(s, t, a);
    }
  }

  /** With no request in flight, the core is the listing of the last sound rebuild. */
  lemma IdleSource(s0: Server, run: Run, doomed: set<Tid>)
    requires Initial(s0) && Legal(s0, run) && Idle(End(s0, run)) && OnlyDoomedFail(run, doomed)
    ensures SourceOf(run) == LastSound(run, doomed)
  {
    RunKeepsInvariant(s0, run);
    PendingIsLastSound(s0, run, doomed);
  }
}
