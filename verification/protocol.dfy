/** The server as a step machine: any number of create, delete and poll requests, interleaved
    at every lock boundary, over the user map, its file and the client list of the core.

    `Perform` of the accounts module is the effect of one locked store call. The fields from
    `issued` on are history: no step reads them to decide what to do, except that a fresh id
    is one never issued before. */
module Protocol {
  import opened Bytes
  import opened Accounts

  type Tid = nat

  /** The locals of one run of PollNow's loop; `crossed` records the users whose flag this
      poll itself cleared and saved. */
  datatype Poll = Poll(todo: map<Text, int>, limitHit: bool, crossed: set<Text>)

  /** Who called `rebuild`, with what is needed once it returns. */
  datatype Caller = FromCreate(id: Text) | FromDelete | FromPoll(poll: Poll)

  datatype Pc =
    | CreateCall
    | DeleteCall(id: Text)
    | PollLoop(poll: Poll)                            // about to take the next map entry
    | PollSet(poll: Poll, id: Text, bytes: int, before: User) // the first Get succeeded
    | PollRecheck(poll: Poll, id: Text, before: User) // SetUsage succeeded
    | Waiting(caller: Caller)                         // in rebuild, before Service.mu
    | Locked(caller: Caller)                          // holding Service.mu
    | Listed(caller: Caller, clients: map<Text, Text>) // List returned
    | Applied(caller: Caller, ok: bool)               // Apply returned
    | Rollback(id: Text)                              // a create whose rebuild failed
    | PollEnd(poll: Poll, rebuilt: bool)              // about to sum the counters
    | PollDone(poll: Poll, rebuilt: bool)
    | Done(outcome: Outcome)

  datatype Outcome = Rebuilt | NoRebuild | Failed

  datatype Server = Server(
    users: Users,                // the store's map
    disk: Users,                 // what reading users.json would give
    mutex: Option<Tid>,          // the holder of Service.mu
    core: map<Text, Text>,       // the clients last applied to the core
    threads: map<Tid, Pc>,
    issued: set<Text>,           // every id ever in the store
    unsaved: bool,               // the last write of users.json failed
    stale: set<Text>,            // ids a fault has left unreconciled since the last List
    removedBy: map<Text, Tid>,   // the delete request that removed an id and saved it
    dropped: set<Text>,          // ids removed by a rollback or by a delete that was not saved
    faults: nat)                 // failed writes and failed Applies so far

  datatype ApplyResult = Running | NotWritten | CoreDown

  datatype Action =
    | Arrive(pc: Pc)
    | StoreCreate(user: User, saved: bool)
    | StoreDelete(saved: bool)
    | PollGet(id: Text)
    | StoreSetUsage(saved: bool)
    | PollGetAgain
    | PollLeaveLoop
    | Lock
    | List
    | Apply(result: ApplyResult)
    | Unlock
    | StoreRollback(saved: bool)
    | PollReturn

  // ---- steps ----

  predicate Starts(pc: Pc) {
    match pc
    case CreateCall | DeleteCall(_) => true
    case PollLoop(p) => !p.limitHit && p.crossed == {}
    case _ => false
  }

  predicate Enabled(s: Server, t: Tid, a: Action) {
    match a
    case Arrive(pc) => t !in s.threads && Starts(pc)
    case _ => t in s.threads && MayTake(s, s.threads[t], a)
  }

  predicate MayTake(s: Server, pc: Pc, a: Action) {
    match a
    case Arrive(_) => false
    case StoreCreate(u, _) => pc == CreateCall && u.id !in s.issued && u.enabled && u.usedBytes == 0
    case StoreDelete(_) => pc.DeleteCall?
    case PollGet(id) => pc.PollLoop? && id in pc.poll.todo
    case StoreSetUsage(_) => pc.PollSet?
    case PollGetAgain => pc.PollRecheck?
    case PollLeaveLoop => pc.PollLoop? && pc.poll.todo == map[]
    case Lock => pc.Waiting? && s.mutex == None
    case List => pc.Locked?
    case Apply(_) => pc.Listed?
    case Unlock => pc.Applied?
    case StoreRollback(_) => pc.Rollback?
    case PollReturn => pc.PollEnd?
  }

  function Goto(s: Server, t: Tid, pc: Pc): Server {
    s.(threads := s.threads[t := pc])
  }

  /** One locked mutation of the store followed by persistLocked. */
  function Mutate(s: Server, op: Op, saved: bool): Server {
    var users := Perform(s.users, op);
    s.(users := users,
       disk := if saved then users else s.disk,
       unsaved := !saved,
       faults := if saved then s.faults else s.faults + 1)
  }

  predicate TurnsOff(users: Users, id: Text, bytes: int) {
    id in users && users[id].enabled && OverLimit(users[id].limitGB, bytes)
  }

  function AddUser(s: Server, u: User, saved: bool): Server {
    Mutate(s, Create(u), saved).(
      issued := s.issued + {u.id},
      stale := if saved then s.stale else s.stale + {u.id})
  }

  /** A removal no rebuild follows: unsaved, or the rollback of a create. */
  function DropUser(s: Server, id: Text, saved: bool): Server {
    Mutate(s, Delete(id), saved).(stale := s.stale + {id}, dropped := s.dropped + {id})
  }

  function RemoveUser(s: Server, t: Tid, id: Text): Server {
    Mutate(s, Delete(id), true).(removedBy := s.removedBy[id := t])
  }

  function SetReading(s: Server, id: Text, bytes: int, saved: bool): Server {
    Mutate(s, SetUsage(id, bytes), saved).(
      stale := if !saved && TurnsOff(s.users, id, bytes) then s.stale + {id} else s.stale)
  }

  function DoCreate(s: Server, t: Tid, u: User, saved: bool): Server {
    Goto(AddUser(s, u, saved), t, if saved then Waiting(FromCreate(u.id)) else Done(Failed))
  }

  function DoDelete(s: Server, t: Tid, id: Text, saved: bool): Server {
    if id !in s.users then Goto(s, t, Done(NoRebuild))
    else if saved then RemoveUser(Goto(s, t, Waiting(FromDelete)), t, id)
    else Goto(DropUser(s, id, false), t, Done(Failed))
  }

  function DoPollGet(s: Server, t: Tid, p: Poll, id: Text): Server
    requires id in p.todo
  {
    var rest := p.(todo := p.todo - {id});
    if id in s.users then Goto(s, t, PollSet(rest, id, p.todo[id], s.users[id]))
    else Goto(s, t, PollLoop(rest))
  }

  /** A reading that cannot be saved still changes the map, and the poll moves on. */
  function DoSetUsage(s: Server, t: Tid, p: Poll, id: Text, bytes: int, before: User, saved: bool): Server {
    if id !in s.users then Goto(s, t, PollLoop(p))
    else Goto(SetReading(s, id, bytes, saved), t,
              if saved then PollRecheck(WithCrossing(s, p, id, bytes), id, before) else PollLoop(p))
  }

  function WithCrossing(s: Server, p: Poll, id: Text, bytes: int): Poll {
    if TurnsOff(s.users, id, bytes) then p.(crossed := p.crossed + {id}) else p
  }

  function DoGetAgain(s: Server, t: Tid, p: Poll, id: Text, before: User): Server {
    var hit := id in s.users && before.enabled && !s.users[id].enabled;
    Goto(s, t, PollLoop(p.(limitHit := p.limitHit || hit)))
  }

  function DoList(s: Server, t: Tid, c: Caller): Server {
    Goto(s.(stale := {}), t, Listed(c, Active(s.users)))
  }

  /** A successful Apply replaces the core's clients; a failed one either leaves the old core
      running or, when the new process does not start, leaves none. */
  function SetCore(s: Server, clients: map<Text, Text>, r: ApplyResult): Server {
    match r
    case Running => s.(core := clients)
    case _ =>
      s.(core := if r == CoreDown then map[] else s.core,
         faults := s.faults + 1,
         stale := s.stale + s.users.Keys + s.core.Keys)
  }

  function DoApply(s: Server, t: Tid, c: Caller, clients: map<Text, Text>, r: ApplyResult): Server {
    Goto(SetCore(s, clients, r), t, Applied(c, r == Running))
  }

  function AfterRebuild(c: Caller, ok: bool): Pc {
    match c
    case FromCreate(id) => if ok then Done(Rebuilt) else Rollback(id)
    case FromDelete => Done(if ok then Rebuilt else Failed)
    case FromPoll(p) => PollEnd(p, ok)
  }

  /** The create handler deletes the user again and does not rebuild. */
  function DoRollback(s: Server, t: Tid, id: Text, saved: bool): Server {
    Goto(if id in s.users then DropUser(s, id, saved) else s, t, Done(Failed))
  }

  function Do(s: Server, t: Tid, a: Action): Server
    requires Enabled(s, t, a)
  {
    if a.Arrive? then Goto(s, t, a.pc) else DoAt(s, t, s.threads[t], a)
  }

  function DoAt(s: Server, t: Tid, pc: Pc, a: Action): Server
    requires MayTake(s, pc, a)
  {
    match a
    case StoreCreate(u, saved) => DoCreate(s, t, u, saved)
    case StoreDelete(saved) => DoDelete(s, t, pc.id, saved)
    case PollGet(id) => DoPollGet(s, t, pc.poll, id)
    case StoreSetUsage(saved) => DoSetUsage(s, t, pc.poll, pc.id, pc.bytes, pc.before, saved)
    case PollGetAgain => DoGetAgain(s, t, pc.poll, pc.id, pc.before)
    case PollLeaveLoop => Goto(s, t, if pc.poll.limitHit then Waiting(FromPoll(pc.poll)) else PollEnd(pc.poll, false))
    case Lock => Goto(s.(mutex := Some(t)), t, Locked(pc.caller))
    case List => DoList(s, t, pc.caller)
    case Apply(r) => DoApply(s, t, pc.caller, pc.clients, r)
    case Unlock => Goto(s.(mutex := None), t, AfterRebuild(pc.caller, pc.ok))
    case StoreRollback(saved) => DoRollback(s, t, pc.id, saved)
    case PollReturn => Goto(s, t, PollDone(pc.poll, pc.rebuilt))
  }

  // ---- runs ----

  /** After NewService: the store as opened, its enabled users applied, no request yet. */
  predicate Initial(s: Server) {
    && (forall x :: x in s.users ==> s.users[x].id == x && x in s.issued)
    && s.disk == s.users && s.core == Active(s.users)
    && s.mutex == None && s.threads == map[] && s.removedBy == map[]
    && s.stale == {} && s.dropped == {} && !s.unsaved && s.faults == 0
  }

  type Run = seq<(Tid, Action)>

  /** Every step of `run` is possible where it is taken. */
  predicate Legal(s0: Server, run: Run)
    decreases |run|, 0
  {
    run == [] ||
    (Legal(s0, run[..|run| - 1]) &&
     Enabled(End(s0, run[..|run| - 1]), run[|run| - 1].0, run[|run| - 1].1))
  }

  function End(s0: Server, run: Run): Server
    requires Legal(s0, run)
    decreases |run|, 1
  {
    if run == [] then s0
    else Do(End(s0, run[..|run| - 1]), run[|run| - 1].0, run[|run| - 1].1)
  }

  // ---- the invariant ----

  predicate InRebuild(pc: Pc) { pc.Locked? || pc.Listed? || pc.Applied? }

  /** At most one thread is between Lock and Unlock, and it holds the mutex. */
  ghost predicate MutexHeld(s: Server) {
    && (forall t :: t in s.threads && InRebuild(s.threads[t]) ==> s.mutex == Some(t))
    && (s.mutex.Some? ==> s.mutex.value in s.threads && InRebuild(s.threads[s.mutex.value]))
  }

  /** The clients the core will run once an Apply in progress succeeds. */
  function Target(s: Server): map<Text, Text> {
    if s.mutex.Some? && s.mutex.value in s.threads && s.threads[s.mutex.value].Listed?
    then s.threads[s.mutex.value].clients
    else s.core
  }

  predicate Differ(a: map<Text, Text>, b: map<Text, Text>, x: Text) {
    if x in a then x !in b || a[x] != b[x] else x in b
  }

  /** A request with this program counter will still take a List that covers `x`. */
  predicate Owes(users: Users, pc: Pc, x: Text) {
    match pc
    case Waiting(_) | Locked(_) => true
    case PollLoop(p) => p.limitHit
    case PollSet(p, _, _, _) => p.limitHit
    case PollRecheck(p, id, before) =>
      p.limitHit || (id == x && before.enabled && x in users && !users[x].enabled)
    case _ => false
  }

  ghost predicate SomeoneOwes(s: Server, x: Text) {
    exists t :: t in s.threads && Owes(s.users, s.threads[t], x)
  }

  ghost predicate Reconciled(s: Server) {
    forall x :: Differ(Target(s), Active(s.users), x) ==> x in s.stale || SomeoneOwes(s, x)
  }

  /** Ids are issued once, and a poll's first reading of a flag is never behind the store. */
  ghost predicate IdsFresh(s: Server) {
    && (forall x :: x in s.users ==> s.users[x].id == x && x in s.issued)
    && (forall x :: x in s.removedBy || x in s.dropped ==> x in s.issued && x !in s.users)
  }

  predicate ReadingCurrent(s: Server, pc: Pc) {
    match pc
    case PollSet(_, id, _, before) =>
      id in s.issued && (id in s.users && s.users[id].enabled ==> before.enabled)
    case _ => true
  }

  function PollOf(pc: Pc): Option<Poll> {
    match pc
    case PollLoop(p) => Some(p)
    case PollSet(p, _, _, _) => Some(p)
    case PollRecheck(p, _, _) => Some(p)
    case PollEnd(p, _) => Some(p)
    case PollDone(p, _) => Some(p)
    case Waiting(FromPoll(p)) => Some(p)
    case Locked(FromPoll(p)) => Some(p)
    case Listed(FromPoll(p), _) => Some(p)
    case Applied(FromPoll(p), _) => Some(p)
    case _ => None
  }

  predicate Removed(s: Server, x: Text) { x in s.removedBy || x in s.dropped }

  /** This poll's SetUsage turned `x` off. */
  predicate Crossed(pc: Pc, x: Text) {
    PollOf(pc).Some? && x in PollOf(pc).value.crossed
  }

  predicate CrossingKept(s: Server, pc: Pc, x: Text)
    requires Crossed(pc, x)
  {
    && x in s.issued && (x in s.users ==> !s.users[x].enabled)
    && (|| PollOf(pc).value.limitHit
        || Removed(s, x)
        || (pc.PollRecheck? && pc.id == x && pc.before.enabled && x in s.users))
  }

  /** In or past the rebuild a delete request must do. */
  predicate DeleteRebuilds(pc: Pc) {
    match pc
    case Waiting(c) => c == FromDelete
    case Locked(c) => c == FromDelete
    case Listed(c, _) => c == FromDelete
    case Applied(c, _) => c == FromDelete
    case Done(o) => o != NoRebuild
    case _ => false
  }

  ghost predicate RemoversRebuild(s: Server) {
    forall x :: x in s.removedBy ==>
      s.removedBy[x] in s.threads && DeleteRebuilds(s.threads[s.removedBy[x]])
  }

  /** A poll that saw a crossing rebuilds before it returns. */
  predicate HitsRebuild(s: Server, pc: Pc) {
    match pc
    case PollEnd(p, rebuilt) => p.limitHit ==> rebuilt || s.faults > 0
    case PollDone(p, rebuilt) => p.limitHit ==> rebuilt || s.faults > 0
    case Applied(_, ok) => ok || s.faults > 0
    case Done(o) => o == Failed ==> s.faults > 0
    case Rollback(_) => s.faults > 0
    case _ => true
  }

  /** What holds of each thread, whatever the others do. */
  ghost predicate ThreadOk(s: Server, pc: Pc) {
    && ReadingCurrent(s, pc) && HitsRebuild(s, pc)
    && forall x :: Crossed(pc, x) ==> CrossingKept(s, pc, x)
  }

  ghost predicate FaultsRecorded(s: Server) {
    && (s.faults == 0 ==> s.stale == {} && s.dropped == {} && !s.unsaved)
    && (!s.unsaved ==> s.disk == s.users)
  }

  /** All of the invariant but `Reconciled`. */
  ghost predicate Bookkeeping(s: Server) {
    && MutexHeld(s) && IdsFresh(s) && RemoversRebuild(s) && FaultsRecorded(s)
    && forall t :: t in s.threads ==> ThreadOk(s, s.threads[t])
  }

  ghost predicate Invariant(s: Server) {
    Bookkeeping(s) && Reconciled(s)
  }

  /** What every step guarantees to the threads that do not take it: ids never return, a
      cleared flag never rises, and a user leaves only through a recorded removal. */
  ghost predicate Evolves(s: Server, s': Server) {
    && s.issued <= s'.issued && s.faults <= s'.faults
    && (forall x :: x in s'.users && x in s.issued ==>
          x in s.users && (s'.users[x].enabled ==> s.users[x].enabled))
    && (forall x :: x in s.users ==> x in s'.users || Removed(s', x))
    && (forall x :: Removed(s, x) ==> Removed(s', x))
  }
}
