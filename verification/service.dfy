/** The API service: handlers and PollNow as they run when requests do not overlap. Each is
    tied to the pure rules the step machine uses. */
module Service {
  import opened Bytes
  import opened Accounts
  import opened Sums
  import opened Polling
  import opened Journal
  import S = Store
  import P = Protocol

  // The error is the one QueryUsage returned.
  datatype PollResult = PollResult(statEntries: nat, totalBytes: int, failed: bool)

  /** What the core serves after an Apply of `active`. */
  function AppliedCore(core: map<Text, Text>, active: map<Text, Text>, r: P.ApplyResult): map<Text, Text> {
    match r
    case Running => active
    case NotWritten => core
    case CoreDown => map[]
  }

  /** Every crossing the readings cause was saved, and the rebuild for it, if one was due, left
      the core with the users that remain. */
  ghost predicate PollCovered(users: Users, usage: Counts, unsaved: set<Text>, r: P.ApplyResult) {
    LimitHit(users, usage, {}) ==>
      LimitHit(users, usage, unsaved) &&
      (r.Running? || (r.CoreDown? && Active(AfterPoll(users, usage)) == map[]))
  }

  /** Exactly then a poll that starts on a current core ends on one: `core` is what PollNow leaves. */
  lemma PollStaysCurrent(users: Users, usage: Counts, unsaved: set<Text>, r: P.ApplyResult)
    ensures var now := Active(AfterPoll(users, usage));
      var core := if LimitHit(users, usage, unsaved) then AppliedCore(Active(users), now, r) else Active(users);
      core == now <==> PollCovered(users, usage, unsaved, r)
  {
    var now := Active(AfterPoll(users, usage));
    if LimitHit(users, usage, {}) {
      var x :| x in usage && x in users && Crosses(users[x], usage[x]);
      assert x in Active(users) && x !in now;
    } else {
      forall x | x in users ensures AfterPoll(users, usage)[x].enabled == users[x].enabled {
        if x in usage { assert !Crosses(users[x], usage[x]); }
      }
      assert now == Active(users);
      assert !LimitHit(users, usage, unsaved);
    }
  }

  class Service {
    const store: S.Store
    var core: map<Text, Text>   // the clients last applied to the core

    constructor (store: S.Store)
      ensures this.store == store && core == map[]
    {
      this.store := store;
      core := map[];
    }

    ghost predicate Valid()
      reads this, store, store.users.Values
    {
      store.Valid()
    }

    ghost function Users(): Users
      reads store, store.users.Values
    {
      store.Model()
    }

    /** The core serves exactly the enabled users. */
    ghost predicate Current()
      reads this, store, store.users.Values
    {
      core == Active(Users())
    }

    /** NewService: no service without a first successful Apply. */
    static method NewService(store: S.Store, r: P.ApplyResult) returns (s: Option<Service>)
      requires store.Valid()
      ensures s.Some? <==> r.Running?
      ensures s.Some? ==> fresh(s.value) && s.value.store == store && s.value.Valid() && s.value.Current()
    {
      var service := new Service(store);
      var ok := service.Rebuild(r);
      return if ok then Some(service) else None;
    }

    /** Apply with the enabled users of a fresh List. */
    method Rebuild(r: P.ApplyResult) returns (ok: bool)
      requires Valid()
      modifies this`core
      ensures ok == r.Running?
      ensures core == AppliedCore(old(core), Active(Users()), r)
    {
      var clients := EnabledClients();
      match r
      case Running => core := clients; return true;
      case NotWritten => return false;
      case CoreDown => core := map[]; return false;
    }

    method EnabledClients() returns (clients: map<Text, Text>)
      requires Valid()
      ensures clients == Active(Users())
    {
      var list := store.List();
      clients := map[];
      ghost var views := S.Views(list);
      var i := 0;
      while i < |list|
        invariant 0 <= i <= |list| && S.Views(list) == views
        invariant clients == Active(Load(views[..i]))
      {
        if list[i].enabled {
          clients := clients[list[i].id := list[i].shortId];
        }
        ClientsStep(views, i, clients);
        i := i + 1;
      }
      assert views[..i] == views;
      LoadListing(views, Users());
    }

    method TotalUsed() returns (total: int, count: nat)
      requires Valid()
      ensures total == Sum(Used(Users())) && count == |Users()|
    {
      var list := store.List();
      total := SumUsed(list);
      count := |list|;
      ListingTotal(S.Views(list), Users());
      ListingSize(S.Views(list), Users());
    }

    static method SumUsed(list: seq<S.UserRecord>) returns (total: int)
      ensures total == ListTotal(S.Views(list))
    {
      ghost var views := S.Views(list);
      total := 0;
      var i := 0;
      while i < |list|
        invariant 0 <= i <= |list| && total == ListTotal(views[..i])
      {
        total := total + list[i].usedBytes;
        assert views[..i + 1][..i] == views[..i];
        i := i + 1;
      }
      assert views[..i] == views;
    }

    /** `usage` is what QueryUsage returned, `unsaved` the ids whose write fails. The loop takes
        the entries in any order; nothing the caller can see depends on it. */
    method PollNow(usage: Option<Counts>, unsaved: set<Text>, r: P.ApplyResult) returns (res: PollResult)
      requires Valid()
      modifies this`core, store`file, store.users.Values
      ensures Valid() && res.failed == usage.None?
      ensures usage.None? ==> Users() == old(Users()) && core == old(core)
      ensures usage.Some? ==> Users() == AfterPoll(old(Users()), usage.value)
      ensures usage.Some? ==> res.statEntries == |usage.value| && res.totalBytes == Sum(Used(AfterPoll(old(Users()), usage.value)))
      ensures usage.Some? ==>
        core == if LimitHit(old(Users()), usage.value, unsaved)
                then AppliedCore(old(core), Active(Users()), r) else old(core)
    {
      if usage.None? { return PollResult(0, 0, true); }
      var limitHit := TakeReadings(usage.value, unsaved);
      var total := FinishPoll(limitHit, r);
      return PollResult(|usage.value|, total, false);
    }

    /** The part of PollNow after its loop. */
    method FinishPoll(limitHit: bool, r: P.ApplyResult) returns (total: int)
      requires Valid()
      modifies this`core
      ensures core == if limitHit then AppliedCore(old(core), Active(Users()), r) else old(core)
      ensures total == Sum(Used(Users()))
    {
      if limitHit {
        var ok := Rebuild(r);
      }
      ghost var served := core;
      var n: nat;
      total, n := TotalUsed();
      assert core == served;
    }

    method TakeReadings(readings: Counts, unsaved: set<Text>) returns (limitHit: bool)
      requires Valid()
      modifies store`file, store.users.Values
      ensures Valid() && Users() == AfterPoll(old(Users()), readings)
      ensures limitHit <==> LimitHit(old(Users()), readings, unsaved)
    {
      ghost var users0 := Users();
      limitHit := false;
      var todo := readings.Keys;
      ghost var done: set<Text> := {};
      assert AfterPoll(users0, Within(readings, {})) == users0;
      while todo != {}
        invariant Valid() && todo + done == readings.Keys && todo !! done
        invariant Users() == AfterPoll(users0, Within(readings, done))
        invariant limitHit <==> LimitHit(users0, Within(readings, done), unsaved)
      {
        var x :| x in todo;
        var hit := PollOne(x, readings[x], x in unsaved);
        WithinAdd(readings, done, x);
        AfterPollStep(users0, Within(readings, done), x, readings[x]);
        LimitHitStep(users0, Within(readings, done), unsaved, x, readings[x]);
        limitHit := limitHit || hit;
        todo, done := todo - {x}, done + {x};
      }
      assert Within(readings, done) == readings;
    }

    /** Get, SetUsage, Get for one entry of the usage map. */
    method PollOne(x: Text, bytes: int, fails: bool) returns (hit: bool)
      requires Valid()
      modifies store`file, store.users.Values
      ensures Valid() && Users() == Perform(old(Users()), SetUsage(x, bytes))
      ensures hit <==> x in old(Users()) && !fails && Crosses(old(Users())[x], bytes)
    {
      var before := store.Get(x);
      if before.None? { return false; }
      var wasEnabled := before.value.enabled;
      var status := store.SetUsage(x, bytes, if fails then S.WriteFailed else S.Saved);
      if status != S.Ok { return false; }
      var after := store.Get(x);
      hit := after.Some? && wasEnabled && !after.value.enabled;
    }

    /** POST /api/users after the body is decoded; the result is the HTTP status. */
    method HandleCreate(name: Text, limitGB: real, random: Option<(Text, Text)>, now: int,
                        io: S.Io, r: P.ApplyResult, rollbackIo: S.Io) returns (status: int)
      requires Valid()
      modifies this`core, store
      ensures Valid() && status in {201, 400, 500}
      ensures status == 400 <==> Trim(name) == [] || limitGB < 0.0
      ensures status == 400 || random.None? ==> Users() == old(Users()) && core == old(core)
      ensures status != 400 && random.Some? ==>
        var u := NewUser(random.value.0, Trim(name), random.value.1, limitGB, now);
        var added := Perform(old(Users()), Create(u));
        && u.name == Trim(name) && u.limitGB == limitGB && u.enabled && u.usedBytes == 0
        && (status == 201 <==> io.Saved? && r.Running?)
        && (status == 201 ==> Users() == added && Current())
        && (!io.Saved? ==> Users() == added && core == old(core))
        && (io.Saved? && !r.Running? ==>
              Users() == Perform(added, Delete(u.id)) && core == if r.CoreDown? then map[] else old(core))
    {
      var trimmed := Trim(name);
      if trimmed == [] { return 400; }
      if limitGB < 0.0 { return 400; }
      var u := store.Create(trimmed, limitGB, random, now, io);
      if u.None? { return 500; }
      var ok := Rebuild(r);
      if !ok {
        var ignored := store.Delete(u.value.id, rollbackIo);
        return 500;
      }
      return 201;
    }

    /** DELETE /api/users/{id}. */
    method HandleDelete(id: Text, io: S.Io, r: P.ApplyResult) returns (status: int)
      requires Valid()
      modifies this`core, store
      ensures Valid() && Users() == Perform(old(Users()), Delete(id))
      ensures status == if id !in old(Users()) then 404 else if io.Saved? && r.Running? then 204 else 500
      ensures status == 204 ==> Current()
      ensures status == 404 || !io.Saved? || r.NotWritten? ==> core == old(core)
      ensures status == 500 && io.Saved? && r.CoreDown? ==> core == map[]
    {
      var deleted := store.Delete(id, io);
      if deleted == S.NotFound { return 404; }
      if deleted != S.Ok { return 500; }
      var ok := Rebuild(r);
      return if ok then 204 else 500;
    }
  }

  lemma ClientsStep(views: seq<User>, i: nat, clients: map<Text, Text>)
    requires i < |views| && DistinctIds(views)
    requires var before := Active(Load(views[..i]));
      clients == if views[i].enabled then before[views[i].id := views[i].shortId] else before
    ensures clients == Active(Load(views[..i + 1]))
  {
    assert views[..i + 1][..i] == views[..i];
    LoadMember(views[..i]);
    assert views[i].id !in Load(views[..i]);
  }

  lemma ListingSize(list: seq<User>, users: Users)
    requires KeyedById(users) && Listing(list, users)
    ensures |list| == |users|
  {
    LoadSize(list);
    LoadListing(list, users);
  }

  lemma {:induction false} LoadSize(list: seq<User>)
    requires DistinctIds(list)
    ensures |Load(list)| == |list|
  {
    if list != [] {
      LoadSize(list[..|list| - 1]);
      LoadMember(list[..|list| - 1]);
      assert list[|list| - 1].id !in Load(list[..|list| - 1]);
    }
  }

  lemma LimitHitStep(users: Users, part: Counts, unsaved: set<Text>, x: Text, bytes: int)
    requires x !in part
    ensures LimitHit(users, part[x := bytes], unsaved) <==>
      LimitHit(users, part, unsaved) || (x in users && x !in unsaved && Crosses(users[x], bytes))
  {
    var more := part[x := bytes];
    if LimitHit(users, part, unsaved) {
      var y :| y in part && y in users && y !in unsaved && Crosses(users[y], part[y]);
      assert y in more && more[y] == part[y];
    }
    if x in users && x !in unsaved && Crosses(users[x], bytes) {
      assert x in more && more[x] == bytes;
    }
    if LimitHit(users, more, unsaved) {
      var y :| y in more && y in users && y !in unsaved && Crosses(users[y], more[y]);
      if y != x { assert y in part && part[y] == more[y]; }
    }
  }
}
