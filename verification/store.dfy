/** The file-backed user store, updated in place through shared records. Randomness, the clock
    and the outcome of each write are parameters. */
module Store {
  import opened Bytes
  import opened Accounts
  import opened Journal

  // How WriteFile and Rename went.
  datatype Io = Saved | WriteFailed | RenameFailed

  datatype Status = Ok | NotFound | IoError

  class UserRecord {
    var id: Text
    var name: Text
    var shortId: Text
    var limitGB: real
    var usedBytes: int
    var createdAt: int
    var enabled: bool

    constructor (u: User)
      ensures View() == u
    {
      id, name, shortId, limitGB := u.id, u.name, u.shortId, u.limitGB;
      usedBytes, createdAt, enabled := u.usedBytes, u.createdAt, u.enabled;
    }

    function View(): User
      reads this
    {
      User(id, name, shortId, limitGB, usedBytes, createdAt, enabled)
    }

    /** The body of SetUsage on the record itself. */
    method SetReading(bytes: int)
      modifies this`usedBytes, this`enabled
      ensures View() == WithUsage(old(View()), bytes)
      ensures usedBytes == bytes
      ensures enabled <==> old(enabled) && (limitGB <= 0.0 || bytes as real < limitGB * 1073741824.0)
    {
      usedBytes := bytes;
      if limitGB > 0.0 && usedBytes as real >= limitGB * GIB {
        enabled := false;
      }
    }
  }

  ghost function Views(records: seq<UserRecord>): (r: seq<User>)
    reads records
    ensures |r| == |records|
    ensures forall i :: 0 <= i < |r| ==> r[i] == records[i].View()
  {
    seq(|records|, i requires 0 <= i < |records| reads records => records[i].View())
  }

  ghost predicate NewestFirst(list: seq<User>) {
    forall i, j :: 0 <= i < j < |list| ==> list[i].createdAt >= list[j].createdAt
  }

  ghost function Swap(list: seq<User>, k: nat): seq<User>
    requires 0 < k < |list|
  {
    list[k - 1 := list[k]][k := list[k - 1]]
  }

  lemma ListingSwap(list: seq<User>, users: Users, k: nat)
    requires Listing(list, users) && 0 < k < |list|
    ensures Listing(Swap(list, k), users)
  {
    var list' := Swap(list, k);
    forall u | u in list ensures u in list' {
      var i :| 0 <= i < |list| && list[i] == u;
      assert list'[if i == k then k - 1 else if i == k - 1 then k else i] == u;
    }
  }

  /** The first n + 1 users are in order, save that the one at k may belong further forward. */
  ghost predicate OrderedExcept(list: seq<User>, n: nat, k: nat) {
    n < |list| &&
    forall i, j :: 0 <= i < j <= n && j != k ==> list[i].createdAt >= list[j].createdAt
  }

  lemma OrderedStart(list: seq<User>, n: nat)
    requires n < |list| && NewestFirst(list[..n])
    ensures OrderedExcept(list, n, n)
  {
    forall i, j | 0 <= i < j < n ensures list[i].createdAt >= list[j].createdAt {
      assert list[..n][i].createdAt >= list[..n][j].createdAt;
    }
  }

  lemma SwapKeepsOrder(list: seq<User>, n: nat, k: nat)
    requires 0 < k <= n && OrderedExcept(list, n, k) && list[k - 1].createdAt < list[k].createdAt
    ensures OrderedExcept(Swap(list, k), n, k - 1)
  {
  }

  lemma ViewsSwap(records: seq<UserRecord>, next: seq<UserRecord>, k: nat)
    requires 0 < k < |records| && next == records[k - 1 := records[k]][k := records[k - 1]]
    ensures Views(next) == Swap(Views(records), k)
    ensures forall r :: r in next ==> r in records
  {
  }

  /** sort.Slice by CreatedAt, newest first, exchanging neighbours in place. */
  method SortNewestFirst(records: seq<UserRecord>, ghost users: Users) returns (out: seq<UserRecord>)
    requires Listing(Views(records), users)
    ensures Listing(Views(out), users) && NewestFirst(Views(out))
    ensures forall r :: r in out ==> r in records
  {
    out := records;
    var n := 0;
    while n < |records|
      invariant 0 <= n <= |out| == |records| && Listing(Views(out), users) && NewestFirst(Views(out)[..n])
      invariant forall r :: r in out ==> r in records
    {
      out := InsertNext(out, n, users);
      n := n + 1;
    }
    assert Views(out)[..n] == Views(out);
  }

  /** Moves the record at n forward to its place among the n before it. */
  method InsertNext(records: seq<UserRecord>, n: nat, ghost users: Users) returns (out: seq<UserRecord>)
    requires n < |records| && Listing(Views(records), users) && NewestFirst(Views(records)[..n])
    ensures |out| == |records| && Listing(Views(out), users) && NewestFirst(Views(out)[..n + 1])
    ensures forall r :: r in out ==> r in records
  {
    out := records;
    var k := n;
    OrderedStart(Views(out), n);
    while k > 0 && out[k - 1].createdAt < out[k].createdAt
      invariant 0 <= k <= n && |out| == |records|
      invariant Listing(Views(out), users) && OrderedExcept(Views(out), n, k)
      invariant forall r :: r in out ==> r in records
    {
      var next := out[k - 1 := out[k]][k := out[k - 1]];
      ViewsSwap(out, next, k);
      ListingSwap(Views(out), users, k);
      SwapKeepsOrder(Views(out), n, k);
      out := next;
      k := k - 1;
    }
    PlaceFound(Views(out), n, k);
  }

  lemma PlaceFound(list: seq<User>, n: nat, k: nat)
    requires k <= n && OrderedExcept(list, n, k)
    requires k == 0 || list[k - 1].createdAt >= list[k].createdAt
    ensures NewestFirst(list[..n + 1])
  {
    forall i | 0 <= i < k ensures list[i].createdAt >= list[k].createdAt {
      if i < k - 1 { assert list[i].createdAt >= list[k - 1].createdAt; }
    }
  }

  // A change to the store, with the randomness, the time and the write it meets.
  datatype Change =
    | Added(name: Text, limitGB: real, random: Option<(Text, Text)>, now: int, io: Io)
    | Removed(id: Text, io: Io)
    | Metered(id: Text, bytes: int, io: Io)

  function AfterChange(users: Users, change: Change): Users {
    match change
    case Added(name, limitGB, Some((id, shortId)), now, _) =>
      Perform(users, Accounts.Create(NewUser(id, name, shortId, limitGB, now)))
    case Added(_, _, None, _, _) => users
    case Removed(id, _) => Perform(users, Accounts.Delete(id))
    case Metered(id, bytes, _) => Perform(users, Accounts.SetUsage(id, bytes))
  }

  function AfterChanges(users: Users, changes: seq<Change>): Users
    decreases |changes|
  {
    if changes == [] then users else AfterChanges(AfterChange(users, changes[0]), changes[1..])
  }

  class Store {
    var users: map<Text, UserRecord>
    var file: File                      // users.json

    ghost predicate Valid()
      reads this`users, users.Values
    {
      forall x :: x in users ==> users[x].id == x
    }

    /** The map the rest of the project reasons about. */
    ghost function Model(): Users
      reads this`users, users.Values
    {
      map x | x in users :: users[x].View()
    }

    constructor ()
      ensures Valid() && Model() == map[]
    {
      users := map[];
      file := Absent;
    }

    /** One entry of a loaded file; a later entry with the same id replaces an earlier one. */
    method Keep(u: User)
      requires Valid()
      modifies this`users
      ensures Valid() && Model() == old(Model())[u.id := u]
    {
      var record := new UserRecord(u);
      users := users[record.id := record];
    }

    /** Open: an absent file is an empty store, an unreadable or broken one an error. */
    static method Open(f: File, readable: bool) returns (r: Option<Store>)
      ensures r.Some? <==> readable && f != Torn
      ensures r.Some? ==> r.value.Valid() && Recover(f) == Some(r.value.Model()) && fresh(r.value)
      ensures r.Some? ==> r.value.file == f
    {
      if !readable || f.Torn? { return None; }
      var s := new Store();
      s.file := f;
      if f.Whole? {
        var i := 0;
        while i < |f.list|
          invariant 0 <= i <= |f.list| && s.Valid() && s.Model() == Load(f.list[..i])
          invariant s.file == f && fresh(s)
        {
          s.Keep(f.list[i]);
          assert f.list[..i + 1][..i] == f.list[..i];
          i := i + 1;
        }
        assert f.list[..i] == f.list;
      }
      return Some(s);
    }

    /** Marshals the map in whatever order it iterates, writes it aside and renames it. */
    method PersistLocked(io: Io) returns (ok: bool)
      requires Valid()
      modifies this`file
      ensures ok == io.Saved?
      ensures ok ==> Recover(file) == Some(Model())
      ensures !ok ==> file == old(file)
    {
      var list: seq<User> := [];
      var todo := users.Keys;
      while todo != {}
        invariant todo <= users.Keys && DistinctIds(list)
        invariant forall u :: u in list ==> u.id in users && u.id !in todo && users[u.id].View() == u
        invariant forall x :: x in users && x !in todo ==> users[x].View() in list
      {
        var x :| x in todo;
        list := list + [users[x].View()];
        todo := todo - {x};
      }
      assert KeyedById(Model()) && Listing(list, Model());
      LoadListing(list, Model());
      if io != Saved { return false; }
      file := Whole(list);
      return true;
    }

    /** Fresh copies of all users, newest first. */
    method List() returns (out: seq<UserRecord>)
      requires Valid()
      ensures fresh(set r | r in out)
      ensures Listing(Views(out), Model()) && NewestFirst(Views(out))
    {
      out := [];
      var todo := users.Keys;
      while todo != {}
        invariant todo <= users.Keys && DistinctIds(Views(out))
        invariant fresh(set r | r in out)
        invariant forall u :: u in Views(out) ==> u.id in users && u.id !in todo && users[u.id].View() == u
        invariant forall x :: x in users && x !in todo ==> users[x].View() in Views(out)
      {
        var x :| x in todo;
        var copy := new UserRecord(users[x].View());
        ghost var views := Views(out);
        out := out + [copy];
        assert Views(out) == views + [users[x].View()];
        todo := todo - {x};
      }
      out := SortNewestFirst(out, Model());
    }

    method Get(id: Text) returns (r: Option<UserRecord>)
      requires Valid()
      ensures r.Some? <==> id in users
      ensures r.Some? ==> fresh(r.value) && r.value.View() == Model()[id]
    {
      if id !in users { return None; }
      var copy := new UserRecord(users[id].View());
      return Some(copy);
    }

    /** `random` is the new id and short id, or a failure of the random source. */
    method Create(name: Text, limitGB: real, random: Option<(Text, Text)>, now: int, io: Io)
        returns (r: Option<UserRecord>)
      requires Valid()
      modifies this
      ensures Valid()
      ensures random.None? ==> r.None? && Model() == old(Model()) && file == old(file) && users == old(users)
      ensures random.Some? ==>
        var u := NewUser(random.value.0, name, random.value.1, limitGB, now);
        && Model() == Perform(old(Model()), Accounts.Create(u))
        && (r.Some? <==> io.Saved?)
        && (r.Some? ==> fresh(r.value) && r.value !in users.Values && r.value.View() == u)
        // A new account has the name and limit asked for, is on, and has used nothing.
        && u.id == random.value.0 && u.shortId == random.value.1 && u.name == name && u.limitGB == limitGB
        && u.createdAt == now && u.enabled && u.usedBytes == 0
        && fresh(users.Values - old(users.Values))
        && (if io.Saved? then Recover(file) == Some(Model()) else file == old(file))
    {
      if random.None? { return None; }
      var id, shortId := random.value.0, random.value.1;
      Insert(NewUser(id, name, shortId, limitGB, now));
      assert id in Model() && Model()[id] == NewUser(id, name, shortId, limitGB, now);
      var ok := PersistLocked(io);
      if !ok { return None; }
      var copy := new UserRecord(users[id].View());
      return Some(copy);
    }

    method Insert(u: User)
      requires Valid()
      modifies this`users
      ensures Valid() && Model() == old(Model())[u.id := u] && fresh(users.Values - old(users.Values))
    {
      var record := new UserRecord(u);
      users := users[u.id := record];
      assert Model() == old(Model())[u.id := u];
    }

    method Delete(id: Text, io: Io) returns (r: Status)
      requires Valid()
      modifies this
      ensures Valid() && Model() == Perform(old(Model()), Accounts.Delete(id))
      ensures r == if id !in old(users) then NotFound else if io.Saved? then Ok else IoError
      ensures if r == Ok then Recover(file) == Some(Model()) else file == old(file)
      ensures users.Values <= old(users.Values)
    {
      if id !in users {
        assert Model() - {id} == Model();
        return NotFound;
      }
      users := users - {id};
      assert Model() == old(Model()) - {id};
      var ok := PersistLocked(io);
      return if ok then Ok else IoError;
    }

    method Meter(id: Text, bytes: int)
      requires Valid() && id in users
      modifies users.Values
      ensures Valid() && Model() == old(Model())[id := WithUsage(old(Model())[id], bytes)]
    {
      ghost var before := Model();
      users[id].SetReading(bytes);
      assert forall x :: x in users && x != id ==> users[x].View() == before[x];
    }

    /** The record is changed where it lies, before the write that may fail. */
    method SetUsage(id: Text, bytes: int, io: Io) returns (r: Status)
      requires Valid()
      modifies this`file, users.Values
      ensures Valid() && Model() == Perform(old(Model()), Accounts.SetUsage(id, bytes))
      ensures id in users ==>
        var was, now := old(Model())[id], Model()[id];
        && now == was.(usedBytes := bytes, enabled := now.enabled)
        && (now.enabled <==> was.enabled && (was.limitGB <= 0.0 || bytes as real < was.limitGB * 1073741824.0))
      ensures forall x :: x in users && x != id ==> Model()[x] == old(Model())[x]
      ensures r == if id !in users then NotFound else if io.Saved? then Ok else IoError
      ensures if r == Ok then Recover(file) == Some(Model()) else file == old(file)
    {
      if id !in users { return NotFound; }
      Meter(id, bytes);
      var ok := PersistLocked(io);
      return if ok then Ok else IoError;
    }

    /** One later change: the store's own records move on, and no record outside it is touched
        or taken in. */
    method ApplyChange(change: Change, ghost snapshot: seq<UserRecord>)
      requires Valid() && forall r :: r in snapshot ==> r !in users.Values
      modifies this, users.Values
      ensures Valid() && Model() == AfterChange(old(Model()), change)
      ensures fresh(users.Values - old(users.Values))
      ensures Views(snapshot) == old(Views(snapshot)) && forall r :: r in snapshot ==> r !in users.Values
    {
      match change
      case Metered(id, bytes, io) => var s := SetUsage(id, bytes, io);
      case Removed(id, io) => var s := Delete(id, io);
      case Added(name, limitGB, random, now, io) => var r := Create(name, limitGB, random, now, io);
    }

    /** Any sequence of later changes. */
    method Replay(changes: seq<Change>, ghost snapshot: seq<UserRecord>)
      requires Valid() && forall r :: r in snapshot ==> r !in users.Values
      modifies this, users.Values
      ensures Valid() && Model() == AfterChanges(old(Model()), changes)
      ensures Views(snapshot) == old(Views(snapshot))
      decreases |changes|
    {
      if changes == [] { return; }
      ApplyChange(changes[0], snapshot);
      Replay(changes[1..], snapshot);
    }

    /** A list handed out earlier still describes the store as it was, after any later sequence of
        creates, deletes and readings. */
    method SnapshotIsIsolated(changes: seq<Change>) returns (snapshot: seq<UserRecord>)
      requires Valid()
      modifies this, users.Values
      ensures Listing(Views(snapshot), old(Model())) && NewestFirst(Views(snapshot))
      ensures Valid() && Model() == AfterChanges(old(Model()), changes)
    {
      snapshot := List();
      assert forall r :: r in snapshot ==> r in (set q | q in snapshot);
      Replay(changes, snapshot);
    }
  }
}
