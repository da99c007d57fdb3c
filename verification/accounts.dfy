/** User records, the quota rule, and what a run of store operations makes of them. */
module Accounts {
  import opened Bytes

  datatype User = User(
    id: Text, name: Text, shortId: Text, limitGB: real,
    usedBytes: int, createdAt: int, enabled: bool)

  type Users = map<Text, User>

  const GIB: real := 1073741824.0

  function NewUser(id: Text, name: Text, shortId: Text, limitGB: real, createdAt: int): User {
    User(id, name, shortId, limitGB, 0, createdAt, true)
  }

  predicate OverLimit(limitGB: real, usedBytes: int) {
    limitGB > 0.0 && usedBytes as real >= limitGB * GIB
  }

  /** SetUsage on one record: the reading replaces the old one and the flag only ever falls. */
  function WithUsage(u: User, bytes: int): User {
    u.(usedBytes := bytes, enabled := u.enabled && !OverLimit(u.limitGB, bytes))
  }

  /** The accounts the core must serve, each with the short id its clients present. */
  function Active(users: Users): map<Text, Text> {
    map x | x in users && users[x].enabled :: users[x].shortId
  }

  ghost predicate KeyedById(users: Users) {
    forall x :: x in users ==> users[x].id == x
  }

  // ---- listings: the users.json array and the result of List ----

  ghost predicate DistinctIds(list: seq<User>) {
    forall i, j :: 0 <= i < j < |list| ==> list[i].id != list[j].id
  }

  /** `list` holds exactly the records of `users`, in some order. */
  ghost predicate Listing(list: seq<User>, users: Users) {
    && DistinctIds(list)
    && (forall u :: u in list ==> u.id in users && users[u.id] == u)
    && (forall x :: x in users ==> users[x] in list)
  }

  /** Open's loop over the decoded array: a later record replaces an earlier one. */
  function Load(list: seq<User>): Users {
    if list == [] then map[]
    else Load(list[..|list| - 1])[list[|list| - 1].id := list[|list| - 1]]
  }

  lemma {:induction false} LoadMember(list: seq<User>)
    requires DistinctIds(list)
    ensures forall u :: u in list ==> u.id in Load(list) && Load(list)[u.id] == u
    ensures forall x :: x in Load(list) ==> Load(list)[x] in list && Load(list)[x].id == x
  {
    if list != [] {
      var front, last := list[..|list| - 1], list[|list| - 1];
      LoadMember(front);
      assert list == front + [last];
    }
  }

  /** Whatever order the map was written in, reading the file gives the map back. */
  lemma LoadListing(list: seq<User>, users: Users)
    requires KeyedById(users) && Listing(list, users)
    ensures Load(list) == users
  {
    LoadMember(list);
    assert forall x :: x in users ==> users[x] in list && users[x].id == x;
  }

  // ---- runs of store operations ----

  datatype Op = Create(user: User) | Delete(id: Text) | SetUsage(id: Text, bytes: int)

  /** The in-memory effect of an operation. It does not depend on whether the write to disk
      that follows succeeds. */
  function Perform(users: Users, op: Op): Users {
    match op
    case Create(u) => users[u.id := u]
    case Delete(id) => users - {id}
    case SetUsage(id, bytes) =>
      if id in users then users[id := WithUsage(users[id], bytes)] else users
  }

  function After(ops: seq<Op>): Users {
    if ops == [] then map[] else Perform(After(ops[..|ops| - 1]), ops[|ops| - 1])
  }

  /** Operations the API can issue: every account starts enabled with no usage. */
  ghost predicate Issued(ops: seq<Op>) {
    forall op :: op in ops && op.Create? ==> op.user.enabled && op.user.usedBytes == 0
  }

  /** The usage readings set for `id` since it was created. */
  function Readings(ops: seq<Op>, id: Text): seq<int> {
    if ops == [] then []
    else
      var earlier := Readings(ops[..|ops| - 1], id);
      match ops[|ops| - 1]
      case Create(u) => if u.id == id then [] else earlier
      case Delete(_) => earlier
      case SetUsage(x, bytes) => if x == id then earlier + [bytes] else earlier
  }

  /** `w` is `u` after these readings. */
  ghost predicate Follows(u: User, w: User, rs: seq<int>) {
    && w == u.(usedBytes := w.usedBytes, enabled := w.enabled)
    && w.usedBytes == (if rs == [] then u.usedBytes else rs[|rs| - 1])
    && (w.enabled <==>
          u.enabled && forall r :: r in rs ==> u.limitGB <= 0.0 || r as real < u.limitGB * 1073741824.0)
  }

  lemma OneMoreReading(u: User, w: User, rs: seq<int>, bytes: int)
    requires Follows(u, w, rs)
    ensures Follows(u, WithUsage(w, bytes), rs + [bytes])
  {
    assert OverLimit(w.limitGB, bytes) <==> w.limitGB > 0.0 && bytes as real >= w.limitGB * 1073741824.0;
    var w', more := WithUsage(w, bytes), rs + [bytes];
    assert forall r :: r in more <==> r in rs || r == bytes;
    assert w' == u.(usedBytes := w'.usedBytes, enabled := w'.enabled);
    assert w'.usedBytes == more[|more| - 1];
    assert u.limitGB == w.limitGB;
    assert bytes in more;
  }

  /** A user is enabled exactly when it is unlimited or every reading ever set for it was below
      its limit of so many times 1024 * 1024 * 1024 bytes, and its counter is the last of those
      readings. */
  lemma {:induction false} EnabledIsHistory(ops: seq<Op>, id: Text)
    requires Issued(ops) && id in After(ops)
    ensures var u, rs := After(ops)[id], Readings(ops, id);
      && (u.enabled <==> u.limitGB <= 0.0 || forall r :: r in rs ==> r as real < u.limitGB * 1073741824.0)
      && u.usedBytes == if rs == [] then 0 else rs[|rs| - 1]
  {
    var front, last := ops[..|ops| - 1], ops[|ops| - 1];
    assert last in ops;
    if !(last.Create? && last.user.id == id) {
      EnabledIsHistory(front, id);
      var rs := Readings(front, id);
      if last.SetUsage? && last.id == id {
        var w := After(front)[id];
        OneMoreReading(w.(usedBytes := 0, enabled := true), w, rs, last.bytes);
      }
    }
  }

  /** No enabled account sits at or over its limit. */
  lemma EnabledIsUnderLimit(ops: seq<Op>, id: Text)
    requires Issued(ops) && id in After(ops) && After(ops)[id].enabled
    ensures var u := After(ops)[id]; u.limitGB <= 0.0 || u.usedBytes as real < u.limitGB * 1073741824.0
  {
    EnabledIsHistory(ops, id);
    var rs := Readings(ops, id);
    if rs != [] {
      assert rs[|rs| - 1] in rs;
    }
  }

  /** The operation that last created `id`, with no deletion of it since. */
  predicate LastCreate(ops: seq<Op>, i: nat, id: Text) {
    && i < |ops| && ops[i].Create? && ops[i].user.id == id
    && forall j :: i < j < |ops| ==> !(ops[j].Create? && ops[j].user.id == id) && ops[j] != Delete(id)
  }

  /** An account is stored exactly when it was created and not deleted since, and its identity,
      name, short id, limit and date are those it was created with. */
  lemma {:induction false} StoredIsHistory(ops: seq<Op>, id: Text)
    ensures id in After(ops) <==> exists i: nat :: LastCreate(ops, i, id)
    ensures forall i: nat :: LastCreate(ops, i, id) ==>
      id in After(ops) &&
      var u, w := ops[i].user, After(ops)[id];
      w.id == id && w.name == u.name && w.shortId == u.shortId && w.limitGB == u.limitGB && w.createdAt == u.createdAt
  {
    if ops != [] {
      var front, last := ops[..|ops| - 1], ops[|ops| - 1];
      StoredIsHistory(front, id);
      if last.Create? && last.user.id == id {
        assert LastCreate(ops, |ops| - 1, id);
      } else if last != Delete(id) {
        assert forall i: nat :: LastCreate(ops, i, id) <==> LastCreate(front, i, id);
      }
    }
  }
}
