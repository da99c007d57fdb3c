/** What one whole usage poll does to the accounts, with no mention of an iteration order. */
module Polling {
  import opened Bytes
  import opened Accounts
  import opened Sums

  function AfterPoll(users: Users, usage: Counts): Users {
    map x | x in users :: if x in usage then WithUsage(users[x], usage[x]) else users[x]
  }

  /** A poll replaces the counter of each account it has a reading for, and switches the account off
      exactly when that reading is at or over its limit. */
  lemma PolledRecord(users: Users, usage: Counts, x: Text)
    requires x in users
    ensures AfterPoll(users, usage).Keys == users.Keys
    ensures var u, w := users[x], AfterPoll(users, usage)[x];
      if x in usage then
        && w == u.(usedBytes := usage[x], enabled := w.enabled)
        && (w.enabled <==> u.enabled && (u.limitGB <= 0.0 || usage[x] as real < u.limitGB * 1073741824.0))
      else w == u
  {
  }

  predicate Crosses(u: User, bytes: int) { u.enabled && OverLimit(u.limitGB, bytes) }

  /** Some user crossed its limit with a reading that could be saved. */
  ghost predicate LimitHit(users: Users, usage: Counts, unsaved: set<Text>) {
    exists x :: x in usage && x in users && x !in unsaved && Crosses(users[x], usage[x])
  }

  function Used(users: Users): Counts {
    map x | x in users :: users[x].usedBytes
  }

  /** The total after a poll: the new readings of known users plus the untouched counters of
      the users the core did not report. */
  lemma TotalAfterPoll(users: Users, usage: Counts)
    ensures Sum(Used(AfterPoll(users, usage)))
         == Sum(Within(usage, users.Keys)) + Sum(Outside(Used(users), usage.Keys))
  {
    var m := Used(AfterPoll(users, usage));
    SumSplit(m, usage.Keys);
    assert Within(m, usage.Keys) == Within(usage, users.Keys);
    assert Outside(m, usage.Keys) == Outside(Used(users), usage.Keys);
  }

  lemma AfterPollStep(users: Users, part: Counts, x: Text, bytes: int)
    requires x !in part
    ensures AfterPoll(users, part[x := bytes]) == Perform(AfterPoll(users, part), SetUsage(x, bytes))
    ensures x in users ==> AfterPoll(users, part)[x] == users[x]
  {
  }

  /** The readings taken so far, extended by one. */
  lemma WithinAdd(usage: Counts, done: set<Text>, x: Text)
    requires x in usage
    ensures Within(usage, done + {x}) == Within(usage, done)[x := usage[x]]
  {
  }

  /** Two polls over disjoint sets of users commute, so the order in which a map hands out its
      entries cannot matter. */
  lemma AfterPollCommutes(users: Users, a: Counts, b: Counts)
    requires a.Keys !! b.Keys
    ensures AfterPoll(AfterPoll(users, a), b) == AfterPoll(AfterPoll(users, b), a) == AfterPoll(users, a + b)
  {
  }

  /** The sum over any listing of the users is the sum over the map. */
  function ListTotal(list: seq<User>): int {
    if list == [] then 0 else ListTotal(list[..|list| - 1]) + list[|list| - 1].usedBytes
  }

  lemma {:induction false} LoadTotal(list: seq<User>)
    requires DistinctIds(list)
    ensures ListTotal(list) == Sum(Used(Load(list)))
  {
    if list != [] {
      var front, last := list[..|list| - 1], list[|list| - 1];
      LoadTotal(front);
      LoadMember(front);
      assert last.id !in Load(front);
      assert Used(Load(list)) == Used(Load(front))[last.id := last.usedBytes];
      SumUpdate(Used(Load(front)), last.id, last.usedBytes);
    }
  }

  lemma ListingTotal(list: seq<User>, users: Users)
    requires KeyedById(users) && Listing(list, users)
    ensures ListTotal(list) == Sum(Used(users))
  {
    LoadTotal(list);
    LoadListing(list, users);
  }
}
