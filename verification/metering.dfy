/** From the clients of a generated configuration to the counters of the accounts: the core reports
    traffic under each client's email, and a poll must credit it to the client's own account. */
module Metering {
  import opened Bytes
  import opened Accounts
  import opened Sums
  import opened Ids
  import opened XrayConfig
  import opened Stats
  import opened Polling

  // The bytes the core has counted for an email, in one direction.
  type Traffic = Text -> nat

  const UPLINK: Text := "uplink"
  const DOWNLINK: Text := "downlink"

  /** The core's answer for these clients, in some order: two entries for each. */
  function Lines(clients: seq<Client>, up: Traffic, down: Traffic): seq<Stat> {
    if clients == [] then []
    else
      var front, last := clients[..|clients| - 1], clients[|clients| - 1];
      Lines(front, up, down)
      + [Stat(StatName(last.email, UPLINK), up(last.email))] + [Stat(StatName(last.email, DOWNLINK), down(last.email))]
  }

  /** Every client belongs to one enabled user, and what the core reports under its email is
      credited to that user's id, in either direction. */
  lemma ClientIsMetered(cfg: Config, users: seq<User>, c: Client, direction: Text)
    requires c in ClientsOf(cfg, users) && forall u :: u in users ==> UuidShaped(u.id)
    ensures exists u :: u in users && u.enabled && c.id == u.id && KeyOf(StatName(c.email, direction)) == Some(u.id)
  {
    ClientsAreEnabledUsers(cfg, users, c);
    var u :| u in users && u.enabled && c == ClientOf(cfg, u);
    EntryNamesItsUser(u.id, direction);
  }

  lemma TwoMore(stats: seq<Stat>, email: Text, up: nat, down: nat, id: Text)
    requires UuidShaped(email)
    ensures var more := stats + [Stat(StatName(email, UPLINK), up)] + [Stat(StatName(email, DOWNLINK), down)];
      && Credit(more, id) == Credit(stats, id) + (if email == id then up + down else 0)
      && (Mentions(more, id) <==> Mentions(stats, id) || email == id)
  {
    var a, b := Stat(StatName(email, UPLINK), up), Stat(StatName(email, DOWNLINK), down);
    EntryNamesItsUser(email, UPLINK);
    EntryNamesItsUser(email, DOWNLINK);
    CreditAppend(stats, a, id);
    CreditAppend(stats + [a], b, id);
    MentionsAppend(stats, a, id);
    MentionsAppend(stats + [a], b, id);
  }

  ghost predicate Serves(users: seq<User>, id: Text) {
    exists u :: u in users && u.enabled && u.id == id
  }

  lemma {:induction false} LinesCredit(cfg: Config, users: seq<User>, up: Traffic, down: Traffic, id: Text)
    requires DistinctIds(users) && forall u :: u in users ==> UuidShaped(u.id)
    ensures var stats := Lines(ClientsOf(cfg, users), up, down);
      && (Mentions(stats, id) <==> Serves(users, id))
      && Credit(stats, id) == if Serves(users, id) then up(id) + down(id) else 0
  {
    if users != [] {
      var front, last := users[..|users| - 1], users[|users| - 1];
      LinesCredit(cfg, front, up, down, id);
      assert users == front + [last];
      ServesAppend(front, last, id);
      assert last.id == id ==> !Serves(front, id);
      assert UuidShaped(last.id);
      if last.enabled {
        LinesAppend(cfg, front, last, up, down);
        TwoMore(Lines(ClientsOf(cfg, front), up, down), last.id, up(last.id), down(last.id), id);
      } else {
        assert ClientsOf(cfg, users) == ClientsOf(cfg, front);
      }
    }
  }

  lemma LinesAppend(cfg: Config, users: seq<User>, last: User, up: Traffic, down: Traffic)
    requires last.enabled
    ensures Lines(ClientsOf(cfg, users + [last]), up, down)
         == Lines(ClientsOf(cfg, users), up, down)
            + [Stat(StatName(last.id, UPLINK), up(last.id))] + [Stat(StatName(last.id, DOWNLINK), down(last.id))]
  {
    var clients := ClientsOf(cfg, users);
    assert (users + [last])[..|users|] == users;
    assert (clients + [ClientOf(cfg, last)])[..|clients|] == clients;
  }

  lemma ServesAppend(users: seq<User>, last: User, id: Text)
    ensures Serves(users + [last], id) <==> Serves(users, id) || (last.enabled && last.id == id)
  {
    if Serves(users, id) {
      var u :| u in users && u.enabled && u.id == id;
      assert u in users + [last];
    }
    if last.enabled && last.id == id { assert last in users + [last]; }
  }

  lemma ListedAreShaped(list: seq<User>, users: Users)
    requires Listing(list, users) && forall x :: x in users ==> UuidShaped(x)
    ensures forall u :: u in list ==> UuidShaped(u.id)
  {
  }

  /** What the core counted for the account `x`, if it served it. */
  predicate MeteredFor(usage: Counts, active: map<Text, Text>, up: Traffic, down: Traffic, x: Text) {
    (x in usage <==> x in active) && (x in usage ==> usage[x] == up(x) + down(x))
  }

  lemma LinesMeter(cfg: Config, list: seq<User>, users: Users, up: Traffic, down: Traffic, x: Text)
    requires KeyedById(users) && Listing(list, users) && forall y :: y in users ==> UuidShaped(y)
    ensures MeteredFor(UsageOf(Lines(ClientsOf(cfg, list), up, down)), Active(users), up, down, x)
  {
    ListedAreShaped(list, users);
    UsageAggregates(Lines(ClientsOf(cfg, list), up, down));
    LinesCredit(cfg, list, up, down, x);
    ServedIsActive(list, users, x);
  }

  /** The usage of a core that runs the generated configuration, however its answer is ordered:
      every active account, and no other, with what was counted for its own client. */
  lemma MeteredUsage(cfg: Config, list: seq<User>, users: Users, stats: seq<Stat>, up: Traffic, down: Traffic, x: Text)
    requires KeyedById(users) && Listing(list, users) && forall y :: y in users ==> UuidShaped(y)
    requires multiset(stats) == multiset(Lines(ClientsOf(cfg, list), up, down))
    ensures var usage := UsageOf(stats);
      (x in usage <==> x in Active(users)) && (x in usage ==> usage[x] == up(x) + down(x))
  {
    UsagePermutes(stats, Lines(ClientsOf(cfg, list), up, down));
    LinesMeter(cfg, list, users, up, down, x);
  }

  lemma ServedIsActive(list: seq<User>, users: Users, x: Text)
    requires KeyedById(users) && Listing(list, users)
    ensures Serves(list, x) <==> x in Active(users)
  {
    if x in Active(users) { assert users[x] in list; }
  }

  /** The answer itself: its values printed in decimal, quoted or not. */
  ghost predicate Answers(raw: seq<RawStat>, stats: seq<Stat>) {
    |raw| == |stats| && forall i :: 0 <= i < |raw| ==> Prints(raw[i], stats[i])
  }

  /** So a poll of that core, whatever was created, deleted or metered since its configuration was
      generated from `was`: an account served by it gets exactly its own client's traffic as its
      counter, and is off afterwards exactly when it was or that is at or over its limit; every other
      account is left as it is. */
  lemma MeteredPoll(cfg: Config, list: seq<User>, was: Users, users: Users, raw: seq<RawStat>, stats: seq<Stat>,
                    up: Traffic, down: Traffic, x: Text)
    requires KeyedById(was) && Listing(list, was) && forall y :: y in was ==> UuidShaped(y)
    requires Answers(raw, stats) && multiset(stats) == multiset(Lines(ClientsOf(cfg, list), up, down))
    requires x in users
    ensures DecodeAll(raw) == Some(stats)
    ensures var u, w := users[x], AfterPoll(users, UsageOf(stats))[x];
      var bytes := up(x) + down(x);
      if x in Active(was) then
        && w == u.(usedBytes := bytes, enabled := w.enabled)
        && (w.enabled <==> u.enabled && (u.limitGB <= 0.0 || bytes as real < u.limitGB * 1073741824.0))
      else w == u
  {
    PrintedAnswer(raw, stats);
    MeteredUsage(cfg, list, was, stats, up, down, x);
    PolledRecord(users, UsageOf(stats), x);
  }
}
