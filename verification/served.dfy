/** The server's runs and the links it prints, put together: which links the core accepts. */
module ServedLinks {
  import opened Bytes
  import opened Accounts
  import opened Ids
  import opened XrayConfig
  import opened Links
  import opened ClientLinks
  import opened Agreement
  import opened Matching
  import Utf8
  import P = Protocol
  import T = ServerTheorems

  /** Two listings of stores with the same active accounts give inbounds that accept the same. */
  lemma SameInbound(cfg: Config, a: seq<User>, b: seq<User>, was: Users, now: Users, r: Option<Outbound>)
    requires KeyedById(was) && Listing(a, was) && KeyedById(now) && Listing(b, now) && Active(was) == Active(now)
    ensures Matches(cfg, a, r) <==> Matches(cfg, b, r)
  {
    if r.Some? {
      SameClients(cfg, a, b, was, now, r.value);
      SameClients(cfg, b, a, now, was, r.value);
      if r.value.tls.Some? && r.value.tls.value.reality.Some? {
        var id := r.value.tls.value.reality.value.shortId;
        ConfigServesActive(cfg, a, was, id);
        ConfigServesActive(cfg, b, now, id);
      }
    }
  }

  lemma SameClients(cfg: Config, a: seq<User>, b: seq<User>, was: Users, now: Users, o: Outbound)
    requires KeyedById(was) && Listing(a, was) && KeyedById(now) && Listing(b, now) && Active(was) == Active(now)
    ensures AcceptsClient(ClientsOf(cfg, a), o) ==> AcceptsClient(ClientsOf(cfg, b), o)
  {
    if AcceptsClient(ClientsOf(cfg, a), o) {
      var c :| c in ClientsOf(cfg, a) && c.id == o.uuid && c.flow == o.flow;
      ClientsAreEnabledUsers(cfg, a, c);
      var u :| u in a && u.enabled && c == ClientOf(cfg, u);
      assert u.id in Active(was) && u.id in Active(now);
      ClientsAreEnabledUsers(cfg, b, c);
      assert now[u.id] in b && ClientOf(cfg, now[u.id]) == c;
    }
  }

  /** In every run without failures, whenever no request is in flight: the deep link of a stored
      user yields an outbound that the inbound last applied accepts, exactly under the condition
      the configuration and the user's flag give, whatever listing that inbound was generated from
      and however the accounts were metered since. */
  lemma StoredLinkIsServed(s0: P.Server, run: P.Run, was: Users, applied: seq<User>, cfg: Config, x: Text,
                           validIPv6: Text -> bool)
    requires P.Initial(s0) && P.Legal(s0, run) && T.Idle(P.End(s0, run)) && P.End(s0, run).faults == 0
    requires KeyedById(was) && Listing(applied, was) && Active(was) == P.End(s0, run).core
    requires x in P.End(s0, run).users && UuidShaped(x) && Utf8.IsText(P.End(s0, run).users[x].shortId)
    ensures var u := P.End(s0, run).users[x];
      var parsed := ParseShareLink(LanwayLink(VlessLink(cfg, u), LabelOf(cfg)), validIPv6);
      && (parsed.Parsed? ==> parsed.vless == VlessLink(cfg, u))
      && (parsed.Parsed? && Matches(cfg, applied, Translate(parsed.vless, validIPv6))
          <==> u.enabled && LinkWorks(cfg, validIPv6))
  {
    var users := P.End(s0, run).users;
    T.RunKeepsInvariant(s0, run);
    T.IdleServerIsCurrent(s0, run);
    var list := SomeListing(users);
    LinkMatchesServer(cfg, list, users[x], validIPv6);
    SameInbound(cfg, applied, list, was, users, Translate(VlessLink(cfg, users[x]), validIPv6));
  }

  lemma {:induction false} SomeListing(users: Users) returns (list: seq<User>)
    requires KeyedById(users)
    ensures Listing(list, users)
    decreases |users|
  {
    if users == map[] {
      list := [];
    } else {
      var x :| x in users;
      var rest := SomeListing(users - {x});
      list := rest + [users[x]];
      assert forall y :: y in users && y != x ==> (users - {x})[y] in rest;
    }
  }
}
