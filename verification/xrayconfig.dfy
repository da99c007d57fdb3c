/** The VPN inbound of the core's configuration, generated from the server configuration and the
    listed users. Constant parts of the document are left out. */
module XrayConfig {
  import opened Bytes
  import opened Accounts

  const MODE_REALITY: Text := "reality"
  const MODE_TLS: Text := "tls"
  const MODE_PROXY: Text := "proxy"
  const VISION: Text := "xtls-rprx-vision"

  datatype RealityConfig = RealityConfig(dest: Text, serverNames: seq<Text>, privateKey: Text, publicKey: Text)
  datatype TlsConfig = TlsConfig(domain: Text, certPath: Text, keyPath: Text, wsPath: Text)

  datatype Config = Config(
    publicHost: Text, vpnPort: int, publicPort: int, mode: Text, reality: RealityConfig, tls: TlsConfig)

  datatype Client = Client(id: Text, email: Text, flow: Option<Text>)

  datatype Stream =
    | WsPlain(path: Text)
    | WsTls(serverName: Text, certPath: Text, keyPath: Text, path: Text)
    | Reality(dest: Text, serverNames: seq<Text>, privateKey: Text, shortIds: seq<Text>)

  datatype Inbound = Inbound(port: int, clients: seq<Client>, stream: Stream)

  function ClientOf(cfg: Config, u: User): Client {
    Client(u.id, u.id, if cfg.mode == MODE_REALITY then Some(VISION) else None)
  }

  function ClientsOf(cfg: Config, users: seq<User>): seq<Client> {
    if users == [] then []
    else
      var front, last := users[..|users| - 1], users[|users| - 1];
      ClientsOf(cfg, front) + if last.enabled then [ClientOf(cfg, last)] else []
  }

  function Enabled(users: seq<User>): seq<User> {
    if users == [] then []
    else
      var front, last := users[..|users| - 1], users[|users| - 1];
      Enabled(front) + if last.enabled then [last] else []
  }

  lemma {:induction false} ClientsInOrder(cfg: Config, users: seq<User>)
    ensures var clients, enabled := ClientsOf(cfg, users), Enabled(users);
      && |clients| == |enabled|
      && forall i :: 0 <= i < |clients| ==>
           && clients[i].id == clients[i].email == enabled[i].id
           && clients[i].flow == if cfg.mode == "reality" then Some("xtls-rprx-vision") else None
  {
    if users != [] { ClientsInOrder(cfg, users[..|users| - 1]); }
  }

  /** The empty short id is always allowed. */
  function ShortIdsOf(users: seq<User>): seq<Text> {
    if users == [] then [[]]
    else
      var front, last := users[..|users| - 1], users[|users| - 1];
      ShortIdsOf(front) + if last.enabled && last.shortId != [] then [last.shortId] else []
  }

  /** One client for each enabled user, in the order of the listing, known to the core's statistics
      by the user's id, and with the vision flow in REALITY mode only. */
  method GenerateConfig(cfg: Config, users: seq<User>) returns (inbound: Inbound)
    ensures inbound.port == cfg.vpnPort && inbound.clients == ClientsOf(cfg, users)
    ensures inbound.stream == StreamOf(cfg, users)
    ensures |inbound.clients| == |Enabled(users)|
    ensures forall i :: 0 <= i < |inbound.clients| ==>
      && inbound.clients[i].id == inbound.clients[i].email == Enabled(users)[i].id
      && inbound.clients[i].flow == if cfg.mode == "reality" then Some("xtls-rprx-vision") else None
  {
    ClientsInOrder(cfg, users);
    var clients: seq<Client> := [];
    for i := 0 to |users|
      invariant clients == ClientsOf(cfg, users[..i])
    {
      assert users[..i + 1][..i] == users[..i];
      if !users[i].enabled { continue; }
      var client := Client(users[i].id, users[i].id, None);
      if cfg.mode == MODE_REALITY {
        client := client.(flow := Some(VISION));
      }
      clients := clients + [client];
    }
    assert users[..|users|] == users;
    var stream := BuildStreamSettings(cfg, users);
    inbound := Inbound(cfg.vpnPort, clients, stream);
  }

  /** Every mode but proxy and tls, known or not, gets REALITY. */
  function StreamOf(cfg: Config, users: seq<User>): Stream {
    if cfg.mode == MODE_PROXY then WsPlain(cfg.tls.wsPath)
    else if cfg.mode == MODE_TLS then WsTls(cfg.tls.domain, cfg.tls.certPath, cfg.tls.keyPath, cfg.tls.wsPath)
    else Reality(cfg.reality.dest, cfg.reality.serverNames, cfg.reality.privateKey, ShortIdsOf(users))
  }

  /** Plain WebSocket behind a proxy, TLS with the operator's own certificate and key, or REALITY
      with the operator's key and destination. */
  method BuildStreamSettings(cfg: Config, users: seq<User>) returns (stream: Stream)
    ensures stream == StreamOf(cfg, users)
    ensures stream.WsPlain? <==> cfg.mode == "proxy"
    ensures stream.WsTls? <==> cfg.mode == "tls"
    ensures stream.WsPlain? ==> stream.path == cfg.tls.wsPath
    ensures stream.WsTls? ==>
      && stream.serverName == cfg.tls.domain && stream.path == cfg.tls.wsPath
      && stream.certPath == cfg.tls.certPath && stream.keyPath == cfg.tls.keyPath
    ensures stream.Reality? ==>
      && stream.dest == cfg.reality.dest && stream.serverNames == cfg.reality.serverNames
      && stream.privateKey == cfg.reality.privateKey
      && forall id :: id in stream.shortIds <==> id == [] || exists u :: u in users && u.enabled && u.shortId == id
  {
    forall id ensures id in ShortIdsOf(users) <==> id == [] || exists u :: u in users && u.enabled && u.shortId == id {
      ShortIdsAreEnabledUsers(users, id);
    }
    if cfg.mode == MODE_PROXY {
      return WsPlain(cfg.tls.wsPath);
    }
    if cfg.mode == MODE_TLS {
      return WsTls(cfg.tls.domain, cfg.tls.certPath, cfg.tls.keyPath, cfg.tls.wsPath);
    }
    var shortIds: seq<Text> := [[]];
    for i := 0 to |users|
      invariant shortIds == ShortIdsOf(users[..i])
    {
      assert users[..i + 1][..i] == users[..i];
      if users[i].enabled && users[i].shortId != [] {
        shortIds := shortIds + [users[i].shortId];
      }
    }
    assert users[..|users|] == users;
    return Reality(cfg.reality.dest, cfg.reality.serverNames, cfg.reality.privateKey, shortIds);
  }

  /** A client is listed exactly for the enabled users. */
  lemma {:induction false} ClientsAreEnabledUsers(cfg: Config, users: seq<User>, c: Client)
    ensures c in ClientsOf(cfg, users) <==> exists u :: u in users && u.enabled && c == ClientOf(cfg, u)
  {
    if users != [] {
      var front, last := users[..|users| - 1], users[|users| - 1];
      ClientsAreEnabledUsers(cfg, front, c);
      assert users == front + [last];
    }
  }

  lemma {:induction false} ShortIdsAreEnabledUsers(users: seq<User>, id: Text)
    ensures id in ShortIdsOf(users) <==> id == [] || exists u :: u in users && u.enabled && u.shortId == id
  {
    if users != [] {
      var front, last := users[..|users| - 1], users[|users| - 1];
      ShortIdsAreEnabledUsers(front, id);
      assert users == front + [last];
    }
  }

  /** The configuration depends on the listing only through the active accounts: whatever order
      List returns, the accepted ids are theirs, and so are the short ids besides the empty one. */
  lemma ConfigServesActive(cfg: Config, list: seq<User>, users: Users, id: Text)
    requires KeyedById(users) && Listing(list, users)
    ensures (exists c :: c in ClientsOf(cfg, list) && c.id == id) <==> id in Active(users)
    ensures id in ShortIdsOf(list) <==> id == [] || id in Active(users).Values
  {
    if id in Active(users) {
      ClientsAreEnabledUsers(cfg, list, ClientOf(cfg, users[id]));
    }
    forall c | c in ClientsOf(cfg, list) && c.id == id ensures id in Active(users) {
      ClientsAreEnabledUsers(cfg, list, c);
    }
    ShortIdsAreEnabledUsers(list, id);
    if id in Active(users).Values {
      var x :| x in Active(users) && Active(users)[x] == id;
      assert users[x] in list;
    }
    forall u | u in list && u.enabled ensures u.shortId in Active(users).Values {
      assert Active(users)[u.id] == u.shortId;
    }
  }
}
