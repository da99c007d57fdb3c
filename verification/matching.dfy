/** Links against the server's own configuration: the outbound a client builds from a user's link
    is one the generated inbound accepts, exactly under conditions an operator can check. */
module Matching {
  import opened Bytes
  import PercentEncoding
  import opened Query
  import opened Uris
  import opened Accounts
  import opened Ids
  import opened XrayConfig
  import opened Links
  import opened ClientLinks
  import opened Agreement
  import opened Utf8

  /** The credentials: some listed client has the outbound's uuid and flow. */
  ghost predicate AcceptsClient(clients: seq<Client>, o: Outbound) {
    exists c :: c in clients && c.id == o.uuid && c.flow == o.flow
  }

  /** The transport: TLS or REALITY parameters and WebSocket path. In proxy mode the operator's
      web server ends TLS for the domain in front of a plain WebSocket inbound. */
  ghost predicate AcceptsStream(cfg: Config, stream: Stream, o: Outbound) {
    o.tls.Some? &&
    match stream
    case Reality(_, names, _, shortIds) =>
      && o.wsPath == None && o.tls.value.reality.Some? && o.tls.value.serverName in names
      && o.tls.value.reality.value.shortId in shortIds
      && o.tls.value.reality.value.publicKey == cfg.reality.publicKey
    case WsTls(serverName, _, _, path) =>
      o.tls.value == TlsPart(serverName, None) && o.wsPath == Some(path)
    case WsPlain(path) =>
      o.tls.value == TlsPart(cfg.tls.domain, None) && o.wsPath == Some(path)
  }

  /** The address, up to letter case: the public host, or with none the domain of a mode that has
      its own. */
  predicate Reaches(cfg: Config, o: Outbound) {
    && o.port == cfg.publicPort && o.server != []
    && (o.server == Lower(cfg.publicHost)
        || (cfg.publicHost == [] && cfg.mode in {MODE_TLS, MODE_PROXY} && o.server == Lower(cfg.tls.domain)))
  }

  ghost predicate Matches(cfg: Config, users: seq<User>, r: Option<Outbound>) {
    && r.Some? && Reaches(cfg, r.value)
    && AcceptsClient(ClientsOf(cfg, users), r.value)
    && AcceptsStream(cfg, StreamOf(cfg, users), r.value)
  }

  // ---- the outbound of each kind of link ----

  lemma TypesDecode()
    ensures Decode("none") == Some("none") && Decode("ws") == Some("ws") && Decode("tcp") == Some("tcp")
  {
    AsciiIsText("none");
    AsciiIsText("ws");
    AsciiIsText("tcp");
  }

  lemma FixedValuesDecode()
    ensures Decode(MODE_TLS) == Some(MODE_TLS) && Decode(MODE_REALITY) == Some(MODE_REALITY)
    ensures Decode(VISION) == Some(VISION) && Decode(CHROME) == Some(CHROME)
  {
    AsciiIsText(MODE_TLS);
    AsciiIsText(MODE_REALITY);
    AsciiIsText(VISION);
    AsciiIsText(CHROME);
  }

  /** The translated credentials and transport of a printed query, whatever the address. */
  lemma DomainOutbound(cfg: Config, uri: Uri)
    ensures var o := OutboundOf(uri, Decodings(DomainQuery(cfg)));
      && o.uuid == uri.userInfo && o.flow == None
      && o.tls == Some(TlsPart(Decoding(cfg.tls.domain), None)) && o.wsPath == Some(Decoding(cfg.tls.wsPath))
  {
    KeysDiffer();
    TypesDecode();
    FixedValuesDecode();
    assert |MODE_TLS| == 3 && |MODE_REALITY| == 7;
    var q := Decodings(DomainQuery(cfg));
    assert q[SECURITY] == "tls" && q[TYPE] == "ws" && FLOW !in q;
    assert q[SNI] == Decoding(cfg.tls.domain) && q[PATH] == Decoding(cfg.tls.wsPath);
  }

  lemma RealityOutbound(cfg: Config, u: User, uri: Uri)
    ensures var o := OutboundOf(uri, Decodings(RealityQuery(cfg, u)));
      && o.uuid == uri.userInfo && o.flow == Some(VISION) && o.wsPath == None
      && o.tls == Some(TlsPart(
           if cfg.reality.serverNames == [] then uri.host else Decoding(cfg.reality.serverNames[0]),
           Some(RealityPart(CHROME, Decoding(cfg.reality.publicKey), Decoding(u.shortId)))))
  {
    RealityValues(cfg, u);
    RealityTranslates(uri, Decodings(RealityQuery(cfg, u)));
  }

  /** The keys of a REALITY link, as the client reads them. */
  predicate ReadsAsReality(q: Values) {
    && SECURITY in q && q[SECURITY] == "reality" && TYPE in q && q[TYPE] == "tcp"
    && FLOW in q && q[FLOW] == VISION && FP in q && q[FP] == CHROME && PBK in q && SID in q
  }

  lemma RealityValues(cfg: Config, u: User)
    ensures var q := Decodings(RealityQuery(cfg, u));
      && ReadsAsReality(q) && q[PBK] == Decoding(cfg.reality.publicKey) && q[SID] == Decoding(u.shortId)
      && (if cfg.reality.serverNames == [] then SNI !in q
          else SNI in q && q[SNI] == Decoding(cfg.reality.serverNames[0]))
  {
    RealityWritten(cfg, u);
    TypesDecode();
    FixedValuesDecode();
  }

  lemma RealityWritten(cfg: Config, u: User)
    ensures var q := RealityQuery(cfg, u);
      && ReadsAsReality(q) && q[PBK] == cfg.reality.publicKey && q[SID] == u.shortId
      && (if cfg.reality.serverNames == [] then SNI !in q else SNI in q && q[SNI] == cfg.reality.serverNames[0])
  {
    KeysDiffer();
  }

  lemma RealityTranslates(uri: Uri, q: Values)
    requires ReadsAsReality(q)
    ensures var o := OutboundOf(uri, q);
      && o.uuid == uri.userInfo && o.flow == Some(VISION) && o.wsPath == None
      && o.tls == Some(TlsPart(if SNI in q then q[SNI] else uri.host, Some(RealityPart(CHROME, q[PBK], q[SID]))))
  {
    assert |VISION| > 0 && |CHROME| == 6;
  }

  predicate KnownMode(cfg: Config) { cfg.mode in {MODE_REALITY, MODE_TLS, MODE_PROXY} }

  lemma SameUser(users: seq<User>, u: User, w: User)
    requires DistinctIds(users) && u in users && w in users && u.id == w.id
    ensures u == w
  {
  }

  lemma CredentialsMatch(cfg: Config, users: seq<User>, u: User, o: Outbound)
    requires DistinctIds(users) && u in users
    requires o.uuid == u.id && o.flow == if OwnDomain(cfg) then None else Some(VISION)
    ensures AcceptsClient(ClientsOf(cfg, users), o) <==> u.enabled && KnownMode(cfg)
  {
    ModesDiffer();
    if u.enabled && KnownMode(cfg) {
      ClientsAreEnabledUsers(cfg, users, ClientOf(cfg, u));
      assert ClientOf(cfg, u) in ClientsOf(cfg, users);
    }
    forall c | c in ClientsOf(cfg, users) && c.id == o.uuid && c.flow == o.flow
      ensures u.enabled && KnownMode(cfg)
    {
      ClientsAreEnabledUsers(cfg, users, c);
      var w :| w in users && w.enabled && c == ClientOf(cfg, w);
      SameUser(users, u, w);
    }
  }

  lemma ModesDiffer()
    ensures MODE_REALITY != MODE_TLS && MODE_TLS != MODE_PROXY && MODE_REALITY != MODE_PROXY
  {
    assert |MODE_REALITY| == 7 && |MODE_TLS| == 3 && |MODE_PROXY| == 5;
  }

  /** The strings a link carries are texts, so that the client reads what the server wrote; of the
      server names it is enough that the first decodes to one of them. */
  predicate TextsSurvive(cfg: Config) {
    if OwnDomain(cfg) then IsText(cfg.tls.domain) && IsText(cfg.tls.wsPath)
    else
      && cfg.reality.serverNames != [] && Decode(cfg.reality.serverNames[0]).Some?
      && Decode(cfg.reality.serverNames[0]).value in cfg.reality.serverNames && IsText(cfg.reality.publicKey)
  }

  lemma DomainDecodes(cfg: Config)
    ensures AllDecode(DomainQuery(cfg)) <==> Decode(cfg.tls.domain).Some? && Decode(cfg.tls.wsPath).Some?
  {
    KeysDiffer();
    TypesDecode();
    FixedValuesDecode();
    var q := DomainQuery(cfg);
    assert q[SNI] == cfg.tls.domain && q[PATH] == cfg.tls.wsPath;
  }

  lemma RealityDecodes(cfg: Config, u: User)
    requires IsText(u.shortId) && cfg.reality.serverNames != []
    ensures AllDecode(RealityQuery(cfg, u)) <==>
      Decode(cfg.reality.serverNames[0]).Some? && Decode(cfg.reality.publicKey).Some?
  {
    KeysDiffer();
    TypesDecode();
    FixedValuesDecode();
    var q := RealityQuery(cfg, u);
    assert q[SNI] == cfg.reality.serverNames[0] && q[PBK] == cfg.reality.publicKey && q[SID] == u.shortId;
  }

  lemma DomainStream(cfg: Config, users: seq<User>, uri: Uri)
    requires OwnDomain(cfg)
    ensures AllDecode(DomainQuery(cfg))
            && AcceptsStream(cfg, StreamOf(cfg, users), OutboundOf(uri, Decodings(DomainQuery(cfg))))
      <==> TextsSurvive(cfg)
  {
    ModesDiffer();
    DomainOutbound(cfg, uri);
    DomainDecodes(cfg);
    TextDecodes(cfg.tls.domain);
    TextDecodes(cfg.tls.wsPath);
  }

  lemma RealityStream(cfg: Config, users: seq<User>, u: User, uri: Uri)
    requires !OwnDomain(cfg) && u in users && u.enabled && IsText(u.shortId)
    ensures AllDecode(RealityQuery(cfg, u))
            && AcceptsStream(cfg, StreamOf(cfg, users), OutboundOf(uri, Decodings(RealityQuery(cfg, u))))
      <==> TextsSurvive(cfg)
  {
    RealityOutbound(cfg, u, uri);
    TextDecodes(u.shortId);
    RealityAccepts(cfg, users, u, OutboundOf(uri, Decodings(RealityQuery(cfg, u))));
    if cfg.reality.serverNames != [] {
      RealityDecodes(cfg, u);
      TextDecodes(cfg.reality.publicKey);
    }
  }

  lemma RealityAccepts(cfg: Config, users: seq<User>, u: User, o: Outbound)
    requires !OwnDomain(cfg) && u in users && u.enabled && o.wsPath == None
    requires o.tls.Some? && o.tls.value.reality.Some? && o.tls.value.reality.value.shortId == u.shortId
    ensures AcceptsStream(cfg, StreamOf(cfg, users), o) <==>
      o.tls.value.serverName in cfg.reality.serverNames && o.tls.value.reality.value.publicKey == cfg.reality.publicKey
  {
    ShortIdsAreEnabledUsers(users, u.shortId);
  }

  lemma StreamMatches(cfg: Config, users: seq<User>, u: User, uri: Uri)
    requires u in users && u.enabled && IsText(u.shortId)
    ensures AllDecode(LinkQuery(cfg, u))
            && AcceptsStream(cfg, StreamOf(cfg, users), OutboundOf(uri, Decodings(LinkQuery(cfg, u))))
      <==> TextsSurvive(cfg)
  {
    if OwnDomain(cfg) { DomainStream(cfg, users, uri); } else { RealityStream(cfg, users, u, uri); }
  }

  /** What an operator can check of a configuration. A mode with its own domain needs no public
      host. */
  predicate LinkWorks(cfg: Config, validIPv6: Text -> bool) {
    && KnownMode(cfg) && TextsSurvive(cfg) && 0 <= cfg.publicPort <= 65535
    && if cfg.publicHost != [] then HostSurvives(cfg.publicHost, validIPv6)
       else cfg.mode in {MODE_TLS, MODE_PROXY} && cfg.tls.domain != [] && HostSurvives(cfg.tls.domain, validIPv6)
  }

  /** The same, through the address the link is printed with. */
  predicate PrintedWorks(cfg: Config, validIPv6: Text -> bool) {
    && KnownMode(cfg) && TextsSurvive(cfg) && 0 <= cfg.publicPort <= 65535
    && HostOf(cfg) != [] && HostSurvives(HostOf(cfg), validIPv6)
  }

  lemma WorksAsPrinted(cfg: Config, validIPv6: Text -> bool)
    ensures LinkWorks(cfg, validIPv6) <==> PrintedWorks(cfg, validIPv6)
  {
  }

  lemma ReachesPrinted(cfg: Config, o: Outbound)
    ensures Reaches(cfg, o) <==> o.server != [] && o.server == Lower(HostOf(cfg)) && o.port == cfg.publicPort
  {
  }

  lemma TranslatedMatches(cfg: Config, users: seq<User>, u: User, validIPv6: Text -> bool)
    requires DistinctIds(users) && u in users && UuidShaped(u.id) && IsText(u.shortId)
    ensures Matches(cfg, users, Translate(VlessLink(cfg, u), validIPv6)) && IsUtf8(LabelOf(cfg))
      <==> u.enabled && PrintedWorks(cfg, validIPv6)
  {
    TranslatePrinted(cfg, u, validIPv6);
    AddressSurvives(HostOf(cfg), cfg.publicPort, validIPv6);
    ModesDiffer();
    if HostOf(cfg) != [] && HostSurvives(HostOf(cfg), validIPv6) {
      SurvivingHostIsText(HostOf(cfg), validIPv6);
    }
    var hp := ParseHostPort(PrintedHostPort(HostOf(cfg), cfg.publicPort), validIPv6);
    if hp.Some? {
      var uri := LinkUri(cfg, u, hp.value);
      OutboundFlow(cfg, u, uri);
      CredentialsMatch(cfg, users, u, OutboundOf(uri, Decodings(LinkQuery(cfg, u))));
      ReachesExactly(cfg, u, validIPv6);
      if u.enabled {
        StreamMatches(cfg, users, u, uri);
      }
    }
  }

  /** For every configuration, user list and user in it: the deep link is accepted and its outbound
      matches the generated configuration exactly when the user is enabled, the mode is one of the
      three, REALITY has a server name, the texts survive, and so does the public address. */
  lemma LinkMatchesServer(cfg: Config, users: seq<User>, u: User, validIPv6: Text -> bool)
    requires DistinctIds(users) && u in users && UuidShaped(u.id) && IsText(u.shortId)
    ensures var parsed := ParseShareLink(LanwayLink(VlessLink(cfg, u), LabelOf(cfg)), validIPv6);
      && (parsed.Parsed? ==> parsed.vless == VlessLink(cfg, u))
      && (parsed.Parsed? && Matches(cfg, users, Translate(parsed.vless, validIPv6))
          <==> u.enabled && LinkWorks(cfg, validIPv6))
  {
    FormsAgree(cfg, u, validIPv6);
    TranslatedMatches(cfg, users, u, validIPv6);
    WorksAsPrinted(cfg, validIPv6);
  }

  /** A link that works is shown under the address it dials. */
  lemma NameIsServer(cfg: Config, u: User, validIPv6: Text -> bool)
    requires UuidShaped(u.id) && LinkWorks(cfg, validIPv6)
    ensures var parsed := ParseShareLink(LanwayLink(VlessLink(cfg, u), LabelOf(cfg)), validIPv6);
      parsed.Parsed? &&
      (Translate(parsed.vless, validIPv6).Some? ==>
         Translate(parsed.vless, validIPv6).value.server == Lower(parsed.name))
  {
    FormsAgree(cfg, u, validIPv6);
    TranslatePrinted(cfg, u, validIPv6);
    AddressSurvives(HostOf(cfg), cfg.publicPort, validIPv6);
    SurvivingHostIsText(HostOf(cfg), validIPv6);
    TextDecodes(HostOf(cfg));
  }

  function LinkUri(cfg: Config, u: User, hp: HostPort): Uri {
    Uri(u.id, hp.host, hp.port, Encode(LinkQuery(cfg, u)),
        PercentEncoding.Escape(LabelOf(cfg), PercentEncoding.FragmentPart))
  }

  lemma OutboundFlow(cfg: Config, u: User, uri: Uri)
    ensures var o := OutboundOf(uri, Decodings(LinkQuery(cfg, u)));
      o.uuid == uri.userInfo && o.flow == if OwnDomain(cfg) then None else Some(VISION)
  {
    if OwnDomain(cfg) {
      DomainOutbound(cfg, uri);
    } else {
      RealityOutbound(cfg, u, uri);
    }
  }

  /** The printed port is always written out, so it is never defaulted to 443. */
  lemma ReachesExactly(cfg: Config, u: User, validIPv6: Text -> bool)
    ensures var hp := ParseHostPort(PrintedHostPort(HostOf(cfg), cfg.publicPort), validIPv6);
      hp.Some? ==>
        (Reaches(cfg, OutboundOf(LinkUri(cfg, u, hp.value), Decodings(LinkQuery(cfg, u))))
         <==> HostOf(cfg) != [] && Recovers(hp, HostOf(cfg), cfg.publicPort))
  {
    PortWritten(HostOf(cfg), cfg.publicPort, validIPv6);
    var hp := ParseHostPort(PrintedHostPort(HostOf(cfg), cfg.publicPort), validIPv6);
    if hp.Some? { ReachesPrinted(cfg, OutboundOf(LinkUri(cfg, u, hp.value), Decodings(LinkQuery(cfg, u)))); }
  }
}
