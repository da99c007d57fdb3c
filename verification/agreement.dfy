/** The outbound a client derives from a printed link against the inbound the server runs. */
module Agreement {
  import opened Bytes
  import opened PercentEncoding
  import opened Query
  import opened Uris
  import opened Accounts
  import opened Ids
  import opened XrayConfig
  import opened Links
  import opened ClientLinks
  import opened Utf8

  // ---- address ----

  /** Hosts that come back from a link: an IPv6 literal, or a name that needs no escaping. */
  predicate HostSurvives(host: Text, validIPv6: Text -> bool) {
    if ':' in host then IsIPv6Text(host) && validIPv6(host) else PlainHost(host)
  }

  predicate Recovers(r: Option<HostPort>, host: Text, port: int) {
    r.Some? && r.value.host == Lower(host) && r.value.port.Some? && r.value.port.value == port
  }

  lemma PortSurvives(port: int)
    ensures ParsePort(Itoa(port)) == Some(Some(if port < 0 then 0 else port)) <==> 0 <= port <= 65535
    ensures port < 0 ==> ParsePort(Itoa(port)) == None
  {
    if port >= 0 {
      DecimalRoundTrip(port);
    } else {
      var s := Itoa(port);
      assert s[0] == '-' && s[0] in s;
      if ParseDigits(s).Some? {
        ParseDigitsOnly(s);
      }
    }
  }

  lemma NotAPort(s: Text, c: Byte)
    requires c in s && !IsDigit(c)
    ensures ParsePort(s) == None
  {
    if ParseDigits(s).Some? {
      ParseDigitsOnly(s);
    }
  }

  lemma ItoaText(port: int)
    ensures forall c :: c in Itoa(port) ==> IsDigit(c) || c == '-'
    ensures Escape(Itoa(port), HostPart) == Itoa(port)
  {
    EscapeKept(Itoa(port), HostPart);
  }

  /** The printed host and port, as one text. */
  function PrintedHostPort(host: Text, port: int): Text {
    Escape(JoinHostPort(host, Itoa(port)), HostPart)
  }

  lemma EscapeName(host: Text, port: Text)
    requires Escape(port, HostPart) == port
    ensures Escape(host + ":" + port, HostPart) == Escape(host, HostPart) + ":" + port
  {
    EscapeConcat(host + ":", port, HostPart);
    EscapeConcat(host, ":", HostPart);
    EscapeKept(":", HostPart);
  }

  lemma EscapeLiteral(host: Text, port: Text)
    requires Escape(port, HostPart) == port
    ensures Escape("[" + (host + ("]:" + port)), HostPart) == "[" + (Escape(host, HostPart) + ("]:" + port))
  {
    EscapeConcat("[", host + ("]:" + port), HostPart);
    EscapeConcat(host, "]:" + port, HostPart);
    EscapeConcat("]:", port, HostPart);
    EscapeKept("[", HostPart);
    EscapeKept("]:", HostPart);
  }

  lemma PrintedParts(host: Text, port: int)
    ensures PrintedHostPort(host, port)
         == if ':' in host then "[" + (Escape(host, HostPart) + ("]:" + Itoa(port)))
            else Escape(host, HostPart) + ":" + Itoa(port)
  {
    ItoaText(port);
    if ':' in host {
      assert JoinHostPort(host, Itoa(port)) == "[" + (host + ("]:" + Itoa(port)));
      EscapeLiteral(host, Itoa(port));
    } else {
      EscapeName(host, Itoa(port));
    }
  }

  lemma FirstByte(host: Text)
    requires host != []
    ensures Escape(host, HostPart)[0] == '[' <==> host[0] == '['
    ensures host[0] == '[' ==> Escape(host, HostPart) == "[" + Escape(host[1..], HostPart)
  {
  }

  /** The text `host:port` is split at its only colon. */
  lemma SplitName(e: Text, port: Text, validIPv6: Text -> bool)
    requires ':' !in e && (e == [] || e[0] != '[')
    ensures ParseHostPort(e + ":" + port, validIPv6)
         == match (NormalizeRegName(e), ParsePort(port))
            case (Some(host), Some(p)) => Some(HostPort(host, p))
            case _ => None
  {
    assert e + ":" + port == e + [':'] + port;
    CutJoin(e, ':', port);
  }

  lemma NameSurvives(host: Text, port: int, validIPv6: Text -> bool)
    requires ':' !in host && (host == [] || host[0] != '[')
    ensures Recovers(ParseHostPort(Escape(host, HostPart) + ":" + Itoa(port), validIPv6), host, port)
      <==> PlainHost(host) && 0 <= port <= 65535
  {
    if host != [] { FirstByte(host); }
    EscapeAddsNothing(host, HostPart, ':');
    SplitName(Escape(host, HostPart), Itoa(port), validIPv6);
    RegNameSurvives(host);
    PortSurvives(port);
  }

  lemma ParseBracket(t: Text, validIPv6: Text -> bool)
    ensures ParseHostPort("[" + t, validIPv6) == ParseBracketed(t, validIPv6)
  {
    assert ("[" + t)[1..] == t;
  }

  lemma Regroup3(a: Text, b: Text, c: Text, d: Text)
    ensures (a + b) + c + d == a + (b + (c + d))
  {
  }

  lemma NoColonFails(e: Text, rest: Text, validIPv6: Text -> bool)
    requires ':' !in e && ']' !in rest
    ensures ParseBracketed(e + rest, validIPv6) == None
  {
    var t := e + rest;
    var i := Find(t, ']');
    if ']' in t {
      var k :| 0 <= k < |t| && t[k] == ']';
      FindAtMost(t, ']', k);
      assert t[i] == ']' && i < |e|;
      assert t[..i] == e[..i];
    }
  }

  /** A name that begins with a bracket is read as an address and refused. */
  lemma BracketNameFails(host: Text, port: int, validIPv6: Text -> bool)
    requires ':' !in host && host != [] && host[0] == '['
    ensures ParseHostPort(Escape(host, HostPart) + ":" + Itoa(port), validIPv6) == None
  {
    FirstByte(host);
    EscapeAddsNothing(host[1..], HostPart, ':');
    ItoaText(port);
    OpenBracketFails(Escape(host[1..], HostPart), Itoa(port), validIPv6);
  }

  lemma OpenBracketFails(e: Text, port: Text, validIPv6: Text -> bool)
    requires ':' !in e && ']' !in port
    ensures ParseHostPort("[" + e + ":" + port, validIPv6) == None
  {
    Regroup3("[", e, ":", port);
    ParseBracket(e + (":" + port), validIPv6);
    NoColonFails(e, ":" + port, validIPv6);
  }

  /** What follows the first closing bracket, when the host itself holds one, is never a port. */
  lemma BracketTail(e: Text, port: Text, validIPv6: Text -> bool)
    requires ']' in e
    ensures ParseBracketed(e + ("]:" + port), validIPv6) == None
  {
    var t := e + ("]:" + port);
    var i := Find(t, ']');
    var k :| 0 <= k < |e| && e[k] == ']';
    FindAtMost(t, ']', k);
    var after := t[i + 1..];
    assert after[|e| - i - 1] == ']';
    if after[0] == ':' {
      assert after[1..][|e| - i - 2] == ']';
      NotAPort(after[1..], ']');
    }
  }

  /** An address closed by its only bracket. */
  lemma SplitLiteral(e: Text, port: Text, validIPv6: Text -> bool)
    requires ']' !in e
    ensures ParseBracketed(e + ("]:" + port), validIPv6)
         == if !IsIPv6Text(e) || !validIPv6(e) then None
            else match ParsePort(port)
                 case None => None
                 case Some(p) => Some(HostPort(Lower(e), p))
  {
    var after := ":" + port;
    assert e + ("]:" + port) == e + [']'] + after;
    CutJoin(e, ']', after);
    assert after[1..] == port;
  }

  lemma EscapeOfSameLength(host: Text)
    ensures |Escape(host, HostPart)| == |host| || IsIPv6Text(host) ==> Escape(host, HostPart) == host
  {
    if |Escape(host, HostPart)| == |host| {
      EscapeSameLength(host, HostPart);
    } else if IsIPv6Text(host) {
      EscapeKept(host, HostPart);
    }
  }

  lemma LiteralReopened(host: Text, port: int, validIPv6: Text -> bool)
    requires ']' !in Escape(host, HostPart)
    ensures Recovers(ParseBracketed(Escape(host, HostPart) + ("]:" + Itoa(port)), validIPv6), host, port)
      <==> IsIPv6Text(host) && validIPv6(host) && 0 <= port <= 65535
  {
    var e := Escape(host, HostPart);
    PortSurvives(port);
    SplitLiteral(e, Itoa(port), validIPv6);
    EscapeOfSameLength(host);
    assert |Lower(e)| == |e| && |Lower(host)| == |host|;
  }

  lemma LiteralSurvives(host: Text, port: int, validIPv6: Text -> bool)
    requires ':' in host
    ensures Recovers(ParseBracketed(Escape(host, HostPart) + ("]:" + Itoa(port)), validIPv6), host, port)
      <==> IsIPv6Text(host) && validIPv6(host) && 0 <= port <= 65535
  {
    var e := Escape(host, HostPart);
    if ']' in e {
      PortSurvives(port);
      BracketTail(e, Itoa(port), validIPv6);
      if ']' !in host { EscapeAddsNothing(host, HostPart, ']'); }
      assert ']' in host && !IsIPv6Text(host);
    } else {
      LiteralReopened(host, port, validIPv6);
    }
  }

  /** The address of a link is recovered, up to letter case, exactly for these hosts and ports. */
  lemma AddressSurvives(host: Text, port: int, validIPv6: Text -> bool)
    ensures Recovers(ParseHostPort(PrintedHostPort(host, port), validIPv6), host, port)
      <==> HostSurvives(host, validIPv6) && 0 <= port <= 65535
  {
    PrintedParts(host, port);
    if ':' in host {
      var rest := Escape(host, HostPart) + ("]:" + Itoa(port));
      ParseBracket(rest, validIPv6);
      LiteralSurvives(host, port, validIPv6);
    } else if host != [] && host[0] == '[' {
      BracketNameFails(host, port, validIPv6);
      assert !PlainHost(host) by { assert host[0] in host && !IsRegName('['); }
    } else {
      NameSurvives(host, port, validIPv6);
    }
  }

  lemma LiteralPort(e: Text, port: int, validIPv6: Text -> bool)
    ensures var r := ParseBracketed(e + ("]:" + Itoa(port)), validIPv6); r.Some? ==> r.value.port.Some?
  {
    if ']' in e {
      BracketTail(e, Itoa(port), validIPv6);
    } else {
      SplitLiteral(e, Itoa(port), validIPv6);
    }
  }

  /** A printed port is never empty, so a parsed one is never absent. */
  lemma PortWritten(host: Text, port: int, validIPv6: Text -> bool)
    ensures var r := ParseHostPort(PrintedHostPort(host, port), validIPv6); r.Some? ==> r.value.port.Some?
  {
    PrintedParts(host, port);
    if ':' in host {
      ParseBracket(Escape(host, HostPart) + ("]:" + Itoa(port)), validIPv6);
      LiteralPort(Escape(host, HostPart), port, validIPv6);
    } else if host != [] && host[0] == '[' {
      BracketNameFails(host, port, validIPv6);
    } else {
      NamePort(host, port, validIPv6);
    }
  }

  lemma NamePort(host: Text, port: int, validIPv6: Text -> bool)
    requires ':' !in host && (host == [] || host[0] != '[')
    ensures var r := ParseHostPort(Escape(host, HostPart) + ":" + Itoa(port), validIPv6);
      r.Some? ==> r.value.port.Some?
  {
    if host != [] { FirstByte(host); }
    EscapeAddsNothing(host, HostPart, ':');
    SplitName(Escape(host, HostPart), Itoa(port), validIPv6);
  }

  // ---- the whole link ----

  lemma PrintedUri(cfg: Config, u: User, validIPv6: Text -> bool)
    ensures ParseUri(VlessLink(cfg, u), validIPv6)
         == match ParseHostPort(PrintedHostPort(HostOf(cfg), cfg.publicPort), validIPv6)
            case None => None
            case Some(hp) => Some(Uri(Escape(u.id, UserPart), hp.host, hp.port,
                                      Encode(LinkQuery(cfg, u)), Escape(LabelOf(cfg), FragmentPart)))
  {
    PrintedHead(u.id, JoinHostPort(HostOf(cfg), Itoa(cfg.publicPort)), LinkQuery(cfg, u));
    ParseVless(Escape(u.id, UserPart), PrintedHostPort(HostOf(cfg), cfg.publicPort),
               Encode(LinkQuery(cfg, u)), Escape(LabelOf(cfg), FragmentPart), validIPv6);
  }

  lemma ParseVless(userInfo: Text, hostPort: Text, query: Text, fragment: Text, validIPv6: Text -> bool)
    requires Free(userInfo, {'#', '?', '/', '@'}) && Free(hostPort, {'#', '?', '/'}) && Free(query, {'#'})
    ensures ParseUri("vless" + "://" + userInfo + "@" + hostPort + "?" + query + "#" + fragment, validIPv6)
         == match ParseHostPort(hostPort, validIPv6)
            case None => None
            case Some(hp) => Some(Uri(userInfo, hp.host, hp.port, query, fragment))
  {
    ParseAssembled("vless", userInfo, hostPort, query, fragment, validIPv6);
  }

  lemma EncryptionIsText()
    ensures IsText(ENCRYPTION)
  {
    AsciiIsText(ENCRYPTION);
  }

  lemma SecurityIsText()
    ensures IsText(SECURITY)
  {
    AsciiIsText(SECURITY);
  }

  lemma CommonKeysAreText()
    ensures IsText(ENCRYPTION) && IsText(TYPE) && IsText(SECURITY) && IsText(SNI) && IsText(FP)
  {
    EncryptionIsText();
    SecurityIsText();
    AsciiIsText(TYPE);
    AsciiIsText(SNI);
    AsciiIsText(FP);
  }

  lemma OtherKeysAreText()
    ensures IsText(HOST) && IsText(PATH) && IsText(FLOW) && IsText(PBK) && IsText(SID)
  {
    AsciiIsText(HOST);
    AsciiIsText(PATH);
    AsciiIsText(FLOW);
    AsciiIsText(PBK);
    AsciiIsText(SID);
  }

  lemma LinkKeysAreText(cfg: Config, u: User)
    ensures [] !in LinkQuery(cfg, u) && forall k :: k in LinkQuery(cfg, u) ==> IsText(k)
  {
    KeysDiffer();
    CommonKeysAreText();
    OtherKeysAreText();
    if OwnDomain(cfg) { DomainKeys(cfg); } else { RealityKeys(cfg, u); }
  }

  lemma DomainKeys(cfg: Config)
    ensures forall k :: k in DomainQuery(cfg) ==> k in {ENCRYPTION, TYPE, SECURITY, SNI, HOST, PATH, FP}
  {
  }

  lemma RealityKeys(cfg: Config, u: User)
    ensures forall k :: k in RealityQuery(cfg, u) ==> k in {ENCRYPTION, TYPE, SECURITY, FLOW, SNI, PBK, SID, FP}
  {
  }

  predicate AllDecode(q: Values) { forall k :: k in q ==> Decode(q[k]).Some? }

  /** The client reads each value of a printed query as decoded, or none of them. */
  lemma PrintedQuery(cfg: Config, u: User)
    ensures SplitQuery(Encode(LinkQuery(cfg, u)), map[]) ==
      if AllDecode(LinkQuery(cfg, u)) then Some(Decodings(LinkQuery(cfg, u))) else None
  {
    LinkKeysAreText(cfg, u);
    TextQuery(LinkQuery(cfg, u));
  }

  /** The keys of a link in a mode with its own domain, and of a REALITY link, by their names. */
  predicate DomainNamed(cfg: Config, q: Values) {
    && ValueOf(q, "encryption", []) == "none" && ValueOf(q, "fp", []) == "chrome"
    && ValueOf(q, "security", []) == "tls" && ValueOf(q, "type", []) == "ws"
    && ValueOf(q, "sni", []) == ValueOf(q, "host", []) == cfg.tls.domain
    && ValueOf(q, "path", []) == cfg.tls.wsPath && "flow" !in q
  }

  predicate RealityNamed(cfg: Config, u: User, q: Values) {
    && ValueOf(q, "encryption", []) == "none" && ValueOf(q, "fp", []) == "chrome"
    && ValueOf(q, "security", []) == "reality" && ValueOf(q, "type", []) == "tcp"
    && ValueOf(q, "flow", []) == "xtls-rprx-vision"
    && ValueOf(q, "pbk", []) == cfg.reality.publicKey && ValueOf(q, "sid", []) == u.shortId
    && (if cfg.reality.serverNames == [] then "sni" !in q
        else "sni" in q && q["sni"] == cfg.reality.serverNames[0])
  }

  lemma DomainNames(cfg: Config)
    ensures DomainNamed(cfg, DomainQuery(cfg))
  {
    KeyNames();
    KeysDiffer();
  }

  lemma RealityNames(cfg: Config, u: User)
    ensures RealityNamed(cfg, u, RealityQuery(cfg, u))
  {
    KeyNames();
    KeysDiffer();
  }

  /** What the client reads from a link whose configured strings are texts. */
  lemma PrintedParameters(cfg: Config, u: User)
    requires AllText(LinkQuery(cfg, u))
    ensures SplitQuery(Encode(LinkQuery(cfg, u)), map[]) == Some(LinkQuery(cfg, u))
    ensures if cfg.mode == "tls" || cfg.mode == "proxy" then DomainNamed(cfg, LinkQuery(cfg, u))
            else RealityNamed(cfg, u, LinkQuery(cfg, u))
  {
    LinkKeysAreText(cfg, u);
    QueryIdentity(LinkQuery(cfg, u));
    DomainNames(cfg);
    RealityNames(cfg, u);
  }

  lemma TextQuery(q: Values)
    requires [] !in q && forall k :: k in q ==> IsText(k)
    ensures SplitQuery(Encode(q), map[]) == if AllDecode(q) then Some(Decodings(q)) else None
  {
    var keys := SortedKeys(q.Keys);
    SplitUndoesEncode(keys, q, map[]);
    TextKeysRead(keys, q, map[]);
    AllRetained(keys, Decodings(q));
    SameValues(keys, q);
  }

  lemma AllRetained(keys: seq<Text>, m: Values)
    requires [] !in m && forall k :: k in keys <==> k in m
    ensures map[] + Retained(keys, m) == m
  {
  }

  lemma SameValues(keys: seq<Text>, q: Values)
    requires [] !in q && forall k :: k in keys <==> k in q
    ensures ValuesDecode(keys, q) <==> AllDecode(q)
  {
  }

  /** Parsing the deep link and translating it gives the outbound of the printed query. */
  lemma TranslatePrinted(cfg: Config, u: User, validIPv6: Text -> bool)
    requires UuidShaped(u.id)
    ensures Translate(VlessLink(cfg, u), validIPv6)
         == match ParseHostPort(PrintedHostPort(HostOf(cfg), cfg.publicPort), validIPv6)
            case None => None
            case Some(hp) =>
              if AllDecode(LinkQuery(cfg, u)) then
                Some(OutboundOf(
                  Uri(u.id, hp.host, hp.port, Encode(LinkQuery(cfg, u)), Escape(LabelOf(cfg), FragmentPart)),
                  Decodings(LinkQuery(cfg, u))))
              else None
  {
    VlessFormParses(cfg, u, validIPv6);
    PrintedUri(cfg, u, validIPv6);
    PrintedQuery(cfg, u);
    EscapeKept(u.id, UserPart);
    TranslateVia(VlessLink(cfg, u), SplitQuery(Encode(LinkQuery(cfg, u)), map[]), validIPv6);
  }

  lemma TranslateVia(link: Text, q: Option<Values>, validIPv6: Text -> bool)
    requires Trim(link) == link
    requires ParseUri(link, validIPv6).Some? ==> QueryParameters(ParseUri(link, validIPv6).value) == q
    ensures Translate(link, validIPv6) ==
      match ParseUri(link, validIPv6)
      case None => None
      case Some(uri) => if q.Some? then Some(OutboundOf(uri, q.value)) else None
  {
  }

  /** A host that comes back from a link is ASCII, so the label it becomes is a text. */
  lemma SurvivingHostIsText(host: Text, validIPv6: Text -> bool)
    requires HostSurvives(host, validIPv6)
    ensures IsText(host)
  {
    forall i | 0 <= i < |host| ensures host[i] as int < 128 { assert host[i] in host; }
    AsciiIsText(host);
  }

  // ---- any link, written from its parts ----

  /** A link with these parts, whoever wrote it. */
  function WrittenLink(uuid: Text, hostPort: Text, q: Values, fragment: Text): Text {
    "vless" + "://" + uuid + "@" + hostPort + "?" + Encode(q) + "#" + fragment
  }

  /** The value of a key, by its name. */
  function ValueOf(q: Values, key: Text, default: Text): Text {
    if key in q then q[key] else default
  }

  lemma KeyNames()
    ensures SECURITY == "security" && TYPE == "type" && FLOW == "flow" && SNI == "sni" && PATH == "path"
    ensures FP == "fp" && PBK == "pbk" && SID == "sid" && ENCRYPTION == "encryption" && HOST == "host"
  {
  }

  /** What an outbound has to do with the query it was made from, key by key. */
  predicate Carries(o: Outbound, host: Text, q: Values) {
    var security := ValueOf(q, "security", "none");
    && o.flow == (if ValueOf(q, "flow", []) == [] then None else Some(q["flow"]))
    && (o.tls.Some? <==> security == "tls" || security == "reality")
    && (o.tls.Some? ==> o.tls.value.serverName == ValueOf(q, "sni", host))
    && (o.tls.Some? ==> (o.tls.value.reality.Some? <==> security == "reality"))
    && (security == "reality" ==>
          var part := o.tls.value.reality.value;
          && part.publicKey == ValueOf(q, "pbk", []) && part.shortId == ValueOf(q, "sid", [])
          && part.fingerprint == if ValueOf(q, "fp", []) == [] then "chrome" else q["fp"])
    // A WebSocket path goes with TLS only, and only if the type says so.
    && (o.wsPath.Some? <==> security == "tls" && ValueOf(q, "type", []) == "ws")
    && (o.wsPath.Some? ==> o.wsPath.value == ValueOf(q, "path", "/"))
  }

  lemma SecurityNames(security: Text)
    ensures security == "reality" ==> security != "tls" && security != "none"
    ensures security == "tls" ==> security != "none"
  {
    if security == "reality" { assert |security| == 7; } else if security == "tls" { assert |security| == 3; }
  }

  lemma OutboundCarries(uri: Uri, q: Values)
    ensures Carries(OutboundOf(uri, q), uri.host, q)
  {
    KeyNames();
    SecurityNames(ValueOf(q, "security", "none"));
  }

  /** Any link to a plain host with any query of texts, with or without a port: its outbound dials
      that host, on that port or on 443, as that user, and carries exactly the query's values. */
  lemma WrittenOutbound(uuid: Text, host: Text, port: Option<nat>, q: Values, fragment: Text, validIPv6: Text -> bool)
    requires Free(uuid, {'#', '?', '/', '@'}) && PlainHost(host) && (port.Some? ==> port.value <= 65535)
    requires AllText(q) && [] !in q && (fragment != [] ==> !IsBlank(fragment[|fragment| - 1]))
    ensures var r := Translate(
        WrittenLink(uuid, if port.Some? then host + ":" + Itoa(port.value) else host, q, fragment), validIPv6);
      && r.Some? && r.value.uuid == uuid && r.value.server == Lower(host)
      && r.value.port == (if port.Some? then port.value else 443)
      && Carries(r.value, Lower(host), q)
  {
    var hostPort: Text := if port.Some? then host + ":" + Itoa(port.value) else host;
    WrittenAddress(host, port, validIPv6);
    WrittenUri(uuid, hostPort, q, fragment, validIPv6);
    WrittenTrim(uuid, hostPort, q, fragment);
    QueryIdentity(q);
    TranslateVia(WrittenLink(uuid, hostPort, q, fragment), Some(q), validIPv6);
    OutboundCarries(Uri(uuid, Lower(host), port, Encode(q), fragment), q);
  }

  lemma WrittenUri(uuid: Text, hostPort: Text, q: Values, fragment: Text, validIPv6: Text -> bool)
    requires Free(uuid, {'#', '?', '/', '@'}) && Free(hostPort, {'#', '?', '/'})
    ensures ParseUri(WrittenLink(uuid, hostPort, q, fragment), validIPv6)
         == match ParseHostPort(hostPort, validIPv6)
            case None => None
            case Some(hp) => Some(Uri(uuid, hp.host, hp.port, Encode(q), fragment))
  {
    EncodeExcludesHash(q);
    ParseAssembled("vless", uuid, hostPort, Encode(q), fragment, validIPv6);
  }

  lemma WrittenTrim(uuid: Text, hostPort: Text, q: Values, fragment: Text)
    requires fragment != [] ==> !IsBlank(fragment[|fragment| - 1])
    ensures Trim(WrittenLink(uuid, hostPort, q, fragment)) == WrittenLink(uuid, hostPort, q, fragment)
  {
    var s := WrittenLink(uuid, hostPort, q, fragment);
    assert s[0] == 'v';
    assert s[|s| - 1] == if fragment == [] then '#' else fragment[|fragment| - 1];
    TrimKeeps(s);
  }

  lemma PlainIsFree(host: Text)
    requires PlainHost(host)
    ensures Free(host, {'#', '?', '/'}) && ':' !in host && (host == [] || host[0] != '[')
  {
    assert !IsRegName('#') && !IsRegName('?') && !IsRegName('/') && !IsRegName(':') && !IsRegName('[');
    if host != [] { assert host[0] in host; }
  }

  lemma PortIsFree(host: Text, port: nat)
    requires Free(host, {'#', '?', '/'})
    ensures Free(host + ":" + Itoa(port), {'#', '?', '/'})
  {
    ItoaText(port);
    forall c | c in host + ":" + Itoa(port) ensures c !in {'#', '?', '/'} {
      assert c in host || c == ':' || c in Itoa(port);
    }
  }

  lemma PlainPortParses(host: Text, port: nat, validIPv6: Text -> bool)
    requires PlainHost(host) && port <= 65535
    ensures ParseHostPort(host + ":" + Itoa(port), validIPv6) == Some(HostPort(Lower(host), Some(port)))
  {
    PlainIsFree(host);
    SplitName(host, Itoa(port), validIPv6);
    PlainHostNormalizes(host);
    PortSurvives(port);
  }

  lemma WrittenAddress(host: Text, port: Option<nat>, validIPv6: Text -> bool)
    requires PlainHost(host) && (port.Some? ==> port.value <= 65535)
    ensures var hostPort := if port.Some? then host + ":" + Itoa(port.value) else host;
      && ParseHostPort(hostPort, validIPv6) == Some(HostPort(Lower(host), port))
      && Free(hostPort, {'#', '?', '/'})
  {
    PlainIsFree(host);
    if port.Some? {
      PortIsFree(host, port.value);
      PlainPortParses(host, port.value, validIPv6);
    } else {
      PlainHostParses(host, validIPv6);
    }
  }
}
