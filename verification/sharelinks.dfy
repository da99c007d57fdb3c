/** The client's side of a link: normalising what was pasted, and the sing-box outbound. */
module ClientLinks {
  import opened Bytes
  import opened PercentEncoding
  import opened Query
  import opened Uris
  import opened Links
  import opened Utf8

  const LANWAY_PREFIX: Text := "lanway://"
  const VLESS_PREFIX: Text := "vless://"
  const CONFIG: Text := "config"
  const NAME: Text := "name"
  const LANWAY: Text := "Lanway"

  // NotALink is null; Throws is an ArgumentError or FormatException.
  datatype Parsed = NotALink | Throws | Parsed(vless: Text, name: Text)

  /** _remarkOf: the decoded fragment, or a default when there is none. */
  function RemarkOf(vless: Text): Option<Text> {
    var hash := Find(vless, '#');
    if hash + 1 >= |vless| then Some(LANWAY)
    else
      match Unescape(vless[hash + 1..], false)
      case None => None
      case Some(bytes) => Decode(bytes)
  }

  function ParseShareLink(input: Text, validIPv6: Text -> bool): Parsed {
    var trimmed := Trim(input);
    if LANWAY_PREFIX <= trimmed then
      match ParseUri(trimmed, validIPv6)
      case None => NotALink
      case Some(uri) =>
        match QueryParameters(uri)
        case None => Throws
        case Some(q) => FromParameters(q)
    else if VLESS_PREFIX <= trimmed then
      match RemarkOf(trimmed)
      case None => Throws
      case Some(name) => Parsed(trimmed, name)
    else NotALink
  }

  function FromParameters(q: Values): Parsed {
    if CONFIG !in q || !(VLESS_PREFIX <= q[CONFIG]) then NotALink
    else
      match if NAME in q then Some(q[NAME]) else RemarkOf(q[CONFIG])
      case None => Throws
      case Some(name) => Parsed(q[CONFIG], if name == [] then LANWAY else name)
  }

  // ---- the outbound ----

  datatype RealityPart = RealityPart(fingerprint: Text, publicKey: Text, shortId: Text)
  datatype TlsPart = TlsPart(serverName: Text, reality: Option<RealityPart>)

  datatype Outbound = Outbound(
    server: Text, port: nat, uuid: Text, flow: Option<Text>, tls: Option<TlsPart>, wsPath: Option<Text>)

  function Or(q: Values, k: Text, default: Text): Text {
    if k in q then q[k] else default
  }

  function TlsOf(q: Values, host: Text): Option<TlsPart> {
    var security := Or(q, SECURITY, "none");
    if security == "reality" then
      var fp := if Or(q, FP, []) == [] then CHROME else q[FP];
      Some(TlsPart(Or(q, SNI, host), Some(RealityPart(fp, Or(q, PBK, []), Or(q, SID, [])))))
    else if security == "tls" then Some(TlsPart(Or(q, SNI, host), None))
    else None
  }

  function OutboundOf(uri: Uri, q: Values): Outbound {
    Outbound(
      uri.host, if uri.port.Some? then uri.port.value else 443, uri.userInfo,
      if Or(q, FLOW, []) == [] then None else Some(q[FLOW]),
      TlsOf(q, uri.host),
      if Or(q, SECURITY, "none") == "tls" && Or(q, TYPE, []) == "ws" then Some(Or(q, PATH, "/")) else None)
  }

  /** None when Uri.parse or queryParameters throws. */
  function Translate(link: Text, validIPv6: Text -> bool): Option<Outbound> {
    match ParseUri(Trim(link), validIPv6)
    case None => None
    case Some(uri) =>
      match QueryParameters(uri)
      case None => None
      case Some(q) => Some(OutboundOf(uri, q))
  }

  /** _vlessOutbound, adding to the outbound branch by branch. */
  method VlessOutbound(link: Text, validIPv6: Text -> bool) returns (r: Option<Outbound>)
    ensures r == Translate(link, validIPv6)
  {
    var uri := ParseUri(Trim(link), validIPv6);
    if uri.None? { return None; }
    var q := QueryParameters(uri.value);
    if q.None? { return None; }
    var host, security := uri.value.host, Or(q.value, SECURITY, "none");
    var out := Outbound(host, if uri.value.port.Some? then uri.value.port.value else 443,
                        uri.value.userInfo, None, None, None);
    var flow := Or(q.value, FLOW, []);
    if flow != [] {
      out := out.(flow := Some(flow));
    }
    if security == "reality" {
      var fp := Or(q.value, FP, []);
      var part := RealityPart(if fp != [] then fp else CHROME, Or(q.value, PBK, []), Or(q.value, SID, []));
      out := out.(tls := Some(TlsPart(Or(q.value, SNI, host), Some(part))));
    } else if security == "tls" {
      out := out.(tls := Some(TlsPart(Or(q.value, SNI, host), None)));
      if Or(q.value, TYPE, []) == "ws" {
        out := out.(wsPath := Some(Or(q.value, PATH, "/")));
      }
    }
    return Some(out);
  }

  // ---- both share forms ----

  lemma TrimKeeps(s: Text)
    requires s != [] && !IsBlank(s[0]) && !IsBlank(s[|s| - 1])
    ensures Trim(s) == s
  {
  }

  lemma EscapeNonEmpty(s: Text, mode: Mode)
    requires s != []
    ensures Escape(s, mode) != [] && forall c :: c in Escape(s, mode) ==> !IsBlank(c)
  {
    EscapeOutput(s, mode);
    forall c: Byte | IsBlank(c) ensures c !in Escape(s, mode) {
      EscapeExcludes(s, mode, c);
    }
  }

  /** No '#' before the fragment of a printed link, and its parts are free of delimiters. */
  lemma PrintedHead(id: Text, hostPort: Text, q: Values)
    ensures Free(Escape(id, UserPart), {'#', '?', '/', '@'})
    ensures Free(Escape(hostPort, HostPart), {'#', '?', '/'})
    ensures Free(Encode(q), {'#'})
  {
    forall c: Byte | c in {'#', '?', '/', '@'} ensures c !in Escape(id, UserPart) {
      EscapeExcludes(id, UserPart, c);
    }
    forall c: Byte | c in {'#', '?', '/'} ensures c !in Escape(hostPort, HostPart) {
      EscapeExcludes(hostPort, HostPart, c);
    }
    EncodeExcludesHash(q);
  }

  lemma EncodeExcludesHash(q: Values)
    ensures Free(Encode(q), {'#'})
  {
    EncodeOutput(SortedKeys(q.Keys), q);
    assert !Escaped('#', QueryPart);
  }

  lemma PrintedRemark(head: Text, fragment: Text, mode: Mode)
    requires fragment != [] && '#' !in head && mode != QueryPart
    ensures RemarkOf(head + "#" + Escape(fragment, mode)) == Decode(fragment)
  {
    var tail := Escape(fragment, mode);
    var s := head + ['#'] + tail;
    EscapeNonEmpty(fragment, mode);
    FindFirst(head, '#', tail);
    assert s[|head| + 1..] == tail;
    EscapeRoundTrip(fragment, mode);
  }

  lemma HeadShape(id: Text, hostPort: Text, q: Values)
    ensures '#' !in LinkHead(id, hostPort, Encode(q))
    ensures VLESS_PREFIX <= LinkHead(id, hostPort, Encode(q))
  {
    PrintedHead(id, hostPort, q);
    PrefixWritten();
    assert '#' !in VLESS_PREFIX by { assert VLESS_PREFIX == ['v', 'l', 'e', 's', 's', ':', '/', '/']; }
    HeadParts(VLESS_PREFIX, Escape(id, UserPart), Escape(hostPort, HostPart), Encode(q));
  }

  lemma PrefixWritten()
    ensures "vless" + "://" == VLESS_PREFIX
  {
  }

  lemma HeadParts(prefix: Text, user: Text, hostPort: Text, query: Text)
    requires '#' !in prefix && '#' !in user && '#' !in hostPort && '#' !in query
    ensures var head := prefix + user + "@" + hostPort + "?" + query; '#' !in head && prefix <= head
  {
  }

  lemma PrintedTrim(head: Text, fragment: Text, mode: Mode)
    requires VLESS_PREFIX <= head && fragment != []
    ensures var s := head + "#" + Escape(fragment, mode); Trim(s) == s && VLESS_PREFIX <= s
  {
    var tail := Escape(fragment, mode);
    var s := head + "#" + tail;
    EscapeNonEmpty(fragment, mode);
    assert s[|s| - 1] == tail[|tail| - 1];
    assert s[0] == VLESS_PREFIX[0] == 'v';
    TrimKeeps(s);
  }

  /** A vless link parses to itself and its label as decoded, whatever the configuration and user
      hold; a label that is not UTF-8 throws. */
  lemma VlessFormParses(cfg: XrayConfig.Config, u: Accounts.User, validIPv6: Text -> bool)
    ensures ParseShareLink(VlessLink(cfg, u), validIPv6) ==
      match Decode(LabelOf(cfg)) case None => Throws case Some(name) => Parsed(VlessLink(cfg, u), name)
    ensures VLESS_PREFIX <= VlessLink(cfg, u) && Trim(VlessLink(cfg, u)) == VlessLink(cfg, u)
  {
    var hostPort := JoinHostPort(HostOf(cfg), Itoa(cfg.publicPort));
    var head := LinkHead(u.id, hostPort, Encode(LinkQuery(cfg, u)));
    HeadShape(u.id, hostPort, LinkQuery(cfg, u));
    PrintedTrim(head, LabelOf(cfg), FragmentPart);
    PrintedRemark(head, LabelOf(cfg), FragmentPart);
    PlainFormParses(VlessLink(cfg, u), validIPv6);
  }

  lemma PlainFormParses(link: Text, validIPv6: Text -> bool)
    requires VLESS_PREFIX <= link && Trim(link) == link
    ensures ParseShareLink(link, validIPv6) ==
      match RemarkOf(link) case None => Throws case Some(name) => Parsed(link, name)
  {
    assert link[0] == VLESS_PREFIX[0] == 'v' && LANWAY_PREFIX[0] == 'l';
  }

  /** White space around a pasted link does not matter. */
  lemma BlanksIgnored(a: Text, input: Text, b: Text, validIPv6: Text -> bool)
    requires AllBlank(a) && AllBlank(b) && input != [] && !IsBlank(input[0]) && !IsBlank(input[|input| - 1])
    ensures ParseShareLink(a + input + b, validIPv6) == ParseShareLink(input, validIPv6)
  {
    TrimIgnores(a, input, b);
    TrimKeeps(input);
  }

  function DeepLinkQuery(vless: Text, name: Text): Text {
    Pair(CONFIG, vless) + "&" + Pair(NAME, name)
  }

  lemma DeepLinkParameters(vless: Text, name: Text)
    ensures SplitQuery(DeepLinkQuery(vless, name), map[]) ==
      match (Decode(vless), Decode(name))
      case (Some(v), Some(n)) => Some(map[CONFIG := v, NAME := n])
      case _ => None
  {
    assert |CONFIG| == 6 && |NAME| == 4;
    KeysAreText();
    PairAdds(CONFIG, vless, map[]);
    SplitPiece(Pair(CONFIG, vless), Pair(NAME, name), map[]);
    if Decode(vless).Some? {
      var config := map[CONFIG := Decode(vless).value];
      PairAdds(NAME, name, config);
      SplitPiece(Pair(NAME, name), [], config);
    }
  }

  lemma KeysAreText()
    ensures Decode(CONFIG) == Some(CONFIG) && Decode(NAME) == Some(NAME)
  {
    AsciiIsText(CONFIG);
    AsciiIsText(NAME);
  }

  lemma KeyText()
    ensures Escape(CONFIG, QueryPart) == CONFIG && Escape(NAME, QueryPart) == NAME
  {
    EscapeKept(CONFIG, QueryPart);
    EscapeKept(NAME, QueryPart);
  }

  lemma Regroup(head: Text, k: Text, v: Text, l: Text, w: Text)
    ensures (head + (k + "=")) + v + ("&" + (l + "=")) + w == head + ((k + "=" + v) + "&" + (l + "=" + w))
  {
  }

  const SCHEME: Text := "lanway"
  const ADD: Text := "add"
  const DEEP_HEAD: Text := SCHEME + "://" + ADD + "?"

  lemma DeepLiterals()
    ensures "lanway://add?config=" == DEEP_HEAD + (CONFIG + "=") && "&name=" == "&" + (NAME + "=")
  {
  }

  lemma LanwayShape(vless: Text, name: Text)
    ensures LanwayLink(vless, name) == DEEP_HEAD + DeepLinkQuery(vless, name)
  {
    KeyText();
    DeepLiterals();
    Regroup(DEEP_HEAD, CONFIG, Escape(vless, QueryPart), NAME, Escape(name, QueryPart));
  }

  lemma DeepLinkNoHash(vless: Text, name: Text)
    ensures Free(DeepLinkQuery(vless, name), {'#'})
  {
    QueryEscapeOutput(vless, '#');
    QueryEscapeOutput(name, '#');
    QueryEscapeOutput(CONFIG, '#');
    QueryEscapeOutput(NAME, '#');
  }

  lemma AddIsPlain()
    ensures PlainHost(ADD) && Lower(ADD) == ADD && Free(ADD, {'#', '?', '/', '@'})
    ensures Free(SCHEME, {':', '?', '#'})
  {
    assert ADD == ['a', 'd', 'd'];
  }

  lemma LanwayTrim(vless: Text, name: Text)
    requires name != []
    ensures Trim(LanwayLink(vless, name)) == LanwayLink(vless, name)
    ensures LANWAY_PREFIX <= LanwayLink(vless, name)
  {
    var s, tail := LanwayLink(vless, name), Escape(name, QueryPart);
    EscapeNonEmpty(name, QueryPart);
    assert s[|s| - 1] == tail[|tail| - 1];
    TrimKeeps(s);
    assert LANWAY_PREFIX <= "lanway://add?config=";
  }

  lemma LanwayUri(vless: Text, name: Text, validIPv6: Text -> bool)
    ensures ParseUri(LanwayLink(vless, name), validIPv6)
         == Some(Uri([], ADD, None, DeepLinkQuery(vless, name), []))
  {
    LanwayShape(vless, name);
    DeepLinkNoHash(vless, name);
    AddIsPlain();
    ParseNoUser(SCHEME, ADD, DeepLinkQuery(vless, name), validIPv6);
    PlainHostParses(ADD, validIPv6);
  }

  /** The deep link around any vless link and name parses to both as decoded, through two layers of
      escaping; it throws if either is not UTF-8. */
  lemma LanwayFormParses(vless: Text, name: Text, validIPv6: Text -> bool)
    requires VLESS_PREFIX <= vless && name != []
    ensures ParseShareLink(LanwayLink(vless, name), validIPv6) ==
      if IsUtf8(vless) && IsUtf8(name) then Parsed(vless, Named(Decode(name).value)) else Throws
  {
    LanwayTrim(vless, name);
    LanwayUri(vless, name, validIPv6);
    DeepLinkParameters(vless, name);
    Unmarked(vless);
    if IsUtf8(vless) && IsUtf8(name) {
      ParsesVia(LanwayLink(vless, name), map[CONFIG := vless, NAME := Decode(name).value], validIPv6);
      DeepLinkMeans(vless, Decode(name).value);
    } else {
      ThrowsVia(LanwayLink(vless, name), validIPv6);
    }
  }

  /** A deep link without a name goes by the remark of the link inside it. */
  lemma UnnamedFormParses(vless: Text, validIPv6: Text -> bool)
    requires VLESS_PREFIX <= vless && IsUtf8(vless)
    ensures ParseShareLink("lanway://add?config=" + Escape(vless, QueryPart), validIPv6)
         == match RemarkOf(vless) case None => Throws case Some(name) => Parsed(vless, Named(name))
  {
    var link := DEEP_HEAD + Pair(CONFIG, vless);
    var query := Pair(CONFIG, vless);
    UnnamedShape(vless);
    KeysAreText();
    Unmarked(vless);
    PairAdds(CONFIG, vless, map[]);
    SplitPiece(query, [], map[]);
    UnnamedUri(vless, validIPv6);
    UnnamedTrim(vless);
    ParsesVia(link, map[CONFIG := vless], validIPv6);
    assert |CONFIG| == 6 && |NAME| == 4;
  }

  lemma UnnamedShape(vless: Text)
    ensures "lanway://add?config=" + Escape(vless, QueryPart) == DEEP_HEAD + Pair(CONFIG, vless)
  {
    KeyText();
    DeepLiterals();
    assert DEEP_HEAD + (CONFIG + "=") + Escape(vless, QueryPart) == DEEP_HEAD + (CONFIG + "=" + Escape(vless, QueryPart));
  }

  lemma UnnamedUri(vless: Text, validIPv6: Text -> bool)
    ensures ParseUri(DEEP_HEAD + Pair(CONFIG, vless), validIPv6) == Some(Uri([], ADD, None, Pair(CONFIG, vless), []))
  {
    QueryEscapeOutput(vless, '#');
    QueryEscapeOutput(CONFIG, '#');
    AddIsPlain();
    ParseNoUser(SCHEME, ADD, Pair(CONFIG, vless), validIPv6);
    PlainHostParses(ADD, validIPv6);
  }

  lemma TailTrims(head: Text, tail: Text)
    requires head != [] && !IsBlank(head[0]) && tail != [] && !IsBlank(tail[|tail| - 1])
    ensures Trim(head + tail) == head + tail
  {
    var s := head + tail;
    assert s[0] == head[0] && s[|s| - 1] == tail[|tail| - 1];
    TrimKeeps(s);
  }

  lemma DeepHeadBegins()
    ensures LANWAY_PREFIX <= DEEP_HEAD && !IsBlank(DEEP_HEAD[0])
  {
    assert DEEP_HEAD[0] == 'l';
  }

  lemma UnnamedTrim(vless: Text)
    requires vless != []
    ensures var s := DEEP_HEAD + Pair(CONFIG, vless); Trim(s) == s && LANWAY_PREFIX <= s
  {
    var tail := Escape(vless, QueryPart);
    var pair := Pair(CONFIG, vless);
    EscapeNonEmpty(vless, QueryPart);
    assert pair[|pair| - 1] == tail[|tail| - 1];
    DeepHeadBegins();
    TailTrims(DEEP_HEAD, pair);
  }

  function Named(name: Text): Text { if name == [] then LANWAY else name }

  lemma Unmarked(vless: Text)
    requires VLESS_PREFIX <= vless
    ensures !(MARK <= vless)
  {
    assert vless[0] == VLESS_PREFIX[0] == 'v';
  }

  lemma ThrowsVia(link: Text, validIPv6: Text -> bool)
    ensures
      && Trim(link) == link && LANWAY_PREFIX <= link && ParseUri(link, validIPv6).Some?
      && QueryParameters(ParseUri(link, validIPv6).value) == None ==>
      ParseShareLink(link, validIPv6) == Throws
  {
  }

  lemma ParsesVia(link: Text, q: Values, validIPv6: Text -> bool)
    ensures
      && Trim(link) == link && LANWAY_PREFIX <= link && ParseUri(link, validIPv6).Some?
      && QueryParameters(ParseUri(link, validIPv6).value) == Some(q) ==>
      ParseShareLink(link, validIPv6) == FromParameters(q)
  {
  }

  lemma DeepLinkMeans(vless: Text, name: Text)
    requires VLESS_PREFIX <= vless
    ensures FromParameters(map[CONFIG := vless, NAME := name]) == Parsed(vless, Named(name))
  {
    assert |CONFIG| == 6 && |NAME| == 4;
  }

  // ---- printed links are ASCII ----

  lemma EscapeIsAscii(s: Text, mode: Mode)
    ensures IsAscii(Escape(s, mode))
  {
    EscapeOutput(s, mode);
  }

  lemma EncodeIsAscii(q: Values)
    ensures IsAscii(Encode(q))
  {
    var s := Encode(q);
    EncodeOutput(SortedKeys(q.Keys), q);
    forall i | 0 <= i < |s| ensures s[i] as int < 128 {
      assert s[i] in s;
      QueryByteIsAscii(s[i]);
    }
  }

  lemma QueryByteIsAscii(c: Byte)
    requires Escaped(c, QueryPart) || c in {'=', '&'}
    ensures c as int < 128
  {
  }

  lemma AsciiJoin(a: Text, b: Text)
    requires IsAscii(a) && IsAscii(b)
    ensures IsAscii(a + b)
  {
  }

  lemma HeadIsAscii(id: Text, hostPort: Text, q: Values)
    ensures IsAscii(LinkHead(id, hostPort, Encode(q)))
  {
    var scheme: Text := "vless" + "://";
    EscapeIsAscii(id, UserPart);
    EscapeIsAscii(hostPort, HostPart);
    EncodeIsAscii(q);
    AsciiJoin(scheme, Escape(id, UserPart));
    AsciiJoin(scheme + Escape(id, UserPart), "@");
    AsciiJoin(scheme + Escape(id, UserPart) + "@", Escape(hostPort, HostPart));
    AsciiJoin(scheme + Escape(id, UserPart) + "@" + Escape(hostPort, HostPart), "?");
    AsciiJoin(scheme + Escape(id, UserPart) + "@" + Escape(hostPort, HostPart) + "?", Encode(q));
  }

  lemma VlessIsAscii(cfg: XrayConfig.Config, u: Accounts.User)
    ensures IsAscii(VlessLink(cfg, u))
  {
    var head := LinkHead(u.id, JoinHostPort(HostOf(cfg), Itoa(cfg.publicPort)), Encode(LinkQuery(cfg, u)));
    HeadIsAscii(u.id, JoinHostPort(HostOf(cfg), Itoa(cfg.publicPort)), LinkQuery(cfg, u));
    EscapeIsAscii(LabelOf(cfg), FragmentPart);
    AsciiJoin(head, "#");
    AsciiJoin(head + "#", Escape(LabelOf(cfg), FragmentPart));
  }

  /** Both forms the server hands out mean the same link under the same name, for every
      configuration and user, unless the label is a byte order mark and nothing else; and for a
      label that is a text, that link is the vless link and that name the label. */
  lemma FormsAgree(cfg: XrayConfig.Config, u: Accounts.User, validIPv6: Text -> bool)
    ensures LabelOf(cfg) != MARK <==>
      ParseShareLink(LanwayLink(VlessLink(cfg, u), LabelOf(cfg)), validIPv6) == ParseShareLink(VlessLink(cfg, u), validIPv6)
    ensures IsText(LabelOf(cfg)) ==>
      ParseShareLink(VlessLink(cfg, u), validIPv6) == Parsed(VlessLink(cfg, u), LabelOf(cfg))
    ensures ParseShareLink(LanwayLink(VlessLink(cfg, u), LabelOf(cfg)), validIPv6) ==
      if IsUtf8(LabelOf(cfg)) then Parsed(VlessLink(cfg, u), Named(Decode(LabelOf(cfg)).value)) else Throws
  {
    VlessFormParses(cfg, u, validIPv6);
    VlessIsAscii(cfg, u);
    AsciiIsText(VlessLink(cfg, u));
    LanwayFormParses(VlessLink(cfg, u), LabelOf(cfg), validIPv6);
    OnlyMarkVanishes(LabelOf(cfg));
  }

  lemma OnlyMarkVanishes(s: Text)
    requires s != []
    ensures Decode(s) == Some([]) <==> s == MARK
    ensures Decode(s).Some? && IsText(s) ==> Decode(s).value == s
  {
    MarkDecodes();
    if Decode(s) == Some([]) { assert s == s[..3] + s[3..]; }
  }

  lemma MarkDecodes()
    ensures Decode(MARK) == Some([])
  {
    assert Announced(MARK[0]) == 3 && SecondFits(MARK[0], MARK[1]) && IsTail(MARK, 1, 3);
    var rest := MARK[3..];
    assert rest == [];
    assert IsUtf8(rest);
    assert IsUtf8(MARK);
  }
}
