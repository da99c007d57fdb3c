/** Links the client builds itself from the fields of its manual form. */
module ManualLinks {
  import opened Bytes
  import opened PercentEncoding
  import opened Query
  import opened Uris
  import opened Links
  import opened ClientLinks
  import opened Agreement
  import opened ManualHosts
  import opened Utf8

  // A Dart map literal keeps its entries in insertion order.
  type Entries = seq<(Text, Text)>

  function EntryText(e: (Text, Text)): Text { e.0 + "=" + Escape(e.1, QueryPart) }

  function JoinEntries(es: Entries): Text {
    if es == [] then []
    else if |es| == 1 then EntryText(es[0])
    else EntryText(es[0]) + "&" + JoinEntries(es[1..])
  }

  function Collect(es: Entries, acc: Values): Values {
    if es == [] then acc else Collect(es[1..], acc[es[0].0 := es[0].1])
  }

  /** Keys are written unescaped, so they must need none. */
  predicate PlainKey(k: Text) { k != [] && forall c :: c in k ==> Kept(c, QueryPart) }

  /** The entries with their values as the client decodes them. */
  function Read(es: Entries): Entries {
    if es == [] then [] else [(es[0].0, Decoding(es[0].1))] + Read(es[1..])
  }

  lemma PlainKeyIsText(k: Text)
    requires PlainKey(k)
    ensures Decode(k) == Some(k)
  {
    forall i | 0 <= i < |k| ensures k[i] as int < 128 { assert k[i] in k; }
    AsciiIsText(k);
  }

  lemma {:induction false} SplitJoined(es: Entries, acc: Values)
    requires forall e :: e in es ==> PlainKey(e.0) && IsUtf8(e.1)
    ensures SplitQuery(JoinEntries(es), acc) == Some(Collect(Read(es), acc))
  {
    if es != [] {
      var k, v := es[0].0, es[0].1;
      assert es[0] in es;
      EscapeKept(k, QueryPart);
      PlainKeyIsText(k);
      PairAdds(k, v, acc);
      var acc' := acc[k := Decoding(v)];
      CollectCons((k, Decoding(v)), Read(es[1..]), acc);
      if |es| == 1 {
        SplitPiece(Pair(k, v), [], acc);
      } else {
        SplitPiece(Pair(k, v), JoinEntries(es[1..]), acc);
        SplitJoined(es[1..], acc');
      }
    }
  }

  lemma {:induction false} JoinedNoHash(es: Entries)
    requires forall e :: e in es ==> PlainKey(e.0)
    ensures Free(JoinEntries(es), {'#'})
  {
    if es != [] {
      QueryEscapeOutput(es[0].1, '#');
      assert PlainKey(es[0].0) && !Kept('#', QueryPart);
      if |es| > 1 { JoinedNoHash(es[1..]); }
    }
  }

  function ManualEntries(host: Text, tls: bool, path: Text): Entries {
    var first := [(ENCRYPTION, "none"), (TYPE, if tls then "ws" else "tcp"), (SECURITY, if tls then "tls" else "none")];
    if tls then first + [(PATH, path), (SNI, host)] else first
  }

  function ManualHead(uuid: Text, hostPort: Text, q: Text): Text {
    "vless" + "://" + uuid + "@" + hostPort + "?" + q
  }

  function ManualLink(uuid: Text, host: Text, port: nat, name: Text, tls: bool, path: Text): Text {
    ManualHead(uuid, host + ":" + Itoa(port), JoinEntries(ManualEntries(host, tls, path)))
    + "#" + Escape(name, ComponentPart)
  }

  /** buildManualVless. */
  method BuildManualVless(uuid: Text, host: Text, port: nat, name: Text, tls: bool, path: Text)
      returns (link: Text)
    ensures link == ManualLink(uuid, host, port, name, tls, path)
  {
    var query: Entries :=
      [(ENCRYPTION, "none"), (TYPE, if tls then "ws" else "tcp"), (SECURITY, if tls then "tls" else "none")];
    if tls {
      query := query + [(PATH, path)];
      query := query + [(SNI, host)];
    }
    assert query == ManualEntries(host, tls, path);
    link := ManualHead(uuid, host + ":" + Itoa(port), JoinEntries(query)) + "#" + Escape(name, ComponentPart);
  }

  // ---- the round trip ----

  predicate UuidOk(uuid: Text) { forall c :: c in uuid ==> IsUnreserved(c) }

  lemma KeysArePlain()
    ensures PlainKey(ENCRYPTION) && PlainKey(TYPE) && PlainKey(SECURITY) && PlainKey(PATH) && PlainKey(SNI)
  {
  }

  lemma EntriesArePlain(host: Text, tls: bool, path: Text)
    ensures forall e :: e in ManualEntries(host, tls, path) ==> PlainKey(e.0)
  {
    KeysArePlain();
  }

  lemma FixedValuesAreUtf8(tls: bool)
    ensures IsUtf8("none") && IsUtf8(if tls then "ws" else "tcp") && IsUtf8(if tls then "tls" else "none")
  {
    AsciiIsUtf8("none");
    AsciiIsUtf8(if tls then "ws" else "tcp");
    AsciiIsUtf8(if tls then "tls" else "none");
  }

  lemma ValuesUtf8(es: Entries, more: Entries)
    requires (forall e :: e in es ==> IsUtf8(e.1)) && (forall e :: e in more ==> IsUtf8(e.1))
    ensures forall e :: e in es + more ==> IsUtf8(e.1)
  {
  }

  lemma EntriesAreText(host: Text, tls: bool, path: Text)
    requires IsUtf8(host) && IsUtf8(path)
    ensures forall e :: e in ManualEntries(host, tls, path) ==> IsUtf8(e.1)
  {
    FixedValuesAreUtf8(tls);
    ValuesUtf8([(ENCRYPTION, "none"), (TYPE, if tls then "ws" else "tcp"), (SECURITY, if tls then "tls" else "none")],
               if tls then [(PATH, path), (SNI, host)] else []);
  }

  lemma UuidIsFree(uuid: Text)
    requires UuidOk(uuid)
    ensures Free(uuid, {'#', '?', '/', '@'})
  {
    assert forall c :: c in {'#', '?', '/', '@'} ==> !IsUnreserved(c);
  }

  /** The hosts whose link keeps its shape. */
  lemma HostPortIsFree(host: Text, port: nat)
    requires HostChars(Denoted(host))
    ensures Free(host + ":" + Itoa(port), {'#', '?', '/'})
  {
    ItoaText(port);
    var s := host + ":" + Itoa(port);
    forall c | c in s ensures c !in {'#', '?', '/'} {
      var i :| 0 <= i < |s| && s[i] == c;
      if i < |host| { BracketOrChar(host, i); } else if i > |host| { assert c in Itoa(port); }
    }
  }

  lemma BracketOrChar(host: Text, i: nat)
    requires HostChars(Denoted(host)) && i < |host|
    ensures HostChar(host[i]) || host[i] in {'[', ']'}
  {
    if Bracketed(host) && 0 < i < |host| - 1 { assert host[i] == Denoted(host)[i - 1]; }
  }

  lemma OkHostChars(host: Text, validIPv6: Text -> bool)
    requires ManualHostOk(host, validIPv6)
    ensures HostChars(Denoted(host)) && IsAscii(host)
  {
    if Bracketed(host) { LiteralChars(Denoted(host)); } else { SettledChars(host); }
    forall i | 0 <= i < |host| ensures host[i] as int < 128 { BracketOrChar(host, i); }
  }

  lemma HeadParses(uuid: Text, hostPort: Text, q: Text, fragment: Text, validIPv6: Text -> bool)
    requires Free(uuid, {'#', '?', '/', '@'}) && Free(hostPort, {'#', '?', '/'}) && Free(q, {'#'})
    ensures ParseUri(ManualHead(uuid, hostPort, q) + "#" + fragment, validIPv6)
         == match ParseHostPort(hostPort, validIPv6)
            case None => None
            case Some(hp) => Some(Uri(uuid, hp.host, hp.port, q, fragment))
  {
    ParseAssembled("vless", uuid, hostPort, q, fragment, validIPv6);
  }

  lemma HeadOf(uuid: Text, hostPort: Text, q: Text)
    requires '#' !in uuid && '#' !in hostPort && '#' !in q
    ensures '#' !in ManualHead(uuid, hostPort, q) && VLESS_PREFIX <= ManualHead(uuid, hostPort, q)
  {
    assert VLESS_PREFIX == "vless" + "://";
  }

  /** What the form means: the host as typed is the server name, and its address, an IPv6 literal
      out of its brackets, is what is dialled. */
  function ManualOutbound(uuid: Text, host: Text, port: nat, tls: bool, path: Text): Outbound {
    Outbound(Lower(Denoted(host)), port, uuid, None,
             if tls then Some(TlsPart(host, None)) else None, if tls then Some(Decoding(path)) else None)
  }

  lemma CollectCons(e: (Text, Text), rest: Entries, acc: Values)
    ensures Collect([e] + rest, acc) == Collect(rest, acc[e.0 := e.1])
  {
    assert ([e] + rest)[1..] == rest;
  }

  lemma CollectSteps(a: (Text, Text), b: (Text, Text), c: (Text, Text), rest: Entries, acc: Values)
    ensures Collect([a, b, c] + rest, acc) == Collect(rest, acc[a.0 := a.1][b.0 := b.1][c.0 := c.1])
  {
    assert [a, b, c] + rest == [a] + ([b] + ([c] + rest));
    CollectCons(a, [b] + ([c] + rest), acc);
    CollectCons(b, [c] + rest, acc[a.0 := a.1]);
    CollectCons(c, rest, acc[a.0 := a.1][b.0 := b.1]);
  }

  lemma CollectPair(a: (Text, Text), b: (Text, Text), acc: Values)
    ensures Collect([a, b], acc) == acc[a.0 := a.1][b.0 := b.1]
  {
    assert [a, b] == [a] + ([b] + []);
    CollectCons(a, [b] + [], acc);
    CollectCons(b, [], acc[a.0 := a.1]);
  }

  function Collected(host: Text, tls: bool, path: Text): Values {
    var first := map[ENCRYPTION := "none"]
      [TYPE := if tls then "ws" else "tcp"][SECURITY := if tls then "tls" else "none"];
    if tls then first[PATH := Decoding(path)][SNI := host] else first
  }

  lemma FixedAreText()
    ensures Decoding("none") == "none" && Decoding("ws") == "ws"
    ensures Decoding("tcp") == "tcp" && Decoding("tls") == "tls"
  {
    AsciiIsText("none");
    AsciiIsText("ws");
    AsciiIsText("tcp");
    AsciiIsText("tls");
  }

  lemma ReadCons(e: (Text, Text), rest: Entries)
    ensures Read([e] + rest) == [(e.0, Decoding(e.1))] + Read(rest)
  {
    assert ([e] + rest)[1..] == rest;
  }

  lemma ReadThree(a: (Text, Text), b: (Text, Text), c: (Text, Text), rest: Entries)
    ensures Read([a, b, c] + rest) ==
      [(a.0, Decoding(a.1)), (b.0, Decoding(b.1)), (c.0, Decoding(c.1))] + Read(rest)
  {
    assert [a, b, c] + rest == [a] + ([b] + ([c] + rest));
    ReadCons(a, [b] + ([c] + rest));
    ReadCons(b, [c] + rest);
    ReadCons(c, rest);
  }

  lemma ReadTwo(a: (Text, Text), b: (Text, Text))
    ensures Read([a, b]) == [(a.0, Decoding(a.1)), (b.0, Decoding(b.1))]
  {
    assert [a, b] == [a] + ([b] + []);
    ReadCons(a, [b] + []);
    ReadCons(b, []);
  }

  lemma CollectedEntries(host: Text, tls: bool, path: Text)
    requires IsAscii(host)
    ensures Collect(Read(ManualEntries(host, tls, path)), map[]) == Collected(host, tls, path)
  {
    var a, b, c := (ENCRYPTION, "none"), (TYPE, if tls then "ws" else "tcp"), (SECURITY, if tls then "tls" else "none");
    var rest: Entries := if tls then [(PATH, path), (SNI, host)] else [];
    var read: Entries := if tls then [(PATH, Decoding(path)), (SNI, host)] else [];
    assert ManualEntries(host, tls, path) == [a, b, c] + rest;
    FixedAreText();
    AsciiIsText(host);
    ReadThree(a, b, c, rest);
    ReadTwo((PATH, path), (SNI, host));
    assert Read(rest) == read;
    CollectSteps(a, b, c, read, map[]);
    assert map[][ENCRYPTION := "none"] == map[ENCRYPTION := "none"];
    if tls {
      CollectPair((PATH, Decoding(path)), (SNI, host), map[a.0 := a.1][b.0 := b.1][c.0 := c.1]);
    }
  }

  lemma CollectedOutbound(uri: Uri, host: Text, port: nat, tls: bool, path: Text)
    requires uri.host == Lower(Denoted(host)) && uri.port == Some(port)
    ensures OutboundOf(uri, Collected(host, tls, path)) == ManualOutbound(uri.userInfo, host, port, tls, path)
  {
    KeysDiffer();
  }

  lemma ManualQuery(host: Text, tls: bool, path: Text)
    requires IsAscii(host) && IsUtf8(path)
    ensures SplitQuery(JoinEntries(ManualEntries(host, tls, path)), map[]) == Some(Collected(host, tls, path))
  {
    AsciiIsUtf8(host);
    EntriesArePlain(host, tls, path);
    EntriesAreText(host, tls, path);
    SplitJoined(ManualEntries(host, tls, path), map[]);
    CollectedEntries(host, tls, path);
  }

  lemma ManualUri(uuid: Text, host: Text, port: nat, q: Text, fragment: Text, validIPv6: Text -> bool)
    requires UuidOk(uuid) && ManualHostOk(host, validIPv6) && port <= 65535 && Free(q, {'#'})
    ensures ParseUri(ManualHead(uuid, host + ":" + Itoa(port), q) + "#" + fragment, validIPv6)
         == Some(Uri(uuid, Lower(Denoted(host)), Some(port), q, fragment))
  {
    OkHostChars(host, validIPv6);
    UuidIsFree(uuid);
    HostPortIsFree(host, port);
    RawAddress(host, port, validIPv6);
    HeadParses(uuid, host + ":" + Itoa(port), q, fragment, validIPv6);
  }

  /** The outbound of a link with any fragment, for a host and port that come back. */
  lemma ManualTranslates(uuid: Text, host: Text, port: nat, fragment: Text, tls: bool, path: Text, validIPv6: Text -> bool)
    requires UuidOk(uuid) && ManualHostOk(host, validIPv6) && port <= 65535 && IsUtf8(path)
    ensures var link := ManualHead(uuid, host + ":" + Itoa(port), JoinEntries(ManualEntries(host, tls, path)))
                        + "#" + fragment;
      Trim(link) == link ==> Translate(link, validIPv6) == Some(ManualOutbound(uuid, host, port, tls, path))
  {
    var q := JoinEntries(ManualEntries(host, tls, path));
    OkHostChars(host, validIPv6);
    EntriesArePlain(host, tls, path);
    JoinedNoHash(ManualEntries(host, tls, path));
    ManualUri(uuid, host, port, q, fragment, validIPv6);
    ManualQuery(host, tls, path);
    CollectedOutbound(Uri(uuid, Lower(Denoted(host)), Some(port), q, fragment), host, port, tls, path);
  }

  lemma ManualShape(uuid: Text, host: Text, port: nat, tls: bool, path: Text)
    requires UuidOk(uuid) && HostChars(Denoted(host))
    ensures Free(uuid, {'#', '?', '/', '@'}) && Free(host + ":" + Itoa(port), {'#', '?', '/'})
    ensures Free(JoinEntries(ManualEntries(host, tls, path)), {'#'})
    ensures var head := ManualHead(uuid, host + ":" + Itoa(port), JoinEntries(ManualEntries(host, tls, path)));
      '#' !in head && VLESS_PREFIX <= head
  {
    UuidIsFree(uuid);
    HostPortIsFree(host, port);
    EntriesArePlain(host, tls, path);
    JoinedNoHash(ManualEntries(host, tls, path));
    HeadOf(uuid, host + ":" + Itoa(port), JoinEntries(ManualEntries(host, tls, path)));
  }

  lemma ManualTrim(head: Text, name: Text)
    requires VLESS_PREFIX <= head
    ensures var s := head + "#" + Escape(name, ComponentPart); Trim(s) == s
  {
    if name != [] {
      PrintedTrim(head, name, ComponentPart);
    } else {
      var s := head + "#";
      assert s[0] == VLESS_PREFIX[0] == 'v';
      TrimKeeps(s);
      assert s + [] == s;
    }
  }

  lemma NamedLink(head: Text, name: Text, validIPv6: Text -> bool)
    requires VLESS_PREFIX <= head && '#' !in head && name != [] && IsUtf8(name)
    ensures var s := head + "#" + Escape(name, ComponentPart);
      Trim(s) == s && ParseShareLink(s, validIPv6) == Parsed(s, Decoding(name))
  {
    PrintedTrim(head, name, ComponentPart);
    PrintedRemark(head, name, ComponentPart);
    PlainFormParses(head + "#" + Escape(name, ComponentPart), validIPv6);
  }

  /** A manual link with a name parses to itself and that name as decoded, and its outbound has
      every field of the form: the address and uuid, and under TLS the server name and path. */
  lemma ManualRoundTrip(uuid: Text, host: Text, port: nat, name: Text, tls: bool, path: Text, validIPv6: Text -> bool)
    requires UuidOk(uuid) && ManualHostOk(host, validIPv6) && port <= 65535
    requires name != [] && IsUtf8(name) && IsUtf8(path)
    ensures var link := ManualLink(uuid, host, port, name, tls, path);
      && ParseShareLink(link, validIPv6) == Parsed(link, Decoding(name))
      && Translate(link, validIPv6) == Some(ManualOutbound(uuid, host, port, tls, path))
  {
    var head := ManualHead(uuid, host + ":" + Itoa(port), JoinEntries(ManualEntries(host, tls, path)));
    OkHostChars(host, validIPv6);
    ManualShape(uuid, host, port, tls, path);
    ManualTranslates(uuid, host, port, Escape(name, ComponentPart), tls, path, validIPv6);
    NamedLink(head, name, validIPv6);
  }

  /** The name is what fails without one: the link comes back as "Lanway". */
  lemma NamelessManualLink(uuid: Text, host: Text, port: nat, tls: bool, path: Text, validIPv6: Text -> bool)
    requires UuidOk(uuid) && HostChars(Denoted(host))
    ensures var link := ManualLink(uuid, host, port, [], tls, path);
      ParseShareLink(link, validIPv6) == Parsed(link, "Lanway")
  {
    var head := ManualHead(uuid, host + ":" + Itoa(port), JoinEntries(ManualEntries(host, tls, path)));
    ManualShape(uuid, host, port, tls, path);
    NamelessRemark(head, validIPv6);
    assert head + "#" + [] == head + "#";
  }

  /** An empty name is replaced by the default one. */
  lemma NamelessRemark(head: Text, validIPv6: Text -> bool)
    requires VLESS_PREFIX <= head && '#' !in head
    ensures var s := head + "#"; ParseShareLink(s, validIPv6) == Parsed(s, LANWAY)
  {
    var s := head + "#";
    ManualTrim(head, []);
    FindFirst(head, '#', []);
    assert s == head + ['#'] + [];
    PlainFormParses(s, validIPv6);
  }

  // ---- exactly which hosts and ports come back ----

  predicate Dials(r: Option<Outbound>, host: Text, port: nat) {
    r.Some? && r.value.server == Lower(Denoted(host)) && r.value.port == port
  }

  lemma DialledChars(link: Text, validIPv6: Text -> bool)
    ensures Translate(link, validIPv6).Some? ==> HostChars(Translate(link, validIPv6).value.server)
  {
    var uri := ParseUri(Trim(link), validIPv6);
    if uri.Some? { UriChars(Trim(link), validIPv6); }
  }

  lemma UriChars(s: Text, validIPv6: Text -> bool)
    ensures ParseUri(s, validIPv6).Some? ==> HostChars(ParseUri(s, validIPv6).value.host)
  {
    var head := CutBefore(CutBefore(s, '#'), '?');
    var rest := CutAfter(head, ':');
    if |rest| >= 2 {
      var authority := CutBefore(rest[2..], '/');
      ParsedHostChars(if '@' in authority then CutAfter(authority, '@') else authority, validIPv6);
    }
  }

  /** For any host whatever, and any port: a manual link dials them if and only if the host is made
      of the bytes of a registered name and settled escapes, or is a valid IPv6 literal in
      brackets, and the port is in range. */
  lemma ManualHostExactly(uuid: Text, host: Text, port: nat, name: Text, tls: bool, path: Text, validIPv6: Text -> bool)
    requires UuidOk(uuid) && IsUtf8(path)
    ensures Dials(Translate(ManualLink(uuid, host, port, name, tls, path), validIPv6), host, port)
      <==> ManualHostOk(host, validIPv6) && port <= 65535
  {
    var link := ManualLink(uuid, host, port, name, tls, path);
    if ManualHostOk(host, validIPv6) && port <= 65535 {
      OkHostChars(host, validIPv6);
      ManualShape(uuid, host, port, tls, path);
      ManualTrim(ManualHead(uuid, host + ":" + Itoa(port), JoinEntries(ManualEntries(host, tls, path))), name);
      ManualTranslates(uuid, host, port, Escape(name, ComponentPart), tls, path, validIPv6);
    } else if !HostChars(Denoted(host)) {
      DialledChars(link, validIPv6);
      LowerKeepsChars(Denoted(host));
    } else {
      NotDialled(uuid, host, port, name, tls, path, validIPv6);
    }
  }

  lemma NotDialled(uuid: Text, host: Text, port: nat, name: Text, tls: bool, path: Text, validIPv6: Text -> bool)
    requires UuidOk(uuid) && HostChars(Denoted(host))
    requires !(ManualHostOk(host, validIPv6) && port <= 65535)
    ensures !Dials(Translate(ManualLink(uuid, host, port, name, tls, path), validIPv6), host, port)
  {
    var q := JoinEntries(ManualEntries(host, tls, path));
    var head := ManualHead(uuid, host + ":" + Itoa(port), q);
    ManualShape(uuid, host, port, tls, path);
    ManualTrim(head, name);
    HeadParses(uuid, host + ":" + Itoa(port), q, Escape(name, ComponentPart), validIPv6);
    RawAddress(host, port, validIPv6);
    RawPortWritten(host, port, validIPv6);
    OnlyByAddress(ManualLink(uuid, host, port, name, tls, path), host + ":" + Itoa(port), validIPv6);
  }

  /** The port is written out, so a parsed one is never absent. */
  lemma RawPortWritten(host: Text, port: nat, validIPv6: Text -> bool)
    requires HostChars(Denoted(host))
    ensures var r := ParseHostPort(host + ":" + Itoa(port), validIPv6); r.Some? ==> r.value.port.Some?
  {
    if Bracketed(host) {
      assert host == "[" + Denoted(host) + "]";
      assert host + ":" + Itoa(port) == "[" + (Denoted(host) + ("]:" + Itoa(port)));
      ParseBracket(Denoted(host) + ("]:" + Itoa(port)), validIPv6);
      LiteralPort(Denoted(host), port, validIPv6);
    } else if ':' in host {
      RawColon(host, port, validIPv6);
    } else {
      assert host != [] ==> HostChar(host[0]);
      SplitName(host, Itoa(port), validIPv6);
    }
  }

  lemma OnlyByAddress(link: Text, hostPort: Text, validIPv6: Text -> bool)
    requires Trim(link) == link
    requires ParseUri(link, validIPv6).Some? ==>
      var uri, hp := ParseUri(link, validIPv6).value, ParseHostPort(hostPort, validIPv6);
      hp.Some? && uri.host == hp.value.host && uri.port == hp.value.port && hp.value.port.Some?
    ensures var r, hp := Translate(link, validIPv6), ParseHostPort(hostPort, validIPv6);
      r.Some? ==> hp.Some? && hp.value.port == Some(r.value.port) && hp.value.host == r.value.server
  {
  }
}
