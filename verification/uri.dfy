/** The client's Uri.parse on links with an authority (sections 3.2 to 3.5 of RFC 3986). */
module Uris {
  import opened Bytes
  import opened PercentEncoding
  import opened Query

  datatype Uri = Uri(userInfo: Text, host: Text, port: Option<nat>, query: Text, fragment: Text)

  datatype HostPort = HostPort(host: Text, port: Option<nat>)

  /** The part before the first `c` and, if there is one, the part after it. */
  function CutBefore(s: Text, c: Byte): Text { s[..Find(s, c)] }

  function CutAfter(s: Text, c: Byte): Text {
    if Find(s, c) < |s| then s[Find(s, c) + 1..] else []
  }

  lemma CutJoin(a: Text, c: Byte, b: Text)
    requires c !in a
    ensures CutBefore(a + [c] + b, c) == a && CutAfter(a + [c] + b, c) == b
    ensures CutBefore(a, c) == a && CutAfter(a, c) == []
  {
    FindFirst(a, c, b);
    assert (a + [c] + b)[|a| + 1..] == b;
  }

  // ---- host ----

  /** Bytes a registered name may hold unescaped (section 3.2.2). */
  predicate IsRegName(c: char) { IsUnreserved(c) || IsSubDelim(c) }

  predicate IsGeneralDelim(c: char) { c in {':', '/', '?', '#', '[', ']', '@'} }

  /** Lower-cases, keeps escapes of reserved bytes and undoes those of unreserved ones, and
      escapes what may not appear; None is the FormatException for a general delimiter. */
  function NormalizeRegName(s: Text): Option<Text> {
    if s == [] then Some([])
    else
      var escape := s[0] == '%' && |s| >= 3 && HexPair(s[1], s[2]).Some?;
      match NormalizeRegName(if escape then s[3..] else s[1..])
      case None => None
      case Some(rest) =>
        if escape then
          var c := HexPair(s[1], s[2]).value;
          Some((if IsUnreserved(c) then [LowerByte(c)] else Percent(c)) + rest)
        else if IsRegName(s[0]) then Some([LowerByte(s[0])] + rest)
        else if IsGeneralDelim(s[0]) then None
        else Some(Percent(s[0]) + rest)
  }

  /** The bytes of an IPv6 literal; a zone id is not accepted. */
  predicate IsIPv6Text(s: Text) {
    ':' in s && forall c :: c in s ==> IsHexDigit(c) || c == ':' || c == '.'
  }

  function ParsePort(s: Text): Option<Option<nat>> {
    if s == [] then Some(None)
    else match ParseDigits(s)
      case None => None
      case Some(n) => if n <= 65535 then Some(Some(n)) else None
  }

  /** `validIPv6` is the numeric check of Uri.parseIPv6Address. */
  function ParseHostPort(s: Text, validIPv6: Text -> bool): Option<HostPort> {
    if s != [] && s[0] == '[' then ParseBracketed(s[1..], validIPv6)
    else
      match (NormalizeRegName(CutBefore(s, ':')), ParsePort(CutAfter(s, ':')))
      case (Some(host), Some(port)) => Some(HostPort(host, port))
      case _ => None
  }

  function ParseBracketed(s: Text, validIPv6: Text -> bool): Option<HostPort> {
    var inner, after := CutBefore(s, ']'), CutAfter(s, ']');
    if ']' !in s || !IsIPv6Text(inner) || !validIPv6(inner) then None
    else if after == [] then Some(HostPort(Lower(inner), None))
    else if after[0] != ':' then None
    else match ParsePort(after[1..])
      case None => None
      case Some(port) => Some(HostPort(Lower(inner), port))
  }

  // ---- the whole reference ----

  function ParseUri(s: Text, validIPv6: Text -> bool): Option<Uri> {
    var body := CutBefore(s, '#');
    var head := CutBefore(body, '?');
    var rest := CutAfter(head, ':');
    if !(|rest| >= 2 && rest[..2] == "//") then None
    else
      var authority := CutBefore(rest[2..], '/');
      var userInfo := if '@' in authority then CutBefore(authority, '@') else [];
      var hostPort := if '@' in authority then CutAfter(authority, '@') else authority;
      match ParseHostPort(hostPort, validIPv6)
      case None => None
      case Some(hp) => Some(Uri(userInfo, hp.host, hp.port, CutAfter(body, '?'), CutAfter(s, '#')))
  }

  function QueryParameters(uri: Uri): Option<Values> {
    SplitQuery(uri.query, map[])
  }

  predicate Free(s: Text, delimiters: set<Byte>) {
    forall c :: c in s ==> c !in delimiters
  }

  /** A reference put together from delimiter-free parts comes apart into them. */
  lemma ParseAssembled(scheme: Text, userInfo: Text, hostPort: Text, query: Text, fragment: Text,
                       validIPv6: Text -> bool)
    requires Free(scheme, {':', '?', '#'})
    requires Free(userInfo, {'#', '?', '/', '@'}) && Free(hostPort, {'#', '?', '/'}) && Free(query, {'#'})
    ensures ParseUri(scheme + "://" + userInfo + "@" + hostPort + "?" + query + "#" + fragment, validIPv6)
         == match ParseHostPort(hostPort, validIPv6)
            case None => None
            case Some(hp) => Some(Uri(userInfo, hp.host, hp.port, query, fragment))
  {
    var authority := userInfo + "@" + hostPort;
    var head := scheme + "://" + authority;
    var body := head + "?" + query;
    var s := body + "#" + fragment;
    assert '#' !in body && '?' !in head;
    assert s == body + ['#'] + fragment && body == head + ['?'] + query;
    assert s == scheme + "://" + userInfo + "@" + hostPort + "?" + query + "#" + fragment;
    CutJoin(body, '#', fragment);
    CutJoin(head, '?', query);
    assert head == scheme + [':'] + ("//" + authority);
    CutJoin(scheme, ':', "//" + authority);
    assert ("//" + authority)[2..] == authority;
    CutJoin(authority, '/', []);
    assert authority == userInfo + ['@'] + hostPort;
    CutJoin(userInfo, '@', hostPort);
  }

  lemma ParseNoUser(scheme: Text, host: Text, query: Text, validIPv6: Text -> bool)
    requires Free(scheme, {':', '?', '#'}) && Free(query, {'#'}) && Free(host, {'#', '?', '/', '@'})
    ensures ParseUri(scheme + "://" + host + "?" + query, validIPv6)
         == match ParseHostPort(host, validIPv6)
            case None => None
            case Some(hp) => Some(Uri([], hp.host, hp.port, query, []))
  {
    var head := scheme + "://" + host;
    var body := head + "?" + query;
    assert '#' !in body && '?' !in head;
    assert body == head + ['?'] + query;
    CutJoin(body, '#', []);
    CutJoin(head, '?', query);
    assert head == scheme + [':'] + ("//" + host);
    CutJoin(scheme, ':', "//" + host);
    assert ("//" + host)[2..] == host;
    CutJoin(host, '/', []);
  }

  // ---- which hosts survive ----

  predicate PlainHost(s: Text) { forall c :: c in s ==> IsRegName(c) }

  lemma {:induction false} PlainHostNormalizes(s: Text)
    requires PlainHost(s)
    ensures NormalizeRegName(s) == Some(Lower(s))
  {
    if s != [] {
      PlainHostNormalizes(s[1..]);
      assert IsRegName(s[0]) && s[0] != '%';
      assert NormalizeRegName(s) == Some([LowerByte(s[0])] + Lower(s[1..]));
      assert Lower(s) == [LowerByte(s[0])] + Lower(s[1..]);
    }
  }

  /** Normalizing never shortens the unescaped name, and lengthens it as soon as the printer
      or the parser had to escape a byte. */
  lemma {:induction false} EscapedHostGrows(host: Text)
    requires NormalizeRegName(Escape(host, HostPart)).Some?
    ensures var r := NormalizeRegName(Escape(host, HostPart)).value;
      |r| >= |host| && (|r| == |host| ==> PlainHost(host))
  {
    if host != [] {
      var c, rest := host[0], Escape(host[1..], HostPart);
      var s := Escape(host, HostPart);
      if Kept(c, HostPart) {
        assert s == [c] + rest && s[1..] == rest;
        EscapedHostGrows(host[1..]);
      } else {
        HexPairOfPercent(c);
        assert s == Percent(c) + rest && s[3..] == rest;
        EscapedHostGrows(host[1..]);
      }
      assert host == [host[0]] + host[1..];
    }
  }

  /** Printed by the server and parsed by the client, a name without ':' comes back (in lower
      case) exactly when no byte of it needs escaping. */
  lemma RegNameSurvives(host: Text)
    ensures NormalizeRegName(Escape(host, HostPart)) == Some(Lower(host)) <==> PlainHost(host)
  {
    if PlainHost(host) {
      EscapeKept(host, HostPart);
      PlainHostNormalizes(host);
    } else if NormalizeRegName(Escape(host, HostPart)).Some? {
      EscapedHostGrows(host);
    }
  }

  lemma PlainHostParses(host: Text, validIPv6: Text -> bool)
    requires PlainHost(host)
    ensures ParseHostPort(host, validIPv6) == Some(HostPort(Lower(host), None))
  {
    assert ':' !in host && '[' !in host by {
      assert !IsRegName(':') && !IsRegName('[');
    }
    CutJoin(host, ':', []);
    PlainHostNormalizes(host);
  }
}
