/** Hosts typed into the manual form, which the link carries unescaped: which of them the parser
    gives back. */
module ManualHosts {
  import opened Bytes
  import opened PercentEncoding
  import opened Uris
  import opened Agreement

  predicate Bracketed(host: Text) { |host| >= 2 && host[0] == '[' && host[|host| - 1] == ']' }

  /** The address meant: an IPv6 literal is typed in brackets. */
  function Denoted(host: Text): Text {
    if Bracketed(host) then host[1..|host| - 1] else host
  }

  /** An escape that normalization leaves as it is: of a byte that is not unreserved, and without
      a hexadecimal letter, whose case it would change. */
  predicate SettledEscape(s: Text) {
    && |s| >= 3 && s[0] == '%' && IsDigit(s[1]) && IsDigit(s[2])
    && HexPair(s[1], s[2]).Some? && !IsUnreserved(HexPair(s[1], s[2]).value)
  }

  /** Bytes of a registered name and settled escapes. */
  predicate SettledHost(s: Text)
    decreases |s|
  {
    || s == []
    || (SettledEscape(s) && SettledHost(s[3..]))
    || (IsRegName(s[0]) && SettledHost(s[1..]))
  }

  predicate ManualHostOk(host: Text, validIPv6: Text -> bool) {
    if Bracketed(host) then IsIPv6Text(Denoted(host)) && validIPv6(Denoted(host)) else SettledHost(host)
  }

  // ---- normalization ----

  predicate BeginsEscape(s: Text) { |s| >= 3 && s[0] == '%' && HexPair(s[1], s[2]).Some? }

  lemma NormalizeEscape(s: Text)
    requires BeginsEscape(s) && NormalizeRegName(s).Some?
    ensures NormalizeRegName(s[3..]).Some?
    ensures var c := HexPair(s[1], s[2]).value;
      NormalizeRegName(s).value ==
        (if IsUnreserved(c) then [LowerByte(c)] else Percent(c)) + NormalizeRegName(s[3..]).value
  {
  }

  lemma NormalizeByte(s: Text)
    requires s != [] && !BeginsEscape(s) && NormalizeRegName(s).Some?
    ensures NormalizeRegName(s[1..]).Some?
    ensures NormalizeRegName(s).value ==
      (if IsRegName(s[0]) then [LowerByte(s[0])] else Percent(s[0])) + NormalizeRegName(s[1..]).value
  {
  }

  lemma LowerSplit(s: Text, n: nat)
    requires n <= |s|
    ensures Lower(s) == Lower(s[..n]) + Lower(s[n..])
  {
  }

  lemma EqualParts(a: Text, b: Text, c: Text, d: Text)
    requires a + b == c + d && |a| == |c|
    ensures a == c && b == d
  {
    assert a == (a + b)[..|a|] && c == (c + d)[..|c|];
    assert b == (a + b)[|a|..] && d == (c + d)[|c|..];
  }

  lemma HexLetters(hi: Byte, lo: Byte)
    requires HexPair(hi, lo).Some?
    ensures Percent(HexPair(hi, lo).value) == ['%', LowerByte(hi), LowerByte(lo)] <==> IsDigit(hi) && IsDigit(lo)
  {
    var h, l := HexValue(hi).value, HexValue(lo).value;
    var c := HexPair(hi, lo).value;
    assert c as int / 16 == h && c as int % 16 == l;
    HexLetter(hi);
    HexLetter(lo);
    assert Percent(c)[1] == HexDigit(h) && Percent(c)[2] == HexDigit(l);
  }

  lemma HexLetter(c: Byte)
    requires HexValue(c).Some? && HexValue(c).value < 16
    ensures HexDigit(HexValue(c).value) == LowerByte(c) <==> IsDigit(c)
  {
  }

  /** Parsing gives a host name back, in lower case, exactly when it is settled. */
  lemma {:induction false} SettledExactly(s: Text)
    ensures NormalizeRegName(s) == Some(Lower(s)) <==> SettledHost(s)
    decreases |s|
  {
    if s != [] {
      if BeginsEscape(s) { EscapeFront(s); } else { ByteFront(s); }
    }
  }

  lemma {:induction false} EscapeFront(s: Text)
    requires BeginsEscape(s)
    ensures NormalizeRegName(s) == Some(Lower(s)) <==> SettledHost(s)
    decreases |s|, 0
  {
    var c, rest := HexPair(s[1], s[2]).value, s[3..];
    SettledExactly(rest);
    HexLetters(s[1], s[2]);
    LowerSplit(s, 3);
    assert Lower(s[..3]) == ['%', LowerByte(s[1]), LowerByte(s[2])];
    assert !IsRegName('%') && !IsUnreserved('%');
    if NormalizeRegName(s).Some? {
      NormalizeEscape(s);
      if NormalizeRegName(s) == Some(Lower(s)) && !IsUnreserved(c) {
        EqualParts(Percent(c), NormalizeRegName(rest).value, Lower(s[..3]), Lower(rest));
      }
    }
  }

  lemma {:induction false} ByteFront(s: Text)
    requires s != [] && !BeginsEscape(s)
    ensures NormalizeRegName(s) == Some(Lower(s)) <==> SettledHost(s)
    decreases |s|, 0
  {
    var rest := s[1..];
    SettledExactly(rest);
    LowerSplit(s, 1);
    assert Lower(s[..1]) == [LowerByte(s[0])];
    if NormalizeRegName(s).Some? {
      NormalizeByte(s);
      var r := NormalizeRegName(rest).value;
      if !IsRegName(s[0]) {
        LonePercentGrows(s, r);
      } else if NormalizeRegName(s) == Some(Lower(s)) {
        EqualParts([LowerByte(s[0])], r, Lower(s[..1]), Lower(rest));
      }
    }
  }

  /** A byte that had to be escaped does not come back: only '%' is printed as itself first, and
      then what follows would make it an escape. */
  lemma LonePercentGrows(s: Text, r: Text)
    requires s != [] && !BeginsEscape(s) && !IsRegName(s[0])
    ensures Percent(s[0]) + r != Lower(s)
  {
  }

  // ---- addresses ----

  /** All a parsed host can hold. */
  predicate HostChar(c: char) { IsRegName(c) || c == '%' || c == ':' }

  predicate HostChars(s: Text) { forall i :: 0 <= i < |s| ==> HostChar(s[i]) }

  lemma PercentChars(c: Byte)
    ensures HostChars(Percent(c))
  {
    assert IsHexDigit(HexDigit(c as int / 16)) && IsHexDigit(HexDigit(c as int % 16));
  }

  lemma {:induction false} NormalizedChars(s: Text)
    requires NormalizeRegName(s).Some?
    ensures HostChars(NormalizeRegName(s).value)
    decreases |s|
  {
    if s != [] {
      if BeginsEscape(s) {
        NormalizeEscape(s);
        NormalizedChars(s[3..]);
        PercentChars(HexPair(s[1], s[2]).value);
      } else {
        NormalizeByte(s);
        NormalizedChars(s[1..]);
        PercentChars(s[0]);
      }
    }
  }

  lemma ParsedHostChars(s: Text, validIPv6: Text -> bool)
    ensures ParseHostPort(s, validIPv6).Some? ==> HostChars(ParseHostPort(s, validIPv6).value.host)
  {
    if ParseHostPort(s, validIPv6).Some? {
      if s != [] && s[0] == '[' {
        LiteralChars(CutBefore(s[1..], ']'));
      } else {
        NormalizedChars(CutBefore(s, ':'));
      }
    }
  }

  lemma LiteralChars(s: Text)
    requires IsIPv6Text(s)
    ensures HostChars(s) && HostChars(Lower(s))
  {
    forall i | 0 <= i < |s| ensures HostChar(s[i]) && HostChar(Lower(s)[i]) { assert s[i] in s; }
  }

  lemma LowerKeepsChars(s: Text)
    ensures HostChars(Lower(s)) <==> HostChars(s)
  {
    forall i | 0 <= i < |s| ensures HostChar(Lower(s)[i]) <==> HostChar(s[i]) {}
  }

  lemma {:induction false} SettledChars(s: Text)
    requires SettledHost(s)
    ensures HostChars(s) && ':' !in s
    decreases |s|
  {
    if s != [] {
      assert IsRegName(s[0]) || SettledEscape(s);
      if IsRegName(s[0]) && SettledHost(s[1..]) { SettledChars(s[1..]); } else { SettledChars(s[3..]); }
      assert s == [s[0]] + s[1..];
    }
  }

  /** A host and port written side by side are parsed back, up to letter case, exactly for these
      hosts and ports. */
  lemma RawAddress(host: Text, port: nat, validIPv6: Text -> bool)
    requires HostChars(Denoted(host))
    ensures Recovers(ParseHostPort(host + ":" + Itoa(port), validIPv6), Denoted(host), port)
      <==> ManualHostOk(host, validIPv6) && port <= 65535
  {
    PortSurvives(port);
    if Bracketed(host) {
      RawLiteral(Denoted(host), port, validIPv6);
      assert host == "[" + Denoted(host) + "]";
      assert host + ":" + Itoa(port) == "[" + (Denoted(host) + ("]:" + Itoa(port)));
      ParseBracket(Denoted(host) + ("]:" + Itoa(port)), validIPv6);
    } else if ':' in host {
      RawColon(host, port, validIPv6);
      if SettledHost(host) { SettledChars(host); }
    } else {
      assert host != [] ==> HostChar(host[0]);
      SplitName(host, Itoa(port), validIPv6);
      SettledExactly(host);
    }
  }

  lemma RawLiteral(a: Text, port: nat, validIPv6: Text -> bool)
    requires HostChars(a)
    ensures Recovers(ParseBracketed(a + ("]:" + Itoa(port)), validIPv6), a, port)
      <==> IsIPv6Text(a) && validIPv6(a) && port <= 65535
  {
    assert ']' !in a;
    SplitLiteral(a, Itoa(port), validIPv6);
    PortSurvives(port);
  }

  lemma RawColon(host: Text, port: nat, validIPv6: Text -> bool)
    requires ':' in host && HostChars(host)
    ensures ParseHostPort(host + ":" + Itoa(port), validIPv6) == None
  {
    var i := Find(host, ':');
    var k :| 0 <= k < |host| && host[k] == ':';
    FindAtMost(host, ':', k);
    var a, b := host[..i], host[i + 1..];
    assert host == a + [':'] + b && HostChar(host[0]);
    ColonBehind(a, b, Itoa(port), validIPv6);
  }

  lemma ColonBehind(a: Text, b: Text, port: Text, validIPv6: Text -> bool)
    requires ':' !in a && (a == [] || a[0] != '[')
    ensures ParseHostPort(a + [':'] + b + ":" + port, validIPv6) == None
  {
    var behind := b + ":" + port;
    assert a + [':'] + b + ":" + port == a + [':'] + behind;
    CutJoin(a, ':', behind);
    assert behind[|b|] == ':';
    NotAPort(behind, ':');
  }
}
