/** Percent encoding (section 2.1 of RFC 3986) as net/url and dart:core perform it. */
module PercentEncoding {
  import opened Bytes

  // The first four modes are net/url's; the last is Dart's Uri.encodeComponent.
  datatype Mode = HostPart | UserPart | QueryPart | FragmentPart | ComponentPart

  /** net/url's shouldEscape, negated. */
  predicate Kept(c: Byte, mode: Mode) {
    IsUnreserved(c) ||
    match mode
    case HostPart => IsSubDelim(c) || c in {':', '[', ']', '<', '>', '\"'}
    case UserPart => c in {'$', '&', '+', ',', ';', '='}
    case QueryPart => false
    case FragmentPart => c in {'$', '&', '+', ',', '/', ':', ';', '=', '?', '@'} || c in {'!', '(', ')', '*'}
    case ComponentPart => c in {'!', '\'', '(', ')', '*'}
  }

  function HexDigit(n: nat): Byte
    requires n < 16
  {
    if n < 10 then Digit(n) else ('A' as int + n - 10) as char
  }

  function HexValue(c: Byte): Option<nat> {
    if IsDigit(c) then Some(c as int - '0' as int)
    else if 'a' <= c <= 'f' then Some(c as int - 'a' as int + 10)
    else if 'A' <= c <= 'F' then Some(c as int - 'A' as int + 10)
    else None
  }

  function Percent(c: Byte): (r: Text)
    ensures |r| == 3 && r[0] == '%'
  {
    ['%', HexDigit(c as int / 16), HexDigit(c as int % 16)]
  }

  function EscapeByte(c: Byte, mode: Mode): Text {
    if Kept(c, mode) then [c]
    else if mode == QueryPart && c == ' ' then ['+']
    else Percent(c)
  }

  function Escape(s: Text, mode: Mode): Text {
    if s == [] then [] else EscapeByte(s[0], mode) + Escape(s[1..], mode)
  }

  /** The byte two hexadecimal digits denote. */
  function HexPair(hi: Byte, lo: Byte): Option<Byte> {
    match (HexValue(hi), HexValue(lo))
    case (Some(h), Some(l)) => if h < 16 && l < 16 then Some((16 * h + l) as char) else None
    case _ => None
  }

  /** Dart's percent decoding; None is the ArgumentError it throws. */
  function Unescape(s: Text, plusToSpace: bool): Option<Text> {
    if s == [] then Some([])
    else if s[0] == '%' then
      if |s| < 3 then None
      else match (HexPair(s[1], s[2]), Unescape(s[3..], plusToSpace))
        case (Some(c), Some(rest)) => Some([c] + rest)
        case _ => None
    else if s[0] as int > 127 then None
    else match Unescape(s[1..], plusToSpace)
      case None => None
      case Some(rest) => Some([if plusToSpace && s[0] == '+' then ' ' else s[0]] + rest)
  }

  lemma HexPairOfPercent(c: Byte)
    ensures HexPair(Percent(c)[1], Percent(c)[2]) == Some(c)
  {
    var h, l := c as int / 16, c as int % 16;
    assert HexValue(HexDigit(h)) == Some(h) && HexValue(HexDigit(l)) == Some(l);
    assert 16 * h + l == c as int;
  }

  /** An escape means the same byte in capitals and in small letters. */
  lemma HexCase(hi: Byte, lo: Byte)
    ensures HexPair(LowerByte(hi), LowerByte(lo)) == HexPair(hi, lo)
    ensures IsHexDigit(hi) && IsHexDigit(lo) ==> HexPair(hi, lo).Some?
    ensures HexPair(hi, lo).Some? ==> IsHexDigit(hi) && IsHexDigit(lo)
  {
  }

  /** Every byte string survives encoding in any mode, followed by the matching decoding. */
  lemma {:induction false} EscapeRoundTrip(s: Text, mode: Mode)
    ensures Unescape(Escape(s, mode), mode == QueryPart) == Some(s)
  {
    if s != [] {
      var e, rest := EscapeByte(s[0], mode), Escape(s[1..], mode);
      EscapeRoundTrip(s[1..], mode);
      assert s == [s[0]] + s[1..];
      assert (e + rest)[|e|..] == rest;
      if e == Percent(s[0]) {
        HexPairOfPercent(s[0]);
      }
    }
  }

  /** Bytes that can occur in the output of `Escape`. */
  predicate Escaped(c: Byte, mode: Mode) {
    Kept(c, mode) || c == '%' || (mode == QueryPart && c == '+')
  }

  lemma {:induction false} EscapeOutput(s: Text, mode: Mode)
    ensures forall c :: c in Escape(s, mode) ==> Escaped(c, mode)
    ensures |Escape(s, mode)| >= |s|
  {
    if s != [] {
      EscapeOutput(s[1..], mode);
    }
  }

  lemma EscapeExcludes(s: Text, mode: Mode, c: Byte)
    requires !Escaped(c, mode)
    ensures c !in Escape(s, mode)
  {
    EscapeOutput(s, mode);
  }

  /** No delimiter of a query survives in an escaped key or value. */
  lemma QueryEscapeOutput(s: Text, delimiter: Byte)
    requires delimiter in {'&', '=', '#', '?', '/', '@', ':', ' '}
    ensures delimiter !in Escape(s, QueryPart)
  {
    EscapeExcludes(s, QueryPart, delimiter);
  }

  /** A kept byte other than an escape's own appears only where the text had it. */
  lemma {:induction false} EscapeAddsNothing(s: Text, mode: Mode, c: Byte)
    requires c !in s && !IsHexDigit(c) && c != '%' && c != '+'
    ensures c !in Escape(s, mode)
  {
    if s != [] {
      EscapeAddsNothing(s[1..], mode, c);
      assert s[0] in s && s[0] != c;
      assert IsHexDigit(HexDigit(s[0] as int / 16)) && IsHexDigit(HexDigit(s[0] as int % 16));
    }
  }

  lemma {:induction false} EscapeSameLength(s: Text, mode: Mode)
    requires |Escape(s, mode)| == |s| && mode != QueryPart
    ensures Escape(s, mode) == s
  {
    if s != [] {
      EscapeOutput(s[1..], mode);
      EscapeSameLength(s[1..], mode);
      assert s == [s[0]] + s[1..];
    }
  }

  lemma {:induction false} EscapeConcat(a: Text, b: Text, mode: Mode)
    ensures Escape(a + b, mode) == Escape(a, mode) + Escape(b, mode)
  {
    if a == [] {
      assert a + b == b;
    } else {
      EscapeConcat(a[1..], b, mode);
      assert (a + b)[1..] == a[1..] + b;
      Regroup(EscapeByte(a[0], mode), Escape(a[1..], mode), Escape(b, mode));
    }
  }

  lemma Regroup(a: Text, b: Text, c: Text)
    ensures (a + b) + c == a + (b + c)
  {
  }

  lemma {:induction false} EscapeKept(s: Text, mode: Mode)
    requires forall c :: c in s ==> Kept(c, mode)
    ensures Escape(s, mode) == s
  {
    if s != [] {
      EscapeKept(s[1..], mode);
      assert s == [s[0]] + s[1..];
    }
  }
}
