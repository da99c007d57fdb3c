/** UTF-8 (section 4 of RFC 3629) as dart:convert decodes it: malformed input is refused and a
    leading byte order mark dropped. */
module Utf8 {
  import opened Bytes

  predicate Between(c: Byte, low: nat, high: nat) { low <= c as int <= high }

  predicate IsTail(s: Text, from: nat, to: nat)
    requires to <= |s|
  {
    forall i :: from <= i < to ==> Between(s[i], 0x80, 0xBF)
  }

  /** What the byte after a given first byte may be: no overlong form, no surrogate, nothing past
      U+10FFFF. */
  predicate SecondFits(first: Byte, second: Byte) {
    if first as int == 0xE0 then Between(second, 0xA0, 0xBF)
    else if first as int == 0xED then Between(second, 0x80, 0x9F)
    else if first as int == 0xF0 then Between(second, 0x90, 0xBF)
    else if first as int == 0xF4 then Between(second, 0x80, 0x8F)
    else Between(second, 0x80, 0xBF)
  }

  /** The number of bytes the first one announces; 0 if it cannot begin a character. */
  function Announced(first: Byte): (n: nat)
    ensures n <= 4
  {
    if Between(first, 0, 0x7F) then 1
    else if Between(first, 0xC2, 0xDF) then 2
    else if Between(first, 0xE0, 0xEF) then 3
    else if Between(first, 0xF0, 0xF4) then 4
    else 0
  }

  predicate BeginsWell(s: Text)
    requires s != []
  {
    var n := Announced(s[0]);
    1 <= n <= |s| && (n > 1 ==> SecondFits(s[0], s[1]) && IsTail(s, 1, n))
  }

  predicate IsUtf8(s: Text)
    decreases |s|
  {
    s == [] || (BeginsWell(s) && IsUtf8(s[Announced(s[0])..]))
  }

  const MARK: Text := [0xEF as char, 0xBB as char, 0xBF as char]

  /** utf8.decode, the resulting string again taken as its bytes; None is a FormatException. */
  function Decode(s: Text): Option<Text> {
    if !IsUtf8(s) then None else if MARK <= s then Some(s[3..]) else Some(s)
  }

  /** Strings that come back from their own bytes. */
  predicate IsText(s: Text) { IsUtf8(s) && !(MARK <= s) }

  predicate IsAscii(s: Text) { forall i :: 0 <= i < |s| ==> s[i] as int < 128 }

  lemma TextDecodes(s: Text)
    ensures Decode(s) == Some(s) <==> IsText(s)
    ensures Decode(s).Some? ==> |Decode(s).value| <= |s|
    ensures Decode(s).Some? && |Decode(s).value| == |s| ==> IsText(s)
  {
    if Decode(s) == Some(s) { assert |Decode(s).value| == |s|; }
  }

  lemma {:induction false} AsciiIsUtf8(s: Text)
    requires IsAscii(s)
    ensures IsUtf8(s)
    decreases |s|
  {
    if s != [] {
      AsciiIsUtf8(s[1..]);
    }
  }

  lemma AsciiIsText(s: Text)
    requires IsAscii(s)
    ensures IsText(s) && Decode(s) == Some(s)
  {
    AsciiIsUtf8(s);
  }

  // ---- against the encoder ----

  /** Unicode scalar values. */
  predicate IsScalar(n: int) { 0 <= n < 0xD800 || 0xE000 <= n < 0x11_0000 }

  type Scalar = n: int | 0 <= n < 0xD800 || 0xE000 <= n < 0x11_0000

  /** The table of section 3 of RFC 3629. */
  function Encoded(n: Scalar): Text {
    if n < 0x80 then [n as char]
    else if n < 0x800 then [(0xC0 + n / 0x40) as char, (0x80 + n % 0x40) as char]
    else if n < 0x1_0000 then
      [(0xE0 + n / 0x1000) as char, (0x80 + n / 0x40 % 0x40) as char, (0x80 + n % 0x40) as char]
    else
      [(0xF0 + n / 0x4_0000) as char, (0x80 + n / 0x1000 % 0x40) as char, (0x80 + n / 0x40 % 0x40) as char,
       (0x80 + n % 0x40) as char]
  }

  function EncodedAll(codes: seq<Scalar>): Text {
    if codes == [] then [] else Encoded(codes[0]) + EncodedAll(codes[1..])
  }

  lemma EncodedBegins(n: Scalar, rest: Text)
    ensures var s := Encoded(n) + rest;
      BeginsWell(s) && Announced(s[0]) == |Encoded(n)| && s[|Encoded(n)|..] == rest
  {
    var e := Encoded(n);
    var s := e + rest;
    assert forall i :: 0 <= i < |e| ==> s[i] == e[i];
    if n >= 0x1_0000 { assert n / 0x4_0000 <= 4 && (n / 0x4_0000 == 4 ==> n / 0x1000 % 0x40 < 0x10); }
  }

  /** The scalar value of the character that begins a well-formed text. */
  function FirstCode(s: Text): int
    requires s != [] && BeginsWell(s)
  {
    var n := Announced(s[0]);
    if n == 1 then s[0] as int
    else if n == 2 then (s[0] as int - 0xC0) * 0x40 + (s[1] as int - 0x80)
    else if n == 3 then (s[0] as int - 0xE0) * 0x1000 + (s[1] as int - 0x80) * 0x40 + (s[2] as int - 0x80)
    else (s[0] as int - 0xF0) * 0x4_0000 + (s[1] as int - 0x80) * 0x1000 + (s[2] as int - 0x80) * 0x40 + (s[3] as int - 0x80)
  }

  lemma FirstIsEncoded(s: Text)
    requires s != [] && BeginsWell(s)
    ensures IsScalar(FirstCode(s)) && Encoded(FirstCode(s)) == s[..Announced(s[0])]
  {
    var n := Announced(s[0]);
    assert forall i :: 1 <= i < n ==> Between(s[i], 0x80, 0xBF);
    if n == 2 { TwoBytes(s); } else if n == 3 { ThreeBytes(s); } else if n == 4 { FourBytes(s); }
  }

  lemma TwoBytes(s: Text)
    requires s != [] && BeginsWell(s) && Announced(s[0]) == 2
    ensures IsScalar(FirstCode(s)) && Encoded(FirstCode(s)) == s[..2]
  {
    assert Between(s[1], 0x80, 0xBF);
    var a, b := s[0] as int - 0xC0, s[1] as int - 0x80;
    assert FirstCode(s) == a * 0x40 + b && 0 <= b < 0x40;
    assert (a * 0x40 + b) / 0x40 == a && (a * 0x40 + b) % 0x40 == b;
  }

  lemma ThreeBytes(s: Text)
    requires s != [] && BeginsWell(s) && Announced(s[0]) == 3
    ensures IsScalar(FirstCode(s)) && Encoded(FirstCode(s)) == s[..3]
  {
    assert Between(s[1], 0x80, 0xBF) && Between(s[2], 0x80, 0xBF);
    var a, b, c := s[0] as int - 0xE0, s[1] as int - 0x80, s[2] as int - 0x80;
    var n := FirstCode(s);
    assert n == a * 0x1000 + b * 0x40 + c && 0 <= b < 0x40 && 0 <= c < 0x40;
    assert n / 0x1000 == a && n / 0x40 == a * 0x40 + b && n % 0x40 == c;
    assert (a * 0x40 + b) % 0x40 == b;
  }

  lemma FourBytes(s: Text)
    requires s != [] && BeginsWell(s) && Announced(s[0]) == 4
    ensures IsScalar(FirstCode(s)) && Encoded(FirstCode(s)) == s[..4]
  {
    assert Between(s[1], 0x80, 0xBF) && Between(s[2], 0x80, 0xBF) && Between(s[3], 0x80, 0xBF);
    var a, b, c, d := s[0] as int - 0xF0, s[1] as int - 0x80, s[2] as int - 0x80, s[3] as int - 0x80;
    var n := FirstCode(s);
    assert n == a * 0x4_0000 + b * 0x1000 + c * 0x40 + d;
    assert 0 <= b < 0x40 && 0 <= c < 0x40 && 0 <= d < 0x40;
    assert n / 0x4_0000 == a && n / 0x1000 == a * 0x40 + b && n / 0x40 == (a * 0x40 + b) * 0x40 + c && n % 0x40 == d;
    assert (a * 0x40 + b) % 0x40 == b && ((a * 0x40 + b) * 0x40 + c) % 0x40 == c;
  }

  /** The well-formed texts are exactly those the encoder writes for some sequence of characters. */
  lemma WellFormedIff(s: Text)
    ensures IsUtf8(s) <==> exists codes :: EncodedAll(codes) == s
  {
    if IsUtf8(s) { var codes := CodesOf(s); }
    forall codes | EncodedAll(codes) == s ensures IsUtf8(s) { EncodedIsUtf8(codes); }
  }

  lemma {:induction false} EncodedIsUtf8(codes: seq<Scalar>)
    ensures IsUtf8(EncodedAll(codes))
  {
    if codes != [] {
      EncodedIsUtf8(codes[1..]);
      EncodedBegins(codes[0], EncodedAll(codes[1..]));
    }
  }

  lemma {:induction false} CodesOf(s: Text) returns (codes: seq<Scalar>)
    requires IsUtf8(s)
    ensures EncodedAll(codes) == s
    decreases |s|
  {
    codes := [];
    if s != [] {
      var n := Announced(s[0]);
      FirstIsEncoded(s);
      var rest := CodesOf(s[n..]);
      codes := [FirstCode(s)] + rest;
      assert codes[1..] == rest && s == s[..n] + s[n..];
    }
  }
}
