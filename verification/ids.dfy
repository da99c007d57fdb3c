/** Identifiers as the store prints them from random bytes. */
module Ids {
  import opened Bytes

  type Octet = n: int | 0 <= n < 256

  function LowerHexDigit(n: nat): Byte
    requires n < 16
  {
    if n < 10 then Digit(n) else ('a' as int + n - 10) as char
  }

  /** fmt's %x of a byte slice. */
  function Hex(b: seq<Octet>): (s: Text)
    ensures |s| == 2 * |b|
    ensures forall i :: 0 <= i < |b| ==> s[2 * i] == LowerHexDigit(b[i] / 16) && s[2 * i + 1] == LowerHexDigit(b[i] % 16)
  {
    if b == [] then []
    else Hex(b[..|b| - 1]) + [LowerHexDigit(b[|b| - 1] / 16), LowerHexDigit(b[|b| - 1] % 16)]
  }

  lemma {:induction false} HexIsHex(b: seq<Octet>)
    ensures forall c :: c in Hex(b) ==> IsHexDigit(c)
  {
    if b != [] {
      HexIsHex(b[..|b| - 1]);
      assert forall n: nat :: n < 16 ==> IsHexDigit(LowerHexDigit(n));
    }
  }

  /** The version and variant bits are forced before printing. */
  function FormatUuid(b: seq<Octet>): Text
    requires |b| == 16
  {
    var v := Forced(b);
    Hex(v[0..4]) + "-" + Hex(v[4..6]) + "-" + Hex(v[6..8]) + "-" + Hex(v[8..10]) + "-" + Hex(v[10..16])
  }

  /** Only hexadecimal digits and hyphens, which no link or stats name needs to escape. */
  predicate UuidShaped(id: Text) {
    id != [] && forall c :: c in id ==> IsHexDigit(c) || c == '-'
  }

  lemma FormattedUuid(b: seq<Octet>)
    requires |b| == 16
    ensures var s := FormatUuid(b);
      && |s| == 36 && UuidShaped(s)
      && s[8] == s[13] == s[18] == s[23] == '-'
      && s[14] == '4' && s[19] in {'8', '9', 'a', 'b'}
  {
    var v := Forced(b);
    HexIsHex(v[0..4]);
    HexIsHex(v[4..6]);
    HexIsHex(v[6..8]);
    HexIsHex(v[8..10]);
    HexIsHex(v[10..16]);
    assert FormatUuid(b)[14] == Hex(v[6..8])[0] == LowerHexDigit(v[6] / 16);
    assert FormatUuid(b)[19] == Hex(v[8..10])[0] == LowerHexDigit(v[8] / 16);
  }

  /** The value of a lower-case hexadecimal digit. */
  function DigitValue(c: Byte): int {
    if IsDigit(c) then c as int - '0' as int else c as int - 'a' as int + 10
  }

  lemma HexReads(b: seq<Octet>, i: nat)
    requires i < |b|
    ensures 16 * DigitValue(Hex(b)[2 * i]) + DigitValue(Hex(b)[2 * i + 1]) == b[i]
  {
    assert forall n: nat :: n < 16 ==> DigitValue(LowerHexDigit(n)) == n;
  }

  /** Different bytes print differently. */
  lemma HexInjective(a: seq<Octet>, b: seq<Octet>)
    requires |a| == |b| && Hex(a) == Hex(b)
    ensures a == b
  {
    forall i | 0 <= i < |a| ensures a[i] == b[i] {
      HexReads(a, i);
      HexReads(b, i);
    }
  }

  function Forced(b: seq<Octet>): seq<Octet>
    requires |b| == 16
  {
    b[6 := b[6] % 16 + 64][8 := b[8] % 64 + 128]
  }

  lemma UuidParts(b: seq<Octet>)
    requires |b| == 16
    ensures var s, v := FormatUuid(b), Forced(b);
      && |s| == 36
      && s[..8] == Hex(v[0..4]) && s[9..13] == Hex(v[4..6]) && s[14..18] == Hex(v[6..8])
      && s[19..23] == Hex(v[8..10]) && s[24..] == Hex(v[10..16])
  {
  }

  lemma SameUuid(a: seq<Octet>, b: seq<Octet>)
    requires |a| == |b| == 16 && FormatUuid(a) == FormatUuid(b)
    ensures Forced(a) == Forced(b)
  {
    var v, w := Forced(a), Forced(b);
    UuidParts(a);
    UuidParts(b);
    HexInjective(v[0..4], w[0..4]);
    HexInjective(v[4..6], w[4..6]);
    HexInjective(v[6..8], w[6..8]);
    HexInjective(v[8..10], w[8..10]);
    HexInjective(v[10..16], w[10..16]);
    SameParts(v, w);
  }

  lemma SameForced(a: seq<Octet>, b: seq<Octet>)
    requires |a| == |b| == 16
    ensures Forced(a) == Forced(b) <==>
      (&& (forall i :: 0 <= i < 16 && i != 6 && i != 8 ==> a[i] == b[i])
       && a[6] % 16 == b[6] % 16 && a[8] % 64 == b[8] % 64)
  {
    var v, w := Forced(a), Forced(b);
    if v == w {
      forall i | 0 <= i < 16 && i != 6 && i != 8 ensures a[i] == b[i] { assert v[i] == w[i]; }
      assert v[6] == w[6] && v[8] == w[8];
    }
  }

  /** No randomness is lost but the six forced bits: two random byte strings give the same id
      exactly when they agree in all the others. */
  lemma UuidKeepsRandomness(a: seq<Octet>, b: seq<Octet>)
    requires |a| == |b| == 16
    ensures FormatUuid(a) == FormatUuid(b) <==>
      (&& (forall i :: 0 <= i < 16 && i != 6 && i != 8 ==> a[i] == b[i])
       && a[6] % 16 == b[6] % 16 && a[8] % 64 == b[8] % 64)
  {
    SameForced(a, b);
    if FormatUuid(a) == FormatUuid(b) { SameUuid(a, b); }
  }

  lemma SameParts(v: seq<Octet>, w: seq<Octet>)
    requires |v| == |w| == 16
    requires v[0..4] == w[0..4] && v[4..6] == w[4..6] && v[6..8] == w[6..8] && v[8..10] == w[8..10]
    requires v[10..16] == w[10..16]
    ensures v == w
  {
    assert v == v[0..4] + v[4..6] + v[6..8] + v[8..10] + v[10..16];
    assert w == w[0..4] + w[4..6] + w[6..8] + w[8..10] + w[10..16];
  }
}
