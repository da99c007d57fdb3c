/** Byte strings and the few text routines the server (Go) and the client (Dart) share:
    searching, ASCII case folding and decimal numerals. */
module Bytes {
  // Both languages' strings are identified with their UTF-8 bytes.
  type Byte = c: char | c as int < 256 witness 'a'
  type Text = seq<Byte>

  datatype Option<+T> = None | Some(value: T)

  /** The index of the first `c` in `s`, or |s|. */
  function Find(s: Text, c: Byte): (i: nat)
    ensures i <= |s| && c !in s[..i]
    ensures i < |s| ==> s[i] == c
  {
    if s == [] || s[0] == c then 0 else 1 + Find(s[1..], c)
  }

  lemma {:induction false} FindFirst(a: Text, c: Byte, b: Text)
    requires c !in a
    ensures Find(a + [c] + b, c) == |a|
    ensures Find(a, c) == |a|
  {
    if a != [] {
      FindFirst(a[1..], c, b);
      assert (a + [c] + b)[1..] == a[1..] + [c] + b;
    }
  }

  lemma {:induction false} FindAtMost(s: Text, c: Byte, k: nat)
    requires k < |s| && s[k] == c
    ensures Find(s, c) <= k
  {
    if k > 0 && s[0] != c {
      FindAtMost(s[1..], c, k - 1);
    }
  }

  // ---- character classes ----

  predicate IsDigit(c: char) { '0' <= c <= '9' }
  predicate IsUpper(c: char) { 'A' <= c <= 'Z' }
  predicate IsAlnum(c: char) { IsDigit(c) || IsUpper(c) || 'a' <= c <= 'z' }
  predicate IsHexDigit(c: char) { IsDigit(c) || 'a' <= c <= 'f' || 'A' <= c <= 'F' }

  /** Section 2.3 of RFC 3986. */
  predicate IsUnreserved(c: char) { IsAlnum(c) || c in {'-', '.', '_', '~'} }

  /** Section 2.2 of RFC 3986. */
  predicate IsSubDelim(c: char) { c in {'!', '$', '&', '\'', '(', ')', '*', '+', ',', ';', '='} }

  predicate IsBlank(c: char) { c == ' ' || 9 <= c as int <= 13 }

  function LowerByte(c: Byte): Byte {
    if IsUpper(c) then (c as int + 32) as char else c
  }

  function Lower(s: Text): (r: Text)
    ensures |r| == |s|
    ensures forall i :: 0 <= i < |s| ==> r[i] == LowerByte(s[i])
  {
    seq(|s|, i requires 0 <= i < |s| => LowerByte(s[i]))
  }

  /** `trim` of both standard libraries, on ASCII white space. */
  function Trim(s: Text): Text {
    if s != [] && IsBlank(s[0]) then Trim(s[1..])
    else if s != [] && IsBlank(s[|s| - 1]) then Trim(s[..|s| - 1])
    else s
  }

  predicate AllBlank(s: Text) { forall c :: c in s ==> c in {' ', '\t', '\n', '\r', 11 as char, 12 as char} }

  /** White space goes from both ends, and nothing else. */
  lemma {:induction false} TrimStrips(s: Text) returns (a: Text, b: Text)
    ensures s == a + Trim(s) + b && AllBlank(a) && AllBlank(b)
    ensures var t := Trim(s); t != [] ==> !AllBlank([t[0]]) && !AllBlank([t[|t| - 1]])
    decreases |s|
  {
    if s != [] && IsBlank(s[0]) {
      a, b := TrimStrips(s[1..]);
      a := [s[0]] + a;
    } else if s != [] && IsBlank(s[|s| - 1]) {
      a, b := TrimStrips(s[..|s| - 1]);
      b := b + [s[|s| - 1]];
    } else {
      a, b := [], [];
      assert s != [] ==> s[0] in [s[0]] && s[|s| - 1] in [s[|s| - 1]];
    }
  }

  lemma BlankPart(s: Text, i: nat, j: nat)
    requires AllBlank(s) && i <= j <= |s|
    ensures AllBlank(s[i..j])
  {
    assert forall c :: c in s[i..j] ==> c in s;
  }

  /** So it does not matter what white space surrounds a text. */
  lemma {:induction false} TrimIgnores(a: Text, s: Text, b: Text)
    requires AllBlank(a) && AllBlank(b) && s != [] && !IsBlank(s[0]) && !IsBlank(s[|s| - 1])
    ensures Trim(a + s + b) == s
    decreases |a| + |b|
  {
    var all := a + s + b;
    if a != [] {
      assert all[0] == a[0] && a[0] in a;
      assert all[1..] == a[1..|a|] + s + b;
      BlankPart(a, 1, |a|);
      TrimIgnores(a[1..|a|], s, b);
    } else if b != [] {
      assert all[0] == s[0] && all[|all| - 1] == b[|b| - 1] && b[|b| - 1] in b;
      assert all[..|all| - 1] == a + s + b[0..|b| - 1];
      BlankPart(b, 0, |b| - 1);
      TrimIgnores(a, s, b[0..|b| - 1]);
    } else {
      assert all == s;
    }
  }

  // ---- decimal numerals ----

  const INT64_MIN: int := -0x8000_0000_0000_0000
  const INT64_MAX: int := 0x7fff_ffff_ffff_ffff

  function Digit(n: nat): Byte
    requires n < 10
  {
    ('0' as int + n) as char
  }

  function Decimal(n: nat): (s: Text)
    ensures s != [] && forall c :: c in s ==> IsDigit(c)
  {
    if n < 10 then [Digit(n)] else Decimal(n / 10) + [Digit(n % 10)]
  }

  /** Go's strconv.Itoa and FormatInt. */
  function Itoa(n: int): Text {
    if n < 0 then "-" + Decimal(-n) else Decimal(n)
  }

  function ParseDigits(s: Text): Option<nat> {
    if s == [] then None
    else
      var last := s[|s| - 1];
      if !IsDigit(last) then None
      else
        var d := last as int - '0' as int;
        if |s| == 1 then Some(d)
        else match ParseDigits(s[..|s| - 1])
          case None => None
          case Some(n) => Some(10 * n + d)
  }

  lemma {:induction false} DecimalRoundTrip(n: nat)
    ensures ParseDigits(Decimal(n)) == Some(n)
  {
    if n >= 10 {
      DecimalRoundTrip(n / 10);
      var s := Decimal(n);
      assert s[..|s| - 1] == Decimal(n / 10);
    }
  }

  lemma {:induction false} ParseDigitsOnly(s: Text)
    requires ParseDigits(s).Some?
    ensures forall c :: c in s ==> IsDigit(c)
  {
    if |s| > 1 {
      ParseDigitsOnly(s[..|s| - 1]);
      assert s == s[..|s| - 1] + [s[|s| - 1]];
    }
  }

  /** strconv.ParseInt(s, 10, 64): one optional sign, digits, and the int64 range. */
  function ParseInt64(s: Text): Option<int> {
    var negative := s != [] && s[0] == '-';
    var digits := if s != [] && (s[0] == '-' || s[0] == '+') then s[1..] else s;
    match ParseDigits(digits)
    case None => None
    case Some(n) =>
      var v := (if negative then -1 else 1) * n;
      if INT64_MIN <= v <= INT64_MAX then Some(v) else None
  }

  lemma ItoaRoundTrip(n: int)
    ensures ParseInt64(Itoa(n)) == if INT64_MIN <= n <= INT64_MAX then Some(n) else None
  {
    if n < 0 {
      DecimalRoundTrip(-n);
      assert Itoa(n)[1..] == Decimal(-n);
    } else {
      DecimalRoundTrip(n);
      assert Decimal(n)[0] in Decimal(n);
    }
  }
}
