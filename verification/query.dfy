/** Query strings (section 3.4 of RFC 3986): url.Values.Encode of the server against
    Uri.queryParameters of the client. */
module Query {
  import opened Bytes
  import opened PercentEncoding
  import opened Sums
  import opened Utf8

  type Values = map<Text, Text>

  // ---- the order Encode writes the keys in ----

  /** Byte-wise lexicographic order, which sort.Strings uses. */
  predicate LexLe(a: Text, b: Text) {
    a == [] || (b != [] && (a[0] < b[0] || (a[0] == b[0] && LexLe(a[1..], b[1..]))))
  }

  lemma {:induction false} LexTotal(a: Text, b: Text)
    ensures LexLe(a, b) || LexLe(b, a)
    ensures LexLe(a, b) && LexLe(b, a) ==> a == b
  {
    if a != [] && b != [] && a[0] == b[0] {
      LexTotal(a[1..], b[1..]);
      assert a == [a[0]] + a[1..] && b == [b[0]] + b[1..];
    }
  }

  lemma {:induction false} LexTransitive(a: Text, b: Text, c: Text)
    requires LexLe(a, b) && LexLe(b, c)
    ensures LexLe(a, c)
  {
    if a != [] && b != [] && c != [] && a[0] == b[0] == c[0] {
      LexTransitive(a[1..], b[1..], c[1..]);
    }
  }

  predicate IsLeast(k: Text, keys: set<Text>) {
    k in keys && forall x :: x in keys ==> LexLe(k, x)
  }

  lemma {:induction false} LeastExists(keys: set<Text>)
    requires keys != {}
    ensures exists k :: IsLeast(k, keys)
  {
    var k :| k in keys;
    LexTotal(k, k);
    if keys == {k} {
      assert IsLeast(k, keys);
    } else {
      LeastExists(keys - {k});
      var m :| IsLeast(m, keys - {k});
      LexTotal(m, k);
      if LexLe(m, k) {
        assert IsLeast(m, keys);
      } else {
        forall x | x in keys ensures LexLe(k, x) {
          if x != k { LexTransitive(k, m, x); }
        }
        assert IsLeast(k, keys);
      }
    }
  }

  lemma LeastUnique(keys: set<Text>)
    ensures forall a, b :: IsLeast(a, keys) && IsLeast(b, keys) ==> a == b
  {
    forall a, b | IsLeast(a, keys) && IsLeast(b, keys) ensures a == b {
      LexTotal(a, b);
    }
  }

  predicate NoDup(keys: seq<Text>) {
    forall i, j :: 0 <= i < j < |keys| ==> keys[i] != keys[j]
  }

  /** The keys in the order sort.Strings leaves them. */
  function SortedKeys(keys: set<Text>): (r: seq<Text>)
    ensures forall k :: k in r <==> k in keys
    ensures NoDup(r)
  {
    if keys == {} then []
    else
      LeastExists(keys);
      LeastUnique(keys);
      var k :| IsLeast(k, keys);
      [k] + SortedKeys(keys - {k})
  }

  lemma {:induction false} SortedKeysSorted(keys: set<Text>)
    ensures var r := SortedKeys(keys); forall i, j :: 0 <= i < j < |r| ==> LexLe(r[i], r[j])
  {
    if keys != {} {
      var r := SortedKeys(keys);
      LeastExists(keys);
      LeastUnique(keys);
      SortedKeysSorted(keys - {r[0]});
      assert IsLeast(r[0], keys) && r[1..] == SortedKeys(keys - {r[0]});
      forall i, j | 0 <= i < j < |r| ensures LexLe(r[i], r[j]) {
        if i == 0 { assert r[j] in keys; } else { assert LexLe(r[1..][i - 1], r[1..][j - 1]); }
      }
    }
  }

  // ---- encoding ----

  function Pair(k: Text, v: Text): Text {
    Escape(k, QueryPart) + "=" + Escape(v, QueryPart)
  }

  function EncodeKeys(keys: seq<Text>, m: Values): Text
    requires forall k :: k in keys ==> k in m
  {
    if keys == [] then []
    else if |keys| == 1 then Pair(keys[0], m[keys[0]])
    else Pair(keys[0], m[keys[0]]) + "&" + EncodeKeys(keys[1..], m)
  }

  /** url.Values.Encode for single-valued keys. */
  function Encode(m: Values): Text {
    EncodeKeys(SortedKeys(m.Keys), m)
  }

  // ---- Uri.splitQueryString ----

  /** Percent decoding of a query that Uri.parse has normalized: it has escaped a '%' that begins
      no escape, and every byte past ASCII, so that both stand for themselves. */
  function Lenient(s: Text): Text {
    if s == [] then []
    else if s[0] == '%' && |s| >= 3 && HexPair(s[1], s[2]).Some? then [HexPair(s[1], s[2]).value] + Lenient(s[3..])
    else [if s[0] == '+' then ' ' else s[0]] + Lenient(s[1..])
  }

  lemma {:induction false} LenientAgrees(s: Text)
    requires Unescape(s, true).Some?
    ensures Lenient(s) == Unescape(s, true).value
    decreases |s|
  {
    if s != [] {
      LenientAgrees(if s[0] == '%' then s[3..] else s[1..]);
    }
  }

  lemma EscapeDecodes(s: Text)
    ensures Lenient(Escape(s, QueryPart)) == s
  {
    EscapeRoundTrip(s, QueryPart);
    LenientAgrees(Escape(s, QueryPart));
  }

  /** decodeQueryComponent; None is a FormatException. */
  function Component(s: Text): Option<Text> { Decode(Lenient(s)) }

  function AddPiece(piece: Text, acc: Values): Option<Values> {
    var e := Find(piece, '=');
    if piece == [] then Some(acc)
    else if e == |piece| then
      match Component(piece)
      case None => None
      case Some(k) => Some(acc[k := []])
    else if e == 0 then Some(acc)
    else match (Component(piece[..e]), Component(piece[e + 1..]))
      case (Some(k), Some(v)) => Some(acc[k := v])
      case _ => None
  }

  /** Later keys overwrite earlier ones. */
  function SplitQuery(s: Text, acc: Values): Option<Values>
    decreases |s|
  {
    var i := Find(s, '&');
    match AddPiece(s[..i], acc)
    case None => None
    case Some(acc') => if i == |s| then Some(acc') else SplitQuery(s[i + 1..], acc')
  }

  // ---- reading what was written ----

  /** One written pair, read: an empty key is dropped, a malformed text refused. */
  function Added(k: Text, v: Text, acc: Values): Option<Values> {
    if k == [] then Some(acc)
    else match (Decode(k), Decode(v))
      case (Some(k'), Some(v')) => Some(acc[k' := v'])
      case _ => None
  }

  function AllAdded(keys: seq<Text>, m: Values, acc: Values): Option<Values>
    requires forall k :: k in keys ==> k in m
  {
    if keys == [] then Some(acc)
    else match Added(keys[0], m[keys[0]], acc)
      case None => None
      case Some(acc') => AllAdded(keys[1..], m, acc')
  }

  lemma AddPieceOf(ek: Text, ev: Text, acc: Values)
    requires '=' !in ek
    ensures AddPiece(ek + "=" + ev, acc) ==
            if ek == [] then Some(acc)
            else match (Component(ek), Component(ev))
              case (Some(k), Some(v)) => Some(acc[k := v])
              case _ => None
  {
    var p := ek + "=" + ev;
    FindFirst(ek, '=', ev);
    assert p == ek + ['='] + ev;
    assert p[..|ek|] == ek && p[|ek| + 1..] == ev;
  }

  lemma PairAdds(k: Text, v: Text, acc: Values)
    ensures '&' !in Pair(k, v)
    ensures AddPiece(Pair(k, v), acc) == Added(k, v, acc)
  {
    QueryEscapeOutput(k, '&');
    QueryEscapeOutput(v, '&');
    QueryEscapeOutput(k, '=');
    EscapeDecodes(k);
    EscapeDecodes(v);
    EscapeOutput(k, QueryPart);
    AddPieceOf(Escape(k, QueryPart), Escape(v, QueryPart), acc);
  }

  lemma SplitPiece(p: Text, rest: Text, acc: Values)
    requires '&' !in p
    ensures SplitQuery(p + "&" + rest, acc) ==
      match AddPiece(p, acc) case None => None case Some(acc') => SplitQuery(rest, acc')
    ensures SplitQuery(p, acc) == AddPiece(p, acc)
  {
    var s := p + "&" + rest;
    FindFirst(p, '&', rest);
    assert s == p + ['&'] + rest;
    assert s[..|p|] == p && s[|p| + 1..] == rest;
    assert p[..|p|] == p;
  }

  /** Splitting a written query reads its pairs one by one, whatever bytes they hold. */
  lemma {:induction false} SplitUndoesEncode(keys: seq<Text>, m: Values, acc: Values)
    requires forall k :: k in keys ==> k in m
    ensures SplitQuery(EncodeKeys(keys, m), acc) == AllAdded(keys, m, acc)
  {
    if keys != [] {
      FirstPair(keys, m, acc);
      match Added(keys[0], m[keys[0]], acc)
      case None =>
      case Some(acc') => SplitUndoesEncode(keys[1..], m, acc');
    }
  }

  lemma FirstPair(keys: seq<Text>, m: Values, acc: Values)
    requires keys != [] && forall k :: k in keys ==> k in m
    ensures SplitQuery(EncodeKeys(keys, m), acc) ==
      match Added(keys[0], m[keys[0]], acc)
      case None => None
      case Some(acc') => if |keys| == 1 then Some(acc') else SplitQuery(EncodeKeys(keys[1..], m), acc')
  {
    var k, v := keys[0], m[keys[0]];
    PairAdds(k, v, acc);
    SplitPiece(Pair(k, v), if |keys| == 1 then [] else EncodeKeys(keys[1..], m), acc);
  }

  // ---- texts come back ----

  /** What the client keeps of written keys: it drops the empty one. */
  function Retained(keys: seq<Text>, m: Values): Values
    requires forall k :: k in keys ==> k in m
  {
    map k | k in keys && k != [] :: m[k]
  }

  lemma RetainedCons(keys: seq<Text>, m: Values, acc: Values)
    requires keys != [] && NoDup(keys) && forall k :: k in keys ==> k in m
    ensures acc + Retained(keys, m)
         == (if keys[0] == [] then acc else acc[keys[0] := m[keys[0]]]) + Retained(keys[1..], m)
  {
    assert forall k :: k in keys <==> k == keys[0] || k in keys[1..];
  }

  /** The value a text of the server has for the client, if it has one. */
  function Decoding(v: Text): Text {
    if Decode(v).Some? then Decode(v).value else []
  }

  function Decodings(m: Values): Values {
    map k | k in m :: Decoding(m[k])
  }

  predicate ValuesDecode(keys: seq<Text>, m: Values)
    requires forall k :: k in keys ==> k in m
  {
    forall k :: k in keys && k != [] ==> Decode(m[k]).Some?
  }

  /** With texts for keys, every value comes back as its decoding, or nothing if one has none. */
  lemma {:induction false} TextKeysRead(keys: seq<Text>, m: Values, acc: Values)
    requires NoDup(keys) && (forall k :: k in keys ==> k in m && IsText(k))
    ensures AllAdded(keys, m, acc) ==
      if ValuesDecode(keys, m) then Some(acc + Retained(keys, Decodings(m))) else None
  {
    if keys == [] {
      assert acc + Retained(keys, Decodings(m)) == acc;
    } else {
      var k := keys[0];
      TextDecodes(k);
      assert forall l :: l in keys <==> l == k || l in keys[1..];
      match Added(k, m[k], acc)
      case None =>
      case Some(acc') =>
        TextKeysRead(keys[1..], m, acc');
        RetainedCons(keys, Decodings(m), acc);
    }
  }

  function NonEmptyKeys(m: Values): Values {
    map k | k in m && k != [] :: m[k]
  }

  predicate AllText(m: Values) {
    forall k :: k in m && k != [] ==> IsText(k) && IsText(m[k])
  }

  lemma {:induction false} TextsRead(keys: seq<Text>, m: Values, acc: Values)
    requires NoDup(keys) && forall k :: k in keys ==> k in m && (k != [] ==> IsText(k) && IsText(m[k]))
    ensures AllAdded(keys, m, acc) == Some(acc + Retained(keys, m))
  {
    if keys == [] {
      assert acc + Retained(keys, m) == acc;
    } else {
      var k := keys[0];
      TextDecodes(k);
      TextDecodes(m[k]);
      TextsRead(keys[1..], m, if k == [] then acc else acc[k := m[k]]);
      RetainedCons(keys, m, acc);
    }
  }

  /** Writing a map of texts and reading it back loses exactly the empty key, whatever delimiters
      the keys and values hold. */
  lemma QueryRoundTrip(m: Values)
    requires AllText(m)
    ensures SplitQuery(Encode(m), map[]) == Some(NonEmptyKeys(m))
  {
    var keys := SortedKeys(m.Keys);
    SplitUndoesEncode(keys, m, map[]);
    TextsRead(keys, m, map[]);
    assert map[] + Retained(keys, m) == NonEmptyKeys(m);
  }

  lemma {:induction false} EncodeOutput(keys: seq<Text>, m: Values)
    requires forall k :: k in keys ==> k in m
    ensures forall c :: c in EncodeKeys(keys, m) ==> Escaped(c, QueryPart) || c in {'=', '&'}
  {
    if keys != [] {
      EscapeOutput(keys[0], QueryPart);
      EscapeOutput(m[keys[0]], QueryPart);
      if |keys| > 1 {
        EncodeOutput(keys[1..], m);
      }
    }
  }

  // ---- and nothing else does ----

  /** The bytes of each pair. */
  function Sizes(m: Values): Counts { map k | k in m :: |k| + |m[k]| }

  function TotalSize(keys: seq<Text>, m: Values): nat
    requires forall k :: k in keys ==> k in m
  {
    if keys == [] then 0 else |keys[0]| + |m[keys[0]]| + TotalSize(keys[1..], m)
  }

  lemma {:induction false} TotalIsSum(keys: seq<Text>, m: Values)
    requires NoDup(keys) && (forall k :: k in keys <==> k in m)
    ensures TotalSize(keys, m) == Sum(Sizes(m))
  {
    if keys == [] {
      assert Sizes(m) == map[];
    } else {
      var rest := m - {keys[0]};
      RestKeys(keys, m);
      TotalIsSum(keys[1..], rest);
      TotalSame(keys[1..], m, rest);
      SizesWithout(m, keys[0]);
    }
  }

  lemma RestKeys(keys: seq<Text>, m: Values)
    requires keys != [] && NoDup(keys) && (forall k :: k in keys <==> k in m)
    ensures NoDup(keys[1..]) && forall k :: k in keys[1..] <==> k in m - {keys[0]}
  {
    assert forall k :: k in keys <==> k == keys[0] || k in keys[1..];
  }

  lemma SizesWithout(m: Values, k: Text)
    requires k in m
    ensures Sum(Sizes(m)) == |k| + |m[k]| + Sum(Sizes(m - {k}))
  {
    SumAnyKey(Sizes(m), k);
    assert Sizes(m) - {k} == Sizes(m - {k});
  }

  lemma {:induction false} TotalSame(keys: seq<Text>, m: Values, n: Values)
    requires forall k :: k in keys ==> k in m && k in n && m[k] == n[k]
    ensures TotalSize(keys, m) == TotalSize(keys, n)
  {
    if keys != [] { TotalSame(keys[1..], m, n); }
  }

  lemma {:induction false} SumNonNegative(m: Counts)
    requires forall k :: k in m ==> m[k] >= 0
    ensures Sum(m) >= 0
    decreases |m|
  {
    if m != map[] {
      var k :| k in m;
      SumAnyKey(m, k);
      SumNonNegative(m - {k});
    }
  }

  lemma AddedSize(acc: Values, k: Text, v: Text)
    ensures Sum(Sizes(acc[k := v])) <= Sum(Sizes(acc)) + |k| + |v|
  {
    assert Sizes(acc[k := v]) == Sizes(acc)[k := |k| + |v|];
    SumUpdate(Sizes(acc), k, |k| + |v|);
  }

  lemma NothingSize()
    ensures Sum(Sizes(map[])) == 0
  {
    assert Sizes(map[]) == map[];
  }

  predicate TextPair(k: Text, v: Text) { k == [] || (IsText(k) && IsText(v)) }

  /** Reading never adds a byte, and loses some as soon as one pair is not made of texts. */
  lemma {:induction false} ReadingShrinks(keys: seq<Text>, m: Values, acc: Values)
    requires (forall k :: k in keys ==> k in m) && AllAdded(keys, m, acc).Some?
    ensures var r := AllAdded(keys, m, acc).value;
      && Sum(Sizes(r)) <= Sum(Sizes(acc)) + TotalSize(keys, m)
      && (Sum(Sizes(r)) == Sum(Sizes(acc)) + TotalSize(keys, m) ==> forall k :: k in keys ==> TextPair(k, m[k]))
  {
    if keys != [] {
      var k, v := keys[0], m[keys[0]];
      var acc' := Added(k, v, acc).value;
      ReadingShrinks(keys[1..], m, acc');
      if k != [] {
        TextDecodes(k);
        TextDecodes(v);
        AddedSize(acc, Decode(k).value, Decode(v).value);
      }
      assert forall l :: l in keys <==> l == k || l in keys[1..];
    }
  }

  /** The round trip is the identity exactly on maps of texts without the empty key. */
  lemma QueryIdentity(m: Values)
    ensures SplitQuery(Encode(m), map[]) == Some(m) <==> AllText(m) && [] !in m
  {
    var keys := SortedKeys(m.Keys);
    SplitUndoesEncode(keys, m, map[]);
    if AllText(m) {
      QueryRoundTrip(m);
      if [] !in m { assert NonEmptyKeys(m) == m; } else { assert [] !in NonEmptyKeys(m); }
    } else if SplitQuery(Encode(m), map[]) == Some(m) {
      NothingSize();
      ReadingShrinks(keys, m, map[]);
      TotalIsSum(keys, m);
    }
  }
}
