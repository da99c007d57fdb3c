/** QueryUsage: from the core's stat list to bytes per user. */
module Stats {
  import opened Bytes
  import opened Sums
  import opened Ids

  // One entry of the statsquery answer; the value is the JSON token, number or string.
  datatype RawStat = RawStat(name: Text, token: Text)

  datatype Stat = Stat(name: Text, value: int)

  // ---- flexInt ----

  /** strings.Trim with the cut set of one quote. */
  function TrimQuotes(s: Text): Text {
    if s != [] && s[0] == '"' then TrimQuotes(s[1..])
    else if s != [] && s[|s| - 1] == '"' then TrimQuotes(s[..|s| - 1])
    else s
  }

  /** None makes the whole answer fail to parse. */
  function FlexInt(token: Text): Option<int> {
    var s := TrimQuotes(token);
    if s == [] || s == "null" then Some(0) else ParseInt64(s)
  }

  /** A number and the same number quoted decode alike, to the number exactly when it is an int64. */
  lemma FlexIntForms(n: int)
    ensures FlexInt(Itoa(n)) == FlexInt("\"" + Itoa(n) + "\"")
         == if INT64_MIN <= n <= INT64_MAX then Some(n) else None
  {
    var s := Itoa(n);
    ItoaRoundTrip(n);
    assert s != [] && s[0] != '"' && s[0] != 'n' && s[|s| - 1] != '"' by {
      var d := Decimal(if n < 0 then -n else n);
      assert d[0] in d && d[|d| - 1] in d;
      assert s[|s| - 1] == d[|d| - 1];
    }
    assert "null"[0] == 'n';
    QuotesStripped(s);
  }

  /** No number at all is none: a missing value and an empty string count nothing. */
  lemma FlexIntAbsent()
    ensures FlexInt("null") == FlexInt([]) == FlexInt("\"\"") == Some(0)
  {
    var quotes: Text := "\"\"";
    assert quotes[1..] == ['"'] && ['"'][1..] == [];
    assert TrimQuotes("null") == "null" by { assert "null"[0] == 'n' && "null"[3] == 'l'; }
  }

  lemma QuotesStripped(s: Text)
    requires s != [] && s[0] != '"' && s[|s| - 1] != '"'
    ensures TrimQuotes(s) == s && TrimQuotes("\"" + s + "\"") == s
  {
    var q := "\"" + s + "\"";
    var t := s + "\"";
    assert q[1..] == t;
    assert t[0] == s[0] && t[..|t| - 1] == s;
  }

  // ---- names ----

  predicate SeparatorAt(s: Text, i: nat) {
    i + 3 <= |s| && s[i] == '>' && s[i + 1] == '>' && s[i + 2] == '>'
  }

  /** Where the first ">>>" starts, or |s|. */
  function FindSeparator(s: Text): (i: nat)
    ensures i <= |s| && (i < |s| ==> SeparatorAt(s, i))
  {
    if s == [] || SeparatorAt(s, 0) then 0 else 1 + FindSeparator(s[1..])
  }

  /** strings.Split(s, ">>>"). */
  function Split(s: Text): (parts: seq<Text>)
    ensures parts != []
    decreases |s|
  {
    var i := FindSeparator(s);
    if i == |s| then [s] else [s[..i]] + Split(s[i + 3..])
  }

  function Join(parts: seq<Text>): Text
    requires parts != []
  {
    if |parts| == 1 then parts[0] else parts[0] + ">>>" + Join(parts[1..])
  }

  lemma {:induction false} BeforeSeparator(s: Text, k: nat)
    requires k < FindSeparator(s)
    ensures !SeparatorAt(s, k)
    decreases |s|
  {
    if k > 0 {
      assert SeparatorAt(s, k) <==> SeparatorAt(s[1..], k - 1);
      BeforeSeparator(s[1..], k - 1);
    }
  }

  /** A name is cut at its separators and nowhere else. */
  lemma {:induction false} SplitParts(s: Text)
    ensures Join(Split(s)) == s
    ensures forall p, k: nat :: p in Split(s) && k < |p| ==> !SeparatorAt(p, k)
    decreases |s|
  {
    var i := FindSeparator(s);
    forall k: nat | k < i ensures !SeparatorAt(s[..i], k) {
      BeforeSeparator(s, k);
    }
    if i < |s| {
      SplitParts(s[i + 3..]);
      assert s[i..i + 3] == ">>>";
      assert s == s[..i] + s[i..i + 3] + s[i + 3..];
      assert Split(s)[1..] == Split(s[i + 3..]);
    } else {
      assert s[..i] == s;
    }
  }

  /** The user a well-formed name is about. */
  function KeyOf(name: Text): Option<Text> {
    var parts := Split(name);
    if |parts| < 4 then None else Some(parts[1])
  }

  const SEP: Text := ">>>"

  lemma {:induction false} FirstSeparator(a: Text, rest: Text)
    requires '>' !in a
    ensures FindSeparator(a + SEP + rest) == |a|
  {
    var s := a + SEP + rest;
    if a != [] {
      assert s[0] == a[0] && a[0] in a;
      assert s[1..] == a[1..] + SEP + rest;
      FirstSeparator(a[1..], rest);
    }
  }

  lemma SplitFirst(a: Text, rest: Text)
    requires '>' !in a
    ensures Split(a + SEP + rest) == [a] + Split(rest)
  {
    FirstSeparator(a, rest);
    var s := a + SEP + rest;
    assert s[..|a|] == a && s[|a| + 3..] == rest;
  }

  const USER: Text := "user"
  const TRAFFIC: Text := "traffic"

  function StatName(id: Text, direction: Text): Text {
    USER + SEP + (id + SEP + (TRAFFIC + SEP + direction))
  }

  lemma NoSeparators(id: Text)
    requires UuidShaped(id)
    ensures '>' !in id && '>' !in USER && '>' !in TRAFFIC
  {
    assert !IsHexDigit('>');
  }

  lemma SplitStatName(id: Text, direction: Text)
    requires '>' !in id && '>' !in USER && '>' !in TRAFFIC
    ensures Split(StatName(id, direction)) == [USER] + ([id] + ([TRAFFIC] + Split(direction)))
  {
    var afterId: Text := TRAFFIC + SEP + direction;
    var afterUser: Text := id + SEP + afterId;
    assert StatName(id, direction) == USER + SEP + afterUser;
    SplitFirst(TRAFFIC, direction);
    SplitFirst(id, afterId);
    SplitFirst(USER, afterUser);
  }

  /** An entry for a generated id is credited to exactly that id, in either direction. */
  lemma EntryNamesItsUser(id: Text, direction: Text)
    requires UuidShaped(id)
    ensures KeyOf(StatName(id, direction)) == Some(id)
  {
    NoSeparators(id);
    SplitStatName(id, direction);
    SecondPart(USER, id, TRAFFIC, Split(direction));
  }

  lemma SecondPart(a: Text, b: Text, c: Text, rest: seq<Text>)
    requires rest != []
    ensures var parts := [a] + ([b] + ([c] + rest)); |parts| >= 4 && parts[1] == b
  {
  }

  // ---- aggregation ----

  function ValueFor(s: Stat, id: Text): int {
    if KeyOf(s.name) == Some(id) then s.value else 0
  }

  function Credit(stats: seq<Stat>, id: Text): int {
    if stats == [] then 0 else Credit(stats[..|stats| - 1], id) + ValueFor(stats[|stats| - 1], id)
  }

  /** The total of the well-formed entries. */
  function Total(stats: seq<Stat>): int {
    if stats == [] then 0
    else Total(stats[..|stats| - 1]) + if KeyOf(stats[|stats| - 1].name).Some? then stats[|stats| - 1].value else 0
  }

  ghost predicate Mentions(stats: seq<Stat>, id: Text) {
    exists s :: s in stats && KeyOf(s.name) == Some(id)
  }

  /** Exactly the mentioned users, each with all the bytes of its entries and no others. */
  ghost predicate Aggregates(usage: Counts, stats: seq<Stat>) {
    forall id :: (id in usage <==> Mentions(stats, id)) && (id in usage ==> usage[id] == Credit(stats, id))
  }

  function DecodeAll(raw: seq<RawStat>): Option<seq<Stat>> {
    if raw == [] then Some([])
    else
      var last := raw[|raw| - 1];
      match (DecodeAll(raw[..|raw| - 1]), FlexInt(last.token))
      case (Some(front), Some(v)) => Some(front + [Stat(last.name, v)])
      case _ => None
  }

  /** The sum of the values of the entries that name `id`. */
  function Reported(raw: seq<RawStat>, id: Text): int {
    if raw == [] then 0
    else
      var last := raw[|raw| - 1];
      Reported(raw[..|raw| - 1], id) +
      if KeyOf(last.name) == Some(id) && FlexInt(last.token).Some? then FlexInt(last.token).value else 0
  }

  ghost predicate Unreadable(raw: seq<RawStat>) {
    exists i :: 0 <= i < |raw| && FlexInt(raw[i].token).None?
  }

  lemma {:induction false} DecodeFails(raw: seq<RawStat>)
    ensures DecodeAll(raw).None? <==> Unreadable(raw)
  {
    if raw != [] {
      var front := raw[..|raw| - 1];
      DecodeFails(front);
      assert forall i :: 0 <= i < |front| ==> front[i] == raw[i];
    }
  }

  /** The decoded entries credit what the raw ones report. */
  ghost predicate Decodes(raw: seq<RawStat>, stats: seq<Stat>, id: Text) {
    Credit(stats, id) == Reported(raw, id) && (Mentions(stats, id) <==> Named(raw, id))
  }

  lemma DecodeAppend(raw: seq<RawStat>, last: RawStat)
    ensures DecodeAll(raw + [last]).Some? <==> DecodeAll(raw).Some? && FlexInt(last.token).Some?
    ensures DecodeAll(raw + [last]).Some? ==>
      DecodeAll(raw + [last]).value == DecodeAll(raw).value + [Stat(last.name, FlexInt(last.token).value)]
  {
    assert (raw + [last])[..|raw|] == raw;
  }

  lemma {:induction false} DecodedCredit(raw: seq<RawStat>, id: Text)
    requires DecodeAll(raw).Some?
    ensures Decodes(raw, DecodeAll(raw).value, id)
  {
    if raw != [] {
      var front, last := raw[..|raw| - 1], raw[|raw| - 1];
      assert raw == front + [last];
      DecodeAppend(front, last);
      DecodedCredit(front, id);
      DecodedAppend(front, last, DecodeAll(front).value, id);
    }
  }

  ghost predicate Named(raw: seq<RawStat>, id: Text) {
    exists e :: e in raw && KeyOf(e.name) == Some(id)
  }

  /** Exactly the users named by some entry, each with the sum of the values of its own entries. */
  ghost predicate Credits(usage: Counts, raw: seq<RawStat>) {
    forall id :: (id in usage <==> Named(raw, id)) && (id in usage ==> usage[id] == Reported(raw, id))
  }

  lemma DecodedAppend(front: seq<RawStat>, last: RawStat, stats: seq<Stat>, id: Text)
    requires FlexInt(last.token).Some? && Decodes(front, stats, id)
    ensures Decodes(front + [last], stats + [Stat(last.name, FlexInt(last.token).value)], id)
  {
    var s := Stat(last.name, FlexInt(last.token).value);
    CreditAppend(stats, s, id);
    MentionsAppend(stats, s, id);
    NamedAppend(front, last, id);
    assert (front + [last])[..|front|] == front;
  }

  lemma NamedAppend(raw: seq<RawStat>, last: RawStat, id: Text)
    ensures Named(raw + [last], id) <==> Named(raw, id) || KeyOf(last.name) == Some(id)
  {
    if e :| e in raw && KeyOf(e.name) == Some(id) { assert e in raw + [last]; }
    if KeyOf(last.name) == Some(id) { assert last in raw + [last]; }
  }

  lemma MentionsAppend(stats: seq<Stat>, s: Stat, id: Text)
    ensures Mentions(stats + [s], id) <==> Mentions(stats, id) || KeyOf(s.name) == Some(id)
  {
  }

  lemma DecodedCredits(raw: seq<RawStat>)
    requires DecodeAll(raw).Some?
    ensures Credits(UsageOf(DecodeAll(raw).value), raw)
  {
    var stats := DecodeAll(raw).value;
    forall id ensures Decodes(raw, stats, id) { DecodedCredit(raw, id); }
    CreditsDecoded(raw, stats);
  }

  lemma CreditsDecoded(raw: seq<RawStat>, stats: seq<Stat>)
    requires forall id :: Decodes(raw, stats, id)
    ensures Credits(UsageOf(stats), raw)
  {
    UsageAggregates(stats);
    forall id ensures
      (id in UsageOf(stats) <==> Named(raw, id)) && (id in UsageOf(stats) ==> UsageOf(stats)[id] == Reported(raw, id))
    {
      assert Decodes(raw, stats, id);
    }
  }

  /** The token is the value as the core prints it, in either of its forms. */
  predicate Prints(e: RawStat, s: Stat) {
    && e.name == s.name && INT64_MIN <= s.value <= INT64_MAX
    && (e.token == Itoa(s.value) || e.token == "\"" + Itoa(s.value) + "\"")
  }

  /** An answer whose values are printed in decimal, quoted or not, is read as those values. */
  lemma {:induction false} PrintedAnswer(raw: seq<RawStat>, stats: seq<Stat>)
    requires |raw| == |stats| && forall i :: 0 <= i < |raw| ==> Prints(raw[i], stats[i])
    ensures DecodeAll(raw) == Some(stats)
    ensures forall id :: Reported(raw, id) == Credit(stats, id)
  {
    if raw != [] {
      var n := |raw| - 1;
      PrintedAnswer(raw[..n], stats[..n]);
      FlexIntForms(stats[n].value);
      assert Prints(raw[n], stats[n]);
      assert stats == stats[..n] + [stats[n]];
    }
    forall id ensures Reported(raw, id) == Credit(stats, id) { DecodedCredit(raw, id); }
  }

  /** One turn of the loop: a short name is skipped, any other adds to its user. */
  function Tallied(m: Counts, s: Stat): Counts {
    match KeyOf(s.name)
    case None => m
    case Some(k) => m[k := At(m, k) + s.value]
  }

  function UsageOf(stats: seq<Stat>): Counts {
    if stats == [] then map[] else Tallied(UsageOf(stats[..|stats| - 1]), stats[|stats| - 1])
  }

  function UsageIn(raw: seq<RawStat>): Option<Counts> {
    match DecodeAll(raw)
    case None => None
    case Some(stats) => Some(UsageOf(stats))
  }

  /** One value that does not parse fails the whole answer; otherwise exactly the users named by some
      entry appear, each with the sum of the values of its own entries. */
  method QueryUsage(raw: seq<RawStat>) returns (usage: Option<Counts>)
    ensures usage == UsageIn(raw)
    ensures usage.None? <==> Unreadable(raw)
    ensures usage.Some? ==> Credits(usage.value, raw)
  {
    DecodeFails(raw);
    var decoded := DecodeAll(raw);
    if decoded.None? { return None; }
    var stats := decoded.value;
    var m: Counts := map[];
    for i := 0 to |stats|
      invariant m == UsageOf(stats[..i])
    {
      assert stats[..i + 1][..i] == stats[..i];
      var parts := Split(stats[i].name);
      if |parts| < 4 { continue; }
      m := m[parts[1] := At(m, parts[1]) + stats[i].value];
    }
    assert stats[..|stats|] == stats;
    DecodedCredits(raw);
    return Some(m);
  }

  /** The usage map credits exactly the mentioned users, each with exactly its own entries. */
  lemma {:induction false} UsageAggregates(stats: seq<Stat>)
    ensures Aggregates(UsageOf(stats), stats)
  {
    if stats != [] {
      var front, last := stats[..|stats| - 1], stats[|stats| - 1];
      UsageAggregates(front);
      TallyAggregates(UsageOf(front), front, last);
      assert stats == front + [last];
    }
  }

  /** No byte of a well-formed entry is lost or counted twice. */
  lemma {:induction false} UsageConserves(stats: seq<Stat>)
    ensures Sum(UsageOf(stats)) == Total(stats)
  {
    if stats != [] {
      var front, last := stats[..|stats| - 1], stats[|stats| - 1];
      UsageConserves(front);
      TallySum(UsageOf(front), front, last);
      assert stats == front + [last];
    }
  }

  lemma TallyAggregates(m: Counts, before: seq<Stat>, s: Stat)
    requires Aggregates(m, before)
    ensures Aggregates(Tallied(m, s), before + [s])
  {
    if KeyOf(s.name) == None {
      SkipStep(m, before, s);
    } else {
      AddStep(m, before, s);
    }
  }

  lemma TallySum(m: Counts, before: seq<Stat>, s: Stat)
    requires Sum(m) == Total(before)
    ensures Sum(Tallied(m, s)) == Total(before + [s])
  {
    TotalAppend(before, s);
    if KeyOf(s.name).Some? {
      SumUpdate(m, KeyOf(s.name).value, At(m, KeyOf(s.name).value) + s.value);
    }
  }

  lemma TotalAppend(stats: seq<Stat>, s: Stat)
    ensures Total(stats + [s]) == Total(stats) + if KeyOf(s.name).Some? then s.value else 0
  {
    assert (stats + [s])[..|stats|] == stats;
  }

  lemma {:induction false} Unmentioned(stats: seq<Stat>, id: Text)
    requires !Mentions(stats, id)
    ensures Credit(stats, id) == 0
  {
    if stats != [] {
      var front, last := stats[..|stats| - 1], stats[|stats| - 1];
      assert stats == front + [last];
      Unmentioned(front, id);
    }
  }

  lemma SkipStep(m: Counts, stats: seq<Stat>, s: Stat)
    requires Aggregates(m, stats) && KeyOf(s.name) == None
    ensures Aggregates(m, stats + [s])
  {
    var more := stats + [s];
    assert more[..|more| - 1] == stats;
    forall id ensures (id in m <==> Mentions(more, id)) && (id in m ==> m[id] == Credit(more, id)) {
      assert Mentions(stats, id) <==> Mentions(more, id);
    }
  }

  lemma AddStep(m: Counts, stats: seq<Stat>, s: Stat)
    requires Aggregates(m, stats) && KeyOf(s.name).Some?
    ensures Aggregates(m[KeyOf(s.name).value := At(m, KeyOf(s.name).value) + s.value], stats + [s])
  {
    var k, more := KeyOf(s.name).value, stats + [s];
    var m' := m[k := At(m, k) + s.value];
    assert more[..|more| - 1] == stats;
    if k !in m { Unmentioned(stats, k); }
    forall id ensures (id in m' <==> Mentions(more, id)) && (id in m' ==> m'[id] == Credit(more, id)) {
      assert Mentions(more, id) <==> Mentions(stats, id) || id == k;
    }
  }

  // ---- the order of the list does not matter ----

  function Without(stats: seq<Stat>, i: nat): seq<Stat>
    requires i < |stats|
  {
    stats[..i] + stats[i + 1..]
  }

  lemma WithoutLast(stats: seq<Stat>, i: nat)
    requires i < |stats|
    ensures i == |stats| - 1 ==> Without(stats, i) == stats[..|stats| - 1]
    ensures i < |stats| - 1 ==>
      Without(stats, i) == Without(stats[..|stats| - 1], i) + [stats[|stats| - 1]]
  {
  }

  lemma WithoutOne(stats: seq<Stat>, i: nat)
    requires i < |stats|
    ensures multiset(Without(stats, i)) == multiset(stats) - multiset{stats[i]}
  {
    assert stats == stats[..i] + [stats[i]] + stats[i + 1..];
  }

  lemma {:induction false} CreditRemove(stats: seq<Stat>, i: nat, id: Text)
    requires i < |stats|
    ensures Credit(stats, id) == Credit(Without(stats, i), id) + ValueFor(stats[i], id)
  {
    WithoutLast(stats, i);
    if i < |stats| - 1 {
      var front, last := stats[..|stats| - 1], stats[|stats| - 1];
      CreditRemove(front, i, id);
      CreditAppend(Without(front, i), last, id);
    }
  }

  lemma CreditAppend(stats: seq<Stat>, s: Stat, id: Text)
    ensures Credit(stats + [s], id) == Credit(stats, id) + ValueFor(s, id)
  {
    assert (stats + [s])[..|stats|] == stats;
  }

  lemma {:induction false} CreditPermutes(a: seq<Stat>, b: seq<Stat>, id: Text)
    requires multiset(a) == multiset(b)
    ensures Credit(a, id) == Credit(b, id)
    decreases |a|
  {
    if a == [] {
      assert |multiset(b)| == 0;
    } else {
      var i := SameRest(a, b);
      CreditPermutes(a[..|a| - 1], Without(b, i), id);
      CreditRemove(b, i, id);
    }
  }

  lemma SameRest(a: seq<Stat>, b: seq<Stat>) returns (i: nat)
    requires a != [] && multiset(a) == multiset(b)
    ensures i < |b| && b[i] == a[|a| - 1] && multiset(a[..|a| - 1]) == multiset(Without(b, i))
  {
    assert a[|a| - 1] in multiset(a);
    i := Position(b, a[|a| - 1]);
    WithoutLast(a, |a| - 1);
    WithoutOne(a, |a| - 1);
    WithoutOne(b, i);
  }

  lemma Position(stats: seq<Stat>, s: Stat) returns (i: nat)
    requires s in multiset(stats)
    ensures i < |stats| && stats[i] == s
  {
    i :| 0 <= i < |stats| && stats[i] == s;
  }

  /** Two answers with the same entries in another order give the same usage map. */
  lemma UsagePermutes(a: seq<Stat>, b: seq<Stat>)
    requires multiset(a) == multiset(b)
    ensures UsageOf(a) == UsageOf(b)
  {
    UsageAggregates(a);
    UsageAggregates(b);
    SameAggregate(a, b, UsageOf(a), UsageOf(b));
  }

  lemma SameAggregate(a: seq<Stat>, b: seq<Stat>, m: Counts, n: Counts)
    requires multiset(a) == multiset(b) && Aggregates(m, a) && Aggregates(n, b)
    ensures m == n
  {
    assert forall s :: s in a <==> s in multiset(a);
    assert forall s :: s in b <==> s in multiset(b);
    forall id ensures id in m <==> id in n {
      assert Mentions(a, id) <==> Mentions(b, id);
    }
    forall id | id in m ensures m[id] == n[id] {
      CreditPermutes(a, b, id);
    }
  }
}
