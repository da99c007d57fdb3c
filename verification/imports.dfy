/** What becomes of a link between its import and the connection to it: the client stores the
    vless link of a parse and parses that again. */
module Imports {
  import opened Bytes
  import opened PercentEncoding
  import Query
  import opened Uris
  import opened Links
  import opened ClientLinks
  import opened Utf8
  import T = Tunnel

  /** The text after the first '#', if any, is well-formed percent encoding of well-formed UTF-8. */
  predicate FragmentDecodes(link: Text) {
    var bytes := Unescape(CutAfter(link, '#'), false);
    bytes.Some? && IsUtf8(bytes.value)
  }

  lemma RemarkDecodes(link: Text)
    ensures RemarkOf(link).Some? <==> FragmentDecodes(link)
  {
    var hash := Find(link, '#');
    if hash + 1 == |link| { assert CutAfter(link, '#') == []; }
  }

  lemma {:induction false} TrimKeepsPrefix(prefix: Text, s: Text)
    requires prefix <= s && prefix != [] && !IsBlank(prefix[0]) && !IsBlank(prefix[|prefix| - 1])
    ensures prefix <= Trim(s)
    decreases |s|
  {
    assert s[0] == prefix[0] && s[..|prefix|] == prefix;
    if IsBlank(s[|s| - 1]) {
      assert prefix <= s[..|s| - 1];
      TrimKeepsPrefix(prefix, s[..|s| - 1]);
    }
  }

  lemma {:induction false} TrimTwice(s: Text)
    ensures Trim(Trim(s)) == Trim(s)
    decreases |s|
  {
    if s != [] && IsBlank(s[0]) {
      TrimTwice(s[1..]);
    } else if s != [] && IsBlank(s[|s| - 1]) {
      TrimTwice(s[..|s| - 1]);
    }
  }

  lemma ImportedPrefix(input: Text, validIPv6: Text -> bool)
    ensures var first := ParseShareLink(input, validIPv6); first.Parsed? ==> VLESS_PREFIX <= first.vless
  {
    var trimmed := Trim(input);
    if LANWAY_PREFIX <= trimmed && ParseShareLink(input, validIPv6).Parsed? {
      DeepPrefix(QueryParameters(ParseUri(trimmed, validIPv6).value).value);
    }
  }

  lemma DeepPrefix(q: Query.Values)
    ensures FromParameters(q).Parsed? ==> VLESS_PREFIX <= FromParameters(q).vless
  {
  }

  /** Every link accepted on import parses again when it is connected to if and only if its own
      fragment decodes; otherwise that parse throws, and it is never refused. */
  lemma ImportedParsesAgain(input: Text, validIPv6: Text -> bool)
    ensures var first := ParseShareLink(input, validIPv6);
      first.Parsed? ==>
        var again := ParseShareLink(first.vless, validIPv6);
        again != NotALink && (again.Parsed? <==> FragmentDecodes(Trim(first.vless)))
  {
    var first := ParseShareLink(input, validIPv6);
    if first.Parsed? {
      ImportedPrefix(input, validIPv6);
      ParsesAgain(first.vless, validIPv6);
    }
  }

  lemma ParsesAgain(vless: Text, validIPv6: Text -> bool)
    requires VLESS_PREFIX <= vless
    ensures var again := ParseShareLink(vless, validIPv6);
      again != NotALink && (again.Parsed? <==> FragmentDecodes(Trim(vless)))
  {
    PrefixEnds();
    TrimKeepsPrefix(VLESS_PREFIX, vless);
    RemarkDecodes(Trim(vless));
    NotLanway(Trim(vless));
  }

  lemma PrefixEnds()
    ensures VLESS_PREFIX != [] && VLESS_PREFIX[0] == 'v' && VLESS_PREFIX[|VLESS_PREFIX| - 1] == '/'
    ensures LANWAY_PREFIX != [] && LANWAY_PREFIX[0] == 'l'
  {
  }

  lemma NotLanway(s: Text)
    requires VLESS_PREFIX <= s
    ensures !(LANWAY_PREFIX <= s)
  {
    PrefixEnds();
    assert s[0] == VLESS_PREFIX[0];
  }

  /** A plain link is decoded on import already, so it always parses again. */
  lemma PlainImportParsesAgain(input: Text, validIPv6: Text -> bool)
    ensures var first := ParseShareLink(input, validIPv6);
      first.Parsed? && VLESS_PREFIX <= Trim(input) ==> ParseShareLink(first.vless, validIPv6) == first
  {
    if VLESS_PREFIX <= Trim(input) {
      NotLanway(Trim(input));
      TrimTwice(input);
    }
  }

  /** A deep link that carries a name is not: for every such link and every name, the deep link is
      accepted, and the stored link throws when it is connected to if its fragment does not decode. */
  lemma ThrowingImport(link: Text, name: Text, validIPv6: Text -> bool)
    requires VLESS_PREFIX <= link && IsUtf8(link) && Trim(link) == link && !FragmentDecodes(link)
    requires name != [] && IsText(name)
    ensures ParseShareLink(LanwayLink(link, name), validIPv6) == Parsed(link, name)
    ensures ParseShareLink(link, validIPv6) == Throws
  {
    TextDecodes(name);
    LanwayFormParses(link, name, validIPv6);
    RemarkDecodes(link);
    PlainFormParses(link, validIPv6);
  }

  /** A lone '%' does not decode, nor does the escape of a byte that is no UTF-8. */
  lemma BadFragments(head: Text)
    requires '#' !in head
    ensures !FragmentDecodes(head + ['#'] + "%") && !FragmentDecodes(head + ['#'] + "%FF")
  {
    CutJoin(head, '#', "%");
    CutJoin(head, '#', "%FF");
    var lone: Text := "%";
    var escape: Text := "%FF";
    assert Unescape(lone, false) == None;
    assert escape[3..] == [];
    assert HexPair('F', 'F') == Some(255 as char);
    assert Unescape(escape, false) == Some([255 as char] + []);
    assert !BeginsWell([255 as char] + []);
  }

  /** So connecting to an imported link starts a tunnel if and only if its fragment decodes, and
      otherwise leaves the controller connecting with nothing more in flight. */
  lemma ConnectingToImport(s: T.State, input: Text, validIPv6: Text -> bool)
    ensures var first := ParseShareLink(input, validIPv6);
      first.Parsed? ==>
        var t := T.DoConnect(s, T.Link(first.vless, ParseShareLink(first.vless, validIPv6)));
        && t.stage == T.Connecting
        && (|t.calls| > |s.calls| <==> FragmentDecodes(Trim(first.vless)))
        && (!FragmentDecodes(Trim(first.vless)) ==> t.calls == s.calls)
  {
    ImportedParsesAgain(input, validIPv6);
  }
}
