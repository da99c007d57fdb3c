/** The tunnel provider's SOCKS5 conversations over a byte stream that the kernel may cut
    anywhere, against the message formats of RFC 1928. */
module Socks {
  import opened Bytes

  // ---- how far a transfer gets ----

  // What the kernel answers to its n-th call: a number of bytes it is willing to move, or an error.
  type Kernel = nat -> int

  /** No call fails from the given one on. */
  ghost predicate Steady(kernel: Kernel, from: nat) { forall i :: i >= from ==> kernel(i) > 0 }

  /** One call fails, and none after it. */
  ghost predicate Stalled(kernel: Kernel, at: nat) { kernel(at) <= 0 && Steady(kernel, at + 1) }

  function Min(a: int, b: int): int { if a < b then a else b }

  /** Bytes moved by one call that may move `room`; 0 for an error, a timeout or a closed stream. */
  function Moved(answer: int, room: nat): (n: nat)
    ensures n <= room
  {
    if answer <= 0 then 0 else Min(answer, room)
  }

  datatype Progress = Progress(taken: nat, calls: nat)

  /** A loop that wants `count` of `available` bytes and stops at the first call that moves none. */
  function Drain(kernel: Kernel, calls: nat, available: nat, count: nat): (p: Progress)
    ensures p.taken <= count && p.taken <= available
    ensures p.calls >= calls && (p.taken < count ==> p.calls > calls)
    decreases count
  {
    if count == 0 then Progress(0, calls)
    else
      var n := Moved(kernel(calls), Min(available, count));
      if n == 0 then Progress(0, calls + 1)
      else
        var rest := Drain(kernel, calls + 1, available - n, count - n);
        Progress(n + rest.taken, rest.calls)
  }

  /** However the stream is cut, a transfer falls short only when its last call failed or the
      stream ran dry. */
  lemma {:induction false} ShortByFault(kernel: Kernel, calls: nat, available: nat, count: nat)
    ensures var p := Drain(kernel, calls, available, count);
      p.taken < count ==> p.calls > calls && (kernel(p.calls - 1) <= 0 || p.taken == available)
    decreases count
  {
    if count > 0 {
      var n := Moved(kernel(calls), Min(available, count));
      if n > 0 {
        ShortByFault(kernel, calls + 1, available - n, count - n);
      }
    }
  }

  ghost predicate AllMoved(kernel: Kernel, from: nat, to: nat) { forall i :: from <= i < to ==> kernel(i) > 0 }

  /** With enough bytes there, a transfer completes exactly when each of its calls moved some. */
  lemma {:induction false} WholeIffAllMoved(kernel: Kernel, calls: nat, available: nat, count: nat)
    requires count <= available
    ensures var p := Drain(kernel, calls, available, count);
      p.taken == count <==> AllMoved(kernel, calls, p.calls)
    decreases count
  {
    if count > 0 {
      var n := Moved(kernel(calls), Min(available, count));
      if n > 0 {
        WholeIffAllMoved(kernel, calls + 1, available - n, count - n);
      }
    }
  }

  lemma {:induction false} DrainAll(kernel: Kernel, calls: nat, available: nat, count: nat)
    requires Steady(kernel, calls) && count <= available
    ensures Drain(kernel, calls, available, count).taken == count
    decreases count
  {
    if count > 0 {
      assert kernel(calls) > 0;
      DrainAll(kernel, calls + 1, available - Moved(kernel(calls), count), count - Moved(kernel(calls), count));
    }
  }

  // ---- the reply format ----

  // Section 6 of RFC 1928.
  datatype Address = V4(octets: Text) | Domain(name: Text) | V6(octets: Text)

  datatype Reply = Reply(rep: Byte, address: Address, port: Text) {
    predicate Valid() {
      && |port| == 2
      && match address
         case V4(octets) => |octets| == 4
         case Domain(name) => |name| < 256
         case V6(octets) => |octets| == 16
    }

    function Header(): (h: Text)
      ensures |h| == 4
    {
      [5 as char, rep, 0 as char,
       match address case V4(_) => 1 as char case Domain(_) => 3 as char case V6(_) => 4 as char]
    }

    function Bound(): Text
      requires Valid()
    {
      match address
      case V4(octets) => octets + port
      case Domain(name) => [|name| as char] + name + port
      case V6(octets) => octets + port
    }

    /** The part behind the header that the connect check reports: not a name's length. */
    function Shown(): Text
      requires Valid()
    {
      match address
      case V4(octets) => octets + port
      case Domain(name) => name + port
      case V6(octets) => octets + port
    }

    function Encode(): Text
      requires Valid()
    {
      Header() + Bound()
    }
  }

  /** How many bytes the header's address type announces; a domain's length is still to be read. */
  function Announced(atyp: Byte, stream: Text): Option<nat> {
    if atyp == 1 as char then Some(6)
    else if atyp == 3 as char then if stream == [] then None else Some(stream[0] as int + 3)
    else if atyp == 4 as char then Some(18)
    else None
  }

  /** How much of the stream the reader takes after the header. */
  function TailProgress(kernel: Kernel, calls: nat, atyp: Byte, stream: Text): (p: Progress)
    ensures p.taken <= |stream|
  {
    if atyp == 1 as char then Drain(kernel, calls, |stream|, 6)
    else if atyp == 3 as char then
      var first := Drain(kernel, calls, |stream|, 1);
      if first.taken == 0 then first
      else
        var rest := Drain(kernel, first.calls, |stream| - 1, stream[0] as int + 2);
        Progress(1 + rest.taken, rest.calls)
    else if atyp == 4 as char then Drain(kernel, calls, |stream|, 18)
    else Progress(0, calls)
  }

  /** What the reader takes is what the RFC's encoder wrote, for each address type, whatever
      follows and however the stream is cut: never more, and all of it unless a call fails. */
  lemma ReplyFraming(kernel: Kernel, calls: nat, reply: Reply, rest: Text)
    requires reply.Valid()
    ensures Announced(reply.Header()[3], reply.Bound() + rest) == Some(|reply.Bound()|)
    ensures var p := TailProgress(kernel, calls, reply.Header()[3], reply.Bound() + rest);
      && p.taken <= |reply.Bound()|
      && (Steady(kernel, 0) ==> p.taken == |reply.Bound()|)
      && (p.taken < |reply.Bound()| ==> p.calls > calls && kernel(p.calls - 1) <= 0)
      && (p.taken == |reply.Bound()| <==> AllMoved(kernel, calls, p.calls))
  {
    var stream := reply.Bound() + rest;
    match reply.address
    case V4(_) => Full(kernel, calls, |stream|, 6);
    case V6(_) => Full(kernel, calls, |stream|, 18);
    case Domain(name) => DomainFraming(kernel, calls, name, stream);
  }

  /** One failing call, at the address or right behind the length of a name. */
  lemma TailStalls(kernel: Kernel, calls: nat, reply: Reply, rest: Text)
    requires reply.Valid()
    ensures var stream := reply.Bound() + rest; var p := TailProgress(kernel, calls, reply.Header()[3], stream);
      && (!reply.address.Domain? && kernel(calls) <= 0 ==> p == Progress(0, calls + 1))
      && (reply.address.Domain? && kernel(calls) > 0 && kernel(calls + 1) <= 0 ==> p == Progress(1, calls + 2))
      && (Drain(kernel, calls, |stream|, 1).taken == 0 <==> kernel(calls) <= 0)
  {
    var stream := reply.Bound() + rest;
    OneByte(kernel, calls, |stream|);
    if reply.address.Domain? { assert stream[0] == |reply.address.name| as char; }
  }

  lemma OneByte(kernel: Kernel, calls: nat, available: nat)
    requires available > 0
    ensures Drain(kernel, calls, available, 1) == Progress(if kernel(calls) <= 0 then 0 else 1, calls + 1)
  {
  }

  lemma DomainFraming(kernel: Kernel, calls: nat, name: Text, stream: Text)
    requires |name| < 256 && |stream| >= |name| + 3 && stream[0] == |name| as char
    ensures Announced(3 as char, stream) == Some(|name| + 3)
    ensures var p := TailProgress(kernel, calls, 3 as char, stream);
      && p.taken <= |name| + 3
      && (Steady(kernel, 0) ==> p.taken == |name| + 3)
      && (p.taken < |name| + 3 ==> p.calls > calls && kernel(p.calls - 1) <= 0)
      && (p.taken == |name| + 3 <==> AllMoved(kernel, calls, p.calls))
  {
    Full(kernel, calls, |stream|, 1);
    var first := Drain(kernel, calls, |stream|, 1);
    Full(kernel, first.calls, |stream| - 1, |name| + 2);
  }

  lemma Full(kernel: Kernel, calls: nat, available: nat, count: nat)
    requires count <= available
    ensures var p := Drain(kernel, calls, available, count);
      && (Steady(kernel, 0) ==> p.taken == count)
      && (p.taken < count ==> p.calls > calls && kernel(p.calls - 1) <= 0)
      && (p.taken == count <==> AllMoved(kernel, calls, p.calls))
  {
    WholeIffAllMoved(kernel, calls, available, count);
    ShortByFault(kernel, calls, available, count);
    if Steady(kernel, 0) { DrainAll(kernel, calls, available, count); }
  }

  lemma Regroup(got: Text, buffer: Text, rest: Text, before: Text, all: Text)
    requires got + before == all && before == buffer + rest
    ensures (got + buffer) + rest == all
    ensures buffer == [] ==> got + rest == all
  {
    assert (got + buffer) + rest == got + (buffer + rest);
    if buffer == [] { assert before == rest; }
  }

  lemma Halves(got: Text, rest: Text, all: Text)
    requires got + rest == all
    ensures all[..|got|] == got && all[|got|..] == rest
  {
  }

  /** The number of calls made once `sent` bytes have gone out and `count` of `available` come in. */
  function AfterExchange(kernel: Kernel, calls: nat, sent: nat, available: nat, count: nat): nat {
    Drain(kernel, Drain(kernel, calls, sent, sent).calls, available, count).calls
  }

  /** The call at which the HTTP check starts to read what follows the reply's header. */
  function TailCall(kernel: Kernel, calls: nat, host: nat, available: nat): nat
    requires available >= 2
  {
    AfterExchange(kernel, AfterExchange(kernel, calls, 3, available, 2), host + 7, available - 2, 4)
  }

  const GREETING: Text := [5 as char, 1 as char, 0 as char]
  const ACCEPT: Text := [5 as char, 0 as char]
  const PROBE: Text := [5 as char, 1 as char, 0 as char, 1 as char, 1 as char, 1 as char, 1 as char, 1 as char,
                        0 as char, 80 as char]

  /** The peer takes the greeting, then sends this reply, then `rest`. */
  ghost predicate Answered(stream: Text, reply: Reply, rest: Text) {
    reply.Valid() && stream == ACCEPT + (reply.Encode() + rest)
  }

  /** The header of `reply` has been read, and the rest of it is next. */
  ghost predicate Replied(header: Text, stream: Text, reply: Reply, rest: Text) {
    reply.Valid() && header == reply.Header() && stream == reply.Bound() + rest
  }

  lemma AnswerSplits(answer: Text, header: Text, tail: Text, reply: Reply, rest: Text)
    requires Answered(ACCEPT + answer, reply, rest) && answer == header + tail && |header| == 4
    ensures Replied(header, tail, reply, rest)
  {
    Halves(ACCEPT, answer, ACCEPT + answer);
    Halves(ACCEPT, reply.Encode() + rest, ACCEPT + answer);
    Halves(header, tail, answer);
    assert reply.Encode() + rest == reply.Header() + (reply.Bound() + rest);
    Halves(reply.Header(), reply.Bound() + rest, answer);
  }

  lemma ShownIsRead(reply: Reply, rest: Text, stream: Text, tail: Tail)
    requires reply.Valid() && stream == reply.Bound() + rest && tail.Rest? && tail.bytes.Some?
    requires tail.bytes.value + rest == stream[if reply.address.Domain? then 1 else 0..]
    ensures tail.bytes.value == reply.Shown()
  {
    assert stream[if reply.address.Domain? then 1 else 0..] == reply.Shown() + rest;
    Cancel(tail.bytes.value, reply.Shown(), rest);
  }

  lemma Cancel(a: Text, b: Text, rest: Text)
    requires a + rest == b + rest
    ensures a == b
  {
    assert |a + rest| == |b + rest|;
    Halves(a, rest, a + rest);
    Halves(b, rest, a + rest);
  }

  lemma FullIfSteady(kernel: Kernel, calls: nat, available: nat, count: nat)
    ensures (Steady(kernel, 0) || Steady(kernel, calls)) && count <= available ==>
      Drain(kernel, calls, available, count).taken == count
  {
    if (Steady(kernel, 0) || Steady(kernel, calls)) && count <= available { DrainAll(kernel, calls, available, count); }
  }

  datatype Verdict = Broken | BadAddressType(header: Text) | Answer(ok: bool, response: Text)

  datatype Health =
    | HostTooLong | GreetingFailed | ConnectFailed | Refused(header: Text) | HttpFailed | NoResponse
    | Healthy(response: Text)

  function ConnectTo(host: Text): Text
    requires |host| <= 255
  {
    [5 as char, 1 as char, 0 as char, 3 as char, |host| as char] + host + [0 as char, 80 as char]
  }

  function HttpRequest(host: Text, path: Text): Text {
    "GET " + path + " HTTP/1.1\r\nHost: " + host + "\r\n" +
    "User-Agent: flutter-vless-healthcheck\r\n" + "Connection: close\r\n\r\n"
  }

  // ---- what is sent, as its receiver reads it ----

  // Section 4 of RFC 1928. A request has a reply's layout, with the command where the reply has its
  // code.
  datatype Message = Message(code: Byte, address: Address, port: Text)

  function ReadAddress(atyp: Byte, s: Text): Option<(Address, Text)> {
    if atyp == 1 as char && |s| >= 4 then Some((V4(s[..4]), s[4..]))
    else if atyp == 3 as char && s != [] && |s| > s[0] as int then
      Some((Domain(s[1..1 + s[0] as int]), s[1 + s[0] as int..]))
    else if atyp == 4 as char && |s| >= 16 then Some((V6(s[..16]), s[16..]))
    else None
  }

  /** The first message of a stream, and what follows it. */
  function ReadMessage(s: Text): Option<(Message, Text)> {
    if |s| < 4 || s[0] != 5 as char || s[2] != 0 as char then None
    else match ReadAddress(s[3], s[4..])
      case None => None
      case Some((address, after)) =>
        if |after| < 2 then None else Some((Message(s[1], address, after[..2]), after[2..]))
  }

  lemma HeadSplits(a: Text, b: Text)
    ensures (a + b)[..|a|] == a && (a + b)[|a|..] == b
  {
  }

  lemma AddressReads(address: Address, rest: Text)
    ensures address.V4? && |address.octets| == 4 ==>
      ReadAddress(1 as char, address.octets + rest) == Some((address, rest))
    ensures address.V6? && |address.octets| == 16 ==>
      ReadAddress(4 as char, address.octets + rest) == Some((address, rest))
    ensures address.Domain? && |address.name| < 256 ==>
      ReadAddress(3 as char, [|address.name| as char] + address.name + rest) == Some((address, rest))
  {
    match address
    case V4(octets) => HeadSplits(octets, rest);
    case V6(octets) => HeadSplits(octets, rest);
    case Domain(name) =>
      if |name| < 256 {
        var s := [|name| as char] + name + rest;
        assert s[1..] == name + rest;
        HeadSplits(name, rest);
        assert s[1..1 + |name|] == (name + rest)[..|name|];
        assert s[1 + |name|..] == (name + rest)[|name|..];
      }
  }

  lemma MessageReads(s: Text, tail: Text, address: Address, port: Text, rest: Text)
    requires |s| == 4 && s[0] == 5 as char && s[2] == 0 as char && |port| == 2
    requires ReadAddress(s[3], tail) == Some((address, port + rest))
    ensures ReadMessage(s + tail) == Some((Message(s[1], address, port), rest))
  {
    HeadSplits(s, tail);
    HeadSplits(port, rest);
  }

  /** Both requests ask for a connection, one to 1.1.1.1 and one to the host by its name, on port 80,
      and take up exactly their own bytes. */
  lemma RequestsRead(host: Text, rest: Text)
    requires |host| <= 255
    ensures ReadMessage(PROBE + rest)
         == Some((Message(1 as char, V4([1 as char, 1 as char, 1 as char, 1 as char]), [0 as char, 80 as char]), rest))
    ensures ReadMessage(ConnectTo(host) + rest)
         == Some((Message(1 as char, Domain(host), [0 as char, 80 as char]), rest))
  {
    var one, port: Text := [1 as char, 1 as char, 1 as char, 1 as char], [0 as char, 80 as char];
    var head: Text := [5 as char, 1 as char, 0 as char, 1 as char];
    assert PROBE + rest == head + (one + (port + rest));
    AddressReads(V4(one), port + rest);
    MessageReads(head, one + (port + rest), V4(one), port, rest);
    var named: Text := [5 as char, 1 as char, 0 as char, 3 as char];
    var tail := [|host| as char] + host + (port + rest);
    assert ConnectTo(host) + rest == named + tail;
    AddressReads(Domain(host), port + rest);
    MessageReads(named, tail, Domain(host), port, rest);
  }

  /** A reply is read back by the same rules. */
  lemma ReplyReads(reply: Reply, rest: Text)
    requires reply.Valid()
    ensures ReadMessage(reply.Encode() + rest) == Some((Message(reply.rep, reply.address, reply.port), rest))
  {
    var behind := reply.port + rest;
    AddressReads(reply.address, behind);
    match reply.address
    case V4(octets) =>
      assert reply.Encode() + rest == reply.Header() + (octets + behind);
      MessageReads(reply.Header(), octets + behind, reply.address, reply.port, rest);
    case V6(octets) =>
      assert reply.Encode() + rest == reply.Header() + (octets + behind);
      MessageReads(reply.Header(), octets + behind, reply.address, reply.port, rest);
    case Domain(name) =>
      var tail := [|name| as char] + name + behind;
      assert reply.Encode() + rest == reply.Header() + tail;
      MessageReads(reply.Header(), tail, reply.address, reply.port, rest);
  }

  /** Section 3 of RFC 1928: a version, a count, and so many methods. */
  lemma GreetingOffersNoAuthentication()
    ensures |GREETING| == 3 && GREETING[0] == 5 as char && GREETING[1] as int == |GREETING[2..]|
    ensures GREETING[2..] == [0 as char] && ACCEPT == [5 as char, GREETING[2]]
  {
  }

  /** The lines of a text, each up to its CR LF (section 2.1 of RFC 9112); None if one is not ended. */
  function Lines(s: Text): Option<seq<Text>> {
    if s == [] then Some([])
    else
      var i := Find(s, '\r');
      if i + 1 >= |s| || s[i + 1] != '\n' then None
      else match Lines(s[i + 2..])
        case None => None
        case Some(rest) => Some([s[..i]] + rest)
  }

  function Line(line: Text, rest: Text): Text { line + ['\r', '\n'] + rest }

  lemma LineReads(line: Text, rest: Text)
    requires '\r' !in line
    ensures Lines(Line(line, rest)) == match Lines(rest) case None => None case Some(ls) => Some([line] + ls)
  {
    var s := Line(line, rest);
    assert s == line + ['\r'] + (['\n'] + rest);
    FindFirst(line, '\r', ['\n'] + rest);
    assert s[|line| + 1] == '\n' && s[|line| + 2..] == rest && s[..|line|] == line;
  }

  function Ended(lines: seq<Text>): Text {
    if lines == [] then [] else Line(lines[0], Ended(lines[1..]))
  }

  lemma {:induction false} LinesRead(lines: seq<Text>)
    requires forall line :: line in lines ==> '\r' !in line
    ensures Lines(Ended(lines)) == Some(lines)
  {
    if lines != [] {
      LinesRead(lines[1..]);
      LineReads(lines[0], Ended(lines[1..]));
      assert lines == [lines[0]] + lines[1..];
    }
  }

  lemma FiveEnded(a: Text, b: Text, c: Text, d: Text, e: Text)
    ensures Ended([a, b, c, d, e]) == Line(a, Line(b, Line(c, Line(d, Line(e, [])))))
  {
    assert [a, b, c, d, e][1..] == [b, c, d, e] && [b, c, d, e][1..] == [c, d, e];
    assert [c, d, e][1..] == [d, e] && [d, e][1..] == [e] && [e][1..] == [];
    assert Ended([e]) == Line(e, []);
    assert Ended([d, e]) == Line(d, Ended([e]));
    assert Ended([c, d, e]) == Line(c, Ended([d, e]));
    assert Ended([b, c, d, e]) == Line(b, Ended([c, d, e]));
  }

  lemma RequestLiterals(crlf: Text)
    requires crlf == ['\r', '\n']
    ensures " HTTP/1.1\r\nHost: " == " HTTP/1.1" + (crlf + "Host: ")
    ensures "Connection: close\r\n\r\n" == "Connection: close" + (crlf + crlf)
    ensures "User-Agent: flutter-vless-healthcheck\r\n" == "User-Agent: flutter-vless-healthcheck" + crlf
    ensures "\r\n" == crlf
  {
  }

  lemma Regrouped(get: Text, version: Text, at: Text, agent: Text, close: Text, crlf: Text, host: Text, path: Text)
    requires crlf == ['\r', '\n']
    ensures get + path + (version + (crlf + at)) + host + crlf + (agent + crlf) + (close + (crlf + crlf))
         == Line(get + path + version, Line(at + host, Line(agent, Line(close, Line([], [])))))
  {
  }

  const AGENT: Text := "User-Agent: flutter-vless-healthcheck"

  function RequestLines(host: Text, path: Text): seq<Text> {
    ["GET " + path + " HTTP/1.1", "Host: " + host, AGENT, "Connection: close", []]
  }

  lemma HttpRequestLines(host: Text, path: Text)
    ensures HttpRequest(host, path) == Ended(RequestLines(host, path))
  {
    var crlf: Text := ['\r', '\n'];
    RequestLiterals(crlf);
    Regrouped("GET ", " HTTP/1.1", "Host: ", AGENT, "Connection: close", crlf, host, path);
    FiveEnded("GET " + path + " HTTP/1.1", "Host: " + host, AGENT, "Connection: close", []);
  }

  /** A server reads one request for the path at the host, complete with its empty line. */
  lemma HttpRequestReads(host: Text, path: Text)
    requires '\r' !in host && '\r' !in path
    ensures Lines(HttpRequest(host, path)) == Some(RequestLines(host, path))
  {
    HttpRequestLines(host, path);
    LinesRead(RequestLines(host, path));
  }

  // ---- the socket loops ----

  // What became of the rest of a reply; a failed last read is not an error to its reader.
  datatype Tail = BadType | NoLength | Rest(bytes: Option<Text>)

  class Socket {
    const kernel: Kernel
    var calls: nat
    // What the peer sends, as far as not yet read, and what has been delivered to it.
    var incoming: Text
    var outgoing: Text

    constructor (kernel: Kernel, incoming: Text)
      ensures this.kernel == kernel && calls == 0 && this.incoming == incoming && outgoing == []
    {
      this.kernel, calls, this.incoming, outgoing := kernel, 0, incoming, [];
    }

    /** One recv(2): -1, 0 or a short read are the kernel's choice. */
    method Recv(max: nat) returns (n: int, buffer: Text)
      modifies this`calls, this`incoming
      ensures calls == old(calls) + 1
      ensures var moved := Moved(kernel(old(calls)), Min(|old(incoming)|, max));
        && old(incoming) == buffer + incoming && |buffer| == moved
        && (n > 0 <==> moved > 0) && (n > 0 ==> n == moved)
    {
      var moved := Moved(kernel(calls), Min(|incoming|, max));
      n, calls := if moved > 0 then moved else Min(kernel(calls), 0), calls + 1;
      buffer, incoming := incoming[..moved], incoming[moved..];
    }

    method Send(bytes: Text) returns (n: int)
      modifies this`calls, this`outgoing
      ensures calls == old(calls) + 1
      ensures var moved := Moved(kernel(old(calls)), |bytes|);
        && outgoing == old(outgoing) + bytes[..moved] && (n > 0 <==> moved > 0) && (n > 0 ==> n == moved)
    {
      var moved := Moved(kernel(calls), |bytes|);
      n, calls := if moved > 0 then moved else Min(kernel(calls), 0), calls + 1;
      outgoing := outgoing + bytes[..moved];
    }

    /** All of `bytes`, once and in order; or, on failure, a proper prefix of them. */
    method SendAll(bytes: Text) returns (ok: bool)
      modifies this`calls, this`outgoing
      ensures var p := Drain(kernel, old(calls), |bytes|, |bytes|);
        calls == p.calls && outgoing == old(outgoing) + bytes[..p.taken] && ok == (p.taken == |bytes|)
    {
      var sentTotal: nat := 0;
      ghost var all := Drain(kernel, calls, |bytes|, |bytes|);
      while sentTotal < |bytes|
        invariant sentTotal <= |bytes| && outgoing == old(outgoing) + bytes[..sentTotal]
        invariant var rest := Drain(kernel, calls, |bytes| - sentTotal, |bytes| - sentTotal);
          all == Progress(sentTotal + rest.taken, rest.calls)
      {
        var sent := Send(bytes[sentTotal..]);
        if sent <= 0 { return false; }
        assert bytes[..sentTotal] + bytes[sentTotal..][..sent] == bytes[..sentTotal + sent];
        sentTotal := sentTotal + sent;
      }
      return true;
    }

    /** Exactly the next `count` bytes and not one more, or None after a failing call. */
    method RecvExact(count: nat) returns (result: Option<Text>)
      modifies this`calls, this`incoming
      ensures var p := Drain(kernel, old(calls), |old(incoming)|, count);
        && calls == p.calls && incoming == old(incoming)[p.taken..]
        && result == if p.taken == count then Some(old(incoming)[..count]) else None
    {
      var got: Text := [];
      ghost var all := Drain(kernel, calls, |incoming|, count);
      while |got| < count
        invariant |got| <= count && got + incoming == old(incoming)
        invariant var rest := Drain(kernel, calls, |incoming|, count - |got|);
          all == Progress(|got| + rest.taken, rest.calls)
        decreases count - |got|
      {
        ghost var before := incoming;
        var received, buffer := Recv(count - |got|);
        Regroup(got, buffer, incoming, before, old(incoming));
        if received <= 0 {
          Halves(got, incoming, old(incoming));
          return None;
        }
        got := got + buffer;
      }
      Halves(got, incoming, old(incoming));
      return Some(got);
    }

    /** The switch on the address type and the two reads behind it. */
    method ReadTail(atyp: Byte) returns (tail: Tail)
      modifies this`calls, this`incoming
      ensures var p := TailProgress(kernel, old(calls), atyp, old(incoming));
        calls == p.calls && incoming == old(incoming)[p.taken..]
      ensures tail.BadType? <==> atyp !in {1 as char, 3 as char, 4 as char}
      ensures tail.NoLength? ==> incoming == old(incoming)
      ensures tail.NoLength? <==> atyp == 3 as char && Drain(kernel, old(calls), |old(incoming)|, 1).taken == 0
      ensures tail.Rest? && tail.bytes.Some? ==>
        Announced(atyp, old(incoming)) == Some(|old(incoming)| - |incoming|)
        && tail.bytes.value + incoming == old(incoming)[if atyp == 3 as char then 1 else 0..]
      ensures tail.Rest? && tail.bytes.None? ==>
        Announced(atyp, old(incoming)).Some? && |old(incoming)| - |incoming| < Announced(atyp, old(incoming)).value
    {
      var remaining: nat;
      if atyp == 1 as char {
        remaining := 6;
      } else if atyp == 3 as char {
        tail := ReadName();
        return;
      } else if atyp == 4 as char {
        remaining := 18;
      } else {
        return BadType;
      }
      var bytes := RecvExact(remaining);
      return Rest(bytes);
    }

    /** The length of a name, and the name and port behind it. */
    method ReadName() returns (tail: Tail)
      modifies this`calls, this`incoming
      ensures var p := TailProgress(kernel, old(calls), 3 as char, old(incoming));
        calls == p.calls && incoming == old(incoming)[p.taken..]
      ensures if Drain(kernel, old(calls), |old(incoming)|, 1).taken == 0
              then tail == NoLength && incoming == old(incoming) else tail.Rest? && old(incoming) != []
      ensures tail.Rest? ==>
        var announced := old(incoming)[0] as int + 3;
        match tail.bytes
        case None => |old(incoming)| - |incoming| < announced
        case Some(bytes) => |old(incoming)| - |incoming| == announced && bytes + incoming == old(incoming)[1..]
    {
      var length := RecvExact(1);
      if length.None? { return NoLength; }
      ghost var behind := incoming;
      assert behind == old(incoming)[1..];
      var bytes := RecvExact(length.value[0] as int + 2);
      return Rest(bytes);
    }

    /** The greeting both checks open with. */
    method Greet() returns (accepted: bool)
      modifies this`calls, this`incoming, this`outgoing
      ensures accepted ==> outgoing == old(outgoing) + GREETING && old(incoming) == ACCEPT + incoming
      ensures accepted ==> calls == AfterExchange(kernel, old(calls), |GREETING|, |old(incoming)|, 2)
      ensures Steady(kernel, 0) && ACCEPT <= old(incoming) ==> accepted
    {
      FullIfSteady(kernel, calls, |GREETING|, |GREETING|);
      var sent := SendAll(GREETING);
      if !sent { return false; }
      FullIfSteady(kernel, calls, |incoming|, 2);
      var response := RecvExact(2);
      assert ACCEPT <= old(incoming) ==> old(incoming)[..2] == ACCEPT;
      return response == Some(ACCEPT);
    }

    /** A CONNECT request and the four bytes its reply begins with. */
    method Request(request: Text) returns (header: Option<Text>)
      modifies this`calls, this`incoming, this`outgoing
      ensures header.Some? ==>
        outgoing == old(outgoing) + request && |header.value| == 4 && old(incoming) == header.value + incoming
      ensures header.Some? ==> calls == AfterExchange(kernel, old(calls), |request|, |old(incoming)|, 4)
      ensures Steady(kernel, 0) && |old(incoming)| >= 4 ==> header.Some?
    {
      FullIfSteady(kernel, calls, |request|, |request|);
      var sent := SendAll(request);
      if !sent { return None; }
      FullIfSteady(kernel, calls, |incoming|, 4);
      header := RecvExact(4);
    }

    /** The rest of a reply whose header has been read. */
    method ReadAnswer(header: Text, ghost reply: Reply, ghost rest: Text) returns (tail: Tail)
      requires |header| == 4
      modifies this`calls, this`incoming
      ensures Steady(kernel, 0) && Replied(header, old(incoming), reply, rest) ==>
        tail == Rest(Some(reply.Shown())) && incoming == rest
    {
      ghost var from, stream := calls, incoming;
      tail := ReadTail(header[3]);
      if Steady(kernel, 0) && Replied(header, stream, reply, rest) {
        ReplyFraming(kernel, from, reply, rest);
        assert stream[|reply.Bound()|..] == rest;
        ShownIsRead(reply, rest, stream, tail);
      }
    }

    /** socksConnectHealthCheck once connected. When the peer accepts the greeting and answers
        with any reply of the RFC, the check reports its code and consumes exactly that reply. */
    method ConnectCheck(ghost reply: Reply, ghost rest: Text) returns (verdict: Verdict)
      modifies this`calls, this`incoming, this`outgoing
      ensures verdict.Answer? ==> outgoing == old(outgoing) + GREETING + PROBE
      ensures Steady(kernel, 0) && Answered(old(incoming), reply, rest) ==>
        && verdict.Answer? && verdict.ok == (reply.rep == 0 as char) && incoming == rest
        && verdict.response == reply.Header() + reply.Shown()
    {
      var accepted := Greet();
      if !accepted { return Broken; }
      ghost var answer := incoming;
      var header := Request(PROBE);
      if header.None? { return Broken; }
      if Answered(old(incoming), reply, rest) {
        AnswerSplits(answer, header.value, incoming, reply, rest);
      }
      var tail := ReadAnswer(header.value, reply, rest);
      match tail
      case BadType => return BadAddressType(header.value);
      case NoLength => return Broken;
      case Rest(bytes) =>
        return Answer(header.value[1] == 0 as char, header.value + if bytes.Some? then bytes.value else []);
    }

    /** socksHTTPHealthCheck once connected. The request goes out only after a successful reply;
        what it reads is what follows as much of that reply as the reader managed to take. */
    method HttpCheck(host: Text, path: Text, ghost reply: Reply, ghost http: Text) returns (health: Health)
      modifies this`calls, this`incoming, this`outgoing
      ensures |host| > 255 ==> health == HostTooLong && outgoing == old(outgoing)
      ensures health.Healthy? ==>
        && |host| <= 255 && outgoing == old(outgoing) + GREETING + ConnectTo(host) + HttpRequest(host, path)
        && 0 < |health.response| <= 512
      ensures Steady(kernel, 0) && Answered(old(incoming), reply, http) && |host| <= 255 ==>
        if reply.rep != 0 as char then
          health == Refused(reply.Header()) && outgoing == old(outgoing) + GREETING + ConnectTo(host)
        else if http == [] then health == NoResponse
        else health.Healthy? && health.response + incoming == http
      // Whatever the kernel does, a response is what follows the part of the reply that was read:
      // never less than all of the HTTP bytes, but more when reading the address failed.
      ensures health.Healthy? && Answered(old(incoming), reply, http) ==>
        var p := TailProgress(kernel, TailCall(kernel, old(calls), |host|, |old(incoming)|), reply.Header()[3],
                              reply.Bound() + http);
        && p.taken <= |reply.Bound()| && health.response + incoming == (reply.Bound() + http)[p.taken..]
        && (health.response + incoming == http <==>
            AllMoved(kernel, TailCall(kernel, old(calls), |host|, |old(incoming)|), p.calls))
    {
      if |host| > 255 { return HostTooLong; }
      var early, header := Ask(host, reply, http);
      if header.None? { return early; }
      health := AfterHeader(header.value, HttpRequest(host, path), reply, http);
    }

    /** The HTTP check up to the reply's header. */
    method Ask(host: Text, ghost reply: Reply, ghost http: Text) returns (early: Health, header: Option<Text>)
      requires |host| <= 255
      modifies this`calls, this`incoming, this`outgoing
      ensures early == GreetingFailed || early == ConnectFailed
      ensures header.Some? ==>
        && |header.value| == 4 && outgoing == old(outgoing) + GREETING + ConnectTo(host)
        && |old(incoming)| >= 2 && calls == TailCall(kernel, old(calls), |host|, |old(incoming)|)
      ensures header.Some? && Answered(old(incoming), reply, http) ==> Replied(header.value, incoming, reply, http)
      ensures Steady(kernel, 0) && Answered(old(incoming), reply, http) ==> header.Some?
    {
      early, header := GreetingFailed, None;
      var accepted := Greet();
      if !accepted { return; }
      early := ConnectFailed;
      ghost var answer := incoming;
      header := Request(ConnectTo(host));
      if header.Some? && Answered(old(incoming), reply, http) {
        AnswerSplits(answer, header.value, incoming, reply, http);
      }
    }

    /** The HTTP check from the reply's header on. */
    method AfterHeader(header: Text, request: Text, ghost reply: Reply, ghost http: Text) returns (health: Health)
      requires |header| == 4
      modifies this`calls, this`incoming, this`outgoing
      ensures header[1] != 0 as char ==> health == Refused(header) && outgoing == old(outgoing)
      ensures health.Healthy? ==> outgoing == old(outgoing) + request && 0 < |health.response| <= 512
      ensures !health.HostTooLong? && !health.GreetingFailed?
      ensures Replied(header, old(incoming), reply, http) && health.Healthy? ==>
        var p := TailProgress(kernel, old(calls), header[3], old(incoming));
        && p.taken <= |reply.Bound()| && health.response + incoming == old(incoming)[p.taken..]
        // It starts at the first HTTP byte exactly when no call of the reply's reader failed.
        && (health.response + incoming == http <==> AllMoved(kernel, old(calls), p.calls))
      ensures Replied(header, old(incoming), reply, http) && reply.rep == 0 as char ==>
        // A failed read of the address is not noticed, but that of a name's length is.
        && (!reply.address.Domain? && Stalled(kernel, old(calls)) ==>
              health.Healthy? && health.response + incoming == old(incoming))
        && (reply.address.Domain? && kernel(old(calls)) <= 0 ==> health == ConnectFailed)
        && (reply.address.Domain? && kernel(old(calls)) > 0 && Stalled(kernel, old(calls) + 1) ==>
              health.Healthy? && health.response + incoming == old(incoming)[1..])
      ensures Steady(kernel, 0) && Replied(header, old(incoming), reply, http) && reply.rep == 0 as char ==>
        if http == [] then health == NoResponse else health.Healthy? && health.response + incoming == http
    {
      if header[1] != 0 as char { return Refused(header); }
      var skipped := SkipTail(header, reply, http);
      if !skipped { return ConnectFailed; }
      health := Fetch(request);
    }

    /** The HTTP check's reading of the rest of a reply, whose last read may fail unnoticed. */
    method SkipTail(header: Text, ghost reply: Reply, ghost http: Text) returns (skipped: bool)
      requires |header| == 4
      modifies this`calls, this`incoming
      ensures calls >= old(calls)
      ensures Replied(header, old(incoming), reply, http) ==>
        var p := TailProgress(kernel, old(calls), header[3], old(incoming));
        && calls == p.calls && p.taken <= |reply.Bound()| && incoming == old(incoming)[p.taken..]
        && (incoming == http <==> AllMoved(kernel, old(calls), p.calls))
        && (Steady(kernel, 0) ==> skipped && incoming == http)
        && (skipped <==> !reply.address.Domain? || kernel(old(calls)) > 0)
        && (!reply.address.Domain? && Stalled(kernel, old(calls)) ==>
              Steady(kernel, calls) && incoming == old(incoming))
        && (reply.address.Domain? && kernel(old(calls)) > 0 && Stalled(kernel, old(calls) + 1) ==>
              Steady(kernel, calls) && incoming == old(incoming)[1..])
    {
      if Replied(header, incoming, reply, http) {
        ReplyFraming(kernel, calls, reply, http);
        Halves(reply.Bound(), http, incoming);
        TailStalls(kernel, calls, reply, http);
        ghost var p := TailProgress(kernel, calls, header[3], incoming);
        assert |incoming[p.taken..]| == |incoming| - p.taken;
      }
      var tail := ReadTail(header[3]);
      return tail.Rest?;
    }

    /** One HTTP request and the first piece of its response. */
    method Fetch(request: Text) returns (health: Health)
      modifies this`calls, this`incoming, this`outgoing
      ensures health.Healthy? ==>
        && outgoing == old(outgoing) + request && 0 < |health.response| <= 512
        && health.response + incoming == old(incoming)
      ensures health in {HttpFailed, NoResponse} || health.Healthy?
      ensures Steady(kernel, 0) || Steady(kernel, old(calls)) ==>
        if old(incoming) == [] then health == NoResponse else health.Healthy?
    {
      FullIfSteady(kernel, calls, |request|, |request|);
      var sent := SendAll(request);
      if !sent { return HttpFailed; }
      assert Steady(kernel, 0) || Steady(kernel, old(calls)) ==> kernel(calls) > 0;
      var n, buffer := Recv(512);
      if n <= 0 { return NoResponse; }
      return Healthy(buffer);
    }
  }
}
