/** The UDP datagrams of RFC 1928, section 7, and the GSS-API messages of RFC 1961, sections 3 and 4. */
module Codec {
  import opened Basics
  import opened Utf8

  type Port = p: int | 0 <= p < 65536

  datatype Result<T> = Ok(value: T) | Err(error: Error)

  datatype Error =
    | TooShort
    | Fragmented
    | BadIPv4
    | BadDomain
    | BadEncoding
    | BadIPv6
    | UnsupportedAddressType(code: Byte)
    | BadPort
    | UnsupportedVersion(version: Byte)
    | EndOfStream

  function Be16(n: Port): (r: seq<Byte>)
    ensures |r| == 2
  {
    [n / 256, n % 256]
  }

  function FromBe16(hi: Byte, lo: Byte): Port { hi * 256 + lo }

  /** A string is its UTF-8 bytes. */
  type Text = s: seq<Byte> | IsUtf8(s) witness []

  type Ipv4 = s: seq<Byte> | |s| == 4 witness [0, 0, 0, 0]

  type Ipv6 = s: seq<Byte> | |s| == 16 witness [0, 0, 0, 0, 0, 0, 0, 0, 0, 0, 0, 0, 0, 0, 0, 0]

  // ----- datagrams -----

  datatype Address = IPv4(v4: Ipv4) | IPv6(v6: Ipv6) | Domain(name: Text)

  datatype Packet = Packet(frag: Byte, address: Address, port: Port, data: seq<Byte>)

  /** Names are cut, silently, to the 255 bytes that a length byte can announce. */
  function AddressBytes(a: Address): seq<Byte>
  {
    match a
    case IPv4(v4) => [1] + v4
    case IPv6(v6) => [4] + v6
    case Domain(name) => [3, Min(|name|, 255)] + name[..Min(|name|, 255)]
  }

  /** Everything after the reserved bytes. */
  function Body(p: Packet): seq<Byte> { [p.frag] + AddressBytes(p.address) + Be16(p.port) + p.data }

  function Serialized(p: Packet): seq<Byte> { [0, 0] + Body(p) }

  /** The address at the head of these bytes, and how many bytes it takes. */
  function ParseAddress(s: seq<Byte>): (r: Result<(Address, nat)>)
    requires |s| >= 1
    ensures r.Ok? ==> 1 < r.value.1 <= |s|
  {
    if s[0] == 1 then
      if |s| < 5 then Err(BadIPv4) else Ok((IPv4(s[1..5]), 5))
    else if s[0] == 3 then
      if |s| < 2 then Err(BadDomain)
      else
        var end: nat := 2 + s[1] as nat;
        if |s| < end then Err(BadDomain)
        else if !IsUtf8(s[2..end]) then Err(BadEncoding)
        else Ok((Domain(s[2..end]), end))
    else if s[0] == 4 then
      if |s| < 17 then Err(BadIPv6) else Ok((IPv6(s[1..17]), 17))
    else Err(UnsupportedAddressType(s[0]))
  }

  function Parsed(buf: seq<Byte>): Result<Packet>
  {
    if |buf| < 10 then Err(TooShort)
    else if buf[2] != 0 then Err(Fragmented)
    else match ParseAddress(buf[3..])
      case Err(e) => Err(e)
      case Ok((address, n)) =>
        if |buf| < 3 + n + 2 then Err(BadPort)
        else Ok(Packet(0, address, FromBe16(buf[3 + n], buf[4 + n]), buf[5 + n..]))
  }

  /** The names that fit their length byte. */
  predicate Fits(a: Address) { a.Domain? ==> |a.name| <= 255 }

  lemma Be16Inverts(port: Port, hi: Byte, lo: Byte)
    ensures Be16(port) == [hi, lo] <==> FromBe16(hi, lo) == port
  {
    assert port == 256 * (port / 256) + port % 256;
    if hi * 256 + lo == port {
      assert 256 * (hi - port / 256) == port % 256 - lo;
      assert hi == port / 256;
    }
  }

  /** The address parser finds exactly the addresses whose bytes come first, if they fit. */
  lemma AddressIsLayout(s: seq<Byte>, a: Address, n: nat)
    requires |s| >= 1
    ensures ParseAddress(s) == Ok((a, n)) <==> Fits(a) && n == |AddressBytes(a)| && AddressBytes(a) <= s
  {
    hide IsUtf8;
    match a {
      case IPv4(v4) => assert |s| >= 5 ==> (s[1..5] == v4 <==> s[..5] == [s[0]] + v4);
      case IPv6(v6) => assert |s| >= 17 ==> (s[1..17] == v6 <==> s[..17] == [s[0]] + v6);
      case Domain(name) => DomainIsLayout(s, name, n);
    }
  }

  lemma DomainIsLayout(s: seq<Byte>, name: Text, n: nat)
    requires |s| >= 1
    ensures ParseAddress(s) == Ok((Domain(name), n))
       <==> |name| <= 255 && n == |AddressBytes(Domain(name))| && AddressBytes(Domain(name)) <= s
  {
    hide IsUtf8;
    var k := |name|;
    if ParseAddress(s) == Ok((Domain(name), n)) {
      assert s[..n] == [3, k] + name;
    }
    if k <= 255 && AddressBytes(Domain(name)) <= s {
      assert name[..k] == name;
      assert s[..2 + k] == [3, k] + name;
      assert s[2..2 + k] == s[..2 + k][2..] == name;
      assert s[0] == s[..2 + k][0] && s[1] == s[..2 + k][1];
    }
  }

  /** Parsing accepts exactly the unfragmented datagrams of ten bytes or more that some packet with a fitting name lays out. */
  lemma ParsingIsLayout(buf: seq<Byte>, p: Packet)
    ensures Parsed(buf) == Ok(p) <==> |buf| >= 10 && p.frag == 0 && Fits(p.address) && buf[2..] == Body(p)
  {
    if |buf| >= 10 {
      var head := AddressBytes(p.address);
      var n := |head|;
      AddressIsLayout(buf[3..], p.address, n);
      if Parsed(buf) == Ok(p) {
        var (a, m) := ParseAddress(buf[3..]).value;
        AddressIsLayout(buf[3..], a, m);
        Be16Inverts(p.port, buf[3 + n], buf[4 + n]);
        LaidOut(buf, head, p);
      }
      if p.frag == 0 && Fits(p.address) && buf[2..] == Body(p) {
        LaidOutConversely(buf, head, p);
        Be16Inverts(p.port, buf[3 + n], buf[4 + n]);
      }
    }
    hide ParseAddress, AddressBytes, Be16, FromBe16, Fits;
  }

  lemma LaidOut(buf: seq<Byte>, head: seq<Byte>, p: Packet)
    requires |buf| >= 5 + |head| && head <= buf[3..] && buf[2] == p.frag
    requires [buf[3 + |head|], buf[4 + |head|]] == Be16(p.port) && buf[5 + |head|..] == p.data
    ensures buf[2..] == [p.frag] + head + Be16(p.port) + p.data
  {
    assert buf[3..3 + |head|] == head;
    assert buf[3 + |head|..5 + |head|] == Be16(p.port);
    hide Be16;
  }

  lemma LaidOutConversely(buf: seq<Byte>, head: seq<Byte>, p: Packet)
    requires |buf| >= 2 && buf[2..] == [p.frag] + head + Be16(p.port) + p.data
    ensures |buf| >= 5 + |head| && head <= buf[3..] && buf[2] == p.frag
    ensures [buf[3 + |head|], buf[4 + |head|]] == Be16(p.port) && buf[5 + |head|..] == p.data
  {
    var n := |head|;
    var rest := Be16(p.port) + p.data;
    assert buf[2..] == [p.frag] + (head + rest);
    assert buf[3..] == buf[2..][1..] == head + rest;
    assert buf[3 + n..] == buf[3..][n..] == rest;
    assert buf[5 + n..] == rest[2..] == p.data;
    assert buf[3 + n] == rest[0] && buf[4 + n] == rest[1];
  }

  /** On the wire: two zero bytes, the fragment number, the address type, and the address with a name's length before it. */
  lemma AddressOnTheWire(p: Packet)
    ensures var s := Serialized(p);
      && |s| > 4 && s[0] == 0 && s[1] == 0 && s[2] == p.frag
      && match p.address
         case IPv4(v4) => s[3] == 1 && |s| >= 8 && s[4..8] == v4
         case IPv6(v6) => s[3] == 4 && |s| >= 20 && s[4..20] == v6
         case Domain(name) =>
           && s[3] == 3
           && var n := if |name| <= 255 then |name| else 255;
           s[4] == n && |s| >= 5 + n && s[5..5 + n] == name[..n]
  {
    var s, a := Serialized(p), AddressBytes(p.address);
    assert s == [0, 0, p.frag] + a + (Be16(p.port) + p.data);
    assert s[3..3 + |a|] == a;
    hide Be16;
    match p.address
    case IPv4(v4) => assert s[4..8] == s[3..8][1..];
    case IPv6(v6) => assert s[4..20] == s[3..20][1..];
    case Domain(name) =>
      var n := Min(|name|, 255);
      assert s[5..5 + n] == s[3..5 + n][2..];
      assert s[4] == s[3..5 + n][1];
  }

  /** On the wire the port follows the address, high byte first. */
  lemma PortIsHighByteFirst(p: Packet)
    ensures var s, at := Serialized(p), 3 + |AddressBytes(p.address)|;
      |s| >= at + 2 && s[at] == p.port / 256 && s[at + 1] == p.port % 256
  {
    var s, n := Serialized(p), |AddressBytes(p.address)|;
    var rest := Be16(p.port) + p.data;
    assert s == ([0, 0, p.frag] + AddressBytes(p.address)) + rest;
    assert s[3 + n] == rest[0] == p.port / 256 && s[4 + n] == rest[1] == p.port % 256;
  }

  /** And is read from there so. */
  lemma PortIsReadHighByteFirst(buf: seq<Byte>)
    requires Parsed(buf).Ok?
    ensures var p := Parsed(buf).value;
      var at := 3 + |AddressBytes(p.address)|;
      |buf| >= at + 2 && buf[at] == p.port / 256 && buf[at + 1] == p.port % 256
  {
    var p := Parsed(buf).value;
    ParsingIsLayout(buf, p);
    PortIsHighByteFirst(p);
    var s, n := Serialized(p), |AddressBytes(p.address)|;
    hide Parsed, Be16, AddressBytes;
    assert buf[2..] == s[2..];
    assert buf[3 + n] == buf[2..][1 + n] && buf[4 + n] == buf[2..][2 + n];
  }

  /** What a sender can check: not a fragment, a name of at most 255 bytes, and ten bytes in all. */
  predicate Deliverable(p: Packet)
  {
    p.frag == 0 && (p.address.Domain? ==> |p.address.name| <= 255 && |p.address.name| + |p.data| >= 3)
  }

  lemma PacketRoundTrips(p: Packet)
    ensures Parsed(Serialized(p)) == Ok(p) <==> Deliverable(p)
  {
    ParsingIsLayout(Serialized(p), p);
    assert Serialized(p)[2..] == Body(p);
  }

  /** Serializing what was parsed restores the datagram, reserved bytes cleared. */
  lemma DatagramRoundTrips(buf: seq<Byte>)
    requires Parsed(buf).Ok?
    ensures Serialized(Parsed(buf).value) == [0, 0] + buf[2..]
    ensures Parsed(Serialized(Parsed(buf).value)) == Parsed(buf)
  {
    var p := Parsed(buf).value;
    ParsingIsLayout(buf, p);
    var again := Serialized(p);
    assert again[2..] == Body(p);
    assert again == [0, 0] + buf[2..];
    ParsingIsLayout(again, p);
    hide Parsed, Body, Serialized;
  }

  lemma SliceOfTail(s: seq<Byte>, k: nat, i: nat, j: nat)
    requires i <= j && k + j <= |s|
    ensures s[k..][i..j] == s[k + i..k + j]
  {}

  /** The address part of the parser: the cursor moves past it, or the buffer ends too soon. */
  method ReadAddress(buf: seq<Byte>, start: nat) returns (r: Result<Address>, pos: nat)
    requires start < |buf|
    ensures var a := ParseAddress(buf[start..]);
      if a.Ok? then r == Ok(a.value.0) && pos == start + a.value.1 else r == Err(a.error)
  {
    hide IsUtf8;
    pos := start;
    var addressType := buf[pos];
    pos := pos + 1;
    if addressType == 1 {
      if |buf| < pos + 4 { return Err(BadIPv4), pos; }
      SliceOfTail(buf, start, 1, 5);
      return Ok(IPv4(buf[pos..pos + 4])), pos + 4;
    } else if addressType == 3 {
      if |buf| < pos + 1 { return Err(BadDomain), pos; }
      var length: nat := buf[pos];
      pos := pos + 1;
      if |buf| < pos + length { return Err(BadDomain), pos; }
      SliceOfTail(buf, start, 2, 2 + length);
      if !IsUtf8(buf[pos..pos + length]) { return Err(BadEncoding), pos; }
      return Ok(Domain(buf[pos..pos + length])), pos + length;
    } else if addressType == 4 {
      if |buf| < pos + 16 { return Err(BadIPv6), pos; }
      SliceOfTail(buf, start, 1, 17);
      return Ok(IPv6(buf[pos..pos + 16])), pos + 16;
    } else {
      return Err(UnsupportedAddressType(addressType)), pos;
    }
  }

  /** The parser as written: a cursor over the buffer, an error wherever the buffer ends too soon. */
  method ParseUdpPacket(buf: seq<Byte>) returns (r: Result<Packet>)
    ensures r == Parsed(buf)
    ensures forall p :: r == Ok(p) <==> |buf| >= 10 && p.frag == 0 && Fits(p.address) && buf[2..] == Body(p)
  {
    forall p ensures Parsed(buf) == Ok(p) <==> |buf| >= 10 && p.frag == 0 && Fits(p.address) && buf[2..] == Body(p) {
      ParsingIsLayout(buf, p);
    }
    hide Body, Fits, ParseAddress, FromBe16;
    if |buf| < 10 { return Err(TooShort); }
    var pos: nat := 2;
    var frag := buf[pos];
    pos := pos + 1;
    if frag != 0 { return Err(Fragmented); }
    var address, past := ReadAddress(buf, pos);
    if address.Err? { return Err(address.error); }
    pos := past;
    if |buf| < pos + 2 { return Err(BadPort); }
    var port := FromBe16(buf[pos], buf[pos + 1]);
    pos := pos + 2;
    return Ok(Packet(frag, address.value, port, buf[pos..]));
  }

  /** The type byte and the address, a name cut to what its length byte can announce. */
  method AppendAddress(before: seq<Byte>, address: Address) returns (buf: seq<Byte>)
    ensures buf == before + AddressBytes(address)
  {
    hide IsUtf8;
    buf := before;
    match address {
      case IPv4(octets) =>
        buf := buf + [1];
        buf := buf + octets;
        Regroup(before, [1], octets);
      case IPv6(octets) =>
        buf := buf + [4];
        buf := buf + octets;
        Regroup(before, [4], octets);
      case Domain(domain) =>
        var length := Min(|domain|, 255);
        buf := buf + [3];
        buf := buf + [length];
        Regroup(before, [3], [length]);
        buf := buf + domain[..length];
        Regroup(before, [3, length], domain[..length]);
        assert [3] + [length] == [3, length];
    }
  }

  lemma Regroup(a: seq<Byte>, b: seq<Byte>, c: seq<Byte>)
    ensures a + b + c == a + (b + c)
  {}

  /** The serializer as written: a buffer grown piece by piece. */
  method SerializeUdpPacket(p: Packet) returns (buf: seq<Byte>)
    ensures buf == Serialized(p)
    ensures Parsed(buf) == Ok(p) <==> Deliverable(p)
  {
    hide Parsed, Deliverable, Be16, AddressBytes;
    PacketRoundTrips(p);
    buf := [0, 0];
    buf := buf + [p.frag];
    buf := AppendAddress(buf, p.address);
    buf := buf + Be16(p.port);
    buf := buf + p.data;
    assert buf == [0, 0] + ([p.frag] + AddressBytes(p.address) + Be16(p.port) + p.data);
  }

  // ----- GSS-API messages -----

  datatype MessageType = Authentication | Protection | Encapsulation | Abort

  datatype Message = Message(kind: MessageType, token: seq<Byte>)

  function Code(kind: MessageType): Byte
  {
    match kind case Authentication => 1 case Protection => 2 case Encapsulation => 3 case Abort => 0xFF
  }

  /** Unknown codes are taken for an abort. */
  function KindOf(code: Byte): MessageType
  {
    if code == 1 then Authentication else if code == 2 then Protection else if code == 3 then Encapsulation else Abort
  }

  /** The length is the token's, cut to 16 bits; an abort carries neither length nor token. */
  function Payload(m: Message): seq<Byte> { if m.kind.Abort? then [] else Be16(|m.token| % 65536) + m.token }

  function Encoded(m: Message): seq<Byte> { [1, Code(m.kind)] + Payload(m) }

  function EncodedAll(ms: seq<Message>): seq<Byte>
  {
    if ms == [] then [] else Encoded(ms[0]) + EncodedAll(ms[1..])
  }

  /** The first message of a stream and what is left of it. */
  function Decoded(s: seq<Byte>): Result<(Message, seq<Byte>)>
  {
    if |s| < 1 then Err(EndOfStream)
    else if s[0] != 1 then Err(UnsupportedVersion(s[0]))
    else if |s| < 2 then Err(EndOfStream)
    else if KindOf(s[1]).Abort? then Ok((Message(Abort, []), s[2..]))
    else if |s| < 4 then Err(EndOfStream)
    else
      var n := FromBe16(s[2], s[3]);
      if |s| < 4 + n then Err(EndOfStream) else Ok((Message(KindOf(s[1]), s[4..4 + n]), s[4 + n..]))
  }

  /** What a sender can check: a token of less than 2^16 bytes, and none with an abort. */
  predicate Sendable(m: Message) { if m.kind.Abort? then m.token == [] else |m.token| < 65536 }

  /** Decoding finds exactly the sendable messages that the stream begins with, up to the spelling of an abort. */
  lemma DecodingIsLayout(s: seq<Byte>, m: Message, rest: seq<Byte>)
    ensures Decoded(s) == Ok((m, rest))
       <==> Sendable(m) && |s| >= 2 && s[0] == 1 && KindOf(s[1]) == m.kind && s[2..] == Payload(m) + rest
  {
    hide Be16, FromBe16, KindOf;
    assert m.kind.Abort? ==> Payload(m) + rest == rest;
    if !m.kind.Abort? && |s| >= 4 {
      var n := |m.token|;
      if n < 65536 { Be16Inverts(n, s[2], s[3]); }
      if Decoded(s) == Ok((m, rest)) {
        assert s[2..] == [s[2], s[3]] + m.token + rest;
      }
      if n < 65536 && s[2..] == Payload(m) + rest {
        Split(s[2..], n, m.token, rest);
        assert s[4..] == s[2..][2..];
        assert s[4..4 + n] == s[4..][..n];
        assert s[4 + n..] == s[4..][n..];
      }
    }
  }

  lemma Split(t: seq<Byte>, n: Port, token: seq<Byte>, rest: seq<Byte>)
    requires t == Be16(n) + token + rest && |token| == n
    ensures Be16(n) == [t[0], t[1]] && t[2..][..n] == token && t[2..][n..] == rest
  {
    assert t == Be16(n) + (token + rest);
    assert t[2..] == token + rest;
  }

  /** Types on the wire, and what is read from any byte: everything unknown is an abort. */
  lemma TypesOnTheWire(kind: MessageType, code: Byte)
    ensures KindOf(Code(kind)) == kind
    ensures KindOf(code) == Authentication <==> code == 0x01
    ensures KindOf(code) == Protection <==> code == 0x02
    ensures KindOf(code) == Encapsulation <==> code == 0x03
    ensures Code(Abort) == 0xFF
  {}

  /** On the wire a message has its version, its type, and the length of its token, high byte first. */
  lemma LengthIsHighByteFirst(m: Message)
    requires !m.kind.Abort?
    ensures var s := Encoded(m);
      && |s| == 4 + |m.token| && s[0] == 1 && s[1] == Code(m.kind) && s[4..] == m.token
      && s[2] == |m.token| % 65536 / 256 && s[3] == |m.token| % 65536 % 256
  {
    var n: Port := |m.token| % 65536;
    var s := Encoded(m);
    assert s == [1, Code(m.kind)] + Be16(n) + m.token;
    assert s[2] == Be16(n)[0] == n / 256 && s[3] == Be16(n)[1] == n % 256;
  }

  lemma MessageRoundTrips(m: Message, rest: seq<Byte>)
    ensures Sendable(m) ==> Decoded(Encoded(m) + rest) == Ok((m, rest))
    ensures !Sendable(m) ==> forall s, left :: Decoded(s) != Ok((m, left))
  {
    hide Decoded, Payload, Sendable;
    DecodingIsLayout(Encoded(m) + rest, m, rest);
    assert (Encoded(m) + rest)[2..] == Payload(m) + rest;
    forall s, left | !Sendable(m) ensures Decoded(s) != Ok((m, left)) { DecodingIsLayout(s, m, left); }
  }

  /** Up to n messages, one after the other. */
  function DecodedMany(n: nat, s: seq<Byte>): Result<(seq<Message>, seq<Byte>)>
  {
    if n == 0 then Ok(([], s))
    else match Decoded(s)
      case Err(e) => Err(e)
      case Ok((m, rest)) =>
        match DecodedMany(n - 1, rest)
        case Err(e) => Err(e)
        case Ok((ms, left)) => Ok(([m] + ms, left))
  }

  ghost predicate AllSendable(ms: seq<Message>) { forall i :: 0 <= i < |ms| ==> Sendable(ms[i]) }

  lemma AllSendableCons(m: Message, ms: seq<Message>)
    ensures AllSendable([m] + ms) <==> Sendable(m) && AllSendable(ms)
  {
    hide Sendable;
    var all := [m] + ms;
    assert all[0] == m && forall i :: 0 <= i < |ms| ==> ms[i] == all[i + 1];
  }

  /** Messages written back to back come out one by one, each taking its own bytes, exactly when all are sendable. */
  lemma {:induction false} StreamRoundTrips(ms: seq<Message>, rest: seq<Byte>)
    ensures DecodedMany(|ms|, EncodedAll(ms) + rest) == Ok((ms, rest)) <==> AllSendable(ms)
    decreases |ms|
  {
    hide Decoded, Encoded, Sendable, AllSendable;
    if ms == [] {
      assert EncodedAll(ms) + rest == rest;
      AllSendableNil();
    } else {
      var m, tail := ms[0], ms[1..];
      var more := EncodedAll(tail) + rest;
      assert ms == [m] + tail;
      AllSendableCons(m, tail);
      assert EncodedAll(ms) + rest == Encoded(m) + more;
      MessageRoundTrips(m, more);
      StreamRoundTrips(tail, rest);
      if Decoded(Encoded(m) + more).Ok? {
        var (first, left) := Decoded(Encoded(m) + more).value;
        var others := DecodedMany(|tail|, left);
        if others.Ok? { ConsIsInjective(first, others.value.0, m, tail); }
      }
    }
  }

  lemma AllSendableNil()
    ensures AllSendable([])
  {}

  lemma ConsIsInjective(a: Message, more: seq<Message>, b: Message, others: seq<Message>)
    ensures [a] + more == [b] + others <==> a == b && more == others
  {
    assert ([a] + more)[0] == a && ([b] + others)[0] == b;
    assert ([a] + more)[1..] == more && ([b] + others)[1..] == others;
  }

  /** A stream being read: reads consume, and fail when too little is left. */
  class ByteStream {
    const input: seq<Byte>
    var pos: nat

    ghost predicate Valid()
      reads this
    {
      pos <= |input|
    }

    ghost function Left(): seq<Byte>
      reads this
      requires Valid()
    {
      input[pos..]
    }

    constructor (input: seq<Byte>)
      ensures Valid() && Left() == input
    {
      this.input := input;
      pos := 0;
    }

    method ReadExact(n: nat) returns (r: Result<seq<Byte>>)
      requires Valid()
      modifies this
      ensures Valid() && r.Ok? == (n <= |old(Left())|)
      ensures r.Ok? ==> |r.value| == n && old(Left()) == r.value + Left()
      ensures r.Err? ==> r.error == EndOfStream
    {
      if |input| < pos + n { return Err(EndOfStream); }
      r := Ok(input[pos..pos + n]);
      pos := pos + n;
    }
  }

  /** The next message is decoded, and after it the stream stands exactly at the bytes that follow. */
  method ParseGssapiMessage(stream: ByteStream) returns (r: Result<Message>)
    requires stream.Valid()
    modifies stream
    ensures stream.Valid()
    ensures var d := Decoded(old(stream.Left()));
      if d.Ok? then r == Ok(d.value.0) && stream.Left() == d.value.1 else r == Err(d.error)
  {
    ghost var all := stream.Left();
    var version := stream.ReadExact(1);
    if version.Err? { return Err(version.error); }
    assert all[0] == version.value[0];
    if version.value[0] != 1 { return Err(UnsupportedVersion(version.value[0])); }
    assert all[1..] == stream.Left();
    var code := stream.ReadExact(1);
    if code.Err? { return Err(code.error); }
    assert all[1] == all[1..][0] == code.value[0];
    assert all[2..] == all[1..][1..] == stream.Left();
    var kind := KindOf(code.value[0]);
    if kind.Abort? { return Ok(Message(kind, [])); }
    var length := stream.ReadExact(2);
    if length.Err? { return Err(length.error); }
    assert all[2] == all[2..][0] == length.value[0] && all[3] == all[2..][1] == length.value[1];
    assert all[4..] == all[2..][2..] == stream.Left();
    var n := FromBe16(length.value[0], length.value[1]);
    var token := stream.ReadExact(n);
    if token.Err? { return Err(token.error); }
    assert all[4..4 + n] == all[4..][..n] == token.value;
    assert all[4 + n..] == all[4..][n..] == stream.Left();
    return Ok(Message(kind, token.value));
  }

  /** What goes out on the stream. */
  method SendGssapiMessage(kind: MessageType, token: seq<Byte>) returns (buf: seq<Byte>)
    ensures buf == Encoded(Message(kind, token))
    ensures Sendable(Message(kind, token)) ==> forall rest :: Decoded(buf + rest) == Ok((Message(kind, token), rest))
  {
    hide Decoded, Sendable, Be16;
    buf := [1];
    buf := buf + [Code(kind)];
    if !kind.Abort? {
      buf := buf + Be16(|token| % 65536);
      buf := buf + token;
    }
    assert buf == Encoded(Message(kind, token));
    hide Encoded;
    forall rest | Sendable(Message(kind, token)) ensures Decoded(buf + rest) == Ok((Message(kind, token), rest)) {
      MessageRoundTrips(Message(kind, token), rest);
    }
  }

}
