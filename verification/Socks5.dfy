/**
 * The SOCKS5 wire form of addresses, requests and UDP headers
 * (crates/ombrac-client/src/endpoint/socks/protocol.rs; RFC 1928, sections 4, 5 and 7).
 */
module Socks5 {
  import opened Base
  import Protocol

  const VERSION: Byte := 0x05

  const ATYP_IPV4: Byte := 0x01
  const ATYP_DOMAIN: Byte := 0x03
  const ATYP_IPV6: Byte := 0x04

  const CMD_CONNECT: Byte := 0x01
  const CMD_BIND: Byte := 0x02
  const CMD_ASSOCIATE: Byte := 0x03

  datatype Address =
    | IPv4(v4: Ipv4, port: U16)
    | IPv6(v6: Ipv6, port: U16, flowinfo: U32, scopeId: U32)
    | Domain(name: Bytes, port: U16)

  function ToBe16(n: U16): (b: Bytes)
    ensures |b| == 2
  {
    [n / 0x100, n % 0x100]
  }

  function FromBe16(b: Bytes): U16
    requires |b| == 2
  {
    b[0] as int * 0x100 + b[1]
  }

  function Encode(a: Address): Bytes {
    match a
    case IPv4(ip, port) => [ATYP_IPV4] + ip + ToBe16(port)
    case IPv6(ip, port, _, _) => [ATYP_IPV6] + ip + ToBe16(port)
    case Domain(name, port) => [ATYP_DOMAIN, |name| % 0x100] + name + ToBe16(port)
  }

  function EncodedLen(a: Address): nat {
    match a
    case IPv4(_, _) => 1 + 4 + 2
    case IPv6(_, _, _, _) => 1 + 16 + 2
    case Domain(name, _) => 1 + 1 + |name| + 2
  }

  datatype Missing = AddressType | Ipv4Address | Ipv6Address | DomainLength | DomainName | UdpHeader | RequestHeader

  datatype Reject = Truncated(missing: Missing) | EmptyDomain | InvalidType(atyp: Byte) | BadVersion | BadCommand(cmd: Byte)

  /** An address and how many bytes it took. */
  datatype Taken<T> = Taken(value: T, size: nat)

  function ParseAddress(b: Bytes): (r: Result<Taken<Address>, Reject>)
    ensures r.Ok? ==> r.value.size <= |b|
  {
    if |b| < 1 then Err(Truncated(AddressType))
    else if b[0] == ATYP_IPV4 then
      if |b| < 7 then Err(Truncated(Ipv4Address))
      else Ok(Taken(IPv4(b[1..5], FromBe16(b[5..7])), 7))
    else if b[0] == ATYP_IPV6 then
      if |b| < 19 then Err(Truncated(Ipv6Address))
      else Ok(Taken(IPv6(b[1..17], FromBe16(b[17..19]), 0, 0), 19))
    else if b[0] == ATYP_DOMAIN then ParseDomain(b)
    else Err(InvalidType(b[0]))
  }

  function ParseDomain(b: Bytes): (r: Result<Taken<Address>, Reject>)
    requires |b| >= 1
    ensures r.Ok? ==> r.value.size <= |b|
  {
    if |b| < 2 then Err(Truncated(DomainLength))
    else
      var len: int := b[1];
      if len == 0 then Err(EmptyDomain)
      else if |b| < len + 4 then Err(Truncated(DomainName))
      else Ok(Taken(Domain(b[2..2 + len], FromBe16(b[2 + len..len + 4])), len + 4))
  }

  /** What the wire can carry: it has no room for flow and scope, nor for a longer or an empty name. */
  predicate WireSafe(a: Address) {
    match a
    case IPv4(_, _) => true
    case IPv6(_, _, flowinfo, scopeId) => flowinfo == 0 && scopeId == 0
    case Domain(name, _) => 1 <= |name| <= 255
  }

  lemma LengthIsEncodedLen(a: Address)
    ensures |Encode(a)| == EncodedLen(a)
  {
  }

  lemma Be16RoundTrip(n: U16)
    ensures FromBe16(ToBe16(n)) == n
  {
  }

  lemma Be16Unique(b: Bytes)
    requires |b| == 2
    ensures ToBe16(FromBe16(b)) == b
  {
    var n := FromBe16(b);
    assert n / 0x100 == b[0] && n % 0x100 == b[1];
  }

  /** Ports are big-endian. */
  lemma PortIsBigEndian(b: Bytes)
    requires |b| == 2
    ensures FromBe16(b) == BigEndian(b)
  {
    assert b[..1][..0] == [];
    assert BigEndian(b[..1]) == b[0];
  }

  /** An address comes back from its encoding, whatever follows, exactly when the wire can carry it. */
  lemma RoundTripExactly(a: Address, rest: Bytes)
    ensures ParseAddress(Encode(a) + rest) == Ok(Taken(a, EncodedLen(a))) <==> WireSafe(a)
    ensures (Encode(a) + rest)[EncodedLen(a)..] == rest
  {
    LengthIsEncodedLen(a);
    Be16RoundTrip(a.port);
    var b := Encode(a) + rest;
    match a
    case IPv4(ip, port) =>
      assert b[1..5] == ip && b[5..7] == ToBe16(port);
    case IPv6(ip, port, _, _) =>
      assert b[1..17] == ip && b[17..19] == ToBe16(port);
    case Domain(name, port) =>
      DomainComesBack(name, port, rest);
  }

  lemma DomainComesBack(name: Bytes, port: U16, rest: Bytes)
    ensures var a := Domain(name, port);
            ParseAddress(Encode(a) + rest) == Ok(Taken(a, EncodedLen(a))) <==> 1 <= |name| <= 255
  {
    var b := Encode(Domain(name, port)) + rest;
    assert b[0] == ATYP_DOMAIN && b[1] == |name| % 0x100;
    if 1 <= |name| <= 255 {
      Be16RoundTrip(port);
      assert b[2..2 + |name|] == name && b[2 + |name|..|name| + 4] == ToBe16(port);
    }
  }

  /** An accepted string is the encoding of its address and the rest; the address is one the wire can carry. */
  lemma EncodeUndoesParse(b: Bytes)
    requires ParseAddress(b).Ok?
    ensures var Taken(a, size) := ParseAddress(b).value;
            WireSafe(a) && size == EncodedLen(a) && Encode(a) + b[size..] == b
  {
    var Taken(a, size) := ParseAddress(b).value;
    Be16Unique(b[size - 2..size]);
    if a.Domain? {
      assert Encode(a) == [b[0], b[1]] + b[2..size - 2] + b[size - 2..size];
    } else {
      assert Encode(a) == [b[0]] + b[1..size - 2] + b[size - 2..size];
    }
  }

  /** Encodings are self-delimiting: the same bytes never carry two addresses. */
  lemma EncodingsAreUnambiguous(a: Address, x: Bytes, b: Address, y: Bytes)
    requires WireSafe(a) && WireSafe(b) && Encode(a) + x == Encode(b) + y
    ensures a == b && x == y
  {
    RoundTripExactly(a, x);
    RoundTripExactly(b, y);
  }

  /** Every cut through an encoding is rejected as cut short. */
  lemma CutsAreTruncated(a: Address, k: nat)
    requires WireSafe(a) && k < EncodedLen(a)
    ensures k <= |Encode(a)| && ParseAddress(Encode(a)[..k]).Err? && ParseAddress(Encode(a)[..k]).error.Truncated?
  {
    LengthIsEncodedLen(a);
    var cut := Encode(a)[..k];
    if k >= 1 {
      assert cut[0] == Encode(a)[0];
    }
    if k >= 2 {
      assert cut[1] == Encode(a)[1];
    }
  }

  // --- The bytes on the wire (RFC 1928, section 5) ---

  /** Type 1: four octets of address, then the port. */
  lemma WireIpv4(ip: Ipv4, hi: Byte, lo: Byte, rest: Bytes)
    ensures ParseAddress([1] + ip + [hi, lo] + rest) == Ok(Taken(IPv4(ip, 0x100 * (hi as int) + lo), 7))
    ensures Encode(IPv4(ip, 0x100 * (hi as int) + lo)) == [1] + ip + [hi, lo]
  {
    var b := [1] + ip + [hi, lo] + rest;
    assert b[1..5] == ip && b[5..7] == [hi, lo];
    Be16Unique([hi, lo]);
  }

  /** Type 4: sixteen octets of address, then the port; flow and scope are zero. */
  lemma WireIpv6(ip: Ipv6, hi: Byte, lo: Byte, rest: Bytes)
    ensures ParseAddress([4] + ip + [hi, lo] + rest) == Ok(Taken(IPv6(ip, 0x100 * (hi as int) + lo, 0, 0), 19))
    ensures Encode(IPv6(ip, 0x100 * (hi as int) + lo, 0, 0)) == [4] + ip + [hi, lo]
  {
    var b := [4] + ip + [hi, lo] + rest;
    assert b[1..17] == ip && b[17..19] == [hi, lo];
    Be16Unique([hi, lo]);
  }

  /** Type 3: a length octet, that many octets of name, then the port. */
  lemma WireDomain(name: Bytes, hi: Byte, lo: Byte, rest: Bytes)
    requires 1 <= |name| <= 255
    ensures ParseAddress([3, |name|] + name + [hi, lo] + rest) ==
            Ok(Taken(Domain(name, 0x100 * (hi as int) + lo), |name| + 4))
    ensures Encode(Domain(name, 0x100 * (hi as int) + lo)) == [3, |name|] + name + [hi, lo]
  {
    var b := [3, |name|] + name + [hi, lo] + rest;
    assert b[2..2 + |name|] == name && b[2 + |name|..|name| + 4] == [hi, lo];
    Be16Unique([hi, lo]);
  }

  /** Exactly when a string is rejected, and as what. */
  lemma RejectsExactly(b: Bytes)
    ensures match ParseAddress(b)
            case Err(Truncated(_)) =>
              || |b| == 0 || (b[0] == 1 && |b| < 7) || (b[0] == 4 && |b| < 19)
              || (b[0] == 3 && (|b| == 1 || (b[1] > 0 && |b| < b[1] as int + 4)))
            case Err(EmptyDomain) => |b| >= 2 && b[0] == 3 && b[1] == 0
            case Err(InvalidType(t)) => |b| >= 1 && b[0] == t && t != 1 && t != 3 && t != 4
            case Err(_) => false
            case Ok(_) =>
              || (|b| >= 7 && b[0] == 1) || (|b| >= 19 && b[0] == 4)
              || (|b| >= 2 && b[0] == 3 && b[1] > 0 && |b| >= b[1] as int + 4)
  {
  }

  // --- Conversion from the tunnel's addresses ---

  /** `From<Address>`. */
  function ToTunnel(a: Address): Protocol.Address {
    match a
    case IPv4(ip, port) => Protocol.SocketV4(ip, port)
    case IPv6(ip, port, flowinfo, scopeId) => Protocol.SocketV6(ip, port, flowinfo, scopeId)
    case Domain(name, port) => Protocol.Domain(name, port)
  }

  /** `TryFrom`: only an over-long domain name is refused. */
  function TryFrom(a: Protocol.Address): Option<Address> {
    match a
    case SocketV4(ip, port) => Some(IPv4(ip, port))
    case SocketV6(ip, port, flowinfo, scopeId) => Some(IPv6(ip, port, flowinfo, scopeId))
    case Domain(name, port) => if |name| > 255 then None else Some(Domain(name, port))
  }

  /**
   * The two conversions undo each other, and what `TryFrom` lets through survives
   * the wire unless it is an empty name or has flow or scope set.
   */
  lemma ConvertedSurvives(a: Protocol.Address, rest: Bytes)
    ensures TryFrom(a).None? <==> a.Domain? && |a.name| > 255
    ensures TryFrom(a).Some? ==>
      && var w := TryFrom(a).value;
      && ToTunnel(w) == a
      && (ParseAddress(Encode(w) + rest) == Ok(Taken(w, EncodedLen(w))) <==>
            !(a.Domain? && |a.name| == 0) && !(a.SocketV6? && (a.flowinfo != 0 || a.scopeId != 0)))
  {
    if TryFrom(a).Some? {
      RoundTripExactly(TryFrom(a).value, rest);
    }
  }

  // --- UDP datagrams ---

  datatype UdpPacket = UdpPacket(frag: Byte, address: Address, data: Bytes)

  function ParseUdp(b: Bytes): Result<UdpPacket, Reject> {
    if |b| < 3 then Err(Truncated(UdpHeader))
    else
      match ParseAddress(b[3..])
      case Err(e) => Err(e)
      case Ok(Taken(a, size)) => Ok(UdpPacket(b[2], a, b[3..][size..]))
  }

  function EncodeUnfragmented(a: Address, data: Bytes): Bytes {
    [0x00, 0x00, 0x00] + Encode(a) + data
  }

  /** Two reserved octets, the fragment number, an address, and all the rest is data. */
  lemma WireUdp(r1: Byte, r2: Byte, frag: Byte, body: Bytes)
    ensures ParseUdp([r1, r2, frag] + body) ==
            match ParseAddress(body)
            case Err(e) => Err(e)
            case Ok(Taken(a, size)) => Ok(UdpPacket(frag, a, body[size..]))
    ensures forall b: Bytes :: |b| < 3 ==> ParseUdp(b).Err?
  {
    assert ([r1, r2, frag] + body)[3..] == body;
  }

  /** A datagram comes back as it was built exactly when the wire can carry its address. */
  lemma UdpRoundTripExactly(a: Address, data: Bytes)
    ensures ParseUdp(EncodeUnfragmented(a, data)) == Ok(UdpPacket(0, a, data)) <==> WireSafe(a)
  {
    HeaderSplits([0x00, 0x00, 0x00], Encode(a), data);
    BodyRoundTrip(a, data, Encode(a) + data);
  }

  lemma HeaderSplits(header: Bytes, body: Bytes, data: Bytes)
    ensures (header + body + data)[|header|..] == body + data && (header + body + data)[..|header|] == header
  {
  }

  lemma BodyRoundTrip(a: Address, data: Bytes, body: Bytes)
    requires body == Encode(a) + data
    ensures ParseAddress(body).Ok? && ParseAddress(body).value.value == a && body[ParseAddress(body).value.size..] == data
            <==> WireSafe(a)
  {
    RoundTripExactly(a, data);
    if ParseAddress(body).Ok? {
      EncodeUndoesParse(body);
    }
  }

  /** An accepted datagram with clear reserved and fragment bytes is exactly the one built from its parts. */
  lemma EncodeUndoesUdpParse(b: Bytes)
    requires ParseUdp(b).Ok?
    ensures var UdpPacket(frag, a, data) := ParseUdp(b).value;
            b == b[..2] + [frag] + Encode(a) + data && (b[..3] == [0, 0, 0] ==> b == EncodeUnfragmented(a, data))
  {
    EncodeUndoesParse(b[3..]);
    var UdpPacket(frag, a, data) := ParseUdp(b).value;
    assert b[..3] == b[..2] + [frag];
    HeaderJoins(b[..3], Encode(a), data, b);
  }

  // --- Requests ---

  datatype Request = Connect(address: Address) | Bind(address: Address) | Associate(address: Address)

  function Command(r: Request): Byte {
    match r
    case Connect(_) => CMD_CONNECT
    case Bind(_) => CMD_BIND
    case Associate(_) => CMD_ASSOCIATE
  }

  /** The request line a client sends; the third byte is reserved and not looked at. */
  function EncodeRequest(r: Request, reserved: Byte): Bytes {
    [VERSION, Command(r), reserved] + Encode(r.address)
  }

  /** The version is checked before the address and the command only after it. */
  function ParseRequest(b: Bytes): Result<Taken<Request>, Reject> {
    if |b| < 3 then Err(Truncated(RequestHeader))
    else if b[0] != VERSION then Err(BadVersion)
    else
      match ParseAddress(b[3..])
      case Err(e) => Err(e)
      case Ok(Taken(a, size)) =>
        if b[1] == CMD_CONNECT then Ok(Taken(Connect(a), 3 + size))
        else if b[1] == CMD_BIND then Ok(Taken(Bind(a), 3 + size))
        else if b[1] == CMD_ASSOCIATE then Ok(Taken(Associate(a), 3 + size))
        else Err(BadCommand(b[1]))
  }

  /**
   * A request is version 5, command 1, 2 or 3, a reserved octet and an address; the
   * version is looked at first and the command last.
   */
  lemma WireRequest(version: Byte, cmd: Byte, reserved: Byte, address: Bytes)
    ensures ParseRequest([version, cmd, reserved] + address) ==
            if version != 5 then Err(BadVersion)
            else match ParseAddress(address)
                 case Err(e) => Err(e)
                 case Ok(Taken(a, size)) =>
                   if cmd == 1 then Ok(Taken(Connect(a), 3 + size))
                   else if cmd == 2 then Ok(Taken(Bind(a), 3 + size))
                   else if cmd == 3 then Ok(Taken(Associate(a), 3 + size))
                   else Err(BadCommand(cmd))
    ensures forall a :: EncodeRequest(Connect(a), reserved) == [5, 1, reserved] + Encode(a)
    ensures forall a :: EncodeRequest(Bind(a), reserved) == [5, 2, reserved] + Encode(a)
    ensures forall a :: EncodeRequest(Associate(a), reserved) == [5, 3, reserved] + Encode(a)
  {
    assert ([version, cmd, reserved] + address)[3..] == address;
  }

  lemma RequestRoundTripExactly(r: Request, reserved: Byte, rest: Bytes)
    ensures ParseRequest(EncodeRequest(r, reserved) + rest) == Ok(Taken(r, 3 + EncodedLen(r.address))) <==>
      WireSafe(r.address)
  {
    var b := EncodeRequest(r, reserved) + rest;
    assert b[3..] == Encode(r.address) + rest;
    RoundTripExactly(r.address, rest);
  }

  lemma EncodeUndoesRequestParse(b: Bytes)
    requires ParseRequest(b).Ok?
    ensures var Taken(r, size) := ParseRequest(b).value;
            size == 3 + EncodedLen(r.address) <= |b| && EncodeRequest(r, b[2]) + b[size..] == b
  {
    EncodeUndoesParse(b[3..]);
    var size := ParseAddress(b[3..]).value.size;
    DropDrop(b, 3, size);
    HeaderJoins([b[0], b[1], b[2]], Encode(ParseRequest(b).value.value.address), b[3 + size..], b);
  }

  lemma DropDrop(b: Bytes, i: nat, j: nat)
    requires i + j <= |b|
    ensures b[i..][j..] == b[i + j..]
  {
  }

  lemma HeaderJoins(header: Bytes, body: Bytes, rest: Bytes, b: Bytes)
    requires |header| <= |b| && b[..|header|] == header && b[|header|..] == body + rest
    ensures header + body + rest == b
  {
    assert b == header + b[|header|..];
    assert header + body + rest == header + (body + rest);
  }
}
