/**
 * The codec's operations on cursors and streams as they are written in
 * crates/ombrac-client/src/endpoint/socks/protocol.rs, against the wire form.
 */
module Socks5Methods {
  import opened Base
  import opened Streams
  import opened Socks5

  // --- Encoding into a growing buffer ---

  class BytesMut {
    var data: Bytes

    constructor ()
      ensures data == []
    {
      data := [];
    }

    method PutU8(b: Byte)
      modifies this
      ensures data == old(data) + [b]
    {
      data := data + [b];
    }

    method PutSlice(s: Bytes)
      modifies this
      ensures data == old(data) + s
    {
      data := data + s;
    }

    method PutU16(n: U16)
      modifies this
      ensures data == old(data) + ToBe16(n)
    {
      data := data + ToBe16(n);
    }
  }

  lemma EncodeInParts(before: Bytes, a: Address)
    ensures match a
            case IPv4(ip, port) => before + [ATYP_IPV4] + ip + ToBe16(port) == before + Encode(a)
            case IPv6(ip, port, _, _) => before + [ATYP_IPV6] + ip + ToBe16(port) == before + Encode(a)
            case Domain(name, port) =>
              before + [ATYP_DOMAIN] + [|name| % 0x100] + name + ToBe16(port) == before + Encode(a)
  {
  }

  /** `encode` appends the wire form and touches nothing before it. */
  method EncodeInto(a: Address, dst: BytesMut)
    modifies dst
    ensures dst.data == old(dst.data) + Encode(a)
  {
    EncodeInParts(dst.data, a);
    match a {
      case IPv4(ip, port) =>
        dst.PutU8(ATYP_IPV4);
        dst.PutSlice(ip);
        dst.PutU16(port);
      case IPv6(ip, port, _, _) =>
        dst.PutU8(ATYP_IPV6);
        dst.PutSlice(ip);
        dst.PutU16(port);
      case Domain(name, port) =>
        dst.PutU8(ATYP_DOMAIN);
        dst.PutU8(|name| % 0x100);
        dst.PutSlice(name);
        dst.PutU16(port);
    }
  }

  method BuildUnfragmented(a: Address, data: Bytes) returns (bytes: Bytes)
    ensures bytes == EncodeUnfragmented(a, data)
  {
    var dst := new BytesMut();
    dst.PutU8(0x00);
    dst.PutU8(0x00);
    dst.PutU8(0x00);
    assert dst.data == [0x00, 0x00, 0x00];
    EncodeInto(a, dst);
    dst.PutSlice(data);
    return dst.data;
  }

  // --- Parsing from a cursor ---

  class Buf {
    var data: Bytes

    constructor (data: Bytes)
      ensures this.data == data
    {
      this.data := data;
    }

    method Take(n: nat) returns (b: Bytes)
      requires n <= |data|
      modifies this
      ensures b == old(data)[..n] && data == old(data)[n..]
    {
      b := data[..n];
      data := data[n..];
    }

    method GetU8() returns (b: Byte)
      requires |data| >= 1
      modifies this
      ensures b == old(data)[0] && data == old(data)[1..]
    {
      b := data[0];
      data := data[1..];
    }

    method GetU16() returns (n: U16)
      requires |data| >= 2
      modifies this
      ensures n == FromBe16(old(data)[..2]) && data == old(data)[2..]
    {
      n := FromBe16(data[..2]);
      data := data[2..];
    }
  }

  /** How far the cursor has moved when an address is rejected. */
  function Skipped(e: Reject): nat {
    match e
    case Truncated(AddressType) => 0
    case Truncated(DomainName) => 2
    case EmptyDomain => 2
    case _ => 1
  }

  /** `from_buf`: the parse of the buffer, which is left at what follows the address. */
  method FromBuf(buf: Buf) returns (r: Result<Address, Reject>)
    modifies buf
    ensures match ParseAddress(old(buf.data))
            case Ok(Taken(a, size)) => r == Ok(a) && buf.data == old(buf.data)[size..]
            case Err(e) => r == Err(e) && Skipped(e) <= |old(buf.data)| && buf.data == old(buf.data)[Skipped(e)..]
  {
    if |buf.data| < 1 {
      return Err(Truncated(AddressType));
    }
    ghost var all := buf.data;
    var atyp := buf.GetU8();
    if atyp == ATYP_IPV4 {
      if |buf.data| < 6 {
        return Err(Truncated(Ipv4Address));
      }
      var ip := buf.Take(4);
      var port := buf.GetU16();
      assert ip == all[1..5] && buf.data == all[7..];
      return Ok(IPv4(ip, port));
    } else if atyp == ATYP_IPV6 {
      if |buf.data| < 18 {
        return Err(Truncated(Ipv6Address));
      }
      var ip := buf.Take(16);
      var port := buf.GetU16();
      assert ip == all[1..17] && buf.data == all[19..];
      return Ok(IPv6(ip, port, 0, 0));
    } else if atyp == ATYP_DOMAIN {
      r := DomainFromBuf(buf, all);
    } else {
      return Err(InvalidType(atyp));
    }
  }

  method DomainFromBuf(buf: Buf, ghost all: Bytes) returns (r: Result<Address, Reject>)
    requires |all| >= 1 && buf.data == all[1..]
    modifies buf
    ensures match ParseDomain(all)
            case Ok(Taken(a, size)) => r == Ok(a) && buf.data == all[size..]
            case Err(e) => r == Err(e) && Skipped(e) <= |all| && buf.data == all[Skipped(e)..]
  {
    if |buf.data| < 1 {
      return Err(Truncated(DomainLength));
    }
    var len := buf.GetU8();
    assert len == all[1] && buf.data == all[2..];
    if len == 0 {
      return Err(EmptyDomain);
    }
    if |buf.data| < len as int + 2 {
      return Err(Truncated(DomainName));
    }
    var name := buf.Take(len);
    ghost var size: int := len as int + 4;
    assert name == all[2..size - 2] && buf.data == all[size - 2..];
    var port := buf.GetU16();
    assert all[size - 2..][..2] == all[size - 2..size] && buf.data == all[size..];
    return Ok(Domain(name, port));
  }

  // --- Reading from a stream ---

  datatype ReadFailure = Eof | Io(kind: ErrorKind) | Rejected(reject: Reject)

  /** An I/O error is one the stream has just reported, and the only one. */
  predicate Reported<T>(r: Result<T, ReadFailure>, before: seq<ErrorKind>, after: seq<ErrorKind>) {
    after == if r.Err? && r.error.Io? then before + [r.error.kind] else before
  }

  /** `read_exact`: the next `n` bytes however the reads cut them, or the end of the stream. */
  method ReadExact(io: Reader, n: nat) returns (r: Result<Bytes, ReadFailure>)
    requires io.Valid()
    modifies io
    ensures io.Valid()
    ensures r.Ok? ==> n <= |old(io.Rest())| && r.value == old(io.Rest())[..n] && io.Rest() == old(io.Rest())[n..]
    ensures r.Err? ==> (r.error.Eof? && |old(io.Rest())| < n) || r.error.Io?
    ensures Reported(r, old(io.failures), io.failures)
  {
    var from := io.pos;
    var got := [];
    while |got| < n
      invariant io.Valid() && from <= io.pos && |got| <= n && got == io.source[from..io.pos]
      invariant io.failures == old(io.failures)
      decreases n - |got|
    {
      var piece := io.Read(n - |got|);
      if piece.ReadError? {
        return Err(Io(piece.kind));
      }
      if |piece.data| == 0 {
        return Err(Eof);
      }
      got := got + piece.data;
    }
    return Ok(got);
  }

  /** What a stream read answers where the parse of the same bytes answers `parsed`. */
  predicate Agrees<T(==)>(r: Result<T, ReadFailure>, parsed: Result<Taken<T>, Reject>, before: Bytes, after: Bytes) {
    match r
    case Ok(a) => parsed.Ok? && parsed.value.value == a && parsed.value.size <= |before| && after == before[parsed.value.size..]
    case Err(Eof) => parsed.Err? && parsed.error.Truncated?
    case Err(Rejected(e)) => parsed == Err(e) && !e.Truncated?
    case Err(Io(_)) => true
  }

  /**
   * `read`: unless a read fails it accepts what `from_buf` accepts, with the same
   * address, and leaves the stream where `from_buf` leaves its buffer.
   */
  method ReadAddress(io: Reader) returns (r: Result<Address, ReadFailure>)
    requires io.Valid()
    modifies io
    ensures io.Valid()
    ensures Agrees(r, ParseAddress(old(io.Rest())), old(io.Rest()), io.Rest())
    ensures Reported(r, old(io.failures), io.failures)
  {
    ghost var all := io.Rest();
    var first := ReadExact(io, 1);
    if first.Err? {
      return Err(first.error);
    }
    var atyp := first.value[0];
    if atyp == ATYP_IPV4 {
      var body := ReadExact(io, 6);
      if body.Err? {
        return Err(body.error);
      }
      var buf := body.value;
      assert buf[..4] == all[1..5] && buf[4..6] == all[5..7] && io.Rest() == all[7..];
      return Ok(IPv4(buf[..4], FromBe16(buf[4..6])));
    } else if atyp == ATYP_IPV6 {
      var body := ReadExact(io, 18);
      if body.Err? {
        return Err(body.error);
      }
      var buf := body.value;
      assert buf[..16] == all[1..17] && buf[16..18] == all[17..19] && io.Rest() == all[19..];
      return Ok(IPv6(buf[..16], FromBe16(buf[16..18]), 0, 0));
    } else if atyp == ATYP_DOMAIN {
      r := ReadDomain(io, all);
    } else {
      return Err(Rejected(InvalidType(atyp)));
    }
  }

  method ReadDomain(io: Reader, ghost all: Bytes) returns (r: Result<Address, ReadFailure>)
    requires io.Valid() && |all| >= 1 && io.Rest() == all[1..]
    modifies io
    ensures io.Valid()
    ensures Agrees(r, ParseDomain(all), all, io.Rest())
    ensures Reported(r, old(io.failures), io.failures)
  {
    var length := ReadExact(io, 1);
    if length.Err? {
      return Err(length.error);
    }
    var len: int := length.value[0];
    assert len == all[1] && io.Rest() == all[2..];
    if len == 0 {
      return Err(Rejected(EmptyDomain));
    }
    var body := ReadExact(io, len + 2);
    if body.Err? {
      return Err(body.error);
    }
    var buf := body.value;
    DomainSlices(all, len);
    return Ok(Domain(buf[..len], FromBe16(buf[len..len + 2])));
  }

  lemma DomainSlices(all: Bytes, len: nat)
    requires len + 4 <= |all|
    ensures var buf := all[2..][..len + 2];
            && buf[..len] == all[2..len + 2] && buf[len..len + 2] == all[len + 2..len + 4]
            && all[2..][len + 2..] == all[len + 4..]
  {
  }

  /** `Request::read`. */
  method ReadRequest(io: Reader) returns (r: Result<Request, ReadFailure>)
    requires io.Valid()
    modifies io
    ensures io.Valid()
    ensures Agrees(r, ParseRequest(old(io.Rest())), old(io.Rest()), io.Rest())
    ensures Reported(r, old(io.failures), io.failures)
  {
    ghost var all := io.Rest();
    var header := ReadExact(io, 3);
    if header.Err? {
      return Err(header.error);
    }
    if header.value[0] != VERSION {
      return Err(Rejected(BadVersion));
    }
    assert io.Rest() == all[3..];
    var address := ReadAddress(io);
    if address.Err? {
      return Err(address.error);
    }
    var cmd := header.value[1];
    assert cmd == all[1];
    ghost var size := ParseAddress(all[3..]).value.size;
    DropDrop(all, 3, size);
    if cmd == CMD_CONNECT {
      return Ok(Connect(address.value));
    } else if cmd == CMD_BIND {
      return Ok(Bind(address.value));
    } else if cmd == CMD_ASSOCIATE {
      return Ok(Associate(address.value));
    }
    return Err(Rejected(BadCommand(cmd)));
  }

  /** `UdpPacket::from_buf`: the whole rest of the datagram is its data. */
  method UdpFromBuf(datagram: Bytes) returns (r: Result<UdpPacket, Reject>)
    ensures r == ParseUdp(datagram)
  {
    var buf := new Buf(datagram);
    if |buf.data| < 3 {
      return Err(Truncated(UdpHeader));
    }
    var reserved := buf.Take(2);
    var frag := buf.GetU8();
    assert buf.data == datagram[3..];
    var address := FromBuf(buf);
    if address.Err? {
      return Err(address.error);
    }
    return Ok(UdpPacket(frag, address.value, buf.data));
  }
}
