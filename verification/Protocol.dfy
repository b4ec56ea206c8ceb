/** UDP packets of the tunnel and the fragmenter (crates/ombrac/src/protocol.rs). */
module Protocol {
  import opened Base

  datatype Address =
    | SocketV4(v4: Ipv4, port: U16)
    | SocketV6(v6: Ipv6, port: U16, flowinfo: U32, scopeId: U32)
    | Domain(name: Bytes, port: U16)

  datatype UdpPacket =
    | Unfragmented(sessionId: U64, address: Address, data: Bytes)
    | Fragmented(sessionId: U64, fragmentId: U32, fragmentIndex: U16, fragmentCount: U16,
                 firstAddress: Option<Address>, data: Bytes)

  /** Consecutive slices of `size` bytes; only the last one may be shorter. */
  function Chunks(data: Bytes, size: nat): seq<Bytes>
    requires size >= 1
  {
    if data == [] then []
    else if |data| <= size then [data]
    else [data[..size]] + Chunks(data[size..], size)
  }

  lemma {:induction false} ChunksJoin(data: Bytes, size: nat)
    requires size >= 1
    ensures Concat(Chunks(data, size)) == data
  {
    if |data| > size {
      var head, rest := data[..size], Chunks(data[size..], size);
      ChunksJoin(data[size..], size);
      ConcatCons(head, rest);
      assert data == head + data[size..];
    } else if data != [] {
      assert Concat([data]) == data + Concat<Byte>([]);
    }
  }

  lemma {:induction false} ChunksSize(data: Bytes, size: nat)
    requires size >= 1
    ensures forall i :: 0 <= i < |Chunks(data, size)| ==> 1 <= |Chunks(data, size)[i]| <= size
    ensures (|Chunks(data, size)| - 1) * size < |data| || data == []
    ensures |data| <= |Chunks(data, size)| * size
  {
    if |data| > size {
      var rest := Chunks(data[size..], size);
      ChunksSize(data[size..], size);
      assert |Chunks(data, size)| == |rest| + 1;
      assert |rest| * size == (|rest| - 1) * size + size;
      assert (|rest| + 1) * size == |rest| * size + size;
    }
  }

  /**
   * The fragments of one datagram. The fragment count and every index are
   * truncated to 16 bits; a count that truncates to zero is the failing
   * assertion of the source and is modelled by None.
   */
  function SplitPacket(sessionId: U64, address: Address, data: Bytes, maxPayload: nat, fragmentId: U32)
    : Option<seq<UdpPacket>>
    requires maxPayload >= 1
  {
    var chunks := Chunks(data, maxPayload);
    var count: U16 := |chunks| % 0x1_0000;
    if count == 0 then None
    else Some(seq(|chunks|, i requires 0 <= i < |chunks| =>
      Fragmented(sessionId, fragmentId, i % 0x1_0000, count,
                 if i % 0x1_0000 == 0 then Some(address) else None, chunks[i])))
  }

  lemma SplitShape(sessionId: U64, address: Address, data: Bytes, maxPayload: nat, fragmentId: U32,
                   parts: seq<UdpPacket>)
    requires maxPayload >= 1 && SplitPacket(sessionId, address, data, maxPayload, fragmentId) == Some(parts)
    ensures |parts| == |Chunks(data, maxPayload)| > 0
    ensures forall i :: 0 <= i < |parts| ==>
      parts[i] == Fragmented(sessionId, fragmentId, i % 0x1_0000, |parts| % 0x1_0000,
                             if i % 0x1_0000 == 0 then Some(address) else None, Chunks(data, maxPayload)[i])
  {
  }

  /** Each chunk is its slice of the data, which begins at `at`. */
  lemma {:induction false} ChunkAt(data: Bytes, size: nat, i: nat, at: int)
    requires size >= 1 && i < |Chunks(data, size)| && at == i * size
    ensures 0 <= at < |data| && Chunks(data, size)[i] == data[at..Min(at + size, |data|)]
  {
    if |data| > size && i > 0 {
      MulStep(i - 1, size);
      ChunkAt(data[size..], size, i - 1, at - size);
      LaterChunk(data, size, i, at);
    } else {
      MulNone(size);
    }
  }

  lemma MulNone(size: nat)
    ensures 0 * size == 0
  {
  }

  lemma LaterChunk(data: Bytes, size: nat, i: nat, at: int)
    requires 1 <= size < |data| && 0 < i < |Chunks(data, size)| && size <= at < |data|
    requires Chunks(data[size..], size)[i - 1] == data[size..][at - size..Min(at, |data| - size)]
    ensures Chunks(data, size)[i] == data[at..Min(at + size, |data|)]
  {
    SliceOfDrop(data, size, at - size, Min(at, |data| - size));
  }

  lemma MulStep(i: nat, size: nat)
    ensures (i + 1) * size == i * size + size
  {
  }

  lemma SliceOfDrop(data: Bytes, drop: nat, from: nat, upto: nat)
    requires drop <= |data| && from <= upto <= |data| - drop
    ensures data[drop..][from..upto] == data[drop + from..drop + upto]
  {
  }

  /** As many pieces of `size` as it takes for `n` bytes. */
  predicate PieceCount(count: nat, n: nat, size: nat) {
    if n == 0 then count == 0 else (count - 1) * size < n <= count * size
  }

  /**
   * Splitting fails exactly when the number of fragments is a multiple of 65536, as
   * it is for no data; else there are as many fragments as it takes, each with its
   * slice of the data.
   */
  lemma SplitsExactly(sessionId: U64, address: Address, data: Bytes, maxPayload: nat, fragmentId: U32)
      returns (count: nat)
    requires maxPayload >= 1
    ensures PieceCount(count, |data|, maxPayload)
    ensures SplitPacket(sessionId, address, data, maxPayload, fragmentId).None? <==> count % 65536 == 0
    ensures SplitPacket(sessionId, address, data, maxPayload, fragmentId).Some? ==>
      var parts := SplitPacket(sessionId, address, data, maxPayload, fragmentId).value;
      && |parts| == count
      && forall i :: 0 <= i < count ==>
           && i * maxPayload < |data|
           && parts[i].data == data[i * maxPayload..Min(i * maxPayload + maxPayload, |data|)]
  {
    var chunks := Chunks(data, maxPayload);
    count := |chunks|;
    ChunksSize(data, maxPayload);
    forall i | 0 <= i < count
      ensures i * maxPayload < |data| && chunks[i] == data[i * maxPayload..Min(i * maxPayload + maxPayload, |data|)]
    {
      ChunkAt(data, maxPayload, i, i * maxPayload);
    }
  }
}
