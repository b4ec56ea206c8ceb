/** Splitting a datagram and feeding its fragments back in any order. */
module ReassemblyRoundTrip {
  import opened Base
  import opened Protocol
  import opened Reassembly

  /** Cached buffers have not emitted and carry the session of their key. */
  ghost predicate CacheOk(cache: map<Key, Buffer>) {
    forall k :: k in cache ==> Live(cache[k]) && cache[k].sessionId == k.0
  }

  predicate OfKey(p: UdpPacket, key: Key) {
    p.Fragmented? && (p.sessionId, p.fragmentId) == key
  }

  /** The buffer a fragment of `key` meets. */
  function Current(cache: map<Key, Buffer>, key: Key): Buffer {
    if key in cache then cache[key] else Fresh(key.0)
  }

  lemma ProcessOfKey(cache: map<Key, Buffer>, key: Key, p: UdpPacket)
    requires CacheOk(cache) && OfKey(p, key)
    ensures Live(Current(cache, key)) && Live(Add(Current(cache, key), p).0)
    ensures Add(Current(cache, key), p).0.sessionId == key.0
    ensures var (b, ok) := Add(Current(cache, key), p);
            Process(cache, p) ==
            if ok && IsComplete(b) then (cache - {key}, Assemble(b).1) else (cache[key := b], None)
  {
    AddKeepsWellFormed(Current(cache, key), p);
  }

  lemma ProcessKeepsCacheOk(cache: map<Key, Buffer>, p: UdpPacket)
    requires CacheOk(cache)
    ensures CacheOk(Process(cache, p).0)
    ensures forall k :: !OfKey(p, k) ==>
      (k in Process(cache, p).0 <==> k in cache) && (k in cache ==> Process(cache, p).0[k] == cache[k])
  {
    if p.Fragmented? {
      ProcessOfKey(cache, (p.sessionId, p.fragmentId), p);
    }
  }

  /** The cache and the results after processing `packets` one after the other. */
  ghost function Run(cache: map<Key, Buffer>, packets: seq<UdpPacket>): (r: (map<Key, Buffer>, seq<Option<Datagram>>))
    requires CacheOk(cache)
    ensures CacheOk(r.0) && |r.1| == |packets|
  {
    if packets == [] then (cache, [])
    else
      var before := Run(cache, packets[..|packets| - 1]);
      var last := packets[|packets| - 1];
      ProcessKeepsCacheOk(before.0, last);
      (Process(before.0, last).0, before.1 + [Process(before.0, last).1])
  }

  lemma {:induction false} RunPrefix(cache: map<Key, Buffer>, packets: seq<UdpPacket>, i: nat)
    requires CacheOk(cache) && i < |packets|
    ensures Run(cache, packets).1[i] == Process(Run(cache, packets[..i]).0, packets[i]).1
  {
    if i < |packets| - 1 {
      RunPrefix(cache, packets[..|packets| - 1], i);
      assert packets[..|packets| - 1][..i] == packets[..i];
    }
  }

  predicate Covers(indices: set<int>, n: nat) {
    forall i :: 0 <= i < n ==> i in indices
  }

  /** The distinct indices of `key` delivered since its last complete set. */
  ghost function Seen(packets: seq<UdpPacket>, key: Key, n: nat): set<int> {
    if packets == [] then {}
    else
      var before := Seen(packets[..|packets| - 1], key, n);
      var last := packets[|packets| - 1];
      if !OfKey(last, key) then before
      else if Covers(before + {last.fragmentIndex}, n) then {}
      else before + {last.fragmentIndex}
  }

  /** Every fragment carrying `key` is one of `parts`. */
  ghost predicate Honest(packets: seq<UdpPacket>, key: Key, parts: seq<UdpPacket>) {
    forall p :: p in packets && OfKey(p, key) ==> p in parts
  }

  function DataOf(parts: seq<UdpPacket>): seq<Bytes> {
    seq(|parts|, i requires 0 <= i < |parts| => parts[i].data)
  }

  /** The parts of `data`, when their number is within the receiver's limit. */
  ghost predicate AreParts(parts: seq<UdpPacket>, key: Key, address: Address, data: Bytes) {
    && 1 <= |parts| <= MAX_FRAGMENT_COUNT
    && (forall i :: 0 <= i < |parts| ==>
          parts[i] == Fragmented(key.0, key.1, i, |parts|, if i == 0 then Some(address) else None, parts[i].data))
    && Concat(DataOf(parts)) == data
  }

  lemma SplitGivesParts(key: Key, address: Address, data: Bytes, maxPayload: nat, parts: seq<UdpPacket>)
    requires maxPayload >= 1 && SplitPacket(key.0, address, data, maxPayload, key.1) == Some(parts)
    requires |parts| <= MAX_FRAGMENT_COUNT
    ensures AreParts(parts, key, address, data)
  {
    PartsAreNumbered(key, address, data, maxPayload, parts);
    ChunksJoin(data, maxPayload);
    DataOfIs(parts, Chunks(data, maxPayload));
  }

  lemma PartsAreNumbered(key: Key, address: Address, data: Bytes, maxPayload: nat, parts: seq<UdpPacket>)
    requires maxPayload >= 1 && SplitPacket(key.0, address, data, maxPayload, key.1) == Some(parts)
    requires |parts| <= MAX_FRAGMENT_COUNT
    ensures |parts| == |Chunks(data, maxPayload)| > 0
    ensures forall i :: 0 <= i < |parts| ==>
      parts[i] == Fragmented(key.0, key.1, i, |parts|, if i == 0 then Some(address) else None,
                             Chunks(data, maxPayload)[i])
  {
    SplitShape(key.0, address, data, maxPayload, key.1, parts);
  }

  lemma DataOfIs(parts: seq<UdpPacket>, chunks: seq<Bytes>)
    requires |parts| == |chunks| && forall i :: 0 <= i < |parts| ==> parts[i].data == chunks[i]
    ensures DataOf(parts) == chunks
  {
  }

  /** The buffer holds exactly the parts with an index in `seen`. */
  ghost predicate Holds(b: Buffer, address: Address, parts: seq<UdpPacket>, seen: set<int>) {
    && Live(b)
    && |b.fragments| == |parts| == b.totalCount
    && b.address == (if 0 in seen then Some(address) else None)
    && (forall j :: 0 <= j < |parts| ==>
          b.fragments[j] == if j in seen then Some(parts[j].data) else None)
  }

  ghost predicate Tracks(cache: map<Key, Buffer>, key: Key, address: Address, parts: seq<UdpPacket>, seen: set<int>) {
    if seen == {} then key !in cache else key in cache && Holds(cache[key], address, parts, seen)
  }

  lemma AddPart(b: Buffer, key: Key, address: Address, data: Bytes, parts: seq<UdpPacket>,
                seen: set<int>, i: nat)
    requires AreParts(parts, key, address, data) && i < |parts|
    requires Holds(b, address, parts, seen) || (b == Fresh(key.0) && seen == {})
    ensures Add(b, parts[i]).1 <==> i !in seen
    ensures Holds(Add(b, parts[i]).0, address, parts, seen + {i})
  {
    AddKeepsWellFormed(b, parts[i]);
  }

  lemma HeldCompleteness(b: Buffer, key: Key, address: Address, data: Bytes, parts: seq<UdpPacket>, seen: set<int>)
    requires AreParts(parts, key, address, data) && Holds(b, address, parts, seen)
    ensures IsComplete(b) <==> Covers(seen, |parts|)
    ensures Covers(seen, |parts|) && b.sessionId == key.0 ==>
      Assemble(b).1 == Some(Datagram(key.0, address, data))
  {
    if Covers(seen, |parts|) {
      assert Payloads(b.fragments) == DataOf(parts);
    } else {
      var missing :| 0 <= missing < |parts| && missing !in seen;
      assert b.fragments[missing].None?;
    }
  }

  /** One fragment of an honest key: the buffer gains its index, or completes and emits. */
  lemma HonestStep(cache: map<Key, Buffer>, key: Key, address: Address, data: Bytes, parts: seq<UdpPacket>,
                   seen: set<int>, p: UdpPacket)
    requires CacheOk(cache) && AreParts(parts, key, address, data)
    requires Tracks(cache, key, address, parts, seen) && !Covers(seen, |parts|)
    requires OfKey(p, key) && p in parts
    ensures var grown := seen + {p.fragmentIndex};
            var (after, out) := Process(cache, p);
            if Covers(grown, |parts|)
            then key !in after && out == Some(Datagram(key.0, address, data))
            else Tracks(after, key, address, parts, grown) && out == None
  {
    var i := p.fragmentIndex;
    assert p == parts[i];
    ProcessOfKey(cache, key, p);
    AddPart(Current(cache, key), key, address, data, parts, seen, i);
    HeldCompleteness(Add(Current(cache, key), p).0, key, address, data, parts, seen + {i});
    if i in seen {
      assert seen + {i} == seen;
    }
  }

  lemma NothingCoversNothing(n: nat)
    requires n >= 1
    ensures !Covers({}, n)
  {
    var none: set<int> := {};
    assert 0 !in none;
  }

  lemma {:induction false} SeenIsPartial(packets: seq<UdpPacket>, key: Key, n: nat)
    requires n >= 1
    ensures !Covers(Seen(packets, key, n), n)
  {
    NothingCoversNothing(n);
    if packets != [] {
      SeenIsPartial(packets[..|packets| - 1], key, n);
    }
  }

  lemma {:induction false} RunTracks(cache: map<Key, Buffer>, packets: seq<UdpPacket>, key: Key, address: Address,
                                     data: Bytes, parts: seq<UdpPacket>)
    requires CacheOk(cache) && key !in cache
    requires AreParts(parts, key, address, data) && Honest(packets, key, parts)
    ensures Tracks(Run(cache, packets).0, key, address, parts, Seen(packets, key, |parts|))
  {
    if packets != [] {
      var init := packets[..|packets| - 1];
      var last := packets[|packets| - 1];
      RunTracks(cache, init, key, address, data, parts);
      SeenIsPartial(init, key, |parts|);
      if OfKey(last, key) {
        HonestStep(Run(cache, init).0, key, address, data, parts, Seen(init, key, |parts|), last);
      } else {
        ProcessKeepsCacheOk(Run(cache, init).0, last);
      }
    }
  }

  lemma PartsReassemble(cache: map<Key, Buffer>, packets: seq<UdpPacket>, key: Key, address: Address,
                        data: Bytes, parts: seq<UdpPacket>, i: nat)
    requires CacheOk(cache) && key !in cache
    requires AreParts(parts, key, address, data) && Honest(packets, key, parts)
    requires i < |packets| && OfKey(packets[i], key)
    ensures Run(cache, packets).1[i] ==
            if Covers(Seen(packets[..i], key, |parts|) + {packets[i].fragmentIndex}, |parts|)
            then Some(Datagram(key.0, address, data)) else None
  {
    RunPrefix(cache, packets, i);
    RunTracks(cache, packets[..i], key, address, data, parts);
    SeenIsPartial(packets[..i], key, |parts|);
    HonestStep(Run(cache, packets[..i]).0, key, address, data, parts, Seen(packets[..i], key, |parts|), packets[i]);
  }

  /**
   * Whatever the order, the duplicates and the traffic of other keys, a call
   * returns the original datagram exactly when its fragment completes the set
   * of indices delivered since the last completion, and nothing otherwise.
   */
  lemma ReassemblesExactly(cache: map<Key, Buffer>, packets: seq<UdpPacket>, key: Key, address: Address,
                           data: Bytes, maxPayload: nat, parts: seq<UdpPacket>, i: nat)
    requires CacheOk(cache) && key !in cache && maxPayload >= 1
    requires SplitPacket(key.0, address, data, maxPayload, key.1) == Some(parts)
    requires |parts| <= MAX_FRAGMENT_COUNT && Honest(packets, key, parts)
    requires i < |packets| && OfKey(packets[i], key)
    ensures Run(cache, packets).1[i] ==
            if Covers(Seen(packets[..i], key, |parts|) + {packets[i].fragmentIndex}, |parts|)
            then Some(Datagram(key.0, address, data)) else None
  {
    SplitGivesParts(key, address, data, maxPayload, parts);
    PartsReassemble(cache, packets, key, address, data, parts, i);
  }

  predicate WasDelivered(packets: seq<UdpPacket>, key: Key, index: int) {
    exists m :: 0 <= m < |packets| && OfKey(packets[m], key) && packets[m].fragmentIndex == index
  }

  /** Every one of the `n` indices was delivered at least once. */
  predicate AllDelivered(packets: seq<UdpPacket>, key: Key, n: nat) {
    forall index :: 0 <= index < n ==> WasDelivered(packets, key, index)
  }

  /** Until every index has arrived, nothing was emitted and nothing forgotten. */
  lemma {:induction false} SeenIsDelivered(packets: seq<UdpPacket>, key: Key, n: nat)
    requires !AllDelivered(packets, key, n)
    ensures forall index :: index in Seen(packets, key, n) <==> WasDelivered(packets, key, index)
  {
    if packets != [] {
      var init := packets[..|packets| - 1];
      var last := packets[|packets| - 1];
      var missing :| 0 <= missing < n && !WasDelivered(packets, key, missing);
      forall index
        ensures WasDelivered(packets, key, index) <==>
          WasDelivered(init, key, index) || (OfKey(last, key) && last.fragmentIndex == index)
      {
        WasDeliveredSnoc(init, last, key, index);
        assert packets == init + [last];
      }
      assert !WasDelivered(init, key, missing);
      SeenIsDelivered(init, key, n);
      if OfKey(last, key) {
        assert missing !in Seen(init, key, n) + {last.fragmentIndex};
        assert Seen(packets, key, n) == Seen(init, key, n) + {last.fragmentIndex};
      }
    }
  }

  lemma WasDeliveredSnoc(init: seq<UdpPacket>, last: UdpPacket, key: Key, index: int)
    ensures WasDelivered(init + [last], key, index) <==>
      WasDelivered(init, key, index) || (OfKey(last, key) && last.fragmentIndex == index)
  {
    var all := init + [last];
    if WasDelivered(init, key, index) {
      var m :| 0 <= m < |init| && OfKey(init[m], key) && init[m].fragmentIndex == index;
      assert all[m] == init[m];
    }
    assert all[|init|] == last;
  }

  lemma PartialBefore(packets: seq<UdpPacket>, key: Key, n: nat, j: nat, i: nat)
    requires j <= i <= |packets| && !AllDelivered(packets[..i], key, n)
    ensures !AllDelivered(packets[..j], key, n)
  {
    var missing :| 0 <= missing < n && !WasDelivered(packets[..i], key, missing);
    forall m | 0 <= m < j
      ensures packets[..j][m] == packets[..i][m]
    {}
    assert !WasDelivered(packets[..j], key, missing);
  }

  lemma DeliveredCovers(packets: seq<UdpPacket>, key: Key, n: nat, i: nat)
    requires i < |packets| && OfKey(packets[i], key) && !AllDelivered(packets[..i], key, n)
    ensures AllDelivered(packets[..i + 1], key, n) <==>
      Covers(Seen(packets[..i], key, n) + {packets[i].fragmentIndex}, n)
  {
    SeenIsDelivered(packets[..i], key, n);
    var grown := Seen(packets[..i], key, n) + {packets[i].fragmentIndex};
    var upto := packets[..i] + [packets[i]];
    assert packets[..i + 1] == upto;
    forall index: int
      ensures WasDelivered(upto, key, index) <==> index in grown
    {
      WasDeliveredSnoc(packets[..i], packets[i], key, index);
    }
  }

  lemma EmitsIffAllDelivered(cache: map<Key, Buffer>, packets: seq<UdpPacket>, key: Key, address: Address,
                             data: Bytes, parts: seq<UdpPacket>, i: nat)
    requires CacheOk(cache) && key !in cache
    requires AreParts(parts, key, address, data) && Honest(packets, key, parts)
    requires i < |packets| && OfKey(packets[i], key) && !AllDelivered(packets[..i], key, |parts|)
    ensures Run(cache, packets).1[i] ==
            if AllDelivered(packets[..i + 1], key, |parts|) then Some(Datagram(key.0, address, data)) else None
  {
    PartsReassemble(cache, packets, key, address, data, parts, i);
    DeliveredCovers(packets, key, |parts|, i);
  }

  /**
   * The first emission is the delivery of the last missing index: the call that
   * makes the delivered indices complete returns the original, and no earlier
   * call of that key returned anything.
   */
  lemma EmitsOnLastMissingIndex(cache: map<Key, Buffer>, packets: seq<UdpPacket>, key: Key, address: Address,
                                data: Bytes, maxPayload: nat, parts: seq<UdpPacket>, i: nat)
    requires CacheOk(cache) && key !in cache && maxPayload >= 1
    requires SplitPacket(key.0, address, data, maxPayload, key.1) == Some(parts)
    requires |parts| <= MAX_FRAGMENT_COUNT && Honest(packets, key, parts)
    requires i < |packets| && OfKey(packets[i], key) && !AllDelivered(packets[..i], key, |parts|)
    ensures Run(cache, packets).1[i] ==
            if AllDelivered(packets[..i + 1], key, |parts|) then Some(Datagram(key.0, address, data)) else None
    ensures forall j :: 0 <= j < i && OfKey(packets[j], key) ==> Run(cache, packets).1[j] == None
  {
    SplitGivesParts(key, address, data, maxPayload, parts);
    EmitsIffAllDelivered(cache, packets, key, address, data, parts, i);
    forall j | 0 <= j < i && OfKey(packets[j], key)
      ensures Run(cache, packets).1[j] == None
    {
      PartialBefore(packets, key, |parts|, j, i);
      PartialBefore(packets, key, |parts|, j + 1, i);
      EmitsIffAllDelivered(cache, packets, key, address, data, parts, j);
    }
  }

  // --- More than 256 fragments ---

  ghost predicate ShortSlots(fragments: seq<Option<Bytes>>, limit: nat) {
    forall j :: 0 <= j < |fragments| && fragments[j].Some? ==> |fragments[j].value| <= limit
  }

  lemma ShortAdd(b: Buffer, p: UdpPacket, limit: nat)
    requires Live(b) && ShortSlots(b.fragments, limit) && p.Fragmented? && |p.data| <= limit
    ensures ShortSlots(Add(b, p).0.fragments, limit)
  {
    var b' := Add(b, p).0;
    assert b'.fragments == b.fragments
        || (b.totalCount == 0 && forall j :: 0 <= j < |b'.fragments| && b'.fragments[j].Some? ==> b'.fragments[j].value == p.data)
        || (p.fragmentIndex < |b.fragments| && b'.fragments == b.fragments[p.fragmentIndex := Some(p.data)]);
  }

  lemma ShortAssemble(b: Buffer, limit: nat)
    requires Live(b) && IsComplete(b) && ShortSlots(b.fragments, limit)
    ensures Assemble(b).1.Some? && |Assemble(b).1.value.data| <= MAX_FRAGMENT_COUNT * limit
  {
    CompleteEmitsInOrder(b);
    ConcatBound(Payloads(b.fragments), limit);
    MulMonotone(|b.fragments|, MAX_FRAGMENT_COUNT, limit);
  }

  lemma ShortStep(cache: map<Key, Buffer>, key: Key, limit: nat, p: UdpPacket)
    requires CacheOk(cache) && ShortSlots(Current(cache, key).fragments, limit)
    requires OfKey(p, key) ==> |p.data| <= limit
    ensures ShortSlots(Current(Process(cache, p).0, key).fragments, limit)
    ensures OfKey(p, key) && Process(cache, p).1.Some? ==>
      |Process(cache, p).1.value.data| <= MAX_FRAGMENT_COUNT * limit
  {
    if OfKey(p, key) {
      ProcessOfKey(cache, key, p);
      ShortAdd(Current(cache, key), p, limit);
      var (b, ok) := Add(Current(cache, key), p);
      if ok && IsComplete(b) {
        ShortAssemble(b, limit);
      }
    } else {
      ProcessKeepsCacheOk(cache, p);
    }
  }

  lemma {:induction false} RunShort(cache: map<Key, Buffer>, packets: seq<UdpPacket>, key: Key, limit: nat)
    requires CacheOk(cache) && key !in cache
    requires forall p :: p in packets && OfKey(p, key) ==> |p.data| <= limit
    ensures ShortSlots(Current(Run(cache, packets).0, key).fragments, limit)
  {
    if packets != [] {
      var init := packets[..|packets| - 1];
      RunShort(cache, init, key, limit);
      ShortStep(Run(cache, init).0, key, limit, packets[|packets| - 1]);
    }
  }

  lemma EmissionBound(cache: map<Key, Buffer>, packets: seq<UdpPacket>, key: Key, limit: nat, i: nat)
    requires CacheOk(cache) && key !in cache
    requires forall p :: p in packets && OfKey(p, key) ==> |p.data| <= limit
    requires i < |packets| && OfKey(packets[i], key) && Run(cache, packets).1[i].Some?
    ensures |Run(cache, packets).1[i].value.data| <= MAX_FRAGMENT_COUNT * limit
  {
    RunPrefix(cache, packets, i);
    RunShort(cache, packets[..i], key, limit);
    ShortStep(Run(cache, packets[..i]).0, key, limit, packets[i]);
  }

  lemma LongDatagramIsLonger(key: Key, address: Address, data: Bytes, maxPayload: nat, parts: seq<UdpPacket>)
    requires maxPayload >= 1 && SplitPacket(key.0, address, data, maxPayload, key.1) == Some(parts)
    requires |parts| > MAX_FRAGMENT_COUNT
    ensures |data| > MAX_FRAGMENT_COUNT * maxPayload
    ensures forall p :: p in parts ==> |p.data| <= maxPayload
  {
    SplitShape(key.0, address, data, maxPayload, key.1, parts);
    ChunksSize(data, maxPayload);
    MulMonotone(MAX_FRAGMENT_COUNT, |parts| - 1, maxPayload);
  }

  /** A datagram that was cut into more than 256 fragments is never returned, in any delivery. */
  lemma LongDatagramNeverReturns(cache: map<Key, Buffer>, packets: seq<UdpPacket>, key: Key, address: Address,
                                 data: Bytes, maxPayload: nat, parts: seq<UdpPacket>, i: nat)
    requires CacheOk(cache) && key !in cache && maxPayload >= 1
    requires SplitPacket(key.0, address, data, maxPayload, key.1) == Some(parts)
    requires |parts| > MAX_FRAGMENT_COUNT && Honest(packets, key, parts)
    requires i < |packets| && OfKey(packets[i], key)
    ensures Run(cache, packets).1[i] != Some(Datagram(key.0, address, data))
  {
    LongDatagramIsLonger(key, address, data, maxPayload, parts);
    if Run(cache, packets).1[i].Some? {
      EmissionBound(cache, packets, key, maxPayload, i);
    }
  }

  lemma InOrderReturns(key: Key, address: Address, data: Bytes, parts: seq<UdpPacket>)
    requires AreParts(parts, key, address, data)
    ensures Run(map[], parts).1[|parts| - 1] == Some(Datagram(key.0, address, data))
  {
    var last := |parts| - 1;
    assert !WasDelivered(parts[..last], key, last);
    assert parts[..last + 1] == parts;
    forall index: int | 0 <= index < |parts|
      ensures WasDelivered(parts, key, index)
    {
      assert OfKey(parts[index], key) && parts[index].fragmentIndex == index;
    }
    EmitsIffAllDelivered(map[], parts, key, address, data, parts, last);
  }

  /** Sending the fragments in order works exactly up to the receiver's limit of 256. */
  lemma RoundTripExactly(key: Key, address: Address, data: Bytes, maxPayload: nat, parts: seq<UdpPacket>)
    requires maxPayload >= 1
    requires SplitPacket(key.0, address, data, maxPayload, key.1) == Some(parts)
    ensures (exists i :: 0 <= i < |parts| && Run(map[], parts).1[i] == Some(Datagram(key.0, address, data)))
            <==> |parts| <= 256
  {
    SplitShape(key.0, address, data, maxPayload, key.1, parts);
    if |parts| <= MAX_FRAGMENT_COUNT {
      SplitGivesParts(key, address, data, maxPayload, parts);
      InOrderReturns(key, address, data, parts);
    } else {
      forall i | 0 <= i < |parts|
        ensures Run(map[], parts).1[i] != Some(Datagram(key.0, address, data))
      {
        LongDatagramNeverReturns(map[], parts, key, address, data, maxPayload, parts, i);
      }
    }
  }
}
