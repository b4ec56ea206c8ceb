/**
 * Exactly when `process` emits, for arbitrary fragments: any counts, indices,
 * addresses and data, in any order and mixed with other keys.
 */
module ReassemblyAnyTraffic {
  import opened Base
  import opened Protocol
  import opened Reassembly
  import opened ReassemblyRoundTrip

  /**
   * What a key has gathered since its last emission: the fragment count it
   * committed to (0 for none), the indices delivered under that count, and
   * whether one of the first fragments carried an address.
   */
  datatype Gathered = Gathered(count: nat, indices: set<int>, addressed: bool)

  const Nothing := Gathered(0, {}, false)

  /** The fragment speaks for the count the key has committed to, or commits it. */
  predicate Counts(g: Gathered, p: UdpPacket)
    requires p.Fragmented?
  {
    1 <= p.fragmentCount <= MAX_FRAGMENT_COUNT && (g.count == 0 || g.count == p.fragmentCount)
  }

  function Grow(g: Gathered, p: UdpPacket): Gathered
    requires p.Fragmented?
  {
    if !Counts(g, p) then g
    else Gathered(p.fragmentCount,
                  if p.fragmentIndex < p.fragmentCount then g.indices + {p.fragmentIndex} else g.indices,
                  g.addressed || (p.fragmentIndex == 0 && p.firstAddress.Some?))
  }

  predicate Full(g: Gathered) {
    g.count > 0 && Covers(g.indices, g.count)
  }

  /** The fragment brings the last missing index, and an address is known with it. */
  predicate Emitting(g: Gathered, p: UdpPacket)
    requires p.Fragmented?
  {
    !Full(g) && Full(Grow(g, p)) && Grow(g, p).addressed
  }

  ghost function Gather(packets: seq<UdpPacket>, key: Key): Gathered {
    if packets == [] then Nothing
    else
      var before := Gather(packets[..|packets| - 1], key);
      var last := packets[|packets| - 1];
      if !OfKey(last, key) then before
      else if Emitting(before, last) then Nothing
      else Grow(before, last)
  }

  /** The buffer has filled exactly the gathered slots; an address came with the first one or after it. */
  ghost predicate Matches(b: Buffer, g: Gathered) {
    && Live(b) && b.totalCount == g.count
    && (b.address.Some? <==> g.addressed)
    && (g.addressed ==> 0 in g.indices)
    && (forall j :: 0 <= j < |b.fragments| ==> (b.fragments[j].Some? <==> j in g.indices))
    && (forall j :: j in g.indices ==> 0 <= j < g.count)
  }

  lemma AddMatches(b: Buffer, g: Gathered, p: UdpPacket)
    requires Matches(b, g) && p.Fragmented?
    ensures Matches(Add(b, p).0, Grow(g, p))
    ensures Add(b, p).1 <==> Counts(g, p) && p.fragmentIndex < p.fragmentCount && p.fragmentIndex !in g.indices
  {
    AddKeepsWellFormed(b, p);
  }

  lemma FullIsComplete(b: Buffer, g: Gathered)
    requires Matches(b, g)
    ensures IsComplete(b) <==> Full(g) && g.addressed
  {
    if b.totalCount > 0 && !Full(g) {
      var missing :| 0 <= missing < g.count && missing !in g.indices;
      assert b.fragments[missing].None?;
    }
  }

  /** A key emits on exactly the fragments that complete what it has gathered. */
  lemma AnyStep(cache: map<Key, Buffer>, key: Key, g: Gathered, p: UdpPacket)
    requires CacheOk(cache) && Matches(Current(cache, key), g) && OfKey(p, key)
    ensures Process(cache, p).1.Some? <==> Emitting(g, p)
    ensures Matches(Current(Process(cache, p).0, key), if Emitting(g, p) then Nothing else Grow(g, p))
  {
    var b := Current(cache, key);
    ProcessOfKey(cache, key, p);
    AddMatches(b, g, p);
    FullIsComplete(Add(b, p).0, Grow(g, p));
    NewIndexFills(g, p);
    if Add(b, p).1 && IsComplete(Add(b, p).0) {
      CompleteEmitsInOrder(Add(b, p).0);
    }
  }

  lemma NewIndexFills(g: Gathered, p: UdpPacket)
    requires p.Fragmented? && (forall j :: j in g.indices ==> 0 <= j < g.count)
    ensures Full(Grow(g, p)) ==>
      (!Full(g) <==> Counts(g, p) && p.fragmentIndex < p.fragmentCount && p.fragmentIndex !in g.indices)
  {
    if g.count == 0 {
      assert 0 !in g.indices && p.fragmentIndex !in g.indices;
      assert Full(Grow(g, p)) ==> 0 in Grow(g, p).indices;
    } else if !Full(g) {
      var missing :| 0 <= missing < g.count && missing !in g.indices;
      assert Full(Grow(g, p)) ==> missing in Grow(g, p).indices;
    }
  }

  lemma {:induction false} RunMatches(cache: map<Key, Buffer>, packets: seq<UdpPacket>, key: Key)
    requires CacheOk(cache) && key !in cache
    ensures Matches(Current(Run(cache, packets).0, key), Gather(packets, key))
  {
    if packets != [] {
      var init, last := packets[..|packets| - 1], packets[|packets| - 1];
      RunMatches(cache, init, key);
      if OfKey(last, key) {
        AnyStep(Run(cache, init).0, key, Gather(init, key), last);
      } else {
        ProcessKeepsCacheOk(Run(cache, init).0, last);
      }
    }
  }

  /**
   * Exactly when a call returns a datagram, for all traffic: its fragment brings
   * the last missing index of the count its key committed to, and an address has
   * come by then.
   */
  lemma EmitsExactly(cache: map<Key, Buffer>, packets: seq<UdpPacket>, key: Key, i: nat)
    requires CacheOk(cache) && key !in cache && i < |packets| && OfKey(packets[i], key)
    ensures Run(cache, packets).1[i].Some? <==> Emitting(Gather(packets[..i], key), packets[i])
  {
    RunPrefix(cache, packets, i);
    RunMatches(cache, packets[..i], key);
    AnyStep(Run(cache, packets[..i]).0, key, Gather(packets[..i], key), packets[i]);
  }

  // --- A key that fills up without an address ---

  lemma {:induction false} FullStaysFull(packets: seq<UdpPacket>, key: Key, i: nat, j: nat)
    requires i <= j <= |packets| && Full(Gather(packets[..i], key))
    ensures Full(Gather(packets[..j], key))
  {
    if i < j {
      FullStaysFull(packets, key, i, j - 1);
      assert packets[..j][..j - 1] == packets[..j - 1];
    }
  }

  /** A key that has every index but has not emitted never returns anything again, whatever arrives. */
  lemma FullNeverEmits(cache: map<Key, Buffer>, packets: seq<UdpPacket>, key: Key, i: nat, j: nat)
    requires CacheOk(cache) && key !in cache && i <= j < |packets| && OfKey(packets[j], key)
    requires Full(Gather(packets[..i], key))
    ensures Run(cache, packets).1[j] == None
  {
    FullStaysFull(packets, key, i, j);
    EmitsExactly(cache, packets, key, j);
  }

  /** Every fragment of the key carries count `n` and an index below it. */
  ghost predicate OneCount(packets: seq<UdpPacket>, key: Key, n: nat) {
    && 1 <= n <= MAX_FRAGMENT_COUNT
    && forall p :: p in packets && OfKey(p, key) ==> p.fragmentCount == n && p.fragmentIndex < n
  }

  /** Some first fragment of the key carried an address. */
  predicate AddressDelivered(packets: seq<UdpPacket>, key: Key) {
    exists m :: 0 <= m < |packets| && OfKey(packets[m], key)
                && packets[m].fragmentIndex == 0 && packets[m].firstAddress.Some?
  }

  lemma AddressDeliveredSnoc(init: seq<UdpPacket>, last: UdpPacket, key: Key)
    ensures AddressDelivered(init + [last], key) <==>
      AddressDelivered(init, key) || (OfKey(last, key) && last.fragmentIndex == 0 && last.firstAddress.Some?)
  {
    var all := init + [last];
    if AddressDelivered(init, key) {
      var m :| 0 <= m < |init| && OfKey(init[m], key) && init[m].fragmentIndex == 0 && init[m].firstAddress.Some?;
      assert all[m] == init[m];
    }
    assert all[|init|] == last;
  }

  /** What has been gathered is what has been delivered. */
  ghost predicate GatheredAll(g: Gathered, packets: seq<UdpPacket>, key: Key, n: nat) {
    && (g.count == 0 || g.count == n)
    && (forall index :: index in g.indices <==> WasDelivered(packets, key, index))
    && (g.addressed <==> AddressDelivered(packets, key))
  }

  lemma GrowGathersAll(g: Gathered, init: seq<UdpPacket>, last: UdpPacket, key: Key, n: nat)
    requires GatheredAll(g, init, key, n) && OneCount(init + [last], key, n) && OfKey(last, key)
    ensures GatheredAll(Grow(g, last), init + [last], key, n) && Grow(g, last).count == n
  {
    var all := init + [last];
    assert last == all[|init|] && last in all;
    AddressDeliveredSnoc(init, last, key);
    forall index: int
      ensures index in Grow(g, last).indices <==> WasDelivered(all, key, index)
    {
      WasDeliveredSnoc(init, last, key, index);
    }
  }

  /** Until every index has been delivered nothing is emitted, so nothing gathered is forgotten. */
  lemma {:induction false} GatherIsDelivered(packets: seq<UdpPacket>, key: Key, n: nat)
    requires OneCount(packets, key, n) && !AllDelivered(packets, key, n)
    ensures GatheredAll(Gather(packets, key), packets, key, n)
  {
    if packets != [] {
      var init, last := packets[..|packets| - 1], packets[|packets| - 1];
      assert packets == init + [last];
      var missing :| 0 <= missing < n && !WasDelivered(packets, key, missing);
      WasDeliveredSnoc(init, last, key, missing);
      assert !AllDelivered(init, key, n);
      GatherIsDelivered(init, key, n);
      var g := Gather(init, key);
      if OfKey(last, key) {
        GrowGathersAll(g, init, last, key, n);
        assert missing !in Grow(g, last).indices;
      } else {
        OtherKeyGathersAll(g, init, last, key, n);
      }
    }
  }

  lemma OtherKeyGathersAll(g: Gathered, init: seq<UdpPacket>, last: UdpPacket, key: Key, n: nat)
    requires GatheredAll(g, init, key, n) && !OfKey(last, key)
    ensures GatheredAll(g, init + [last], key, n)
  {
    AddressDeliveredSnoc(init, last, key);
    forall index: int
      ensures index in g.indices <==> WasDelivered(init + [last], key, index)
    {
      WasDeliveredSnoc(init, last, key, index);
    }
  }

  lemma GatheredUpTo(packets: seq<UdpPacket>, key: Key, n: nat, i: nat)
    requires OneCount(packets, key, n) && i < |packets| && OfKey(packets[i], key)
    requires !AllDelivered(packets[..i], key, n) && AllDelivered(packets[..i + 1], key, n)
    ensures var g := Gather(packets[..i], key);
            && !Full(g) && Full(Grow(g, packets[i]))
            && (Grow(g, packets[i]).addressed <==> AddressDelivered(packets[..i + 1], key))
  {
    var upto := packets[..i] + [packets[i]];
    assert packets[..i + 1] == upto;
    assert OneCount(packets[..i], key, n) && OneCount(upto, key, n);
    GatherIsDelivered(packets[..i], key, n);
    var missing :| 0 <= missing < n && !WasDelivered(packets[..i], key, missing);
    GrowGathersAll(Gather(packets[..i], key), packets[..i], packets[i], key, n);
  }

  /**
   * With one count, and arbitrary addresses and data, the call that completes the
   * indices returns a datagram if and only if an addressed first fragment has
   * arrived by then.
   */
  lemma CompletionEmitsIffAddressed(cache: map<Key, Buffer>, packets: seq<UdpPacket>, key: Key, n: nat, i: nat)
    requires CacheOk(cache) && key !in cache && OneCount(packets, key, n)
    requires i < |packets| && OfKey(packets[i], key)
    requires !AllDelivered(packets[..i], key, n) && AllDelivered(packets[..i + 1], key, n)
    ensures Run(cache, packets).1[i].Some? <==> AddressDelivered(packets[..i + 1], key)
  {
    EmitsExactly(cache, packets, key, i);
    GatheredUpTo(packets, key, n, i);
  }

  /** If none has arrived by then, no call of the key ever returns anything, whatever comes later. */
  lemma UnaddressedStallsForGood(cache: map<Key, Buffer>, packets: seq<UdpPacket>, key: Key, n: nat, i: nat, j: nat)
    requires CacheOk(cache) && key !in cache
    requires i < |packets| && OfKey(packets[i], key) && OneCount(packets[..i + 1], key, n)
    requires !AllDelivered(packets[..i], key, n) && AllDelivered(packets[..i + 1], key, n)
    requires !AddressDelivered(packets[..i + 1], key)
    requires j < |packets| && OfKey(packets[j], key)
    ensures Run(cache, packets).1[j] == None
  {
    var upto := packets[..i + 1];
    assert upto[..i] == packets[..i] && upto[..i + 1] == upto;
    GatheredUpTo(upto, key, n, i);
    if i < j {
      FullNeverEmits(cache, packets, key, i + 1, j);
    } else if i == j {
      EmitsExactly(cache, packets, key, i);
    } else {
      NothingBefore(cache, packets, key, n, i, j);
    }
  }

  lemma NothingBefore(cache: map<Key, Buffer>, packets: seq<UdpPacket>, key: Key, n: nat, i: nat, j: nat)
    requires CacheOk(cache) && key !in cache && i <= |packets| && OneCount(packets[..i], key, n)
    requires !AllDelivered(packets[..i], key, n) && j < i && OfKey(packets[j], key)
    ensures Run(cache, packets).1[j] == None
  {
    EmitsExactly(cache, packets, key, j);
    var before, upto := packets[..j], packets[..j] + [packets[j]];
    assert packets[..j + 1] == upto;
    forall p | p in upto
      ensures p in packets[..i]
    {
      var m :| 0 <= m < |upto| && upto[m] == p;
      assert packets[..i][m] == p;
    }
    assert OneCount(before, key, n) && OneCount(upto, key, n);
    PartialBefore(packets, key, n, j, i);
    PartialBefore(packets, key, n, j + 1, i);
    GatherIsDelivered(before, key, n);
    GrowGathersAll(Gather(before, key), before, packets[j], key, n);
    var missing :| 0 <= missing < n && !WasDelivered(upto, key, missing);
    assert missing !in Grow(Gather(before, key), packets[j]).indices;
  }

  // --- Datagrams sent whole ---

  /** An unfragmented packet yields its own datagram at once and changes what no key has gathered. */
  lemma WholePassesThrough(cache: map<Key, Buffer>, packets: seq<UdpPacket>, i: nat, key: Key)
    requires CacheOk(cache) && i < |packets| && packets[i].Unfragmented?
    ensures Run(cache, packets).1[i] == Some(Datagram(packets[i].sessionId, packets[i].address, packets[i].data))
    ensures Gather(packets[..i + 1], key) == Gather(packets[..i], key)
    ensures Run(cache, packets[..i + 1]).0 == Run(cache, packets[..i]).0
  {
    RunPrefix(cache, packets, i);
    assert packets[..i + 1][..i] == packets[..i];
  }

  /** The packets of one datagram: itself, or its fragments. */
  function Transmitted(key: Key, address: Address, data: Bytes, maxPayload: nat, whole: bool): Option<seq<UdpPacket>>
    requires maxPayload >= 1
  {
    if whole then Some([Unfragmented(key.0, address, data)])
    else SplitPacket(key.0, address, data, maxPayload, key.1)
  }

  /** A datagram arrives as it was sent if and only if it is sent whole or in at most 256 fragments. */
  lemma ArrivesAsSent(key: Key, address: Address, data: Bytes, maxPayload: nat, whole: bool, packets: seq<UdpPacket>)
    requires maxPayload >= 1 && Transmitted(key, address, data, maxPayload, whole) == Some(packets)
    ensures (exists i :: 0 <= i < |packets| && Run(map[], packets).1[i] == Some(Datagram(key.0, address, data)))
            <==> whole || |packets| <= 256
  {
    if whole {
      WholePassesThrough(map[], packets, 0, key);
    } else {
      RoundTripExactly(key, address, data, maxPayload, packets);
    }
  }
}
