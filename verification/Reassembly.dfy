/** Buffers that rebuild fragmented datagrams (crates/ombrac/src/reassembly.rs). */
module Reassembly {
  import opened Base
  import opened Protocol

  const MAX_FRAGMENT_COUNT: U16 := 256

  /** (session id, fragment id) */
  type Key = (U64, U32)

  datatype Datagram = Datagram(sessionId: U64, address: Address, data: Bytes)

  /** The value of one reassembly buffer. */
  datatype Buffer = Buffer(
    fragments: seq<Option<Bytes>>,
    receivedCount: U16,
    totalCount: U16,
    address: Option<Address>,
    sessionId: U64)

  function Fresh(sessionId: U64): Buffer {
    Buffer([], 0, 0, None, sessionId)
  }

  /** How many slots hold a fragment. */
  function Filled(fragments: seq<Option<Bytes>>): (n: nat)
    ensures n <= |fragments|
    ensures n == |fragments| <==> forall i :: 0 <= i < |fragments| ==> fragments[i].Some?
    ensures n == 0 <==> forall i :: 0 <= i < |fragments| ==> fragments[i].None?
  {
    if fragments == [] then 0
    else (if fragments[0].Some? then 1 else 0) + Filled(fragments[1..])
  }

  lemma {:induction false} FilledUpdate(fragments: seq<Option<Bytes>>, i: nat, data: Bytes)
    requires i < |fragments| && fragments[i].None?
    ensures Filled(fragments[i := Some(data)]) == Filled(fragments) + 1
  {
    if i == 0 {
      assert fragments[0 := Some(data)][1..] == fragments[1..];
    } else {
      FilledUpdate(fragments[1..], i - 1, data);
      assert fragments[i := Some(data)][1..] == fragments[1..][i - 1 := Some(data)];
    }
  }

  /** A buffer that has not emitted: the counter is the number of filled slots. */
  ghost predicate Live(b: Buffer) {
    |b.fragments| == b.totalCount <= MAX_FRAGMENT_COUNT && b.receivedCount == Filled(b.fragments)
  }

  /** A buffer that has emitted: its slots were emptied, its counter was not. */
  ghost predicate Spent(b: Buffer) {
    && |b.fragments| == b.totalCount <= MAX_FRAGMENT_COUNT
    && b.totalCount > 0 && b.address.Some?
    && b.receivedCount == b.totalCount + Filled(b.fragments)
  }

  ghost predicate WellFormed(b: Buffer) {
    Live(b) || Spent(b)
  }

  predicate AddressRefused(known: Option<Address>, offered: Option<Address>) {
    known.Some? && known != offered
  }

  /** What `add_fragment` does to a buffer, and whether the fragment was taken. */
  function Add(b: Buffer, p: UdpPacket): (Buffer, bool)
    requires WellFormed(b)
  {
    if !p.Fragmented? || p.fragmentCount == 0 || p.fragmentCount > MAX_FRAGMENT_COUNT then (b, false)
    else
      var sized := if b.totalCount == 0
                   then b.(totalCount := p.fragmentCount, fragments := seq(p.fragmentCount, _ => None))
                   else b;
      if sized.totalCount != p.fragmentCount then (sized, false)
      else if p.fragmentIndex == 0 && AddressRefused(sized.address, p.firstAddress) then (sized, false)
      else
        var addressed := if p.fragmentIndex == 0 && sized.address.None?
                         then sized.(address := p.firstAddress) else sized;
        if p.fragmentIndex < |addressed.fragments| && addressed.fragments[p.fragmentIndex].None? then
          (addressed.(fragments := addressed.fragments[p.fragmentIndex := Some(p.data)],
                      receivedCount := addressed.receivedCount + 1), true)
        else (addressed, false)
  }

  predicate IsComplete(b: Buffer) {
    b.totalCount > 0 && b.receivedCount == b.totalCount && b.address.Some?
  }

  function Payloads(fragments: seq<Option<Bytes>>): seq<Bytes>
    requires forall i :: 0 <= i < |fragments| ==> fragments[i].Some?
  {
    seq(|fragments|, i requires 0 <= i < |fragments| => fragments[i].value)
  }

  lemma JoinOne(fragments: seq<Option<Bytes>>, i: nat)
    requires i < |fragments| && forall j :: 0 <= j <= i ==> fragments[j].Some?
    ensures Concat(Payloads(fragments[..i + 1])) == Concat(Payloads(fragments[..i])) + fragments[i].value
  {
    assert Payloads(fragments[..i + 1]) == Payloads(fragments[..i]) + [fragments[i].value];
    ConcatSnoc(Payloads(fragments[..i]), fragments[i].value);
  }

  /** What `assemble_and_take` does to a buffer, and what it returns. */
  function Assemble(b: Buffer): (Buffer, Option<Datagram>)
    requires WellFormed(b)
  {
    if IsComplete(b) && (forall i :: 0 <= i < |b.fragments| ==> b.fragments[i].Some?) then
      (b.(fragments := seq(|b.fragments|, _ => None)),
       Some(Datagram(b.sessionId, b.address.value, Concat(Payloads(b.fragments)))))
    else (b, None)
  }

  /** One call of `process` on the cached buffers. */
  function Process(cache: map<Key, Buffer>, p: UdpPacket): (map<Key, Buffer>, Option<Datagram>)
    requires forall k :: k in cache ==> WellFormed(cache[k])
  {
    match p
    case Unfragmented(sessionId, address, data) => (cache, Some(Datagram(sessionId, address, data)))
    case Fragmented(sessionId, fragmentId, _, _, _, _) =>
      var key := (sessionId, fragmentId);
      var (added, ok) := Add(if key in cache then cache[key] else Fresh(sessionId), p);
      if ok && IsComplete(added) then
        AddKeepsWellFormed(if key in cache then cache[key] else Fresh(sessionId), p);
        (cache - {key}, Assemble(added).1)
      else (cache[key := added], None)
  }

  // --- What one step keeps ---

  /**
   * Before an emission the counter is the number of filled slots; after it, it
   * stays above the fragment count, so that no buffer ever emits twice. Either
   * way it is at most 512 and the 16-bit increment cannot overflow.
   */
  lemma AddKeepsWellFormed(b: Buffer, p: UdpPacket)
    requires WellFormed(b)
    ensures WellFormed(Add(b, p).0) && Add(b, p).0.receivedCount <= 2 * MAX_FRAGMENT_COUNT
    ensures Live(b) ==> Live(Add(b, p).0)
    ensures Spent(b) ==> Spent(Add(b, p).0)
    ensures Spent(b) && Add(b, p).1 ==> !IsComplete(Add(b, p).0)
  {
    var none: Option<Bytes> := None;
    if p.Fragmented? && 0 < p.fragmentCount <= MAX_FRAGMENT_COUNT {
      var fragments := if b.totalCount == 0 then seq(p.fragmentCount, _ => none) else b.fragments;
      assert b.totalCount == 0 ==> Filled(fragments) == 0;
      if p.fragmentIndex < |fragments| && fragments[p.fragmentIndex].None? {
        FilledUpdate(fragments, p.fragmentIndex, p.data);
      }
    }
  }

  /** Exactly which fragments a buffer takes, and what a refusal leaves alone. */
  lemma AddAcceptsExactly(b: Buffer, p: UdpPacket)
    requires WellFormed(b)
    ensures Add(b, p).1 <==>
      && p.Fragmented? && p.fragmentIndex < p.fragmentCount <= MAX_FRAGMENT_COUNT
      && (b.totalCount == 0 ||
          (b.totalCount == p.fragmentCount && b.fragments[p.fragmentIndex].None?))
      && (p.fragmentIndex == 0 && b.address.Some? ==> p.firstAddress == b.address)
    ensures !Add(b, p).1 ==> Filled(Add(b, p).0.fragments) == Filled(b.fragments)
    ensures b.address.Some? ==> Add(b, p).0.address == b.address
    ensures b.totalCount != 0 ==> Add(b, p).0.totalCount == b.totalCount
    ensures b.totalCount != 0 ==>
      forall i :: 0 <= i < |b.fragments| && b.fragments[i].Some? ==>
        Add(b, p).0.fragments[i] == b.fragments[i]
  {
    var none: Option<Bytes> := None;
    if p.Fragmented? && 0 < p.fragmentCount <= MAX_FRAGMENT_COUNT && b.totalCount == 0 {
      assert Filled(seq(p.fragmentCount, _ => none)) == 0;
    }
  }

  /** A live complete buffer hands out the fragments in index order and becomes spent. */
  lemma CompleteEmitsInOrder(b: Buffer)
    requires Live(b) && IsComplete(b)
    ensures Assemble(b).1.Some? && Spent(Assemble(b).0)
    ensures forall i :: 0 <= i < |b.fragments| ==> b.fragments[i].Some?
    ensures Assemble(b).1.value == Datagram(b.sessionId, b.address.value, Concat(Payloads(b.fragments)))
  {
    var none: Option<Bytes> := None;
    assert Filled(seq(|b.fragments|, _ => none)) == 0;
  }

  /**
   * A live buffer whose slots are all filled refuses every later fragment. One
   * that filled up before an address arrived therefore never emits, even though
   * a later first fragment still stores its address.
   */
  lemma FullBufferTakesNothing(b: Buffer, p: UdpPacket)
    requires Live(b) && b.totalCount > 0 && Filled(b.fragments) == b.totalCount
    ensures !Add(b, p).1
    ensures Live(Add(b, p).0) && Add(b, p).0.fragments == b.fragments
  {
    AddKeepsWellFormed(b, p);
  }

  lemma StalledBufferExists(address: Address, data: Bytes)
    ensures var head := Fragmented(1, 7, 0, 1, None, data);
            var retry := Fragmented(1, 7, 0, 1, Some(address), data);
            var b := Add(Fresh(1), head).0;
            && WellFormed(b) && Add(Fresh(1), head).1 && !IsComplete(b)
            && !Add(b, retry).1 && IsComplete(Add(b, retry).0)
  {
    AddKeepsWellFormed(Fresh(1), Fragmented(1, 7, 0, 1, None, data));
  }

  /** `process` as the steps of the source: look up or create, add, then maybe emit and forget. */
  lemma ProcessInSteps(cache: map<Key, Buffer>, p: UdpPacket, looked: map<Key, Buffer>, added: map<Key, Buffer>)
    requires p.Fragmented? && forall k :: k in cache ==> WellFormed(cache[k])
    requires var key := (p.sessionId, p.fragmentId);
             && looked == (if key in cache then cache else cache[key := Fresh(p.sessionId)])
             && added == looked[key := Add(looked[key], p).0]
    ensures var key := (p.sessionId, p.fragmentId);
            && WellFormed(added[key])
            && Process(cache, p) ==
               if Add(looked[key], p).1 && IsComplete(added[key])
               then (added - {key}, Assemble(added[key]).1) else (added, None)
  {
    var key := (p.sessionId, p.fragmentId);
    AddKeepsWellFormed(looked[key], p);
    assert added - {key} == cache - {key};
    assert added == cache[key := added[key]];
  }

  lemma OnlyOneChanged(before: map<Key, Buffer>, after: map<Key, Buffer>, key: Key, value: Buffer)
    requires after.Keys == before.Keys && key in after && after[key] == value
    requires forall k :: k in after && k != key ==> after[k] == before[k]
    ensures after == before[key := value]
  {
  }

  lemma AddedIsWellFormed(b: Buffer, p: UdpPacket)
    requires WellFormed(b)
    ensures WellFormed(Add(b, p).0) && Add(b, p).0.receivedCount <= 2 * MAX_FRAGMENT_COUNT
  {
    AddKeepsWellFormed(b, p);
  }

  // --- The buffer object ---

  class ReassemblyBuffer {
    var fragments: seq<Option<Bytes>>
    var receivedCount: U16
    var totalCount: U16
    var address: Option<Address>
    const sessionId: U64

    function Value(): Buffer
      reads this
    {
      Buffer(fragments, receivedCount, totalCount, address, sessionId)
    }

    ghost predicate Valid()
      reads this
    {
      WellFormed(Value())
    }

    constructor (sessionId: U64)
      ensures Valid() && Value() == Fresh(sessionId)
    {
      this.fragments := [];
      this.receivedCount := 0;
      this.totalCount := 0;
      this.address := None;
      this.sessionId := sessionId;
    }

    method AddFragment(p: UdpPacket) returns (added: bool)
      requires Valid()
      modifies this
      ensures Valid()
      ensures (Value(), added) == Add(old(Value()), p)
    {
      AddedIsWellFormed(Value(), p);
      if !p.Fragmented? {
        return false;
      }
      if p.fragmentCount == 0 || p.fragmentCount > MAX_FRAGMENT_COUNT {
        return false;
      }
      if totalCount == 0 {
        totalCount := p.fragmentCount;
        fragments := seq(p.fragmentCount, _ => None);
      } else if totalCount != p.fragmentCount {
        return false;
      }
      if p.fragmentIndex == 0 {
        match address {
          case None =>
            address := p.firstAddress;
          case Some(existing) =>
            if p.firstAddress.None? || p.firstAddress.value != existing {
              return false;
            }
        }
      }
      if p.fragmentIndex < |fragments| && fragments[p.fragmentIndex].None? {
        fragments := fragments[p.fragmentIndex := Some(p.data)];
        receivedCount := receivedCount + 1;
        return true;
      }
      return false;
    }

    method AssembleAndTake() returns (assembled: Option<Datagram>)
      requires Valid()
      modifies this
      ensures Valid()
      ensures (Value(), assembled) == Assemble(old(Value()))
    {
      if !IsComplete(Value()) {
        return None;
      }
      ghost var before := Value();
      var combined: Bytes := [];
      var i := 0;
      while i < |fragments|
        invariant 0 <= i <= |fragments| == |before.fragments|
        invariant Value() == before.(fragments := fragments)
        invariant forall j :: 0 <= j < i ==> fragments[j].None? && before.fragments[j].Some?
        invariant forall j :: i <= j < |fragments| ==> fragments[j] == before.fragments[j]
        invariant combined == Concat(Payloads(before.fragments[..i]))
      {
        match fragments[i] {
          case Some(data) =>
            JoinOne(before.fragments, i);
            combined := combined + data;
            fragments := fragments[i := None];
          case None =>
            // A complete well-formed buffer has all its slots or none.
            assert i == 0 && fragments == before.fragments;
            return None;
        }
        i := i + 1;
      }
      assert before.fragments[..i] == before.fragments;
      assert fragments == Assemble(before).0.fragments;
      CompleteEmitsInOrder(before);
      return Some(Datagram(sessionId, address.value, combined));
    }
  }

  class UdpReassembler {
    var cache: map<Key, ReassemblyBuffer>

    ghost predicate Valid()
      reads this, cache.Values
    {
      && (forall k :: k in cache ==> cache[k].Valid())
      && (forall j, k :: j in cache && k in cache && j != k ==> cache[j] != cache[k])
    }

    ghost function Contents(): map<Key, Buffer>
      reads this, cache.Values
    {
      map k | k in cache :: cache[k].Value()
    }

    constructor ()
      ensures Valid() && Contents() == map[]
    {
      cache := map[];
    }

    /** The buffer cached for `key`, created when there is none. */
    method GetWith(key: Key) returns (buffer: ReassemblyBuffer)
      requires Valid()
      modifies this
      ensures Valid() && key in cache && cache[key] == buffer
      ensures fresh(cache.Values - old(cache.Values))
      ensures key in old(cache) ==> cache == old(cache)
      ensures Contents() == if key in old(cache) then old(Contents()) else old(Contents())[key := Fresh(key.0)]
    {
      if key !in cache {
        var created := new ReassemblyBuffer(key.0);
        cache := cache[key := created];
      }
      buffer := cache[key];
    }

    /** Runs under the lock of one cached buffer; only that buffer changes. */
    method AddTo(key: Key, p: UdpPacket) returns (added: bool)
      requires Valid() && key in cache
      modifies cache[key]
      ensures Valid()
      ensures added == Add(old(Contents())[key], p).1
      ensures Contents() == old(Contents())[key := Add(old(Contents())[key], p).0]
    {
      ghost var before, b := Contents(), cache[key].Value();
      added := cache[key].AddFragment(p);
      OnlyOneChanged(before, Contents(), key, Add(b, p).0);
    }

    /** Emits and forgets the buffer when the fragment just taken completed it. */
    method Settle(key: Key, added: bool) returns (result: Option<Datagram>)
      requires Valid() && key in cache
      modifies this, cache[key]
      ensures Valid() && cache.Values <= old(cache.Values)
      ensures var b := old(Contents())[key];
              if added && IsComplete(b)
              then result == Assemble(b).1 && Contents() == old(Contents()) - {key}
              else result == None && Contents() == old(Contents())
    {
      if !added || !IsComplete(cache[key].Value()) {
        return None;
      }
      result := cache[key].AssembleAndTake();
      cache := cache - {key};
    }

    /** One caller at a time; see the interleaved model for callers that overlap. */
    method ProcessPacket(p: UdpPacket) returns (result: Option<Datagram>)
      requires Valid()
      modifies this, cache.Values
      ensures Valid() && fresh(cache.Values - old(cache.Values))
      ensures (Contents(), result) == Process(old(Contents()), p)
      ensures p.Unfragmented? ==>
        result == Some(Datagram(p.sessionId, p.address, p.data)) && Contents() == old(Contents())
    {
      match p {
        case Unfragmented(sessionId, address, data) =>
          return Some(Datagram(sessionId, address, data));
        case Fragmented(sessionId, fragmentId, _, _, _, _) =>
          var key := (sessionId, fragmentId);
          ghost var before := Contents();
          var _ := GetWith(key);
          ghost var looked := Contents();
          var added := AddTo(key, p);
          ProcessInSteps(before, p, looked, Contents());
          result := Settle(key, added);
      }
    }

    /** Expiry or capacity pressure drops an entry at any time. */
    method Evict(key: Key)
      requires Valid()
      modifies this
      ensures Valid() && Contents() == old(Contents()) - {key}
    {
      cache := cache - {key};
    }
  }
}
