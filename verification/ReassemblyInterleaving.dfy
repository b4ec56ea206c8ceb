/**
 * Overlapping calls of `UdpReassembler::process`.
 *
 * A call looks its buffer up, later runs the locked section on that buffer, and
 * after an emission removes the cache entry. Between any two of these steps
 * other calls run and the cache may drop entries, so a call can hold a buffer
 * that has already emitted or is no longer cached.
 */
module ReassemblyInterleaving {
  import opened Base
  import opened Protocol
  import opened Reassembly
  import opened ReassemblyRoundTrip

  datatype Call =
    | Arrived(packet: UdpPacket)
    | Passed(packet: UdpPacket)
    | Holding(packet: UdpPacket, buffer: nat)
    | Clearing(packet: UdpPacket, buffer: nat, result: Option<Datagram>)
    | Returned(packet: UdpPacket, buffer: nat, result: Option<Datagram>)

  /** A buffer, and which calls filled its slots and gave its address before it emitted. */
  datatype Slot = Slot(value: Buffer, key: Key, emitted: bool, fills: seq<Option<nat>>, addressFrom: Option<nat>)

  datatype State = State(buffers: seq<Slot>, cache: map<Key, nat>, calls: seq<Call>)

  datatype Action =
    | Deliver(packet: UdpPacket)
    | Lookup(call: nat)
    | Locked(call: nat)
    | Invalidate(call: nat)
    | Evict(key: Key)

  const Init := State([], map[], [])

  function KeyOf(p: UdpPacket): Key
    requires p.Fragmented?
  {
    (p.sessionId, p.fragmentId)
  }

  predicate Settled(call: Call) {
    call.Clearing? || call.Returned?
  }

  predicate Emits(call: Call) {
    Settled(call) && call.result.Some?
  }

  // --- Steps ---

  function DeliverStep(s: State, p: UdpPacket): State {
    s.(calls := s.calls + [if p.Fragmented? then Arrived(p) else Passed(p)])
  }

  function LookupStep(s: State, c: nat): State
    requires c < |s.calls| && s.calls[c].Arrived? && s.calls[c].packet.Fragmented?
  {
    var p := s.calls[c].packet;
    var key := KeyOf(p);
    if key in s.cache then s.(calls := s.calls[c := Holding(p, s.cache[key])])
    else State(s.buffers + [Slot(Fresh(key.0), key, false, [], None)], s.cache[key := |s.buffers|],
               s.calls[c := Holding(p, |s.buffers|)])
  }

  predicate LockFree(s: State, b: nat) {
    forall c :: 0 <= c < |s.calls| && s.calls[c].Clearing? ==> s.calls[c].buffer != b
  }

  /** The slot after call `c` ran `add_fragment` on it. */
  function Touch(slot: Slot, p: UdpPacket, c: nat): Slot
    requires WellFormed(slot.value) && (!slot.emitted ==> |slot.fills| == slot.value.totalCount)
  {
    var (value, ok) := Add(slot.value, p);
    var none: Option<nat> := None;
    var sized := if slot.value.totalCount == 0 then seq(value.totalCount, _ => none) else slot.fills;
    slot.(value := value,
          fills := if slot.emitted then slot.fills
                   else if ok && p.fragmentIndex < |sized| then sized[p.fragmentIndex := Some(c)] else sized,
          addressFrom := if slot.value.address.None? && value.address.Some? then Some(c) else slot.addressFrom)
  }

  predicate Completes(slot: Slot, p: UdpPacket)
    requires WellFormed(slot.value)
  {
    Add(slot.value, p).1 && IsComplete(Add(slot.value, p).0)
  }

  function LockedStep(s: State, c: nat): State
    requires c < |s.calls| && s.calls[c].Holding? && s.calls[c].buffer < |s.buffers|
    requires WellFormed(s.buffers[s.calls[c].buffer].value)
    requires |s.buffers[s.calls[c].buffer].fills| == s.buffers[s.calls[c].buffer].value.totalCount
  {
    var p := s.calls[c].packet;
    var b := s.calls[c].buffer;
    AddKeepsWellFormed(s.buffers[b].value, p);
    var touched := Touch(s.buffers[b], p, c);
    if Completes(s.buffers[b], p) then
      s.(buffers := s.buffers[b := touched.(value := Assemble(touched.value).0, emitted := true)],
         calls := s.calls[c := Clearing(p, b, Assemble(touched.value).1)])
    else s.(buffers := s.buffers[b := touched], calls := s.calls[c := Returned(p, b, None)])
  }

  function InvalidateStep(s: State, c: nat): State
    requires c < |s.calls| && s.calls[c].Clearing? && s.calls[c].packet.Fragmented?
  {
    State(s.buffers, s.cache - {KeyOf(s.calls[c].packet)},
          s.calls[c := Returned(s.calls[c].packet, s.calls[c].buffer, s.calls[c].result)])
  }

  /** Any action that is not possible leaves the state as it is. */
  function Apply(s: State, a: Action): State
    requires Inv(s)
  {
    match a
    case Deliver(p) => DeliverStep(s, p)
    case Lookup(c) => if c < |s.calls| && s.calls[c].Arrived? then LookupStep(s, c) else s
    case Locked(c) =>
      if c < |s.calls| && s.calls[c].Holding? && LockFree(s, s.calls[c].buffer) then LockedStep(s, c) else s
    case Invalidate(c) => if c < |s.calls| && s.calls[c].Clearing? then InvalidateStep(s, c) else s
    case Evict(key) => s.(cache := s.cache - {key})
  }

  // --- Invariant ---

  predicate IsPart(p: UdpPacket, key: Key, count: int, j: int) {
    OfKey(p, key) && p.fragmentIndex == j && p.fragmentCount == count
  }

  /** Call `c` delivered part `j` of buffer `b`. */
  predicate Source(calls: seq<Call>, key: Key, count: U16, j: int, b: nat, c: nat) {
    c < |calls| && Settled(calls[c]) && calls[c].buffer == b && IsPart(calls[c].packet, key, count, j)
  }

  predicate AddressSource(calls: seq<Call>, key: Key, address: Address, c: nat) {
    && c < |calls| && OfKey(calls[c].packet, key)
    && calls[c].packet.fragmentIndex == 0 && calls[c].packet.firstAddress == Some(address)
  }

  function SourceData(calls: seq<Call>, fills: seq<Option<nat>>): seq<Bytes>
    requires forall j :: 0 <= j < |fills| ==> fills[j].Some? && fills[j].value < |calls|
  {
    seq(|fills|, j requires 0 <= j < |fills| => calls[fills[j].value].packet.data)
  }

  ghost predicate SlotShape(slot: Slot) {
    && WellFormed(slot.value) && slot.value.sessionId == slot.key.0
    && (slot.emitted <==> Spent(slot.value))
    && |slot.fills| == slot.value.totalCount
    && (slot.emitted ==> forall j :: 0 <= j < |slot.fills| ==> slot.fills[j].Some?)
  }

  ghost predicate SlotSources(calls: seq<Call>, slot: Slot, b: nat) {
    forall j :: 0 <= j < |slot.fills| && slot.fills[j].Some? ==>
      Source(calls, slot.key, slot.value.totalCount, j, b, slot.fills[j].value)
  }

  ghost predicate SlotData(calls: seq<Call>, slot: Slot)
    requires SlotShape(slot)
  {
    !slot.emitted ==> forall j :: 0 <= j < |slot.fills| ==>
      if slot.fills[j].Some?
      then slot.fills[j].value < |calls|
           && slot.value.fragments[j] == Some(calls[slot.fills[j].value].packet.data)
      else slot.value.fragments[j].None?
  }

  ghost predicate SlotAddress(calls: seq<Call>, slot: Slot) {
    && (slot.value.address.Some? ==>
          slot.addressFrom.Some? && AddressSource(calls, slot.key, slot.value.address.value, slot.addressFrom.value))
    && (|slot.fills| > 0 && slot.fills[0].Some? ==>
          && slot.fills[0].value < |calls| && calls[slot.fills[0].value].packet.Fragmented?
          && (calls[slot.fills[0].value].packet.firstAddress.Some? ==> slot.value.address.Some?))
  }

  ghost predicate SlotOk(calls: seq<Call>, slot: Slot, b: nat) {
    SlotShape(slot) && SlotSources(calls, slot, b) && SlotData(calls, slot) && SlotAddress(calls, slot)
  }

  ghost predicate CallOk(s: State, call: Call) {
    && (call.Arrived? ==> call.packet.Fragmented?)
    && (call.Clearing? ==> call.result.Some?)
    && (call.Holding? || Settled(call) ==>
          call.buffer < |s.buffers| && OfKey(call.packet, s.buffers[call.buffer].key))
    && (Emits(call) ==> EmissionOk(s, call))
  }

  /** The result is the concatenation of the parts its buffer was filled with. */
  ghost predicate EmissionOk(s: State, call: Call)
    requires Emits(call)
  {
    && call.buffer < |s.buffers|
    && var slot := s.buffers[call.buffer];
    && slot.emitted && slot.value.address.Some?
    && (forall j :: 0 <= j < |slot.fills| ==> slot.fills[j].Some? && slot.fills[j].value < |s.calls|)
    && call.result.value ==
       Datagram(slot.key.0, slot.value.address.value, Concat(SourceData(s.calls, slot.fills)))
  }

  ghost predicate Inv(s: State) {
    && (forall b :: 0 <= b < |s.buffers| ==> SlotOk(s.calls, s.buffers[b], b))
    && (forall c :: 0 <= c < |s.calls| ==> CallOk(s, s.calls[c]))
    && (forall k :: k in s.cache ==> s.cache[k] < |s.buffers| && s.buffers[s.cache[k]].key == k)
    && (forall c, d :: 0 <= c < d < |s.calls| && Emits(s.calls[c]) && Emits(s.calls[d]) ==>
          s.calls[c].buffer != s.calls[d].buffer)
  }

  /** Calls keep their packet, settled calls their buffer, and emissions stay. */
  ghost predicate Extends(calls: seq<Call>, calls': seq<Call>) {
    && |calls| <= |calls'|
    && forall c :: 0 <= c < |calls| ==>
         && calls'[c].packet == calls[c].packet
         && (Settled(calls[c]) ==> Settled(calls'[c]) && calls'[c].buffer == calls[c].buffer)
         && (Emits(calls[c]) ==> Emits(calls'[c]))
  }

  lemma SlotOkExtends(calls: seq<Call>, calls': seq<Call>, slot: Slot, b: nat)
    requires SlotOk(calls, slot, b) && Extends(calls, calls')
    ensures SlotOk(calls', slot, b)
  {
  }

  lemma CallOkExtends(s: State, s': State, call: Call)
    requires CallOk(s, call) && Extends(s.calls, s'.calls) && |s.buffers| <= |s'.buffers|
    requires forall b :: 0 <= b < |s.buffers| ==>
      && s'.buffers[b].key == s.buffers[b].key
      && (s.buffers[b].emitted ==>
            && s'.buffers[b].emitted && s'.buffers[b].fills == s.buffers[b].fills
            && s'.buffers[b].value.address == s.buffers[b].value.address)
    ensures CallOk(s', call)
  {
    if Emits(call) {
      var fills := s.buffers[call.buffer].fills;
      assert SourceData(s'.calls, fills) == SourceData(s.calls, fills);
    }
  }

  lemma TouchShape(slot: Slot, p: UdpPacket, c: nat)
    requires SlotShape(slot)
    ensures SlotShape(Touch(slot, p, c))
    ensures slot.emitted ==>
      && Touch(slot, p, c).fills == slot.fills
      && Touch(slot, p, c).value.address == slot.value.address
      && !Completes(slot, p)
  {
    AddKeepsWellFormed(slot.value, p);
  }

  /** Only the slot of the taken fragment is filled, and only by this call. */
  lemma TouchFills(slot: Slot, p: UdpPacket, c: nat, j: nat)
    requires SlotShape(slot) && j < |Touch(slot, p, c).fills| && Touch(slot, p, c).fills[j].Some?
    ensures slot.value.totalCount != 0 ==> Touch(slot, p, c).value.totalCount == slot.value.totalCount
    ensures (j < |slot.fills| && Touch(slot, p, c).fills[j] == slot.fills[j])
         || (Touch(slot, p, c).fills[j] == Some(c) && p.Fragmented?
             && p.fragmentIndex == j && p.fragmentCount == Touch(slot, p, c).value.totalCount)
  {
  }

  lemma TouchData(calls: seq<Call>, slot: Slot, p: UdpPacket, c: nat)
    requires SlotShape(slot) && SlotData(calls, slot) && SlotShape(Touch(slot, p, c))
    requires c < |calls| && calls[c].packet == p
    ensures SlotData(calls, Touch(slot, p, c))
  {
  }

  lemma TouchAddress(calls: seq<Call>, slot: Slot, p: UdpPacket, c: nat)
    requires SlotShape(slot) && SlotAddress(calls, slot)
    requires c < |calls| && calls[c].packet == p && OfKey(p, slot.key)
    ensures SlotAddress(calls, Touch(slot, p, c))
  {
  }

  lemma TouchKeeps(calls: seq<Call>, slot: Slot, b: nat, c: nat)
    requires SlotOk(calls, slot, b) && c < |calls| && Settled(calls[c]) && calls[c].buffer == b
    requires OfKey(calls[c].packet, slot.key)
    ensures SlotOk(calls, Touch(slot, calls[c].packet, c), b)
  {
    var p := calls[c].packet;
    TouchShape(slot, p, c);
    var touched := Touch(slot, p, c);
    forall j | 0 <= j < |touched.fills| && touched.fills[j].Some?
      ensures Source(calls, slot.key, touched.value.totalCount, j, b, touched.fills[j].value)
    {
      TouchFills(slot, p, c, j);
    }
    TouchData(calls, slot, p, c);
    TouchAddress(calls, slot, p, c);
  }

  lemma EmissionKeeps(calls: seq<Call>, slot: Slot, b: nat)
    requires SlotOk(calls, slot, b) && !slot.emitted && IsComplete(slot.value)
    ensures var after := slot.(value := Assemble(slot.value).0, emitted := true);
            && SlotOk(calls, after, b)
            && (forall j :: 0 <= j < |slot.fills| ==> slot.fills[j].Some?)
            && Assemble(slot.value).1 ==
               Some(Datagram(slot.key.0, slot.value.address.value, Concat(SourceData(calls, slot.fills))))
  {
    CompleteEmitsInOrder(slot.value);
    assert forall j :: 0 <= j < |slot.fills| ==> slot.value.fragments[j].Some?;
    assert Payloads(slot.value.fragments) == SourceData(calls, slot.fills);
  }

  /** What a step that only touches buffer `b` keeps everywhere else. */
  ghost predicate Frame(s: State, s': State, b: nat) {
    && Extends(s.calls, s'.calls) && |s.buffers| <= |s'.buffers|
    && forall i :: 0 <= i < |s.buffers| ==>
         && s'.buffers[i].key == s.buffers[i].key
         && (i != b ==> s'.buffers[i] == s.buffers[i])
         && (s.buffers[i].emitted ==>
               && s'.buffers[i].emitted && s'.buffers[i].fills == s.buffers[i].fills
               && s'.buffers[i].value.address == s.buffers[i].value.address)
  }

  lemma FrameKeeps(s: State, s': State, b: nat)
    requires Inv(s) && Frame(s, s', b)
    ensures forall i :: 0 <= i < |s.buffers| && i != b ==> SlotOk(s'.calls, s'.buffers[i], i)
    ensures forall c :: 0 <= c < |s.calls| ==> CallOk(s', s.calls[c])
  {
    forall i | 0 <= i < |s.buffers| && i != b
      ensures SlotOk(s'.calls, s'.buffers[i], i)
    {
      SlotOkExtends(s.calls, s'.calls, s.buffers[i], i);
    }
    forall c | 0 <= c < |s.calls|
      ensures CallOk(s', s.calls[c])
    {
      CallOkExtends(s, s', s.calls[c]);
    }
  }

  lemma LockedFrame(s: State, c: nat)
    requires Inv(s) && c < |s.calls| && s.calls[c].Holding?
    ensures Frame(s, LockedStep(s, c), s.calls[c].buffer)
  {
    assert CallOk(s, s.calls[c]);
    TouchShape(s.buffers[s.calls[c].buffer], s.calls[c].packet, c);
  }

  lemma LockedSlot(s: State, c: nat)
    requires Inv(s) && c < |s.calls| && s.calls[c].Holding?
    ensures var b := s.calls[c].buffer;
            var s' := LockedStep(s, c);
            SlotOk(s'.calls, s'.buffers[b], b) && CallOk(s', s'.calls[c])
    ensures Emits(LockedStep(s, c).calls[c]) ==> !s.buffers[s.calls[c].buffer].emitted
  {
    var p := s.calls[c].packet;
    var b := s.calls[c].buffer;
    var slot := s.buffers[b];
    var calls' := LockedStep(s, c).calls;
    assert CallOk(s, s.calls[c]);
    SlotOkExtends(s.calls, calls', slot, b);
    TouchKeeps(calls', slot, b, c);
    TouchShape(slot, p, c);
    if Completes(slot, p) {
      EmissionKeeps(calls', Touch(slot, p, c), b);
    }
  }

  lemma LockedKeeps(s: State, c: nat)
    requires Inv(s) && c < |s.calls| && s.calls[c].Holding?
    ensures Inv(LockedStep(s, c)) && Extends(s.calls, LockedStep(s, c).calls)
  {
    var s' := LockedStep(s, c);
    LockedFrame(s, c);
    LockedSlot(s, c);
    FrameKeeps(s, s', s.calls[c].buffer);
    forall i | 0 <= i < |s.calls| && i != c && Emits(s.calls[i]) && Emits(s'.calls[c])
      ensures s.calls[i].buffer != s'.calls[c].buffer
    {
      assert CallOk(s, s.calls[i]);
    }
  }

  /** A step without an emission keeps the invariant if what it adds or changes is in order. */
  lemma QuietKeeps(s: State, s': State)
    requires Inv(s) && Frame(s, s', |s.buffers|)
    requires forall b :: |s.buffers| <= b < |s'.buffers| ==> SlotOk(s'.calls, s'.buffers[b], b)
    requires forall c :: 0 <= c < |s'.calls| && !(c < |s.calls| && s'.calls[c] == s.calls[c]) ==> CallOk(s', s'.calls[c])
    requires forall c :: 0 <= c < |s'.calls| && Emits(s'.calls[c]) ==>
      c < |s.calls| && Emits(s.calls[c]) && s'.calls[c].buffer == s.calls[c].buffer
    requires forall k :: k in s'.cache ==> s'.cache[k] < |s'.buffers| && s'.buffers[s'.cache[k]].key == k
    ensures Inv(s')
  {
    FrameKeeps(s, s', |s.buffers|);
  }

  lemma LookupKeeps(s: State, c: nat)
    requires Inv(s) && c < |s.calls| && s.calls[c].Arrived? && s.calls[c].packet.Fragmented?
    ensures Inv(LookupStep(s, c)) && Extends(s.calls, LookupStep(s, c).calls)
  {
    QuietKeeps(s, LookupStep(s, c));
  }

  lemma InvalidateKeeps(s: State, c: nat)
    requires Inv(s) && c < |s.calls| && s.calls[c].Clearing? && s.calls[c].packet.Fragmented?
    ensures Inv(InvalidateStep(s, c)) && Extends(s.calls, InvalidateStep(s, c).calls)
  {
    var s' := InvalidateStep(s, c);
    assert CallOk(s, s.calls[c]);
    CallOkExtends(s, s', s.calls[c]);
    QuietKeeps(s, s');
  }

  lemma DeliverKeeps(s: State, p: UdpPacket)
    requires Inv(s)
    ensures Inv(DeliverStep(s, p)) && Extends(s.calls, DeliverStep(s, p).calls)
  {
    QuietKeeps(s, DeliverStep(s, p));
  }

  lemma ApplyKeeps(s: State, a: Action)
    requires Inv(s)
    ensures Inv(Apply(s, a)) && Extends(s.calls, Apply(s, a).calls)
  {
    match a
    case Deliver(p) => DeliverKeeps(s, p);
    case Lookup(c) => if c < |s.calls| && s.calls[c].Arrived? { assert CallOk(s, s.calls[c]); LookupKeeps(s, c); }
    case Locked(c) => if c < |s.calls| && s.calls[c].Holding? { LockedKeeps(s, c); }
    case Invalidate(c) => if c < |s.calls| && s.calls[c].Clearing? { assert CallOk(s, s.calls[c]); InvalidateKeeps(s, c); }
    case Evict(key) => QuietKeeps(s, Apply(s, a));
  }

  /** The state after any sequence of actions. */
  ghost function Run(actions: seq<Action>): (s: State)
    ensures Inv(s)
  {
    if actions == [] then Init
    else
      ApplyKeeps(Run(actions[..|actions| - 1]), actions[|actions| - 1]);
      Apply(Run(actions[..|actions| - 1]), actions[|actions| - 1])
  }

  // --- Results over every run ---

  /** The calls whose fragments make up the result of an emitting call, in index order. */
  ghost function SourcesOf(s: State, call: Call): seq<nat>
    requires Emits(call) && CallOk(s, call)
  {
    var fills := s.buffers[call.buffer].fills;
    seq(|fills|, j requires 0 <= j < |fills| => fills[j].value)
  }

  /** `sources` are delivered fragments of one key, count and buffer, one for each index. */
  ghost predicate FullSet(s: State, sources: seq<nat>, key: Key, buffer: nat) {
    && 1 <= |sources| <= MAX_FRAGMENT_COUNT
    && forall j :: 0 <= j < |sources| ==>
         && sources[j] < |s.calls| && Settled(s.calls[sources[j]])
         && s.calls[sources[j]].buffer == buffer
         && IsPart(s.calls[sources[j]].packet, key, |sources|, j)
  }

  function PayloadsOf(calls: seq<Call>, sources: seq<nat>): seq<Bytes>
    requires forall j :: 0 <= j < |sources| ==> sources[j] < |calls|
  {
    seq(|sources|, j requires 0 <= j < |sources| => calls[sources[j]].packet.data)
  }

  lemma EmissionSound(s: State, c: nat)
    requires Inv(s) && c < |s.calls| && Emits(s.calls[c])
    ensures CallOk(s, s.calls[c])
    ensures var sources := SourcesOf(s, s.calls[c]);
            var key := KeyOf(s.calls[c].packet);
            var result := s.calls[c].result.value;
            && FullSet(s, sources, key, s.calls[c].buffer)
            && result.sessionId == key.0 && result.data == Concat(PayloadsOf(s.calls, sources))
            && exists from: nat :: AddressSource(s.calls, key, result.address, from)
  {
    var call := s.calls[c];
    var slot := s.buffers[call.buffer];
    assert CallOk(s, call) && SlotOk(s.calls, slot, call.buffer);
    var sources := SourcesOf(s, call);
    forall j | 0 <= j < |sources|
      ensures sources[j] < |s.calls| && Source(s.calls, slot.key, slot.value.totalCount, j, call.buffer, sources[j])
    {
      assert slot.fills[j].Some?;
    }
    assert PayloadsOf(s.calls, sources) == SourceData(s.calls, slot.fills);
    assert AddressSource(s.calls, slot.key, call.result.value.address, slot.addressFrom.value);
  }

  /**
   * Soundness for arbitrary, even malformed, traffic in any interleaving and
   * with any evictions: a returned payload is the index-ordered concatenation
   * of one delivered fragment per index, all of the same key and count, and its
   * address came with some fragment of index 0 of that key.
   */
  lemma EmissionsAreSound(actions: seq<Action>, c: nat)
    requires c < |Run(actions).calls| && Emits(Run(actions).calls[c])
    ensures CallOk(Run(actions), Run(actions).calls[c])
    ensures var s := Run(actions);
            var sources := SourcesOf(s, s.calls[c]);
            var key := KeyOf(s.calls[c].packet);
            var result := s.calls[c].result.value;
            && FullSet(s, sources, key, s.calls[c].buffer)
            && result.sessionId == key.0 && result.data == Concat(PayloadsOf(s.calls, sources))
            && exists from: nat :: AddressSource(s.calls, key, result.address, from)
  {
    EmissionSound(Run(actions), c);
  }

  /**
   * A buffer emits at most once, however many calls still hold it, and its
   * counter never exceeds twice the fragment count, so 16 bits suffice.
   */
  lemma BuffersEmitOnce(actions: seq<Action>)
    ensures var s := Run(actions);
            && (forall c, d :: 0 <= c < d < |s.calls| && Emits(s.calls[c]) && Emits(s.calls[d]) ==>
                  s.calls[c].buffer != s.calls[d].buffer)
            && (forall b :: 0 <= b < |s.buffers| ==>
                  var v := s.buffers[b].value;
                  && v.receivedCount <= 2 * v.totalCount <= 2 * MAX_FRAGMENT_COUNT
                  && (!s.buffers[b].emitted ==> v.receivedCount == Filled(v.fragments)))
  {
    var s := Run(actions);
    forall b | 0 <= b < |s.buffers|
      ensures var v := s.buffers[b].value;
              && v.receivedCount <= 2 * v.totalCount <= 2 * MAX_FRAGMENT_COUNT
              && (!s.buffers[b].emitted ==> v.receivedCount == Filled(v.fragments))
    {
      assert SlotShape(s.buffers[b]);
    }
  }

  lemma {:induction false} InjectionBound(from: set<nat>, to: set<nat>, f: map<nat, nat>)
    requires from <= f.Keys
    requires forall x :: x in from ==> f[x] in to
    requires forall x, y :: x in from && y in from && f[x] == f[y] ==> x == y
    ensures |from| <= |to|
  {
    if from != {} {
      var x :| x in from;
      InjectionBound(from - {x}, to - {f[x]}, f);
    }
  }

  /** The calls that returned a datagram of `key` made of more than `j` fragments. */
  ghost function Emitters(s: State, key: Key, j: nat): set<nat>
    requires Inv(s)
  {
    set c: nat | c < |s.calls| && Emits(s.calls[c]) && OfKey(s.calls[c].packet, key) &&
      (assert CallOk(s, s.calls[c]); j < |SourcesOf(s, s.calls[c])|) :: c
  }

  /** The calls that delivered a fragment of `key` with index `j`. */
  ghost function Deliveries(s: State, key: Key, j: nat): set<nat> {
    set c: nat | c < |s.calls| && OfKey(s.calls[c].packet, key) && s.calls[c].packet.fragmentIndex == j :: c
  }

  /** k emissions of a key need at least k deliveries of every index. */
  lemma EmissionsNeedDeliveries(actions: seq<Action>, key: Key, j: nat)
    ensures |Emitters(Run(actions), key, j)| <= |Deliveries(Run(actions), key, j)|
  {
    var s := Run(actions);
    var f := map c: nat | c in Emitters(s, key, j) :: (assert CallOk(s, s.calls[c]); SourcesOf(s, s.calls[c])[j]);
    forall c | c in Emitters(s, key, j)
      ensures f[c] in Deliveries(s, key, j) && s.calls[f[c]].buffer == s.calls[c].buffer
    {
      EmissionsAreSound(actions, c);
    }
    forall c, d | c in Emitters(s, key, j) && d in Emitters(s, key, j) && f[c] == f[d]
      ensures c == d
    {
      EmissionsAreSound(actions, c);
      EmissionsAreSound(actions, d);
      assert s.calls[c].buffer == s.calls[d].buffer;
    }
    InjectionBound(Emitters(s, key, j), Deliveries(s, key, j), f);
  }

  /** Every delivered fragment of `key` is one of `parts`. */
  ghost predicate HonestCalls(s: State, key: Key, parts: seq<UdpPacket>) {
    forall c :: 0 <= c < |s.calls| && OfKey(s.calls[c].packet, key) ==> s.calls[c].packet in parts
  }

  lemma HonestSources(s: State, sources: seq<nat>, key: Key, b: nat, address: Address, data: Bytes,
                      parts: seq<UdpPacket>)
    requires AreParts(parts, key, address, data) && HonestCalls(s, key, parts)
    requires FullSet(s, sources, key, b)
    ensures PayloadsOf(s.calls, sources) == DataOf(parts)
  {
    forall j | 0 <= j < |sources|
      ensures |sources| == |parts| && s.calls[sources[j]].packet == parts[j]
    {
      var i :| 0 <= i < |parts| && parts[i] == s.calls[sources[j]].packet;
    }
    assert s.calls[sources[0]].packet == parts[0];
  }

  lemma HonestEmission(s: State, key: Key, address: Address, data: Bytes, parts: seq<UdpPacket>, c: nat)
    requires Inv(s) && AreParts(parts, key, address, data) && HonestCalls(s, key, parts)
    requires c < |s.calls| && Emits(s.calls[c]) && OfKey(s.calls[c].packet, key)
    ensures s.calls[c].result == Some(Datagram(key.0, address, data))
  {
    EmissionSound(s, c);
    HonestSources(s, SourcesOf(s, s.calls[c]), key, s.calls[c].buffer, address, data, parts);
    var from: nat :| AddressSource(s.calls, key, s.calls[c].result.value.address, from);
    var i :| 0 <= i < |parts| && parts[i] == s.calls[from].packet;
  }

  /**
   * When all fragments of a key come from one `SplitPacket`, every datagram ever
   * returned for it, in any interleaving and with any evictions, is the original.
   */
  lemma HonestEmissionsAreOriginal(actions: seq<Action>, key: Key, address: Address, data: Bytes,
                                   maxPayload: nat, parts: seq<UdpPacket>, c: nat)
    requires maxPayload >= 1 && SplitPacket(key.0, address, data, maxPayload, key.1) == Some(parts)
    requires |parts| <= MAX_FRAGMENT_COUNT && HonestCalls(Run(actions), key, parts)
    requires c < |Run(actions).calls| && Emits(Run(actions).calls[c]) && OfKey(Run(actions).calls[c].packet, key)
    ensures Run(actions).calls[c].result == Some(Datagram(key.0, address, data))
  {
    SplitGivesParts(key, address, data, maxPayload, parts);
    HonestEmission(Run(actions), key, address, data, parts, c);
  }

  // --- Completeness without eviction ---

  predicate NeverEvicts(actions: seq<Action>, key: Key) {
    Evict(key) !in actions
  }

  ghost predicate Emitted(s: State, key: Key) {
    exists c :: 0 <= c < |s.calls| && OfKey(s.calls[c].packet, key) && Emits(s.calls[c])
  }

  /**
   * Until `key` emits, all its calls share the cached buffer, what they
   * delivered is in it, and some part is still missing.
   */
  ghost predicate Gathering(s: State, key: Key, parts: seq<UdpPacket>) {
    && (forall c :: 0 <= c < |s.calls| && OfKey(s.calls[c].packet, key) && (s.calls[c].Holding? || Settled(s.calls[c])) ==>
          key in s.cache && s.calls[c].buffer == s.cache[key])
    && (key in s.cache && s.cache[key] < |s.buffers| ==>
          var slot := s.buffers[s.cache[key]];
          && !slot.emitted && (|slot.fills| == 0 || |slot.fills| == |parts|)
          && (exists j :: 0 <= j < |parts| && Absent(slot, j))
          && forall c :: 0 <= c < |s.calls| && OfKey(s.calls[c].packet, key) && Settled(s.calls[c]) ==>
               !Absent(slot, s.calls[c].packet.fragmentIndex))
  }

  predicate Absent(slot: Slot, j: int) {
    0 <= j < |slot.fills| ==> slot.fills[j].None?
  }

  lemma FilledCompletes(slot: Slot, key: Key, address: Address, data: Bytes, parts: seq<UdpPacket>,
                        calls: seq<Call>, b: nat)
    requires SlotOk(calls, slot, b) && !slot.emitted && slot.key == key
    requires AreParts(parts, key, address, data) && |slot.fills| == |parts|
    requires forall d :: 0 <= d < |calls| && OfKey(calls[d].packet, key) ==> calls[d].packet in parts
    requires forall j :: 0 <= j < |parts| ==> !Absent(slot, j)
    ensures IsComplete(slot.value)
  {
    forall j | 0 <= j < |slot.fills|
      ensures slot.fills[j].Some? && slot.value.fragments[j].Some?
    {
      assert !Absent(slot, j);
    }
    assert Source(calls, key, slot.value.totalCount, 0, b, slot.fills[0].value);
    var i :| 0 <= i < |parts| && parts[i] == calls[slot.fills[0].value].packet;
  }

  /** An honest fragment fills its slot; filling the last one is an emission. */
  lemma HonestTouch(slot: Slot, key: Key, address: Address, data: Bytes, parts: seq<UdpPacket>, calls: seq<Call>,
                    b: nat, c: nat)
    requires SlotOk(calls, slot, b) && !slot.emitted && slot.key == key
    requires c < |calls| && Settled(calls[c]) && calls[c].buffer == b && OfKey(calls[c].packet, key)
    requires AreParts(parts, key, address, data) && calls[c].packet in parts
    requires |slot.fills| == 0 || |slot.fills| == |parts|
    requires exists j :: 0 <= j < |parts| && Absent(slot, j)
    requires forall d :: 0 <= d < |calls| && OfKey(calls[d].packet, key) ==> calls[d].packet in parts
    ensures var touched := Touch(slot, calls[c].packet, c);
            && |touched.fills| == |parts|
            && !Absent(touched, calls[c].packet.fragmentIndex)
            && (forall j :: 0 <= j < |parts| && !Absent(slot, j) ==> !Absent(touched, j))
            && (Completes(slot, calls[c].packet) || exists j :: 0 <= j < |parts| && Absent(touched, j))
  {
    var p := calls[c].packet;
    var touched := Touch(slot, p, c);
    var i :| 0 <= i < |parts| && parts[i] == p;
    TouchKeeps(calls, slot, b, c);
    var open :| 0 <= open < |parts| && Absent(slot, open);
    if !Add(slot.value, p).1 {
      assert Absent(touched, open);
    } else if forall j :: 0 <= j < |parts| ==> !Absent(touched, j) {
      FilledCompletes(touched, key, address, data, parts, calls, b);
    }
  }

  lemma EmittedStays(s: State, a: Action, key: Key)
    requires Inv(s) && Emitted(s, key)
    ensures Emitted(Apply(s, a), key)
  {
    ApplyKeeps(s, a);
    var s' := Apply(s, a);
    var c :| 0 <= c < |s.calls| && OfKey(s.calls[c].packet, key) && Emits(s.calls[c]);
    assert Emits(s'.calls[c]) && OfKey(s'.calls[c].packet, key);
  }

  lemma LockedGathers(s: State, c: nat, key: Key, address: Address, data: Bytes, parts: seq<UdpPacket>)
    requires Inv(s) && AreParts(parts, key, address, data) && HonestCalls(s, key, parts)
    requires c < |s.calls| && s.calls[c].Holding? && OfKey(s.calls[c].packet, key)
    requires Gathering(s, key, parts) && !Emitted(LockedStep(s, c), key)
    ensures Gathering(LockedStep(s, c), key, parts)
  {
    var b := s.cache[key];
    var s' := LockedStep(s, c);
    LockedKeeps(s, c);
    LockedSlot(s, c);
    SlotOkExtends(s.calls, s'.calls, s.buffers[b], b);
    HonestTouch(s.buffers[b], key, address, data, parts, s'.calls, b, c);
    assert OfKey(s'.calls[c].packet, key);
    assert CallOk(s', s'.calls[c]);
    assert !Completes(s.buffers[b], s.calls[c].packet);
  }

  lemma OtherKeyGathers(s: State, c: nat, key: Key, parts: seq<UdpPacket>)
    requires Inv(s) && c < |s.calls| && s.calls[c].Holding? && !OfKey(s.calls[c].packet, key)
    requires Gathering(s, key, parts)
    ensures Gathering(LockedStep(s, c), key, parts)
  {
    var s' := LockedStep(s, c);
    assert CallOk(s, s.calls[c]);
    if key in s.cache {
      assert s'.buffers[s.cache[key]] == s.buffers[s.cache[key]];
    }
  }

  lemma LookupGathers(s: State, c: nat, key: Key, parts: seq<UdpPacket>)
    requires Inv(s) && c < |s.calls| && s.calls[c].Arrived? && s.calls[c].packet.Fragmented?
    requires Gathering(s, key, parts) && |parts| >= 1
    ensures Gathering(LookupStep(s, c), key, parts)
  {
    var s' := LookupStep(s, c);
    if key in s'.cache && key !in s.cache {
      assert Absent(s'.buffers[s'.cache[key]], 0);
    }
  }

  lemma QuietGathers(s: State, s': State, key: Key, parts: seq<UdpPacket>)
    requires Gathering(s, key, parts) && s'.buffers == s.buffers && Extends(s.calls, s'.calls)
    requires key in s'.cache <==> key in s.cache
    requires key in s.cache ==> s'.cache[key] == s.cache[key]
    requires forall c :: 0 <= c < |s'.calls| && (s'.calls[c].Holding? || Settled(s'.calls[c])) ==>
      && c < |s.calls| && (s.calls[c].Holding? || Settled(s.calls[c])) && s.calls[c].buffer == s'.calls[c].buffer
      && (Settled(s'.calls[c]) ==> Settled(s.calls[c]))
    ensures Gathering(s', key, parts)
  {
  }

  lemma GatherStep(s: State, a: Action, key: Key, address: Address, data: Bytes, parts: seq<UdpPacket>)
    requires Inv(s) && AreParts(parts, key, address, data) && HonestCalls(Apply(s, a), key, parts)
    requires a != Evict(key) && (Emitted(s, key) || Gathering(s, key, parts))
    ensures Emitted(Apply(s, a), key) || Gathering(Apply(s, a), key, parts)
  {
    var s' := Apply(s, a);
    ApplyKeeps(s, a);
    if Emitted(s, key) {
      EmittedStays(s, a, key);
    } else if s' != s && !Emitted(s', key) {
      HonestBefore(s, a, key, parts);
      match a
      case Deliver(p) => QuietGathers(s, s', key, parts);
      case Lookup(c) => assert CallOk(s, s.calls[c]); LookupGathers(s, c, key, parts);
      case Locked(c) =>
        if OfKey(s.calls[c].packet, key) {
          LockedGathers(s, c, key, address, data, parts);
        } else {
          OtherKeyGathers(s, c, key, parts);
        }
      case Invalidate(c) => assert CallOk(s, s.calls[c]); QuietGathers(s, s', key, parts);
      case Evict(k) => QuietGathers(s, s', key, parts);
    }
  }

  lemma HonestBefore(s: State, a: Action, key: Key, parts: seq<UdpPacket>)
    requires Inv(s) && HonestCalls(Apply(s, a), key, parts)
    ensures HonestCalls(s, key, parts)
  {
    ApplyKeeps(s, a);
    forall c | 0 <= c < |s.calls| && OfKey(s.calls[c].packet, key)
      ensures s.calls[c].packet in parts
    {
      assert Apply(s, a).calls[c].packet == s.calls[c].packet;
    }
  }

  lemma {:induction false} RunGathers(actions: seq<Action>, key: Key, address: Address, data: Bytes,
                                      parts: seq<UdpPacket>)
    requires AreParts(parts, key, address, data) && HonestCalls(Run(actions), key, parts)
    requires NeverEvicts(actions, key)
    ensures Emitted(Run(actions), key) || Gathering(Run(actions), key, parts)
  {
    if actions != [] {
      var init := actions[..|actions| - 1];
      var last := actions[|actions| - 1];
      HonestBefore(Run(init), last, key, parts);
      RunGathers(init, key, address, data, parts);
      GatherStep(Run(init), last, key, address, data, parts);
    }
  }

  /** A call for index `j` of `key` has run its locked section. */
  ghost predicate Taken(s: State, key: Key, j: int) {
    exists c :: 0 <= c < |s.calls| && OfKey(s.calls[c].packet, key) && Settled(s.calls[c])
                && s.calls[c].packet.fragmentIndex == j
  }

  lemma GatheringMisses(s: State, key: Key, parts: seq<UdpPacket>)
    requires Inv(s) && Gathering(s, key, parts) && |parts| >= 1
    ensures exists j :: 0 <= j < |parts| && !Taken(s, key, j)
  {
    if Taken(s, key, 0) {
      var open :| 0 <= open < |parts| && Absent(s.buffers[s.cache[key]], open);
      assert !Taken(s, key, open);
    }
  }

  /**
   * Completeness in every interleaving without eviction of the key: once calls
   * for all indices have run their locked sections, some call has returned (or
   * is about to return) the original datagram.
   */
  lemma OverlappingCallsReassemble(actions: seq<Action>, key: Key, address: Address, data: Bytes,
                                   maxPayload: nat, parts: seq<UdpPacket>)
    requires maxPayload >= 1 && SplitPacket(key.0, address, data, maxPayload, key.1) == Some(parts)
    requires |parts| <= MAX_FRAGMENT_COUNT && HonestCalls(Run(actions), key, parts)
    requires NeverEvicts(actions, key)
    requires forall j :: 0 <= j < |parts| ==> Taken(Run(actions), key, j)
    ensures exists c :: 0 <= c < |Run(actions).calls| && OfKey(Run(actions).calls[c].packet, key)
                        && Settled(Run(actions).calls[c])
                        && Run(actions).calls[c].result == Some(Datagram(key.0, address, data))
  {
    var s := Run(actions);
    SplitGivesParts(key, address, data, maxPayload, parts);
    RunGathers(actions, key, address, data, parts);
    if Gathering(s, key, parts) {
      GatheringMisses(s, key, parts);
    }
    var c :| 0 <= c < |s.calls| && OfKey(s.calls[c].packet, key) && Emits(s.calls[c]);
    HonestEmission(s, key, address, data, parts, c);
  }
}
