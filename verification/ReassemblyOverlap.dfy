/**
 * Exactly when overlapping calls emit: in the order in which the calls that hold
 * one buffer run their locked sections, for arbitrary fragments.
 */
module ReassemblyOverlap {
  import opened Base
  import opened Protocol
  import opened Reassembly
  import opened ReassemblyInterleaving
  import AnyTraffic = ReassemblyAnyTraffic

  /** Call `c` can run its locked section now, on buffer `b`. */
  predicate Enters(s: State, c: nat, b: nat) {
    c < |s.calls| && s.calls[c].Holding? && s.calls[c].buffer == b && LockFree(s, b)
  }

  /** The fragments of the locked sections run on buffer `b`, in order. */
  ghost function History(actions: seq<Action>, b: nat): seq<UdpPacket> {
    if actions == [] then []
    else
      var s, last := Run(actions[..|actions| - 1]), actions[|actions| - 1];
      var before := History(actions[..|actions| - 1], b);
      if last.Locked? && Enters(s, last.call, b) then before + [s.calls[last.call].packet] else before
  }

  /** What fragments that reach one buffer in this order gather in it. */
  function GatherAll(packets: seq<UdpPacket>): AnyTraffic.Gathered {
    if packets == [] then AnyTraffic.Nothing
    else
      var g, last := GatherAll(packets[..|packets| - 1]), packets[|packets| - 1];
      if last.Fragmented? then AnyTraffic.Grow(g, last) else g
  }

  /** A buffer that has not emitted holds what was gathered; one that has had gathered everything. */
  ghost predicate Gathers(slot: Slot, g: AnyTraffic.Gathered) {
    if slot.emitted then AnyTraffic.Full(g) else AnyTraffic.Matches(slot.value, g)
  }

  lemma FullStaysFull(g: AnyTraffic.Gathered, p: UdpPacket)
    requires AnyTraffic.Full(g) && p.Fragmented?
    ensures AnyTraffic.Full(AnyTraffic.Grow(g, p))
  {
  }

  /** One locked section: the buffer emits exactly on the fragment that completes what it gathered. */
  lemma TouchGathers(slot: Slot, g: AnyTraffic.Gathered, p: UdpPacket)
    requires SlotShape(slot) && Gathers(slot, g) && p.Fragmented?
    ensures Completes(slot, p) <==> AnyTraffic.Emitting(g, p)
    ensures if slot.emitted || Completes(slot, p)
            then AnyTraffic.Full(AnyTraffic.Grow(g, p))
            else AnyTraffic.Matches(Add(slot.value, p).0, AnyTraffic.Grow(g, p))
  {
    if slot.emitted {
      AddKeepsWellFormed(slot.value, p);
      FullStaysFull(g, p);
    } else {
      AnyTraffic.AddMatches(slot.value, g, p);
      AnyTraffic.FullIsComplete(Add(slot.value, p).0, AnyTraffic.Grow(g, p));
      AnyTraffic.NewIndexFills(g, p);
    }
  }

  /** The buffers follow their histories; a buffer not yet created has none. */
  ghost predicate Follows(s: State, b: nat, history: seq<UdpPacket>) {
    if b < |s.buffers| then Gathers(s.buffers[b], GatherAll(history)) else history == []
  }

  lemma LockedFollows(s: State, c: nat, b: nat, history: seq<UdpPacket>)
    requires Inv(s) && Enters(s, c, b) && Follows(s, b, history)
    ensures Follows(Apply(s, Locked(c)), b, history + [s.calls[c].packet])
    ensures Emits(Apply(s, Locked(c)).calls[c]) <==> AnyTraffic.Emitting(GatherAll(history), s.calls[c].packet)
  {
    var p := s.calls[c].packet;
    assert CallOk(s, s.calls[c]) && SlotOk(s.calls, s.buffers[b], b);
    GatherAllSnoc(history, p);
    TouchGathers(s.buffers[b], GatherAll(history), p);
    LockedEmits(s, c, b);
  }

  lemma GatherAllSnoc(history: seq<UdpPacket>, p: UdpPacket)
    requires p.Fragmented?
    ensures GatherAll(history + [p]) == AnyTraffic.Grow(GatherAll(history), p)
  {
    assert (history + [p])[..|history|] == history;
  }

  /** What a locked section leaves in its buffer, and that it emits exactly when it completes it. */
  lemma LockedEmits(s: State, c: nat, b: nat)
    requires Inv(s) && Enters(s, c, b)
    ensures b < |s.buffers| && SlotShape(s.buffers[b])
    ensures var slot, slot', p := s.buffers[b], LockedStep(s, c).buffers[b], s.calls[c].packet;
            && (Emits(LockedStep(s, c).calls[c]) <==> Completes(slot, p))
            && slot'.emitted == (slot.emitted || Completes(slot, p))
            && (!slot'.emitted ==> slot'.value == Add(slot.value, p).0)
  {
    var slot, p := s.buffers[b], s.calls[c].packet;
    assert CallOk(s, s.calls[c]) && SlotOk(s.calls, slot, b);
    AddKeepsWellFormed(slot.value, p);
    if Completes(slot, p) {
      CompleteEmitsInOrder(Add(slot.value, p).0);
    }
  }

  lemma OtherFollows(s: State, a: Action, b: nat, history: seq<UdpPacket>)
    requires Inv(s) && Follows(s, b, history) && !(a.Locked? && Enters(s, a.call, b))
    ensures Follows(Apply(s, a), b, history)
  {
    if a.Lookup? && a.call < |s.calls| && s.calls[a.call].Arrived? {
      assert CallOk(s, s.calls[a.call]);
      assert b == |s.buffers| ==> GatherAll(history) == AnyTraffic.Nothing;
    } else if a.Locked? && a.call < |s.calls| && s.calls[a.call].Holding? {
      assert CallOk(s, s.calls[a.call]);
    }
  }

  lemma {:induction false} RunFollows(actions: seq<Action>, b: nat)
    ensures Follows(Run(actions), b, History(actions, b))
  {
    if actions != [] {
      var init, last := actions[..|actions| - 1], actions[|actions| - 1];
      RunFollows(init, b);
      StepFollows(Run(init), last, b, History(init, b));
    }
  }

  lemma StepFollows(s: State, a: Action, b: nat, history: seq<UdpPacket>)
    requires Inv(s) && Follows(s, b, history)
    ensures Follows(Apply(s, a), b,
                    if a.Locked? && Enters(s, a.call, b) then history + [s.calls[a.call].packet] else history)
  {
    if a.Locked? && Enters(s, a.call, b) {
      LockedFollows(s, a.call, b, history);
    } else {
      OtherFollows(s, a, b, history);
    }
  }

  /**
   * Exactly when a call emits, in every interleaving and for all traffic: its
   * fragment brings the last missing index of what the locked sections before it
   * gathered in its buffer, and an address has come by then.
   */
  lemma OverlapEmitsExactly(actions: seq<Action>, c: nat, b: nat)
    requires Enters(Run(actions), c, b)
    ensures var after := Run(actions + [Locked(c)]);
            && c < |after.calls| && Settled(after.calls[c])
            && (Emits(after.calls[c]) <==>
                  AnyTraffic.Emitting(GatherAll(History(actions, b)), Run(actions).calls[c].packet))
  {
    var s := Run(actions);
    assert CallOk(s, s.calls[c]);
    assert (actions + [Locked(c)])[..|actions|] == actions;
    RunFollows(actions, b);
    LockedFollows(s, c, b, History(actions, b));
  }

  /** Once a call has emitted, no later locked section on its buffer does. */
  lemma NoEmissionAfterwards(actions: seq<Action>, c: nat, d: nat)
    requires c < |Run(actions).calls| && Emits(Run(actions).calls[c])
    requires Enters(Run(actions), d, Run(actions).calls[c].buffer)
    ensures var after := Run(actions + [Locked(d)]); d < |after.calls| && Settled(after.calls[d]) && !Emits(after.calls[d])
  {
    var s := Run(actions);
    var b := s.calls[c].buffer;
    assert CallOk(s, s.calls[c]) && CallOk(s, s.calls[d]);
    RunFollows(actions, b);
    OverlapEmitsExactly(actions, d, b);
  }

  /** At some point the fragments so far were completed. */
  ghost predicate Completed(history: seq<UdpPacket>) {
    exists k :: 0 <= k < |history| && CompletesAt(history, k)
  }

  ghost predicate CompletesAt(history: seq<UdpPacket>, k: nat)
    requires k < |history|
  {
    history[k].Fragmented? && AnyTraffic.Emitting(GatherAll(history[..k]), history[k])
  }

  lemma CompletedSnoc(history: seq<UdpPacket>, p: UdpPacket)
    requires p.Fragmented?
    ensures Completed(history + [p]) <==> Completed(history) || AnyTraffic.Emitting(GatherAll(history), p)
  {
    var all := history + [p];
    assert all[..|history|] == history;
    forall k | 0 <= k < |history|
      ensures CompletesAt(all, k) == CompletesAt(history, k)
    {
      assert all[..k] == history[..k];
    }
    assert CompletesAt(all, |history|) == AnyTraffic.Emitting(GatherAll(history), p);
  }

  /** A buffer has emitted if and only if its locked sections completed it at some point. */
  lemma {:induction false} BuffersEmitExactly(actions: seq<Action>, b: nat)
    requires b < |Run(actions).buffers|
    ensures Run(actions).buffers[b].emitted <==> Completed(History(actions, b))
  {
    if actions != [] {
      var init, last := actions[..|actions| - 1], actions[|actions| - 1];
      var s := Run(init);
      RunFollows(init, b);
      if b < |s.buffers| {
        BuffersEmitExactly(init, b);
        StepEmitsExactly(s, last, b, History(init, b));
      } else {
        NewBufferIsFresh(s, last, b);
      }
    }
  }

  lemma StepEmitsExactly(s: State, a: Action, b: nat, history: seq<UdpPacket>)
    requires Inv(s) && b < |s.buffers| && Follows(s, b, history)
    requires s.buffers[b].emitted <==> Completed(history)
    ensures b < |Apply(s, a).buffers|
    ensures Apply(s, a).buffers[b].emitted <==>
      Completed(if a.Locked? && Enters(s, a.call, b) then history + [s.calls[a.call].packet] else history)
  {
    if a.Locked? && Enters(s, a.call, b) {
      var p := s.calls[a.call].packet;
      assert CallOk(s, s.calls[a.call]) && SlotOk(s.calls, s.buffers[b], b);
      CompletedSnoc(history, p);
      TouchGathers(s.buffers[b], GatherAll(history), p);
      LockedEmits(s, a.call, b);
    } else if a.Lookup? && a.call < |s.calls| && s.calls[a.call].Arrived? {
      assert CallOk(s, s.calls[a.call]);
    }
  }

  lemma NewBufferIsFresh(s: State, a: Action, b: nat)
    requires Inv(s) && |s.buffers| <= b < |Apply(s, a).buffers|
    ensures !Apply(s, a).buffers[b].emitted && !(a.Locked? && Enters(s, a.call, b))
  {
    if a.Lookup? && a.call < |s.calls| && s.calls[a.call].Arrived? {
      assert CallOk(s, s.calls[a.call]);
    }
  }

  // --- After an emission ---

  lemma RunSnoc(actions: seq<Action>, a: Action)
    ensures Run(actions + [a]) == Apply(Run(actions), a)
  {
    assert (actions + [a])[..|actions|] == actions;
  }

  /** The emitting call's last step takes the key out of the cache and keeps its result. */
  lemma EmissionFreesKey(actions: seq<Action>, c: nat)
    requires c < |Run(actions).calls| && Run(actions).calls[c].Clearing?
    ensures var s, after := Run(actions), Run(actions + [Invalidate(c)]);
            && s.calls[c].packet.Fragmented? && KeyOf(s.calls[c].packet) !in after.cache
            && c < |after.calls| && after.calls[c] == Returned(s.calls[c].packet, s.calls[c].buffer, s.calls[c].result)
            && (forall k :: k in s.cache && k != KeyOf(s.calls[c].packet) ==> k in after.cache)
  {
    RunSnoc(actions, Invalidate(c));
    assert CallOk(Run(actions), Run(actions).calls[c]);
  }

  /**
   * The next call of a key that is not cached starts afresh: a buffer of its own, in
   * which nothing has been gathered. So a second complete delivery emits again.
   */
  lemma NextLookupStartsAfresh(actions: seq<Action>, c: nat)
    requires c < |Run(actions).calls| && Run(actions).calls[c].Arrived?
    requires Run(actions).calls[c].packet.Fragmented? && KeyOf(Run(actions).calls[c].packet) !in Run(actions).cache
    ensures var s, after := Run(actions), Run(actions + [Lookup(c)]);
            var b := |s.buffers|;
            && c < |after.calls| && after.calls[c] == Holding(s.calls[c].packet, b)
            && KeyOf(s.calls[c].packet) in after.cache && after.cache[KeyOf(s.calls[c].packet)] == b
            && History(actions + [Lookup(c)], b) == [] && GatherAll([]) == AnyTraffic.Nothing
  {
    RunSnoc(actions, Lookup(c));
    RunFollows(actions, |Run(actions).buffers|);
    assert (actions + [Lookup(c)])[..|actions|] == actions;
  }

  // --- Nobody is stuck ---

  /** A lock that is held is given up by the one call that holds it. */
  lemma FreesLock(s: State, d: nat, b: nat)
    requires Inv(s) && d < |s.calls| && s.calls[d].Clearing? && s.calls[d].buffer == b
    ensures LockFree(Apply(s, Invalidate(d)), b) && |Apply(s, Invalidate(d)).calls| == |s.calls|
    ensures forall e :: 0 <= e < |s.calls| && e != d ==> Apply(s, Invalidate(d)).calls[e] == s.calls[e]
  {
    assert CallOk(s, s.calls[d]);
    forall e | 0 <= e < |s.calls| && e != d && s.calls[e].Clearing?
      ensures s.calls[e].buffer != b
    {
      assert CallOk(s, s.calls[e]);
    }
  }

  lemma FreeLock(actions: seq<Action>, c: nat) returns (actions': seq<Action>)
    requires c < |Run(actions).calls| && Run(actions).calls[c].Holding?
    ensures actions <= actions' && |Run(actions').calls| == |Run(actions).calls|
    ensures Run(actions').calls[c] == Run(actions).calls[c]
    ensures LockFree(Run(actions'), Run(actions).calls[c].buffer)
  {
    var s := Run(actions);
    var b := s.calls[c].buffer;
    actions' := actions;
    if !LockFree(s, b) {
      var d: nat :| d < |s.calls| && s.calls[d].Clearing? && s.calls[d].buffer == b;
      actions' := actions + [Invalidate(d)];
      RunSnoc(actions, Invalidate(d));
      FreesLock(s, d, b);
    }
  }

  /** How many steps of its own a call has still to take. */
  function StepsLeft(call: Call): nat {
    match call
    case Arrived(_) => 3
    case Holding(_, _) => 2
    case Clearing(_, _, _) => 1
    case _ => 0
  }

  lemma LookupGoesOn(s: State, c: nat)
    requires Inv(s) && c < |s.calls| && s.calls[c].Arrived?
    ensures |Apply(s, Lookup(c)).calls| == |s.calls| && Apply(s, Lookup(c)).calls[c].Holding?
  {
    assert CallOk(s, s.calls[c]);
  }

  lemma LockedGoesOn(s: State, c: nat)
    requires Inv(s) && c < |s.calls| && s.calls[c].Holding? && LockFree(s, s.calls[c].buffer)
    ensures |Apply(s, Locked(c)).calls| == |s.calls| && Settled(Apply(s, Locked(c)).calls[c])
  {
    assert CallOk(s, s.calls[c]);
  }

  /** From every reachable state every call can go on until it has returned. */
  lemma {:induction false} EveryCallCanReturn(actions: seq<Action>, c: nat) returns (actions': seq<Action>)
    requires c < |Run(actions).calls| && !Run(actions).calls[c].Passed?
    ensures actions <= actions' && c < |Run(actions').calls| && Run(actions').calls[c].Returned?
    decreases StepsLeft(Run(actions).calls[c])
  {
    var call := Run(actions).calls[c];
    if call.Arrived? {
      LookupGoesOn(Run(actions), c);
      RunSnoc(actions, Lookup(c));
      actions' := EveryCallCanReturn(actions + [Lookup(c)], c);
    } else if call.Holding? {
      var free := FreeLock(actions, c);
      LockedGoesOn(Run(free), c);
      RunSnoc(free, Locked(c));
      actions' := EveryCallCanReturn(free + [Locked(c)], c);
    } else if call.Clearing? {
      actions' := actions + [Invalidate(c)];
      EmissionFreesKey(actions, c);
    } else {
      actions' := actions;
    }
  }

  /** A call with an unfragmented packet passes straight through. */
  lemma WholePassesStraight(actions: seq<Action>, p: UdpPacket)
    requires p.Unfragmented?
    ensures Run(actions + [Deliver(p)]) == Run(actions).(calls := Run(actions).calls + [Passed(p)])
  {
    RunSnoc(actions, Deliver(p));
  }
}
