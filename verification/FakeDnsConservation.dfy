/** Every address the pool ever issued is in exactly one place. */
module FakeDnsConservation {
  import opened Base
  import opened Runs
  import opened FakeDnsPool

  /** Where an issued address can be. */
  datatype Place =
    | WithQuery(query: nat)
    | MapKey(key: Addr)
    | WithListener(listener: nat)
    | InQueue(index: nat)

  predicate Occupies(s: State, ip: Addr, p: Place) {
    match p
    case WithQuery(q) => q < |s.queries| && s.queries[q].Holding? && s.queries[q].ip == ip
    case MapKey(k) => k == ip && ip in s.ipToDomain
    case WithListener(l) => l < |s.listeners| && !s.listeners[l].Finished? && s.listeners[l].ip == ip
    case InQueue(i) => i < |s.recycled| && s.recycled[i] == ip
  }

  /** The cursor has moved past this address. */
  predicate Issued(s: State, ip: Addr) {
    FreshIp(s.net, 2) <= ip < FreshIp(s.net, s.cursor)
  }

  ghost predicate Exclusive(s: State) {
    forall ip, p, p' :: Occupies(s, ip, p) && Occupies(s, ip, p') ==> p == p'
  }

  ghost predicate Placed(s: State, ip: Addr) {
    exists p :: Occupies(s, ip, p)
  }

  ghost predicate Covered(s: State) {
    forall ip :: Issued(s, ip) <==> Placed(s, ip)
  }

  /** The cursor stays in the pool, and no retry loop has failed more often than the cursor moved. */
  predicate CursorOk(s: State) {
    && s.net.prefix <= 32 && 2 <= s.cursor && (s.cursor == 2 || s.cursor <= MaxHosts(s.net))
    && forall q :: 0 <= q < |s.queries| ==>
         && (s.queries[q].Looping? ==> s.queries[q].failures + 2 <= s.cursor)
         && (s.queries[q].Loaded? ==>
               && s.queries[q].failures + 2 <= s.queries[q].current <= s.cursor
               && s.queries[q].current < MaxHosts(s.net))
  }

  ghost predicate Inv(s: State) {
    Exclusive(s) && Covered(s) && CursorOk(s)
  }

  /** A step that moves addresses between places without issuing one. */
  lemma MoveKeeps(s: State, s': State, back: Place -> Place, forth: Place -> Place)
    requires Exclusive(s) && Covered(s)
    requires forall ip :: Issued(s', ip) <==> Issued(s, ip)
    requires forall ip, p :: Occupies(s', ip, p) ==> Occupies(s, ip, back(p)) && forth(back(p)) == p
    requires forall ip, p :: Occupies(s, ip, p) ==> Occupies(s', ip, forth(p))
    ensures Exclusive(s') && Covered(s')
  {
    forall ip
      ensures Issued(s', ip) <==> Placed(s', ip)
    {
      if Placed(s, ip) {
        var p :| Occupies(s, ip, p);
        assert Occupies(s', ip, forth(p));
      }
      if Placed(s', ip) {
        var p :| Occupies(s', ip, p);
        assert Occupies(s, ip, back(p));
      }
    }
  }

  lemma StillKeeps(s: State, s': State)
    requires Exclusive(s) && Covered(s) && s'.net == s.net && s'.cursor == s.cursor
    requires forall ip, p :: Occupies(s', ip, p) <==> Occupies(s, ip, p)
    ensures Exclusive(s') && Covered(s')
  {
    MoveKeeps(s, s', p => p, p => p);
  }

  lemma PopKeeps(s: State, q: nat, s': State)
    requires Inv(s) && PopStep(s, q, s')
    ensures Inv(s')
  {
    if |s.recycled| > 0 {
      MoveKeeps(s, s',
                p => if p == WithQuery(q) then InQueue(0) else if p.InQueue? then InQueue(p.index + 1) else p,
                p => if p == InQueue(0) then WithQuery(q)
                     else if p.InQueue? && p.index > 0 then InQueue(p.index - 1) else p);
    } else {
      StillKeeps(s, s');
    }
  }

  lemma ExchangeKeeps(s: State, q: nat, s': State)
    requires Inv(s) && ExchangeStep(s, q, s')
    ensures Inv(s')
  {
    var current := s.queries[q].current;
    if s.cursor == current {
      var ip := FreshIp(s.net, current);
      assert !Placed(s, ip);
      assert Occupies(s', ip, WithQuery(q));
      assert forall a, p :: Occupies(s', a, p) ==> (a == ip && p == WithQuery(q)) || Occupies(s, a, p);
      assert forall a, p :: Occupies(s, a, p) ==> Occupies(s', a, p);
      forall a
        ensures Issued(s', a) <==> Placed(s', a)
      {
        if Placed(s, a) {
          var p :| Occupies(s, a, p);
          assert Occupies(s', a, p);
        }
      }
    } else {
      StillKeeps(s, s');
    }
  }

  lemma InsertIpKeeps(s: State, q: nat, s': State)
    requires Inv(s) && InsertIpStep(s, q, s')
    ensures Inv(s') && s.queries[q].ip !in s.ipToDomain
  {
    var ip := s.queries[q].ip;
    assert Occupies(s, ip, WithQuery(q)) && !Occupies(s, ip, MapKey(ip));
    MoveSwap(s, s', ip, WithQuery(q), MapKey(ip));
  }

  /** The address `ip` moves from one place to another; nothing else moves. */
  lemma MoveSwap(s: State, s': State, ip: Addr, from: Place, to: Place)
    requires Exclusive(s) && Covered(s) && s'.net == s.net && s'.cursor == s.cursor
    requires Occupies(s, ip, from) && Occupies(s', ip, to) && from != to
    requires forall a, p :: Occupies(s', a, p) ==> (a == ip && p == to) || (Occupies(s, a, p) && p != from)
    requires forall a, p :: Occupies(s, a, p) && p != from ==> Occupies(s', a, p)
    ensures Exclusive(s') && Covered(s')
  {
    forall p | Occupies(s, ip, p)
      ensures p == from
    {
    }
    forall a
      ensures Issued(s', a) <==> Placed(s', a)
    {
      if a == ip {
        assert Placed(s, a) && Placed(s', a);
      } else if Placed(s, a) {
        var p :| Occupies(s, a, p);
        assert Occupies(s', a, p);
      }
    }
  }

  lemma RemoveIpKeeps(s: State, ip: Addr, s': State)
    requires Inv(s) && RemoveIpStep(s, ip, s')
    ensures Inv(s')
  {
    assert Occupies(s, ip, MapKey(ip));
    MoveSwap(s, s', ip, MapKey(ip), WithListener(|s.listeners|));
  }

  lemma RecycleKeeps(s: State, l: nat, s': State)
    requires Inv(s) && RecycleStep(s, l, s')
    ensures Inv(s')
  {
    var ip := s.listeners[l].ip;
    assert Occupies(s, ip, WithListener(l));
    MoveSwap(s, s', ip, WithListener(l), InQueue(|s.recycled|));
  }

  lemma NextKeeps(s: State, a: Action, s': State)
    requires Inv(s) && Next(s, a, s')
    ensures Inv(s') && s'.net == s.net
  {
    match a
    case PopRecycled(q) => PopKeeps(s, q, s');
    case CompareExchange(q) => ExchangeKeeps(s, q, s');
    case InsertIp(q) => InsertIpKeeps(s, q, s');
    case RemoveIp(ip) => RemoveIpKeeps(s, ip, s');
    case Recycle(l) => RecycleKeeps(s, l, s');
    case _ => StillKeeps(s, s');
  }

  // --- Results over every run ---

  ghost predicate PoolRun(net: Net, states: seq<State>, actions: seq<Action>) {
    ValidNet(net) && Behaviour(states, actions) && states[0] == Init(net)
  }

  lemma InitInv(net: Net)
    requires ValidNet(net)
    ensures Inv(Init(net))
  {
    assert forall ip, p :: !Occupies(Init(net), ip, p);
  }

  lemma RunKeepsInv(net: Net, states: seq<State>, actions: seq<Action>, i: nat)
    requires PoolRun(net, states, actions) && i < |states|
    ensures Inv(states[i]) && states[i].net == net
  {
    InitInv(net);
    forall s, a, s' | InvOn(s, net) && Next(s, a, s')
      ensures InvOn(s', net)
    {
      NextKeeps(s, a, s');
    }
    RunKeeps(Next, s => InvOn(s, net), states, actions, 0, i);
  }

  ghost predicate InvOn(s: State, net: Net) {
    Inv(s) && s.net == net
  }

  /**
   * Conservation over all interleavings of queries and removals: an address the
   * cursor issued is in exactly one place (one query, the map, one listener or
   * the recycle queue), and no other address is anywhere. So no address is ever
   * handed out twice at once.
   */
  lemma AddressesAreConserved(net: Net, states: seq<State>, actions: seq<Action>, i: nat, ip: Addr)
    requires PoolRun(net, states, actions) && i < |states|
    ensures Issued(states[i], ip) <==> exists p :: Occupies(states[i], ip, p)
    ensures forall p, p' :: Occupies(states[i], ip, p) && Occupies(states[i], ip, p') ==> p == p'
  {
    RunKeepsInv(net, states, actions, i);
    assert Issued(states[i], ip) <==> Placed(states[i], ip);
  }

  /** Every address in use lies strictly between the network and the broadcast address. */
  lemma IssuedAddressesAreHosts(net: Net, states: seq<State>, actions: seq<Action>, i: nat, ip: Addr)
    requires PoolRun(net, states, actions) && i < |states| && Issued(states[i], ip)
    ensures net.network < ip < Broadcast(net) < 0x1_0000_0000
  {
    RunKeepsInv(net, states, actions, i);
    if net.prefix >= 31 {
      Pow2Grows(32 - net.prefix, 1);
    }
  }

  lemma {:induction false} RangeBound(addresses: set<int>, low: int, high: int)
    requires low <= high && forall x :: x in addresses ==> low <= x < high
    ensures |addresses| <= high - low
    decreases high - low
  {
    if low < high {
      RangeBound(addresses - {high - 1}, low, high - 1);
    } else {
      forall x
        ensures x !in addresses
      {
      }
    }
  }

  /** The address map never outgrows the pool, so its capacity never forces an entry out. */
  lemma MapFitsPool(net: Net, states: seq<State>, actions: seq<Action>, i: nat)
    requires PoolRun(net, states, actions) && i < |states|
    ensures |states[i].ipToDomain| <= states[i].cursor - 2
    ensures states[i].ipToDomain != map[] ==> |states[i].ipToDomain| <= MaxHosts(net) - 2
  {
    RunKeepsInv(net, states, actions, i);
    var s := states[i];
    forall ip | ip in s.ipToDomain
      ensures Issued(s, ip)
    {
      assert Occupies(s, ip, MapKey(ip));
      assert Placed(s, ip);
    }
    RangeBound(s.ipToDomain.Keys, FreshIp(net, 2), FreshIp(net, s.cursor));
    assert |s.ipToDomain| == |s.ipToDomain.Keys|;
  }

  /** The retry loop of one query fails at most as often as the pool has fresh addresses. */
  lemma RetriesAreBounded(net: Net, states: seq<State>, actions: seq<Action>, i: nat, q: nat)
    requires PoolRun(net, states, actions) && i < |states| && q < |states[i].queries|
    ensures states[i].queries[q].Loaded? ==> states[i].queries[q].failures < MaxHosts(net) - 2
    ensures states[i].queries[q].Looping? && states[i].queries[q].failures > 0 ==>
      states[i].queries[q].failures <= MaxHosts(net) - 2
  {
    RunKeepsInv(net, states, actions, i);
  }

  /** A failed exchange means that another query took the value: fewer fresh addresses are left. */
  lemma FailedExchangeIsProgress(net: Net, states: seq<State>, actions: seq<Action>, i: nat, q: nat)
    requires PoolRun(net, states, actions) && i < |states| && q < |states[i].queries|
    requires states[i].queries[q].Loaded? && states[i].cursor != states[i].queries[q].current
    ensures MaxHosts(net) - states[i].cursor < MaxHosts(net) - states[i].queries[q].current
  {
    RunKeepsInv(net, states, actions, i);
  }

  // --- The whole pool is handed out ---

  /** The sizes of common networks. */
  lemma NetworkSizes(net: Net)
    requires net.prefix <= 32
    ensures net.prefix == 32 ==> Size(net) == 1
    ensures net.prefix < 32 ==> Size(net) == 2 * Size(net.(prefix := net.prefix + 1))
    ensures net.prefix == 30 ==> Size(net) == 4 && MaxHosts(net) == 2
    ensures net.prefix == 24 ==> Size(net) == 256 && MaxHosts(net) == 254
    ensures net.prefix == 16 ==> Size(net) == 0x1_0000 && MaxHosts(net) == 65534
  {
    assert Pow2(4) == 16;
    assert Pow2(8) == 256;
    assert Pow2(12) == 0x1000;
    assert Pow2(16) == 0x1_0000;
  }

  /** A query that was told that the pool is used up was told the truth. */
  predicate NoneIsHonest(s: State) {
    s.net.prefix <= 30 ==>
      forall q :: 0 <= q < |s.queries| && s.queries[q].Answered? && s.queries[q].answer.None? ==>
        s.net.network + Pow2(32 - s.net.prefix) - 1 <= s.net.network + 1 + s.cursor
  }

  lemma NoneStaysHonest(s: State, a: Action, s': State)
    requires NoneIsHonest(s) && Next(s, a, s') && s.net.prefix <= 32
    ensures NoneIsHonest(s') && s'.net == s.net && s.cursor <= s'.cursor
  {
  }

  ghost predicate HonestOn(s: State, net: Net) {
    InvOn(s, net) && NoneIsHonest(s)
  }

  /**
   * A query ends without an address only when every address between network + 2
   * and broadcast has been issued and is somewhere: in a query, in the map, with a
   * listener or in the recycle queue.
   */
  lemma NoneMeansUsedUp(net: Net, states: seq<State>, actions: seq<Action>, i: nat, q: nat, ip: Addr)
    requires PoolRun(net, states, actions) && i < |states| && net.prefix <= 30
    requires q < |states[i].queries| && states[i].queries[q].Answered? && states[i].queries[q].answer.None?
    requires net.network + 2 < ip < net.network + Pow2(32 - net.prefix) - 1
    ensures Issued(states[i], ip) && exists p :: Occupies(states[i], ip, p)
  {
    InitInv(net);
    forall s, a, s' | HonestOn(s, net) && Next(s, a, s')
      ensures HonestOn(s', net)
    {
      NextKeeps(s, a, s');
      NoneStaysHonest(s, a, s');
    }
    RunKeeps(Next, s => HonestOn(s, net), states, actions, 0, i);
    AddressesAreConserved(net, states, actions, i, ip);
  }

  /**
   * A fresh address is the lowest one from network + 3 on that has not been issued;
   * it was nowhere before.
   */
  lemma FreshIsLowest(net: Net, states: seq<State>, actions: seq<Action>, i: nat, q: nat)
    requires PoolRun(net, states, actions) && i < |actions| && actions[i] == CompareExchange(q)
    requires q < |states[i + 1].queries| && states[i + 1].queries[q].Holding?
    ensures var ip := states[i + 1].queries[q].ip;
            && net.network + 3 <= ip < net.network + Pow2(32 - net.prefix) - 1
            && !Issued(states[i], ip) && Issued(states[i + 1], ip)
            && (forall lower :: net.network + 3 <= lower < ip ==> Issued(states[i], lower))
            && (forall other :: other != ip ==> (Issued(states[i + 1], other) <==> Issued(states[i], other)))
  {
    RunKeepsInv(net, states, actions, i);
    RunKeepsInv(net, states, actions, i + 1);
    assert Next(states[i], actions[i], states[i + 1]);
    IssuedAddressesAreHosts(net, states, actions, i + 1, states[i + 1].queries[q].ip);
  }
}
