/** When the two FakeDns maps agree, and exactly what can make them disagree. */
module FakeDnsAgreement {
  import opened Base
  import opened Runs
  import opened FakeDnsPool
  import opened FakeDnsConservation

  /** The reverse map has the pair, or a listener for it has yet to invalidate the domain. */
  ghost predicate Backed(s: State, ip: Addr, d: Name) {
    || (ip in s.ipToDomain && s.ipToDomain[ip] == d)
    || exists l :: 0 <= l < |s.listeners| && s.listeners[l] == Fired(ip, d)
  }

  ghost predicate Agree(s: State) {
    forall d :: d in s.domainToIp ==> Backed(s, s.domainToIp[d], d)
  }

  /** A query between its two inserts still finds its first one in place. */
  predicate HalvesStand(s: State) {
    forall q :: 0 <= q < |s.queries| && s.queries[q].HalfInserted? ==>
      s.queries[q].ip in s.ipToDomain && s.ipToDomain[s.queries[q].ip] == s.queries[q].domain
  }

  /** The step removes an address whose query has not yet inserted its domain. */
  predicate RemovesHalf(s: State, a: Action) {
    a.RemoveIp? && exists q :: 0 <= q < |s.queries| && s.queries[q].HalfInserted? && s.queries[q].ip == a.ip
  }

  lemma InsertIpAgrees(s: State, q: nat, s': State)
    requires Inv(s) && Agree(s) && HalvesStand(s) && InsertIpStep(s, q, s')
    ensures Agree(s') && HalvesStand(s')
  {
    InsertIpKeeps(s, q, s');
    forall d | d in s'.domainToIp
      ensures Backed(s', s'.domainToIp[d], d)
    {
      assert Backed(s, s.domainToIp[d], d);
    }
  }

  lemma RemoveIpAgrees(s: State, ip: Addr, s': State)
    requires Agree(s) && HalvesStand(s) && RemoveIpStep(s, ip, s') && !RemovesHalf(s, RemoveIp(ip))
    ensures Agree(s') && HalvesStand(s')
  {
    forall d | d in s'.domainToIp
      ensures Backed(s', s'.domainToIp[d], d)
    {
      assert Backed(s, s.domainToIp[d], d);
      assert s'.listeners[|s.listeners|] == Fired(ip, s.ipToDomain[ip]);
      assert forall l :: 0 <= l < |s.listeners| ==> s'.listeners[l] == s.listeners[l];
    }
  }

  lemma InvalidateAgrees(s: State, l: nat, s': State)
    requires Agree(s) && HalvesStand(s) && InvalidateStep(s, l, s')
    ensures Agree(s') && HalvesStand(s')
  {
    forall d | d in s'.domainToIp
      ensures Backed(s', s'.domainToIp[d], d)
    {
      assert Backed(s, s.domainToIp[d], d);
      assert forall m :: 0 <= m < |s.listeners| && m != l ==> s'.listeners[m] == s.listeners[m];
    }
  }

  lemma RecycleAgrees(s: State, l: nat, s': State)
    requires Agree(s) && HalvesStand(s) && RecycleStep(s, l, s')
    ensures Agree(s') && HalvesStand(s')
  {
    forall d | d in s'.domainToIp
      ensures Backed(s', s'.domainToIp[d], d)
    {
      assert Backed(s, s.domainToIp[d], d);
      assert forall m :: 0 <= m < |s.listeners| && m != l ==> s'.listeners[m] == s.listeners[m];
    }
  }

  lemma OtherAgrees(s: State, a: Action, s': State)
    requires Agree(s) && HalvesStand(s) && Next(s, a, s')
    requires !a.InsertIp? && !a.RemoveIp? && !a.Invalidate? && !a.Recycle?
    ensures Agree(s') && HalvesStand(s')
  {
    forall d | d in s'.domainToIp
      ensures Backed(s', s'.domainToIp[d], d)
    {
      if d in s.domainToIp {
        assert Backed(s, s.domainToIp[d], d);
      }
    }
  }

  lemma NextAgrees(s: State, a: Action, s': State)
    requires Inv(s) && Agree(s) && HalvesStand(s) && Next(s, a, s') && !RemovesHalf(s, a)
    ensures Agree(s') && HalvesStand(s')
  {
    match a
    case InsertIp(q) => InsertIpAgrees(s, q, s');
    case RemoveIp(ip) => RemoveIpAgrees(s, ip, s');
    case Invalidate(l) => InvalidateAgrees(s, l, s');
    case Recycle(l) => RecycleAgrees(s, l, s');
    case _ => OtherAgrees(s, a, s');
  }

  /** No entry leaves the reverse map between the two inserts of its query. */
  ghost predicate Undisturbed(states: seq<State>, actions: seq<Action>)
    requires |states| == |actions| + 1
  {
    forall i :: 0 <= i < |actions| ==> !RemovesHalf(states[i], actions[i])
  }

  /**
   * In every undisturbed run the maps agree: a domain that resolves to an address
   * is what the address resolves back to, or a listener is about to forget it.
   */
  lemma MapsAgree(net: Net, states: seq<State>, actions: seq<Action>, i: nat)
    requires PoolRun(net, states, actions) && Undisturbed(states, actions) && i < |states|
    ensures Agree(states[i]) && HalvesStand(states[i])
  {
    RunKeepsInv(net, states, actions, 0);
    forall s, a, s' | InAgreement(s) && UndisturbedStep(s, a, s')
      ensures InAgreement(s')
    {
      NextKeeps(s, a, s');
      NextAgrees(s, a, s');
    }
    assert IsRun(UndisturbedStep, states, actions);
    RunKeeps(UndisturbedStep, InAgreement, states, actions, 0, i);
  }

  ghost predicate InAgreement(s: State) {
    Inv(s) && Agree(s) && HalvesStand(s)
  }

  predicate UndisturbedStep(s: State, a: Action, s': State) {
    Next(s, a, s') && !RemovesHalf(s, a)
  }

  /** A place from which the address still resolves or has yet to be forgotten. */
  predicate InService(s: State, p: Place) {
    p.MapKey? || (p.WithListener? && p.listener < |s.listeners| && s.listeners[p.listener].Fired?)
  }

  lemma BackedPlace(s: State, ip: Addr, d: Name)
    requires Backed(s, ip, d)
    ensures exists p :: Occupies(s, ip, p) && InService(s, p)
  {
    if ip in s.ipToDomain && s.ipToDomain[ip] == d {
      assert Occupies(s, ip, MapKey(ip));
    } else {
      var l :| 0 <= l < |s.listeners| && s.listeners[l] == Fired(ip, d);
      assert Occupies(s, ip, WithListener(l)) && InService(s, WithListener(l));
    }
  }

  lemma BackedOnce(s: State, ip: Addr, d: Name, d': Name)
    requires Inv(s) && Backed(s, ip, d)
    ensures Backed(s, ip, d') ==> d == d'
    ensures ip in s.ipToDomain ==> s.ipToDomain[ip] == d
  {
    if ip in s.ipToDomain {
      assert Occupies(s, ip, MapKey(ip));
    }
    if l :| 0 <= l < |s.listeners| && s.listeners[l] == Fired(ip, d) {
      assert Occupies(s, ip, WithListener(l));
    }
    if l :| 0 <= l < |s.listeners| && s.listeners[l] == Fired(ip, d') {
      assert Occupies(s, ip, WithListener(l));
    }
  }

  /** Two domains never resolve to one address, and no address resolves back to a wrong domain. */
  lemma ForwardMapIsInjective(net: Net, states: seq<State>, actions: seq<Action>, i: nat, d: Name, d': Name)
    requires PoolRun(net, states, actions) && Undisturbed(states, actions) && i < |states|
    requires d in states[i].domainToIp && d' in states[i].domainToIp
    ensures states[i].domainToIp[d] == states[i].domainToIp[d'] ==> d == d'
    ensures states[i].domainToIp[d] in states[i].ipToDomain ==>
      states[i].ipToDomain[states[i].domainToIp[d]] == d
  {
    MapsAgree(net, states, actions, i);
    RunKeepsInv(net, states, actions, i);
    BackedOnce(states[i], states[i].domainToIp[d], d, d');
  }

  /** The address can be handed to a new query, or is on its way to the queue. */
  predicate Reusable(s: State, ip: Addr) {
    || ip in s.recycled
    || (exists q :: 0 <= q < |s.queries| && s.queries[q].Holding? && s.queries[q].ip == ip)
    || (exists l :: 0 <= l < |s.listeners| && s.listeners[l].Invalidated? && s.listeners[l].ip == ip)
  }

  /** An address is reusable only when no domain resolves to it any more. */
  lemma ReusableIsUnreferenced(net: Net, states: seq<State>, actions: seq<Action>, i: nat, d: Name)
    requires PoolRun(net, states, actions) && Undisturbed(states, actions) && i < |states|
    requires d in states[i].domainToIp
    ensures !Reusable(states[i], states[i].domainToIp[d])
  {
    MapsAgree(net, states, actions, i);
    RunKeepsInv(net, states, actions, i);
    if Reusable(states[i], states[i].domainToIp[d]) {
      ReusableIsNotBacked(states[i], states[i].domainToIp[d], d);
    }
  }

  lemma ReusableIsNotBacked(s: State, ip: Addr, d: Name)
    requires Inv(s) && Reusable(s, ip)
    ensures !Backed(s, ip, d)
  {
    ReusablePlace(s, ip);
    var p :| Occupies(s, ip, p) && !InService(s, p);
    if Backed(s, ip, d) {
      BackedPlace(s, ip, d);
    }
  }

  lemma ReusablePlace(s: State, ip: Addr)
    requires Reusable(s, ip)
    ensures exists p :: Occupies(s, ip, p) && !InService(s, p)
  {
    if ip in s.recycled {
      var i :| 0 <= i < |s.recycled| && s.recycled[i] == ip;
      assert Occupies(s, ip, InQueue(i)) && !InService(s, InQueue(i));
    } else if q :| 0 <= q < |s.queries| && s.queries[q].Holding? && s.queries[q].ip == ip {
      assert Occupies(s, ip, WithQuery(q)) && !InService(s, WithQuery(q));
    } else {
      var l :| 0 <= l < |s.listeners| && s.listeners[l].Invalidated? && s.listeners[l].ip == ip;
      assert Occupies(s, ip, WithListener(l)) && !InService(s, WithListener(l));
    }
  }

  /**
   * The condition is exact. From any reachable state in which a removal hits an
   * address between the two inserts of its query, the listener and the query can
   * finish so that the domain resolves to an address that waits for reuse.
   */
  lemma DisturbedRunsCanDisagree(net: Net, states: seq<State>, actions: seq<Action>, ip: Addr) returns
      (states': seq<State>, actions': seq<Action>, d: Name)
    requires PoolRun(net, states, actions) && HalvesStand(states[|states| - 1])
    requires RemovesHalf(states[|states| - 1], RemoveIp(ip))
    ensures PoolRun(net, states', actions') && states <= states' && actions <= actions'
    ensures var last := states'[|states'| - 1];
            d in last.domainToIp && last.domainToIp[d] == ip && ip in last.recycled && !Agree(last)
  {
    var s0 := states[|states| - 1];
    var q :| 0 <= q < |s0.queries| && s0.queries[q].HalfInserted? && s0.queries[q].ip == ip;
    d := s0.queries[q].domain;
    var l := |s0.listeners|;
    var s1, s2, s3, s4 := FinishRemoval(s0, ip, q);
    states' := states + [s1, s2, s3, s4];
    actions' := actions + [RemoveIp(ip), Invalidate(l), Recycle(l), InsertDomain(q)];
    ExtendByFour(states, actions, s1, s2, s3, s4, RemoveIp(ip), Invalidate(l), Recycle(l), InsertDomain(q));
    RunKeepsInv(net, states', actions', |states'| - 1);
    ReusableIsNotBacked(s4, ip, d);
  }

  /** The removal, its whole listener, and only then the second insert of the query. */
  lemma FinishRemoval(s0: State, ip: Addr, q: nat) returns (s1: State, s2: State, s3: State, s4: State)
    requires HalvesStand(s0) && q < |s0.queries| && s0.queries[q].HalfInserted? && s0.queries[q].ip == ip
    ensures Next(s0, RemoveIp(ip), s1) && Next(s1, Invalidate(|s0.listeners|), s2)
    ensures Next(s2, Recycle(|s0.listeners|), s3) && Next(s3, InsertDomain(q), s4)
    ensures var d := s0.queries[q].domain;
            d in s4.domainToIp && s4.domainToIp[d] == ip && ip in s4.recycled && Reusable(s4, ip)
  {
    var d := s0.queries[q].domain;
    var l := |s0.listeners|;
    s1 := s0.(ipToDomain := s0.ipToDomain - {ip}, listeners := s0.listeners + [Fired(ip, d)]);
    s2 := s1.(domainToIp := s1.domainToIp - {d}, listeners := s1.listeners[l := Invalidated(ip, d)]);
    s3 := s2.(recycled := s2.recycled + [ip], listeners := s2.listeners[l := Finished]);
    s4 := Set(s3, q, Answered(d, Some(ip))).(domainToIp := s3.domainToIp[d := ip]);
    assert s4.recycled[|s2.recycled|] == ip;
  }

  lemma ExtendByFour(states: seq<State>, actions: seq<Action>, s1: State, s2: State, s3: State, s4: State,
                     a1: Action, a2: Action, a3: Action, a4: Action)
    requires Behaviour(states, actions) && Next(states[|states| - 1], a1, s1)
    requires Next(s1, a2, s2) && Next(s2, a3, s3) && Next(s3, a4, s4)
    ensures Behaviour(states + [s1, s2, s3, s4], actions + [a1, a2, a3, a4])
  {
  }
}
