/**
 * The fake DNS allocator (module `fakedns` of crates/ombrac-client/src/endpoint/tun.rs)
 * with any number of queries in flight. Each cache, queue or cursor access is
 * one step; entries may leave either cache at any time.
 */
module FakeDnsPool {
  import opened Base
  import opened Runs

  type Name = string
  type Addr = int

  function Pow2(n: nat): (p: nat)
    ensures p >= 1
  {
    if n == 0 then 1 else 2 * Pow2(n - 1)
  }

  lemma {:induction false} Pow2Grows(a: nat, b: nat)
    requires a <= b
    ensures Pow2(a) <= Pow2(b)
  {
    if a < b {
      Pow2Grows(a, b - 1);
    }
  }

  /** An IPv4 network; `network` is its lowest address. */
  datatype Net = Net(network: nat, prefix: nat)

  function Size(net: Net): nat
    requires net.prefix <= 32
  {
    Pow2(32 - net.prefix)
  }

  predicate ValidNet(net: Net) {
    && net.prefix <= 32
    && net.network % Size(net) == 0
    && net.network + Size(net) <= 0x1_0000_0000
  }

  function Broadcast(net: Net): int
    requires net.prefix <= 32
  {
    net.network + Size(net) - 1
  }

  /** How many hosts the network iterates over: all addresses of a /31 or /32, else all but two. */
  function MaxHosts(net: Net): int
    requires net.prefix <= 32
  {
    if net.prefix >= 31 then Size(net) else Size(net) - 2
  }

  datatype Query =
    | Asked(domain: Name)
    | Missed(domain: Name)
    | Looping(domain: Name, failures: nat)
    | Loaded(domain: Name, current: nat, failures: nat)
    | Holding(domain: Name, ip: Addr)
    | HalfInserted(domain: Name, ip: Addr)
    | Answered(domain: Name, answer: Option<Addr>)

  /** The removal listener of one `ip_to_domain` entry. */
  datatype Listener =
    | Fired(ip: Addr, domain: Name)
    | Invalidated(ip: Addr, domain: Name)
    | Finished

  datatype State = State(
    net: Net,
    cursor: nat,
    recycled: seq<Addr>,
    domainToIp: map<Name, Addr>,
    ipToDomain: map<Addr, Name>,
    queries: seq<Query>,
    listeners: seq<Listener>)

  function Init(net: Net): State {
    State(net, 2, [], map[], map[], [], [])
  }

  datatype Action =
    | Ask(domain: Name)
    | Lookup(query: nat)
    | PopRecycled(query: nat)
    | LoadCursor(query: nat)
    | CompareExchange(query: nat)
    | InsertIp(query: nat)
    | InsertDomain(query: nat)
    | RemoveIp(ip: Addr)
    | RemoveDomain(domain: Name)
    | Invalidate(listener: nat)
    | Recycle(listener: nat)

  /** The address handed out for cursor value `c`. */
  function FreshIp(net: Net, c: nat): Addr {
    net.network + 1 + c
  }

  predicate At(s: State, q: nat) {
    q < |s.queries|
  }

  function Set(s: State, q: nat, query: Query): State
    requires At(s, q)
  {
    s.(queries := s.queries[q := query])
  }

  predicate LookupStep(s: State, q: nat, s': State) {
    && At(s, q) && s.queries[q].Asked?
    && var d := s.queries[q].domain;
    s' == Set(s, q, if d in s.domainToIp then Answered(d, Some(s.domainToIp[d])) else Missed(d))
  }

  predicate PopStep(s: State, q: nat, s': State) {
    && At(s, q) && s.queries[q].Missed?
    && var d := s.queries[q].domain;
    if |s.recycled| > 0
    then s' == Set(s, q, Holding(d, s.recycled[0])).(recycled := s.recycled[1..])
    else s' == Set(s, q, Looping(d, 0))
  }

  predicate LoadStep(s: State, q: nat, s': State) {
    && At(s, q) && s.queries[q].Looping? && s.net.prefix <= 32
    && var d := s.queries[q].domain;
    s' == Set(s, q, if s.cursor >= MaxHosts(s.net) then Answered(d, None)
                    else Loaded(d, s.cursor, s.queries[q].failures))
  }

  predicate ExchangeStep(s: State, q: nat, s': State) {
    && At(s, q) && s.queries[q].Loaded?
    && var Loaded(d, current, failures) := s.queries[q];
    if s.cursor == current
    then s' == Set(s, q, Holding(d, FreshIp(s.net, current))).(cursor := current + 1)
    else s' == Set(s, q, Looping(d, failures + 1))
  }

  /** Overwriting an entry would also run the removal listener. */
  predicate InsertIpStep(s: State, q: nat, s': State) {
    && At(s, q) && s.queries[q].Holding?
    && var Holding(d, ip) := s.queries[q];
    s' == Set(s, q, HalfInserted(d, ip)).(
            ipToDomain := s.ipToDomain[ip := d],
            listeners := if ip in s.ipToDomain then s.listeners + [Fired(ip, s.ipToDomain[ip])] else s.listeners)
  }

  predicate InsertDomainStep(s: State, q: nat, s': State) {
    && At(s, q) && s.queries[q].HalfInserted?
    && var HalfInserted(d, ip) := s.queries[q];
    s' == Set(s, q, Answered(d, Some(ip))).(domainToIp := s.domainToIp[d := ip])
  }

  predicate RemoveIpStep(s: State, ip: Addr, s': State) {
    && ip in s.ipToDomain
    && s' == s.(ipToDomain := s.ipToDomain - {ip}, listeners := s.listeners + [Fired(ip, s.ipToDomain[ip])])
  }

  predicate InvalidateStep(s: State, l: nat, s': State) {
    && l < |s.listeners| && s.listeners[l].Fired?
    && var Fired(ip, d) := s.listeners[l];
    s' == s.(domainToIp := s.domainToIp - {d}, listeners := s.listeners[l := Invalidated(ip, d)])
  }

  predicate RecycleStep(s: State, l: nat, s': State) {
    && l < |s.listeners| && s.listeners[l].Invalidated?
    && s' == s.(recycled := s.recycled + [s.listeners[l].ip], listeners := s.listeners[l := Finished])
  }

  predicate Next(s: State, a: Action, s': State) {
    match a
    case Ask(d) => s' == s.(queries := s.queries + [Asked(d)])
    case Lookup(q) => LookupStep(s, q, s')
    case PopRecycled(q) => PopStep(s, q, s')
    case LoadCursor(q) => LoadStep(s, q, s')
    case CompareExchange(q) => ExchangeStep(s, q, s')
    case InsertIp(q) => InsertIpStep(s, q, s')
    case InsertDomain(q) => InsertDomainStep(s, q, s')
    case RemoveIp(ip) => RemoveIpStep(s, ip, s')
    case RemoveDomain(d) => s' == s.(domainToIp := s.domainToIp - {d})
    case Invalidate(l) => InvalidateStep(s, l, s')
    case Recycle(l) => RecycleStep(s, l, s')
  }

  /** The states of a run; step i is `actions[i]`. */
  ghost predicate Behaviour(states: seq<State>, actions: seq<Action>) {
    IsRun(Next, states, actions)
  }
}
