/**
 * The operations of FakeDns as they are written in
 * crates/ombrac-client/src/endpoint/tun.rs. A query that nothing interrupts has
 * the stated effect and is a run of the interleaved model; the allocation loop
 * is shown to end although others advance the cursor under it.
 */
module FakeDnsMethods {
  import opened Base
  import opened Runs
  import opened FakeDnsPool

  datatype Question = Unparsable | NoQuestions | OtherType | ARecord(domain: Name)

  datatype Response = Refused | Answer(domain: Name, ttl: nat, ip: Addr)

  const DNS_RESPONSE_TTL: nat := 5

  /** What a query is left with once it has an address, or has found the pool used up. */
  function Outcome(d: Name, ip: Option<Addr>): Query {
    if ip.Some? then Holding(d, ip.value) else Answered(d, None)
  }

  /** No other query interferes. */
  predicate Quiet(others: seq<nat>) {
    forall k :: 0 <= k < |others| ==> others[k] == 0
  }

  class FakeDns {
    const net: Net
    var cursor: nat
    var recycled: seq<Addr>
    var domainToIp: map<Name, Addr>
    var ipToDomain: map<Addr, Name>
    var queries: seq<Query>
    var listeners: seq<Listener>

    function Now(): State
      reads this
    {
      State(net, cursor, recycled, domainToIp, ipToDomain, queries, listeners)
    }

    constructor (net: Net)
      requires ValidNet(net)
      ensures Now() == Init(net)
    {
      this.net := net;
      this.cursor := 2;
      this.recycled, this.domainToIp, this.ipToDomain := [], map[], map[];
      this.queries, this.listeners := [], [];
    }

    /** Other queries take fresh addresses while this one is between its load and its exchange. */
    method OthersAdvanceCursor(taken: nat)
      requires net.prefix <= 32
      modifies this`cursor
      ensures old(cursor) <= cursor && (cursor == old(cursor) || cursor <= MaxHosts(net))
      ensures taken == 0 ==> cursor == old(cursor)
    {
      if cursor + taken <= MaxHosts(net) {
        cursor := cursor + taken;
      }
    }

    /**
     * `allocate_unique_ip` for query `q` while others advance the cursor, by
     * `others[k]` in round k: a recycled address if there is one, else a fresh one
     * no matter how the exchanges go, else nothing, and then the pool is used up.
     * Every failed exchange leaves fewer fresh addresses, which bounds the loop.
     */
    method AllocateUniqueIp(q: nat, others: seq<nat>, ghost from: State) returns (ip: Option<Addr>, failures: nat)
      requires q < |queries| && queries[q].Missed? && net.prefix <= 32 && Reaches(Next, from, Now())
      modifies this`cursor, this`recycled, this`queries
      ensures old(recycled) != [] ==>
        ip == Some(old(recycled)[0]) && recycled == old(recycled)[1..] && cursor == old(cursor)
      ensures old(recycled) == [] ==> recycled == []
      ensures old(recycled) == [] && ip.Some? ==>
        && old(cursor) < cursor <= MaxHosts(net) && ip.value == net.network + cursor
      ensures ip.None? && net.prefix <= 30 ==> cursor >= Pow2(32 - net.prefix) - 2
      ensures old(cursor) + failures <= cursor
      ensures queries == old(queries)[q := Outcome(old(queries)[q].domain, ip)]
      ensures Quiet(others) ==>
        && Reaches(Next, from, Now()) && failures == 0
        && cursor == old(cursor) + (if old(recycled) == [] && ip.Some? then 1 else 0)
        && (net.prefix <= 30 ==> (ip.None? <==> old(recycled) == [] && old(cursor) >= Pow2(32 - net.prefix) - 2))
    {
      failures := 0;
      ghost var at := Now();
      var d := queries[q].domain;
      if |recycled| > 0 {
        ip := Some(recycled[0]);
        queries := queries[q := Holding(d, recycled[0])];
        recycled := recycled[1..];
        ReachesNext(Next, from, at, PopRecycled(q), Now());
        return;
      }
      queries := queries[q := Looping(d, 0)];
      ReachesNext(Next, from, at, PopRecycled(q), Now());
      while true
        invariant recycled == [] && old(recycled) == [] && old(cursor) + failures <= cursor
        invariant queries == old(queries)[q := Looping(d, failures)]
        invariant Quiet(others) ==> Reaches(Next, from, Now()) && failures == 0 && cursor == old(cursor)
        decreases MaxHosts(net) - cursor
      {
        at := Now();
        var current := cursor;
        if current >= MaxHosts(net) {
          queries := queries[q := Answered(d, None)];
          GoOn(from, at, LoadCursor(q), Quiet(others));
          return None, failures;
        }
        queries := queries[q := Loaded(d, current, failures)];
        GoOn(from, at, LoadCursor(q), Quiet(others));
        OthersAdvanceCursor(if failures < |others| then others[failures] else 0);
        var taken := Exchange(q, from, Quiet(others));
        if taken.Some? {
          return taken, failures;
        }
        failures := failures + 1;
      }
    }

    /** The `compare_exchange`: the address of the loaded value, if the cursor still has it. */
    method Exchange(q: nat, ghost from: State, ghost quiet: bool) returns (taken: Option<Addr>)
      requires q < |queries| && queries[q].Loaded? && (quiet ==> Reaches(Next, from, Now()))
      modifies this`cursor, this`queries
      ensures quiet ==> Reaches(Next, from, Now())
      ensures var Loaded(d, current, failures) := old(queries)[q];
              if old(cursor) == current
              then taken == Some(FreshIp(net, current)) && cursor == current + 1
                   && queries == old(queries)[q := Holding(d, FreshIp(net, current))]
              else taken == None && cursor == old(cursor) && queries == old(queries)[q := Looping(d, failures + 1)]
    {
      ghost var at := Now();
      var Loaded(d, current, failures) := queries[q];
      if cursor == current {
        cursor := current + 1;
        taken := Some(FreshIp(net, current));
        queries := queries[q := Holding(d, taken.value)];
      } else {
        taken := None;
        queries := queries[q := Looping(d, failures + 1)];
      }
      GoOn(from, at, CompareExchange(q), quiet);
    }

    lemma GoOn(from: State, at: State, a: Action, quiet: bool)
      requires Next(at, a, Now()) && (quiet ==> Reaches(Next, from, at))
      ensures quiet ==> Reaches(Next, from, Now())
    {
      if quiet {
        ReachesNext(Next, from, at, a, Now());
      }
    }

    /** Both maps learn the pair, the reverse map first. */
    method InsertBoth(q: nat, ghost from: State)
      requires q < |queries| && queries[q].Holding? && Reaches(Next, from, Now())
      modifies this`domainToIp, this`ipToDomain, this`queries, this`listeners
      ensures Reaches(Next, from, Now())
      ensures var Holding(d, ip) := old(queries)[q];
              domainToIp == old(domainToIp)[d := ip] && ipToDomain == old(ipToDomain)[ip := d]
    {
      ghost var at := Now();
      var d, ip := queries[q].domain, queries[q].ip;
      if ip in ipToDomain {
        listeners := listeners + [Fired(ip, ipToDomain[ip])];
      }
      ipToDomain := ipToDomain[ip := d];
      queries := queries[q := HalfInserted(d, ip)];
      ReachesNext(Next, from, at, InsertIp(q), Now());
      at := Now();
      domainToIp := domainToIp[d := ip];
      queries := queries[q := Answered(d, Some(ip))];
      ReachesNext(Next, from, at, InsertDomain(q), Now());
    }

    /**
     * `handle_dns_query`: a known domain keeps its address; a new one gets an
     * address that resolves back to it; other record types are refused.
     */
    method HandleDnsQuery(question: Question) returns (response: Option<Response>)
      requires net.prefix <= 32
      modifies this
      ensures Reaches(Next, old(Now()), Now())
      ensures question.OtherType? ==> response == Some(Refused)
      ensures question.Unparsable? || question.NoQuestions? ==> response == None
      ensures !question.ARecord? ==> Now() == old(Now())
      ensures question.ARecord? && question.domain in old(domainToIp) ==>
        && response == Some(Answer(question.domain, 5, old(domainToIp)[question.domain]))
        && domainToIp == old(domainToIp) && ipToDomain == old(ipToDomain) && cursor == old(cursor)
      ensures question.ARecord? && question.domain !in old(domainToIp) && response.Some? ==>
        && var d := question.domain;
        && response.value.Answer? && response.value.domain == d && response.value.ttl == 5
        && domainToIp == old(domainToIp)[d := response.value.ip]
        && ipToDomain == old(ipToDomain)[response.value.ip := d]
        && response.value.ip == if old(recycled) != [] then old(recycled)[0] else net.network + 1 + old(cursor)
      ensures question.ARecord? && net.prefix <= 30 ==>
        (response.None? <==>
           question.domain !in old(domainToIp) && old(recycled) == [] && old(cursor) >= Pow2(32 - net.prefix) - 2)
      ensures question.ARecord? && response.None? ==>
        && question.domain !in old(domainToIp) && old(recycled) == []
        && domainToIp == old(domainToIp) && ipToDomain == old(ipToDomain)
    {
      ghost var from := Now();
      ReachesSelf(Next, from);
      match question {
        case Unparsable => return None;
        case NoQuestions => return None;
        case OtherType => return Some(Refused);
        case ARecord(d) =>
          var q := |queries|;
          var known := LookUp(d, from);
          if known.Some? {
            return Some(Answer(d, DNS_RESPONSE_TTL, known.value));
          }
          var ip, _ := AllocateUniqueIp(q, [], from);
          if ip.None? {
            return None;
          }
          InsertBoth(q, from);
          return Some(Answer(d, DNS_RESPONSE_TTL, ip.value));
      }
    }

    method LookUp(d: Name, ghost from: State) returns (known: Option<Addr>)
      requires Reaches(Next, from, Now())
      modifies this`queries
      ensures Reaches(Next, from, Now()) && |queries| == |old(queries)| + 1
      ensures known == if d in domainToIp then Some(domainToIp[d]) else None
      ensures known.None? ==> queries[|old(queries)|] == Missed(d)
    {
      ghost var at := Now();
      var q := |queries|;
      queries := queries + [Asked(d)];
      ReachesNext(Next, from, at, Ask(d), Now());
      at := Now();
      known := if d in domainToIp then Some(domainToIp[d]) else None;
      queries := queries[q := if known.Some? then Answered(d, known) else Missed(d)];
      ReachesNext(Next, from, at, Lookup(q), Now());
    }

    /** The eviction listener of the reverse map, started by the removal of `ip`. */
    method EvictIp(ip: Addr)
      requires ip in ipToDomain
      modifies this
      ensures Reaches(Next, old(Now()), Now())
      ensures ipToDomain == old(ipToDomain) - {ip} && recycled == old(recycled) + [ip]
      ensures domainToIp == old(domainToIp) - {old(ipToDomain)[ip]} && cursor == old(cursor)
    {
      ghost var from, at := Now(), Now();
      ReachesSelf(Next, from);
      var d := ipToDomain[ip];
      var l := |listeners|;
      ipToDomain := ipToDomain - {ip};
      listeners := listeners + [Fired(ip, d)];
      ReachesNext(Next, from, at, RemoveIp(ip), Now());
      at := Now();
      domainToIp := domainToIp - {d};
      listeners := listeners[l := Invalidated(ip, d)];
      ReachesNext(Next, from, at, Invalidate(l), Now());
      at := Now();
      recycled := recycled + [ip];
      listeners := listeners[l := Finished];
      ReachesNext(Next, from, at, Recycle(l), Now());
    }
  }
}
