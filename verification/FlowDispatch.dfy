/** Spreading inbound packets over the TCP workers (crates/ombrac-netstack/src/tcp.rs). */
module FlowDispatch {
  import opened Base

  datatype Ip = V4(bits: U32) | V6(wide: nat)

  datatype SockAddr = SockAddr(ip: Ip, port: U16)

  /** A packet that parses as TCP, or anything else. */
  datatype Packet =
    | Tcp(src: SockAddr, dst: SockAddr, body: Bytes)
    | Other(body: Bytes)

  /** The order of socket addresses: IPv4 first, then address, then port. */
  predicate IpAbove(a: Ip, b: Ip) {
    match (a, b)
    case (V4(x), V4(y)) => x > y
    case (V6(x), V6(y)) => x > y
    case (V6(_), V4(_)) => true
    case (V4(_), V6(_)) => false
  }

  predicate Above(a: SockAddr, b: SockAddr) {
    IpAbove(a.ip, b.ip) || (a.ip == b.ip && a.port > b.port)
  }

  /** The worker of a packet; the hash of the ordered endpoints is left uninterpreted. */
  function WorkerOf(p: Packet, workers: nat, hash: (SockAddr, SockAddr) -> nat): (w: nat)
    requires workers >= 1
    ensures w < workers
  {
    match p
    case Other(_) => 0
    case Tcp(src, dst, _) =>
      if Above(src, dst) then hash(dst, src) % workers else hash(src, dst) % workers
  }

  /** What the dispatcher's `select!` sees next; `accepted` tells whether the worker's channel is open. */
  datatype Event =
    | Inbound(packet: Packet, accepted: bool)
    | InboundClosed
    | Shutdown

  /** The packets handed to workers before the dispatcher stops. */
  function Handed(events: seq<Event>): seq<Packet> {
    if events == [] || !events[0].Inbound? || !events[0].accepted then []
    else [events[0].packet] + Handed(events[1..])
  }

  /** The packet itself if it goes to worker `w`. */
  function RoutedOne(p: Packet, w: nat, workers: nat, hash: (SockAddr, SockAddr) -> nat): seq<Packet>
    requires workers >= 1
  {
    if WorkerOf(p, workers, hash) == w then [p] else []
  }

  function Routed(packets: seq<Packet>, w: nat, workers: nat, hash: (SockAddr, SockAddr) -> nat): seq<Packet>
    requires workers >= 1
  {
    if packets == [] then []
    else RoutedOne(packets[0], w, workers, hash) + Routed(packets[1..], w, workers, hash)
  }

  method DistributePackets(events: seq<Event>, queues: array<seq<Packet>>, hash: (SockAddr, SockAddr) -> nat)
    requires queues.Length >= 1
    modifies queues
    ensures forall w :: 0 <= w < queues.Length ==>
      queues[w] == old(queues[w]) + Routed(Handed(events), w, queues.Length, hash)
  {
    ghost var handed: seq<Packet> := [];
    var i := 0;
    while i < |events|
      invariant 0 <= i <= |events|
      invariant handed + Handed(events[i..]) == Handed(events)
      invariant forall w :: 0 <= w < queues.Length ==>
        queues[w] == old(queues[w]) + Routed(handed, w, queues.Length, hash)
    {
      match events[i] {
        case Shutdown => break;
        case InboundClosed => break;
        case Inbound(packet, accepted) =>
          if !accepted {
            break;
          }
          HandedStep(handed, events, i);
          RoutedSnoc(handed, packet, queues.Length, hash);
          var target := WorkerOf(packet, queues.Length, hash);
          queues[target] := queues[target] + [packet];
          handed := handed + [packet];
      }
      i := i + 1;
    }
    assert Handed(events[i..]) == [];
    assert handed == Handed(events);
  }

  lemma HandedStep(handed: seq<Packet>, events: seq<Event>, i: nat)
    requires i < |events| && events[i].Inbound? && events[i].accepted
    ensures (handed + [events[i].packet]) + Handed(events[i + 1..]) == handed + Handed(events[i..])
  {
    assert events[i..][1..] == events[i + 1..];
  }

  lemma {:induction false} RoutedAppend(a: seq<Packet>, p: Packet, w: nat, workers: nat,
                                        hash: (SockAddr, SockAddr) -> nat)
    requires workers >= 1
    ensures Routed(a + [p], w, workers, hash) == Routed(a, w, workers, hash) + RoutedOne(p, w, workers, hash)
  {
    if a != [] {
      RoutedAppend(a[1..], p, w, workers, hash);
      assert (a + [p])[1..] == a[1..] + [p];
    }
  }

  lemma RoutedSnoc(a: seq<Packet>, p: Packet, workers: nat, hash: (SockAddr, SockAddr) -> nat)
    requires workers >= 1
    ensures forall w: nat ::
      Routed(a + [p], w, workers, hash) == Routed(a, w, workers, hash) + RoutedOne(p, w, workers, hash)
  {
    forall w: nat
      ensures Routed(a + [p], w, workers, hash) == Routed(a, w, workers, hash) + RoutedOne(p, w, workers, hash)
    {
      RoutedAppend(a, p, w, workers, hash);
    }
  }

  /** The packet belongs to the connection between `a` and `b`, in either direction. */
  predicate OfConnection(p: Packet, a: SockAddr, b: SockAddr) {
    p.Tcp? && ((p.src == a && p.dst == b) || (p.src == b && p.dst == a))
  }

  /** The packets of a kind, in order. */
  function Select(packets: seq<Packet>, kind: Packet -> bool): seq<Packet> {
    if packets == [] then []
    else (if kind(packets[0]) then [packets[0]] else []) + Select(packets[1..], kind)
  }

  function OnlyOf(packets: seq<Packet>, a: SockAddr, b: SockAddr): seq<Packet> {
    Select(packets, p => OfConnection(p, a, b))
  }

  /** Exactly one of two different endpoints is above the other. */
  lemma AboveIsTotal(a: SockAddr, b: SockAddr)
    ensures a == b || (Above(a, b) <==> !Above(b, a))
  {
  }

  /** Both directions of a connection go to the same worker. */
  lemma BothDirectionsMeet(p: Packet, q: Packet, a: SockAddr, b: SockAddr, workers: nat,
                           hash: (SockAddr, SockAddr) -> nat)
    requires workers >= 1 && OfConnection(p, a, b) && OfConnection(q, a, b)
    ensures WorkerOf(p, workers, hash) == WorkerOf(q, workers, hash)
  {
    AboveIsTotal(a, b);
  }

  /** The lower of two endpoints is hashed first: IPv4 before IPv6, then by address, then by port. */
  lemma HashesLowerFirst(src: SockAddr, dst: SockAddr, body: Bytes, workers: nat, hash: (SockAddr, SockAddr) -> nat)
    requires workers >= 1
    requires match (src.ip, dst.ip)
             case (V4(x), V4(y)) => x < y || (x == y && src.port <= dst.port)
             case (V6(x), V6(y)) => x < y || (x == y && src.port <= dst.port)
             case (V4(_), V6(_)) => true
             case (V6(_), V4(_)) => false
    ensures WorkerOf(Tcp(src, dst, body), workers, hash) == hash(src, dst) % workers
    ensures WorkerOf(Tcp(dst, src, body), workers, hash) == hash(src, dst) % workers
  {
  }

  /** Every worker is some connection's: which one is up to the hash alone. */
  lemma EveryWorkerServes(src: SockAddr, dst: SockAddr, body: Bytes, workers: nat, w: nat)
    requires w < workers
    ensures exists hash: (SockAddr, SockAddr) -> nat :: WorkerOf(Tcp(src, dst, body), workers, hash) == w
    ensures forall hash: (SockAddr, SockAddr) -> nat :: WorkerOf(Other(body), workers, hash) == 0
  {
    var hash: (SockAddr, SockAddr) -> nat := (a, b) => w;
    assert w % workers == w;
    assert WorkerOf(Tcp(src, dst, body), workers, hash) == w;
  }

  /** Handed over are exactly the packets before the first event that stops the dispatcher. */
  lemma {:induction false} HandedExactly(events: seq<Event>) returns (n: nat)
    ensures n <= |events| && |Handed(events)| == n
    ensures forall i :: 0 <= i < n ==>
      events[i].Inbound? && events[i].accepted && Handed(events)[i] == events[i].packet
    ensures n < |events| ==> events[n] == Shutdown || events[n] == InboundClosed || !events[n].accepted
  {
    n := 0;
    if events != [] && events[0].Inbound? && events[0].accepted {
      n := HandedExactly(events[1..]);
      n := n + 1;
    }
  }

  /** All packets with one home are in that worker's queue in arrival order, and in no other. */
  lemma {:induction false} KindInOneQueue(packets: seq<Packet>, kind: Packet -> bool, w: nat, home: nat,
                                          workers: nat, hash: (SockAddr, SockAddr) -> nat)
    requires workers >= 1
    requires forall p :: p in packets && kind(p) ==> WorkerOf(p, workers, hash) == home
    ensures Select(Routed(packets, w, workers, hash), kind) == if w == home then Select(packets, kind) else []
  {
    if packets != [] {
      KindInOneQueue(packets[1..], kind, w, home, workers, hash);
      var routed := Routed(packets, w, workers, hash);
      if WorkerOf(packets[0], workers, hash) == w {
        assert routed[1..] == Routed(packets[1..], w, workers, hash);
      } else {
        assert routed == Routed(packets[1..], w, workers, hash);
      }
    }
  }

  /** Each worker's queue is its share of the packets, and no packet is in two queues or in none. */
  lemma RoutesExactly(packets: seq<Packet>, w: nat, workers: nat, hash: (SockAddr, SockAddr) -> nat)
    requires workers >= 1
    ensures Routed(packets, w, workers, hash) == Select(packets, p => WorkerOf(p, workers, hash) == w)
    ensures Select(Routed(packets, w, workers, hash), (p: Packet) => p.Other?) ==
            if w == 0 then Select(packets, (p: Packet) => p.Other?) else []
  {
    RoutedIsShare(packets, w, workers, hash);
    KindInOneQueue(packets, (p: Packet) => p.Other?, w, 0, workers, hash);
  }

  lemma {:induction false} RoutedIsShare(packets: seq<Packet>, w: nat, workers: nat,
                                         hash: (SockAddr, SockAddr) -> nat)
    requires workers >= 1
    ensures Routed(packets, w, workers, hash) == Select(packets, p => WorkerOf(p, workers, hash) == w)
  {
    if packets != [] {
      RoutedIsShare(packets[1..], w, workers, hash);
    }
  }

  /**
   * For any inbound packets, any number of workers and any hash: all packets of
   * a connection, in both directions, are in the queue of one worker in the
   * order they arrived, and in no other queue.
   */
  lemma ConnectionsKeepOrder(events: seq<Event>, a: SockAddr, b: SockAddr, w: nat, workers: nat,
                             hash: (SockAddr, SockAddr) -> nat)
    requires workers >= 1
    ensures OnlyOf(Routed(Handed(events), w, workers, hash), a, b) ==
      if w == WorkerOf(Tcp(a, b, []), workers, hash) then OnlyOf(Handed(events), a, b) else []
  {
    var packets := Handed(events);
    var home := WorkerOf(Tcp(a, b, []), workers, hash);
    forall p | p in packets && OfConnection(p, a, b)
      ensures WorkerOf(p, workers, hash) == home
    {
      BothDirectionsMeet(p, Tcp(a, b, []), a, b, workers, hash);
    }
    KindInOneQueue(packets, p => OfConnection(p, a, b), w, home, workers, hash);
  }
}
