/**
 * The worker's and the application's operations on one connection as they are
 * written in crates/ombrac-netstack/src/tcp.rs. Each is shown to have the stated
 * effect when nothing interrupts it, and to be a run of the interleaved model,
 * whose results therefore hold when other steps come in between.
 */
module TcpBridgeMethods {
  import opened Base
  import opened Runs
  import opened TcpBridge

  lemma PushNothing(p: Pipes)
    ensures WorkerPush(p, 0) == p
  {
  }

  lemma TakeMore(prefix: Bytes, ring: Bytes, done: nat, more: nat)
    requires done + more <= |ring|
    ensures ring[done..][more..] == ring[done + more..]
    ensures (prefix + ring[..done]) + ring[done..][..more] == prefix + ring[..done + more]
  {
  }

  /**
   * Receiving moves what fits of the bytes it sees, the first `chunk` of them, to
   * the end of the ring: some whenever there are any and the ring has space.
   */
  predicate Takes(p: Pipes, mayRecv: bool, chunk: nat, moved: nat, q: Pipes) {
    && moved <= |p.rx| && q.rx == p.rx[moved..] && q.recvRing == p.recvRing + p.rx[..moved]
    && q.dequeued == p.dequeued + p.rx[..moved]
    && (if mayRecv && |p.rx| > 0 && |p.recvRing| < p.recvCapacity
        then 0 < moved && moved == Min(if chunk == 0 then 1 else Min(chunk, |p.rx|), p.recvCapacity - |p.recvRing|)
        else moved == 0)
  }

  /** Sending moves the first `moved` bytes of the ring to the end of the socket's queue. */
  predicate Sends(p: Pipes, moved: nat, q: Pipes) {
    && moved <= |p.sendRing|
    && q == p.(sendRing := p.sendRing[moved..], tx := p.tx + p.sendRing[..moved],
               enqueued := p.enqueued + p.sendRing[..moved])
  }

  lemma SendsMore(p: Pipes, moved: nat, q: Pipes, more: nat, r: Pipes)
    requires Sends(p, moved, q) && Sends(q, more, r)
    ensures Sends(p, moved + more, r)
  {
    TakeMore(p.tx, p.sendRing, moved, more);
    TakeMore(p.enqueued, p.sendRing, moved, more);
  }

  lemma PushTakes(p: Pipes, chunk: nat)
    requires |p.rx| > 0
    ensures var n := Clamp(chunk, |p.rx|);
            Takes(p, true, chunk, Min(n, Vacant(p.recvCapacity, |p.recvRing|)), WorkerPush(p, n))
  {
  }

  lemma TakesNothing(p: Pipes, mayRecv: bool, chunk: nat)
    requires !mayRecv || |p.rx| == 0
    ensures Takes(p, mayRecv, chunk, 0, p)
  {
  }

  lemma RecvIsNext(s: State, chunk: nat, s': State)
    requires RecvStep(s, chunk, s')
    ensures Next(s, WorkerStep(chunk), s')
  {
  }

  lemma EndSeenIsNext(s: State, s': State)
    requires s.worker.pc.CheckOpen? && !s.flags.open && !s.flags.readClosed
    requires s' == s.(flags := s.flags.(readClosed := true), worker := s.worker.(pc := WakeReader, wakeReader := true))
    ensures Next(s, WorkerStep(0), s')
  {
    assert WakeReaderStep(s, s');
  }

  lemma NoEndIsNext(s: State, s': State)
    requires s.worker.pc.CheckOpen? && (s.flags.open || s.flags.readClosed)
    requires s' == s.(worker := s.worker.(pc := WakeReader))
    ensures Next(s, WorkerStep(0), s')
  {
    assert WakeReaderStep(s, s');
  }

  lemma WakeReaderIsNext(s: State, s': State)
    requires s.worker.pc.WakeReader?
    requires var w := s.worker;
             s' == s.(wakers := s.wakers.(recv := if w.wakeReader then None else s.wakers.recv,
                                          woken := Wake(s.wakers.recv, w.wakeReader, s.wakers.woken)),
                      worker := w.(pc := SendCheck, wakeReader := false,
                                   eofWoken := w.eofWoken || (w.wakeReader && s.flags.readClosed)))
    ensures Next(s, WorkerStep(0), s')
  {
    assert WakeReaderStep(s, s');
  }

  lemma CloseIsNext(s: State, atOnce: bool, s': State)
    requires s.worker.pc.PruneEmpty?
    requires s' == s.(worker := s.worker.(pc := PruneActive),
                      flags := if |s.pipes.sendRing| == 0 then Close(s.flags, atOnce) else s.flags)
    ensures Next(s, WorkerStep(if atOnce then 1 else 0), s')
  {
    assert PruneFinishStep(s, if atOnce then 1 else 0, s');
  }

  datatype Polled<T> = Pending | Ready(value: T)

  class Connection {
    var pipes: Pipes
    var flags: Flags
    var wakers: Wakers
    var app: App
    var worker: Worker

    function Now(): State
      reads this
    {
      State(pipes, flags, wakers, app, worker)
    }

    // --- Single accesses ---

    /** Moves received bytes into the ring; any byte seen means the reader is to be woken. */
    method MoveReceived(chunk: nat, ghost from: State) returns (moved: nat)
      requires worker.pc.Recv? && Reaches(Next, from, Now())
      modifies this`pipes, this`worker
      ensures Reaches(Next, from, Now())
      ensures worker == old(worker).(pc := CheckOpen, wakeReader := worker.wakeReader,
                                     progress := old(worker).progress || moved > 0)
      ensures Takes(old(pipes), old(flags).mayRecv, chunk, moved, pipes)
      ensures Conserved(old(pipes)) ==> Conserved(pipes)
      ensures pipes == old(pipes).(recvRing := pipes.recvRing, rx := pipes.rx, dequeued := pipes.dequeued)
      ensures worker.wakeReader == (old(flags).mayRecv && |old(pipes).rx| > 0) && (moved > 0 ==> worker.wakeReader)
    {
      ghost var at := Now();
      moved := 0;
      var notifyRead := false;
      if CanRecv(Now()) {
        PushTakes(pipes, chunk);
        var n := Clamp(chunk, |pipes.rx|);
        moved := Min(n, Vacant(pipes.recvCapacity, |pipes.recvRing|));
        pipes := WorkerPush(pipes, n);
        notifyRead := true;
      } else {
        PushNothing(pipes);
        TakesNothing(pipes, flags.mayRecv, chunk);
      }
      worker := worker.(pc := CheckOpen, wakeReader := notifyRead, progress := worker.progress || moved > 0);
      RecvIsNext(at, chunk, Now());
      ReachesNext(Next, from, at, WorkerStep(chunk), Now());
    }

    method NoteEndOfStream(ghost from: State)
      requires worker.pc.CheckOpen? && Reaches(Next, from, Now())
      modifies this`flags, this`worker
      ensures Reaches(Next, from, Now())
      ensures worker == old(worker).(pc := WakeReader, wakeReader := worker.wakeReader)
      ensures flags == old(flags).(readClosed := old(flags).readClosed || !flags.open)
      ensures worker.wakeReader == (old(worker).wakeReader || flags.readClosed != old(flags).readClosed)
    {
      ghost var at := Now();
      if !flags.open && !flags.readClosed {
        flags := flags.(readClosed := true);
        worker := worker.(pc := WakeReader, wakeReader := true);
        EndSeenIsNext(at, Now());
        ReachesNext(Next, from, at, WorkerStep(0), Now());
      } else {
        worker := worker.(pc := WakeReader);
        NoEndIsNext(at, Now());
        ReachesNext(Next, from, at, WorkerStep(0), Now());
      }
    }

    method WakeReaderIfDue(ghost from: State)
      requires worker.pc.WakeReader? && Reaches(Next, from, Now())
      modifies this`wakers, this`worker
      ensures Reaches(Next, from, Now())
      ensures worker == old(worker).(pc := SendCheck, wakeReader := false,
                                     eofWoken := old(worker).eofWoken || (old(worker).wakeReader && flags.readClosed))
      ensures old(worker).wakeReader && old(wakers).recv.Some? ==> old(wakers).recv.value in wakers.woken
      ensures wakers.send == old(wakers).send && old(wakers).woken <= wakers.woken
      ensures forall k :: k in wakers.woken ==> k in old(wakers).woken || (old(wakers).recv == Some(k) && old(worker).wakeReader)
    {
      ghost var at := Now();
      if worker.wakeReader {
        wakers := wakers.(recv := None, woken := Wake(wakers.recv, true, wakers.woken));
      }
      worker := worker.(pc := SendCheck, eofWoken := worker.eofWoken || (worker.wakeReader && flags.readClosed),
                        wakeReader := false);
      WakeReaderIsNext(at, Now());
      ReachesNext(Next, from, at, WorkerStep(0), Now());
    }

    /** Returns the room the socket had, which is what the source counts as written, and what moved. */
    method PopToSocket(room: nat) returns (counted: nat, ghost moved: nat)
      requires worker.pc.SendPop? && |pipes.tx| < pipes.txCapacity && |pipes.sendRing| > 0
      modifies this`pipes, this`worker
      ensures SendStep(old(Now()), room, Now()) && worker.pc.SendCheck? && worker.wakeSender
      ensures Conserved(old(pipes)) ==> Conserved(pipes)
      ensures counted <= pipes.txCapacity - |old(pipes).tx| && moved == Min(counted, |old(pipes).sendRing|)
      ensures moved > 0 && Sends(old(pipes), moved, pipes)
    {
      counted := Clamp(room, pipes.txCapacity - |pipes.tx|);
      moved := Min(counted, |pipes.sendRing|);
      pipes := WorkerPop(pipes, counted);
      worker := worker.(pc := SendCheck, wakeSender := true, progress := true);
    }

    method WakeSenderIfDue()
      requires worker.pc.WakeSender?
      modifies this`wakers, this`worker
      ensures SendStep(old(Now()), 0, Now()) && worker.pc.PruneDropped?
      ensures old(worker).wakeSender && old(wakers).send.Some? ==> old(wakers).send.value in wakers.woken
      ensures old(wakers).woken <= wakers.woken
      ensures forall k :: k in wakers.woken ==> k in old(wakers).woken || (old(wakers).send == Some(k) && old(worker).wakeSender)
    {
      if worker.wakeSender {
        wakers := wakers.(send := None, woken := Wake(wakers.send, true, wakers.woken));
      }
      worker := worker.(pc := PruneDropped, wakeSender := false);
    }

    method CloseIfEmpty(atOnce: bool, ghost from: State)
      requires worker.pc.PruneEmpty? && Reaches(Next, from, Now())
      modifies this`flags, this`worker
      ensures Reaches(Next, from, Now()) && worker == old(worker).(pc := PruneActive)
      ensures var closes := |pipes.sendRing| == 0;
              flags == old(flags).(closing := old(flags).closing || closes,
                                   open := old(flags).open && !(closes && atOnce && !old(flags).connected))
    {
      ghost var at := Now();
      if |pipes.sendRing| == 0 {
        flags := Close(flags, atOnce);
      }
      worker := worker.(pc := PruneActive);
      CloseIsNext(at, atOnce, Now());
      ReachesNext(Next, from, at, WorkerStep(if atOnce then 1 else 0), Now());
    }

    // --- The worker ---

    /**
     * One pass of the worker over the connection: received bytes go to the ring,
     * a dead socket closes the read side, and the send ring is drained until it
     * is empty or the socket takes no more. `counted` is the source's count of
     * written bytes, which adds up the room offered; `written` is what moved.
     */
    method HandleSocketIo(chunk: nat) returns (read: nat, counted: nat, ghost written: nat)
      requires worker.pc.Recv? && !worker.wakeSender && Conserved(pipes)
      modifies this`pipes, this`flags, this`wakers, this`worker
      ensures Reaches(Next, old(Now()), Now()) && worker.pc.PruneDropped? && Conserved(pipes)
      ensures Takes(old(pipes), old(flags).mayRecv, chunk, read, pipes)
      ensures written <= |old(pipes).sendRing| && pipes.sendRing == old(pipes).sendRing[written..]
      ensures pipes.enqueued == old(pipes).enqueued + old(pipes).sendRing[..written]
      ensures pipes.tx == old(pipes).tx + old(pipes).sendRing[..written]
      ensures flags.maySend && !flags.closing ==> |pipes.tx| == pipes.txCapacity || |pipes.sendRing| == 0
      ensures flags == old(flags).(readClosed := old(flags).readClosed || !flags.open)
      ensures read > 0 || flags.readClosed != old(flags).readClosed ==>
        old(wakers).recv.Some? ==> old(wakers).recv.value in wakers.woken
      ensures written > 0 && old(wakers).send.Some? ==> old(wakers).send.value in wakers.woken
      ensures forall k :: k in wakers.woken ==>
        || k in old(wakers).woken
        || (old(wakers).recv == Some(k) && ((old(flags).mayRecv && |old(pipes).rx| > 0) || flags.readClosed != old(flags).readClosed))
        || (old(wakers).send == Some(k) && written > 0)
      ensures written <= counted && (counted > 0 <==> written > 0)
    {
      ghost var from := Now();
      ReachesSelf(Next, from);
      read := ReceiveAndWake(chunk, from);
      counted, written := DrainSendRing(from);
    }

    /** The receiving half of a pass: bytes, end of stream, and the reader's wake for either. */
    method ReceiveAndWake(chunk: nat, ghost from: State) returns (read: nat)
      requires worker.pc.Recv? && !worker.wakeSender && Conserved(pipes) && Reaches(Next, from, Now())
      modifies this`pipes, this`flags, this`wakers, this`worker
      ensures Reaches(Next, from, Now()) && worker.pc.SendCheck? && !worker.wakeSender && Conserved(pipes)
      ensures Takes(old(pipes), old(flags).mayRecv, chunk, read, pipes)
      ensures pipes == old(pipes).(recvRing := pipes.recvRing, rx := pipes.rx, dequeued := pipes.dequeued)
      ensures flags == old(flags).(readClosed := old(flags).readClosed || !flags.open)
      ensures wakers.send == old(wakers).send && old(wakers).woken <= wakers.woken
      ensures var due := (old(flags).mayRecv && |old(pipes).rx| > 0) || flags.readClosed != old(flags).readClosed;
              && (due && old(wakers).recv.Some? ==> old(wakers).recv.value in wakers.woken)
              && (forall k :: k in wakers.woken ==> k in old(wakers).woken || (old(wakers).recv == Some(k) && due))
    {
      read := MoveReceived(chunk, from);
      NoteEndOfStream(from);
      WakeReaderIfDue(from);
    }

    /** The `while` loop of `handle_socket_io` and the wake-up after it. */
    method DrainSendRing(ghost from: State) returns (counted: nat, ghost written: nat)
      requires worker.pc.SendCheck? && !worker.wakeSender && Conserved(pipes) && Reaches(Next, from, Now())
      modifies this`pipes, this`wakers, this`worker
      ensures Reaches(Next, from, Now()) && worker.pc.PruneDropped? && Conserved(pipes)
      ensures Sends(old(pipes), written, pipes)
      ensures flags.maySend && !flags.closing ==> |pipes.tx| == pipes.txCapacity || |pipes.sendRing| == 0
      ensures written > 0 && old(wakers).send.Some? ==> old(wakers).send.value in wakers.woken
      ensures old(wakers).woken <= wakers.woken
      ensures forall k :: k in wakers.woken ==> k in old(wakers).woken || (old(wakers).send == Some(k) && written > 0)
      ensures written <= counted && (counted > 0 <==> written > 0)
    {
      counted, written := 0, 0;
      assert pipes.sendRing[0..] == pipes.sendRing;
      while CanSend(Now()) && |pipes.sendRing| > 0
        invariant worker.pc.SendCheck? && Conserved(pipes) && Reaches(Next, from, Now())
        invariant wakers == old(wakers) && worker.wakeSender == (written > 0)
        invariant written <= counted && (counted > 0 <==> written > 0)
        invariant Sends(old(pipes), written, pipes)
        decreases |pipes.sendRing|
      {
        ghost var before := pipes;
        var n;
        ghost var moved;
        n, moved := SendOnce(from);
        SendsMore(old(pipes), written, before, moved, pipes);
        counted, written := counted + n, written + moved;
      }
      FinishSend(from);
    }

    /** One round of the send loop: what the socket counts, and what moved. */
    method SendOnce(ghost from: State) returns (counted: nat, ghost moved: nat)
      requires worker.pc.SendCheck? && CanSend(Now()) && |pipes.sendRing| > 0 && Conserved(pipes)
      requires Reaches(Next, from, Now())
      modifies this`pipes, this`worker
      ensures Reaches(Next, from, Now()) && worker.pc.SendCheck? && worker.wakeSender && Conserved(pipes)
      ensures 0 < moved <= counted && Sends(old(pipes), moved, pipes)
    {
      ghost var at := Now();
      worker := worker.(pc := SendPop);
      ReachesNext(Next, from, at, WorkerStep(0), Now());
      at := Now();
      var room: int :| 0 <= room;
      counted, moved := PopToSocket(room);
      ReachesNext(Next, from, at, WorkerStep(room), Now());
    }

    /** The end of the send loop and the wake-up after it. */
    method FinishSend(ghost from: State)
      requires worker.pc.SendCheck? && !(CanSend(Now()) && |pipes.sendRing| > 0) && Reaches(Next, from, Now())
      modifies this`wakers, this`worker
      ensures Reaches(Next, from, Now()) && worker.pc.PruneDropped?
      ensures old(worker).wakeSender && old(wakers).send.Some? ==> old(wakers).send.value in wakers.woken
      ensures old(wakers).woken <= wakers.woken
      ensures forall k :: k in wakers.woken ==> k in old(wakers).woken || (old(wakers).send == Some(k) && old(worker).wakeSender)
    {
      ghost var at := Now();
      worker := worker.(pc := WakeSender);
      ReachesNext(Next, from, at, WorkerStep(0), Now());
      at := Now();
      WakeSenderIfDue();
      ReachesNext(Next, from, at, WorkerStep(0), Now());
    }

    /**
     * What `prune_sockets` does with one connection; returns whether it is kept.
     * `atOnce` tells whether closing would end the socket at once.
     */
    method PruneSocket(atOnce: bool) returns (kept: bool)
      requires worker.pc.PruneDropped?
      modifies this`flags, this`worker
      ensures Reaches(Next, old(Now()), Now()) && (if kept then worker.pc.SecondPoll? else worker.pc.Gone?)
      ensures kept <==> !flags.dropped && flags.active
      ensures var closes := !flags.dropped && flags.writeClosed && |pipes.sendRing| == 0;
              flags == old(flags).(closing := old(flags).closing || closes,
                                   open := old(flags).open && !(closes && atOnce && !old(flags).connected))
    {
      ghost var from, at := Now(), Now();
      ReachesSelf(Next, from);
      if flags.dropped {
        worker := worker.(pc := Gone);
        ReachesNext(Next, from, at, WorkerStep(0), Now());
        return false;
      }
      worker := worker.(pc := PruneClosed);
      ReachesNext(Next, from, at, WorkerStep(0), Now());
      CloseWhenDrained(atOnce, from);
      kept := KeepIfActive(from);
    }

    method KeepIfActive(ghost from: State) returns (kept: bool)
      requires worker.pc.PruneActive? && Reaches(Next, from, Now())
      modifies this`worker
      ensures Reaches(Next, from, Now()) && kept == flags.active
      ensures if kept then worker.pc.SecondPoll? else worker.pc.Gone?
    {
      ghost var at := Now();
      kept := flags.active;
      worker := worker.(pc := if kept then SecondPoll else Gone);
      ReachesNext(Next, from, at, WorkerStep(0), Now());
    }

    method CloseWhenDrained(atOnce: bool, ghost from: State)
      requires worker.pc.PruneClosed? && Reaches(Next, from, Now())
      modifies this`flags, this`worker
      ensures Reaches(Next, from, Now()) && worker.pc.PruneActive?
      ensures var closes := flags.writeClosed && |pipes.sendRing| == 0;
              flags == old(flags).(closing := old(flags).closing || closes,
                                   open := old(flags).open && !(closes && atOnce && !old(flags).connected))
    {
      ghost var at := Now();
      if !flags.writeClosed {
        worker := worker.(pc := PruneActive);
        ReachesNext(Next, from, at, WorkerStep(0), Now());
        return;
      }
      worker := worker.(pc := PruneEmpty);
      ReachesNext(Next, from, at, WorkerStep(0), Now());
      CloseIfEmpty(atOnce, from);
    }

    // --- The application ---

    /**
     * `poll_read`: the oldest bytes of the ring that fit, nothing at the end of
     * the stream, or Pending with the waker registered.
     */
    method PollRead(room: nat) returns (result: Polled<Bytes>)
      requires app.pc.Idle?
      modifies this`pipes, this`wakers, this`app
      ensures Reaches(Next, old(Now()), Now())
      ensures result.Ready? ==>
        && result.value == old(pipes).recvRing[..Min(room, |old(pipes).recvRing|)]
        && old(pipes).recvRing == result.value + pipes.recvRing && pipes.readOut == old(pipes).readOut + result.value
        && pipes == old(pipes).(recvRing := pipes.recvRing, readOut := pipes.readOut)
        && (result.value == [] ==> room == 0 || (|pipes.recvRing| == 0 && flags.readClosed))
        && (result.value != [] ==> wakers.permit)
      ensures result.Pending? ==>
        pipes == old(pipes) && app.reader.Some? && wakers.recv == Some(app.reader.value.token)
      ensures result.Pending? <==> |old(pipes).recvRing| == 0 && !flags.readClosed
    {
      ghost var from, at := Now(), Now();
      ReachesSelf(Next, from);
      var t := app.nextToken;
      app := App(ReadCheckEmpty(t, room), None, app.sender, t + 1);
      ReachesNext(Next, from, at, BeginRead(room), Now());
      at := Now();
      if |pipes.recvRing| == 0 {
        app := app.(pc := ReadCheckClosed(t, room));
        ReachesNext(Next, from, at, AppStep, Now());
        result := ReadFromEmptyRing(t, room, from);
      } else {
        app := app.(pc := ReadPop(room));
        ReachesNext(Next, from, at, AppStep, Now());
        var taken := PopRing(room, from);
        result := Ready(taken);
      }
    }

    /** The check, registration and recheck of a read that found the ring empty. */
    method ReadFromEmptyRing(t: Token, room: nat, ghost from: State) returns (result: Polled<Bytes>)
      requires app.pc == ReadCheckClosed(t, room) && app.reader == None && |pipes.recvRing| == 0
      requires Reaches(Next, from, Now())
      modifies this`pipes, this`wakers, this`app
      ensures Reaches(Next, from, Now()) && pipes == old(pipes)
      ensures flags.readClosed ==> result == Ready([])
      ensures !flags.readClosed ==>
        result.Pending? && app.reader.Some? && wakers.recv == Some(app.reader.value.token)
    {
      ghost var at := Now();
      if flags.readClosed {
        app := app.(pc := Idle);
        ReachesNext(Next, from, at, AppStep, Now());
        return Ready([]);
      }
      app := app.(pc := ReadRegister(t, room));
      ReachesNext(Next, from, at, AppStep, Now());
      at := Now();
      var late := worker.eofWoken;
      wakers := wakers.(recv := Some(t));
      app := app.(pc := ReadRecheck(t, room, late));
      ReachesNext(Next, from, at, AppStep, Now());
      at := Now();
      app := app.(pc := Idle, reader := Some(ReadWait(t, late)));
      ReachesNext(Next, from, at, AppStep, Now());
      return Pending;
    }

    method PopRing(room: nat, ghost from: State) returns (taken: Bytes)
      requires app.pc == ReadPop(room) && Reaches(Next, from, Now())
      modifies this`pipes, this`wakers, this`app
      ensures Reaches(Next, from, Now())
      ensures taken == old(pipes).recvRing[..Min(room, |old(pipes).recvRing|)]
      ensures old(pipes).recvRing == taken + pipes.recvRing && pipes.readOut == old(pipes).readOut + taken
      ensures pipes == old(pipes).(recvRing := pipes.recvRing, readOut := pipes.readOut)
      ensures |taken| > 0 ==> wakers.permit
    {
      ghost var at := Now();
      taken := pipes.recvRing[..Min(room, |pipes.recvRing|)];
      pipes := AppPop(pipes, room);
      if |taken| > 0 {
        app := app.(pc := Notify(false));
        ReachesNext(Next, from, at, AppStep, Now());
        at := Now();
        wakers := wakers.(permit := true);
        app := app.(pc := Idle);
        ReachesNext(Next, from, at, AppStep, Now());
      } else {
        app := app.(pc := Idle);
        ReachesNext(Next, from, at, AppStep, Now());
      }
    }

    /** `poll_write`: a prefix of the data is accepted, an error, or Pending with the waker registered. */
    method PollWrite(data: Bytes) returns (result: Polled<Option<nat>>)
      requires app.pc.Idle? && Conserved(pipes)
      modifies this`pipes, this`wakers, this`app
      ensures Reaches(Next, old(Now()), Now())
      ensures result == Ready(None) <==> flags.dropped || flags.writeClosed
      ensures result == Pending <==>
        !flags.dropped && !flags.writeClosed && |old(pipes).sendRing| == pipes.sendCapacity
      ensures result.Pending? ==>
        app.sender.Some? && app.sender.value.forSpace && wakers.send == Some(app.sender.value.token)
      ensures result.Ready? && result.value.Some? ==>
        && pipes == old(pipes).(sendRing := pipes.sendRing, accepted := pipes.accepted)
        && result.value.value == Min(|data|, pipes.sendCapacity - |old(pipes).sendRing|)
        && pipes.accepted == old(pipes).accepted + data[..result.value.value]
        && pipes.sendRing == old(pipes).sendRing + data[..result.value.value]
        && (result.value.value > 0 ==> wakers.permit)
      ensures result.Pending? || result == Ready(None) ==> pipes == old(pipes)
    {
      ghost var from, at := Now(), Now();
      ReachesSelf(Next, from);
      var t := app.nextToken;
      app := App(WriteCheckDropped(t, data), app.reader, None, t + 1);
      ReachesNext(Next, from, at, BeginWrite(data), Now());
      at := Now();
      if flags.dropped {
        app := app.(pc := Idle);
        ReachesNext(Next, from, at, AppStep, Now());
        return Ready(None);
      }
      app := app.(pc := WriteCheckClosed(t, data));
      ReachesNext(Next, from, at, AppStep, Now());
      at := Now();
      if flags.writeClosed {
        app := app.(pc := Idle);
        ReachesNext(Next, from, at, AppStep, Now());
        return Ready(None);
      }
      app := app.(pc := WriteCheckFull(t, data));
      ReachesNext(Next, from, at, AppStep, Now());
      result := WriteToRing(t, data, from);
    }

    method WriteToRing(t: Token, data: Bytes, ghost from: State) returns (result: Polled<Option<nat>>)
      requires app.pc == WriteCheckFull(t, data) && Conserved(pipes) && Reaches(Next, from, Now())
      modifies this`pipes, this`wakers, this`app
      ensures Reaches(Next, from, Now())
      ensures result == Pending <==> |old(pipes).sendRing| == pipes.sendCapacity
      ensures result.Pending? ==>
        && pipes == old(pipes)
        && app.sender.Some? && app.sender.value.forSpace && wakers.send == Some(app.sender.value.token)
      ensures result.Ready? ==>
        && pipes == old(pipes).(sendRing := pipes.sendRing, accepted := pipes.accepted)
        && result.value == Some(Min(|data|, Vacant(pipes.sendCapacity, |old(pipes).sendRing|)))
        && pipes.accepted == old(pipes).accepted + data[..result.value.value]
        && pipes.sendRing == old(pipes).sendRing + data[..result.value.value]
        && (result.value.value > 0 ==> wakers.permit)
    {
      ghost var at := Now();
      if |pipes.sendRing| == pipes.sendCapacity {
        app := app.(pc := WriteRegister(t, data));
        ReachesNext(Next, from, at, AppStep, Now());
        at := Now();
        wakers := wakers.(send := Some(t));
        app := app.(pc := WriteRecheck(t, data));
        ReachesNext(Next, from, at, AppStep, Now());
        at := Now();
        app := app.(pc := Idle, sender := Some(SendWait(t, true)));
        ReachesNext(Next, from, at, AppStep, Now());
        return Pending;
      }
      app := app.(pc := WritePush(data));
      ReachesNext(Next, from, at, AppStep, Now());
      var n := PushRing(data, from);
      return Ready(Some(n));
    }

    method PushRing(data: Bytes, ghost from: State) returns (n: nat)
      requires app.pc == WritePush(data) && Conserved(pipes) && |pipes.sendRing| < pipes.sendCapacity
      requires Reaches(Next, from, Now())
      modifies this`pipes, this`wakers, this`app
      ensures Reaches(Next, from, Now())
      ensures pipes == old(pipes).(sendRing := pipes.sendRing, accepted := pipes.accepted)
      ensures n == Min(|data|, Vacant(pipes.sendCapacity, |old(pipes).sendRing|))
      ensures pipes.accepted == old(pipes).accepted + data[..n]
      ensures pipes.sendRing == old(pipes).sendRing + data[..n]
      ensures n > 0 ==> wakers.permit
    {
      ghost var at := Now();
      n := Min(|data|, Vacant(pipes.sendCapacity, |pipes.sendRing|));
      pipes := AppPush(pipes, data);
      if n > 0 {
        app := app.(pc := Notify(false));
        ReachesNext(Next, from, at, AppStep, Now());
        at := Now();
        wakers := wakers.(permit := true);
        app := app.(pc := Idle);
        ReachesNext(Next, from, at, AppStep, Now());
      } else {
        app := app.(pc := Idle);
        ReachesNext(Next, from, at, AppStep, Now());
      }
    }

    /** `poll_flush`: done exactly when the send ring is empty, else the caller waits for it to drain. */
    method PollFlush() returns (done: bool)
      requires app.pc.Idle?
      modifies this`wakers, this`app
      ensures Reaches(Next, old(Now()), Now())
      ensures done <==> |pipes.sendRing| == 0
      ensures !done ==>
        app.sender.Some? && !app.sender.value.forSpace && wakers.send == Some(app.sender.value.token)
    {
      ghost var from, at := Now(), Now();
      ReachesSelf(Next, from);
      var t := app.nextToken;
      app := App(FlushCheck(t, false), app.reader, None, t + 1);
      ReachesNext(Next, from, at, BeginFlush, Now());
      at := Now();
      if |pipes.sendRing| > 0 {
        app := app.(pc := FlushRegister(t, false));
        ReachesNext(Next, from, at, AppStep, Now());
        ParkFlusher(t, false, from);
        return false;
      }
      app := app.(pc := Idle);
      ReachesNext(Next, from, at, AppStep, Now());
      return true;
    }

    /** `Drop`: the worker is told, and then notified. */
    method DropStream()
      requires app.pc.Idle?
      modifies this`flags, this`wakers, this`app
      ensures Reaches(Next, old(Now()), Now())
      ensures flags == old(flags).(dropped := true) && wakers.permit && app.pc.Ended?
    {
      ghost var from, at := Now(), Now();
      ReachesSelf(Next, from);
      flags := flags.(dropped := true);
      app := App(Notify(true), None, None, app.nextToken);
      ReachesNext(Next, from, at, BeginDrop, Now());
      at := Now();
      wakers := wakers.(permit := true);
      app := app.(pc := Ended);
      ReachesNext(Next, from, at, AppStep, Now());
    }

    /**
     * `poll_shutdown`: writes are closed and the worker is notified exactly when
     * the send ring is empty; otherwise the caller waits for it to drain.
     */
    method PollShutdown() returns (done: bool)
      requires app.pc.Idle?
      modifies this`flags, this`wakers, this`app
      ensures Reaches(Next, old(Now()), Now())
      ensures done <==> |pipes.sendRing| == 0
      ensures done ==> wakers.permit && flags == old(flags).(writeClosed := true)
      ensures !done ==>
        && flags == old(flags)
        && app.sender.Some? && !app.sender.value.forSpace && wakers.send == Some(app.sender.value.token)
    {
      ghost var from, at := Now(), Now();
      ReachesSelf(Next, from);
      var t := app.nextToken;
      app := App(FlushCheck(t, true), app.reader, None, t + 1);
      ReachesNext(Next, from, at, BeginShutdown, Now());
      at := Now();
      if |pipes.sendRing| > 0 {
        app := app.(pc := FlushRegister(t, true));
        ReachesNext(Next, from, at, AppStep, Now());
        ParkFlusher(t, true, from);
        return false;
      }
      app := app.(pc := CloseWrites);
      ReachesNext(Next, from, at, AppStep, Now());
      StoreWriteClosed(from);
      return true;
    }

    method ParkFlusher(t: Token, thenClose: bool, ghost from: State)
      requires app.pc == FlushRegister(t, thenClose) && |pipes.sendRing| > 0 && Reaches(Next, from, Now())
      modifies this`wakers, this`app
      ensures Reaches(Next, from, Now())
      ensures app.sender == Some(SendWait(t, false)) && wakers.send == Some(t)
    {
      ghost var at := Now();
      wakers := wakers.(send := Some(t));
      app := app.(pc := FlushRecheck(t, thenClose));
      ReachesNext(Next, from, at, AppStep, Now());
      at := Now();
      app := app.(pc := Idle, sender := Some(SendWait(t, false)));
      ReachesNext(Next, from, at, AppStep, Now());
    }

    method StoreWriteClosed(ghost from: State)
      requires app.pc.CloseWrites? && Reaches(Next, from, Now())
      modifies this`flags, this`wakers, this`app
      ensures Reaches(Next, from, Now()) && wakers.permit
      ensures flags == old(flags).(writeClosed := true)
    {
      ghost var at := Now();
      flags := flags.(writeClosed := true);
      app := app.(pc := Notify(false));
      ReachesNext(Next, from, at, AppStep, Now());
      at := Now();
      wakers := wakers.(permit := true);
      app := app.(pc := Idle);
      ReachesNext(Next, from, at, AppStep, Now());
    }
  }
}
