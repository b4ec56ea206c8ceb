/** What holds over every run of the TCP bridge. */
module TcpBridgeResults {
  import opened Base
  import opened Runs
  import opened TcpBridge
  import opened TcpBridgeInvariant

  /** A run of a connection whose rings and socket have any capacities. */
  ghost predicate BridgeRun(states: seq<State>, actions: seq<Action>) {
    && Behaviour(states, actions)
    && exists r, c, t :: states[0] == Init(r, c, t)
  }

  lemma RunKeepsInv(states: seq<State>, actions: seq<Action>, i: nat)
    requires BridgeRun(states, actions) && i < |states|
    ensures Inv(states[i])
  {
    var r, c, t :| states[0] == Init(r, c, t);
    forall s, a, s' | Inv(s) && Next(s, a, s')
      ensures Inv(s')
    {
      NextKeeps(s, a, s');
    }
    RunKeeps(Next, Inv, states, actions, 0, i);
  }

  /**
   * Bytes the application read, then those in the receive ring, then those in
   * the socket are exactly the bytes that arrived, in order; and bytes on the
   * wire, in the socket and in the send ring are exactly the bytes accepted.
   */
  lemma BytesAreConserved(states: seq<State>, actions: seq<Action>, i: nat)
    requires BridgeRun(states, actions) && i < |states|
    ensures var p := states[i].pipes;
            && p.readOut + p.recvRing + p.rx == p.arrived && p.readOut <= p.arrived
            && p.transmitted + p.tx + p.sendRing == p.accepted && p.transmitted <= p.accepted
            && |p.recvRing| <= p.recvCapacity && |p.sendRing| <= p.sendCapacity
  {
    RunKeepsInv(states, actions, i);
    var p := states[i].pipes;
    assert p.arrived == p.readOut + (p.recvRing + p.rx);
    assert p.accepted == p.transmitted + (p.tx + p.sendRing);
  }

  /**
   * No wake-up of the application is lost: a reader parked beside a non-empty
   * ring, a writer parked beside a ring with space and a flusher parked beside
   * an empty one have been woken, or the worker is about to wake exactly them.
   */
  lemma NoLostApplicationWakeup(states: seq<State>, actions: seq<Action>, i: nat)
    requires BridgeRun(states, actions) && i < |states|
    ensures var s := states[i];
            && (s.app.reader.Some? && |s.pipes.recvRing| > 0 ==>
                  var t := s.app.reader.value.token;
                  t in s.wakers.woken
                  || (s.wakers.recv == Some(t) && s.worker.wakeReader
                      && (s.worker.pc.CheckOpen? || s.worker.pc.WakeReader?)))
            && (s.app.sender.Some? && s.app.sender.value.forSpace && |s.pipes.sendRing| < s.pipes.sendCapacity ==>
                  var t := s.app.sender.value.token;
                  t in s.wakers.woken
                  || (s.wakers.send == Some(t) && s.worker.wakeSender
                      && (s.worker.pc.SendCheck? || s.worker.pc.SendPop? || s.worker.pc.WakeSender?)))
            && (s.app.sender.Some? && !s.app.sender.value.forSpace && |s.pipes.sendRing| == 0 ==>
                  var t := s.app.sender.value.token;
                  t in s.wakers.woken
                  || (s.wakers.send == Some(t) && s.worker.wakeSender
                      && (s.worker.pc.SendCheck? || s.worker.pc.SendPop? || s.worker.pc.WakeSender?)))
  {
    RunKeepsInv(states, actions, i);
  }

  /**
   * No wake-up of the worker is lost: when it waits without a permit, and no
   * notification is under way, there is no byte it could move in either
   * direction, no drop to clean up and no close to carry out.
   */
  lemma NoLostWorkerWakeup(states: seq<State>, actions: seq<Action>, i: nat)
    requires BridgeRun(states, actions) && i < |states|
    ensures var s := states[i];
            s.worker.pc.Waiting? && !s.wakers.permit && !s.app.pc.Notify? ==>
              && (!s.flags.mayRecv || |s.pipes.rx| == 0 || |s.pipes.recvRing| == s.pipes.recvCapacity)
              && (!s.flags.maySend || s.flags.closing || |s.pipes.tx| == s.pipes.txCapacity || |s.pipes.sendRing| == 0)
              && !s.flags.dropped
              && (s.flags.writeClosed ==> s.flags.closing)
  {
    RunKeepsInv(states, actions, i);
  }

  /** The socket takes bytes and there are some to send. */
  predicate MaySendNow(s: State) {
    s.flags.maySend && !s.flags.closing && |s.pipes.tx| < s.pipes.txCapacity && |s.pipes.sendRing| > 0
  }

  /**
   * The worker does not spin: a pass counts receiving or sending as progress only
   * if bytes moved, and bytes that can move do.
   */
  lemma ProgressIsBytes(states: seq<State>, actions: seq<Action>, i: nat)
    requires BridgeRun(states, actions) && i < |actions| && actions[i].WorkerStep?
    ensures var s, s' := states[i], states[i + 1];
            && (s.worker.pc.Recv? && s.flags.mayRecv && |s.pipes.rx| > 0 && |s.pipes.recvRing| < s.pipes.recvCapacity ==>
                  && |s.pipes.dequeued| < |s'.pipes.dequeued| && |s'.pipes.recvRing| > |s.pipes.recvRing|
                  && s'.worker.progress && s'.worker.wakeReader)
            && (s.worker.pc.Recv? && s'.worker.progress && !s.worker.progress ==>
                  |s.pipes.dequeued| < |s'.pipes.dequeued|)
            && (s.worker.pc.SendPop? ==>
                  |s.pipes.enqueued| < |s'.pipes.enqueued| && |s'.pipes.sendRing| < |s.pipes.sendRing|)
            && (s.worker.pc.SendCheck? && MaySendNow(s) ==> s'.worker.pc.SendPop?)
  {
    RunKeepsInv(states, actions, i);
    var s, s' := states[i], states[i + 1];
    assert Next(s, actions[i], s');
    if s.worker.pc.Recv? {
      ReceivingMoves(s, actions[i].choice, s');
    } else if s.worker.pc.SendPop? || s.worker.pc.SendCheck? {
      SendingMoves(s, actions[i].choice, s');
    }
  }

  lemma ReceivingMoves(s: State, choice: nat, s': State)
    requires RecvStep(s, choice, s') && Inv(s)
    ensures s.flags.mayRecv && |s.pipes.rx| > 0 && |s.pipes.recvRing| < s.pipes.recvCapacity ==>
      && |s.pipes.dequeued| < |s'.pipes.dequeued| && |s'.pipes.recvRing| > |s.pipes.recvRing|
      && s'.worker.progress && s'.worker.wakeReader
    ensures s'.worker.progress && !s.worker.progress ==> |s.pipes.dequeued| < |s'.pipes.dequeued|
  {
  }

  lemma SendingMoves(s: State, choice: nat, s': State)
    requires SendStep(s, choice, s') && Inv(s) && (s.worker.pc.SendPop? || s.worker.pc.SendCheck?)
    ensures s.worker.pc.SendPop? ==>
      |s.pipes.enqueued| < |s'.pipes.enqueued| && |s'.pipes.sendRing| < |s.pipes.sendRing|
    ensures s.worker.pc.SendCheck? && MaySendNow(s) ==> s'.worker.pc.SendPop?
  {
  }

  /** A wake that is owed is given: the step that leaves the waking position wakes the registered token. */
  lemma OwedWakesAreGiven(s: State, choice: nat, s': State)
    requires Next(s, WorkerStep(choice), s')
    ensures s.worker.pc.CheckOpen? && s.worker.wakeReader ==>
      s'.worker.pc.WakeReader? && s'.worker.wakeReader && s'.wakers.recv == s.wakers.recv
    ensures s.worker.pc.WakeReader? && s.worker.wakeReader && s.wakers.recv.Some? ==>
      s.wakers.recv.value in s'.wakers.woken
    ensures s.worker.pc.WakeSender? && s.worker.wakeSender && s.wakers.send.Some? ==>
      s.wakers.send.value in s'.wakers.woken
    ensures (s.worker.pc.SendCheck? || s.worker.pc.SendPop?) && s.worker.wakeSender ==>
      (s'.worker.pc.SendCheck? || s'.worker.pc.SendPop? || s'.worker.pc.WakeSender?) && s'.worker.wakeSender
      && s'.wakers.send == s.wakers.send
  {
  }

  /** When the socket is closed, every accepted byte is already in it, in order. */
  lemma CloseComesLast(states: seq<State>, actions: seq<Action>, i: nat)
    requires BridgeRun(states, actions) && i < |states|
    ensures states[i].flags.closing ==>
      && states[i].flags.writeClosed && |states[i].pipes.sendRing| == 0
      && states[i].pipes.enqueued == states[i].pipes.accepted
  {
    RunKeepsInv(states, actions, i);
  }

  /** No byte is accepted once writes are closed, and writes are never reopened. */
  lemma NothingAcceptedAfterClose(states: seq<State>, actions: seq<Action>, i: nat, j: nat)
    requires BridgeRun(states, actions) && i <= j < |states| && states[i].flags.writeClosed
    ensures states[j].flags.writeClosed && states[j].pipes.accepted == states[i].pipes.accepted
  {
    RunKeepsInv(states, actions, i);
    var accepted := states[i].pipes.accepted;
    forall s, a, s' | ClosedAt(s, accepted) && Next(s, a, s')
      ensures ClosedAt(s', accepted)
    {
      NextKeeps(s, a, s');
      ClosedStaysClosed(s, a, s');
    }
    RunKeeps(Next, s => ClosedAt(s, accepted), states, actions, i, j);
  }

  /** Writes are closed, and these are all the bytes ever accepted. */
  predicate ClosedAt(s: State, accepted: Bytes) {
    Inv(s) && s.flags.writeClosed && s.pipes.accepted == accepted
  }

  lemma ClosedStaysClosed(s: State, a: Action, s': State)
    requires ClosedInOrder(s) && Next(s, a, s') && s.flags.writeClosed
    ensures s'.flags.writeClosed && s'.pipes.accepted == s.pipes.accepted
  {
    if a.AppStep? {
      ApplicationAddsNothing(s, s');
    } else if a.WorkerStep? {
      WorkerAddsNothing(s, a.choice, s');
    }
  }

  lemma WorkerAddsNothing(s: State, choice: nat, s': State)
    requires Next(s, WorkerStep(choice), s') && s.flags.writeClosed
    ensures s'.flags.writeClosed && s'.pipes.accepted == s.pipes.accepted
  {
    if RecvStep(s, choice, s') {
      ReceivingAddsNothing(s, choice, s');
    } else if SendStep(s, choice, s') {
      SendingAddsNothing(s, choice, s');
    }
  }

  lemma ReceivingAddsNothing(s: State, choice: nat, s': State)
    requires RecvStep(s, choice, s')
    ensures s'.flags == s.flags && s'.pipes.accepted == s.pipes.accepted
  {
  }

  lemma SendingAddsNothing(s: State, choice: nat, s': State)
    requires SendStep(s, choice, s')
    ensures s'.flags == s.flags && s'.pipes.accepted == s.pipes.accepted
  {
  }

  lemma ApplicationAddsNothing(s: State, s': State)
    requires ClosedInOrder(s) && Next(s, AppStep, s') && s.flags.writeClosed
    ensures s'.flags.writeClosed && s'.pipes.accepted == s.pipes.accepted
  {
  }

  // --- End of stream ---

  /**
   * At the end of the stream every parked reader that registered before the
   * end-of-stream wake was spent is woken or about to be. Only a reader that
   * registered later can stay parked.
   */
  lemma EndOfStreamWakesEarlyReaders(states: seq<State>, actions: seq<Action>, i: nat)
    requires BridgeRun(states, actions) && i < |states|
    requires states[i].flags.readClosed && states[i].app.reader.Some? && !ReaderWakeDue(states[i])
    ensures states[i].app.reader.value.late || states[i].app.reader.value.token in states[i].wakers.woken
  {
    RunKeepsInv(states, actions, i);
  }

  /** Once the worker has let go of a connection it never wakes anybody again. */
  lemma GoneWakesNobody(states: seq<State>, actions: seq<Action>, i: nat, j: nat)
    requires Behaviour(states, actions) && i <= j < |states| && states[i].worker.pc.Gone?
    ensures states[j].worker.pc.Gone? && states[j].wakers.woken == states[i].wakers.woken
  {
    var woken := states[i].wakers.woken;
    forall s, a, s' | GoneWith(s, woken) && Next(s, a, s')
      ensures GoneWith(s', woken)
    {
      GoneStep(s, a, s');
    }
    RunKeeps(Next, s => GoneWith(s, woken), states, actions, i, j);
  }

  predicate GoneWith(s: State, woken: set<Token>) {
    s.worker.pc.Gone? && s.wakers.woken == woken
  }

  lemma GoneStep(s: State, a: Action, s': State)
    requires Next(s, a, s') && s.worker.pc.Gone?
    ensures s'.worker.pc.Gone? && s'.wakers.woken == s.wakers.woken
  {
  }
}
