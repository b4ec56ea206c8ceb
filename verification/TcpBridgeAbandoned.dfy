/**
 * Exactly when a parked poll can be abandoned: from which states, and only those,
 * the worker can let go of the connection without ever waking it.
 */
module TcpBridgeAbandoned {
  import opened Base
  import opened Runs
  import opened TcpBridge
  import opened TcpBridgeInvariant
  import opened TcpBridgeResults
  import opened TcpBridgeTokens
  import opened TcpBridgeEnd
  import opened TcpBridgeServed

  predicate ReaderAdrift(s: State, t: Token) {
    ReaderParked(s, t) && !ReadWakeComing(s) && s.wakers.send != Some(t)
  }

  predicate SenderAdrift(s: State, t: Token) {
    SenderParked(s, t) && !SendWakeComing(s) && s.wakers.recv != Some(t) && SendFlagFresh(s)
  }

  // --- Nearer to the end ---

  function Position(pc: WorkerPc): nat {
    match pc
    case FirstPoll => 17
    case CheckDropped => 16
    case Recv => 15
    case CheckOpen => 14
    case WakeReader => 13
    case SendCheck => 12
    case SendPop => 11
    case WakeSender => 10
    case PruneDropped => 9
    case PruneClosed => 8
    case PruneEmpty => 7
    case PruneActive => 6
    case SecondPoll => 5
    case Decide => 4
    case Waiting => 3
    case Drain => 18
    case Gone => 0
  }

  /** Where the worker is on its way to stop for want of work. */
  function IdlePhase(s: State): nat {
    if s.worker.pc.Drain? && s.worker.progress then 1 else Position(s.worker.pc)
  }

  function Busy(s: State): nat {
    if s.worker.progress then 1 else 0
  }

  /** Where the worker is on its way to prune a dead socket. */
  function PrunePhase(s: State): nat {
    if s.worker.pc.Decide? || s.worker.pc.Waiting? then Position(s.worker.pc) + 16
    else if s.worker.pc.SecondPoll? && !s.flags.active then 21
    else Position(s.worker.pc)
  }

  function Rounds(s: State): nat {
    if s.flags.active then 1 else 0
  }

  function ToSend(s: State): nat {
    |s.pipes.sendRing|
  }

  /** Towards the worker's exit or an inactive socket's end, with the reader still adrift. */
  predicate ReaderNearer(s: State, s': State, t: Token) {
    && s'.app == s.app && ReaderAdrift(s', t)
    && (s.flags.readClosed ==> s'.flags.readClosed) && (s'.flags.active ==> s.flags.active)
    && (ToSend(s') < ToSend(s)
        || (ToSend(s') == ToSend(s)
            && (Busy(s') < Busy(s) || (Busy(s') == Busy(s) && IdlePhase(s') < IdlePhase(s)))))
  }

  /** Towards the end of a socket that dies at the next poll, with the sender still adrift. */
  predicate SenderNearer(s: State, s': State, t: Token) {
    && s'.app == s.app && SenderAdrift(s', t)
    && (Rounds(s') < Rounds(s)
        || (Rounds(s') == Rounds(s)
            && (ToSend(s') < ToSend(s) || (ToSend(s') == ToSend(s) && PrunePhase(s') < PrunePhase(s)))))
  }

  predicate Nearer(s: State, s': State, t: Token) {
    (ReaderAdrift(s, t) ==> ReaderNearer(s, s', t)) && (SenderAdrift(s, t) ==> SenderNearer(s, s', t))
  }

  // --- The middle of a pass ---

  lemma PassDropped(s: State, t: Token) returns (s': State)
    requires Sound(s) && s.worker.pc.CheckDropped?
    ensures Next(s, WorkerStep(0), s') && Nearer(s, s', t)
  {
    s' := s.(worker := s.worker.(pc := if s.flags.dropped then PruneDropped else Recv,
                                 wakeReader := false, wakeSender := false));
    assert PassStep(s, 0, s');
  }

  lemma Receives(s: State) returns (s': State)
    requires s.worker.pc.Recv?
    ensures RecvStep(s, 0, s')
  {
    var chunk := if CanRecv(s) then Clamp(0, |s.pipes.rx|) else 0;
    var moved := chunk > 0 && |s.pipes.recvRing| < s.pipes.recvCapacity;
    s' := s.(pipes := WorkerPush(s.pipes, chunk),
             worker := s.worker.(pc := CheckOpen, wakeReader := CanRecv(s), progress := s.worker.progress || moved));
  }

  lemma ReceivingNearer(s: State, s': State, t: Token)
    requires Sound(s) && RecvStep(s, 0, s')
    ensures Nearer(s, s', t)
  {
  }

  lemma PassRecv(s: State, t: Token) returns (s': State)
    requires Sound(s) && s.worker.pc.Recv?
    ensures Next(s, WorkerStep(0), s') && Nearer(s, s', t)
  {
    s' := Receives(s);
    ReceivingNearer(s, s', t);
  }

  lemma PassCheckOpen(s: State, t: Token) returns (s': State)
    requires Sound(s) && s.worker.pc.CheckOpen?
    ensures Next(s, WorkerStep(0), s') && Nearer(s, s', t)
  {
    var ended := !s.flags.open && !s.flags.readClosed;
    s' := s.(flags := s.flags.(readClosed := s.flags.readClosed || ended),
             worker := s.worker.(pc := WakeReader, wakeReader := s.worker.wakeReader || ended));
    assert WakeReaderStep(s, s');
  }

  lemma PassWakeReader(s: State, t: Token) returns (s': State)
    requires Sound(s) && s.worker.pc.WakeReader?
    ensures Next(s, WorkerStep(0), s') && Nearer(s, s', t)
  {
    var w := s.worker;
    s' := s.(wakers := s.wakers.(recv := if w.wakeReader then None else s.wakers.recv,
                                 woken := Wake(s.wakers.recv, w.wakeReader, s.wakers.woken)),
             worker := w.(pc := SendCheck, wakeReader := false,
                          eofWoken := w.eofWoken || (w.wakeReader && s.flags.readClosed)));
    assert WakeReaderStep(s, s');
  }

  lemma PassSendCheck(s: State, t: Token) returns (s': State)
    requires Sound(s) && s.worker.pc.SendCheck?
    ensures Next(s, WorkerStep(0), s') && Nearer(s, s', t)
  {
    s' := WorkerGoto(s, if CanSend(s) && |s.pipes.sendRing| > 0 then SendPop else WakeSender);
    assert SendStep(s, 0, s');
  }

  lemma PassSendPop(s: State, t: Token) returns (s': State)
    requires Sound(s) && s.worker.pc.SendPop?
    ensures Next(s, WorkerStep(0), s') && Nearer(s, s', t)
  {
    s' := s.(pipes := WorkerPop(s.pipes, Clamp(0, s.pipes.txCapacity - |s.pipes.tx|)),
             worker := s.worker.(pc := SendCheck, wakeSender := true, progress := true));
    assert SendStep(s, 0, s');
  }

  lemma PassWakeSender(s: State, t: Token) returns (s': State)
    requires Sound(s) && s.worker.pc.WakeSender?
    ensures Next(s, WorkerStep(0), s') && Nearer(s, s', t)
  {
    var w := s.worker;
    s' := s.(wakers := s.wakers.(send := if w.wakeSender then None else s.wakers.send,
                                 woken := Wake(s.wakers.send, w.wakeSender, s.wakers.woken)),
             worker := w.(pc := PruneDropped, wakeSender := false));
    assert SendStep(s, 0, s');
  }

  lemma PassPruneDropped(s: State, t: Token) returns (s': State)
    requires Sound(s) && s.worker.pc.PruneDropped?
    ensures Next(s, WorkerStep(0), s') && Nearer(s, s', t)
  {
    s' := WorkerGoto(s, if s.flags.dropped then Gone else PruneClosed);
    assert PruneCheckStep(s, s');
  }

  lemma PassPruneClosed(s: State, t: Token) returns (s': State)
    requires Sound(s) && s.worker.pc.PruneClosed?
    ensures Next(s, WorkerStep(0), s') && Nearer(s, s', t)
  {
    s' := WorkerGoto(s, if s.flags.writeClosed then PruneEmpty else PruneActive);
    assert PruneCheckStep(s, s');
  }

  lemma PassPruneEmpty(s: State, t: Token) returns (s': State)
    requires Sound(s) && s.worker.pc.PruneEmpty?
    ensures Next(s, WorkerStep(0), s') && Nearer(s, s', t)
  {
    s' := WorkerGoto(s, PruneActive).(flags := if |s.pipes.sendRing| == 0 then Close(s.flags, false) else s.flags);
    assert PruneFinishStep(s, 0, s');
  }

  lemma PassPruneActive(s: State, t: Token) returns (s': State)
    requires Sound(s) && s.worker.pc.PruneActive?
    ensures Next(s, WorkerStep(0), s') && Nearer(s, s', t)
  {
    s' := WorkerGoto(s, if s.flags.active then SecondPoll else Gone);
    assert PruneFinishStep(s, 0, s');
  }

  predicate MidPass(pc: WorkerPc) {
    pc.CheckDropped? || pc.Recv? || pc.CheckOpen? || PastEndCheck(pc)
  }

  lemma PassOn(s: State, t: Token) returns (s': State)
    requires Sound(s) && MidPass(s.worker.pc)
    ensures Next(s, WorkerStep(0), s') && Nearer(s, s', t)
  {
    match s.worker.pc
    case CheckDropped => s' := PassDropped(s, t);
    case Recv => s' := PassRecv(s, t);
    case CheckOpen => s' := PassCheckOpen(s, t);
    case WakeReader => s' := PassWakeReader(s, t);
    case SendCheck => s' := PassSendCheck(s, t);
    case SendPop => s' := PassSendPop(s, t);
    case WakeSender => s' := PassWakeSender(s, t);
    case PruneDropped => s' := PassPruneDropped(s, t);
    case PruneClosed => s' := PassPruneClosed(s, t);
    case PruneEmpty => s' := PassPruneEmpty(s, t);
    case PruneActive => s' := PassPruneActive(s, t);
  }

  // --- Between passes ---

  /** Nothing changes any more; a worker without work waits, and then its task ends. */
  lemma SteerReader(s: State, t: Token) returns (a: Action, s': State)
    requires Sound(s) && ReaderAdrift(s, t) && !s.worker.pc.Gone?
    ensures Next(s, a, s') && ReaderNearer(s, s', t)
    ensures !s.flags.active ==> !a.WorkerExits?
  {
    if MidPass(s.worker.pc) {
      a := WorkerStep(0);
      s' := PassOn(s, t);
    } else if s.worker.pc.FirstPoll? || s.worker.pc.SecondPoll? {
      a := InterfacePoll(None);
      s' := WorkerGoto(s, if s.worker.pc.FirstPoll? then CheckDropped else Decide);
      assert PollStep(s, None, s');
    } else {
      a, s' := SteerReaderIdle(s, t);
    }
  }

  lemma SteerReaderIdle(s: State, t: Token) returns (a: Action, s': State)
    requires Sound(s) && ReaderAdrift(s, t)
    requires s.worker.pc.Drain? || s.worker.pc.Decide? || s.worker.pc.Waiting?
    ensures Next(s, a, s') && ReaderNearer(s, s', t)
    ensures !s.flags.active ==> !a.WorkerExits?
  {
    a := WorkerStep(0);
    if s.worker.pc.Drain? {
      s' := s.(worker := s.worker.(pc := FirstPoll, progress := false));
      assert PassStep(s, 0, s');
    } else if s.worker.pc.Decide? {
      s' := WorkerGoto(s, if s.worker.progress then Drain else Waiting);
      assert IdleStep(s, 0, s');
    } else {
      a := WorkerExits;
      s' := WorkerGoto(s, Gone);
    }
  }

  /** The socket dies, if it has lived; what it has received stays receivable. */
  function Death(s: State): Option<Change> {
    if s.flags.connected then Some(Change([], 0, |s.pipes.rx| > 0, false, false, false)) else None
  }

  lemma SteerSender(s: State, t: Token) returns (a: Action, s': State)
    requires Sound(s) && SenderAdrift(s, t) && !s.worker.pc.Gone?
    ensures Next(s, a, s') && SenderNearer(s, s', t) && !a.WorkerExits?
  {
    if MidPass(s.worker.pc) {
      a := WorkerStep(0);
      s' := PassOn(s, t);
    } else if s.worker.pc.FirstPoll? || s.worker.pc.SecondPoll? {
      a := InterfacePoll(Death(s));
      s' := SteerSenderPoll(s, t);
    } else {
      a, s' := SteerSenderIdle(s, t);
    }
  }

  lemma SteerSenderPoll(s: State, t: Token) returns (s': State)
    requires Sound(s) && SenderAdrift(s, t) && (s.worker.pc.FirstPoll? || s.worker.pc.SecondPoll?)
    ensures Next(s, InterfacePoll(Death(s)), s') && SenderNearer(s, s', t)
  {
    var after := if s.worker.pc.FirstPoll? then CheckDropped else Decide;
    if s.flags.connected {
      assert s.pipes.rx + [] == s.pipes.rx;
      s' := s.(pipes := Exchange(s.pipes, [], 0),
               flags := s.flags.(mayRecv := |s.pipes.rx| > 0, maySend := false, open := false, active := false),
               worker := s.worker.(pc := after, progress := true));
    } else {
      s' := WorkerGoto(s, after);
    }
    assert PollStep(s, Death(s), s');
  }

  lemma SteerSenderIdle(s: State, t: Token) returns (a: Action, s': State)
    requires Sound(s) && SenderAdrift(s, t)
    requires s.worker.pc.Drain? || s.worker.pc.Decide? || s.worker.pc.Waiting?
    ensures Next(s, a, s') && SenderNearer(s, s', t) && !a.WorkerExits?
  {
    if s.worker.pc.Drain? {
      a := WorkerStep(0);
      s' := s.(worker := s.worker.(pc := FirstPoll, progress := false));
      assert PassStep(s, 0, s');
    } else {
      a := WorkerStep(1);
      s' := WorkerGoto(s, Drain);
      assert IdleStep(s, 1, s');
    }
  }

  // --- To the end ---

  /** Since `actions` the worker has not been told to exit. */
  predicate NoExit(actions: seq<Action>, actions': seq<Action>) {
    actions <= actions' && WorkerExits !in actions'[|actions|..]
  }

  lemma NoExitVia(actions: seq<Action>, a: Action, actions': seq<Action>)
    requires !a.WorkerExits? && NoExit(actions + [a], actions')
    ensures NoExit(actions, actions')
  {
    assert actions'[|actions|..] == [a] + actions'[|actions| + 1..];
  }

  lemma ExtendBridgeRun(states: seq<State>, actions: seq<Action>, a: Action, s': State)
    requires BridgeRun(states, actions) && Next(states[|states| - 1], a, s')
    ensures BridgeRun(states + [s'], actions + [a])
  {
    Extend(Next, states, actions, a, s');
    assert (states + [s'])[0] == states[0];
  }

  lemma RunIsSound(states: seq<State>, actions: seq<Action>)
    requires BridgeRun(states, actions)
    ensures Sound(states[|states| - 1]) && TokensOk(states[|states| - 1])
  {
    RunKeepsInv(states, actions, |states| - 1);
    RunKeepsEnd(states, actions, |states| - 1);
    RunKeepsTokens(states, actions, |states| - 1);
  }

  lemma SteerReaderOnce(states: seq<State>, actions: seq<Action>, s: State, t: Token)
      returns (a: Action, m: State)
    requires BridgeRun(states, actions) && s == states[|states| - 1] && ReaderAdrift(s, t) && !s.worker.pc.Gone?
    ensures BridgeRun(states + [m], actions + [a]) && ReaderNearer(s, m, t)
    ensures !s.flags.active ==> !a.WorkerExits?
  {
    RunIsSound(states, actions);
    a, m := SteerReader(s, t);
    ExtendBridgeRun(states, actions, a, m);
  }

  /** A reader adrift stays so to the end, which for an inactive socket comes by pruning. */
  lemma {:induction false} ReaderToGone(states: seq<State>, actions: seq<Action>, s: State, t: Token)
      returns (states': seq<State>, actions': seq<Action>)
    requires BridgeRun(states, actions) && s == states[|states| - 1] && ReaderAdrift(s, t)
    ensures BridgeRun(states', actions') && states <= states' && actions <= actions'
    ensures !s.flags.active ==> NoExit(actions, actions')
    ensures var s' := states'[|states'| - 1];
            && s'.worker.pc.Gone? && s'.app == s.app && ReaderAdrift(s', t)
            && (s.flags.readClosed ==> s'.flags.readClosed)
    decreases ToSend(s), Busy(s), IdlePhase(s)
  {
    if s.worker.pc.Gone? {
      return states, actions;
    }
    var a, m := SteerReaderOnce(states, actions, s, t);
    states', actions' := ReaderToGone(states + [m], actions + [a], m, t);
    if !s.flags.active {
      NoExitVia(actions, a, actions');
    }
  }

  lemma SteerSenderOnce(states: seq<State>, actions: seq<Action>, s: State, t: Token)
      returns (a: Action, m: State)
    requires BridgeRun(states, actions) && s == states[|states| - 1] && SenderAdrift(s, t) && !s.worker.pc.Gone?
    ensures BridgeRun(states + [m], actions + [a]) && SenderNearer(s, m, t) && !a.WorkerExits?
  {
    RunIsSound(states, actions);
    a, m := SteerSender(s, t);
    ExtendBridgeRun(states, actions, a, m);
  }

  /** A sender adrift stays so to the end, which comes by pruning. */
  lemma {:induction false} SenderToGone(states: seq<State>, actions: seq<Action>, s: State, t: Token)
      returns (states': seq<State>, actions': seq<Action>)
    requires BridgeRun(states, actions) && s == states[|states| - 1] && SenderAdrift(s, t)
    ensures BridgeRun(states', actions') && states <= states' && NoExit(actions, actions')
    ensures states'[|states'| - 1].worker.pc.Gone? && SenderAdrift(states'[|states'| - 1], t)
    decreases Rounds(s), ToSend(s), PrunePhase(s)
  {
    if s.worker.pc.Gone? {
      return states, actions;
    }
    var a, m := SteerSenderOnce(states, actions, s, t);
    states', actions' := SenderToGone(states + [m], actions + [a], m, t);
    NoExitVia(actions, a, actions');
  }

  // --- The exact conditions ---

  /** The run goes on until the worker has let go of the connection, the reader still parked. */
  ghost predicate AbandonsReader(states: seq<State>, states': seq<State>, actions': seq<Action>, t: Token) {
    && BridgeRun(states', actions') && states <= states'
    && states'[|states'| - 1].worker.pc.Gone? && ReaderParked(states'[|states'| - 1], t)
  }

  ghost predicate AbandonsSender(states: seq<State>, states': seq<State>, actions': seq<Action>, t: Token) {
    && BridgeRun(states', actions') && states <= states'
    && states'[|states'| - 1].worker.pc.Gone? && SenderParked(states'[|states'| - 1], t)
  }

  /**
   * Exactly when a parked reader can be abandoned, from any reachable state: it has
   * not been woken, and its wake is not certain.
   */
  lemma ReaderAbandonedExactly(states: seq<State>, actions: seq<Action>, t: Token)
    requires BridgeRun(states, actions)
    requires states[|states| - 1].app.reader.Some? && states[|states| - 1].app.reader.value.token == t
    ensures (exists states', actions' :: AbandonsReader(states, states', actions', t)) <==>
      t !in states[|states| - 1].wakers.woken && !ReadWakeComing(states[|states| - 1])
  {
    var s := states[|states| - 1];
    RunIsSound(states, actions);
    if ReaderParked(s, t) && !ReadWakeComing(s) {
      var states', actions' := ReaderToGone(states, actions, s, t);
      assert AbandonsReader(states, states', actions', t);
    } else {
      assert ReaderServed(s, t);
      forall states', actions' | BridgeRun(states', actions') && states <= states'
        ensures !AbandonsReader(states, states', actions', t)
      {
        assert states'[|states| - 1] == s;
        RunServesReader(states', actions', |states| - 1, |states'| - 1, t);
      }
    }
  }

  /**
   * Exactly when pruning alone can abandon it, while the worker's task goes on: the
   * socket is, besides, no longer active.
   */
  lemma ReaderPrunedExactly(states: seq<State>, actions: seq<Action>, t: Token)
    requires BridgeRun(states, actions)
    requires states[|states| - 1].app.reader.Some? && states[|states| - 1].app.reader.value.token == t
    ensures var s := states[|states| - 1];
            (exists states', actions' :: AbandonsReader(states, states', actions', t) && NoExit(actions, actions'))
            <==> (t !in s.wakers.woken && !ReadWakeComing(s) && (!s.flags.active || s.worker.pc.Gone?))
  {
    var s := states[|states| - 1];
    RunIsSound(states, actions);
    if ReaderParked(s, t) && !ReadWakeComing(s) && (!s.flags.active || s.worker.pc.Gone?) {
      PrunedReader(states, actions, s, t);
    } else {
      forall states', actions' | NoExit(actions, actions')
        ensures !AbandonsReader(states, states', actions', t)
      {
        NeverPruned(states, actions, states', actions', t);
      }
    }
  }

  lemma PrunedReader(states: seq<State>, actions: seq<Action>, s: State, t: Token)
    requires BridgeRun(states, actions) && s == states[|states| - 1] && ReaderAdrift(s, t)
    requires !s.flags.active || s.worker.pc.Gone?
    ensures exists states', actions' :: AbandonsReader(states, states', actions', t) && NoExit(actions, actions')
  {
    if s.worker.pc.Gone? {
      assert AbandonsReader(states, states, actions, t) && NoExit(actions, actions);
    } else {
      var states', actions' := ReaderToGone(states, actions, s, t);
      assert AbandonsReader(states, states', actions', t);
    }
  }

  /** A reader that is kept is not abandoned by pruning. */
  lemma NeverPruned(states: seq<State>, actions: seq<Action>, states': seq<State>, actions': seq<Action>, t: Token)
    requires BridgeRun(states, actions) && NoExit(actions, actions') && ReaderKept(states[|states| - 1], t)
    ensures !AbandonsReader(states, states', actions', t)
  {
    if BridgeRun(states', actions') && states <= states' {
      var i, j := |states| - 1, |states'| - 1;
      assert states'[i] == states[i] && actions'[i..j] == actions'[|actions|..];
      RunKeepsReader(states', actions', i, j, t);
    }
  }

  /**
   * Exactly when a parked writer or flusher can be abandoned, and then by pruning
   * alone: it has not been woken, and the pass under way is not about to wake it.
   */
  lemma SenderAbandonedExactly(states: seq<State>, actions: seq<Action>, t: Token)
    requires BridgeRun(states, actions)
    requires states[|states| - 1].app.sender.Some? && states[|states| - 1].app.sender.value.token == t
    ensures (exists states', actions' :: AbandonsSender(states, states', actions', t)) <==>
      t !in states[|states| - 1].wakers.woken && !SendWakeComing(states[|states| - 1])
    ensures (exists states', actions' :: AbandonsSender(states, states', actions', t)) ==>
      exists states', actions' :: AbandonsSender(states, states', actions', t) && NoExit(actions, actions')
  {
    var s := states[|states| - 1];
    RunIsSound(states, actions);
    if SenderParked(s, t) && !SendWakeComing(s) {
      var states', actions' := SenderToGone(states, actions, s, t);
      assert AbandonsSender(states, states', actions', t) && NoExit(actions, actions');
    } else {
      assert SenderServed(s, t);
      forall states', actions' | BridgeRun(states', actions') && states <= states'
        ensures !AbandonsSender(states, states', actions', t)
      {
        assert states'[|states| - 1] == s;
        RunServesSender(states', actions', |states| - 1, |states'| - 1, t);
      }
    }
  }
}
