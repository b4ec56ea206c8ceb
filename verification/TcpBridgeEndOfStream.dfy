/**
 * The end of the stream: once it is recorded, whether a parked reader is ever
 * woken is decided, and a reader that registers too late never is.
 */
module TcpBridgeEndOfStream {
  import opened Base
  import opened Runs
  import opened TcpBridge
  import opened TcpBridgeInvariant
  import opened TcpBridgeResults
  import opened TcpBridgeTokens
  import opened TcpBridgeEnd
  import opened TcpBridgeServed
  import opened TcpBridgeAbandoned

  // --- Decided for good ---

  /** The end of the stream is recorded and nothing is left that could wake `t`. */
  predicate Lost(s: State, t: Token) {
    && s.flags.readClosed && t !in s.wakers.woken && !ReaderWakeDue(s)
    && s.wakers.send != Some(t) && Settled(s, t)
  }

  lemma ReadKeepsLost(s: State, s': State, t: Token)
    requires EndOk(s) && Lost(s, t) && (ReadEnterStep(s, s') || ReadFinishStep(s, s'))
    ensures Lost(s', t)
  {
  }

  lemma WriteKeepsLost(s: State, s': State, t: Token)
    requires EndOk(s) && Lost(s, t) && (WriteEnterStep(s, s') || WriteFinishStep(s, s'))
    ensures Lost(s', t)
  {
  }

  lemma AppKeepsLost(s: State, s': State, t: Token)
    requires EndOk(s) && Lost(s, t) && Next(s, AppStep, s')
    ensures Lost(s', t)
  {
    if ReadEnterStep(s, s') || ReadFinishStep(s, s') {
      ReadKeepsLost(s, s', t);
    } else if WriteEnterStep(s, s') || WriteFinishStep(s, s') {
      WriteKeepsLost(s, s', t);
    }
  }

  lemma PassKeepsLost(s: State, choice: nat, s': State, t: Token)
    requires EndOk(s) && Lost(s, t) && (WakeReaderStep(s, s') || SendStep(s, choice, s'))
    ensures Lost(s', t)
  {
  }

  lemma WorkerKeepsLost(s: State, choice: nat, s': State, t: Token)
    requires EndOk(s) && Lost(s, t) && Next(s, WorkerStep(choice), s')
    ensures Lost(s', t)
  {
    if WakeReaderStep(s, s') || SendStep(s, choice, s') {
      PassKeepsLost(s, choice, s', t);
    }
  }

  lemma NextKeepsLost(s: State, a: Action, s': State, t: Token)
    requires EndOk(s) && Lost(s, t) && Next(s, a, s')
    ensures Lost(s', t)
  {
    match a
    case AppStep => AppKeepsLost(s, s', t);
    case WorkerStep(choice) => WorkerKeepsLost(s, choice, s', t);
    case _ =>
  }

  lemma RunKeepsLost(states: seq<State>, actions: seq<Action>, i: nat, j: nat, t: Token)
    requires BridgeRun(states, actions) && i <= j < |states| && Lost(states[i], t)
    ensures Lost(states[j], t)
  {
    RunKeepsInv(states, actions, i);
    RunKeepsEnd(states, actions, i);
    forall s, a, s' | SoundAnd(s, Lost(s, t)) && Next(s, a, s')
      ensures SoundAnd(s', Lost(s', t))
    {
      SoundNext(s, a, s');
      NextKeepsLost(s, a, s', t);
    }
    RunKeeps(Next, s => SoundAnd(s, Lost(s, t)), states, actions, i, j);
  }

  /** The run goes on until `t` has been woken. */
  ghost predicate Wakes(states: seq<State>, states': seq<State>, actions': seq<Action>, t: Token) {
    BridgeRun(states', actions') && states <= states' && t in states'[|states'| - 1].wakers.woken
  }

  /**
   * Once the end of the stream is recorded, a parked reader can still be woken if
   * and only if it has been or the wake is due now. Otherwise it never is, in any
   * continuation.
   */
  lemma EndOfStreamDecidesReaders(states: seq<State>, actions: seq<Action>, t: Token)
    requires BridgeRun(states, actions) && states[|states| - 1].flags.readClosed
    requires states[|states| - 1].app.reader.Some? && states[|states| - 1].app.reader.value.token == t
    ensures (exists states', actions' :: Wakes(states, states', actions', t)) <==>
      t in states[|states| - 1].wakers.woken || ReaderWakeDue(states[|states| - 1])
  {
    var s := states[|states| - 1];
    RunIsSound(states, actions);
    if t in s.wakers.woken {
      assert Wakes(states, states, actions, t);
    } else if ReaderWakeDue(s) {
      WakeNow(states, actions, s, t);
    } else {
      assert Lost(s, t);
      forall states', actions' | BridgeRun(states', actions') && states <= states'
        ensures !Wakes(states, states', actions', t)
      {
        assert states'[|states| - 1] == s;
        RunKeepsLost(states', actions', |states| - 1, |states'| - 1, t);
      }
    }
  }

  lemma WakeNow(states: seq<State>, actions: seq<Action>, s: State, t: Token)
    requires BridgeRun(states, actions) && s == states[|states| - 1]
    requires s.worker.pc.WakeReader? && s.worker.wakeReader && s.wakers.recv == Some(t)
    ensures exists states', actions' :: Wakes(states, states', actions', t)
  {
    var w := s.worker;
    var s' := s.(wakers := s.wakers.(recv := None, woken := s.wakers.woken + {t}),
                 worker := w.(pc := SendCheck, wakeReader := false, eofWoken := w.eofWoken || s.flags.readClosed));
    assert WakeReaderStep(s, s');
    ExtendBridgeRun(states, actions, WorkerStep(0), s');
    assert Wakes(states, states + [s'], actions + [WorkerStep(0)], t);
  }

  // --- Between the check and the registration ---

  lemma Advance(states: seq<State>, actions: seq<Action>, a: Action, s': State)
      returns (states': seq<State>, actions': seq<Action>)
    requires BridgeRun(states, actions) && Next(states[|states| - 1], a, s')
    ensures BridgeRun(states', actions') && states <= states' && states'[|states'| - 1] == s'
    ensures actions' == actions + [a]
  {
    ExtendBridgeRun(states, actions, a, s');
    return states + [s'], actions + [a];
  }

  /**
   * From any reachable state in which a reader has found the ring empty and the
   * stream open, and the end-of-stream wake has been spent before it registers, its
   * next two steps park it, and from then on nothing ever wakes it.
   */
  lemma LateRegistrationIsLost(states: seq<State>, actions: seq<Action>, s: State)
      returns (states': seq<State>, actions': seq<Action>)
    requires BridgeRun(states, actions) && s == states[|states| - 1]
    requires s.app.pc.ReadRegister? && s.worker.eofWoken && |s.pipes.recvRing| == 0
    ensures BridgeRun(states', actions') && states <= states' && actions' == actions + [AppStep, AppStep]
    ensures var last := states'[|states'| - 1];
            && last.worker == s.worker && last.flags == s.flags && last.flags.readClosed
            && last.app.reader == Some(ReadWait(s.app.pc.token, true)) && Lost(last, s.app.pc.token)
  {
    RunIsSound(states, actions);
    var t, room := s.app.pc.token, s.app.pc.room;
    var registered := Goto(s, ReadRecheck(t, room, true)).(wakers := s.wakers.(recv := Some(t)));
    assert ReadEnterStep(s, registered);
    states', actions' := Advance(states, actions, AppStep, registered);
    var parked := registered.(app := registered.app.(pc := Idle, reader := Some(ReadWait(t, true))));
    assert ReadFinishStep(registered, parked);
    states', actions' := Advance(states', actions', AppStep, parked);
    assert actions + [AppStep] + [AppStep] == actions + [AppStep, AppStep];
  }

  /** Half a pass over a socket with nothing to receive and nobody registered. */
  lemma QuietHalfPass(states: seq<State>, actions: seq<Action>, s: State)
      returns (states': seq<State>, actions': seq<Action>, s': State)
    requires BridgeRun(states, actions) && s == states[|states| - 1]
    requires s.worker.pc.CheckDropped? && !s.flags.dropped && !CanRecv(s) && s.wakers.recv.None?
    ensures BridgeRun(states', actions') && states <= states' && s' == states'[|states'| - 1]
    ensures var ended := !s.flags.open && !s.flags.readClosed;
            s' == s.(flags := s.flags.(readClosed := s.flags.readClosed || ended),
                     worker := Worker(SendCheck, s.worker.progress, false, false, s.worker.eofWoken || ended))
  {
    s' := s.(worker := s.worker.(pc := Recv, wakeReader := false, wakeSender := false));
    assert PassStep(s, 0, s');
    states', actions' := Advance(states, actions, WorkerStep(0), s');
    var before := s';
    s' := s'.(worker := s'.worker.(pc := CheckOpen));
    assert WorkerPush(s.pipes, 0) == s.pipes;
    assert RecvStep(before, 0, s');
    states', actions' := Advance(states', actions', WorkerStep(0), s');
    states', actions', s' := QuietEndCheck(states', actions', s');
  }

  lemma QuietEndCheck(states: seq<State>, actions: seq<Action>, s: State)
      returns (states': seq<State>, actions': seq<Action>, s': State)
    requires BridgeRun(states, actions) && s == states[|states| - 1]
    requires s.worker.pc.CheckOpen? && !s.worker.wakeReader && s.wakers.recv.None?
    ensures BridgeRun(states', actions') && states <= states' && s' == states'[|states'| - 1]
    ensures var ended := !s.flags.open && !s.flags.readClosed;
            s' == s.(flags := s.flags.(readClosed := s.flags.readClosed || ended),
                     worker := s.worker.(pc := SendCheck, eofWoken := s.worker.eofWoken || ended))
  {
    var ended := !s.flags.open && !s.flags.readClosed;
    s' := s.(flags := s.flags.(readClosed := s.flags.readClosed || ended),
             worker := s.worker.(pc := WakeReader, wakeReader := ended));
    assert WakeReaderStep(s, s');
    states', actions' := Advance(states, actions, WorkerStep(0), s');
    var before := s';
    s' := s'.(worker := s.worker.(pc := SendCheck, eofWoken := s.worker.eofWoken || ended));
    assert WakeReaderStep(before, s');
    states', actions' := Advance(states', actions', WorkerStep(0), s');
  }

  /** The other half, for a connected socket with nothing to send. */
  lemma QuietEnd(states: seq<State>, actions: seq<Action>, s: State)
      returns (states': seq<State>, actions': seq<Action>, s': State)
    requires BridgeRun(states, actions) && s == states[|states| - 1]
    requires s.worker.pc.SendCheck? && !s.worker.wakeSender && |s.pipes.sendRing| == 0
    requires !s.flags.dropped && !s.flags.writeClosed && s.flags.active
    ensures BridgeRun(states', actions') && states <= states' && s' == states'[|states'| - 1]
    ensures s' == WorkerGoto(s, SecondPoll)
  {
    s' := WorkerGoto(s, WakeSender);
    assert SendStep(s, 0, s');
    states', actions' := Advance(states, actions, WorkerStep(0), s');
    var before := s';
    s' := WorkerGoto(s, PruneDropped);
    assert SendStep(before, 0, s');
    states', actions' := Advance(states', actions', WorkerStep(0), s');
    states', actions', s' := QuietPrune(states', actions', s');
  }

  lemma QuietPrune(states: seq<State>, actions: seq<Action>, s: State)
      returns (states': seq<State>, actions': seq<Action>, s': State)
    requires BridgeRun(states, actions) && s == states[|states| - 1]
    requires s.worker.pc.PruneDropped? && !s.flags.dropped && !s.flags.writeClosed && s.flags.active
    ensures BridgeRun(states', actions') && states <= states' && s' == states'[|states'| - 1]
    ensures s' == WorkerGoto(s, SecondPoll)
  {
    s' := WorkerGoto(s, PruneClosed);
    assert PruneCheckStep(s, s');
    states', actions' := Advance(states, actions, WorkerStep(0), s');
    var before := s';
    s' := WorkerGoto(s, PruneActive);
    assert PruneCheckStep(before, s');
    states', actions' := Advance(states', actions', WorkerStep(0), s');
    before := s';
    s' := WorkerGoto(s, SecondPoll);
    assert PruneFinishStep(before, 0, s');
    states', actions' := Advance(states', actions', WorkerStep(0), s');
  }

  /** A connected socket, and a reader that has found its ring empty and its stream open. */
  lemma ReaderAboutToRegister() returns (states: seq<State>, actions: seq<Action>, s: State)
    ensures BridgeRun(states, actions) && s == states[|states| - 1]
    ensures s.app == App(ReadRegister(0, 1), None, None, 1) && s.worker == Worker(SecondPoll, true, false, false, false)
    ensures s.flags == Flags(true, true, true, true, true, false, false, false, false)
    ensures s.wakers == Wakers(None, None, false, {}) && s.pipes == EmptyPipes(1, 1, 1)
  {
    s := Init(1, 1, 1);
    states, actions := [s], [];
    assert BridgeRun(states, actions);
    s := WorkerGoto(s, FirstPoll);
    states, actions := Advance(states, actions, WorkerStep(0), s);
    assert Exchange(s.pipes, [], 0) == s.pipes;
    var connected := Change([], 0, true, true, true, true);
    s := s.(flags := s.flags.(mayRecv := true, maySend := true, active := true, connected := true),
            worker := s.worker.(pc := CheckDropped, progress := true));
    states, actions := Advance(states, actions, InterfacePoll(Some(connected)), s);
    states, actions, s := QuietHalfPass(states, actions, s);
    states, actions, s := QuietEnd(states, actions, s);
    s := s.(app := App(ReadCheckEmpty(0, 1), None, None, 1));
    states, actions := Advance(states, actions, BeginRead(1), s);
    s := Goto(s, ReadCheckClosed(0, 1));
    states, actions := Advance(states, actions, AppStep, s);
    s := Goto(s, ReadRegister(0, 1));
    states, actions := Advance(states, actions, AppStep, s);
  }

  /**
   * The end-of-stream wake can be lost: the flag is read before the waker is
   * registered and not again afterwards. Here a connected socket dies, and the
   * worker stores the flag and wakes nobody, in between.
   */
  lemma EndOfStreamWakeCanBeLost() returns (states: seq<State>, actions: seq<Action>)
    ensures BridgeRun(states, actions)
    ensures var last := states[|states| - 1];
            && last.app.reader == Some(ReadWait(0, true)) && last.flags.readClosed
            && last.worker.pc.Gone? && 0 !in last.wakers.woken
  {
    var s: State;
    states, actions, s := ReaderAboutToRegister();
    assert Exchange(s.pipes, [], 0) == s.pipes;
    var death := Change([], 0, false, false, false, false);
    s := s.(flags := s.flags.(mayRecv := false, maySend := false, open := false, active := false),
            worker := s.worker.(pc := Decide));
    states, actions := Advance(states, actions, InterfacePoll(Some(death)), s);
    s := WorkerGoto(s, Drain);
    states, actions := Advance(states, actions, WorkerStep(0), s);
    s := s.(worker := s.worker.(pc := FirstPoll, progress := false));
    states, actions := Advance(states, actions, WorkerStep(0), s);
    s := WorkerGoto(s, CheckDropped);
    states, actions := Advance(states, actions, InterfacePoll(None), s);
    states, actions, s := QuietHalfPass(states, actions, s);
    states, actions := LateRegistrationIsLost(states, actions, s);
    s := states[|states| - 1];
    RunIsSound(states, actions);
    states, actions := ReaderToGone(states, actions, s, 0);
  }
}
