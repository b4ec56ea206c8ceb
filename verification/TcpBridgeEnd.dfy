/**
 * How a connection ends: a socket that has closed is seen closed once, in the
 * pass under way or the next one, and is let go of at the end of that pass.
 */
module TcpBridgeEnd {
  import opened Base
  import opened Runs
  import opened TcpBridge
  import opened TcpBridgeResults

  /** What the socket's contract means for its flags at any time. */
  predicate SocketOk(s: State) {
    && (s.flags.active ==> s.flags.open && s.flags.connected)
    && (s.flags.connected && s.flags.open ==> s.flags.active)
    && (s.flags.maySend ==> s.flags.active)
    && (|s.pipes.rx| > 0 ==> s.flags.mayRecv)
  }

  /** The worker will look at the socket before it can let go of the connection. */
  predicate LooksAhead(s: State) {
    s.worker.pc.Recv? || (s.worker.pc.CheckDropped? && !s.flags.dropped)
  }

  /** The socket has closed and the reader's side has not been told. */
  predicate EndUnseen(s: State) {
    !s.flags.open && !s.flags.readClosed
  }

  /** The worker will look whether the socket is open before it can let go of the connection. */
  predicate SeesEnd(s: State) {
    LooksAhead(s) || s.worker.pc.CheckOpen? || s.worker.pc.Decide? || s.worker.pc.Drain? || s.worker.pc.FirstPoll?
  }

  /** The worker is in the part of a pass that follows the look at the open flag. */
  predicate PastEndCheck(pc: WorkerPc) {
    || pc.WakeReader? || pc.SendCheck? || pc.SendPop? || pc.WakeSender?
    || pc.PruneDropped? || pc.PruneClosed? || pc.PruneEmpty? || pc.PruneActive?
  }

  /** A dropped stream has nobody parked, and an unseen end is about to be seen or no longer matters. */
  predicate EndOk(s: State) {
    && (s.flags.dropped ==> s.app.reader.None? && s.app.sender.None?)
    && (s.app.pc.Ended? || (s.app.pc.Notify? && s.app.pc.final) <==> s.flags.dropped)
    && (EndUnseen(s) ==>
          || SeesEnd(s) || s.worker.pc.Gone? || s.flags.dropped
          || (s.worker.pc.PruneActive? && !s.flags.active))
    && (EndUnseen(s) && s.worker.pc.Decide? ==> s.worker.progress || s.flags.dropped)
    && (s.flags.readClosed ==> !s.flags.open && (PastEndCheck(s.worker.pc) || s.worker.pc.Gone?))
    && (s.worker.eofWoken ==> s.flags.readClosed && !s.worker.pc.WakeReader?)
    && (s.worker.pc.SecondPoll? || s.worker.pc.Decide? || s.worker.pc.Waiting? ==> s.flags.active || EndUnseen(s))
  }

  lemma ReadKeepsEnd(s: State, s': State)
    requires SocketOk(s) && EndOk(s) && (ReadEnterStep(s, s') || ReadFinishStep(s, s'))
    ensures SocketOk(s') && EndOk(s')
  {
  }

  lemma WriteKeepsEnd(s: State, s': State)
    requires SocketOk(s) && EndOk(s) && (WriteEnterStep(s, s') || WriteFinishStep(s, s'))
    ensures SocketOk(s') && EndOk(s')
  {
  }

  lemma FlushKeepsEnd(s: State, s': State)
    requires SocketOk(s) && EndOk(s) && (FlushStep(s, s') || SignalStep(s, s'))
    ensures SocketOk(s') && EndOk(s')
  {
  }

  lemma AppKeepsEnd(s: State, s': State)
    requires SocketOk(s) && EndOk(s) && Next(s, AppStep, s')
    ensures SocketOk(s') && EndOk(s')
  {
    if ReadEnterStep(s, s') || ReadFinishStep(s, s') {
      ReadKeepsEnd(s, s');
    } else if WriteEnterStep(s, s') || WriteFinishStep(s, s') {
      WriteKeepsEnd(s, s');
    } else {
      FlushKeepsEnd(s, s');
    }
  }

  lemma PassKeepsEnd(s: State, choice: nat, s': State)
    requires SocketOk(s) && EndOk(s) && (PassStep(s, choice, s') || IdleStep(s, choice, s'))
    ensures SocketOk(s') && EndOk(s')
  {
  }

  lemma RecvKeepsEnd(s: State, choice: nat, s': State)
    requires SocketOk(s) && EndOk(s) && RecvStep(s, choice, s')
    ensures SocketOk(s') && EndOk(s')
  {
  }

  lemma SendKeepsEnd(s: State, choice: nat, s': State)
    requires SocketOk(s) && EndOk(s) && (WakeReaderStep(s, s') || SendStep(s, choice, s'))
    ensures SocketOk(s') && EndOk(s')
  {
  }

  lemma PruneKeepsEnd(s: State, choice: nat, s': State)
    requires SocketOk(s) && EndOk(s) && (PruneCheckStep(s, s') || PruneFinishStep(s, choice, s'))
    ensures SocketOk(s') && EndOk(s')
  {
  }

  lemma PollKeepsEnd(s: State, change: Option<Change>, s': State)
    requires SocketOk(s) && EndOk(s) && PollStep(s, change, s')
    ensures SocketOk(s') && EndOk(s')
  {
  }

  lemma NextKeepsEnd(s: State, a: Action, s': State)
    requires SocketOk(s) && EndOk(s) && Next(s, a, s')
    ensures SocketOk(s') && EndOk(s')
  {
    match a
    case AppStep => AppKeepsEnd(s, s');
    case WorkerStep(choice) =>
      if PassStep(s, choice, s') || IdleStep(s, choice, s') {
        PassKeepsEnd(s, choice, s');
      } else if RecvStep(s, choice, s') {
        RecvKeepsEnd(s, choice, s');
      } else if WakeReaderStep(s, s') || SendStep(s, choice, s') {
        SendKeepsEnd(s, choice, s');
      } else {
        PruneKeepsEnd(s, choice, s');
      }
    case InterfacePoll(change) => PollKeepsEnd(s, change, s');
    case _ =>
  }

  predicate EndsWell(s: State) {
    SocketOk(s) && EndOk(s)
  }

  lemma RunKeepsEnd(states: seq<State>, actions: seq<Action>, i: nat)
    requires BridgeRun(states, actions) && i < |states|
    ensures SocketOk(states[i]) && EndOk(states[i])
  {
    var r, c, t :| states[0] == Init(r, c, t);
    forall s, a, s' | EndsWell(s) && Next(s, a, s')
      ensures EndsWell(s')
    {
      NextKeepsEnd(s, a, s');
    }
    RunKeeps(Next, EndsWell, states, actions, 0, i);
  }
}
