/**
 * Which wakes are certain: from the states named here the worker cannot let go of
 * the connection without waking the parked reader, or the parked writer or flusher.
 */
module TcpBridgeServed {
  import opened Base
  import opened Runs
  import opened TcpBridge
  import opened TcpBridgeInvariant
  import opened TcpBridgeResults
  import opened TcpBridgeTokens
  import opened TcpBridgeEnd

  predicate ReaderParked(s: State, t: Token) {
    s.app.reader.Some? && s.app.reader.value.token == t && t !in s.wakers.woken
  }

  /** A writer or a flusher. */
  predicate SenderParked(s: State, t: Token) {
    s.app.sender.Some? && s.app.sender.value.token == t && t !in s.wakers.woken
  }

  /** Later in this pass the worker moves bytes from the send ring. */
  predicate SendAhead(s: State) {
    || s.worker.pc.SendPop?
    || (CanSend(s) && |s.pipes.sendRing| > 0
        && (s.worker.pc.CheckOpen? || s.worker.pc.WakeReader? || s.worker.pc.SendCheck?))
  }

  /** The worker will look for received bytes, in this pass or in another that is certain, before it lets go. */
  predicate PassAhead(s: State) {
    || LooksAhead(s) || s.worker.pc.Drain? || s.worker.pc.FirstPoll?
    || ((s.worker.pc.SecondPoll? || s.worker.pc.Decide?) && s.worker.progress)
    || ((s.worker.pc.CheckOpen? || PastEndCheck(s.worker.pc)) && s.flags.active && (s.worker.progress || SendAhead(s)))
  }

  /** The reader's wake is certain: it is due, or received bytes or the end of the stream will be seen. */
  predicate ReadWakeComing(s: State) {
    ReaderWakeDue(s) || (PassAhead(s) && CanRecv(s)) || (SeesEnd(s) && EndUnseen(s))
  }

  /** The sender's wake is certain: it is due, or the send ring is about to be drained. */
  predicate SendWakeComing(s: State) {
    SenderWakeDue(s) || SendAhead(s) || (LooksAhead(s) && CanSend(s) && |s.pipes.sendRing| > 0)
  }

  predicate PollOf(s: State, t: Token) {
    (Unregistered(s.app.pc) || Registered(s.app.pc)) && s.app.pc.token == t
  }

  /** `t` has been handed out and is not the waker of a poll under way. */
  predicate Settled(s: State, t: Token) {
    t < s.app.nextToken && !PollOf(s, t)
  }

  /** While the reader stays parked, its wake has come or is certain. */
  predicate ReaderServed(s: State, t: Token) {
    Settled(s, t) && (ReaderParked(s, t) ==> ReadWakeComing(s))
  }

  predicate SenderServed(s: State, t: Token) {
    Settled(s, t) && (SenderParked(s, t) ==> SendWakeComing(s))
  }

  /** While the reader stays parked, its wake is certain or pruning keeps the connection. */
  predicate ReaderKept(s: State, t: Token) {
    Settled(s, t) && (ReaderParked(s, t) ==> ReadWakeComing(s) || (s.flags.active && !s.worker.pc.Gone?))
  }

  predicate Sound(s: State) {
    Inv(s) && SocketOk(s) && EndOk(s)
  }

  predicate StaysServed(s: State, s': State, t: Token) {
    && (ReaderServed(s, t) ==> ReaderServed(s', t))
    && (ReaderKept(s, t) ==> ReaderKept(s', t))
    && (SenderServed(s, t) ==> SenderServed(s', t))
  }

  /** Nothing changes that the certain wakes depend on. */
  predicate SameOutlook(s: State, s': State) {
    && s'.worker == s.worker
    && s'.flags.mayRecv == s.flags.mayRecv && s'.flags.maySend == s.flags.maySend
    && s'.flags.open == s.flags.open && s'.flags.active == s.flags.active && s'.flags.closing == s.flags.closing
    && s'.flags.readClosed == s.flags.readClosed && s'.flags.dropped == s.flags.dropped
    && s'.pipes.rx == s.pipes.rx && s'.pipes.tx == s.pipes.tx && s'.pipes.txCapacity == s.pipes.txCapacity
    && |s.pipes.sendRing| <= |s'.pipes.sendRing|
  }

  predicate Polling(pc: AppPc) {
    Unregistered(pc) || Registered(pc)
  }

  /** A poll goes on with its token or ends, and only that token can become parked. */
  predicate PollMoves(s: State, s': State) {
    && s'.app.nextToken == s.app.nextToken && s'.wakers.woken == s.wakers.woken
    && (Polling(s'.app.pc) ==> Polling(s.app.pc) && s'.app.pc.token == s.app.pc.token)
    && (s'.app.reader == s.app.reader
        || (Polling(s.app.pc) && s'.app.reader.Some? && s'.app.reader.value.token == s.app.pc.token))
    && (s'.app.sender == s.app.sender
        || (Polling(s.app.pc) && s'.app.sender.Some? && s'.app.sender.value.token == s.app.pc.token))
  }

  lemma OutlookKeepsComing(s: State, s': State)
    requires SameOutlook(s, s')
    ensures ReadWakeComing(s) ==> ReadWakeComing(s')
    ensures SendWakeComing(s) ==> SendWakeComing(s')
  {
  }

  lemma MovesServe(s: State, s': State, t: Token)
    requires SameOutlook(s, s') && PollMoves(s, s')
    ensures StaysServed(s, s', t)
  {
    OutlookKeepsComing(s, s');
  }

  lemma ReadMoves(s: State, s': State)
    requires ReadEnterStep(s, s') || ReadFinishStep(s, s')
    ensures SameOutlook(s, s') && PollMoves(s, s')
  {
  }

  lemma WriteMoves(s: State, s': State)
    requires WriteEnterStep(s, s') || WriteFinishStep(s, s')
    ensures SameOutlook(s, s') && PollMoves(s, s')
  {
  }

  lemma FlushMoves(s: State, s': State)
    requires FlushStep(s, s') || SignalStep(s, s')
    ensures SameOutlook(s, s') && PollMoves(s, s')
  {
  }

  lemma AppServes(s: State, s': State, t: Token)
    requires Next(s, AppStep, s')
    ensures StaysServed(s, s', t)
  {
    if ReadEnterStep(s, s') || ReadFinishStep(s, s') {
      ReadMoves(s, s');
    } else if WriteEnterStep(s, s') || WriteFinishStep(s, s') {
      WriteMoves(s, s');
    } else {
      FlushMoves(s, s');
    }
    MovesServe(s, s', t);
  }

  lemma BeginServes(s: State, a: Action, s': State, t: Token)
    requires Sound(s) && BeginStep(s, a, s')
    ensures StaysServed(s, s', t)
  {
  }

  lemma PassServes(s: State, choice: nat, s': State, t: Token)
    requires Sound(s) && (PassStep(s, choice, s') || IdleStep(s, choice, s'))
    ensures StaysServed(s, s', t)
  {
  }

  /** What receiving leaves as it was, and what it decides. */
  predicate Received(s: State, s': State) {
    && s.worker.pc.Recv? && s'.worker.pc.CheckOpen?
    && s'.worker.wakeReader == CanRecv(s) && s'.worker.wakeSender == s.worker.wakeSender
    && s'.app == s.app && s'.flags == s.flags && s'.wakers == s.wakers
    && s'.pipes.sendRing == s.pipes.sendRing
    && s'.pipes.tx == s.pipes.tx && s'.pipes.txCapacity == s.pipes.txCapacity
  }

  lemma RecvReceives(s: State, choice: nat, s': State)
    requires RecvStep(s, choice, s')
    ensures Received(s, s')
  {
  }

  lemma ReceivedServes(s: State, s': State, t: Token)
    requires Received(s, s')
    ensures StaysServed(s, s', t)
  {
  }

  lemma RecvServes(s: State, choice: nat, s': State, t: Token)
    requires RecvStep(s, choice, s')
    ensures StaysServed(s, s', t)
  {
    RecvReceives(s, choice, s');
    ReceivedServes(s, s', t);
  }

  lemma WakeServes(s: State, s': State, t: Token)
    requires Sound(s) && WakeReaderStep(s, s')
    ensures StaysServed(s, s', t)
  {
  }

  lemma SendServes(s: State, choice: nat, s': State, t: Token)
    requires Sound(s) && SendStep(s, choice, s')
    ensures StaysServed(s, s', t)
  {
  }

  lemma PruneServes(s: State, choice: nat, s': State, t: Token)
    requires Sound(s) && (PruneCheckStep(s, s') || PruneFinishStep(s, choice, s'))
    ensures StaysServed(s, s', t)
  {
  }

  lemma PollServes(s: State, change: Option<Change>, s': State, t: Token)
    requires Sound(s) && PollStep(s, change, s')
    ensures StaysServed(s, s', t)
  {
  }

  lemma WorkerServes(s: State, choice: nat, s': State, t: Token)
    requires Sound(s) && Next(s, WorkerStep(choice), s')
    ensures StaysServed(s, s', t)
  {
    if PassStep(s, choice, s') || IdleStep(s, choice, s') {
      PassServes(s, choice, s', t);
    } else if RecvStep(s, choice, s') {
      RecvServes(s, choice, s', t);
    } else if WakeReaderStep(s, s') {
      WakeServes(s, s', t);
    } else if SendStep(s, choice, s') {
      SendServes(s, choice, s', t);
    } else {
      PruneServes(s, choice, s', t);
    }
  }

  /** What the worker's exit may do: nobody's certain wake is lost by it. */
  lemma ExitServes(s: State, s': State, t: Token)
    requires Sound(s) && Next(s, WorkerExits, s')
    ensures ReaderServed(s, t) ==> ReaderServed(s', t)
    ensures SenderServed(s, t) ==> SenderServed(s', t)
  {
  }

  lemma NextServes(s: State, a: Action, s': State, t: Token)
    requires Sound(s) && Next(s, a, s')
    ensures ReaderServed(s, t) ==> ReaderServed(s', t)
    ensures SenderServed(s, t) ==> SenderServed(s', t)
    ensures ReaderKept(s, t) && !a.WorkerExits? ==> ReaderKept(s', t)
  {
    match a
    case AppStep => AppServes(s, s', t);
    case WorkerStep(choice) => WorkerServes(s, choice, s', t);
    case InterfacePoll(change) => PollServes(s, change, s', t);
    case OtherStreamNotifies =>
    case WorkerExits => ExitServes(s, s', t);
    case _ => BeginServes(s, a, s', t);
  }

  predicate SoundAnd(s: State, served: bool) {
    Sound(s) && served
  }

  lemma SoundNext(s: State, a: Action, s': State)
    requires Sound(s) && Next(s, a, s')
    ensures Sound(s')
  {
    NextKeeps(s, a, s');
    NextKeepsEnd(s, a, s');
  }

  lemma RunServesReader(states: seq<State>, actions: seq<Action>, i: nat, j: nat, t: Token)
    requires BridgeRun(states, actions) && i <= j < |states| && ReaderServed(states[i], t)
    ensures ReaderServed(states[j], t)
  {
    RunKeepsInv(states, actions, i);
    RunKeepsEnd(states, actions, i);
    forall s, a, s' | SoundAnd(s, ReaderServed(s, t)) && Next(s, a, s')
      ensures SoundAnd(s', ReaderServed(s', t))
    {
      SoundNext(s, a, s');
      NextServes(s, a, s', t);
    }
    RunKeeps(Next, s => SoundAnd(s, ReaderServed(s, t)), states, actions, i, j);
  }

  lemma RunServesSender(states: seq<State>, actions: seq<Action>, i: nat, j: nat, t: Token)
    requires BridgeRun(states, actions) && i <= j < |states| && SenderServed(states[i], t)
    ensures SenderServed(states[j], t)
  {
    RunKeepsInv(states, actions, i);
    RunKeepsEnd(states, actions, i);
    forall s, a, s' | SoundAnd(s, SenderServed(s, t)) && Next(s, a, s')
      ensures SoundAnd(s', SenderServed(s', t))
    {
      SoundNext(s, a, s');
      NextServes(s, a, s', t);
    }
    RunKeeps(Next, s => SoundAnd(s, SenderServed(s, t)), states, actions, i, j);
  }

  /** A step other than the worker's exit. */
  predicate Stays(s: State, a: Action, s': State) {
    Next(s, a, s') && !a.WorkerExits?
  }

  lemma RunKeepsReader(states: seq<State>, actions: seq<Action>, i: nat, j: nat, t: Token)
    requires BridgeRun(states, actions) && i <= j < |states| && WorkerExits !in actions[i..j]
    requires ReaderKept(states[i], t)
    ensures ReaderKept(states[j], t)
  {
    RunKeepsInv(states, actions, i);
    RunKeepsEnd(states, actions, i);
    var part, steps := states[i..j + 1], actions[i..j];
    forall k | 0 <= k < |steps|
      ensures Stays(part[k], steps[k], part[k + 1])
    {
      assert steps[k] in steps && Next(states[i + k], actions[i + k], states[i + k + 1]);
    }
    forall s, a, s' | SoundAnd(s, ReaderKept(s, t)) && Stays(s, a, s')
      ensures SoundAnd(s', ReaderKept(s', t))
    {
      SoundNext(s, a, s');
      NextServes(s, a, s', t);
    }
    RunKeeps(Stays, s => SoundAnd(s, ReaderKept(s, t)), part, steps, 0, j - i);
  }
}
