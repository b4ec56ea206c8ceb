/**
 * One connection of the userspace TCP bridge (crates/ombrac-netstack/src/tcp.rs)
 * as an interleaving of the application's polls and the worker's loop. Every
 * access to a ring, a flag, a waker or the notifier is one step.
 */
module TcpBridge {
  import opened Base
  import opened Runs

  // --- Bytes ---

  /**
   * The two rings, the socket's two queues, and the bytes that have passed each
   * point so far: peer, socket receive queue, receive ring, application, and back.
   */
  datatype Pipes = Pipes(
    recvRing: Bytes, recvCapacity: nat, sendRing: Bytes, sendCapacity: nat,
    rx: Bytes, tx: Bytes, txCapacity: nat,
    arrived: Bytes, dequeued: Bytes, readOut: Bytes,
    accepted: Bytes, enqueued: Bytes, transmitted: Bytes)

  /** No byte is lost, repeated or reordered, and no queue exceeds its bound. */
  predicate Conserved(p: Pipes) {
    && p.readOut + p.recvRing == p.dequeued && p.dequeued + p.rx == p.arrived
    && p.enqueued + p.sendRing == p.accepted && p.transmitted + p.tx == p.enqueued
    && |p.recvRing| <= p.recvCapacity && |p.sendRing| <= p.sendCapacity && |p.tx| <= p.txCapacity
  }

  function EmptyPipes(recvCapacity: nat, sendCapacity: nat, txCapacity: nat): (p: Pipes)
    ensures Conserved(p)
  {
    Pipes([], recvCapacity, [], sendCapacity, [], [], txCapacity, [], [], [], [], [], [])
  }

  /** How much more a queue of `used` out of `capacity` bytes takes. */
  function Vacant(capacity: nat, used: nat): nat {
    if used <= capacity then capacity - used else 0
  }

  /** The application pops into a buffer of `room` bytes. */
  function AppPop(p: Pipes, room: nat): (q: Pipes)
    ensures Conserved(p) ==> Conserved(q)
  {
    var n := Min(room, |p.recvRing|);
    assert p.recvRing == p.recvRing[..n] + p.recvRing[n..];
    p.(recvRing := p.recvRing[n..], readOut := p.readOut + p.recvRing[..n])
  }

  /** The application pushes what fits of `data`. */
  function AppPush(p: Pipes, data: Bytes): (q: Pipes)
    ensures Conserved(p) ==> Conserved(q)
  {
    var n := Min(|data|, Vacant(p.sendCapacity, |p.sendRing|));
    assert p.enqueued + (p.sendRing + data[..n]) == (p.enqueued + p.sendRing) + data[..n];
    p.(sendRing := p.sendRing + data[..n], accepted := p.accepted + data[..n])
  }

  /** The worker moves what fits of the first `chunk` received bytes into the receive ring. */
  function WorkerPush(p: Pipes, chunk: nat): (q: Pipes)
    requires chunk <= |p.rx|
    ensures Conserved(p) ==> Conserved(q)
  {
    var n := Min(chunk, Vacant(p.recvCapacity, |p.recvRing|));
    assert p.readOut + (p.recvRing + p.rx[..n]) == (p.readOut + p.recvRing) + p.rx[..n];
    assert p.rx == p.rx[..n] + p.rx[n..];
    p.(recvRing := p.recvRing + p.rx[..n], rx := p.rx[n..], dequeued := p.dequeued + p.rx[..n])
  }

  /** The worker moves up to `room` bytes of the send ring into the socket. */
  function WorkerPop(p: Pipes, room: nat): (q: Pipes)
    requires |p.tx| + room <= p.txCapacity
    ensures Conserved(p) ==> Conserved(q)
  {
    var n := Min(room, |p.sendRing|);
    assert p.sendRing == p.sendRing[..n] + p.sendRing[n..];
    assert p.transmitted + (p.tx + p.sendRing[..n]) == (p.transmitted + p.tx) + p.sendRing[..n];
    p.(sendRing := p.sendRing[n..], tx := p.tx + p.sendRing[..n], enqueued := p.enqueued + p.sendRing[..n])
  }

  /** The network delivers bytes and acknowledges some of the transmitted ones. */
  function Exchange(p: Pipes, arriving: Bytes, acknowledged: nat): (q: Pipes)
    ensures Conserved(p) ==> Conserved(q)
  {
    var n := Min(acknowledged, |p.tx|);
    assert p.tx == p.tx[..n] + p.tx[n..];
    assert p.dequeued + (p.rx + arriving) == (p.dequeued + p.rx) + arriving;
    p.(rx := p.rx + arriving, arrived := p.arrived + arriving,
       tx := p.tx[n..], transmitted := p.transmitted + p.tx[..n])
  }

  // --- Control ---

  /** The waker of one poll call; fresh for every call. */
  type Token = nat

  /**
   * What the socket's state allows, whether it has ever left the listening state,
   * and the three shared flags.
   */
  datatype Flags = Flags(mayRecv: bool, maySend: bool, open: bool, active: bool, connected: bool, closing: bool,
                         readClosed: bool, writeClosed: bool, dropped: bool)

  /** Where the application is inside a poll. At most one poll runs at a time. */
  datatype AppPc =
    | Idle
    | ReadCheckEmpty(token: Token, room: nat)
    | ReadCheckClosed(token: Token, room: nat)
    | ReadRegister(token: Token, room: nat)
    | ReadRecheck(token: Token, room: nat, late: bool)
    | ReadPop(room: nat)
    | WriteCheckDropped(token: Token, data: Bytes)
    | WriteCheckClosed(token: Token, data: Bytes)
    | WriteCheckFull(token: Token, data: Bytes)
    | WriteRegister(token: Token, data: Bytes)
    | WriteRecheck(token: Token, data: Bytes)
    | WritePush(data: Bytes)
    | FlushCheck(token: Token, thenClose: bool)
    | FlushRegister(token: Token, thenClose: bool)
    | FlushRecheck(token: Token, thenClose: bool)
    | CloseWrites
    | Notify(final: bool)
    | Ended

  /** Where the worker is in its loop body for this connection. */
  datatype WorkerPc =
    | Drain | FirstPoll | CheckDropped
    | Recv | CheckOpen | WakeReader | SendCheck | SendPop | WakeSender
    | PruneDropped | PruneClosed | PruneEmpty | PruneActive
    | SecondPoll | Decide | Waiting | Gone

  /** A waiting reader, and whether it registered after the end-of-stream wake was spent. */
  datatype ReadWait = ReadWait(token: Token, late: bool)

  /** A parked writer waits for space, a parked flusher for an empty ring. */
  datatype SendWait = SendWait(token: Token, forSpace: bool)

  /** The most recent poll of each half that returned Pending is parked. */
  datatype App = App(pc: AppPc, reader: Option<ReadWait>, sender: Option<SendWait>, nextToken: Token)

  datatype Worker = Worker(pc: WorkerPc, progress: bool, wakeReader: bool, wakeSender: bool, eofWoken: bool)

  datatype Wakers = Wakers(recv: Option<Token>, send: Option<Token>, permit: bool, woken: set<Token>)

  datatype State = State(pipes: Pipes, flags: Flags, wakers: Wakers, app: App, worker: Worker)

  predicate CanRecv(s: State) {
    s.flags.mayRecv && |s.pipes.rx| > 0
  }

  predicate CanSend(s: State) {
    s.flags.maySend && !s.flags.closing && |s.pipes.tx| < s.pipes.txCapacity
  }

  function Init(recvCapacity: nat, sendCapacity: nat, txCapacity: nat): State {
    State(EmptyPipes(recvCapacity, sendCapacity, txCapacity),
          Flags(false, false, true, false, false, false, false, false, false),
          Wakers(None, None, false, {}), App(Idle, None, None, 0), Worker(Drain, false, false, false, false))
  }

  /** What `Interface::poll` may do to the socket when it reports a change. */
  datatype Change = Change(arriving: Bytes, acknowledged: nat,
                           mayRecv: bool, maySend: bool, open: bool, active: bool)

  datatype Action =
    | BeginRead(room: nat)
    | BeginWrite(data: Bytes)
    | BeginFlush
    | BeginShutdown
    | BeginDrop
    | AppStep
    | WorkerStep(choice: nat)
    | InterfacePoll(change: Option<Change>)
    | OtherStreamNotifies
    | WorkerExits

  // --- The application ---

  function Goto(s: State, pc: AppPc): State {
    s.(app := s.app.(pc := pc))
  }

  /** An idle application starts a poll or drops the stream. */
  predicate BeginStep(s: State, a: Action, s': State) {
    var t := s.app.nextToken;
    match a
    case BeginRead(room) => s' == s.(app := App(ReadCheckEmpty(t, room), None, s.app.sender, t + 1))
    case BeginWrite(data) => s' == s.(app := App(WriteCheckDropped(t, data), s.app.reader, None, t + 1))
    case BeginFlush => s' == s.(app := App(FlushCheck(t, false), s.app.reader, None, t + 1))
    case BeginShutdown => s' == s.(app := App(FlushCheck(t, true), s.app.reader, None, t + 1))
    case BeginDrop =>
      s' == s.(app := App(Notify(true), None, None, t), flags := s.flags.(dropped := true))
    case _ => false
  }

  predicate ReadEnterStep(s: State, s': State) {
    match s.app.pc
    case ReadCheckEmpty(t, room) =>
      s' == Goto(s, if |s.pipes.recvRing| == 0 then ReadCheckClosed(t, room) else ReadPop(room))
    case ReadCheckClosed(t, room) => s' == Goto(s, if s.flags.readClosed then Idle else ReadRegister(t, room))
    case ReadRegister(t, room) =>
      s' == Goto(s, ReadRecheck(t, room, s.worker.eofWoken)).(wakers := s.wakers.(recv := Some(t)))
    case _ => false
  }

  predicate ReadFinishStep(s: State, s': State) {
    var empty := |s.pipes.recvRing| == 0;
    match s.app.pc
    case ReadRecheck(t, room, late) =>
      s' == s.(app := s.app.(pc := if empty then Idle else ReadPop(room),
                             reader := if empty then Some(ReadWait(t, late)) else s.app.reader))
    case ReadPop(room) =>
      s' == Goto(s, if empty || room == 0 then Idle else Notify(false)).(pipes := AppPop(s.pipes, room))
    case _ => false
  }

  predicate WriteEnterStep(s: State, s': State) {
    match s.app.pc
    case WriteCheckDropped(t, data) => s' == Goto(s, if s.flags.dropped then Idle else WriteCheckClosed(t, data))
    case WriteCheckClosed(t, data) => s' == Goto(s, if s.flags.writeClosed then Idle else WriteCheckFull(t, data))
    case WriteCheckFull(t, data) =>
      s' == Goto(s, if |s.pipes.sendRing| == s.pipes.sendCapacity then WriteRegister(t, data) else WritePush(data))
    case _ => false
  }

  predicate WriteFinishStep(s: State, s': State) {
    var full := |s.pipes.sendRing| == s.pipes.sendCapacity;
    match s.app.pc
    case WriteRegister(t, data) => s' == Goto(s, WriteRecheck(t, data)).(wakers := s.wakers.(send := Some(t)))
    case WriteRecheck(t, data) =>
      s' == s.(app := s.app.(pc := if full then Idle else WritePush(data),
                             sender := if full then Some(SendWait(t, true)) else s.app.sender))
    case WritePush(data) =>
      s' == Goto(s, if full || |data| == 0 then Idle else Notify(false)).(pipes := AppPush(s.pipes, data))
    case _ => false
  }

  predicate FlushStep(s: State, s': State) {
    var empty := |s.pipes.sendRing| == 0;
    match s.app.pc
    case FlushCheck(t, thenClose) =>
      s' == Goto(s, if !empty then FlushRegister(t, thenClose) else if thenClose then CloseWrites else Idle)
    case FlushRegister(t, thenClose) =>
      s' == Goto(s, FlushRecheck(t, thenClose)).(wakers := s.wakers.(send := Some(t)))
    case FlushRecheck(t, thenClose) =>
      s' == s.(app := s.app.(pc := if empty && thenClose then CloseWrites else Idle,
                             sender := if empty then s.app.sender else Some(SendWait(t, false))))
    case _ => false
  }

  /** The last step of a shutdown, and the notification that ends many polls. */
  predicate SignalStep(s: State, s': State) {
    match s.app.pc
    case CloseWrites => s' == Goto(s, Notify(false)).(flags := s.flags.(writeClosed := true))
    case Notify(final) => s' == Goto(s, if final then Ended else Idle).(wakers := s.wakers.(permit := true))
    case _ => false
  }

  // --- The worker ---

  function Clamp(choice: nat, limit: nat): (n: nat)
    requires limit >= 1
    ensures 1 <= n <= limit
  {
    if choice == 0 then 1 else Min(choice, limit)
  }

  function WorkerGoto(s: State, pc: WorkerPc): State {
    s.(worker := s.worker.(pc := pc))
  }

  function Wake(token: Option<Token>, due: bool, woken: set<Token>): set<Token> {
    if due && token.Some? then woken + {token.value} else woken
  }

  /** The start of one pass of the work loop. */
  predicate PassStep(s: State, choice: nat, s': State) {
    var w := s.worker;
    match w.pc
    case Drain => s' == s.(worker := w.(pc := FirstPoll, progress := choice > 0))
    case CheckDropped =>
      s' == s.(worker := w.(pc := if s.flags.dropped then PruneDropped else Recv,
                            wakeReader := false, wakeSender := false))
    case _ => false
  }

  /** The end of one pass, and the wait between passes. */
  predicate IdleStep(s: State, choice: nat, s': State) {
    var w := s.worker;
    match w.pc
    case Decide => s' == WorkerGoto(s, if w.progress || choice > 0 then Drain else Waiting)
    case Waiting =>
      && (s.wakers.permit || choice > 0)
      && s' == WorkerGoto(s, Drain).(wakers := s.wakers.(permit := s.wakers.permit && choice > 0))
    case _ => false
  }

  predicate RecvStep(s: State, choice: nat, s': State) {
    var w := s.worker;
    match w.pc
    case Recv =>
      var chunk := if CanRecv(s) then Clamp(choice, |s.pipes.rx|) else 0;
      var moved := chunk > 0 && |s.pipes.recvRing| < s.pipes.recvCapacity;
      s' == s.(pipes := WorkerPush(s.pipes, chunk),
               worker := w.(pc := CheckOpen, wakeReader := CanRecv(s), progress := w.progress || moved))
    case _ => false
  }

  /** End of stream is recorded, and the reader is woken for it or for new bytes. */
  predicate WakeReaderStep(s: State, s': State) {
    var w := s.worker;
    match w.pc
    case CheckOpen =>
      var ended := !s.flags.open && !s.flags.readClosed;
      s' == s.(flags := s.flags.(readClosed := s.flags.readClosed || ended),
               worker := w.(pc := WakeReader, wakeReader := w.wakeReader || ended))
    case WakeReader =>
      s' == s.(wakers := s.wakers.(recv := if w.wakeReader then None else s.wakers.recv,
                                   woken := Wake(s.wakers.recv, w.wakeReader, s.wakers.woken)),
               worker := w.(pc := SendCheck, wakeReader := false,
                            eofWoken := w.eofWoken || (w.wakeReader && s.flags.readClosed)))
    case _ => false
  }

  predicate SendStep(s: State, choice: nat, s': State) {
    var w := s.worker;
    match w.pc
    case SendCheck => s' == WorkerGoto(s, if CanSend(s) && |s.pipes.sendRing| > 0 then SendPop else WakeSender)
    case SendPop =>
      && |s.pipes.tx| < s.pipes.txCapacity
      && s' == s.(pipes := WorkerPop(s.pipes, Clamp(choice, s.pipes.txCapacity - |s.pipes.tx|)),
                  worker := w.(pc := SendCheck, wakeSender := true, progress := true))
    case WakeSender =>
      s' == s.(wakers := s.wakers.(send := if w.wakeSender then None else s.wakers.send,
                                   woken := Wake(s.wakers.send, w.wakeSender, s.wakers.woken)),
               worker := w.(pc := PruneDropped, wakeSender := false))
    case _ => false
  }

  /** Pruning looks at the dropped flag and then at the closed-writes flag. */
  predicate PruneCheckStep(s: State, s': State) {
    match s.worker.pc
    case PruneDropped => s' == WorkerGoto(s, if s.flags.dropped then Gone else PruneClosed)
    case PruneClosed => s' == WorkerGoto(s, if s.flags.writeClosed then PruneEmpty else PruneActive)
    case _ => false
  }

  /** Closing a socket that is not connected may end it at once. */
  function Close(f: Flags, atOnce: bool): Flags {
    f.(closing := true, open := f.open && (f.connected || !atOnce))
  }

  /** Pruning closes a drained socket and lets go of an inactive one. */
  predicate PruneFinishStep(s: State, choice: nat, s': State) {
    match s.worker.pc
    case PruneEmpty =>
      s' == WorkerGoto(s, PruneActive).(flags := if |s.pipes.sendRing| == 0 then Close(s.flags, choice > 0) else s.flags)
    case PruneActive => s' == WorkerGoto(s, if s.flags.active then SecondPoll else Gone)
    case _ => false
  }

  /**
   * What the socket promises of a change: a closed socket stays closed; an active
   * one is open, and an open one that has left the listening state is active; only
   * an active one sends; and received bytes stay receivable.
   */
  predicate Permitted(s: State, c: Change) {
    && (c.open ==> s.flags.open)
    && (c.active ==> c.open)
    && (s.flags.connected && c.open ==> c.active)
    && (c.maySend ==> c.active)
    && (|s.pipes.rx + c.arriving| > 0 ==> c.mayRecv)
    && (c.mayRecv ==> c.active || |s.pipes.rx + c.arriving| > 0)
  }

  /** `Interface::poll`: None reports that no socket changed. */
  predicate PollStep(s: State, change: Option<Change>, s': State) {
    && (s.worker.pc.FirstPoll? || s.worker.pc.SecondPoll?)
    && (change.Some? ==> Permitted(s, change.value))
    && var after := if s.worker.pc.FirstPoll? then CheckDropped else Decide;
    match change
    case None => s' == WorkerGoto(s, after)
    case Some(c) =>
      s' == s.(pipes := Exchange(s.pipes, c.arriving, c.acknowledged),
               flags := s.flags.(mayRecv := c.mayRecv, maySend := c.maySend, open := c.open, active := c.active,
                                connected := s.flags.connected || c.active),
               worker := s.worker.(pc := after, progress := true))
  }

  predicate Next(s: State, a: Action, s': State) {
    match a
    case AppStep =>
      || ReadEnterStep(s, s') || ReadFinishStep(s, s') || WriteEnterStep(s, s') || WriteFinishStep(s, s')
      || FlushStep(s, s') || SignalStep(s, s')
    case WorkerStep(choice) =>
      || PassStep(s, choice, s') || IdleStep(s, choice, s') || RecvStep(s, choice, s') || WakeReaderStep(s, s')
      || SendStep(s, choice, s') || PruneCheckStep(s, s') || PruneFinishStep(s, choice, s')
    case InterfacePoll(change) => PollStep(s, change, s')
    case OtherStreamNotifies => s' == s.(wakers := s.wakers.(permit := true))
    case WorkerExits => s.worker.pc.Waiting? && s' == WorkerGoto(s, Gone)
    case _ => s.app.pc.Idle? && BeginStep(s, a, s')
  }

  /** The states of a run from `states[0]`; step i is `actions[i]`. */
  ghost predicate Behaviour(states: seq<State>, actions: seq<Action>) {
    IsRun(Next, states, actions)
  }
}
