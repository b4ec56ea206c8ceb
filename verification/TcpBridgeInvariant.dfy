/** What every interleaving of the TCP bridge keeps. */
module TcpBridgeInvariant {
  import opened Base
  import opened TcpBridge

  /** Once writes are closed the send ring is empty, and only then does the socket close. */
  predicate ClosedInOrder(s: State) {
    && (s.flags.writeClosed ==> |s.pipes.sendRing| == 0)
    && (s.app.pc.CloseWrites? ==> |s.pipes.sendRing| == 0)
    && (s.flags.closing ==> s.flags.writeClosed)
    && (s.app.pc.WriteCheckFull? || s.app.pc.WriteRegister? || s.app.pc.WriteRecheck? || s.app.pc.WritePush? ==>
          !s.flags.writeClosed)
    && (s.worker.pc.PruneEmpty? ==> s.flags.writeClosed)
    && (s.worker.pc.SendPop? ==> |s.pipes.tx| < s.pipes.txCapacity && |s.pipes.sendRing| > 0)
  }

  predicate Reading(pc: AppPc) {
    pc.ReadCheckEmpty? || pc.ReadCheckClosed? || pc.ReadRegister? || pc.ReadRecheck? || pc.ReadPop?
  }

  predicate Sending(pc: AppPc) {
    || pc.WriteCheckDropped? || pc.WriteCheckClosed? || pc.WriteCheckFull?
    || pc.WriteRegister? || pc.WriteRecheck? || pc.WritePush?
    || pc.FlushCheck? || pc.FlushRegister? || pc.FlushRecheck? || pc.CloseWrites?
  }

  /** The worker has still to wake the reader. */
  predicate ReaderWakeDue(s: State) {
    s.worker.wakeReader && (s.worker.pc.CheckOpen? || s.worker.pc.WakeReader?)
  }

  /** The worker has still to wake the writer or flusher. */
  predicate SenderWakeDue(s: State) {
    s.worker.wakeSender && (s.worker.pc.SendCheck? || s.worker.pc.SendPop? || s.worker.pc.WakeSender?)
  }

  /** A waiting reader stays registered until woken; with bytes in the ring its wake is done or due. */
  predicate ReaderOk(s: State) {
    && (Reading(s.app.pc) ==> s.app.reader.None?)
    && (s.app.pc.ReadRecheck? ==> s.app.pc.token in s.wakers.woken || s.wakers.recv == Some(s.app.pc.token))
    && (s.app.reader.Some? ==>
          var t := s.app.reader.value.token;
          && (t in s.wakers.woken || s.wakers.recv == Some(t))
          && (|s.pipes.recvRing| > 0 ==> t in s.wakers.woken || ReaderWakeDue(s)))
  }

  /** Once the end-of-stream wake is spent, only a reader that registered after it can be unwoken. */
  predicate EofOk(s: State) {
    && (s.worker.eofWoken ==> s.flags.readClosed)
    && (s.flags.readClosed && !s.worker.eofWoken ==> ReaderWakeDue(s))
    && (s.app.pc.ReadRecheck? && !s.app.pc.late && s.worker.eofWoken ==> s.app.pc.token in s.wakers.woken)
    && (s.app.reader.Some? && !s.app.reader.value.late && s.worker.eofWoken ==>
          s.app.reader.value.token in s.wakers.woken)
  }

  /** What the parked writer or flusher waits for has come true. */
  predicate SenderReady(s: State)
    requires s.app.sender.Some?
  {
    if s.app.sender.value.forSpace then |s.pipes.sendRing| < s.pipes.sendCapacity else |s.pipes.sendRing| == 0
  }

  predicate SenderOk(s: State) {
    && (Sending(s.app.pc) ==> s.app.sender.None?)
    && (s.app.pc.WriteRecheck? || s.app.pc.FlushRecheck? ==>
          s.app.pc.token in s.wakers.woken || s.wakers.send == Some(s.app.pc.token))
    && (s.app.sender.Some? ==>
          var t := s.app.sender.value.token;
          && (t in s.wakers.woken || s.wakers.send == Some(t))
          && (SenderReady(s) ==> t in s.wakers.woken || SenderWakeDue(s)))
  }

  /** A permit is stored, or the application is about to store one. */
  predicate PermitDue(s: State) {
    s.wakers.permit || s.app.pc.Notify?
  }

  predicate AfterClosed(w: WorkerPc) {
    w.PruneActive? || w.SecondPoll? || w.Decide? || w.Waiting?
  }

  predicate AfterDropped(w: WorkerPc) {
    w.PruneClosed? || w.PruneEmpty? || AfterClosed(w)
  }

  predicate AfterSend(w: WorkerPc) {
    w.WakeSender? || w.PruneDropped? || AfterDropped(w)
  }

  predicate AfterRecv(w: WorkerPc) {
    w.CheckOpen? || w.WakeReader? || w.SendCheck? || w.SendPop? || AfterSend(w)
  }

  /**
   * Once the worker has looked at one kind of work in a pass that made no
   * progress, work of that kind that appears later comes with a permit.
   */
  predicate WorkerOk(s: State) {
    && (s.worker.pc.Waiting? ==> !s.worker.progress)
    && (!s.worker.progress && !PermitDue(s) ==>
          && (AfterRecv(s.worker.pc) && !s.flags.dropped ==>
                !CanRecv(s) || |s.pipes.recvRing| == s.pipes.recvCapacity)
          && (AfterSend(s.worker.pc) && !s.flags.dropped ==> !CanSend(s) || |s.pipes.sendRing| == 0)
          && (AfterDropped(s.worker.pc) ==> !s.flags.dropped)
          && (AfterClosed(s.worker.pc) ==> !s.flags.writeClosed || s.flags.closing))
  }

  predicate Inv(s: State) {
    Conserved(s.pipes) && ClosedInOrder(s) && ReaderOk(s) && EofOk(s) && SenderOk(s) && WorkerOk(s)
  }

  lemma BeginKeeps(s: State, a: Action, s': State)
    requires Inv(s) && s.app.pc.Idle? && BeginStep(s, a, s')
    ensures Inv(s')
  {
  }

  lemma ReadEnterKeeps(s: State, s': State)
    requires Inv(s) && ReadEnterStep(s, s')
    ensures Inv(s')
  {
  }

  lemma ReadFinishKeeps(s: State, s': State)
    requires Inv(s) && ReadFinishStep(s, s')
    ensures Inv(s')
  {
  }

  lemma WriteEnterKeeps(s: State, s': State)
    requires Inv(s) && WriteEnterStep(s, s')
    ensures Inv(s')
  {
  }

  lemma WriteFinishKeeps(s: State, s': State)
    requires Inv(s) && WriteFinishStep(s, s')
    ensures Inv(s')
  {
  }

  lemma FlushKeeps(s: State, s': State)
    requires Inv(s) && FlushStep(s, s')
    ensures Inv(s')
  {
  }

  lemma SignalKeeps(s: State, s': State)
    requires Inv(s) && SignalStep(s, s')
    ensures Inv(s')
  {
  }

  lemma PassKeeps(s: State, choice: nat, s': State)
    requires Inv(s) && PassStep(s, choice, s')
    ensures Inv(s')
  {
  }

  lemma IdleKeeps(s: State, choice: nat, s': State)
    requires Inv(s) && IdleStep(s, choice, s')
    ensures Inv(s')
  {
  }

  lemma RecvKeeps(s: State, choice: nat, s': State)
    requires Inv(s) && RecvStep(s, choice, s')
    ensures Inv(s')
  {
  }

  lemma WakeReaderKeeps(s: State, s': State)
    requires Inv(s) && WakeReaderStep(s, s')
    ensures Inv(s')
  {
  }

  lemma SendKeeps(s: State, choice: nat, s': State)
    requires Inv(s) && SendStep(s, choice, s')
    ensures Inv(s')
  {
  }

  lemma PruneCheckKeeps(s: State, s': State)
    requires Inv(s) && PruneCheckStep(s, s')
    ensures Inv(s')
  {
  }

  lemma PruneFinishKeeps(s: State, choice: nat, s': State)
    requires Inv(s) && PruneFinishStep(s, choice, s')
    ensures Inv(s')
  {
  }

  lemma PollKeeps(s: State, change: Option<Change>, s': State)
    requires Inv(s) && PollStep(s, change, s')
    ensures Inv(s')
  {
  }

  lemma NextKeeps(s: State, a: Action, s': State)
    requires Inv(s) && Next(s, a, s')
    ensures Inv(s')
  {
    match a
    case AppStep =>
      if ReadEnterStep(s, s') { ReadEnterKeeps(s, s'); }
      else if ReadFinishStep(s, s') { ReadFinishKeeps(s, s'); }
      else if WriteEnterStep(s, s') { WriteEnterKeeps(s, s'); }
      else if WriteFinishStep(s, s') { WriteFinishKeeps(s, s'); }
      else if FlushStep(s, s') { FlushKeeps(s, s'); }
      else { SignalKeeps(s, s'); }
    case WorkerStep(choice) =>
      if PassStep(s, choice, s') { PassKeeps(s, choice, s'); }
      else if IdleStep(s, choice, s') { IdleKeeps(s, choice, s'); }
      else if RecvStep(s, choice, s') { RecvKeeps(s, choice, s'); }
      else if WakeReaderStep(s, s') { WakeReaderKeeps(s, s'); }
      else if SendStep(s, choice, s') { SendKeeps(s, choice, s'); }
      else if PruneCheckStep(s, s') { PruneCheckKeeps(s, s'); }
      else { PruneFinishKeeps(s, choice, s'); }
    case InterfacePoll(change) => PollKeeps(s, change, s');
    case OtherStreamNotifies =>
    case WorkerExits =>
    case _ => BeginKeeps(s, a, s');
  }
}
