/** Wakers are never confused: the waker of one poll is never registered for, or woken as, another. */
module TcpBridgeTokens {
  import opened Base
  import opened Runs
  import opened TcpBridge
  import opened TcpBridgeInvariant
  import opened TcpBridgeResults

  /** A poll that has not registered its waker yet. */
  predicate Unregistered(pc: AppPc) {
    || pc.ReadCheckEmpty? || pc.ReadCheckClosed? || pc.ReadRegister?
    || pc.WriteCheckDropped? || pc.WriteCheckClosed? || pc.WriteCheckFull? || pc.WriteRegister?
    || pc.FlushCheck? || pc.FlushRegister?
  }

  predicate Registered(pc: AppPc) {
    pc.ReadRecheck? || pc.WriteRecheck? || pc.FlushRecheck?
  }

  predicate IssuedBefore(s: State) {
    && (forall k :: k in s.wakers.woken ==> k < s.app.nextToken)
    && (s.wakers.recv.Some? ==> s.wakers.recv.value < s.app.nextToken)
    && (s.wakers.send.Some? ==> s.wakers.send.value < s.app.nextToken)
    && (s.app.reader.Some? ==> s.app.reader.value.token < s.app.nextToken)
    && (s.app.sender.Some? ==> s.app.sender.value.token < s.app.nextToken)
    && (Unregistered(s.app.pc) || Registered(s.app.pc) ==> s.app.pc.token < s.app.nextToken)
  }

  predicate SidesDiffer(s: State) {
    && (s.wakers.recv.Some? ==> s.wakers.send != s.wakers.recv)
    && (s.app.reader.Some? ==> s.wakers.send != Some(s.app.reader.value.token))
    && (s.app.sender.Some? ==> s.wakers.recv != Some(s.app.sender.value.token))
  }

  predicate PollDiffers(s: State) {
    && (Unregistered(s.app.pc) ==>
          s.app.pc.token !in s.wakers.woken
          && s.wakers.recv != Some(s.app.pc.token) && s.wakers.send != Some(s.app.pc.token))
    && (s.app.pc.ReadRecheck? ==> s.wakers.send != Some(s.app.pc.token))
    && (s.app.pc.WriteRecheck? || s.app.pc.FlushRecheck? ==> s.wakers.recv != Some(s.app.pc.token))
    && (Unregistered(s.app.pc) || Registered(s.app.pc) ==>
          && (s.app.reader.Some? ==> s.app.reader.value.token != s.app.pc.token)
          && (s.app.sender.Some? ==> s.app.sender.value.token != s.app.pc.token))
  }

  /** The flag for the sender's wake is only set by the send loop. */
  predicate SendFlagFresh(s: State) {
    s.worker.pc.Recv? || s.worker.pc.CheckOpen? || s.worker.pc.WakeReader? ==> !s.worker.wakeSender
  }

  predicate TokensOk(s: State) {
    IssuedBefore(s) && SidesDiffer(s) && PollDiffers(s) && SendFlagFresh(s)
  }

  lemma AppKeepsTokens(s: State, s': State)
    requires TokensOk(s) && Next(s, AppStep, s')
    ensures TokensOk(s')
  {
    if ReadEnterStep(s, s') || ReadFinishStep(s, s') {
      ReadKeepsTokens(s, s');
    } else if WriteEnterStep(s, s') || WriteFinishStep(s, s') {
      WriteKeepsTokens(s, s');
    } else {
      FlushKeepsTokens(s, s');
    }
  }

  lemma FlushKeepsTokens(s: State, s': State)
    requires TokensOk(s) && (FlushStep(s, s') || SignalStep(s, s'))
    ensures TokensOk(s')
  {
  }

  lemma ReadKeepsTokens(s: State, s': State)
    requires TokensOk(s) && (ReadEnterStep(s, s') || ReadFinishStep(s, s'))
    ensures TokensOk(s')
  {
  }

  lemma WriteKeepsTokens(s: State, s': State)
    requires TokensOk(s) && (WriteEnterStep(s, s') || WriteFinishStep(s, s'))
    ensures TokensOk(s')
  {
  }

  lemma BeginKeepsTokens(s: State, a: Action, s': State)
    requires TokensOk(s) && BeginStep(s, a, s')
    ensures TokensOk(s')
  {
  }

  /** What a step of the worker or the environment may do to the wakers. */
  predicate WakersOnlySpent(s: State, s': State) {
    && s'.app == s.app
    && (s'.wakers.recv.None? || s'.wakers.recv == s.wakers.recv)
    && (s'.wakers.send.None? || s'.wakers.send == s.wakers.send)
    && (forall k :: k in s'.wakers.woken ==>
          k in s.wakers.woken || s.wakers.recv == Some(k) || s.wakers.send == Some(k))
  }

  lemma WorkerOnlySpends(s: State, choice: nat, s': State)
    requires Next(s, WorkerStep(choice), s')
    ensures WakersOnlySpent(s, s')
  {
  }

  lemma WorkerKeepsSendFlag(s: State, choice: nat, s': State)
    requires SendFlagFresh(s) && Next(s, WorkerStep(choice), s')
    ensures SendFlagFresh(s')
  {
    if PassStep(s, choice, s') || RecvStep(s, choice, s') || WakeReaderStep(s, s') {
      ReceivingKeepsSendFlag(s, choice, s');
    }
  }

  lemma ReceivingKeepsSendFlag(s: State, choice: nat, s': State)
    requires SendFlagFresh(s) && (PassStep(s, choice, s') || RecvStep(s, choice, s') || WakeReaderStep(s, s'))
    ensures SendFlagFresh(s')
  {
  }

  lemma NextKeepsTokens(s: State, a: Action, s': State)
    requires TokensOk(s) && Next(s, a, s')
    ensures TokensOk(s')
  {
    match a
    case AppStep => AppKeepsTokens(s, s');
    case WorkerStep(choice) =>
      WorkerOnlySpends(s, choice, s');
      WorkerKeepsSendFlag(s, choice, s');
    case InterfacePoll(_) => assert WakersOnlySpent(s, s');
    case OtherStreamNotifies => assert WakersOnlySpent(s, s');
    case WorkerExits => assert WakersOnlySpent(s, s');
    case _ => BeginKeepsTokens(s, a, s');
  }

  lemma RunKeepsTokens(states: seq<State>, actions: seq<Action>, i: nat)
    requires BridgeRun(states, actions) && i < |states|
    ensures TokensOk(states[i])
  {
    var r, c, t :| states[0] == Init(r, c, t);
    forall s, a, s' | TokensOk(s) && Next(s, a, s')
      ensures TokensOk(s')
    {
      NextKeepsTokens(s, a, s');
    }
    RunKeeps(Next, TokensOk, states, actions, 0, i);
  }
}
