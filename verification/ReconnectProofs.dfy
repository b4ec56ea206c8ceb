/** What every run of the reconnect protocol keeps. */
module ReconnectProofs {
  import opened Base
  import opened Backoff
  import opened Reconnect

  predicate Locking(task: Task) {
    || task.Comparing? || task.CheckingBackoff? || task.Stamping? || task.Rebinding?
    || task.Authenticating? || task.Storing? || task.Counting?
  }

  /** The caller's id was found current and cannot have changed since. */
  predicate Committed(task: Task) {
    Locking(task) && !task.Comparing?
  }

  predicate HasSeen(task: Task) {
    Locking(task) || task.Trying? || task.Queued? || task.Reconnected? || task.Retried?
  }

  /** A connection has been stored whose install is not yet counted. */
  predicate Uncounted(s: State) {
    s.holder.Some? && s.holder.value < |s.tasks| && s.tasks[s.holder.value].Counting?
  }

  predicate TaskOk(s: State, t: nat)
    requires t < |s.tasks|
  {
    var task := s.tasks[t];
    && (Locking(task) <==> s.holder == Some(t))
    && (task.HasConnection? ==> task.gen <= s.connection)
    && (HasSeen(task) ==> task.seen <= s.connectionId && task.gen <= task.seen + 1)
    && (Committed(task) ==> task.seen == s.connectionId)
    && (task.Reconnected? ==> task.seen < s.connectionId)
    && (task.Retried? ==> task.seen < task.newGen <= s.connection)
  }

  predicate GenerationsOk(s: State) {
    && s.connection == s.connectionId + (if Uncounted(s) then 1 else 0)
    && (s.holder.Some? ==> s.holder.value < |s.tasks|)
    && |s.installs| == s.connection
    && (forall k :: 0 <= k < |s.installs| ==> s.installs[k] == k)
    && (forall t :: 0 <= t < |s.tasks| ==> TaskOk(s, t))
  }

  lemma TryKeeps(s: State, a: Action, s': State)
    requires GenerationsOk(s) && TryStep(s, a, s')
    ensures GenerationsOk(s')
  {
    assert TaskOk(s, a.task);
    forall t | 0 <= t < |s.tasks|
      ensures TaskOk(s', t)
    {
      assert TaskOk(s, t);
    }
  }

  lemma GateKeeps(s: State, a: Action, s': State)
    requires GenerationsOk(s) && GateStep(s, a, s')
    ensures GenerationsOk(s')
  {
    assert TaskOk(s, a.task);
    forall t | 0 <= t < |s.tasks|
      ensures TaskOk(s', t)
    {
      assert TaskOk(s, t);
    }
  }

  lemma AttemptKeeps(s: State, a: Action, s': State)
    requires GenerationsOk(s) && AttemptStep(s, a, s')
    ensures GenerationsOk(s')
  {
    assert TaskOk(s, a.task);
    forall t | 0 <= t < |s.tasks|
      ensures TaskOk(s', t)
    {
      assert TaskOk(s, t);
    }
  }

  lemma InstallKeeps(s: State, a: Action, s': State)
    requires GenerationsOk(s) && InstallStep(s, a, s')
    ensures GenerationsOk(s')
  {
    assert TaskOk(s, a.task);
    forall t | 0 <= t < |s.tasks|
      ensures TaskOk(s', t)
    {
      assert TaskOk(s, t);
    }
  }

  lemma QuietKeeps(s: State, a: Action, s': State)
    requires GenerationsOk(s) && Next(s, a, s') && (a.Call? || a.Cancel? || a.Wait?)
    ensures GenerationsOk(s')
  {
    if a.Cancel? {
      assert TaskOk(s, a.task);
    }
    forall t | 0 <= t < |s'.tasks|
      ensures TaskOk(s', t)
    {
      if t < |s.tasks| {
        assert TaskOk(s, t);
      }
    }
  }

  lemma NextKeepsGenerations(s: State, a: Action, s': State)
    requires GenerationsOk(s) && Next(s, a, s')
    ensures GenerationsOk(s')
  {
    if TryStep(s, a, s') { TryKeeps(s, a, s'); }
    else if GateStep(s, a, s') { GateKeeps(s, a, s'); }
    else if AttemptStep(s, a, s') { AttemptKeeps(s, a, s'); }
    else if InstallStep(s, a, s') { InstallKeeps(s, a, s'); }
    else { QuietKeeps(s, a, s'); }
  }

  // --- Pacing ---

  /** How attempt k follows the one before it: a new streak, or one more step after the pause. */
  predicate Follows(before: Attempt, next: Attempt) {
    if before.streak.successes < next.streak.successes
    then next.streak.failures == 0 && next.streak.dropped == 0
    else
      && before.streak.successes == next.streak.successes
      && before.time + Floor(next.streak.failures) <= next.time
      && OneMore(before.streak, next.streak)
  }

  predicate OneMore(before: Streak, next: Streak) {
    && before.failures <= next.failures && before.dropped <= next.dropped
    && next.failures + next.dropped == before.failures + before.dropped + 1
  }

  /** The current streak against its latest attempt, which may still be running. */
  predicate LatestOk(s: State, latest: Attempt) {
    if s.lastAttempt.None?
    then s.streak.failures == 0 && s.streak.dropped == 0 && latest.streak.successes < s.streak.successes
    else
      && latest.time == s.lastAttempt.value && latest.streak.successes == s.streak.successes
      && (if AttemptRunning(s) then latest.streak == s.streak else OneMore(latest.streak, s.streak))
  }

  predicate AttemptRunning(s: State) {
    s.holder.Some? && s.holder.value < |s.tasks| && InAttempt(s.tasks[s.holder.value])
  }

  predicate PacingOk(s: State) {
    && Floor(s.streak.failures) <= s.backoff <= MAX_RECONNECT_BACKOFF
    && (|s.attempts| == 0 ==> s.lastAttempt.None? && s.streak == Streak(0, 0, 0))
    && (|s.attempts| > 0 ==>
          LatestOk(s, s.attempts[|s.attempts| - 1])
          && s.attempts[0].streak == Streak(0, 0, 0))
    && (AttemptRunning(s) ==> s.lastAttempt.Some?)
    && (s.holder.Some? && s.holder.value < |s.tasks| && s.tasks[s.holder.value].Stamping? && s.lastAttempt.Some? ==>
          s.lastAttempt.value + s.backoff <= s.now)
    && (forall k :: 0 < k < |s.attempts| ==> Follows(s.attempts[k - 1], s.attempts[k]))
  }

  lemma GatePaces(s: State, a: Action, s': State)
    requires GenerationsOk(s) && PacingOk(s) && GateStep(s, a, s')
    ensures PacingOk(s')
  {
    assert TaskOk(s, a.task);
    assert s.holder == Some(a.task);
    assert s'.attempts == s.attempts || s'.attempts[..|s.attempts|] == s.attempts;
  }

  lemma FailurePaces(s: State, t: nat, nanos: Nanos)
    requires GenerationsOk(s) && PacingOk(s) && t < |s.tasks| && InAttempt(s.tasks[t])
    ensures PacingOk(Failed(s, t, nanos))
  {
    assert TaskOk(s, t);
    NextBackoffBounds(s.backoff, nanos, s.streak.failures);
  }

  lemma AttemptPaces(s: State, a: Action, s': State)
    requires GenerationsOk(s) && PacingOk(s) && AttemptStep(s, a, s')
    ensures PacingOk(s')
  {
    assert TaskOk(s, a.task);
    if !a.ok {
      FailurePaces(s, a.task, a.nanos);
    }
  }

  lemma TryPaces(s: State, a: Action, s': State)
    requires GenerationsOk(s) && PacingOk(s) && TryStep(s, a, s')
    ensures PacingOk(s')
  {
    assert TaskOk(s, a.task);
    assert AttemptRunning(s') == AttemptRunning(s);
  }

  lemma InstallPaces(s: State, a: Action, s': State)
    requires GenerationsOk(s) && PacingOk(s) && InstallStep(s, a, s')
    ensures PacingOk(s')
  {
    assert TaskOk(s, a.task);
    assert AttemptRunning(s') == AttemptRunning(s);
  }

  lemma CancelPaces(s: State, t: nat, s': State)
    requires GenerationsOk(s) && PacingOk(s) && CancelStep(s, t, s')
    ensures PacingOk(s')
  {
    assert TaskOk(s, t);
    assert InAttempt(s.tasks[t]) ==> AttemptRunning(s) && !AttemptRunning(s');
    assert !InAttempt(s.tasks[t]) ==> AttemptRunning(s') == AttemptRunning(s);
  }

  lemma NextPaces(s: State, a: Action, s': State)
    requires GenerationsOk(s) && PacingOk(s) && Next(s, a, s')
    ensures PacingOk(s')
  {
    if TryStep(s, a, s') {
      TryPaces(s, a, s');
    } else if GateStep(s, a, s') {
      GatePaces(s, a, s');
    } else if AttemptStep(s, a, s') {
      AttemptPaces(s, a, s');
    } else if InstallStep(s, a, s') {
      InstallPaces(s, a, s');
    } else if a.Cancel? {
      CancelPaces(s, a.task, s');
    } else {
      assert AttemptRunning(s') == AttemptRunning(s);
    }
  }
}
