/** What holds over every run of the reconnect protocol, with any number of tasks. */
module ReconnectResults {
  import opened Base
  import opened Runs
  import opened Backoff
  import opened Reconnect
  import opened ReconnectProofs

  ghost predicate ClientRun(states: seq<State>, actions: seq<Action>) {
    Behaviour(states, actions) && states[0] == Init
  }

  lemma RunKeepsInv(states: seq<State>, actions: seq<Action>, i: nat)
    requires ClientRun(states, actions) && i < |states|
    ensures GenerationsOk(states[i]) && PacingOk(states[i])
  {
    forall s, a, s' | InOrder(s) && Next(s, a, s')
      ensures InOrder(s')
    {
      NextKeepsGenerations(s, a, s');
      NextPaces(s, a, s');
    }
    RunKeeps(Next, InOrder, states, actions, 0, i);
  }

  predicate InOrder(s: State) {
    GenerationsOk(s) && PacingOk(s)
  }

  /** Of all the callers that passed the same id, at most one ever installs a connection. */
  lemma OneInstallPerId(states: seq<State>, actions: seq<Action>, i: nat, k: nat, m: nat)
    requires ClientRun(states, actions) && i < |states| && k < |states[i].installs| && m < |states[i].installs|
    ensures states[i].installs[k] == states[i].installs[m] ==> k == m
  {
    RunKeepsInv(states, actions, i);
  }

  /** With the mutex free, the id is the number of installs and names the stored connection. */
  lemma IdCountsInstalls(states: seq<State>, actions: seq<Action>, i: nat)
    requires ClientRun(states, actions) && i < |states|
    ensures var s := states[i];
            && |s.installs| == s.connection
            && (s.holder.None? ==> s.connectionId == |s.installs|)
            && s.connectionId <= s.connection <= s.connectionId + 1
  {
    RunKeepsInv(states, actions, i);
  }

  /** At most one task is between taking the mutex and giving it up. */
  lemma OneTaskReconnects(states: seq<State>, actions: seq<Action>, i: nat, t: nat, u: nat)
    requires ClientRun(states, actions) && i < |states| && t < |states[i].tasks| && u < |states[i].tasks|
    requires Locking(states[i].tasks[t]) && Locking(states[i].tasks[u])
    ensures t == u
  {
    RunKeepsInv(states, actions, i);
    assert TaskOk(states[i], t) && TaskOk(states[i], u);
  }

  /**
   * A retry runs on a connection installed after the id the task saw, never older
   * than the one first tried, and newer than it whenever that one was not newer
   * than the id.
   */
  lemma RetryIsNewer(states: seq<State>, actions: seq<Action>, i: nat, t: nat)
    requires ClientRun(states, actions) && i < |states| && t < |states[i].tasks| && states[i].tasks[t].Retried?
    ensures var Retried(gen, seen, newGen) := states[i].tasks[t];
            && seen < newGen <= states[i].connection
            && gen <= newGen
            && (gen <= seen ==> gen < newGen)
  {
    RunKeepsInv(states, actions, i);
    assert TaskOk(states[i], t);
  }

  /** The stored connection only ever gets newer. */
  lemma ConnectionsOnlyAdvance(states: seq<State>, actions: seq<Action>, i: nat, j: nat)
    requires ClientRun(states, actions) && i <= j < |states|
    ensures states[i].connection <= states[j].connection && states[i].connectionId <= states[j].connectionId
    ensures states[i].attempts <= states[j].attempts && states[i].installs <= states[j].installs
  {
    var from := states[i];
    forall s, a, s' | Since(from, s) && Next(s, a, s')
      ensures Since(from, s')
    {
      AdvanceNext(s, a, s');
    }
    RunKeeps(Next, s => Since(from, s), states, actions, i, j);
  }

  predicate Since(from: State, s: State) {
    && from.connection <= s.connection && from.connectionId <= s.connectionId
    && from.attempts <= s.attempts && from.installs <= s.installs
  }

  lemma AdvanceNext(s: State, a: Action, s': State)
    requires Next(s, a, s')
    ensures Since(s, s')
  {
  }

  /** The pauses due after attempt j up to attempt k, dropped attempts included. */
  function Pauses(attempts: seq<Attempt>, j: nat, k: nat): real
    requires j <= k < |attempts|
  {
    if j == k then 0.0 else Pauses(attempts, j, k - 1) + Floor(attempts[k].streak.failures)
  }

  /**
   * Attempts of one streak are paced: before each of them lies a pause of at least
   * min(1.6^n, 48) seconds, n being the failures so far; so between any two lies at
   * least the sum of these, and of as many different ones as failures in between.
   */
  lemma {:induction false} AttemptsArePaced(states: seq<State>, actions: seq<Action>, i: nat, j: nat, k: nat)
    requires ClientRun(states, actions) && i < |states| && j <= k < |states[i].attempts|
    requires states[i].attempts[j].streak.successes == states[i].attempts[k].streak.successes
    ensures var first, last := states[i].attempts[j], states[i].attempts[k];
            && first.streak.failures <= last.streak.failures && first.streak.dropped <= last.streak.dropped
            && last.streak.failures + last.streak.dropped == first.streak.failures + first.streak.dropped + (k - j)
            && first.time + Pauses(states[i].attempts, j, k) <= last.time
            && Pace(last.streak.failures) - Pace(first.streak.failures) <= Pauses(states[i].attempts, j, k)
  {
    RunKeepsInv(states, actions, i);
    if j < k {
      var at := states[i].attempts;
      SuccessesOnlyGrow(states, actions, i, j, k - 1);
      assert Follows(at[k - 1], at[k]);
      AttemptsArePaced(states, actions, i, j, k - 1);
      var f := at[k].streak.failures;
      assert Floor(f) >= 0.0;
    }
  }

  lemma {:induction false} SuccessesOnlyGrow(states: seq<State>, actions: seq<Action>, i: nat, j: nat, k: nat)
    requires ClientRun(states, actions) && i < |states| && j <= k < |states[i].attempts|
    ensures states[i].attempts[j].streak.successes <= states[i].attempts[k].streak.successes
  {
    if j < k {
      RunKeepsInv(states, actions, i);
      SuccessesOnlyGrow(states, actions, i, j, k - 1);
      assert Follows(states[i].attempts[k - 1], states[i].attempts[k]);
    }
  }

  /**
   * With no attempt dropped, the n-th retry of a streak starts at least
   * min(1.6, 48) + ... + min(1.6^n, 48) seconds after the streak began.
   */
  lemma NthAttemptIsPaced(states: seq<State>, actions: seq<Action>, i: nat, j: nat, k: nat)
    requires ClientRun(states, actions) && i < |states| && j <= k < |states[i].attempts|
    requires var at := states[i].attempts;
             && at[j].streak.successes == at[k].streak.successes && at[k].streak.dropped == 0
             && (j == 0 || at[j - 1].streak.successes != at[j].streak.successes)
    ensures states[i].attempts[k].streak.failures == k - j
    ensures states[i].attempts[j].time + Pace(k - j) <= states[i].attempts[k].time
  {
    RunKeepsInv(states, actions, i);
    if j > 0 {
      SuccessesOnlyGrow(states, actions, i, j - 1, j);
      assert Follows(states[i].attempts[j - 1], states[i].attempts[j]);
    }
    AttemptsArePaced(states, actions, i, j, k);
  }

  /**
   * Throttling is exact: a task at the gate goes on to an attempt if and only if no
   * attempt of this streak has been made or the backoff has passed since the last;
   * else it gives up and frees the mutex.
   */
  lemma GateOpensExactly(s: State, t: nat, s': State)
    requires Next(s, CheckBackoff(t), s')
    ensures t < |s.tasks| == |s'.tasks|
    ensures s'.tasks[t].Stamping? <==> s.lastAttempt.None? || s.lastAttempt.value + s.backoff <= s.now
    ensures !s'.tasks[t].Stamping? ==> s'.tasks[t].Finished? && s'.holder.None?
    ensures s'.backoff == s.backoff && s'.lastAttempt == s.lastAttempt
  {
  }

  /** The backoff is between min(1.6^n, 48) and 60 seconds after n failures, under any interleaving. */
  lemma BackoffTracksFailures(states: seq<State>, actions: seq<Action>, i: nat)
    requires ClientRun(states, actions) && i < |states|
    ensures Floor(states[i].streak.failures) <= states[i].backoff <= MAX_RECONNECT_BACKOFF
  {
    RunKeepsInv(states, actions, i);
  }

  // --- A retry on the connection that failed ---

  /**
   * From any reachable state in which a task has loaded a connection that is newer
   * than the id, the run can go on so that the task retries on that same connection.
   */
  lemma NewerThanIdCanRepeat(states: seq<State>, actions: seq<Action>, t: nat)
      returns (states': seq<State>, actions': seq<Action>)
    requires ClientRun(states, actions)
    requires var last := states[|states| - 1];
             t < |last.tasks| && last.tasks[t].HasConnection? && last.connectionId < last.tasks[t].gen
    ensures ClientRun(states', actions') && states <= states' && actions <= actions'
    ensures var last, last' := states[|states| - 1], states'[|states'| - 1];
            && t < |last'.tasks| == |last.tasks|
            && last'.tasks[t] == Retried(last.tasks[t].gen, last.connectionId, last.tasks[t].gen)
  {
    RunKeepsInv(states, actions, |states| - 1);
    var s := states[|states| - 1];
    assert TaskOk(s, t);
    var h, gen, id := s.holder.value, s.tasks[t].gen, s.connectionId;
    states', actions', s := InstallCountedLate(states, actions, t, h);
    s := Put(s, t, Queued(gen, id));
    Extend(Next, states', actions', Operate(t, ConnectionError), s);
    states', actions' := states' + [s], actions' + [Operate(t, ConnectionError)];
    s := Put(s, t, Comparing(gen, id)).(holder := Some(t));
    Extend(Next, states', actions', Lock(t), s);
    states', actions' := states' + [s], actions' + [Lock(t)];
    s := Put(s, t, Reconnected(gen, id)).(holder := None);
    Extend(Next, states', actions', CompareIds(t), s);
    states', actions' := states' + [s], actions' + [CompareIds(t)];
    s := Put(s, t, Retried(gen, id, gen));
    Extend(Next, states', actions', Retry(t), s);
    states', actions' := states' + [s], actions' + [Retry(t)];
  }

  /** The task loads the id, and only then is the install counted. */
  lemma InstallCountedLate(states: seq<State>, actions: seq<Action>, t: nat, h: nat)
      returns (states': seq<State>, actions': seq<Action>, s': State)
    requires ClientRun(states, actions)
    requires var s := states[|states| - 1];
             && t < |s.tasks| && s.tasks[t].HasConnection?
             && h < |s.tasks| && s.tasks[h].Counting? && s.holder == Some(h)
    ensures ClientRun(states', actions') && states <= states' && actions <= actions'
    ensures s' == states'[|states'| - 1]
    ensures var s := states[|states| - 1];
            && s'.connection == s.connection && s'.connectionId == s.connectionId + 1 && s'.holder.None?
            && t < |s'.tasks| == |s.tasks| && s'.tasks[t] == Trying(s.tasks[t].gen, s.connectionId)
  {
    var s := states[|states| - 1];
    s' := Put(s, t, Trying(s.tasks[t].gen, s.connectionId));
    Extend(Next, states, actions, LoadId(t), s');
    states', actions' := states + [s'], actions + [LoadId(t)];
    s' := Put(s', h, Reconnected(s.tasks[h].gen, s.tasks[h].seen)).(connectionId := s.connectionId + 1, holder := None);
    Extend(Next, states', actions', CountInstall(h), s');
    states', actions' := states' + [s'], actions' + [CountInstall(h)];
  }

  /** The task is past loading connection `gen`, and saw no id below `id`. */
  predicate Carries(task: Task, gen: nat, id: nat) {
    !task.Starting? && (!task.Finished? ==> task.gen == gen && (!task.HasConnection? ==> id <= task.seen))
  }

  lemma CarriesNext(s: State, a: Action, s': State, t: nat, gen: nat, id: nat)
    requires Next(s, a, s') && t < |s.tasks| && Carries(s.tasks[t], gen, id) && id <= s.connectionId
    ensures t < |s'.tasks| && Carries(s'.tasks[t], gen, id)
  {
  }

  lemma CarriesOn(states: seq<State>, actions: seq<Action>, i: nat, j: nat, t: nat, gen: nat)
    requires ClientRun(states, actions) && i <= j < |states|
    requires t < |states[i].tasks| && states[i].tasks[t] == HasConnection(gen)
    ensures t < |states[j].tasks| && Carries(states[j].tasks[t], gen, states[i].connectionId)
  {
    var id := states[i].connectionId;
    forall s, a, s' | StillCarries(s, t, gen, id) && Next(s, a, s')
      ensures StillCarries(s', t, gen, id)
    {
      CarriesNext(s, a, s', t, gen, id);
      AdvanceNext(s, a, s');
    }
    RunKeeps(Next, s => StillCarries(s, t, gen, id), states, actions, i, j);
  }

  predicate StillCarries(s: State, t: nat, gen: nat, id: nat) {
    t < |s.tasks| && Carries(s.tasks[t], gen, id) && id <= s.connectionId
  }

  /** Task `t` has retried on the connection it first tried. */
  predicate Repeated(s: State, t: nat) {
    t < |s.tasks| && s.tasks[t].Retried? && s.tasks[t].newGen == s.tasks[t].gen
  }

  /**
   * Exactly when a retry can run on the connection that failed: when the task has
   * loaded its connection and is about to load the id, that connection is already
   * newer than the id.
   */
  lemma RetryCanRepeatExactly(states: seq<State>, actions: seq<Action>, t: nat)
    requires ClientRun(states, actions)
    requires t < |states[|states| - 1].tasks| && states[|states| - 1].tasks[t].HasConnection?
    ensures (exists states', actions' ::
              ClientRun(states', actions') && states <= states' && Repeated(states'[|states'| - 1], t))
            <==> states[|states| - 1].connectionId < states[|states| - 1].tasks[t].gen
  {
    var last := states[|states| - 1];
    if last.connectionId < last.tasks[t].gen {
      var states', actions' := NewerThanIdCanRepeat(states, actions, t);
      assert Repeated(states'[|states'| - 1], t);
    }
    forall states', actions' |
      ClientRun(states', actions') && states <= states' && Repeated(states'[|states'| - 1], t)
      ensures last.connectionId < last.tasks[t].gen
    {
      assert states'[|states| - 1] == last;
      CarriesOn(states', actions', |states| - 1, |states'| - 1, t, last.tasks[t].gen);
      RetryIsNewer(states', actions', |states'| - 1, t);
    }
  }

  /** The first of two tasks is about to start an attempt. */
  lemma AttemptBegins() returns (states: seq<State>, actions: seq<Action>, s: State)
    ensures Behaviour(states, actions) && |states| > 0 && states[0] == Init && states[|states| - 1] == s
    ensures s == Init.(tasks := [Stamping(0, 0), Starting], holder := Some(0))
  {
    s := Init;
    states, actions := [s], [];
    s := s.(tasks := [Starting]);
    Extend(Next, states, actions, Call, s);
    states, actions := states + [s], actions + [Call];
    s := s.(tasks := [Starting, Starting]);
    Extend(Next, states, actions, Call, s);
    states, actions := states + [s], actions + [Call];
    s := Put(s, 0, HasConnection(0));
    Extend(Next, states, actions, LoadConnection(0), s);
    states, actions := states + [s], actions + [LoadConnection(0)];
    s := Put(s, 0, Trying(0, 0));
    Extend(Next, states, actions, LoadId(0), s);
    states, actions := states + [s], actions + [LoadId(0)];
    s := Put(s, 0, Queued(0, 0));
    Extend(Next, states, actions, Operate(0, ConnectionError), s);
    states, actions := states + [s], actions + [Operate(0, ConnectionError)];
    s := Put(s, 0, Comparing(0, 0)).(holder := Some(0));
    Extend(Next, states, actions, Lock(0), s);
    states, actions := states + [s], actions + [Lock(0)];
    s := Put(s, 0, CheckingBackoff(0, 0));
    Extend(Next, states, actions, CompareIds(0), s);
    states, actions := states + [s], actions + [CompareIds(0)];
    s := Put(s, 0, Stamping(0, 0));
    Extend(Next, states, actions, CheckBackoff(0), s);
    states, actions := states + [s], actions + [CheckBackoff(0)];
  }

  /** The second task has loaded the new connection before the id that announces it. */
  lemma LoadsOvertaken() returns (states: seq<State>, actions: seq<Action>, s: State)
    ensures Behaviour(states, actions) && |states| > 0 && states[0] == Init && states[|states| - 1] == s
    ensures s.tasks == [Counting(0, 0), HasConnection(1)] && s.connection == 1 && s.connectionId == 0
  {
    states, actions, s := AttemptBegins();
    s := Put(s, 0, Rebinding(0, 0)).(
         lastAttempt := Some(s.now), attempts := s.attempts + [Attempt(s.now, s.streak)]);
    Extend(Next, states, actions, Stamp(0), s);
    states, actions := states + [s], actions + [Stamp(0)];
    s := Put(s, 0, Authenticating(0, 0));
    Extend(Next, states, actions, Rebind(0, true, 0), s);
    states, actions := states + [s], actions + [Rebind(0, true, 0)];
    s := Put(s, 0, Storing(0, 0)).(
         backoff := INITIAL_RECONNECT_BACKOFF, lastAttempt := None, streak := Streak(1, 0, 0));
    Extend(Next, states, actions, Authenticate(0, true, 0), s);
    states, actions := states + [s], actions + [Authenticate(0, true, 0)];
    s := Put(s, 0, Counting(0, 0)).(connection := 1, installs := [0]);
    Extend(Next, states, actions, Store(0), s);
    states, actions := states + [s], actions + [Store(0)];
    s := Put(s, 1, HasConnection(1));
    Extend(Next, states, actions, LoadConnection(1), s);
    states, actions := states + [s], actions + [LoadConnection(1)];
  }

  /**
   * The retry need not use another connection: the connection is loaded before
   * the id, so a task can pair the new connection with the old id. When that
   * connection fails it takes its own connection for the replacement.
   */
  lemma RetryCanRepeatConnection() returns (states: seq<State>, actions: seq<Action>)
    ensures ClientRun(states, actions)
    ensures var last := states[|states| - 1]; |last.tasks| == 2 && last.tasks[1] == Retried(1, 0, 1)
  {
    var s: State;
    states, actions, s := LoadsOvertaken();
    states, actions := NewerThanIdCanRepeat(states, actions, 1);
  }
}
