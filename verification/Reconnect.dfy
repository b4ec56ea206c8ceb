/**
 * Many tasks sharing one client connection (crates/ombrac-client/src/connection/mod.rs).
 * A task that meets a connection error reconnects under the mutex and retries
 * once. Each atomic access, await point and passage of time is one step.
 */
module Reconnect {
  import opened Base
  import opened Runs
  import opened Backoff

  /** Where a task is in `with_retry` and `reconnect`; `gen` is the connection it first tried. */
  datatype Task =
    | Starting
    | HasConnection(gen: nat)
    | Trying(gen: nat, seen: nat)
    | Queued(gen: nat, seen: nat)
    | Comparing(gen: nat, seen: nat)
    | CheckingBackoff(gen: nat, seen: nat)
    | Stamping(gen: nat, seen: nat)
    | Rebinding(gen: nat, seen: nat)
    | Authenticating(gen: nat, seen: nat)
    | Storing(gen: nat, seen: nat)
    | Counting(gen: nat, seen: nat)
    | Reconnected(gen: nat, seen: nat)
    | Retried(gen: nat, seen: nat, newGen: nat)
    | Finished

  /** One reconnect attempt: when it started, and the counts below at that moment. */
  datatype Attempt = Attempt(time: real, streak: Streak)

  /**
   * How many attempts ever succeeded, and how many since then failed or were
   * dropped with their task. Attempts with equal `successes` form one streak.
   */
  datatype Streak = Streak(successes: nat, failures: nat, dropped: nat)

  datatype State = State(
    connection: nat,
    connectionId: nat,
    holder: Option<nat>,
    lastAttempt: Option<real>,
    backoff: real,
    now: real,
    tasks: seq<Task>,
    installs: seq<nat>,
    streak: Streak,
    attempts: seq<Attempt>)

  /** Connections are numbered by how many were stored before them; `installs` records the callers' ids. */
  const Init := State(0, 0, None, None, INITIAL_RECONNECT_BACKOFF, 0.0, [], [], Streak(0, 0, 0), [])

  datatype Outcome = Succeeds | ConnectionError | OtherError

  datatype Action =
    | Call
    | LoadConnection(task: nat)
    | LoadId(task: nat)
    | Operate(task: nat, outcome: Outcome)
    | Lock(task: nat)
    | CompareIds(task: nat)
    | CheckBackoff(task: nat)
    | Stamp(task: nat)
    | Rebind(task: nat, ok: bool, nanos: Nanos)
    | Authenticate(task: nat, ok: bool, nanos: Nanos)
    | Store(task: nat)
    | CountInstall(task: nat)
    | Retry(task: nat)
    | Cancel(task: nat)
    | Wait(time: real)

  function Put(s: State, t: nat, task: Task): State
    requires t < |s.tasks|
  {
    s.(tasks := s.tasks[t := task])
  }

  /** `with_retry` up to the mutex. */
  predicate TryStep(s: State, a: Action, s': State) {
    match a
    case LoadConnection(t) =>
      t < |s.tasks| && s.tasks[t].Starting? && s' == Put(s, t, HasConnection(s.connection))
    case LoadId(t) =>
      t < |s.tasks| && s.tasks[t].HasConnection? && s' == Put(s, t, Trying(s.tasks[t].gen, s.connectionId))
    case Operate(t, outcome) =>
      && t < |s.tasks| && s.tasks[t].Trying?
      && s' == Put(s, t, if outcome.ConnectionError? then Queued(s.tasks[t].gen, s.tasks[t].seen) else Finished)
    case Lock(t) =>
      && t < |s.tasks| && s.tasks[t].Queued? && s.holder.None?
      && s' == Put(s, t, Comparing(s.tasks[t].gen, s.tasks[t].seen)).(holder := Some(t))
    case _ => false
  }

  /** `reconnect` up to the start of an attempt; a throttled caller sleeps without the mutex and fails. */
  predicate GateStep(s: State, a: Action, s': State) {
    match a
    case CompareIds(t) =>
      && t < |s.tasks| && s.tasks[t].Comparing?
      && var Comparing(gen, seen) := s.tasks[t];
      if s.connectionId != seen then s' == Put(s, t, Reconnected(gen, seen)).(holder := None)
      else s' == Put(s, t, CheckingBackoff(gen, seen))
    case CheckBackoff(t) =>
      && t < |s.tasks| && s.tasks[t].CheckingBackoff?
      && var CheckingBackoff(gen, seen) := s.tasks[t];
      if s.lastAttempt.Some? && s.now - s.lastAttempt.value < s.backoff
      then s' == Put(s, t, Finished).(holder := None)
      else s' == Put(s, t, Stamping(gen, seen))
    case Stamp(t) =>
      && t < |s.tasks| && s.tasks[t].Stamping?
      && var Stamping(gen, seen) := s.tasks[t];
      s' == Put(s, t, Rebinding(gen, seen)).(
              lastAttempt := Some(s.now), attempts := s.attempts + [Attempt(s.now, s.streak)])
    case _ => false
  }

  function Failed(s: State, t: nat, nanos: Nanos): State
    requires t < |s.tasks|
  {
    Put(s, t, Finished).(holder := None, backoff := NextBackoff(s.backoff, nanos),
                         streak := s.streak.(failures := s.streak.failures + 1))
  }

  /** The attempt itself. */
  predicate AttemptStep(s: State, a: Action, s': State) {
    match a
    case Rebind(t, ok, nanos) =>
      && t < |s.tasks| && s.tasks[t].Rebinding?
      && if ok then s' == Put(s, t, Authenticating(s.tasks[t].gen, s.tasks[t].seen)) else s' == Failed(s, t, nanos)
    case Authenticate(t, ok, nanos) =>
      && t < |s.tasks| && s.tasks[t].Authenticating?
      && if ok
         then s' == Put(s, t, Storing(s.tasks[t].gen, s.tasks[t].seen)).(
                      backoff := INITIAL_RECONNECT_BACKOFF, lastAttempt := None,
                      streak := Streak(s.streak.successes + 1, 0, 0))
         else s' == Failed(s, t, nanos)
    case _ => false
  }

  predicate InstallStep(s: State, a: Action, s': State) {
    match a
    case Store(t) =>
      && t < |s.tasks| && s.tasks[t].Storing?
      && s' == Put(s, t, Counting(s.tasks[t].gen, s.tasks[t].seen)).(
                 connection := s.connection + 1, installs := s.installs + [s.tasks[t].seen])
    case CountInstall(t) =>
      && t < |s.tasks| && s.tasks[t].Counting?
      && s' == Put(s, t, Reconnected(s.tasks[t].gen, s.tasks[t].seen)).(
                 connectionId := s.connectionId + 1, holder := None)
    case Retry(t) =>
      && t < |s.tasks| && s.tasks[t].Reconnected?
      && s' == Put(s, t, Retried(s.tasks[t].gen, s.tasks[t].seen, s.connection))
    case _ => false
  }

  predicate InAttempt(task: Task) {
    task.Rebinding? || task.Authenticating?
  }

  /** Dropping a task's future at an await point releases the mutex if it holds it. */
  predicate CancelStep(s: State, t: nat, s': State) {
    && t < |s.tasks|
    && (s.tasks[t].Trying? || s.tasks[t].Queued? || InAttempt(s.tasks[t]))
    && s' == Put(s, t, Finished).(
               holder := if s.holder == Some(t) then None else s.holder,
               streak := s.streak.(dropped := s.streak.dropped + if InAttempt(s.tasks[t]) then 1 else 0))
  }

  predicate Next(s: State, a: Action, s': State) {
    match a
    case Call => s' == s.(tasks := s.tasks + [Starting])
    case Cancel(t) => CancelStep(s, t, s')
    case Wait(time) => time >= 0.0 && s' == s.(now := s.now + time)
    case _ => TryStep(s, a, s') || GateStep(s, a, s') || AttemptStep(s, a, s') || InstallStep(s, a, s')
  }

  /** The states of a run; step i is `actions[i]`. */
  ghost predicate Behaviour(states: seq<State>, actions: seq<Action>) {
    IsRun(Next, states, actions)
  }
}
