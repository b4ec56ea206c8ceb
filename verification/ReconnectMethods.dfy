/**
 * `with_retry` and `reconnect` as they are written in
 * crates/ombrac-client/src/connection/mod.rs. Each is shown to have the stated
 * effect when no other task interrupts it, and to be a run of the interleaved
 * model.
 */
module ReconnectMethods {
  import opened Base
  import opened Runs
  import opened Backoff
  import opened Reconnect

  /** How the transport answers: the operation, the rebind and the handshake, with the clock's nanoseconds. */
  datatype Transport = Transport(operation: Outcome, rebinds: bool, authenticates: bool, nanos: Nanos)

  datatype ReconnectResult = Connected | Throttled | RebindFailed | AuthenticationFailed

  datatype Tried = Done | GaveUp | NotReconnected(reason: ReconnectResult) | RetriedOn(connection: nat)

  class ClientConnection {
    var connection: nat
    var connectionId: nat
    var lastAttempt: Option<real>
    var backoff: real
    var now: real
    ghost var holder: Option<nat>
    ghost var tasks: seq<Task>
    ghost var installs: seq<nat>
    ghost var streak: Streak
    ghost var attempts: seq<Attempt>

    ghost function Now(): State
      reads this
    {
      State(connection, connectionId, holder, lastAttempt, backoff, now, tasks, installs, streak, attempts)
    }

    constructor ()
      ensures Now() == Init && backoff == 1.0 && lastAttempt == None
    {
      connection, connectionId, lastAttempt, backoff, now := 0, 0, None, INITIAL_RECONNECT_BACKOFF, 0.0;
      holder, tasks, installs, streak, attempts := None, [], [], Streak(0, 0, 0), [];
    }

    /** Whether an attempt must wait. */
    predicate TooSoon()
      reads this
    {
      lastAttempt.Some? && now - lastAttempt.value < backoff
    }

    /** Time passes. */
    method Elapse(time: real, ghost from: State)
      requires time >= 0.0 && Reaches(Next, from, Now())
      modifies this`now
      ensures now == old(now) + time && Reaches(Next, from, Now())
    {
      ghost var at := Now();
      now := now + time;
      ReachesNext(Next, from, at, Wait(time), Now());
    }

    /** A throttled caller gives the mutex up and sleeps until it is time. */
    method SleepOff(ghost t: nat, ghost from: State)
      requires t < |tasks| && tasks[t].CheckingBackoff? && TooSoon() && Reaches(Next, from, Now())
      modifies this`holder, this`tasks, this`now
      ensures Reaches(Next, from, Now()) && old(now) <= now && |tasks| == |old(tasks)|
      ensures !TooSoon() && holder == None && lastAttempt.Some? && now == lastAttempt.value + backoff
    {
      ghost var at := Now();
      var waitTime := backoff - (now - lastAttempt.value);
      tasks, holder := tasks[t := Finished], None;
      ReachesNext(Next, from, at, CheckBackoff(t), Now());
      Elapse(waitTime, from);
    }

    /** The part of `reconnect` before an attempt: a result if there is to be none. */
    method PassGate(oldConnId: nat, ghost t: nat, ghost gen: nat, ghost from: State)
      returns (early: Option<ReconnectResult>)
      requires t < |tasks| && tasks[t] == Queued(gen, oldConnId) && holder.None? && Reaches(Next, from, Now())
      modifies this`holder, this`tasks, this`now
      ensures Reaches(Next, from, Now()) && old(now) <= now && |tasks| == |old(tasks)|
      ensures early == if connectionId != oldConnId then Some(Connected)
                       else if old(TooSoon()) then Some(Throttled) else None
      ensures early == Some(Connected) ==> tasks[t] == Reconnected(gen, oldConnId)
      ensures early == Some(Throttled) ==> lastAttempt.Some? && now == lastAttempt.value + backoff
      ensures if early.Some? then holder == None else holder == Some(t) && tasks[t] == Stamping(gen, oldConnId)
    {
      ghost var at := Now();
      tasks, holder := tasks[t := Comparing(gen, oldConnId)], Some(t);
      assert TryStep(at, Lock(t), Now());
      ReachesNext(Next, from, at, Lock(t), Now());
      at := Now();
      if connectionId != oldConnId {
        tasks, holder := tasks[t := Reconnected(gen, oldConnId)], None;
        assert GateStep(at, CompareIds(t), Now());
        ReachesNext(Next, from, at, CompareIds(t), Now());
        return Some(Connected);
      }
      tasks := tasks[t := CheckingBackoff(gen, oldConnId)];
      assert GateStep(at, CompareIds(t), Now());
      ReachesNext(Next, from, at, CompareIds(t), Now());
      at := Now();
      if TooSoon() {
        SleepOff(t, from);
        return Some(Throttled);
      }
      tasks := tasks[t := Stamping(gen, oldConnId)];
      assert GateStep(at, CheckBackoff(t), Now());
      ReachesNext(Next, from, at, CheckBackoff(t), Now());
      return None;
    }

    method GiveUp(ghost a: Action, nanos: Nanos, ghost t: nat, ghost from: State)
      requires t < |tasks| && Reaches(Next, from, Now())
      requires Next(Now(), a, Failed(Now(), t, nanos))
      modifies this`backoff, this`holder, this`tasks, this`streak
      ensures Reaches(Next, from, Now()) && Now() == Failed(old(Now()), t, nanos)
    {
      ghost var at := Now();
      backoff := NextBackoff(backoff, nanos);
      tasks, holder, streak := tasks[t := Finished], None, streak.(failures := streak.failures + 1);
      ReachesNext(Next, from, at, a, Now());
    }

    method Install(ghost t: nat, ghost from: State)
      requires t < |tasks| && tasks[t].Authenticating? && Reaches(Next, from, Now())
      modifies this`backoff, this`lastAttempt, this`connection, this`connectionId
      modifies this`holder, this`tasks, this`streak, this`installs
      ensures Reaches(Next, from, Now()) && |tasks| == |old(tasks)|
      ensures connection == old(connection) + 1 && connectionId == old(connectionId) + 1
      ensures backoff == INITIAL_RECONNECT_BACKOFF && lastAttempt == None && holder == None
      ensures tasks[t] == Reconnected(old(tasks[t].gen), old(tasks[t].seen))
      ensures installs == old(installs) + [old(tasks[t].seen)]
    {
      ghost var at := Now();
      ghost var gen, seen := tasks[t].gen, tasks[t].seen;
      backoff, lastAttempt := INITIAL_RECONNECT_BACKOFF, None;
      tasks, streak := tasks[t := Storing(gen, seen)], Streak(streak.successes + 1, 0, 0);
      ReachesNext(Next, from, at, Authenticate(t, true, 0), Now());
      at := Now();
      connection := connection + 1;
      tasks, installs := tasks[t := Counting(gen, seen)], installs + [seen];
      ReachesNext(Next, from, at, Store(t), Now());
      at := Now();
      connectionId := connectionId + 1;
      tasks, holder := tasks[t := Reconnected(gen, seen)], None;
      ReachesNext(Next, from, at, CountInstall(t), Now());
    }

    /** The attempt: the time is noted before anything can fail. */
    method Attempt(tr: Transport, ghost t: nat, ghost from: State) returns (result: ReconnectResult)
      requires t < |tasks| && tasks[t].Stamping? && Reaches(Next, from, Now())
      modifies this`backoff, this`lastAttempt, this`connection, this`connectionId
      modifies this`holder, this`tasks, this`streak, this`installs, this`attempts
      ensures Reaches(Next, from, Now()) && |tasks| == |old(tasks)| && holder == None
      ensures attempts == old(attempts) + [Reconnect.Attempt(now, old(streak))]
      ensures result == if !tr.rebinds then RebindFailed
                        else if tr.authenticates then Connected else AuthenticationFailed
      ensures result.Connected? ==>
        && connection == old(connection) + 1 && connectionId == old(connectionId) + 1
        && backoff == INITIAL_RECONNECT_BACKOFF && lastAttempt == None
        && tasks[t] == Reconnected(old(tasks[t].gen), old(tasks[t].seen))
      ensures !result.Connected? ==>
        && connection == old(connection) && connectionId == old(connectionId)
        && backoff == NextBackoff(old(backoff), tr.nanos) && lastAttempt == Some(now)
    {
      ghost var at := Now();
      ghost var gen, seen := tasks[t].gen, tasks[t].seen;
      lastAttempt := Some(now);
      attempts, tasks := attempts + [Reconnect.Attempt(now, streak)], tasks[t := Rebinding(gen, seen)];
      ReachesNext(Next, from, at, Stamp(t), Now());
      if !tr.rebinds {
        GiveUp(Rebind(t, false, tr.nanos), tr.nanos, t, from);
        return RebindFailed;
      }
      at := Now();
      tasks := tasks[t := Authenticating(gen, seen)];
      ReachesNext(Next, from, at, Rebind(t, true, 0), Now());
      if !tr.authenticates {
        GiveUp(Authenticate(t, false, tr.nanos), tr.nanos, t, from);
        return AuthenticationFailed;
      }
      Install(t, from);
      return Connected;
    }

    /**
     * `reconnect`: nothing to do if the id has moved on; an error after a sleep if
     * it is too soon; else one attempt, which installs a connection or raises the
     * backoff.
     */
    method ReconnectFrom(oldConnId: nat, tr: Transport, ghost t: nat, ghost gen: nat, ghost from: State)
      returns (result: ReconnectResult)
      requires t < |tasks| && tasks[t] == Queued(gen, oldConnId) && holder.None? && Reaches(Next, from, Now())
      modifies this
      ensures Reaches(Next, from, Now()) && |tasks| == |old(tasks)| && holder == None
      ensures result == if old(connectionId) != oldConnId then Connected
                        else if old(TooSoon()) then Throttled
                        else if !tr.rebinds then RebindFailed
                        else if !tr.authenticates then AuthenticationFailed else Connected
      ensures old(connectionId) != oldConnId || result.Throttled? ==>
        && connection == old(connection) && connectionId == old(connectionId)
        && backoff == old(backoff) && lastAttempt == old(lastAttempt) && attempts == old(attempts)
      ensures old(connectionId) == oldConnId && result.Connected? ==>
        && connection == old(connection) + 1 && connectionId == oldConnId + 1
        && backoff == 1.0 && lastAttempt == None
      ensures result.RebindFailed? || result.AuthenticationFailed? ==>
        && connection == old(connection) && connectionId == old(connectionId)
        && backoff == NextBackoff(old(backoff), tr.nanos) && lastAttempt == Some(now)
      ensures result.Throttled? ==> lastAttempt.Some? && now == lastAttempt.value + backoff
      ensures result.Throttled? <==>
        && old(connectionId) == oldConnId
        && old(lastAttempt).Some? && old(now) < old(lastAttempt).value + old(backoff)
      ensures result.Connected? ==> tasks[t] == Reconnected(gen, oldConnId)
    {
      var early := PassGate(oldConnId, t, gen, from);
      if early.Some? {
        return early.value;
      }
      result := Attempt(tr, t, from);
    }

    /** A new call loads the connection and then the id. */
    method LoadBoth(ghost from: State) returns (first: nat, oldConnId: nat)
      requires Reaches(Next, from, Now())
      modifies this`tasks
      ensures Reaches(Next, from, Now()) && first == connection && oldConnId == connectionId
      ensures tasks == old(tasks) + [Trying(first, oldConnId)]
    {
      ghost var t, at := |tasks|, Now();
      tasks := tasks + [Starting];
      ReachesNext(Next, from, at, Call, Now());
      at := Now();
      first := connection;
      tasks := tasks[t := HasConnection(first)];
      ReachesNext(Next, from, at, LoadConnection(t), Now());
      at := Now();
      oldConnId := connectionId;
      tasks := tasks[t := Trying(first, oldConnId)];
      ReachesNext(Next, from, at, LoadId(t), Now());
    }

    /**
     * `with_retry`: the operation runs once on the stored connection, and once
     * more on the connection then stored only if it met a connection error and
     * `reconnect` succeeded.
     */
    method WithRetry(tr: Transport) returns (tried: Tried, first: nat)
      requires holder.None?
      modifies this
      ensures Reaches(Next, old(Now()), Now()) && holder == None
      ensures first == old(connection)
      ensures tried.Done? <==> tr.operation.Succeeds?
      ensures tried.GaveUp? <==> tr.operation.OtherError?
      ensures !tr.operation.ConnectionError? ==>
        connection == old(connection) && backoff == old(backoff) && lastAttempt == old(lastAttempt)
      ensures tried.RetriedOn? <==> tr.operation.ConnectionError? && tr.rebinds && tr.authenticates && !old(TooSoon())
      ensures tried.RetriedOn? ==> tried.connection == connection == old(connection) + 1
      ensures tried.NotReconnected? ==>
        && connection == old(connection) && connectionId == old(connectionId)
        && tried.reason == if old(TooSoon()) then Throttled else if !tr.rebinds then RebindFailed
                           else AuthenticationFailed
    {
      ghost var from := Now();
      ReachesSelf(Next, from);
      ghost var t := |tasks|;
      var oldConnId;
      first, oldConnId := LoadBoth(from);
      ghost var at := Now();
      if !tr.operation.ConnectionError? {
        tasks := tasks[t := Finished];
        assert TryStep(at, Operate(t, tr.operation), Now());
        ReachesNext(Next, from, at, Operate(t, tr.operation), Now());
        return if tr.operation.Succeeds? then Done else GaveUp, first;
      }
      tasks := tasks[t := Queued(first, oldConnId)];
      assert TryStep(at, Operate(t, ConnectionError), Now());
      ReachesNext(Next, from, at, Operate(t, ConnectionError), Now());
      var result := ReconnectFrom(oldConnId, tr, t, first, from);
      if !result.Connected? {
        return NotReconnected(result), first;
      }
      var again := LoadAgain(t, from);
      return RetriedOn(again), first;
    }

    /** The connection the retry runs on. */
    method LoadAgain(ghost t: nat, ghost from: State) returns (again: nat)
      requires t < |tasks| && tasks[t].Reconnected? && Reaches(Next, from, Now())
      modifies this`tasks
      ensures Reaches(Next, from, Now()) && again == connection
    {
      ghost var at := Now();
      again := connection;
      tasks := tasks[t := Retried(tasks[t].gen, tasks[t].seen, again)];
      assert InstallStep(at, Retry(t), Now());
      ReachesNext(Next, from, at, Retry(t), Now());
    }
  }
}
