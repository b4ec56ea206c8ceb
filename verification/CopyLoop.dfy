/**
 * The two halves of `copy_bidirectional` (crates/ombrac-transport/src/io.rs)
 * sharing one cancellation token. Each await point is one step, so reads and
 * partial writes of the two directions interleave in any order.
 */
module CopyLoop {
  import opened Base
  import opened Runs
  import opened Streams

  const DEFAULT_BUF_SIZE: nat := 8 * 1024

  /** Why a direction stopped. */
  datatype Ending =
    | Eof
    | PeerReset
    | Cancelled
    | ReadFailed(kind: ErrorKind)
    | WriteFailed(kind: ErrorKind)

  datatype Pc =
    | Starting
    | Selecting
    | Writing(chunk: Bytes, done: nat)
    | Returning(ending: Ending)
    | Finished(ending: Ending)

  /** One run of `copy_with_cancel`; `source` is all its peer will ever send. */
  datatype Direction = Direction(source: Bytes, pc: Pc, read: nat, written: Bytes, copied: nat)

  function Begin(source: Bytes): Direction {
    Direction(source, Starting, 0, [], 0)
  }

  /** What the environment decides at an await point. */
  datatype Event =
    | ReadBytes(n: nat)
    | ReadReset
    | ReadFails(kind: ErrorKind)
    | Accept(n: nat)
    | WriteFails(kind: ErrorKind)

  predicate StartStep(d: Direction, cancelled: bool, d': Direction) {
    d.pc.Starting? && d' == d.(pc := if cancelled then Returning(Cancelled) else Selecting)
  }

  /** The biased `select!`: cancellation is looked at before the reader. */
  predicate SelectStep(d: Direction, cancelled: bool, e: Event, d': Direction) {
    && d.pc.Selecting? && d.read <= |d.source|
    && if cancelled then d' == d.(pc := Returning(Cancelled))
       else match e
            case ReadBytes(n) =>
              && n <= DEFAULT_BUF_SIZE && d.read + n <= |d.source|
              && (n == 0 ==> d.read == |d.source|)
              && d' == d.(read := d.read + n,
                          pc := if n == 0 then Returning(Eof) else Writing(d.source[d.read..d.read + n], 0))
            case ReadReset => d' == d.(pc := Returning(PeerReset))
            case ReadFails(kind) =>
              && kind != ConnectionReset && kind != ConnectionAborted
              && d' == d.(pc := Returning(ReadFailed(kind)))
            case _ => false
  }

  /** One poll inside `write_all`; the count moves only when the chunk is complete. */
  predicate WriteStep(d: Direction, e: Event, d': Direction) {
    && d.pc.Writing? && d.pc.done < |d.pc.chunk|
    && match e
       case Accept(n) =>
         && 0 < n && d.pc.done + n <= |d.pc.chunk|
         && var upto := d.pc.done + n;
         && var whole := upto == |d.pc.chunk|;
         d' == d.(written := d.written + d.pc.chunk[d.pc.done..upto],
                  pc := if whole then Selecting else Writing(d.pc.chunk, upto),
                  copied := if whole then d.copied + |d.pc.chunk| else d.copied)
       case WriteFails(kind) => d' == d.(pc := Returning(WriteFailed(kind)))
       case _ => false
  }

  predicate CopyStep(d: Direction, cancelled: bool, e: Event, d': Direction) {
    StartStep(d, cancelled, d') || SelectStep(d, cancelled, e, d') || WriteStep(d, e, d')
  }

  // --- Both directions ---

  datatype Side = AToB | BToA

  datatype State = State(aToB: Direction, bToA: Direction, cancelled: bool)

  function Init(a: Bytes, b: Bytes): State {
    State(Begin(a), Begin(b), false)
  }

  function Of(s: State, side: Side): Direction {
    if side.AToB? then s.aToB else s.bToA
  }

  function Other(side: Side): Side {
    if side.AToB? then BToA else AToB
  }

  datatype Action = Advance(side: Side, event: Event) | Cancel(side: Side)

  /** A direction that returns cancels the token the two share. */
  predicate Next(s: State, a: Action, s': State) {
    && var d, d' := Of(s, a.side), Of(s', a.side);
    && Of(s', Other(a.side)) == Of(s, Other(a.side))
    && match a
       case Advance(_, e) => CopyStep(d, s.cancelled, e, d') && s'.cancelled == s.cancelled
       case Cancel(_) => d.pc.Returning? && d' == d.(pc := Finished(d.pc.ending)) && s'.cancelled
  }

  ghost predicate Behaviour(states: seq<State>, actions: seq<Action>) {
    IsRun(Next, states, actions)
  }

  datatype Stats = Stats(aToBBytes: nat, bToABytes: nat)

  function Failure(ending: Ending): Option<ErrorKind> {
    if ending.ReadFailed? || ending.WriteFailed? then Some(ending.kind) else None
  }

  /** What `copy_bidirectional` returns once both directions have finished: always the counts. */
  function Outcome(s: State): (Stats, Option<ErrorKind>)
    requires s.aToB.pc.Finished? && s.bToA.pc.Finished?
  {
    var aFailure := Failure(s.aToB.pc.ending);
    (Stats(s.aToB.copied, s.bToA.copied), if aFailure.Some? then aFailure else Failure(s.bToA.pc.ending))
  }

  // --- What every run keeps ---

  predicate Over(d: Direction) {
    d.pc.Returning? || d.pc.Finished?
  }

  predicate DirectionOk(d: Direction) {
    && d.read <= |d.source| && |d.written| <= d.read
    && d.written == d.source[..|d.written|]
    && d.copied <= |d.written|
    && (d.pc.Writing? ==>
          && d.pc.done < |d.pc.chunk| <= DEFAULT_BUF_SIZE
          && d.copied + d.pc.done == |d.written| && d.copied + |d.pc.chunk| == d.read
          && d.pc.chunk == d.source[d.copied..d.read])
    && (!d.pc.Writing? && !(Over(d) && d.pc.ending.WriteFailed?) ==> d.copied == |d.written| == d.read)
    && (Over(d) && d.pc.ending.WriteFailed? ==> d.copied <= |d.written| < d.read <= d.copied + DEFAULT_BUF_SIZE)
    && (Over(d) && d.pc.ending.Eof? ==> d.read == |d.source|)
  }

  /** Finished for a reason of its own. */
  predicate EndedItself(d: Direction) {
    d.pc.Finished? && !d.pc.ending.Cancelled?
  }

  predicate StoppedOk(d: Direction, cancelled: bool) {
    (d.pc.Finished? ==> cancelled) && (Over(d) && d.pc.ending.Cancelled? ==> cancelled)
  }

  predicate Inv(s: State) {
    && DirectionOk(s.aToB) && DirectionOk(s.bToA)
    && StoppedOk(s.aToB, s.cancelled) && StoppedOk(s.bToA, s.cancelled)
    && (s.cancelled ==> EndedItself(s.aToB) || EndedItself(s.bToA))
  }

  lemma SelectKeeps(d: Direction, cancelled: bool, e: Event, d': Direction)
    requires DirectionOk(d) && SelectStep(d, cancelled, e, d')
    ensures DirectionOk(d')
  {
  }

  lemma WriteKeeps(d: Direction, e: Event, d': Direction)
    requires DirectionOk(d) && WriteStep(d, e, d')
    ensures DirectionOk(d')
  {
    if e.Accept? {
      var upto := d.pc.done + e.n;
      assert d.pc.chunk[d.pc.done..upto] == d.source[|d.written|..|d.written| + e.n];
      assert d'.written == d.source[..|d.written| + e.n];
    }
  }

  lemma StepKeeps(d: Direction, cancelled: bool, e: Event, d': Direction)
    requires DirectionOk(d) && CopyStep(d, cancelled, e, d')
    ensures DirectionOk(d')
    ensures d'.source == d.source && !d'.pc.Finished?
    ensures d'.pc.Returning? && d'.pc.ending.Cancelled? ==> cancelled
    ensures cancelled ==> d'.read == d.read
  {
    if d.pc.Selecting? {
      SelectKeeps(d, cancelled, e, d');
    } else if d.pc.Writing? {
      WriteKeeps(d, e, d');
    }
  }

  lemma AdvanceKeeps(s: State, a: Action, s': State)
    requires Inv(s) && Next(s, a, s') && a.Advance?
    ensures Inv(s')
  {
    StepKeeps(Of(s, a.side), s.cancelled, a.event, Of(s', a.side));
  }

  lemma CancelKeeps(s: State, a: Action, s': State)
    requires Inv(s) && Next(s, a, s') && a.Cancel?
    ensures Inv(s')
  {
    assert Of(s', Other(a.side)) == Of(s, Other(a.side));
  }

  lemma NextKeeps(s: State, a: Action, s': State)
    requires Inv(s) && Next(s, a, s')
    ensures Inv(s')
  {
    if a.Advance? {
      AdvanceKeeps(s, a, s');
    } else {
      CancelKeeps(s, a, s');
    }
  }

  // --- Over whole runs ---

  ghost predicate CopyRun(states: seq<State>, actions: seq<Action>, a: Bytes, b: Bytes) {
    Behaviour(states, actions) && states[0] == Init(a, b)
  }

  predicate InvFrom(s: State, a: Bytes, b: Bytes) {
    Inv(s) && s.aToB.source == a && s.bToA.source == b
  }

  lemma RunKeepsInv(states: seq<State>, actions: seq<Action>, a: Bytes, b: Bytes, i: nat)
    requires CopyRun(states, actions, a, b) && i < |states|
    ensures Inv(states[i]) && states[i].aToB.source == a && states[i].bToA.source == b
  {
    forall s, act, s' | InvFrom(s, a, b) && Next(s, act, s')
      ensures InvFrom(s', a, b)
    {
      NextKeeps(s, act, s');
      if act.Advance? {
        StepKeeps(Of(s, act.side), s.cancelled, act.event, Of(s', act.side));
      }
    }
    RunKeeps(Next, s => InvFrom(s, a, b), states, actions, 0, i);
  }

  /**
   * At every moment each writer has received exactly the first bytes of what was
   * read, at most one buffer short of all of it, and the count is never ahead.
   */
  lemma WriterHasPrefix(states: seq<State>, actions: seq<Action>, a: Bytes, b: Bytes, i: nat, side: Side)
    requires CopyRun(states, actions, a, b) && i < |states|
    ensures var d := Of(states[i], side);
            && d.source == (if side.AToB? then a else b)
            && d.copied <= |d.written| <= d.read <= |d.source|
            && d.written == d.source[..|d.written|]
            && d.read <= d.copied + 8192
  {
    RunKeepsInv(states, actions, a, b, i);
  }

  /**
   * The result of `copy_bidirectional`: a direction's count is exact, and all it
   * read is written, unless its writer failed; then at most one buffer is not
   * counted. An error is reported exactly when some direction failed.
   */
  lemma OutcomeIsExact(states: seq<State>, actions: seq<Action>, a: Bytes, b: Bytes, i: nat)
    requires CopyRun(states, actions, a, b) && i < |states|
    requires states[i].aToB.pc.Finished? && states[i].bToA.pc.Finished?
    ensures var s := states[i];
            var (stats, error) := Outcome(s);
            && (error.None? ==>
                  && stats.aToBBytes == s.aToB.read <= |a| && s.aToB.written == a[..stats.aToBBytes]
                  && stats.bToABytes == s.bToA.read <= |b| && s.bToA.written == b[..stats.bToABytes])
            && error == (match s.aToB.pc.ending
                         case ReadFailed(kind) => Some(kind)
                         case WriteFailed(kind) => Some(kind)
                         case _ =>
                           match s.bToA.pc.ending
                           case ReadFailed(kind) => Some(kind)
                           case WriteFailed(kind) => Some(kind)
                           case _ => None)
            && stats.aToBBytes <= |s.aToB.written| <= stats.aToBBytes + 8192
            && stats.bToABytes <= |s.bToA.written| <= stats.bToABytes + 8192
            && (!s.aToB.pc.ending.WriteFailed? ==> stats.aToBBytes == |s.aToB.written| == s.aToB.read)
            && (!s.bToA.pc.ending.WriteFailed? ==> stats.bToABytes == |s.bToA.written| == s.bToA.read)
  {
    RunKeepsInv(states, actions, a, b, i);
  }

  /** Neither direction is cancelled unless the other ended for a reason of its own. */
  lemma OneSideEndsItself(states: seq<State>, actions: seq<Action>, a: Bytes, b: Bytes, i: nat)
    requires CopyRun(states, actions, a, b) && i < |states|
    ensures var s := states[i];
            && (Over(s.aToB) && s.aToB.pc.ending.Cancelled? ==> EndedItself(s.bToA))
            && (Over(s.bToA) && s.bToA.pc.ending.Cancelled? ==> EndedItself(s.aToB))
            && (EndedItself(s.aToB) && s.aToB.pc.ending.Eof? ==> s.aToB.written == a)
            && (EndedItself(s.bToA) && s.bToA.pc.ending.Eof? ==> s.bToA.written == b)
  {
    RunKeepsInv(states, actions, a, b, i);
  }

  /** Once either direction has finished, neither reads another byte. */
  lemma NothingReadAfterCancel(
    states: seq<State>, actions: seq<Action>, a: Bytes, b: Bytes, i: nat, j: nat)
    requires CopyRun(states, actions, a, b) && i <= j < |states|
    requires states[i].aToB.pc.Finished? || states[i].bToA.pc.Finished?
    ensures states[j].cancelled
    ensures states[j].aToB.read == states[i].aToB.read && states[j].bToA.read == states[i].bToA.read
  {
    RunKeepsInv(states, actions, a, b, i);
    var up, down := states[i].aToB.read, states[i].bToA.read;
    forall s, act, s' | StoppedAt(s, up, down) && Next(s, act, s')
      ensures StoppedAt(s', up, down)
    {
      NextKeeps(s, act, s');
      CancelledReadsNothing(s, act, s');
    }
    RunKeeps(Next, s => StoppedAt(s, up, down), states, actions, i, j);
  }

  predicate StoppedAt(s: State, up: nat, down: nat) {
    Inv(s) && s.cancelled && s.aToB.read == up && s.bToA.read == down
  }

  lemma CancelledReadsNothing(s: State, a: Action, s': State)
    requires Inv(s) && Next(s, a, s') && s.cancelled
    ensures s'.cancelled && s'.aToB.read == s.aToB.read && s'.bToA.read == s.bToA.read
  {
    if a.Advance? {
      StepKeeps(Of(s, a.side), s.cancelled, a.event, Of(s', a.side));
    }
  }

  // --- Every copy can come to its end ---

  /** The next step of a direction whose streams do not fail, and how much is left of it. */
  function Unfailing(d: Direction): Event {
    if d.pc.Writing? && d.pc.done <= |d.pc.chunk| then Accept(|d.pc.chunk| - d.pc.done)
    else if d.read <= |d.source| then ReadBytes(Min(8192, |d.source| - d.read))
    else ReadReset
  }

  function Left(d: Direction): nat {
    match d.pc
    case Starting => 2 * |d.source| + 4
    case Selecting => if d.read <= |d.source| then 2 * (|d.source| - d.read) + 2 else 2
    case Writing(_, _) => if d.read <= |d.source| then 2 * (|d.source| - d.read) + 3 else 3
    case Returning(_) => 1
    case Finished(_) => 0
  }

  /** Ended by its own source, or cancelled with the token. */
  predicate EndedWell(d: Direction, cancelled: bool) {
    Over(d) ==> d.pc.ending == if cancelled then Cancelled else Eof
  }

  lemma UnfailingStep(d: Direction, cancelled: bool) returns (d': Direction)
    requires DirectionOk(d) && !Over(d)
    ensures CopyStep(d, cancelled, Unfailing(d), d') && Left(d') < Left(d) && EndedWell(d', cancelled)
  {
    var e := Unfailing(d);
    match d.pc
    case Starting => d' := d.(pc := if cancelled then Returning(Cancelled) else Selecting);
    case Selecting =>
      var n := e.n;
      d' := if cancelled then d.(pc := Returning(Cancelled))
            else d.(read := d.read + n,
                    pc := if n == 0 then Returning(Eof) else Writing(d.source[d.read..d.read + n], 0));
    case Writing(chunk, done) =>
      d' := d.(written := d.written + chunk[done..|chunk|], pc := Selecting, copied := d.copied + |chunk|);
  }

  function With(s: State, side: Side, d: Direction): State {
    if side.AToB? then s.(aToB := d) else s.(bToA := d)
  }

  /** One direction alone goes on until it has finished, and cancels the other. */
  lemma {:induction false} SideFinishes(states: seq<State>, actions: seq<Action>, a: Bytes, b: Bytes, s: State, side: Side)
      returns (states': seq<State>, actions': seq<Action>, s': State)
    requires CopyRun(states, actions, a, b) && s == states[|states| - 1]
    ensures CopyRun(states', actions', a, b) && states <= states' && s' == states'[|states'| - 1]
    ensures Of(s', side).pc.Finished? && Of(s', Other(side)) == Of(s, Other(side)) && s'.cancelled
    ensures !Over(Of(s, side)) ==> Of(s', side).pc.ending == if s.cancelled then Cancelled else Eof
    ensures Over(Of(s, side)) ==> Of(s', side).pc.ending == Of(s, side).pc.ending
    decreases Left(Of(s, side))
  {
    RunKeepsInv(states, actions, a, b, |states| - 1);
    var d := Of(s, side);
    if d.pc.Finished? {
      return states, actions, s;
    }
    var act: Action, m: State;
    if d.pc.Returning? {
      act, m := Cancel(side), With(s, side, d.(pc := Finished(d.pc.ending))).(cancelled := true);
    } else {
      var d' := UnfailingStep(d, s.cancelled);
      act, m := Advance(side, Unfailing(d)), With(s, side, d');
    }
    Extend(Next, states, actions, act, m);
    states', actions', s' := SideFinishes(states + [m], actions + [act], a, b, m, side);
  }

  /**
   * From every reachable state both directions can finish; from the start so that
   * everything one side ever sends is delivered and counted, with no error.
   */
  lemma EveryCopyCanFinish(states: seq<State>, actions: seq<Action>, a: Bytes, b: Bytes, side: Side)
      returns (states': seq<State>, actions': seq<Action>)
    requires CopyRun(states, actions, a, b)
    ensures CopyRun(states', actions', a, b) && states <= states'
    ensures var s := states'[|states'| - 1];
            && s.aToB.pc.Finished? && s.bToA.pc.Finished?
            && (states == [Init(a, b)] ==>
                  && Outcome(s).1 == None
                  && Of(s, side).written == (if side.AToB? then a else b)
                  && (if side.AToB? then Outcome(s).0.aToBBytes == |a| else Outcome(s).0.bToABytes == |b|))
  {
    var s := states[|states| - 1];
    states', actions', s := SideFinishes(states, actions, a, b, s, side);
    states', actions', s := SideFinishes(states', actions', a, b, s, Other(side));
    OneSideEndsItself(states', actions', a, b, |states'| - 1);
    RunKeepsInv(states', actions', a, b, |states'| - 1);
  }
}
