/**
 * `copy_with_cancel` as it is written in crates/ombrac-transport/src/io.rs, with
 * the token cancelled by others at any moment.
 */
module CopyMethods {
  import opened Base
  import opened Runs
  import opened Streams
  import opened CopyLoop

  class Token {
    var cancelled: bool

    /** Time passes at an await point; others may cancel. */
    method Await()
      modifies this
      ensures old(cancelled) ==> cancelled
    {
      var now: bool :| true;
      cancelled := cancelled || now;
    }
  }

  /** What the token and the environment were at one step. */
  datatype Turn = Turn(cancelled: bool, event: Event)

  predicate TurnStep(d: Direction, t: Turn, d': Direction) {
    CopyStep(d, t.cancelled, t.event, d')
  }

  /** A run of one direction of the interleaved model. */
  ghost predicate Reached(source: Bytes, d: Direction) {
    Reaches(TurnStep, Begin(source), d)
  }

  predicate OkFrom(d: Direction, source: Bytes) {
    DirectionOk(d) && d.source == source
  }

  lemma ReachedOk(source: Bytes, d: Direction)
    requires Reached(source, d)
    ensures DirectionOk(d) && d.source == source
  {
    var ds, turns :| IsRun(TurnStep, ds, turns) && ds[0] == Begin(source) && ds[|ds| - 1] == d;
    forall x, t: Turn, y | OkFrom(x, source) && TurnStep(x, t, y)
      ensures OkFrom(y, source)
    {
      StepKeeps(x, t.cancelled, t.event, y);
    }
    RunKeeps(TurnStep, x => OkFrom(x, source), ds, turns, 0, |ds| - 1);
  }

  /** The streams stand where direction `d` has got to since they stood at `from` and `before`. */
  ghost predicate At(d: Direction, read: Reader, write: Writer, from: nat, before: Bytes)
    reads read, write
  {
    && from <= read.pos <= |read.source|
    && d.source == read.source[from..] && d.read == read.pos - from
    && write.written == before + d.written
  }

  /** Writes one chunk; the direction is back at its `select!` unless the writer failed. */
  method WriteChunk(chunk: Bytes, write: Writer, read: Reader, ghost d: Direction, ghost from: nat, ghost before: Bytes)
    returns (error: Option<ErrorKind>, ghost d': Direction)
    requires d.pc == Writing(chunk, 0) && |chunk| > 0 && At(d, read, write, from, before)
    requires Reached(d.source, d)
    modifies write
    ensures At(d', read, write, from, before) && Reached(d.source, d')
    ensures error.None? ==> d' == d.(pc := Selecting, written := d.written + chunk, copied := d.copied + |chunk|)
    ensures error.Some? ==> d'.pc == Returning(WriteFailed(error.value)) && d'.copied == d.copied && d'.source == d.source
    ensures write.failures == if error.Some? then old(write.failures) + [error.value] else old(write.failures)
  {
    error := write.WriteAll(chunk);
    if error.None? {
      d' := d.(pc := Selecting, written := d.written + chunk, copied := d.copied + |chunk|);
      assert chunk[0..|chunk|] == chunk;
      ReachesNext(TurnStep, Begin(d.source), d, Turn(false, Accept(|chunk|)), d');
    } else {
      ghost var k: nat :| k < |chunk| && write.written == old(write.written) + chunk[..k];
      ghost var part := d;
      if k > 0 {
        part := d.(pc := Writing(chunk, k), written := d.written + chunk[..k]);
        ReachesNext(TurnStep, Begin(d.source), d, Turn(false, Accept(k)), part);
      }
      d' := part.(pc := Returning(WriteFailed(error.value)));
      ReachesNext(TurnStep, Begin(d.source), part, Turn(false, WriteFails(error.value)), d');
    }
  }

  lemma SliceOfRest(source: Bytes, from: nat, at: nat, n: nat)
    requires from <= at && at + n <= |source|
    ensures source[from..][at - from..at - from + n] == source[at..at + n]
  {
  }

  /** What the `select!` leads to: a chunk to write, leaving the loop, or an error. */
  datatype Selected = Chunk(data: Bytes) | Break | Fail(kind: ErrorKind)

  /** Since `before` the reader has reported exactly the failure the direction ended with, if any. */
  predicate ReadsReported(d: Direction, before: seq<ErrorKind>, after: seq<ErrorKind>) {
    if Over(d) && d.pc.ending.PeerReset?
    then after == before + [ConnectionReset] || after == before + [ConnectionAborted]
    else if Over(d) && d.pc.ending.ReadFailed? then after == before + [d.pc.ending.kind]
    else after == before
  }

  predicate WritesReported(d: Direction, before: seq<ErrorKind>, after: seq<ErrorKind>) {
    if Over(d) && d.pc.ending.WriteFailed? then after == before + [d.pc.ending.kind] else after == before
  }

  method SelectRead(read: Reader, write: Writer, token: Token, ghost d: Direction, ghost from: nat, ghost before: Bytes)
    returns (next: Selected, ghost d': Direction)
    requires d.pc.Selecting? && At(d, read, write, from, before) && Reached(d.source, d)
    modifies read, token
    ensures At(d', read, write, from, before) && Reached(d.source, d')
    ensures d' == d.(pc := d'.pc, read := d'.read)
    ensures next.Chunk? ==> |next.data| > 0 && d'.pc == Writing(next.data, 0) && read.pos > old(read.pos)
    ensures next.Break? ==>
      d'.pc.Returning? && Failure(d'.pc.ending).None? && (d'.pc.ending.Cancelled? ==> token.cancelled)
    ensures next.Fail? ==>
      d'.pc == Returning(ReadFailed(next.kind)) && next.kind != ConnectionReset && next.kind != ConnectionAborted
    ensures ReadsReported(d', old(read.failures), read.failures)
  {
    token.Await();
    if token.cancelled {
      d' := d.(pc := Returning(Cancelled));
      ReachesNext(TurnStep, Begin(d.source), d, Turn(true, ReadReset), d');
      return Break, d';
    }
    ghost var at := read.pos;
    var r := read.Read(DEFAULT_BUF_SIZE);
    match r {
      case ReadError(kind) =>
        if kind == ConnectionReset || kind == ConnectionAborted {
          d' := d.(pc := Returning(PeerReset));
          ReachesNext(TurnStep, Begin(d.source), d, Turn(false, ReadReset), d');
          next := Break;
        } else {
          d' := d.(pc := Returning(ReadFailed(kind)));
          ReachesNext(TurnStep, Begin(d.source), d, Turn(false, ReadFails(kind)), d');
          next := Fail(kind);
        }
      case Read(data) =>
        var n := |data|;
        SliceOfRest(read.source, from, at, n);
        d' := d.(read := d.read + n, pc := if n == 0 then Returning(Eof) else Writing(data, 0));
        ReachesNext(TurnStep, Begin(d.source), d, Turn(false, ReadBytes(n)), d');
        next := if n == 0 then Break else Chunk(data);
    }
  }

  /** What `copy_with_cancel` returns for a direction that has ended. */
  predicate ReturnsFor(result: Result<nat, (ErrorKind, nat)>, d: Direction) {
    && Over(d)
    && result == match d.pc.ending
                 case ReadFailed(kind) => Err((kind, d.copied))
                 case WriteFailed(kind) => Err((kind, d.copied))
                 case _ => Ok(d.copied)
  }

  /** An error that ended the direction is one of its streams', and a reset is not an error. */
  predicate Honest(d: Direction, readErrors: seq<ErrorKind>, readErrors': seq<ErrorKind>,
                   writeErrors: seq<ErrorKind>, writeErrors': seq<ErrorKind>) {
    && ReadsReported(d, readErrors, readErrors') && WritesReported(d, writeErrors, writeErrors')
    && (Over(d) && d.pc.ending.ReadFailed? ==>
          d.pc.ending.kind != ConnectionReset && d.pc.ending.kind != ConnectionAborted)
  }

  /** The loop of `copy_with_cancel`. */
  method CopyUntilEnd(read: Reader, write: Writer, token: Token, ghost begun: Direction, ghost from: nat, ghost before: Bytes)
    returns (result: Result<nat, (ErrorKind, nat)>, ghost d: Direction)
    requires begun.pc.Selecting? && begun.copied == 0 && At(begun, read, write, from, before)
    requires Reached(begun.source, begun)
    modifies read, write, token
    ensures At(d, read, write, from, before) && Reached(begun.source, d) && d.pc.Returning? && ReturnsFor(result, d)
    ensures d.pc.ending.Cancelled? ==> token.cancelled
    ensures Honest(d, old(read.failures), read.failures, old(write.failures), write.failures)
  {
    d := begun;
    var copied := 0;
    while true
      invariant At(d, read, write, from, before) && d.source == begun.source
      invariant Reached(begun.source, d) && d.copied == copied && d.pc.Selecting?
      invariant read.failures == old(read.failures) && write.failures == old(write.failures)
      decreases |read.source| - read.pos
    {
      var next;
      next, d := SelectRead(read, write, token, d, from, before);
      match next {
        case Break => return Ok(copied), d;
        case Fail(kind) => return Err((kind, copied)), d;
        case Chunk(data) =>
          var error;
          error, d := WriteChunk(data, write, read, d, from, before);
          if error.Some? {
            return Err((error.value, copied)), d;
          }
          copied := copied + |data|;
      }
    }
  }

  /**
   * `copy_with_cancel`: ends as a run of the model does, with a failure only if a
   * stream reported it. On success all that was read has been written and counted;
   * if nothing was cancelled and no stream failed that is everything. On an error
   * the count never exceeds what was written.
   */
  method CopyWithCancel(read: Reader, write: Writer, token: Token)
    returns (result: Result<nat, (ErrorKind, nat)>, ghost d: Direction)
    requires read.Valid()
    modifies read, write, token
    ensures read.Valid() && At(d, read, write, old(read.pos), old(write.written))
    ensures Reached(old(read.Rest()), d) && d.pc.Returning? && DirectionOk(d) && ReturnsFor(result, d)
    ensures result.Ok? ==>
      && result.value <= |old(read.Rest())|
      && write.written == old(write.written) + old(read.Rest())[..result.value]
      && read.Rest() == old(read.Rest())[result.value..]
    ensures old(token.cancelled) ==> result == Ok(0) && write.written == old(write.written)
    ensures d.pc.ending.Cancelled? ==> token.cancelled
    ensures d.pc.ending.Eof? ==> write.written == old(write.written) + old(read.Rest())
    ensures Honest(d, old(read.failures), read.failures, old(write.failures), write.failures)
    ensures !token.cancelled && read.failures == old(read.failures) && write.failures == old(write.failures) ==>
      result == Ok(|old(read.Rest())|) && write.written == old(write.written) + old(read.Rest())
  {
    ghost var source := read.Rest();
    ReachesSelf<Direction, Turn>(TurnStep, Begin(source));
    if token.cancelled {
      d := Begin(source).(pc := Returning(Cancelled));
      ReachesNext(TurnStep, Begin(source), Begin(source), Turn(true, ReadReset), d);
      ReachedOk(source, d);
      return Ok(0), d;
    }
    ghost var begun := Begin(source).(pc := Selecting);
    ReachesNext(TurnStep, Begin(source), Begin(source), Turn(false, ReadReset), begun);
    result, d := CopyUntilEnd(read, write, token, begun, read.pos, write.written);
    ReachedOk(source, d);
    Unfailing(d, old(read.failures), read.failures, old(write.failures), write.failures);
  }

  /** With no failure reported and nothing cancelled, the direction ended at the end of its source. */
  lemma Unfailing(d: Direction, readErrors: seq<ErrorKind>, readErrors': seq<ErrorKind>,
                  writeErrors: seq<ErrorKind>, writeErrors': seq<ErrorKind>)
    requires Honest(d, readErrors, readErrors', writeErrors, writeErrors') && d.pc.Returning?
    ensures readErrors' == readErrors && writeErrors' == writeErrors ==> d.pc.ending.Eof? || d.pc.ending.Cancelled?
    ensures readErrors' != readErrors ==>
      && |readErrors'| > 0
      && (d.pc.ending.PeerReset? <==>
            readErrors'[|readErrors'| - 1] == ConnectionReset || readErrors'[|readErrors'| - 1] == ConnectionAborted)
  {
    assert readErrors' == readErrors || (|readErrors'| == |readErrors| + 1);
    assert writeErrors' == writeErrors || |writeErrors'| == |writeErrors| + 1;
  }
}
