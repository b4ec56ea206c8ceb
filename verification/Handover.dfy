/**
 * From the framed handshake to raw bytes, on the server
 * (crates/ombrac-server/src/connection/stream.rs) and on the client
 * (crates/ombrac-client/src/connection/mod.rs and stream.rs).
 */
module Handover {
  import opened Base
  import opened Streams
  import opened LengthCodec
  import opened FramedStream
  import opened CopyLoop
  import opened CopyMethods

  /** The raw bytes that follow the first frame. */
  function Payload(stream: Bytes): Bytes {
    if ParseFirst(stream).Frame? then stream[ParseFirst(stream).size..] else []
  }

  /** A peer that sends one encoded message and then raw bytes is read back as exactly these. */
  lemma PayloadFollowsFrame(message: Bytes, payload: Bytes)
    requires EncodeFrame(message).Some?
    ensures Payload(EncodeFrame(message).value + payload) == payload
    ensures ParseFirst(EncodeFrame(message).value + payload) == Frame(message, LENGTH_PREFIX_SIZE + |message|)
  {
    FirstOfEncoded(message, payload);
  }

  // --- The server ---

  type Destination = string

  /** What a handshake frame decodes to. */
  datatype Message = Connect(destination: Destination) | OtherMessage | Undecodable

  datatype ServerError =
    | NoRequest(next: Next)
    | UnexpectedMessage
    | ResponseNotSent
    | NotConnected
    | ExchangeFailed(kind: ErrorKind)

  class StreamGuard {
    var destination: Option<Destination>
    var initialUpstreamBytes: nat
    var upstreamBytes: Option<nat>

    constructor ()
      ensures destination == None && initialUpstreamBytes == 0 && upstreamBytes == None
    {
      destination, initialUpstreamBytes, upstreamBytes := None, 0, None;
    }
  }

  /** `read_connect_message`: the destination named by the first frame. */
  method ReadConnectMessage(framed: Framed, decode: Bytes -> Message) returns (r: Result<Destination, ServerError>)
    requires framed.Valid()
    modifies framed, framed.io
    ensures framed.Valid()
    ensures r.Ok? ==>
      && framed.state.Head? && ParseFirst(old(framed.Unread())).Frame?
      && decode(ParseFirst(old(framed.Unread())).payload) == Connect(r.value)
      && framed.readBuf + framed.io.Rest() == Payload(old(framed.Unread()))
    ensures r.Err? && r.error.UnexpectedMessage? ==>
      && ParseFirst(old(framed.Unread())).Frame?
      && !decode(ParseFirst(old(framed.Unread())).payload).Connect?
    ensures r.Err? ==> r.error.UnexpectedMessage? || (r.error.NoRequest? && !r.error.next.Payload?)
    ensures r.Err? && r.error.NoRequest? && !r.error.next.Failed? ==> !ParseFirst(old(framed.Unread())).Frame?
    ensures framed.io.failures ==
      if r.Err? && r.error.NoRequest? && r.error.next.Failed? then old(framed.io.failures) + [r.error.next.kind]
      else old(framed.io.failures)
  {
    var next := framed.Next();
    if !next.Payload? {
      return Err(NoRequest(next));
    }
    match decode(next.payload) {
      case Connect(destination) => return Ok(destination);
      case _ => return Err(UnexpectedMessage);
    }
  }

  /** How the copy ended that followed the first `initial` bytes of the payload. */
  ghost predicate CopyOf(d: Direction, payload: Bytes, initial: nat, sent: nat, token: Token)
    reads token
  {
    && initial <= |payload| && Reached(payload[initial..], d) && d.pc.Returning?
    && sent == initial + |d.written|
    && (d.pc.ending.Cancelled? ==> token.cancelled)
    && (d.pc.ending.Eof? ==> sent == |payload|)
  }

  /** Neither stream has reported a failure since, and nobody has cancelled. */
  ghost predicate NoFailure(
    io: Reader, dest: Writer, token: Token, readErrors: seq<ErrorKind>, writeErrors: seq<ErrorKind>)
    reads io, dest, token
  {
    io.failures == readErrors && dest.failures == writeErrors && !token.cancelled
  }

  method ForwardBuffered(readBuf: Bytes, dest: Writer) returns (error: Option<ErrorKind>, ghost sent: nat)
    modifies dest
    ensures sent <= |readBuf| && dest.written == old(dest.written) + readBuf[..sent]
    ensures error.None? ==> sent == |readBuf|
    ensures dest.failures == if error.Some? then old(dest.failures) + [error.value] else old(dest.failures)
  {
    sent := 0;
    if |readBuf| > 0 {
      error := dest.WriteAll(readBuf);
      if error.None? {
        sent := |readBuf|;
      } else {
        sent :| sent < |readBuf| && dest.written == old(dest.written) + readBuf[..sent];
      }
    } else {
      error := None;
    }
  }

  /**
   * The upstream half of `exchange_data`: what the framed reader had buffered goes
   * first, then the copy, so the destination receives a prefix of the raw bytes.
   */
  method ExchangeData(framed: Framed, dest: Writer, guard: StreamGuard, token: Token)
    returns (error: Option<ErrorKind>, ghost sent: nat, ghost copy: Option<Direction>)
    requires framed.Valid() && framed.state.Head?
    modifies framed.io, dest, guard`initialUpstreamBytes, guard`upstreamBytes, token
    ensures var payload := old(framed.readBuf) + old(framed.io.Rest());
            && sent <= |payload| && dest.written == old(dest.written) + payload[..sent]
            && (error.None? ==> guard.upstreamBytes.Some? && sent == guard.initialUpstreamBytes + guard.upstreamBytes.value)
            && (error.None? ==> copy.Some? && copy.value.pc.Returning? && Failure(copy.value.pc.ending).None?)
            && (error.Some? && copy.Some? ==> copy.value.pc.Returning? && Failure(copy.value.pc.ending) == error)
            && (NoFailure(framed.io, dest, token, old(framed.io.failures), old(dest.failures)) ==>
                  error.None? && sent == |payload|)
    ensures error.Some? ==>
      || framed.io.failures == old(framed.io.failures) + [error.value]
      || dest.failures == old(dest.failures) + [error.value]
    ensures copy.Some? ==>
      CopyOf(copy.value, old(framed.readBuf) + old(framed.io.Rest()), |old(framed.readBuf)|, sent, token)
    ensures guard.initialUpstreamBytes == |old(framed.readBuf)|
    ensures guard.upstreamBytes.Some? && old(guard.upstreamBytes).None? ==>
      guard.initialUpstreamBytes + guard.upstreamBytes.value <= sent
  {
    var readBuf := framed.readBuf;
    ghost var rest := framed.io.Rest();
    ghost var payload := readBuf + rest;
    guard.initialUpstreamBytes := |readBuf|;
    sent, copy := 0, None;
    error, sent := ForwardBuffered(readBuf, dest);
    assert payload[..sent] == readBuf[..sent];
    if error.Some? {
      return;
    }
    var result;
    ghost var d;
    result, d := CopyWithCancel(framed.io, dest, token);
    ReachedOk(rest, d);
    sent, copy := |readBuf| + |d.written|, Some(d);
    PrefixOfJoin(readBuf, rest, |d.written|);
    assert payload[|readBuf|..] == rest;
    assert dest.written == old(dest.written) + payload[..sent];
    match result {
      case Ok(copied) =>
        guard.upstreamBytes := Some(copied);
        error := None;
      case Err((kind, copied)) =>
        guard.upstreamBytes := Some(copied);
        error := Some(kind);
    }
  }

  lemma PrefixOfJoin(a: Bytes, b: Bytes, k: nat)
    requires k <= |b|
    ensures (a + b)[..|a| + k] == a + b[..k]
  {
  }

  /**
   * `handle_connect`, upstream: whatever the reads yield, nothing reaches a
   * destination before the handshake is over, and then exactly a prefix of the
   * raw bytes does; all of them, and without an error, if no stream failed and
   * nobody cancelled.
   */
  method HandleConnect(
    io: Reader, dest: Writer, guard: StreamGuard, token: Token,
    decode: Bytes -> Message, connects: bool, responds: bool)
    returns (error: Option<ServerError>, ghost sent: nat, ghost copy: Option<Direction>)
    requires io.Valid()
    modifies io, dest, guard, token
    ensures sent <= |Payload(old(io.Rest()))|
    ensures dest.written == old(dest.written) + Payload(old(io.Rest()))[..sent]
    ensures sent > 0 || error.None? ==>
      && connects && responds && ParseFirst(old(io.Rest())).Frame?
      && decode(ParseFirst(old(io.Rest())).payload).Connect?
      && guard.destination == Some(decode(ParseFirst(old(io.Rest())).payload).destination)
    ensures error.None? ==> guard.upstreamBytes.Some? && sent == guard.initialUpstreamBytes + guard.upstreamBytes.value
    ensures error.None? ==> copy.Some? && copy.value.pc.Returning? && Failure(copy.value.pc.ending).None?
    ensures copy.Some? ==> CopyOf(copy.value, Payload(old(io.Rest())), guard.initialUpstreamBytes, sent, token)
    ensures copy.Some? && copy.value.pc == Returning(Eof) ==>
      dest.written == old(dest.written) + Payload(old(io.Rest()))
    ensures match error
            case None => true
            case Some(NoRequest(next)) =>
              if next.Failed? then io.failures == old(io.failures) + [next.kind]
              else !ParseFirst(old(io.Rest())).Frame?
            case Some(UnexpectedMessage) =>
              ParseFirst(old(io.Rest())).Frame? && !decode(ParseFirst(old(io.Rest())).payload).Connect?
            case Some(ResponseNotSent) => !responds
            case Some(NotConnected) => !connects && responds
            case Some(ExchangeFailed(kind)) =>
              || io.failures == old(io.failures) + [kind]
              || dest.failures == old(dest.failures) + [kind]
    ensures (connects && responds && NoFailure(io, dest, token, old(io.failures), old(dest.failures))
             && ParseFirst(old(io.Rest())).Frame? && decode(ParseFirst(old(io.Rest())).payload).Connect?) ==>
      error.None? && dest.written == old(dest.written) + Payload(old(io.Rest()))
  {
    sent, copy := 0, None;
    var framed := new Framed(io);
    error := Admit(framed, guard, decode, connects, responds);
    if error.Some? {
      return;
    }
    error, sent, copy := ForwardUpstream(framed, dest, guard, token, Payload(old(io.Rest())));
  }

  /** The steps of `handle_connect` before the exchange; an error ends it here. */
  method Admit(framed: Framed, guard: StreamGuard, decode: Bytes -> Message, connects: bool, responds: bool)
    returns (refused: Option<ServerError>)
    requires framed.Valid()
    modifies framed, framed.io, guard`destination
    ensures framed.Valid()
    ensures var first := ParseFirst(old(framed.Unread()));
            && (refused.None? ==>
                  && framed.state.Head? && framed.readBuf + framed.io.Rest() == Payload(old(framed.Unread()))
                  && connects && responds && first.Frame? && decode(first.payload).Connect?
                  && guard.destination == Some(decode(first.payload).destination)
                  && framed.io.failures == old(framed.io.failures))
            && (match refused
                case None => true
                case Some(NoRequest(next)) =>
                  if next.Failed? then framed.io.failures == old(framed.io.failures) + [next.kind] else !first.Frame?
                case Some(UnexpectedMessage) => first.Frame? && !decode(first.payload).Connect?
                case Some(ResponseNotSent) => !responds
                case Some(NotConnected) => !connects && responds
                case Some(ExchangeFailed(_)) => false)
  {
    var request := ReadConnectMessage(framed, decode);
    if request.Err? {
      return Some(request.error);
    }
    guard.destination := Some(request.value);
    if !responds {
      return Some(ResponseNotSent);
    }
    if !connects {
      return Some(NotConnected);
    }
    return None;
  }

  /** The exchange, as `handle_connect` reports it. */
  method ForwardUpstream(framed: Framed, dest: Writer, guard: StreamGuard, token: Token, ghost payload: Bytes)
    returns (error: Option<ServerError>, ghost sent: nat, ghost copy: Option<Direction>)
    requires framed.Valid() && framed.state.Head? && framed.readBuf + framed.io.Rest() == payload
    modifies framed.io, dest, guard`initialUpstreamBytes, guard`upstreamBytes, token
    ensures sent <= |payload| && dest.written == old(dest.written) + payload[..sent]
    ensures error.None? ==>
      && guard.upstreamBytes.Some? && sent == guard.initialUpstreamBytes + guard.upstreamBytes.value
      && copy.Some? && copy.value.pc.Returning? && Failure(copy.value.pc.ending).None?
    ensures copy.Some? ==> CopyOf(copy.value, payload, guard.initialUpstreamBytes, sent, token)
    ensures copy.Some? && copy.value.pc == Returning(Eof) ==> dest.written == old(dest.written) + payload
    ensures error.Some? ==>
      && error.value.ExchangeFailed?
      && (framed.io.failures == old(framed.io.failures) + [error.value.kind]
          || dest.failures == old(dest.failures) + [error.value.kind])
    ensures NoFailure(framed.io, dest, token, old(framed.io.failures), old(dest.failures)) ==>
      error.None? && dest.written == old(dest.written) + payload
  {
    var failed;
    failed, sent, copy := ExchangeData(framed, dest, guard, token);
    error := if failed.Some? then Some(ExchangeFailed(failed.value)) else None;
    assert payload[..|payload|] == payload;
  }

  // --- Both directions ---

  /**
   * `exchange_data` after `initial` leftover bytes went first, at every moment of
   * the copy, so also where a shutdown drops it in the middle of a write: the
   * destination has a prefix of the raw bytes and the client one of the answer.
   */
  lemma ExchangeInOrder(
    payload: Bytes, initial: nat, answer: Bytes, states: seq<CopyLoop.State>, actions: seq<CopyLoop.Action>, i: nat)
    requires initial <= |payload| && CopyRun(states, actions, payload[initial..], answer) && i < |states|
    ensures var up, down := states[i].aToB.written, states[i].bToA.written;
            && initial + |up| <= |payload| && payload[..initial] + up == payload[..initial + |up|]
            && |down| <= |answer| && down == answer[..|down|]
  {
    WriterHasPrefix(states, actions, payload[initial..], answer, i, AToB);
    WriterHasPrefix(states, actions, payload[initial..], answer, i, BToA);
    PrefixOfJoin(payload[..initial], payload[initial..], |states[i].aToB.written|);
    assert payload[..initial] + payload[initial..] == payload;
  }

  /**
   * What the exchange reports when it is over: without an error, leftover and
   * stats together count exactly what reached the destination, and the stats
   * what reached the client; a side that came to its end delivered everything.
   */
  lemma ExchangeCountsExactly(
    payload: Bytes, initial: nat, answer: Bytes, states: seq<CopyLoop.State>, actions: seq<CopyLoop.Action>, i: nat)
    requires initial <= |payload| && CopyRun(states, actions, payload[initial..], answer) && i < |states|
    requires states[i].aToB.pc.Finished? && states[i].bToA.pc.Finished?
    ensures var s := states[i];
            var (stats, error) := Outcome(s);
            && (error.None? ==>
                  && initial + stats.aToBBytes <= |payload| && stats.bToABytes <= |answer|
                  && payload[..initial] + s.aToB.written == payload[..initial + stats.aToBBytes]
                  && s.bToA.written == answer[..stats.bToABytes])
            && (s.aToB.pc.ending.Eof? ==> payload[..initial] + s.aToB.written == payload)
            && (s.bToA.pc.ending.Eof? ==> s.bToA.written == answer)
  {
    ExchangeInOrder(payload, initial, answer, states, actions, i);
    OutcomeIsExact(states, actions, payload[initial..], answer, i);
    OneSideEndsItself(states, actions, payload[initial..], answer, i);
    assert payload[..initial] + payload[initial..] == payload;
  }

  /**
   * End to end: the client's stream carries the response frame and then what the
   * exchange wrote, so its application reads a prefix of the destination's answer.
   */
  lemma ClientReadsAnswer(
    response: Bytes, payload: Bytes, initial: nat, answer: Bytes,
    states: seq<CopyLoop.State>, actions: seq<CopyLoop.Action>, i: nat)
    requires EncodeFrame(response).Some?
    requires initial <= |payload| && CopyRun(states, actions, payload[initial..], answer) && i < |states|
    ensures var down := states[i].bToA.written;
            && |down| <= |answer| && Payload(EncodeFrame(response).value + down) == answer[..|down|]
  {
    ExchangeInOrder(payload, initial, answer, states, actions, i);
    PayloadFollowsFrame(response, states[i].bToA.written);
  }

  // --- The client ---

  class BufferedStream {
    const stream: Reader
    var buffer: Bytes
    var bufferPos: nat

    predicate Valid()
      reads this, stream
    {
      stream.Valid() && bufferPos <= |buffer|
    }

    /** All that is still to be read. */
    function Remaining(): Bytes
      requires Valid()
      reads this, stream
    {
      buffer[bufferPos..] + stream.Rest()
    }

    constructor (stream: Reader, buffer: Bytes)
      requires stream.Valid()
      ensures Valid() && this.stream == stream && Remaining() == buffer + stream.Rest()
    {
      this.stream, this.buffer, this.bufferPos := stream, buffer, 0;
    }

    /**
     * `poll_read`: the next bytes, first of the buffer and then of the stream; none
     * only at the end of both. A failed read loses nothing.
     */
    method PollRead(room: nat) returns (r: ReadResult)
      requires Valid()
      modifies this, stream
      ensures Valid()
      ensures r.Read? ==>
        && |r.data| <= room && r.data + Remaining() == old(Remaining())
        && (|r.data| == 0 && room > 0 ==> Remaining() == [])
        && (old(bufferPos) < |old(buffer)| ==> |r.data| == Min(|old(buffer)| - old(bufferPos), room))
      ensures r.ReadError? ==> Remaining() == old(Remaining()) && old(bufferPos) >= |old(buffer)|
      ensures stream.failures == if r.ReadError? then old(stream.failures) + [r.kind] else old(stream.failures)
    {
      if bufferPos < |buffer| {
        ghost var all := Remaining();
        var toCopy := Min(|buffer| - bufferPos, room);
        var out := [];
        if toCopy > 0 {
          out := buffer[bufferPos..bufferPos + toCopy];
          bufferPos := bufferPos + toCopy;
        }
        assert out + buffer[bufferPos..] == old(buffer)[old(bufferPos)..];
        if bufferPos >= |buffer| {
          buffer := [];
          bufferPos := 0;
        }
        assert out + buffer[bufferPos..] == old(buffer)[old(bufferPos)..];
        return ReadResult.Read(out);
      }
      r := stream.Read(room);
    }

    /**
     * Reads of any sizes, one after another, until one fails: together they yield
     * the next bytes in order, and one yields none only after all the rest.
     */
    method ReadMany(rooms: seq<nat>) returns (outs: seq<Bytes>)
      requires Valid()
      modifies this, stream
      ensures Valid() && |outs| <= |rooms|
      ensures Concat(outs) + Remaining() == old(Remaining())
      ensures forall i :: 0 <= i < |outs| && rooms[i] > 0 && |outs[i]| == 0 ==> Concat(outs) == old(Remaining())
    {
      outs := [];
      ghost var all, taken := Remaining(), [];
      ghost var drained := false;
      while |outs| < |rooms|
        invariant Valid() && |outs| <= |rooms|
        invariant taken == Concat(outs) && taken + Remaining() == all
        invariant drained ==> |Remaining()| == 0
        invariant forall i :: 0 <= i < |outs| && rooms[i] > 0 && |outs[i]| == 0 ==> drained
      {
        var room := rooms[|outs|];
        ghost var before := Remaining();
        var r := PollRead(room);
        if r.ReadError? {
          break;
        }
        drained := drained || (room > 0 && |r.data| == 0);
        TakeNext(taken, before, r.data, Remaining(), outs);
        taken, outs := taken + r.data, outs + [r.data];
      }
    }
  }

  lemma TakeNext(taken: Bytes, before: Bytes, data: Bytes, after: Bytes, outs: seq<Bytes>)
    requires before == data + after && taken == Concat(outs)
    ensures taken + before == (taken + data) + after && taken + data == Concat(outs + [data])
  {
    ConcatSnoc(outs, data);
  }

  datatype Response = Accepted | Refused(reason: string) | OtherResponse

  datatype ClientError =
    | RequestNotSent
    | NoResponse(next: Next)
    | UnexpectedResponse
    | WriteBufferNotEmpty(bytes: nat)
    | ConnectionRefused(reason: string)

  /**
   * `open_bidirectional` from the request on: the stream handed out yields exactly
   * the bytes after the response frame.
   */
  method OpenBidirectional(io: Reader, decode: Bytes -> Response, sends: bool, unsent: nat)
    returns (r: Result<BufferedStream, ClientError>)
    requires io.Valid()
    modifies io
    ensures r.Ok? ==>
      && fresh(r.value) && r.value.Valid() && r.value.stream == io
      && sends && unsent == 0 && ParseFirst(old(io.Rest())).Frame?
      && decode(ParseFirst(old(io.Rest())).payload) == Accepted
      && r.value.Remaining() == Payload(old(io.Rest()))
    ensures io.failures ==
      if r.Err? && r.error.NoResponse? && r.error.next.Failed? then old(io.failures) + [r.error.next.kind]
      else old(io.failures)
    ensures (sends && unsent == 0 && io.failures == old(io.failures) && ParseFirst(old(io.Rest())).Frame?
             && decode(ParseFirst(old(io.Rest())).payload) == Accepted) ==> r.Ok?
    ensures r.Err? && sends && unsent == 0 && ParseFirst(old(io.Rest())).Frame? ==>
      || (r.error.NoResponse? && r.error.next.Failed?)
      || (r.error == UnexpectedResponse && decode(ParseFirst(old(io.Rest())).payload) == OtherResponse)
      || (r.error.ConnectionRefused? && decode(ParseFirst(old(io.Rest())).payload) == Refused(r.error.reason))
  {
    if !sends {
      return Err(RequestNotSent);
    }
    var framed := new Framed(io);
    var next := framed.Next();
    if !next.Payload? {
      return Err(NoResponse(next));
    }
    var response := decode(next.payload);
    if response.OtherResponse? {
      return Err(UnexpectedResponse);
    }
    if unsent > 0 {
      return Err(WriteBufferNotEmpty(unsent));
    }
    if response.Refused? {
      return Err(ConnectionRefused(response.reason));
    }
    var stream := new BufferedStream(io, framed.readBuf);
    return Ok(stream);
  }
}
