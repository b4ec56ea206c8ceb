/**
 * The framed reader over a stream: `LengthDelimitedCodec` keeps the length of a
 * frame whose header it has consumed, `Framed` keeps the undecoded bytes.
 */
module FramedStream {
  import opened Base
  import opened LengthCodec
  import opened Streams

  datatype DecodeState = Head | Data(length: nat)

  datatype Decoded = NotYet | Complete(payload: Bytes) | TooLong

  datatype Next = Payload(payload: Bytes) | FrameTooLong | BytesRemaining | EndOfStream | Failed(kind: ErrorKind)

  class Framed {
    const io: Reader
    var state: DecodeState
    var readBuf: Bytes

    predicate Valid()
      reads this, io
    {
      io.Valid() && (state.Data? ==> state.length <= MAX_CONTROL_FRAME_LENGTH)
    }

    /** The bytes received since the last complete frame, header included. */
    function Pending(): Bytes
      requires Valid()
      reads this, io
    {
      if state.Data? then ToBe32(state.length) + readBuf else readBuf
    }

    function Unread(): Bytes
      requires Valid()
      reads this, io
    {
      Pending() + io.Rest()
    }

    constructor (io: Reader)
      requires io.Valid()
      ensures Valid() && this.io == io && state == Head && readBuf == [] && Unread() == io.Rest()
    {
      this.io := io;
      this.state, this.readBuf := Head, [];
    }

    /** `decode_head`: takes the header off the buffer if it is there and not oversize. */
    method DecodeHead() returns (tooLong: bool)
      requires Valid() && state.Head?
      modifies this
      ensures Valid() && Pending() == old(Pending())
      ensures tooLong <==> ParseFirst(old(readBuf)).Oversize?
      ensures state.Head? <==> tooLong || |old(readBuf)| < LENGTH_PREFIX_SIZE
    {
      if |readBuf| < LENGTH_PREFIX_SIZE {
        return false;
      }
      var head := readBuf[..LENGTH_PREFIX_SIZE];
      var n := FromBe32(head);
      if n > MAX_CONTROL_FRAME_LENGTH {
        return true;
      }
      Be32Unique(head);
      assert readBuf == head + readBuf[LENGTH_PREFIX_SIZE..];
      state, readBuf := Data(n), readBuf[LENGTH_PREFIX_SIZE..];
      return false;
    }

    /** `decode`: the first frame of the pending bytes once it is complete. */
    method Decode() returns (d: Decoded)
      requires Valid()
      modifies this
      ensures Valid()
      ensures d == match ParseFirst(old(Pending()))
                   case Incomplete => NotYet
                   case Oversize => TooLong
                   case Frame(payload, _) => Complete(payload)
      ensures d.Complete? ==> state.Head? && readBuf == old(Pending())[ParseFirst(old(Pending())).size..]
      ensures !d.Complete? ==> Pending() == old(Pending())
      ensures d.NotYet? && state.Head? ==> |readBuf| < LENGTH_PREFIX_SIZE
    {
      if state.Head? {
        var tooLong := DecodeHead();
        if tooLong {
          return TooLong;
        }
        if state.Head? {
          return NotYet;
        }
      }
      Be32RoundTrip(state.length);
      assert Pending()[..LENGTH_PREFIX_SIZE] == ToBe32(state.length);
      var n := state.length;
      if |readBuf| < n {
        return NotYet;
      }
      assert Pending()[LENGTH_PREFIX_SIZE..LENGTH_PREFIX_SIZE + n] == readBuf[..n];
      assert Pending()[LENGTH_PREFIX_SIZE + n..] == readBuf[n..];
      d := Complete(readBuf[..n]);
      state, readBuf := Head, readBuf[n..];
    }

    /** Takes one read into the buffer; no bytes means the stream has ended. */
    method Fill() returns (r: ReadResult)
      requires Valid()
      modifies this`readBuf, io
      ensures Valid() && Unread() == old(Unread())
      ensures r.Read? && |r.data| > 0 ==> |io.Rest()| < |old(io.Rest())|
      ensures r.Read? && |r.data| == 0 ==> |io.Rest()| == 0
      ensures r.ReadError? || |r.data| == 0 ==> readBuf == old(readBuf)
      ensures io.failures == if r.ReadError? then old(io.failures) + [r.kind] else old(io.failures)
    {
      var room: int :| room > 0;
      ghost var pending := Pending();
      r := io.Read(room);
      if r.Read? {
        readBuf := readBuf + r.data;
        assert Pending() == pending + r.data;
        assert pending + r.data + io.Rest() == pending + (r.data + io.Rest());
      }
    }

    /**
     * `next`: reads until the first frame of the stream is decided. Unless a read
     * fails, the answer and what is left depend on the bytes alone, not on how
     * the reads cut them. A stream that ends right after a header counts as
     * ended cleanly.
     */
    method Next() returns (next: Next)
      requires Valid()
      modifies this, io
      ensures Valid()
      ensures next.Payload? ==>
        && state.Head? && ParseFirst(old(Unread())).Frame? && next.payload == ParseFirst(old(Unread())).payload
        && readBuf + io.Rest() == old(Unread())[ParseFirst(old(Unread())).size..]
      ensures next.FrameTooLong? ==> ParseFirst(old(Unread())).Oversize?
      ensures next.BytesRemaining? || next.EndOfStream? ==>
        && ParseFirst(old(Unread())).Incomplete?
        && (next.EndOfStream? <==> |old(Unread())| == 0 || |old(Unread())| == LENGTH_PREFIX_SIZE)
      ensures !next.Payload? ==> Unread() == old(Unread())
      ensures io.failures == if next.Failed? then old(io.failures) + [next.kind] else old(io.failures)
    {
      ghost var all := Unread();
      while true
        invariant Valid() && Unread() == all && io.failures == old(io.failures)
        decreases |io.Rest()|
      {
        var answer := DecodeNow(all);
        if answer.Some? {
          return answer.value;
        }
        var r := Fill();
        if r.ReadError? {
          return Failed(r.kind);
        }
        if |r.data| == 0 {
          var last := DecodeNow(all);
          if last.Some? {
            return last.value;
          }
          assert Pending() == all;
          return if |readBuf| == 0 then EndOfStream else BytesRemaining;
        }
      }
    }

    method DecodeNow(ghost all: Bytes) returns (answer: Option<Next>)
      requires Valid() && Unread() == all
      modifies this
      ensures Valid()
      ensures answer.None? ==> ParseFirst(Pending()).Incomplete?
      ensures answer.None? && state.Head? ==> |readBuf| < LENGTH_PREFIX_SIZE
      ensures answer.None? || !answer.value.Payload? ==> Unread() == all
      ensures answer.Some? ==>
        && (answer.value.Payload? || answer.value.FrameTooLong?)
        && (answer.value.FrameTooLong? ==> ParseFirst(all).Oversize?)
        && (answer.value.Payload? ==>
              && state.Head? && ParseFirst(all).Frame? && answer.value.payload == ParseFirst(all).payload
              && readBuf + io.Rest() == all[ParseFirst(all).size..])
    {
      ghost var pending := Pending();
      var d := Decode();
      if !d.NotYet? {
        FirstIsStable(pending, io.Rest());
      }
      match d {
        case Complete(payload) => return Some(Payload(payload));
        case TooLong => return Some(FrameTooLong);
        case NotYet => return None;
      }
    }
  }
}
