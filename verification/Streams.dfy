/**
 * Byte streams by the contract their users rely on: a read takes the next bytes
 * in order, a write hands over a prefix of its data. How many bytes a read
 * yields, and whether it fails, is open at every call.
 */
module Streams {
  import opened Base

  datatype ErrorKind = ConnectionReset | ConnectionAborted | BrokenPipe | InvalidData | UnexpectedEof | Other

  /** No bytes means the end of the stream. */
  datatype ReadResult = Read(data: Bytes) | ReadError(kind: ErrorKind)

  /** `failures` are the errors its own reads have reported so far. */
  class Reader {
    const source: Bytes
    var pos: nat
    ghost var failures: seq<ErrorKind>

    predicate Valid()
      reads this
    {
      pos <= |source|
    }

    function Taken(): Bytes
      requires Valid()
      reads this
    {
      source[..pos]
    }

    function Rest(): Bytes
      requires Valid()
      reads this
    {
      source[pos..]
    }

    constructor (source: Bytes)
      ensures Valid() && this.source == source && pos == 0 && Rest() == source && failures == []
    {
      this.source, this.pos, this.failures := source, 0, [];
    }

    method Read(limit: nat) returns (r: ReadResult)
      requires Valid()
      modifies this
      ensures Valid()
      ensures failures == if r.ReadError? then old(failures) + [r.kind] else old(failures)
      ensures r.Read? ==>
        && |r.data| <= limit && old(pos) <= pos && r.data == source[old(pos)..pos]
        && r.data + Rest() == old(Rest()) && Taken() == old(Taken()) + r.data
        && (|r.data| == 0 && limit > 0 ==> |Rest()| == 0)
      ensures r.ReadError? ==> pos == old(pos)
    {
      var size: int :| -1 <= size <= limit;
      if size == -1 {
        var kind: ErrorKind :| true;
        failures := failures + [kind];
        return ReadError(kind);
      }
      if size == 0 && limit > 0 {
        size := 1;
      }
      var upto := pos + Min(size, |source| - pos);
      r := ReadResult.Read(source[pos..upto]);
      pos := upto;
    }
  }

  /** `failures` are the errors its own writes have reported so far. */
  class Writer {
    var written: Bytes
    ghost var failures: seq<ErrorKind>

    constructor ()
      ensures written == [] && failures == []
    {
      written, failures := [], [];
    }

    /** `write_all`: everything, or an error after some prefix. */
    method WriteAll(data: Bytes) returns (error: Option<ErrorKind>)
      modifies this
      ensures failures == if error.Some? then old(failures) + [error.value] else old(failures)
      ensures error.None? ==> written == old(written) + data
      ensures error.Some? ==> exists k: nat :: k < |data| && written == old(written) + data[..k]
    {
      var k: int :| 0 <= k <= |data|;
      if k == |data| {
        written := written + data;
        return None;
      }
      written := written + data[..k];
      var kind: ErrorKind :| true;
      failures := failures + [kind];
      return Some(kind);
    }
  }
}
