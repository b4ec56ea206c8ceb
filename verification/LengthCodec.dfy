/**
 * The frame format of `length_codec` (crates/ombrac/src/codec.rs): a 4-byte
 * big-endian length, then that many bytes, at most 64 KiB.
 */
module LengthCodec {
  import opened Base

  const MAX_CONTROL_FRAME_LENGTH: nat := 64 * 1024
  const LENGTH_PREFIX_SIZE: nat := 4

  function ToBe32(n: U32): (b: Bytes)
    ensures |b| == LENGTH_PREFIX_SIZE
  {
    [n / 0x100_0000, n / 0x1_0000 % 0x100, n / 0x100 % 0x100, n % 0x100]
  }

  function FromBe32(b: Bytes): U32
    requires |b| == LENGTH_PREFIX_SIZE
  {
    b[0] as int * 0x100_0000 + b[1] as int * 0x1_0000 + b[2] as int * 0x100 + b[3]
  }

  lemma Be32RoundTrip(n: U32)
    ensures FromBe32(ToBe32(n)) == n
  {
    var high: int := n / 0x1_0000;
    assert high / 0x100 == n / 0x100_0000 && high == high / 0x100 * 0x100 + high % 0x100;
    var middle: int := n / 0x100;
    assert middle / 0x100 == high && middle == high * 0x100 + middle % 0x100;
    assert n == middle * 0x100 + n % 0x100;
  }

  lemma Be32Unique(b: Bytes)
    requires |b| == LENGTH_PREFIX_SIZE
    ensures ToBe32(FromBe32(b)) == b
  {
    var n := FromBe32(b);
    var high: int := b[0] as int * 0x100 + b[1];
    var middle: int := high * 0x100 + b[2];
    assert n == middle * 0x100 + b[3];
    assert n / 0x100 == middle && n % 0x100 == b[3];
    assert n / 0x1_0000 == middle / 0x100 == high && middle % 0x100 == b[2];
    assert n / 0x100_0000 == high / 0x100 == b[0] && high % 0x100 == b[1];
  }

  /** The length prefix is the big-endian one. */
  lemma PrefixIsBigEndian(b: Bytes)
    requires |b| == LENGTH_PREFIX_SIZE
    ensures FromBe32(b) == BigEndian(b)
  {
    assert b[..3][..2] == b[..2] && b[..2][..1] == b[..1] && b[..1][..0] == [];
    assert BigEndian(b[..1]) == b[0];
    assert BigEndian(b[..2]) == b[0] as int * 0x100 + b[1];
    assert BigEndian(b[..3]) == (b[0] as int * 0x100 + b[1]) * 0x100 + b[2];
  }

  /** The bytes of one frame; longer payloads are refused. */
  function EncodeFrame(payload: Bytes): Option<Bytes> {
    if |payload| > MAX_CONTROL_FRAME_LENGTH then None else Some(ToBe32(|payload|) + payload)
  }

  predicate Encodable(frames: seq<Bytes>) {
    forall i :: 0 <= i < |frames| ==> |frames[i]| <= MAX_CONTROL_FRAME_LENGTH
  }

  function EncodeAll(frames: seq<Bytes>): Bytes
    requires Encodable(frames)
  {
    if frames == [] then []
    else ToBe32(|frames[0]|) + frames[0] + EncodeAll(frames[1..])
  }

  // --- Decoding a whole string ---

  /** What a string decodes to: complete frames, the undecoded rest, and whether the rest is oversize. */
  datatype Parsed = Parsed(frames: seq<Bytes>, rest: Bytes, oversize: bool)

  datatype First = Frame(payload: Bytes, size: nat) | Oversize | Incomplete

  function ParseFirst(b: Bytes): (f: First)
    ensures f.Frame? ==> LENGTH_PREFIX_SIZE <= f.size <= |b|
  {
    if |b| < LENGTH_PREFIX_SIZE then Incomplete
    else
      var n := FromBe32(b[..LENGTH_PREFIX_SIZE]);
      if n > MAX_CONTROL_FRAME_LENGTH then Oversize
      else if |b| < LENGTH_PREFIX_SIZE + n then Incomplete
      else Frame(b[LENGTH_PREFIX_SIZE..LENGTH_PREFIX_SIZE + n], LENGTH_PREFIX_SIZE + n)
  }

  function Prepend(frames: seq<Bytes>, p: Parsed): Parsed {
    Parsed(frames + p.frames, p.rest, p.oversize)
  }

  function Parse(b: Bytes): Parsed
    decreases |b|
  {
    match ParseFirst(b)
    case Oversize => Parsed([], b, true)
    case Incomplete => Parsed([], b, false)
    case Frame(payload, size) =>
      Prepend([payload], Parse(b[size..]))
  }

  /**
   * The first frame by its bytes: a four-octet length, most significant first, over
   * 65536 is refused at once; else the frame is there when all its bytes are.
   */
  lemma FirstFrameExactly(b: Bytes)
    ensures |b| < 4 ==> ParseFirst(b).Incomplete?
    ensures |b| >= 4 ==>
      var n := BigEndian(b[..4]);
      ParseFirst(b) == if n > 65536 then Oversize else if |b| < 4 + n then Incomplete else Frame(b[4..4 + n], 4 + n)
  {
    if |b| >= 4 {
      PrefixIsBigEndian(b[..4]);
    }
  }

  /** Further bytes change neither a complete first frame nor an oversize one. */
  lemma FirstIsStable(a: Bytes, b: Bytes)
    requires !ParseFirst(a).Incomplete?
    ensures ParseFirst(a + b) == ParseFirst(a)
    ensures ParseFirst(a).Frame? ==> (a + b)[ParseFirst(a).size..] == a[ParseFirst(a).size..] + b
  {
    var ab := a + b;
    assert ab[..LENGTH_PREFIX_SIZE] == a[..LENGTH_PREFIX_SIZE];
    if ParseFirst(a).Frame? {
      var size := ParseFirst(a).size;
      assert ab[LENGTH_PREFIX_SIZE..size] == a[LENGTH_PREFIX_SIZE..size];
      assert ab[size..] == a[size..] + b;
    }
  }

  lemma PrependTwice(x: seq<Bytes>, y: seq<Bytes>, p: Parsed)
    ensures Prepend(x, Prepend(y, p)) == Prepend(x + y, p)
  {
    assert x + (y + p.frames) == (x + y) + p.frames;
  }

  lemma ParseFrame(b: Bytes)
    requires ParseFirst(b).Frame?
    ensures Parse(b) == Prepend([ParseFirst(b).payload], Parse(b[ParseFirst(b).size..]))
  {
  }

  /** Decoding of `a + b` may stop after `a` and go on with what was left over. */
  predicate Resumes(a: Bytes, b: Bytes) {
    Parse(a + b) ==
      if Parse(a).oversize then Parsed(Parse(a).frames, Parse(a).rest + b, true)
      else Prepend(Parse(a).frames, Parse(Parse(a).rest + b))
  }

  lemma ResumesAfterFrame(a: Bytes, b: Bytes)
    requires ParseFirst(a).Frame? && Resumes(a[ParseFirst(a).size..], b)
    ensures Resumes(a, b)
  {
    FirstIsStable(a, b);
    var f := ParseFirst(a);
    var a' := a[f.size..];
    assert (a + b)[f.size..] == a' + b;
    ParseFrame(a);
    ParseFrame(a + b);
    PrependTwice([f.payload], Parse(a').frames, Parse(Parse(a').rest + b));
  }

  lemma ResumesWithoutFrame(a: Bytes, b: Bytes)
    requires !ParseFirst(a).Frame?
    ensures Resumes(a, b)
  {
    if ParseFirst(a).Oversize? {
      FirstIsStable(a, b);
    } else {
      assert [] + Parse(a + b).frames == Parse(a + b).frames;
    }
  }

  /** Decoding may stop anywhere. */
  lemma {:induction false} ParseResumes(a: Bytes, b: Bytes)
    ensures Resumes(a, b)
    decreases |a|
  {
    var f := ParseFirst(a);
    if f.Frame? {
      ParseResumes(a[f.size..], b);
      ResumesAfterFrame(a, b);
    } else {
      ResumesWithoutFrame(a, b);
    }
  }

  /** Decoding chunk by chunk, keeping the rest and stopping at an oversize frame. */
  function ParseChunks(pending: Bytes, chunks: seq<Bytes>): Parsed
    decreases |chunks|
  {
    if chunks == [] then Parse(pending)
    else
      var now := Parse(pending);
      if now.oversize then Parsed(now.frames, now.rest + Concat(chunks), true)
      else
        Prepend(now.frames, ParseChunks(now.rest + chunks[0], chunks[1..]))
  }

  /**
   * Chunk independence: any split of a string gives the frames, the leftover and
   * the oversize error that decoding it whole gives.
   */
  lemma {:induction false} ChunkingDoesNotMatter(pending: Bytes, chunks: seq<Bytes>)
    ensures ParseChunks(pending, chunks) == Parse(pending + Concat(chunks))
    decreases |chunks|
  {
    if chunks == [] {
      assert pending + Concat(chunks) == pending;
    } else {
      var now := Parse(pending);
      if !now.oversize {
        ChunkingDoesNotMatter(now.rest + chunks[0], chunks[1..]);
      }
      FirstChunk(pending, now, chunks);
    }
  }

  lemma FirstChunk(pending: Bytes, now: Parsed, chunks: seq<Bytes>)
    requires chunks != [] && now == Parse(pending)
    requires !now.oversize ==>
      ParseChunks(now.rest + chunks[0], chunks[1..]) == Parse(now.rest + chunks[0] + Concat(chunks[1..]))
    ensures ParseChunks(pending, chunks) == Parse(pending + Concat(chunks))
  {
    var all := Concat(chunks);
    ParseResumes(pending, all);
    if !now.oversize {
      JoinFirst(now.rest, chunks);
      assert ParseChunks(pending, chunks) == Prepend(now.frames, Parse(now.rest + all));
    }
  }

  lemma JoinFirst(rest: Bytes, chunks: seq<Bytes>)
    requires chunks != []
    ensures rest + chunks[0] + Concat(chunks[1..]) == rest + Concat(chunks)
  {
  }

  // --- Decoding against encoding ---

  lemma FirstOfEncoded(payload: Bytes, rest: Bytes)
    requires |payload| <= MAX_CONTROL_FRAME_LENGTH
    ensures ParseFirst(ToBe32(|payload|) + payload + rest) == Frame(payload, LENGTH_PREFIX_SIZE + |payload|)
    ensures (ToBe32(|payload|) + payload + rest)[LENGTH_PREFIX_SIZE + |payload|..] == rest
  {
    var b := ToBe32(|payload|) + payload + rest;
    Be32RoundTrip(|payload|);
    assert b[..LENGTH_PREFIX_SIZE] == ToBe32(|payload|);
    assert b[LENGTH_PREFIX_SIZE..LENGTH_PREFIX_SIZE + |payload|] == payload;
  }

  lemma DecodeUndoesOne(payload: Bytes, rest: Bytes)
    requires |payload| <= MAX_CONTROL_FRAME_LENGTH
    ensures Parse(ToBe32(|payload|) + payload + rest) == Prepend([payload], Parse(rest))
  {
    FirstOfEncoded(payload, rest);
    ParseFrame(ToBe32(|payload|) + payload + rest);
  }

  /** The encoded frames come back from in front of `rest`. */
  predicate ComesBack(frames: seq<Bytes>, rest: Bytes)
    requires Encodable(frames)
  {
    Parse(EncodeAll(frames) + rest) == Prepend(frames, Parse(rest))
  }

  /** Decoding undoes encoding, whatever follows. */
  lemma {:induction false} DecodeUndoesEncode(frames: seq<Bytes>, rest: Bytes)
    requires Encodable(frames)
    ensures ComesBack(frames, rest)
    decreases |frames|
  {
    if frames == [] {
      assert EncodeAll(frames) + rest == rest && [] + Parse(rest).frames == Parse(rest).frames;
    } else {
      DecodeUndoesEncode(frames[1..], rest);
      OneMoreFrame(frames[0], frames[1..], rest);
      assert frames == [frames[0]] + frames[1..];
    }
  }

  lemma OneMoreFrame(payload: Bytes, more: seq<Bytes>, rest: Bytes)
    requires |payload| <= MAX_CONTROL_FRAME_LENGTH && Encodable(more) && ComesBack(more, rest)
    ensures ComesBack([payload] + more, rest)
  {
    EncodeAllCons(payload, more, rest);
    DecodeUndoesOne(payload, EncodeAll(more) + rest);
    PrependTwice([payload], more, Parse(rest));
  }

  lemma EncodeAllCons(payload: Bytes, more: seq<Bytes>, rest: Bytes)
    requires |payload| <= MAX_CONTROL_FRAME_LENGTH && Encodable(more)
    ensures EncodeAll([payload] + more) + rest == ToBe32(|payload|) + payload + (EncodeAll(more) + rest)
  {
    var frames := [payload] + more;
    assert frames[0] == payload && frames[1..] == more;
    var head := ToBe32(|payload|) + payload;
    assert EncodeAll(frames) == head + EncodeAll(more);
  }

  /** What decoding says about `b`, read back: no byte is dropped and no frame is left in the rest. */
  predicate ReadsBack(b: Bytes, p: Parsed) {
    && Encodable(p.frames)
    && EncodeAll(p.frames) + p.rest == b
    && !ParseFirst(p.rest).Frame?
    && p.oversize == ParseFirst(p.rest).Oversize?
  }

  lemma ReadsBackAfterFrame(b: Bytes, p: Parsed)
    requires ParseFirst(b).Frame? && ReadsBack(b[ParseFirst(b).size..], p)
    ensures ReadsBack(b, Prepend([ParseFirst(b).payload], p))
  {
    var f := ParseFirst(b);
    var head := b[..LENGTH_PREFIX_SIZE];
    Be32Unique(head);
    var frames := [f.payload] + p.frames;
    assert frames[1..] == p.frames;
    assert EncodeAll(frames) == head + f.payload + EncodeAll(p.frames);
    assert b == head + f.payload + b[f.size..];
  }

  /** Encoding undoes decoding: a string is its frames, encoded, and a rest that starts with no frame. */
  lemma {:induction false} EncodeUndoesDecode(b: Bytes)
    ensures ReadsBack(b, Parse(b))
    decreases |b|
  {
    if ParseFirst(b).Frame? {
      EncodeUndoesDecode(b[ParseFirst(b).size..]);
      ParseFrame(b);
      ReadsBackAfterFrame(b, Parse(b[ParseFirst(b).size..]));
    } else {
      assert EncodeAll([]) + b == b;
    }
  }

  /** A payload is encoded exactly when it fits, and then it is the one frame of its encoding. */
  lemma EncodedExactlyWhenItFits(payload: Bytes)
    ensures EncodeFrame(payload).Some? <==> |payload| <= 65536
    ensures EncodeFrame(payload).Some? ==>
      && |EncodeFrame(payload).value| == 4 + |payload|
      && BigEndian(EncodeFrame(payload).value[..4]) == |payload| && EncodeFrame(payload).value[4..] == payload
    ensures EncodeFrame(payload).Some? ==> Parse(EncodeFrame(payload).value) == Parsed([payload], [], false)
  {
    if |payload| <= MAX_CONTROL_FRAME_LENGTH {
      var prefix := ToBe32(|payload|);
      Be32RoundTrip(|payload|);
      PrefixIsBigEndian(prefix);
      assert (prefix + payload)[..4] == prefix && (prefix + payload)[4..] == payload;
      DecodeUndoesEncode([payload], []);
      assert EncodeAll([payload]) + [] == EncodeFrame(payload).value;
      assert [payload] + Parse([]).frames == [payload];
    }
  }
}
