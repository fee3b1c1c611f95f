/** The app's twin of the frame codec (`frame.dart`), and incremental decoding with it. */
module DartFrames {
  import opened Bytes
  import opened Wrappers
  import opened Frames

  /** Dart fields are plain integers; only the encoder narrows them. */
  datatype DartFrame = DartFrame(streamId: int, typ: int, payload: seq<byte>)

  /** What `setUint16` and a byte store keep of a frame's fields. */
  function Stored(f: DartFrame): FrameValue {
    FrameValue(f.streamId % 0x1_0000, f.typ % 0x100, f.payload)
  }

  method EncodeFrame(f: DartFrame) returns (r: Result<array<byte>, FrameError>)
    ensures r.Success? <==> |f.payload| <= MAX_PAYLOAD
    ensures r.Failure? ==> r.error == TooLarge
    ensures r.Success? ==> fresh(r.value) && r.value[..] == Encode(Stored(f))
    ensures r.Success? ==>
              && r.value.Length == 7 + |f.payload| && r.value[7..] == f.payload && Value(r.value[3..7]) == |f.payload|
              && (f.streamId - Value(r.value[..2])) % 0x1_0000 == 0 && (f.typ - r.value[2]) % 0x100 == 0
  {
    if |f.payload| > MAX_PAYLOAD {
      return Failure(TooLarge);
    }
    var buf := new byte[HEADER_SIZE + |f.payload|];
    var id, len := PutU16(f.streamId % 0x1_0000), PutU32(|f.payload|);
    buf[0], buf[1] := id[0], id[1];
    buf[2] := f.typ % 0x100;
    buf[3], buf[4], buf[5], buf[6] := len[0], len[1], len[2], len[3];
    forall i | 0 <= i < |f.payload| {
      buf[HEADER_SIZE + i] := f.payload[i];
    }
    assert buf[..] == id + [f.typ % 0x100] + len + f.payload;
    EncodeLayout(Stored(f));
    assert buf[..2] == buf[..][..2] && buf[3..7] == buf[..][3..7] && buf[7..] == buf[..][7..];
    return Success(buf);
  }

  function Decode(s: seq<byte>): (r: Result<FrameValue, FrameError>) {
    if |s| < HEADER_SIZE then Failure(TooShort)
    else if |s| < FrameSize(s) then Failure(Truncated)
    else if LengthField(s) > MAX_PAYLOAD then Failure(TooLarge)
    else Success(FrameOf(s))
  }

  datatype TryRead =
    | NeedMore
    | Thrown(error: FrameError)
    | Found(frame: FrameValue, consumed: nat, remaining: nat)

  function TryReadFrame(buffer: seq<byte>): (r: TryRead) {
    if |buffer| < HEADER_SIZE then NeedMore
    else if |buffer| < FrameSize(buffer) then NeedMore
    else
      match Decode(buffer[..FrameSize(buffer)])
      case Failure(e) => Thrown(e)
      case Success(f) => Found(f, FrameSize(buffer), |buffer| - HEADER_SIZE - LengthField(buffer))
  }

  /** A Dart frame survives the trip to either decoder exactly when its fields fit theirs. */
  lemma DartRoundTripIff(f: DartFrame, tail: seq<byte>)
    requires |f.payload| <= MAX_PAYLOAD
    ensures Decode(Encode(Stored(f)) + tail).Success?
    ensures var g := Decode(Encode(Stored(f)) + tail).value;
            DartFrame(g.streamId, g.typ, g.payload) == f <==> 0 <= f.streamId < 0x1_0000 && 0 <= f.typ < 0x100
  {
    DecodeEncode(Stored(f), tail);
  }

  /** The Dart decoders accept what the Go ones accept and read the same frame;
      `tryReadFrame` throws exactly on a complete frame that is too large. */
  lemma DartAgreesWithGo(w: Word, s: seq<byte>)
    ensures Decode(s) == Unmarshal(Int64, s)
    ensures Decode(s).Success? <==> ReadFrom(s).0.Success?
    ensures TryReadFrame(s).Found? <==> ReadFrom(s).0.Success?
    ensures TryReadFrame(s).Found? ==>
              var r := TryReadFrame(s);
              && Success(r.frame) == ReadFrom(s).0 == Unmarshal(w, s)
              && s[r.consumed..] == ReadFrom(s).1
              && r.consumed + r.remaining == |s|
    ensures TryReadFrame(s).Thrown? <==> |s| >= HEADER_SIZE && LengthField(s) > MAX_PAYLOAD && |s| >= FrameSize(s)
  {
    DecodersAgree(w, s);
    if |s| >= HEADER_SIZE {
      WrappedSize(Int64, LengthField(s));
      if |s| >= FrameSize(s) {
        var p := s[..FrameSize(s)];
        assert p[3..7] == s[3..7];
        if Accepts(s) {
          AcceptsExtends(p, s[FrameSize(s)..]);
          assert p + s[FrameSize(s)..] == s;
        }
      }
    }
  }

  /** An answer other than "need more" is final: later bytes do not change it. */
  lemma TryReadStable(buffer: seq<byte>, more: seq<byte>)
    requires !TryReadFrame(buffer).NeedMore?
    ensures var r := TryReadFrame(buffer);
            TryReadFrame(buffer + more) == if r.Found? then r.(remaining := r.remaining + |more|) else r
  {
    assert (buffer + more)[3..7] == buffer[3..7];
    assert (buffer + more)[..FrameSize(buffer)] == buffer[..FrameSize(buffer)];
  }

  // ---------------------------------------------------------------- incremental decoding

  /** The frames decoded so far, the unconsumed tail, and whether decoding has thrown. */
  datatype Drained = Drained(frames: seq<FrameValue>, tail: seq<byte>, broken: bool)

  function Drain(buffer: seq<byte>): (d: Drained)
    decreases |buffer|
  {
    match TryReadFrame(buffer)
    case NeedMore => Drained([], buffer, false)
    case Thrown(_) => Drained([], buffer, true)
    case Found(f, n, _) =>
      var d := Drain(buffer[n..]);
      d.(frames := [f] + d.frames)
  }

  /** Appends a chunk to the unconsumed tail and decodes what has become complete. */
  function Feed(d: Drained, chunk: seq<byte>): (e: Drained) {
    if d.broken then d
    else
      var e := Drain(d.tail + chunk);
      e.(frames := d.frames + e.frames)
  }

  function FeedAll(d: Drained, chunks: seq<seq<byte>>): (e: Drained)
    decreases |chunks|
  {
    if chunks == [] then d else FeedAll(Feed(d, chunks[0]), chunks[1..])
  }

  predicate SameDecoding(a: Drained, b: Drained) {
    a.frames == b.frames && a.broken == b.broken && (!a.broken ==> a.tail == b.tail)
  }

  /** One step of draining a buffer, and of draining any extension of it. */
  lemma DrainStep(a: seq<byte>, b: seq<byte>)
    ensures var r := TryReadFrame(a);
            && (r.NeedMore? ==> Drain(a) == Drained([], a, false))
            && (r.Thrown? ==> Drain(a).broken && Drain(a + b).broken && Drain(a).frames == Drain(a + b).frames == [])
            && (r.Found? ==>
                  && 0 < r.consumed <= |a|
                  && Drain(a) == Drain(a[r.consumed..]).(frames := [r.frame] + Drain(a[r.consumed..]).frames)
                  && var e := Drain(a[r.consumed..] + b);
                     Drain(a + b) == e.(frames := [r.frame] + e.frames))
  {
    if !TryReadFrame(a).NeedMore? {
      TryReadStable(a, b);
      if TryReadFrame(a).Found? {
        assert (a + b)[TryReadFrame(a).consumed..] == a[TryReadFrame(a).consumed..] + b;
      }
    }
  }

  lemma FeedPrepends(f: FrameValue, d: Drained, chunk: seq<byte>)
    ensures Feed(d.(frames := [f] + d.frames), chunk) == Feed(d, chunk).(frames := [f] + Feed(d, chunk).frames)
  {
    hide Drain;
    if !d.broken {
      var more := Drain(d.tail + chunk).frames;
      assert [f] + d.frames + more == [f] + (d.frames + more);
    }
  }

  /** Decoding a buffer at once is decoding a part of it and then feeding the rest. */
  lemma {:induction false} DrainSplits(a: seq<byte>, b: seq<byte>)
    ensures SameDecoding(Drain(a + b), Feed(Drain(a), b))
    decreases |a|
  {
    hide TryReadFrame, Drain;
    DrainStep(a, b);
    match TryReadFrame(a)
    case NeedMore =>
      assert [] + Drain(a + b).frames == Drain(a + b).frames;
    case Thrown(_) =>
    case Found(f, n, _) =>
      DrainSplits(a[n..], b);
      FeedPrepends(f, Drain(a[n..]), b);
  }

  /** Chunk invariance: for every byte stream and every way of cutting it up,
      decoding chunk by chunk gives what decoding the whole stream gives. */
  lemma {:induction false} ChunkInvariance(seen: seq<byte>, chunks: seq<seq<byte>>)
    ensures SameDecoding(FeedAll(Drain(seen), chunks), Drain(seen + Flatten(chunks)))
    decreases |chunks|
  {
    if chunks == [] {
      assert seen + Flatten(chunks) == seen;
    } else {
      var c, cs := chunks[0], chunks[1..];
      assert seen + Flatten(chunks) == seen + c + Flatten(cs);
      DrainSplits(seen, c);
      ChunkInvariance(seen + c, cs);
      FeedAllRespects(Feed(Drain(seen), c), Drain(seen + c), cs);
    }
  }

  lemma {:induction false} FeedAllRespects(d: Drained, e: Drained, chunks: seq<seq<byte>>)
    requires SameDecoding(d, e)
    ensures SameDecoding(FeedAll(d, chunks), FeedAll(e, chunks))
    decreases |chunks|
  {
    if chunks != [] {
      FeedAllRespects(Feed(d, chunks[0]), Feed(e, chunks[0]), chunks[1..]);
    }
  }

  /** Incremental decoding in the app reads the frames repeated `ReadFrom` reads in Go. */
  lemma {:induction false} DrainIsReadAll(s: seq<byte>)
    ensures Drain(s).frames == ReadAll(s).0 && Drain(s).tail == ReadAll(s).1
    decreases |s|
  {
    DartAgreesWithGo(Int64, s);
    if Accepts(s) {
      DrainIsReadAll(s[FrameSize(s)..]);
    }
  }

  /** Whatever the chunking, a stream of valid frames is decoded to those frames. */
  lemma IncrementalRoundTrip(fs: seq<FrameValue>, chunks: seq<seq<byte>>)
    requires AllFit(fs) && Flatten(chunks) == EncodeAll(fs)
    ensures FeedAll(Drained([], [], false), chunks) == Drained(fs, [], false)
  {
    DrainOfValid(fs);
    ChunkInvariance([], chunks);
    assert [] + Flatten(chunks) == EncodeAll(fs);
    assert Drain([]) == Drained([], [], false);
  }

  lemma DrainOfValid(fs: seq<FrameValue>)
    requires AllFit(fs)
    ensures Drain(EncodeAll(fs)) == Drained(fs, [], false)
  {
    ReadAllEncodeAll(fs, []);
    assert EncodeAll(fs) + [] == EncodeAll(fs);
    assert fs + [] == fs;
    DrainIsReadAll(EncodeAll(fs));
    BrokenHasTail(EncodeAll(fs));
  }

  lemma {:induction false} BrokenHasTail(s: seq<byte>)
    ensures Drain(s).broken ==> Drain(s).tail != []
    decreases |s|
  {
    if TryReadFrame(s).Found? {
      BrokenHasTail(s[TryReadFrame(s).consumed..]);
    }
  }
}
