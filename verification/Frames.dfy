/** The multiplexing frame: StreamID(2) Type(1) Length(4) Payload, big-endian.
    Encoding, the acceptance domain every decoder shares, and what a stream of
    frames decodes to. */
module Frames {
  import opened Bytes
  import opened Wrappers

  const HEADER_SIZE := 7
  const MAX_PAYLOAD := 64 * 1024
  const FRAME_DATA: byte := 0x01

  datatype FrameValue = FrameValue(streamId: uint16, typ: byte, payload: seq<byte>)

  datatype FrameError = TooShort | Truncated | TooLarge | HeaderCut | PayloadCut

  predicate Fits(f: FrameValue) {
    |f.payload| <= MAX_PAYLOAD
  }

  function Encode(f: FrameValue): (r: seq<byte>)
    requires Fits(f)
    ensures |r| == HEADER_SIZE + |f.payload|
  {
    PutU16(f.streamId) + [f.typ] + PutU32(|f.payload|) + f.payload
  }

  function LengthField(s: seq<byte>): (n: uint32)
    requires |s| >= HEADER_SIZE
  {
    GetU32(s[3..7])
  }

  /** The acceptance domain: a whole header, a legal length, and that many bytes. */
  predicate Accepts(s: seq<byte>) {
    && |s| >= HEADER_SIZE
    && LengthField(s) <= MAX_PAYLOAD
    && |s| >= HEADER_SIZE + LengthField(s)
  }

  function FrameSize(s: seq<byte>): (n: nat)
    requires |s| >= HEADER_SIZE
  {
    HEADER_SIZE + LengthField(s)
  }

  function FrameOf(s: seq<byte>): (f: FrameValue)
    requires Accepts(s)
    ensures Fits(f)
  {
    FrameValue(GetU16(s[..2]), s[2], s[HEADER_SIZE..FrameSize(s)])
  }

  // ---------------------------------------------------------------- the bytes

  /** Where each field of a frame stands, whatever its size. */
  lemma EncodeLayout(f: FrameValue)
    requires Fits(f)
    ensures var e := Encode(f);
            && |e| == 7 + |f.payload| && e[2] == f.typ && e[7..] == f.payload
            && Value(e[..2]) == f.streamId && Value(e[3..7]) == |f.payload|
  {
    EncodeFields(f, []);
    assert Encode(f) + [] == Encode(f) && f.payload + [] == f.payload;
    U16IsBigEndian(f.streamId, [0, 0]);
    U32IsBigEndian(|f.payload|, [0, 0, 0, 0]);
  }

  /** Exactly which bytes are accepted, and what is read from them. */
  lemma AcceptedLayout(s: seq<byte>)
    ensures Accepts(s) <==> |s| >= 7 && Value(s[3..7]) <= 65536 && |s| >= 7 + Value(s[3..7])
    ensures Accepts(s) ==>
              && FrameSize(s) == 7 + Value(s[3..7])
              && FrameOf(s).streamId == Value(s[..2]) && FrameOf(s).typ == s[2]
              && FrameOf(s).payload == s[7..7 + Value(s[3..7])]
  {
    if |s| >= 7 {
      U16IsBigEndian(0, s[..2]);
      U32IsBigEndian(0, s[3..7]);
    }
  }

  // ---------------------------------------------------------------- one frame

  lemma EncodeFields(f: FrameValue, tail: seq<byte>)
    requires Fits(f)
    ensures var s := Encode(f) + tail;
            s[..2] == PutU16(f.streamId) && s[2] == f.typ && s[3..7] == PutU32(|f.payload|) && s[7..] == f.payload + tail
  {
  }

  /** Decoding undoes encoding, whatever follows on the stream. */
  lemma DecodeEncode(f: FrameValue, tail: seq<byte>)
    requires Fits(f)
    ensures Accepts(Encode(f) + tail)
    ensures FrameOf(Encode(f) + tail) == f
    ensures FrameSize(Encode(f) + tail) == |Encode(f)|
  {
    EncodeFields(f, tail);
    U16RoundTrip(f.streamId);
    U32RoundTrip(|f.payload|);
    var s := Encode(f) + tail;
    assert s[7..FrameSize(s)] == s[7..][..|f.payload|];
  }

  /** Encoding undoes decoding: an accepted input starts with the encoding of its frame. */
  lemma EncodeDecode(s: seq<byte>)
    requires Accepts(s)
    ensures Encode(FrameOf(s)) == s[..FrameSize(s)]
  {
    U16Canonical(s[..2]);
    U32Canonical(s[3..7]);
    var f := FrameOf(s);
    assert |f.payload| == LengthField(s);
    assert s[..FrameSize(s)] == s[..2] + [s[2]] + s[3..7] + s[7..FrameSize(s)];
  }

  /** Unique decodability: two streams that agree start with the same frame. In
      particular no encoding is a proper prefix of another. */
  lemma PrefixFree(f: FrameValue, x: seq<byte>, g: FrameValue, y: seq<byte>)
    requires Fits(f) && Fits(g)
    requires Encode(f) + x == Encode(g) + y
    ensures f == g && x == y
  {
    DecodeEncode(f, x);
    DecodeEncode(g, y);
    assert x == (Encode(f) + x)[|Encode(f)|..];
    assert y == (Encode(g) + y)[|Encode(g)|..];
  }

  /** Acceptance and the frame read are unchanged by whatever arrives later. */
  lemma AcceptsExtends(s: seq<byte>, more: seq<byte>)
    requires Accepts(s)
    ensures Accepts(s + more) && FrameOf(s + more) == FrameOf(s) && FrameSize(s + more) == FrameSize(s)
  {
    assert (s + more)[3..7] == s[3..7];
    assert (s + more)[..2] == s[..2];
    assert (s + more)[7..FrameSize(s)] == s[7..FrameSize(s)];
  }

  /** A frame cut short never decodes. */
  lemma StrictPrefixRejected(f: FrameValue, n: nat)
    requires Fits(f) && n < |Encode(f)|
    ensures !Accepts(Encode(f)[..n])
  {
    var p := Encode(f)[..n];
    if Accepts(p) {
      AcceptsExtends(p, Encode(f)[n..]);
      assert p + Encode(f)[n..] == Encode(f) + [];
      DecodeEncode(f, []);
    }
  }

  // ---------------------------------------------------------------- the Go decoders

  /** The width of Go's `int`. */
  datatype Word = Int32 | Int64

  function Wrap(w: Word, x: int): (r: int) {
    match w
    case Int32 => (x + 0x8000_0000) % 0x1_0000_0000 - 0x8000_0000
    case Int64 => (x + 0x8000_0000_0000_0000) % 0x1_0000_0000_0000_0000 - 0x8000_0000_0000_0000
  }

  /** The sum of the header size and a length field, as Go computes it. */
  lemma WrappedSize(w: Word, n: uint32)
    ensures w.Int64? || n < 0x8000_0000 - HEADER_SIZE ==> Wrap(w, HEADER_SIZE + Wrap(w, n)) == HEADER_SIZE + n
    ensures w.Int32? && n >= 0x8000_0000 - HEADER_SIZE ==> Wrap(w, HEADER_SIZE + Wrap(w, n)) == HEADER_SIZE + n - 0x1_0000_0000
  {
    if w.Int32? && n >= 0x8000_0000 {
      assert Wrap(w, n) == n - 0x1_0000_0000;
    } else {
      assert Wrap(w, n) == n;
    }
  }

  /** The size of the frame as Go's `int` has it. */
  function ClaimedSize(w: Word, n: uint32): (r: int)
    ensures n <= MAX_PAYLOAD ==> r == HEADER_SIZE + n
  {
    WrappedSize(w, n);
    Wrap(w, HEADER_SIZE + Wrap(w, n))
  }

  /** `UnmarshalBinary`: the truncation test comes before the size test, and is
      made in wrapping `int` arithmetic. */
  function Unmarshal(w: Word, s: seq<byte>): (r: Result<FrameValue, FrameError>) {
    if |s| < HEADER_SIZE then Failure(TooShort)
    else if |s| < ClaimedSize(w, LengthField(s)) then Failure(Truncated)
    else if LengthField(s) > MAX_PAYLOAD then Failure(TooLarge)
    else Success(FrameOf(s))
  }

  /** `ReadFrom`: the size test comes before the payload is read. Returns the
      outcome and what is left on the stream. */
  function ReadFrom(s: seq<byte>): (r: (Result<FrameValue, FrameError>, seq<byte>)) {
    if |s| < HEADER_SIZE then (Failure(HeaderCut), [])
    else if LengthField(s) > MAX_PAYLOAD then (Failure(TooLarge), s[HEADER_SIZE..])
    else if |s| < FrameSize(s) then (Failure(PayloadCut), [])
    else (Success(FrameOf(s)), s[FrameSize(s)..])
  }

  /** The decoders agree on what they accept, on the frame and on its length,
      for both widths of `int`. */
  lemma DecodersAgree(w: Word, s: seq<byte>)
    ensures Unmarshal(w, s).Success? <==> Accepts(s)
    ensures ReadFrom(s).0.Success? <==> Accepts(s)
    ensures Accepts(s) ==>
              && Unmarshal(w, s).value == ReadFrom(s).0.value == FrameOf(s)
              && s == Encode(FrameOf(s)) + ReadFrom(s).1
  {
    if |s| >= HEADER_SIZE {
      WrappedSize(w, LengthField(s));
    }
    if Accepts(s) {
      EncodeDecode(s);
    }
  }

  /** Which error `ReadFrom` gives when, and what it leaves on the stream. */
  lemma ReadFromOutcomes(s: seq<byte>)
    ensures |s| < 7 <==> ReadFrom(s).0 == Failure(HeaderCut)
    ensures |s| >= 7 && Value(s[3..7]) > 65536 <==> ReadFrom(s).0 == Failure(TooLarge)
    ensures |s| >= 7 && Value(s[3..7]) <= 65536 && |s| < 7 + Value(s[3..7]) <==> ReadFrom(s).0 == Failure(PayloadCut)
    ensures ReadFrom(s).1 == if ReadFrom(s).0.Success? then s[7 + Value(s[3..7])..]
                             else if ReadFrom(s).0.error == TooLarge then s[7..] else []
  {
    AcceptedLayout(s);
    if |s| >= 7 {
      U32IsBigEndian(0, s[3..7]);
    }
  }

  /** Which error `UnmarshalBinary` gives when, with a 64-bit `int`: truncation goes first. */
  lemma UnmarshalOutcomes(s: seq<byte>)
    ensures |s| < 7 <==> Unmarshal(Int64, s) == Failure(TooShort)
    ensures |s| >= 7 && |s| < 7 + Value(s[3..7]) <==> Unmarshal(Int64, s) == Failure(Truncated)
    ensures |s| >= 7 && |s| >= 7 + Value(s[3..7]) && Value(s[3..7]) > 65536 <==> Unmarshal(Int64, s) == Failure(TooLarge)
  {
    if |s| >= 7 {
      U32IsBigEndian(0, s[3..7]);
      WrappedSize(Int64, LengthField(s));
    }
  }

  /** The error differs between the two widths exactly when the length field is
      so large that the 32-bit sum wraps. A 32-bit slice has fewer than 2^31 bytes. */
  lemma WidthsDifferIff(s: seq<byte>)
    requires |s| < 0x8000_0000
    ensures Unmarshal(Int32, s) != Unmarshal(Int64, s) <==>
            |s| >= HEADER_SIZE && LengthField(s) >= 0x8000_0000 - HEADER_SIZE
    ensures Unmarshal(Int32, s) != Unmarshal(Int64, s) ==>
              Unmarshal(Int32, s) == Failure(TooLarge) && Unmarshal(Int64, s) == Failure(Truncated)
  {
    if |s| >= HEADER_SIZE {
      WrappedSize(Int32, LengthField(s));
      WrappedSize(Int64, LengthField(s));
    }
  }

  // ---------------------------------------------------------------- streams of frames

  predicate AllFit(fs: seq<FrameValue>) {
    forall i :: 0 <= i < |fs| ==> Fits(fs[i])
  }

  function EncodeAll(fs: seq<FrameValue>): (r: seq<byte>)
    requires AllFit(fs)
  {
    if fs == [] then [] else Encode(fs[0]) + EncodeAll(fs[1..])
  }

  /** Repeated `ReadFrom` until it fails: the frames, and the bytes it failed on. */
  function ReadAll(s: seq<byte>): (r: (seq<FrameValue>, seq<byte>))
    ensures AllFit(r.0)
    decreases |s|
  {
    if !Accepts(s) then ([], s)
    else
      var (fs, rest) := ReadAll(s[FrameSize(s)..]);
      ([FrameOf(s)] + fs, rest)
  }

  lemma {:induction false} EncodeAllAppend(a: seq<FrameValue>, b: seq<FrameValue>)
    requires AllFit(a) && AllFit(b)
    ensures EncodeAll(a + b) == EncodeAll(a) + EncodeAll(b)
  {
    if a == [] {
      assert a + b == b;
    } else {
      assert (a + b)[1..] == a[1..] + b;
      EncodeAllAppend(a[1..], b);
    }
  }

  lemma ReadAllStep(f: FrameValue, more: seq<byte>)
    requires Fits(f)
    ensures ReadAll(Encode(f) + more) == ([f] + ReadAll(more).0, ReadAll(more).1)
  {
    DecodeEncode(f, more);
    assert (Encode(f) + more)[|Encode(f)|..] == more;
  }

  /** Self-delimiting: the frames come back exactly, and decoding carries on
      with whatever follows them. */
  lemma {:induction false} ReadAllEncodeAll(fs: seq<FrameValue>, tail: seq<byte>)
    requires AllFit(fs)
    ensures ReadAll(EncodeAll(fs) + tail) == (fs + ReadAll(tail).0, ReadAll(tail).1)
  {
    hide Encode, Accepts, FrameOf, FrameSize;
    if fs == [] {
      assert EncodeAll(fs) + tail == tail;
      assert fs + ReadAll(tail).0 == ReadAll(tail).0;
    } else {
      var f, gs := fs[0], fs[1..];
      var more, t := EncodeAll(gs) + tail, ReadAll(tail);
      calc {
        ReadAll(EncodeAll(fs) + tail);
        { assert EncodeAll(fs) + tail == Encode(f) + more; }
        ReadAll(Encode(f) + more);
        { ReadAllStep(f, more); }
        ([f] + ReadAll(more).0, ReadAll(more).1);
        { ReadAllEncodeAll(gs, tail); }
        ([f] + (gs + t.0), t.1);
        { assert [f] + (gs + t.0) == fs + t.0; }
        (fs + t.0, t.1);
      }
    }
  }

  /** Nothing is lost: the frames read and the rest re-encode to the stream. */
  lemma {:induction false} ReadAllLossless(s: seq<byte>)
    ensures s == EncodeAll(ReadAll(s).0) + ReadAll(s).1
    ensures !Accepts(ReadAll(s).1)
    decreases |s|
  {
    if Accepts(s) {
      EncodeDecode(s);
      ReadAllLossless(s[FrameSize(s)..]);
      var fs := ReadAll(s).0;
      assert fs[1..] == ReadAll(s[FrameSize(s)..]).0;
    }
  }

  /** The frames of a stream cut short are a prefix of the frames of the stream. */
  lemma {:induction false} ReadAllMonotone(s: seq<byte>, more: seq<byte>)
    ensures ReadAll(s).0 <= ReadAll(s + more).0
    decreases |s|
  {
    if Accepts(s) {
      var n := FrameSize(s);
      AcceptsExtends(s, more);
      assert (s + more)[n..] == s[n..] + more;
      assert |s[n..]| < |s|;
      hide Accepts, FrameOf, FrameSize;
      ReadAllMonotone(s[n..], more);
    }
  }
}
