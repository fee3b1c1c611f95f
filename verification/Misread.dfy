/** What a reader finds on a wire of frames when the first bytes are missing. */
module Misread {
  import opened Bytes
  import opened Streams
  import opened Frames
  import opened Proxy

  /** A shell's frames are mixed with others on a wire, a reader misses the first `lost`
      bytes and has come to `cut`: what it takes for the shell's bytes is a prefix of them. */
  predicate Delivers(lost: nat, source: seq<byte>, plan: seq<Slice>, id: uint16,
                     noise: seq<FrameValue>, w: seq<FrameValue>, cut: nat)
  {
    && IsMerge(DataFrames(id, Chunks(source, plan, MAX_PAYLOAD)), noise, w) && AllFit(w)
    && (forall i :: 0 <= i < |noise| ==> noise[i].streamId != id || noise[i].typ != 0x01)
    && lost <= cut <= |EncodeAll(w)|
    ==> Demux(ReadAll(EncodeAll(w)[lost..cut]).0, id) <= source
  }

  // ---------------------------------------------------------------- one wire for every loss

  const EMPTY := FrameValue(0, 0, [])

  /** Found inside another frame's payload, these bytes read as a frame of stream 1. */
  const FALSE_FRAME := DataFrame(1, [9])
  const INNER: seq<byte> := [0, 1, 1, 0, 0, 0, 1, 9]

  /** The frame that follows an empty one on the wire. */
  function Second(lost: nat): FrameValue
    requires 1 <= lost <= 6
  {
    if lost == 1 then FrameValue(0x600, 0, INNER)
    else if lost == 2 then FrameValue(5, 0, INNER)
    else if lost == 3 then FrameValue(0, 4, INNER)
    else if lost == 4 then FrameValue(0, 0, [0, 0, 0, 0] + INNER)
    else if lost == 5 then FrameValue(0, 0, [0, 0, 0, 0, 0] + INNER)
    else FrameValue(0, 0, [0, 0, 0, 0, 0, 0] + INNER)
  }

  /** What is read instead of the two, before the false frame. */
  function Found(lost: nat): seq<FrameValue>
    requires 1 <= lost <= 6
  {
    if lost == 1 then [FrameValue(0, 0, [0, 0, 0, 0, 0, 8])]
    else if lost == 2 then [FrameValue(0, 0, [0, 0, 0, 0, 8])]
    else if lost == 3 then [FrameValue(0, 0, [0, 0, 0, 8])]
    else if lost == 4 then [EMPTY, FrameValue(0, 12, [])]
    else if lost == 5 then [EMPTY, FrameValue(13, 0, [])]
    else [EMPTY, FrameValue(0xE00, 0, [])]
  }

  lemma HeaderBytes(f: FrameValue)
    requires |f.payload| < 0x100
    ensures Encode(f) == [f.streamId / 0x100, f.streamId % 0x100, f.typ, 0, 0, 0, |f.payload|] + f.payload
  {
  }

  lemma FalseFrameBytes()
    ensures Encode(EMPTY) == [0, 0, 0, 0, 0, 0, 0] && Encode(FALSE_FRAME) == INNER
  {
    HeaderBytes(EMPTY);
    HeaderBytes(FALSE_FRAME);
    hide Encode;
  }

  lemma EncodeTwo(f: FrameValue, g: FrameValue)
    requires Fits(f) && Fits(g)
    ensures EncodeAll([f]) == Encode(f) && EncodeAll([f, g]) == Encode(f) + Encode(g)
  {
    assert [f][1..] == [] && [f, g][1..] == [g] && [g][1..] == [];
    hide Encode;
  }

  /** The bytes of the second frame before the inner ones. */
  function Head(lost: nat): seq<byte>
    requires 1 <= lost <= 6
  {
    if lost == 1 then [6, 0, 0, 0, 0, 0, 8]
    else if lost == 2 then [0, 5, 0, 0, 0, 0, 8]
    else if lost == 3 then [0, 0, 4, 0, 0, 0, 8]
    else if lost == 4 then [0, 0, 0, 0, 0, 0, 12, 0, 0, 0, 0]
    else if lost == 5 then [0, 0, 0, 0, 0, 0, 13, 0, 0, 0, 0, 0]
    else [0, 0, 0, 0, 0, 0, 14, 0, 0, 0, 0, 0, 0]
  }

  lemma SecondBytes(lost: nat)
    requires 1 <= lost <= 6
    ensures Encode(Second(lost)) == Head(lost) + INNER
  {
    HeaderBytes(Second(lost));
    hide Encode;
    if lost >= 4 {
      var header := [0, 0, 0, 0, 0, 0, lost + 8];
      Padded(header, Head(lost)[7..], INNER);
      assert Head(lost) == header + Head(lost)[7..];
    }
  }

  lemma Padded(a: seq<byte>, b: seq<byte>, c: seq<byte>)
    ensures a + (b + c) == a + b + c
  {
  }

  /** Up to three bytes: the length read is that of the rest of the header. */
  lemma EarlyFound(lost: nat)
    requires 1 <= lost <= 3
    ensures AllFit(Found(lost)) && [0, 0, 0, 0, 0, 0, 0][lost..] + Head(lost) == EncodeAll(Found(lost))
  {
    HeaderBytes(Found(lost)[0]);
    EncodeTwo(Found(lost)[0], EMPTY);
    hide Encode, EncodeAll;
  }

  /** The empty frame read second, whose header starts within the first one's. */
  function Between(lost: nat): seq<byte>
    requires 4 <= lost <= 6
  {
    if lost == 4 then [0, 0, 12, 0, 0, 0, 0] else if lost == 5 then [0, 13, 0, 0, 0, 0, 0] else [14, 0, 0, 0, 0, 0, 0]
  }

  lemma LateBytes(lost: nat)
    requires 4 <= lost <= 6
    ensures [0, 0, 0, 0, 0, 0, 0][lost..] + Head(lost) == [0, 0, 0, 0, 0, 0, 0] + Between(lost)
  {
    if lost == 4 {
      assert [0, 0, 0, 0, 0, 0, 0][4..] == [0, 0, 0];
    } else if lost == 5 {
      assert [0, 0, 0, 0, 0, 0, 0][5..] == [0, 0];
    } else {
      assert [0, 0, 0, 0, 0, 0, 0][6..] == [0];
    }
  }

  /** Four to six bytes: an empty frame is read, and another that starts in the header. */
  lemma LateFound(lost: nat)
    requires 4 <= lost <= 6
    ensures AllFit(Found(lost)) && [0, 0, 0, 0, 0, 0, 0][lost..] + Head(lost) == EncodeAll(Found(lost))
  {
    var g := Found(lost)[1];
    HeaderBytes(g);
    assert Encode(g) == Between(lost);
    FalseFrameBytes();
    LateBytes(lost);
    EncodeTwo(EMPTY, g);
    assert Found(lost) == [EMPTY, g];
    hide Encode, EncodeAll, Head, Between;
  }

  lemma SmallLoss(lost: nat)
    requires 1 <= lost <= 6
    ensures AllFit(Found(lost))
    ensures (Encode(EMPTY) + Encode(Second(lost)))[lost..] == EncodeAll(Found(lost)) + Encode(FALSE_FRAME)
  {
    FalseFrameBytes();
    SecondBytes(lost);
    if lost <= 3 {
      EarlyFound(lost);
    } else {
      LateFound(lost);
    }
    hide Encode, EncodeAll, Head, Found;
    Dropped(Encode(EMPTY), Head(lost), INNER, lost);
  }

  lemma Dropped(a: seq<byte>, b: seq<byte>, c: seq<byte>, lost: nat)
    requires lost <= |a|
    ensures (a + (b + c))[lost..] == a[lost..] + b + c
  {
  }

  // ---------------------------------------------------------------- every loss

  lemma DemuxFalse(found: seq<FrameValue>)
    requires AllFit(found) && forall i :: 0 <= i < |found| ==> !Carries(found[i], 1)
    ensures ReadAll(EncodeAll(found) + Encode(FALSE_FRAME)).0 == found + [FALSE_FRAME]
    ensures Demux(found + [FALSE_FRAME], 1) == [9]
  {
    hide ReadAll, EncodeAll, Encode, Demux;
    EncodeAllAppend(found, [FALSE_FRAME]);
    EncodeTwo(FALSE_FRAME, EMPTY);
    WholeFrames(found + [FALSE_FRAME]);
    DemuxAppend(found, [FALSE_FRAME], 1);
    NoneCarried(found, 1);
    OneCarried();
  }

  lemma OneCarried()
    ensures Demux([FALSE_FRAME], 1) == [9]
  {
    assert [FALSE_FRAME][1..] == [];
  }

  lemma {:induction false} NoneCarried(fs: seq<FrameValue>, id: uint16)
    requires forall i :: 0 <= i < |fs| ==> !Carries(fs[i], id)
    ensures Demux(fs, id) == []
  {
    if fs != [] {
      NoneCarried(fs[1..], id);
    }
  }

  lemma LossOfHeader()
    ensures |EncodeAll([FrameValue(0, 0, INNER)])| >= 7
    ensures EncodeAll([FrameValue(0, 0, INNER)])[7..] == EncodeAll([]) + Encode(FALSE_FRAME)
  {
    var f := FrameValue(0, 0, INNER);
    FalseFrameBytes();
    HeaderBytes(f);
    EncodeTwo(f, EMPTY);
    hide Encode;
  }

  lemma EmptyFirst(rest: seq<FrameValue>, lost: nat)
    requires AllFit(rest) && 7 <= lost <= 7 + |EncodeAll(rest)|
    ensures AllFit([EMPTY] + rest) && |EncodeAll([EMPTY] + rest)| == 7 + |EncodeAll(rest)|
    ensures EncodeAll([EMPTY] + rest)[lost..] == EncodeAll(rest)[lost - 7..]
  {
    assert ([EMPTY] + rest)[1..] == rest;
    hide Encode;
  }

  /** For every loss there are frames, none of stream 1, of whose bytes without the first
      `lost` a reader makes a byte of stream 1. */
  lemma {:induction false} Misreading(lost: nat) returns (w: seq<FrameValue>)
    requires lost > 0
    ensures AllFit(w) && forall i :: 0 <= i < |w| ==> w[i].streamId != 1 || w[i].typ != 0x01
    ensures lost <= |EncodeAll(w)| && Demux(ReadAll(EncodeAll(w)[lost..]).0, 1) == [9]
    decreases lost
  {
    hide ReadAll, Demux, Encode, EncodeAll;
    if lost <= 6 {
      w := [EMPTY, Second(lost)];
      EncodeTwo(EMPTY, Second(lost));
      SmallLoss(lost);
      DemuxFalse(Found(lost));
    } else if lost == 7 {
      w := [FrameValue(0, 0, INNER)];
      LossOfHeader();
      DemuxFalse([]);
    } else {
      var rest := Misreading(lost - 7);
      w := [EMPTY] + rest;
      EmptyFirst(rest, lost);
    }
  }

  /** For all sources, streams, mixtures and cuts the shell's prefix is delivered if and
      only if no byte is missed. */
  lemma DeliversIff(lost: nat)
    ensures (forall source, plan, id, noise, w, cut :: Delivers(lost, source, plan, id, noise, w, cut)) <==> lost == 0
  {
    if lost == 0 {
      forall source, plan, id, noise, w, cut ensures Delivers(0, source, plan, id, noise, w, cut) {
        AllDeliver(source, plan, id, noise, w, cut);
      }
    } else {
      var w := NotDelivered(lost);
    }
  }

  lemma AllDeliver(source: seq<byte>, plan: seq<Slice>, id: uint16, noise: seq<FrameValue>, w: seq<FrameValue>, cut: nat)
    ensures Delivers(0, source, plan, id, noise, w, cut)
  {
    if && IsMerge(DataFrames(id, Chunks(source, plan, MAX_PAYLOAD)), noise, w) && AllFit(w)
       && (forall i :: 0 <= i < |noise| ==> noise[i].streamId != id || noise[i].typ != 0x01) && cut <= |EncodeAll(w)| {
      CutWirePrefix(source, plan, id, noise, w, cut);
      assert EncodeAll(w)[0..cut] == EncodeAll(w)[..cut];
    }
  }

  lemma NotDelivered(lost: nat) returns (w: seq<FrameValue>)
    requires lost > 0
    ensures AllFit(w) && !Delivers(lost, [], [], 1, w, w, |EncodeAll(w)|)
  {
    w := Misreading(lost);
    OthersAlone(w);
    assert Chunks([], [], MAX_PAYLOAD) == [] && DataFrames(1, []) == [];
    assert EncodeAll(w)[lost..|EncodeAll(w)|] == EncodeAll(w)[lost..];
    hide IsMerge, Chunks, DataFrames, ReadAll, Demux, EncodeAll;
  }

  lemma {:induction false} OthersAlone(w: seq<FrameValue>)
    ensures IsMerge([], w, w)
  {
    if w != [] {
      OthersAlone(w[1..]);
    }
  }
}
