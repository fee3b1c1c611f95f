/** `RelayTransport`: whole frames over one connection. */
module Transport {
  import opened Bytes
  import opened Wrappers
  import opened Streams
  import opened Frames
  import FrameIO

  class Conn {
    const incoming: Stream
    const outgoing: Sink

    constructor (incoming: Stream, outgoing: Sink)
      ensures this.incoming == incoming && this.outgoing == outgoing
    {
      this.incoming, this.outgoing := incoming, outgoing;
    }
  }

  datatype WriteOutcome = Written | Refused(error: FrameError) | Broken

  class RelayTransport {
    const word: Word
    var conn: Conn?

    constructor (word: Word)
      ensures this.word == word && conn == null
    {
      this.word, conn := word, null;
    }

    method Open(c: Conn)
      modifies this
      ensures conn == c
    {
      conn := c;
    }

    /** Puts the frame at the start of `data` on the wire, byte for byte, and
        nothing when `data` does not start with a frame. */
    method WriteFrame(data: array<byte>) returns (r: WriteOutcome)
      requires Accepts(data[..]) ==> conn != null
      modifies if conn == null then {} else {conn.outgoing}
      ensures r.Refused? <==> !Accepts(data[..])
      ensures r.Refused? ==> Unmarshal(word, data[..]) == Failure(r.error)
      ensures r.Refused? && conn != null ==>
                && conn.outgoing.written == old(conn.outgoing.written) && conn.outgoing.room == old(conn.outgoing.room)
      ensures !r.Refused? ==>
                var n := FrameSize(data[..]);
                && (r.Written? <==> n <= old(conn.outgoing.room))
                && conn.outgoing.written == old(conn.outgoing.written) + data[..n][..Min(n, old(conn.outgoing.room))]
                && conn.outgoing.room == old(conn.outgoing.room) - Min(n, old(conn.outgoing.room))
    {
      var empty := new byte[0];
      var frame := new FrameIO.Frame(0, 0, empty, 0);
      var u := frame.UnmarshalBinary(word, data);
      if u.Failure? {
        DecodersAgree(word, data[..]);
        return Refused(u.error);
      }
      EncodeDecode(data[..]);
      assert Encode(frame.Value()) == data[..FrameSize(data[..])];
      var w, sent := frame.WriteTo(conn.outgoing);
      return if sent then Written else Broken;
    }

    /** Calls of `WriteFrame` in the order in which they take the lock, on a connection
        with room for them. */
    method WriteFrames(calls: seq<array<byte>>)
      requires conn != null && |WireAfterAll([], Contents(calls))| <= conn.outgoing.room
      modifies conn.outgoing
      ensures conn.outgoing.written == old(conn.outgoing.written) + WireAfterAll([], Contents(calls))
    {
      ghost var all := Contents(calls);
      ghost var written, room := conn.outgoing.written, conn.outgoing.room;
      assert written + [] == written;
      for i := 0 to |calls|
        invariant Contents(calls) == all
        invariant conn.outgoing.written == written + WireAfterAll([], all[..i])
        invariant conn.outgoing.room + |WireAfterAll([], all[..i])| == room
      {
        WireGrows(all, i);
        WriteOne(calls[i], written, WireAfterAll([], all[..i]));
      }
      assert all[..|calls|] == all;
    }

    method WriteOne(data: array<byte>, ghost before: seq<byte>, ghost wire: seq<byte>)
      requires conn != null && conn.outgoing.written == before + wire
      requires |WireAfter(wire, data[..])| - |wire| <= conn.outgoing.room
      modifies conn.outgoing
      ensures conn.outgoing.written == before + WireAfter(wire, data[..])
      ensures conn.outgoing.room == old(conn.outgoing.room) - (|WireAfter(wire, data[..])| - |wire|)
    {
      var r := WriteFrame(data);
      if Accepts(data[..]) {
        var n := FrameSize(data[..]);
        assert data[..n][..n] == data[..n] == data[..][..n];
        assert before + wire + data[..n] == before + (wire + data[..n]);
      }
    }

    /** Takes one frame off the connection and returns its encoding. */
    method ReadFrame() returns (r: Result<array<byte>, FrameError>)
      requires conn != null
      modifies conn.incoming
      ensures r.Success? <==> Accepts(old(conn.incoming.rest))
      ensures r.Success? ==>
                && fresh(r.value)
                && r.value[..] == old(conn.incoming.rest)[..FrameSize(old(conn.incoming.rest))]
      ensures r.Failure? ==> ReadFrom(old(conn.incoming.rest)).0 == Failure(r.error)
      ensures conn.incoming.rest == ReadFrom(old(conn.incoming.rest)).1
    {
      ghost var s := conn.incoming.rest;
      var f := FrameIO.ReadFrame(conn.incoming);
      if f.Failure? {
        return Failure(f.error);
      }
      EncodeDecode(s);
      r := f.value.MarshalBinary();
    }
  }

  // ---------------------------------------------------------------- what locked writes leave on the wire

  /** One `WriteFrame` call on a connection that does not break. */
  function WireAfter(wire: seq<byte>, data: seq<byte>): seq<byte> {
    if Accepts(data) then wire + data[..FrameSize(data)] else wire
  }

  /** Any number of calls, in the order in which they take the lock. */
  function WireAfterAll(wire: seq<byte>, calls: seq<seq<byte>>): seq<byte> {
    if calls == [] then wire
    else WireAfter(WireAfterAll(wire, calls[..|calls| - 1]), calls[|calls| - 1])
  }

  function Contents(calls: seq<array<byte>>): (r: seq<seq<byte>>)
    reads calls
    ensures |r| == |calls| && forall i :: 0 <= i < |calls| ==> r[i] == calls[i][..]
  {
    seq(|calls|, i requires 0 <= i < |calls| reads calls => calls[i][..])
  }

  /** One more call adds its frame, and what is on the wire never gets shorter. */
  lemma {:induction false} WireGrows(calls: seq<seq<byte>>, i: nat)
    requires i < |calls|
    ensures WireAfterAll([], calls[..i + 1]) == WireAfter(WireAfterAll([], calls[..i]), calls[i])
    ensures |WireAfterAll([], calls[..i + 1])| <= |WireAfterAll([], calls)|
    decreases |calls| - i
  {
    assert calls[..i + 1][..i] == calls[..i];
    if i + 1 < |calls| {
      WireGrows(calls, i + 1);
    } else {
      assert calls[..i + 1] == calls;
    }
  }

  function FramesOf(calls: seq<seq<byte>>): (fs: seq<FrameValue>)
    ensures AllFit(fs)
  {
    if calls == [] then []
    else
      var fs := FramesOf(calls[..|calls| - 1]);
      var last := calls[|calls| - 1];
      if Accepts(last) then fs + [FrameOf(last)] else fs
  }

  /** The wire is a concatenation of whole frames in lock order, and the peer
      reads exactly these frames. */
  lemma {:induction false} WireIsFrames(calls: seq<seq<byte>>)
    ensures WireAfterAll([], calls) == EncodeAll(FramesOf(calls))
    ensures ReadAll(WireAfterAll([], calls)) == (FramesOf(calls), [])
  {
    hide Encode, FrameOf, FrameSize, Accepts;
    if calls != [] {
      var before, last := calls[..|calls| - 1], calls[|calls| - 1];
      WireIsFrames(before);
      if Accepts(last) {
        EncodeDecode(last);
        var f := FrameOf(last);
        EncodeAllAppend(FramesOf(before), [f]);
        EncodeAllSingle(f);
      }
    }
    var fs := FramesOf(calls);
    ReadAllEncodeAll(fs, []);
    assert EncodeAll(fs) + [] == EncodeAll(fs);
    NoFramesInNothing();
    assert fs + [] == fs;
  }

  lemma EncodeAllSingle(f: FrameValue)
    requires Fits(f)
    ensures EncodeAll([f]) == Encode(f)
  {
    assert [f][1..] == [];
    assert Encode(f) + [] == Encode(f);
  }

  lemma NoFramesInNothing()
    ensures ReadAll([]) == ([], [])
  {
  }
}
