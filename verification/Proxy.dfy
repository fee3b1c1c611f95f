/** `ProxyDataFrames`: a shell's bytes carried in DATA frames of one stream of a
    multiplexed transport, and taken out again at the far end. */
module Proxy {
  import opened Bytes
  import opened Streams
  import opened Frames
  import opened Transport
  import FrameIO

  // ---------------------------------------------------------------- the sending side

  function DataFrame(id: uint16, chunk: seq<byte>): FrameValue {
    FrameValue(id, FRAME_DATA, chunk)
  }

  function DataFrames(id: uint16, chunks: seq<seq<byte>>): (fs: seq<FrameValue>)
    ensures |fs| == |chunks|
    ensures forall i :: 0 <= i < |fs| ==> fs[i] == DataFrame(id, chunks[i])
  {
    seq(|chunks|, i requires 0 <= i < |chunks| => DataFrame(id, chunks[i]))
  }

  /** The reads that return without an error: each becomes one frame. */
  function Chunks(rest: seq<byte>, plan: seq<Slice>, room: nat): (c: seq<seq<byte>>)
    requires room > 0
    ensures forall i :: 0 <= i < |c| ==> |c[i]| <= room
    decreases |rest| + |plan|
  {
    if ReadEof(rest, plan, room) then []
    else
      var n := ReadSize(rest, plan, room);
      [rest[..n]] + Chunks(rest[n..], PlanTail(plan), room)
  }

  /** The bytes of the read that returns an error: the loop drops them. */
  function Dropped(rest: seq<byte>, plan: seq<Slice>, room: nat): (d: seq<byte>)
    requires room > 0
    decreases |rest| + |plan|
  {
    if ReadEof(rest, plan, room) then rest
    else Dropped(rest[ReadSize(rest, plan, room)..], PlanTail(plan), room)
  }

  /** What is sent and what is dropped make up the source. */
  lemma {:induction false} ChunksAndDropped(rest: seq<byte>, plan: seq<Slice>, room: nat)
    requires room > 0
    ensures Flatten(Chunks(rest, plan, room)) + Dropped(rest, plan, room) == rest
    decreases |rest| + |plan|
  {
    if !ReadEof(rest, plan, room) {
      var n := ReadSize(rest, plan, room);
      ChunksAndDropped(rest[n..], PlanTail(plan), room);
      assert rest == rest[..n] + rest[n..];
    }
  }

  /** A reader that never reports the end of file together with bytes. */
  predicate EndsAlone(plan: seq<Slice>) {
    forall i :: 0 <= i < |plan| ==> plan[i].early ==> plan[i].n == 0
  }

  lemma {:induction false} EndsAloneDropsNothing(rest: seq<byte>, plan: seq<Slice>, room: nat)
    requires room > 0 && EndsAlone(plan)
    ensures Dropped(rest, plan, room) == []
    decreases |rest| + |plan|
  {
    if !ReadEof(rest, plan, room) {
      EndsAloneDropsNothing(rest[ReadSize(rest, plan, room)..], PlanTail(plan), room);
    }
  }

  /** A source on which a reader that is not `EndsAlone` loses its last byte. */
  lemma {:induction false} LosingSource(plan: seq<Slice>, room: nat) returns (rest: seq<byte>)
    requires room > 0 && !EndsAlone(plan)
    ensures rest != [] && Dropped(rest, plan, room) != []
    decreases |plan|
  {
    if plan[0].early && plan[0].n > 0 {
      rest := [0];
    } else {
      var tail := LosingSource(plan[1..], room);
      var n := Min(plan[0].n, room);
      rest := seq(n, i => 0) + tail;
      assert rest[n..] == tail;
    }
  }

  /** The whole source is sent, for every source, exactly when the shell's reader
      reports the end of file on its own. */
  lemma NothingDroppedIff(plan: seq<Slice>, room: nat)
    requires room > 0
    ensures (forall rest :: Dropped(rest, plan, room) == []) <==> EndsAlone(plan)
  {
    if EndsAlone(plan) {
      forall rest ensures Dropped(rest, plan, room) == [] {
        EndsAloneDropsNothing(rest, plan, room);
      }
    } else {
      var rest := LosingSource(plan, room);
      assert Dropped(rest, plan, room) != [];
    }
  }

  /** The arrays hold the encodings of the first chunks. */
  ghost predicate Carry(handed: seq<array<byte>>, id: uint16, chunks: seq<seq<byte>>)
    requires forall i :: 0 <= i < |chunks| ==> |chunks[i]| <= MAX_PAYLOAD
    reads handed
  {
    && |handed| <= |chunks|
    && forall i :: 0 <= i < |handed| ==> handed[i][..] == Encode(DataFrame(id, chunks[i]))
  }

  lemma CarryNext(handed: seq<array<byte>>, data: array<byte>, id: uint16, chunks: seq<seq<byte>>)
    requires forall i :: 0 <= i < |chunks| ==> |chunks[i]| <= MAX_PAYLOAD
    requires Carry(handed, id, chunks)
    requires |handed| < |chunks| && data[..] == Encode(DataFrame(id, chunks[|handed|]))
    ensures Carry(handed + [data], id, chunks)
  {
    hide Encode;
  }

  /** What a connection has taken, and what it will still take. */
  datatype Wire = Wire(written: seq<byte>, room: nat)

  function Taking(w: Wire, data: seq<byte>): Wire {
    var n := Min(|data|, w.room);
    Wire(w.written + data[..n], w.room - n)
  }

  datatype SendEnd = ShellEnded | TransportBroke

  datatype Turn = Stopped(end: SendEnd) | Sent

  /** One turn of the shell-to-transport loop: read, frame, marshal, write. The
      marshalled frame does not share the read buffer. */
  method SendOne(shell: Stream, transport: RelayTransport, id: uint16, buf: array<byte>)
    returns (turn: Turn, data: array<byte>)
    requires transport.conn != null && buf.Length == MAX_PAYLOAD
    modifies shell, transport.conn.outgoing, buf
    ensures fresh(data)
    ensures var out := transport.conn.outgoing;
            if ReadEof(old(shell.rest), old(shell.plan), MAX_PAYLOAD) then
              turn == Stopped(ShellEnded) && out.written == old(out.written) && out.room == old(out.room)
            else
              var n := ReadSize(old(shell.rest), old(shell.plan), MAX_PAYLOAD);
              var bytes := Encode(DataFrame(id, old(shell.rest)[..n]));
              && shell.rest == old(shell.rest)[n..] && shell.plan == PlanTail(old(shell.plan))
              && data[..] == bytes
              && Wire(out.written, out.room) == Taking(old(Wire(out.written, out.room)), bytes)
              && turn == if |bytes| <= old(out.room) then Sent else Stopped(TransportBroke)
  {
    data := new byte[0];
    var n, eof := shell.Read(buf, 0);
    if eof {
      return Stopped(ShellEnded), data;
    }
    ghost var chunk := old(shell.rest)[..n];
    assert buf[..n] == chunk;
    var frame := new FrameIO.Frame(id, FRAME_DATA, buf, n);
    var m := frame.MarshalBinary();
    data := m.value;
    assert data[..] + [] == data[..];
    DecodeEncode(DataFrame(id, chunk), []);
    var w := transport.WriteFrame(data);
    assert data[..FrameSize(data[..])] == data[..];
    return if w.Written? then Sent else Stopped(TransportBroke), data;
  }

  /** The same turn, with the log of frames handed over kept up to date. */
  method SendTurn(shell: Stream, transport: RelayTransport, id: uint16, buf: array<byte>,
                  handed: seq<array<byte>>, ghost all: seq<seq<byte>>, ghost w0: Wire)
    returns (turn: Turn, handed': seq<array<byte>>)
    requires transport.conn != null && buf.Length == MAX_PAYLOAD && buf !in handed
    requires forall i :: 0 <= i < |all| ==> |all[i]| <= MAX_PAYLOAD
    requires Carry(handed, id, all)
    requires var out := transport.conn.outgoing;
             SendState(Sent, id, all, |handed|, shell.rest, shell.plan, w0, Wire(out.written, out.room))
    modifies shell, transport.conn.outgoing, buf
    ensures forall i :: 0 <= i < |handed'| ==> fresh(handed'[i]) || handed'[i] in handed
    ensures buf !in handed'
    ensures Carry(handed', id, all)
    ensures var out := transport.conn.outgoing;
            SendState(turn, id, all, |handed'|, shell.rest, shell.plan, w0, Wire(out.written, out.room))
    ensures turn.Sent? ==> |shell.rest| + |shell.plan| < old(|shell.rest| + |shell.plan|)
  {
    hide Encode, EncodeAll, DataFrames, Chunks, ReadEof, ReadSize, Taking, SendState, Carry;
    var out := transport.conn.outgoing;
    SendStep(id, all, |handed|, shell.rest, shell.plan, w0, Wire(out.written, out.room));
    var data;
    turn, data := SendOne(shell, transport, id, buf);
    handed' := handed;
    if turn != Stopped(ShellEnded) {
      CarryNext(handed, data, id, all);
      handed' := handed + [data];
    }
  }

  /** Shell to transport. One read buffer serves every turn; `handed` lists the
      marshalled frames given to the transport, and they still hold the bytes they
      were made from when the loop ends. */
  method SendLoop(shell: Stream, transport: RelayTransport, id: uint16)
    returns (end: SendEnd, handed: seq<array<byte>>)
    requires transport.conn != null
    modifies shell, transport.conn.outgoing
    ensures var wire := EncodeAll(DataFrames(id, Chunks(old(shell.rest), old(shell.plan), MAX_PAYLOAD)));
            var out := transport.conn.outgoing;
            && Wire(out.written, out.room) == Taking(old(Wire(out.written, out.room)), wire)
            && (end.ShellEnded? <==> |wire| <= old(out.room))
    ensures Carry(handed, id, Chunks(old(shell.rest), old(shell.plan), MAX_PAYLOAD))
    ensures end.ShellEnded? ==> |handed| == |Chunks(old(shell.rest), old(shell.plan), MAX_PAYLOAD)|
  {
    var out := transport.conn.outgoing;
    ghost var all := Chunks(shell.rest, shell.plan, MAX_PAYLOAD);
    ghost var w0 := Wire(out.written, out.room);
    var buf := new byte[MAX_PAYLOAD];
    var turn := Sent;
    handed := [];
    SendStart(id, shell.rest, shell.plan, w0);
    assert Carry(handed, id, all);
    hide EncodeAll, DataFrames, Chunks, Taking, SendState, Carry;
    while turn.Sent?
      invariant fresh(buf) && fresh(set a | a in handed) && buf !in handed
      invariant Carry(handed, id, all)
      invariant SendState(turn, id, all, |handed|, shell.rest, shell.plan, w0, Wire(out.written, out.room))
      decreases turn.Sent?, |shell.rest| + |shell.plan|
    {
      turn, handed := SendTurn(shell, transport, id, buf, handed, all, w0);
    }
    SendDone(turn, id, all, |handed|, shell.rest, shell.plan, w0, Wire(out.written, out.room));
    end := turn.end;
  }

  /** Where the loop stands after `k` frames: between turns all of them have gone
      out whole; at the end the wire has what fits of all frames. */
  ghost predicate SendState(turn: Turn, id: uint16, all: seq<seq<byte>>, k: nat,
                            rest: seq<byte>, plan: seq<Slice>, w0: Wire, w: Wire)
    requires forall i :: 0 <= i < |all| ==> |all[i]| <= MAX_PAYLOAD
  {
    && k <= |all|
    && match turn
       case Sent =>
         var done := EncodeAll(DataFrames(id, all[..k]));
         all[k..] == Chunks(rest, plan, MAX_PAYLOAD) && |done| <= w0.room && w == Taking(w0, done)
       case Stopped(end) =>
         var wire := EncodeAll(DataFrames(id, all));
         w == Taking(w0, wire) && (end.ShellEnded? <==> |wire| <= w0.room) && (end.ShellEnded? ==> k == |all|)
  }

  lemma SendStart(id: uint16, rest: seq<byte>, plan: seq<Slice>, w0: Wire)
    ensures SendState(Sent, id, Chunks(rest, plan, MAX_PAYLOAD), 0, rest, plan, w0, w0)
  {
    var all := Chunks(rest, plan, MAX_PAYLOAD);
    assert EncodeAll(DataFrames(id, all[..0])) == [];
    assert w0.written + [] == w0.written;
  }

  lemma SendDone(turn: Turn, id: uint16, all: seq<seq<byte>>, k: nat, rest: seq<byte>, plan: seq<Slice>, w0: Wire, w: Wire)
    requires forall i :: 0 <= i < |all| ==> |all[i]| <= MAX_PAYLOAD
    requires turn.Stopped? && SendState(turn, id, all, k, rest, plan, w0, w)
    ensures var wire := EncodeAll(DataFrames(id, all));
            w == Taking(w0, wire) && (turn.end.ShellEnded? <==> |wire| <= w0.room) && (turn.end.ShellEnded? ==> k == |all|)
  {
  }

  /** One turn: the source ends, or the next frame goes out whole, or the
      connection breaks inside it. */
  lemma SendStep(id: uint16, all: seq<seq<byte>>, k: nat, rest: seq<byte>, plan: seq<Slice>, w0: Wire, w: Wire)
    requires forall i :: 0 <= i < |all| ==> |all[i]| <= MAX_PAYLOAD
    requires SendState(Sent, id, all, k, rest, plan, w0, w)
    ensures ReadEof(rest, plan, MAX_PAYLOAD) ==>
              forall rest', plan' :: SendState(Stopped(ShellEnded), id, all, k, rest', plan', w0, w)
    ensures !ReadEof(rest, plan, MAX_PAYLOAD) ==>
              var n := ReadSize(rest, plan, MAX_PAYLOAD);
              var bytes := Encode(DataFrame(id, rest[..n]));
              && k < |all| && all[k] == rest[..n]
              && |rest[n..]| + |PlanTail(plan)| < |rest| + |plan|
              && SendState(if |bytes| <= w.room then Sent else Stopped(TransportBroke),
                           id, all, k + 1, rest[n..], PlanTail(plan), w0, Taking(w, bytes))
  {
    NextChunk(all, k, rest, plan);
    if k == |all| {
      assert all[..k] == all;
    } else {
      SendNext(id, all, k, w0, w);
    }
  }

  lemma SendNext(id: uint16, all: seq<seq<byte>>, k: nat, w0: Wire, w: Wire)
    requires k < |all| && forall i :: 0 <= i < |all| ==> |all[i]| <= MAX_PAYLOAD
    requires var done := EncodeAll(DataFrames(id, all[..k])); |done| <= w0.room && w == Taking(w0, done)
    ensures var bytes := Encode(DataFrame(id, all[k]));
            var done := EncodeAll(DataFrames(id, all[..k + 1]));
            var wire := EncodeAll(DataFrames(id, all));
            if |bytes| <= w.room then |done| <= w0.room && Taking(w, bytes) == Taking(w0, done)
            else Taking(w, bytes) == Taking(w0, wire) && |wire| > w0.room
  {
    NextOnWire(id, all, k);
    hide Encode, EncodeAll, DataFrames, Taking;
    var done := EncodeAll(DataFrames(id, all[..k]));
    var bytes := Encode(DataFrame(id, all[k]));
    TakingTwice(w0, done, bytes);
    if |bytes| > w.room {
      TakingCut(w0, done + bytes, EncodeAll(DataFrames(id, all)));
    }
  }

  lemma TakingTwice(w: Wire, a: seq<byte>, b: seq<byte>)
    requires |a| <= w.room
    ensures Taking(w, a).room == w.room - |a|
    ensures Taking(Taking(w, a), b) == Taking(w, a + b)
  {
    var n := Min(|b|, w.room - |a|);
    assert a[..|a|] == a;
    assert (a + b)[..|a| + n] == a + b[..n];
    assert w.written + a + b[..n] == w.written + (a + b[..n]);
  }

  lemma TakingCut(w: Wire, a: seq<byte>, whole: seq<byte>)
    requires a <= whole && |a| > w.room
    ensures Taking(w, a) == Taking(w, whole)
  {
    assert a[..w.room] == whole[..w.room];
  }

  lemma NextChunk(all: seq<seq<byte>>, k: nat, rest: seq<byte>, plan: seq<Slice>)
    requires k <= |all| && all[k..] == Chunks(rest, plan, MAX_PAYLOAD)
    ensures ReadEof(rest, plan, MAX_PAYLOAD) ==> k == |all|
    ensures !ReadEof(rest, plan, MAX_PAYLOAD) ==>
              var n := ReadSize(rest, plan, MAX_PAYLOAD);
              && k < |all| && all[k] == rest[..n]
              && all[k + 1..] == Chunks(rest[n..], PlanTail(plan), MAX_PAYLOAD)
              && |rest[n..]| + |PlanTail(plan)| < |rest| + |plan|
  {
    if !ReadEof(rest, plan, MAX_PAYLOAD) {
      assert all[k] == all[k..][0];
      assert all[k + 1..] == all[k..][1..];
    }
  }

  /** The wire after `k` frames is followed by frame `k`. */
  lemma NextOnWire(id: uint16, all: seq<seq<byte>>, k: nat)
    requires k < |all| && AllFit(DataFrames(id, all))
    ensures var before := EncodeAll(DataFrames(id, all[..k]));
            var upto := EncodeAll(DataFrames(id, all[..k + 1]));
            && upto == before + Encode(DataFrame(id, all[k]))
            && upto <= EncodeAll(DataFrames(id, all))
  {
    hide Encode;
    var fs := DataFrames(id, all);
    assert DataFrames(id, all[..k]) == fs[..k];
    assert DataFrames(id, all[..k + 1]) == fs[..k] + [fs[k]];
    assert fs == fs[..k] + [fs[k]] + fs[k + 1..];
    EncodeAllAppend(fs[..k], [fs[k]]);
    EncodeAllSingle(fs[k]);
    EncodeAllAppend(fs[..k] + [fs[k]], fs[k + 1..]);
  }

  // ---------------------------------------------------------------- the receiving side

  predicate Carries(f: FrameValue, id: uint16) {
    f.streamId == id && f.typ == FRAME_DATA
  }

  /** The payloads of one stream's DATA frames. */
  function Demux(fs: seq<FrameValue>, id: uint16): seq<byte> {
    if fs == [] then []
    else (if Carries(fs[0], id) then fs[0].payload else []) + Demux(fs[1..], id)
  }

  /** Frame by frame: the payload of a DATA frame of the stream, and nothing of any other. */
  lemma DemuxEach(f: FrameValue, fs: seq<FrameValue>, id: uint16)
    ensures Demux([], id) == []
    ensures f.streamId == id && f.typ == 0x01 ==> Demux([f] + fs, id) == f.payload + Demux(fs, id)
    ensures f.streamId != id || f.typ != 0x01 ==> Demux([f] + fs, id) == Demux(fs, id)
  {
    assert ([f] + fs)[1..] == fs;
  }

  datatype RecvEnd = TransportEnded | ShellBroke

  datatype RecvStep = Finished(end: RecvEnd) | Received

  /** One turn of the transport-to-shell loop: read a frame, filter, write. */
  method RecvTurn(transport: RelayTransport, shell: Sink, id: uint16) returns (step: RecvStep)
    requires transport.conn != null
    modifies transport.conn.incoming, shell
    ensures transport.conn.incoming.rest == ReadFrom(old(transport.conn.incoming.rest)).1
    ensures var s := old(transport.conn.incoming.rest);
            if !Accepts(s) then
              step == Finished(TransportEnded) && shell.written == old(shell.written) && shell.room == old(shell.room)
            else
              var f := FrameOf(s);
              var data := if f.streamId == id && f.typ == 0x01 then f.payload else [];
              && Wire(shell.written, shell.room) == Taking(old(Wire(shell.written, shell.room)), data)
              && step == if |data| <= old(shell.room) then Received else Finished(ShellBroke)
  {
    ghost var s := transport.conn.incoming.rest;
    var r := transport.ReadFrame();
    if r.Failure? {
      return Finished(TransportEnded);
    }
    var empty := new byte[0];
    var frame := new FrameIO.Frame(0, 0, empty, 0);
    AcceptsOwnFrame(s);
    var u := frame.UnmarshalBinary(transport.word, r.value);
    if frame.streamId == id && frame.typ == FRAME_DATA {
      assert frame.payload[..frame.size] == FrameOf(s).payload;
      var ok := shell.Write(frame.payload[..frame.size]);
      return if ok then Received else Finished(ShellBroke);
    }
    assert shell.written + [] == shell.written;
    return Received;
  }

  lemma AcceptsOwnFrame(s: seq<byte>)
    requires Accepts(s)
    ensures Accepts(s[..FrameSize(s)]) && FrameOf(s[..FrameSize(s)]) == FrameOf(s)
  {
    EncodeDecode(s);
    DecodeEncode(FrameOf(s), []);
    assert Encode(FrameOf(s)) + [] == s[..FrameSize(s)];
  }

  /** Transport to shell: the shell gets this stream's bytes, in order, until the
      transport or the shell ends. */
  method RecvLoop(transport: RelayTransport, shell: Sink, id: uint16) returns (end: RecvEnd)
    requires transport.conn != null
    modifies transport.conn.incoming, shell
    ensures var bytes := Demux(ReadAll(old(transport.conn.incoming.rest)).0, id);
            && Wire(shell.written, shell.room) == Taking(old(Wire(shell.written, shell.room)), bytes)
            && (end.TransportEnded? <==> |bytes| <= old(shell.room))
  {
    var incoming := transport.conn.incoming;
    ghost var all := Demux(ReadAll(incoming.rest).0, id);
    ghost var w0 := Wire(shell.written, shell.room);
    TakingNothing(w0);
    ghost var done: seq<byte> := [];
    assert [] + all == all;
    var step := Received;
    hide Accepts, FrameOf, FrameSize, Taking, ReadAll, ReadFrom, Demux, RecvState;
    RecvStart(id, incoming.rest, w0);
    while step.Received?
      invariant RecvState(step, id, all, done, incoming.rest, w0, Wire(shell.written, shell.room))
      decreases step.Received?, |incoming.rest|
    {
      ghost var data := RecvNext(id, all, done, incoming.rest, w0, Wire(shell.written, shell.room));
      step := RecvTurn(transport, shell, id);
      done := done + data;
    }
    RecvDone(step, id, all, done, incoming.rest, w0, Wire(shell.written, shell.room));
    end := step.end;
  }

  /** Where the loop stands once `done` has been written: between turns the rest of
      the stream holds the rest of the data; at the end the shell has what fits. */
  ghost predicate RecvState(step: RecvStep, id: uint16, all: seq<byte>, done: seq<byte>, rest: seq<byte>, w0: Wire, w: Wire) {
    match step
    case Received => |done| <= w0.room && w == Taking(w0, done) && all == done + Demux(ReadAll(rest).0, id)
    case Finished(end) => w == Taking(w0, all) && (end.TransportEnded? <==> |all| <= w0.room)
  }

  lemma RecvStart(id: uint16, rest: seq<byte>, w0: Wire)
    ensures RecvState(Received, id, Demux(ReadAll(rest).0, id), [], rest, w0, w0)
  {
    TakingNothing(w0);
    hide Taking;
    assert [] + Demux(ReadAll(rest).0, id) == Demux(ReadAll(rest).0, id);
  }

  lemma RecvDone(step: RecvStep, id: uint16, all: seq<byte>, done: seq<byte>, rest: seq<byte>, w0: Wire, w: Wire)
    requires step.Finished? && RecvState(step, id, all, done, rest, w0, w)
    ensures w == Taking(w0, all) && (step.end.TransportEnded? <==> |all| <= w0.room)
  {
  }

  /** One turn: the stream ends, or the next frame's data is written whole, or the
      shell breaks inside it. */
  lemma RecvNext(id: uint16, all: seq<byte>, done: seq<byte>, rest: seq<byte>, w0: Wire, w: Wire) returns (data: seq<byte>)
    requires RecvState(Received, id, all, done, rest, w0, w)
    ensures data == if Accepts(rest) && Carries(FrameOf(rest), id) then FrameOf(rest).payload else []
    ensures Accepts(rest) ==> |ReadFrom(rest).1| < |rest|
    ensures var step := if !Accepts(rest) then Finished(TransportEnded)
                        else if |data| <= w.room then Received else Finished(ShellBroke);
            RecvState(step, id, all, done + data, ReadFrom(rest).1, w0, if Accepts(rest) then Taking(w, data) else w)
  {
    data := DemuxStep(rest, id);
    hide Accepts, FrameOf, Taking, ReadAll, ReadFrom, Demux;
    if Accepts(rest) {
      TakingNext(all, done, data, Demux(ReadAll(ReadFrom(rest).1).0, id), w0);
    } else {
      assert data + [] == [] && done + [] == done;
    }
  }

  /** Taking the next part of a whole: it fits, or the whole is cut inside it. */
  lemma TakingNext(whole: seq<byte>, done: seq<byte>, next: seq<byte>, more: seq<byte>, w0: Wire)
    requires whole == done + (next + more) && |done| <= w0.room
    ensures whole == done + next + more
    ensures var w := Taking(w0, done);
            if |next| <= w.room then |done + next| <= w0.room && Taking(w, next) == Taking(w0, done + next)
            else Taking(w, next) == Taking(w0, whole) && |whole| > w0.room
  {
    assert whole == done + next + more;
    TakingTwice(w0, done, next);
    hide Taking;
    if |next| > Taking(w0, done).room {
      TakingCut(w0, done + next, whole);
    }
  }

  lemma TakingNothing(w: Wire)
    ensures Taking(w, []) == w
  {
    assert w.written + [] == w.written;
  }

  lemma DemuxStep(s: seq<byte>, id: uint16) returns (data: seq<byte>)
    ensures data == if Accepts(s) && Carries(FrameOf(s), id) then FrameOf(s).payload else []
    ensures Accepts(s) ==> |ReadFrom(s).1| < |s|
    ensures Demux(ReadAll(s).0, id) == data + (if Accepts(s) then Demux(ReadAll(ReadFrom(s).1).0, id) else [])
  {
    data := if Accepts(s) && Carries(FrameOf(s), id) then FrameOf(s).payload else [];
    if Accepts(s) {
      var fs := ReadAll(s).0;
      assert fs[1..] == ReadAll(s[FrameSize(s)..]).0;
    }
  }

  // ---------------------------------------------------------------- end to end

  /** `w` is the frames of `a` and of `b`, each in its own order. */
  predicate IsMerge(a: seq<FrameValue>, b: seq<FrameValue>, w: seq<FrameValue>) {
    if w == [] then a == [] && b == []
    else
      || (a != [] && a[0] == w[0] && IsMerge(a[1..], b, w[1..]))
      || (b != [] && b[0] == w[0] && IsMerge(a, b[1..], w[1..]))
  }

  /** The part of `w` marked with `side`. */
  function Marked(w: seq<FrameValue>, marks: seq<bool>, side: bool): (r: seq<FrameValue>)
    requires |marks| == |w|
  {
    if w == [] then []
    else (if marks[0] == side then [w[0]] else []) + Marked(w[1..], marks[1..], side)
  }

  /** A mixture is any sequence whose frames can be marked as the ones or the others, each
      in their order. */
  lemma MergeIff(a: seq<FrameValue>, b: seq<FrameValue>, w: seq<FrameValue>)
    ensures IsMerge(a, b, w) <==>
            exists marks: seq<bool> :: |marks| == |w| && Marked(w, marks, true) == a && Marked(w, marks, false) == b
  {
    if IsMerge(a, b, w) {
      var marks := MergeMarks(a, b, w);
    }
    forall marks: seq<bool> | |marks| == |w| && Marked(w, marks, true) == a && Marked(w, marks, false) == b
      ensures IsMerge(a, b, w)
    {
      MarkedMerge(w, marks);
    }
  }

  lemma {:induction false} MergeMarks(a: seq<FrameValue>, b: seq<FrameValue>, w: seq<FrameValue>)
    returns (marks: seq<bool>)
    requires IsMerge(a, b, w)
    ensures |marks| == |w| && Marked(w, marks, true) == a && Marked(w, marks, false) == b
  {
    if w == [] {
      marks := [];
    } else if a != [] && a[0] == w[0] && IsMerge(a[1..], b, w[1..]) {
      var rest := MergeMarks(a[1..], b, w[1..]);
      marks := [true] + rest;
      assert marks[1..] == rest && a == [w[0]] + a[1..];
    } else {
      var rest := MergeMarks(a, b[1..], w[1..]);
      marks := [false] + rest;
      assert marks[1..] == rest && b == [w[0]] + b[1..];
    }
  }

  lemma {:induction false} MarkedMerge(w: seq<FrameValue>, marks: seq<bool>)
    requires |marks| == |w|
    ensures IsMerge(Marked(w, marks, true), Marked(w, marks, false), w)
  {
    if w != [] {
      MarkedMerge(w[1..], marks[1..]);
      assert Marked(w, marks, marks[0])[1..] == Marked(w[1..], marks[1..], marks[0]);
      assert Marked(w, marks, !marks[0]) == Marked(w[1..], marks[1..], !marks[0]);
    }
  }

  lemma {:induction false} DemuxAppend(a: seq<FrameValue>, b: seq<FrameValue>, id: uint16)
    ensures Demux(a + b, id) == Demux(a, id) + Demux(b, id)
  {
    if a == [] {
      assert a + b == b;
    } else {
      assert (a + b)[1..] == a[1..] + b;
      DemuxAppend(a[1..], b, id);
    }
  }

  lemma DemuxMonotone(a: seq<FrameValue>, b: seq<FrameValue>, id: uint16)
    requires a <= b
    ensures Demux(a, id) <= Demux(b, id)
  {
    assert b == a + b[|a|..];
    DemuxAppend(a, b[|a|..], id);
  }

  /** Other streams' frames and this stream's control frames do not disturb its data. */
  lemma {:induction false} DemuxOfMerge(a: seq<FrameValue>, b: seq<FrameValue>, w: seq<FrameValue>, id: uint16)
    requires IsMerge(a, b, w)
    requires forall i :: 0 <= i < |b| ==> !Carries(b[i], id)
    ensures Demux(w, id) == Demux(a, id)
  {
    if w != [] {
      if a != [] && a[0] == w[0] && IsMerge(a[1..], b, w[1..]) {
        DemuxOfMerge(a[1..], b, w[1..], id);
      } else {
        DemuxOfMerge(a, b[1..], w[1..], id);
      }
    }
  }

  lemma {:induction false} DemuxOfData(chunks: seq<seq<byte>>, id: uint16)
    ensures Demux(DataFrames(id, chunks), id) == Flatten(chunks)
  {
    if chunks != [] {
      assert DataFrames(id, chunks)[1..] == DataFrames(id, chunks[1..]);
      DemuxOfData(chunks[1..], id);
    }
  }

  lemma WholeFrames(w: seq<FrameValue>)
    requires AllFit(w)
    ensures ReadAll(EncodeAll(w)) == (w, [])
  {
    ReadAllEncodeAll(w, []);
    NoFramesInNothing();
    assert EncodeAll(w) + [] == EncodeAll(w) && w + [] == w;
  }

  /** End to end: whatever the source, however its reads fall, and however its
      frames are mixed with others on the wire, the far shell gets the source up to
      the bytes the sending loop drops at its end. */
  lemma EndToEnd(source: seq<byte>, plan: seq<Slice>, id: uint16, others: seq<FrameValue>, w: seq<FrameValue>)
    requires IsMerge(DataFrames(id, Chunks(source, plan, MAX_PAYLOAD)), others, w)
    requires AllFit(w) && forall i :: 0 <= i < |others| ==> others[i].streamId != id || others[i].typ != 0x01
    ensures Demux(ReadAll(EncodeAll(w)).0, id) + Dropped(source, plan, MAX_PAYLOAD) == source
    ensures EndsAlone(plan) ==> Demux(ReadAll(EncodeAll(w)).0, id) == source
  {
    var chunks := Chunks(source, plan, MAX_PAYLOAD);
    WholeFrames(w);
    DemuxOfMerge(DataFrames(id, chunks), others, w, id);
    DemuxOfData(chunks, id);
    ChunksAndDropped(source, plan, MAX_PAYLOAD);
    if EndsAlone(plan) {
      EndsAloneDropsNothing(source, plan, MAX_PAYLOAD);
    }
  }

  /** And when the wire is cut anywhere, what has been written is a prefix of the source. */
  lemma CutWirePrefix(source: seq<byte>, plan: seq<Slice>, id: uint16, others: seq<FrameValue>, w: seq<FrameValue>,
                      cut: nat)
    requires IsMerge(DataFrames(id, Chunks(source, plan, MAX_PAYLOAD)), others, w)
    requires AllFit(w) && forall i :: 0 <= i < |others| ==> others[i].streamId != id || others[i].typ != 0x01
    requires cut <= |EncodeAll(w)|
    ensures Demux(ReadAll(EncodeAll(w)[..cut]).0, id) <= source
  {
    hide *;
    EndToEnd(source, plan, id, others, w);
    var wire := EncodeAll(w);
    assert wire == wire[..cut] + wire[cut..];
    ReadAllMonotone(wire[..cut], wire[cut..]);
    DemuxMonotone(ReadAll(wire[..cut]).0, ReadAll(wire).0, id);
  }
}
