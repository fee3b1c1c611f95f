/** The relay's client: it reads its acknowledgement through a buffer that is thrown away,
    and its frames from the bare connection. */
module RelayClient {
  import opened Bytes
  import opened Wrappers
  import opened Streams
  import opened RelayTable
  import opened RelayModel
  import opened RelayBytes
  import opened RelayQuiet
  import Handshake
  import Frames
  import Proxy
  import Transport
  import Misread
  import RelayOverlap

  // ---------------------------------------------------------------- the code

  /** The client's connection up to its frames, and then the loop that writes a shell:
      what the loop reads is what the acknowledgement's reader has left. */
  method AckThenReceive(transport: Transport.RelayTransport, shell: Sink, id: uint16)
    returns (accepted: bool, lost: seq<byte>)
    requires transport.conn != null
    modifies transport.conn.incoming, shell
    ensures var all := old(transport.conn.incoming.rest);
            && (accepted <==> |all| >= 5 && all[..5] == OK_ACK)
            && (accepted ==>
                  && lost == Lost(all, old(transport.conn.incoming.plan))
                  && Proxy.Wire(shell.written, shell.room)
                     == Proxy.Taking(old(Proxy.Wire(shell.written, shell.room)),
                                     Proxy.Demux(Frames.ReadAll(all[5 + |lost|..]).0, id)))
            && (!accepted ==> shell.written == old(shell.written))
  {
    var incoming := transport.conn.incoming;
    ghost var all := incoming.rest;
    AcceptedPrefix(all);
    var ack;
    ack, lost := Handshake.ReadHandshakeAck(incoming);
    accepted := ack == Success(Handshake.Accepted);
    if accepted {
      LeftAfter(all, lost, incoming.rest);
      var end := Proxy.RecvLoop(transport, shell, id);
    }
  }

  /** The bytes the throw-away buffer takes with a positive acknowledgement. */
  function Lost(out: seq<byte>, plan: seq<Slice>): (l: seq<byte>)
    requires |out| >= 5
    ensures 5 + |l| <= |out|
  {
    out[5..5 + Handshake.Swallowed(|out|, plan)]
  }

  lemma AcceptedPrefix(out: seq<byte>)
    ensures match Handshake.DecodeAck(out)
            case Success((a, n)) => a == Handshake.Accepted <==> |out| >= 5 && out[..5] == OK_ACK
            case Failure(_) => !(|out| >= 5 && out[..5] == OK_ACK)
    ensures |out| >= 5 && out[..5] == OK_ACK ==> Handshake.DecodeAck(out) == Success((Handshake.Accepted, 5))
  {
    if |out| >= 5 && out[..5] == OK_ACK {
      assert out[..4] == out[..5][..4];
      assert out[4] == out[..5][4];
    }
  }

  lemma LeftAfter(all: seq<byte>, lost: seq<byte>, rest: seq<byte>)
    requires |all| >= 5 && lost + rest == all[5..]
    ensures lost == all[5..5 + |lost|] && rest == all[5 + |lost|..]
  {
    assert lost == (lost + rest)[..|lost|] && rest == (lost + rest)[|lost|..];
    assert all[5..][..|lost|] == all[5..5 + |lost|];
  }

  // ---------------------------------------------------------------- in a run

  /** What has been written to a connection stays the beginning of what will be. */
  lemma StepKeepsOut(s: State, step: Step, c: ConnId)
    requires Enabled(s, step) && c < |s.conns|
    ensures c < |Apply(s, step).conns| && s.conns[c].out <= Apply(s, step).conns[c].out
  {
    hide CloseConns, ClosedWith, WithCopy, Lookup, AddPeer, CleanUpEmpty, AddBytes, MarkClosed, Shutdown, Forget;
  }

  lemma {:induction false} OutGrows(max: int, steps: seq<Step>, i: nat, c: ConnId)
    requires i <= |steps| && Run(Init(max), steps).Some? && Run(Init(max), steps[..i]).Some?
    requires c < |Run(Init(max), steps[..i]).value.conns|
    ensures c < |Run(Init(max), steps).value.conns|
    ensures Run(Init(max), steps[..i]).value.conns[c].out <= Run(Init(max), steps).value.conns[c].out
    decreases |steps|
  {
    if i == |steps| {
      assert steps[..i] == steps;
    } else {
      var before := steps[..|steps| - 1];
      assert before[..i] == steps[..i];
      OutGrows(max, before, i, c);
      StepKeepsOut(Run(Init(max), before).value, steps[|steps| - 1], c);
    }
  }

  /** Client `me` of session `r`, whose handlers do not overlap, reads its acknowledgement in
      state `at`, after `i` steps of the run, when all of it has been sent. */
  predicate Reads(max: int, steps: seq<Step>, s: State, i: nat, at: State, r: nat, me: ConnId, other: ConnId) {
    && Run(Init(max), steps) == Some(s) && i <= |steps| && Run(Init(max), steps[..i]) == Some(at)
    && me < |at.conns| && |at.conns[me].out| >= 5
    && r < |s.table.store| && Apart(s, r) && me < |s.conns| && other < |s.conns|
    && (s.table.store[r].peers == [me, other] || s.table.store[r].peers == [other, me])
  }

  /** It finds itself accepted; and the bytes its buffer swallows then, followed by those it
      can read ever after, are a prefix of what the other client sent. */
  lemma ClientReads(max: int, steps: seq<Step>, s: State, i: nat, at: State, r: nat, me: ConnId, other: ConnId,
                    plan: seq<Slice>)
    requires Reads(max, steps, s, i, at, r, me, other)
    ensures Handshake.DecodeAck(at.conns[me].out) == Success((Handshake.Accepted, 5))
    ensures var lost := Lost(at.conns[me].out, plan);
            && 5 + |lost| <= |s.conns[me].out|
            && lost + s.conns[me].out[5 + |lost|..] == s.conns[me].fwd <= s.conns[other].input
  {
    OutGrows(max, steps, i, me);
    ClientIsSent(max, steps, r, me, other);
    hide Run, Apart;
    var before, out := at.conns[me].out, s.conns[me].out;
    AcceptedPrefix(out);
    assert before[..5] == out[..5];
    AcceptedPrefix(before);
    var lost := Lost(before, plan);
    assert lost == out[5..5 + |lost|];
    assert out[5..] == out[5..5 + |lost|] + out[5 + |lost|..];
  }

  /** Shell to shell through the relay: if the buffer swallowed nothing, and the far client
      sends the frames of a shell mixed with others, the bytes this client demultiplexes are
      a prefix of the shell's, at every moment of the run. */
  lemma ShellToShell(max: int, steps: seq<Step>, s: State, i: nat, at: State, r: nat, me: ConnId, other: ConnId,
                     reader: seq<Slice>, source: seq<byte>, plan: seq<Slice>, id: uint16,
                     noise: seq<Frames.FrameValue>, w: seq<Frames.FrameValue>)
    requires Reads(max, steps, s, i, at, r, me, other) && Lost(at.conns[me].out, reader) == []
    requires Frames.AllFit(w) && s.conns[other].input == Frames.EncodeAll(w)
    requires Proxy.IsMerge(Proxy.DataFrames(id, Proxy.Chunks(source, plan, Frames.MAX_PAYLOAD)), noise, w)
    requires forall j :: 0 <= j < |noise| ==> noise[j].streamId != id || noise[j].typ != 0x01
    ensures |s.conns[me].out| >= 5
    ensures var got := s.conns[me].out[5..];
            && Frames.ReadAll(got).0 <= w
            && Proxy.Demux(Frames.ReadAll(got).0, id) <= source
  {
    ClientReads(max, steps, s, i, at, r, me, other, reader);
    hide *;
    assert [] + s.conns[me].out[5..] == s.conns[me].out[5..];
    PrefixDelivers(s.conns[me].out[5..], source, plan, id, noise, w);
  }

  lemma PrefixDelivers(got: seq<byte>, source: seq<byte>, plan: seq<Slice>, id: uint16,
                       noise: seq<Frames.FrameValue>, w: seq<Frames.FrameValue>)
    requires Frames.AllFit(w) && got <= Frames.EncodeAll(w)
    requires Proxy.IsMerge(Proxy.DataFrames(id, Proxy.Chunks(source, plan, Frames.MAX_PAYLOAD)), noise, w)
    requires forall j :: 0 <= j < |noise| ==> noise[j].streamId != id || noise[j].typ != 0x01
    ensures Frames.ReadAll(got).0 <= w && Proxy.Demux(Frames.ReadAll(got).0, id) <= source
  {
    hide *;
    var wire := Frames.EncodeAll(w);
    assert got == wire[..|got|] && got + wire[|got|..] == wire;
    Proxy.CutWirePrefix(source, plan, id, noise, w, |got|);
    Frames.ReadAllMonotone(got, wire[|got|..]);
    Proxy.WholeFrames(w);
  }

  /** Nothing is swallowed when nothing but the acknowledgement has been sent by then. */
  lemma NothingForwardedYet(out: seq<byte>, plan: seq<Slice>)
    requires out == OK_ACK
    ensures Lost(out, plan) == []
  {
    Handshake.SwallowsNothingIff(plan);
  }

  /** So a first arrival that reads its acknowledgement before another has joined, whatever
      its reads, loses nothing. */
  lemma AloneLosesNothing(max: int, steps: seq<Step>, at: State, r: nat, me: ConnId, plan: seq<Slice>)
    requires Run(Init(max), steps) == Some(at) && r < |at.table.store| && at.table.store[r].peers == [me]
    requires me < |at.conns| && |at.conns[me].out| >= 5
    ensures Lost(at.conns[me].out, plan) == []
  {
    RunKeepsAck(max, steps, r);
    RunConserves(max, steps);
    assert ByteInv(at, r);
    hide Run;
    assert OK_ACK[..5] + [] == OK_ACK;
    NothingForwardedYet(at.conns[me].out, plan);
  }

  /** A client's reader is safe, for all sources, streams, mixtures, and whatever has been
      forwarded when it reads its acknowledgement, if and only if its reads stop where the
      acknowledgement ends. */
  lemma ReaderDeliversIff(reader: seq<Slice>)
    ensures (forall avail, source, plan, id, noise, w, cut :: avail >= 5 ==>
               Misread.Delivers(Handshake.Swallowed(avail, reader), source, plan, id, noise, w, cut))
            <==> Handshake.StopsAt(reader, 5)
  {
    Handshake.SwallowsNothingIff(reader);
    Misread.DeliversIff(0);
    hide Misread.Delivers;
    if !Handshake.StopsAt(reader, 5) {
      var w := Misread.NotDelivered(1);
      assert Handshake.Swallowed(6, reader) == 1;
    }
  }

  const FIRST := Proxy.DataFrame(2, [1])
  const SECOND := Proxy.DataFrame(2, [2])

  lemma TwoFramesSent(out: seq<byte>)
    requires out == OK_ACK + Frames.EncodeAll([FIRST, SECOND])
    ensures |out| == 21 && Lost(out, [Slice(13, false)]) == Frames.Encode(FIRST)
    ensures Proxy.Demux(Frames.ReadAll(out[13..]).0, 2) == [2]
  {
    var a, b := Frames.Encode(FIRST), Frames.Encode(SECOND);
    Misread.EncodeTwo(FIRST, SECOND);
    Misread.EncodeTwo(SECOND, FIRST);
    assert out == OK_ACK + (a + b);
    assert out[5..13] == a && out[13..] == b;
    Proxy.WholeFrames([SECOND]);
    assert [SECOND][1..] == [];
    Handshake.LongRead(21, 13);
    hide Handshake.Swallowed, Frames.Encode, Frames.EncodeAll, Frames.ReadAll;
  }

  /** A second arrival can lose the other client's first frame: it is forwarded right after
      the acknowledgement, and one read takes both. What it then takes for the other shell's
      bytes, 2, is no prefix of the 1, 2 that were sent. */
  lemma FirstFrameLost() returns (steps: seq<Step>, s: State)
    ensures Reads(10, steps, s, |steps|, s, 0, 1, 0)
    ensures s.conns[0].input == Frames.EncodeAll([FIRST, SECOND]) && s.conns[1].fwd == s.conns[0].input
    ensures Lost(s.conns[1].out, [Slice(13, false)]) == Frames.Encode(FIRST)
    ensures Proxy.Demux(Frames.ReadAll(s.conns[1].out[13..]).0, 2) == [2]
  {
    var x := Frames.EncodeAll([FIRST, SECOND]);
    Misread.EncodeTwo(FIRST, SECOND);
    assert x != [];
    steps := RelayOverlap.AllForwarded(x);
    hide Run, Frames.EncodeAll, Frames.ReadAll, Frames.Encode, Lost, Proxy.Demux;
    s := Run(Init(10), steps).value;
    assert steps[..|steps|] == steps;
    TwoFramesSent(s.conns[1].out);
  }
}
