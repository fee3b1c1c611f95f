/** Sessions whose two handlers do not overlap between joining and counting: one relay,
    and acknowledgements first. Nothing is asked of other
    sessions, and the server may be shut down at any time. */
module RelayQuiet {
  import opened Wrappers
  import opened RelayTable
  import opened RelayModel
  import opened RelayControl
  import opened RelayBytes
  import opened RelayFlow
  import RelayStarts
  import Handshake

  /** Both peers have joined, and the first has counted one peer and gone to wait. */
  predicate Apart(s: State, r: nat)
    requires r < |s.table.store|
  {
    var peers := s.table.store[r].peers;
    |peers| == 2 && peers[0] < |s.pcs| && s.pcs[peers[0]] == Waiting(r)
  }

  // ---------------------------------------------------------------- what this means for the run

  /** Step `i` is the count of the first peer of `r`, and the step that fills the second
      slot comes after it: the two handlers do not overlap. */
  predicate CountThenJoin(max: int, steps: seq<Step>, i: nat, j: nat, r: nat, p: ConnId) {
    && i < j < |steps| && steps[i] == Count(p)
    && Run(Init(max), steps[..j]).Some? && RelayStarts.SecondJoin(Init(max), steps, j, r)
  }

  /** A waiting handler has returned: no step moves it. */
  lemma WaitingStays(s: State, step: Step, c: ConnId)
    requires Enabled(s, step) && c < |s.pcs| && s.pcs[c].Waiting?
    ensures c < |Apply(s, step).pcs| && Apply(s, step).pcs[c] == s.pcs[c]
  {
    hide CloseConns, ClosedWith, WithCopy, Lookup, AddPeer, CleanUpEmpty, AddBytes, MarkClosed, Shutdown, Forget;
  }

  /** Only a count makes a handler wait, and only when it does not find two peers. */
  lemma WaitingByCount(s: State, step: Step, c: ConnId)
    requires Enabled(s, step) && c < |Apply(s, step).pcs| && Apply(s, step).pcs[c].Waiting?
    requires |s.pcs| == |s.conns|
    ensures c < |s.pcs|
    ensures s.pcs[c] == Apply(s, step).pcs[c]
            || (step == Count(c) && At(s, c) && s.pcs[c].Counting? && s.pcs[c].s == Apply(s, step).pcs[c].s
                && |s.table.store[s.pcs[c].s].peers| != 2)
  {
    hide CloseConns, ClosedWith, Lookup, AddPeer, CleanUpEmpty, AddBytes, MarkClosed, Shutdown, Forget;
  }

  lemma {:induction false} CountFound(max: int, steps: seq<Step>, p: ConnId, r: nat) returns (i: nat)
    requires Run(Init(max), steps).Some?
    requires var s := Run(Init(max), steps).value; p < |s.pcs| && s.pcs[p] == Waiting(r)
    ensures i < |steps| && steps[i] == Count(p) && Run(Init(max), steps[..i]).Some?
    ensures var t := Run(Init(max), steps[..i]).value.table; r < |t.store| && |t.store[r].peers| != 2
    decreases |steps|
  {
    var before := steps[..|steps| - 1];
    RunKeepsControl(max, before);
    WaitingByCount(Run(Init(max), before).value, steps[|steps| - 1], p);
    hide Control, Apply, Enabled;
    if p < |Run(Init(max), before).value.pcs| && Run(Init(max), before).value.pcs[p] == Waiting(r) {
      i := CountFound(max, before, p, r);
      assert before[..i] == steps[..i];
    } else {
      i := |steps| - 1;
    }
  }

  lemma {:induction false} StillWaiting(max: int, steps: seq<Step>, i: nat, p: ConnId)
    requires i <= |steps| && Run(Init(max), steps).Some? && Run(Init(max), steps[..i]).Some?
    requires p < |Run(Init(max), steps[..i]).value.pcs| && Run(Init(max), steps[..i]).value.pcs[p].Waiting?
    ensures p < |Run(Init(max), steps).value.pcs|
    ensures Run(Init(max), steps).value.pcs[p] == Run(Init(max), steps[..i]).value.pcs[p]
    decreases |steps|
  {
    if i == |steps| {
      assert steps[..i] == steps;
    } else {
      var before := steps[..|steps| - 1];
      assert before[..i] == steps[..i];
      StillWaiting(max, before, i, p);
      WaitingStays(Run(Init(max), before).value, steps[|steps| - 1], p);
    }
  }

  /** Before the second join the first peer's count finds one peer, so it waits. */
  lemma EarlyCountWaits(max: int, steps: seq<Step>, i: nat, j: nat, r: nat, p: ConnId)
    requires Run(Init(max), steps).Some? && CountThenJoin(max, steps, i, j, r, p)
    requires var s := Run(Init(max), steps).value; r < |s.table.store| && |s.table.store[r].peers| == 2 && s.table.store[r].peers[0] == p
    ensures var s := Run(Init(max), steps).value; p < |s.pcs| && s.pcs[p] == Waiting(r)
  {
    var at := steps[..i];
    var next := steps[..i + 1];
    RelayStarts.RunPrefix(Init(max), steps, i + 1);
    assert next[..i] == at;
    RunKeepsControl(max, at);
    CountedBySession(max, steps, i, r, p);
    var s := Run(Init(max), at).value;
    assert steps[..j][..i] == at;
    RelayStarts.RunKeepsSlots(Init(max), steps[..j], i);
    assert Run(Init(max), next).value == Apply(s, Count(p));
    assert Apply(s, Count(p)).pcs[p] == Waiting(r);
    StillWaiting(max, steps, i + 1, p);
  }

  /** A handler that counts holds the session in whose slot its connection will be found. */
  lemma CountedBySession(max: int, steps: seq<Step>, i: nat, r: nat, p: ConnId)
    requires i < |steps| && Run(Init(max), steps).Some? && steps[i] == Count(p)
    requires var s := Run(Init(max), steps).value; r < |s.table.store| && p in s.table.store[r].peers
    ensures Run(Init(max), steps[..i]).Some? && Enabled(Run(Init(max), steps[..i]).value, Count(p))
    ensures Run(Init(max), steps[..i]).value.pcs[p].s == r
  {
    RelayStarts.RunPrefix(Init(max), steps, i + 1);
    assert steps[..i + 1][..i] == steps[..i];
    RunKeepsControl(max, steps[..i]);
    RunKeepsControl(max, steps);
    RelayStarts.RunKeepsSlots(Init(max), steps, i);
    var s, t := Run(Init(max), steps[..i]).value, Run(Init(max), steps).value;
    assert Enabled(s, Count(p)) && HandlerInv(s, p);
    hide Run, Enabled;
    var q := s.pcs[p].s;
    var k :| 0 <= k < |s.table.store[q].peers| && s.table.store[q].peers[k] == p;
    assert t.table.store[q].peers[k] == p;
    var l :| 0 <= l < |t.table.store[r].peers| && t.table.store[r].peers[l] == p;
    RelayStarts.OneSlotOnly(t, q, k, r, l);
  }

  /** The state says exactly this of the run: the first peer is waiting if and only if it
      had counted before the second joined. */
  lemma ApartIff(max: int, steps: seq<Step>, r: nat)
    requires Run(Init(max), steps).Some?
    requires var s := Run(Init(max), steps).value; r < |s.table.store| && |s.table.store[r].peers| == 2
    ensures var s := Run(Init(max), steps).value;
            Apart(s, r) <==> exists i, j :: CountThenJoin(max, steps, i, j, r, s.table.store[r].peers[0])
  {
    var s := Run(Init(max), steps).value;
    var p := s.table.store[r].peers[0];
    hide Run, CountThenJoin;
    if Apart(s, r) {
      var i, j := NoOverlap(max, steps, r);
    }
    if i, j :| CountThenJoin(max, steps, i, j, r, p) {
      EarlyCountWaits(max, steps, i, j, r, p);
    }
  }

  lemma NoOverlap(max: int, steps: seq<Step>, r: nat) returns (i: nat, j: nat)
    requires Run(Init(max), steps).Some?
    requires var s := Run(Init(max), steps).value; r < |s.table.store| && Apart(s, r)
    ensures CountThenJoin(max, steps, i, j, r, Run(Init(max), steps).value.table.store[r].peers[0])
  {
    hide Run;
    i := CountFound(max, steps, Run(Init(max), steps).value.table.store[r].peers[0], r);
    j := RelayStarts.SecondJoinFound(max, steps, r);
    if j < i {
      assert steps[..i][..j] == steps[..j];
      RelayStarts.JoinFillsSlot(max, steps, i, j, r);
    }
  }

  // ---------------------------------------------------------------- acknowledgements come first

  predicate AckFirst(conn: Conn) {
    conn.ack <= |OK_ACK| && conn.out == OK_ACK[..conn.ack] + conn.fwd
  }

  /** What the connections of a session have been sent begins with an acknowledgement. */
  predicate AckInv(s: State, r: nat)
    requires r < |s.table.store|
  {
    var peers := s.table.store[r].peers;
    && (|peers| == 1 ==> peers[0] < |s.conns| && AckFirst(s.conns[peers[0]]))
    && (Apart(s, r) ==>
          peers[0] < |s.conns| && peers[1] < |s.conns| && AckFirst(s.conns[peers[0]]) && AckFirst(s.conns[peers[1]]))
  }

  lemma StepKeepsAckFirst(s: State, step: Step, c: ConnId)
    requires Enabled(s, step) && c < |s.conns| == |s.pcs|
    requires AckFirst(s.conns[c])
    requires step.Ack? && step.c == c ==> s.conns[c].ack == 0 && s.conns[c].fwd == []
    ensures c < |Apply(s, step).conns| && AckFirst(Apply(s, step).conns[c])
  {
    hide CloseConns, ClosedWith, WithCopy, Lookup, AddPeer, CleanUpEmpty, AddBytes, MarkClosed, Shutdown, Forget;
    match step
    case Put(d, dir, put) =>
      var data := CopyOf(s.pcs[d], dir).held[..put];
      assert OK_ACK[..s.conns[c].ack] + s.conns[c].fwd + data == OK_ACK[..s.conns[c].ack] + (s.conns[c].fwd + data);
    case Ack(d, w) =>
      assert d == c ==> s.conns[c].out == [];
    case _ =>
  }

  /** Nothing has been forwarded to a peer that still acknowledges. */
  lemma AckNotYetForwarded(s: State, r: nat, c: ConnId)
    requires Control(s) && Conserved(s) && r < |s.table.store| && FlowInv(s, r)
    requires c in s.table.store[r].peers && (|s.table.store[r].peers| == 1 || Apart(s, r))
    requires c < |s.pcs| && s.pcs[c].Acking?
    ensures s.conns[c].ack == 0 && s.conns[c].fwd == []
  {
    assert SlotInv(s, r) && ConnInv(s, c) && ByteInv(s, r);
    hide Control, Conserved;
  }

  lemma ApartBefore(s: State, step: Step, r: nat)
    requires Enabled(s, step) && |s.pcs| == |s.conns| && r < |s.table.store| && r < |Apply(s, step).table.store|
    requires Apply(s, step).table.store[r].peers == s.table.store[r].peers
    ensures Apart(Apply(s, step), r) ==> Apart(s, r)
  {
    if Apart(Apply(s, step), r) {
      WaitingByCount(s, step, s.table.store[r].peers[0]);
    }
    hide Apply, Enabled;
  }

  lemma PeerKeepsAckFirst(s: State, step: Step, r: nat, c: ConnId)
    requires Control(s) && Conserved(s) && Enabled(s, step) && r < |s.table.store| && FlowInv(s, r)
    requires c in s.table.store[r].peers && (|s.table.store[r].peers| == 1 || Apart(s, r))
    requires c < |s.conns| == |s.pcs| && AckFirst(s.conns[c])
    ensures c < |Apply(s, step).conns| && AckFirst(Apply(s, step).conns[c])
  {
    if step.Ack? && step.c == c {
      assert Enabled(s, Ack(c, step.written));
      AckNotYetForwarded(s, r, c);
    }
    hide Enabled, Apply, Control, Conserved, FlowInv, AckFirst;
    StepKeepsAckFirst(s, step, c);
  }

  lemma SamePeersKeepAck(s: State, step: Step, r: nat)
    requires Control(s) && Conserved(s) && Enabled(s, step) && r < |s.table.store| && FlowInv(s, r) && AckInv(s, r)
    requires r < |Apply(s, step).table.store| && Apply(s, step).table.store[r].peers == s.table.store[r].peers
    ensures AckInv(Apply(s, step), r)
  {
    var peers := s.table.store[r].peers;
    assert |s.pcs| == |s.conns|;
    hide Apply, Enabled, Control, Conserved, FlowInv, AckFirst;
    ApartBefore(s, step, r);
    if |peers| == 1 || Apart(s, r) {
      PeerKeepsAckFirst(s, step, r, peers[0]);
      if |peers| == 2 {
        PeerKeepsAckFirst(s, step, r, peers[1]);
      }
    }
  }

  lemma JoinKeepsAck(s: State, step: Step, r: nat)
    requires Control(s) && Conserved(s) && Enabled(s, step) && r < |s.table.store| && AckInv(s, r)
    requires r < |Apply(s, step).table.store| && step.Join? && s.pcs[step.c].s == r
    requires Apply(s, step).table.store[r].peers != s.table.store[r].peers
    ensures AckInv(Apply(s, step), r)
  {
    var c := step.c;
    var peers := s.table.store[r].peers;
    assert SlotInv(s, r) && ConnInv(s, c);
    assert AckFirst(s.conns[c]) by {
      assert s.conns[c].out == [];
    }
    hide AckFirst, Control, Conserved;
    StepKeepsAckFirst(s, step, c);
    if |peers| == 1 {
      StepKeepsAckFirst(s, step, peers[0]);
      assert c !in peers;
    }
  }

  lemma {:induction false} RunKeepsAck(max: int, steps: seq<Step>, r: nat)
    requires Run(Init(max), steps).Some? && r < |Run(Init(max), steps).value.table.store|
    ensures AckInv(Run(Init(max), steps).value, r)
    decreases |steps|
  {
    if steps != [] {
      var before, last := steps[..|steps| - 1], steps[|steps| - 1];
      var s := Run(Init(max), before).value;
      RunConserves(max, before);
      RelayStarts.PeersChangeByJoin(s, last, r);
      if r < |s.table.store| {
        RunKeepsAck(max, before, r);
        RunKeepsFlow(max, before, r);
        hide Run, AckInv, FlowInv, Control, Conserved;
        if Apply(s, last).table.store[r].peers == s.table.store[r].peers {
          SamePeersKeepAck(s, last, r);
        } else {
          JoinKeepsAck(s, last, r);
        }
      }
    }
  }

  // ---------------------------------------------------------------- what every such session gets

  /** Exactly one relay: the first arrival waits, and the second, unless its
      acknowledgement fails, counts two and relays; nobody else does. */
  lemma ExactlyOneRelay(max: int, steps: seq<Step>, r: nat)
    requires Run(Init(max), steps).Some?
    requires var s := Run(Init(max), steps).value; r < |s.table.store| && Apart(s, r)
    ensures var s := Run(Init(max), steps).value;
            var q := s.table.store[r].peers[1];
            && Once(s, r) && q < |s.pcs|
            && (s.pcs[q].Acking? || s.pcs[q].AckFailed? || s.pcs[q].Counting? || Relayed(s.pcs[q]))
            && (s.pcs[q].Counting? ==> Enabled(s, Count(q)) && Apply(s, Count(q)).pcs[q] == Starting(r))
            && forall c :: 0 <= c < |s.pcs| && Relayed(s.pcs[c]) && s.pcs[c].s == r ==> c == q
  {
    RunKeepsControl(max, steps);
    hide Run;
    OneRelayIn(Run(Init(max), steps).value, r);
  }

  lemma OneRelayIn(s: State, r: nat)
    requires Control(s) && r < |s.table.store| && Apart(s, r)
    ensures var q := s.table.store[r].peers[1];
            && Once(s, r) && q < |s.pcs|
            && (s.pcs[q].Acking? || s.pcs[q].AckFailed? || s.pcs[q].Counting? || Relayed(s.pcs[q]))
            && (s.pcs[q].Counting? ==> Enabled(s, Count(q)) && Apply(s, Count(q)).pcs[q] == Starting(r))
            && forall c :: 0 <= c < |s.pcs| && Relayed(s.pcs[c]) && s.pcs[c].s == r ==> c == q
  {
    assert SlotInv(s, r);
    RelayStarts.SecondArrivalStarts(s, s.table.store[r].peers[1], r);
    forall c | 0 <= c < |s.pcs| ensures Relayed(s.pcs[c]) && s.pcs[c].s == r ==> c in s.table.store[r].peers {
      assert HandlerInv(s, c);
    }
    hide Control, Enabled, Apply;
  }

  /** Nothing is forwarded to either peer before both have their acknowledgement. */
  lemma AcksComeFirst(max: int, steps: seq<Step>, r: nat)
    requires Run(Init(max), steps).Some?
    requires var s := Run(Init(max), steps).value; r < |s.table.store| && Apart(s, r)
    ensures var s := Run(Init(max), steps).value;
            var p, q := s.table.store[r].peers[0], s.table.store[r].peers[1];
            && p < |s.conns| && q < |s.conns| && AckFirst(s.conns[p]) && AckFirst(s.conns[q])
            && (s.conns[p].fwd != [] || s.conns[q].fwd != [] ==>
                  s.conns[p].ack == |OK_ACK| && s.conns[q].ack == |OK_ACK|)
  {
    RunKeepsAck(max, steps, r);
    RunKeepsFlow(max, steps, r);
    RunConserves(max, steps);
    hide Run;
    AcksBeforeBytes(Run(Init(max), steps).value, r);
  }

  lemma AcksBeforeBytes(s: State, r: nat)
    requires Control(s) && Conserved(s) && r < |s.table.store| && Apart(s, r) && FlowInv(s, r)
    ensures var p, q := s.table.store[r].peers[0], s.table.store[r].peers[1];
            && p < |s.conns| && q < |s.conns|
            && (s.conns[p].fwd != [] || s.conns[q].fwd != [] ==>
                  s.conns[p].ack == |OK_ACK| && s.conns[q].ack == |OK_ACK|)
  {
    assert SlotInv(s, r);
    assert ConnInv(s, s.table.store[r].peers[0]) && ConnInv(s, s.table.store[r].peers[1]);
    hide Control, Conserved;
  }

  /** What a client is sent: its handshake reader finds "accepted", and the bytes after
      the acknowledgement are a prefix of what the other client sent. */
  lemma ClientIsSent(max: int, steps: seq<Step>, r: nat, me: ConnId, other: ConnId)
    requires Run(Init(max), steps).Some?
    requires var s := Run(Init(max), steps).value;
             && r < |s.table.store| && Apart(s, r)
             && (s.table.store[r].peers == [me, other] || s.table.store[r].peers == [other, me])
             && me < |s.conns| && |s.conns[me].out| >= |OK_ACK|
    ensures var s := Run(Init(max), steps).value;
            && other < |s.conns|
            && Handshake.DecodeAck(s.conns[me].out) == Success((Handshake.Accepted, |OK_ACK|))
            && s.conns[me].out[|OK_ACK|..] == s.conns[me].fwd <= s.conns[other].input
  {
    AcksComeFirst(max, steps, r);
    ExactlyOneRelay(max, steps, r);
    ForwardedIsPrefix(max, steps, r);
    hide Run;
    var conn := Run(Init(max), steps).value.conns[me];
    assert conn.ack == |OK_ACK|;
    Handshake.AckRoundTrip(Handshake.Accepted, conn.fwd);
  }
}
