/** The relay's bytes: the count of relayed bytes over every interleaving. */
module RelayBytes {
  import opened Bytes
  import opened RelayTable
  import opened RelayModel
  import opened RelayControl

  /** Bytes a copy has written that the session's counter does not have yet. */
  function Uncounted(copy: Copy): nat {
    match copy
    case Running(n, _) => n
    case Failed(n) => n
    case Counted => 0
  }

  function Pending(pc: Pc): nat {
    if pc.Relaying? then Uncounted(pc.there) + Uncounted(pc.back) else 0
  }

  predicate ConnInv(s: State, c: ConnId)
    requires c < |s.pcs| == |s.conns|
  {
    var pc, conn := s.pcs[c], s.conns[c];
    && conn.taken <= |conn.input|
    && |conn.out| == conn.ack + |conn.fwd| && conn.ack <= |OK_ACK|
    && (!InSlot(pc) || pc.Acking? ==> conn.ack == 0)
    && (pc.Counting? || pc.Waiting? || Relayed(pc) ==> conn.ack == |OK_ACK|)
    && (!InSlot(pc) ==> conn.fwd == [] && conn.taken == 0)
  }

  /** Conservation for one session: what has been forwarded to its two peers is the
      counter plus what copies have written and not yet counted. */
  predicate ByteInv(s: State, r: nat)
    requires r < |s.table.store| && |s.pcs| == |s.conns|
  {
    var rec := s.table.store[r];
    && (|rec.peers| < 2 ==> rec.bytes == 0 && forall i :: 0 <= i < |rec.peers| && rec.peers[i] < |s.conns| ==>
                              s.conns[rec.peers[i]].fwd == [] && s.conns[rec.peers[i]].taken == 0)
    && (|rec.peers| == 2 && rec.peers[0] < |s.conns| && rec.peers[1] < |s.conns| ==>
          |s.conns[rec.peers[0]].fwd| + |s.conns[rec.peers[1]].fwd|
          == rec.bytes + Pending(s.pcs[rec.peers[0]]) + Pending(s.pcs[rec.peers[1]]))
  }

  predicate Conserved(s: State) {
    && |s.pcs| == |s.conns|
    && (forall c :: 0 <= c < |s.pcs| ==> ConnInv(s, c))
    && (forall r :: 0 <= r < |s.table.store| ==> ByteInv(s, r))
  }

  // ---------------------------------------------------------------- steps that move no bytes

  /** Same peers and counters, same bytes at every connection, same pending bytes. */
  predicate StillBytes(s: State, t: State) {
    && |s.pcs| == |s.conns|
    && |t.table.store| == |s.table.store|
    && (forall r :: 0 <= r < |s.table.store| ==>
          t.table.store[r].peers == s.table.store[r].peers && t.table.store[r].bytes == s.table.store[r].bytes)
    && |t.pcs| == |s.pcs| && |t.conns| == |s.conns|
    && (forall c :: 0 <= c < |s.conns| ==>
          && t.conns[c].(open := s.conns[c].open, out := s.conns[c].out, ack := s.conns[c].ack) == s.conns[c]
          && Pending(t.pcs[c]) == Pending(s.pcs[c]))
  }

  lemma StillBytesConserve(s: State, t: State)
    requires Conserved(s) && StillBytes(s, t)
    requires forall c :: 0 <= c < |t.pcs| ==> ConnInv(t, c)
    ensures Conserved(t)
  {
    forall r | 0 <= r < |t.table.store| ensures ByteInv(t, r) {
      assert ByteInv(s, r);
    }
  }

  /** The steps in which a handler changes its program counter only, or a session or
      connection its flags only. */
  lemma QuietStepConserves(s: State, step: Step)
    requires Control(s) && Conserved(s) && Enabled(s, step)
    requires step.CleanUp? || step.Count? || step.Snapshot? || step.EndSession? || step.Drop? || step.ShutDown?
    ensures Conserved(Apply(s, step))
  {
    FlagsOnly(s, step);
    hide Enabled, Apply;
    PcOnlyConserves(s, Apply(s, step));
  }

  lemma PcOnlyConserves(s: State, t: State)
    requires Conserved(s) && PcOnly(s, t)
    ensures Conserved(t)
  {
    forall c | 0 <= c < |t.pcs| ensures ConnInv(t, c) {
      assert ConnInv(s, c);
    }
    StillBytesConserve(s, t);
  }

  predicate PcOnly(s: State, t: State) {
    && StillBytes(s, t)
    && forall c :: 0 <= c < |s.pcs| ==>
         && t.conns[c] == s.conns[c].(open := t.conns[c].open)
         && (t.pcs[c] == s.pcs[c]
             || (InSlot(t.pcs[c]) == InSlot(s.pcs[c]) && !t.pcs[c].Acking?
                 && (InSlot(t.pcs[c]) ==> s.pcs[c].Counting? || Relayed(s.pcs[c]))))
  }

  lemma FlagsOnly(s: State, step: Step)
    requires |s.pcs| == |s.conns| && Enabled(s, step)
    requires step.CleanUp? || step.Count? || step.Snapshot? || step.EndSession? || step.Drop? || step.ShutDown?
    ensures PcOnly(s, Apply(s, step))
  {
    hide Enabled, Apply, PcOnly;
    match step
    case CleanUp(c) => CleanUpFlags(s, c);
    case Count(c) => CountFlags(s, c);
    case Snapshot(c) => SnapshotFlags(s, c);
    case EndSession(c) => EndSessionFlags(s, c);
    case Drop(c) => DropFlags(s, c);
    case ShutDown => ShutDownFlags(s);
  }

  lemma CleanUpFlags(s: State, c: ConnId)
    requires |s.pcs| == |s.conns| && Enabled(s, CleanUp(c))
    ensures PcOnly(s, Apply(s, CleanUp(c)))
  {
  }

  lemma CountFlags(s: State, c: ConnId)
    requires |s.pcs| == |s.conns| && Enabled(s, Count(c))
    ensures PcOnly(s, Apply(s, Count(c)))
  {
  }

  lemma SnapshotFlags(s: State, c: ConnId)
    requires |s.pcs| == |s.conns| && Enabled(s, Snapshot(c))
    ensures PcOnly(s, Apply(s, Snapshot(c)))
  {
  }

  lemma EndSessionFlags(s: State, c: ConnId)
    requires |s.pcs| == |s.conns| && Enabled(s, EndSession(c))
    ensures PcOnly(s, Apply(s, EndSession(c)))
  {
    hide CloseConns, ClosedWith;
  }

  lemma DropFlags(s: State, c: ConnId)
    requires |s.pcs| == |s.conns| && Enabled(s, Drop(c))
    ensures PcOnly(s, Apply(s, Drop(c)))
  {
  }

  lemma ShutDownFlags(s: State)
    requires |s.pcs| == |s.conns| && Enabled(s, ShutDown)
    ensures PcOnly(s, Apply(s, ShutDown))
  {
    hide CloseConns, ClosedWith;
  }

  // ---------------------------------------------------------------- arriving, finding, joining, acknowledging

  lemma ArriveConserves(s: State, sid: SessionId, input: seq<byte>)
    requires Control(s) && Conserved(s)
    ensures Conserved(Apply(s, Arrive(sid, input)))
  {
    var t := Apply(s, Arrive(sid, input));
    forall c | 0 <= c < |t.pcs| ensures ConnInv(t, c) {
      assert c < |s.pcs| ==> ConnInv(s, c);
    }
    forall r | 0 <= r < |t.table.store| ensures ByteInv(t, r) {
      assert ByteInv(s, r) && SlotInv(s, r);
    }
  }

  lemma FindConserves(s: State, c: ConnId)
    requires Control(s) && Conserved(s) && Enabled(s, Find(c))
    ensures Conserved(Apply(s, Find(c)))
  {
    var t := Apply(s, Find(c));
    forall d | 0 <= d < |t.pcs| ensures ConnInv(t, d) {
      assert ConnInv(s, d);
    }
    forall r | 0 <= r < |t.table.store| ensures ByteInv(t, r) {
      if r < |s.table.store| {
        assert ByteInv(s, r) && SlotInv(s, r);
      }
    }
  }

  lemma JoinConserves(s: State, c: ConnId)
    requires Control(s) && Conserved(s) && Enabled(s, Join(c))
    ensures Conserved(Apply(s, Join(c)))
  {
    var t := Apply(s, Join(c));
    assert ConnInv(s, c);
    forall d | 0 <= d < |t.pcs| ensures ConnInv(t, d) {
      assert ConnInv(s, d);
    }
    forall r | 0 <= r < |t.table.store| ensures ByteInv(t, r) {
      assert ByteInv(s, r) && SlotInv(s, r);
      if r == s.pcs[c].s {
        JoinedSession(s, c);
      } else {
        SameBytes(s, t, r);
      }
    }
  }

  /** A session whose peers keep their bytes keeps its balance. */
  lemma SameBytes(s: State, t: State, r: nat)
    requires |s.pcs| == |s.conns| == |t.conns| == |t.pcs| && r < |s.table.store| == |t.table.store|
    requires ByteInv(s, r)
    requires t.table.store[r].peers == s.table.store[r].peers && t.table.store[r].bytes == s.table.store[r].bytes
    requires forall p :: p in s.table.store[r].peers && p < |s.pcs| ==>
               && t.conns[p].fwd == s.conns[p].fwd && t.conns[p].taken == s.conns[p].taken
               && Pending(t.pcs[p]) == Pending(s.pcs[p])
    ensures ByteInv(t, r)
  {
  }

  lemma JoinedSession(s: State, c: ConnId)
    requires Control(s) && Enabled(s, Join(c)) && ConnInv(s, c) && ByteInv(s, s.pcs[c].s)
    ensures ByteInv(Apply(s, Join(c)), s.pcs[c].s)
  {
    var ref := s.pcs[c].s;
    var peers := s.table.store[ref].peers;
    assert SlotInv(s, ref);
    if |peers| == 1 {
      assert HandlerInv(s, peers[0]);
      assert Pending(s.pcs[peers[0]]) == 0;
    }
    hide Control;
  }

  lemma AckConserves(s: State, c: ConnId, w: nat)
    requires Control(s) && Conserved(s) && Enabled(s, Ack(c, w))
    ensures Conserved(Apply(s, Ack(c, w)))
  {
    var t := Apply(s, Ack(c, w));
    forall d | 0 <= d < |t.pcs| ensures ConnInv(t, d) {
      assert ConnInv(s, d);
    }
    StillBytesConserve(s, t);
  }

  // ---------------------------------------------------------------- copying

  /** The effect of a read or a write, or of finishing a copy, seen from the other sessions. */
  lemma OtherSession(s: State, r: nat, other: nat)
    requires Control(s) && r < |s.table.store| && other < |s.table.store| && r != other
    ensures forall p :: p in s.table.store[r].peers ==> p !in s.table.store[other].peers
  {
    assert SlotInv(s, r) && SlotInv(s, other);
  }

  lemma TakeConserves(s: State, c: ConnId, dir: Direction, got: nat)
    requires Control(s) && Conserved(s) && Enabled(s, Take(c, dir, got))
    ensures Conserved(Apply(s, Take(c, dir, got)))
  {
    var t := Apply(s, Take(c, dir, got));
    var ref := s.pcs[c].s;
    assert HandlerInv(s, c) && SlotInv(s, ref);
    assert |t.pcs| == |t.conns| == |s.pcs| && |t.table.store| == |s.table.store|;
    hide Apply, HandlerInv, ConnInv, ByteInv;
    forall d | 0 <= d < |t.pcs| ensures ConnInv(t, d) {
      assert ConnInv(s, d);
      TakeConn(s, c, dir, got, d);
    }
    forall r | 0 <= r < |t.table.store| ensures ByteInv(t, r) {
      assert ByteInv(s, r);
      if r == ref {
        TakeSession(s, c, dir, got);
      } else {
        OtherSession(s, ref, r);
        TakeElsewhere(s, c, dir, got, r);
      }
    }
  }

  lemma TakeConn(s: State, c: ConnId, dir: Direction, got: nat, d: ConnId)
    requires Enabled(s, Take(c, dir, got)) && HandlerInv(s, c) && SlotInv(s, s.pcs[c].s)
    requires d < |s.pcs| && ConnInv(s, d)
    ensures ConnInv(Apply(s, Take(c, dir, got)), d)
  {
  }

  lemma TakeElsewhere(s: State, c: ConnId, dir: Direction, got: nat, r: nat)
    requires Enabled(s, Take(c, dir, got)) && HandlerInv(s, c) && SlotInv(s, s.pcs[c].s)
    requires r < |s.table.store| && r != s.pcs[c].s && ByteInv(s, r)
    requires forall p :: p in s.table.store[s.pcs[c].s].peers ==> p !in s.table.store[r].peers
    ensures ByteInv(Apply(s, Take(c, dir, got)), r)
  {
    var peers := s.table.store[s.pcs[c].s].peers;
    assert c in peers && s.pcs[c].a in peers && s.pcs[c].b in peers;
    hide ByteInv;
    SameBytes(s, Apply(s, Take(c, dir, got)), r);
  }

  lemma TakeSession(s: State, c: ConnId, dir: Direction, got: nat)
    requires Enabled(s, Take(c, dir, got)) && HandlerInv(s, c) && SlotInv(s, s.pcs[c].s)
    requires ByteInv(s, s.pcs[c].s)
    ensures ByteInv(Apply(s, Take(c, dir, got)), s.pcs[c].s)
  {
  }

  lemma PutConserves(s: State, c: ConnId, dir: Direction, put: nat)
    requires Control(s) && Conserved(s) && Enabled(s, Put(c, dir, put))
    ensures Conserved(Apply(s, Put(c, dir, put)))
  {
    var t := Apply(s, Put(c, dir, put));
    var ref := s.pcs[c].s;
    assert HandlerInv(s, c) && SlotInv(s, ref);
    assert |t.pcs| == |t.conns| == |s.pcs| && |t.table.store| == |s.table.store|;
    hide Apply, HandlerInv, ConnInv, ByteInv;
    forall d | 0 <= d < |t.pcs| ensures ConnInv(t, d) {
      assert ConnInv(s, d);
      PutConn(s, c, dir, put, d);
    }
    forall r | 0 <= r < |t.table.store| ensures ByteInv(t, r) {
      assert ByteInv(s, r);
      if r == ref {
        PutSession(s, c, dir, put);
      } else {
        OtherSession(s, ref, r);
        PutElsewhere(s, c, dir, put, r);
      }
    }
  }

  lemma PutConn(s: State, c: ConnId, dir: Direction, put: nat, d: ConnId)
    requires Enabled(s, Put(c, dir, put)) && HandlerInv(s, c) && SlotInv(s, s.pcs[c].s)
    requires d < |s.pcs| && ConnInv(s, d)
    ensures ConnInv(Apply(s, Put(c, dir, put)), d)
  {
  }

  lemma PutElsewhere(s: State, c: ConnId, dir: Direction, put: nat, r: nat)
    requires Enabled(s, Put(c, dir, put)) && HandlerInv(s, c) && SlotInv(s, s.pcs[c].s)
    requires r < |s.table.store| && r != s.pcs[c].s && ByteInv(s, r)
    requires forall p :: p in s.table.store[s.pcs[c].s].peers ==> p !in s.table.store[r].peers
    ensures ByteInv(Apply(s, Put(c, dir, put)), r)
  {
    var peers := s.table.store[s.pcs[c].s].peers;
    assert c in peers && s.pcs[c].a in peers && s.pcs[c].b in peers;
    hide ByteInv;
    SameBytes(s, Apply(s, Put(c, dir, put)), r);
  }

  lemma PutSession(s: State, c: ConnId, dir: Direction, put: nat)
    requires Enabled(s, Put(c, dir, put)) && HandlerInv(s, c) && SlotInv(s, s.pcs[c].s)
    requires ByteInv(s, s.pcs[c].s)
    ensures ByteInv(Apply(s, Put(c, dir, put)), s.pcs[c].s)
  {
  }

  lemma FinishConserves(s: State, c: ConnId, dir: Direction)
    requires Control(s) && Conserved(s) && Enabled(s, Finish(c, dir))
    ensures Conserved(Apply(s, Finish(c, dir)))
  {
    var t := Apply(s, Finish(c, dir));
    var ref := s.pcs[c].s;
    assert HandlerInv(s, c) && SlotInv(s, ref);
    forall d | 0 <= d < |t.pcs| ensures ConnInv(t, d) {
      assert ConnInv(s, d);
      FinishConn(s, c, dir, d);
    }
    forall r | 0 <= r < |t.table.store| ensures ByteInv(t, r) {
      assert ByteInv(s, r);
      if r == ref {
        FinishSession(s, c, dir);
      } else {
        OtherSession(s, ref, r);
        hide CloseConns;
        SameBytes(s, t, r);
      }
    }
  }

  lemma FinishConn(s: State, c: ConnId, dir: Direction, d: ConnId)
    requires Enabled(s, Finish(c, dir)) && d < |s.pcs| && ConnInv(s, d)
    ensures ConnInv(Apply(s, Finish(c, dir)), d)
  {
    hide CloseConns;
  }

  lemma FinishSession(s: State, c: ConnId, dir: Direction)
    requires Enabled(s, Finish(c, dir)) && HandlerInv(s, c) && SlotInv(s, s.pcs[c].s)
    requires ByteInv(s, s.pcs[c].s)
    ensures ByteInv(Apply(s, Finish(c, dir)), s.pcs[c].s)
  {
    hide CloseConns;
  }

  // ---------------------------------------------------------------- every run

  lemma StepConserves(s: State, step: Step)
    requires Control(s) && Conserved(s) && Enabled(s, step)
    ensures Conserved(Apply(s, step))
  {
    hide Control, Conserved, Enabled, Apply;
    match step
    case Arrive(sid, input) => ArriveConserves(s, sid, input);
    case Find(c) => FindConserves(s, c);
    case Join(c) => JoinConserves(s, c);
    case Ack(c, w) => AckConserves(s, c, w);
    case Take(c, dir, got) => TakeConserves(s, c, dir, got);
    case Put(c, dir, put) => PutConserves(s, c, dir, put);
    case Finish(c, dir) => FinishConserves(s, c, dir);
    case _ => QuietStepConserves(s, step);
  }

  lemma {:induction false} RunConserves(max: int, steps: seq<Step>)
    requires Run(Init(max), steps).Some?
    ensures Control(Run(Init(max), steps).value) && Conserved(Run(Init(max), steps).value)
  {
    RunKeepsControl(max, steps);
    if steps != [] {
      hide Control, Conserved;
      var before := steps[..|steps| - 1];
      RunConserves(max, before);
      StepConserves(Run(Init(max), before).value, steps[|steps| - 1]);
    }
  }

  /** Once no copy of a session is running, its counter is the number of bytes
      written to its two peers, whether one relay was started or two. */
  lemma CounterIsTotal(max: int, steps: seq<Step>, r: nat)
    requires Run(Init(max), steps).Some?
    requires var s := Run(Init(max), steps).value;
             && r < |s.table.store| && |s.table.store[r].peers| == 2
             && forall c :: 0 <= c < |s.pcs| && s.pcs[c].Relaying? && s.pcs[c].s == r ==>
                              s.pcs[c].there.Counted? && s.pcs[c].back.Counted?
    ensures var s := Run(Init(max), steps).value;
            var p, q := s.table.store[r].peers[0], s.table.store[r].peers[1];
            && p < |s.conns| && q < |s.conns|
            && s.table.store[r].bytes == |s.conns[p].fwd| + |s.conns[q].fwd|
  {
    RunConserves(max, steps);
    var s := Run(Init(max), steps).value;
    assert SlotInv(s, r) && ByteInv(s, r);
  }
}
