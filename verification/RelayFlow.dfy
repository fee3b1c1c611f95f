/** What a relay delivers, session by session, in every run. */
module RelayFlow {
  import opened Bytes
  import opened RelayTable
  import opened RelayModel
  import opened RelayControl
  import opened RelayBytes

  /** The relay has taken its peers. */
  predicate Moving(pc: Pc) {
    Relayed(pc) && !pc.Starting?
  }

  function Read(conn: Conn): seq<byte>
    requires conn.taken <= |conn.input|
  {
    conn.input[..conn.taken]
  }

  /** Between `p` and `q`: forwarded bytes are a prefix of what was read from the other
      side, all of it but what a running copy still holds, and nothing before the relay. */
  predicate PairInv(s: State, p: ConnId, q: ConnId)
    requires p < |s.pcs| == |s.conns| && q < |s.pcs|
    requires s.conns[p].taken <= |s.conns[p].input| && s.conns[q].taken <= |s.conns[q].input|
  {
    && s.conns[q].fwd <= Read(s.conns[p]) && s.conns[p].fwd <= Read(s.conns[q])
    && (!Moving(s.pcs[p]) && !Moving(s.pcs[q]) ==> s.conns[p].taken == 0 && s.conns[q].taken == 0)
    && CopiesInv(s, s.pcs[p], p, q) && CopiesInv(s, s.pcs[q], p, q)
  }

  predicate CopiesInv(s: State, pc: Pc, p: ConnId, q: ConnId)
    requires p < |s.conns| && q < |s.conns|
    requires s.conns[p].taken <= |s.conns[p].input| && s.conns[q].taken <= |s.conns[q].input|
  {
    pc.Relaying? ==>
      && (pc.there.Running? ==> s.conns[q].fwd + pc.there.held == Read(s.conns[p]))
      && (pc.back.Running? ==> s.conns[p].fwd + pc.back.held == Read(s.conns[q]))
  }

  /** The session has not been relayed by both its peers. */
  predicate Once(s: State, r: nat)
    requires r < |s.table.store|
  {
    var peers := s.table.store[r].peers;
    |peers| == 2 && peers[0] < |s.pcs| && peers[1] < |s.pcs| ==> !(Relayed(s.pcs[peers[0]]) && Relayed(s.pcs[peers[1]]))
  }

  predicate FlowInv(s: State, r: nat)
    requires r < |s.table.store| && |s.pcs| == |s.conns|
  {
    var peers := s.table.store[r].peers;
    |peers| == 2 && Once(s, r) ==>
      && peers[0] < |s.conns| && peers[1] < |s.conns|
      && s.conns[peers[0]].taken <= |s.conns[peers[0]].input|
      && s.conns[peers[1]].taken <= |s.conns[peers[1]].input|
      && PairInv(s, peers[0], peers[1])
  }

  // ---------------------------------------------------------------- frames

  /** A session whose peers keep their program counters and bytes keeps its flow. */
  lemma SameFlow(s: State, t: State, r: nat)
    requires |s.pcs| == |s.conns| <= |t.conns| == |t.pcs| && r < |s.table.store| && r < |t.table.store|
    requires FlowInv(s, r) && SlotInv(s, r) && t.table.store[r].peers == s.table.store[r].peers
    requires forall p :: p in s.table.store[r].peers && p < |s.pcs| ==> t.pcs[p] == s.pcs[p] && SameData(s.conns[p], t.conns[p])
    ensures FlowInv(t, r)
  {
  }

  predicate SameData(a: Conn, b: Conn) {
    b.fwd == a.fwd && b.taken == a.taken && b.input == a.input
  }

  // ---------------------------------------------------------------- steps of one handler on its own session

  /** Only handler `c` and the bytes of the peers of its session `ref` change. */
  predicate LocalTo(s: State, t: State, ref: nat, c: ConnId) {
    && c < |s.pcs| == |s.conns| == |t.pcs| == |t.conns| && HasSession(s.pcs[c]) && s.pcs[c].s == ref
    && ref < |s.table.store| == |t.table.store|
    && (forall r :: 0 <= r < |s.table.store| && r != ref ==> t.table.store[r].peers == s.table.store[r].peers)
    && (forall d :: 0 <= d < |s.pcs| ==>
          && (d != c ==> t.pcs[d] == s.pcs[d])
          && (d !in s.table.store[ref].peers && d != c ==> SameData(s.conns[d], t.conns[d])))
  }

  lemma LocalKeepsFlow(s: State, t: State, ref: nat, c: ConnId, r: nat)
    requires Control(s) && LocalTo(s, t, ref, c)
    requires r < |s.table.store| && r != ref && FlowInv(s, r)
    ensures FlowInv(t, r)
  {
    assert SlotInv(s, r);
    OtherSession(s, ref, r);
    assert c !in s.table.store[r].peers;
    hide Control, FlowInv;
    SameFlow(s, t, r);
  }

  lemma JoinFlow(s: State, c: ConnId)
    requires Control(s) && Conserved(s) && Enabled(s, Join(c)) && FlowInv(s, s.pcs[c].s)
    ensures FlowInv(Apply(s, Join(c)), s.pcs[c].s)
  {
    var ref := s.pcs[c].s;
    var peers := s.table.store[ref].peers;
    assert SlotInv(s, ref) && ByteInv(s, ref) && ConnInv(s, c);
    if |peers| == 1 {
      assert HandlerInv(s, peers[0]) && ConnInv(s, peers[0]);
    }
    hide Control, Conserved;
  }

  lemma JoinLocal(s: State, c: ConnId)
    requires Enabled(s, Join(c)) && HandlerInv(s, c)
    ensures LocalTo(s, Apply(s, Join(c)), s.pcs[c].s, c)
  {
  }

  lemma CleanUpLocal(s: State, c: ConnId)
    requires Enabled(s, CleanUp(c)) && HandlerInv(s, c)
    ensures LocalTo(s, Apply(s, CleanUp(c)), s.pcs[c].s, c)
  {
  }

  lemma CleanUpFlow(s: State, c: ConnId)
    requires Enabled(s, CleanUp(c)) && HandlerInv(s, c) && FlowInv(s, s.pcs[c].s)
    requires SlotInv(s, s.pcs[c].s)
    ensures FlowInv(Apply(s, CleanUp(c)), s.pcs[c].s)
  {
    SameFlow(s, Apply(s, CleanUp(c)), s.pcs[c].s);
  }

  lemma AckLocal(s: State, c: ConnId, w: nat)
    requires Enabled(s, Ack(c, w)) && HandlerInv(s, c)
    ensures LocalTo(s, Apply(s, Ack(c, w)), s.pcs[c].s, c)
  {
  }

  lemma AckFlow(s: State, c: ConnId, w: nat)
    requires Enabled(s, Ack(c, w)) && HandlerInv(s, c) && FlowInv(s, s.pcs[c].s)
    requires SlotInv(s, s.pcs[c].s)
    ensures FlowInv(Apply(s, Ack(c, w)), s.pcs[c].s)
  {
  }

  lemma CountLocal(s: State, c: ConnId)
    requires Enabled(s, Count(c)) && HandlerInv(s, c)
    ensures LocalTo(s, Apply(s, Count(c)), s.pcs[c].s, c)
  {
  }

  lemma CountFlow(s: State, c: ConnId)
    requires Enabled(s, Count(c)) && HandlerInv(s, c) && FlowInv(s, s.pcs[c].s)
    requires SlotInv(s, s.pcs[c].s)
    ensures FlowInv(Apply(s, Count(c)), s.pcs[c].s)
  {
  }

  lemma SnapshotLocal(s: State, c: ConnId)
    requires Enabled(s, Snapshot(c)) && HandlerInv(s, c)
    ensures LocalTo(s, Apply(s, Snapshot(c)), s.pcs[c].s, c)
  {
  }

  lemma SnapshotFlow(s: State, c: ConnId)
    requires Enabled(s, Snapshot(c)) && HandlerInv(s, c) && FlowInv(s, s.pcs[c].s)
    requires SlotInv(s, s.pcs[c].s)
    ensures FlowInv(Apply(s, Snapshot(c)), s.pcs[c].s)
  {
  }

  lemma ReadMore(conn: Conn, got: nat)
    requires conn.taken + got <= |conn.input|
    ensures Read(conn.(taken := conn.taken + got)) == Read(conn) + conn.input[conn.taken..conn.taken + got]
  {
  }

  lemma TakeLocal(s: State, c: ConnId, dir: Direction, got: nat)
    requires Enabled(s, Take(c, dir, got)) && HandlerInv(s, c)
    ensures LocalTo(s, Apply(s, Take(c, dir, got)), s.pcs[c].s, c)
  {
  }

  lemma TakeState(s: State, c: ConnId, dir: Direction, got: nat)
    requires Enabled(s, Take(c, dir, got))
    ensures var t := Apply(s, Take(c, dir, got));
            var src := Source(s.pcs[c], dir);
            var from, copy := s.conns[src], CopyOf(s.pcs[c], dir);
            && copy.Running? && copy.held == [] && from.taken + got <= |from.input|
            && t.table == s.table && t.conns == s.conns[src := from.(taken := from.taken + got)]
            && t.pcs == s.pcs[c := WithCopy(s.pcs[c], dir, copy.(held := from.input[from.taken..from.taken + got]))]
  {
  }

  /** Reading: what the copy now holds is what comes next in the source. */
  lemma TakeFlow(s: State, c: ConnId, dir: Direction, got: nat)
    requires Enabled(s, Take(c, dir, got)) && HandlerInv(s, c) && FlowInv(s, s.pcs[c].s)
    requires SlotInv(s, s.pcs[c].s)
    ensures FlowInv(Apply(s, Take(c, dir, got)), s.pcs[c].s)
  {
    TakeState(s, c, dir, got);
    ReadMore(s.conns[Source(s.pcs[c], dir)], got);
    hide Read, Apply, Enabled;
    assert forall fwd: seq<byte> :: fwd + [] == fwd;
  }

  lemma PutLocal(s: State, c: ConnId, dir: Direction, put: nat)
    requires Enabled(s, Put(c, dir, put)) && HandlerInv(s, c)
    ensures LocalTo(s, Apply(s, Put(c, dir, put)), s.pcs[c].s, c)
  {
  }

  lemma PutState(s: State, c: ConnId, dir: Direction, put: nat)
    requires Enabled(s, Put(c, dir, put))
    ensures var t := Apply(s, Put(c, dir, put));
            var dst := Target(s.pcs[c], dir);
            var to, copy := s.conns[dst], CopyOf(s.pcs[c], dir);
            && copy.Running? && put <= |copy.held|
            && t.table == s.table && |t.conns| == |s.conns|
            && t.conns == s.conns[dst := to.(out := to.out + copy.held[..put], fwd := to.fwd + copy.held[..put])]
            && t.pcs == s.pcs[c := WithCopy(s.pcs[c], dir,
                   if put == |copy.held| then Running(copy.n + put, []) else Failed(copy.n + put))]
  {
  }

  /** Writing: the output grows by what the copy holds, or by a first part of it when
      the write breaks. */
  lemma PutFlow(s: State, c: ConnId, dir: Direction, put: nat)
    requires Enabled(s, Put(c, dir, put)) && HandlerInv(s, c) && FlowInv(s, s.pcs[c].s)
    requires SlotInv(s, s.pcs[c].s)
    ensures FlowInv(Apply(s, Put(c, dir, put)), s.pcs[c].s)
  {
    PutState(s, c, dir, put);
    hide Apply, Enabled;
    var held := CopyOf(s.pcs[c], dir).held;
    assert held == held[..put] + held[put..];
  }

  lemma FinishLocal(s: State, c: ConnId, dir: Direction)
    requires Enabled(s, Finish(c, dir)) && HandlerInv(s, c)
    ensures LocalTo(s, Apply(s, Finish(c, dir)), s.pcs[c].s, c)
  {
    hide CloseConns;
  }

  lemma FinishFlow(s: State, c: ConnId, dir: Direction)
    requires Enabled(s, Finish(c, dir)) && HandlerInv(s, c) && FlowInv(s, s.pcs[c].s)
    requires SlotInv(s, s.pcs[c].s)
    ensures FlowInv(Apply(s, Finish(c, dir)), s.pcs[c].s)
  {
    hide CloseConns;
  }

  lemma EndSessionLocal(s: State, c: ConnId)
    requires Enabled(s, EndSession(c)) && HandlerInv(s, c)
    ensures LocalTo(s, Apply(s, EndSession(c)), s.pcs[c].s, c)
  {
    hide CloseConns, ClosedWith;
  }

  lemma EndSessionFlow(s: State, c: ConnId)
    requires Enabled(s, EndSession(c)) && HandlerInv(s, c) && FlowInv(s, s.pcs[c].s)
    requires SlotInv(s, s.pcs[c].s)
    ensures FlowInv(Apply(s, EndSession(c)), s.pcs[c].s)
  {
    hide CloseConns, ClosedWith;
  }

  lemma DropLocal(s: State, c: ConnId)
    requires Enabled(s, Drop(c)) && HandlerInv(s, c)
    ensures LocalTo(s, Apply(s, Drop(c)), s.pcs[c].s, c)
  {
  }

  lemma DropFlow(s: State, c: ConnId)
    requires Enabled(s, Drop(c)) && HandlerInv(s, c) && FlowInv(s, s.pcs[c].s)
    requires SlotInv(s, s.pcs[c].s)
    ensures FlowInv(Apply(s, Drop(c)), s.pcs[c].s)
  {
  }

  lemma LocalStepKeepsFlow(s: State, step: Step, r: nat)
    requires Control(s) && Conserved(s) && Enabled(s, step)
    requires !step.Arrive? && !step.Find? && !step.ShutDown?
    requires r < |s.table.store| && FlowInv(s, r)
    ensures r < |Apply(s, step).table.store| && |Apply(s, step).pcs| == |Apply(s, step).conns|
    ensures FlowInv(Apply(s, step), r)
  {
    var c := step.c;
    var ref := s.pcs[c].s;
    assert HandlerInv(s, c) && SlotInv(s, ref);
    StepIsLocal(s, step);
    hide Control, Conserved, Apply, HandlerInv, FlowInv, SlotInv;
    if r != ref {
      LocalKeepsFlow(s, Apply(s, step), ref, c, r);
    } else {
      hide LocalTo;
      match step
      case Join(_) => JoinFlow(s, c);
      case CleanUp(_) => CleanUpFlow(s, c);
      case Ack(_, w) => AckFlow(s, c, w);
      case Count(_) => CountFlow(s, c);
      case Snapshot(_) => SnapshotFlow(s, c);
      case Take(_, dir, got) => TakeFlow(s, c, dir, got);
      case Put(_, dir, put) => PutFlow(s, c, dir, put);
      case Finish(_, dir) => FinishFlow(s, c, dir);
      case EndSession(_) => EndSessionFlow(s, c);
      case Drop(_) => DropFlow(s, c);
    }
  }

  lemma StepIsLocal(s: State, step: Step)
    requires Enabled(s, step) && !step.Arrive? && !step.Find? && !step.ShutDown?
    requires step.c < |s.pcs| == |s.conns| && HandlerInv(s, step.c)
    ensures LocalTo(s, Apply(s, step), s.pcs[step.c].s, step.c)
  {
    var c := step.c;
    hide Apply, HandlerInv, LocalTo;
    match step
    case Join(_) => JoinLocal(s, c);
    case CleanUp(_) => CleanUpLocal(s, c);
    case Ack(_, w) => AckLocal(s, c, w);
    case Count(_) => CountLocal(s, c);
    case Snapshot(_) => SnapshotLocal(s, c);
    case Take(_, dir, got) => TakeLocal(s, c, dir, got);
    case Put(_, dir, put) => PutLocal(s, c, dir, put);
    case Finish(_, dir) => FinishLocal(s, c, dir);
    case EndSession(_) => EndSessionLocal(s, c);
    case Drop(_) => DropLocal(s, c);
  }

  // ---------------------------------------------------------------- arriving, finding, shutting down

  lemma ArriveKeepsFlow(s: State, sid: SessionId, input: seq<byte>, r: nat)
    requires Control(s) && r < |s.table.store| && FlowInv(s, r)
    ensures FlowInv(Apply(s, Arrive(sid, input)), r)
  {
    assert SlotInv(s, r);
    hide Control, FlowInv;
    SameFlow(s, Apply(s, Arrive(sid, input)), r);
  }

  lemma FindKeepsFlow(s: State, c: ConnId, r: nat)
    requires Control(s) && Enabled(s, Find(c))
    requires r < |Apply(s, Find(c)).table.store| && (r < |s.table.store| ==> FlowInv(s, r))
    ensures FlowInv(Apply(s, Find(c)), r)
  {
    if r < |s.table.store| {
      assert SlotInv(s, r);
      hide Control, FlowInv;
      SameFlow(s, Apply(s, Find(c)), r);
    }
  }

  lemma ShutDownKeepsFlow(s: State, r: nat)
    requires Control(s) && r < |s.table.store| && FlowInv(s, r)
    ensures FlowInv(Apply(s, ShutDown), r)
  {
    assert SlotInv(s, r);
    hide Control, FlowInv, CloseConns, ClosedWith;
    SameFlow(s, Apply(s, ShutDown), r);
  }

  // ---------------------------------------------------------------- every run

  lemma StepKeepsFlow(s: State, step: Step, r: nat)
    requires Control(s) && Conserved(s) && Enabled(s, step) && (r < |s.table.store| ==> FlowInv(s, r))
    requires r < |Apply(s, step).table.store|
    ensures |Apply(s, step).pcs| == |Apply(s, step).conns| && FlowInv(Apply(s, step), r)
  {
    StepKeepsControl(s, step);
    OnlyFindAdds(s, step);
    hide Control, Conserved, Enabled, Apply;
    match step
    case Arrive(sid, input) => ArriveKeepsFlow(s, sid, input, r);
    case Find(c) => FindKeepsFlow(s, c, r);
    case ShutDown => ShutDownKeepsFlow(s, r);
    case _ => LocalStepKeepsFlow(s, step, r);
  }

  lemma OnlyFindAdds(s: State, step: Step)
    requires Control(s) && Enabled(s, step) && Control(Apply(s, step))
    ensures |s.pcs| == |s.conns| && |Apply(s, step).pcs| == |Apply(s, step).conns|
    ensures !step.Find? ==> |Apply(s, step).table.store| == |s.table.store|
  {
    hide CloseConns, ClosedWith, WithCopy;
  }

  /** In every run, whatever happens to other sessions and whether or not the server is
      shut down, the flow of a session relayed once is as `PairInv` says. */
  lemma {:induction false} RunKeepsFlow(max: int, steps: seq<Step>, r: nat)
    requires Run(Init(max), steps).Some? && r < |Run(Init(max), steps).value.table.store|
    ensures var s := Run(Init(max), steps).value; |s.pcs| == |s.conns| && FlowInv(s, r)
  {
    if steps != [] {
      var before := steps[..|steps| - 1];
      var s := Run(Init(max), before).value;
      RunConserves(max, before);
      hide Control, Conserved, FlowInv;
      if r < |s.table.store| {
        RunKeepsFlow(max, before, r);
      }
      StepKeepsFlow(s, steps[|steps| - 1], r);
    }
  }

  /** At every moment, unless both peers of the session have started a relay, each peer's
      forwarded bytes are a prefix of what the other peer sent. */
  lemma ForwardedIsPrefix(max: int, steps: seq<Step>, r: nat)
    requires Run(Init(max), steps).Some?
    requires var s := Run(Init(max), steps).value; r < |s.table.store| && |s.table.store[r].peers| == 2 && Once(s, r)
    ensures var s := Run(Init(max), steps).value;
            var p, q := s.table.store[r].peers[0], s.table.store[r].peers[1];
            && p < |s.conns| && q < |s.conns|
            && s.conns[p].fwd <= s.conns[q].input && s.conns[q].fwd <= s.conns[p].input
  {
    RunKeepsFlow(max, steps, r);
    hide Run;
  }

  /** A running copy of such a session that has read all its source sent, and holds
      nothing, has delivered all of it. */
  lemma AllDelivered(max: int, steps: seq<Step>, c: ConnId, dir: Direction)
    requires Run(Init(max), steps).Some?
    requires var s := Run(Init(max), steps).value;
             && c < |s.pcs| && s.pcs[c].Relaying? && s.pcs[c].s < |s.table.store| && Once(s, s.pcs[c].s)
             && CopyOf(s.pcs[c], dir).Running? && CopyOf(s.pcs[c], dir).held == []
             && Source(s.pcs[c], dir) < |s.conns|
             && s.conns[Source(s.pcs[c], dir)].taken == |s.conns[Source(s.pcs[c], dir)].input|
    ensures var s := Run(Init(max), steps).value;
            && Target(s.pcs[c], dir) < |s.conns|
            && s.conns[Target(s.pcs[c], dir)].fwd == s.conns[Source(s.pcs[c], dir)].input
  {
    RunKeepsControl(max, steps);
    RunKeepsFlow(max, steps, Run(Init(max), steps).value.pcs[c].s);
    hide Run;
    DeliveredIn(Run(Init(max), steps).value, c, dir);
  }

  lemma DeliveredIn(s: State, c: ConnId, dir: Direction)
    requires Control(s) && c < |s.pcs| && s.pcs[c].Relaying? && s.pcs[c].s < |s.table.store|
    requires Once(s, s.pcs[c].s) && FlowInv(s, s.pcs[c].s)
    requires CopyOf(s.pcs[c], dir).Running? && CopyOf(s.pcs[c], dir).held == [] && Source(s.pcs[c], dir) < |s.conns|
    requires s.conns[Source(s.pcs[c], dir)].taken == |s.conns[Source(s.pcs[c], dir)].input|
    ensures Target(s.pcs[c], dir) < |s.conns|
    ensures s.conns[Target(s.pcs[c], dir)].fwd == s.conns[Source(s.pcs[c], dir)].input
  {
    assert HandlerInv(s, c) && SlotInv(s, s.pcs[c].s);
    hide Control;
    var src, dst := s.conns[Source(s.pcs[c], dir)], s.conns[Target(s.pcs[c], dir)];
    assert src.input[..src.taken] == src.input;
    assert dst.fwd + [] == dst.fwd;
  }
}
