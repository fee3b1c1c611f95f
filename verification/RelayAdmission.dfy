/** The sequential handler is a run of the transition system. */
module RelayAdmission {
  import opened Wrappers
  import opened RelayTable
  import opened RelayModel
  import opened RelayHandler

  /** Where each ending leaves the handler. */
  predicate EndsAt(pc: Pc, end: Admission) {
    match end
    case BadHandshake => false
    case NoRoom => pc.Refused?
    case SessionFull => pc.TurnedAway?
    case AckLost => pc.AckFailed?
    case Waits => pc.Waiting?
    case Relays => pc.Starting?
  }

  /** What has been done to the connection: it is open only when it waits or relays, and it
      has been sent as much of the acknowledgement as its client took, once it had a slot. */
  predicate Treated(before: Conn, after: Conn, end: Admission, w: nat) {
    && (after.open <==> end == Waits || end == Relays)
    && after.fwd == before.fwd && after.input == before.input && after.taken == before.taken
    && after.out == if end == NoRoom || end == SessionFull || w > |OK_ACK| then before.out else before.out + OK_ACK[..w]
  }

  /** From any state, a handler that takes its steps without interruption ends where
      `Admit` says, with the table `Admit` gives. */
  lemma AdmitIsRun(s: State, c: ConnId, w: nat) returns (steps: seq<Step>)
    requires Sound(s.table) && c < |s.pcs| == |s.conns| && s.pcs[c].Arrived? && s.conns[c].open && w <= |OK_ACK|
    ensures var (t, end) := Admit(s.table, s.conns[c].sid, c, w == |OK_ACK|);
            var r := Run(s, steps);
            && r.Some? && r.value.table == t && c < |r.value.pcs| == |r.value.conns|
            && EndsAt(r.value.pcs[c], end) && Treated(s.conns[c], r.value.conns[c], end, w)
  {
    hide CloseConns, ClosedWith, WithCopy, MarkClosed, Shutdown, CleanUpEmpty;
    var s1 := Apply(s, Find(c));
    steps := Extend(s, [], s, Find(c), s1);
    hide Run;
    if !s1.pcs[c].Refused? {
      var s2 := Apply(s1, Join(c));
      steps := Extend(s, steps, s1, Join(c), s2);
      steps := AfterJoin(s, steps, s2, c, w);
    }
  }

  /** The handler's steps once its join has been decided. */
  lemma AfterJoin(s0: State, before: seq<Step>, s: State, c: ConnId, w: nat) returns (steps: seq<Step>)
    requires Run(s0, before) == Some(s) && At(s, c) && (s.pcs[c].Full? || s.pcs[c].Acking?) && w <= |OK_ACK|
    requires s.conns[c].open <==> s.pcs[c].Acking?
    requires s.pcs[c].Full? ==> s.table.store[s.pcs[c].s].peers != []
    ensures var r := Run(s0, steps);
            var end := if s.pcs[c].Full? then SessionFull
                       else if w < |OK_ACK| then AckLost
                       else if |s.table.store[s.pcs[c].s].peers| == 2 then Relays else Waits;
            && r.Some? && r.value.table == s.table && c < |r.value.pcs| == |r.value.conns|
            && EndsAt(r.value.pcs[c], end) && Treated(s.conns[c], r.value.conns[c], end, w)
  {
    hide CloseConns, ClosedWith, WithCopy, Lookup, AddPeer, AddBytes, MarkClosed, Shutdown, Run;
    if s.pcs[c].Full? {
      steps := Extend(s0, before, s, CleanUp(c), Apply(s, CleanUp(c)));
    } else {
      var t := Apply(s, Ack(c, w));
      steps := Extend(s0, before, s, Ack(c, w), t);
      if w == |OK_ACK| {
        steps := Extend(s0, steps, t, Count(c), Apply(t, Count(c)));
      }
    }
  }
}
