/** The control invariant of the relay server holds in every reachable state. */
module RelayControl {
  import opened Bytes
  import opened RelayTable
  import opened RelayModel

  // ---------------------------------------------------------------- steps that only advance handlers

  /** The same session objects with the same peers, and no new table entry. */
  predicate SubTable(t: Table, u: Table) {
    && u.max == t.max
    && |u.store| == |t.store|
    && (forall r :: 0 <= r < |t.store| ==> u.store[r].id == t.store[r].id && u.store[r].peers == t.store[r].peers)
    && (forall k :: k in u.sessions ==> k in t.sessions && u.sessions[k] == t.sessions[k])
    && |u.sessions| <= |t.sessions|
  }

  /** A handler past its join moves on without leaving or entering a slot. */
  predicate MovesOn(pc: Pc, next: Pc) {
    && HasSession(pc) && !pc.Joining? && HasSession(next) && !next.Joining?
    && next.s == pc.s && InSlot(next) == InSlot(pc)
  }

  predicate SameIds(s: State, t: State) {
    && |t.pcs| == |s.pcs| && |t.conns| == |s.conns|
    && forall c :: 0 <= c < |s.conns| ==> t.conns[c].sid == s.conns[c].sid
  }

  predicate Advances(s: State, t: State) {
    && |s.pcs| == |s.conns|
    && SameIds(s, t) && SubTable(s.table, t.table)
    && forall c :: 0 <= c < |s.pcs| ==>
         t.pcs[c] == s.pcs[c] || (MovesOn(s.pcs[c], t.pcs[c]) && HandlerInv(t, c))
  }

  lemma AdvanceKeepsControl(s: State, t: State)
    requires Control(s) && Advances(s, t)
    ensures Control(t)
  {
    forall r | 0 <= r < |t.table.store| ensures SlotInv(t, r) {
      assert SlotInv(s, r);
    }
    forall c | 0 <= c < |t.pcs| ensures HandlerInv(t, c) {
      assert HandlerInv(s, c);
    }
    forall k | k in t.table.sessions && t.table.sessions[k] < |t.table.store| && t.table.store[t.table.sessions[k]].peers == []
      ensures Joining(t.table.sessions[k]) in t.pcs
    {
      var c :| 0 <= c < |s.pcs| && s.pcs[c] == Joining(s.table.sessions[k]);
      assert t.pcs[c] == s.pcs[c];
    }
  }

  lemma ForgetIsSub(t: Table, id: SessionId)
    ensures SubTable(t, Forget(t, id))
  {
    var kept := (t.sessions - {id}).Keys;
    assert kept == t.sessions.Keys - {id};
    assert |kept| == |t.sessions - {id}|;
    assert |t.sessions.Keys - {id}| <= |t.sessions.Keys|;
  }

  lemma CleanUpAdvances(s: State, c: ConnId)
    requires Enabled(s, CleanUp(c)) && HandlerInv(s, c)
    ensures Advances(s, Apply(s, CleanUp(c)))
  {
    ForgetIsSub(s.table, s.conns[c].sid);
  }

  lemma DropAdvances(s: State, c: ConnId)
    requires Enabled(s, Drop(c)) && HandlerInv(s, c)
    ensures Advances(s, Apply(s, Drop(c)))
  {
    ForgetIsSub(s.table, s.conns[c].sid);
  }

  lemma AckAdvances(s: State, c: ConnId, w: nat)
    requires Enabled(s, Ack(c, w)) && HandlerInv(s, c)
    ensures Advances(s, Apply(s, Ack(c, w)))
  {
  }

  lemma CountAdvances(s: State, c: ConnId)
    requires Enabled(s, Count(c)) && HandlerInv(s, c)
    ensures Advances(s, Apply(s, Count(c)))
  {
  }

  lemma SnapshotAdvances(s: State, c: ConnId)
    requires Enabled(s, Snapshot(c)) && HandlerInv(s, c)
    ensures Advances(s, Apply(s, Snapshot(c)))
  {
  }

  lemma TakeAdvances(s: State, c: ConnId, dir: Direction, got: nat)
    requires Enabled(s, Take(c, dir, got)) && HandlerInv(s, c)
    ensures Advances(s, Apply(s, Take(c, dir, got)))
  {
  }

  lemma PutAdvances(s: State, c: ConnId, dir: Direction, put: nat)
    requires Enabled(s, Put(c, dir, put)) && HandlerInv(s, c)
    ensures Advances(s, Apply(s, Put(c, dir, put)))
  {
  }

  lemma FinishAdvances(s: State, c: ConnId, dir: Direction)
    requires Enabled(s, Finish(c, dir)) && HandlerInv(s, c)
    ensures Advances(s, Apply(s, Finish(c, dir)))
  {
    hide CloseConns, ClosedWith;
  }

  lemma EndSessionAdvances(s: State, c: ConnId)
    requires Enabled(s, EndSession(c)) && HandlerInv(s, c)
    ensures Advances(s, Apply(s, EndSession(c)))
  {
    hide CloseConns, ClosedWith;
  }

  lemma ShutDownAdvances(s: State)
    requires Control(s)
    ensures Advances(s, Apply(s, ShutDown))
  {
    hide CloseConns, ClosedByShutdown, ClosedWith;
  }

  // ---------------------------------------------------------------- arriving, finding a session, joining it

  lemma ArriveKeepsControl(s: State, sid: SessionId, input: seq<byte>)
    requires Control(s)
    ensures Control(Apply(s, Arrive(sid, input)))
  {
    var t := Apply(s, Arrive(sid, input));
    forall r | 0 <= r < |t.table.store| ensures SlotInv(t, r) {
      assert SlotInv(s, r);
    }
    forall c | 0 <= c < |t.pcs| ensures HandlerInv(t, c) {
      if c < |s.pcs| {
        assert HandlerInv(s, c);
      }
    }
    forall k | k in t.table.sessions && t.table.sessions[k] < |t.table.store| && t.table.store[t.table.sessions[k]].peers == []
      ensures Joining(t.table.sessions[k]) in t.pcs
    {
      var c :| 0 <= c < |s.pcs| && s.pcs[c] == Joining(s.table.sessions[k]);
      assert t.pcs[c] == s.pcs[c];
    }
  }

  lemma LookupKeepsMap(t: Table, id: SessionId)
    requires MapInv(t)
    ensures MapInv(Lookup(t, id).0)
    ensures Lookup(t, id).1.Some? ==>
              var ref := Lookup(t, id).1.value;
              ref < |Lookup(t, id).0.store| && Lookup(t, id).0.store[ref].id == id
  {
  }

  lemma FindKeepsControl(s: State, c: ConnId)
    requires Control(s) && Enabled(s, Find(c))
    ensures Control(Apply(s, Find(c)))
  {
    if Lookup(s.table, s.conns[c].sid).0 == s.table {
      FindExistingKeepsControl(s, c);
    } else {
      FindNewKeepsControl(s, c);
    }
  }

  lemma FindExistingKeepsControl(s: State, c: ConnId)
    requires Control(s) && Enabled(s, Find(c))
    requires Lookup(s.table, s.conns[c].sid).0 == s.table
    ensures Control(Apply(s, Find(c)))
  {
    var t := Apply(s, Find(c));
    LookupKeepsMap(s.table, s.conns[c].sid);
    hide MapInv, Lookup;
    forall r | 0 <= r < |t.table.store| ensures SlotInv(t, r) {
      assert SlotInv(s, r);
    }
    forall d | 0 <= d < |t.pcs| ensures HandlerInv(t, d) {
      assert HandlerInv(s, d);
    }
    StillJoining(s, t, c);
  }

  lemma StillJoining(s: State, t: State, c: ConnId)
    requires EmptyInv(s) && t.table == s.table && c < |s.pcs| && s.pcs[c].Arrived?
    requires |t.pcs| == |s.pcs| && t.pcs == s.pcs[c := t.pcs[c]]
    ensures EmptyInv(t)
  {
    forall k | k in t.table.sessions && t.table.sessions[k] < |t.table.store| && t.table.store[t.table.sessions[k]].peers == []
      ensures Joining(t.table.sessions[k]) in t.pcs
    {
      var d :| 0 <= d < |s.pcs| && s.pcs[d] == Joining(s.table.sessions[k]);
      assert t.pcs[d] == s.pcs[d];
    }
  }

  lemma FindNewKeepsControl(s: State, c: ConnId)
    requires Control(s) && Enabled(s, Find(c))
    requires Lookup(s.table, s.conns[c].sid).0 != s.table
    ensures Control(Apply(s, Find(c)))
  {
    var t := Apply(s, Find(c));
    LookupKeepsMap(s.table, s.conns[c].sid);
    forall r | 0 <= r < |t.table.store| ensures SlotInv(t, r) {
      if r < |s.table.store| {
        assert SlotInv(s, r);
      }
    }
    forall d | 0 <= d < |t.pcs| ensures HandlerInv(t, d) {
      assert HandlerInv(s, d);
    }
    forall k | k in t.table.sessions && t.table.sessions[k] < |t.table.store| && t.table.store[t.table.sessions[k]].peers == []
      ensures Joining(t.table.sessions[k]) in t.pcs
    {
      if k == s.conns[c].sid {
        assert t.pcs[c] == Joining(t.table.sessions[k]);
      } else {
        var d :| 0 <= d < |s.pcs| && s.pcs[d] == Joining(s.table.sessions[k]);
        assert t.pcs[d] == s.pcs[d];
      }
    }
  }

  lemma JoinSlots(s: State, c: ConnId, r: nat)
    requires Control(s) && Enabled(s, Join(c)) && r < |s.table.store|
    ensures r < |Apply(s, Join(c)).table.store| && SlotInv(Apply(s, Join(c)), r)
  {
    assert HandlerInv(s, c) && SlotInv(s, r);
    hide Control;
  }

  lemma JoinHandlers(s: State, c: ConnId, d: ConnId)
    requires Control(s) && Enabled(s, Join(c)) && d < |s.pcs|
    ensures d < |Apply(s, Join(c)).pcs| == |Apply(s, Join(c)).conns| && HandlerInv(Apply(s, Join(c)), d)
  {
    assert HandlerInv(s, c) && SlotInv(s, s.pcs[c].s) && HandlerInv(s, d);
    hide Control;
  }

  lemma JoinEmpty(s: State, c: ConnId)
    requires Control(s) && Enabled(s, Join(c))
    ensures EmptyInv(Apply(s, Join(c)))
  {
    var t := Apply(s, Join(c));
    forall k | k in t.table.sessions && t.table.sessions[k] < |t.table.store| && t.table.store[t.table.sessions[k]].peers == []
      ensures Joining(t.table.sessions[k]) in t.pcs
    {
      var d :| 0 <= d < |s.pcs| && s.pcs[d] == Joining(s.table.sessions[k]);
      assert d != c;
      assert t.pcs[d] == s.pcs[d];
    }
  }

  lemma JoinTable(s: State, c: ConnId)
    requires Control(s) && Enabled(s, Join(c))
    ensures var t := Apply(s, Join(c));
            && MapInv(t.table) && |t.table.store| == |s.table.store|
            && |t.pcs| == |t.conns| == |s.pcs|
  {
  }

  lemma JoinKeepsControl(s: State, c: ConnId)
    requires Control(s) && Enabled(s, Join(c))
    ensures Control(Apply(s, Join(c)))
  {
    var t := Apply(s, Join(c));
    JoinTable(s, c);
    JoinEmpty(s, c);
    hide Apply, Enabled, MapInv, SlotInv, HandlerInv, EmptyInv;
    forall r | 0 <= r < |t.table.store| ensures SlotInv(t, r) {
      JoinSlots(s, c, r);
    }
    forall d | 0 <= d < |t.pcs| ensures HandlerInv(t, d) {
      JoinHandlers(s, c, d);
    }
  }

  // ---------------------------------------------------------------- every step, every run

  lemma StepKeepsControl(s: State, step: Step)
    requires Control(s) && Enabled(s, step)
    ensures Control(Apply(s, step))
  {
    hide Control, Enabled, Apply, Advances;
    match step
    case Arrive(sid, input) => ArriveKeepsControl(s, sid, input);
    case Find(c) => FindKeepsControl(s, c);
    case Join(c) => JoinKeepsControl(s, c);
    case _ =>
      StepAdvances(s, step);
      AdvanceKeepsControl(s, Apply(s, step));
  }

  lemma HandlerOf(s: State, step: Step)
    requires Control(s) && Enabled(s, step) && !step.Arrive? && !step.ShutDown?
    ensures step.c < |s.pcs| == |s.conns| && HandlerInv(s, step.c)
  {
  }

  lemma StepAdvances(s: State, step: Step)
    requires Control(s) && Enabled(s, step)
    requires !step.Arrive? && !step.Find? && !step.Join?
    ensures Advances(s, Apply(s, step))
  {
    if !step.ShutDown? {
      HandlerOf(s, step);
    }
    hide Control, HandlerInv, Apply, Advances;
    match step
    case ShutDown => ShutDownAdvances(s);
    case CleanUp(c) => CleanUpAdvances(s, c);
    case Ack(c, w) => AckAdvances(s, c, w);
    case Count(c) => CountAdvances(s, c);
    case Snapshot(c) => SnapshotAdvances(s, c);
    case Take(c, dir, got) => TakeAdvances(s, c, dir, got);
    case Put(c, dir, put) => PutAdvances(s, c, dir, put);
    case Finish(c, dir) => FinishAdvances(s, c, dir);
    case EndSession(c) => EndSessionAdvances(s, c);
    case Drop(c) => DropAdvances(s, c);
  }

  /** Over every interleaving: the capacity bound, each key names its own session,
      at most two distinct peers a session, each connection in at most one slot of at
      most one session, and the facts of `HandlerInv` and `EmptyInv`. */
  lemma {:induction false} RunKeepsControl(max: int, steps: seq<Step>)
    requires Run(Init(max), steps).Some?
    ensures Control(Run(Init(max), steps).value)
  {
    if steps != [] {
      RunKeepsControl(max, steps[..|steps| - 1]);
      StepKeepsControl(Run(Init(max), steps[..|steps| - 1]).value, steps[|steps| - 1]);
    }
  }
}
