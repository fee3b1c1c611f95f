/** What overlapping handlers can do, and what is lost when a session is relayed twice. */
module RelayOverlap {
  import opened Bytes
  import opened Wrappers
  import opened RelayTable
  import opened RelayModel
  import opened RelayControl

  // ---------------------------------------------------------------- after a relay ends its session is gone for good

  /** A session whose relay has been cleaned up is not in the table under any key. */
  predicate GoneInv(s: State) {
    forall c :: 0 <= c < |s.pcs| && s.pcs[c].Ended? ==> s.pcs[c].s !in s.table.sessions.Values
  }

  lemma StepKeepsGone(s: State, step: Step)
    requires Control(s) && GoneInv(s) && Enabled(s, step)
    ensures GoneInv(Apply(s, step))
  {
    var t := Apply(s, step);
    forall c | 0 <= c < |t.pcs| && t.pcs[c].Ended? ensures t.pcs[c].s !in t.table.sessions.Values {
      if c < |s.pcs| {
        assert HandlerInv(s, c);
      }
      EndedBy(s, step, c);
      EntriesAfter(s, step);
    }
  }

  lemma EndedBy(s: State, step: Step, c: ConnId)
    requires Enabled(s, step) && |s.pcs| == |s.conns| && c < |Apply(s, step).pcs| && Apply(s, step).pcs[c].Ended?
    ensures c < |s.pcs| && (Apply(s, step).pcs[c] == s.pcs[c] || (step == Drop(c) && Apply(s, step).pcs[c].s == s.pcs[c].s))
  {
    hide CloseConns, ClosedWith, Lookup, AddPeer, CleanUpEmpty, AddBytes, MarkClosed, Shutdown, Forget;
  }

  lemma EntriesAfter(s: State, step: Step)
    requires Enabled(s, step)
    ensures forall k :: k in Apply(s, step).table.sessions ==>
              || (k in s.table.sessions && Apply(s, step).table.sessions[k] == s.table.sessions[k]
                  && (step.Drop? ==> k != s.conns[step.c].sid))
              || Apply(s, step).table.sessions[k] == |s.table.store|
  {
    hide CloseConns, ClosedWith, WithCopy;
  }

  lemma {:induction false} RunKeepsGone(max: int, steps: seq<Step>)
    requires Run(Init(max), steps).Some?
    ensures GoneInv(Run(Init(max), steps).value)
  {
    if steps != [] {
      var before := steps[..|steps| - 1];
      RunKeepsGone(max, before);
      RunKeepsControl(max, before);
      StepKeepsGone(Run(Init(max), before).value, steps[|steps| - 1]);
    }
  }

  /** When both peers of a session relay it, the clean-up that comes second never finds
      its own session: what it deletes, if anything, is another session's entry. */
  lemma SecondCleanUpMisses(max: int, steps: seq<Step>, c: ConnId, d: ConnId)
    requires Run(Init(max), steps).Some?
    requires var s := Run(Init(max), steps).value;
             && c < |s.pcs| && d < |s.pcs| && Enabled(s, Drop(c)) && s.pcs[d].Ended? && s.pcs[d].s == s.pcs[c].s
    ensures var s := Run(Init(max), steps).value;
            s.conns[c].sid in s.table.sessions ==> s.table.sessions[s.conns[c].sid] != s.pcs[c].s
  {
    RunKeepsGone(max, steps);
  }

  // ---------------------------------------------------------------- a run with two relays

  const SID: SessionId := [7]

  /** A connection whose client has sent `input`, of which nothing is read yet, before (0)
      or after (5) its acknowledgement. */
  function Idle(input: seq<byte>, ack: nat, open: bool): Conn {
    Conn(SID, input, 0, if ack == 0 then [] else OK_ACK, ack, [], open)
  }

  function Joined(peers: seq<ConnId>): Table {
    Table(10, map[SID := 0], [SessionRec(SID, peers, 0, false)])
  }

  lemma TableSteps()
    ensures Lookup(Table(10, map[], []), SID) == (Joined([]), Some(0))
    ensures AddPeer(Joined([]), 0, 0) == (Joined([0]), true)
    ensures Lookup(Joined([0]), SID) == (Joined([0]), Some(0))
    ensures AddPeer(Joined([0]), 0, 1) == (Joined([0, 1]), true)
  {
    assert [] + [SessionRec(SID, [], 0, false)] == [SessionRec(SID, [], 0, false)];
    var none, one := Joined([]).store, Joined([0]).store;
    assert none[0].peers + [0] == [0] && one[0].peers + [1] == [0, 1];
    assert none[0 := none[0].(peers := [0])] == one;
    assert one[0 := one[0].(peers := [0, 1])] == Joined([0, 1]).store;
  }

  lemma OneJoins(x: seq<byte>) returns (steps: seq<Step>)
    ensures Run(Init(10), steps) == Some(State(Joined([0]), [Acking(0)], [Idle(x, 0, true)]))
  {
    TableSteps();
    hide Lookup, AddPeer;
    var i, one := Init(10), [Idle(x, 0, true)];
    var s1 := State(i.table, [Arrived], one);
    steps := Extend(i, [], i, Arrive(SID, x), s1);
    var s2 := State(Joined([]), [Joining(0)], one);
    steps := Extend(i, steps, s1, Find(0), s2);
    steps := Extend(i, steps, s2, Join(0), State(Joined([0]), [Acking(0)], one));
  }

  /** Both handlers join before either counts. */
  lemma BothJoin(x: seq<byte>) returns (steps: seq<Step>)
    ensures Run(Init(10), steps) ==
            Some(State(Joined([0, 1]), [Acking(0), Acking(0)], [Idle(x, 0, true), Idle([], 0, true)]))
  {
    steps := OneJoins(x);
    TableSteps();
    hide Lookup, AddPeer;
    var i, two := Init(10), [Idle(x, 0, true), Idle([], 0, true)];
    var s0 := State(Joined([0]), [Acking(0)], [Idle(x, 0, true)]);
    var s1 := State(Joined([0]), [Acking(0), Arrived], two);
    steps := Extend(i, steps, s0, Arrive(SID, []), s1);
    var s2 := State(Joined([0]), [Acking(0), Joining(0)], two);
    steps := Extend(i, steps, s1, Find(1), s2);
    steps := Extend(i, steps, s2, Join(1), State(Joined([0, 1]), [Acking(0), Acking(0)], two));
  }

  function Acked(x: seq<byte>): seq<Conn> {
    [Idle(x, 5, true), Idle([], 5, true)]
  }

  /** Then both count two peers, and both start a relay. */
  lemma BothStart(x: seq<byte>) returns (steps: seq<Step>)
    ensures Run(Init(10), steps) == Some(State(Joined([0, 1]), [Starting(0), Starting(0)], Acked(x)))
  {
    steps := BothJoin(x);
    var i, t := Init(10), Joined([0, 1]);
    var s0 := State(t, [Acking(0), Acking(0)], [Idle(x, 0, true), Idle([], 0, true)]);
    var s1 := State(t, [Counting(0), Acking(0)], [Idle(x, 5, true), Idle([], 0, true)]);
    assert OK_ACK[..5] == OK_ACK && [] + OK_ACK == OK_ACK;
    steps := Extend(i, steps, s0, Ack(0, 5), s1);
    var s2 := State(t, [Counting(0), Counting(0)], Acked(x));
    steps := Extend(i, steps, s1, Ack(1, 5), s2);
    var s3 := State(t, [Starting(0), Counting(0)], Acked(x));
    steps := Extend(i, steps, s2, Count(0), s3);
    steps := Extend(i, steps, s3, Count(1), State(t, [Starting(0), Starting(0)], Acked(x)));
  }

  const IDLE: Pc := Relaying(0, 0, 1, IDLE_COPY, IDLE_COPY)

  const SHUT: seq<Conn> := [Idle([], 5, false), Idle([], 5, false)]
  const DONE: Pc := Relaying(0, 0, 1, Counted, Counted)
  const OLD_SESSION := SessionRec(SID, [0, 1], 0, true)
  const NEW_SESSION := SessionRec(SID, [], 0, false)

  lemma BothRelay(x: seq<byte>) returns (steps: seq<Step>)
    ensures Run(Init(10), steps) == Some(State(Joined([0, 1]), [IDLE, IDLE], Acked(x)))
  {
    steps := BothStart(x);
    var i := Init(10);
    var s0 := State(Joined([0, 1]), [Starting(0), Starting(0)], Acked(x));
    var s1 := State(Joined([0, 1]), [IDLE, Starting(0)], Acked(x));
    steps := Extend(i, steps, s0, Snapshot(0), s1);
    steps := Extend(i, steps, s1, Snapshot(1), State(Joined([0, 1]), [IDLE, IDLE], Acked(x)));
  }

  /** A copy that has moved nothing ends: its target is closed and nothing is counted. */
  lemma FinishesIdle(s: State, c: ConnId, dir: Direction, t: State)
    requires At(s, c) && s.pcs[c].Relaying? && Target(s.pcs[c], dir) < |s.conns| && CopyOf(s.pcs[c], dir) == IDLE_COPY
    requires t.table == s.table && t.pcs == s.pcs[c := WithCopy(s.pcs[c], dir, Counted)] && |t.conns| == |s.conns|
    requires forall d :: 0 <= d < |s.conns| ==>
               t.conns[d] == if d == Target(s.pcs[c], dir) then s.conns[d].(open := false) else s.conns[d]
    ensures Enabled(s, Finish(c, dir)) && Apply(s, Finish(c, dir)) == t
  {
    var u := Apply(s, Finish(c, dir));
    assert u.conns == t.conns;
    assert u.table.store == s.table.store;
  }

  lemma FirstCopies() returns (steps: seq<Step>)
    ensures Run(Init(10), steps) == Some(State(Joined([0, 1]), [DONE, IDLE], SHUT))
  {
    steps := BothRelay([]);
    hide Run, Lookup, AddPeer, CleanUpEmpty, Shutdown, ClosedByShutdown;
    var i := Init(10);
    var s0 := State(Joined([0, 1]), [IDLE, IDLE], Acked([]));
    var s1 := State(Joined([0, 1]), [IDLE.(there := Counted), IDLE], [Idle([], 5, true), Idle([], 5, false)]);
    var s2 := State(Joined([0, 1]), [DONE, IDLE], SHUT);
    FinishesIdle(s0, 0, There, s1);
    FinishesIdle(s1, 0, Back, s2);
    hide Apply, Enabled;
    steps := Extend(i, steps, s0, Finish(0, There), s1);
    steps := Extend(i, steps, s1, Finish(0, Back), s2);
  }

  /** The first relay runs to its end while the second goes on. */
  lemma FirstEnds() returns (steps: seq<Step>)
    ensures Run(Init(10), steps) == Some(State(Table(10, map[], [OLD_SESSION]), [Ended(0), IDLE], SHUT))
  {
    steps := FirstCopies();
    hide Run, Lookup, AddPeer, CleanUpEmpty, Shutdown, ClosedByShutdown;
    var i := Init(10);
    var s0 := State(Joined([0, 1]), [DONE, IDLE], SHUT);
    var s1 := State(Table(10, map[SID := 0], [OLD_SESSION]), [Forgetting(0), IDLE], SHUT);
    steps := Extend(i, steps, s0, EndSession(0), s1);
    steps := Extend(i, steps, s1, Drop(0), State(Table(10, map[], [OLD_SESSION]), [Ended(0), IDLE], SHUT));
  }

  /** A third client finds no session under the identifier and makes a new one. */
  lemma SuccessorMade() returns (steps: seq<Step>)
    ensures Run(Init(10), steps) ==
            Some(State(Table(10, map[SID := 1], [OLD_SESSION, NEW_SESSION]), [Ended(0), IDLE, Joining(1)],
                       SHUT + [Idle([], 0, true)]))
  {
    steps := FirstEnds();
    hide Run, AddPeer, CleanUpEmpty, Shutdown, ClosedByShutdown, CloseConns, WithCopy;
    var i, all := Init(10), SHUT + [Idle([], 0, true)];
    var s0 := State(Table(10, map[], [OLD_SESSION]), [Ended(0), IDLE], SHUT);
    var s1 := State(Table(10, map[], [OLD_SESSION]), [Ended(0), IDLE, Arrived], all);
    steps := Extend(i, steps, s0, Arrive(SID, []), s1);
    steps := Extend(i, steps, s1, Find(2),
                  State(Table(10, map[SID := 1], [OLD_SESSION, NEW_SESSION]), [Ended(0), IDLE, Joining(1)], all));
  }

  lemma SecondCopies() returns (steps: seq<Step>)
    ensures Run(Init(10), steps) ==
            Some(State(Table(10, map[SID := 1], [OLD_SESSION, NEW_SESSION]), [Ended(0), DONE, Joining(1)],
                       SHUT + [Idle([], 0, true)]))
  {
    steps := SuccessorMade();
    hide Run, Lookup, AddPeer, CleanUpEmpty, Shutdown, ClosedByShutdown;
    var i, all, t := Init(10), SHUT + [Idle([], 0, true)], Table(10, map[SID := 1], [OLD_SESSION, NEW_SESSION]);
    var s0 := State(t, [Ended(0), IDLE, Joining(1)], all);
    var s1 := State(t, [Ended(0), IDLE.(there := Counted), Joining(1)], all);
    var s2 := State(t, [Ended(0), DONE, Joining(1)], all);
    FinishesIdle(s0, 1, There, s1);
    FinishesIdle(s1, 1, Back, s2);
    hide Apply, Enabled;
    steps := Extend(i, steps, s0, Finish(1, There), s1);
    steps := Extend(i, steps, s1, Finish(1, Back), s2);
  }

  /** The entry of a successor session, with a handler on its way to join it, is deleted
      by the second relay's clean-up: neither "one relay a session" nor "the clean-up
      deletes its own session" holds of every run. */
  lemma SuccessorDeleted() returns (steps: seq<Step>)
    ensures Run(Init(10), steps) ==
            Some(State(Table(10, map[], [OLD_SESSION, NEW_SESSION]), [Ended(0), Ended(0), Joining(1)],
                       SHUT + [Idle([], 0, true)]))
  {
    steps := SecondCopies();
    hide Run, Lookup, AddPeer, CleanUpEmpty, Shutdown, ClosedByShutdown;
    var i, all, t := Init(10), SHUT + [Idle([], 0, true)], Table(10, map[SID := 1], [OLD_SESSION, NEW_SESSION]);
    var s0 := State(t, [Ended(0), DONE, Joining(1)], all);
    var s1 := State(t, [Ended(0), Forgetting(0), Joining(1)], all);
    steps := Extend(i, steps, s0, EndSession(1), s1);
    steps := Extend(i, steps, s1, Drop(1),
                  State(Table(10, map[], [OLD_SESSION, NEW_SESSION]), [Ended(0), Ended(0), Joining(1)], all));
  }

  // ---------------------------------------------------------------- two relays lose the order of the bytes

  /** The handler relays, and its copy in direction `dir` is between a write and a read. */
  predicate BetweenCopies(s: State, c: ConnId, dir: Direction) {
    At(s, c) && s.pcs[c].Relaying? && CopyOf(s.pcs[c], dir).Running? && CopyOf(s.pcs[c], dir).held == []
  }

  /** From any state in which two handlers relay the same connections, with two bytes to
      read, the run can go on to write these two in the wrong order. */
  lemma TwoRelaysReorder(s0: State, before: seq<Step>, s: State, c: ConnId, d: ConnId, dir: Direction)
    returns (steps: seq<Step>)
    requires Run(s0, before) == Some(s)
    requires c != d && BetweenCopies(s, c, dir) && BetweenCopies(s, d, dir)
    requires s.pcs[d].a == s.pcs[c].a && s.pcs[d].b == s.pcs[c].b && s.pcs[c].a != s.pcs[c].b
    requires s.pcs[c].a < |s.conns| && s.pcs[c].b < |s.conns| && s.conns[s.pcs[c].a].open && s.conns[s.pcs[c].b].open
    requires var from := s.conns[Source(s.pcs[c], dir)]; from.taken + 2 <= |from.input|
    ensures var src, dst := Source(s.pcs[c], dir), Target(s.pcs[c], dir);
            var from := s.conns[src];
            && Run(s0, steps).Some? && |Run(s0, steps).value.conns| == |s.conns|
            && Run(s0, steps).value.conns[src].input == from.input
            && Run(s0, steps).value.conns[dst].fwd
               == s.conns[dst].fwd + [from.input[from.taken + 1]] + [from.input[from.taken]]
  {
    hide Apply, Run;
    var s1 := TakesOne(s, c, dir);
    steps := Extend(s0, before, s, Take(c, dir, 1), s1);
    var s2 := TakesOne(s1, d, dir);
    steps := Extend(s0, steps, s1, Take(d, dir, 1), s2);
    var s3 := PutsOne(s2, d, dir);
    steps := Extend(s0, steps, s2, Put(d, dir, 1), s3);
    var s4 := PutsOne(s3, c, dir);
    steps := Extend(s0, steps, s3, Put(c, dir, 1), s4);
  }

  lemma TakesOne(s: State, c: ConnId, dir: Direction) returns (t: State)
    requires BetweenCopies(s, c, dir) && s.pcs[c].a < |s.conns| && s.pcs[c].b < |s.conns|
    requires var from := s.conns[Source(s.pcs[c], dir)]; from.open && from.taken + 1 <= |from.input|
    ensures Enabled(s, Take(c, dir, 1)) && Apply(s, Take(c, dir, 1)) == t
    ensures var src := Source(s.pcs[c], dir);
            var from, copy := s.conns[src], CopyOf(s.pcs[c], dir);
            && t.table == s.table && t.conns == s.conns[src := from.(taken := from.taken + 1)]
            && t.pcs == s.pcs[c := WithCopy(s.pcs[c], dir, Running(copy.n, [from.input[from.taken]]))]
  {
    t := Apply(s, Take(c, dir, 1));
    var from := s.conns[Source(s.pcs[c], dir)];
    assert from.input[from.taken..from.taken + 1] == [from.input[from.taken]];
  }

  lemma PutsOne(s: State, c: ConnId, dir: Direction) returns (t: State)
    requires At(s, c) && s.pcs[c].Relaying? && CopyOf(s.pcs[c], dir).Running? && |CopyOf(s.pcs[c], dir).held| == 1
    requires s.pcs[c].a < |s.conns| && s.pcs[c].b < |s.conns| && s.conns[Target(s.pcs[c], dir)].open
    ensures Enabled(s, Put(c, dir, 1)) && Apply(s, Put(c, dir, 1)) == t
    ensures var dst := Target(s.pcs[c], dir);
            var to, copy := s.conns[dst], CopyOf(s.pcs[c], dir);
            && t.table == s.table
            && t.conns == s.conns[dst := to.(out := to.out + copy.held, fwd := to.fwd + copy.held)]
            && t.pcs == s.pcs[c := WithCopy(s.pcs[c], dir, Running(copy.n + 1, []))]
  {
    t := Apply(s, Put(c, dir, 1));
    var held := CopyOf(s.pcs[c], dir).held;
    assert held[..1] == held;
  }

  /** So with two relays a client can be sent bytes the other never sent in that order:
      that a session is relayed once is needed for the prefix. */
  lemma OrderLost() returns (steps: seq<Step>)
    ensures var r := Run(Init(10), steps);
            && r.Some? && |r.value.conns| == 2
            && r.value.conns[0].input == [1, 2] && r.value.conns[1].fwd == [2, 1]
            && !(r.value.conns[1].fwd <= r.value.conns[0].input)
  {
    var before := BothRelay([1, 2]);
    var s := State(Joined([0, 1]), [IDLE, IDLE], Acked([1, 2]));
    hide Run;
    steps := TwoRelaysReorder(Init(10), before, s, 0, 1, There);
    var got := Run(Init(10), steps).value.conns[1].fwd;
    assert got == [2, 1] && got[0] != [1, 2][0];
  }

  // ---------------------------------------------------------------- a run without overlap

  /** The first client joins, is acknowledged and waits; the second joins after it. */
  lemma SecondJoins(x: seq<byte>) returns (steps: seq<Step>)
    ensures Run(Init(10), steps) ==
            Some(State(Joined([0, 1]), [Waiting(0), Acking(0)], [Idle(x, 5, true), Idle([], 0, true)]))
  {
    steps := OneJoins(x);
    TableSteps();
    hide Lookup, AddPeer;
    var i := Init(10);
    var s0 := State(Joined([0]), [Acking(0)], [Idle(x, 0, true)]);
    var s1 := State(Joined([0]), [Counting(0)], [Idle(x, 5, true)]);
    assert OK_ACK[..5] == OK_ACK && [] + OK_ACK == OK_ACK;
    steps := Extend(i, steps, s0, Ack(0, 5), s1);
    var s2 := State(Joined([0]), [Waiting(0)], [Idle(x, 5, true)]);
    steps := Extend(i, steps, s1, Count(0), s2);
    var two := [Idle(x, 5, true), Idle([], 0, true)];
    var s3 := State(Joined([0]), [Waiting(0), Arrived], two);
    steps := Extend(i, steps, s2, Arrive(SID, []), s3);
    var s4 := State(Joined([0]), [Waiting(0), Joining(0)], two);
    steps := Extend(i, steps, s3, Find(1), s4);
    steps := Extend(i, steps, s4, Join(1), State(Joined([0, 1]), [Waiting(0), Acking(0)], two));
  }

  lemma SecondRelays(x: seq<byte>) returns (steps: seq<Step>)
    ensures Run(Init(10), steps) == Some(State(Joined([0, 1]), [Waiting(0), IDLE], Acked(x)))
  {
    steps := SecondJoins(x);
    var i, t := Init(10), Joined([0, 1]);
    var s0 := State(t, [Waiting(0), Acking(0)], [Idle(x, 5, true), Idle([], 0, true)]);
    var s1 := State(t, [Waiting(0), Counting(0)], Acked(x));
    assert OK_ACK[..5] == OK_ACK && [] + OK_ACK == OK_ACK;
    steps := Extend(i, steps, s0, Ack(1, 5), s1);
    var s2 := State(t, [Waiting(0), Starting(0)], Acked(x));
    steps := Extend(i, steps, s1, Count(1), s2);
    steps := Extend(i, steps, s2, Snapshot(1), State(t, [Waiting(0), IDLE], Acked(x)));
  }

  function AllRead(x: seq<byte>): Conn {
    Idle(x, 5, true).(taken := |x|)
  }

  lemma AllTaken(x: seq<byte>) returns (steps: seq<Step>)
    requires x != []
    ensures Run(Init(10), steps) ==
            Some(State(Joined([0, 1]), [Waiting(0), IDLE.(there := Running(0, x))], [AllRead(x), Idle([], 5, true)]))
  {
    steps := SecondRelays(x);
    hide Run;
    var s := State(Joined([0, 1]), [Waiting(0), IDLE], Acked(x));
    assert x[0..|x|] == x;
    steps := Extend(Init(10), steps, s, Take(1, There, |x|),
                    State(Joined([0, 1]), [Waiting(0), IDLE.(there := Running(0, x))], [AllRead(x), Idle([], 5, true)]));
  }

  /** All the first client has sent is forwarded, before the second has read anything. */
  lemma AllForwarded(x: seq<byte>) returns (steps: seq<Step>)
    requires x != []
    ensures Run(Init(10), steps) ==
            Some(State(Joined([0, 1]), [Waiting(0), IDLE.(there := Running(|x|, []))],
                       [AllRead(x), Conn(SID, [], 0, OK_ACK + x, 5, x, true)]))
  {
    steps := AllTaken(x);
    hide Run;
    var s := State(Joined([0, 1]), [Waiting(0), IDLE.(there := Running(0, x))], [AllRead(x), Idle([], 5, true)]);
    assert x[..|x|] == x && [] + x == x;
    steps := Extend(Init(10), steps, s, Put(1, There, |x|),
                    State(Joined([0, 1]), [Waiting(0), IDLE.(there := Running(|x|, []))],
                          [AllRead(x), Conn(SID, [], 0, OK_ACK + x, 5, x, true)]));
  }
}
