/** Who starts a relay, over all interleavings. */
module RelayStarts {
  import opened RelayTable
  import opened RelayModel
  import opened RelayControl

  // ---------------------------------------------------------------- slots are filled once and for all

  predicate SlotsGrow(t: Table, u: Table) {
    && |t.store| <= |u.store|
    && forall r :: 0 <= r < |t.store| ==> u.store[r].id == t.store[r].id && t.store[r].peers <= u.store[r].peers
  }

  lemma StepKeepsSlots(s: State, step: Step)
    requires Enabled(s, step)
    ensures SlotsGrow(s.table, Apply(s, step).table)
  {
    hide CloseConns, ClosedWith, WithCopy;
  }

  lemma {:induction false} RunPrefix(s: State, steps: seq<Step>, i: nat)
    requires i <= |steps| && Run(s, steps).Some?
    ensures Run(s, steps[..i]).Some?
    decreases |steps|
  {
    if i < |steps| {
      RunPrefix(s, steps[..|steps| - 1], i);
      assert steps[..|steps| - 1][..i] == steps[..i];
    } else {
      assert steps[..i] == steps;
    }
  }

  /** At any two moments of a run the earlier peers are still in the same slots: a
      filled slot is never overwritten and the peer count only grows. */
  lemma {:induction false} RunKeepsSlots(s: State, steps: seq<Step>, i: nat)
    requires i <= |steps| && Run(s, steps).Some?
    ensures Run(s, steps[..i]).Some?
    ensures SlotsGrow(Run(s, steps[..i]).value.table, Run(s, steps).value.table)
    decreases |steps|
  {
    RunPrefix(s, steps, i);
    if i < |steps| {
      var before := steps[..|steps| - 1];
      RunKeepsSlots(s, before, i);
      assert before[..i] == steps[..i];
      StepKeepsSlots(Run(s, before).value, steps[|steps| - 1]);
    } else {
      assert steps[..i] == steps;
    }
  }

  /** A connection sits in at most one slot of at most one session, and only while its
      own handler holds that session. */
  lemma OneSlotOnly(s: State, r: nat, i: nat, q: nat, j: nat)
    requires Control(s) && r < |s.table.store| && q < |s.table.store|
    requires i < |s.table.store[r].peers| && j < |s.table.store[q].peers|
    requires s.table.store[r].peers[i] == s.table.store[q].peers[j]
    ensures r == q && i == j
    ensures var c := s.table.store[r].peers[i];
            c < |s.pcs| == |s.conns| && HasSession(s.pcs[c]) && s.pcs[c].s == r && s.conns[c].sid == s.table.store[r].id
  {
    assert SlotInv(s, r) && SlotInv(s, q);
    assert HandlerInv(s, s.table.store[r].peers[i]);
  }

  // ---------------------------------------------------------------- the second arrival

  /** A second arrival never waits: unless its acknowledgement fails, its count is 2
      and it starts a relay. */
  lemma SecondArrivalStarts(s: State, c: ConnId, r: nat)
    requires Control(s) && r < |s.table.store| && |s.table.store[r].peers| == 2 && c == s.table.store[r].peers[1]
    ensures c < |s.pcs|
    ensures s.pcs[c].Acking? || s.pcs[c].AckFailed? || s.pcs[c].Counting? || Relayed(s.pcs[c])
    ensures s.pcs[c].Counting? ==> Enabled(s, Count(c)) && Apply(s, Count(c)).pcs[c] == Starting(r)
  {
    assert SlotInv(s, r);
    assert HandlerInv(s, c);
  }

  // ---------------------------------------------------------------- the first arrival

  /** Step `j` is the join that fills the second slot of session `r`. */
  predicate SecondJoin(s: State, steps: seq<Step>, j: nat, r: nat)
    requires j < |steps| && Run(s, steps[..j]).Some?
  {
    var at := Run(s, steps[..j]).value;
    && steps[j].Join? && Enabled(at, steps[j]) && at.pcs[steps[j].c].s == r
    && |at.table.store[r].peers| == 1
  }

  lemma {:induction false} SecondJoinFound(max: int, steps: seq<Step>, r: nat) returns (j: nat)
    requires Run(Init(max), steps).Some?
    requires var t := Run(Init(max), steps).value.table; r < |t.store| && |t.store[r].peers| == 2
    ensures j < |steps| && Run(Init(max), steps[..j]).Some? && SecondJoin(Init(max), steps, j, r)
    decreases |steps|
  {
    var before, last := steps[..|steps| - 1], steps[|steps| - 1];
    var s := Run(Init(max), before).value;
    if r < |s.table.store| && |s.table.store[r].peers| == 2 {
      j := SecondJoinFound(max, before, r);
      assert before[..j] == steps[..j];
    } else {
      j := |steps| - 1;
      PeersChangeByJoin(s, last, r);
    }
  }

  lemma PeersChangeByJoin(s: State, step: Step, r: nat)
    requires Enabled(s, step) && r < |Apply(s, step).table.store|
    ensures r < |s.table.store| && Apply(s, step).table.store[r].peers != s.table.store[r].peers ==>
              step.Join? && s.pcs[step.c].s == r
              && |Apply(s, step).table.store[r].peers| == |s.table.store[r].peers| + 1
    ensures r >= |s.table.store| ==> Apply(s, step).table.store[r].peers == []
  {
    hide CloseConns, ClosedWith, WithCopy;
  }

  /** A first arrival starts a relay exactly when its count is read after the second
      arrival's join. */
  lemma FirstArrivalStartsIff(max: int, steps: seq<Step>, i: nat, r: nat)
    requires i < |steps| && Run(Init(max), steps[..i]).Some? && Enabled(Run(Init(max), steps[..i]).value, steps[i])
    requires var s := Run(Init(max), steps[..i]).value;
             && steps[i].Count? && r < |s.table.store|
             && s.table.store[r].peers != [] && steps[i].c == s.table.store[r].peers[0]
    ensures Apply(Run(Init(max), steps[..i]).value, steps[i]).pcs[steps[i].c] == Starting(r) <==>
            exists j: nat :: j < i && Run(Init(max), steps[..j]).Some? && SecondJoin(Init(max), steps, j, r)
  {
    RunKeepsControl(max, steps[..i]);
    CountDecides(Run(Init(max), steps[..i]).value, steps[i].c, r);
    hide Run, Apply, Enabled, Control, SecondJoin;
    TwoPeersIff(max, steps, i, r);
  }

  lemma CountDecides(s: State, c: ConnId, r: nat)
    requires Control(s) && Enabled(s, Count(c)) && r < |s.table.store|
    requires s.table.store[r].peers != [] && c == s.table.store[r].peers[0]
    ensures Apply(s, Count(c)).pcs[c] == Starting(r) <==> |s.table.store[r].peers| == 2
  {
    assert SlotInv(s, r);
  }

  lemma TwoPeersIff(max: int, steps: seq<Step>, i: nat, r: nat)
    requires i <= |steps| && Run(Init(max), steps[..i]).Some?
    requires r < |Run(Init(max), steps[..i]).value.table.store|
    ensures |Run(Init(max), steps[..i]).value.table.store[r].peers| == 2 <==>
            exists j: nat :: j < i && Run(Init(max), steps[..j]).Some? && SecondJoin(Init(max), steps, j, r)
  {
    hide Run;
    if |Run(Init(max), steps[..i]).value.table.store[r].peers| == 2 {
      var j := SecondJoinFound(max, steps[..i], r);
      assert steps[..i][..j] == steps[..j];
      assert SecondJoin(Init(max), steps, j, r);
    }
    forall j: nat | j < i && Run(Init(max), steps[..j]).Some? && SecondJoin(Init(max), steps, j, r)
      ensures |Run(Init(max), steps[..i]).value.table.store[r].peers| == 2
    {
      JoinFillsSlot(max, steps, i, j, r);
    }
  }

  lemma JoinFillsSlot(max: int, steps: seq<Step>, i: nat, j: nat, r: nat)
    requires j < i <= |steps| && Run(Init(max), steps[..i]).Some?
    requires Run(Init(max), steps[..j]).Some? && SecondJoin(Init(max), steps, j, r)
    ensures var t := Run(Init(max), steps[..i]).value.table; r < |t.store| && |t.store[r].peers| == 2
  {
    var upto := steps[..j + 1];
    assert steps[..i][..j + 1] == upto && upto[..j] == steps[..j];
    RunKeepsSlots(Init(max), steps[..i], j + 1);
    RunKeepsControl(max, steps[..i]);
    var s, t := Run(Init(max), steps[..j]).value, Run(Init(max), upto).value;
    assert t == Apply(s, steps[j]);
    assert |t.table.store[r].peers| == 2;
    assert SlotInv(Run(Init(max), steps[..i]).value, r);
  }

  // ---------------------------------------------------------------- every relay

  /** Only the two peers of a session relay it, so it starts at most two relays. */
  lemma AtMostTwoStarts(s: State, r: nat)
    requires Control(s) && r < |s.table.store|
    ensures var starters := set c | 0 <= c < |s.pcs| && Relayed(s.pcs[c]) && s.pcs[c].s == r;
            starters <= (set p | p in s.table.store[r].peers) && |starters| <= 2
  {
    var starters := set c | 0 <= c < |s.pcs| && Relayed(s.pcs[c]) && s.pcs[c].s == r;
    var peers := s.table.store[r].peers;
    assert SlotInv(s, r);
    forall c | 0 <= c < |s.pcs| ensures c in starters ==> c in peers && |peers| == 2 {
      assert HandlerInv(s, c);
    }
    if |peers| == 2 {
      SubsetSize(starters, {peers[0], peers[1]});
    } else {
      assert starters == {};
    }
  }

  lemma {:induction false} SubsetSize<T>(a: set<T>, b: set<T>)
    requires a <= b
    ensures |a| <= |b|
  {
    assert b == a + (b - a);
  }

  /** Every relay sees exactly two distinct peers, one of them its own connection:
      the early exit of `relaySession` is never taken. */
  lemma RelaysSeeTwoPeers(s: State, c: ConnId)
    requires Control(s) && c < |s.pcs|
    ensures s.pcs[c].Starting? ==> Enabled(s, Snapshot(c)) && Apply(s, Snapshot(c)).pcs[c].Relaying?
    ensures s.pcs[c].Relaying? ==> s.pcs[c].a != s.pcs[c].b && (c == s.pcs[c].a || c == s.pcs[c].b)
  {
    assert HandlerInv(s, c);
    if HasSession(s.pcs[c]) {
      assert SlotInv(s, s.pcs[c].s);
    }
  }

  /** A peer is refused only by a session that has two, so the clean-up after a
      refusal never deletes anything. */
  lemma CleanUpDeletesNothing(s: State, c: ConnId)
    requires Control(s) && Enabled(s, CleanUp(c))
    ensures |s.table.store[s.pcs[c].s].peers| == 2
    ensures Apply(s, CleanUp(c)).table == s.table
  {
    assert HandlerInv(s, c);
  }

  /** A session without peers in the table can always get one: the handler that is
      about to join it exists and is not stuck. */
  lemma EmptySessionIsJoined(s: State, k: SessionId) returns (c: ConnId)
    requires Control(s) && k in s.table.sessions && s.table.store[s.table.sessions[k]].peers == []
    ensures Enabled(s, Join(c))
    ensures Apply(s, Join(c)).table.store[s.table.sessions[k]].peers == [c]
  {
    c :| 0 <= c < |s.pcs| && s.pcs[c] == Joining(s.table.sessions[k]);
  }
}
