/** Which session the table holds under an identifier, and so which one a clean-up deletes. */
module RelayOwn {
  import opened Wrappers
  import opened RelayTable
  import opened RelayModel
  import opened RelayControl
  import opened RelayFlow
  import RelayStarts

  /** The table maps the session's identifier to this very session object. */
  predicate Listed(s: State, r: nat)
    requires r < |s.table.store|
  {
    s.table.store[r].id in s.table.sessions && s.table.sessions[s.table.store[r].id] == r
  }

  /** The steps that remove entries: a shutdown, and the clean-up after any relay of a
      session with this identifier. */
  predicate Removes(s: State, step: Step, id: SessionId) {
    step.ShutDown? || (step.Drop? && step.c < |s.conns| && s.conns[step.c].sid == id)
  }

  lemma OthersKeepEntries(s: State, step: Step)
    requires Control(s) && Enabled(s, step) && !step.Find? && !step.Drop? && !step.ShutDown?
    ensures Apply(s, step).table.sessions == s.table.sessions
  {
    if step.CleanUp? {
      RelayStarts.CleanUpDeletesNothing(s, step.c);
    }
    hide Control, CloseConns, WithCopy, CleanUpEmpty;
  }

  lemma StepLists(s: State, step: Step, r: nat)
    requires Control(s) && Enabled(s, step) && r < |Apply(s, step).table.store|
    ensures r < |s.table.store| ==>
              && Apply(s, step).table.store[r].id == s.table.store[r].id
              && (Listed(Apply(s, step), r) <==> Listed(s, r) && !Removes(s, step, s.table.store[r].id))
    ensures r >= |s.table.store| ==> Listed(Apply(s, step), r)
  {
    RelayStarts.StepKeepsSlots(s, step);
    if step.Find? {
      FindLists(s, step.c, r);
    } else {
      OnlyFindMakes(s, step);
      if step.Drop? || step.ShutDown? {
        RemovalLists(s, step);
      } else {
        OthersKeepEntries(s, step);
      }
    }
    hide Apply, Enabled, Control;
  }

  lemma FindLists(s: State, c: ConnId, r: nat)
    requires Control(s) && Enabled(s, Find(c)) && r < |Apply(s, Find(c)).table.store|
    ensures r < |s.table.store| ==> (Listed(Apply(s, Find(c)), r) <==> Listed(s, r))
    ensures r >= |s.table.store| ==> Listed(Apply(s, Find(c)), r)
  {
  }

  lemma RemovalLists(s: State, step: Step)
    requires Control(s) && Enabled(s, step) && (step.Drop? || step.ShutDown?)
    ensures step.Drop? ==> Apply(s, step).table.sessions == s.table.sessions - {s.conns[step.c].sid}
    ensures step.ShutDown? ==> Apply(s, step).table.sessions == map[]
  {
    hide CloseConns, ClosedWith;
  }

  lemma OnlyFindMakes(s: State, step: Step)
    requires Enabled(s, step) && !step.Find?
    ensures |Apply(s, step).table.store| == |s.table.store|
  {
    hide CloseConns, ClosedWith, WithCopy;
  }

  /** Step `i` of the run removes the entry of the identifier of `r`, after `r` was made. */
  predicate RemovedAt(max: int, steps: seq<Step>, i: nat, r: nat)
    requires i < |steps|
  {
    && Run(Init(max), steps[..i]).Some?
    && var at := Run(Init(max), steps[..i]).value;
       r < |at.table.store| && Removes(at, steps[i], at.table.store[r].id)
  }

  predicate Removed(max: int, steps: seq<Step>, r: nat) {
    exists i :: 0 <= i < |steps| && RemovedAt(max, steps, i, r)
  }

  lemma EarlierRemoval(max: int, steps: seq<Step>, i: nat, r: nat)
    requires Run(Init(max), steps).Some? && i < |steps| - 1
    ensures var before := steps[..|steps| - 1];
            && Run(Init(max), before).Some?
            && (RemovedAt(max, steps, i, r) <==> RemovedAt(max, before, i, r))
            && (RemovedAt(max, steps, i, r) ==> r < |Run(Init(max), before).value.table.store|)
  {
    var before := steps[..|steps| - 1];
    assert before[..i] == steps[..i];
    assert Run(Init(max), before).Some?;
    hide Removes;
    RelayStarts.RunKeepsSlots(Init(max), before, i);
    hide Run;
  }

  lemma LastRemoval(max: int, steps: seq<Step>, r: nat)
    requires steps != [] && Run(Init(max), steps).Some?
    ensures Run(Init(max), steps[..|steps| - 1]).Some?
    ensures RemovedAt(max, steps, |steps| - 1, r) <==>
            var s := Run(Init(max), steps[..|steps| - 1]).value;
            r < |s.table.store| && Removes(s, steps[|steps| - 1], s.table.store[r].id)
  {
    hide Removes;
  }

  lemma StaysRemoved(max: int, steps: seq<Step>, r: nat)
    requires steps != [] && Run(Init(max), steps).Some? && Removed(max, steps[..|steps| - 1], r)
    ensures Removed(max, steps, r)
  {
    var before := steps[..|steps| - 1];
    hide Run, RemovedAt;
    var i :| 0 <= i < |before| && RemovedAt(max, before, i, r);
    EarlierRemoval(max, steps, i, r);
    assert RemovedAt(max, steps, i, r);
  }

  lemma RemovedBefore(max: int, steps: seq<Step>, r: nat)
    requires steps != [] && Run(Init(max), steps).Some? && Removed(max, steps, r)
    ensures Run(Init(max), steps[..|steps| - 1]).Some?
    ensures r < |Run(Init(max), steps[..|steps| - 1]).value.table.store|
    ensures RemovedAt(max, steps, |steps| - 1, r) || Removed(max, steps[..|steps| - 1], r)
  {
    hide Run, RemovedAt, Removes;
    var i :| 0 <= i < |steps| && RemovedAt(max, steps, i, r);
    if i < |steps| - 1 {
      EarlierRemoval(max, steps, i, r);
      assert RemovedAt(max, steps[..|steps| - 1], i, r);
    } else {
      LastRemoval(max, steps, r);
    }
  }

  lemma RemovedStep(max: int, steps: seq<Step>, s: State, r: nat)
    requires steps != [] && Run(Init(max), steps).Some? && Run(Init(max), steps[..|steps| - 1]) == Some(s)
    ensures r < |s.table.store| ==>
              (Removed(max, steps, r) <==>
                 Removed(max, steps[..|steps| - 1], r) || Removes(s, steps[|steps| - 1], s.table.store[r].id))
    ensures r >= |s.table.store| ==> !Removed(max, steps, r)
  {
    LastRemoval(max, steps, r);
    assert RemovedAt(max, steps, |steps| - 1, r) ==> Removed(max, steps, r);
    hide Run, Removes, RemovedAt, Removed;
    if Removed(max, steps[..|steps| - 1], r) {
      StaysRemoved(max, steps, r);
    }
    if Removed(max, steps, r) {
      RemovedBefore(max, steps, r);
    }
  }

  /** In every run: a session is still listed if and only if, since it was made, the
      server was not shut down and no relay of a session with its identifier was cleaned up. */
  lemma {:induction false} ListedIff(max: int, steps: seq<Step>, r: nat)
    requires Run(Init(max), steps).Some? && r < |Run(Init(max), steps).value.table.store|
    ensures Listed(Run(Init(max), steps).value, r) <==> !Removed(max, steps, r)
    decreases |steps|
  {
    var before := steps[..|steps| - 1];
    var s := Run(Init(max), before).value;
    RunKeepsControl(max, before);
    StepLists(s, steps[|steps| - 1], r);
    RemovedStep(max, steps, s, r);
    hide Apply, Enabled, Control, Removes, Listed, Removed;
    if r < |s.table.store| {
      ListedIff(max, before, r);
    }
  }

  /** When a relay has ended, its clean-up deletes the entry of that very session if and
      only if nothing has removed that entry before. */
  lemma DropFindsOwnIff(max: int, steps: seq<Step>, c: ConnId)
    requires Run(Init(max), steps).Some? && Enabled(Run(Init(max), steps).value, Drop(c))
    ensures var s := Run(Init(max), steps).value;
            var sid, r := s.conns[c].sid, s.pcs[c].s;
            && (sid in s.table.sessions && s.table.sessions[sid] == r <==> !Removed(max, steps, r))
            && Apply(s, Drop(c)).table.sessions == s.table.sessions - {sid}
  {
    RunKeepsControl(max, steps);
    var s := Run(Init(max), steps).value;
    assert HandlerInv(s, c);
    hide Run, Control, Removed;
    ListedIff(max, steps, s.pcs[c].s);
  }

  // ---------------------------------------------------------------- when no session of the identifier is relayed twice

  /** The sessions with identifier `id` have each been relayed at most once. */
  predicate AllOnce(s: State, id: SessionId) {
    forall r :: 0 <= r < |s.table.store| && s.table.store[r].id == id ==> Once(s, r)
  }

  predicate SomeoneEnded(s: State, r: nat)
    requires r < |s.table.store|
  {
    exists p :: p in s.table.store[r].peers && p < |s.pcs| && s.pcs[p].Ended?
  }

  /** Starting a relay, and having ended one, are for good. */
  lemma StagesStay(s: State, step: Step, c: ConnId)
    requires Enabled(s, step) && c < |s.pcs|
    ensures c < |Apply(s, step).pcs|
    ensures Relayed(s.pcs[c]) ==> Relayed(Apply(s, step).pcs[c])
    ensures s.pcs[c].Ended? ==> Apply(s, step).pcs[c] == s.pcs[c]
  {
    hide CloseConns, ClosedWith, Lookup, AddPeer, CleanUpEmpty, AddBytes, MarkClosed, Shutdown, Forget;
  }

  lemma OnceBefore(s: State, step: Step, r: nat)
    requires Control(s) && Enabled(s, step) && r < |s.table.store| && r < |Apply(s, step).table.store|
    requires Once(Apply(s, step), r)
    ensures Once(s, r)
  {
    RelayStarts.StepKeepsSlots(s, step);
    assert SlotInv(s, r);
    StepKeepsControl(s, step);
    assert SlotInv(Apply(s, step), r);
    var peers := s.table.store[r].peers;
    if |peers| == 2 {
      StagesStay(s, step, peers[0]);
      StagesStay(s, step, peers[1]);
    }
    hide Apply, Enabled, Control;
  }

  lemma EndedStays(s: State, step: Step, r: nat)
    requires Enabled(s, step) && r < |s.table.store| && r < |Apply(s, step).table.store| && SomeoneEnded(s, r)
    ensures SomeoneEnded(Apply(s, step), r)
  {
    var p :| p in s.table.store[r].peers && p < |s.pcs| && s.pcs[p].Ended?;
    RelayStarts.StepKeepsSlots(s, step);
    StagesStay(s, step, p);
    hide Apply, Enabled;
    assert p in Apply(s, step).table.store[r].peers;
  }

  /** A handler about to clean up shares its session with nobody who has cleaned up. */
  lemma LastIsAlone(s: State, c: ConnId)
    requires Control(s) && c < |s.pcs| && s.pcs[c].Forgetting? && s.pcs[c].s < |s.table.store| && Once(s, s.pcs[c].s)
    ensures !SomeoneEnded(s, s.pcs[c].s)
  {
    assert HandlerInv(s, c) && SlotInv(s, s.pcs[c].s);
    hide Control;
  }

  /** The effect of a clean-up on another session with the same identifier, and on its own. */
  lemma DropEndsListed(s: State, c: ConnId, r: nat)
    requires Control(s) && Enabled(s, Drop(c)) && r < |s.table.store| && s.table.store[r].id == s.conns[c].sid
    requires s.pcs[c].s < |s.table.store| && Once(s, s.pcs[c].s)
    requires Listed(s, r) && (Listed(s, s.pcs[c].s) || SomeoneEnded(s, s.pcs[c].s))
    ensures r < |Apply(s, Drop(c)).table.store| && SomeoneEnded(Apply(s, Drop(c)), r)
  {
    LastIsAlone(s, c);
    assert HandlerInv(s, c);
    assert s.pcs[c].s == r;
    hide Control;
    assert c in Apply(s, Drop(c)).table.store[r].peers && Apply(s, Drop(c)).pcs[c].Ended?;
  }

  lemma {:induction false} ListedUntilEnded(max: int, steps: seq<Step>, id: SessionId)
    requires Run(Init(max), steps).Some? && forall i :: 0 <= i < |steps| ==> !steps[i].ShutDown?
    requires AllOnce(Run(Init(max), steps).value, id)
    ensures var s := Run(Init(max), steps).value;
            forall r :: 0 <= r < |s.table.store| && s.table.store[r].id == id ==> Listed(s, r) || SomeoneEnded(s, r)
    decreases |steps|
  {
    if steps != [] {
      var before, last := steps[..|steps| - 1], steps[|steps| - 1];
      var s, t := Run(Init(max), before).value, Run(Init(max), steps).value;
      RunKeepsControl(max, before);
      RelayStarts.StepKeepsSlots(s, last);
      forall r | 0 <= r < |s.table.store| && s.table.store[r].id == id ensures Once(s, r) {
        OnceBefore(s, last, r);
      }
      ListedUntilEnded(max, before, id);
      hide Run;
      forall r | 0 <= r < |t.table.store| && t.table.store[r].id == id ensures Listed(t, r) || SomeoneEnded(t, r) {
        ListedOrEnded(s, last, r, id);
      }
    }
  }

  lemma ListedOrEnded(s: State, step: Step, r: nat, id: SessionId)
    requires Control(s) && Enabled(s, step) && !step.ShutDown? && AllOnce(s, id)
    requires forall q :: 0 <= q < |s.table.store| && s.table.store[q].id == id ==> Listed(s, q) || SomeoneEnded(s, q)
    requires r < |Apply(s, step).table.store| && Apply(s, step).table.store[r].id == id
    ensures Listed(Apply(s, step), r) || SomeoneEnded(Apply(s, step), r)
  {
    StepLists(s, step, r);
    if r < |s.table.store| && !Listed(Apply(s, step), r) {
      if SomeoneEnded(s, r) {
        EndedStays(s, step, r);
      } else {
        assert HandlerInv(s, step.c);
        DropEndsListed(s, step.c, r);
      }
    }
    hide Apply, Control;
  }

  /** When the server has not been shut down and no session of the identifier has been
      relayed twice, the clean-up deletes the entry of the very session that ended. */
  lemma DropFindsOwn(max: int, steps: seq<Step>, s: State, c: ConnId)
    requires Run(Init(max), steps) == Some(s) && forall i :: 0 <= i < |steps| ==> !steps[i].ShutDown?
    requires Enabled(s, Drop(c)) && AllOnce(s, s.conns[c].sid)
    ensures s.conns[c].sid in s.table.sessions && s.table.sessions[s.conns[c].sid] == s.pcs[c].s
  {
    hide Run, AllOnce, Control, SomeoneEnded;
    RunKeepsControl(max, steps);
    ListedUntilEnded(max, steps, s.conns[c].sid);
    OwnStillListed(s, c);
  }

  lemma OwnStillListed(s: State, c: ConnId)
    requires Control(s) && Enabled(s, Drop(c)) && AllOnce(s, s.conns[c].sid)
    requires forall r :: 0 <= r < |s.table.store| && s.table.store[r].id == s.conns[c].sid ==> Listed(s, r) || SomeoneEnded(s, r)
    ensures s.conns[c].sid in s.table.sessions && s.table.sessions[s.conns[c].sid] == s.pcs[c].s
  {
    assert HandlerInv(s, c);
    hide Control, Once, SomeoneEnded;
    LastIsAlone(s, c);
  }
}
