/** Removing a client's sessions through its list, against a scan of the whole table. */
module SignalRemoval {
  import opened SignalTables
  import opened SignalModel
  import opened SignalSafety

  predicate Involves(rec: SessionRec, id: ClientId) {
    rec.initiator.id == id || (rec.responder.Some? && rec.responder.value.id == id)
  }

  /** What is left of the table after a scan for the client. */
  function ScanRemoves(sm: Sessions, id: ClientId): (r: map<SessionId, nat>) {
    map k | k in sm.table && !(sm.table[k] < |sm.store| && Involves(sm.store[sm.table[k]], id)) :: sm.table[k]
  }

  /** Whatever the requests have been, the list removes at least what a scan would, and
      changes nothing else in the table. */
  lemma RemovesAtLeastScan(steps: seq<Step>, id: ClientId)
    requires Run(Init(), steps).Some?
    ensures var sm := Reach(steps).core.sm;
            var t := RemoveClientSessions(sm, id).table;
            forall k :: k in t ==> k in ScanRemoves(sm, id) && t[k] == sm.table[k]
  {
    var s := Reach(steps);
    var sm := s.core.sm;
    forall k | k in RemoveClientSessions(sm, id).table ensures k in ScanRemoves(sm, id) {
      var r := sm.table[k];
      assert SessionInv(s, r);
      if Involves(sm.store[r], id) {
        RemovedRefersToNone(sm, id, r);
      }
    }
  }

  /** In every reachable state the two agree exactly when every session listed for the
      client, if the table still holds its identifier, is held there as one that involves
      the client. */
  lemma RemovesExactlyScanIff(steps: seq<Step>, id: ClientId)
    requires Run(Init(), steps).Some?
    ensures var sm := Reach(steps).core.sm;
            RemoveClientSessions(sm, id).table == ScanRemoves(sm, id) <==>
              forall k :: k in ListedIds(sm, id) && k in sm.table ==>
                sm.table[k] < |sm.store| && Involves(sm.store[sm.table[k]], id)
  {
    var sm := Reach(steps).core.sm;
    var t, scan := RemoveClientSessions(sm, id).table, ScanRemoves(sm, id);
    RemovesAtLeastScan(steps, id);
    assert TableInv(sm);
    hide Reach, Run, Involves;
    assert forall k :: k in t <==> k in sm.table && k !in ListedIds(sm, id);
    if forall k :: k in ListedIds(sm, id) && k in sm.table ==> Involves(sm.store[sm.table[k]], id) {
      assert forall k :: k in scan ==> k in t && t[k] == scan[k];
      assert t.Keys == scan.Keys;
    } else {
      var k :| k in ListedIds(sm, id) && k in sm.table && !Involves(sm.store[sm.table[k]], id);
      assert k in scan && k !in t;
    }
  }

  /** Requests that never reuse a session identifier and never accept a session twice. */
  predicate Careful(s: State, step: Step) {
    step.Do? ==>
      var sm := s.core.sm;
      match step.op
      case Create(sid, _, _) => forall r :: 0 <= r < |sm.store| ==> sm.store[r].id != sid
      case Accept(sid) => sid in sm.table && sm.table[sid] < |sm.store| ==> sm.store[sm.table[sid]].responder.None?
      case _ => true
  }

  predicate CarefulRun(steps: seq<Step>) {
    steps == [] ||
      var before := Run(Init(), steps[..|steps| - 1]);
      CarefulRun(steps[..|steps| - 1]) && (before.Some? ==> Careful(before.value, steps[|steps| - 1]))
  }

  predicate ListedFor(sm: Sessions, id: ClientId, r: nat) {
    r < |sm.store| && Involves(sm.store[r], id)
  }

  /** Every session listed for a client involves it, and no two sessions share an identifier. */
  predicate Listed(sm: Sessions) {
    && (forall id, r :: id in sm.byClient && r in sm.byClient[id] ==> ListedFor(sm, id, r))
    && (forall r, q :: 0 <= r < |sm.store| && 0 <= q < |sm.store| && sm.store[r].id == sm.store[q].id ==> r == q)
  }

  lemma CreateKeepsListed(sm: Sessions, sid: SessionId, who: Endpoint, device: DeviceId, protocols: seq<string>)
    requires Listed(sm) && forall r :: 0 <= r < |sm.store| ==> sm.store[r].id != sid
    ensures Listed(CreateSession(sm, sid, who, device, protocols))
  {
    var t := CreateSession(sm, sid, who, device, protocols);
    forall id, r | id in t.byClient && r in t.byClient[id] ensures ListedFor(t, id, r) {
      assert r == |sm.store| || (id in sm.byClient && r in sm.byClient[id]);
    }
  }

  lemma AcceptKeepsListed(sm: Sessions, sid: SessionId, who: Endpoint)
    requires Listed(sm)
    requires sid in sm.table && sm.table[sid] < |sm.store| ==> sm.store[sm.table[sid]].responder.None?
    ensures Listed(AcceptSession(sm, sid, who))
  {
    var t := AcceptSession(sm, sid, who);
    forall id, r | id in t.byClient && r in t.byClient[id] ensures ListedFor(t, id, r) {
      assert (id == who.id && sid in sm.table && r == sm.table[sid]) || (id in sm.byClient && r in sm.byClient[id]);
    }
  }

  lemma StatusKeepsListed(sm: Sessions, t: Sessions)
    requires Listed(sm) && |t.store| == |sm.store|
    requires forall id :: id in t.byClient ==> id in sm.byClient && t.byClient[id] == sm.byClient[id]
    requires forall r :: 0 <= r < |sm.store| ==> t.store[r] == sm.store[r].(status := t.store[r].status)
    ensures Listed(t)
  {
    forall id, r | id in t.byClient && r in t.byClient[id] ensures ListedFor(t, id, r) {
      assert r in sm.byClient[id];
    }
  }

  lemma StepKeepsListed(s: State, step: Step)
    requires Listed(s.core.sm) && Enabled(s, step) && Careful(s, step)
    ensures Listed(Apply(s, step).core.sm)
  {
    hide Listed, CreateSession, AcceptSession, RegisterDevice, Offer, UpdateHeartbeat, GetPeer;
    var sm := s.core.sm;
    match step {
      case Do(c, Create(sid, device, protocols)) => CreateKeepsListed(sm, sid, Self(s.core, c), device, protocols);
      case Do(c, Accept(sid)) => AcceptKeepsListed(sm, sid, Self(s.core, c));
      case Do(c, Mark(sid, status)) => StatusKeepsListed(sm, SetStatus(sm, sid, status));
      case RemoveSessions(c) => StatusKeepsListed(sm, RemoveClientSessions(sm, s.core.hub.recs[c].id));
      case _ =>
    }
  }

  lemma {:induction false} CarefulRunIsListed(steps: seq<Step>)
    requires CarefulRun(steps) && Run(Init(), steps).Some?
    ensures Listed(Run(Init(), steps).value.core.sm)
    decreases |steps|
  {
    if steps != [] {
      CarefulRunIsListed(steps[..|steps| - 1]);
      StepKeepsListed(Run(Init(), steps[..|steps| - 1]).value, steps[|steps| - 1]);
    }
  }

  lemma ListedIsInvolved(sm: Sessions, id: ClientId, k: SessionId)
    requires Listed(sm) && TableInv(sm) && k in sm.table && k in ListedIds(sm, id)
    ensures Involves(sm.store[sm.table[k]], id)
  {
    var i :| 0 <= i < |Of(sm, id)| && Of(sm, id)[i] < |sm.store| && sm.store[Of(sm, id)[i]].id == k;
    assert Of(sm, id)[i] in sm.byClient[id];
  }

  /** Then the list removes exactly what a scan would. */
  lemma RemovesExactlyScan(steps: seq<Step>, id: ClientId)
    requires CarefulRun(steps) && Run(Init(), steps).Some?
    ensures var sm := Reach(steps).core.sm;
            RemoveClientSessions(sm, id).table == ScanRemoves(sm, id)
  {
    var sm := Reach(steps).core.sm;
    RemovesExactlyScanIff(steps, id);
    CarefulRunIsListed(steps);
    hide Run, CarefulRun;
    forall k | k in ListedIds(sm, id) && k in sm.table ensures Involves(sm.store[sm.table[k]], id) {
      ListedIsInvolved(sm, id, k);
    }
  }

  /** A session accepted a second time, by another client, is still removed with the first. */
  lemma SecondAcceptRemovesMore(sm: Sessions, sid: SessionId, first: Endpoint, second: Endpoint)
    requires TableInv(sm) && sid in sm.table && sm.table[sid] < |sm.store|
    requires first.id != second.id && sm.store[sm.table[sid]].initiator.id != first.id
    ensures var t := AcceptSession(AcceptSession(sm, sid, first), sid, second);
            sid in ScanRemoves(t, first.id) && sid !in RemoveClientSessions(t, first.id).table
  {
    var t := AcceptSession(AcceptSession(sm, sid, first), sid, second);
    var of := Of(t, first.id);
    assert of == Of(sm, first.id) + [sm.table[sid]];
    assert of[|of| - 1] == sm.table[sid] && t.store[of[|of| - 1]].id == sid;
  }

  /** A new session under an identifier used before is removed with the old one's client. */
  lemma ReusedIdRemovesMore(sm: Sessions, sid: SessionId, first: Endpoint, second: Endpoint, d: DeviceId, p: seq<string>)
    requires first.id != second.id
    ensures var t := CreateSession(CreateSession(sm, sid, first, d, p), sid, second, d, p);
            sid in ScanRemoves(t, first.id) && sid !in RemoveClientSessions(t, first.id).table
  {
    var t := CreateSession(CreateSession(sm, sid, first, d, p), sid, second, d, p);
    var of := Of(t, first.id);
    assert of == Of(sm, first.id) + [|sm.store|];
    assert of[|of| - 1] == |sm.store| && t.store[of[|of| - 1]].id == sid;
  }
}
