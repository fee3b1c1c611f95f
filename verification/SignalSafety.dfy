/** Nothing reachable in the signalling server refers to a client that has left. */
module SignalSafety {
  import opened Wrappers
  import opened SignalTables
  import opened SignalModel

  // ---------------------------------------------------------------- the hub's operations

  /** Only channels and device fields change: the clients are the same. */
  predicate SameClients(h: Hub, g: Hub) {
    && |g.recs| == |h.recs|
    && forall c :: 0 <= c < |h.recs| ==> g.recs[c].id == h.recs[c].id
  }

  lemma SentKeepsOrder(rec: ClientRec, msg: Msg)
    requires rec.taken + rec.queue == rec.accepted && Subsequence(rec.accepted, rec.sent)
    ensures rec.taken + (rec.queue + [msg]) == rec.accepted + [msg]
    ensures Subsequence(rec.accepted + [msg], rec.sent + [msg]) && Subsequence(rec.accepted, rec.sent + [msg])
  {
    hide Subsequence;
    SubsequenceSend(rec.accepted, rec.sent, msg);
    assert rec.taken + (rec.queue + [msg]) == rec.taken + rec.queue + [msg];
  }

  lemma OfferKeepsClient(h: Hub, phase: seq<Phase>, c: nat, msg: Msg, d: nat)
    requires |h.recs| == |phase| && c < |phase| && d < |phase| && ClientInv(h, phase, d)
    ensures ClientInv(Offer(h, c, msg).0, phase, d)
  {
    hide Subsequence;
    if d == c {
      SentKeepsOrder(h.recs[c], msg);
    }
  }

  lemma OfferKeepsHub(h: Hub, phase: seq<Phase>, c: nat, msg: Msg)
    requires HubInv(h, phase) && c < |h.recs|
    ensures HubInv(Offer(h, c, msg).0, phase) && SameClients(h, Offer(h, c, msg).0)
    ensures Offer(h, c, msg).1.Panicked? <==> phase[c] == Gone
  {
    var g := Offer(h, c, msg).0;
    assert h.recs[c].open <==> phase[c] != Gone by {
      assert ClientInv(h, phase, c);
    }
    hide ClientInv;
    forall d | 0 <= d < |phase| ensures ClientInv(g, phase, d) {
      OfferKeepsClient(h, phase, c, msg, d);
    }
  }

  /** A message sent last is either kept last or left out. */
  lemma SubsequenceSend(a: seq<Msg>, b: seq<Msg>, msg: Msg)
    requires Subsequence(a, b)
    ensures Subsequence(a + [msg], b + [msg]) && Subsequence(a, b + [msg])
  {
    assert (a + [msg])[..|a|] == a && (b + [msg])[..|b|] == b;
  }

  lemma TakeKeepsHub(h: Hub, phase: seq<Phase>, c: nat)
    requires HubInv(h, phase) && c < |h.recs| && h.recs[c].queue != []
    ensures HubInv(TakeNext(h, c), phase) && SameClients(h, TakeNext(h, c))
  {
    var g := TakeNext(h, c);
    var rec := h.recs[c];
    assert rec.taken + [rec.queue[0]] + rec.queue[1..] == rec.taken + rec.queue;
    hide Subsequence;
    forall d | 0 <= d < |phase| ensures ClientInv(g, phase, d) {
      assert ClientInv(h, phase, d);
    }
  }

  lemma RegisterClientKeepsHub(h: Hub, phase: seq<Phase>, id: ClientId, isAgent: bool)
    requires HubInv(h, phase)
    ensures HubInv(RegisterClient(h, id, isAgent), phase + [Live])
  {
    var g := RegisterClient(h, id, isAgent);
    assert Subsequence([] + [], []);
    hide Subsequence;
    forall d | 0 <= d < |phase| + 1 ensures ClientInv(g, phase + [Live], d) {
      assert d < |phase| ==> ClientInv(h, phase, d);
    }
  }

  lemma UnregisterKeepsClient(h: Hub, phase: seq<Phase>, c: nat, d: nat)
    requires HubInv(h, phase) && c < |h.recs| && phase[c] == Leaving && d < |phase|
    ensures ClientInv(UnregisterClient(h, c), phase[c := Gone], d)
  {
    hide Subsequence;
    assert ClientInv(h, phase, c) && ClientInv(h, phase, d);
  }

  lemma UnregisterKeepsHub(h: Hub, phase: seq<Phase>, c: nat)
    requires HubInv(h, phase) && c < |h.recs| && phase[c] == Leaving
    ensures HubInv(UnregisterClient(h, c), phase[c := Gone]) && SameClients(h, UnregisterClient(h, c))
  {
    hide ClientInv;
    var g := UnregisterClient(h, c);
    var phase' := phase[c := Gone];
    forall d | 0 <= d < |phase'| ensures ClientInv(g, phase', d) {
      UnregisterKeepsClient(h, phase, c, d);
    }
  }

  lemma RegisterDeviceKeepsClient(h: Hub, phase: seq<Phase>, c: nat, d: DeviceId, info: DeviceInfo, now: nat, e: nat)
    requires HubInv(h, phase) && c < |h.recs| && phase[c] == Live && h.recs[c].isAgent && e < |phase|
    ensures ClientInv(RegisterDevice(h, c, d, info, now), phase, e)
  {
    hide Subsequence;
    assert ClientInv(h, phase, e);
  }

  lemma RegisterDeviceKeepsHub(h: Hub, phase: seq<Phase>, c: nat, d: DeviceId, info: DeviceInfo, now: nat)
    requires HubInv(h, phase) && c < |h.recs| && phase[c] == Live && h.recs[c].isAgent
    ensures HubInv(RegisterDevice(h, c, d, info, now), phase)
    ensures SameClients(h, RegisterDevice(h, c, d, info, now))
  {
    hide ClientInv;
    var g := RegisterDevice(h, c, d, info, now);
    forall e | 0 <= e < |phase| ensures ClientInv(g, phase, e) {
      RegisterDeviceKeepsClient(h, phase, c, d, info, now, e);
    }
  }

  lemma HeartbeatKeepsHub(h: Hub, phase: seq<Phase>, d: DeviceId, now: nat)
    requires HubInv(h, phase)
    ensures HubInv(UpdateHeartbeat(h, d, now), phase) && SameClients(h, UpdateHeartbeat(h, d, now))
  {
    var g := UpdateHeartbeat(h, d, now);
    forall e | 0 <= e < |phase| ensures ClientInv(g, phase, e) {
      assert ClientInv(h, phase, e);
    }
  }

  // ---------------------------------------------------------------- the session manager's operations

  lemma CreateKeepsSessions(s: State, c: nat, sid: SessionId, device: DeviceId, protocols: seq<string>)
    requires SessionsInv(s) && c < |s.phase| == |s.core.hub.recs| && s.phase[c] == Live
    ensures SessionsInv(s.(core := Perform(s.core, c, Create(sid, device, protocols)).0))
  {
    var t := s.(core := Perform(s.core, c, Create(sid, device, protocols)).0);
    forall r | 0 <= r < |t.core.sm.store| ensures SessionInv(t, r) {
      if r < |s.core.sm.store| {
        assert SessionInv(s, r);
      }
    }
  }

  lemma AcceptKeepsSessions(s: State, c: nat, sid: SessionId)
    requires SessionsInv(s) && c < |s.phase| == |s.core.hub.recs| && s.phase[c] == Live
    ensures SessionsInv(s.(core := Perform(s.core, c, Accept(sid)).0))
  {
    var t := s.(core := Perform(s.core, c, Accept(sid)).0);
    forall r | 0 <= r < |t.core.sm.store| ensures SessionInv(t, r) {
      assert SessionInv(s, r);
    }
  }

  lemma MarkKeepsSessions(s: State, c: nat, sid: SessionId, status: Status)
    requires SessionsInv(s) && c < |s.phase| == |s.core.hub.recs|
    ensures SessionsInv(s.(core := Perform(s.core, c, Mark(sid, status)).0))
  {
    var t := s.(core := Perform(s.core, c, Mark(sid, status)).0);
    forall r | 0 <= r < |t.core.sm.store| ensures SessionInv(t, r) {
      assert SessionInv(s, r);
    }
  }

  /** Sessions refer to clients by identifier and phase only. */
  lemma HubChangeKeepsSessions(s: State, t: State)
    requires SessionsInv(s) && |s.phase| == |s.core.hub.recs|
    requires t.core.sm == s.core.sm && |t.core.hub.recs| >= |s.core.hub.recs| && |t.phase| >= |s.phase|
    requires forall c :: 0 <= c < |s.core.hub.recs| ==> t.core.hub.recs[c].id == s.core.hub.recs[c].id
    requires forall c :: 0 <= c < |s.phase| && s.phase[c] == Live ==> t.phase[c] == Live
    ensures SessionsInv(t)
  {
    forall r | 0 <= r < |t.core.sm.store| ensures SessionInv(t, r) {
      assert SessionInv(s, r);
    }
  }

  /** After a client's sessions are removed no session in the table has an endpoint with
      its identifier. */
  lemma RemovedRefersToNone(sm: Sessions, id: ClientId, r: nat)
    requires TableInv(sm) && r < |sm.store| && r in Of(sm, id)
    ensures var t := RemoveClientSessions(sm, id);
            !(t.store[r].id in t.table && t.table[t.store[r].id] == r)
  {
    var i :| 0 <= i < |Of(sm, id)| && Of(sm, id)[i] == r;
    assert sm.store[r].id in ListedIds(sm, id);
  }

  lemma RemoveKeepsSessions(s: State, c: nat)
    requires SessionsInv(s) && Enabled(s, RemoveSessions(c))
    ensures SessionsInv(Apply(s, RemoveSessions(c)))
  {
    var t := Apply(s, RemoveSessions(c));
    var id := s.core.hub.recs[c].id;
    forall r | 0 <= r < |t.core.sm.store| ensures SessionInv(t, r) {
      assert SessionInv(s, r);
      if r in Of(s.core.sm, id) {
        RemovedRefersToNone(s.core.sm, id, r);
      }
    }
  }

  // ---------------------------------------------------------------- every step

  lemma RouteKeepsInv(s: State, c: nat, msg: Msg)
    requires Inv(s) && c < |s.phase|
    ensures var t := s.(core := s.core.(hub := Offer(s.core.hub, c, msg).0)); Inv(t)
  {
    OfferKeepsHub(s.core.hub, s.phase, c, msg);
    hide Offer, HubInv, SessionsInv;
    HubChangeKeepsSessions(s, s.(core := s.core.(hub := Offer(s.core.hub, c, msg).0)));
  }

  lemma DoKeepsInv(s: State, c: nat, op: Op)
    requires Inv(s) && Enabled(s, Do(c, op))
    ensures Inv(s.(core := Perform(s.core, c, op).0))
  {
    var h := s.core.hub;
    var t := s.(core := Perform(s.core, c, op).0);
    hide HubInv, SessionsInv, Offer, RegisterDevice, UpdateHeartbeat, CreateSession, AcceptSession, SetStatus;
    match op {
      case Create(sid, device, protocols) => CreateKeepsSessions(s, c, sid, device, protocols);
      case Accept(sid) => AcceptKeepsSessions(s, c, sid);
      case Mark(sid, status) => MarkKeepsSessions(s, c, sid, status);
      case Register(device, info, now) =>
        if h.recs[c].isAgent {
          RegisterDeviceKeepsHub(h, s.phase, c, device, info, now);
          HubChangeKeepsSessions(s, t);
        }
      case Heartbeat(now) =>
        HeartbeatKeepsHub(h, s.phase, h.recs[c].device, now);
        HubChangeKeepsSessions(s, t);
      case ToDevice(device, msg) =>
        if device in h.byDevice && h.byDevice[device] < |h.recs| {
          RouteKeepsInv(s, h.byDevice[device], msg);
        }
      case ToPeer(sid, msg) =>
        var peer := GetPeer(s.core.sm, sid, h.recs[c].id);
        if peer.Some? && peer.value.Some? && peer.value.value.ref < |h.recs| {
          RouteKeepsInv(s, peer.value.value.ref, msg);
        }
      case ToClient(id, msg) =>
        if id in h.clients && h.clients[id] < |h.recs| {
          RouteKeepsInv(s, h.clients[id], msg);
        }
      case ToSelf(msg) => RouteKeepsInv(s, c, msg);
    }
  }

  lemma StepKeepsInv(s: State, step: Step)
    requires Inv(s) && Enabled(s, step)
    ensures Inv(Apply(s, step))
  {
    var h := s.core.hub;
    var t := Apply(s, step);
    hide HubInv, SessionsInv, Perform, UnregisterClient, TakeNext, RemoveClientSessions;
    match step {
      case Connect(id, isAgent) =>
        RegisterClientKeepsHub(h, s.phase, id, isAgent);
        HubChangeKeepsSessions(s, t);
      case Do(c, op) =>
        DoKeepsInv(s, c, op);
        PanicFlagIsFree(s.(core := Perform(s.core, c, op).0), t);
      case RemoveSessions(c) =>
        RemoveKeepsSessions(s, c);
        RemoveKeepsHub(s, c);
      case Unregister(c) =>
        UnregisterKeepsHub(h, s.phase, c);
        HubChangeKeepsSessions(s, t);
      case Write(c) =>
        TakeKeepsHub(h, s.phase, c);
        HubChangeKeepsSessions(s, t);
    }
  }

  lemma PanicFlagIsFree(s: State, t: State)
    requires Inv(s) && t.core == s.core && t.phase == s.phase
    ensures Inv(t)
  {
    forall r | 0 <= r < |t.core.sm.store| ensures SessionInv(t, r) {
      assert SessionInv(s, r);
    }
  }

  lemma RemoveKeepsHub(s: State, c: nat)
    requires HubInv(s.core.hub, s.phase) && Enabled(s, RemoveSessions(c))
    ensures HubInv(s.core.hub, s.phase[c := Leaving])
  {
    var phase' := s.phase[c := Leaving];
    hide Subsequence;
    forall d | 0 <= d < |phase'| ensures ClientInv(s.core.hub, phase', d) {
      assert ClientInv(s.core.hub, s.phase, d);
    }
  }

  lemma {:induction false} RunKeepsInv(steps: seq<Step>)
    ensures Run(Init(), steps).Some? ==> Inv(Run(Init(), steps).value)
    decreases |steps|
  {
    if steps != [] {
      var before := Run(Init(), steps[..|steps| - 1]);
      RunKeepsInv(steps[..|steps| - 1]);
      if before.Some? && Enabled(before.value, steps[|steps| - 1]) {
        StepKeepsInv(before.value, steps[|steps| - 1]);
      }
    }
  }

  // ---------------------------------------------------------------- what follows, in every reachable state

  function Reach(steps: seq<Step>): (r: State)
    requires Run(Init(), steps).Some?
    ensures Inv(r)
  {
    RunKeepsInv(steps);
    Run(Init(), steps).value
  }

  /** A session still in the table names only connected clients, whose channels are open,
      and is listed for each of them. */
  lemma TableNamesLiveClients(steps: seq<Step>, k: SessionId, e: Endpoint)
    requires Run(Init(), steps).Some? && k in Reach(steps).core.sm.table
    requires var sm := Reach(steps).core.sm; sm.table[k] < |sm.store|
    requires var sm := Reach(steps).core.sm;
             sm.store[sm.table[k]].initiator == e || sm.store[sm.table[k]].responder == Some(e)
    ensures var s := Reach(steps);
            && e.ref < |s.phase| == |s.core.hub.recs|
            && s.phase[e.ref] == Live && s.core.hub.recs[e.ref].open && s.core.hub.recs[e.ref].id == e.id
            && s.core.sm.table[k] in Of(s.core.sm, e.id)
  {
    var s := Reach(steps);
    assert SessionInv(s, s.core.sm.table[k]);
    assert ClientInv(s.core.hub, s.phase, e.ref);
  }

  /** No lookup finds a client whose sessions have been removed. */
  lemma PeerIsConnected(s: State, sid: SessionId, id: ClientId)
    requires Inv(s)
    ensures var found := GetPeer(s.core.sm, sid, id);
            found.Some? && found.value.Some? ==>
              && found.value.value.ref < |s.phase| == |s.core.hub.recs|
              && s.phase[found.value.value.ref] == Live
              && s.core.hub.recs[found.value.value.ref].id == found.value.value.id
  {
    if sid in s.core.sm.table {
      assert SessionInv(s, s.core.sm.table[sid]);
    }
  }

  /** Of all the operations only a route to a device can send on a closed channel, and it
      does exactly when the device is still listed for a client that has left. */
  lemma PanicIff(s: State, c: nat, op: Op)
    requires Inv(s) && Enabled(s, Do(c, op))
    ensures Perform(s.core, c, op).1.Panicked? <==>
              && op.ToDevice? && op.device in s.core.hub.byDevice
              && s.core.hub.byDevice[op.device] < |s.phase|
              && s.phase[s.core.hub.byDevice[op.device]] == Gone
  {
    var h := s.core.hub;
    forall d | 0 <= d < |s.phase| ensures h.recs[d].open <==> s.phase[d] != Gone {
      assert ClientInv(h, s.phase, d);
    }
    if op.ToPeer? {
      PeerIsConnected(s, op.sid, h.recs[c].id);
    }
  }

  /** That a lookup and its send are one step matters: a peer that was found and leaves
      before the send is met with its channel closed. */
  lemma DepartureAfterLookup(s: State, c: nat, sid: SessionId, msg: Msg)
    requires Inv(s) && c < |s.phase| == |s.core.hub.recs|
    requires var found := GetPeer(s.core.sm, sid, s.core.hub.recs[c].id); found.Some? && found.value.Some?
    ensures var e := GetPeer(s.core.sm, sid, s.core.hub.recs[c].id).value.value.ref;
            && Enabled(s, RemoveSessions(e)) && Enabled(Apply(s, RemoveSessions(e)), Unregister(e))
            && var t := Apply(Apply(s, RemoveSessions(e)), Unregister(e));
               e < |t.core.hub.recs| && Offer(t.core.hub, e, msg).1.Panicked?
  {
    PeerIsConnected(s, sid, s.core.hub.recs[c].id);
    hide Inv, RemoveClientSessions, GetPeer;
  }

  /** What the writer has taken, followed by what waits, is exactly what was delivered, in
      order; and no more than 256 messages wait. */
  lemma WriterSeesDelivered(steps: seq<Step>, c: nat)
    requires Run(Init(), steps).Some? && c < |Reach(steps).core.hub.recs|
    ensures var rec := Reach(steps).core.hub.recs[c];
            rec.taken + rec.queue == rec.accepted && |rec.queue| <= 256
  {
    var s := Reach(steps);
    assert ClientInv(s.core.hub, s.phase, c);
  }

  /** So what it has taken is what was sent with some messages left out, in the order sent. */
  lemma WriterSeesSubsequence(steps: seq<Step>, c: nat)
    requires Run(Init(), steps).Some? && c < |Reach(steps).core.hub.recs|
    ensures var rec := Reach(steps).core.hub.recs[c];
            Subsequence(rec.taken + rec.queue, rec.sent) && Subsequence(rec.taken, rec.sent)
  {
    var s := Reach(steps);
    WriterSeesDelivered(steps, c);
    assert ClientInv(s.core.hub, s.phase, c);
    SubsequencePrefix(s.core.hub.recs[c].taken, s.core.hub.recs[c].queue, s.core.hub.recs[c].sent);
  }

  lemma {:induction false} SubsequencePrefix(a: seq<Msg>, more: seq<Msg>, b: seq<Msg>)
    requires Subsequence(a + more, b)
    ensures Subsequence(a, b)
    decreases |b|
  {
    if more == [] {
      assert a + more == a;
    } else if b != [] {
      var b', more' := b[..|b| - 1], more[..|more| - 1];
      assert (a + more)[..|a + more| - 1] == a + more';
      if Subsequence(a + more, b') {
        SubsequencePrefix(a, more, b');
      } else {
        SubsequencePrefix(a, more', b');
      }
      SubsequenceGrows(a, b', b[|b| - 1]);
      assert b' + [b[|b| - 1]] == b;
    }
  }

  lemma SubsequenceGrows(a: seq<Msg>, b: seq<Msg>, msg: Msg)
    requires Subsequence(a, b)
    ensures Subsequence(a, b + [msg])
  {
    SubsequenceSend(a, b, msg);
  }
}
