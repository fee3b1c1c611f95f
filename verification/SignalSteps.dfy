/** What the operations on the tables do, said of the tables before and after. */
module SignalSteps {
  import opened Wrappers
  import opened SignalTables
  import opened SignalModel
  import opened SignalSafety

  // ---------------------------------------------------------------- the hub

  /** Nothing but client `c` differs. */
  predicate OnlyClient(h: Hub, g: Hub, c: nat) {
    && g.clients == h.clients && g.devices == h.devices && g.byDevice == h.byDevice && |g.recs| == |h.recs|
    && forall d :: 0 <= d < |h.recs| && d != c ==> g.recs[d] == h.recs[d]
  }

  /** A send is delivered exactly when the channel is open and holds fewer than 256 messages;
      every attempt on an open channel is recorded, and every delivery. */
  lemma OfferIs(h: Hub, c: nat, msg: Msg)
    requires c < |h.recs|
    ensures var (g, out) := Offer(h, c, msg);
            var a, b := h.recs[c], g.recs[c];
            && OnlyClient(h, g, c)
            && (out == Panicked <==> !a.open) && (out == BufferFull <==> a.open && |a.queue| >= 256)
            && (out == Delivered <==> a.open && |a.queue| < 256)
            && b.id == a.id && b.isAgent == a.isAgent && b.device == a.device && b.open == a.open && b.taken == a.taken
            && b.sent == (if a.open then a.sent + [msg] else a.sent)
            && b.queue == (if out == Delivered then a.queue + [msg] else a.queue)
            && b.accepted == (if out == Delivered then a.accepted + [msg] else a.accepted)
  {
  }

  /** The writer takes the first message and leaves the others, also from a closed channel. */
  lemma TakeIs(h: Hub, c: nat)
    requires c < |h.recs| && h.recs[c].queue != []
    ensures var g := TakeNext(h, c);
            var a, b := h.recs[c], g.recs[c];
            && OnlyClient(h, g, c)
            && [a.queue[0]] + b.queue == a.queue && b.taken == a.taken + [a.queue[0]]
            && b == a.(queue := b.queue, taken := b.taken)
  {
  }

  lemma WriterCanStep(s: State, c: nat)
    requires Inv(s) && c < |s.phase| == |s.core.hub.recs| && s.core.hub.recs[c].queue != []
    ensures Enabled(s, Write(c))
  {
  }

  /** A client that connects is found under its identifier, with nothing sent to it, and all
      other clients are as they were. */
  lemma RegisterClientIs(h: Hub, id: ClientId, isAgent: bool)
    ensures var g := RegisterClient(h, id, isAgent);
            var b := g.recs[|h.recs|];
            && |g.recs| == |h.recs| + 1 && (forall d :: 0 <= d < |h.recs| ==> g.recs[d] == h.recs[d])
            && g.devices == h.devices && g.byDevice == h.byDevice
            && id in g.clients && g.clients[id] == |h.recs|
            && (forall k :: k != id ==> (k in g.clients <==> k in h.clients) && (k in h.clients ==> g.clients[k] == h.clients[k]))
            && b.id == id && b.isAgent == isAgent && b.device == "" && b.open
            && b.queue == [] && b.sent == [] && b.accepted == [] && b.taken == []
  {
  }

  /** A client that leaves is not found any more, its channel is closed with what it holds,
      and if it is an agent with a device that device is gone; nothing else changes. */
  lemma UnregisterClientIs(h: Hub, c: nat)
    requires c < |h.recs|
    ensures var g := UnregisterClient(h, c);
            var a := h.recs[c];
            && |g.recs| == |h.recs| && (forall d :: 0 <= d < |h.recs| && d != c ==> g.recs[d] == h.recs[d])
            && g.recs[c] == a.(open := false)
            && (forall k :: k in g.clients <==> k in h.clients && k != a.id)
            && (forall k :: k in g.clients ==> g.clients[k] == h.clients[k])
            && (forall d :: d in g.byDevice <==> d in h.byDevice && !(a.isAgent && a.device != "" && d == a.device))
            && (forall d :: d in g.devices <==> d in h.devices && !(a.isAgent && a.device != "" && d == a.device))
            && (forall d :: d in g.byDevice ==> g.byDevice[d] == h.byDevice[d])
            && (forall d :: d in g.devices ==> g.devices[d] == h.devices[d])
  {
  }

  /** After a registration the device has the data given with it, was seen now, and was first
      registered when it was before, or now if it was not listed; it is listed for the client,
      which has it as its own. Other devices are as they were, and of other clients only the
      one that had this device loses its name. */
  lemma RegisterDeviceIs(h: Hub, c: nat, d: DeviceId, info: DeviceInfo, now: nat)
    requires c < |h.recs|
    ensures var g := RegisterDevice(h, c, d, info, now);
            && g.clients == h.clients && |g.recs| == |h.recs|
            && d in g.devices && d in g.byDevice && g.byDevice[d] == c && g.recs[c] == h.recs[c].(device := d)
            && g.devices[d].name == info.name && g.devices[d].platform == info.platform
            && g.devices[d].version == info.version && g.devices[d].key == info.key
            && g.devices[d].lastSeen == now
            && g.devices[d].registered == (if d in h.devices then h.devices[d].registered else now)
            && (forall k :: k != d ==> (k in g.devices <==> k in h.devices) && (k in h.devices ==> g.devices[k] == h.devices[k]))
            && (forall k :: k != d ==> (k in g.byDevice <==> k in h.byDevice) && (k in h.byDevice ==> g.byDevice[k] == h.byDevice[k]))
            && (forall e :: 0 <= e < |h.recs| && e != c ==>
                  g.recs[e] == if d in h.devices && d in h.byDevice && h.byDevice[d] == e then h.recs[e].(device := "") else h.recs[e])
  {
  }

  /** A heartbeat for a listed device sets when it was seen last; any other changes nothing. */
  lemma HeartbeatIs(h: Hub, d: DeviceId, now: nat)
    ensures var g := UpdateHeartbeat(h, d, now);
            && g.clients == h.clients && g.byDevice == h.byDevice && g.recs == h.recs
            && g.devices.Keys == h.devices.Keys
            && forall k :: k in h.devices ==> g.devices[k] == if k == d then h.devices[k].(lastSeen := now) else h.devices[k]
  {
  }

  /** A message to a client by identifier goes to the one found under it. */
  lemma RouteToClientIs(s: State, id: ClientId, msg: Msg)
    requires Inv(s)
    ensures var h := s.core.hub;
            var (g, out) := RouteToClient(h, id, msg);
            if id in h.clients then
              && h.clients[id] < |h.recs| && h.recs[h.clients[id]].id == id && h.recs[h.clients[id]].open
              && (g, out) == Offer(h, h.clients[id], msg) && out != Panicked && out != NoTarget
            else g == h && out == NoTarget
  {
  }

  // ---------------------------------------------------------------- the session manager

  /** Nothing but session `r`, and client `id`'s list, differs. */
  ghost predicate OnlySession(sm: Sessions, t: Sessions, r: nat, id: ClientId) {
    && |t.store| == |sm.store| && t.table == sm.table
    && (forall q :: 0 <= q < |sm.store| && q != r ==> t.store[q] == sm.store[q])
    && (forall k :: k != id ==> Of(t, k) == Of(sm, k))
  }

  /** A new session is listed under its identifier and last for its initiator; every other
      session, list and table entry is as it was. */
  lemma CreateIs(sm: Sessions, sid: SessionId, who: Endpoint, device: DeviceId, protocols: seq<string>)
    ensures var t := CreateSession(sm, sid, who, device, protocols);
            var r := |sm.store|;
            && |t.store| == r + 1 && (forall q :: 0 <= q < r ==> t.store[q] == sm.store[q])
            && t.store[r].id == sid && t.store[r].initiator == who && t.store[r].responder == None
            && t.store[r].device == device && t.store[r].protocols == protocols && t.store[r].status == Pending
            && sid in t.table && t.table[sid] == r
            && (forall k :: k != sid ==> (k in t.table <==> k in sm.table) && (k in sm.table ==> t.table[k] == sm.table[k]))
            && Of(t, who.id) == Of(sm, who.id) + [r] && (forall k :: k != who.id ==> Of(t, k) == Of(sm, k))
  {
  }

  lemma AcceptIs(sm: Sessions, sid: SessionId, who: Endpoint)
    requires TableInv(sm)
    ensures sid !in sm.table ==> AcceptSession(sm, sid, who) == sm
    ensures sid in sm.table ==>
              var t, r := AcceptSession(sm, sid, who), sm.table[sid];
              && OnlySession(sm, t, r, who.id) && Of(t, who.id) == Of(sm, who.id) + [r]
              && t.store[r] == sm.store[r].(responder := Some(who), status := Accepted)
  {
  }

  lemma StatusIs(sm: Sessions, sid: SessionId, status: Status)
    requires TableInv(sm)
    ensures sid !in sm.table ==> SetStatus(sm, sid, status) == sm
    ensures sid in sm.table ==>
              var t, r := SetStatus(sm, sid, status), sm.table[sid];
              && OnlySession(sm, t, r, "") && t.byClient == sm.byClient
              && t.store[r] == sm.store[r].(status := status)
  {
  }

  /** Removing a client's sessions closes exactly those listed for it, takes exactly their
      identifiers out of the table, and forgets the client's list and no other. */
  lemma RemovalIs(sm: Sessions, id: ClientId)
    requires TableInv(sm)
    ensures var t := RemoveClientSessions(sm, id);
            && |t.store| == |sm.store| && id !in t.byClient
            && (forall r :: 0 <= r < |sm.store| ==>
                  t.store[r] == if r in Of(sm, id) then sm.store[r].(status := Closed) else sm.store[r])
            && (forall k :: k in t.table <==>
                  k in sm.table && forall r :: 0 <= r < |sm.store| && r in Of(sm, id) ==> sm.store[r].id != k)
            && (forall k :: k in t.table ==> t.table[k] == sm.table[k])
            && (forall k :: k != id ==> Of(t, k) == Of(sm, k))
  {
    forall k ensures k in ListedIds(sm, id) <==> exists r :: 0 <= r < |sm.store| && r in Of(sm, id) && sm.store[r].id == k {
      if k in ListedIds(sm, id) {
        var i :| 0 <= i < |Of(sm, id)| && Of(sm, id)[i] < |sm.store| && sm.store[Of(sm, id)[i]].id == k;
        assert Of(sm, id)[i] in Of(sm, id);
      }
    }
    hide ListedIds;
  }
}
