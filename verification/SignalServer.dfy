/** The message handlers and the life of a connection, over the hub's and the session
    manager's objects. */
module SignalServer {
  import T = SignalTables
  import M = SignalModel
  import H = SignalHandlers
  import opened SignalHub
  import opened SignalSessions

  class Handler {
    const hub: Hub
    const manager: SessionManager

    ghost predicate Valid()
      reads hub, hub.made, manager, manager.store
    {
      hub.Valid() && manager.Valid() && manager.Linked(hub.made)
    }

    ghost function Core(): M.Core
      reads hub`view, manager`view
    {
      M.Core(hub.view, manager.view)
    }

    /** The sessions are those of `before` and newly made ones. */
    twostate predicate OnlyNew(before: seq<Session>)
      reads manager`store
    {
      forall i :: 0 <= i < |manager.store| ==> manager.store[i] in before || fresh(manager.store[i])
    }

    lemma KeyInRange(c: Client)
      requires Valid() && c in hub.made
      ensures c.key < |hub.view.recs| && M.Self(Core(), c.key) == T.Endpoint(c.key, c.id)
      ensures hub.view.recs[c.key].isAgent == c.isAgent && hub.view.recs[c.key].device == c.device
    {
    }

    constructor ()
      ensures Valid() && Core() == M.Init().core && fresh(hub) && fresh(manager) && hub.made == []
    {
      hub := new Hub();
      manager := new SessionManager();
    }

    // The operations, seen from both tables.

    method Reply(c: Client, msg: T.Msg)
      requires Valid() && c in hub.made
      modifies hub, hub.made, manager, manager.store
      ensures Valid() && hub.made == old(hub.made) && manager.store == old(manager.store)
      ensures c.key < |old(hub.view).recs| == |hub.view.recs| && Core() == M.Perform(old(Core()), c.key, M.ToSelf(msg)).0
    {
      KeyInRange(c);
      var out := hub.Offer(c, msg);
    }

    method Register(c: Client, device: DeviceId, info: T.DeviceInfo, now: nat)
      requires Valid() && c in hub.made
      modifies hub, hub.made, manager, manager.store
      ensures Valid() && hub.made == old(hub.made) && manager.store == old(manager.store)
      ensures c.key < |old(hub.view).recs| == |hub.view.recs| && Core() == M.Perform(old(Core()), c.key, M.Register(device, info, now)).0
    {
      KeyInRange(c);
      if c.isAgent {
        hub.RegisterDevice(c, device, info, now);
      }
    }

    method Heartbeat(c: Client, now: nat)
      requires Valid() && c in hub.made
      modifies hub, hub.made, manager, manager.store
      ensures Valid() && hub.made == old(hub.made) && manager.store == old(manager.store)
      ensures c.key < |old(hub.view).recs| == |hub.view.recs| && Core() == M.Perform(old(Core()), c.key, M.Heartbeat(now)).0
    {
      KeyInRange(c);
      hub.UpdateHeartbeat(c.device, now);
    }

    method Create(c: Client, sid: SessionId, device: DeviceId, protocols: seq<string>)
      requires Valid() && c in hub.made
      modifies hub, hub.made, manager, manager.store
      ensures Valid() && hub.made == old(hub.made) && OnlyNew(old(manager.store))
      ensures c.key < |old(hub.view).recs| == |hub.view.recs| && Core() == M.Perform(old(Core()), c.key, M.Create(sid, device, protocols)).0
    {
      KeyInRange(c);
      var session := manager.CreateSession(sid, c, device, protocols, hub.made);
    }

    method Accept(c: Client, sid: SessionId)
      requires Valid() && c in hub.made
      modifies hub, hub.made, manager, manager.store
      ensures Valid() && hub.made == old(hub.made) && manager.store == old(manager.store)
      ensures c.key < |old(hub.view).recs| == |hub.view.recs| && Core() == M.Perform(old(Core()), c.key, M.Accept(sid)).0
    {
      KeyInRange(c);
      var session := manager.AcceptSession(sid, c, hub.made);
    }

    method Reject(c: Client, sid: SessionId)
      requires Valid() && c in hub.made
      modifies hub, hub.made, manager, manager.store
      ensures Valid() && hub.made == old(hub.made) && manager.store == old(manager.store)
      ensures c.key < |old(hub.view).recs| == |hub.view.recs| && Core() == M.Perform(old(Core()), c.key, M.Mark(sid, T.Rejected)).0
    {
      KeyInRange(c);
      var session := manager.RejectSession(sid);
    }

    method CloseSession(c: Client, sid: SessionId)
      requires Valid() && c in hub.made
      modifies hub, hub.made, manager, manager.store
      ensures Valid() && hub.made == old(hub.made) && manager.store == old(manager.store)
      ensures c.key < |old(hub.view).recs| == |hub.view.recs| && Core() == M.Perform(old(Core()), c.key, M.Mark(sid, T.Closed)).0
    {
      KeyInRange(c);
      var session := manager.CloseSession(sid);
    }

    method RouteToDevice(c: Client, device: DeviceId, msg: T.Msg) returns (out: T.Outcome)
      requires Valid() && c in hub.made
      modifies hub, hub.made, manager, manager.store
      ensures Valid() && hub.made == old(hub.made) && manager.store == old(manager.store)
      ensures c.key < |old(hub.view).recs| == |hub.view.recs| && (Core(), out) == M.Perform(old(Core()), c.key, M.ToDevice(device, msg))
    {
      KeyInRange(c);
      out := hub.RouteToDevice(device, msg);
    }

    method RouteToPeer(c: Client, sid: SessionId, msg: T.Msg) returns (out: T.Outcome)
      requires Valid() && c in hub.made
      modifies hub, hub.made, manager, manager.store
      ensures Valid() && hub.made == old(hub.made) && manager.store == old(manager.store)
      ensures c.key < |old(hub.view).recs| == |hub.view.recs| && (Core(), out) == M.Perform(old(Core()), c.key, M.ToPeer(sid, msg))
    {
      KeyInRange(c);
      hide M.RouteToPeer, Hub.Valid, SessionManager.Valid, SessionManager.Linked;
      out := manager.RouteToPeer(hub, sid, c, msg);
      assert hub.Valid() && manager.Valid() && manager.Linked(hub.made);
    }

    // The handlers.

    method HandleRegister(c: Client, device: DeviceId, info: T.DeviceInfo, now: nat)
      requires Valid() && c in hub.made
      modifies hub, hub.made, manager, manager.store
      ensures Valid() && hub.made == old(hub.made) && c.key < |old(hub.view).recs| && OnlyNew(old(manager.store))
      ensures Core() == H.Handle(old(Core()), c.key, H.RegisterIn(device, info, now))
    {
      KeyInRange(c);
      hide M.Perform, Valid, Core, H.Handle;
      H.RegisterOps(Core(), c.key, device, info, now);
      Register(c, device, info, now);
      Reply(c, T.RegisterAck("token-" + device));
    }

    method HandleHeartbeat(c: Client, now: nat, time: nat)
      requires Valid() && c in hub.made
      modifies hub, hub.made, manager, manager.store
      ensures Valid() && hub.made == old(hub.made) && c.key < |old(hub.view).recs| && OnlyNew(old(manager.store))
      ensures Core() == H.Handle(old(Core()), c.key, H.HeartbeatIn(now, time))
    {
      KeyInRange(c);
      hide M.Perform, Valid, Core, H.Handle;
      H.HeartbeatOps(Core(), c.key, now, time);
      Heartbeat(c, now);
      Reply(c, T.HeartbeatAck(time));
    }

    method HandleConnectRequest(c: Client, sid: SessionId, device: DeviceId, protocols: seq<string>)
      requires Valid() && c in hub.made
      modifies hub, hub.made, manager, manager.store
      ensures Valid() && hub.made == old(hub.made) && c.key < |old(hub.view).recs| && OnlyNew(old(manager.store))
      ensures Core() == H.Handle(old(Core()), c.key, H.RequestIn(sid, device, protocols))
    {
      KeyInRange(c);
      hide M.Perform, Valid, Core, H.Handle;
      H.RequestOps(Core(), c.key, sid, device, protocols);
      Create(c, sid, device, protocols);
      var out := RouteToDevice(c, device, T.ConnectRequest(sid, device, protocols));
      if out.Delivered? || out.Panicked? {
        return;
      }
      Reject(c, sid);
      Reply(c, T.Error("device_offline"));
    }

    method HandleConnectResponse(c: Client, sid: SessionId, accepted: bool, reason: string)
      requires Valid() && c in hub.made
      modifies hub, hub.made, manager, manager.store
      ensures Valid() && hub.made == old(hub.made) && c.key < |old(hub.view).recs| && OnlyNew(old(manager.store))
      ensures Core() == H.Handle(old(Core()), c.key, H.ResponseIn(sid, accepted, reason))
    {
      KeyInRange(c);
      hide M.Perform, Valid, Core, H.Handle;
      H.ResponseOps(Core(), c.key, sid, accepted, reason);
      if accepted {
        Accept(c, sid);
      } else {
        Reject(c, sid);
      }
      var out := RouteToPeer(c, sid, T.ConnectResponse(sid, accepted, reason));
      if out.Delivered? || out.Panicked? {
        return;
      }
      Reply(c, T.Error("route_failed"));
    }

    /** The handlers of SDP offers and answers, ICE candidates and transport negotiation. */
    method HandleForward(c: Client, kind: T.Kind, sid: SessionId, body: string)
      requires Valid() && c in hub.made
      modifies hub, hub.made, manager, manager.store
      ensures Valid() && hub.made == old(hub.made) && c.key < |old(hub.view).recs| && OnlyNew(old(manager.store))
      ensures Core() == H.Handle(old(Core()), c.key, H.ForwardIn(kind, sid, body))
    {
      KeyInRange(c);
      hide M.Perform, Valid, Core, H.Handle;
      H.ForwardOps(Core(), c.key, kind, sid, body);
      var out := RouteToPeer(c, sid, T.Forwarded(kind, sid, body));
    }

    method HandleDisconnect(c: Client, sid: SessionId, reason: string)
      requires Valid() && c in hub.made
      modifies hub, hub.made, manager, manager.store
      ensures Valid() && hub.made == old(hub.made) && c.key < |old(hub.view).recs| && OnlyNew(old(manager.store))
      ensures Core() == H.Handle(old(Core()), c.key, H.DisconnectIn(sid, reason))
    {
      KeyInRange(c);
      hide M.Perform, Valid, Core, H.Handle;
      H.DisconnectOps(Core(), c.key, sid, reason);
      var out := RouteToPeer(c, sid, T.Msg.Disconnect(sid, reason));
      CloseSession(c, sid);
    }

    method HandleMessage(c: Client, m: H.Inbound)
      requires Valid() && c in hub.made
      modifies hub, hub.made, manager, manager.store
      ensures Valid() && hub.made == old(hub.made) && c.key < |old(hub.view).recs| && OnlyNew(old(manager.store))
      ensures Core() == H.Handle(old(Core()), c.key, m)
    {
      KeyInRange(c);
      hide Valid, M.Perform;
      ghost var core := Core();
      match m {
        case RegisterIn(device, info, now) => HandleRegister(c, device, info, now);
        case HeartbeatIn(now, time) => HandleHeartbeat(c, now, time);
        case RequestIn(sid, device, protocols) => HandleConnectRequest(c, sid, device, protocols);
        case ResponseIn(sid, accepted, reason) => HandleConnectResponse(c, sid, accepted, reason);
        case ForwardIn(kind, sid, body) => HandleForward(c, kind, sid, body);
        case DisconnectIn(sid, reason) => HandleDisconnect(c, sid, reason);
        case Malformed =>
          H.ExecOne(core, c.key, M.ToSelf(T.Error("invalid_message")));
          Reply(c, T.Error("invalid_message"));
        case Unknown =>
          H.ExecOne(core, c.key, M.ToSelf(T.Error("unknown_type")));
          Reply(c, T.Error("unknown_type"));
        case BadPayload(code) =>
          H.ExecOne(core, c.key, M.ToSelf(T.Error(code)));
          Reply(c, T.Error(code));
      }
    }

    method Connect(id: ClientId, isAgent: bool) returns (c: Client)
      requires Valid()
      modifies hub
      ensures Valid() && fresh(c) && hub.made == old(hub.made) + [c] && c.key == |old(hub.view).recs| && c.id == id
      ensures Core() == H.Connected(old(Core()), id, isAgent)
    {
      c := new Client(id, isAgent, |hub.made|);
      hub.RegisterClient(c);
      assert hub.Valid() && manager.Valid() && manager.Linked(hub.made);
    }

    /** `readPump`: every message is handled, in order. */
    method ReadPump(c: Client, messages: seq<H.Inbound>)
      requires Valid() && c in hub.made
      modifies hub, hub.made, manager, manager.store
      ensures Valid() && hub.made == old(hub.made) && c.key < |old(hub.view).recs| && OnlyNew(old(manager.store))
      ensures Core() == H.HandledAll(old(Core()), c.key, messages)
    {
      KeyInRange(c);
      hide Valid, Core, H.Handle;
      ghost var before := Core();
      for i := 0 to |messages|
        invariant Valid() && hub.made == old(hub.made) && OnlyNew(old(manager.store))
        invariant Core() == H.HandledAll(before, c.key, messages[..i])
      {
        assert messages[..i + 1][..i] == messages[..i];
        HandleMessage(c, messages[i]);
      }
      assert messages[..|messages|] == messages;
    }

    method Depart(c: Client)
      requires Valid() && c in hub.made
      modifies hub, hub.made, manager, manager.store
      ensures Valid() && c.key < |old(hub.view).recs|
      ensures Core() == H.Departed(old(Core()), c.key, c.id)
    {
      KeyInRange(c);
      manager.RemoveClientSessions(c.id);
      hub.UnregisterClient(c);
      assert hub.Valid() && manager.Valid() && manager.Linked(hub.made);
    }

    /** A connection's life when no other client interferes: registered, its messages
        handled, its sessions removed, and only then unregistered. */
    method HandleWebSocket(id: ClientId, isAgent: bool, messages: seq<H.Inbound>)
      requires Valid()
      modifies hub, hub.made, manager, manager.store
      ensures Valid() && Core() == H.Served(old(Core()), id, isAgent, messages)
    {
      hide Valid, H.Connected, H.HandledAll, H.Departed;
      var c := Connect(id, isAgent);
      ReadPump(c, messages);
      Depart(c);
    }
  }
}
