/** The signalling server's tables: the hub's and the session manager's. Clients and
    session objects are named by their index in `recs` and `store`. */
module SignalTables {
  import opened Wrappers

  type ClientId = string
  type DeviceId = string
  type SessionId = string

  const SEND_BUFFER := 256

  datatype Kind = SdpOffer | SdpAnswer | IceCandidate | TransportNegotiate

  /** Messages to a client. */
  datatype Msg =
    | RegisterAck(token: string)
    | HeartbeatAck(now: nat)
    | ConnectRequest(sid: SessionId, device: DeviceId, protocols: seq<string>)
    | ConnectResponse(sid: SessionId, accepted: bool, reason: string)
    | Forwarded(kind: Kind, sid: SessionId, body: string)
    | Disconnect(sid: SessionId, reason: string)
    | Error(code: string)

  // ---------------------------------------------------------------- the hub

  /** A client: its send channel is `queue` while `open`. Three records: every send attempted
      on it, every send delivered, and every message its writer has taken. */
  datatype ClientRec = ClientRec(id: ClientId, isAgent: bool, device: DeviceId, queue: seq<Msg>, open: bool,
                                 sent: seq<Msg>, accepted: seq<Msg>, taken: seq<Msg>)

  datatype DeviceInfo = DeviceInfo(name: string, platform: string, version: string, key: string,
                                   registered: nat, lastSeen: nat)

  datatype Hub = Hub(clients: map<ClientId, nat>, devices: map<DeviceId, DeviceInfo>, byDevice: map<DeviceId, nat>,
                     recs: seq<ClientRec>)

  datatype Outcome = Delivered | BufferFull | NoTarget | Panicked

  function NewClient(id: ClientId, isAgent: bool): ClientRec {
    ClientRec(id, isAgent, "", [], true, [], [], [])
  }

  function RegisterClient(h: Hub, id: ClientId, isAgent: bool): Hub {
    h.(clients := h.clients[id := |h.recs|], recs := h.recs + [NewClient(id, isAgent)])
  }

  function UnregisterClient(h: Hub, c: nat): (r: Hub)
    requires c < |h.recs|
    ensures |r.recs| == |h.recs|
  {
    var rec := h.recs[c];
    var g := h.(clients := h.clients - {rec.id}, recs := h.recs[c := rec.(open := false)]);
    if rec.isAgent && rec.device != "" then
      g.(byDevice := g.byDevice - {rec.device}, devices := g.devices - {rec.device})
    else g
  }

  function RegisterDevice(h: Hub, c: nat, d: DeviceId, info: DeviceInfo, now: nat): (r: Hub)
    requires c < |h.recs|
    ensures |r.recs| == |h.recs|
  {
    var known := d in h.devices;
    var recs :=
      if known && d in h.byDevice && h.byDevice[d] < |h.recs| then
        h.recs[h.byDevice[d] := h.recs[h.byDevice[d]].(device := "")]
      else h.recs;
    var stamped := info.(registered := if known then h.devices[d].registered else now, lastSeen := now);
    Hub(h.clients, h.devices[d := stamped], h.byDevice[d := c], recs[c := recs[c].(device := d)])
  }

  function UpdateHeartbeat(h: Hub, d: DeviceId, now: nat): Hub {
    if d in h.devices then h.(devices := h.devices[d := h.devices[d].(lastSeen := now)]) else h
  }

  /** A non-blocking send on client `c`'s channel; on a closed channel it panics. */
  function Offer(h: Hub, c: nat, msg: Msg): (r: (Hub, Outcome))
    requires c < |h.recs|
    ensures |r.0.recs| == |h.recs|
  {
    var rec := h.recs[c];
    if !rec.open then (h, Panicked)
    else if |rec.queue| < SEND_BUFFER then
      var sent := rec.(queue := rec.queue + [msg], sent := rec.sent + [msg], accepted := rec.accepted + [msg]);
      (h.(recs := h.recs[c := sent]), Delivered)
    else (h.(recs := h.recs[c := rec.(sent := rec.sent + [msg])]), BufferFull)
  }

  function RouteToDevice(h: Hub, d: DeviceId, msg: Msg): (r: (Hub, Outcome))
    ensures |r.0.recs| == |h.recs|
  {
    if d in h.byDevice && h.byDevice[d] < |h.recs| then Offer(h, h.byDevice[d], msg) else (h, NoTarget)
  }

  function RouteToClient(h: Hub, id: ClientId, msg: Msg): (r: (Hub, Outcome))
    ensures |r.0.recs| == |h.recs|
  {
    if id in h.clients && h.clients[id] < |h.recs| then Offer(h, h.clients[id], msg) else (h, NoTarget)
  }

  /** The writer takes the next message; a closed channel still gives what it holds. */
  function TakeNext(h: Hub, c: nat): (r: Hub)
    requires c < |h.recs| && h.recs[c].queue != []
    ensures |r.recs| == |h.recs|
  {
    var rec := h.recs[c];
    h.(recs := h.recs[c := rec.(queue := rec.queue[1..], taken := rec.taken + [rec.queue[0]])])
  }

  // ---------------------------------------------------------------- the session manager

  datatype Status = Pending | Accepted | Rejected | Active | Closed

  /** A client as a session holds it: the object, and the identifier it is compared by. */
  datatype Endpoint = Endpoint(ref: nat, id: ClientId)

  datatype SessionRec = SessionRec(id: SessionId, initiator: Endpoint, responder: Option<Endpoint>,
                                   device: DeviceId, protocols: seq<string>, status: Status)

  datatype Sessions = Sessions(table: map<SessionId, nat>, byClient: map<ClientId, seq<nat>>, store: seq<SessionRec>)

  function Of(sm: Sessions, id: ClientId): seq<nat> {
    if id in sm.byClient then sm.byClient[id] else []
  }

  function CreateSession(sm: Sessions, sid: SessionId, who: Endpoint, device: DeviceId, protocols: seq<string>): Sessions {
    Sessions(sm.table[sid := |sm.store|], sm.byClient[who.id := Of(sm, who.id) + [|sm.store|]],
             sm.store + [SessionRec(sid, who, None, device, protocols, Pending)])
  }

  function AcceptSession(sm: Sessions, sid: SessionId, who: Endpoint): Sessions {
    if sid in sm.table && sm.table[sid] < |sm.store| then
      var r := sm.table[sid];
      Sessions(sm.table, sm.byClient[who.id := Of(sm, who.id) + [r]],
               sm.store[r := sm.store[r].(responder := Some(who), status := Accepted)])
    else sm
  }

  function SetStatus(sm: Sessions, sid: SessionId, status: Status): Sessions {
    if sid in sm.table && sm.table[sid] < |sm.store| then
      sm.(store := sm.store[sm.table[sid] := sm.store[sm.table[sid]].(status := status)])
    else sm
  }

  /** `GetPeer`: nothing when the session is unknown or the client is not in it; the
      peer may still be absent. */
  function GetPeer(sm: Sessions, sid: SessionId, id: ClientId): (r: Option<Option<Endpoint>>) {
    if sid !in sm.table || sm.table[sid] >= |sm.store| then None
    else
      var rec := sm.store[sm.table[sid]];
      if rec.initiator.id == id then Some(rec.responder)
      else if rec.responder.Some? && rec.responder.value.id == id then Some(Some(rec.initiator))
      else None
  }

  /** The identifiers of the sessions listed for a client. */
  function ListedIds(sm: Sessions, id: ClientId): (r: set<SessionId>) {
    set i | 0 <= i < |Of(sm, id)| && Of(sm, id)[i] < |sm.store| :: sm.store[Of(sm, id)[i]].id
  }

  /** `RemoveClientSessions`: every session listed for the client is closed, and its
      identifier is removed from the table. */
  function RemoveClientSessions(sm: Sessions, id: ClientId): (r: Sessions)
    ensures |r.store| == |sm.store|
  {
    Sessions(sm.table - ListedIds(sm, id), sm.byClient - {id},
             seq(|sm.store|, r requires 0 <= r < |sm.store| =>
               if r in Of(sm, id) then sm.store[r].(status := Closed) else sm.store[r]))
  }
}
