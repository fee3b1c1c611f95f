/** The signalling server as a transition system. Each step is one locked operation by
    a connected client's handler, or a step of a connection's life. */
module SignalModel {
  import opened Wrappers
  import opened SignalTables

  /** A connection serves messages, then has its sessions removed, then is unregistered. */
  datatype Phase = Live | Leaving | Gone

  datatype Core = Core(hub: Hub, sm: Sessions)

  datatype State = State(core: Core, phase: seq<Phase>, panicked: bool)

  /** The operations of the message handlers. */
  datatype Op =
    | Create(sid: SessionId, device: DeviceId, protocols: seq<string>)
    | Accept(sid: SessionId)
    | Mark(sid: SessionId, status: Status)
    | Register(device: DeviceId, info: DeviceInfo, now: nat)
    | Heartbeat(now: nat)
    | ToDevice(device: DeviceId, msg: Msg)
    | ToPeer(sid: SessionId, msg: Msg)
    | ToClient(id: ClientId, msg: Msg)
    | ToSelf(msg: Msg)

  datatype Step =
    | Connect(id: ClientId, isAgent: bool)
    | Do(c: nat, op: Op)
    | RemoveSessions(c: nat)
    | Unregister(c: nat)
    | Write(c: nat)

  function Init(): State {
    State(Core(Hub(map[], map[], map[], []), Sessions(map[], map[], [])), [], false)
  }

  function Self(core: Core, c: nat): Endpoint
    requires c < |core.hub.recs|
  {
    Endpoint(c, core.hub.recs[c].id)
  }

  /** `RouteToPeer`, taken as one step: the lookup and the send. */
  function RouteToPeer(core: Core, c: nat, sid: SessionId, msg: Msg): (r: (Core, Outcome))
    requires c < |core.hub.recs|
    ensures |r.0.hub.recs| == |core.hub.recs|
  {
    match GetPeer(core.sm, sid, core.hub.recs[c].id)
    case Some(Some(peer)) =>
      if peer.ref < |core.hub.recs| then
        var (hub, out) := Offer(core.hub, peer.ref, msg);
        (core.(hub := hub), out)
      else (core, NoTarget)
    case _ => (core, NoTarget)
  }

  function Perform(core: Core, c: nat, op: Op): (r: (Core, Outcome))
    requires c < |core.hub.recs|
    ensures |r.0.hub.recs| == |core.hub.recs|
  {
    match op
    case Create(sid, device, protocols) =>
      (core.(sm := CreateSession(core.sm, sid, Self(core, c), device, protocols)), Delivered)
    case Accept(sid) => (core.(sm := AcceptSession(core.sm, sid, Self(core, c))), Delivered)
    case Mark(sid, status) => (core.(sm := SetStatus(core.sm, sid, status)), Delivered)
    case Register(device, info, now) =>
      if core.hub.recs[c].isAgent then (core.(hub := RegisterDevice(core.hub, c, device, info, now)), Delivered)
      else (core, Delivered)
    case Heartbeat(now) => (core.(hub := UpdateHeartbeat(core.hub, core.hub.recs[c].device, now)), Delivered)
    case ToDevice(device, msg) =>
      var (hub, out) := RouteToDevice(core.hub, device, msg);
      (core.(hub := hub), out)
    case ToPeer(sid, msg) => RouteToPeer(core, c, sid, msg)
    case ToClient(id, msg) =>
      var (hub, out) := RouteToClient(core.hub, id, msg);
      (core.(hub := hub), out)
    case ToSelf(msg) =>
      var (hub, out) := Offer(core.hub, c, msg);
      (core.(hub := hub), out)
  }

  predicate Enabled(s: State, step: Step) {
    && |s.phase| == |s.core.hub.recs|
    && match step
       case Connect(_, _) => true
       case Do(c, _) => c < |s.phase| && s.phase[c] == Live
       case RemoveSessions(c) => c < |s.phase| && s.phase[c] == Live
       case Unregister(c) => c < |s.phase| && s.phase[c] == Leaving
       case Write(c) => c < |s.phase| && s.core.hub.recs[c].queue != []
  }

  function Apply(s: State, step: Step): (t: State)
    requires Enabled(s, step)
    ensures |t.phase| == |t.core.hub.recs|
  {
    match step
    case Connect(id, isAgent) =>
      s.(core := s.core.(hub := RegisterClient(s.core.hub, id, isAgent)), phase := s.phase + [Live])
    case Do(c, op) =>
      var (core, out) := Perform(s.core, c, op);
      s.(core := core, panicked := s.panicked || out.Panicked?)
    case RemoveSessions(c) =>
      s.(core := s.core.(sm := RemoveClientSessions(s.core.sm, s.core.hub.recs[c].id)), phase := s.phase[c := Leaving])
    case Unregister(c) =>
      s.(core := s.core.(hub := UnregisterClient(s.core.hub, c)), phase := s.phase[c := Gone])
    case Write(c) =>
      s.(core := s.core.(hub := TakeNext(s.core.hub, c)))
  }

  function Run(s: State, steps: seq<Step>): (r: Option<State>) {
    if steps == [] then Some(s)
    else
      match Run(s, steps[..|steps| - 1])
      case None => None
      case Some(t) =>
        var step := steps[|steps| - 1];
        if Enabled(t, step) then Some(Apply(t, step)) else None
  }

  // ---------------------------------------------------------------- the invariant

  /** `a` is `b` with some messages left out. */
  predicate Subsequence(a: seq<Msg>, b: seq<Msg>) {
    if a == [] then true
    else if b == [] then false
    else
      || (a[|a| - 1] == b[|b| - 1] && Subsequence(a[..|a| - 1], b[..|b| - 1]))
      || Subsequence(a, b[..|b| - 1])
  }

  predicate ClientInv(h: Hub, phase: seq<Phase>, c: nat)
    requires c < |h.recs| == |phase|
  {
    var rec := h.recs[c];
    && (rec.open <==> phase[c] != Gone)
    && |rec.queue| <= SEND_BUFFER && rec.taken + rec.queue == rec.accepted && Subsequence(rec.accepted, rec.sent)
    && (rec.open && rec.device != "" ==> rec.isAgent && rec.device in h.byDevice && h.byDevice[rec.device] == c)
  }

  predicate HubInv(h: Hub, phase: seq<Phase>) {
    && |h.recs| == |phase|
    && (forall c :: 0 <= c < |phase| ==> ClientInv(h, phase, c))
    && (forall k :: k in h.clients ==> h.clients[k] < |h.recs| && h.recs[h.clients[k]].id == k && h.recs[h.clients[k]].open)
    && h.devices.Keys == h.byDevice.Keys
    && (forall d :: d in h.byDevice ==> h.byDevice[d] < |h.recs| && h.recs[h.byDevice[d]].isAgent)
  }

  predicate Known(recs: seq<ClientRec>, e: Endpoint) {
    e.ref < |recs| && recs[e.ref].id == e.id
  }

  /** An endpoint of session `r`, which is in the table: connected, and the session is
      listed for it. */
  predicate EndpointInv(s: State, r: nat, e: Endpoint) {
    e.ref < |s.phase| && s.phase[e.ref] == Live && r in Of(s.core.sm, e.id)
  }

  predicate SessionInv(s: State, r: nat)
    requires r < |s.core.sm.store|
  {
    var rec := s.core.sm.store[r];
    && Known(s.core.hub.recs, rec.initiator)
    && (rec.responder.Some? ==> Known(s.core.hub.recs, rec.responder.value))
    && (rec.id in s.core.sm.table && s.core.sm.table[rec.id] == r ==>
          EndpointInv(s, r, rec.initiator) && (rec.responder.Some? ==> EndpointInv(s, r, rec.responder.value)))
  }

  predicate TableInv(sm: Sessions) {
    && (forall k :: k in sm.table ==> sm.table[k] < |sm.store| && sm.store[sm.table[k]].id == k)
    && (forall id, r :: id in sm.byClient && r in sm.byClient[id] ==> r < |sm.store|)
  }

  predicate SessionsInv(s: State) {
    TableInv(s.core.sm) && forall r :: 0 <= r < |s.core.sm.store| ==> SessionInv(s, r)
  }

  predicate Inv(s: State) {
    HubInv(s.core.hub, s.phase) && SessionsInv(s)
  }
}
