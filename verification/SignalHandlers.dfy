/** The message handlers: which operations each message makes its handler perform, and
    what they achieve together. */
module SignalHandlers {
  import opened Wrappers
  import opened SignalTables
  import opened SignalModel
  import opened SignalSafety
  import opened SignalDevices

  /** A decoded message from a client. `BadPayload` carries the error code of its type. */
  datatype Inbound =
    | Malformed
    | Unknown
    | BadPayload(code: string)
    | RegisterIn(device: DeviceId, info: DeviceInfo, now: nat)
    | HeartbeatIn(now: nat, time: nat)
    | RequestIn(sid: SessionId, device: DeviceId, protocols: seq<string>)
    | ResponseIn(sid: SessionId, accepted: bool, reason: string)
    | ForwardIn(kind: Kind, sid: SessionId, body: string)
    | DisconnectIn(sid: SessionId, reason: string)

  function Exec(core: Core, c: nat, ops: seq<Op>): (r: Core)
    requires c < |core.hub.recs|
    ensures |r.hub.recs| == |core.hub.recs|
    decreases |ops|
  {
    if ops == [] then core else Exec(Perform(core, c, ops[0]).0, c, ops[1..])
  }

  /** What to do after a route: a panic ends the process. */
  function IfLost(out: Outcome, ops: seq<Op>): seq<Op> {
    if out.Delivered? || out.Panicked? then [] else ops
  }

  function OpsOf(core: Core, c: nat, m: Inbound): seq<Op>
    requires c < |core.hub.recs|
  {
    match m
    case Malformed => [ToSelf(Error("invalid_message"))]
    case Unknown => [ToSelf(Error("unknown_type"))]
    case BadPayload(code) => [ToSelf(Error(code))]
    case RegisterIn(device, info, now) => [Register(device, info, now), ToSelf(RegisterAck("token-" + device))]
    case HeartbeatIn(now, time) => [Heartbeat(now), ToSelf(HeartbeatAck(time))]
    case RequestIn(sid, device, protocols) =>
      var create, send := Create(sid, device, protocols), ToDevice(device, ConnectRequest(sid, device, protocols));
      var out := Perform(Perform(core, c, create).0, c, send).1;
      [create, send] + IfLost(out, [Mark(sid, Rejected), ToSelf(Error("device_offline"))])
    case ResponseIn(sid, accepted, reason) =>
      var mark := if accepted then Accept(sid) else Mark(sid, Rejected);
      var send := ToPeer(sid, ConnectResponse(sid, accepted, reason));
      var out := Perform(Perform(core, c, mark).0, c, send).1;
      [mark, send] + IfLost(out, [ToSelf(Error("route_failed"))])
    case ForwardIn(kind, sid, body) => [ToPeer(sid, Forwarded(kind, sid, body))]
    case DisconnectIn(sid, reason) => [ToPeer(sid, Msg.Disconnect(sid, reason)), Mark(sid, Closed)]
  }

  function Handle(core: Core, c: nat, m: Inbound): (r: Core)
    requires c < |core.hub.recs|
    ensures |r.hub.recs| == |core.hub.recs|
  {
    Exec(core, c, OpsOf(core, c, m))
  }

  lemma ExecTwo(core: Core, c: nat, a: Op, b: Op, rest: seq<Op>)
    requires c < |core.hub.recs|
    ensures Exec(core, c, [a, b] + rest) == Exec(Perform(Perform(core, c, a).0, c, b).0, c, rest)
  {
    hide Perform;
    assert ([a, b] + rest)[1..] == [b] + rest && ([b] + rest)[1..] == rest;
  }

  lemma ExecPair(core: Core, c: nat, a: Op, b: Op)
    requires c < |core.hub.recs|
    ensures Exec(core, c, [a, b]) == Perform(Perform(core, c, a).0, c, b).0
  {
    assert [a, b] + [] == [a, b];
    ExecTwo(core, c, a, b, []);
  }

  lemma ExecOne(core: Core, c: nat, a: Op)
    requires c < |core.hub.recs|
    ensures Exec(core, c, [a]) == Perform(core, c, a).0
  {
    hide Perform;
    assert [a][1..] == [];
  }

  // Each handler, operation by operation.

  lemma RegisterOps(core: Core, c: nat, device: DeviceId, info: DeviceInfo, now: nat)
    requires c < |core.hub.recs|
    ensures Handle(core, c, RegisterIn(device, info, now)) ==
              Perform(Perform(core, c, Register(device, info, now)).0, c, ToSelf(RegisterAck("token-" + device))).0
  {
    hide Perform;
    ExecPair(core, c, Register(device, info, now), ToSelf(RegisterAck("token-" + device)));
  }

  lemma HeartbeatOps(core: Core, c: nat, now: nat, time: nat)
    requires c < |core.hub.recs|
    ensures Handle(core, c, HeartbeatIn(now, time)) ==
              Perform(Perform(core, c, Heartbeat(now)).0, c, ToSelf(HeartbeatAck(time))).0
  {
    hide Perform;
    ExecPair(core, c, Heartbeat(now), ToSelf(HeartbeatAck(time)));
  }

  lemma RequestOps(core: Core, c: nat, sid: SessionId, device: DeviceId, protocols: seq<string>)
    requires c < |core.hub.recs|
    ensures var mid := Perform(core, c, Create(sid, device, protocols)).0;
            var (t, out) := Perform(mid, c, ToDevice(device, ConnectRequest(sid, device, protocols)));
            Handle(core, c, RequestIn(sid, device, protocols)) ==
              if out.Delivered? || out.Panicked? then t
              else Perform(Perform(t, c, Mark(sid, Rejected)).0, c, ToSelf(Error("device_offline"))).0
  {
    hide Perform;
    var create, send := Create(sid, device, protocols), ToDevice(device, ConnectRequest(sid, device, protocols));
    var (t, out) := Perform(Perform(core, c, create).0, c, send);
    ExecTwo(core, c, create, send, IfLost(out, [Mark(sid, Rejected), ToSelf(Error("device_offline"))]));
    ExecPair(t, c, Mark(sid, Rejected), ToSelf(Error("device_offline")));
  }

  lemma ResponseOps(core: Core, c: nat, sid: SessionId, accepted: bool, reason: string)
    requires c < |core.hub.recs|
    ensures var mid := Perform(core, c, if accepted then Accept(sid) else Mark(sid, Rejected)).0;
            var (t, out) := Perform(mid, c, ToPeer(sid, ConnectResponse(sid, accepted, reason)));
            Handle(core, c, ResponseIn(sid, accepted, reason)) ==
              if out.Delivered? || out.Panicked? then t else Perform(t, c, ToSelf(Error("route_failed"))).0
  {
    hide Perform;
    var mark := if accepted then Accept(sid) else Mark(sid, Rejected);
    var send := ToPeer(sid, ConnectResponse(sid, accepted, reason));
    var (t, out) := Perform(Perform(core, c, mark).0, c, send);
    ExecTwo(core, c, mark, send, IfLost(out, [ToSelf(Error("route_failed"))]));
    ExecOne(t, c, ToSelf(Error("route_failed")));
  }

  lemma ForwardOps(core: Core, c: nat, kind: Kind, sid: SessionId, body: string)
    requires c < |core.hub.recs|
    ensures Handle(core, c, ForwardIn(kind, sid, body)) == Perform(core, c, ToPeer(sid, Forwarded(kind, sid, body))).0
  {
    ExecOne(core, c, ToPeer(sid, Forwarded(kind, sid, body)));
  }

  lemma DisconnectOps(core: Core, c: nat, sid: SessionId, reason: string)
    requires c < |core.hub.recs|
    ensures Handle(core, c, DisconnectIn(sid, reason)) ==
              Perform(Perform(core, c, ToPeer(sid, Msg.Disconnect(sid, reason))).0, c, Mark(sid, Closed)).0
  {
    hide Perform;
    ExecPair(core, c, ToPeer(sid, Msg.Disconnect(sid, reason)), Mark(sid, Closed));
  }

  /** A handler that is not interrupted is a run of steps, so all that holds of every run
      holds after it. */
  function DoAll(c: nat, ops: seq<Op>): seq<Step> {
    seq(|ops|, i requires 0 <= i < |ops| => Do(c, ops[i]))
  }

  lemma {:induction false} HandlerIsRun(steps: seq<Step>, c: nat, ops: seq<Op>)
    requires Run(Init(), steps).Some?
    requires var s := Run(Init(), steps).value; |s.phase| == |s.core.hub.recs| && c < |s.phase| && s.phase[c] == Live
    ensures var s := Run(Init(), steps).value;
            var t := Run(Init(), steps + DoAll(c, ops));
            t.Some? && t.value.core == Exec(s.core, c, ops) && t.value.phase == s.phase
    decreases |ops|
  {
    hide Perform;
    if ops == [] {
      assert steps + DoAll(c, ops) == steps;
    } else {
      RunSnoc(Init(), steps, Do(c, ops[0]));
      HandlerIsRun(steps + [Do(c, ops[0])], c, ops[1..]);
      assert steps + [Do(c, ops[0])] + DoAll(c, ops[1..]) == steps + DoAll(c, ops);
    }
  }

  // ---------------------------------------------------------------- a connection's life

  function Connected(core: Core, id: ClientId, isAgent: bool): (r: Core)
    ensures |r.hub.recs| == |core.hub.recs| + 1
  {
    core.(hub := RegisterClient(core.hub, id, isAgent))
  }

  function HandledAll(core: Core, c: nat, ms: seq<Inbound>): (r: Core)
    requires c < |core.hub.recs|
    ensures |r.hub.recs| == |core.hub.recs|
  {
    if ms == [] then core else Handle(HandledAll(core, c, ms[..|ms| - 1]), c, ms[|ms| - 1])
  }

  lemma RunHasPhases(steps: seq<Step>)
    requires Run(Init(), steps).Some?
    ensures var s := Run(Init(), steps).value; |s.phase| == |s.core.hub.recs|
  {
    RunKeepsInv(steps);
  }

  /** No handler changes an identifier. */
  lemma PerformKeepsId(core: Core, c: nat, op: Op, e: nat)
    requires c < |core.hub.recs| && e < |core.hub.recs|
    ensures Perform(core, c, op).0.hub.recs[e].id == core.hub.recs[e].id
  {
    hide CreateSession, AcceptSession, SetStatus, GetPeer;
  }

  lemma {:induction false} ExecKeepsId(core: Core, c: nat, ops: seq<Op>, e: nat)
    requires c < |core.hub.recs| && e < |core.hub.recs|
    ensures Exec(core, c, ops).hub.recs[e].id == core.hub.recs[e].id
    decreases |ops|
  {
    hide Perform;
    if ops != [] {
      PerformKeepsId(core, c, ops[0], e);
      ExecKeepsId(Perform(core, c, ops[0]).0, c, ops[1..], e);
    }
  }

  lemma {:induction false} HandledKeepsId(core: Core, c: nat, ms: seq<Inbound>)
    requires c < |core.hub.recs|
    ensures HandledAll(core, c, ms).hub.recs[c].id == core.hub.recs[c].id
    decreases |ms|
  {
    hide Exec, OpsOf;
    if ms != [] {
      var before := HandledAll(core, c, ms[..|ms| - 1]);
      HandledKeepsId(core, c, ms[..|ms| - 1]);
      ExecKeepsId(before, c, OpsOf(before, c, ms[|ms| - 1]), c);
    }
  }

  function Departed(core: Core, c: nat, id: ClientId): (r: Core)
    requires c < |core.hub.recs|
    ensures |r.hub.recs| == |core.hub.recs|
  {
    Core(UnregisterClient(core.hub, c), RemoveClientSessions(core.sm, id))
  }

  function Served(core: Core, id: ClientId, isAgent: bool, ms: seq<Inbound>): Core {
    Departed(HandledAll(Connected(core, id, isAgent), |core.hub.recs|, ms), |core.hub.recs|, id)
  }

  lemma {:induction false} HandledIsRun(steps: seq<Step>, c: nat, ms: seq<Inbound>) returns (more: seq<Step>)
    requires Run(Init(), steps).Some?
    requires var s := Run(Init(), steps).value; |s.phase| == |s.core.hub.recs| && c < |s.phase| && s.phase[c] == Live
    ensures var s := Run(Init(), steps).value;
            var t := Run(Init(), steps + more);
            t.Some? && t.value.phase == s.phase && t.value.core == HandledAll(s.core, c, ms)
    decreases |ms|
  {
    hide OpsOf, Exec;
    if ms == [] {
      more := [];
      assert steps + more == steps;
    } else {
      var front := HandledIsRun(steps, c, ms[..|ms| - 1]);
      var mid := Run(Init(), steps + front).value;
      var ops := OpsOf(mid.core, c, ms[|ms| - 1]);
      HandlerIsRun(steps + front, c, ops);
      more := front + DoAll(c, ops);
      assert steps + front + DoAll(c, ops) == steps + more;
    }
  }

  lemma ConnectIsRun(steps: seq<Step>, id: ClientId, isAgent: bool)
    requires Run(Init(), steps).Some?
    ensures var s := Run(Init(), steps).value;
            var t := Run(Init(), steps + [Connect(id, isAgent)]);
            && t.Some? && t.value.core == Connected(s.core, id, isAgent) && t.value.phase == s.phase + [Live]
            && |s.phase| == |s.core.hub.recs| && |t.value.core.hub.recs| == |s.core.hub.recs| + 1
            && t.value.core.hub.recs[|s.phase|].id == id && t.value.phase[|s.phase|] == Live
  {
    RunHasPhases(steps);
    RunSnoc(Init(), steps, Connect(id, isAgent));
    hide Run;
  }

  lemma Joined(a: seq<Step>, b: seq<Step>, c: seq<Step>, d: seq<Step>)
    ensures a + b + c + d == a + (b + c + d)
  {
  }

  lemma DepartureIsRun(steps: seq<Step>, c: nat, id: ClientId)
    requires Run(Init(), steps).Some?
    requires var s := Run(Init(), steps).value;
             |s.phase| == |s.core.hub.recs| && c < |s.phase| && s.phase[c] == Live && s.core.hub.recs[c].id == id
    ensures var t := Run(Init(), steps + [RemoveSessions(c), Unregister(c)]);
            t.Some? && t.value.core == Departed(Run(Init(), steps).value.core, c, id)
  {
    hide Run, UnregisterClient, RemoveClientSessions;
    RunSnoc(Init(), steps, RemoveSessions(c));
    RunSnoc(Init(), steps + [RemoveSessions(c)], Unregister(c));
    assert steps + [RemoveSessions(c)] + [Unregister(c)] == steps + [RemoveSessions(c), Unregister(c)];
  }

  /** A connection served without interruption is a run: all that holds of every run holds
      after it. */
  lemma ServedIsRun(steps: seq<Step>, id: ClientId, isAgent: bool, ms: seq<Inbound>) returns (more: seq<Step>)
    requires Run(Init(), steps).Some?
    ensures var t := Run(Init(), steps + more);
            t.Some? && t.value.core == Served(Run(Init(), steps).value.core, id, isAgent, ms)
  {
    var core := Run(Init(), steps).value.core;
    var c := |core.hub.recs|;
    ConnectIsRun(steps, id, isAgent);
    hide Run, Connected, HandledAll, Departed;
    var served := HandledIsRun(steps + [Connect(id, isAgent)], c, ms);
    var all := steps + [Connect(id, isAgent)] + served;
    HandledKeepsId(Connected(core, id, isAgent), c, ms);
    DepartureIsRun(all, c, id);
    more := [Connect(id, isAgent)] + served + [RemoveSessions(c), Unregister(c)];
    Joined(steps, [Connect(id, isAgent)], served, [RemoveSessions(c), Unregister(c)]);
  }

  // ---------------------------------------------------------------- routing

  /** The state after one more message is sent to client `e`, and nothing else. */
  function SentTo(core: Core, e: nat, msg: Msg): Core
    requires e < |core.hub.recs|
  {
    var rec := core.hub.recs[e];
    var fits := |rec.queue| < 256;
    core.(hub := core.hub.(recs := core.hub.recs[e := rec.(
      queue := if fits then rec.queue + [msg] else rec.queue,
      accepted := if fits then rec.accepted + [msg] else rec.accepted,
      sent := rec.sent + [msg])]))
  }

  /** `e` and the sender `c` are the two endpoints of session `sid`. */
  predicate Across(core: Core, c: nat, sid: SessionId, e: nat)
    requires c < |core.hub.recs|
  {
    && sid in core.sm.table && core.sm.table[sid] < |core.sm.store| && e < |core.hub.recs|
    && var rec := core.sm.store[core.sm.table[sid]];
       var me := core.hub.recs[c].id;
       || (rec.initiator.id == me && rec.responder.Some? && rec.responder.value.ref == e)
       || (rec.initiator.id != me && rec.responder.Some? && rec.responder.value.id == me && rec.initiator.ref == e)
  }

  lemma RouteToPeerIs(s: State, c: nat, sid: SessionId, msg: Msg)
    requires Inv(s) && c < |s.phase| == |s.core.hub.recs|
    ensures var (t, out) := RouteToPeer(s.core, c, sid, msg);
            && (forall e :: 0 <= e < |s.phase| && Across(s.core, c, sid, e) ==>
                  && s.phase[e] == Live && t == SentTo(s.core, e, msg)
                  && out == if |s.core.hub.recs[e].queue| < SEND_BUFFER then Delivered else BufferFull)
            && ((forall e :: 0 <= e < |s.phase| ==> !Across(s.core, c, sid, e)) ==> t == s.core && out == NoTarget)
  {
    var found := GetPeer(s.core.sm, sid, s.core.hub.recs[c].id);
    PeerIsConnected(s, sid, s.core.hub.recs[c].id);
    if found.Some? && found.value.Some? {
      assert ClientInv(s.core.hub, s.phase, found.value.value.ref);
      assert Across(s.core, c, sid, found.value.value.ref);
    }
    hide HubInv, SessionsInv;
  }

  /** Forwarding a message changes nothing but the queue of the session's other endpoint,
      which is another client when the endpoints have distinct identifiers. */
  lemma ForwardReachesOnlyPeer(s: State, c: nat, kind: Kind, sid: SessionId, body: string)
    requires Inv(s) && c < |s.phase| == |s.core.hub.recs|
    ensures var t := Handle(s.core, c, ForwardIn(kind, sid, body));
            && (forall e :: 0 <= e < |s.phase| && Across(s.core, c, sid, e) ==>
                  s.phase[e] == Live && t == SentTo(s.core, e, Forwarded(kind, sid, body)))
            && ((forall e :: 0 <= e < |s.phase| ==> !Across(s.core, c, sid, e)) ==> t == s.core)
  {
    ExecOne(s.core, c, ToPeer(sid, Forwarded(kind, sid, body)));
    RouteToPeerIs(s, c, sid, Forwarded(kind, sid, body));
    hide Exec, RouteToPeer, Across, Inv;
  }

  lemma AcrossIsAnother(s: State, c: nat, sid: SessionId, e: nat)
    requires Inv(s) && c < |s.phase| == |s.core.hub.recs| && Across(s.core, c, sid, e)
    requires var rec := s.core.sm.store[s.core.sm.table[sid]];
             rec.responder.Some? ==> rec.responder.value.id != rec.initiator.id
    ensures e != c && s.core.hub.recs[e].id != s.core.hub.recs[c].id
    ensures forall x :: 0 <= x < |s.phase| && Across(s.core, c, sid, x) ==> x == e
  {
    assert SessionInv(s, s.core.sm.table[sid]);
  }

  lemma OfferIsSentTo(s: State, e: nat, msg: Msg)
    requires Inv(s) && e < |s.phase| == |s.core.hub.recs| && s.phase[e] != Gone
    ensures s.core.(hub := Offer(s.core.hub, e, msg).0) == SentTo(s.core, e, msg)
    ensures Offer(s.core.hub, e, msg).1 == if |s.core.hub.recs[e].queue| < SEND_BUFFER then Delivered else BufferFull
  {
    assert ClientInv(s.core.hub, s.phase, e);
  }

  // ---------------------------------------------------------------- responses

  function AfterMark(core: Core, c: nat, sid: SessionId, accepted: bool): (r: Core)
    requires c < |core.hub.recs|
    ensures |r.hub.recs| == |core.hub.recs|
  {
    Perform(core, c, if accepted then Accept(sid) else Mark(sid, Rejected)).0
  }

  /** The response is sent across the session as it stands after it is marked; when it
      cannot be, the sender is told. */
  lemma ResponseIsMarkThenRoute(s: State, c: nat, sid: SessionId, accepted: bool, reason: string)
    requires Inv(s) && c < |s.phase| == |s.core.hub.recs| && s.phase[c] == Live
    ensures var mid := AfterMark(s.core, c, sid, accepted);
            var t := Handle(s.core, c, ResponseIn(sid, accepted, reason));
            var msg := ConnectResponse(sid, accepted, reason);
            && (forall e :: 0 <= e < |s.phase| && Across(mid, c, sid, e) ==>
                  t == if |mid.hub.recs[e].queue| < SEND_BUFFER then SentTo(mid, e, msg)
                       else SentTo(SentTo(mid, e, msg), c, Error("route_failed")))
            && ((forall e :: 0 <= e < |s.phase| ==> !Across(mid, c, sid, e)) ==>
                  t == SentTo(mid, c, Error("route_failed")))
  {
    var mark := if accepted then Accept(sid) else Mark(sid, Rejected);
    var msg := ConnectResponse(sid, accepted, reason);
    var mid := s.(core := AfterMark(s.core, c, sid, accepted));
    DoKeepsInv(s, c, mark);
    hide Inv;
    var (t1, out) := RouteToPeer(mid.core, c, sid, msg);
    assert (t1, out) == Perform(mid.core, c, ToPeer(sid, msg));
    DoKeepsInv(mid, c, ToPeer(sid, msg));
    hide Across, AfterMark, RouteToPeer, SentTo, Offer, Perform, Handle;
    RouteToPeerIs(mid, c, sid, msg);
    OfferIsSentTo(mid.(core := t1), c, Error("route_failed"));
    ResponseOps(s.core, c, sid, accepted, reason);
  }

  /** An accepted request's answer reaches the client that made it unless its queue is
      full, and then the sender is told so. */
  lemma AcceptReachesInitiator(s: State, c: nat, sid: SessionId, reason: string)
    requires Inv(s) && c < |s.phase| == |s.core.hub.recs| && s.phase[c] == Live
    requires sid in s.core.sm.table && s.core.sm.table[sid] < |s.core.sm.store|
    requires s.core.sm.store[s.core.sm.table[sid]].initiator.id != s.core.hub.recs[c].id
    ensures var r := s.core.sm.table[sid];
            var i := s.core.sm.store[r].initiator.ref;
            var mid := AfterMark(s.core, c, sid, true);
            var msg := ConnectResponse(sid, true, reason);
            && mid.sm.store[r] == s.core.sm.store[r].(responder := Some(Self(s.core, c)), status := Accepted)
            && i < |s.phase| && i != c
            && Handle(s.core, c, ResponseIn(sid, true, reason)) ==
                 if |s.core.hub.recs[i].queue| < SEND_BUFFER then SentTo(mid, i, msg)
                 else SentTo(SentTo(mid, i, msg), c, Error("route_failed"))
  {
    var i := s.core.sm.store[s.core.sm.table[sid]].initiator.ref;
    assert SessionInv(s, s.core.sm.table[sid]);
    assert Across(AfterMark(s.core, c, sid, true), c, sid, i);
    ResponseIsMarkThenRoute(s, c, sid, true, reason);
    hide Inv, Across, Handle, SentTo;
  }

  /** A refused request's answer reaches the client that made it only if the sender had
      accepted the session before. Otherwise nothing is sent but the error to the sender. */
  lemma RejectReachesInitiatorIff(s: State, c: nat, sid: SessionId, reason: string)
    requires Inv(s) && c < |s.phase| == |s.core.hub.recs| && s.phase[c] == Live
    requires sid in s.core.sm.table && s.core.sm.table[sid] < |s.core.sm.store|
    requires s.core.sm.store[s.core.sm.table[sid]].initiator.id != s.core.hub.recs[c].id
    ensures var r := s.core.sm.table[sid];
            var rec := s.core.sm.store[r];
            var i := rec.initiator.ref;
            var mid := AfterMark(s.core, c, sid, false);
            var msg := ConnectResponse(sid, false, reason);
            && mid.sm.store[r] == rec.(status := Rejected)
            && i < |s.phase| && i != c
            && Handle(s.core, c, ResponseIn(sid, false, reason)) ==
                 if !(rec.responder.Some? && rec.responder.value.id == s.core.hub.recs[c].id) then
                   SentTo(mid, c, Error("route_failed"))
                 else if |s.core.hub.recs[i].queue| < SEND_BUFFER then SentTo(mid, i, msg)
                 else SentTo(SentTo(mid, i, msg), c, Error("route_failed"))
  {
    var rec := s.core.sm.store[s.core.sm.table[sid]];
    var mid := AfterMark(s.core, c, sid, false);
    assert SessionInv(s, s.core.sm.table[sid]);
    if rec.responder.Some? && rec.responder.value.id == s.core.hub.recs[c].id {
      assert Across(mid, c, sid, rec.initiator.ref);
    } else {
      assert forall e :: 0 <= e < |s.phase| ==> !Across(mid, c, sid, e);
    }
    ResponseIsMarkThenRoute(s, c, sid, false, reason);
    hide Inv, Across, Handle, SentTo;
  }

  // ---------------------------------------------------------------- requests

  function Created(core: Core, c: nat, sid: SessionId, device: DeviceId, protocols: seq<string>): (r: Core)
    requires c < |core.hub.recs|
    ensures |r.hub.recs| == |core.hub.recs|
  {
    Perform(core, c, Create(sid, device, protocols)).0
  }

  lemma HandleRequest(core: Core, c: nat, sid: SessionId, device: DeviceId, protocols: seq<string>)
    requires c < |core.hub.recs|
    ensures var mid := Created(core, c, sid, device, protocols);
            var (hub, out) := RouteToDevice(mid.hub, device, ConnectRequest(sid, device, protocols));
            Handle(core, c, RequestIn(sid, device, protocols)) ==
              if out.Delivered? || out.Panicked? then mid.(hub := hub)
              else Core(Offer(hub, c, Error("device_offline")).0, SetStatus(mid.sm, sid, Rejected))
  {
    hide RouteToDevice, Offer, CreateSession, SetStatus;
    var create, send := Create(sid, device, protocols), ToDevice(device, ConnectRequest(sid, device, protocols));
    var (t, out) := Perform(Perform(core, c, create).0, c, send);
    var rest := [Mark(sid, Rejected), ToSelf(Error("device_offline"))];
    ExecTwo(core, c, create, send, IfLost(out, rest));
    assert rest + [] == rest;
    ExecTwo(t, c, Mark(sid, Rejected), ToSelf(Error("device_offline")), []);
  }

  /** A request always makes a new session for the client. It reaches the device's agent
      if one is listed and has room; otherwise the session is refused and the client told. */
  lemma RequestReachesAgentIff(s: State, c: nat, sid: SessionId, device: DeviceId, protocols: seq<string>)
    requires Inv(s) && Tidy(s.core.hub) && c < |s.phase| == |s.core.hub.recs| && s.phase[c] == Live
    ensures var t := Handle(s.core, c, RequestIn(sid, device, protocols));
            var h := s.core.hub;
            var msg := ConnectRequest(sid, device, protocols);
            var listed := device in h.byDevice && h.byDevice[device] < |h.recs|;
            var reached := listed && |h.recs[h.byDevice[device]].queue| < SEND_BUFFER;
            var asked := if listed then SentTo(s.core, h.byDevice[device], msg) else s.core;
            && t.sm.table == s.core.sm.table[sid := |s.core.sm.store|]
            && t.sm.store == s.core.sm.store
                 + [SessionRec(sid, Self(s.core, c), None, device, protocols, if reached then Pending else Rejected)]
            && t.hub == if reached then asked.hub else SentTo(asked, c, Error("device_offline")).hub
  {
    var h := s.core.hub;
    var mid := Created(s.core, c, sid, device, protocols);
    var msg := ConnectRequest(sid, device, protocols);
    HandleRequest(s.core, c, sid, device, protocols);
    if device in h.byDevice {
      var a := h.byDevice[device];
      assert s.phase[a] != Gone by {
        assert ClientInv(h, s.phase, a);
      }
      OfferIsSentTo(s, a, msg);
      RouteKeepsInv(s, a, msg);
      OfferIsSentTo(s.(core := SentTo(s.core, a, msg)), c, Error("device_offline"));
    } else {
      OfferIsSentTo(s, c, Error("device_offline"));
    }
    hide Inv, Handle, SentTo, Offer, Tidy;
  }

  lemma DisconnectCloses(core: Core, c: nat, sid: SessionId, reason: string)
    requires c < |core.hub.recs|
    ensures Handle(core, c, DisconnectIn(sid, reason)).sm == SetStatus(core.sm, sid, Closed)
  {
    hide Offer, Handle, GetPeer, SetStatus;
    DisconnectOps(core, c, sid, reason);
  }

  lemma ResponseMarks(core: Core, c: nat, sid: SessionId, accepted: bool, reason: string)
    requires c < |core.hub.recs|
    ensures Handle(core, c, ResponseIn(sid, accepted, reason)).sm ==
              if accepted then AcceptSession(core.sm, sid, Self(core, c)) else SetStatus(core.sm, sid, Rejected)
  {
    hide Offer, Handle, GetPeer, SetStatus, AcceptSession;
    ResponseOps(core, c, sid, accepted, reason);
  }

  /** A disconnect closes the session but leaves it in the table, and a later acceptance
      opens it again. */
  lemma ClosedIsNotFinal(core: Core, c: nat, d: nat, sid: SessionId, why: string, reason: string)
    requires TableInv(core.sm) && sid in core.sm.table && c < |core.hub.recs| && d < |core.hub.recs|
    ensures var r := core.sm.table[sid];
            var closed := Handle(core, c, DisconnectIn(sid, why));
            var again := Handle(closed, d, ResponseIn(sid, true, reason));
            && |closed.sm.store| == |again.sm.store| == |core.sm.store|
            && closed.sm.table == again.sm.table == core.sm.table
            && closed.sm.store[r].status == Closed && again.sm.store[r].status == Accepted
  {
    DisconnectCloses(core, c, sid, why);
    ResponseMarks(Handle(core, c, DisconnectIn(sid, why)), d, sid, true, reason);
    hide Handle;
  }

  // ---------------------------------------------------------------- the other handlers

  /** A message that cannot be understood changes nothing but that its sender is told why. */
  lemma ErrorsAreAnswered(s: State, c: nat, code: string)
    requires Inv(s) && c < |s.phase| == |s.core.hub.recs| && s.phase[c] == Live
    ensures Handle(s.core, c, Malformed) == SentTo(s.core, c, Error("invalid_message"))
    ensures Handle(s.core, c, Unknown) == SentTo(s.core, c, Error("unknown_type"))
    ensures Handle(s.core, c, BadPayload(code)) == SentTo(s.core, c, Error(code))
  {
    forall text ensures Exec(s.core, c, [ToSelf(Error(text))]) == SentTo(s.core, c, Error(text)) {
      ExecOne(s.core, c, ToSelf(Error(text)));
      OfferIsSentTo(s, c, Error(text));
    }
    hide Exec, SentTo;
  }

  /** A registration is acknowledged with a token for the device; an agent's is recorded, an
      app's changes nothing else. */
  lemma RegisterIsAnswered(s: State, c: nat, device: DeviceId, info: DeviceInfo, now: nat)
    requires Inv(s) && c < |s.phase| == |s.core.hub.recs| && s.phase[c] == Live
    ensures var mid := if s.core.hub.recs[c].isAgent then s.core.(hub := RegisterDevice(s.core.hub, c, device, info, now))
                       else s.core;
            Handle(s.core, c, RegisterIn(device, info, now)) == SentTo(mid, c, RegisterAck("token-" + device))
  {
    var mid := Perform(s.core, c, Register(device, info, now)).0;
    DoKeepsInv(s, c, Register(device, info, now));
    RegisterOps(s.core, c, device, info, now);
    OfferIsSentTo(s.(core := mid), c, RegisterAck("token-" + device));
    hide Handle, Offer, SentTo, RegisterDevice, Inv;
  }

  /** A heartbeat refreshes the sender's device, if it has one that is listed, and is answered
      with the time. */
  lemma HeartbeatIsAnswered(s: State, c: nat, now: nat, time: nat)
    requires Inv(s) && c < |s.phase| == |s.core.hub.recs| && s.phase[c] == Live
    ensures var h, d := s.core.hub, s.core.hub.recs[c].device;
            var mid := if d in h.devices then s.core.(hub := h.(devices := h.devices[d := h.devices[d].(lastSeen := now)]))
                       else s.core;
            Handle(s.core, c, HeartbeatIn(now, time)) == SentTo(mid, c, HeartbeatAck(time))
  {
    var mid := Perform(s.core, c, Heartbeat(now)).0;
    DoKeepsInv(s, c, Heartbeat(now));
    HeartbeatOps(s.core, c, now, time);
    OfferIsSentTo(s.(core := mid), c, HeartbeatAck(time));
    hide Handle, Offer, SentTo, Inv;
  }

  /** A disconnect is sent across the session, and then the session is closed. */
  lemma DisconnectIsForwarded(s: State, c: nat, sid: SessionId, reason: string)
    requires Inv(s) && c < |s.phase| == |s.core.hub.recs| && s.phase[c] == Live
    ensures var t, msg := Handle(s.core, c, DisconnectIn(sid, reason)), Msg.Disconnect(sid, reason);
            && (forall e :: 0 <= e < |s.phase| && Across(s.core, c, sid, e) ==> t.hub == SentTo(s.core, e, msg).hub)
            && ((forall e :: 0 <= e < |s.phase| ==> !Across(s.core, c, sid, e)) ==> t.hub == s.core.hub)
            && t.sm == SetStatus(s.core.sm, sid, Closed)
  {
    DisconnectCloses(s.core, c, sid, reason);
    DisconnectOps(s.core, c, sid, reason);
    RouteToPeerIs(s, c, sid, Msg.Disconnect(sid, reason));
    hide Handle, Inv, RouteToPeer, Across, SentTo, SetStatus;
  }
}
