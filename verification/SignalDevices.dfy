/** Device registrations: who owns them, and when a route to a device is safe. */
module SignalDevices {
  import opened Wrappers
  import opened SignalTables
  import opened SignalModel
  import opened SignalSafety

  // ---------------------------------------------------------------- ownership

  /** In every reachable state the two device tables list the same devices, and a
      connected client that has a device name is the one listed under it. */
  lemma LiveClientOwnsItsDevice(steps: seq<Step>, c: nat)
    requires Run(Init(), steps).Some? && c < |Reach(steps).core.hub.recs|
    ensures var s := Reach(steps);
            var h := s.core.hub;
            && h.devices.Keys == h.byDevice.Keys && |s.phase| == |h.recs|
            && (s.phase[c] != Gone && h.recs[c].device != "" ==>
                  h.recs[c].isAgent && h.recs[c].device in h.byDevice && h.byDevice[h.recs[c].device] == c)
  {
    assert ClientInv(Reach(steps).core.hub, Reach(steps).phase, c);
  }

  /** A client that leaves takes away no device that is listed for another: a displaced
      connection's late disconnect leaves its successor's registration alone. */
  lemma UnregisterSparesOthers(s: State, c: nat, d: DeviceId)
    requires Inv(s) && Enabled(s, Unregister(c))
    requires d in s.core.hub.byDevice && s.core.hub.byDevice[d] != c
    ensures var h, g := s.core.hub, UnregisterClient(s.core.hub, c);
            && d in g.byDevice && g.byDevice[d] == h.byDevice[d]
            && d in h.devices && d in g.devices && g.devices[d] == h.devices[d]
  {
    assert ClientInv(s.core.hub, s.phase, c);
  }

  /** A connected agent's heartbeat refreshes its own device, which is listed for it, and
      nothing else. */
  lemma HeartbeatRefreshesOwnDevice(s: State, c: nat, now: nat)
    requires Inv(s) && Enabled(s, Do(c, Heartbeat(now))) && s.core.hub.recs[c].device != ""
    ensures var h, d := s.core.hub, s.core.hub.recs[c].device;
            && d in h.devices && d in h.byDevice && h.byDevice[d] == c
            && Perform(s.core, c, Heartbeat(now)).0 ==
                 s.core.(hub := h.(devices := h.devices[d := h.devices[d].(lastSeen := now)]))
  {
    assert ClientInv(s.core.hub, s.phase, c);
  }

  lemma OthersKeepDevices(core: Core, c: nat, op: Op)
    requires c < |core.hub.recs| && !op.Register? && !op.Heartbeat?
    ensures Perform(core, c, op).0.hub.devices == core.hub.devices
  {
    hide CreateSession, AcceptSession, SetStatus, GetPeer;
  }

  /** While a device stays listed its registration time never changes, not even when it
      registers again; and no step but a registration changes what is known about it. */
  lemma RegisteredTimeIsStable(s: State, step: Step, d: DeviceId)
    requires Enabled(s, step) && d in s.core.hub.devices && d in Apply(s, step).core.hub.devices
    ensures var a, b := s.core.hub.devices[d], Apply(s, step).core.hub.devices[d];
            && a.registered == b.registered
            && (!(step.Do? && step.op.Register? && step.op.device == d) ==> b == a.(lastSeen := b.lastSeen))
  {
    match step {
      case Do(c, op) =>
        if op.Register? || op.Heartbeat? {
          hide RemoveClientSessions, UnregisterClient, TakeNext;
        } else {
          OthersKeepDevices(s.core, c, op);
          hide Perform;
        }
      case _ =>
        hide Perform, RemoveClientSessions;
    }
  }

  /** Every listed device belongs to an open client that has it as its own. With
      `ClientInv` this makes the list and the clients' own device names each other's
      inverse. */
  predicate Tidy(h: Hub) {
    forall d :: d in h.byDevice ==>
      d != "" && h.byDevice[d] < |h.recs| && h.recs[h.byDevice[d]].open && h.recs[h.byDevice[d]].device == d
  }

  /** What a connection may register: a device with a name, and no second one. */
  predicate MayRegister(h: Hub, c: nat, d: DeviceId)
    requires c < |h.recs|
  {
    d != "" && (h.recs[c].device == "" || h.recs[c].device == d)
  }

  lemma RegisterKeepsTidyIff(s: State, c: nat, d: DeviceId, info: DeviceInfo, now: nat)
    requires Inv(s) && Tidy(s.core.hub) && c < |s.phase| && s.phase[c] == Live && s.core.hub.recs[c].isAgent
    ensures Tidy(RegisterDevice(s.core.hub, c, d, info, now)) <==> MayRegister(s.core.hub, c, d)
  {
    var h := s.core.hub;
    var g := RegisterDevice(h, c, d, info, now);
    hide Subsequence, SessionsInv;
    assert ClientInv(h, s.phase, c);
    var own := h.recs[c].device;
    if own != "" && own != d {
      assert own in g.byDevice && g.byDevice[own] == c;
    }
    assert d in g.byDevice;
  }

  lemma UnregisterKeepsTidy(h: Hub, phase: seq<Phase>, c: nat)
    requires HubInv(h, phase) && c < |phase| && phase[c] != Gone && Tidy(h)
    ensures Tidy(UnregisterClient(h, c))
    ensures forall d :: d in h.byDevice ==> (d in UnregisterClient(h, c).byDevice <==> h.byDevice[d] != c)
  {
    hide Subsequence;
    assert ClientInv(h, phase, c);
  }

  /** A device listed for a client under a name not its own stays listed when it leaves. */
  lemma StrayPanics(h: Hub, c: nat, d: DeviceId, msg: Msg)
    requires c < |h.recs| && d in h.byDevice && h.byDevice[d] == c && (d == "" || h.recs[c].device != d)
    ensures RouteToDevice(UnregisterClient(h, c), d, msg).1.Panicked?
  {
  }

  lemma StrayAfterRegister(h: Hub, phase: seq<Phase>, c: nat, d: DeviceId, info: DeviceInfo, now: nat)
    requires HubInv(h, phase) && c < |phase| && phase[c] == Live && !MayRegister(h, c, d)
    ensures var g, e := RegisterDevice(h, c, d, info, now), if d == "" then d else h.recs[c].device;
            e in g.byDevice && g.byDevice[e] == c && (e == "" || g.recs[c].device != e)
  {
    hide Subsequence;
    assert ClientInv(h, phase, c);
  }

  /** After one registration and the client's departure some route sends on a closed
      channel exactly when the registration was one the client may not make. */
  lemma StrayDeviceIff(s: State, c: nat, d: DeviceId, info: DeviceInfo, now: nat, msg: Msg)
    requires Inv(s) && Tidy(s.core.hub) && c < |s.phase| && s.phase[c] == Live && s.core.hub.recs[c].isAgent
    ensures (exists e :: RouteToDevice(UnregisterClient(RegisterDevice(s.core.hub, c, d, info, now), c), e, msg).1.Panicked?)
            <==> !MayRegister(s.core.hub, c, d)
  {
    var h := s.core.hub;
    var g := RegisterDevice(h, c, d, info, now);
    RegisterDeviceKeepsHub(h, s.phase, c, d, info, now);
    RegisterKeepsTidyIff(s, c, d, info, now);
    hide HubInv, SessionsInv, UnregisterClient, RegisterDevice;
    if MayRegister(h, c, d) {
      UnregisterKeepsTidy(g, s.phase, c);
    } else {
      StrayAfterRegister(h, s.phase, c, d, info, now);
      hide RouteToDevice;
      StrayPanics(g, c, if d == "" then d else h.recs[c].device, msg);
    }
  }

  lemma RunSnoc(s: State, steps: seq<Step>, step: Step)
    requires Run(s, steps).Some? && Enabled(Run(s, steps).value, step)
    ensures Run(s, steps + [step]) == Some(Apply(Run(s, steps).value, step))
  {
    assert (steps + [step])[..|steps|] == steps;
  }

  lemma RunFour(s: State, steps: seq<Step>, x1: Step, x2: Step, x3: Step, x4: Step)
    requires Run(s, steps).Some? && Enabled(Run(s, steps).value, x1)
    requires Enabled(Apply(Run(s, steps).value, x1), x2)
    requires Enabled(Apply(Apply(Run(s, steps).value, x1), x2), x3)
    requires Enabled(Apply(Apply(Apply(Run(s, steps).value, x1), x2), x3), x4)
    ensures Run(s, steps + [x1, x2, x3, x4]) == Some(Apply(Apply(Apply(Apply(Run(s, steps).value, x1), x2), x3), x4))
  {
    hide Run, Apply, Enabled;
    RunSnoc(s, steps, x1);
    RunSnoc(s, steps + [x1], x2);
    RunSnoc(s, steps + [x1] + [x2], x3);
    RunSnoc(s, steps + [x1] + [x2] + [x3], x4);
    assert steps + [x1] + [x2] + [x3] + [x4] == steps + [x1, x2, x3, x4];
  }

  lemma DepartureKeepsStray(s: State, c: nat, other: nat, d: DeviceId, msg: Msg)
    requires c < |s.phase| == |s.core.hub.recs| && s.phase[c] == Live
    requires other < |s.phase| && s.phase[other] == Live && other != c
    requires var h := s.core.hub; d in h.byDevice && h.byDevice[d] == c && (d == "" || h.recs[c].device != d)
    ensures Enabled(s, RemoveSessions(c)) && Enabled(Apply(s, RemoveSessions(c)), Unregister(c))
    ensures var t := Apply(Apply(s, RemoveSessions(c)), Unregister(c));
            Enabled(t, Do(other, ToDevice(d, msg))) && Apply(t, Do(other, ToDevice(d, msg))).panicked
  {
    hide RemoveClientSessions, UnregisterClient, RouteToDevice;
    StrayPanics(s.core.hub, c, d, msg);
  }

  /** Such a registration can be followed to the panic in every run that makes it, as soon
      as one other client is connected. */
  lemma StrayRunPanics(steps: seq<Step>, c: nat, d: DeviceId, info: DeviceInfo, now: nat, other: nat, msg: Msg)
    requires Run(Init(), steps).Some? && c != other
    requires c < |Reach(steps).phase| && Reach(steps).phase[c] == Live
    requires other < |Reach(steps).phase| && Reach(steps).phase[other] == Live
    requires |Reach(steps).core.hub.recs| == |Reach(steps).phase|
    requires Reach(steps).core.hub.recs[c].isAgent && !MayRegister(Reach(steps).core.hub, c, d)
    ensures var stray := if d == "" then d else Reach(steps).core.hub.recs[c].device;
            var more := [Do(c, Register(d, info, now)), RemoveSessions(c), Unregister(c), Do(other, ToDevice(stray, msg))];
            Run(Init(), steps + more).Some? && Run(Init(), steps + more).value.panicked
  {
    var s := Reach(steps);
    var stray := if d == "" then d else s.core.hub.recs[c].device;
    StrayAfterRegister(s.core.hub, s.phase, c, d, info, now);
    hide HubInv, SessionsInv, RegisterDevice, Run;
    var x := Do(c, Register(d, info, now));
    assert Apply(s, x).core.hub == RegisterDevice(s.core.hub, c, d, info, now) && Apply(s, x).phase == s.phase;
    assert Enabled(s, x);
    hide Apply, Enabled;
    DepartureKeepsStray(Apply(s, x), c, other, stray, msg);
    RunFour(Init(), steps, x, RemoveSessions(c), Unregister(c), Do(other, ToDevice(stray, msg)));
  }

  // ---------------------------------------------------------------- runs

  /** An agent's registration is one it may make; an app's changes nothing. */
  predicate Allowed(s: State, step: Step) {
    step.Do? && step.op.Register? && step.c < |s.core.hub.recs| && s.core.hub.recs[step.c].isAgent ==>
      MayRegister(s.core.hub, step.c, step.op.device)
  }

  predicate AllAllowed(steps: seq<Step>) {
    steps == [] ||
      var before := Run(Init(), steps[..|steps| - 1]);
      AllAllowed(steps[..|steps| - 1]) && (before.Some? ==> Allowed(before.value, steps[|steps| - 1]))
  }

  lemma OfferKeepsTidy(h: Hub, c: nat, msg: Msg)
    requires Tidy(h) && c < |h.recs|
    ensures Tidy(Offer(h, c, msg).0)
  {
  }

  lemma HeartbeatKeepsTidy(h: Hub, d: DeviceId, now: nat)
    requires Tidy(h)
    ensures Tidy(UpdateHeartbeat(h, d, now))
  {
  }

  lemma OpKeepsTidy(s: State, c: nat, op: Op)
    requires Inv(s) && Enabled(s, Do(c, op)) && Tidy(s.core.hub) && Allowed(s, Do(c, op))
    ensures Tidy(Perform(s.core, c, op).0.hub)
  {
    var h := s.core.hub;
    if op.Register? && h.recs[c].isAgent {
      RegisterKeepsTidyIff(s, c, op.device, op.info, op.now);
    }
    hide HubInv, SessionsInv, Tidy, Offer, RegisterDevice, CreateSession, AcceptSession, SetStatus, GetPeer, UpdateHeartbeat;
    match op {
      case Heartbeat(now) => HeartbeatKeepsTidy(h, h.recs[c].device, now);
      case ToDevice(device, msg) =>
        if device in h.byDevice && h.byDevice[device] < |h.recs| {
          OfferKeepsTidy(h, h.byDevice[device], msg);
        }
      case ToPeer(sid, msg) =>
        var peer := GetPeer(s.core.sm, sid, h.recs[c].id);
        if peer.Some? && peer.value.Some? && peer.value.value.ref < |h.recs| {
          OfferKeepsTidy(h, peer.value.value.ref, msg);
        }
      case ToClient(id, msg) =>
        if id in h.clients && h.clients[id] < |h.recs| {
          OfferKeepsTidy(h, h.clients[id], msg);
        }
      case ToSelf(msg) => OfferKeepsTidy(h, c, msg);
      case _ =>
    }
  }

  lemma StepKeepsTidy(s: State, step: Step)
    requires Inv(s) && Enabled(s, step) && Tidy(s.core.hub) && !s.panicked && Allowed(s, step)
    ensures Tidy(Apply(s, step).core.hub) && !Apply(s, step).panicked
  {
    var h := s.core.hub;
    match step {
      case Do(c, op) =>
        PanicIff(s, c, op);
        forall d | d in h.byDevice ensures s.phase[h.byDevice[d]] != Gone {
          assert ClientInv(h, s.phase, h.byDevice[d]);
        }
        OpKeepsTidy(s, c, op);
        hide Perform, HubInv, SessionsInv;
      case Unregister(c) => UnregisterKeepsTidy(h, s.phase, c);
      case _ =>
    }
  }

  /** When every agent registers a named device and, while it has one, no other, nothing is
      ever sent on a closed channel, whatever the interleaving. */
  lemma {:induction false} NothingPanics(steps: seq<Step>)
    requires AllAllowed(steps)
    ensures Run(Init(), steps).Some? ==>
              var s := Run(Init(), steps).value;
              Tidy(s.core.hub) && !s.panicked
    decreases |steps|
  {
    if steps != [] {
      var last := steps[|steps| - 1];
      var before := Run(Init(), steps[..|steps| - 1]);
      NothingPanics(steps[..|steps| - 1]);
      RunKeepsInv(steps[..|steps| - 1]);
      hide Inv, Allowed;
      if before.Some? && Enabled(before.value, last) {
        StepKeepsTidy(before.value, last);
      }
    }
  }

  // ---------------------------------------------------------------- one device per connection

  /** Each connection registers under at most one name, `name(c)`, as the agent does. */
  predicate OneName(steps: seq<Step>, name: nat -> DeviceId) {
    forall i :: 0 <= i < |steps| && steps[i].Do? && steps[i].op.Register? ==>
      steps[i].op.device == name(steps[i].c) && name(steps[i].c) != ""
  }

  predicate Named(h: Hub, name: nat -> DeviceId) {
    forall c :: 0 <= c < |h.recs| ==> h.recs[c].device == "" || h.recs[c].device == name(c)
  }

  lemma RegisterKeepsNamed(h: Hub, c: nat, d: DeviceId, info: DeviceInfo, now: nat, name: nat -> DeviceId)
    requires Named(h, name) && c < |h.recs| && d == name(c)
    ensures Named(RegisterDevice(h, c, d, info, now), name)
  {
  }

  lemma OthersKeepNames(core: Core, c: nat, op: Op)
    requires c < |core.hub.recs| && !op.Register?
    ensures var recs := Perform(core, c, op).0.hub.recs;
            forall e :: 0 <= e < |recs| ==> recs[e].device == core.hub.recs[e].device
  {
    hide CreateSession, AcceptSession, SetStatus, GetPeer;
  }

  lemma StepKeepsNamed(s: State, step: Step, name: nat -> DeviceId)
    requires Enabled(s, step) && Named(s.core.hub, name)
    requires step.Do? && step.op.Register? ==> step.op.device == name(step.c)
    ensures Named(Apply(s, step).core.hub, name)
  {
    match step {
      case Do(c, op) =>
        if op.Register? {
          RegisterKeepsNamed(s.core.hub, c, op.device, op.info, op.now, name);
          hide RegisterDevice, Named;
        } else {
          OthersKeepNames(s.core, c, op);
          hide Perform;
        }
      case _ => hide RemoveClientSessions;
    }
  }

  lemma {:induction false} OneNameIsAllowed(steps: seq<Step>, name: nat -> DeviceId)
    requires OneName(steps, name)
    ensures AllAllowed(steps) && (Run(Init(), steps).Some? ==> Named(Run(Init(), steps).value.core.hub, name))
    decreases |steps|
  {
    if steps != [] {
      var last := steps[|steps| - 1];
      var before := Run(Init(), steps[..|steps| - 1]);
      OneNameIsAllowed(steps[..|steps| - 1], name);
      hide Apply;
      if before.Some? && Enabled(before.value, last) {
        StepKeepsNamed(before.value, last, name);
      }
    }
  }
}
