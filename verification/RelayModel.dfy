/** The relay server as a transition system. Every connection runs one handler; each
    region a handler executes under a lock is one step, and so is each read and each
    write of a copy. Steps of different handlers interleave freely. */
module RelayModel {
  import opened Bytes
  import opened Wrappers
  import opened RelayTable
  import Handshake

  const OK_ACK: seq<byte> := Handshake.EncodeAck(Handshake.Accepted)

  /** One direction of a relay: how many bytes it has written that the session's counter
      does not have yet, and the bytes it has read and not yet written. */
  datatype Copy = Running(n: nat, held: seq<byte>) | Failed(n: nat) | Counted

  const IDLE_COPY := Running(0, [])

  datatype Direction = There | Back

  /** Where a handler stands. `s` is the session object it holds. */
  datatype Pc =
    | Arrived
    | Refused
    | Joining(s: nat)
    | Full(s: nat)
    | TurnedAway(s: nat)
    | Acking(s: nat)
    | AckFailed(s: nat)
    | Counting(s: nat)
    | Waiting(s: nat)
    | Starting(s: nat)
    | Relaying(s: nat, a: ConnId, b: ConnId, there: Copy, back: Copy)
    | Forgetting(s: nat)
    | Ended(s: nat)

  /** A connection after its handshake: all it will ever send, how much of that has
      been read, and what has been written to it: `out` is the byte stream, made of
      `ack` bytes of acknowledgement and the forwarded bytes `fwd`. */
  datatype Conn = Conn(sid: SessionId, input: seq<byte>, taken: nat, out: seq<byte>, ack: nat, fwd: seq<byte>, open: bool)

  datatype State = State(table: Table, pcs: seq<Pc>, conns: seq<Conn>)

  datatype Step =
    | Arrive(sid: SessionId, input: seq<byte>)
    | Find(c: ConnId)
    | Join(c: ConnId)
    | CleanUp(c: ConnId)
    | Ack(c: ConnId, written: nat)
    | Count(c: ConnId)
    | Snapshot(c: ConnId)
    | Take(c: ConnId, dir: Direction, got: nat)
    | Put(c: ConnId, dir: Direction, put: nat)
    | Finish(c: ConnId, dir: Direction)
    | EndSession(c: ConnId)
    | Drop(c: ConnId)
    | ShutDown

  function Init(max: int): State {
    State(Table(max, map[], []), [], [])
  }

  predicate HasSession(pc: Pc) {
    !pc.Arrived? && !pc.Refused?
  }

  /** The handler's connection occupies a slot of its session. */
  predicate InSlot(pc: Pc) {
    HasSession(pc) && !pc.Joining? && !pc.Full? && !pc.TurnedAway?
  }

  /** The handler has started a relay. */
  predicate Relayed(pc: Pc) {
    pc.Starting? || pc.Relaying? || pc.Forgetting? || pc.Ended?
  }

  function CopyOf(pc: Pc, dir: Direction): Copy
    requires pc.Relaying?
  {
    if dir.There? then pc.there else pc.back
  }

  function WithCopy(pc: Pc, dir: Direction, copy: Copy): Pc
    requires pc.Relaying?
  {
    if dir.There? then pc.(there := copy) else pc.(back := copy)
  }

  function Source(pc: Pc, dir: Direction): ConnId
    requires pc.Relaying?
  {
    if dir.There? then pc.a else pc.b
  }

  function Target(pc: Pc, dir: Direction): ConnId
    requires pc.Relaying?
  {
    if dir.There? then pc.b else pc.a
  }

  predicate Enabled(s: State, step: Step) {
    match step
    case Arrive(_, _) => true
    case ShutDown => true
    case Find(c) => At(s, c) && s.pcs[c].Arrived?
    case Join(c) => At(s, c) && s.pcs[c].Joining?
    case CleanUp(c) => At(s, c) && s.pcs[c].Full?
    case Ack(c, w) => At(s, c) && s.pcs[c].Acking? && w <= |OK_ACK| && (w > 0 ==> s.conns[c].open)
    case Count(c) => At(s, c) && s.pcs[c].Counting?
    case Snapshot(c) => At(s, c) && s.pcs[c].Starting?
    case Take(c, dir, got) =>
      && At(s, c) && s.pcs[c].Relaying? && CopyOf(s.pcs[c], dir).Running? && CopyOf(s.pcs[c], dir).held == []
      && var src := Source(s.pcs[c], dir);
         src < |s.conns| && 0 < got <= |s.conns[src].input| - s.conns[src].taken && s.conns[src].open
    case Put(c, dir, put) =>
      && At(s, c) && s.pcs[c].Relaying? && CopyOf(s.pcs[c], dir).Running?
      && CopyOf(s.pcs[c], dir).held != [] && put <= |CopyOf(s.pcs[c], dir).held|
      && var dst := Target(s.pcs[c], dir);
         dst < |s.conns| && (put > 0 ==> s.conns[dst].open)
    case Finish(c, dir) =>
      && At(s, c) && s.pcs[c].Relaying? && Target(s.pcs[c], dir) < |s.conns|
      && var copy := CopyOf(s.pcs[c], dir);
         !copy.Counted? && (copy.Running? ==> copy.held == [])
    case EndSession(c) => At(s, c) && s.pcs[c].Relaying? && s.pcs[c].there.Counted? && s.pcs[c].back.Counted?
    case Drop(c) => At(s, c) && s.pcs[c].Forgetting?
  }

  /** `c` names a connection, and any session its handler holds exists. */
  predicate At(s: State, c: ConnId) {
    c < |s.pcs| == |s.conns| && (HasSession(s.pcs[c]) ==> s.pcs[c].s < |s.table.store|)
  }

  function CloseConns(conns: seq<Conn>, closing: set<ConnId>): (r: seq<Conn>)
    ensures |r| == |conns|
    ensures forall i :: 0 <= i < |r| ==> r[i] == conns[i].(open := r[i].open)
  {
    seq(|conns|, i requires 0 <= i < |conns| => if i in closing then conns[i].(open := false) else conns[i])
  }

  function Apply(s: State, step: Step): (r: State)
    requires Enabled(s, step)
  {
    match step
    case Arrive(sid, input) =>
      State(s.table, s.pcs + [Arrived], s.conns + [Conn(sid, input, 0, [], 0, [], true)])
    case Find(c) =>
      var (t, found) := Lookup(s.table, s.conns[c].sid);
      (match found
       case Some(ref) => State(t, s.pcs[c := Joining(ref)], s.conns)
       case None => State(t, s.pcs[c := Refused], s.conns[c := s.conns[c].(open := false)]))
    case Join(c) =>
      var ref := s.pcs[c].s;
      var (t, ok) := AddPeer(s.table, ref, c);
      if ok then State(t, s.pcs[c := Acking(ref)], s.conns)
      else State(t, s.pcs[c := Full(ref)], s.conns[c := s.conns[c].(open := false)])
    case CleanUp(c) =>
      State(CleanUpEmpty(s.table, s.pcs[c].s, s.conns[c].sid), s.pcs[c := TurnedAway(s.pcs[c].s)], s.conns)
    case Ack(c, w) =>
      var conn := s.conns[c].(out := s.conns[c].out + OK_ACK[..w], ack := w);
      if w == |OK_ACK| then s.(pcs := s.pcs[c := Counting(s.pcs[c].s)], conns := s.conns[c := conn])
      else s.(pcs := s.pcs[c := AckFailed(s.pcs[c].s)], conns := s.conns[c := conn.(open := false)])
    case Count(c) =>
      var ref := s.pcs[c].s;
      s.(pcs := s.pcs[c := if |s.table.store[ref].peers| == 2 then Starting(ref) else Waiting(ref)])
    case Snapshot(c) =>
      var ref := s.pcs[c].s;
      var peers := s.table.store[ref].peers;
      s.(pcs := s.pcs[c := if |peers| == 2 then Relaying(ref, peers[0], peers[1], IDLE_COPY, IDLE_COPY)
                           else Forgetting(ref)])
    case Take(c, dir, got) =>
      var pc := s.pcs[c];
      var src := Source(pc, dir);
      var from := s.conns[src];
      var data := from.input[from.taken..from.taken + got];
      State(s.table, s.pcs[c := WithCopy(pc, dir, CopyOf(pc, dir).(held := data))],
            s.conns[src := from.(taken := from.taken + got)])
    case Put(c, dir, put) =>
      var pc := s.pcs[c];
      var dst, copy := Target(pc, dir), CopyOf(pc, dir);
      var data := copy.held[..put];
      var to := s.conns[dst].(out := s.conns[dst].out + data, fwd := s.conns[dst].fwd + data);
      var next := if put == |copy.held| then Running(copy.n + put, []) else Failed(copy.n + put);
      State(s.table, s.pcs[c := WithCopy(pc, dir, next)], s.conns[dst := to])
    case Finish(c, dir) =>
      var pc := s.pcs[c];
      State(AddBytes(s.table, pc.s, CopyOf(pc, dir).n),
            s.pcs[c := WithCopy(pc, dir, Counted)],
            CloseConns(s.conns, {Target(pc, dir)}))
    case EndSession(c) =>
      var ref := s.pcs[c].s;
      State(MarkClosed(s.table, ref), s.pcs[c := Forgetting(ref)],
            CloseConns(s.conns, ClosedWith(s.table.store[ref])))
    case Drop(c) =>
      State(Forget(s.table, s.conns[c].sid), s.pcs[c := Ended(s.pcs[c].s)], s.conns)
    case ShutDown =>
      State(Shutdown(s.table), s.pcs, CloseConns(s.conns, ClosedByShutdown(s.table)))
  }

  /** The state a sequence of steps leads to, if each is enabled in its turn. */
  function Run(s: State, steps: seq<Step>): (r: Option<State>) {
    if steps == [] then Some(s)
    else
      match Run(s, steps[..|steps| - 1])
      case None => None
      case Some(t) =>
        var step := steps[|steps| - 1];
        if Enabled(t, step) then Some(Apply(t, step)) else None
  }

  /** Adds one step to a run; the caller says which state it leads to. */
  lemma Extend(s: State, steps: seq<Step>, at: State, step: Step, next: State) returns (longer: seq<Step>)
    requires Run(s, steps) == Some(at)
    requires Enabled(at, step) && Apply(at, step) == next
    ensures longer == steps + [step] && Run(s, longer) == Some(next)
  {
    longer := steps + [step];
    assert longer[..|longer| - 1] == steps;
  }

  // ---------------------------------------------------------------- the control invariant

  predicate MapInv(t: Table) {
    && (forall k :: k in t.sessions ==> t.sessions[k] < |t.store| && t.store[t.sessions[k]].id == k)
    && |t.sessions| <= (if t.max < 0 then 0 else t.max)
  }

  predicate SlotInv(s: State, r: nat)
    requires r < |s.table.store|
  {
    var peers := s.table.store[r].peers;
    && |peers| <= 2
    && (|peers| == 2 ==> peers[0] != peers[1])
    && forall i :: 0 <= i < |peers| ==> peers[i] < |s.pcs| && InSlot(s.pcs[peers[i]]) && s.pcs[peers[i]].s == r
  }

  predicate HandlerInv(s: State, c: ConnId)
    requires c < |s.pcs| == |s.conns|
  {
    var pc := s.pcs[c];
    HasSession(pc) ==>
      && pc.s < |s.table.store| && s.table.store[pc.s].id == s.conns[c].sid
      && var peers := s.table.store[pc.s].peers;
         && (InSlot(pc) ==> c in peers)
         && (pc.Full? || pc.TurnedAway? || Relayed(pc) ==> |peers| == 2)
         && (pc.Relaying? ==> peers == [pc.a, pc.b])
         && (|peers| == 2 && c == peers[1] ==> !pc.Waiting?)
  }

  /** A session in the table without peers has a handler on its way to join it. */
  predicate EmptyInv(s: State) {
    forall k :: k in s.table.sessions && s.table.sessions[k] < |s.table.store| ==>
                  s.table.store[s.table.sessions[k]].peers == [] ==> Joining(s.table.sessions[k]) in s.pcs
  }

  predicate Control(s: State) {
    && |s.pcs| == |s.conns|
    && MapInv(s.table)
    && (forall r :: 0 <= r < |s.table.store| ==> SlotInv(s, r))
    && (forall c :: 0 <= c < |s.pcs| ==> HandlerInv(s, c))
    && EmptyInv(s)
  }
}
