/** The relay server's two kinds of mutex, the server's and each session's, and why
    no reachable state is deadlocked. */
module LockOrder {
  import opened Wrappers

  datatype Op = LockServer | UnlockServer | LockSession(r: nat) | UnlockSession(r: nat)

  /** A goroutine: the locks it holds and the lock operations it has yet to make. */
  datatype Thread = Thread(server: bool, session: Option<nat>, todo: seq<Op>)

  /** The operations respect the order: the server's mutex is taken holding nothing, a
      session's holding at most the server's, and all is released at the end. */
  predicate Ordered(server: bool, session: Option<nat>, todo: seq<Op>)
    decreases |todo|
  {
    if todo == [] then !server && session.None?
    else
      match todo[0]
      case LockServer => !server && session.None? && Ordered(true, None, todo[1..])
      case UnlockServer => server && session.None? && Ordered(false, None, todo[1..])
      case LockSession(r) => session.None? && Ordered(server, Some(r), todo[1..])
      case UnlockSession(r) => session == Some(r) && Ordered(server, None, todo[1..])
  }

  // ---------------------------------------------------------------- the programs

  function Region(r: nat): seq<Op> {
    [LockSession(r), UnlockSession(r)]
  }

  const TABLE_REGION: seq<Op> := [LockServer, UnlockServer]

  /** Refused for want of room; also `SessionCount`, and the deletion after a relay. */
  const FULL_HANDLER: seq<Op> := TABLE_REGION

  /** Find, join; then the acknowledgement fails. */
  function AckFailedHandler(r: nat): seq<Op> {
    TABLE_REGION + Region(r)
  }

  /** Find, join, clean up after a refusal: the empty test nests the session's mutex. */
  function RefusedHandler(r: nat): seq<Op> {
    TABLE_REGION + Region(r) + ([LockServer] + Region(r) + [UnlockServer])
  }

  /** Find, join, count, and for the log line count again. */
  function WaitingHandler(r: nat): seq<Op> {
    TABLE_REGION + Region(r) + (Region(r) + Region(r))
  }

  /** Find, join, count; the relay reads the peers, closes the session, drops it. */
  function RelayingHandler(r: nat): seq<Op> {
    TABLE_REGION + Region(r) + (Region(r) + Region(r) + Region(r) + TABLE_REGION)
  }

  function CloseAll(sessions: seq<nat>): seq<Op> {
    if sessions == [] then [] else Region(sessions[0]) + CloseAll(sessions[1..])
  }

  /** `Server.Close`: every session's mutex in turn, under the server's. */
  function Closing(sessions: seq<nat>): seq<Op> {
    [LockServer] + CloseAll(sessions) + [UnlockServer]
  }

  lemma {:induction false} OrderedAppend(server: bool, session: Option<nat>, a: seq<Op>, b: seq<Op>)
    requires Ordered(server, session, a) && Ordered(false, None, b)
    ensures Ordered(server, session, a + b)
    decreases |a|
  {
    if a == [] {
      assert a + b == b;
    } else {
      assert (a + b)[1..] == a[1..] + b;
      match a[0]
      case LockServer => OrderedAppend(true, None, a[1..], b);
      case UnlockServer => OrderedAppend(false, None, a[1..], b);
      case LockSession(r) => OrderedAppend(server, Some(r), a[1..], b);
      case UnlockSession(_) => OrderedAppend(server, None, a[1..], b);
    }
  }

  lemma RegionOrdered(r: nat, server: bool, rest: seq<Op>)
    requires Ordered(server, None, rest)
    ensures Ordered(server, None, Region(r) + rest)
  {
    var p := Region(r) + rest;
    assert p[1..] == [UnlockSession(r)] + rest;
    assert p[1..][1..] == rest;
  }

  lemma TableOrdered(rest: seq<Op>)
    requires Ordered(false, None, rest)
    ensures Ordered(false, None, TABLE_REGION + rest)
  {
    var p := TABLE_REGION + rest;
    assert p[1..] == [UnlockServer] + rest;
    assert p[1..][1..] == rest;
  }

  lemma {:induction false} CloseAllOrdered(sessions: seq<nat>)
    ensures Ordered(true, None, CloseAll(sessions) + [UnlockServer])
  {
    if sessions == [] {
      assert CloseAll(sessions) + [UnlockServer] == [UnlockServer];
      assert [UnlockServer][1..] == [];
    } else {
      CloseAllOrdered(sessions[1..]);
      var rest := CloseAll(sessions[1..]) + [UnlockServer];
      RegionOrdered(sessions[0], true, rest);
      assert CloseAll(sessions) + [UnlockServer] == Region(sessions[0]) + rest;
    }
  }

  /** Every program of the relay server respects the order. */
  lemma ProgramsOrdered(r: nat, sessions: seq<nat>)
    ensures Ordered(false, None, FULL_HANDLER)
    ensures Ordered(false, None, AckFailedHandler(r))
    ensures Ordered(false, None, RefusedHandler(r))
    ensures Ordered(false, None, WaitingHandler(r))
    ensures Ordered(false, None, RelayingHandler(r))
    ensures Ordered(false, None, Closing(sessions))
  {
    assert Ordered(false, None, []);
    TableOrdered([]);
    assert TABLE_REGION + [] == TABLE_REGION;
    RegionOrdered(r, false, []);
    assert Region(r) + [] == Region(r);
    OrderedAppend(false, None, TABLE_REGION, Region(r));
    OrderedAppend(false, None, Region(r), Region(r));
    CloseAllOrdered([r]);
    assert CloseAll([r]) == Region(r) by { assert [r][1..] == []; assert Region(r) + [] == Region(r); }
    LockThen(Region(r) + [UnlockServer]);
    assert [LockServer] + Region(r) + [UnlockServer] == [LockServer] + (Region(r) + [UnlockServer]);
    hide Region;
    OrderedAppend(false, None, TABLE_REGION + Region(r), [LockServer] + Region(r) + [UnlockServer]);
    OrderedAppend(false, None, TABLE_REGION + Region(r), Region(r) + Region(r));
    OrderedAppend(false, None, Region(r) + Region(r), Region(r));
    OrderedAppend(false, None, Region(r) + Region(r) + Region(r), TABLE_REGION);
    OrderedAppend(false, None, TABLE_REGION + Region(r), Region(r) + Region(r) + Region(r) + TABLE_REGION);
    CloseAllOrdered(sessions);
    LockThen(CloseAll(sessions) + [UnlockServer]);
    assert Closing(sessions) == [LockServer] + (CloseAll(sessions) + [UnlockServer]);
  }

  lemma LockThen(rest: seq<Op>)
    requires Ordered(true, None, rest)
    ensures Ordered(false, None, [LockServer] + rest)
  {
    assert ([LockServer] + rest)[1..] == rest;
  }

  // ---------------------------------------------------------------- runs

  predicate ServerFree(ts: seq<Thread>) {
    forall i :: 0 <= i < |ts| ==> !ts[i].server
  }

  predicate SessionFree(ts: seq<Thread>, r: nat) {
    forall i :: 0 <= i < |ts| ==> ts[i].session != Some(r)
  }

  predicate CanStep(ts: seq<Thread>, i: nat) {
    && i < |ts| && ts[i].todo != []
    && match ts[i].todo[0]
       case LockServer => ServerFree(ts)
       case LockSession(r) => SessionFree(ts, r)
       case _ => true
  }

  function StepThread(t: Thread): Thread
    requires t.todo != []
  {
    match t.todo[0]
    case LockServer => Thread(true, t.session, t.todo[1..])
    case UnlockServer => Thread(false, t.session, t.todo[1..])
    case LockSession(r) => Thread(t.server, Some(r), t.todo[1..])
    case UnlockSession(_) => Thread(t.server, None, t.todo[1..])
  }

  /** A goroutine starts, or one of them makes its next lock operation. */
  datatype Event = Spawn(program: seq<Op>) | Go(i: nat)

  predicate Possible(ts: seq<Thread>, e: Event) {
    match e
    case Spawn(p) => Ordered(false, None, p)
    case Go(i) => CanStep(ts, i)
  }

  function After(ts: seq<Thread>, e: Event): seq<Thread>
    requires Possible(ts, e)
  {
    match e
    case Spawn(p) => ts + [Thread(false, None, p)]
    case Go(i) => ts[i := StepThread(ts[i])]
  }

  function Threads(events: seq<Event>): (r: Option<seq<Thread>>) {
    if events == [] then Some([])
    else
      match Threads(events[..|events| - 1])
      case None => None
      case Some(ts) =>
        if Possible(ts, events[|events| - 1]) then Some(After(ts, events[|events| - 1])) else None
  }

  predicate LockInv(ts: seq<Thread>) {
    && (forall i :: 0 <= i < |ts| ==> Ordered(ts[i].server, ts[i].session, ts[i].todo))
    && (forall i, j :: 0 <= i < j < |ts| ==> !(ts[i].server && ts[j].server))
    && (forall i, j :: 0 <= i < j < |ts| && ts[i].session.Some? ==> ts[i].session != ts[j].session)
  }

  lemma {:induction false} RunKeepsLockInv(events: seq<Event>)
    requires Threads(events).Some?
    ensures LockInv(Threads(events).value)
  {
    if events != [] {
      var before, e := events[..|events| - 1], events[|events| - 1];
      RunKeepsLockInv(before);
      var ts := Threads(before).value;
      match e
      case Spawn(_) =>
      case Go(i) => assert Ordered(ts[i].server, ts[i].session, ts[i].todo);
    }
  }

  /** No deadlock: as long as some goroutine has lock operations left, one of them can
      make its next one. */
  lemma NoDeadlock(events: seq<Event>, i: nat) returns (j: nat)
    requires Threads(events).Some?
    requires i < |Threads(events).value| && Threads(events).value[i].todo != []
    ensures CanStep(Threads(events).value, j)
  {
    RunKeepsLockInv(events);
    var ts := Threads(events).value;
    j := Unblock(ts, i);
  }

  /** Follows a blocked goroutine to the holder it waits for, and that one, if it is
      blocked too, to the holder of a session's mutex, which never waits. */
  lemma Unblock(ts: seq<Thread>, i: nat) returns (j: nat)
    requires LockInv(ts) && i < |ts| && ts[i].todo != []
    ensures CanStep(ts, j)
  {
    assert Ordered(ts[i].server, ts[i].session, ts[i].todo);
    if CanStep(ts, i) {
      j := i;
    } else if ts[i].todo[0].LockServer? {
      var k :| 0 <= k < |ts| && ts[k].server;
      assert Ordered(ts[k].server, ts[k].session, ts[k].todo);
      j := k;
      if !CanStep(ts, k) {
        j := HolderSteps(ts, ts[k].todo[0].r);
      }
    } else {
      j := HolderSteps(ts, ts[i].todo[0].r);
    }
  }

  lemma HolderSteps(ts: seq<Thread>, r: nat) returns (j: nat)
    requires LockInv(ts) && !SessionFree(ts, r)
    ensures CanStep(ts, j)
  {
    j :| 0 <= j < |ts| && ts[j].session == Some(r);
    assert Ordered(ts[j].server, ts[j].session, ts[j].todo);
  }
}
