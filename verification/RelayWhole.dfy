/** A whole relay, from its snapshot to its clean-up, with its two copies interleaved in any
    way: it delivers both directions. */
module RelayWhole {
  import opened Bytes
  import opened Wrappers
  import opened RelayTable
  import opened RelayModel
  import opened RelayCopy

  /** One turn of one of the copies: how much it reads. */
  datatype Turn = Turn(dir: Direction, size: nat)

  function Total(turns: seq<Turn>, dir: Direction): (n: nat) {
    if turns == [] then 0
    else Total(turns[..|turns| - 1], dir) + Share(turns[|turns| - 1], dir)
  }

  /** How much the copy in direction `dir` has still to read. */
  function Left(s: State, c: ConnId, dir: Direction): (n: nat)
    requires Ready(s, c, dir)
  {
    |s.conns[Source(s.pcs[c], dir)].input| - s.conns[Source(s.pcs[c], dir)].taken
  }

  predicate BothReady(s: State, c: ConnId) {
    Ready(s, c, There) && Ready(s, c, Back)
  }

  /** From `s` to `t` the copy in direction `dir` has moved `n` bytes. */
  predicate Moved(s: State, c: ConnId, dir: Direction, n: nat, t: State)
    requires Ready(s, c, dir) && n <= Left(s, c, dir)
  {
    var src, dst := Source(s.pcs[c], dir), Target(s.pcs[c], dir);
    var from := s.conns[src];
    && |t.conns| == |s.conns| && |t.pcs| == |s.pcs| && t.pcs[c].Relaying?
    && t.conns[src].input == from.input && t.conns[src].taken == from.taken + n
    && t.conns[dst].fwd == s.conns[dst].fwd + from.input[from.taken..from.taken + n]
    && CopyOf(t.pcs[c], dir) == Running(CopyOf(s.pcs[c], dir).n + n, [])
  }

  predicate SameRelay(s: State, t: State, c: ConnId)
    requires c < |s.pcs| && s.pcs[c].Relaying?
  {
    && t.table == s.table && |t.pcs| == |s.pcs| && |t.conns| == |s.conns| && t.pcs[c].Relaying?
    && t.pcs[c].s == s.pcs[c].s && t.pcs[c].a == s.pcs[c].a && t.pcs[c].b == s.pcs[c].b
    && forall d :: 0 <= d < |s.conns| ==> t.conns[d].sid == s.conns[d].sid
  }

  /** One turn moves its bytes and leaves the other copy where it was. */
  lemma TurnMoves(s: State, c: ConnId, turn: Turn)
    requires BothReady(s, c) && 0 < turn.size <= Left(s, c, turn.dir)
    ensures var t := Copied(s, c, turn.dir, turn.size, turn.size, false);
            && SameRelay(s, t, c) && BothReady(t, c)
            && Share(turn, There) <= Left(s, c, There) && Share(turn, Back) <= Left(s, c, Back)
            && Moved(s, c, There, Share(turn, There), t) && Moved(s, c, Back, Share(turn, Back), t)
  {
    var o := if turn.dir.There? then Back else There;
    var from, to := s.conns[Source(s.pcs[c], o)], s.conns[Target(s.pcs[c], o)];
    assert from.input[from.taken..from.taken + 0] == [] && to.fwd + [] == to.fwd;
  }

  lemma SameEnds(s: State, t: State, c: ConnId, dir: Direction)
    requires c < |s.pcs| && s.pcs[c].Relaying? && SameRelay(s, t, c)
    ensures Source(t.pcs[c], dir) == Source(s.pcs[c], dir) && Target(t.pcs[c], dir) == Target(s.pcs[c], dir)
  {
  }

  lemma WholeSlice(input: seq<byte>, at: nat, n: nat)
    requires at + n <= |input|
    ensures input[at..at + n][..n] == input[at..at + n]
  {
  }

  /** Two stretches of the same copy are one. */
  lemma MovedTwice(s: State, c: ConnId, dir: Direction, m: nat, mid: State, n: nat, t: State)
    requires Ready(s, c, dir) && m + n <= Left(s, c, dir)
    requires c < |mid.pcs| && SameRelay(s, mid, c) && Ready(mid, c, dir) && Moved(s, c, dir, m, mid)
    requires n <= Left(mid, c, dir) && Moved(mid, c, dir, n, t)
    ensures Moved(s, c, dir, m + n, t)
  {
    SameEnds(s, mid, c, dir);
    var from := s.conns[Source(s.pcs[c], dir)];
    var to := s.conns[Target(s.pcs[c], dir)];
    hide SameRelay, Ready, Source, Target;
    Joined(to.fwd, from.input, from.taken, m, n, n);
    WholeSlice(from.input, from.taken + m, n);
  }

  /** From `s` to `t` the copies have moved `x` bytes there and `y` back, and are between a
      write and a read again. */
  predicate Progress(s: State, c: ConnId, x: nat, y: nat, t: State)
    requires BothReady(s, c)
  {
    && x <= Left(s, c, There) && y <= Left(s, c, Back)
    && c < |t.pcs| && SameRelay(s, t, c) && BothReady(t, c)
    && Moved(s, c, There, x, t) && Moved(s, c, Back, y, t)
  }

  function Share(turn: Turn, dir: Direction): (n: nat) {
    if turn.dir == dir then turn.size else 0
  }

  lemma {:induction false} Interleaved(s0: State, before: seq<Step>, s: State, c: ConnId, turns: seq<Turn>)
    returns (steps: seq<Step>, t: State)
    requires Run(s0, before) == Some(s) && BothReady(s, c)
    requires forall i :: 0 <= i < |turns| ==> turns[i].size > 0
    requires Total(turns, There) <= Left(s, c, There) && Total(turns, Back) <= Left(s, c, Back)
    ensures Run(s0, steps) == Some(t) && Progress(s, c, Total(turns, There), Total(turns, Back), t)
    decreases |turns|
  {
    hide Run, BothReady, Left, Progress;
    if turns == [] {
      steps, t := before, s;
      NoProgress(s, c);
    } else {
      var front, last := turns[..|turns| - 1], turns[|turns| - 1];
      var mid;
      steps, mid := Interleaved(s0, before, s, c, front);
      steps, t := OneMore(s0, steps, s, c, mid, Total(front, There), Total(front, Back), last);
    }
  }

  lemma NoProgress(s: State, c: ConnId)
    requires BothReady(s, c)
    ensures Progress(s, c, 0, 0, s)
  {
    NothingMoved(s, c, There);
    NothingMoved(s, c, Back);
  }

  lemma NothingMoved(s: State, c: ConnId, dir: Direction)
    requires Ready(s, c, dir)
    ensures Moved(s, c, dir, 0, s)
  {
    var from, to := s.conns[Source(s.pcs[c], dir)], s.conns[Target(s.pcs[c], dir)];
    assert from.input[from.taken..from.taken + 0] == [] && to.fwd + [] == to.fwd;
  }

  lemma OneMore(s0: State, before: seq<Step>, s: State, c: ConnId, mid: State, x: nat, y: nat, turn: Turn)
    returns (steps: seq<Step>, t: State)
    requires Run(s0, before) == Some(mid) && BothReady(s, c) && Progress(s, c, x, y, mid) && turn.size > 0
    requires x + Share(turn, There) <= Left(s, c, There) && y + Share(turn, Back) <= Left(s, c, Back)
    ensures Run(s0, steps) == Some(t) && Progress(s, c, x + Share(turn, There), y + Share(turn, Back), t)
  {
    ProgressLeft(s, c, mid, x, y);
    TurnProgress(s, c, mid, x, y, turn);
    NothingCopied(mid, c, turn.dir);
    hide Run, Copied, Progress, Ready;
    t := Copied(mid, c, turn.dir, turn.size, turn.size, false);
    steps := TurnIsTwoSteps(s0, before, mid, c, turn.dir, 0, turn.size, turn.size);
  }

  lemma TurnProgress(s: State, c: ConnId, mid: State, x: nat, y: nat, turn: Turn)
    requires BothReady(s, c) && Progress(s, c, x, y, mid) && BothReady(mid, c) && 0 < turn.size <= Left(mid, c, turn.dir)
    requires x + Share(turn, There) <= Left(s, c, There) && y + Share(turn, Back) <= Left(s, c, Back)
    ensures Progress(s, c, x + Share(turn, There), y + Share(turn, Back),
                     Copied(mid, c, turn.dir, turn.size, turn.size, false))
  {
    hide Share, Copied, Moved, SameRelay, Progress;
    var t := Copied(mid, c, turn.dir, turn.size, turn.size, false);
    TurnMoves(mid, c, turn);
    hide Left, Ready, BothReady;
    OneTurn(s, c, mid, x, y, Share(turn, There), Share(turn, Back), t);
  }

  lemma ProgressLeft(s: State, c: ConnId, mid: State, x: nat, y: nat)
    requires BothReady(s, c) && Progress(s, c, x, y, mid)
    ensures BothReady(mid, c)
    ensures Left(mid, c, There) == Left(s, c, There) - x && Left(mid, c, Back) == Left(s, c, Back) - y
  {
    assert c < |s.pcs| && s.pcs[c].Relaying?;
    hide Moved, SameRelay, Ready, Left;
    LeftAfter(s, c, There, x, mid);
    LeftAfter(s, c, Back, y, mid);
  }

  lemma OneTurn(s: State, c: ConnId, mid: State, x: nat, y: nat, there: nat, back: nat, t: State)
    requires BothReady(s, c) && Progress(s, c, x, y, mid)
    requires x + there <= Left(s, c, There) && y + back <= Left(s, c, Back)
    requires there <= Left(mid, c, There) && back <= Left(mid, c, Back)
    requires SameRelay(mid, t, c) && BothReady(t, c) && Moved(mid, c, There, there, t) && Moved(mid, c, Back, back, t)
    ensures Progress(s, c, x + there, y + back, t)
  {
    assert c < |s.pcs| && s.pcs[c].Relaying? && c < |mid.pcs|;
    hide Ready, Moved, Left, SameRelay;
    SameTwice(s, mid, t, c);
    MovedTwice(s, c, There, x, mid, there, t);
    MovedTwice(s, c, Back, y, mid, back, t);
  }

  lemma SameTwice(s: State, mid: State, t: State, c: ConnId)
    requires c < |s.pcs| && s.pcs[c].Relaying? && SameRelay(s, mid, c) && SameRelay(mid, t, c)
    ensures SameRelay(s, t, c)
  {
  }

  lemma LeftAfter(s: State, c: ConnId, dir: Direction, n: nat, t: State)
    requires Ready(s, c, dir) && n <= Left(s, c, dir)
    requires c < |t.pcs| && SameRelay(s, t, c) && Ready(t, c, dir) && Moved(s, c, dir, n, t)
    ensures Left(t, c, dir) == Left(s, c, dir) - n
  {
  }

  // ---------------------------------------------------------------- the relay

  /** The handler is about to take its peers, both connected. */
  predicate AboutToRelay(s: State, c: ConnId) {
    && At(s, c) && s.pcs[c].Starting?
    && var peers := s.table.store[s.pcs[c].s].peers;
       && |peers| == 2 && peers[0] != peers[1] && peers[0] < |s.conns| && peers[1] < |s.conns|
       && forall i :: 0 <= i < 2 ==> s.conns[peers[i]].open && s.conns[peers[i]].taken <= |s.conns[peers[i]].input|
  }

  function Unread(conn: Conn): seq<byte>
    requires conn.taken <= |conn.input|
  {
    conn.input[conn.taken..]
  }

  /** The relay of session `r` is over: each peer has been sent all the other had sent and
      nothing read yet, the counter has grown by both, both are closed, and so is the
      session, which is not listed under its identifier. */
  predicate Delivered(s: State, c: ConnId, t: State)
    requires AboutToRelay(s, c)
  {
    var r := s.pcs[c].s;
    var a, b := s.table.store[r].peers[0], s.table.store[r].peers[1];
    && |t.conns| == |s.conns| && |t.pcs| == |s.pcs| && t.pcs[c] == Ended(r)
    && t.conns[b].fwd == s.conns[b].fwd + Unread(s.conns[a]) && t.conns[a].fwd == s.conns[a].fwd + Unread(s.conns[b])
    && !t.conns[a].open && !t.conns[b].open
    && |t.table.store| == |s.table.store| && t.table.store[r].closed
    && t.table.store[r].bytes == s.table.store[r].bytes + |Unread(s.conns[a])| + |Unread(s.conns[b])|
    && t.table.sessions == s.table.sessions - {s.conns[c].sid}
  }

  lemma SnapshotReady(s: State, c: ConnId)
    requires AboutToRelay(s, c)
    ensures Enabled(s, Snapshot(c))
    ensures var t := Apply(s, Snapshot(c));
            var r := s.pcs[c].s;
            && BothReady(t, c) && t.table == s.table && t.conns == s.conns && |t.pcs| == |s.pcs|
            && t.pcs[c] == Relaying(r, s.table.store[r].peers[0], s.table.store[r].peers[1], IDLE_COPY, IDLE_COPY)
            && Left(t, c, There) == |Unread(s.conns[s.table.store[r].peers[0]])|
            && Left(t, c, Back) == |Unread(s.conns[s.table.store[r].peers[1]])|
  {
  }

  /** Both copies end: their targets are closed, and the counter has what they wrote. */
  predicate Finished(s: State, c: ConnId, u: State)
    requires BothReady(s, c)
  {
    var pc := s.pcs[c];
    && |u.conns| == |s.conns| && |u.pcs| == |s.pcs|
    && u.pcs[c] == Relaying(pc.s, pc.a, pc.b, Counted, Counted)
    && u.conns[pc.a] == s.conns[pc.a].(open := false) && u.conns[pc.b] == s.conns[pc.b].(open := false)
    && u.conns[c].sid == s.conns[c].sid
    && u.table == AddBytes(AddBytes(s.table, pc.s, pc.there.n), pc.s, pc.back.n)
  }

  lemma FinishOne(s: State, c: ConnId, dir: Direction)
    requires At(s, c) && s.pcs[c].Relaying? && s.pcs[c].a != s.pcs[c].b && s.pcs[c].a < |s.conns| && s.pcs[c].b < |s.conns|
    requires CopyOf(s.pcs[c], dir).Running? && CopyOf(s.pcs[c], dir).held == []
    ensures Enabled(s, Finish(c, dir))
    ensures var u := Apply(s, Finish(c, dir));
            && At(u, c) && |u.conns| == |s.conns| && |u.pcs| == |s.pcs|
            && u.pcs[c] == WithCopy(s.pcs[c], dir, Counted)
            && u.conns == CloseConns(s.conns, {Target(s.pcs[c], dir)})
            && u.table == AddBytes(s.table, s.pcs[c].s, CopyOf(s.pcs[c], dir).n)
  {
  }

  lemma BothFinish(s: State, c: ConnId)
    requires BothReady(s, c)
    ensures Enabled(s, Finish(c, There)) && Enabled(Apply(s, Finish(c, There)), Finish(c, Back))
    ensures Finished(s, c, Apply(Apply(s, Finish(c, There)), Finish(c, Back)))
  {
    FinishOne(s, c, There);
    FinishOne(Apply(s, Finish(c, There)), c, Back);
    hide Apply, Enabled, AddBytes;
  }

  lemma FinishBoth(s0: State, before: seq<Step>, s: State, c: ConnId) returns (steps: seq<Step>, u: State)
    requires Run(s0, before) == Some(s) && BothReady(s, c)
    ensures Run(s0, steps) == Some(u) && Finished(s, c, u)
  {
    BothFinish(s, c);
    hide *;
    var mid := Apply(s, Finish(c, There));
    u := Apply(mid, Finish(c, Back));
    steps := Extend(s0, before, s, Finish(c, There), mid);
    steps := Extend(s0, steps, mid, Finish(c, Back), u);
  }

  /** From `s` to `t` connections have at most been closed. */
  predicate OnlyCloses(s: State, t: State) {
    && |t.conns| == |s.conns| && |t.pcs| == |s.pcs|
    && forall d :: 0 <= d < |s.conns| ==>
         t.conns[d] == s.conns[d].(open := t.conns[d].open) && (t.conns[d].open ==> s.conns[d].open)
  }

  lemma EndStep(u: State, c: ConnId)
    requires At(u, c) && u.pcs[c].Relaying? && u.pcs[c].there.Counted? && u.pcs[c].back.Counted?
    ensures Enabled(u, EndSession(c))
    ensures var t := Apply(u, EndSession(c));
            && OnlyCloses(u, t) && At(t, c) && t.pcs[c] == Forgetting(u.pcs[c].s)
            && t.table == MarkClosed(u.table, u.pcs[c].s)
  {
    hide ClosedWith;
  }

  lemma DropStep(u: State, c: ConnId)
    requires At(u, c) && u.pcs[c].Forgetting?
    ensures Enabled(u, Drop(c))
    ensures var t := Apply(u, Drop(c));
            t.conns == u.conns && |t.pcs| == |u.pcs| && t.pcs[c] == Ended(u.pcs[c].s) && t.table == Forget(u.table, u.conns[c].sid)
  {
  }

  /** The session is closed and its entry deleted. */
  lemma CloseAndDrop(s0: State, before: seq<Step>, u: State, c: ConnId) returns (steps: seq<Step>, t: State)
    requires Run(s0, before) == Some(u) && At(u, c) && u.pcs[c].Relaying? && u.pcs[c].there.Counted? && u.pcs[c].back.Counted?
    ensures Run(s0, steps) == Some(t) && OnlyCloses(u, t) && c < |t.pcs| && t.pcs[c] == Ended(u.pcs[c].s)
    ensures t.table == Forget(MarkClosed(u.table, u.pcs[c].s), u.conns[c].sid)
  {
    EndStep(u, c);
    var mid := Apply(u, EndSession(c));
    DropStep(mid, c);
    t := Apply(mid, Drop(c));
    hide Run, Apply, Enabled, MarkClosed, Forget;
    steps := Extend(s0, before, u, EndSession(c), mid);
    steps := Extend(s0, steps, mid, Drop(c), t);
  }

  lemma DeliveredAt(s: State, c: ConnId, s1: State, s2: State, u: State, t: State)
    requires AboutToRelay(s, c) && BothReady(s1, c)
    requires var r := s.pcs[c].s;
             && s1.table == s.table && s1.conns == s.conns && |s1.pcs| == |s.pcs|
             && s1.pcs[c] == Relaying(r, s.table.store[r].peers[0], s.table.store[r].peers[1], IDLE_COPY, IDLE_COPY)
    requires Progress(s1, c, Left(s1, c, There), Left(s1, c, Back), s2) && Finished(s2, c, u)
    requires OnlyCloses(u, t) && t.pcs[c] == Ended(u.pcs[c].s)
    requires u.pcs[c].s < |u.table.store| && t.table == Forget(MarkClosed(u.table, u.pcs[c].s), u.conns[c].sid)
    ensures Delivered(s, c, t)
  {
    var r := s.pcs[c].s;
    var a, b := s.conns[s.table.store[r].peers[0]], s.conns[s.table.store[r].peers[1]];
    assert a.input[a.taken..a.taken + |Unread(a)|] == Unread(a);
    assert b.input[b.taken..b.taken + |Unread(b)|] == Unread(b);
  }

  /** Snapshot, any interleaving of the two copies' turns that reads everything, the two
      finishes, the closing and the clean-up are a run, and it delivers both directions. */
  lemma RelayIsRun(s0: State, before: seq<Step>, s: State, c: ConnId, turns: seq<Turn>)
    returns (steps: seq<Step>, t: State)
    requires Run(s0, before) == Some(s) && AboutToRelay(s, c)
    requires forall i :: 0 <= i < |turns| ==> turns[i].size > 0
    requires var peers := s.table.store[s.pcs[c].s].peers;
             Total(turns, There) == |Unread(s.conns[peers[0]])| && Total(turns, Back) == |Unread(s.conns[peers[1]])|
    ensures Run(s0, steps) == Some(t) && Delivered(s, c, t)
  {
    SnapshotReady(s, c);
    var s1 := Apply(s, Snapshot(c));
    steps := Extend(s0, before, s, Snapshot(c), s1);
    hide Run, Apply, Enabled;
    var s2, u;
    steps, s2 := Interleaved(s0, steps, s1, c, turns);
    steps, u := FinishBoth(s0, steps, s2, c);
    steps, t := CloseAndDrop(s0, steps, u, c);
    DeliveredAt(s, c, s1, s2, u, t);
  }
}
