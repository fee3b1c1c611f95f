/** What the relay server's steps do, said of the states before and after. */
module RelaySteps {
  import opened Bytes
  import opened RelayTable
  import opened RelayModel
  import opened RelayControl

  /** A handler is refused exactly when its identifier is not listed and the server is full.
      Otherwise it is to join the listed session, or a new one without peers listed under it. */
  lemma FindIff(s: State, c: ConnId)
    requires Control(s) && Enabled(s, Find(c))
    ensures var t, id := Apply(s, Find(c)), s.conns[c].sid;
            && |t.pcs| == |t.conns| == |s.pcs|
            && (t.pcs[c].Refused? <==> id !in s.table.sessions && |s.table.sessions| >= s.table.max)
            && (t.pcs[c].Refused? ==> t.table == s.table && !t.conns[c].open)
            && (id in s.table.sessions ==> t.table == s.table && t.pcs[c] == Joining(s.table.sessions[id]))
            && (id !in s.table.sessions && |s.table.sessions| < s.table.max ==>
                  && t.pcs[c] == Joining(|s.table.store|)
                  && t.table.sessions == s.table.sessions[id := |s.table.store|]
                  && t.table.store == s.table.store + [SessionRec(id, [], 0, false)])
  {
  }

  /** A join takes the next slot if fewer than two are taken, and changes no other session. */
  lemma JoinIff(s: State, c: ConnId)
    requires Control(s) && Enabled(s, Join(c))
    ensures var t, r := Apply(s, Join(c)), s.pcs[c].s;
            && r < |s.table.store| == |t.table.store| && |t.pcs| == |t.conns| == |s.pcs|
            && t.table.sessions == s.table.sessions
            && (t.pcs[c] == Acking(r) <==> |s.table.store[r].peers| < 2)
            && (|s.table.store[r].peers| < 2 ==> t.table.store[r].peers == s.table.store[r].peers + [c] && t.conns == s.conns)
            && (|s.table.store[r].peers| >= 2 ==> t.pcs[c] == Full(r) && t.table == s.table && !t.conns[c].open)
            && forall q :: 0 <= q < |s.table.store| && q != r ==> t.table.store[q] == s.table.store[q]
  {
  }

  /** The end of a relay closes its session, and its peers unless it was closed before; no
      other connection. */
  lemma EndSessionCloses(s: State, c: ConnId)
    requires Control(s) && Enabled(s, EndSession(c))
    ensures var t, r := Apply(s, EndSession(c)), s.pcs[c].s;
            && r < |s.table.store| == |t.table.store| && t.table.store[r].closed && |t.conns| == |s.conns|
            && t.table.sessions == s.table.sessions
            && (forall q :: 0 <= q < |s.table.store| && q != r ==> t.table.store[q] == s.table.store[q])
            && (forall d :: 0 <= d < |s.conns| ==>
                  t.conns[d] == s.conns[d].(open := s.conns[d].open && !(d in s.table.store[r].peers && !s.table.store[r].closed)))
  {
  }

  /** A connection is closed by a shutdown through a session in the table. */
  predicate ShutOut(s: State, d: ConnId) {
    exists k :: k in s.table.sessions && s.table.sessions[k] < |s.table.store|
                && d in s.table.store[s.table.sessions[k]].peers && !s.table.store[s.table.sessions[k]].closed
  }

  /** A shutdown is always possible. It empties the table, closes every session that was in
      it and no other, and the peers of those that were not closed and of no others. */
  lemma ShutDownCloses(s: State)
    requires Control(s)
    ensures Enabled(s, ShutDown)
    ensures var t := Apply(s, ShutDown);
            && t.table.sessions == map[] && |t.table.store| == |s.table.store| && |t.conns| == |s.conns| && t.pcs == s.pcs
            && (forall k :: k in s.table.sessions ==> t.table.store[s.table.sessions[k]].closed)
            && (forall q :: 0 <= q < |s.table.store| && (forall k :: k in s.table.sessions ==> s.table.sessions[k] != q) ==>
                  t.table.store[q] == s.table.store[q])
            && (forall d :: 0 <= d < |s.conns| ==> t.conns[d] == s.conns[d].(open := s.conns[d].open && !ShutOut(s, d)))
  {
    forall d | 0 <= d < |s.conns| ensures ShutOut(s, d) <==> d in ClosedByShutdown(s.table) {
      if ShutOut(s, d) {
        var k :| k in s.table.sessions && s.table.sessions[k] < |s.table.store|
                 && d in s.table.store[s.table.sessions[k]].peers && !s.table.store[s.table.sessions[k]].closed;
        var r := s.table.sessions[k];
        assert r in s.table.sessions.Values && r < |s.table.store| && d in ClosedWith(s.table.store[r]);
      }
      if d in ClosedByShutdown(s.table) {
        var r :| r in s.table.sessions.Values && r < |s.table.store| && d in ClosedWith(s.table.store[r]);
        var k :| k in s.table.sessions && s.table.sessions[k] == r;
        assert ShutOut(s, d);
      }
    }
    hide Control, ShutOut;
  }

  /** No handler is held up but by the network: each can take its next step, and those that
      read or write can do so in every size the connections allow. */
  lemma HandlersCanStep(s: State, c: ConnId)
    requires Control(s) && c < |s.pcs|
    ensures s.pcs[c].Arrived? ==> Enabled(s, Find(c))
    ensures s.pcs[c].Joining? ==> Enabled(s, Join(c))
    ensures s.pcs[c].Full? ==> Enabled(s, CleanUp(c))
    ensures s.pcs[c].Acking? ==> Enabled(s, Ack(c, 0)) && (s.conns[c].open ==> forall w: nat :: w <= 5 ==> Enabled(s, Ack(c, w)))
    ensures s.pcs[c].Counting? ==> Enabled(s, Count(c))
    ensures s.pcs[c].Starting? ==> Enabled(s, Snapshot(c))
    ensures s.pcs[c].Forgetting? ==> Enabled(s, Drop(c))
    ensures s.pcs[c].Relaying? && s.pcs[c].there.Counted? && s.pcs[c].back.Counted? ==> Enabled(s, EndSession(c))
  {
    assert HandlerInv(s, c);
  }

  lemma CopiesCanStep(s: State, c: ConnId, dir: Direction)
    requires Control(s) && c < |s.pcs| && s.pcs[c].Relaying?
    ensures Source(s.pcs[c], dir) < |s.conns| && Target(s.pcs[c], dir) < |s.conns|
    ensures var from, copy := s.conns[Source(s.pcs[c], dir)], CopyOf(s.pcs[c], dir);
            && (copy.Failed? || (copy.Running? && copy.held == []) ==> Enabled(s, Finish(c, dir)))
            && (copy.Running? && copy.held == [] && from.open ==>
                  forall n: nat :: 0 < n <= |from.input| - from.taken ==> Enabled(s, Take(c, dir, n)))
            && (copy.Running? && copy.held != [] ==>
                  && Enabled(s, Put(c, dir, 0))
                  && (s.conns[Target(s.pcs[c], dir)].open ==> forall n: nat :: n <= |copy.held| ==> Enabled(s, Put(c, dir, n))))
  {
    assert HandlerInv(s, c) && SlotInv(s, s.pcs[c].s);
  }
}
