/** The relay server's objects. Each region executed under a lock is a method, and
    each is shown to be the table function of the same name in the transition system. */
module RelayServer {
  import opened Wrappers
  import T = RelayTable

  type SessionId = T.SessionId

  /** A client connection; `key` is its number in the transition system. */
  class Conn {
    ghost const key: T.ConnId
    var open: bool

    constructor (ghost key: T.ConnId)
      ensures this.key == key && open
    {
      this.key, open := key, true;
    }

    method Close()
      modifies this
      ensures !open
    {
      open := false;
    }
  }

  function NonNil(s: seq<Conn?>): (r: seq<Conn>) {
    if s == [] then []
    else
      var rest := NonNil(s[..|s| - 1]);
      if s[|s| - 1] == null then rest else rest + [s[|s| - 1]]
  }

  class Session {
    const id: SessionId
    ghost const ref: nat
    var peers: seq<Conn?>
    var peerCount: nat
    var bytes: nat
    var closed: bool

    ghost predicate Valid()
      reads `peers, `peerCount
    {
      |peers| == 2 && peerCount <= 2
    }

    /** The slots filled so far, in order. */
    ghost function Slots(): (r: seq<Conn?>)
      requires Valid()
      reads `peers, `peerCount
    {
      peers[..peerCount]
    }

    ghost function Rec(): (r: T.SessionRec)
      requires Valid()
      reads this
    {
      T.SessionRec(id, Keys(Slots()), bytes, closed)
    }

    constructor (id: SessionId, ghost ref: nat)
      ensures Valid() && this.id == id && this.ref == ref
      ensures peers == [null, null] && Rec() == T.SessionRec(id, [], 0, false)
    {
      this.id, this.ref := id, ref;
      peers, peerCount, bytes, closed := [null, null], 0, 0, false;
    }

    method AddPeer(conn: Conn?) returns (ok: bool)
      requires Valid()
      modifies this`peerCount, this`peers
      ensures Valid()
      ensures ok <==> |old(Slots())| < 2
      ensures Slots() == if ok then old(Slots()) + [conn] else old(Slots())
      ensures forall c :: c in peers ==> c in old(peers) || c == conn
    {
      if peerCount >= 2 {
        return false;
      }
      peers := peers[peerCount := conn];
      peerCount := peerCount + 1;
      return true;
    }

    method PeerCount() returns (n: nat)
      requires Valid()
      ensures n == |Slots()|
    {
      return peerCount;
    }

    method GetPeers() returns (result: seq<Conn>)
      requires Valid()
      ensures result == NonNil(Slots())
    {
      result := [];
      for i := 0 to peerCount
        invariant result == NonNil(peers[..i])
      {
        assert peers[..i + 1][..i] == peers[..i];
        if peers[i] != null {
          result := result + [peers[i]];
        }
      }
    }

    method AddBytes(n: nat)
      requires Valid()
      modifies this`bytes
      ensures bytes == old(bytes) + n
    {
      bytes := bytes + n;
    }

    /** The connections `Close` closes: none once the session is closed. */
    ghost function Closing(): (r: set<Conn>)
      reads `peers, `peerCount, `closed
    {
      if closed || |peers| < peerCount then {} else set c | c in NonNil(peers[..peerCount])
    }

    /** Closes the peers the first time it is called, and nothing ever after. */
    method Close()
      requires Valid()
      modifies this`closed, NonNil(Slots())
      ensures closed
      ensures forall i :: 0 <= i < peerCount && peers[i] != null ==> peers[i].open == (old(peers[i].open) && old(closed))
    {
      if closed {
        return;
      }
      closed := true;
      for i := 0 to peerCount
        invariant closed && forall j :: 0 <= j < i && peers[j] != null ==> !peers[j].open
      {
        if peers[i] != null {
          InNonNil(peers[..peerCount], i);
          peers[i].Close();
        }
      }
      ghost var slots := Slots();
      forall c | c in NonNil(slots) ensures !c.open {
        var i := SlotOf(slots, c);
      }
    }
  }

  /** When no slot is nil the peers are the slots, in their order. */
  lemma {:induction false} NonNilAll(s: seq<Conn?>)
    requires forall i :: 0 <= i < |s| ==> s[i] != null
    ensures |NonNil(s)| == |s| && forall i :: 0 <= i < |s| ==> NonNil(s)[i] == s[i]
    decreases |s|
  {
    if s != [] {
      NonNilAll(s[..|s| - 1]);
    }
  }

  lemma {:induction false} InNonNil(s: seq<Conn?>, i: nat)
    requires i < |s| && s[i] != null
    ensures s[i] in NonNil(s)
    decreases |s|
  {
    if i < |s| - 1 {
      InNonNil(s[..|s| - 1], i);
    }
  }

  lemma {:induction false} SlotOf(s: seq<Conn?>, c: Conn) returns (i: nat)
    requires c in NonNil(s)
    ensures i < |s| && s[i] == c
    decreases |s|
  {
    if s[|s| - 1] == c {
      i := |s| - 1;
    } else {
      i := SlotOf(s[..|s| - 1], c);
    }
  }

  /** The numbers of the connections in the slots. */
  ghost function Keys(s: seq<Conn?>): (r: seq<T.ConnId>)
    ensures |r| == |s|
  {
    seq(|s|, i requires 0 <= i < |s| => if s[i] == null then 0 else s[i].key)
  }

  /** The server. `table` is its state in the transition system, `made` lists every
      session object in the order of creation, and `clients` are the connections that
      have joined. */
  class Server {
    const max: int
    var sessions: map<SessionId, Session>
    ghost var made: seq<Session>
    ghost var clients: set<Conn>
    ghost var table: T.Table

    ghost predicate Valid()
      reads this, made
    {
      Mirrors() && Owned()
    }

    /** The filled slots hold clients, and no two clients have the same number. */
    ghost predicate Owned()
      reads `made, `clients, made`peers, made`peerCount
    {
      && (forall i, j :: 0 <= i < |made| && 0 <= j < made[i].peerCount && j < |made[i].peers| ==>
            made[i].peers[j] != null && made[i].peers[j] in clients)
      && (forall c, d :: c in clients && d in clients && c.key == d.key ==> c == d)
    }

    /** The connection's number is no other client's. */
    ghost predicate Numbered(conn: Conn)
      reads `clients
    {
      forall c :: c in clients && c.key == conn.key ==> c == conn
    }

    /** The objects are what `table` says. */
    ghost predicate Mirrors()
      reads `sessions, `made, `table, made
    {
      Indexed() && forall i :: 0 <= i < |made| ==> made[i].Valid() && table.store[i] == made[i].Rec()
    }

    /** The maps agree, with numbers for sessions. */
    ghost predicate Indexed()
      reads `sessions, `made, `table
    {
      && (forall i :: 0 <= i < |made| ==> made[i].ref == i)
      && table.max == max && |table.store| == |made|
      && table.sessions.Keys == sessions.Keys
      && (forall k :: k in sessions ==>
            sessions[k].ref == table.sessions[k] < |made| && made[table.sessions[k]] == sessions[k])
    }

    /** `table` is brought up to date with one session. */
    ghost method Record(session: Session)
      requires session.ref < |made| && made[session.ref] == session && session.Valid() && Owned() && Indexed()
      requires forall i :: 0 <= i < |made| && i != session.ref ==> made[i].Valid() && table.store[i] == made[i].Rec()
      modifies this`table
      ensures Valid() && table == old(table).(store := old(table).store[session.ref := session.Rec()])
    {
      table := table.(store := table.store[session.ref := session.Rec()]);
    }

    constructor (max: int)
      ensures Valid() && table == T.Table(max, map[], [])
    {
      this.max, sessions, made, clients, table := max, map[], [], {}, T.Table(max, map[], []);
    }

    /** The region at the start of a handler: find the session or make it. */
    method Find(id: SessionId) returns (session: Session?)
      requires Valid()
      modifies this
      ensures Valid() && table == T.Lookup(old(table), id).0
      ensures T.Lookup(old(table), id).1 == if session == null then None else Some(session.ref)
      ensures session != null ==> session in made && (session in old(made) || fresh(session))
      ensures clients == old(clients)
      ensures session == null <==> id !in old(sessions) && |old(sessions)| >= max
      ensures id in old(sessions) ==> session == old(sessions)[id] && sessions == old(sessions)
      ensures session == null ==> sessions == old(sessions)
      ensures id !in old(sessions) && session != null ==>
                && fresh(session) && session.id == id && session.Slots() == [] && session.bytes == 0 && !session.closed
                && sessions == old(sessions)[id := session]
    {
      Linked();
      Sizes();
      hide Valid, Session.Slots;
      if id in sessions {
        return sessions[id];
      }
      if |sessions| >= max {
        return null;
      }
      session := Create(id);
    }

    method Create(id: SessionId) returns (session: Session)
      requires Valid() && id !in sessions
      modifies this`made, this`table, this`sessions
      ensures Valid() && fresh(session) && session.id == id && session.ref == |old(table).store|
      ensures session.Valid() && session.Slots() == [] && session.bytes == 0 && !session.closed
      ensures table == old(table).(sessions := old(table).sessions[id := session.ref],
                                   store := old(table).store + [T.SessionRec(id, [], 0, false)])
      ensures made == old(made) + [session] && sessions == old(sessions)[id := session]
    {
      session := new Session(id, |made|);
      assert session.Slots() == [];
      Make(session);
      Enter(session);
    }

    lemma Sizes()
      requires Valid()
      ensures |sessions| == |table.sessions| && table.max == max
    {
      assert |sessions| == |sessions.Keys| == |table.sessions.Keys| == |table.sessions|;
    }

    method Make(session: Session)
      requires Valid() && session.Valid() && session.ref == |made|
      requires session.Rec() == T.SessionRec(session.id, [], 0, false) && session.Slots() == []
      modifies this`made, this`table
      ensures Valid() && made == old(made) + [session]
      ensures table == old(table).(store := old(table).store + [T.SessionRec(session.id, [], 0, false)])
    {
      table := table.(store := table.store + [session.Rec()]);
      made := made + [session];
    }

    method Enter(session: Session)
      requires Valid() && session.ref < |made| && made[session.ref] == session
      modifies this`sessions, this`table
      ensures Valid() && table == old(table).(sessions := old(table).sessions[session.id := session.ref])
      ensures sessions == old(sessions)[session.id := session]
    {
      table := table.(sessions := table.sessions[session.id := session.ref]);
      sessions := sessions[session.id := session];
    }

    /** `session.AddPeer`, seen from the server. */
    method Join(session: Session, conn: Conn) returns (ok: bool)
      requires Valid() && session in made && Numbered(conn)
      modifies this`table, this`clients, session`peerCount, session`peers
      ensures Valid() && (table, ok) == T.AddPeer(old(table), session.ref, conn.key)
      ensures ok <==> |old(session.Slots())| < 2
      ensures session.Slots() == if ok then old(session.Slots()) + [conn] else old(session.Slots())
    {
      ghost var peers := table.store[session.ref].peers;
      InStore(session);
      assert peers == Keys(session.Slots());
      ok := Occupy(session, conn);
      assert Keys(session.Slots()) == if ok then peers + [conn.key] else peers;
      hide Owned, Keys;
      Record(session);
      assert !ok ==> table.store == old(table).store;
    }

    method Occupy(session: Session, conn: Conn) returns (ok: bool)
      requires session.ref < |made| && made[session.ref] == session && Numbered(conn) && Owned()
      requires forall i :: 0 <= i < |made| ==> made[i].ref == i && made[i].Valid()
      modifies this`clients, session`peerCount, session`peers
      ensures Owned() && session.Valid()
      ensures ok <==> |old(session.Slots())| < 2
      ensures session.Slots() == if ok then old(session.Slots()) + [conn] else old(session.Slots())
    {
      ok := session.AddPeer(conn);
      assert forall j :: 0 <= j < session.peerCount ==> session.peers[j] == session.Slots()[j];
      clients := clients + {conn};
    }

    method Count(session: Session) returns (n: nat)
      requires Valid() && session in made
      ensures session.ref < |table.store| && n == |table.store[session.ref].peers|
    {
      n := session.PeerCount();
    }

    /** `session.AddBytes`, seen from the server. */
    method AddBytes(session: Session, n: nat)
      requires Valid() && session in made
      modifies this`table, session`bytes
      ensures Valid() && session.ref < |old(table).store| && table == T.AddBytes(old(table), session.ref, n)
      ensures session.bytes == old(session.bytes) + n
    {
      session.AddBytes(n);
      Record(session);
    }

    /** The region after a refused join. */
    method CleanUp(session: Session, id: SessionId)
      requires Valid() && session in made
      modifies this`sessions, this`table
      ensures Valid() && table == T.CleanUpEmpty(old(table), session.ref, id)
      ensures sessions == if |session.Slots()| == 0 then old(sessions) - {id} else old(sessions)
    {
      var n := session.PeerCount();
      assert |table.store[session.ref].peers| == n;
      if n == 0 {
        Drop(id);
      }
    }

    /** The region after a relay has ended. */
    method Drop(id: SessionId)
      requires Valid()
      modifies this`sessions, this`table
      ensures Valid() && table == T.Forget(old(table), id)
      ensures sessions == old(sessions) - {id} && made == old(made) && clients == old(clients)
    {
      sessions := sessions - {id};
      table := T.Forget(table, id);
    }

    /** For the clients, the connections of a session are those of its record. */
    lemma ClosingKeys(session: Session)
      requires Valid() && session in made
      ensures forall c :: c in clients ==> (c in session.Closing() <==> c.key in T.ClosedWith(session.Rec()))
    {
      InStore(session);
      var slots := session.Slots();
      forall c | c in clients ensures c in session.Closing() <==> c.key in T.ClosedWith(session.Rec()) {
        if c in session.Closing() {
          var i := SlotOf(slots, c);
          assert Keys(slots)[i] == c.key;
        }
        if c.key in T.ClosedWith(session.Rec()) {
          var i :| 0 <= i < |slots| && Keys(slots)[i] == c.key;
          assert session.peers[i] == slots[i] && slots[i] in clients;
          InNonNil(slots, i);
        }
      }
    }

    method EndSession(session: Session)
      requires Valid() && session in made
      modifies this`table, session`closed, clients
      ensures forall c :: c in clients ==> c.open == (old(c.open) && c.key !in T.ClosedWith(old(session.Rec())))
      ensures Valid() && table == T.MarkClosed(old(table), session.ref) && session.closed
      ensures sessions == old(sessions) && made == old(made) && clients == old(clients)
      ensures forall c :: c in clients ==> c.open == (old(c.open) && c !in old(session.Closing()))
      ensures forall i :: 0 <= i < |made| ==>
                made[i].Closing() == if made[i] == session then {} else old(made[i].Closing())
    {
      ClosingKeys(session);
      CloseSession(session);
      hide Owned;
      Record(session);
    }

    /** `session.Close`, seen from the server: only that session's flag and connections change. */
    method CloseSession(session: Session)
      requires Valid() && session in made
      modifies session`closed, clients
      ensures sessions == old(sessions) && made == old(made) && clients == old(clients) && table == old(table)
      ensures Owned()
      ensures forall i :: 0 <= i < |made| ==>
                && made[i].Valid()
                && made[i].Rec() == old(made[i].Rec()).(closed := made[i] == session || old(made[i].closed))
      ensures forall c :: c in clients ==> c.open == (old(c.open) && c !in old(session.Closing()))
      ensures forall i :: 0 <= i < |made| ==>
                made[i].Closing() == if made[i] == session then {} else old(made[i].Closing())
    {
      InStore(session);
      forall c | c in NonNil(session.Slots()) ensures c in clients {
        var i := SlotOf(session.Slots(), c);
        assert session.peers[i] == c;
      }
      ghost var slots := session.Slots();
      hide Owned;
      session.Close();
      forall c | c in clients && c in NonNil(slots) ensures c.open == (old(c.open) && c !in old(session.Closing())) {
        var i := SlotOf(slots, c);
        assert session.peers[i] == c;
      }
    }

    lemma InStore(session: Session)
      requires Valid() && session in made
      ensures session.ref < |table.store| == |made| && made[session.ref] == session
    {
    }

    lemma Linked()
      requires Valid()
      ensures sessions.Keys == table.sessions.Keys
      ensures forall k :: k in sessions ==>
                && sessions[k].ref == table.sessions[k] < |table.store| == |made|
                && made[sessions[k].ref] == sessions[k]
    {
    }

    /** For each session in the table, the connections closing it would close. */
    ghost function Closings(): (r: map<SessionId, set<Conn>>)
      reads `sessions, sessions.Values
    {
      map k | k in sessions :: sessions[k].Closing()
    }

    method EndListed(id: SessionId)
      requires Valid() && id in sessions
      modifies this`table, made`closed, clients
      ensures Valid() && made == old(made) && clients == old(clients) && sessions == old(sessions)
      ensures id in old(table.sessions) && old(table.sessions)[id] < |old(table).store|
      ensures table == T.MarkClosed(old(table), old(table).sessions[id])
      ensures id in old(Closings()) && Closings().Keys == old(Closings()).Keys
      ensures forall k :: k in Closings() ==>
                || Closings()[k] == old(Closings())[k]
                || (Closings()[k] == {} && old(Closings())[k] == old(Closings())[id])
      ensures forall c :: c in clients ==> c.open == (old(c.open) && c !in old(Closings())[id])
    {
      Linked();
      hide Valid, Mirrors, Owned, Session.Closing, Session.Rec, T.MarkClosed;
      EndSession(sessions[id]);
    }

    /** One turn of `Close`. */
    method CloseOne(id: SessionId)
      requires Valid() && id in sessions
      modifies this`sessions, this`table, made`closed, clients
      ensures Valid() && made == old(made) && clients == old(clients) && sessions == old(sessions) - {id}
      ensures id in old(table.sessions) && old(table.sessions)[id] < |old(table).store|
      ensures table == T.Forget(T.MarkClosed(old(table), old(table).sessions[id]), id)
      ensures All(Closings()) <= All(old(Closings()))
      ensures forall c :: c in clients ==>
                && (c.open ==> old(c.open))
                && (c !in All(old(Closings())) ==> c.open == old(c.open))
                && (c in All(old(Closings())) && c !in All(Closings()) ==> !c.open)
    {
      hide Valid, All, Session.Closing;
      ghost var before := Closings();
      EndListed(id);
      Drop(id);
      Remaining(before, Closings(), id);
    }

    /** `Close`: every session in the table is closed and removed, in any order. Of all the
        connections exactly those of sessions not closed before are closed. */
    method Close()
      requires Valid()
      modifies this`sessions, this`table, made`closed, clients
      ensures Valid() && table == T.Shutdown(old(table)) && sessions == map[]
      ensures clients == old(clients)
      ensures forall c :: c in clients ==> c.open == (old(c.open) && c.key !in T.ClosedByShutdown(old(table)))
    {
      AllClosingKeys();
      ghost var before, all := table, All(Closings());
      Linked();
      hide *;
      ClosingStarts(table);
      while sessions != map[]
        invariant Valid() && made == old(made) && clients == old(clients)
        invariant ClosingDown(before, table) && All(Closings()) <= all
        invariant forall c :: c in clients ==>
                    && (c.open ==> old(c.open))
                    && (c !in all ==> c.open == old(c.open))
                    && (c in all && c !in All(Closings()) ==> !c.open)
        decreases sessions.Keys
      {
        Linked();
        var id :| id in sessions;
        ClosesOne(before, table, id);
        CloseOne(id);
      }
      Linked();
      NothingToClose();
      ClosedDown(before, table);
    }

    lemma AllClosingKeys()
      requires Valid()
      ensures forall c :: c in clients ==> (c in All(Closings()) <==> c.key in T.ClosedByShutdown(table))
    {
      Linked();
      forall k | k in sessions
        ensures forall c :: c in clients ==> (c in sessions[k].Closing() <==> c.key in T.ClosedWith(table.store[table.sessions[k]]))
      {
        ClosingKeys(sessions[k]);
      }
      hide Owned, Session.Closing, T.ClosedWith;
      forall c | c in clients ensures c in All(Closings()) <==> c.key in T.ClosedByShutdown(table) {
        if c in All(Closings()) {
          var k :| k in sessions && c in sessions[k].Closing();
          assert table.sessions[k] in table.sessions.Values;
        }
        if c.key in T.ClosedByShutdown(table) {
          var r :| r in table.sessions.Values && r < |table.store| && c.key in T.ClosedWith(table.store[r]);
          var k :| k in table.sessions && table.sessions[k] == r;
          assert c in Closings()[k];
        }
      }
    }

    lemma NothingToClose()
      requires sessions == map[]
      ensures All(Closings()) == {}
    {
      assert Closings() == map[];
    }
  }

  ghost function All(m: map<SessionId, set<Conn>>): set<Conn> {
    set k, c | k in m && c in m[k] :: c
  }

  /** What is left to close after one session has been, under whatever keys it stood. */
  lemma Remaining(before: map<SessionId, set<Conn>>, after: map<SessionId, set<Conn>>, id: SessionId)
    requires id in before && after.Keys == before.Keys - {id}
    requires forall k :: k in after ==> after[k] == before[k] || (after[k] == {} && before[k] == before[id])
    ensures All(after) <= All(before) && before[id] <= All(before)
    ensures forall c :: c in All(before) ==> c in All(after) || c in before[id]
  {
  }

  /** Part of the way through closing every session of `before`. */
  ghost predicate ClosingDown(before: T.Table, now: T.Table) {
    && now.max == before.max && |now.store| == |before.store|
    && (forall k :: k in now.sessions ==> k in before.sessions && now.sessions[k] == before.sessions[k])
    && (forall i :: 0 <= i < |now.store| ==>
          && now.store[i] == before.store[i].(closed := now.store[i].closed)
          && (i !in before.sessions.Values ==> now.store[i] == before.store[i]))
    && (forall k :: k in before.sessions && k !in now.sessions && before.sessions[k] < |now.store| ==>
          now.store[before.sessions[k]].closed)
  }

  lemma ClosingStarts(before: T.Table)
    requires forall k :: k in before.sessions ==> before.sessions[k] < |before.store|
    ensures ClosingDown(before, before)
  {
  }

  lemma ClosesOne(before: T.Table, now: T.Table, id: SessionId)
    requires ClosingDown(before, now) && id in now.sessions && now.sessions[id] < |now.store|
    ensures ClosingDown(before, T.Forget(T.MarkClosed(now, now.sessions[id]), id))
  {
    assert before.sessions[id] in before.sessions.Values;
  }

  lemma ClosedDown(before: T.Table, now: T.Table)
    requires ClosingDown(before, now) && now.sessions == map[]
    requires forall k :: k in before.sessions ==> before.sessions[k] < |before.store|
    ensures now == T.Shutdown(before)
  {
    var t := T.Shutdown(before);
    forall i | 0 <= i < |now.store| ensures now.store[i] == t.store[i] {
      if i in before.sessions.Values {
        var k :| k in before.sessions && before.sessions[k] == i;
      }
    }
  }
}
