/** One relay connection from its handshake to the decision to relay, as the code runs it. */
module RelayHandler {
  import opened Bytes
  import opened Wrappers
  import opened Streams
  import Handshake
  import T = RelayTable
  import RelayServer

  /** How `handleConnection` ends. */
  datatype Admission = BadHandshake | NoRoom | SessionFull | AckLost | Waits | Relays

  predicate Sound(t: T.Table) {
    forall k :: k in t.sessions ==> t.sessions[k] < |t.store|
  }

  /** What of `data` a connection with `room` takes. */
  function Sent(data: seq<byte>, room: nat): seq<byte> {
    data[..Min(|data|, room)]
  }

  /** The client has been sent `reply` as far as it takes it. */
  ghost predicate Told(before: seq<byte>, after: seq<byte>, reply: seq<byte>, room: nat) {
    after == before + Sent(reply, room)
  }

  /** How a connection with a valid handshake for session `id` fares on table `t`, and the
      table after it. `heard` says whether its client takes the whole acknowledgement. */
  function Admit(t: T.Table, id: T.SessionId, key: T.ConnId, heard: bool): (r: (T.Table, Admission))
    requires Sound(t)
  {
    match T.Lookup(t, id)
    case (_, None) => (t, NoRoom)
    case (u, Some(s)) =>
      var (v, joined) := T.AddPeer(u, s, key);
      if !joined then (u, SessionFull)
      else (v, if !heard then AckLost else if |v.store[s].peers| == 2 then Relays else Waits)
  }

  lemma Unadmitted(t: T.Table, id: T.SessionId, key: T.ConnId, heard: bool)
    requires Sound(t)
    ensures var (u, found) := T.Lookup(t, id);
            && (found.None? ==> Admit(t, id, key, heard) == (t, NoRoom))
            && (found.Some? ==>
                  var (v, joined) := T.AddPeer(u, found.value, key);
                  && found.value < |v.store|
                  && Admit(t, id, key, heard) ==
                       if !joined then (u, SessionFull)
                       else (v, if !heard then AckLost else if |v.store[found.value].peers| == 2 then Relays else Waits))
            && (found.None? ==> u == t)
            && (found.Some? ==>
                  && found.value < |u.store|
                  && (!T.AddPeer(u, found.value, key).1 ==>
                        T.AddPeer(u, found.value, key).0 == u && T.CleanUpEmpty(u, found.value, id) == u))
  {
  }

  /** The number of peers of the session listed under `id`, if one is. */
  function PeersOf(t: T.Table, id: T.SessionId): (n: nat)
    requires Sound(t) && id in t.sessions
  {
    |t.store[t.sessions[id]].peers|
  }

  /** Exactly when a handler ends how, and what the table is then. */
  lemma AdmitCases(t: T.Table, id: T.SessionId, key: T.ConnId, heard: bool)
    requires Sound(t)
    ensures var (u, end) := Admit(t, id, key, heard);
            var fits := id in t.sessions || |t.sessions| < t.max;
            var free := id in t.sessions ==> PeersOf(t, id) < 2;
            && (end == NoRoom <==> !fits)
            && (end == SessionFull <==> fits && !free)
            && (end == AckLost <==> fits && free && !heard)
            && (end == Relays <==> heard && id in t.sessions && PeersOf(t, id) == 1)
            && (end == Waits <==> heard && fits && (id in t.sessions ==> PeersOf(t, id) == 0))
            && (end == NoRoom || end == SessionFull ==> u == t)
            && (fits && free ==> Joined(t, id, key, u))
  {
    var made := t.store + [T.SessionRec(id, [], 0, false)];
    assert [] + [key] == [key];
    assert made[|t.store| := T.SessionRec(id, [key], 0, false)] == t.store + [T.SessionRec(id, [key], 0, false)];
  }

  /** The connection has the next slot of the session listed under `id`, which is new if none
      was; everything else is as it was. */
  predicate Joined(t: T.Table, id: T.SessionId, key: T.ConnId, u: T.Table)
    requires Sound(t)
  {
    if id in t.sessions then
      var r := t.sessions[id];
      && u.max == t.max && u.sessions == t.sessions && |u.store| == |t.store|
      && u.store[r] == t.store[r].(peers := t.store[r].peers + [key])
      && forall q :: 0 <= q < |t.store| && q != r ==> u.store[q] == t.store[q]
    else
      && u.max == t.max && u.sessions == t.sessions[id := |t.store|]
      && u.store == t.store + [T.SessionRec(id, [key], 0, false)]
  }

  function Text(s: string): (r: seq<byte>)
    ensures |r| == |s| && forall i :: 0 <= i < |s| && s[i] as int < 0x100 ==> r[i] == s[i] as int
  {
    seq(|s|, i requires 0 <= i < |s| => s[i] as int % 0x100)
  }

  /** The acknowledgement the client is sent. */
  function Reply(end: Admission, why: seq<byte>): seq<byte> {
    match end
    case BadHandshake => Handshake.EncodeAck(Handshake.Rejected(why))
    case NoRoom => Handshake.EncodeAck(Handshake.Rejected(Text("max sessions reached")))
    case SessionFull => Handshake.EncodeAck(Handshake.Rejected(Text("relay: session already has 2 peers")))
    case _ => Handshake.EncodeAck(Handshake.Accepted)
  }

  /** What the client makes of its reply: accepted once its connection has a slot, and else
      the reason. */
  lemma RepliesSay(end: Admission, why: seq<byte>, rest: seq<byte>)
    requires |why| <= 65535
    ensures var got := Handshake.DecodeAck(Reply(end, why) + rest);
            && got.Success?
            && (got.value.0 == Handshake.Accepted <==> end == AckLost || end == Waits || end == Relays)
            && (end == BadHandshake ==> got.value.0 == Handshake.Rejected(why))
            && (end == NoRoom ==> got.value.0 == Handshake.Rejected(Text("max sessions reached")))
            && (end == SessionFull ==> got.value.0 == Handshake.Rejected(Text("relay: session already has 2 peers")))
  {
    Handshake.AckRoundTrip(Handshake.Accepted, rest);
    Handshake.AckRoundTrip(Handshake.Rejected(why), rest);
    Handshake.AckRoundTrip(Handshake.Rejected(Text("max sessions reached")), rest);
    Handshake.AckRoundTrip(Handshake.Rejected(Text("relay: session already has 2 peers")), rest);
  }

  lemma AcceptingReply()
    ensures Reply(AckLost, []) == Reply(Waits, []) == Reply(Relays, []) == Handshake.EncodeAck(Handshake.Accepted)
  {
  }

  method Refuse(conn: RelayServer.Conn, outgoing: Sink, why: seq<byte>)
    modifies conn, outgoing
    ensures !conn.open
    ensures outgoing.written
            == old(outgoing.written) + Sent(Handshake.EncodeAck(Handshake.Rejected(why)), old(outgoing.room))
  {
    var sent := Handshake.WriteHandshakeAck(outgoing, false, why);
    conn.Close();
  }

  method Acknowledge(conn: RelayServer.Conn, outgoing: Sink) returns (sent: bool)
    modifies conn, outgoing
    ensures sent <==> old(outgoing.room) >= 5
    ensures conn.open == (old(conn.open) && sent)
    ensures outgoing.written == old(outgoing.written) + Sent(Handshake.EncodeAck(Handshake.Accepted), old(outgoing.room))
  {
    sent := Handshake.WriteHandshakeAck(outgoing, true, []);
    if !sent {
      conn.Close();
    }
  }

  /** The join, and the clean-up when it is refused. */
  method JoinOrCleanUp(server: RelayServer.Server, conn: RelayServer.Conn, found: RelayServer.Session, id: T.SessionId,
                       outgoing: Sink) returns (joined: bool)
    requires server.Valid() && found in server.made && server.Numbered(conn)
    modifies outgoing, conn, server`table, server`clients, server`sessions, found`peerCount, found`peers
    ensures server.Valid() && found.ref < |old(server.table).store|
    ensures var (u, ok) := T.AddPeer(old(server.table), found.ref, conn.key);
            joined == ok && found.ref < |u.store|
            && server.table == if ok then u else T.CleanUpEmpty(u, found.ref, id)
    ensures if joined then
              outgoing.written == old(outgoing.written) && outgoing.room == old(outgoing.room) && conn.open == old(conn.open)
            else
              && !conn.open
              && outgoing.written == old(outgoing.written) + Sent(Reply(SessionFull, []), old(outgoing.room))
  {
    server.InStore(found);
    assert |T.AddPeer(server.table, found.ref, conn.key).0.store| == |server.table.store|;
    hide RelayServer.Server.Valid, Text, T.AddPeer, T.CleanUpEmpty, Handshake.EncodeAck, Sent;
    joined := server.Join(found, conn);
    if !joined {
      Refuse(conn, outgoing, Text("relay: session already has 2 peers"));
      server.CleanUp(found, id);
    }
  }

  /** The regions up to the join, and the clean-up when it is refused. */
  method Seat(server: RelayServer.Server, conn: RelayServer.Conn, id: T.SessionId, outgoing: Sink)
    returns (found: RelayServer.Session?, joined: bool)
    requires server.Valid() && server.Numbered(conn)
    modifies outgoing, conn, server, server.made
    ensures server.Valid() && Sound(old(server.table))
    ensures found == null <==> T.Lookup(old(server.table), id).1.None?
    ensures found == null <==> id !in old(server.sessions) && |old(server.sessions)| >= server.max
    ensures found == null ==> server.table == old(server.table) && !joined
    ensures found != null ==>
              && found in server.made && Some(found.ref) == T.Lookup(old(server.table), id).1
              && (server.table, joined) == T.AddPeer(T.Lookup(old(server.table), id).0, found.ref, conn.key)
    ensures if joined then
              outgoing.written == old(outgoing.written) && outgoing.room == old(outgoing.room) && conn.open == old(conn.open)
            else
              && !conn.open
              && outgoing.written == old(outgoing.written)
                   + Sent(Reply(if found == null then NoRoom else SessionFull, []), old(outgoing.room))
  {
    server.Linked();
    Unadmitted(server.table, id, conn.key, outgoing.room >= 5);
    hide RelayServer.Server.Valid, Text, T.Lookup, T.AddPeer, T.CleanUpEmpty, Handshake.EncodeAck, Sound, Sent;
    joined := false;
    ghost var full := id !in server.sessions && |server.sessions| >= server.max;
    found := server.Find(id);
    assert found == null <==> full;
    if found == null {
      Refuse(conn, outgoing, Text("max sessions reached"));
      return;
    }
    joined := JoinOrCleanUp(server, conn, found, id, outgoing);
  }

  /** The regions once the connection has a slot. */
  method Proceed(server: RelayServer.Server, conn: RelayServer.Conn, found: RelayServer.Session, outgoing: Sink)
    returns (end: Admission)
    requires server.Valid() && found in server.made
    modifies outgoing, conn
    ensures server.Valid() && found.ref < |server.table.store|
    ensures end == if old(outgoing.room) < 5 then AckLost
                   else if |server.table.store[found.ref].peers| == 2 then Relays else Waits
    ensures outgoing.written == old(outgoing.written) + Sent(Handshake.EncodeAck(Handshake.Accepted), old(outgoing.room))
    ensures conn.open <==> old(conn.open) && end != AckLost
  {
    server.InStore(found);
    hide RelayServer.Server.Valid, Handshake.EncodeAck, Sent;
    var sent := Acknowledge(conn, outgoing);
    if !sent {
      return AckLost;
    }
    var n := server.Count(found);
    return if n == 2 then Relays else Waits;
  }

  /** The regions after the handshake, when no other handler comes between them. The
      session is returned when a relay is to be started. */
  method Enter(server: RelayServer.Server, conn: RelayServer.Conn, id: T.SessionId, outgoing: Sink)
    returns (end: Admission, session: RelayServer.Session?)
    requires server.Valid() && server.Numbered(conn)
    modifies outgoing, conn, server, server.made
    ensures server.Valid() && Sound(old(server.table))
    ensures (server.table, end) == Admit(old(server.table), id, conn.key, old(outgoing.room) >= 5)
    ensures Told(old(outgoing.written), outgoing.written, Reply(end, []), old(outgoing.room))
    ensures conn.open <==> old(conn.open) && (end.Waits? || end.Relays?)
    ensures end == NoRoom <==> id !in old(server.sessions) && |old(server.sessions)| >= server.max
    ensures session != null <==> end.Relays?
    ensures session != null ==> session in server.made
  {
    server.Linked();
    Unadmitted(server.table, id, conn.key, outgoing.room >= 5);
    AcceptingReply();
    ghost var full := id !in server.sessions && |server.sessions| >= server.max;
    hide Admit, RelayServer.Server.Valid, T.Lookup, T.AddPeer, Handshake.EncodeAck, Sound, Sent, Reply;
    var found, joined := Seat(server, conn, id, outgoing);
    assert found == null <==> full;
    if !joined {
      return if found == null then NoRoom else SessionFull, null;
    }
    end := Proceed(server, conn, found, outgoing);
    session := if end == Relays then found else null;
  }

  lemma RefusingReply()
    ensures forall why :: Reply(BadHandshake, why) == Handshake.EncodeAck(Handshake.Rejected(why))
  {
  }

  /** The handshake, the bytes its reader took with it, and those it left are all there were. */
  ghost predicate Accounted(all: seq<byte>, hello: Handshake.Hello, lost: seq<byte>, rest: seq<byte>) {
    |hello.id| <= 65535 && Handshake.EncodeHello(hello) + lost + rest == all
  }

  /** The handshake; a client whose handshake is no good is told why and closed. */
  method Greet(conn: RelayServer.Conn, incoming: Stream, outgoing: Sink, say: Handshake.HelloError -> seq<byte>)
    returns (hello: Result<Handshake.Hello, Handshake.HelloError>, lost: seq<byte>)
    modifies incoming, outgoing, conn
    ensures hello == Handshake.DecodeHello(old(incoming.rest))
    ensures hello.Success? ==>
              && Accounted(old(incoming.rest), hello.value, lost, incoming.rest)
              && conn.open == old(conn.open) && outgoing.written == old(outgoing.written) && outgoing.room == old(outgoing.room)
    ensures hello.Failure? ==>
              && !conn.open
              && Told(old(outgoing.written), outgoing.written,
                      Handshake.EncodeAck(Handshake.Rejected(say(hello.error))), old(outgoing.room))
  {
    hide Sent, Handshake.EncodeAck, Handshake.EncodeHello;
    hello, lost := Handshake.ReadHandshake(incoming);
    if hello.Failure? {
      Refuse(conn, outgoing, say(hello.error));
    }
  }

  /** `handleConnection`. `say` gives the text of a handshake error; `lost` is what the
      throw-away buffer took beyond the handshake, which the relay will not forward. */
  method HandleConnection(server: RelayServer.Server, conn: RelayServer.Conn, incoming: Stream, outgoing: Sink,
                          say: Handshake.HelloError -> seq<byte>)
    returns (end: Admission, session: RelayServer.Session?, lost: seq<byte>)
    requires server.Valid() && server.Numbered(conn)
    modifies incoming, outgoing, conn, server, server.made
    ensures server.Valid() && Sound(old(server.table))
    ensures var hello := Handshake.DecodeHello(old(incoming.rest));
            && (hello.Failure? ==>
                  && end == BadHandshake && server.table == old(server.table)
                  && Told(old(outgoing.written), outgoing.written, Reply(end, say(hello.error)), old(outgoing.room)))
            && (hello.Success? ==>
                  && Accounted(old(incoming.rest), hello.value, lost, incoming.rest)
                  && (server.table, end) == Admit(old(server.table), hello.value.id, conn.key, old(outgoing.room) >= 5)
                  && Told(old(outgoing.written), outgoing.written, Reply(end, []), old(outgoing.room)))
    ensures conn.open <==> old(conn.open) && (end.Waits? || end.Relays?)
    ensures session != null <==> end.Relays?
    ensures end == NoRoom <==>
            var hello := Handshake.DecodeHello(old(incoming.rest));
            hello.Success? && hello.value.id !in old(server.sessions) && |old(server.sessions)| >= server.max
  {
    server.Linked();
    RefusingReply();
    hide RelayServer.Server.Valid, RelayServer.Server.Numbered, Admit, Sent, Sound, Reply;
    hide Handshake.DecodeHello, Handshake.EncodeAck, Accounted, Told;
    var hello;
    hello, lost := Greet(conn, incoming, outgoing, say);
    if hello.Failure? {
      return BadHandshake, null, lost;
    }
    end, session := Enter(server, conn, hello.value.id, outgoing);
  }
}
