/** The relay server's shared tables: the sessions by identifier, and every session
    object ever made. A session object is named by its index in `store`. */
module RelayTable {
  import opened Wrappers
  import Handshake

  type SessionId = Handshake.SessionId
  type ConnId = nat

  datatype SessionRec = SessionRec(id: SessionId, peers: seq<ConnId>, bytes: nat, closed: bool)

  datatype Table = Table(max: int, sessions: map<SessionId, nat>, store: seq<SessionRec>)

  const NEW_PEERS: seq<ConnId> := []

  /** Finds the session, or makes it unless the server is full. */
  function Lookup(t: Table, id: SessionId): (r: (Table, Option<nat>)) {
    if id in t.sessions then (t, Some(t.sessions[id]))
    else if |t.sessions| >= t.max then (t, None)
    else (t.(sessions := t.sessions[id := |t.store|], store := t.store + [SessionRec(id, NEW_PEERS, 0, false)]),
          Some(|t.store|))
  }

  function AddPeer(t: Table, s: nat, c: ConnId): (r: (Table, bool))
    requires s < |t.store|
  {
    if |t.store[s].peers| >= 2 then (t, false)
    else (t.(store := t.store[s := t.store[s].(peers := t.store[s].peers + [c])]), true)
  }

  /** The clean-up after a refused peer. */
  function CleanUpEmpty(t: Table, s: nat, id: SessionId): Table
    requires s < |t.store|
  {
    if |t.store[s].peers| == 0 then Forget(t, id) else t
  }

  function AddBytes(t: Table, s: nat, n: nat): Table
    requires s < |t.store|
  {
    t.(store := t.store[s := t.store[s].(bytes := t.store[s].bytes + n)])
  }

  function MarkClosed(t: Table, s: nat): Table
    requires s < |t.store|
  {
    t.(store := t.store[s := t.store[s].(closed := true)])
  }

  /** The connections `Session.Close` closes: the peers, unless it was closed before. */
  function ClosedWith(rec: SessionRec): set<ConnId> {
    if rec.closed then {} else set p | p in rec.peers
  }

  /** The connections `Server.Close` closes. */
  function ClosedByShutdown(t: Table): set<ConnId> {
    set r, p | r in t.sessions.Values && r < |t.store| && p in ClosedWith(t.store[r]) :: p
  }

  function Forget(t: Table, id: SessionId): Table {
    t.(sessions := t.sessions - {id})
  }

  /** `Server.Close`: every session in the table is closed and dropped. */
  function Shutdown(t: Table): (r: Table)
    ensures |r.store| == |t.store|
  {
    Table(t.max, map[],
          seq(|t.store|, i requires 0 <= i < |t.store| =>
            if i in t.sessions.Values then t.store[i].(closed := true) else t.store[i]))
  }
}
