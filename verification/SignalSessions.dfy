/** The session manager's objects, shown to be the functions of the same name on its
    tables. */
module SignalSessions {
  import opened Wrappers
  import T = SignalTables
  import M = SignalModel
  import opened SignalHub

  type SessionId = T.SessionId

  ghost function EndpointOf(c: Client?): Option<T.Endpoint> {
    if c == null then None else Some(T.Endpoint(c.key, c.id))
  }

  class Session {
    const id: SessionId
    const initiator: Client
    const device: DeviceId
    const protocols: seq<string>
    ghost const ref: nat
    var responder: Client?
    var status: T.Status

    ghost function Rec(): (r: T.SessionRec)
      reads this
    {
      T.SessionRec(id, T.Endpoint(initiator.key, initiator.id), EndpointOf(responder), device, protocols, status)
    }

    constructor (id: SessionId, initiator: Client, device: DeviceId, protocols: seq<string>, ghost ref: nat)
      ensures this.id == id && this.initiator == initiator && this.device == device && this.protocols == protocols
      ensures this.ref == ref && responder == null && status == T.Pending
    {
      this.id, this.initiator, this.device, this.protocols, this.ref := id, initiator, device, protocols, ref;
      responder, status := null, T.Pending;
    }
  }

  /** The numbers of the sessions in a list. */
  ghost function Refs(s: seq<Session>): (r: seq<nat>)
    ensures |r| == |s|
    ensures forall i :: 0 <= i < |s| ==> r[i] == s[i].ref
  {
    seq(|s|, i requires 0 <= i < |s| => s[i].ref)
  }

  /** `view` is the manager's state in the transition system; `store` lists every session
      ever created, in order. */
  class SessionManager {
    var sessions: map<SessionId, Session>
    var byClient: map<ClientId, seq<Session>>
    ghost var store: seq<Session>
    ghost var view: T.Sessions

    ghost predicate Valid()
      reads this, store
    {
      && Indexed()
      && |view.store| == |store|
      && (forall i :: 0 <= i < |store| ==> view.store[i] == store[i].Rec())
    }

    ghost predicate Indexed()
      reads this
    {
      && (forall i :: 0 <= i < |store| ==> store[i].ref == i)
      && view.table.Keys == sessions.Keys
      && (forall k :: k in sessions ==>
            sessions[k].ref == view.table[k] < |store| && store[sessions[k].ref] == sessions[k])
      && view.byClient.Keys == byClient.Keys
      && (forall k :: k in byClient ==> view.byClient[k] == Refs(byClient[k]) && InStore(byClient[k]))
    }

    ghost predicate InStore(s: seq<Session>)
      reads `store
    {
      forall i :: 0 <= i < |s| ==> s[i].ref < |store| && store[s[i].ref] == s[i]
    }

    /** Every endpoint is a client the hub has seen. */
    ghost predicate Linked(made: seq<Client>)
      reads `store, store`responder
    {
      forall s :: s in store ==> s.initiator in made && (s.responder != null ==> s.responder in made)
    }

    constructor ()
      ensures Valid() && store == [] && view == T.Sessions(map[], map[], [])
    {
      sessions, byClient, store, view := map[], map[], [], T.Sessions(map[], map[], []);
    }

    method CreateSession(sid: SessionId, initiator: Client, device: DeviceId, protocols: seq<string>, ghost made: seq<Client>)
      returns (session: Session)
      requires Valid() && Linked(made) && initiator in made
      modifies this
      ensures Valid() && Linked(made)
      ensures view == T.CreateSession(old(view), sid, T.Endpoint(initiator.key, initiator.id), device, protocols)
      ensures fresh(session) && store == old(store) + [session]
    {
      session := new Session(sid, initiator, device, protocols, |store|);
      Add(session);
    }

    method Add(session: Session)
      requires Valid() && session.ref == |store| && session.responder == null && session.status == T.Pending
      modifies this
      ensures Valid() && store == old(store) + [session]
      ensures view == T.CreateSession(old(view), session.id, T.Endpoint(session.initiator.key, session.initiator.id),
                                      session.device, session.protocols)
    {
      store := store + [session];
      view := view.(store := view.store + [session.Rec()]);
      List(session.initiator.id, session);
      Enter(session);
    }

    method Enter(session: Session)
      requires Valid() && session.ref < |store| && store[session.ref] == session
      modifies this`sessions, this`view
      ensures Valid() && view == old(view).(table := old(view).table[session.id := session.ref])
    {
      sessions := sessions[session.id := session];
      view := view.(table := view.table[session.id := session.ref]);
    }

    /** A session is added to a client's list. */
    method List(id: ClientId, session: Session)
      requires Valid() && session.ref < |store| && store[session.ref] == session
      modifies this`byClient, this`view
      ensures Valid() && view == old(view).(byClient := old(view).byClient[id := T.Of(old(view), id) + [session.ref]])
    {
      var listed := if id in byClient then byClient[id] else [];
      assert Refs(listed + [session]) == Refs(listed) + [session.ref];
      assert T.Of(view, id) == Refs(listed);
      byClient := byClient[id := listed + [session]];
      view := view.(byClient := view.byClient[id := T.Of(view, id) + [session.ref]]);
    }

    /** One session's responder and status are set. */
    method Write(session: Session, responder: Client, status: T.Status, ghost made: seq<Client>)
      requires Valid() && session.ref < |store| && store[session.ref] == session
      requires Linked(made) && responder in made
      modifies this`view, session`responder, session`status
      ensures Valid() && Linked(made)
      ensures view == old(view).(store := old(view).store[session.ref :=
                        old(view).store[session.ref].(responder := EndpointOf(responder), status := status)])
    {
      session.responder, session.status := responder, status;
      view := view.(store := view.store[session.ref := session.Rec()]);
    }

    lemma Known(sid: SessionId)
      requires Valid()
      ensures sid in sessions <==> sid in view.table
      ensures sid in sessions ==>
                && sessions[sid].ref == view.table[sid] < |store| == |view.store|
                && store[view.table[sid]] == sessions[sid]
    {
    }

    method AcceptSession(sid: SessionId, responder: Client, ghost made: seq<Client>) returns (session: Session?)
      requires Valid() && Linked(made) && responder in made
      modifies this`byClient, this`view, store`responder, store`status
      ensures Valid() && Linked(made)
      ensures view == T.AcceptSession(old(view), sid, T.Endpoint(responder.key, responder.id))
      ensures session == if sid in sessions then sessions[sid] else null
    {
      Known(sid);
      AcceptIs(view, sid, T.Endpoint(responder.key, responder.id));
      hide Valid, Indexed, InStore, Linked, Session.Rec, T.AcceptSession, T.Of;
      if sid !in sessions {
        return null;
      }
      var found := sessions[sid];
      Write(found, responder, T.Accepted, made);
      List(responder.id, found);
      session := found;
    }

    method SetStatus(sid: SessionId, status: T.Status) returns (session: Session?)
      requires Valid()
      modifies this`view, store`status
      ensures Valid() && view == T.SetStatus(old(view), sid, status)
      ensures session == if sid in sessions then sessions[sid] else null
    {
      Known(sid);
      hide Valid;
      if sid !in sessions {
        return null;
      }
      var found := sessions[sid];
      WriteStatus(found, status);
      session := found;
    }

    method WriteStatus(session: Session, status: T.Status)
      requires Valid() && session.ref < |store| && store[session.ref] == session
      modifies this`view, session`status
      ensures Valid()
      ensures view == old(view).(store := old(view).store[session.ref := old(view).store[session.ref].(status := status)])
    {
      session.status := status;
      view := view.(store := view.store[session.ref := session.Rec()]);
    }

    method RejectSession(sid: SessionId) returns (session: Session?)
      requires Valid()
      modifies this`view, store`status
      ensures Valid() && view == T.SetStatus(old(view), sid, T.Rejected)
      ensures session == if sid in sessions then sessions[sid] else null
    {
      session := SetStatus(sid, T.Rejected);
    }

    method CloseSession(sid: SessionId) returns (session: Session?)
      requires Valid()
      modifies this`view, store`status
      ensures Valid() && view == T.SetStatus(old(view), sid, T.Closed)
      ensures session == if sid in sessions then sessions[sid] else null
    {
      session := SetStatus(sid, T.Closed);
    }

    method GetPeer(sid: SessionId, client: Client, ghost made: seq<Client>) returns (peer: Client?, ok: bool)
      requires Valid() && Linked(made)
      ensures var found := T.GetPeer(view, sid, client.id);
              && ok == found.Some?
              && (peer != null <==> ok && found.value.Some?)
              && (peer != null ==> peer in made && found.value.value == T.Endpoint(peer.key, peer.id))
    {
      if sid !in sessions {
        return null, false;
      }
      var session := sessions[sid];
      if session.initiator.id == client.id {
        return session.responder, true;
      }
      if session.responder != null && session.responder.id == client.id {
        return session.initiator, true;
      }
      return null, false;
    }

    method RouteToPeer(hub: Hub, sid: SessionId, sender: Client, msg: T.Msg) returns (out: T.Outcome)
      requires Valid() && hub.Valid() && Linked(hub.made) && sender in hub.made
      modifies hub`view, hub.made`queue, hub.made`sent, hub.made`accepted
      ensures hub.Valid() && sender.key < |old(hub.view).recs| == |hub.view.recs|
      ensures (M.Core(hub.view, view), out) == M.RouteToPeer(M.Core(old(hub.view), view), sender.key, sid, msg)
    {
      var peer, ok := GetPeer(sid, sender, hub.made);
      KnownTo(hub, sender);
      if !ok || peer == null {
        return T.NoTarget;
      }
      KnownTo(hub, peer);
      hide Hub.Valid, Valid, Linked, T.GetPeer;
      out := hub.Offer(peer, msg);
    }

    lemma KnownTo(hub: Hub, c: Client)
      requires hub.Valid() && c in hub.made
      ensures c.key < |hub.view.recs| && hub.view.recs[c.key].id == c.id
    {
    }

    /** Every session listed for the client is closed and leaves the table; then the list
        itself goes. */
    method RemoveClientSessions(id: ClientId)
      requires Valid()
      modifies this`sessions, this`byClient, this`view, store`status
      ensures Valid() && view == T.RemoveClientSessions(old(view), id)
    {
      ghost var before := view;
      var listed := if id in byClient then byClient[id] else [];
      AllListed(id);
      hide Valid, Indexed, T.RemoveClientSessions, ClosedOne;
      for i := 0 to |listed|
        invariant Valid() && store == old(store) && byClient == old(byClient)
        invariant |before.store| == |store| && view == ClosedAll(before, Refs(listed[..i]))
      {
        ClosedNext(before, listed, i);
        CloseListed(listed[i]);
      }
      assert listed[..|listed|] == listed;
      Unlist(id);
      ClosedAllIs(before, Refs(listed), id);
    }

    lemma AllListed(id: ClientId)
      requires Valid()
      ensures |store| == |view.store| && T.Of(view, id) == Refs(if id in byClient then byClient[id] else [])
      ensures id in byClient ==> InStore(byClient[id])
    {
    }

    /** One turn of the loop: a session is closed and leaves the table. */
    method CloseListed(session: Session)
      requires Valid() && session.ref < |store| && store[session.ref] == session
      modifies this`sessions, this`view, session`status
      ensures Valid() && session.ref < |old(view).store| && view == ClosedOne(old(view), session.ref)
    {
      WriteStatus(session, T.Closed);
      Leave(session);
    }

    method Leave(session: Session)
      requires Valid() && session.ref < |store| && store[session.ref] == session
      modifies this`sessions, this`view
      ensures Valid() && session.ref < |old(view).store|
      ensures view == old(view).(table := old(view).table - {old(view).store[session.ref].id})
    {
      assert view.store[session.ref].id == session.id;
      sessions := sessions - {session.id};
      view := view.(table := view.table - {session.id});
    }

    method Unlist(id: ClientId)
      requires Valid()
      modifies this`byClient, this`view
      ensures Valid() && view == old(view).(byClient := old(view).byClient - {id})
    {
      byClient := byClient - {id};
      view := view.(byClient := view.byClient - {id});
    }
  }

  lemma AcceptIs(sm: T.Sessions, sid: SessionId, who: T.Endpoint)
    requires sid in sm.table ==> sm.table[sid] < |sm.store|
    ensures sid !in sm.table ==> T.AcceptSession(sm, sid, who) == sm
    ensures sid in sm.table ==>
              var r := sm.table[sid];
              var t := sm.(store := sm.store[r := sm.store[r].(responder := Some(who), status := T.Accepted)]);
              T.AcceptSession(sm, sid, who) == t.(byClient := t.byClient[who.id := T.Of(t, who.id) + [r]])
  {
  }

  ghost function ClosedOne(sm: T.Sessions, r: nat): T.Sessions
    requires r < |sm.store|
  {
    sm.(table := sm.table - {sm.store[r].id}, store := sm.store[r := sm.store[r].(status := T.Closed)])
  }

  ghost function ClosedAll(sm: T.Sessions, rs: seq<nat>): (t: T.Sessions)
    ensures |t.store| == |sm.store|
  {
    if rs == [] then sm
    else
      var t := ClosedAll(sm, rs[..|rs| - 1]);
      if rs[|rs| - 1] < |t.store| then ClosedOne(t, rs[|rs| - 1]) else t
  }

  lemma ClosedNext(sm: T.Sessions, listed: seq<Session>, i: nat)
    requires i < |listed| && listed[i].ref < |sm.store|
    ensures ClosedAll(sm, Refs(listed[..i + 1])) == ClosedOne(ClosedAll(sm, Refs(listed[..i])), listed[i].ref)
  {
    assert Refs(listed[..i + 1])[..i] == Refs(listed[..i]);
  }

  /** Closing them one after another is closing them all. */
  lemma {:induction false} ClosedEach(sm: T.Sessions, rs: seq<nat>)
    ensures var t := ClosedAll(sm, rs);
            && t.byClient == sm.byClient
            && forall r :: 0 <= r < |sm.store| ==>
                 t.store[r] == if r in rs then sm.store[r].(status := T.Closed) else sm.store[r]
    decreases |rs|
  {
    if rs != [] {
      var n := |rs| - 1;
      ClosedEach(sm, rs[..n]);
      assert rs == rs[..n] + [rs[n]];
    }
  }

  lemma {:induction false} ClosedLeave(sm: T.Sessions, rs: seq<nat>)
    ensures ClosedAll(sm, rs).table == sm.table - (set i | 0 <= i < |rs| && rs[i] < |sm.store| :: sm.store[rs[i]].id)
    decreases |rs|
  {
    if rs != [] {
      var n := |rs| - 1;
      ClosedEach(sm, rs[..n]);
      ClosedLeave(sm, rs[..n]);
      assert rs == rs[..n] + [rs[n]];
    }
  }

  lemma ClosedAllIs(sm: T.Sessions, rs: seq<nat>, id: ClientId)
    requires rs == T.Of(sm, id)
    ensures var t := ClosedAll(sm, rs);
            t.(byClient := t.byClient - {id}) == T.RemoveClientSessions(sm, id)
  {
    ClosedEach(sm, rs);
    ClosedLeave(sm, rs);
    var t := ClosedAll(sm, rs);
    assert t.store == T.RemoveClientSessions(sm, id).store;
  }
}
