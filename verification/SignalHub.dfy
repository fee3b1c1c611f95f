/** The hub's objects. Each locked operation is a method, and each is shown to be the
    function of the same name on the hub's tables. */
module SignalHub {
  import opened Wrappers
  import T = SignalTables

  type ClientId = T.ClientId
  type DeviceId = T.DeviceId

  /** A connected client; `key` is its number in the transition system. */
  class Client {
    const id: ClientId
    const isAgent: bool
    ghost const key: nat
    var device: DeviceId
    var queue: seq<T.Msg>
    var open: bool
    ghost var sent: seq<T.Msg>
    ghost var accepted: seq<T.Msg>
    ghost var taken: seq<T.Msg>

    ghost function Rec(): (r: T.ClientRec)
      reads this
    {
      T.ClientRec(id, isAgent, device, queue, open, sent, accepted, taken)
    }

    constructor (id: ClientId, isAgent: bool, ghost key: nat)
      ensures this.id == id && this.isAgent == isAgent && this.key == key && Rec() == T.NewClient(id, isAgent)
    {
      this.id, this.isAgent, this.key := id, isAgent, key;
      device, queue, open := "", [], true;
      sent, accepted, taken := [], [], [];
    }

    /** A send that does not wait: the message is dropped when the channel is full. */
    method Offer(msg: T.Msg) returns (out: T.Outcome)
      modifies this`queue, this`sent, this`accepted
      ensures out == if !open then T.Panicked else if |old(queue)| < 256 then T.Delivered else T.BufferFull
      ensures queue == if out == T.Delivered then old(queue) + [msg] else old(queue)
      ensures accepted == if out == T.Delivered then old(accepted) + [msg] else old(accepted)
      ensures sent == if open then old(sent) + [msg] else old(sent)
    {
      if !open {
        return T.Panicked;
      }
      sent := sent + [msg];
      if |queue| < T.SEND_BUFFER {
        queue := queue + [msg];
        accepted := accepted + [msg];
        return T.Delivered;
      }
      return T.BufferFull;
    }
  }

  /** `view` is the hub's state in the transition system; `made` lists every client ever
      registered, in order. */
  class Hub {
    var clients: map<ClientId, Client>
    var devices: map<DeviceId, T.DeviceInfo>
    var byDevice: map<DeviceId, Client>
    ghost var made: seq<Client>
    ghost var view: T.Hub

    ghost predicate Valid()
      reads this, made
    {
      && Indexed()
      && |view.recs| == |made|
      && (forall i :: 0 <= i < |made| ==> view.recs[i] == made[i].Rec())
    }

    /** The maps are those of `view`, with numbers for clients. */
    ghost predicate Indexed()
      reads this
    {
      && (forall i :: 0 <= i < |made| ==> made[i].key == i)
      && view.devices == devices
      && view.clients.Keys == clients.Keys
      && (forall k :: k in clients ==> clients[k].key == view.clients[k] < |made| && made[clients[k].key] == clients[k])
      && view.byDevice.Keys == byDevice.Keys
      && (forall k :: k in byDevice ==> byDevice[k].key == view.byDevice[k] < |made| && made[byDevice[k].key] == byDevice[k])
    }

    constructor ()
      ensures Valid() && made == [] && view == T.Hub(map[], map[], map[], [])
    {
      clients, devices, byDevice, made := map[], map[], map[], [];
      view := T.Hub(map[], map[], map[], []);
    }

    method RegisterClient(c: Client)
      requires Valid() && c.key == |made| && c.Rec() == T.NewClient(c.id, c.isAgent)
      modifies this
      ensures Valid() && view == T.RegisterClient(old(view), c.id, c.isAgent) && made == old(made) + [c]
    {
      view := T.RegisterClient(view, c.id, c.isAgent);
      clients := clients[c.id := c];
      made := made + [c];
    }

    method UnregisterClient(c: Client)
      requires Valid() && c in made
      modifies this`clients, this`byDevice, this`devices, this`view, c`open
      ensures Valid() && view == T.UnregisterClient(old(view), c.key)
    {
      view := T.UnregisterClient(view, c.key);
      clients := clients - {c.id};
      if c.isAgent && c.device != "" {
        byDevice := byDevice - {c.device};
        devices := devices - {c.device};
      }
      c.open := false;
    }

    /** A client's own device name is set. */
    method SetDevice(c: Client, d: DeviceId)
      requires Valid() && c in made
      modifies this`view, c`device
      ensures Valid()
      ensures view == old(view).(recs := old(view).recs[c.key := old(view).recs[c.key].(device := d)])
    {
      c.device := d;
      view := view.(recs := view.recs[c.key := c.Rec()]);
    }

    method ListDevice(c: Client, d: DeviceId, info: T.DeviceInfo)
      requires Valid() && c in made
      modifies this`byDevice, this`devices, this`view
      ensures Valid()
      ensures view == old(view).(devices := old(view).devices[d := info], byDevice := old(view).byDevice[d := c.key])
    {
      devices := devices[d := info];
      byDevice := byDevice[d := c];
      view := view.(devices := devices, byDevice := view.byDevice[d := c.key]);
    }

    method RegisterDevice(c: Client, d: DeviceId, info: T.DeviceInfo, now: nat)
      requires Valid() && c in made
      modifies this`byDevice, this`devices, this`view, made`device
      ensures Valid() && view == T.RegisterDevice(old(view), c.key, d, info, now)
    {
      MapsAgree(d);
      hide Indexed, Valid;
      var registered := now;
      if d in devices {
        if d in byDevice {
          SetDevice(byDevice[d], "");
        }
        registered := devices[d].registered;
      }
      SetDevice(c, d);
      ListDevice(c, d, info.(registered := registered, lastSeen := now));
    }

    lemma MapsAgree(d: DeviceId)
      requires Valid()
      ensures devices == view.devices && (d in byDevice <==> d in view.byDevice) && |made| == |view.recs|
      ensures d in byDevice ==> byDevice[d] in made && byDevice[d].key == view.byDevice[d] < |made|
    {
    }

    method UpdateHeartbeat(d: DeviceId, now: nat)
      requires Valid()
      modifies this`devices, this`view
      ensures Valid() && view == T.UpdateHeartbeat(old(view), d, now)
    {
      view := T.UpdateHeartbeat(view, d, now);
      if d in devices {
        devices := devices[d := devices[d].(lastSeen := now)];
      }
    }

    /** A send to a client, seen from the hub. */
    method Offer(c: Client, msg: T.Msg) returns (out: T.Outcome)
      requires Valid() && c in made
      modifies this`view, c`queue, c`sent, c`accepted
      ensures Valid() && (view, out) == T.Offer(old(view), c.key, msg)
    {
      out := c.Offer(msg);
      view := T.Offer(view, c.key, msg).0;
    }

    method RouteToDevice(d: DeviceId, msg: T.Msg) returns (out: T.Outcome)
      requires Valid()
      modifies this`view, made`queue, made`sent, made`accepted
      ensures Valid() && (view, out) == T.RouteToDevice(old(view), d, msg)
    {
      if d !in byDevice {
        return T.NoTarget;
      }
      out := Offer(byDevice[d], msg);
    }

    method RouteToClient(id: ClientId, msg: T.Msg) returns (out: T.Outcome)
      requires Valid()
      modifies this`view, made`queue, made`sent, made`accepted
      ensures Valid() && (view, out) == T.RouteToClient(old(view), id, msg)
    {
      if id !in clients {
        return T.NoTarget;
      }
      out := Offer(clients[id], msg);
    }

    /** The writer's receive: a closed channel gives what it still holds and then nothing. */
    method Receive(c: Client) returns (msg: Option<T.Msg>)
      requires Valid() && c in made && (c.queue != [] || !c.open)
      modifies this`view, c`queue, c`taken
      ensures Valid()
      ensures msg == if old(c.queue) == [] then None else Some(old(c.queue)[0])
      ensures c.queue == if old(c.queue) == [] then [] else old(c.queue)[1..]
      ensures c.taken == old(c.taken) + (if msg == None then [] else [msg.value])
      ensures view == if old(c.queue) == [] then old(view) else T.TakeNext(old(view), c.key)
    {
      if c.queue == [] {
        return None;
      }
      view := T.TakeNext(view, c.key);
      msg := Some(c.queue[0]);
      c.taken := c.taken + [c.queue[0]];
      c.queue := c.queue[1..];
    }
  }
}
