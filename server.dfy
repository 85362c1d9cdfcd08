/**
 * The server's shared registry as an object: one map field that the handlers
 * update in place, one method per handler step. Each method is atomic (the
 * RWMutex is not modelled) and is proved to have exactly the effect of the
 * matching function of ClientRegistry.
 */
module Server {
  import opened ClientRegistry

  class Registry {
    /** clientChannels: client identifier to client state. */
    var clients: Clients

    constructor ()
      ensures clients == map[]
    {
      clients := map[];
    }

    /** The read-locked lookup of publishHandler; it changes nothing. */
    method Lookup(id: string) returns (c: Option<ClientState>)
      ensures c.Some? <==> id in clients
      ensures c.Some? ==> c.value == clients[id]
    {
      if id in clients {
        c := Some(clients[id]);
      } else {
        c := None;
      }
    }

    /** subscribeHandler. */
    method Subscribe(id: string, now: int)
      modifies this
      ensures clients == ClientRegistry.Subscribe(old(clients), id, now)
    {
      clients := clients[id := NewClient(now)];
    }

    /** Lookup-or-create under the write lock (pollHandler). */
    method Register(id: string, now: int)
      modifies this
      ensures clients == ClientRegistry.Register(old(clients), id, now)
    {
      if id !in clients {
        clients := clients[id := NewClient(now)];
      } else {
        var client := clients[id];
        clients := clients[id := client.(lastSeen := now)];
      }
    }

    /** The end of pollHandler's select after a wait; timedOut says whether the timer won. */
    method Receive(id: string, timedOut: bool) returns (r: PollResult)
      modifies this
      ensures Reply(clients, r) == ClientRegistry.Receive(old(clients), id, timedOut)
    {
      if !timedOut && id in clients {
        var client := clients[id];
        match client.mailbox
        case Some(event) =>
          clients := clients[id := client.(mailbox := None)];
          r := Delivered(event);
        case None =>
          r := TimedOut;
      } else {
        r := TimedOut;
      }
    }

    /** pollHandler, with nothing arriving during the wait: the timer cannot win over a pending event. */
    method Poll(id: string, now: int) returns (r: PollResult)
      modifies this
      ensures Reply(clients, r) == ClientRegistry.Poll(old(clients), id, now)
    {
      if id == "" {
        return PollBadRequest;
      }
      Register(id, now);
      r := Receive(id, false);
    }

    /** publishHandler: body None stands for a request body that is not JSON or lacks "message". */
    method Publish(id: string, body: Option<string>, now: int) returns (r: PublishResult)
      modifies this
      ensures Reply(clients, r) == ClientRegistry.Publish(old(clients), id, body, now)
    {
      if id == "" {
        return PublishBadRequest;
      }
      if !ValidBody(body) {
        return PublishBadRequest;
      }
      var found := Lookup(id);
      if found.None? {
        return NotFound;
      }
      var client := found.value;
      if client.mailbox.Some? {
        return Full;
      }
      clients := clients[id := client.(mailbox := Some(Event(body.value, now)))];
      r := Accepted;
    }

    /** One pass of cleanUpInactiveClients: visit every client and delete the inactive ones. */
    method CleanUpInactiveClients(now: int)
      modifies this
      ensures clients == Sweep(old(clients), now)
    {
      var unvisited := clients.Keys;
      while unvisited != {}
        invariant unvisited <= old(clients).Keys
        invariant forall id :: id in clients <==>
                    id in old(clients) && (id in unvisited || !Inactive(old(clients)[id], now))
        invariant forall id :: id in clients ==> clients[id] == old(clients)[id]
        decreases unvisited
      {
        var id :| id in unvisited;
        if Inactive(clients[id], now) {
          clients := clients - {id};
        }
        unvisited := unvisited - {id};
      }
    }
  }
}
