/**
 * Properties of the registry across handler calls. The server runs its
 * handlers one at a time on the registry (each holds the mutex for its
 * registry step), so a history of the server is a sequence of requests
 * applied in order. A poll is split in two steps, so that other requests can
 * run while it waits on the channel.
 */
module RegistryProperties {
  import opened ClientRegistry

  datatype Request =
    | SubscribeRequest(id: string, now: int)
    /** pollHandler up to the select: the empty-id check and lookup-or-create. */
    | PollBegin(id: string, now: int)
    /** pollHandler's select ending, with the timer winning or not. */
    | PollEnd(id: string, timedOut: bool)
    | PublishRequest(id: string, body: Option<string>, now: int)
    /** One wake-up of cleanUpInactiveClients. */
    | CleanUpTick(now: int)

  function Step(m: Clients, r: Request): Clients
  {
    match r
    case SubscribeRequest(id, now) => Subscribe(m, id, now)
    case PollBegin(id, now) => if id == "" then m else Register(m, id, now)
    case PollEnd(id, timedOut) => Receive(m, id, timedOut).clients
    case PublishRequest(id, body, now) => Publish(m, id, body, now).clients
    case CleanUpTick(now) => Sweep(m, now)
  }

  /** The registry after the requests rs, applied in order to m. */
  function Run(m: Clients, rs: seq<Request>): Clients
    decreases |rs|
  {
    if rs == [] then m else Run(Step(m, rs[0]), rs[1..])
  }

  /** r is one of the two requests that create a client or refresh its last-seen time. */
  predicate Registers(id: string, r: Request)
  {
    (r.SubscribeRequest? && r.id == id) || (r.PollBegin? && r.id == id && id != "")
  }

  /** r cannot take away the event pending for id: no subscribe of id, no delivering receive for id, no sweep. */
  predicate KeepsPending(id: string, r: Request)
  {
    match r
    case SubscribeRequest(other, _) => other != id
    case PollBegin(_, _) => true
    case PollEnd(other, timedOut) => other != id || timedOut
    case PublishRequest(_, _, _) => true
    case CleanUpTick(_) => false
  }

  // ---------------------------------------------------------------------------
  // Single steps

  /** The sweep's comparison is strict: a client seen exactly ClientTimeout ago stays. */
  lemma SweepKeepsBoundary(m: Clients, id: string, now: int)
    requires id in m && now - m[id].lastSeen == ClientTimeout
    ensures id in Sweep(m, now) && Sweep(m, now)[id] == m[id]
  {
  }

  /** A second sweep at the same time removes nothing. */
  lemma SweepIdempotent(m: Clients, now: int)
    ensures Sweep(Sweep(m, now), now) == Sweep(m, now)
  {
  }

  /** A sweep after an earlier one removes what a single later sweep removes: evicted clients do not come back. */
  lemma LaterSweepSubsumesEarlier(m: Clients, earlier: int, later: int)
    requires earlier <= later
    ensures Sweep(Sweep(m, earlier), later) == Sweep(m, later)
  {
  }

  /** A client that has just polled survives a sweep at the same time. */
  lemma PolledClientSurvivesSweep(m: Clients, id: string, now: int)
    ensures id in Sweep(Register(m, id, now), now)
  {
  }

  /** After the sweep evicts a client, its next poll behaves as its first one: a fresh, empty entry and no event. */
  lemma PollAfterEvictionIsFirstTime(m: Clients, id: string, now: int, later: int)
    requires id != "" && id in m && Inactive(m[id], now)
    ensures Poll(Sweep(m, now), id, later).result == TimedOut
    ensures Poll(Sweep(m, now), id, later).clients == Sweep(m, now)[id := NewClient(later)]
  {
  }

  /** A publish followed by a poll of the same client: the poll returns the published message with the publish time. */
  lemma PublishThenPoll(m: Clients, id: string, message: string, t: int, later: int)
    requires id != "" && message != "" && id in m && m[id].mailbox == None
    ensures Publish(m, id, Some(message), t).result == Accepted
    ensures var out := Poll(Publish(m, id, Some(message), t).clients, id, later);
            && out.result == Delivered(Event(message, t))
            && out.clients == m[id := m[id].(lastSeen := later)]
  {
  }

  /** Publishing an event and then receiving it returns exactly that event and restores the registry. */
  lemma PublishThenReceive(m: Clients, id: string, message: string, now: int)
    requires id != "" && message != "" && id in m && m[id].mailbox == None
    ensures Publish(m, id, Some(message), now).result == Accepted
    ensures Receive(Publish(m, id, Some(message), now).clients, id, false)
            == Reply(m, Delivered(Event(message, now)))
  {
  }

  /** A second publish finds the channel full and leaves the first event in place. */
  lemma SecondPublishIsFull(m: Clients, id: string, first: string, second: string, t1: int, t2: int)
    requires id != "" && first != "" && second != "" && id in m && m[id].mailbox == None
    ensures var m1 := Publish(m, id, Some(first), t1).clients;
            && Publish(m1, id, Some(second), t2) == Reply(m1, Full)
            && m1[id].mailbox == Some(Event(first, t1))
  {
  }

  // ---------------------------------------------------------------------------
  // Histories

  /** Only a client's own subscribe or poll creates its entry or moves its last-seen time; publishes, receives and sweeps never do. */
  lemma {:induction false} LastSeenOnlyFromOwnRequests(m: Clients, id: string, rs: seq<Request>)
    requires forall i :: 0 <= i < |rs| ==> !Registers(id, rs[i])
    ensures id in Run(m, rs) ==> id in m && Run(m, rs)[id].lastSeen == m[id].lastSeen
    decreases |rs|
  {
    if rs != [] {
      var m1 := Step(m, rs[0]);
      assert !Registers(id, rs[0]);
      assert id in m1 ==> id in m && m1[id].lastSeen == m[id].lastSeen;
      LastSeenOnlyFromOwnRequests(m1, id, rs[1..]);
    }
  }

  /** A client unknown to the registry stays unknown, and publishing to it is answered NotFound, until it subscribes or polls. */
  lemma {:induction false} UnknownClientStaysUnknown(m: Clients, id: string, rs: seq<Request>, message: string, now: int)
    requires id != "" && message != "" && id !in m
    requires forall i :: 0 <= i < |rs| ==> !Registers(id, rs[i])
    ensures id !in Run(m, rs)
    ensures Publish(Run(m, rs), id, Some(message), now) == Reply(Run(m, rs), NotFound)
  {
    LastSeenOnlyFromOwnRequests(m, id, rs);
  }

  /** A client with no subscribe or poll since it became inactive is removed by the next sweep, whatever else happened. */
  lemma {:induction false} IdleClientIsEvicted(m: Clients, id: string, rs: seq<Request>, now: int)
    requires id in m ==> Inactive(m[id], now)
    requires forall i :: 0 <= i < |rs| ==> !Registers(id, rs[i])
    ensures id !in Sweep(Run(m, rs), now)
  {
    LastSeenOnlyFromOwnRequests(m, id, rs);
  }

  /** A pending event is neither overwritten nor lost by publishes, polls' registration or other clients' traffic. */
  lemma {:induction false} PendingEventKept(m: Clients, id: string, e: Event, rs: seq<Request>)
    requires id in m && m[id].mailbox == Some(e)
    requires forall i :: 0 <= i < |rs| ==> KeepsPending(id, rs[i])
    ensures id in Run(m, rs) && Run(m, rs)[id].mailbox == Some(e)
    decreases |rs|
  {
    if rs != [] {
      var m1 := Step(m, rs[0]);
      assert KeepsPending(id, rs[0]);
      assert id in m1 && m1[id].mailbox == Some(e);
      PendingEventKept(m1, id, e, rs[1..]);
    }
  }

  /** The first event accepted for a client is the one its next delivering poll returns, whatever was published after it. */
  lemma {:induction false} FirstPendingWins(m: Clients, id: string, message: string, now: int, rs: seq<Request>)
    requires id != "" && message != "" && id in m && m[id].mailbox == None
    requires forall i :: 0 <= i < |rs| ==> KeepsPending(id, rs[i])
    ensures var m1 := Publish(m, id, Some(message), now).clients;
            Receive(Run(m1, rs), id, false).result == Delivered(Event(message, now))
  {
    var m1 := Publish(m, id, Some(message), now).clients;
    PendingEventKept(m1, id, Event(message, now), rs);
  }

  /** subscribe("A"), a poll that starts waiting, publish("A", "hi"), and the poll's wait ends with "hi". */
  lemma SubscribePollPublishScenario(t0: int, t1: int, t2: int)
    ensures var m := Run(map[], [SubscribeRequest("A", t0), PollBegin("A", t1),
                                 PublishRequest("A", Some("hi"), t2)]);
            Receive(m, "A", false).result == Delivered(Event("hi", t2))
  {
    var m1 := Subscribe(map[], "A", t0);
    var m2 := Register(m1, "A", t1);
    var m3 := Publish(m2, "A", Some("hi"), t2).clients;
    var rs := [SubscribeRequest("A", t0), PollBegin("A", t1), PublishRequest("A", Some("hi"), t2)];
    assert rs[1..][1..][1..] == [];
    assert Run(map[], rs) == Run(m1, rs[1..]) == Run(m2, rs[1..][1..]) == Run(m3, []);
  }
}
