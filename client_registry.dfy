/**
 * The client registry of the long-polling server as values: every client
 * identifier maps to a capacity-1 mailbox (the buffered channel) and the time
 * the client was last seen. Each handler's effect on the registry is a function
 * from the registry before to the registry after (and the handler's reply).
 * Times are integers in nanoseconds, as Go's time.Duration counts them.
 */
module ClientRegistry {

  datatype Option<+T> = None | Some(value: T)

  /** A published event: its message and the time it was published. */
  datatype Event = Event(message: string, time: int)

  /** A client's state: the event waiting in its channel, if any, and its last poll or subscribe time. */
  datatype ClientState = ClientState(mailbox: Option<Event>, lastSeen: int)

  type Clients = map<string, ClientState>

  const Second: int := 1_000_000_000
  /** Inactivity allowed before the sweep drops a client: one minute. */
  const ClientTimeout: int := 60 * Second

  /** What the publish handler answers: 400, 404, 200 or 503. */
  datatype PublishResult = PublishBadRequest | NotFound | Accepted | Full

  /** What the poll handler answers: 400, 200 with the event, or 204. */
  datatype PollResult = PollBadRequest | Delivered(event: Event) | TimedOut

  /** A handler's effect: the registry afterwards and the reply. */
  datatype Reply<R> = Reply(clients: Clients, result: R)

  /** A freshly created client: empty channel, seen now. */
  function NewClient(now: int): ClientState
  {
    ClientState(None, now)
  }

  /** The sweep's test: strictly more than ClientTimeout has passed since the client was last seen. */
  predicate Inactive(c: ClientState, now: int)
  {
    now - c.lastSeen > ClientTimeout
  }

  /** The publish body binds: the JSON parsed and carried a non-empty "message". */
  predicate ValidBody(body: Option<string>)
  {
    body.Some? && body.value != ""
  }

  /** m' differs from m at most in the mailbox of id: same clients, same last-seen times. */
  ghost predicate OnlyMailboxChanged(m: Clients, m': Clients, id: string)
  {
    && m'.Keys == m.Keys
    && (forall k :: k in m ==> m'[k].lastSeen == m[k].lastSeen)
    && (forall k :: k in m && k != id ==> m'[k] == m[k])
  }

  /** subscribeHandler: install a fresh client under id, replacing whatever was there. */
  function Subscribe(m: Clients, id: string, now: int): (m': Clients)
    ensures m'.Keys == m.Keys + {id}
    ensures m'[id].mailbox == None && m'[id].lastSeen == now
    ensures forall k :: k in m && k != id ==> m'[k] == m[k]
  {
    m[id := NewClient(now)]
  }

  /** The lookup-or-create step of pollHandler, done under the lock. */
  function Register(m: Clients, id: string, now: int): (m': Clients)
    ensures m'.Keys == m.Keys + {id}
    ensures m'[id].lastSeen == now
    ensures m'[id].mailbox == if id in m then m[id].mailbox else None
    ensures forall k :: k in m && k != id ==> m'[k] == m[k]
  {
    if id !in m then
      m[id := NewClient(now)]
    else
      m[id := m[id].(lastSeen := now)]
  }

  /**
   * The end of pollHandler's select, for a wait during which other requests
   * ran. timedOut says whether the 30-second timer won a race with an event
   * that arrived; otherwise a pending event is received. With nothing pending
   * the only way the select ends is the timer, so the answer is TimedOut.
   */
  function Receive(m: Clients, id: string, timedOut: bool): (out: Reply<PollResult>)
    ensures out.result != PollBadRequest
    ensures out.result.Delivered? <==> !timedOut && id in m && m[id].mailbox.Some?
    ensures out.result.Delivered? ==>
              && out.result.event == m[id].mailbox.value
              && OnlyMailboxChanged(m, out.clients, id)
              && out.clients[id].mailbox == None
    ensures out.result.TimedOut? ==> out.clients == m
  {
    if !timedOut && id in m && m[id].mailbox.Some? then
      Reply(m[id := m[id].(mailbox := None)], Delivered(m[id].mailbox.value))
    else
      Reply(m, TimedOut)
  }

  /**
   * pollHandler as a whole, with nothing arriving during the wait: reject an
   * empty id, then lookup-or-create, then select. A freshly started timer is
   * never ready, so an event already pending is always received.
   */
  function Poll(m: Clients, id: string, now: int): (out: Reply<PollResult>)
    ensures out.result == PollBadRequest <==> id == ""
    ensures id == "" ==> out.clients == m
    ensures id != "" ==>
              && out.clients.Keys == m.Keys + {id}
              && out.clients[id].lastSeen == now
              && out.clients[id].mailbox == None
              && (forall k :: k in m && k != id ==> out.clients[k] == m[k])
    ensures out.result.Delivered? <==> id != "" && id in m && m[id].mailbox.Some?
    ensures out.result.Delivered? ==> out.result.event == m[id].mailbox.value
  {
    if id == "" then
      Reply(m, PollBadRequest)
    else
      Receive(Register(m, id, now), id, false)
  }

  /**
   * publishHandler: reject an empty id or a body that does not bind, look the
   * client up (never creating it), then try a non-blocking send of an event
   * stamped now. A full channel keeps its pending event.
   */
  function Publish(m: Clients, id: string, body: Option<string>, now: int): (out: Reply<PublishResult>)
    ensures out.result == PublishBadRequest <==> id == "" || !ValidBody(body)
    ensures out.result == NotFound <==> id != "" && ValidBody(body) && id !in m
    ensures out.result == Full <==> id != "" && ValidBody(body) && id in m && m[id].mailbox.Some?
    ensures out.result == Accepted <==> id != "" && ValidBody(body) && id in m && m[id].mailbox.None?
    ensures out.result == Accepted ==>
              && OnlyMailboxChanged(m, out.clients, id)
              && out.clients[id].mailbox == Some(Event(body.value, now))
    ensures out.result != Accepted ==> out.clients == m
  {
    if id == "" || !ValidBody(body) then
      Reply(m, PublishBadRequest)
    else if id !in m then
      Reply(m, NotFound)
    else if m[id].mailbox.Some? then
      Reply(m, Full)
    else
      Reply(m[id := m[id].(mailbox := Some(Event(body.value, now)))], Accepted)
  }

  /** One pass of cleanUpInactiveClients at time now: drop exactly the inactive clients. */
  function Sweep(m: Clients, now: int): (m': Clients)
    ensures forall id :: id in m' <==> id in m && !Inactive(m[id], now)
    ensures forall id :: id in m' ==> m'[id] == m[id]
  {
    map id | id in m && !Inactive(m[id], now) :: m[id]
  }
}
