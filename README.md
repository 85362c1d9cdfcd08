# Long-polling client registry, modelled in Dafny

The server keeps a registry of clients in memory. It maps each client identifier to a
`ClientState`. That state holds a single-slot channel of events, which is the client's
mailbox, and the time the client was last seen. Four pieces of code act on the registry:

- the subscribe handler installs a fresh entry;
- the poll handler looks the client up or creates it, refreshes its last-seen time and
  then waits for an event or for the 30-second timer;
- the publish handler looks the client up and tries a non-blocking send into its channel;
- the background cleaner deletes every client idle for more than one minute.

The model has three modules.

- `ClientRegistry` (`client_registry.dfy`) holds the data and one function per handler
  step. A step maps the registry before it to the registry after it and the handler's
  reply. The reply is a result enum in place of the HTTP status:
  `PublishBadRequest | NotFound | Accepted | Full` and
  `PollBadRequest | Delivered(event) | TimedOut`. The channel of capacity 1 is an
  `Option<Event>`. Time is an integer count of nanoseconds, passed in as `now`.
- `Server` (`server.dfy`) holds the class `Registry`. Its `clients` map field is updated
  in place, as the global `clientChannels` map is. It has one method per handler step,
  and each method is proved to have exactly the effect of its `ClientRegistry` function.
  The cleaner's pass is a loop over the keys that deletes as it goes.
- `RegistryProperties` (`registry_properties.dfy`) holds lemmas. Some are about single
  steps. Others are about whole histories: a history is a sequence of requests applied in
  order, and a poll is split into its registration and the end of its wait, so that
  publishes can happen while the poll waits.

Three behaviours of the handlers as main.go has them:
- The cleaner returns no count of removed clients.
- A publish body with an empty `"message"` is rejected like a missing one. The field is
  tagged `binding:"required"`, and that tag refuses the empty string.
- The subscribe handler has no empty-identifier check, so `Subscribe` accepts `""`.

## Model

| member | source | states |
|---|---|---|
| `ClientRegistry.Subscribe` | main.go:56-70 | After subscribe the id is registered with an empty channel and last-seen time `now`. Any earlier entry and its pending event are discarded. Every other client is unchanged |
| `ClientRegistry.Register` | main.go:84-97 | Lookup-or-create. The registered ids become the old ids plus `id`. An absent id gets an empty channel. A present id keeps its pending event. Either way last-seen becomes `now`. No other client changes |
| `ClientRegistry.Receive` | main.go:99-112 | The end of a wait during which other requests ran. The select delivers if and only if the timer did not win and an event is pending. A delivery returns exactly the pending event, empties that channel and changes nothing else, not even last-seen. A timeout leaves the registry untouched |
| `ClientRegistry.Poll` | main.go:77-112 | An empty id is rejected and the registry is left as it was. Otherwise the id is registered with last-seen `now`. A freshly started timer is never ready, so the poll delivers if and only if an event was already pending, and then it returns exactly that event. Either way the client's channel is empty afterwards. Other clients are unchanged |
| `ClientRegistry.Publish` | main.go:116-146 | The four outcomes are exact. BadRequest comes for an empty id or an unbindable body. NotFound comes for an unknown id and creates no entry. Full comes when an event is pending, and the registry is unchanged. Accepted comes when the channel is empty: the event, stamped `now`, is stored and only that mailbox changes. No last-seen time or set of ids ever changes |
| `ClientRegistry.Sweep` | main.go:154-165 | Exactly the clients with `now - lastSeen > ClientTimeout` are removed. Survivors keep their state unchanged |
| `Server.Registry.constructor` | main.go:26 | The registry starts empty |
| `Server.Registry.Lookup` | main.go:132-134 | The read-locked lookup finds the client's state if and only if the id is registered, and changes nothing |
| `Server.Registry.Subscribe` | main.go:62-70 | The in-place insert has exactly the effect of `Subscribe` |
| `Server.Registry.Register` | main.go:84-97 | The in-place lookup-or-create has exactly the effect of `Register` |
| `Server.Registry.Receive` | main.go:102-112 | The in-place receive-or-timeout has exactly the effect and reply of `Receive` |
| `Server.Registry.Poll` | main.go:77-112 | The poll handler, as registration followed by a select that the timer cannot win, has exactly the effect and reply of `Poll` |
| `Server.Registry.Publish` | main.go:116-146 | The publish handler, built as a lookup followed by a try-send, has exactly the effect and reply of `Publish` |
| `Server.Registry.CleanUpInactiveClients` | main.go:154-165 | Deleting while ranging over the keys leaves exactly `Sweep(old clients, now)`, whatever order the keys are visited in |
| `RegistryProperties.SweepKeepsBoundary` | main.go:157 | The comparison is strict: a client seen exactly `ClientTimeout` ago survives, unchanged |
| `RegistryProperties.SweepIdempotent` | main.go:154-165 | A second sweep at the same time removes nothing |
| `RegistryProperties.LaterSweepSubsumesEarlier` | main.go:151-165 | An earlier sweep followed by a later one removes the same as the later one alone, so an evicted client never comes back from a sweep |
| `RegistryProperties.PolledClientSurvivesSweep` | main.go:95 | A client that has just polled is not removed by a sweep at the same time |
| `RegistryProperties.PollAfterEvictionIsFirstTime` | main.go:84-93 | A poll after eviction behaves as a first poll. It creates a fresh entry with an empty channel, last seen at the poll, and it times out |
| `RegistryProperties.PublishThenPoll` | main.go:84-105 | A publish to an empty channel is accepted, and a poll after it returns that message with the publish time. The registry then differs from the one before the publish only in that client's last-seen time |
| `RegistryProperties.PublishThenReceive` | main.go:141-143 | Round trip: a publish to an empty channel is accepted. The next delivering receive returns exactly that message with the publish time, and the registry is back to what it was before the publish |
| `RegistryProperties.SecondPublishIsFull` | main.go:141-146 | A second publish is answered Full and does not replace the first event |
| `RegistryProperties.LastSeenOnlyFromOwnRequests` | main.go:84-97 | In any history without a subscribe or non-empty poll of `id`, the entry is never created and its last-seen time never moves |
| `RegistryProperties.UnknownClientStaysUnknown` | main.go:132-139 | An unknown client stays unknown until it subscribes or polls, and every publish to it meanwhile is NotFound |
| `RegistryProperties.IdleClientIsEvicted` | main.go:154-158 | A client with no subscribe or poll since it became inactive is removed by the next sweep, whatever other requests ran in between |
| `RegistryProperties.PendingEventKept` | main.go:141-146 | A pending event survives any history of publishes, registrations, timeouts and other clients' traffic. It is neither overwritten nor queued behind |
| `RegistryProperties.FirstPendingWins` | main.go:102-105 | After an accepted publish and any such history, the next delivering receive returns the first accepted event |
| `RegistryProperties.SubscribePollPublishScenario` | main.go:102-105 | Subscribe "A", then a poll starts waiting, then "hi" is published: the wait ends delivering "hi" with the publish time |

## Left out

- HTTP routing, parameter extraction, JSON binding and responses are left out, because
  they are transport. Replies are the result enums above, and a publish body is
  `Option<string>`, with `None` for a body that does not bind.
- The `sync.RWMutex` is left out: every handler step is atomic. The `go` statement that
  starts the cleaner and its one-minute `time.Sleep` are left out too: a `CleanUpTick`
  can happen at any point of a history.
- `time.Now` and `time.Since` are not modelled: the time is the parameter `now`. Durations
  are unbounded integers, so int64 overflow of nanosecond times is not modelled.
- The 30-second `time.After` timer is not modelled. An atomic `Poll` always receives an
  event that is already pending. When a wait is split around other requests, the
  `timedOut` flag of `Receive` chooses whether the timer won. An event can be delivered
  only when the flag is false.
- Logging is left out.
- Closing a channel on eviction is left out. In Go, a poll still waiting on an evicted
  client's channel receives the pending event or a zero `Event`. The model's `Receive`
  looks the id up again, finds nothing, and answers `TimedOut`.
- Go's aliasing of the client pointer is left out. A waiting poll in Go keeps the
  channel it found, even if a later subscribe replaces the entry; the model's `Receive`
  uses the current entry for the id.
- A publish that looked a client up just before the cleaner closed its channel makes Go
  send on a closed channel. That race is left out, because handler steps are atomic here.
