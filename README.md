# Arcane server: session and dispatch layer, in Dafny

This project models the session and dispatch layer of the Arcane game server. Players connect
over TCP. Each connection gets a client record with an authentication flag, a display name and
the time of the last message received from it. Inbound traffic is line-framed JSON: each frame
is stripped of trailing line feeds, decoded into a message envelope (a key naming the payload
type, plus the payload), and handed to the callback registered under that key. A heartbeat
monitor wakes every 60 seconds. It kicks every client that has been silent for more than a
minute: it first broadcasts a chat notice, then closes the connection.

Two revisions of this layer live side by side in the repository. Both are modelled, because
their policies differ:

| | newer (`services/`, `models/`) | older (`service/`, `model/`) |
|---|---|---|
| client table key | connection ID (`int`) | remote address (`string`) |
| handler registry | key to (requires-auth flag, callback); dispatch is gated on authentication | key to callback; no gate |
| dispatch error on an inbound frame | only logged | closes the sender's connection |
| lifecycle | `Start` returns the TCP server's start-up error and launches the monitor only on success | a `running` sentinel; misuse (`Config`/`Start` while running, `Stop` or a broadcast while stopped) is fatal |
| kick notice | `Chat` payload, key `"Chat"` | `ChatMsg` payload, key `"ChatMsg"` |

## How the model is built

- **Values.** Messages (`Envelope.Msg`), payloads, configurations and dispatch outcomes are
  datatypes. A payload's Go struct type is `Envelope.Kind`. `reflect.TypeOf(...).Elem().Name()`
  is `Envelope.TypeName`.
- **Mutable objects.** Objects the source updates in place are classes:
  - `Clients.Client`, with `lastMsg` updated in place;
  - the two handler registries, each with its `handlers` map;
  - the two game server services, with their client tables, configuration and sentinel.
- **Transport.** The TCP transport is an event log: the `log: seq<Event>` field of each game
  server. It records:
  - unicast sends, broadcasts and connection closes;
  - callback invocations;
  - listener start and stop;
  - the monitor's kill and stopped hand-shake.
  A connection is an abstract handle `Transport.Conn` with an ID and a remote address.
- **JSON.** `encoding/json` is an abstract `Envelope.Codec`: a partial `marshal` and a partial
  `unmarshal`. `Envelope.Lawful` states what the model assumes of it: its output contains no raw
  line feed, and decoding it gives back the same key. Only the round-trip lemma relies on that
  assumption.
- **Callbacks.** Handler callbacks are opaque identities (`Dispatching.HandlerId`). The error a
  callback returns is a parameter, `outcomes`.
- **Time.** Time is an integer number of nanoseconds passed in by the caller.
- **The monitor's `select` loop.** It runs over a schedule of wake-ups (`Liveness.Wake`): either
  the kill signal or a 60 s timer tick at a given time.
- **Iteration order.** Go's unspecified map iteration order is modelled by `Liveness.NextKey`,
  which picks any unvisited key.
- **Fatal errors and nil dereferences.** `log.Fatal` calls, and dereferences the source
  performs without a check, become preconditions.

## Model

| member | source | states |
|---|---|---|
| Util.SliceContainsString | util/slice.go:6-14 | the scan answers true exactly when the needle occurs in the haystack (so false for an empty haystack); the haystack is a value and is not changed |
| Util.SliceContainsInt | util/slice.go:19-27 | the same membership equivalence for integers |
| Util.GetStrVal | util/val.go:7-13 | an empty value yields the default, a non-empty value is returned unchanged, and the result is non-empty when either argument is |
| Util.GetStrValIdempotent | util/val.go:7-13 | applying the defaulting twice with the same default gives the same result as once |
| Envelope.KindOf | model/msg.go:25 | each payload constructor has its own struct type |
| Envelope.TypeName | model/msg.go:25 | a struct type's name is never empty |
| Envelope.TypeNameInjective | model/msg.go:25 | distinct payload types have distinct names, so a key identifies at most one payload type |
| Envelope.CreateMsg | model/msg.go:23-30 | the payload is stored unchanged, and the key names exactly the payload's own type |
| Envelope.CreateMsgKeys | model/msg.go:23-30 | a ChatMsg payload is keyed "ChatMsg", a PingMsg payload "PingMsg", Chat "Chat", Ping "Ping" |
| Framing.Frame | services/gameserverservice/gameserverservice.go:249-252 | a frame is the JSON text followed by exactly one line feed |
| Framing.FrameHasOneDelimiter | services/gameserverservice/gameserverservice.go:219-222 | a frame built from JSON text with no line feed has exactly one line feed, as its last character |
| Framing.TrimNewlines | services/gameserverservice/gameserverservice.go:102 | the result is a prefix of the frame that does not end in a line feed, and only line feeds were removed |
| Framing.TrimNewlinesUnique | services/gameserverservice/gameserverservice.go:102 | those three properties determine the stripped text uniquely |
| Framing.TrimNewlinesIdempotent | service/gameserverservice/gameserverservice.go:147 | stripping a stripped frame removes nothing more |
| Framing.TrimFrame | service/gameserverservice/gameserverservice.go:147 | stripping undoes framing for any text that does not end in a line feed |
| Framing.FramedMessageDecodes | services/gameserverservice/gameserverservice.go:102-112 | with a lawful codec, a framed message received, stripped and decoded comes back with its key intact, so it reaches the same handler |
| Clients.Client.constructor | models/client.go:26-36 | a new client is unauthenticated, named "Unknown", last heard from at creation time, and holds the given connection handle for good |
| Clients.Client.UpdateLastMsgTimestamp | models/client.go:110-115 | sets the last-message time to now; no other field may change |
| Clients.LastMsgAfter | models/client.go:110-115 | after any series of updates, the last-message time is the creation time or one of the clock readings |
| Clients.LastMsgNeverDecreases | models/client.go:110-115 | under a clock that never goes back, the last-message time after more updates is never earlier |
| Clients.ReceiveMessages | models/client.go:110-115 | a client updated in place once per message ends with the time given by the clock readings; the time seen after each message follows the readings, and under a clock that never goes back that series never decreases |
| Dispatching.Invoke | services/msghandlerservice/msghandlerservice.go:86 | calling a callback invokes exactly that callback and hands back its error unchanged: an error exactly when the callback returned one (the same call at service/msghandlerservice/messagehandlerservice.go:62) |
| MsgHandlers.MsgHandlerService.constructor | services/msghandlerservice/msghandlerservice.go:36-43 | the registry starts empty |
| MsgHandlers.MsgHandlerService.RegisterMsgHandler | services/msghandlerservice/msghandlerservice.go:49-60 | stores (requires-auth, callback) under the key, replacing any earlier entry; other keys are untouched |
| MsgHandlers.MsgHandlerService.ExecuteMsgHandler | services/msghandlerservice/msghandlerservice.go:66-87 | an unknown key gives the not-found error and calls nothing, whatever the client's state; a known key whose entry requires authentication gives the authentication error for an unauthenticated client and calls nothing; a callback runs exactly when the key is known and the gate passes, and then it is that key's callback and its error is returned unchanged |
| MsgHandlers.AuthenticationUnlocks | services/msghandlerservice/msghandlerservice.go:79-86 | an authenticated client always reaches the callback; an unauthenticated one is refused exactly when the entry requires authentication, and otherwise sees the same outcome as an authenticated one |
| MsgHandlers.CreatedMessageRoutes | services/msghandlerservice/msghandlerservice.go:70-86 | a message built by CreateMsg from a payload reaches the callback registered under that payload's type name, once the gate lets the client through |
| LegacyMsgHandlers.MessageHandlerService.constructor | service/msghandlerservice/messagehandlerservice.go:26-33 | the registry starts empty |
| LegacyMsgHandlers.MessageHandlerService.RegisterMsgHandler | service/msghandlerservice/messagehandlerservice.go:39-43 | sets the callback for the key, overwriting any earlier one; other keys are untouched |
| LegacyMsgHandlers.MessageHandlerService.ExecuteMsgHandler | service/msghandlerservice/messagehandlerservice.go:49-63 | an unknown key gives the not-found error and calls nothing; a known key calls exactly its callback and returns the callback's error unchanged |
| LegacyMsgHandlers.NoAuthGate | service/msghandlerservice/messagehandlerservice.go:49-63 | dispatch gives the same outcome for an unauthenticated and an authenticated client |
| LegacyMsgHandlers.CreatedMessageRoutes | service/msghandlerservice/messagehandlerservice.go:53-62 | a message built by CreateMsg reaches the callback registered under its payload's type name |
| Revisions.GatePassedDispatchAgrees | services/msghandlerservice/msghandlerservice.go:79-86 | with the same callbacks under the same keys, the two registries dispatch identically whenever the newer gate passes |
| Revisions.GateRefusalDiffers | service/msghandlerservice/messagehandlerservice.go:49-63 | where the newer gate refuses an unauthenticated client, the older registry still calls the callback |
| Liveness.TimedOut | services/gameserverservice/gameserverservice.go:317-322 | a client has timed out exactly when it has been silent for strictly longer than 60 s (the same test at service/gameserverservice/gameserverservice.go:358-363) |
| Liveness.NextKey | services/gameserverservice/gameserverservice.go:321 | one step of the walk over the client table yields some key not yet visited, in no promised order |
| Liveness.CutoffIsStrict | services/gameserverservice/gameserverservice.go:317-323 | the heartbeat cutoff is strict: 61 s of silence times out, and exactly 60 s (or 30 s) does not |
| GameServer.KickNotice | services/gameserverservice/gameserverservice.go:268-274 | the notice is a Chat message keyed "Chat", authored "Server", coloured "default", reading "Kicking player <name>. (Reason: <reason>)" |
| GameServer.DispatchEvents | services/gameserverservice/gameserverservice.go:133-140 | a dispatch yields only the invoked callback's event and never a close, whatever error it returned |
| GameServer.GameServerService.constructor | services/gameserverservice/gameserverservice.go:46-54 | a new service has no configuration, no clients, no running monitor and no transport activity |
| GameServer.GameServerService.Config | services/gameserverservice/gameserverservice.go:61-63 | stores the configuration without any state check |
| GameServer.GameServerService.Start | services/gameserverservice/gameserverservice.go:68-163 | the table is reset to empty; the listener is started on the configured address; when it reports an error, that error is returned and the monitor is not launched, and otherwise one more monitor is launched (there is no guard against a second `Start`, so the count of running monitors goes up by one) |
| GameServer.GameServerService.Stop | services/gameserverservice/gameserverservice.go:168-191 | the kill signal comes first, then the monitor's stopped acknowledgement, and only then is the listener stopped; the listener's error is returned; one monitor fewer is running |
| GameServer.GameServerService.AddClient | services/gameserverservice/gameserverservice.go:331-339 | files the client under its connection ID, overwriting any earlier entry |
| GameServer.GameServerService.ForgetClient | services/gameserverservice/gameserverservice.go:344-352 | deletes the ID (a no-op when it is absent) and leaves every other entry untouched |
| GameServer.GameServerService.OnNewClient | services/gameserverservice/gameserverservice.go:83-90 | a fresh client for the connection, filed under the connection's ID |
| GameServer.GameServerService.OnClientConnectionClosed | services/gameserverservice/gameserverservice.go:142-144 | forgets the connection's ID |
| GameServer.GameServerService.OnNewMessage | services/gameserverservice/gameserverservice.go:91-141 | the sender's last-message time becomes now, even for an undecodable frame; nothing else about the client changes; an undecodable stripped frame produces no event; a decodable one is dispatched through the registry; only callback invocations are logged, and no connection is closed |
| GameServer.GameServerService.SendMessage | services/gameserverservice/gameserverservice.go:203-228 | sends the serialized message plus one line feed to that client's connection only; a serialization failure is fatal |
| GameServer.GameServerService.SendAllMessage | services/gameserverservice/gameserverservice.go:196-258 | broadcasts the same framed bytes to every connection; a serialization failure is fatal |
| GameServer.GameServerService.KickEvents | services/gameserverservice/gameserverservice.go:264-282 | a kick is exactly two events: a broadcast, then the victim's connection closed |
| GameServer.GameServerService.Kick | services/gameserverservice/gameserverservice.go:264-282 | broadcasts the kick notice first and only then closes the victim's connection |
| GameServer.GameServerService.SweepOf | services/gameserverservice/gameserverservice.go:321-325 | the events of kicking a list of clients: two per client, all broadcasts or closes |
| GameServer.GameServerService.Sweeps | services/gameserverservice/gameserverservice.go:291-298 | the events of a series of sweeps: all broadcasts or closes |
| GameServer.GameServerService.KickIfTimedOut | services/gameserverservice/gameserverservice.go:322-324 | one iteration of the sweep: it kicks exactly when the client has timed out, and otherwise logs nothing |
| GameServer.GameServerService.KickTimedOutClients | services/gameserverservice/gameserverservice.go:309-326 | kicks exactly the clients whose last message is strictly before now minus 60 s, each exactly once and in some order; the log gains exactly their kick events, in that order; the table and every client in it are not changed |
| GameServer.GameServerService.MonitorClientHeartbeats | services/gameserverservice/gameserverservice.go:288-303 | there is one sweep per wake-up before the first kill signal, each of them a timer wake-up; the sweep at each tick kicks exactly the clients timed out at that tick's time, each once; the log gains exactly those sweeps' kick events, in order, then the stopped acknowledgement; the table is not changed; one monitor fewer is running |
| LegacyGameServer.KickNotice | service/gameserverservice/gameserverservice.go:301-307 | the notice is a ChatMsg message keyed "ChatMsg", authored "Server", coloured "default", reading "Kicking player <name>. (Reason: <reason>)" |
| LegacyGameServer.DispatchEvents | service/gameserverservice/gameserverservice.go:174-178 | a dispatch closes the sender's connection exactly when it returned an error, and logs a callback exactly when one was invoked |
| LegacyGameServer.GameServerService.constructor | service/gameserverservice/gameserverservice.go:46-54 | a new service is not running, has no configuration and no clients |
| LegacyGameServer.GameServerService.Config | service/gameserverservice/gameserverservice.go:60-69 | configuring a running service is fatal; otherwise the configuration is stored |
| LegacyGameServer.GameServerService.Start | service/gameserverservice/gameserverservice.go:74-193 | starting a running service is fatal; the table is reset to empty, the listener and the monitor are started, and the service ends running |
| LegacyGameServer.GameServerService.Stop | service/gameserverservice/gameserverservice.go:198-222 | stopping a stopped service is fatal; the order is kill signal, monitor done, listener stopped; then the service is no longer running |
| LegacyGameServer.GameServerService.OnNewClient | service/gameserverservice/gameserverservice.go:97-113 | a fresh client, filed under the connection's remote address |
| LegacyGameServer.GameServerService.OnClientConnectionClosed | service/gameserverservice/gameserverservice.go:115-134 | the address must be present (its entry is read before deletion); it is removed and every other entry is untouched |
| LegacyGameServer.GameServerService.OnNewMessage | service/gameserverservice/gameserverservice.go:136-179 | the sender's last-message time becomes now; an undecodable stripped frame produces no event; a decodable one is dispatched, and a dispatch error closes the sender's connection |
| LegacyGameServer.GameServerService.SendMessage | service/gameserverservice/gameserverservice.go:269-291 | sends the serialized message plus one line feed to that client only, with no running check; a serialization failure is fatal |
| LegacyGameServer.GameServerService.SendAllMessage | service/gameserverservice/gameserverservice.go:237-264 | fatal unless running; broadcasts the framed bytes to every connection |
| LegacyGameServer.GameServerService.KickEvents | service/gameserverservice/gameserverservice.go:297-315 | a kick is exactly two events: a broadcast, then the victim's connection closed |
| LegacyGameServer.GameServerService.Kick | service/gameserverservice/gameserverservice.go:297-315 | broadcasts the notice first (which requires a running service), then closes the victim's connection |
| LegacyGameServer.GameServerService.SweepOf | service/gameserverservice/gameserverservice.go:362-366 | the events of kicking a list of clients: two per client, all broadcasts or closes |
| LegacyGameServer.GameServerService.Sweeps | service/gameserverservice/gameserverservice.go:336-343 | the events of a series of sweeps: all broadcasts or closes |
| LegacyGameServer.GameServerService.KickIfTimedOut | service/gameserverservice/gameserverservice.go:363-365 | one iteration of the sweep: it kicks exactly when the client has timed out |
| LegacyGameServer.GameServerService.KickTimedOutClients | service/gameserverservice/gameserverservice.go:354-367 | kicks exactly the clients whose last message is strictly before now minus 60 s, each exactly once; the log gains exactly their kick events, in that order; the table and every client in it are not changed |
| LegacyGameServer.GameServerService.MonitorClientHeartbeats | service/gameserverservice/gameserverservice.go:331-348 | there is one sweep per wake-up before the first stop signal, each of them a timer wake-up; the sweep at each tick kicks exactly the clients timed out at that tick's time, each once; the log gains exactly those sweeps' kick events, in order, then "done"; the table is not changed |

## Left out

- **Concurrency.** Mutexes, `sync.Once` singletons, goroutines and channels are not modelled.
  - The stop hand-shake appears only as an order of logged events. The monitor runs to
    completion inside `Stop`, on the schedule `[Kill]`.
  - Lock-ordering hazards are not modelled. In the newer revision, `kickTimedOutClients` holds
    the lock while a close may re-enter `forgetClient`. In the older revision,
    `kickTimedOutClients` holds the lock (service/gameserverservice/gameserverservice.go:355)
    while a close may re-enter the connection-closed callback, which takes the same lock
    (line 117); and `Stop` holds the lock while it waits for the monitor, whose sweep takes it.
  - In both revisions `OnNewMessage` reads the table without the lock
    (services/gameserverservice/gameserverservice.go:95 in the newer one). That race is not
    modelled.
  - A second `Start` of the newer revision launches a second monitor, which keeps sweeping after
    a `Stop` has ended the first. The model tracks only how many monitors are running.
- **TCP transport libraries.** These are `packet-server/tcp` and `tcp-server`. They are replaced
  by the event log. A broadcast is one `SendAll` event; there is no per-connection delivery.
- **Logging and the wall clock.** Log output is not modelled. `time.Now()` is a parameter.
- **JSON.** `encoding/json` and mapstructure are foreign code, modelled by the abstract codec.
  A decoded payload is taken from the codec as is. Go would decode `Data` into a generic map;
  the model does not represent that.
- **Singletons.** `Instance()` is the constructor. The singleton behaviour of `sync.Once` is not
  modelled. The game server calls the registry singleton; the model passes the registry to
  `OnNewMessage` as a parameter.
- **Handlers.** The callbacks under `handlers/` and `handler/` are not part of this model. They
  are opaque identities with an abstract error.
- **Broadcast exclusion.** Neither send function takes an exclusion list, so there is none to
  model; `Util.SliceContainsInt` is modelled on its own.
- **Definitions the modelled files do not contain.**
  - No file of the source defines the `model.Client` type the older revision refers to. The older
    revision uses `Clients.Client`, the record of `models/client.go`, in its place.
  - The newer revision refers to `msgmodels.Msg`, `msgmodels.CreateMsg` and `Client.Authed`,
    none of which the modelled files define. The model uses `Envelope.Msg` and
    `Envelope.CreateMsg`, and the authentication gate reads the client's `authenticated` field.
  - `models/client.go` has no `Authed`, `SetAuthed` or `AuthedID` (the last two are called at
    handlers/authhandler.go:38 and :53). So nothing in the modelled record sets `authenticated`
    after creation; the model leaves it as a field that callers may set.
- **Getters.** `Client.TCPClient`, `Username` and `LastMsgTimestamp` are functions with no
  contract. A function cannot change state, and the connection handle is a `const` field.
  `Username` in the source returns a pointer to the record's `username` field
  (models/client.go:57-59), so a caller could rename the client through it; the model returns a
  copy, and that aliasing is not captured. No modelled code writes through the pointer.
- **Log-prefix and string helpers.** `String`, `TCPRemoteAddr`, `TCPLocalAddr` and the
  log-prefix helpers only build log text and are not modelled.
- **The `started` and `stopped` channels.** The newer `Start` and `Stop` return these channels
  from the TCP server. They are not modelled; only the error is.
- **Heartbeat timeout setting.** `Config.ClientHeartbeatTimeoutSecs` is stored and never read;
  the 60 s timeout is hard-coded, as in the source.
- GameServer.GameServerService.Stop: requires a running monitor. The source does not check
  this; without a monitor, its kill signal would block forever.
- GameServer.GameServerService.OnNewMessage: requires the connection to be in the table. The
  source dereferences the entry without checking it.
- LegacyGameServer.GameServerService.OnNewMessage: requires the address to be in the table, for
  the same reason.
- GameServer.GameServerService.OnNewMessage: the callback it invokes is only logged. What the
  callback itself does is not modelled: replies sent (handlers/pinghandler.go:63), broadcasts
  (handlers/chathandler.go:53), client state changed (handlers/authhandler.go:38). The ensures
  describe only what the server itself does with the frame.
- LegacyGameServer.GameServerService.OnNewMessage: the same; its ensures describe only the
  server's own steps, including the close on a dispatch error.
- GameServer.GameServerService.KickTimedOutClients: requires `SweepSafe`: the kick notice of
  every client timed out at `now` can be serialized, because a serialization failure is fatal.
  The list of kicked clients is a ghost result: the source does not return it.
- LegacyGameServer.GameServerService.KickTimedOutClients: the same requirement and the same
  ghost result.
- GameServer.GameServerService.MonitorClientHeartbeats: the schedule of wake-ups must contain a
  kill signal. Without one the source loops forever, which a terminating method cannot express.
  Every tick before it must be `SweepSafe`, as for a single sweep. The clients are not changed
  between ticks; messages arriving while the monitor runs are not interleaved. The per-tick
  kicked lists are a ghost result.
- LegacyGameServer.GameServerService.MonitorClientHeartbeats: the same requirements, for its
  stop signal, and the same ghost result.
- LegacyGameServer.GameServerService.VerifyRunning: its whole content is its precondition. It
  has no result, so it has no row in the table above.
