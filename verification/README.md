# A verified model of the wost-go publish/subscribe core

wost-go connects IoT things and their consumers over an MQTT bus. This project models the parts of it that hold state,
arithmetic or text formats, and proves what they promise. `dafny verify dfyconfig.toml` checks all of it.

- **Session** (`Session.dfy`, `MqttClient.dfy`, `Backoff.dfy`): the MQTT client that remembers its subscriptions and
  restores them after a reconnect. The session is a state machine over subscribe, unsubscribe, connect, loss,
  reconnect, resubscribe, message and disconnect steps in any order; `MqttClient` is a class with the source's fields,
  and each method is proved to make one step of that machine. The retry loop carries the back-off arithmetic.
- **Replication** (`Things.dfy`, `Emitting.dfy`, `Consuming.dfy`, `Replication.dfy`): from the value store of an
  exposed thing, through its "only if changed" filter and a bus that delivers at least once, to the cache and the
  listeners of a consumed thing.
- **Requests** (`Dispatch.dfy`, `Requests.dfy`): property writes and actions share one topic tree and are dispatched
  to handlers by precedence.
- **Factories** (`ExposedThing.dfy`, `ConsumedThing.dfy`, `Registry.dfy`, `Serving.dfy`, `Delivery.dfy`,
  `Mirroring.dfy`): the classes of both packages, the agreement of the tables of things, bindings and subscriptions,
  whom a factory's session serves over whole runs, the consumer side as one run from connections to caches, and the
  producers joined to it.
- **Text formats** (`Text.dfy`, `Topics.dfy`, `ThingId.dfy`, `Template.dfy`, `TemplateOrders.dfy`, `TxtRecord.dfy`,
  `BearerToken.dfy`): Go's `strings.Split` and `strings.ReplaceAll`, and on top of them topics, thing IDs,
  configuration templates, discovery records and bearer headers.
- **Watcher** (`Watcher.dfy`): the file watcher's resettable 50 ms timer.

The main results:

1. *Reconnecting.* With the callbacks and the removal that the comments of `MqttClient.go` describe, connection losses
   are invisible: in every run, a settled session routes exactly the handlers asked for
   (`Session.ReconnectInvisible`). For the code as it is, the topics served wrongly are computed exactly
   (`Session.WronglyServed`), and after any run one reconnect restores the table if and only if it holds at most one
   handler and no unsubscribed topic, and no Unsubscribe was skipped (`Session.OneReconnect`). When a run panics is
   exact too (`Session.CrashExactly`): the intended code never does without Disconnect, the code as it is needs an
   Unsubscribe (`Session.IntendedNeverCrashes`, `Session.WrittenCrashNeedsUnsubscribe`). As intended, the wish and the
   connection events alone tell when (`Session.IntendedCrashExactly`).
2. *Convergence.* Among any number of things on the bus and under any redelivery, a consumer ends with the JSON of the
   producer's value exactly when the value published last is the value stored last (`Replication.ConvergenceExactly`).
3. *Delivery.* Over every run of adding and destroying things and of connections made, lost, restored and given up, a
   settled session of the intended code delivers a message to the binding of its thing exactly if that thing was made
   since the last Disconnect that met a client, and to nobody else (`Serving.EventsDelivered`,
   `Serving.RequestsDelivered`). The code as it is does so if and only if the thing's filter is neither stale nor a
   phantom (`Serving.EventsDeliveredExactly`). A consumed thing hears exactly its own events that arrive while it is
   listening, once and in order (`Delivery.HearsItsEvents`), and a published value reaches its cache exactly if it is
   listening then; a missed one stays missed (`Mirroring.InSyncExactly`, `Mirroring.HeardOrMissed`).
4. *Topics.* For all IDs and names, which messages a filter matches is a prefix test on levels, so which things are
   isolated from each other is known exactly (`Topics.EventsHeardExactly`, `Topics.LeaksExactly`).
5. *Substitution.* All iteration orders of a flat template give the one simultaneous substitution if no keyword used
   has a value that mentions another keyword, and only then unless every such pair of keywords mention each other and
   themselves (`TemplateOrders.OrderIndependentExactly`).
6. *History.* Caches, notifications and request dispatch are functions of the history (`Consuming.CacheIsLatest`,
   `Consuming.FirstSubscriberWins`, `Dispatch.DispatchByHistory`).
7. *Debouncing.* The timer loop calls the handler once per burst (`Watcher.WatchLoop`, `Watcher.OneCallbackPerBurst`).

## Where the code and its documentation differ

The model follows the code. `Session.Code` also has the intended variant.

- `pkg/mqttclient/MqttClient.go:293` promises a fresh variable per callback; `go.mod:3` asks for Go 1.18, where the
  loop variable is shared, so after a resubscription all callbacks call the entry visited last.
- `pkg/mqttclient/MqttClient.go:371-374` stores nil for an unsubscribed topic, so the next resubscription brings the
  topic back, and removes nothing while there is no paho client. When its nil entry is visited last, every topic is
  routed to nil, and the next message panics at line 301, without any Disconnect.
- `pkg/mqttclient/MqttClient.go:207-222` says that Disconnect unsubscribes from everything; without a client it keeps
  the table, and with one it drops the table while the factories keep their things and bindings, which are never
  subscribed again, however often they are consumed or exposed anew. A resubscription that is still queued then finds
  no client, and panics if something has been subscribed since. The wish it is compared with is that of ending a
  connection: without a client there is nothing to end.
- `pkg/consumedthing/ConsumedThingFactory.go:94,129` begin every connect of a consumer with Disconnect. The first one
  meets no client and keeps what was consumed before; any later one, even after a first that failed, drops the
  subscriptions of all consumed things for good (`Serving.ConnectForgets`, `Serving.FailedConnectForgets`).
- `pkg/consumedthing/ConsumedThingFactory.go:67,74` assign login errors to an inner variable, so Authenticate always
  succeeds and Connect always tries the message bus.
- `pkg/exposedthing/ExposedThing.go:166-176` stores a value before publishing it, so after a failed publish the filter
  suppresses the repetition.
- `pkg/exposedthing/ExposedThing.go:160-165` compares interface values, which panics when both are arrays or both are
  objects.
- `pkg/consumedthing/ConsumedThing.go:286-308` stores a nil handler without a check, unlike ObserveProperty. It shuts
  out every later subscriber of the event, and the first message for it panics at line 116.
- `pkg/thing/InteractionOutput.go:100-103` decodes object values into an inner variable, so the decoded value is nil.
- `pkg/exposedthing/ExposedThingMqttBinding.go:80-81` warns about a missing action name, but tests the thing ID and
  the message type: the empty name passes, and a thing with an empty ID never sees a request.
- `pkg/thing/thingid.go:48-51` says that text that is not a thing ID is used whole as device ID; only the part before
  its first colon is.
- `pkg/discovery/DiscoClient.go:50-51` drops entries with '=' in the value, which section 6.5 of RFC 6763 allows.
- The default timeout of 3 seconds takes 5 seconds to give up.

## Model

| member | source | states |
|---|---|---|
| Session.ReconnectInvisible | pkg/mqttclient/MqttClient.go:278-311 | in every run of the intended code, a settled session routes exactly the latest handler asked for per topic, subscriptions made before the first connect included |
| Session.IntendedInStep | pkg/mqttclient/MqttClient.go:326-375 | the invariant behind it: the remembered table is the table asked for, and routes are part of it |
| Session.WantedExactly | pkg/mqttclient/MqttClient.go:209-375 | the table asked for, event by event: the handler of a topic's latest Subscribe, unless an Unsubscribe or a Disconnect of a client came after it |
| Session.VariantsAgree | pkg/mqttclient/MqttClient.go:278-375 | the code as written differs from the intended one in Unsubscribe and the resubscription only |
| Session.WronglyServed | pkg/mqttclient/MqttClient.go:278-375 | in every run of the code as written, the topics served wrongly when settled are exactly the stale and the phantom ones |
| Session.ReconnectInvisibleExactly | pkg/mqttclient/MqttClient.go:278-375 | so the reconnect is invisible if and only if there is no stale and no phantom topic |
| Session.LastEntryForAll | pkg/mqttclient/MqttClient.go:288-302 | walked with one shared variable, the loop leaves every callback with the entry visited last |
| Session.OwnEntryForEach | pkg/mqttclient/MqttClient.go:293 | walked with a variable per callback, it leaves each with its own entry |
| Session.ResubscribeStep | pkg/mqttclient/MqttClient.go:288-302 | after a resubscription every topic calls the entry visited last, and which topics that makes wrong |
| Session.OneReconnect | pkg/mqttclient/MqttClient.go:288-302 | after any run that leaves a resubscription to be done, it restores the table asked for, in any iteration order, if and only if the remembered table holds one handler at most and no nil entry, and no Unsubscribe was skipped |
| Session.DistinctHandlers | pkg/mqttclient/MqttClient.go:288-302 | with a handler of its own per topic that means at most one topic |
| Session.UnsubscribedTopicRevived | pkg/mqttclient/MqttClient.go:371-374 | a topic unsubscribed while there is a client, connected or not, is routed again after the next connect; if its nil entry is visited last, the next message it matches panics |
| Session.LateResubscriptionCrashes | pkg/mqttclient/MqttClient.go:209-223 | a run in which a queued resubscription finds no client and panics |
| Session.CrashExactly | pkg/mqttclient/MqttClient.go:282-302 | a run of either variant panics if and only if somewhere along it a queued resubscription with a non-empty table finds no client or a message meets a nil route |
| Session.PanicsAre | pkg/mqttclient/MqttClient.go:282-302 | which steps panic, and that no others do |
| Session.IntendedCrashExactly | pkg/mqttclient/MqttClient.go:209-311 | a run of the intended code panics if and only if, by the connection events and the table asked for, a queued resubscription runs while there is no client and the table is not empty |
| Session.IntendedNeverHitsNil | pkg/mqttclient/MqttClient.go:359-375 | in the intended code no message ever meets a nil route |
| Session.IntendedNeverCrashes | pkg/mqttclient/MqttClient.go:282-311 | and without Disconnect no run of it panics |
| Session.WrittenCrashNeedsUnsubscribe | pkg/mqttclient/MqttClient.go:282-375 | the code as written does not panic in a run without Disconnect and Unsubscribe |
| MqttClient.MqttClient.constructor | pkg/mqttclient/MqttClient.go:385-404 | the timeout is positive and the session is the initial one |
| MqttClient.MqttClient.Subscribe | pkg/mqttclient/MqttClient.go:326-356 | the handler is remembered, and routed if the client is up; one Subscribe step of the session |
| MqttClient.MqttClient.Unsubscribe | pkg/mqttclient/MqttClient.go:359-375 | with any client, connected or not, a live entry becomes nil, and its route goes if the client is up; without one nothing happens; one Unsubscribe step |
| MqttClient.MqttClient.Resubscribe | pkg/mqttclient/MqttClient.go:282-311 | the loop whose callbacks share one variable routes every remembered topic to the entry visited last; one Resubscribe step for some iteration order |
| MqttClient.MqttClient.Connect | pkg/mqttclient/MqttClient.go:67-177 | a new client replaces the old one, which is disconnected if it is connected or reconnecting; the new one is connected exactly when an attempt succeeds before the timeout is used up |
| MqttClient.MqttClient.Disconnect | pkg/mqttclient/MqttClient.go:209-223 | client and table are gone if there was a client; one Disconnect step |
| MqttClient.MqttClient.Publish | pkg/mqttclient/MqttClient.go:240-259 | no connection without a client or with one that never connected; otherwise, up or reconnecting, the message is handed over unless the token has an error; the session does not change |
| MqttClient.MqttClient.OnMessage | pkg/mqttclient/MqttClient.go:296-302 | a message calls, per matching filter, what the callback's variable holds now; one Deliver step |
| Backoff.RetryLoop | pkg/mqttclient/MqttClient.go:151-176 | the loop stops at the first success or at the first number of failures that uses up the timeout, and the time accounted for is the time slept |
| Backoff.RetryDurationClosed | pkg/mqttclient/MqttClient.go:152-175 | k failures take k(k+3)/2 seconds up to k = 120 and 121 seconds each after that |
| Backoff.GivesUpOnce | pkg/mqttclient/MqttClient.go:155 | the number of failures after which the loop gives up is unique |
| Backoff.GivesUpInTime | pkg/mqttclient/MqttClient.go:155-175 | it is at most half the timeout rounded up, and the overrun is at most the last wait, min(k, 120) |
| Backoff.DefaultTimeout | pkg/mqttclient/MqttClient.go:386-388 | the default of 3 seconds takes two attempts and 5 seconds |
| Registry.AgreementStep | pkg/consumedthing/ConsumedThingFactory.go:158-207 | a step of a factory or its connection keeps the agreement of things, bindings and subscriptions if and only if it is not a destroy without a client or a disconnect with things |
| Registry.Agreement | pkg/exposedthing/ExposedThingFactory.go:66-102 | over every run between connect and disconnect the three tables agree, unless the session panicked |
| Registry.ConnectedIs | pkg/mqttclient/MqttClient.go:67-177 | a factory's connect keeps things, bindings and remembered subscriptions, and leaves a new client without routes, up with one more queued resubscription if an attempt succeeded |
| Serving.WantedServes | pkg/consumedthing/ConsumedThingFactory.go:90-207 | in either variant, what a factory's steps ask of the session is the filters of the things made since the last Disconnect that met a client, each with its binding |
| Serving.Delivered | pkg/mqttclient/MqttClient.go:278-375 | in every run of the intended code, at every moment of an up connection, a message to a thing takes its route, if that is there, and no other; once settled the route is there exactly for those things |
| Serving.EventsDelivered | pkg/consumedthing/ConsumedThingFactory.go:90-207 | a settled session of the intended code delivers an event to the binding of its thing if that was consumed since the last Disconnect that met a client, and to nobody else; disconnects and failed connects included |
| Serving.RequestsDelivered | pkg/exposedthing/ExposedThingFactory.go:50-102 | the same for requests to exposed things |
| Serving.EventsDeliveredExactly | pkg/mqttclient/MqttClient.go:278-375 | in every run of the code as written, a settled session does so for a thing if and only if its event filter is neither stale nor a phantom |
| Serving.RequestsDeliveredExactly | pkg/mqttclient/MqttClient.go:278-375 | the same for requests |
| Serving.ConnectForgets | pkg/consumedthing/ConsumedThingFactory.go:90-142 | a consumer's connect keeps what is subscribed if there is no client yet and drops all of it otherwise; the things stay |
| Serving.FailedConnectForgets | pkg/consumedthing/ConsumedThingFactory.go:90-142 | Consume, a connect that fails and one that succeeds end settled, in either variant, with the thing there and nothing routed |
| Registry.EventReachesItsBinding | pkg/consumedthing/ConsumedThingProtocolBinding.go:86-97 | with the routes of the bindings, the filters that match an event are that of its thing |
| Registry.RequestReachesItsBinding | pkg/exposedthing/ExposedThingMqttBinding.go:90-100 | the same for requests |
| Registry.EventsMisroutedAfterReconnect | pkg/mqttclient/MqttClient.go:288-302 | in the code as written, after a reconnect the events of every thing go to the binding visited last |
| Registry.NeverResubscribed | pkg/consumedthing/ConsumedThingFactory.go:158-207 | a thing that lives through a disconnect is not subscribed or routed again in any later run that does not destroy it, in either variant |
| Delivery.ListeningWhenSettled | pkg/consumedthing/ConsumedThingProtocolBinding.go:86-97 | over every run of the intended code, a settled session listens for exactly the things consumed since the last Disconnect that met a client |
| Delivery.HearsItsEvents | pkg/consumedthing/ConsumedThingProtocolBinding.go:36-97 | over every run of the intended code, disconnects included, a consumed thing hears exactly its own events that arrive while it is listening, once and in order |
| Delivery.HearsFreshEvents | pkg/consumedthing/ConsumedThingProtocolBinding.go:36-97 | if events arrive in settled sessions only, these are all of its events from its making to the first Disconnect that meets a client |
| Delivery.CacheAcrossReconnects | pkg/consumedthing/ConsumedThing.go:100-176 | so its cache holds, for exactly the TD's names, what arrived last for the name while it was listening |
| Mirroring.InSyncExactly | pkg/exposedthing/ExposedThing.go:146-177 | over every run of emits, things and connections, a consumed property has the JSON of the exposed one exactly when the value heard last is the value stored last |
| Mirroring.HeardOrMissed | pkg/exposedthing/ExposedThing.go:160-176 | a publish brings both ends together exactly if the consumer is listening then or had that value already; later connections and conditional repeats of the value change nothing |
| Mirroring.SeenGrows | pkg/exposedthing/ExposedThing.go:146-177 | what the consumer's side sees of a run: its own steps, and the value of every request that is carried out, not filtered and published |
| ConsumedThing.ConsumedThingFactory.Consume | pkg/consumedthing/ConsumedThingFactory.go:158-177 | an ID in use gives the same thing and changes nothing; otherwise a fresh thing, bound and subscribed; the agreement of the tables is kept |
| ConsumedThing.ConsumedThingFactory.Destroy | pkg/consumedthing/ConsumedThingFactory.go:181-196 | the Destroy step of the tables; the thing forgets values and listeners; the agreement is kept exactly when there is a client or the thing is not in the table |
| ConsumedThing.ConsumedThingFactory.Disconnect | pkg/consumedthing/ConsumedThingFactory.go:199-207 | the subscriptions of a client go, the things stay |
| ConsumedThing.ConsumedThingFactory.Connect | pkg/consumedthing/ConsumedThingFactory.go:90-117 | what a former client remembered goes; there is a new client, up with a resubscription queued exactly if an attempt succeeds, else an error |
| ConsumedThing.ConsumedThingFactory.ConnectWithCert | pkg/consumedthing/ConsumedThingFactory.go:125-146 | the same; without a certificate only the Disconnect, and a directory error leaves the connection up |
| ConsumedThing.ConsumedThingProtocolBinding.constructor | pkg/consumedthing/ConsumedThingProtocolBinding.go:126-134 | the binding belongs to the thing and is its hook |
| ConsumedThing.ConsumedThingProtocolBinding.HandleEvent | pkg/consumedthing/ConsumedThingProtocolBinding.go:36-54 | topic parsing and double dispatch, cache and calls included |
| ConsumedThing.ConsumedThingProtocolBinding.InvokeAction | pkg/consumedthing/ConsumedThingProtocolBinding.go:62-75 | the topic and payload published, and no error for an unknown name |
| ConsumedThing.ConsumedThingProtocolBinding.WriteProperty | pkg/consumedthing/ConsumedThingProtocolBinding.go:116-121 | the topic and payload published |
| ConsumedThing.ConsumedThingProtocolBinding.Start | pkg/consumedthing/ConsumedThingProtocolBinding.go:86-97 | subscribes the binding to the events of its thing |
| ConsumedThing.ConsumedThingProtocolBinding.Stop | pkg/consumedthing/ConsumedThingProtocolBinding.go:100-103 | unsubscribes the same topic |
| ConsumedThing.ConsumedThing.HandleEvent | pkg/consumedthing/ConsumedThing.go:100-119 | cache and call of one event |
| ConsumedThing.ConsumedThing.HandlePropertyChange | pkg/consumedthing/ConsumedThing.go:127-176 | cache and call of one property change |
| ConsumedThing.ConsumedThing.ObserveProperty | pkg/consumedthing/ConsumedThing.go:205-230 | accepted unless the name is taken or the listener nil; a refusal changes nothing |
| ConsumedThing.ConsumedThing.SubscribeEvent | pkg/consumedthing/ConsumedThing.go:286-308 | accepted unless the name is taken, a nil handler too |
| ConsumedThing.ConsumedThing.ReadProperty | pkg/consumedthing/ConsumedThing.go:234-242 | whatever history led here, the latest message for the name since the last Stop, decoded by its schema, or nothing for an unknown name |
| ConsumedThing.ConsumedThing.ReadMultipleProperties | pkg/consumedthing/ConsumedThing.go:247-254 | one entry per requested name, nil where nothing is cached |
| ConsumedThing.ConsumedThing.ReadAllProperties | pkg/consumedthing/ConsumedThing.go:259-267 | one entry per property of the TD |
| ConsumedThing.ConsumedThing.Stop | pkg/consumedthing/ConsumedThing.go:271-280 | back to the initial state |
| ConsumedThing.ConsumedThing.InvokeAction | pkg/consumedthing/ConsumedThing.go:185-199 | only actions of the TD are published |
| ConsumedThing.ConsumedThing.WriteProperty | pkg/consumedthing/ConsumedThing.go:326-331 | published through the hook, which has to be there |
| Consuming.CacheIsLatest | pkg/consumedthing/ConsumedThing.go:100-176 | after any history the cache holds, for exactly the TD's names, the latest message since the last Stop, with the property schema if the name is a property |
| Consuming.LatestExactly | pkg/consumedthing/ConsumedThing.go:100-176 | that message is the last one whose topic has the name, with no Stop after it |
| Consuming.ListenerIsFirst | pkg/consumedthing/ConsumedThing.go:205-308 | the listener of a name is the first one registered since the last Stop; a nil subscriber counts, a nil observer does not |
| Consuming.FirstExactly | pkg/consumedthing/ConsumedThing.go:205-308 | that registration is the one with no other for the name between it and the Stop before it, and no Stop after it |
| Consuming.FirstSubscriberWins | pkg/consumedthing/ConsumedThing.go:111-174 | if not nil, it gets every later message for the name exactly once and in order, until the next Stop |
| Consuming.RegistrationAccepted | pkg/consumedthing/ConsumedThing.go:205-308 | a registration is accepted exactly when the name is free since the last Stop and the listener is not a nil observer; a refused one changes nothing |
| Consuming.PanicsExactly | pkg/consumedthing/ConsumedThing.go:111-117 | a history panics if and only if an event arrives whose name a nil handler took first since the last Stop |
| Consuming.EventAndProperty | pkg/consumedthing/ConsumedThingProtocolBinding.go:45-53 | a name that is both notifies both tables and keeps the property's value |
| Consuming.ThingIDNotChecked | pkg/consumedthing/ConsumedThingProtocolBinding.go:36-54 | the event of another thing, once routed here, is cached as one's own |
| Emitting.FilterExact | pkg/exposedthing/ExposedThing.go:160-176 | the store holds the value requested last, and the hook sees exactly the requests that are unconditional or differ from the one before, unless a comparison panics |
| Emitting.PanicsExactly | pkg/exposedthing/ExposedThing.go:160-165 | a run of requests panics if and only if a conditional one and the one before it are both arrays or both objects |
| Emitting.RequestsConcat | pkg/exposedthing/ExposedThing.go:146-154 | the requests on a property are picked one by one, in order |
| Emitting.UnconditionalAll | pkg/exposedthing/ExposedThing.go:160-165 | without conditions every value is published |
| Emitting.EventsNotFiltered | pkg/exposedthing/ExposedThing.go:121-154 | a request is refused exactly if the TD does not have the name, and a known event is always published |
| Emitting.NoRepeats | pkg/exposedthing/ExposedThing.go:160-165 | with every request conditional, adjacent published values differ and the last one is the value requested last |
| Emitting.NothingElseDropped | pkg/exposedthing/ExposedThing.go:160-165 | and the value of every request is published, by that request or as the last one before it |
| Emitting.FilterKeepsStore | pkg/exposedthing/ExposedThing.go:160-169 | filtered and unfiltered requests leave the same store |
| Replication.ConvergenceExactly | pkg/exposedthing/ExposedThing.go:146-177 | the consumer has the producer's JSON exactly when the value published last is the value stored last, and its decoded value unless the type is object |
| Replication.Convergence | pkg/consumedthing/ConsumedThing.go:127-176 | when the latest publish succeeded, cache and store agree |
| Replication.CacheHoldsLastSent | pkg/consumedthing/ConsumedThingProtocolBinding.go:36-54 | whatever else is on the bus and however often it is sent again, the cache holds the value published last |
| Replication.RedeliveryHarmless | pkg/mqttclient/MqttClient.go:391-392 | QoS 1 redelivery does not change what arrives last for a name |
| Replication.AtLeastOnceHolds | pkg/mqttclient/MqttClient.go:391-392 | delivering everything once is such a delivery, and so is going back to any message and on from there |
| Replication.NothingMissed | pkg/mqttclient/MqttClient.go:391-392 | and every message is delivered |
| Replication.ExecutedExactly | pkg/exposedthing/ExposedThing.go:160-165 | of the requests on a thing, those up to the first that panics are carried out, all if none does |
| Replication.PanickedExactly | pkg/exposedthing/ExposedThing.go:160-165 | a request panics if it is conditional and its value and the stored one are both arrays or both objects |
| Replication.LastSentExactly | pkg/exposedthing/ExposedThing.go:121-177 | the value published last for a name is that of the last request under it that is not filtered and whose publish succeeds |
| Replication.InboxLatest | pkg/consumedthing/ConsumedThingProtocolBinding.go:36-53 | subscription and parser pick out exactly the messages of a thing and name |
| Replication.StuckAfterFailure | pkg/exposedthing/ExposedThing.go:160-176 | after a failed publish, conditional repeats of the value publish nothing |
| Things.DecodeEncode | pkg/thing/InteractionOutput.go:97-139 | decoding gives the encoded value back exactly when the schema is not an object or the value is nil |
| Things.OutputValues | pkg/thing/InteractionOutput.go:97-139 | the value and the JSON of every output: decoded, made from a value, or text that is not JSON |
| Dispatch.DispatchByHistory | pkg/exposedthing/ExposedThing.go:264-354 | each request calls the responsible handler of the one kind that its name calls for, with the name and the decoded value, or nobody |
| Dispatch.ActionCalls | pkg/exposedthing/ExposedThing.go:264-299 | an action calls a handler if and only if that was set last for the name, or, if that setting is nil or missing, set last as default; and the thing is not destroyed |
| Dispatch.WriteCalls | pkg/exposedthing/ExposedThing.go:312-354 | the same for property writes |
| Dispatch.LatestExactly | pkg/exposedthing/ExposedThing.go:367-392 | the latest handler of a name is what its last setting says |
| Dispatch.HandlersAreLatest | pkg/exposedthing/ExposedThing.go:367-392 | the handler maps hold the latest setting of each name |
| Dispatch.NothingAfterDestroy | pkg/exposedthing/ExposedThing.go:108-113 | after Destroy nothing is invoked, whatever is set later |
| Requests.WriteArrives | pkg/consumedthing/ConsumedThingProtocolBinding.go:116-121 | a write reaches the responsible handler with its name and value; actions take precedence |
| Requests.InvokeArrives | pkg/consumedthing/ConsumedThingProtocolBinding.go:62-75 | so does an action |
| Requests.OnlyActionsSent | pkg/consumedthing/ConsumedThing.go:185-199 | other names are not sent |
| Requests.OtherNamesGoAstray | pkg/exposedthing/ExposedThingMqttBinding.go:76-86 | a name with '/' arrives as its first level, and an empty thing ID loses every request |
| Requests.WriteHandlersProtected | pkg/exposedthing/ExposedThing.go:312-354 | a write handler runs only for writable properties that are not actions, and for JSON |
| ExposedThing.ExposedThing.constructor | pkg/exposedthing/ExposedThing.go:402-412 | empty store and handlers |
| ExposedThing.ExposedThing.Destroy | pkg/exposedthing/ExposedThing.go:108-113 | both handler maps are gone |
| ExposedThing.ExposedThing.SetActionHandler | pkg/exposedthing/ExposedThing.go:367-373 | one setting of the history |
| ExposedThing.ExposedThing.SetPropertyWriteHandler | pkg/exposedthing/ExposedThing.go:386-392 | one setting of the history |
| ExposedThing.ExposedThing.HandleActionRequest | pkg/exposedthing/ExposedThing.go:264-299 | the handler called is that of the dispatch function |
| ExposedThing.ExposedThing.HandlePropertyWriteRequest | pkg/exposedthing/ExposedThing.go:312-354 | the same for property writes |
| ExposedThing.ExposedThing.EmitEvent | pkg/exposedthing/ExposedThing.go:121-134 | each error case, and what is published |
| ExposedThing.ExposedThing.EmitPropertyChange | pkg/exposedthing/ExposedThing.go:146-177 | each error case, the new store, and what is published |
| ExposedThing.ExposedThingMqttBinding.constructor | pkg/exposedthing/ExposedThingMqttBinding.go:113-123 | the binding belongs to the thing and is its hook |
| ExposedThing.ExposedThingMqttBinding.EmitEvent | pkg/exposedthing/ExposedThingMqttBinding.go:28-32 | the topic and payload published |
| ExposedThing.ExposedThingMqttBinding.EmitPropertyChange | pkg/exposedthing/ExposedThingMqttBinding.go:41-45 | the topic and payload published |
| ExposedThing.ExposedThingMqttBinding.HandleActionRequest | pkg/exposedthing/ExposedThingMqttBinding.go:76-86 | a request message invokes what the request path says |
| ExposedThing.ExposedThingMqttBinding.Start | pkg/exposedthing/ExposedThingMqttBinding.go:90-100 | subscribes to requests and publishes the TD |
| ExposedThing.ExposedThingMqttBinding.Stop | pkg/exposedthing/ExposedThingMqttBinding.go:103-107 | unsubscribes the same topic |
| ExposedThing.ExposedThingFactory.Expose | pkg/exposedthing/ExposedThingFactory.go:87-102 | an ID in use gives the same thing and changes nothing; otherwise a fresh thing, bound and subscribed, and its TD is published if the client takes it; the agreement of the tables is kept |
| ExposedThing.ExposedThingFactory.Destroy | pkg/exposedthing/ExposedThingFactory.go:66-81 | the Destroy step of the tables; the thing loses its handlers; the agreement is kept exactly when there is a client or the thing is not in the table |
| ExposedThing.ExposedThingFactory.Disconnect | pkg/exposedthing/ExposedThingFactory.go:57-62 | the subscriptions of a client go, the things stay |
| ExposedThing.ExposedThingFactory.Connect | pkg/exposedthing/ExposedThingFactory.go:50-54 | the same without a Disconnect, so the subscriptions are kept; nothing without a certificate |
| Topics.TopicIsolation | pkg/consumedthing/Topics.go:8-18 | for IDs without '/', an event or request matches exactly the filter of its kind and thing, or the wildcard "+" |
| Topics.ParentLevel | pkg/exposedthing/ExposedThingMqttBinding.go:80-85 | the bare event topic is dropped, the bare action topic is a request with the empty name |
| Topics.FilterExactly | pkg/consumedthing/ConsumedThingProtocolBinding.go:95 | for all IDs and names, a thing's filter matches a topic if and only if its levels are a prefix of the topic's, '+' matching any level |
| Topics.EventsHeardExactly | pkg/consumedthing/ConsumedThingProtocolBinding.go:95 | for any ID without wildcards: the ID's levels and "event" are a prefix of the levels of the event's ID, "event" and name |
| Topics.LeaksExactly | pkg/consumedthing/ConsumedThingProtocolBinding.go:95 | so exactly which events of other things it hears: those whose ID goes on from its event topic, and the event "event" of the thing that its own ID goes on from |
| Topics.SlashInIDLeaks | pkg/consumedthing/ConsumedThingProtocolBinding.go:95 | in particular those of the thing with "/event" added to the ID |
| Topics.EventNameExactly | pkg/consumedthing/ConsumedThingProtocolBinding.go:40-45 | for all IDs and names, the name read is the third level of ID, "event" and name |
| Topics.RequestNameExactly | pkg/consumedthing/Topics.go:50-64 | the same for requests, and when they are dropped |
| Topics.EventNameRecoveredExactly | pkg/consumedthing/ConsumedThingProtocolBinding.go:40-45 | for all IDs, when that is the emitted name: by the number of levels of the ID |
| Topics.EventNameRecovered | pkg/consumedthing/ConsumedThingProtocolBinding.go:40-45 | for an ID without '/', parsing gives the emitted name back exactly when it has no '/' |
| Topics.RequestNameRecovered | pkg/consumedthing/Topics.go:50-64 | the same for requests, if the thing ID is not empty |
| Topics.TopicText | pkg/exposedthing/ExposedThingMqttBinding.go:29 | the text a template gives for any ID, template text in the ID included |
| Topics.TopicTexts | pkg/consumedthing/Topics.go:8-18 | the topics and filters of a thing, written out |
| Topics.MatchesExactly | pkg/consumedthing/ConsumedThingProtocolBinding.go:95 | which topics any filter matches, level by level, by section 4.7 of MQTT 3.1.1 |
| Topics.PlainFilterMatches | pkg/mqttclient/MqttClient.go:326-356 | a filter without wildcards matches itself only |
| Topics.SplitTopicExactly | pkg/consumedthing/Topics.go:50-64 | the three parts read are the levels after the first, as far as there are any |
| Topics.TopicsReadBack | pkg/consumedthing/Topics.go:50-64 | a thing's topics are read back as ID, type and name |
| Topics.FiltersInjective | pkg/consumedthing/ConsumedThingProtocolBinding.go:95-101 | different things have different filters, for all IDs |
| Topics.TopicRoundTrip | pkg/consumedthing/Topics.go:41-64 | CreateTopic and SplitTopic undo each other exactly when neither part has a '/' |
| Text.Split | pkg/consumedthing/Topics.go:51 | the parts hold no separator and join to the text |
| Text.SplitUnique | pkg/thing/thingid.go:47 | and they are the only such parts |
| Text.ReplaceIsSplitAndGlue | pkg/config/LoadYamlConfig.go:65 | replacing a character is splitting at it and gluing the parts |
| Text.ReplaceSkip | pkg/config/LoadYamlConfig.go:65 | text where no match starts is copied |
| Text.ReplaceHit | pkg/config/LoadYamlConfig.go:65 | a match is replaced and what replaces it is not scanned |
| Text.ReplaceNothing | pkg/config/LoadYamlConfig.go:65 | an empty text to replace matches before every character and at the end |
| Template.SubstituteText | pkg/config/LoadYamlConfig.go:61-68 | the loop gives the replacement in some order, and for flat texts the simultaneous substitution |
| Template.KeyByKey | pkg/config/LoadYamlConfig.go:64-66 | any key counts, and each is replaced in what the keys before it have left |
| Template.OrderIndependent | pkg/config/LoadYamlConfig.go:61-68 | every iteration order gives the simultaneous substitution, if no keyword of the text has a value that mentions another keyword that does not stand for itself |
| Template.PlainValues | pkg/config/LoadYamlConfig.go:61-68 | in particular if no value has an opening brace |
| TemplateOrders.ClashShows | pkg/config/LoadYamlConfig.go:61-68 | if there is such a pair of keywords, and not both mention each other and themselves, two orders give different texts |
| TemplateOrders.OrderIndependentExactly | pkg/config/LoadYamlConfig.go:61-68 | so all orders agree if and only if there is no such pair, unless every such pair of the text mention each other and themselves |
| TemplateOrders.TangledMayAgree | pkg/config/LoadYamlConfig.go:61-68 | two keywords that mention each other and themselves, for which the two orders agree all the same |
| Template.ReplaceKeyword | pkg/config/LoadYamlConfig.go:65 | replacing one keyword touches that keyword only |
| Template.UnknownKeywordsStay | pkg/config/LoadYamlConfig.go:15-17 | a text whose keywords are all unknown comes back as it is; among known ones unknown keywords stay by OrderIndependent |
| Template.NestedBracesDependOnOrder | pkg/config/LoadYamlConfig.go:64-66 | nested braces give different texts in different orders |
| ThingId.PublisherIDRoundTrip | pkg/thing/thingid.go:19-72 | splitting a created ID gives its parts back exactly when they hold no colon; the empty zone becomes local |
| ThingId.ThingIDRoundTrip | pkg/thing/thingid.go:31-72 | the same without publisher |
| ThingId.PublisherIDInjective | pkg/thing/thingid.go:19-25 | equal IDs have equal parts |
| ThingId.ThingIDInjective | pkg/thing/thingid.go:31-37 | the same without publisher |
| ThingId.IDKindsDisjoint | pkg/thing/thingid.go:19-37 | no ID is of both kinds |
| ThingId.SplitPartsColonFree | pkg/thing/thingid.go:45-72 | whatever is split, no part holds a colon |
| ThingId.FormsOfThingID | pkg/thing/thingid.go:52-70 | the parts of IDs of two to five parts, in any letter case of "urn"; six or more parts are lost |
| ThingId.NotAThingID | pkg/thing/thingid.go:48-51 | other text keeps what stands before its first colon, as device ID |
| ThingId.CreatedTexts | pkg/thing/thingid.go:19-37 | the texts of created IDs, with "local" for the empty zone |
| ThingId.CreateFromPublisherParts | pkg/thing/thingid.go:52-57 | a split long ID is printed back exactly when its zone is not empty |
| ThingId.CreateFromThingParts | pkg/thing/thingid.go:58-62 | the same without publisher |
| TxtRecord.BuildTextRecord | pkg/discovery/DiscoServe.go:66-69 | the records of all parameters in some order, from which exactly the entries without '=' can be read back |
| TxtRecord.ParseTextRecord | pkg/discovery/DiscoClient.go:49-56 | the parameters of the well-formed records, the last one of a key counting |
| TxtRecord.ParamsExactly | pkg/discovery/DiscoClient.go:49-56 | a key has the value of its last record, and a record without exactly one '=' changes nothing |
| TxtRecord.TxtRoundTrip | pkg/discovery/DiscoClient.go:49-56 | in any order, exactly the entries without '=' come back |
| TxtRecord.TxtLossless | pkg/discovery/DiscoServe.go:66-69 | nothing is lost if and only if no key and no value holds '=' |
| BearerToken.AcceptedHeaders | pkg/hubnet/GetBearerToken.go:11-27 | exactly which headers are accepted, and with which token |
| BearerToken.RefusedHeaders | pkg/hubnet/GetBearerToken.go:11-27 | which error each refused header gives |
| BearerToken.BearerRoundTrip | pkg/tlsclient/TLSClient.go:326 | the written header is read back to the same token if and only if the token has no space |
| Watcher.WatchLoop | pkg/watcher/WatchFile.go:42-63 | the loop and its timer call the handler at the times declared for the changes received |
| Watcher.OneCallbackPerBurst | pkg/watcher/WatchFile.go:25-33 | one call per burst, 50 ms after its last change |
| Watcher.BurstsEndExactly | pkg/watcher/WatchFile.go:51-54 | a burst ends before a pause of more than 50 ms, and before one of exactly 50 ms if the timer is handled first |
| Watcher.CallbacksApart | pkg/watcher/WatchFile.go:54 | calls are at least 50 ms apart |
| Watcher.QuietBeforeCallback | pkg/watcher/WatchFile.go:51-54 | no change falls inside the 50 ms before a call |
| Watcher.EveryChangeReported | pkg/watcher/WatchFile.go:51-54 | every change is followed by the call of its burst |

## Left out

- JSON and YAML text: a payload is the value it encodes, or text that is not JSON. Go's numeric types are one type here, so an int and a float64 of the same value are equal, and PublishObject cannot fail to encode.
- InteractionOutput conversions (ValueAsInt and the like), DataSchema fields other than type and readOnly, and nil affordances in a TD.
- TLS, certificates, JOSE signing, JWT parsing, HTTP transport and the token refresh before the bearer header is written.
- paho internals: a client that reconnects reports IsConnected and takes messages to publish, but whether such a message is sent once it is back is not followed; a token's error is known at once or never; messages are delivered to routes by filter, and the order in which several matching routes are called is not modelled.
- Redelivery and losses together: Replication has redelivery to a consumer that stays subscribed, Mirroring has consumers that come and go but delivers each message once, when it is published.
- Data races: sections under a mutex are atomic steps, and so is Unsubscribe, although it takes no lock. The session machine lets connection events and resubscriptions fall between any two steps, but not into the resubscribe loop.
- Handlers and listeners are identifiers; what they do, such as emitting from inside a handler, is not modelled.
- Strings are sequences of characters, not UTF-8 bytes; ToLower is modelled on ASCII letters, the only ones that can lower to the words compared with.
- WriteMultipleProperties, which stops at the first error with the writes before it already published.
- Logging in, the thing store and the directory client: I/O around the modelled calls. A directory that cannot be reached is a parameter of ConnectWithCert.
- WatchFile: the race between AfterFunc(0) and Stop at the start, which can call the handler once without a change, the re-adding of the path after a call, and handlers that take time.
- TemplateOrders.OrderIndependentExactly: where every clash of the text is between two keywords that mention each other and themselves, only sufficiency is proved; there the orders can agree by accident, as TangledMayAgree shows, and deciding when they do is a word equation. Texts with stray opening braces have NestedBracesDependOnOrder only.
- Hub configuration loading, logging, signals, account store, interface lookup, the TLS server and the test environment.
