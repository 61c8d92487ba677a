/** The consumedthing package: the consumed thing, its protocol binding and the factory. `L` identifies the
    listeners of the application. */
module ConsumedThing {
  import opened Wrappers
  import opened Text
  import opened Topics
  import opened Things
  import opened MqttClient
  import C = Consuming
  import S = Session
  import R = Registry

  datatype SubscribeError = Subscribed | NotAllowed | TypeError

  datatype RequestError = Submitted | NotAnAction | HookMissing | PublishFailed

  class ConsumedThing<L> {
    const td: ThingTD
    var activeObservations: map<string, L>
    var activeSubscriptions: map<string, Option<L>>
    var valueStore: map<string, InteractionOutput>
    // InvokeActionHook and WritePropertyHook are both methods of the binding
    var hooks: ConsumedThingProtocolBinding?<L>
    var notified: seq<C.Note<L>>  // the listener calls made

    constructor (td: ThingTD)
      ensures this.td == td && State() == C.Init() && hooks == null && notified == []
      ensures valueStore == map[] && activeSubscriptions == map[] && activeObservations == map[]
    {
      this.td := td;
      activeObservations, activeSubscriptions, valueStore := map[], map[], map[];
      hooks, notified := null, [];
    }

    ghost function State(): C.Consumer<L>
      reads this
    {
      C.Consumer(valueStore, activeSubscriptions, activeObservations)
    }

    /** Calling a nil handler panics. */
    method HandleEvent(eventName: string, message: Payload)
      requires !C.HandleEvent(td, State(), eventName, message).panicked
      modifies this`valueStore, this`notified
      ensures var r := C.HandleEvent(td, old(State()), eventName, message);
              State() == r.consumer && notified == old(notified) + r.notes
      ensures eventName in td.events ==>
                && valueStore == old(valueStore)[eventName := FromJson(message, td.events[eventName])]
                && (eventName in activeSubscriptions ==>
                      && activeSubscriptions[eventName].Some?
                      && notified == old(notified)
                           + [C.Note(C.EventKind, activeSubscriptions[eventName].value, eventName,
                                     valueStore[eventName])])
                && (eventName !in activeSubscriptions ==> notified == old(notified))
      ensures eventName !in td.events ==> valueStore == old(valueStore) && notified == old(notified)
    {
      if eventName in td.events {
        var evData := FromJson(message, td.events[eventName]);
        valueStore := valueStore[eventName := evData];
        if eventName in activeSubscriptions {
          notified := notified + [C.Note(C.EventKind, activeSubscriptions[eventName].value, eventName, evData)];
        }
      }
    }

    method HandlePropertyChange(propName: string, message: Payload)
      modifies this`valueStore, this`notified
      ensures var r := C.HandlePropertyChange(td, old(State()), propName, message);
              State() == r.consumer && notified == old(notified) + r.notes
      ensures propName in td.properties ==>
                && valueStore == old(valueStore)[propName := FromJson(message, td.properties[propName])]
                && (propName in activeObservations ==>
                      notified == old(notified)
                        + [C.Note(C.PropertyKind, activeObservations[propName], propName, valueStore[propName])])
                && (propName !in activeObservations ==> notified == old(notified))
      ensures propName !in td.properties ==> valueStore == old(valueStore) && notified == old(notified)
    {
      if propName in td.properties {
        var evData := FromJson(message, td.properties[propName]);
        valueStore := valueStore[propName := evData];
        if propName in activeObservations {
          notified := notified + [C.Note(C.PropertyKind, activeObservations[propName], propName, evData)];
        }
      }
    }

    method ObserveProperty(name: string, listener: Option<L>) returns (err: SubscribeError)
      modifies this`activeObservations
      ensures State() == C.Register(old(State()), C.PropertyKind, name, listener)
      ensures err == Subscribed <==> C.Accepts(old(State()), C.PropertyKind, name, listener)
      ensures err == NotAllowed <==> name in old(activeObservations)
      ensures err == TypeError <==> name !in old(activeObservations) && listener.None?
      ensures activeObservations == if name !in old(activeObservations) && listener.Some?
                                    then old(activeObservations)[name := listener.value]
                                    else old(activeObservations)
    {
      if name in activeObservations {
        return NotAllowed;
      }
      if listener.None? {
        return TypeError;
      }
      activeObservations := activeObservations[name := listener.value];
      return Subscribed;
    }

    /** The handler is not checked: a nil one takes the name too. */
    method SubscribeEvent(eventName: string, handler: Option<L>) returns (err: SubscribeError)
      modifies this`activeSubscriptions
      ensures State() == C.Register(old(State()), C.EventKind, eventName, handler)
      ensures err == if C.Accepts(old(State()), C.EventKind, eventName, handler) then Subscribed else NotAllowed
      ensures err == Subscribed <==> eventName !in old(activeSubscriptions)
      ensures activeSubscriptions == if err == Subscribed then old(activeSubscriptions)[eventName := handler]
                                     else old(activeSubscriptions)
    {
      if eventName in activeSubscriptions {
        return NotAllowed;
      }
      activeSubscriptions := activeSubscriptions[eventName := handler];
      return Subscribed;
    }

    /** Any name of the TD can be read, events included: whatever led to this state, the value is that of the latest
        message for the name since the last Stop. */
    method ReadProperty(name: string) returns (value: Option<InteractionOutput>)
      ensures value.None? <==> name !in valueStore
      ensures value.Some? ==> value.value == valueStore[name]
      ensures forall history: seq<C.Input<L>>
                | !C.Run(td, history).panicked && C.Run(td, history).consumer == State()
                :: value == C.Cached(td, history, name)
    {
      value := if name in valueStore then Some(valueStore[name]) else None;
      forall history: seq<C.Input<L>> | !C.Run(td, history).panicked && C.Run(td, history).consumer == State()
        ensures value == C.Cached(td, history, name)
      {
        C.CacheIsLatest(td, history, name);
      }
    }

    /** Names without a value are in the result, with nil. */
    method ReadMultipleProperties(names: seq<string>) returns (res: map<string, Option<InteractionOutput>>)
      ensures res == map n | n in names :: if n in valueStore then Some(valueStore[n]) else None
    {
      res := map[];
      for i := 0 to |names|
        invariant res == map n | n in names[..i] :: if n in valueStore then Some(valueStore[n]) else None
      {
        var output := ReadProperty(names[i]);
        res := res[names[i] := output];
        assert names[..i + 1] == names[..i] + [names[i]];
      }
      assert names[..|names|] == names;
    }

    method ReadAllProperties() returns (res: map<string, Option<InteractionOutput>>)
      ensures res == map n | n in td.properties :: if n in valueStore then Some(valueStore[n]) else None
    {
      res := map[];
      var left := td.properties.Keys;
      while left != {}
        invariant left <= td.properties.Keys
        invariant res == map n | n in td.properties.Keys - left :: if n in valueStore then Some(valueStore[n]) else None
        decreases left
      {
        var name :| name in left;
        var output := ReadProperty(name);
        res := res[name := output];
        left := left - {name};
      }
    }

    method Stop()
      modifies this`activeSubscriptions, this`activeObservations, this`valueStore
      ensures State() == C.Init()
      ensures valueStore == map[] && activeSubscriptions == map[] && activeObservations == map[]
    {
      activeSubscriptions, activeObservations := map[], map[];
      valueStore := map[];
    }

    ghost function Client(): set<MqttClient<ConsumedThingProtocolBinding<L>, Body>>
      reads this, hooks
    {
      if hooks == null || hooks.mqttClient == null then {} else {hooks.mqttClient}
    }

    /** Requires the hook's binding to be started. */
    method InvokeAction(actionName: string, data: Json, tokenError: bool) returns (err: RequestError)
      requires hooks != null ==> hooks.td == td && hooks.mqttClient != null && hooks.mqttClient.Valid()
      modifies Client()`published
      ensures err == NotAnAction <==> actionName !in td.actions
      ensures err == HookMissing <==> actionName in td.actions && hooks == null
      ensures err == Submitted
              <==> actionName in td.actions && hooks != null && old(hooks.mqttClient.IsConnected()) && !tokenError
      ensures hooks != null ==>
                hooks.mqttClient.published == old(hooks.mqttClient.published)
                  + if err == Submitted then [(ActionTopic(td.id, actionName), Data(Encoded(data)))] else []
    {
      if actionName !in td.actions {
        return NotAnAction;
      }
      if hooks == null {
        return HookMissing;
      }
      err := hooks.InvokeAction(actionName, data, tokenError);
    }

    method WriteProperty(propName: string, value: Json, tokenError: bool) returns (err: RequestError)
      requires hooks != null ==> hooks.td == td && hooks.mqttClient != null && hooks.mqttClient.Valid()
      modifies Client()`published
      ensures err == HookMissing <==> hooks == null
      ensures err == Submitted <==> hooks != null && old(hooks.mqttClient.IsConnected()) && !tokenError
      ensures hooks != null ==>
                hooks.mqttClient.published == old(hooks.mqttClient.published)
                  + if err == Submitted then [(ActionTopic(td.id, propName), Data(Encoded(value)))] else []
    {
      if hooks == null {
        return HookMissing;
      }
      err := hooks.WriteProperty(propName, value, tokenError);
    }
  }

  class ConsumedThingProtocolBinding<L> {
    const td: ThingTD
    const cThing: ConsumedThing<L>
    var mqttClient: MqttClient?<ConsumedThingProtocolBinding<L>, Body>

    constructor (cThing: ConsumedThing<L>)
      modifies cThing`hooks
      ensures this.cThing == cThing && td == cThing.td && mqttClient == null && cThing.hooks == this
    {
      this.cThing, td, mqttClient := cThing, cThing.td, null;
      new;
      cThing.hooks := this;
    }

    method HandleEvent(topic: string, message: Payload)
      requires td == cThing.td && !C.HandleMessage(td, cThing.State(), topic, message).panicked
      modifies cThing`valueStore, cThing`notified
      ensures var r := C.HandleMessage(td, old(cThing.State()), topic, message);
              cThing.State() == r.consumer && cThing.notified == old(cThing.notified) + r.notes
      ensures var levels := Split(topic, '/');
              cThing.valueStore
              == if |levels| > 3 && levels[3] in td.properties
                 then old(cThing.valueStore)[levels[3] := FromJson(message, td.properties[levels[3]])]
                 else if |levels| > 3 && levels[3] in td.events
                 then old(cThing.valueStore)[levels[3] := FromJson(message, td.events[levels[3]])]
                 else old(cThing.valueStore)
    {
      var n := EventName(topic);
      if n.NoName? {
        return;
      }
      if n.name in td.events {
        cThing.HandleEvent(n.name, message);
      }
      if n.name in td.properties {
        cThing.HandlePropertyChange(n.name, message);
      }
    }

    /** A name that is not an action is logged, and no error is returned. */
    method InvokeAction(actionName: string, data: Json, tokenError: bool) returns (err: RequestError)
      requires mqttClient != null && mqttClient.Valid()
      modifies mqttClient`published
      ensures err == if actionName !in td.actions || (mqttClient.IsConnected() && !tokenError)
                     then Submitted else PublishFailed
      ensures actionName !in td.actions ==> mqttClient.published == old(mqttClient.published)
      ensures actionName in td.actions ==>
                mqttClient.published == old(mqttClient.published)
                  + if err == Submitted then [(ActionTopic(td.id, actionName), Data(Encoded(data)))] else []
    {
      if actionName !in td.actions {
        return Submitted;
      }
      var e := mqttClient.Publish(ActionTopic(td.id, actionName), Data(Encoded(data)), tokenError);
      err := if e == NoError then Submitted else PublishFailed;
    }

    method WriteProperty(propName: string, propValue: Json, tokenError: bool) returns (err: RequestError)
      requires mqttClient != null && mqttClient.Valid()
      modifies mqttClient`published
      ensures err == if mqttClient.IsConnected() && !tokenError then Submitted else PublishFailed
      ensures mqttClient.published == old(mqttClient.published)
                + if err == Submitted then [(ActionTopic(td.id, propName), Data(Encoded(propValue)))] else []
    {
      var e := mqttClient.Publish(ActionTopic(td.id, propName), Data(Encoded(propValue)), tokenError);
      err := if e == NoError then Submitted else PublishFailed;
    }

    method Start(mqttClient: MqttClient<ConsumedThingProtocolBinding<L>, Body>)
      requires mqttClient.Valid()
      modifies this`mqttClient, mqttClient`pahoClient, mqttClient`subscriptions
      ensures this.mqttClient == mqttClient
      ensures mqttClient.State() == S.Step(S.AsWritten, old(mqttClient.State()), S.Subscribe(EventFilter(td.id), this))
    {
      assert forall c :: c in mqttClient.Callbacks() ==> (c as object) != this;
      this.mqttClient := mqttClient;
      assert mqttClient.State() == old(mqttClient.State());
      mqttClient.Subscribe(EventFilter(td.id), this);
    }

    method Stop()
      requires mqttClient != null && mqttClient.Valid()
      modifies mqttClient`pahoClient, mqttClient`subscriptions
      ensures mqttClient.State() == S.Step(S.AsWritten, old(mqttClient.State()), S.Unsubscribe(EventFilter(td.id)))
    {
      mqttClient.Unsubscribe(EventFilter(td.id));
    }
  }

  function Owner<L>(b: ConsumedThingProtocolBinding<L>): ConsumedThing<L> {
    b.cThing
  }

  class ConsumedThingFactory<L> {
    var ctMap: map<string, ConsumedThing<L>>
    var bindings: map<string, ConsumedThingProtocolBinding<L>>
    var connected: bool  // connectionStatus.Connected
    const mqttClient: MqttClient<ConsumedThingProtocolBinding<L>, Body>

    constructor ()
      ensures Valid()
      ensures State() == R.Registry(map[], map[], S.Init()) && R.Agree(EventFilter, State(), Owner)
    {
      ctMap, bindings, connected := map[], map[], false;
      mqttClient := new MqttClient<ConsumedThingProtocolBinding<L>, Body>(0);
    }

    /** Every binding is started on this client and is that of its own TD's ID. */
    ghost predicate Valid()
      reads this, set id | id in bindings :: bindings[id]
    {
      && mqttClient.Valid()
      && forall id :: id in bindings ==> bindings[id].mqttClient == mqttClient && bindings[id].td.id == id
    }

    ghost function State(): R.Registry<ConsumedThing<L>, ConsumedThingProtocolBinding<L>>
      reads this, mqttClient, mqttClient.Callbacks()
    {
      R.Registry(ctMap, bindings, mqttClient.State())
    }

    /** An ID that is consumed already gives the same thing and changes nothing. */
    method Consume(td: ThingTD) returns (cThing: ConsumedThing<L>)
      requires Valid()
      modifies this`ctMap, this`bindings, mqttClient`pahoClient, mqttClient`subscriptions
      ensures Valid()
      ensures td.id in old(ctMap) ==> cThing == old(ctMap)[td.id] && State() == old(State())
      ensures td.id !in old(ctMap) ==> fresh(cThing) && cThing.td == td && cThing.State() == C.Init()
      ensures td.id !in old(ctMap) ==>
                && td.id in bindings && cThing.hooks == bindings[td.id] && bindings[td.id].cThing == cThing
                && ctMap == old(ctMap)[td.id := cThing] && bindings == old(bindings)[td.id := bindings[td.id]]
                && mqttClient.subscriptions
                   == old(mqttClient.subscriptions)["things/" + td.id + "/event/#" := Some(bindings[td.id])]
                && State() == R.After(S.AsWritten, EventFilter, old(State()), R.Add(td.id, cThing, bindings[td.id]))
      ensures R.Agree(EventFilter, old(State()), Owner) ==> R.Agree(EventFilter, State(), Owner)
    {
      ghost var was := State();
      if td.id in ctMap {
        cThing := ctMap[td.id];
      } else {
        cThing := Create(td);
        R.FactoryAdds(EventFilter, was, td.id, cThing, bindings[td.id], Owner);
      }
    }

    /** The part of Consume for a new ID. */
    method Create(td: ThingTD) returns (cThing: ConsumedThing<L>)
      requires Valid() && td.id !in ctMap
      modifies this`ctMap, this`bindings, mqttClient`pahoClient, mqttClient`subscriptions
      ensures Valid()
      ensures fresh(cThing) && cThing.td == td && cThing.State() == C.Init()
      ensures && td.id in bindings && cThing.hooks == bindings[td.id] && bindings[td.id].cThing == cThing
              && ctMap == old(ctMap)[td.id := cThing] && bindings == old(bindings)[td.id := bindings[td.id]]
              && mqttClient.subscriptions
                 == old(mqttClient.subscriptions)["things/" + td.id + "/event/#" := Some(bindings[td.id])]
              && State() == R.After(S.AsWritten, EventFilter, old(State()), R.Add(td.id, cThing, bindings[td.id]))
    {
      cThing := new ConsumedThing<L>(td);
      var binding := new ConsumedThingProtocolBinding<L>(cThing);
      bindings := bindings[td.id := binding];
      ctMap := ctMap[td.id := cThing];
      mqttClient.SameState();
      binding.Start(mqttClient);
      TopicTexts(td.id, "");
    }

    /** The thing destroyed may be an older instance; the tables are looked up by its ID. */
    method Destroy(cThing: ConsumedThing<L>)
      requires Valid()
      modifies this`bindings, this`ctMap, mqttClient`pahoClient, mqttClient`subscriptions
      modifies cThing`activeSubscriptions, cThing`activeObservations, cThing`valueStore
      ensures Valid() && State() == R.After(S.AsWritten, EventFilter, old(State()), R.Destroy(cThing.td.id))
      ensures cThing.State() == C.Init()
      ensures ctMap == old(ctMap) - {cThing.td.id} && bindings == old(bindings) - {cThing.td.id}
      ensures var filter, subs := "things/" + cThing.td.id + "/event/#", old(mqttClient.subscriptions);
              mqttClient.subscriptions
              == if cThing.td.id in old(bindings) && mqttClient.pahoClient.Paho? && filter in subs && subs[filter].Some?
                 then subs[filter := None] else subs
      ensures R.Agree(EventFilter, old(State()), Owner) ==>
                (R.Agree(EventFilter, State(), Owner) <==> old(mqttClient.pahoClient.Paho?)
                                                                 || cThing.td.id !in old(bindings))
    {
      ghost var was := State();
      var id := cThing.td.id;
      var binding := if id in bindings then bindings[id] else null;
      if binding != null {
        binding.Stop();
      }
      label Stopped:
      bindings := bindings - {id};
      cThing.Stop();
      ctMap := ctMap - {id};
      mqttClient.SameState@Stopped();
      R.FactoryDestroys(EventFilter, was, id, Owner);
      TopicTexts(id, "");
    }

    /** Drops the subscriptions of a live client and keeps the things. */
    method Disconnect()
      requires Valid()
      modifies this`connected, mqttClient`isRunning, mqttClient`pahoClient, mqttClient`subscriptions
      ensures Valid() && !connected && State() == R.After(S.AsWritten, EventFilter, old(State()), R.Net(S.Disconnect))
      ensures mqttClient.pahoClient == NoPaho
      ensures mqttClient.subscriptions == if old(mqttClient.pahoClient.Paho?) then map[]
                                          else old(mqttClient.subscriptions)
    {
      mqttClient.Disconnect();
      label Disconnected:
      assert forall c :: c in mqttClient.Callbacks() ==> (c as object) != this;
      connected := false;
      assert mqttClient.State() == old@Disconnected(mqttClient.State());
    }

    /** Begins with Disconnect. Errors of the login that follows are dropped, so the message bus is always tried. */
    method Connect(reachable: nat -> bool) returns (failed: bool, ghost attempts: nat)
      requires Valid()
      modifies this`connected, mqttClient`isRunning, mqttClient`pahoClient, mqttClient`subscriptions, mqttClient`pending
      ensures Valid() && attempts > 0 && failed == !reachable(attempts - 1)
      ensures mqttClient.pahoClient == Paho(if failed then S.Idle else S.Up, map[])
      ensures mqttClient.subscriptions == if old(mqttClient.pahoClient.Paho?) then map[]
                                          else old(mqttClient.subscriptions)
      ensures mqttClient.pending == old(mqttClient.pending) + if failed then 0 else 1
      ensures State() == R.Connected(EventFilter, R.After(S.AsWritten, EventFilter, old(State()), R.Net(S.Disconnect)),
                                     reachable(attempts - 1))
    {
      Disconnect();
      failed, attempts := ConnectClient(reachable);
    }

    /** The part of both connects that connects the client. */
    method ConnectClient(reachable: nat -> bool) returns (failed: bool, ghost attempts: nat)
      requires Valid()
      modifies mqttClient`isRunning, mqttClient`pahoClient, mqttClient`pending
      ensures Valid() && attempts > 0 && failed == !reachable(attempts - 1)
      ensures mqttClient.pahoClient == Paho(if failed then S.Idle else S.Up, map[])
      ensures mqttClient.pending == old(mqttClient.pending) + if failed then 0 else 1
      ensures State() == R.Connected(EventFilter, old(State()), reachable(attempts - 1))
    {
      var tries, slept;
      failed, tries, slept := mqttClient.Connect(reachable);
      attempts := tries;
    }

    /** The same with a certificate; a directory that cannot be reached is an error but leaves the connection up. */
    method ConnectWithCert(hasCert: bool, reachable: nat -> bool, directoryFails: bool)
      returns (failed: bool, ghost attempts: nat)
      requires Valid()
      modifies this`connected, mqttClient`isRunning, mqttClient`pahoClient, mqttClient`subscriptions, mqttClient`pending
      ensures Valid() && attempts > 0
      ensures mqttClient.pahoClient == if !hasCert then NoPaho
                                       else Paho(if reachable(attempts - 1) then S.Up else S.Idle, map[])
      ensures mqttClient.subscriptions == if old(mqttClient.pahoClient.Paho?) then map[]
                                          else old(mqttClient.subscriptions)
      ensures mqttClient.pending == old(mqttClient.pending) + if hasCert && reachable(attempts - 1) then 1 else 0
      ensures failed <==> !hasCert || !reachable(attempts - 1) || directoryFails
      ensures var off := R.After(S.AsWritten, EventFilter, old(State()), R.Net(S.Disconnect));
              State() == if hasCert then R.Connected(EventFilter, off, reachable(attempts - 1)) else off
    {
      Disconnect();
      if !hasCert {
        return true, 1;
      }
      failed, attempts := ConnectClient(reachable);
      if !failed {
        failed := directoryFails;
      }
    }
  }
}
