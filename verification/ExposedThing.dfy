/** The exposedthing package: the exposed thing, its MQTT binding and the factory. `H` identifies the action and
    property handlers of the application. */
module ExposedThing {
  import opened Wrappers
  import opened Topics
  import opened Things
  import opened MqttClient
  import opened Emitting
  import D = Dispatch
  import Requests
  import S = Session
  import R = Registry

  datatype EmitError = Emitted | NameUnknown | HookMissing | PublishFailed

  class ExposedThing<H> {
    const deviceID: string
    const td: ThingTD
    var actionHandlers: Option<map<string, Option<H>>>
    var propertyWriteHandlers: Option<map<string, Option<H>>>
    var valueStore: map<string, InteractionOutput>
    // EmitEventHook and EmitPropertyChangeHook are both methods of the binding
    var hooks: ExposedThingMqttBinding?<H>

    constructor (deviceID: string, td: ThingTD)
      ensures this.deviceID == deviceID && this.td == td && valueStore == map[] && hooks == null
      ensures Handlers() == D.HandlersAfter([])
      ensures actionHandlers == Some(map[]) && propertyWriteHandlers == Some(map[])
    {
      this.deviceID, this.td := deviceID, td;
      actionHandlers, propertyWriteHandlers := Some(map[]), Some(map[]);
      valueStore, hooks := map[], null;
    }

    ghost function Handlers(): D.Handlers<H>
      reads this
    {
      D.Handlers(actionHandlers, propertyWriteHandlers)
    }

    ghost function Client(): set<MqttClient<ExposedThingMqttBinding<H>, Body>>
      reads this
    {
      if hooks == null then {} else {hooks.mqttClient}
    }

    method Destroy()
      modifies this`actionHandlers, this`propertyWriteHandlers
      ensures Handlers() == D.SettingStep(old(Handlers()), D.Destroy)
      ensures actionHandlers == None && propertyWriteHandlers == None
    {
      propertyWriteHandlers, actionHandlers := None, None;
    }

    /** Storing into a nil map panics, so the thing must not have been destroyed. */
    method SetActionHandler(actionName: string, actionHandler: Option<H>)
      requires actionHandlers.Some?
      modifies this`actionHandlers
      ensures Handlers() == D.SettingStep(old(Handlers()), D.SetHandler(D.Action, actionName, actionHandler))
      ensures actionHandlers == Some(old(actionHandlers).value[actionName := actionHandler])
    {
      actionHandlers := Some(actionHandlers.value[actionName := actionHandler]);
    }

    method SetPropertyWriteHandler(propName: string, writeHandler: Option<H>)
      requires propertyWriteHandlers.Some?
      modifies this`propertyWriteHandlers
      ensures Handlers() == D.SettingStep(old(Handlers()), D.SetHandler(D.PropertyWrite, propName, writeHandler))
      ensures propertyWriteHandlers == Some(old(propertyWriteHandlers).value[propName := writeHandler])
    {
      propertyWriteHandlers := Some(propertyWriteHandlers.value[propName := writeHandler]);
    }

    /** Returns the handler that is called, if any. */
    method HandleActionRequest(actionName: string, message: Payload) returns (invoked: Option<D.Invocation<H>>)
      ensures invoked == D.HandleRequest(td, Handlers(), actionName, message)
    {
      if actionName in td.actions {
        var actionData := FromJson(message, td.actions[actionName]);
        if actionHandlers.Some? && actionName in actionHandlers.value && actionHandlers.value[actionName].Some? {
          return Some(D.Invocation(D.Action, actionHandlers.value[actionName].value, actionName, actionData));
        } else if actionHandlers.Some? && "" in actionHandlers.value && actionHandlers.value[""].Some? {
          return Some(D.Invocation(D.Action, actionHandlers.value[""].value, actionName, actionData));
        }
        return None;
      }
      invoked := HandlePropertyWriteRequest(actionName, message);
    }

    method HandlePropertyWriteRequest(propName: string, message: Payload) returns (invoked: Option<D.Invocation<H>>)
      ensures invoked == D.HandlePropertyWrite(td, Handlers(), propName, message)
    {
      if propertyWriteHandlers.None? || message.Raw? || propName !in td.properties || td.properties[propName].readOnly {
        return None;
      }
      var propValue := FromValue(message.value, td.properties[propName]);
      if propName in propertyWriteHandlers.value && propertyWriteHandlers.value[propName].Some? {
        return Some(D.Invocation(D.PropertyWrite, propertyWriteHandlers.value[propName].value, propName, propValue));
      } else if "" in propertyWriteHandlers.value && propertyWriteHandlers.value[""].Some? {
        return Some(D.Invocation(D.PropertyWrite, propertyWriteHandlers.value[""].value, propName, propValue));
      }
      return None;
    }

    /** The messages published by the client of the hooks. */
    ghost function Published(): seq<(string, Body)>
      reads this, Client()
    {
      if hooks == null then [] else hooks.mqttClient.published
    }

    method EmitEvent(name: string, data: Json, tokenError: bool) returns (err: EmitError)
      requires hooks != null ==> hooks.mqttClient.Valid()
      modifies Client()`published
      ensures hooks != null ==>
                Published() == old(Published())
                + if err == Emitted then [(EventTopic(hooks.td.id, name), Data(Encoded(data)))] else []
      ensures err == NameUnknown <==> name !in td.events
      ensures err == NameUnknown <==> Decide(td, valueStore, Event(name, data, true)) == UnknownName
      ensures err == HookMissing <==> name in td.events && hooks == null
      ensures err == Emitted
              <==> name in td.events && hooks != null && old(hooks.mqttClient.IsConnected()) && !tokenError
    {
      if name !in td.events {
        return NameUnknown;
      } else if hooks == null {
        return HookMissing;
      }
      err := hooks.EmitEvent(name, data, tokenError);
    }

    /** Comparing two slices or two maps panics. */
    method EmitPropertyChange(propName: string, newRawValue: Json, changesOnly: bool, tokenError: bool)
      returns (err: EmitError)
      requires Decide(td, valueStore, Property(propName, newRawValue, changesOnly, true)) != Panics
      requires hooks != null ==> hooks.mqttClient.Valid()
      modifies this`valueStore, Client()`published
      ensures var e := Property(propName, newRawValue, changesOnly, err == Emitted);
              var decision := Decide(td, old(valueStore), e);
              && valueStore == StoreStep(td, old(valueStore), e)
              && (err == NameUnknown <==> decision == UnknownName)
              && (err == HookMissing <==> decision == Publishes && hooks == null)
              && (decision == Unchanged ==> err == Emitted)
              && (decision == Publishes && hooks != null ==>
                    (err == Emitted <==> old(hooks.mqttClient.IsConnected()) && !tokenError))
              && Published() == old(Published())
                                + if decision == Publishes && err == Emitted
                                  then [(EventTopic(hooks.td.id, propName), Data(Encoded(newRawValue)))]
                                  else []
      ensures err == NameUnknown <==> propName !in td.properties
      ensures var same := changesOnly && propName in old(valueStore) && old(valueStore)[propName].value == newRawValue;
              && valueStore == (if propName !in td.properties || same then old(valueStore)
                                else old(valueStore)[propName := FromValue(newRawValue, td.properties[propName])])
              && (propName in td.properties && same ==> err == Emitted && Published() == old(Published()))
              && (propName in td.properties && !same && hooks == null ==> err == HookMissing)
              && (propName in td.properties && !same && hooks != null ==>
                    && (err == Emitted <==> old(hooks.mqttClient.IsConnected()) && !tokenError)
                    && (err == Emitted ==>
                          Published() == old(Published())
                            + [("things/" + hooks.td.id + "/event/" + propName, Data(Encoded(newRawValue)))]))
    {
      if propName !in td.properties {
        return NameUnknown;
      }
      if changesOnly {
        if propName in valueStore && valueStore[propName].value == newRawValue {
          return Emitted;
        }
      }
      valueStore := valueStore[propName := FromValue(newRawValue, td.properties[propName])];
      if hooks == null {
        return HookMissing;
      }
      err := hooks.EmitPropertyChange(propName, newRawValue, tokenError);
      TopicTexts(hooks.td.id, propName);
    }
  }

  class ExposedThingMqttBinding<H> {
    const eThing: ExposedThing<H>
    const td: ThingTD
    const mqttClient: MqttClient<ExposedThingMqttBinding<H>, Body>

    constructor (eThing: ExposedThing<H>, mqttClient: MqttClient<ExposedThingMqttBinding<H>, Body>)
      modifies eThing`hooks
      ensures this.eThing == eThing && td == eThing.td && this.mqttClient == mqttClient && eThing.hooks == this
    {
      this.eThing, this.td, this.mqttClient := eThing, eThing.td, mqttClient;
      new;
      eThing.hooks := this;
    }

    method EmitEvent(name: string, data: Json, tokenError: bool) returns (err: EmitError)
      requires mqttClient.Valid()
      modifies mqttClient`published
      ensures err == if mqttClient.IsConnected() && !tokenError then Emitted else PublishFailed
      ensures mqttClient.published == old(mqttClient.published)
                + if err == Emitted then [(EventTopic(td.id, name), Data(Encoded(data)))] else []
      ensures mqttClient.State() == old(mqttClient.State())
    {
      var e := mqttClient.Publish(EventTopic(td.id, name), Data(Encoded(data)), tokenError);
      err := if e == NoError then Emitted else PublishFailed;
    }

    method EmitPropertyChange(name: string, data: Json, tokenError: bool) returns (err: EmitError)
      requires mqttClient.Valid()
      modifies mqttClient`published
      ensures err == if mqttClient.IsConnected() && !tokenError then Emitted else PublishFailed
      ensures mqttClient.published == old(mqttClient.published)
                + if err == Emitted then [(EventTopic(td.id, name), Data(Encoded(data)))] else []
      ensures mqttClient.State() == old(mqttClient.State())
    {
      var e := mqttClient.Publish(EventTopic(td.id, name), Data(Encoded(data)), tokenError);
      err := if e == NoError then Emitted else PublishFailed;
    }

    method HandleActionRequest(address: string, message: Payload) returns (invoked: Option<D.Invocation<H>>)
      ensures invoked == Requests.Receive(eThing.td, eThing.Handlers(), Requests.Request(address, message))
    {
      var p := SplitTopic(address);
      if p.thingID == "" || p.topicType == "" {
        return None;
      }
      invoked := eThing.HandleActionRequest(p.subject, message);
    }

    /** Subscribes to the thing's requests and publishes its TD. */
    method Start(tokenError: bool)
      requires mqttClient.Valid()
      modifies mqttClient`pahoClient, mqttClient`subscriptions, mqttClient`published
      ensures mqttClient.State() == S.Step(S.AsWritten, old(mqttClient.State()), S.Subscribe(ActionFilter(td.id), this))
      ensures mqttClient.published == old(mqttClient.published)
                + if mqttClient.IsConnected() && !tokenError then [(TDTopic(td.id), Description(td))] else []
    {
      mqttClient.Subscribe(ActionFilter(td.id), this);
      var _ := mqttClient.Publish(TDTopic(td.id), Description(td), tokenError);
    }

    method Stop()
      requires mqttClient.Valid()
      modifies mqttClient`pahoClient, mqttClient`subscriptions
      ensures mqttClient.State() == S.Step(S.AsWritten, old(mqttClient.State()), S.Unsubscribe(ActionFilter(td.id)))
    {
      mqttClient.Unsubscribe(ActionFilter(td.id));
    }
  }

  function Owner<H>(b: ExposedThingMqttBinding<H>): ExposedThing<H> {
    b.eThing
  }

  class ExposedThingFactory<H> {
    var etMap: map<string, ExposedThing<H>>
    var bindings: map<string, ExposedThingMqttBinding<H>>
    const mqttClient: MqttClient<ExposedThingMqttBinding<H>, Body>

    constructor ()
      ensures Valid()
      ensures State() == R.Registry(map[], map[], S.Init()) && R.Agree(ActionFilter, State(), Owner)
    {
      etMap, bindings := map[], map[];
      mqttClient := new MqttClient<ExposedThingMqttBinding<H>, Body>(0);
    }

    /** Every binding is that of the client and of its own TD's ID. */
    ghost predicate Valid()
      reads this
    {
      && mqttClient.Valid()
      && forall id :: id in bindings ==> bindings[id].mqttClient == mqttClient && bindings[id].td.id == id
    }

    ghost function State(): R.Registry<ExposedThing<H>, ExposedThingMqttBinding<H>>
      reads this, mqttClient, mqttClient.Callbacks()
    {
      R.Registry(etMap, bindings, mqttClient.State())
    }

    /** An ID that is exposed already gives the same thing and changes nothing. A new thing's TD is published. */
    method Expose(deviceID: string, td: ThingTD, tokenError: bool) returns (eThing: ExposedThing<H>, found: bool)
      requires Valid()
      modifies this, mqttClient`pahoClient, mqttClient`subscriptions, mqttClient`published
      ensures Valid()
      ensures found <==> td.id in old(etMap)
      ensures mqttClient.published == old(mqttClient.published)
                + if !found && mqttClient.IsConnected() && !tokenError
                  then [("things/" + td.id + "/td", Description(td))] else []
      ensures found ==> eThing == old(etMap)[td.id] && State() == old(State())
      ensures !found ==> fresh(eThing) && eThing.td == td && eThing.deviceID == deviceID
      ensures !found ==>
                && td.id in bindings && eThing.hooks == bindings[td.id] && bindings[td.id].eThing == eThing
                && etMap == old(etMap)[td.id := eThing] && bindings == old(bindings)[td.id := bindings[td.id]]
                && mqttClient.subscriptions
                   == old(mqttClient.subscriptions)["things/" + td.id + "/action/#" := Some(bindings[td.id])]
                && State() == R.After(S.AsWritten, ActionFilter, old(State()), R.Add(td.id, eThing, bindings[td.id]))
      ensures R.Agree(ActionFilter, old(State()), Owner) ==> R.Agree(ActionFilter, State(), Owner)
    {
      ghost var was := State();
      found := td.id in etMap;
      if found {
        eThing := etMap[td.id];
      } else {
        eThing := Create(deviceID, td, tokenError);
        R.FactoryAdds(ActionFilter, was, td.id, eThing, bindings[td.id], Owner);
      }
    }

    /** The part of Expose for a new ID. */
    method Create(deviceID: string, td: ThingTD, tokenError: bool) returns (eThing: ExposedThing<H>)
      requires Valid() && td.id !in etMap
      modifies this, mqttClient`pahoClient, mqttClient`subscriptions, mqttClient`published
      ensures Valid()
      ensures mqttClient.published == old(mqttClient.published)
                + if mqttClient.IsConnected() && !tokenError then [("things/" + td.id + "/td", Description(td))] else []
      ensures fresh(eThing) && eThing.td == td && eThing.deviceID == deviceID
      ensures && td.id in bindings && eThing.hooks == bindings[td.id] && bindings[td.id].eThing == eThing
              && etMap == old(etMap)[td.id := eThing] && bindings == old(bindings)[td.id := bindings[td.id]]
              && mqttClient.subscriptions
                 == old(mqttClient.subscriptions)["things/" + td.id + "/action/#" := Some(bindings[td.id])]
              && State() == R.After(S.AsWritten, ActionFilter, old(State()), R.Add(td.id, eThing, bindings[td.id]))
    {
      eThing := new ExposedThing<H>(deviceID, td);
      var binding := new ExposedThingMqttBinding<H>(eThing, mqttClient);
      bindings := bindings[td.id := binding];
      etMap := etMap[td.id := eThing];
      mqttClient.SameState();
      binding.Start(tokenError);
      TopicTexts(td.id, "");
    }

    /** The thing destroyed may be an older instance; the tables are looked up by its ID. */
    method Destroy(eThing: ExposedThing<H>)
      requires Valid()
      modifies this`bindings, this`etMap, mqttClient`pahoClient, mqttClient`subscriptions
      modifies eThing`actionHandlers, eThing`propertyWriteHandlers
      ensures Valid() && State() == R.After(S.AsWritten, ActionFilter, old(State()), R.Destroy(eThing.td.id))
      ensures etMap == old(etMap) - {eThing.td.id} && bindings == old(bindings) - {eThing.td.id}
      ensures var filter, subs := "things/" + eThing.td.id + "/action/#", old(mqttClient.subscriptions);
              mqttClient.subscriptions
              == if eThing.td.id in old(bindings) && mqttClient.pahoClient.Paho? && filter in subs && subs[filter].Some?
                 then subs[filter := None] else subs
      ensures eThing.Handlers() == D.Handlers(None, None)
      ensures R.Agree(ActionFilter, old(State()), Owner) ==>
                (R.Agree(ActionFilter, State(), Owner) <==> old(mqttClient.pahoClient.Paho?)
                                                                 || eThing.td.id !in old(bindings))
    {
      ghost var was := State();
      var id := eThing.td.id;
      var binding := if id in bindings then bindings[id] else null;
      if binding != null {
        binding.Stop();
      }
      label Stopped:
      bindings := bindings - {id};
      eThing.Destroy();
      etMap := etMap - {id};
      mqttClient.SameState@Stopped();
      R.FactoryDestroys(ActionFilter, was, id, Owner);
      TopicTexts(id, "");
    }

    /** Drops the subscriptions of a live client and keeps the things. */
    method Disconnect()
      requires Valid()
      modifies mqttClient`isRunning, mqttClient`pahoClient, mqttClient`subscriptions
      ensures Valid() && State() == R.After(S.AsWritten, ActionFilter, old(State()), R.Net(S.Disconnect))
      ensures mqttClient.pahoClient == NoPaho
      ensures mqttClient.subscriptions == if old(mqttClient.pahoClient.Paho?) then map[]
                                          else old(mqttClient.subscriptions)
    {
      mqttClient.Disconnect();
    }

    /** Unlike a consumer's, this does not begin with Disconnect. */
    method Connect(hasCert: bool, reachable: nat -> bool) returns (failed: bool, ghost attempts: nat)
      requires Valid()
      modifies mqttClient`isRunning, mqttClient`pahoClient, mqttClient`pending
      ensures Valid() && attempts > 0
      ensures mqttClient.pahoClient == if !hasCert then old(mqttClient.pahoClient)
                                       else Paho(if reachable(attempts - 1) then S.Up else S.Idle, map[])
      ensures mqttClient.pending == old(mqttClient.pending) + if hasCert && reachable(attempts - 1) then 1 else 0
      ensures failed <==> !hasCert || !reachable(attempts - 1)
      ensures State() == if hasCert then R.Connected(ActionFilter, old(State()), reachable(attempts - 1))
                         else old(State())
    {
      if !hasCert {
        return true, 1;
      }
      var tries, slept;
      failed, tries, slept := mqttClient.Connect(reachable);
      attempts := tries;
    }
  }
}
