/** From a consumer's WriteProperty or InvokeAction, over the message bus, to a handler of the exposed thing. */
module Requests {
  import opened Wrappers
  import opened Text
  import opened Topics
  import opened Things
  import opened Dispatch

  /** The message that carries a request. */
  datatype Request = Request(topic: string, payload: Payload)

  /** WriteProperty of the consumed thing binding: any name goes. */
  function WriteProperty(td: ThingTD, name: string, value: Json): Request {
    Request(ActionTopic(td.id, name), Encoded(value))
  }

  /** InvokeAction refuses names that are not actions of the TD. */
  function InvokeAction(td: ThingTD, name: string, data: Json): Option<Request> {
    if name in td.actions then Some(Request(ActionTopic(td.id, name), Encoded(data))) else None
  }

  /** handleActionRequest of the exposed thing binding. */
  function Receive<H>(td: ThingTD, h: Handlers<H>, r: Request): Option<Invocation<H>> {
    match RequestName(r.topic)
    case NoName => None
    case Named(name) => HandleRequest(td, h, name, r.payload)
  }

  /** For every history of handler settings: writing a '/'-free name of a thing whose ID is not empty ends at the
      handler responsible for that name, with that name and value. A name that is an action goes to the action
      handlers even when it is a property too; of the other names only writable properties are heard. */
  lemma WriteArrives<H>(td: ThingTD, history: seq<Setting<H>>, name: string, value: Json)
    requires '/' !in td.id && !HasWildcard(td.id) && td.id != "" && '/' !in name
    ensures var r := WriteProperty(td, name, value);
            && Matches(ActionFilter(td.id), r.topic)
            && Receive(td, HandlersAfter(history), r) ==
                 if name in td.actions then
                   match Responsible(history, Action, name)
                   case None => None
                   case Some(handler) =>
                     Some(Invocation(Action, handler, name, FromJson(Encoded(value), td.actions[name])))
                 else if name in td.properties && !td.properties[name].readOnly then
                   match Responsible(history, PropertyWrite, name)
                   case None => None
                   case Some(handler) =>
                     Some(Invocation(PropertyWrite, handler, name, FromValue(value, td.properties[name])))
                 else None
  {
    TopicIsolation(td.id, name, td.id);
    RequestNameRecovered(td.id, name);
    DispatchByHistory(td, history, name, Encoded(value));
  }

  /** Invoking an action is the same request, and is sent only for actions. */
  lemma InvokeArrives<H>(td: ThingTD, history: seq<Setting<H>>, name: string, data: Json)
    requires '/' !in td.id && !HasWildcard(td.id) && td.id != "" && '/' !in name && name in td.actions
    ensures var r := InvokeAction(td, name, data);
            && r.Some? && Matches(ActionFilter(td.id), r.value.topic)
            && Receive(td, HandlersAfter(history), r.value)
               == match Responsible(history, Action, name)
                  case None => None
                  case Some(handler) =>
                    Some(Invocation(Action, handler, name, FromJson(Encoded(data), td.actions[name])))
  {
    WriteArrives(td, history, name, data);
  }

  /** Other names are not sent. */
  lemma OnlyActionsSent(td: ThingTD, name: string, data: Json)
    ensures InvokeAction(td, name, data) == None <==> name !in td.actions
  {
  }

  /** A name with a '/' arrives as its first level: the request goes to whatever has that name. An empty thing ID
      makes every request disappear. */
  lemma {:induction false} OtherNamesGoAstray<H>(td: ThingTD, h: Handlers<H>, name: string, value: Json)
    requires '/' !in td.id
    ensures var r := WriteProperty(td, name, value);
            Receive(td, h, r) == if td.id == "" then None else HandleRequest(td, h, Split(name, '/')[0], Encoded(value))
  {
    RequestNameRecovered(td.id, name);
  }

  /** Whatever arrives, on whatever topic: a write handler runs only for a property that can be written and is not
      an action, and only for a message that is JSON. */
  lemma WriteHandlersProtected<H>(td: ThingTD, h: Handlers<H>, r: Request)
    ensures var i := Receive(td, h, r);
            i.Some? && i.value.kind == PropertyWrite ==>
              && RequestName(r.topic) == Named(i.value.name) && i.value.name !in td.actions
              && i.value.name in td.properties && !td.properties[i.value.name].readOnly
              && r.payload.Encoded? && i.value.value == FromValue(r.payload.value, td.properties[i.value.name])
  {
    var n := RequestName(r.topic);
  }
}
