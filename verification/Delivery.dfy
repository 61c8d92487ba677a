/** The consumer side as one run: things are consumed and destroyed, connections made, lost, restored and given up, and
    events of any thing arrive at any time. Session, topics, tables and caches together, for the intended code.
 */
module Delivery {
  import opened Wrappers
  import opened Topics
  import opened Things
  import C = Consuming
  import R = Registry
  import Serving
  import S = Session

  datatype Happening<T, B> =
    | Does(step: R.Step<T, B>)
    | Arrives(id: string, name: string, payload: Payload)  // an event of thing `id`

  function StepOf<T, B>(h: Happening<T, B>): R.Step<T, B> {
    match h
    case Does(step) => step
    case Arrives(id, name, _) => R.Net(S.Deliver(EventTopic(id, name)))
  }

  function Steps<T, B>(run: seq<Happening<T, B>>): (steps: seq<R.Step<T, B>>)
    ensures |steps| == |run| && forall i :: 0 <= i < |run| ==> steps[i] == StepOf(run[i])
  {
    seq(|run|, i requires 0 <= i < |run| => StepOf(run[i]))
  }

  ghost function After<T, B>(run: seq<Happening<T, B>>): R.Registry<T, B> {
    R.AfterAll(S.AsIntended, EventFilter, R.Empty(), Steps(run))
  }

  lemma AfterStep<T, B>(run: seq<Happening<T, B>>)
    requires run != []
    ensures After(run) == R.After(S.AsIntended, EventFilter, After(run[..|run| - 1]), StepOf(run[|run| - 1]))
  {
    assert Steps(run)[..|run| - 1] == Steps(run[..|run| - 1]);
  }

  ghost predicate Adds<T, B>(h: Happening<T, B>, b: B) {
    h.Does? && h.step.Add? && h.step.binding == b
  }

  /** A run in which every binding is made once, for the ID it is added with. */
  ghost predicate Regular<T, B>(run: seq<Happening<T, B>>, idOf: B -> string) {
    forall i :: 0 <= i < |run| ==>
      match run[i]
      case Does(Add(id, _, b)) => R.PlainID(id) && idOf(b) == id && forall j :: 0 <= j < i ==> !Adds(run[j], b)
      case Does(Destroy(_)) => true
      case Does(Net(e)) => !e.Subscribe? && !e.Unsubscribe? && !e.Deliver?
      case Arrives(id, name, _) => R.PlainID(id) && '/' !in name
  }

  /** Such a run goes on with any destroy, connection event or event of a thing, and with a binding not made before. */
  lemma {:induction false} RegularGrows<T, B>(run: seq<Happening<T, B>>, h: Happening<T, B>, idOf: B -> string)
    ensures Regular<T, B>([], idOf)
    ensures Regular(run + [h], idOf)
        <==> && Regular(run, idOf)
             && match h
                case Does(Add(id, _, b)) =>
                  && R.PlainID(id) && idOf(b) == id
                  && forall j :: 0 <= j < |run| && run[j].Does? && run[j].step.Add? ==> run[j].step.binding != b
                case Does(Destroy(_)) => true
                case Does(Net(e)) => !e.Subscribe? && !e.Unsubscribe? && !e.Deliver?
                case Arrives(id, name, _) => R.PlainID(id) && '/' !in name
  {
    var all := run + [h];
    assert all[|run|] == h && forall j :: 0 <= j < |run| ==> all[j] == run[j];
    assert all[..|all| - 1] == run;
    if Regular(all, idOf) {
      RegularPrefix(all, idOf);
    }
  }

  /** The connection is up and thing `id` has its route. */
  ghost predicate Listening<T, B>(run: seq<Happening<T, B>>, id: string) {
    var s := After(run).session;
    !s.crashed && s.Connected() && EventFilter(id) in s.paho.routes
  }

  /** The messages that reach binding `b`. */
  ghost function Heard<T, B, L>(run: seq<Happening<T, B>>, b: B): seq<C.Input<L>> {
    if run == [] then []
    else
      var front, h := run[..|run| - 1], run[|run| - 1];
      var s := After(front).session;
      Heard<T, B, L>(front, b)
      + if h.Arrives? && !s.crashed && s.Connected()
           && Some(b) in S.Receivers(s.paho.routes, EventTopic(h.id, h.name)).Values
        then [C.Message(EventTopic(h.id, h.name), h.payload)]
        else []
  }

  /** The events of thing `id` since it was consumed that arrived while it was listening. */
  ghost function Events<T, B, L>(run: seq<Happening<T, B>>, id: string): seq<C.Input<L>> {
    if run == [] then []
    else
      var front, h := run[..|run| - 1], run[|run| - 1];
      var r := After(front);
      if r.session.crashed then Events(front, id)
      else match h
      case Does(Add(id', _, _)) => if id' == id && id !in r.things then [] else Events(front, id)
      case Does(Destroy(id')) => if id' == id then [] else Events(front, id)
      case Does(Net(_)) => Events(front, id)
      case Arrives(id', name, payload) =>
        Events<T, B, L>(front, id)
        + if id' == id && Listening(front, id) then [C.Message(EventTopic(id, name), payload)] else []
  }

  /** The payload of the latest of these events with the name `name`. */
  ghost function LastArrival<T, B>(run: seq<Happening<T, B>>, id: string, name: string): Option<Payload> {
    if run == [] then None
    else
      var front, h := run[..|run| - 1], run[|run| - 1];
      var r := After(front);
      if r.session.crashed then LastArrival(front, id, name)
      else match h
      case Does(Add(id', _, _)) => if id' == id && id !in r.things then None else LastArrival(front, id, name)
      case Does(Destroy(id')) => if id' == id then None else LastArrival(front, id, name)
      case Does(Net(_)) => LastArrival(front, id, name)
      case Arrives(id', name', payload) =>
        if id' == id && name' == name && Listening(front, id) then Some(payload) else LastArrival(front, id, name)
  }

  lemma RegularPrefix<T, B>(run: seq<Happening<T, B>>, idOf: B -> string)
    requires run != [] && Regular(run, idOf)
    ensures Regular(run[..|run| - 1], idOf)
  {
    var front := run[..|run| - 1];
    forall i | 0 <= i < |front|
      ensures front[i] == run[i] && front[..i] == run[..i]
    {
    }
  }

  ghost predicate Made<T, B>(run: seq<Happening<T, B>>, b: B) {
    exists i :: 0 <= i < |run| && Adds(run[i], b)
  }

  lemma MadeStep<T, B>(run: seq<Happening<T, B>>, b: B)
    requires run != []
    ensures Made(run, b) <==> Made(run[..|run| - 1], b) || Adds(run[|run| - 1], b)
  {
    var front := run[..|run| - 1];
    assert forall i :: 0 <= i < |front| ==> front[i] == run[i];
    if Made(front, b) {
      var i :| 0 <= i < |front| && Adds(front[i], b);
      assert Adds(run[i], b);
    }
  }

  ghost predicate TablesOf<T, B>(run: seq<Happening<T, B>>, r: R.Registry<T, B>, idOf: B -> string) {
    && r.things.Keys == r.bindings.Keys
    && forall id :: id in r.bindings ==>
         R.PlainID(id) && idOf(r.bindings[id]) == id && Made(run, r.bindings[id])
  }

  lemma TablesStep<T, B>(front: seq<Happening<T, B>>, run: seq<Happening<T, B>>, r: R.Registry<T, B>,
                         step: R.Step<T, B>, idOf: B -> string)
    requires TablesOf(front, r, idOf) && forall b :: Made(front, b) ==> Made(run, b)
    requires step.Add? ==> R.PlainID(step.id) && idOf(step.binding) == step.id && Made(run, step.binding)
    ensures TablesOf(run, R.After(S.AsIntended, EventFilter, r, step), idOf)
  {
  }

  /** The tables of a regular run: every binding was added under its own ID. */
  lemma {:induction false} Tables<T, B>(run: seq<Happening<T, B>>, idOf: B -> string)
    requires Regular(run, idOf)
    ensures TablesOf(run, After(run), idOf)
  {
    if run != [] {
      var front, h := run[..|run| - 1], run[|run| - 1];
      RegularPrefix(run, idOf);
      Tables(front, idOf);
      AfterStep(run);
      forall b
        ensures Made(run, b) <==> Made(front, b) || Adds(h, b)
      {
        MadeStep(run, b);
      }
      TablesStep(front, run, After(front), StepOf(h), idOf);
    }
  }

  /** Over an up connection an event takes the route of its thing, if that is there, and no other. */
  lemma {:induction false} ArrivalRouted<T, B>(run: seq<Happening<T, B>>, idOf: B -> string, id: string, name: string)
    requires Regular(run, idOf) && R.PlainID(id) && !After(run).session.crashed && After(run).session.Connected()
    ensures var r := After(run);
            && (Listening(run, id) ==> id in r.bindings)
            && (r.session.Settled() ==> (Listening(run, id) <==> id in Serving.Fresh(Steps(run))))
            && S.Receivers(r.session.paho.routes, EventTopic(id, name))
            == if Listening(run, id) then map[EventFilter(id) := Some(r.bindings[id])] else map[]
  {
    Tables(run, idOf);
    RegularSteps(run, idOf);
    R.ThingFiltersInjective();
    Serving.RunIs(S.AsIntended, EventFilter, Steps(run));
    forall i | i in Serving.Made(Steps(run))
      ensures Matches(EventFilter(i), EventTopic(id, name)) <==> i == id
    {
      TopicIsolation(id, name, i);
    }
    Serving.Delivered(EventFilter, Steps(run), id, EventTopic(id, name));
  }

  /** A settled session listens for exactly the things consumed since the last Disconnect that met a client. */
  lemma {:induction false} ListeningWhenSettled<T, B>(run: seq<Happening<T, B>>, idOf: B -> string, id: string)
    requires Regular(run, idOf) && R.PlainID(id) && After(run).session.Settled()
    ensures Listening(run, id) <==> id in Serving.Fresh(Steps(run))
  {
    ArrivalRouted(run, idOf, id, "");
  }

  /** So the event is heard by the binding of its thing, if that is listening, and by no other. */
  lemma {:induction false} ArrivalHeard<T, B>(run: seq<Happening<T, B>>, idOf: B -> string, id: string, name: string,
                                              b: B)
    requires Regular(run, idOf) && R.PlainID(id) && !After(run).session.crashed && After(run).session.Connected()
    ensures Some(b) in S.Receivers(After(run).session.paho.routes, EventTopic(id, name)).Values
        <==> Listening(run, id) && id in After(run).bindings && After(run).bindings[id] == b
  {
    ArrivalRouted(run, idOf, id, name);
    OneReceiver(S.Receivers(After(run).session.paho.routes, EventTopic(id, name)), EventFilter(id),
                After(run).bindings, id, b);
  }

  lemma OneReceiver<B>(got: map<string, Option<B>>, t: string, bindings: map<string, B>, id: string, b: B)
    ensures got == map[] ==> Some(b) !in got.Values
    ensures id in bindings && got == map[t := Some(bindings[id])] ==> (Some(b) in got.Values <==> bindings[id] == b)
  {
    if id in bindings && got == map[t := Some(bindings[id])] {
      assert got[t] in got.Values;
    }
  }

  lemma RegularSteps<T, B>(run: seq<Happening<T, B>>, idOf: B -> string)
    requires Regular(run, idOf)
    ensures Serving.NetSteps(Steps(run))
  {
    forall i | 0 <= i < |run|
      ensures R.NetStep(Steps(run)[i])
    {
      assert Steps(run)[i] == StepOf(run[i]);
    }
  }

  /** What binding `b` hears of one more happening. */
  lemma {:induction false} HeardStep<T, B, L>(run: seq<Happening<T, B>>, idOf: B -> string, b: B)
    requires run != [] && Regular(run, idOf)
    ensures var front, h := run[..|run| - 1], run[|run| - 1];
            var bindings := After(front).bindings;
            Heard<T, B, L>(run, b)
            == if h.Arrives? && Listening(front, h.id) && h.id in bindings && bindings[h.id] == b
               then Heard<T, B, L>(front, b) + [C.Message(EventTopic(h.id, h.name), h.payload)]
               else Heard<T, B, L>(front, b)
  {
    var front, h := run[..|run| - 1], run[|run| - 1];
    RegularPrefix(run, idOf);
    if h.Arrives? && !After(front).session.crashed && After(front).session.Connected() {
      ArrivalHeard(front, idOf, h.id, h.name, b);
    }
    var before: seq<C.Input<L>> := Heard(front, b);
    assert before + [] == before;
  }

  /** A binding that has not been made hears nothing. */
  lemma {:induction false} UnmadeHearsNothing<T, B, L>(run: seq<Happening<T, B>>, idOf: B -> string,
                                                       b: B)
    requires Regular(run, idOf) && !Made(run, b)
    ensures Heard<T, B, L>(run, b) == []
  {
    if run != [] {
      RegularPrefix(run, idOf);
      MadeStep(run, b);
      UnmadeHearsNothing<T, B, L>(run[..|run| - 1], idOf, b);
      Tables(run[..|run| - 1], idOf);
      HeardStep<T, B, L>(run, idOf, b);
    }
  }

  /** A binding in the table was there before, or has just been made. */
  lemma {:induction false} BindingsStep<T, B>(run: seq<Happening<T, B>>, idOf: B -> string, id: string)
    requires run != [] && Regular(run, idOf) && id in After(run).bindings
    ensures var front, h := run[..|run| - 1], run[|run| - 1];
            var bindings, b := After(front).bindings, After(run).bindings[id];
            && Regular(front, idOf)
            && After(front).things.Keys == bindings.Keys
            && (forall i :: i in bindings ==> idOf(bindings[i]) == i)
            && if id in bindings then bindings[id] == b && (After(front).session.crashed || h != Does(R.Destroy(id)))
               else !After(front).session.crashed && h.Does? && h.step.Add? && h.step.id == id && !Made(front, b)
  {
    var front, h := run[..|run| - 1], run[|run| - 1];
    RegularPrefix(run, idOf);
    Tables(front, idOf);
    AfterStep(run);
    if id !in After(front).bindings {
      assert h.Does? && h.step.Add? && h.step.id == id && h.step.binding == After(run).bindings[id];
      assert forall j :: 0 <= j < |front| ==> front[j] == run[j];
    }
  }

  /** A consumed thing hears exactly its own events that arrive while it is listening, once and in order, across any
      number of connections. */
  lemma {:induction false} HearsItsEvents<T, B, L>(run: seq<Happening<T, B>>, idOf: B -> string,
                                                   id: string)
    requires Regular(run, idOf) && id in After(run).bindings
    ensures Heard<T, B, L>(run, After(run).bindings[id]) == Events<T, B, L>(run, id)
  {
    if run != [] {
      var front, h := run[..|run| - 1], run[|run| - 1];
      var b := After(run).bindings[id];
      BindingsStep(run, idOf, id);
      HeardStep<T, B, L>(run, idOf, b);
      if id in After(front).bindings {
        HearsItsEvents<T, B, L>(front, idOf, id);
        assert h.Arrives? && h.id != id && h.id in After(front).bindings ==> After(front).bindings[h.id] != b;
      } else {
        UnmadeHearsNothing<T, B, L>(front, idOf, b);
      }
    }
  }

  /** The events of thing `id` from its last making to the first Disconnect that meets a client. */
  function FreshEvents<T, B, L>(run: seq<Happening<T, B>>, id: string): seq<C.Input<L>> {
    if run == [] then []
    else
      var front, h := run[..|run| - 1], run[|run| - 1];
      match h
      case Does(Add(id', _, _)) =>
        if id' == id && id !in Serving.Made(Steps(front)) then [] else FreshEvents(front, id)
      case Does(Destroy(id')) => if id' == id then [] else FreshEvents(front, id)
      case Does(Net(_)) => FreshEvents(front, id)
      case Arrives(id', name, payload) =>
        FreshEvents<T, B, L>(front, id)
        + if id' == id && id in Serving.Fresh(Steps(front)) then [C.Message(EventTopic(id, name), payload)] else []
  }

  /** Where events only arrive while the session is settled, a thing hears all of its events from its making to the
      first Disconnect that meets a client, none after that, and none of another thing. */
  lemma {:induction false} HearsFreshEvents<T, B, L>(run: seq<Happening<T, B>>, idOf: B -> string, id: string)
    requires Regular(run, idOf) && !After(run).session.crashed
    requires forall i :: 0 <= i < |run| && run[i].Arrives? ==> After(run[..i]).session.Settled()
    ensures Events<T, B, L>(run, id) == FreshEvents<T, B, L>(run, id)
    ensures id in After(run).bindings ==>
              Heard<T, B, L>(run, After(run).bindings[id]) == FreshEvents<T, B, L>(run, id)
  {
    if run != [] {
      var front, h := run[..|run| - 1], run[|run| - 1];
      RegularPrefix(run, idOf);
      AfterStep(run);
      assert forall i :: 0 <= i < |front| ==> front[i] == run[i] && front[..i] == run[..i];
      HearsFreshEvents<T, B, L>(front, idOf, id);
      Serving.RunIs(S.AsIntended, EventFilter, Steps(front));
      if h.Arrives? && h.id == id {
        ListeningWhenSettled(front, idOf, id);
      }
    }
    if id in After(run).bindings {
      HearsItsEvents<T, B, L>(run, idOf, id);
    }
  }

  lemma {:induction false} LatestEvent<T, B, L>(run: seq<Happening<T, B>>, idOf: B -> string, id: string,
                                                name: string)
    requires Regular(run, idOf)
    ensures C.Latest(Events<T, B, L>(run, id), name) == LastArrival(run, id, name)
    ensures forall i :: 0 <= i < |Events<T, B, L>(run, id)| ==> Events<T, B, L>(run, id)[i].Message?
  {
    if run != [] {
      var front, h := run[..|run| - 1], run[|run| - 1];
      RegularPrefix(run, idOf);
      LatestEvent<T, B, L>(front, idOf, id, name);
      var before: seq<C.Input<L>> := Events(front, id);
      if h.Arrives? && h.id == id && Listening(front, id) {
        EventAdded(before, id, h.name, h.payload, name);
      } else if h.Arrives? {
        assert Events<T, B, L>(run, id) == before;
      }
    }
  }

  lemma {:induction false} EventAdded<L>(before: seq<C.Input<L>>, id: string, name: string, payload: Payload,
                                         asked: string)
    requires R.PlainID(id) && '/' !in name
    ensures var m: C.Input<L> := C.Message(EventTopic(id, name), payload);
            C.Latest(before + [m], asked) == if name == asked then Some(payload) else C.Latest(before, asked)
  {
    var m: C.Input<L> := C.Message(EventTopic(id, name), payload);
    assert (before + [m])[..|before|] == before;
    EventNameRecovered(id, name);
  }

  /** So over every run, whatever connections did, the cache of a consumed thing holds, for exactly the names of its
      TD, what arrived last for it while it was listening. */
  lemma {:induction false} CacheAcrossReconnects<T, B, L>(run: seq<Happening<T, B>>, idOf: B -> string,
                                                          td: ThingTD, id: string, name: string)
    requires Regular(run, idOf) && id in After(run).bindings
    ensures var store := C.Run<L>(td, Heard(run, After(run).bindings[id])).consumer.valueStore;
            match LastArrival(run, id, name)
            case None => name !in store
            case Some(payload) =>
              if C.Known(td, name) then name in store && store[name] == FromJson(payload, C.SchemaOf(td, name))
              else name !in store
  {
    HearsItsEvents<T, B, L>(run, idOf, id);
    LatestEvent<T, B, L>(run, idOf, id, name);
    var heard: seq<C.Input<L>> := Events(run, id);
    C.MessagesOnly(td, heard);
    C.CacheIsLatest(td, heard, name);
  }
}
