/** What a consumed thing caches and whom it notifies, as functions of its history of messages and registrations. */
module Consuming {
  import opened Wrappers
  import opened Text
  import opened Topics
  import opened Things

  datatype Kind = EventKind | PropertyKind

  /** The maps of a ConsumedThing: one listener at most per event and per property. SubscribeEvent stores a nil handler
      as it comes. */
  datatype Consumer<L> = Consumer(
    valueStore: map<string, InteractionOutput>,
    subscriptions: map<string, Option<L>>,
    observations: map<string, L>)

  /** A call of a listener. */
  datatype Note<L> = Note(kind: Kind, listener: L, name: string, value: InteractionOutput)

  /** Calling a nil handler panics, which ends the process. */
  datatype Outcome<L> = Outcome(consumer: Consumer<L>, notes: seq<Note<L>>, panicked: bool)

  function Init<L>(): Consumer<L> {
    Consumer(map[], map[], map[])
  }

  function HandleEvent<L>(td: ThingTD, c: Consumer<L>, name: string, message: Payload): Outcome<L> {
    if name !in td.events then Outcome(c, [], false)
    else
      var evData := FromJson(message, td.events[name]);
      var stored := c.(valueStore := c.valueStore[name := evData]);
      if name !in c.subscriptions then Outcome(stored, [], false)
      else
        match c.subscriptions[name]
        case None => Outcome(stored, [], true)
        case Some(listener) => Outcome(stored, [Note(EventKind, listener, name, evData)], false)
  }

  function HandlePropertyChange<L>(td: ThingTD, c: Consumer<L>, name: string, message: Payload): Outcome<L> {
    if name !in td.properties then Outcome(c, [], false)
    else
      var evData := FromJson(message, td.properties[name]);
      Outcome(c.(valueStore := c.valueStore[name := evData]),
              if name in c.observations then [Note(PropertyKind, c.observations[name], name, evData)] else [],
              false)
  }

  /** A name that is both an event and a property is handled as both, the property last. */
  function HandleNamed<L>(td: ThingTD, c: Consumer<L>, name: string, message: Payload): Outcome<L> {
    var asEvent := HandleEvent(td, c, name, message);
    if asEvent.panicked then asEvent
    else
      var asProperty := HandlePropertyChange(td, asEvent.consumer, name, message);
      Outcome(asProperty.consumer, asEvent.notes + asProperty.notes, false)
  }

  /** The binding's handleEvent */
  function HandleMessage<L>(td: ThingTD, c: Consumer<L>, topic: string, message: Payload): Outcome<L> {
    match EventName(topic)
    case NoName => Outcome(c, [], false)
    case Named(name) => HandleNamed(td, c, name, message)
  }

  function Registered<L>(c: Consumer<L>, kind: Kind): map<string, Option<L>> {
    if kind == EventKind then c.subscriptions else map n | n in c.observations :: Some(c.observations[n])
  }

  /** A registration is refused when there is one for the name already, and so is a nil observer. */
  predicate Accepts<L>(c: Consumer<L>, kind: Kind, name: string, listener: Option<L>) {
    name !in Registered(c, kind) && (kind == PropertyKind ==> listener.Some?)
  }

  function Register<L>(c: Consumer<L>, kind: Kind, name: string, listener: Option<L>): Consumer<L> {
    if !Accepts(c, kind, name, listener) then c
    else if kind == EventKind then c.(subscriptions := c.subscriptions[name := listener])
    else c.(observations := c.observations[name := listener.value])
  }

  // ---- Histories ----

  datatype Input<L> =
    | Message(topic: string, payload: Payload)
    | Listen(kind: Kind, name: string, listener: Option<L>)
    | Stop

  function Step<L>(td: ThingTD, c: Consumer<L>, i: Input<L>): Outcome<L> {
    match i
    case Message(topic, payload) => HandleMessage(td, c, topic, payload)
    case Listen(kind, name, listener) => Outcome(Register(c, kind, name, listener), [], false)
    case Stop => Outcome(Init(), [], false)
  }

  /** The consumed thing after a history, with all calls made; nothing happens after a panic. */
  function Run<L>(td: ThingTD, history: seq<Input<L>>): Outcome<L> {
    if history == [] then Outcome(Init(), [], false)
    else
      var before := Run(td, history[..|history| - 1]);
      if before.panicked then before
      else
        var now := Step(td, before.consumer, history[|history| - 1]);
        Outcome(now.consumer, before.notes + now.notes, now.panicked)
  }

  predicate Carries<L>(i: Input<L>, name: string) {
    i.Message? && EventName(i.topic) == Named(name)
  }

  /** The latest message for `name` since the last Stop. */
  function Latest<L>(history: seq<Input<L>>, name: string): Option<Payload> {
    if history == [] then None
    else
      var i := history[|history| - 1];
      if i.Stop? then None
      else if Carries(i, name) then Some(i.payload)
      else Latest(history[..|history| - 1], name)
  }

  predicate Known(td: ThingTD, name: string) {
    name in td.events || name in td.properties
  }

  /** The schema that decides about a cached value: that of the property if the name is one. */
  function SchemaOf(td: ThingTD, name: string): DataSchema
    requires Known(td, name)
  {
    if name in td.properties then td.properties[name] else td.events[name]
  }

  function Cached<L>(td: ThingTD, history: seq<Input<L>>, name: string): Option<InteractionOutput> {
    if Known(td, name) && Latest(history, name).Some?
    then Some(FromJson(Latest(history, name).value, SchemaOf(td, name)))
    else None
  }

  lemma CacheOfNamed<L>(td: ThingTD, c: Consumer<L>, n: string, message: Payload, name: string)
    requires !HandleNamed(td, c, n, message).panicked
    ensures var before, after := c.valueStore, HandleNamed(td, c, n, message).consumer.valueStore;
            if n == name && Known(td, name) then name in after && after[name] == FromJson(message, SchemaOf(td, name))
            else (name in after <==> name in before) && (name in after ==> after[name] == before[name])
  {
  }

  lemma CacheStep<L>(td: ThingTD, c: Consumer<L>, i: Input<L>, name: string)
    requires !Step(td, c, i).panicked
    ensures var before, after := c.valueStore, Step(td, c, i).consumer.valueStore;
            if i.Stop? then name !in after
            else if Carries(i, name) && Known(td, name)
            then name in after && after[name] == FromJson(i.payload, SchemaOf(td, name))
            else (name in after <==> name in before) && (name in after ==> after[name] == before[name])
  {
    if i.Message? {
      var n := EventName(i.topic);
      if n.Named? {
        CacheOfNamed(td, c, n.name, i.payload, name);
      }
    }
  }

  /** The cache is a fold of the history: it holds, for exactly the names of the TD, the latest message since the
      last Stop. */
  lemma {:induction false} CacheIsLatest<L>(td: ThingTD, history: seq<Input<L>>, name: string)
    requires !Run(td, history).panicked
    ensures var store := Run(td, history).consumer.valueStore;
            (if name in store then Some(store[name]) else None) == Cached(td, history, name)
  {
    if history != [] {
      var front := history[..|history| - 1];
      CacheIsLatest(td, front, name);
      CacheStep(td, Run(td, front).consumer, history[|history| - 1], name);
    }
  }

  /** Message `i` is the last one for the name, and no Stop came after it. */
  predicate LastMessage<L>(history: seq<Input<L>>, name: string, i: nat)
    requires i < |history|
  {
    && history[i].Message? && EventName(history[i].topic) == Named(name)
    && forall j :: i < j < |history| ==>
         !history[j].Stop? && !(history[j].Message? && EventName(history[j].topic) == Named(name))
  }

  /** `Latest` is the payload of that message. */
  lemma {:induction false} LatestExactly<L>(history: seq<Input<L>>, name: string, payload: Payload)
    ensures Latest(history, name) == Some(payload)
        <==> exists i: nat :: i < |history| && LastMessage(history, name, i) && history[i].payload == payload
  {
    if history != [] {
      var front, n := history[..|history| - 1], |history| - 1;
      LatestExactly(front, name, payload);
      if history[n].Stop? {
        assert forall i: nat :: i < n ==> !LastMessage(history, name, i);
      } else if Carries(history[n], name) {
        assert LastMessage(history, name, n);
        assert forall i: nat :: i < n ==> !LastMessage(history, name, i);
      } else {
        forall i: nat | i < n
          ensures LastMessage(front, name, i) <==> LastMessage(history, name, i)
        {
          assert forall j :: i <= j < n ==> front[j] == history[j];
        }
      }
    }
  }

  /** The registration made first since the last Stop; a nil observer does not count, a nil subscriber does. */
  function First<L>(history: seq<Input<L>>, kind: Kind, name: string): Option<Option<L>> {
    if history == [] then None
    else
      var i := history[|history| - 1];
      var before := First(history[..|history| - 1], kind, name);
      if i.Stop? then None
      else if before.None? && i.Listen? && i.kind == kind && i.name == name
              && (kind == PropertyKind ==> i.listener.Some?)
      then Some(i.listener)
      else before
  }

  /** Input `i` registers a listener for the name: an observer that is not nil, or any subscriber. */
  predicate Asks<L>(i: Input<L>, kind: Kind, name: string) {
    i.Listen? && i.kind == kind && i.name == name && (kind == EventKind || i.listener.Some?)
  }

  /** It is the first one to do so since the last Stop. */
  predicate FirstAsking<L>(history: seq<Input<L>>, kind: Kind, name: string, i: nat)
    requires i < |history|
  {
    && Asks(history[i], kind, name)
    && (forall j :: i < j < |history| ==> !history[j].Stop?)
    && forall j :: 0 <= j < i && Asks(history[j], kind, name) ==> exists k :: j < k < i && history[k].Stop?
  }

  lemma {:induction false} FirstIs<L>(history: seq<Input<L>>, kind: Kind, name: string, i: nat)
    requires i < |history| && FirstAsking(history, kind, name, i)
    ensures First(history, kind, name) == Some(history[i].listener)
  {
    var front := history[..|history| - 1];
    assert forall j :: 0 <= j < |front| ==> front[j] == history[j];
    if i == |history| - 1 {
      NoneAsking(front, kind, name);
    } else {
      FirstIs(front, kind, name, i);
    }
  }

  lemma {:induction false} NoneAsking<L>(history: seq<Input<L>>, kind: Kind, name: string)
    requires forall j :: 0 <= j < |history| && Asks(history[j], kind, name) ==>
               exists k :: j < k < |history| && history[k].Stop?
    ensures First(history, kind, name) == None
  {
    if history != [] {
      var front, n := history[..|history| - 1], |history| - 1;
      assert !Asks(history[n], kind, name);
      if !history[n].Stop? {
        forall j | 0 <= j < |front| && Asks(front[j], kind, name)
          ensures exists k :: j < k < |front| && front[k].Stop?
        {
          assert history[j] == front[j];
          var k :| j < k < |history| && history[k].Stop?;
          assert front[k].Stop?;
        }
        NoneAsking(front, kind, name);
      }
    }
  }

  lemma {:induction false} AskedInVain<L>(history: seq<Input<L>>, kind: Kind, name: string, j: nat) returns (k: nat)
    requires First(history, kind, name) == None && j < |history| && Asks(history[j], kind, name)
    ensures j < k < |history| && history[k].Stop?
  {
    var front, n := history[..|history| - 1], |history| - 1;
    if history[n].Stop? {
      k := n;
    } else {
      assert j < n;
      k := AskedInVain(front, kind, name, j);
    }
  }

  lemma {:induction false} FirstIsThere<L>(history: seq<Input<L>>, kind: Kind, name: string) returns (i: nat)
    requires First(history, kind, name).Some?
    ensures i < |history| && FirstAsking(history, kind, name, i)
  {
    var front, n := history[..|history| - 1], |history| - 1;
    assert forall j :: 0 <= j < n ==> front[j] == history[j];
    if First(front, kind, name).Some? {
      i := FirstIsThere(front, kind, name);
      forall j | 0 <= j < i && Asks(history[j], kind, name)
        ensures exists k :: j < k < i && history[k].Stop?
      {
        var k :| j < k < i && front[k].Stop?;
        assert history[k].Stop?;
      }
    } else {
      i := n;
      forall j | 0 <= j < n && Asks(history[j], kind, name)
        ensures exists k :: j < k < n && history[k].Stop?
      {
        var k := AskedInVain(front, kind, name, j);
        assert history[k].Stop?;
      }
    }
  }

  /** `First` is what that one registers. */
  lemma {:induction false} FirstExactly<L>(history: seq<Input<L>>, kind: Kind, name: string, listener: Option<L>)
    ensures First(history, kind, name) == Some(listener)
        <==> exists i: nat :: i < |history| && FirstAsking(history, kind, name, i) && history[i].listener == listener
  {
    if i: nat :| i < |history| && FirstAsking(history, kind, name, i) && history[i].listener == listener {
      FirstIs(history, kind, name, i);
    }
    if First(history, kind, name) == Some(listener) {
      var i := FirstIsThere(history, kind, name);
      FirstIs(history, kind, name, i);
    }
  }

  lemma {:induction false} ListenerIsFirst<L>(td: ThingTD, history: seq<Input<L>>, kind: Kind, name: string)
    requires !Run(td, history).panicked
    ensures var m := Registered(Run(td, history).consumer, kind);
            (if name in m then Some(m[name]) else None) == First(history, kind, name)
  {
    if history != [] {
      var front := history[..|history| - 1];
      ListenerIsFirst(td, front, kind, name);
      RegisteredStep(td, Run(td, front).consumer, history[|history| - 1], kind, name);
    }
  }

  lemma RegisteredStep<L>(td: ThingTD, c: Consumer<L>, i: Input<L>, kind: Kind, name: string)
    ensures var before, after := Registered(c, kind), Registered(Step(td, c, i).consumer, kind);
            if i.Stop? then name !in after
            else if i.Listen? && i.kind == kind && i.name == name && Accepts(c, kind, name, i.listener)
            then name in after && after[name] == i.listener
            else (name in after <==> name in before) && (name in after ==> after[name] == before[name])
  {
  }

  // ---- Nil handlers ----

  /** Input `i` is an event for which a nil handler holds the name. */
  predicate NilHandlerAt<L>(td: ThingTD, history: seq<Input<L>>, i: nat)
    requires i < |history|
  {
    && history[i].Message? && EventName(history[i].topic).Named?
    && var n := EventName(history[i].topic).name;
       n in td.events && First(history[..i], EventKind, n) == Some(None)
  }

  lemma PanicStep<L>(td: ThingTD, c: Consumer<L>, i: Input<L>)
    ensures Step(td, c, i).panicked
        <==> && i.Message? && EventName(i.topic).Named?
             && var n := EventName(i.topic).name; n in td.events && n in c.subscriptions && c.subscriptions[n].None?
  {
    if i.Message? {
      var n := EventName(i.topic);
    }
  }

  /** A history panics if and only if an event arrives whose name was first taken, since the last Stop, by a nil
      handler. */
  lemma {:induction false} PanicsExactly<L>(td: ThingTD, history: seq<Input<L>>)
    ensures Run(td, history).panicked <==> exists i: nat :: i < |history| && NilHandlerAt(td, history, i)
  {
    if history != [] {
      var n := |history| - 1;
      var front := history[..n];
      PanicsExactly(td, front);
      forall i: nat | i < n
        ensures NilHandlerAt(td, front, i) <==> NilHandlerAt(td, history, i)
      {
        assert front[..i] == history[..i];
      }
      if !Run(td, front).panicked {
        PanicStep(td, Run(td, front).consumer, history[n]);
        if history[n].Message? && EventName(history[n].topic).Named? {
          ListenerIsFirst(td, front, EventKind, EventName(history[n].topic).name);
        }
        assert Run(td, history).panicked <==> NilHandlerAt(td, history, n);
      }
    }
  }

  // ---- Calls ----

  function Names(td: ThingTD, kind: Kind): map<string, DataSchema> {
    if kind == EventKind then td.events else td.properties
  }

  /** The notes for one event or property. */
  function For<L>(notes: seq<Note<L>>, kind: Kind, name: string): seq<Note<L>> {
    if notes == [] then []
    else For(notes[..|notes| - 1], kind, name)
         + if notes[|notes| - 1].kind == kind && notes[|notes| - 1].name == name then [notes[|notes| - 1]] else []
  }

  lemma {:induction false} ForConcat<L>(a: seq<Note<L>>, b: seq<Note<L>>, kind: Kind, name: string)
    ensures For(a + b, kind, name) == For(a, kind, name) + For(b, kind, name)
  {
    if b == [] {
      assert a + b == a;
    } else {
      assert (a + b)[..|a + b| - 1] == a + b[..|b| - 1];
      ForConcat(a, b[..|b| - 1], kind, name);
    }
  }

  /** What listener `l` has to be called with: every message for `name`, once and in order. */
  function Delivered<L>(td: ThingTD, inputs: seq<Input<L>>, kind: Kind, name: string, l: L): seq<Note<L>>
    requires name in Names(td, kind)
  {
    if inputs == [] then []
    else
      var i := inputs[|inputs| - 1];
      Delivered(td, inputs[..|inputs| - 1], kind, name, l)
      + if Carries(i, name) then [Note(kind, l, name, FromJson(i.payload, Names(td, kind)[name]))] else []
  }

  /** What one message for `name` makes of a registration. */
  function Call<L>(td: ThingTD, kind: Kind, name: string, listener: Option<L>, message: Payload): seq<Note<L>>
    requires name in Names(td, kind)
  {
    if listener.None? then [] else [Note(kind, listener.value, name, FromJson(message, Names(td, kind)[name]))]
  }

  lemma NotesOfEvent<L>(td: ThingTD, c: Consumer<L>, n: string, message: Payload, kind: Kind, name: string)
    ensures For(HandleEvent(td, c, n, message).notes, kind, name) ==
              if kind == EventKind && n == name && name in td.events && name in c.subscriptions
              then Call(td, kind, name, c.subscriptions[name], message)
              else []
    ensures HandleEvent(td, c, n, message).consumer.observations == c.observations
  {
    ForOne(HandleEvent(td, c, n, message).notes, kind, name);
  }

  lemma NotesOfProperty<L>(td: ThingTD, c: Consumer<L>, n: string, message: Payload, kind: Kind, name: string)
    ensures For(HandlePropertyChange(td, c, n, message).notes, kind, name) ==
              if kind == PropertyKind && n == name && name in td.properties && name in c.observations
              then Call(td, kind, name, Some(c.observations[name]), message)
              else []
  {
    ForOne(HandlePropertyChange(td, c, n, message).notes, kind, name);
  }

  /** One message calls the registered listener of its name, and nobody else. */
  lemma NotesOfNamed<L>(td: ThingTD, c: Consumer<L>, n: string, message: Payload, kind: Kind, name: string)
    requires !HandleNamed(td, c, n, message).panicked
    ensures For(HandleNamed(td, c, n, message).notes, kind, name) ==
              if n == name && name in Names(td, kind) && name in Registered(c, kind)
              then Call(td, kind, name, Registered(c, kind)[name], message)
              else []
  {
    var asEvent := HandleEvent(td, c, n, message);
    var asProperty := HandlePropertyChange(td, asEvent.consumer, n, message);
    ForConcat(asEvent.notes, asProperty.notes, kind, name);
    NotesOfEvent(td, c, n, message, kind, name);
    NotesOfProperty(td, asEvent.consumer, n, message, kind, name);
  }

  lemma NotesOfInput<L>(td: ThingTD, c: Consumer<L>, i: Input<L>, kind: Kind, name: string)
    requires !Step(td, c, i).panicked
    ensures For(Step(td, c, i).notes, kind, name) ==
              if Carries(i, name) && name in Names(td, kind) && name in Registered(c, kind)
              then Call(td, kind, name, Registered(c, kind)[name], i.payload)
              else []
  {
    if i.Message? {
      var n := EventName(i.topic);
      if n.Named? {
        NotesOfNamed(td, c, n.name, i.payload, kind, name);
      }
    }
  }

  lemma RunOneMore<L>(td: ThingTD, history: seq<Input<L>>, i: Input<L>, kind: Kind, name: string)
    requires !Run(td, history + [i]).panicked
    ensures !Run(td, history).panicked && !Step(td, Run(td, history).consumer, i).panicked
    ensures For(Run(td, history + [i]).notes, kind, name)
         == For(Run(td, history).notes, kind, name) + For(Step(td, Run(td, history).consumer, i).notes, kind, name)
  {
    assert (history + [i])[..|history|] == history;
    ForConcat(Run(td, history).notes, Step(td, Run(td, history).consumer, i).notes, kind, name);
  }

  lemma ForOne<L>(notes: seq<Note<L>>, kind: Kind, name: string)
    requires |notes| <= 1
    ensures For(notes, kind, name)
         == if notes != [] && notes[0].kind == kind && notes[0].name == name then notes else []
  {
  }

  lemma FirstStaysFirst<L>(td: ThingTD, history: seq<Input<L>>, i: Input<L>, kind: Kind, name: string, l: L)
    requires First(history, kind, name) == Some(Some(l)) && name in Names(td, kind) && !i.Stop?
    ensures First(history + [i], kind, name) == Some(Some(l))
    ensures !Run(td, history + [i]).panicked ==>
              For(Run(td, history + [i]).notes, kind, name)
              == For(Run(td, history).notes, kind, name)
                 + if Carries(i, name) then Call(td, kind, name, Some(l), i.payload) else []
  {
    assert (history + [i])[..|history|] == history;
    if !Run(td, history + [i]).panicked {
      RunOneMore(td, history, i, kind, name);
      ListenerIsFirst(td, history, kind, name);
      NotesOfInput(td, Run(td, history).consumer, i, kind, name);
    }
  }

  /** First subscriber wins: once a registration is accepted, and until the next Stop, its listener is called with
      every message for the name, exactly once and in order; whatever is registered later has no part in it. */
  lemma {:induction false} FirstSubscriberWins<L>(td: ThingTD, before: seq<Input<L>>, after: seq<Input<L>>, kind: Kind,
                                                  name: string, l: L)
    requires First(before, kind, name) == Some(Some(l)) && name in Names(td, kind)
    requires forall i :: 0 <= i < |after| ==> !after[i].Stop?
    ensures First(before + after, kind, name) == Some(Some(l))
    ensures !Run(td, before + after).panicked ==>
              For(Run(td, before + after).notes, kind, name)
              == For(Run(td, before).notes, kind, name) + Delivered(td, after, kind, name, l)
  {
    if after == [] {
      assert before + after == before;
    } else {
      var front, i := after[..|after| - 1], after[|after| - 1];
      FirstSubscriberWins(td, before, front, kind, name, l);
      assert before + after == (before + front) + [i];
      FirstStaysFirst(td, before + front, i, kind, name, l);
      PanicLasts(td, before + front, i);
      var note := if Carries(i, name) then Call(td, kind, name, Some(l), i.payload) else [];
      DeliveredOneMore(td, after, kind, name, l, note);
      Regroup(For(Run(td, before).notes, kind, name), Delivered(td, front, kind, name, l), note);
    }
  }

  lemma PanicLasts<L>(td: ThingTD, history: seq<Input<L>>, i: Input<L>)
    ensures Run(td, history).panicked ==> Run(td, history + [i]).panicked
  {
    assert (history + [i])[..|history|] == history;
  }

  lemma DeliveredOneMore<L>(td: ThingTD, after: seq<Input<L>>, kind: Kind, name: string, l: L, note: seq<Note<L>>)
    requires after != [] && name in Names(td, kind)
    requires var i := after[|after| - 1];
             note == if Carries(i, name) then Call(td, kind, name, Some(l), i.payload) else []
    ensures Delivered(td, after, kind, name, l) == Delivered(td, after[..|after| - 1], kind, name, l) + note
  {
  }

  /** A registration is accepted exactly when nobody holds the name since the last Stop and the listener is not a nil
      observer; a refused one changes nothing. A nil subscriber is accepted, and so shuts out every later one. */
  lemma {:induction false} RegistrationAccepted<L>(td: ThingTD, history: seq<Input<L>>, kind: Kind, name: string,
                                                   listener: Option<L>)
    requires !Run(td, history).panicked
    ensures var c := Run(td, history).consumer; var h := history + [Listen(kind, name, listener)];
            && (Accepts(c, kind, name, listener)
                <==> First(history, kind, name).None? && (kind == PropertyKind ==> listener.Some?))
            && (Accepts(c, kind, name, listener) ==> First(h, kind, name) == Some(listener))
            && (!Accepts(c, kind, name, listener) ==> Run(td, h).consumer == c)
  {
    ListenerIsFirst(td, history, kind, name);
    var h := history + [Listen(kind, name, listener)];
    assert h[..|history|] == history;
  }

  /** A name that is both: the subscriber is called first, then the observer, and the value kept is the property's. */
  lemma EventAndProperty<L>(td: ThingTD, c: Consumer<L>, topic: string, name: string, message: Payload)
    requires EventName(topic) == Named(name) && name in td.events && name in td.properties
    requires name in c.subscriptions && c.subscriptions[name].Some? && name in c.observations
    ensures var r := HandleMessage(td, c, topic, message);
            && r.consumer.valueStore[name] == FromJson(message, td.properties[name])
            && r.notes == [Note(EventKind, c.subscriptions[name].value, name, FromJson(message, td.events[name])),
                           Note(PropertyKind, c.observations[name], name, FromJson(message, td.properties[name]))]
  {
  }

  /** The binding does not look at the thing ID of the topic: an event of any thing that reaches it is taken for one of
      its own. Only the subscription keeps other things out. */
  lemma {:induction false} ThingIDNotChecked<L>(td: ThingTD, c: Consumer<L>, thingID: string, name: string,
                                                message: Payload)
    requires '/' !in thingID && '/' !in name
    ensures var r := HandleMessage(td, c, EventTopic(thingID, name), message);
            && r == HandleNamed(td, c, name, message)
            && (Known(td, name) && !r.panicked ==>
                  name in r.consumer.valueStore && r.consumer.valueStore[name] == FromJson(message, SchemaOf(td, name)))
  {
    EventNameRecovered(thingID, name);
    if !HandleNamed(td, c, name, message).panicked {
      CacheOfNamed(td, c, name, message, name);
    }
  }

  /** A history of messages only has nobody to call. */
  lemma {:induction false} MessagesOnly<L>(td: ThingTD, history: seq<Input<L>>)
    requires forall i :: 0 <= i < |history| ==> history[i].Message?
    ensures !Run(td, history).panicked && Run(td, history).consumer.subscriptions == map[]
  {
    if history != [] {
      MessagesOnly(td, history[..|history| - 1]);
      PanicStep(td, Run(td, history[..|history| - 1]).consumer, history[|history| - 1]);
    }
  }
}
