/** The tables of a thing factory: things, bindings, and the subscriptions of its MQTT client. Both factories work
    the same way; they differ in the topic filter a binding subscribes to.
 */
module Registry {
  import opened Wrappers
  import opened Orders
  import opened Topics
  import S = Session

  /** The topic filter a binding subscribes to: EventFilter for consumed things, ActionFilter for exposed ones. */
  type Filter = string -> string

  ghost predicate Injective(filter: Filter) {
    forall id1, id2 :: filter(id1) == filter(id2) ==> id1 == id2
  }

  lemma ThingFiltersInjective()
    ensures Injective(EventFilter) && Injective(ActionFilter)
  {
    forall id1, id2
      ensures EventFilter(id1) == EventFilter(id2) ==> id1 == id2
      ensures ActionFilter(id1) == ActionFilter(id2) ==> id1 == id2
    {
      FiltersInjective(id1, id2);
    }
  }

  /** `T` are things, `B` bindings. The handler subscribed by a binding is identified by the binding. */
  datatype Registry<T, B> = Registry(things: map<string, T>, bindings: map<string, B>, session: S.Session<B>)

  datatype Step<T, B> =
    | Add(id: string, thing: T, binding: B)  // Consume or Expose; the two new objects are used if the ID is new
    | Destroy(id: string)
    | Net(e: S.Event<B>)                     // the connection: the factories subscribe through Add and Destroy only

  predicate NetStep<T, B>(step: Step<T, B>) {
    step.Net? ==> !step.e.Subscribe? && !step.e.Unsubscribe?
  }

  /** Nothing happens after a panic. */
  ghost function After<T, B>(code: S.Code, filter: Filter, r: Registry<T, B>, step: Step<T, B>): Registry<T, B> {
    if r.session.crashed then r
    else match step
    case Add(id, thing, binding) =>
      if id in r.things then r
      else Registry(r.things[id := thing], r.bindings[id := binding],
                    S.Step(code, r.session, S.Subscribe(filter(id), binding)))
    case Destroy(id) =>
      Registry(r.things - {id}, r.bindings - {id},
               if id in r.bindings then S.Step(code, r.session, S.Unsubscribe(filter(id))) else r.session)
    case Net(e) => r.(session := S.Step(code, r.session, e))
  }

  /** The topics that the bindings listen to, with the binding to call. */
  ghost predicate Serves<B>(filter: Filter, table: map<string, B>, bindings: map<string, B>) {
    && (forall id :: id in bindings ==> filter(id) in table && table[filter(id)] == bindings[id])
    && (forall t :: t in table ==> exists id :: id in bindings && filter(id) == t)
  }

  /** Things and bindings go together, and the subscriptions are those of the bindings. */
  ghost predicate Agree<T, B>(filter: Filter, r: Registry<T, B>, owner: B -> T) {
    && r.things.Keys == r.bindings.Keys
    && (forall id :: id in r.things ==> owner(r.bindings[id]) == r.things[id])
    && Serves(filter, S.Live(r.session.subs), r.bindings)
  }

  /** The steps that break the agreement in the code as written: destroying a thing while there is no client, and
      disconnecting a client that serves things. */
  predicate Safe<T, B>(r: Registry<T, B>, step: Step<T, B>) {
    match step
    case Add(_, _, _) => true
    case Destroy(id) => r.session.paho.Client? || id !in r.bindings
    case Net(e) => e.Disconnect? ==> r.session.paho.NoClient? || r.bindings == map[]
  }

  lemma ServesAdded<B>(filter: Filter, table: map<string, B>, bindings: map<string, B>, id: string, b: B)
    requires Injective(filter)
    requires Serves(filter, table, bindings) && id !in bindings
    ensures Serves(filter, table[filter(id) := b], bindings[id := b])
  {
    var table', bindings' := table[filter(id) := b], bindings[id := b];
    forall i | i in bindings'
      ensures filter(i) in table' && table'[filter(i)] == bindings'[i]
    {
    }
    forall t | t in table'
      ensures exists i :: i in bindings' && filter(i) == t
    {
      if t == filter(id) {
        assert id in bindings';
      } else {
        var i :| i in bindings && filter(i) == t;
        assert i in bindings';
      }
    }
  }

  lemma ServesRemoved<B>(filter: Filter, table: map<string, B>, bindings: map<string, B>, id: string)
    requires Injective(filter)
    requires Serves(filter, table, bindings) && id in bindings
    ensures Serves(filter, table - {filter(id)}, bindings - {id})
    ensures !Serves(filter, table, bindings - {id})
  {
    var table', bindings' := table - {filter(id)}, bindings - {id};
    forall i | i in bindings'
      ensures filter(i) in table' && table'[filter(i)] == bindings'[i]
    {
    }
    forall t | t in table'
      ensures exists i :: i in bindings' && filter(i) == t
    {
      var i :| i in bindings && filter(i) == t;
      assert i in bindings';
    }
    forall i | i in bindings'
      ensures filter(i) != filter(id)
    {
    }
    assert filter(id) in table;
  }

  lemma AddAgrees<T, B>(code: S.Code, filter: Filter, r: Registry<T, B>, id: string, thing: T, b: B, owner: B -> T)
    requires Injective(filter)
    requires Agree(filter, r, owner) && !r.session.crashed && owner(b) == thing
    ensures Agree(filter, After(code, filter, r, Add(id, thing, b)), owner)
  {
    if id !in r.things {
      ServesAdded(filter, S.Live(r.session.subs), r.bindings, id, b);
      S.LiveAfterSubscribe(code, r.session, filter(id), b);
      var r' := After(code, filter, r, Add(id, thing, b));
      assert r'.things == r.things[id := thing] && r'.bindings == r.bindings[id := b];
    }
  }

  lemma DestroyAgrees<T, B>(code: S.Code, filter: Filter, r: Registry<T, B>, id: string, owner: B -> T)
    requires Injective(filter)
    requires Agree(filter, r, owner) && !r.session.crashed
    ensures Agree(filter, After(code, filter, r, Destroy(id)), owner)
        <==> r.session.paho.Client? || id !in r.bindings || code.AsIntended?
  {
    if id in r.bindings {
      ServesRemoved(filter, S.Live(r.session.subs), r.bindings, id);
      if r.session.paho.Client? || code.AsIntended? {
        S.LiveAfterUnsubscribe(code, r.session, filter(id));
      } else {
        assert S.Step(code, r.session, S.Unsubscribe(filter(id))) == r.session;
      }
    } else {
      assert r.bindings - {id} == r.bindings && r.things - {id} == r.things;
    }
  }

  /** Each step keeps the agreement if and only if it is safe. */
  lemma AgreementStep<T, B>(filter: Filter, r: Registry<T, B>, step: Step<T, B>, owner: B -> T)
    requires Injective(filter)
    requires Agree(filter, r, owner) && !r.session.crashed && NetStep(step)
    requires step.Add? ==> owner(step.binding) == step.thing
    ensures Agree(filter, After(S.AsWritten, filter, r, step), owner) <==> Safe(r, step)
  {
    match step
    case Add(id, thing, b) => AddAgrees(S.AsWritten, filter, r, id, thing, b, owner);
    case Destroy(id) => DestroyAgrees(S.AsWritten, filter, r, id, owner);
    case Net(e) =>
      if e.Disconnect? && r.session.paho.Client? {
        var r' := After(S.AsWritten, filter, r, step);
        assert S.Live(r'.session.subs) == map[];
        if r.bindings != map[] {
          var id :| id in r.bindings;
          assert filter(id) !in S.Live(r'.session.subs);
        } else {
          assert forall t :: t in S.Live(r.session.subs) ==> t !in S.Live(r.session.subs);
        }
      } else {
        assert After(S.AsWritten, filter, r, step).session.subs == r.session.subs;
      }
  }

  /** The same for the two filters in use, as the factories need it. */
  lemma FactoryAdds<T, B>(filter: Filter, r: Registry<T, B>, id: string, thing: T, b: B, owner: B -> T)
    requires filter == EventFilter || filter == ActionFilter
    requires !r.session.crashed && owner(b) == thing
    ensures Agree(filter, r, owner) ==> Agree(filter, After(S.AsWritten, filter, r, Add(id, thing, b)), owner)
  {
    ThingFiltersInjective();
    if Agree(filter, r, owner) {
      AddAgrees(S.AsWritten, filter, r, id, thing, b, owner);
    }
  }

  lemma FactoryDestroys<T, B>(filter: Filter, r: Registry<T, B>, id: string, owner: B -> T)
    requires filter == EventFilter || filter == ActionFilter
    requires !r.session.crashed
    ensures Agree(filter, r, owner) ==>
              (Agree(filter, After(S.AsWritten, filter, r, Destroy(id)), owner)
               <==> r.session.paho.Client? || id !in r.bindings)
  {
    ThingFiltersInjective();
    if Agree(filter, r, owner) {
      DestroyAgrees(S.AsWritten, filter, r, id, owner);
    }
  }

  /** What a connect does to the session: a new client, and a connection if an attempt succeeds. */
  ghost function Connected<T, B>(filter: Filter, r: Registry<T, B>, up: bool): Registry<T, B> {
    var started := After(S.AsWritten, filter, r, Net(S.NewClient));
    if up then After(S.AsWritten, filter, started, Net(S.Connect)) else started
  }

  /** It keeps the tables and what is remembered, and leaves a client without routes. */
  lemma ConnectedIs<T, B>(filter: Filter, r: Registry<T, B>, up: bool)
    requires !r.session.crashed
    ensures Connected(filter, r, up)
         == Registry(r.things, r.bindings,
                     S.Session(r.session.subs, S.Client(if up then S.Up else S.Idle, map[]),
                               r.session.pending + if up then 1 else 0, false))
  {
  }

  ghost function AfterAll<T, B>(code: S.Code, filter: Filter, r: Registry<T, B>,
                                steps: seq<Step<T, B>>): Registry<T, B> {
    if steps == [] then r
    else After(code, filter, AfterAll(code, filter, r, steps[..|steps| - 1]), steps[|steps| - 1])
  }

  /** Only Disconnect takes the client away. */
  lemma StaysConnected<T, B>(filter: Filter, r: Registry<T, B>, step: Step<T, B>)
    requires !r.session.crashed && r.session.paho.Client? && step != Net(S.Disconnect)
    ensures After(S.AsWritten, filter, r, step).session.paho.Client?
  {
  }

  /** Over every run between connect and disconnect, with things added and destroyed, connections lost and
      resubscribed, and messages delivered in any order, the three tables agree as long as the process lives. */
  lemma {:induction false} Agreement<T, B>(filter: Filter, r: Registry<T, B>, steps: seq<Step<T, B>>, owner: B -> T)
    requires Injective(filter)
    requires Agree(filter, r, owner) && r.session.paho.Client?
    requires forall i :: 0 <= i < |steps| ==> NetStep(steps[i]) && steps[i] != Net(S.Disconnect)
    requires forall i :: 0 <= i < |steps| ==> steps[i].Add? ==> owner(steps[i].binding) == steps[i].thing
    ensures var r' := AfterAll(S.AsWritten, filter, r, steps);
            !r'.session.crashed ==> Agree(filter, r', owner) && r'.session.paho.Client?
  {
    if steps != [] {
      var front, step := steps[..|steps| - 1], steps[|steps| - 1];
      Agreement(filter, r, front, owner);
      var before := AfterAll(S.AsWritten, filter, r, front);
      if !before.session.crashed {
        AgreementStep(filter, before, step, owner);
        StaysConnected(filter, before, step);
        assert Safe(before, step);
      }
    }
  }

  // ---- Who gets a message ----

  predicate PlainID(id: string) {
    '/' !in id && !HasWildcard(id)
  }

  /** An ID of one level, without wildcards. */
  lemma PlainIDs(id: string)
    ensures PlainID(id) <==> forall i :: 0 <= i < |id| ==> id[i] != '/' && id[i] != '+' && id[i] != '#'
  {
  }

  /** Routes to some of the served bindings: a message that only one filter matches takes that one's route, if any. */
  lemma OneHit<B>(filter: Filter, table: map<string, B>, routes: map<string, Option<B>>, served: map<string, B>,
                  id: string, hit: string -> bool)
    requires Injective(filter) && Serves(filter, table, served)
    requires forall i :: i in served ==> (hit(filter(i)) <==> i == id)
    requires forall t :: t in routes ==> t in table && routes[t] == Some(table[t])
    ensures filter(id) in routes ==> id in served
    ensures (map t | t in routes && hit(t) :: routes[t])
         == if filter(id) in routes && id in served then map[filter(id) := Some(served[id])] else map[]
  {
    forall t | t in routes && (hit(t) || t == filter(id))
      ensures id in served && t == filter(id) && hit(t) && routes[t] == Some(served[id])
    {
      var i :| i in served && filter(i) == t;
    }
  }

  lemma {:induction false} OnlyItsFilter<B>(filter: Filter, table: map<string, B>, routes: map<string, Option<B>>,
                                            served: map<string, B>, id: string, topic: string)
    requires Injective(filter) && Serves(filter, table, served)
    requires forall i :: i in served ==> (Matches(filter(i), topic) <==> i == id)
    requires forall t :: t in routes ==> t in table && routes[t] == Some(table[t])
    ensures filter(id) in routes ==> id in served
    ensures S.Receivers(routes, topic)
         == if filter(id) in routes && id in served then map[filter(id) := Some(served[id])] else map[]
  {
    var hit := (f: string) => Matches(f, topic);
    assert forall i :: i in served ==> hit(filter(i)) == Matches(filter(i), topic);
    OneHit(filter, table, routes, served, id, hit);
    ReceiversHit(routes, topic, hit);
  }

  lemma ReceiversHit<B>(routes: map<string, Option<B>>, topic: string, hit: string -> bool)
    requires forall t :: hit(t) == Matches(t, topic)
    ensures S.Receivers(routes, topic) == map t | t in routes && hit(t) :: routes[t]
  {
  }

  /** When the routes are those of the bindings, an event of a thing reaches the binding of that thing and nobody
      else. */
  lemma {:induction false} EventReachesItsBinding<B>(table: map<string, B>, bindings: map<string, B>, id: string,
                                                     name: string)
    requires Serves(EventFilter, table, bindings)
    requires PlainID(id) && forall i :: i in bindings ==> PlainID(i)
    ensures S.Receivers(map t | t in table :: Some(table[t]), EventTopic(id, name))
         == if id in bindings then map[EventFilter(id) := Some(bindings[id])] else map[]
  {
    ThingFiltersInjective();
    forall i | i in bindings
      ensures Matches(EventFilter(i), EventTopic(id, name)) <==> i == id
    {
      TopicIsolation(id, name, i);
    }
    OnlyItsFilter(EventFilter, table, map t | t in table :: Some(table[t]), bindings, id, EventTopic(id, name));
  }

  /** And a request to a thing the binding of that thing. */
  lemma {:induction false} RequestReachesItsBinding<B>(table: map<string, B>, bindings: map<string, B>, id: string,
                                                       name: string)
    requires Serves(ActionFilter, table, bindings)
    requires PlainID(id) && forall i :: i in bindings ==> PlainID(i)
    ensures S.Receivers(map t | t in table :: Some(table[t]), ActionTopic(id, name))
         == if id in bindings then map[ActionFilter(id) := Some(bindings[id])] else map[]
  {
    ThingFiltersInjective();
    forall i | i in bindings
      ensures Matches(ActionFilter(i), ActionTopic(id, name)) <==> i == id
    {
      TopicIsolation(id, name, i);
    }
    OnlyItsFilter(ActionFilter, table, map t | t in table :: Some(table[t]), bindings, id, ActionTopic(id, name));
  }

  function Empty<T, B>(): Registry<T, B> {
    Registry(map[], map[], S.Init())
  }

  /** The code as written, after a reconnect: every binding but one has lost its events to the binding visited last,
      which now gets the events of all things. */
  lemma {:induction false} EventsMisroutedAfterReconnect<T, B>(r: Registry<T, B>, order: seq<string>,
                                                               owner: B -> T, id: string)
    requires Agree(EventFilter, r, owner) && id in r.bindings
    requires !r.session.crashed && r.session.Connected() && r.session.paho.routes == map[] && r.session.pending > 0
    requires IsOrder(order, r.session.subs.Keys)
    requires order[|order| - 1] in S.Live(r.session.subs)
    ensures var r' := After(S.AsWritten, EventFilter, r, Net(S.Resubscribe(order)));
            exists last :: last in r.bindings && EventFilter(last) == order[|order| - 1]
                           && EventFilter(id) in r'.session.paho.routes
                           && r'.session.paho.routes[EventFilter(id)] == Some(r.bindings[last])
  {
    var t := order[|order| - 1];
    assert After(S.AsWritten, EventFilter, r, Net(S.Resubscribe(order))).session
        == S.Step(S.AsWritten, r.session, S.Resubscribe(order));
    S.ResubscribeStep(r.session, order);
    var last := Misrouted(EventFilter, r.session.subs, r.bindings, id, t);
  }

  lemma Misrouted<B>(filter: Filter, subs: map<string, Option<B>>, bindings: map<string, B>, id: string, t: string)
    returns (last: string)
    requires Serves(filter, S.Live(subs), bindings) && id in bindings && t in S.Live(subs)
    ensures last in bindings && filter(last) == t && filter(id) in subs && subs[t] == Some(bindings[last])
  {
    last :| last in bindings && filter(last) == t;
    assert filter(last) in S.Live(subs) && filter(id) in S.Live(subs);
  }

  // ---- After a disconnect ----

  ghost predicate Forgotten<T, B>(filter: Filter, r: Registry<T, B>, id: string) {
    && id in r.things && filter(id) !in r.session.subs
    && (r.session.paho.Client? ==>
          r.session.paho.routes.Keys <= if r.session.Connected() then r.session.subs.Keys else {})
  }

  lemma ForgottenStep<T, B>(code: S.Code, filter: Filter, r: Registry<T, B>, step: Step<T, B>, id: string)
    requires Injective(filter) && Forgotten(filter, r, id) && NetStep(step) && step != Destroy(id)
    ensures Forgotten(filter, After(code, filter, r, step), id)
  {
    if step.Net? && step.e.Resubscribe? && IsOrder(step.e.order, r.session.subs.Keys) {
      S.LastEntryForAll(r.session.subs, step.e.order);
      S.OwnEntryForEach(r.session.subs, step.e.order);
    }
  }

  lemma {:induction false} StaysForgotten<T, B>(code: S.Code, filter: Filter, r: Registry<T, B>,
                                                steps: seq<Step<T, B>>, id: string)
    requires Injective(filter)
    requires !r.session.crashed && r.session.paho.Client? && id in r.things
    requires forall i :: 0 <= i < |steps| ==> NetStep(steps[i]) && steps[i] != Destroy(id)
    ensures Forgotten(filter, AfterAll(code, filter, After(code, filter, r, Net(S.Disconnect)), steps), id)
  {
    if steps != [] {
      var front := steps[..|steps| - 1];
      StaysForgotten(code, filter, r, front, id);
      ForgottenStep(code, filter, AfterAll(code, filter, After(code, filter, r, Net(S.Disconnect)), front),
                    steps[|steps| - 1], id);
    }
  }

  /** A thing that lives through a disconnect is never subscribed or routed again, in either variant, however often it
      is consumed or exposed anew and the client reconnected: only destroying it first helps. */
  lemma {:induction false} NeverResubscribed<T, B>(code: S.Code, filter: Filter, r: Registry<T, B>,
                                                   steps: seq<Step<T, B>>, id: string)
    requires Injective(filter)
    requires !r.session.crashed && r.session.paho.Client? && id in r.things
    requires forall i :: 0 <= i < |steps| ==> NetStep(steps[i]) && steps[i] != Destroy(id)
    ensures var r' := AfterAll(code, filter, After(code, filter, r, Net(S.Disconnect)), steps);
            && id in r'.things && filter(id) !in r'.session.subs
            && (r'.session.paho.Client? ==> filter(id) !in r'.session.paho.routes)
  {
    StaysForgotten(code, filter, r, steps, id);
  }
}
