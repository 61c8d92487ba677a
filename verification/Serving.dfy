/** Whom a factory's session serves, over whole runs: things added and destroyed, connections made, lost, restored and
    given up, in any order. A consumer factory begins every Connect with a Disconnect, so disconnects are part of it.
 */
module Serving {
  import opened Wrappers
  import opened Orders
  import opened Topics
  import opened Registry
  import S = Session

  ghost predicate NetSteps<T, B>(steps: seq<Step<T, B>>) {
    forall i :: 0 <= i < |steps| ==> NetStep(steps[i])
  }

  // ---- The run, step by step ----

  /** The IDs that have a thing. */
  function Made<T, B>(steps: seq<Step<T, B>>): set<string> {
    if steps == [] then {} else MadeBy(Made(steps[..|steps| - 1]), steps[|steps| - 1])
  }

  function MadeBy<T, B>(made: set<string>, step: Step<T, B>): set<string> {
    match step
    case Add(id, _, _) => made + {id}
    case Destroy(id) => made - {id}
    case Net(_) => made
  }

  /** Whether there is a paho client, connected or not. */
  function HasClient<T, B>(steps: seq<Step<T, B>>): bool {
    if steps == [] then false else ClientBy(HasClient(steps[..|steps| - 1]), steps[|steps| - 1])
  }

  function ClientBy<T, B>(client: bool, step: Step<T, B>): bool {
    match step
    case Net(NewClient) => true
    case Net(Disconnect) => false
    case _ => client
  }

  /** The IDs of the things made since the last Disconnect that met a client. */
  function Fresh<T, B>(steps: seq<Step<T, B>>): set<string> {
    if steps == [] then {}
    else
      var front := steps[..|steps| - 1];
      FreshBy(Made(front), HasClient(front), Fresh(front), steps[|steps| - 1])
  }

  function FreshBy<T, B>(made: set<string>, client: bool, recent: set<string>, step: Step<T, B>): set<string> {
    match step
    case Add(id, _, _) => if id in made then recent else recent + {id}
    case Destroy(id) => recent - {id}
    case Net(Disconnect) => if client then {} else recent
    case Net(_) => recent
  }

  /** What the steps ask of the session. */
  function Calls<T, B>(filter: Filter, steps: seq<Step<T, B>>): seq<S.Event<B>> {
    if steps == [] then []
    else
      var front := steps[..|steps| - 1];
      Calls(filter, front) + Call(filter, Made(front), steps[|steps| - 1])
  }

  function Call<T, B>(filter: Filter, made: set<string>, step: Step<T, B>): seq<S.Event<B>> {
    match step
    case Add(id, _, b) => if id in made then [] else [S.Subscribe(filter(id), b)]
    case Destroy(id) => if id in made then [S.Unsubscribe(filter(id))] else []
    case Net(e) => [e]
  }

  ghost function Run<T, B>(code: S.Code, filter: Filter, steps: seq<Step<T, B>>): Registry<T, B> {
    AfterAll(code, filter, Empty(), steps)
  }

  lemma OneMoreStep<T, B>(code: S.Code, filter: Filter, steps: seq<Step<T, B>>, step: Step<T, B>)
    ensures Run(code, filter, steps + [step]) == After(code, filter, Run(code, filter, steps), step)
  {
    assert (steps + [step])[..|steps|] == steps;
  }

  lemma OneMoreCall<B>(code: S.Code, calls: seq<S.Event<B>>, e: S.Event<B>)
    ensures S.After(code, calls + [e]) == S.Step(code, S.After(code, calls), e)
    ensures S.Wanted(calls + [e]) == S.WishStep(S.Wanted(calls), e)
  {
    assert (calls + [e])[..|calls|] == calls;
  }

  /** One step asks at most one thing of the session. */
  lemma CallIs<T, B>(code: S.Code, filter: Filter, r: Registry<T, B>, made: set<string>, step: Step<T, B>)
    requires r.things.Keys == r.bindings.Keys && (!r.session.crashed ==> r.things.Keys == made)
    ensures var r', call := After(code, filter, r, step), Call(filter, made, step);
            && r'.things.Keys == r'.bindings.Keys && (!r'.session.crashed ==> r'.things.Keys == MadeBy(made, step))
            && |call| <= 1 && r'.session == if call == [] then r.session else S.Step(code, r.session, call[0])
  {
  }

  lemma CallsAre<B>(code: S.Code, calls: seq<S.Event<B>>, call: seq<S.Event<B>>)
    requires |call| <= 1
    ensures S.After(code, calls + call)
         == if call == [] then S.After(code, calls) else S.Step(code, S.After(code, calls), call[0])
    ensures S.Wanted(calls + call)
         == if call == [] then S.Wanted(calls) else S.WishStep(S.Wanted(calls), call[0])
  {
    if call == [] {
      assert calls + call == calls;
    } else {
      assert call == [call[0]];
      OneMoreCall(code, calls, call[0]);
    }
  }

  /** The tables and the session of a run. */
  lemma {:induction false} RunIs<T, B>(code: S.Code, filter: Filter, steps: seq<Step<T, B>>)
    ensures var r := Run(code, filter, steps);
            && r.things.Keys == r.bindings.Keys && (!r.session.crashed ==> r.things.Keys == Made(steps))
            && r.session == S.After(code, Calls(filter, steps))
  {
    if steps != [] {
      var front, step := steps[..|steps| - 1], steps[|steps| - 1];
      RunIs(code, filter, front);
      CallIs(code, filter, Run(code, filter, front), Made(front), step);
      CallsAre(code, Calls(filter, front), Call(filter, Made(front), step));
    }
  }

  /** The bindings of the things in `ids`. */
  function Only<B>(bindings: map<string, B>, ids: set<string>): map<string, B> {
    map id | id in bindings && id in ids :: bindings[id]
  }

  /** What the run asks for, in either variant: the filters of the fresh things, each with its binding. */
  lemma {:induction false} WantedServes<T, B>(code: S.Code, filter: Filter, steps: seq<Step<T, B>>)
    requires Injective(filter) && NetSteps(steps) && !Run(code, filter, steps).session.crashed
    ensures var w := S.Wanted(Calls(filter, steps)); var bindings := Run(code, filter, steps).bindings;
            && w.client == HasClient(steps) && Fresh(steps) <= Made(steps)
            && Serves(filter, w.table, Only(bindings, Fresh(steps)))
  {
    if steps != [] {
      var front, step := steps[..|steps| - 1], steps[|steps| - 1];
      assert forall i :: 0 <= i < |front| ==> front[i] == steps[i];
      WantedServes(code, filter, front);
      RunIs(code, filter, front);
      CallsAre(code, Calls(filter, front), Call(filter, Made(front), step));
      WantedStep(code, filter, Run(code, filter, front), S.Wanted(Calls(filter, front)), Fresh(front), step);
    }
  }

  lemma {:induction false} WantedStep<T, B>(code: S.Code, filter: Filter, r: Registry<T, B>, w: S.Wish<B>,
                                            recent: set<string>, step: Step<T, B>)
    requires Injective(filter) && NetStep(step) && !r.session.crashed
    requires r.things.Keys == r.bindings.Keys && recent <= r.things.Keys
    requires Serves(filter, w.table, Only(r.bindings, recent))
    ensures var made := r.things.Keys; var recent' := FreshBy(made, w.client, recent, step);
            var call := Call(filter, made, step); var w' := if call == [] then w else S.WishStep(w, call[0]);
            && w'.client == ClientBy(w.client, step) && recent' <= MadeBy(made, step)
            && Serves(filter, w'.table, Only(After(code, filter, r, step).bindings, recent'))
  {
    match step
    case Add(id, _, b) =>
      if id !in r.things {
        AddServes(filter, w.table, r.bindings, recent, id, b);
      }
    case Destroy(id) =>
      if id in r.things {
        DestroyServes(filter, w.table, r.bindings, recent, id);
      } else {
        assert r.bindings - {id} == r.bindings && recent - {id} == recent;
      }
    case Net(e) =>
      NetServes(filter, w, r.bindings, recent, e);
  }

  lemma NetServes<B>(filter: Filter, w: S.Wish<B>, bindings: map<string, B>, recent: set<string>, e: S.Event<B>)
    requires !e.Subscribe? && !e.Unsubscribe? && Serves(filter, w.table, Only(bindings, recent))
    ensures Serves(filter, S.WishStep(w, e).table, Only(bindings, if e.Disconnect? && w.client then {} else recent))
  {
  }

  lemma AddServes<B>(filter: Filter, table: map<string, B>, bindings: map<string, B>, recent: set<string>, id: string,
                     b: B)
    requires Injective(filter) && Serves(filter, table, Only(bindings, recent)) && id !in bindings
    ensures Serves(filter, table[filter(id) := b], Only(bindings[id := b], recent + {id}))
  {
    ServesAdded(filter, table, Only(bindings, recent), id, b);
    assert Only(bindings[id := b], recent + {id}) == Only(bindings, recent)[id := b];
  }

  lemma DestroyServes<B>(filter: Filter, table: map<string, B>, bindings: map<string, B>, recent: set<string>,
                         id: string)
    requires Injective(filter) && Serves(filter, table, Only(bindings, recent)) && id in bindings
    ensures Serves(filter, table - {filter(id)}, Only(bindings - {id}, recent - {id}))
  {
    var served := Only(bindings, recent);
    assert Only(bindings - {id}, recent - {id}) == served - {id};
    if id in recent {
      ServesRemoved(filter, table, served, id);
    } else {
      assert filter(id) !in table;
      assert table - {filter(id)} == table && served - {id} == served;
    }
  }

  // ---- Delivery, as intended ----

  /** The one route that a message to thing `id` should take. */
  ghost function Expected<T, B>(code: S.Code, filter: Filter, steps: seq<Step<T, B>>, id: string)
    : map<string, Option<B>>
  {
    var bindings := Run(code, filter, steps).bindings;
    if id in Fresh(steps) && id in bindings then map[filter(id) := Some(bindings[id])] else map[]
  }

  /** In every run, at every moment of an up connection: a message to a thing takes the thing's route, if that is there,
      and no other; and once the session is settled the route is there exactly for the fresh things. */
  lemma {:induction false} Delivered<T, B>(filter: Filter, steps: seq<Step<T, B>>, id: string, topic: string)
    requires Injective(filter) && NetSteps(steps)
    requires forall i :: i in Made(steps) ==> (Matches(filter(i), topic) <==> i == id)
    requires var s := Run(S.AsIntended, filter, steps).session; !s.crashed && s.Connected()
    ensures var r := Run(S.AsIntended, filter, steps);
            && (filter(id) in r.session.paho.routes ==> id in Fresh(steps) && id in r.bindings)
            && (r.session.Settled() ==> (filter(id) in r.session.paho.routes <==> id in Fresh(steps)))
            && S.Receivers(r.session.paho.routes, topic)
            == if filter(id) in r.session.paho.routes then Expected(S.AsIntended, filter, steps, id) else map[]
  {
    RunIs(S.AsIntended, filter, steps);
    WantedServes(S.AsIntended, filter, steps);
    var calls, r := Calls(filter, steps), Run(S.AsIntended, filter, steps);
    S.IntendedInStep(calls);
    OnlyItsFilter(filter, S.Wanted(calls).table, r.session.paho.routes, Only(r.bindings, Fresh(steps)), id, topic);
  }

  /** The whole consumer side, as intended: a settled session delivers an event of a thing to the binding of that thing,
      if it was consumed since the last Disconnect that met a client, and to nobody else. */
  lemma {:induction false} EventsDelivered<T, B>(steps: seq<Step<T, B>>, id: string, name: string)
    requires NetSteps(steps) && PlainID(id) && forall i :: i in Made(steps) ==> PlainID(i)
    requires Run(S.AsIntended, EventFilter, steps).session.Settled()
    ensures S.Receivers(Run(S.AsIntended, EventFilter, steps).session.paho.routes, EventTopic(id, name))
         == Expected(S.AsIntended, EventFilter, steps, id)
  {
    ThingFiltersInjective();
    forall i | i in Made(steps)
      ensures Matches(EventFilter(i), EventTopic(id, name)) <==> i == id
    {
      TopicIsolation(id, name, i);
    }
    Delivered(EventFilter, steps, id, EventTopic(id, name));
  }

  /** The same for the exposed things and their requests. */
  lemma {:induction false} RequestsDelivered<T, B>(steps: seq<Step<T, B>>, id: string, name: string)
    requires NetSteps(steps) && PlainID(id) && forall i :: i in Made(steps) ==> PlainID(i)
    requires Run(S.AsIntended, ActionFilter, steps).session.Settled()
    ensures S.Receivers(Run(S.AsIntended, ActionFilter, steps).session.paho.routes, ActionTopic(id, name))
         == Expected(S.AsIntended, ActionFilter, steps, id)
  {
    ThingFiltersInjective();
    forall i | i in Made(steps)
      ensures Matches(ActionFilter(i), ActionTopic(id, name)) <==> i == id
    {
      TopicIsolation(id, name, i);
    }
    Delivered(ActionFilter, steps, id, ActionTopic(id, name));
  }

  // ---- Delivery, as written ----

  /** Topics come from things that were added once. */
  lemma {:induction false} TopicsOfThings<T, B>(filter: Filter, steps: seq<Step<T, B>>, t: string)
    requires NetSteps(steps) && (forall i :: 0 <= i < |steps| ==> steps[i].Add? ==> PlainID(steps[i].id))
    requires t in Run(S.AsWritten, filter, steps).session.subs
    ensures exists i :: PlainID(i) && filter(i) == t
  {
    if steps != [] {
      var front, step := steps[..|steps| - 1], steps[|steps| - 1];
      var r := Run(S.AsWritten, filter, front);
      assert forall i :: 0 <= i < |front| ==> front[i] == steps[i];
      if t in r.session.subs {
        TopicsOfThings(filter, front, t);
      } else {
        assert step.Add? && t == filter(step.id);
      }
    }
  }

  /** For every run of the code as written: a settled session sends a message to a thing to the binding of that thing
      if it is fresh, and to nobody else, if and only if its filter is neither stale nor a phantom. */
  lemma {:induction false} DeliveredExactly<T, B>(filter: Filter, steps: seq<Step<T, B>>, id: string, topic: string)
    requires Injective(filter) && NetSteps(steps)
    requires forall i :: 0 <= i < |steps| ==> steps[i].Add? ==> PlainID(steps[i].id)
    requires forall i :: PlainID(i) ==> (Matches(filter(i), topic) <==> i == id)
    requires PlainID(id) && Run(S.AsWritten, filter, steps).session.Settled()
    ensures S.Receivers(Run(S.AsWritten, filter, steps).session.paho.routes, topic)
            == Expected(S.AsWritten, filter, steps, id)
        <==> filter(id) !in S.Stale(Calls(filter, steps)) && filter(id) !in S.Phantom(Calls(filter, steps))
  {
    RunIs(S.AsWritten, filter, steps);
    WantedServes(S.AsWritten, filter, steps);
    var calls, r := Calls(filter, steps), Run(S.AsWritten, filter, steps);
    var routes, table := r.session.paho.routes, S.Wanted(calls).table;
    S.WrittenTracked(calls);
    S.WronglyServed(calls);
    forall t | t in routes && Matches(t, topic)
      ensures t == filter(id)
    {
      TopicsOfThings(filter, steps, t);
      var i :| PlainID(i) && filter(i) == t;
    }
    assert Matches(filter(id), topic);
    assert filter(id) in table <==> id in Fresh(steps);
    RouteRight(filter(id), routes, table, topic);
  }

  lemma RouteRight<B>(t: string, routes: map<string, Option<B>>, table: map<string, B>, topic: string)
    requires Matches(t, topic) && forall u :: u in routes && Matches(u, topic) ==> u == t
    ensures t !in S.Wrong(routes, table)
        <==> S.Receivers(routes, topic) == if t in table then map[t := Some(table[t])] else map[]
  {
    var got := S.Receivers(routes, topic);
    assert t in got <==> t in routes;
    assert got == if t in routes then map[t := routes[t]] else map[];
  }

  lemma {:induction false} EventsDeliveredExactly<T, B>(steps: seq<Step<T, B>>, id: string, name: string)
    requires NetSteps(steps) && PlainID(id)
    requires forall i :: 0 <= i < |steps| ==> steps[i].Add? ==> PlainID(steps[i].id)
    requires Run(S.AsWritten, EventFilter, steps).session.Settled()
    ensures S.Receivers(Run(S.AsWritten, EventFilter, steps).session.paho.routes, EventTopic(id, name))
            == Expected(S.AsWritten, EventFilter, steps, id)
        <==> EventFilter(id) !in S.Stale(Calls(EventFilter, steps))
             && EventFilter(id) !in S.Phantom(Calls(EventFilter, steps))
  {
    ThingFiltersInjective();
    forall i | PlainID(i)
      ensures Matches(EventFilter(i), EventTopic(id, name)) <==> i == id
    {
      TopicIsolation(id, name, i);
    }
    DeliveredExactly(EventFilter, steps, id, EventTopic(id, name));
  }

  lemma {:induction false} RequestsDeliveredExactly<T, B>(steps: seq<Step<T, B>>, id: string, name: string)
    requires NetSteps(steps) && PlainID(id)
    requires forall i :: 0 <= i < |steps| ==> steps[i].Add? ==> PlainID(steps[i].id)
    requires Run(S.AsWritten, ActionFilter, steps).session.Settled()
    ensures S.Receivers(Run(S.AsWritten, ActionFilter, steps).session.paho.routes, ActionTopic(id, name))
            == Expected(S.AsWritten, ActionFilter, steps, id)
        <==> ActionFilter(id) !in S.Stale(Calls(ActionFilter, steps))
             && ActionFilter(id) !in S.Phantom(Calls(ActionFilter, steps))
  {
    ThingFiltersInjective();
    forall i | PlainID(i)
      ensures Matches(ActionFilter(i), ActionTopic(id, name)) <==> i == id
    {
      TopicIsolation(id, name, i);
    }
    DeliveredExactly(ActionFilter, steps, id, ActionTopic(id, name));
  }

  // ---- Connecting twice ----

  /** The first steps of a consumer factory's Connect. */
  function Connecting<T, B>(): seq<Step<T, B>> {
    [Net(S.Disconnect), Net(S.NewClient)]
  }

  /** A consumer's Connect keeps the things made so far if it is the first one since the client was given up; a second
      one drops them all, whether or not the first one got a connection. */
  lemma {:induction false} ConnectForgets<T, B>(steps: seq<Step<T, B>>)
    ensures Fresh(steps + Connecting()) == if HasClient(steps) then {} else Fresh(steps)
    ensures HasClient(steps + Connecting())
    ensures Made(steps + Connecting()) == Made(steps)
  {
    var one, two := steps + [Net(S.Disconnect)], steps + Connecting();
    assert one[..|one| - 1] == steps && two[..|two| - 1] == one;
  }

  /** Consume, a Connect that fails, and a Connect that succeeds: the session settles, in either variant, and the thing
      is there, but nothing is routed. */
  lemma {:induction false} FailedConnectForgets<T, B>(code: S.Code, filter: Filter, id: string, thing: T, b: B)
    ensures var steps := [Add(id, thing, b)] + Connecting() + Connecting() + [Net(S.Connect), Net(S.Resubscribe([]))];
            var r := Run(code, filter, steps);
            r.session.Settled() && id in r.things && r.session.paho.routes == map[]
  {
    var s1: seq<Step<T, B>> := [Add(id, thing, b)];
    var s2 := s1 + Connecting();
    var s3 := s2 + Connecting();
    var s4 := s3 + [Net(S.Connect)];
    var s5 := s4 + [Net(S.Resubscribe([]))];
    assert [Add(id, thing, b)] + Connecting() + Connecting() + [Net(S.Connect), Net(S.Resubscribe([]))] == s5;
    assert [] + s1 == s1;
    OneMoreStep(code, filter, [], Add(id, thing, b));
    assert Run(code, filter, s1).session == S.Session(map[filter(id) := Some(b)], S.NoClient, 0, false);
    ConnectingRun(code, filter, s1);
    ConnectingRun(code, filter, s2);
    OneMoreStep(code, filter, s3, Net(S.Connect));
    OneMoreStep(code, filter, s4, Net(S.Resubscribe([])));
    NothingToRestore(code, Run(code, filter, s3).session);
  }

  lemma NothingToRestore<B>(code: S.Code, s: S.Session<B>)
    requires s == S.Session(map[], S.Client(S.Idle, map[]), 0, false)
    ensures S.Step(code, S.Step(code, s, S.Connect), S.Resubscribe([]))
         == S.Session(map[], S.Client(S.Up, map[]), 0, false)
  {
    var up: S.Session<B> := S.Session(map[], S.Client(S.Up, map[]), 1, false);
    assert S.Step(code, s, S.Connect) == up;
    assert IsOrder([], up.subs.Keys);
    assert S.Resubscribed(code, up.subs, []) == map[];
  }

  lemma {:induction false} ConnectingRun<T, B>(code: S.Code, filter: Filter, steps: seq<Step<T, B>>)
    requires !Run(code, filter, steps).session.crashed
    ensures var r, r' := Run(code, filter, steps), Run(code, filter, steps + Connecting());
            && r'.things == r.things && r'.bindings == r.bindings
            && r'.session == S.Session(if r.session.paho.Client? then map[] else r.session.subs,
                                       S.Client(S.Idle, map[]), r.session.pending, false)
  {
    OneMoreStep(code, filter, steps, Net(S.Disconnect));
    OneMoreStep(code, filter, steps + [Net(S.Disconnect)], Net(S.NewClient));
    assert steps + [Net(S.Disconnect)] + [Net(S.NewClient)] == steps + Connecting();
  }
}
