/** The MQTT session as a state machine: the subscriptions that MqttClient remembers, the paho client that may be
    absent, connected or lost, and the routes the broker and that client hold for it. Sessions are clean, so a lost
    connection loses every route; a resubscription, queued by every connect, has to bring them back.

    `Code` selects between the code as it is and what its comments say it does:
      - AsWritten: the message callbacks made by `resubscribe` share the loop variable (go.mod asks for Go 1.18), so
        all of them end with the entry visited last. `Unsubscribe` stores nil in place of the entry, and does
        nothing at all while there is no paho client.
      - AsIntended: each callback has its own variable, and `Unsubscribe` removes the entry.
 */
module Session {
  import opened Wrappers
  import opened Orders
  import opened Topics

  datatype Code = AsWritten | AsIntended

  /** A client is idle until its first connect; a lost client reconnects by itself. */
  datatype Conn = Idle | Up | Lost

  /** A route to None calls a nil subscription: the process panics on the next message. */
  datatype Paho<H> = NoClient | Client(conn: Conn, routes: map<string, Option<H>>)

  /** `pending` resubscriptions are queued. */
  datatype Session<H> = Session(subs: map<string, Option<H>>, paho: Paho<H>, pending: nat, crashed: bool)
  {
    predicate Connected() {
      paho.Client? && paho.conn == Up
    }

    /** Nothing is under way: the connection is up and its resubscription is done. */
    predicate Settled() {
      !crashed && Connected() && pending == 0
    }
  }

  datatype Event<H> =
    | Subscribe(topic: string, handler: H)
    | Unsubscribe(topic: string)
    | NewClient                        // connect, up to the first attempt
    | Connect                          // an attempt succeeds, or paho reconnects
    | ConnectionLost
    | Resubscribe(order: seq<string>)  // the connect handler runs, walking the map in this order
    | Deliver(topic: string)           // a message arrives on this topic
    | Disconnect

  function Init<H>(): Session<H> {
    Session(map[], NoClient, 0, false)
  }

  // ---- The loop of resubscribe ----

  /** The variables that the callbacks made so far refer to, and the variable of each topic's callback. */
  datatype Loop<H> = Loop(cells: seq<Option<H>>, callbacks: map<string, nat>)

  /** As written, the loop assigns to its one variable; as intended, every callback gets one of its own. */
  function Visit<H>(code: Code, l: Loop<H>, topic: string, entry: Option<H>): Loop<H> {
    match code
    case AsWritten => Loop([entry], l.callbacks[topic := 0])
    case AsIntended => Loop(l.cells + [entry], l.callbacks[topic := |l.cells|])
  }

  function Walk<H>(code: Code, subs: map<string, Option<H>>, order: seq<string>): Loop<H>
    requires forall t :: t in order ==> t in subs
  {
    if order == [] then Loop([], map[])
    else
      var topic := order[|order| - 1];
      Visit(code, Walk(code, subs, order[..|order| - 1]), topic, subs[topic])
  }

  /** What the callbacks call once the loop is over. */
  function Resubscribed<H>(code: Code, subs: map<string, Option<H>>, order: seq<string>): map<string, Option<H>>
    requires forall t :: t in order ==> t in subs
  {
    var l := Walk(code, subs, order);
    map t | t in l.callbacks && l.callbacks[t] < |l.cells| :: l.cells[l.callbacks[t]]
  }

  lemma OneMoreTopic(front: seq<string>, topic: string)
    ensures (map t | t in front + [topic] :: 0) == (map t | t in front :: 0)[topic := 0]
  {
  }

  lemma {:induction false} SharedVariable<H>(subs: map<string, Option<H>>, order: seq<string>)
    requires forall t :: t in order ==> t in subs
    ensures var l := Walk(AsWritten, subs, order);
            && (order != [] ==> l.cells == [subs[order[|order| - 1]]])
            && l.callbacks == map t | t in order :: 0
  {
    if order != [] {
      var front, topic := order[..|order| - 1], order[|order| - 1];
      SharedVariable(subs, front);
      assert order == front + [topic];
      OneMoreTopic(front, topic);
    }
  }

  lemma {:induction false} OwnVariables<H>(subs: map<string, Option<H>>, order: seq<string>)
    requires forall t :: t in order ==> t in subs
    ensures var l := Walk(AsIntended, subs, order);
            && (forall t :: t in l.callbacks <==> t in order)
            && (forall t :: t in order ==> l.callbacks[t] < |l.cells| && l.cells[l.callbacks[t]] == subs[t])
  {
    if order != [] {
      var front, topic := order[..|order| - 1], order[|order| - 1];
      OwnVariables(subs, front);
      assert order == front + [topic];
    }
  }

  /** As written, every topic ends with the entry visited last. */
  lemma LastEntryForAll<H>(subs: map<string, Option<H>>, order: seq<string>)
    requires IsOrder(order, subs.Keys)
    ensures Resubscribed(AsWritten, subs, order) == map t | t in subs :: subs[order[|order| - 1]]
  {
    SharedVariable(subs, order);
  }

  /** As intended, every topic ends with its own entry. */
  lemma OwnEntryForEach<H>(subs: map<string, Option<H>>, order: seq<string>)
    requires IsOrder(order, subs.Keys)
    ensures Resubscribed(AsIntended, subs, order) == subs
  {
    OwnVariables(subs, order);
  }

  // ---- Steps ----

  /** The routes whose filter matches a topic. */
  function Receivers<H>(routes: map<string, Option<H>>, topic: string): map<string, Option<H>> {
    map f | f in routes && Matches(f, topic) :: routes[f]
  }

  predicate HitsNil<H>(routes: map<string, Option<H>>, topic: string) {
    exists f :: f in routes && Matches(f, topic) && routes[f].None?
  }

  /** The two ways to panic: a resubscription that has subscriptions to restore and finds no client, and a message that
      is routed to a nil subscription. */
  ghost predicate Panics<H>(s: Session<H>, e: Event<H>) {
    match e
    case Resubscribe(order) => s.pending > 0 && IsOrder(order, s.subs.Keys) && s.paho.NoClient? && s.subs != map[]
    case Deliver(topic) => s.Connected() && HitsNil(s.paho.routes, topic)
    case _ => false
  }

  ghost function Step<H>(code: Code, s: Session<H>, e: Event<H>): Session<H> {
    if s.crashed then s
    else if Panics(s, e) then s.(crashed := true)
    else match e
      case Subscribe(t, h) =>
        s.(subs := s.subs[t := Some(h)],
           paho := if s.Connected() then s.paho.(routes := s.paho.routes[t := Some(h)]) else s.paho)
      case Unsubscribe(t) =>
        if t !in s.subs || s.subs[t].None? then s
        else if s.paho.NoClient? && code.AsWritten? then s
        else s.(subs := if code.AsWritten? then s.subs[t := None] else s.subs - {t},
                paho := if s.Connected() then s.paho.(routes := s.paho.routes - {t}) else s.paho)
      case NewClient => s.(paho := Client(Idle, map[]))
      case Connect =>
        if s.paho.NoClient? || s.paho.conn == Up then s
        else s.(paho := Client(Up, map[]), pending := s.pending + 1)
      case ConnectionLost =>
        if !s.Connected() then s else s.(paho := Client(Lost, map[]))
      case Resubscribe(order) =>
        if s.pending == 0 || !IsOrder(order, s.subs.Keys) then s  // not a possible step
        else s.(pending := s.pending - 1,
                paho := if s.Connected()
                        then s.paho.(routes := s.paho.routes + Resubscribed(code, s.subs, order))
                        else s.paho)
      case Deliver(_) => s
      case Disconnect =>
        if s.paho.NoClient? then s else s.(subs := map[], paho := NoClient)
  }

  lemma DeliverKeeps<H>(code: Code, s: Session<H>, topic: string)
    requires s.paho.Client? && !HitsNil(s.paho.routes, topic)
    ensures Step(code, s, Deliver(topic)) == s
  {
  }

  /** The session after a run, latest event last. */
  ghost function After<H>(code: Code, run: seq<Event<H>>): Session<H> {
    if run == [] then Init() else Step(code, After(code, run[..|run| - 1]), run[|run| - 1])
  }

  lemma LiveAfterSubscribe<H>(code: Code, s: Session<H>, t: string, h: H)
    requires !s.crashed
    ensures Live(Step(code, s, Subscribe(t, h)).subs) == Live(s.subs)[t := h]
  {
  }

  lemma LiveAfterUnsubscribe<H>(code: Code, s: Session<H>, t: string)
    requires !s.crashed && (s.paho.Client? || code.AsIntended?)
    ensures Live(Step(code, s, Unsubscribe(t)).subs) == Live(s.subs) - {t}
  {
  }

  // ---- What the application asked for ----

  /** The handlers asked for, the latest per topic, whatever happens to connections. Ending a connection with
      Disconnect ends its subscriptions. */
  datatype Wish<H> = Wish(table: map<string, H>, client: bool)

  function WishStep<H>(w: Wish<H>, e: Event<H>): Wish<H> {
    match e
    case Subscribe(t, h) => w.(table := w.table[t := h])
    case Unsubscribe(t) => w.(table := w.table - {t})
    case NewClient => w.(client := true)
    case Disconnect => if w.client then Wish(map[], false) else w
    case _ => w
  }

  function Wanted<H>(run: seq<Event<H>>): Wish<H> {
    if run == [] then Wish(map[], false) else WishStep(Wanted(run[..|run| - 1]), run[|run| - 1])
  }

  /** A client has been made by the first `j` events and not been given up again. */
  ghost predicate HadClient<H>(run: seq<Event<H>>, j: nat)
    requires j <= |run|
  {
    exists k :: 0 <= k < j && run[k].NewClient? && forall l :: k < l < j ==> !run[l].Disconnect?
  }

  /** Event `i` subscribes the topic, and nothing after it replaced, removed or forgot that. */
  ghost predicate Holds<H>(run: seq<Event<H>>, i: nat, t: string, h: H)
    requires i < |run|
  {
    && run[i] == Subscribe(t, h)
    && forall j :: i < j < |run| ==>
         && !(run[j].Subscribe? && run[j].topic == t) && run[j] != Unsubscribe(t)
         && !(run[j].Disconnect? && HadClient(run, j))
  }

  lemma {:induction false} WantedClient<H>(run: seq<Event<H>>)
    ensures Wanted(run).client <==> HadClient(run, |run|)
  {
    if run != [] {
      var front, n := run[..|run| - 1], |run| - 1;
      WantedClient(front);
      HadClientPrefix(run, n);
      if run[n].NewClient? {
        assert HadClient(run, n + 1);
      } else if !run[n].Disconnect? && HadClient(run, n) {
        var k :| 0 <= k < n && run[k].NewClient? && forall l :: k < l < n ==> !run[l].Disconnect?;
        assert HadClient(run, n + 1);
      }
    }
  }

  lemma HadClientPrefix<H>(run: seq<Event<H>>, j: nat)
    requires run != [] && j <= |run| - 1
    ensures HadClient(run[..|run| - 1], j) <==> HadClient(run, j)
  {
    var front := run[..|run| - 1];
    assert forall k :: 0 <= k < |front| ==> front[k] == run[k];
  }

  /** The table asked for, event by event: a topic has the handler of its latest Subscribe, unless an Unsubscribe or
      a Disconnect of a client came after it. */
  lemma {:induction false} WantedExactly<H>(run: seq<Event<H>>, t: string, h: H)
    ensures t in Wanted(run).table && Wanted(run).table[t] == h
        <==> exists i: nat :: i < |run| && Holds(run, i, t, h)
  {
    if run != [] {
      var front, n := run[..|run| - 1], |run| - 1;
      WantedExactly(front, t, h);
      WantedClient(front);
      HadClientPrefix(run, n);
      if run[n].Subscribe? && run[n].topic == t {
        assert Holds(run, n, t, run[n].handler);
      } else {
        forall i: nat | i < n
          ensures Holds(run, i, t, h)
              <==> Holds(front, i, t, h) && run[n] != Unsubscribe(t) && !(run[n].Disconnect? && HadClient(run, n))
        {
          HoldsPrefix(run, i, t, h);
        }
      }
    }
  }

  lemma HoldsPrefix<H>(run: seq<Event<H>>, i: nat, t: string, h: H)
    requires i < |run| - 1 && !(run[|run| - 1].Subscribe? && run[|run| - 1].topic == t)
    ensures var front, n := run[..|run| - 1], |run| - 1;
            Holds(run, i, t, h)
            <==> Holds(front, i, t, h) && run[n] != Unsubscribe(t) && !(run[n].Disconnect? && HadClient(run, n))
  {
    var front, n := run[..|run| - 1], |run| - 1;
    forall j | 0 <= j < n
      ensures front[j] == run[j] && (HadClient(front, j) <==> HadClient(run, j))
    {
      HadClientPrefix(run, j);
    }
  }

  function Live<H>(m: map<string, Option<H>>): map<string, H> {
    map t | t in m && m[t].Some? :: m[t].value
  }

  /** The topics for which the routes do something else than the table says. */
  ghost function Wrong<H>(routes: map<string, Option<H>>, table: map<string, H>): set<string> {
    set t | t in routes.Keys + table.Keys && !(t in routes && t in table && routes[t] == Some(table[t]))
  }

  lemma NothingWrong<H>(routes: map<string, Option<H>>, table: map<string, H>)
    ensures Wrong(routes, table) == {} <==> routes == map t | t in table :: Some(table[t])
  {
    if Wrong(routes, table) == {} {
      forall t | t in routes.Keys + table.Keys
        ensures t in routes && t in table && routes[t] == Some(table[t])
      {
        assert t !in Wrong(routes, table);
      }
    }
  }

  // ---- Reconnecting is invisible, as intended ----

  ghost predicate InStep<H>(s: Session<H>, w: Wish<H>) {
    !s.crashed ==>
      && s.paho.Client? == w.client
      && s.subs == (map t | t in w.table :: Some(w.table[t]))
      && (s.Connected() ==> forall t :: t in s.paho.routes ==> t in s.subs && s.paho.routes[t] == s.subs[t])
      && (s.Settled() ==> s.paho.routes == s.subs)
  }

  lemma IntendedStep<H>(s: Session<H>, w: Wish<H>, e: Event<H>)
    requires InStep(s, w)
    ensures InStep(Step(AsIntended, s, e), WishStep(w, e))
  {
    if e.Resubscribe? && IsOrder(e.order, s.subs.Keys) {
      OwnEntryForEach(s.subs, e.order);
    }
  }

  lemma {:induction false} IntendedInStep<H>(run: seq<Event<H>>)
    ensures InStep(After(AsIntended, run), Wanted(run))
  {
    if run != [] {
      IntendedInStep(run[..|run| - 1]);
      IntendedStep(After(AsIntended, run[..|run| - 1]), Wanted(run[..|run| - 1]), run[|run| - 1]);
    }
  }

  /** For every run: whenever the connection is up and no resubscription is pending, the routes are exactly the
      handlers asked for, and connects, losses and resubscriptions leave no trace. */
  lemma ReconnectInvisible<H>(run: seq<Event<H>>)
    requires After(AsIntended, run).Settled()
    ensures var table := Wanted(run).table; After(AsIntended, run).paho.routes == map t | t in table :: Some(table[t])
  {
    IntendedInStep(run);
  }

  // ---- Exactly when the code as written agrees ----

  /** Topics whose Unsubscribe was skipped because there was no client (the guard of Unsubscribe). */
  function PhantomStep<H>(s: Session<H>, phantom: set<string>, e: Event<H>): set<string> {
    match e
    case Subscribe(t, _) => phantom - {t}
    case Unsubscribe(t) =>
      if s.paho.Client? then phantom - {t}
      else if t in Live(s.subs) then phantom + {t}
      else phantom
    case Disconnect => if s.paho.NoClient? then phantom else {}
    case _ => phantom
  }

  /** Topics routed to a nil or foreign subscription since the last resubscription: those whose entry is nil (they
      were unsubscribed) and those whose handler is not the one of the entry visited last. */
  ghost function StaleStep<H>(s: Session<H>, stale: set<string>, e: Event<H>): set<string> {
    match e
    case Subscribe(t, _) => stale - {t}
    case Unsubscribe(t) => if t in Live(s.subs) then stale - {t} else stale
    case Resubscribe(order) =>
      if s.pending > 0 && IsOrder(order, s.subs.Keys) then
        set t | t in s.subs && (s.subs[t].None? || s.subs[t] != s.subs[order[|order| - 1]])
      else stale
    case _ => stale
  }

  ghost function Phantom<H>(run: seq<Event<H>>): set<string> {
    if run == [] then {}
    else PhantomStep(After(AsWritten, run[..|run| - 1]), Phantom(run[..|run| - 1]), run[|run| - 1])
  }

  ghost function Stale<H>(run: seq<Event<H>>): set<string> {
    if run == [] then {}
    else StaleStep(After(AsWritten, run[..|run| - 1]), Stale(run[..|run| - 1]), run[|run| - 1])
  }

  ghost predicate Tracked<H>(s: Session<H>, w: Wish<H>, phantom: set<string>, stale: set<string>) {
    !s.crashed ==>
      && s.paho.Client? == w.client
      && phantom !! w.table.Keys
      && Live(s.subs).Keys == w.table.Keys + phantom
      && (forall t :: t in w.table ==> s.subs[t] == Some(w.table[t]))
      && (s.Connected() ==> s.paho.routes.Keys <= s.subs.Keys)
      && (s.Settled() ==> Live(s.subs).Keys <= s.paho.routes.Keys && Wrong(s.paho.routes, Live(s.subs)) == stale)
  }

  /** The resubscription of the code as written routes every topic of the table to the entry visited last. */
  lemma ResubscribeStep<H>(s: Session<H>, order: seq<string>)
    requires !s.crashed && s.Connected() && s.pending > 0 && IsOrder(order, s.subs.Keys)
    requires s.paho.routes.Keys <= s.subs.Keys
    ensures var r := Step(AsWritten, s, Resubscribe(order)).paho.routes;
            && r == (map t | t in s.subs :: s.subs[order[|order| - 1]])
            && Wrong(r, Live(s.subs)) == StaleStep(s, {}, Resubscribe(order))
  {
    LastEntryForAll(s.subs, order);
  }

  lemma {:induction false} TrackedStep<H>(s: Session<H>, w: Wish<H>, phantom: set<string>, stale: set<string>,
                                          e: Event<H>)
    requires Tracked(s, w, phantom, stale)
    ensures Tracked(Step(AsWritten, s, e), WishStep(w, e), PhantomStep(s, phantom, e), StaleStep(s, stale, e))
  {
    if !s.crashed {
      match e
      case Subscribe(t, h) => SubscribeTracked(s, w, phantom, stale, t, h);
      case Unsubscribe(t) => UnsubscribeTracked(s, w, phantom, stale, t);
      case Resubscribe(order) =>
        if s.Connected() && s.pending > 0 && IsOrder(order, s.subs.Keys) {
          ResubscribeStep(s, order);
        }
      case _ =>
    }
  }

  lemma WrongAfterSet<H>(routes: map<string, Option<H>>, table: map<string, H>, t: string, h: H)
    ensures Wrong(routes[t := Some(h)], table[t := h]) == Wrong(routes, table) - {t}
  {
  }

  lemma WrongAfterRemoval<H>(routes: map<string, Option<H>>, table: map<string, H>, t: string)
    ensures Wrong(routes - {t}, table - {t}) == Wrong(routes, table) - {t}
  {
  }

  lemma SubscribeTracked<H>(s: Session<H>, w: Wish<H>, phantom: set<string>, stale: set<string>, t: string, h: H)
    requires Tracked(s, w, phantom, stale) && !s.crashed
    ensures Tracked(Step(AsWritten, s, Subscribe(t, h)), w.(table := w.table[t := h]), phantom - {t}, stale - {t})
  {
    LiveAfterSubscribe(AsWritten, s, t, h);
    if s.Connected() {
      WrongAfterSet(s.paho.routes, Live(s.subs), t, h);
    }
  }

  lemma UnsubscribeTracked<H>(s: Session<H>, w: Wish<H>, phantom: set<string>, stale: set<string>, t: string)
    requires Tracked(s, w, phantom, stale) && !s.crashed
    ensures var e := Unsubscribe(t);
            Tracked(Step(AsWritten, s, e), WishStep(w, e), PhantomStep(s, phantom, e), StaleStep(s, stale, e))
  {
    if t in Live(s.subs) && s.paho.Client? {
      LiveAfterUnsubscribe(AsWritten, s, t);
      if s.Connected() {
        WrongAfterRemoval(s.paho.routes, Live(s.subs), t);
      }
    }
  }

  lemma {:induction false} WrittenTracked<H>(run: seq<Event<H>>)
    ensures Tracked(After(AsWritten, run), Wanted(run), Phantom(run), Stale(run))
  {
    if run != [] {
      var front := run[..|run| - 1];
      WrittenTracked(front);
      TrackedStep(After(AsWritten, front), Wanted(front), Phantom(front), Stale(front), run[|run| - 1]);
    }
  }

  lemma WrongSplits<H>(routes: map<string, Option<H>>, live: map<string, H>, table: map<string, H>,
                       phantom: set<string>)
    requires phantom !! table.Keys && live.Keys == table.Keys + phantom && live.Keys <= routes.Keys
    requires forall t :: t in table ==> live[t] == table[t]
    ensures Wrong(routes, table) == Wrong(routes, live) + phantom
  {
  }

  /** For every run of the code as written: once settled, the topics served wrongly are exactly the stale and the
      phantom ones. */
  lemma {:induction false} WronglyServed<H>(run: seq<Event<H>>)
    requires After(AsWritten, run).Settled()
    ensures Wrong(After(AsWritten, run).paho.routes, Wanted(run).table) == Stale(run) + Phantom(run)
  {
    WrittenTracked(run);
  }

  /** So reconnecting is invisible if and only if no topic is stale and none is a phantom. */
  lemma {:induction false} ReconnectInvisibleExactly<H>(run: seq<Event<H>>)
    requires After(AsWritten, run).Settled()
    ensures var table := Wanted(run).table;
            After(AsWritten, run).paho.routes == (map t | t in table :: Some(table[t]))
            <==> Stale(run) == {} && Phantom(run) == {}
  {
    WronglyServed(run);
    NothingWrong(After(AsWritten, run).paho.routes, Wanted(run).table);
  }

  // ---- One reconnect of the code as written ----

  /** All entries hold the same handler and none is nil. */
  ghost predicate OneHandler<H>(subs: map<string, Option<H>>) {
    forall t, u :: t in subs && u in subs ==> subs[t].Some? && subs[t] == subs[u]
  }

  lemma NoneStale<H>(s: Session<H>, order: seq<string>)
    requires s.pending > 0 && IsOrder(order, s.subs.Keys)
    ensures StaleStep(s, {}, Resubscribe(order)) == {} <==> OneHandler(s.subs)
  {
    var stale := StaleStep(s, {}, Resubscribe(order));
    if stale == {} {
      forall t, u | t in s.subs && u in s.subs
        ensures s.subs[t].Some? && s.subs[t] == s.subs[u]
      {
        assert t !in stale && u !in stale;
      }
    }
  }

  /** After any run that leaves a resubscription to be done over a connection that is up, the resubscription restores
      the table asked for, whatever the iteration order, if and only if the table holds at most one handler and no
      topic that was unsubscribed, and no Unsubscribe was skipped. */
  lemma {:induction false} OneReconnect<H>(run: seq<Event<H>>, order: seq<string>)
    requires var s := After(AsWritten, run);
             !s.crashed && s.Connected() && s.pending > 0 && IsOrder(order, s.subs.Keys)
    ensures var s := After(AsWritten, run); var table := Wanted(run).table;
            Step(AsWritten, s, Resubscribe(order)).paho.routes == (map t | t in table :: Some(table[t]))
            <==> OneHandler(s.subs) && Phantom(run) == {}
  {
    var s, table := After(AsWritten, run), Wanted(run).table;
    WrittenTracked(run);
    ResubscribeStep(s, order);
    NoneStale(s, order);
    var routes := Step(AsWritten, s, Resubscribe(order)).paho.routes;
    WrongSplits(routes, Live(s.subs), table, Phantom(run));
    NothingWrong(routes, table);
  }

  /** With a handler per topic, as the factories have, that is: at most one topic, not unsubscribed. */
  lemma DistinctHandlers<H>(subs: map<string, Option<H>>)
    requires forall t, u :: t in subs && u in subs && t != u && subs[t].Some? ==> subs[t] != subs[u]
    ensures OneHandler(subs) <==> Live(subs).Keys == subs.Keys && |subs| <= 1
  {
    if OneHandler(subs) {
      forall t | t in subs
        ensures subs.Keys == {t} && t in Live(subs)
      {
      }
      if subs != map[] {
        var t :| t in subs;
        assert |subs.Keys| == 1;
      }
    }
    if Live(subs).Keys == subs.Keys && |subs| <= 1 && subs != map[] {
      var t :| t in subs;
      assert subs.Keys - {t} == {} by {
        assert |subs.Keys - {t}| == |subs.Keys| - 1;
      }
      assert forall u :: u in subs ==> u == t || u in subs.Keys - {t};
    }
  }

  // ---- Panics ----

  lemma PanicStep<H>(code: Code, s: Session<H>, e: Event<H>)
    ensures Step(code, s, e).crashed <==> s.crashed || Panics(s, e)
  {
  }

  /** Which events panic in a session that lives: a resubscription that is queued and has something to restore, but no
      client, and a message over an up connection that matches a nil route. */
  lemma {:induction false} PanicsAre<H>(code: Code, s: Session<H>, order: seq<string>, topic: string, e: Event<H>)
    requires !s.crashed && !e.Resubscribe? && !e.Deliver?
    ensures Step(code, s, Resubscribe(order)).crashed
        <==> s.paho.NoClient? && s.pending > 0 && s.subs != map[] && IsOrder(order, s.subs.Keys)
    ensures Step(code, s, Deliver(topic)).crashed
        <==> s.paho.Client? && s.paho.conn == Up
             && exists f :: f in s.paho.routes && Matches(f, topic) && s.paho.routes[f] == None
    ensures !Step(code, s, e).crashed
  {
    PanicStep(code, s, Resubscribe(order));
    PanicStep(code, s, Deliver(topic));
  }

  /** The variants differ in Unsubscribe and in the loop of the resubscription only, and there only where something is
      remembered. */
  lemma {:induction false} VariantsAgree<H>(s: Session<H>, e: Event<H>)
    requires match e
             case Unsubscribe(t) => t !in Live(s.subs)
             case Resubscribe(_) => s.subs == map[]
             case _ => true
    ensures Step(AsWritten, s, e) == Step(AsIntended, s, e)
  {
    if e.Resubscribe? && IsOrder(e.order, s.subs.Keys) {
      LastEntryForAll(s.subs, e.order);
      OwnEntryForEach(s.subs, e.order);
    }
  }

  /** Event `i` of the run is the one that panics. */
  ghost predicate PanicsAt<H>(code: Code, run: seq<Event<H>>, i: nat)
    requires i < |run|
  {
    !After(code, run[..i]).crashed && Panics(After(code, run[..i]), run[i])
  }

  lemma PanicsLast<H>(code: Code, run: seq<Event<H>>)
    requires run != []
    ensures After(code, run).crashed <==> After(code, run[..|run| - 1]).crashed || PanicsAt(code, run, |run| - 1)
  {
    PanicStep(code, After(code, run[..|run| - 1]), run[|run| - 1]);
  }

  lemma PanicsEarlier<H>(code: Code, run: seq<Event<H>>, i: nat)
    requires i < |run| - 1
    ensures PanicsAt(code, run[..|run| - 1], i) <==> PanicsAt(code, run, i)
  {
    assert run[..|run| - 1][..i] == run[..i];
  }

  /** A run ends crashed if and only if, somewhere along it, a queued resubscription with subscriptions to restore met
      no client, or a message met a nil route. */
  lemma {:induction false} CrashExactly<H>(code: Code, run: seq<Event<H>>)
    ensures After(code, run).crashed <==> exists i: nat :: i < |run| && PanicsAt(code, run, i)
  {
    if run != [] {
      var front, n := run[..|run| - 1], |run| - 1;
      CrashExactly(code, front);
      PanicsLast(code, run);
      if i: nat :| i < |front| && PanicsAt(code, front, i) {
        PanicsEarlier(code, run, i);
      }
      if i: nat :| i < n && PanicsAt(code, run, i) {
        PanicsEarlier(code, run, i);
        assert PanicsAt(code, front, i);
      }
    }
  }

  /** As intended, no message ever meets a nil route, so only a late resubscription can panic. */
  lemma {:induction false} IntendedNeverHitsNil<H>(run: seq<Event<H>>, topic: string)
    requires !After(AsIntended, run).crashed
    ensures !Panics(After(AsIntended, run), Deliver(topic))
  {
    IntendedInStep(run);
  }

  /** And without Disconnect it never panics at all: a connected client stays there for the resubscription. */
  lemma {:induction false} IntendedNeverCrashes<H>(run: seq<Event<H>>)
    requires forall i :: 0 <= i < |run| ==> !run[i].Disconnect?
    ensures var s := After(AsIntended, run); !s.crashed && (s.pending > 0 ==> s.paho.Client?)
  {
    if run != [] {
      var front, e := run[..|run| - 1], run[|run| - 1];
      IntendedNeverCrashes(front);
      if e.Deliver? {
        IntendedNeverHitsNil(front, e.topic);
      }
      PanicStep(AsIntended, After(AsIntended, front), e);
    }
  }

  /** What a run says about its connection: whether there is a client, whether it is up, and the resubscriptions that
      are queued, given that they walk the table asked for. */
  datatype Link = Link(client: bool, up: bool, queued: nat)

  ghost function LinkAfter<H>(run: seq<Event<H>>): Link {
    if run == [] then Link(false, false, 0)
    else
      var l := LinkAfter(run[..|run| - 1]);
      match run[|run| - 1]
      case NewClient => l.(client := true, up := false)
      case Connect => if l.client && !l.up then l.(up := true, queued := l.queued + 1) else l
      case ConnectionLost => l.(up := false)
      case Disconnect => l.(client := false, up := false)
      case Resubscribe(order) =>
        if l.queued > 0 && IsOrder(order, Wanted(run[..|run| - 1]).table.Keys) then l.(queued := l.queued - 1) else l
      case _ => l
  }

  /** Event `i` is a queued resubscription that has a table to restore and no client. */
  ghost predicate LateAt<H>(run: seq<Event<H>>, i: nat)
    requires i < |run|
  {
    var before, e := run[..i], run[i];
    && e.Resubscribe? && LinkAfter(before).queued > 0 && !LinkAfter(before).client
    && Wanted(before).table != map[] && IsOrder(e.order, Wanted(before).table.Keys)
  }

  lemma {:induction false} IntendedLink<H>(run: seq<Event<H>>)
    requires !After(AsIntended, run).crashed
    ensures var s := After(AsIntended, run);
            LinkAfter(run) == Link(s.paho.Client?, s.Connected(), s.pending) && s.subs.Keys == Wanted(run).table.Keys
  {
    IntendedInStep(run);
    if run != [] {
      var front := run[..|run| - 1];
      PanicStep(AsIntended, After(AsIntended, front), run[|run| - 1]);
      IntendedLink(front);
    }
  }

  lemma {:induction false} IntendedPanics<H>(run: seq<Event<H>>)
    requires run != [] && !After(AsIntended, run[..|run| - 1]).crashed
    ensures After(AsIntended, run).crashed <==> LateAt(run, |run| - 1)
  {
    var front, e := run[..|run| - 1], run[|run| - 1];
    IntendedInStep(front);
    IntendedLink(front);
    PanicStep(AsIntended, After(AsIntended, front), e);
  }

  lemma LateEarlier<H>(run: seq<Event<H>>, i: nat)
    requires i < |run| - 1
    ensures LateAt(run[..|run| - 1], i) <==> LateAt(run, i)
  {
    assert run[..|run| - 1][..i] == run[..i];
  }

  /** So, as intended, what the application asked for and the connection events tell whether a run panics: it does if
      and only if somewhere a queued resubscription runs between a Disconnect and the next connect, with something
      asked for since. */
  lemma {:induction false} IntendedCrashExactly<H>(run: seq<Event<H>>)
    ensures After(AsIntended, run).crashed <==> exists i: nat :: i < |run| && LateAt(run, i)
  {
    if run != [] {
      var front, n := run[..|run| - 1], |run| - 1;
      IntendedCrashExactly(front);
      if i: nat :| i < |front| && LateAt(front, i) {
        LateEarlier(run, i);
      }
      if i: nat :| i < n && LateAt(run, i) {
        LateEarlier(run, i);
        assert LateAt(front, i);
      }
      if !After(AsIntended, front).crashed {
        IntendedPanics(run);
      } else {
        PanicStep(AsIntended, After(AsIntended, front), run[n]);
      }
    }
  }

  ghost predicate NoNil<H>(s: Session<H>) {
    && !s.crashed
    && (s.pending > 0 ==> s.paho.Client?)
    && (forall t :: t in s.subs ==> s.subs[t].Some?)
    && (s.paho.Client? ==> forall t :: t in s.paho.routes ==> s.paho.routes[t].Some?)
  }

  lemma NoNilStep<H>(s: Session<H>, e: Event<H>)
    requires NoNil(s) && !e.Disconnect? && !e.Unsubscribe?
    ensures NoNil(Step(AsWritten, s, e))
  {
    if e.Resubscribe? && IsOrder(e.order, s.subs.Keys) {
      LastEntryForAll(s.subs, e.order);
    }
  }

  lemma {:induction false} WrittenStaysNoNil<H>(run: seq<Event<H>>)
    requires forall i :: 0 <= i < |run| ==> !run[i].Disconnect? && !run[i].Unsubscribe?
    ensures NoNil(After(AsWritten, run))
  {
    if run != [] {
      WrittenStaysNoNil(run[..|run| - 1]);
      NoNilStep(After(AsWritten, run[..|run| - 1]), run[|run| - 1]);
    }
  }

  /** As written, a run without Disconnect needs an Unsubscribe to panic. */
  lemma {:induction false} WrittenCrashNeedsUnsubscribe<H>(run: seq<Event<H>>)
    requires forall i :: 0 <= i < |run| ==> !run[i].Disconnect? && !run[i].Unsubscribe?
    ensures var s := After(AsWritten, run);
            && !s.crashed && (forall t :: t in s.subs ==> s.subs[t].Some?)
            && (s.paho.Client? ==> forall t :: t in s.paho.routes ==> s.paho.routes[t].Some?)
  {
    WrittenStaysNoNil(run);
  }

  /** That is enough, though: a topic that is unsubscribed while there is a client, connected or not, comes back with
      the next resubscription and stays routed. When its nil entry is the one visited last, the next message it matches
      ends the process. */
  lemma {:induction false} UnsubscribedTopicRevived<H>(s: Session<H>, t: string, order: seq<string>, topic: string)
    requires !s.crashed && s.paho.Client? && t in Live(s.subs)
    requires s.Connected() ==> s.paho.routes.Keys <= s.subs.Keys
    requires IsOrder(order, s.subs.Keys)
    ensures var unsubscribed := Step(AsWritten, s, Unsubscribe(t));
            var up := Step(AsWritten, Step(AsWritten, unsubscribed, ConnectionLost), Connect);
            var back := Step(AsWritten, up, Resubscribe(order));
            && (s.Connected() ==> t !in unsubscribed.paho.routes) && t !in Live(back.subs)
            && back.Connected() && t in back.paho.routes
            && (order[|order| - 1] == t && Matches(t, topic) ==> Step(AsWritten, back, Deliver(topic)).crashed)
  {
    var unsubscribed := Step(AsWritten, s, Unsubscribe(t));
    assert unsubscribed.subs == s.subs[t := None] && unsubscribed.paho.Client? && !unsubscribed.crashed;
    assert unsubscribed.subs.Keys == s.subs.Keys && unsubscribed.pending == s.pending;
    var up := Step(AsWritten, Step(AsWritten, unsubscribed, ConnectionLost), Connect);
    assert up == unsubscribed.(paho := Client(Up, map[]), pending := s.pending + 1);
    ResubscribeStep(up, order);
    var back := Step(AsWritten, up, Resubscribe(order));
    if order[|order| - 1] == t && Matches(t, topic) {
      NilCrashes(back, t, topic);
    }
  }

  lemma NilCrashes<H>(s: Session<H>, t: string, topic: string)
    requires s.Connected() && t in s.paho.routes && s.paho.routes[t].None? && Matches(t, topic)
    ensures Step(AsWritten, s, Deliver(topic)).crashed
  {
  }

  /** A queued resubscription that runs after Disconnect and a new Subscribe finds no client and ends the process, in
      either variant. */
  lemma LateResubscriptionCrashes<H>(code: Code, t: string, h: H)
    ensures After(code, [NewClient, Connect, Disconnect, Subscribe(t, h), Resubscribe([t])]).crashed
  {
    var r1: seq<Event<H>> := [NewClient];
    var r2 := [NewClient, Connect];
    var r3 := [NewClient, Connect, Disconnect];
    var r4 := [NewClient, Connect, Disconnect, Subscribe(t, h)];
    var r5 := [NewClient, Connect, Disconnect, Subscribe(t, h), Resubscribe([t])];
    assert r1[..0] == [] && r2[..1] == r1 && r3[..2] == r2 && r4[..3] == r3 && r5[..4] == r4;
    assert After(code, r2) == Session(map[], Client(Up, map[]), 1, false);
    assert After(code, r4) == Session(map[t := Some(h)], NoClient, 1, false);
    assert IsOrder([t], After(code, r4).subs.Keys) && t in After(code, r4).subs;
    assert After(code, r5) == Step(code, After(code, r4), Resubscribe([t]));
  }
}
