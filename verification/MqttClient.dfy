/** MqttClient as a class with the fields the source updates, proved against the session machine. */
module MqttClient {
  import opened Wrappers
  import opened Orders
  import opened Backoff
  import opened Topics
  import S = Session

  /** The variable a message callback has captured. `Subscribe` makes one per call, `resubscribe` one per loop. */
  class Captured<H> {
    var subscription: Option<H>

    constructor (subscription: Option<H>)
      ensures this.subscription == subscription
    {
      this.subscription := subscription;
    }
  }

  /** The paho client with, per topic filter, the callback it calls. */
  datatype PahoClient<H> = NoPaho | Paho(conn: S.Conn, callbacks: map<string, Captured<H>>)

  datatype Error = NoError | NoConnection | BrokerError

  class MqttClient<H, M> {
    const timeout: nat
    var isRunning: bool
    var pahoClient: PahoClient<H>
    var subscriptions: map<string, Option<H>>
    var published: seq<(string, M)>  // what was handed to the paho client

    ghost var pending: nat  // connect handlers that have yet to run

    ghost function Callbacks(): set<Captured<H>>
      reads this`pahoClient
    {
      if pahoClient.NoPaho? then {} else set t | t in pahoClient.callbacks :: pahoClient.callbacks[t]
    }

    /** The subscription each callback calls now. */
    ghost function Routes(): map<string, Option<H>>
      requires pahoClient.Paho?
      reads this`pahoClient, Callbacks()
    {
      map t | t in pahoClient.callbacks :: pahoClient.callbacks[t].subscription
    }

    /** paho's IsConnected: a client that is busy reconnecting says yes too. */
    predicate IsConnected()
      reads this`pahoClient
    {
      pahoClient.Paho? && pahoClient.conn != S.Idle
    }

    /** The session this client is in. */
    ghost function State(): S.Session<H>
      reads this`pahoClient, this`subscriptions, this`pending, Callbacks()
    {
      S.Session(subscriptions,
                if pahoClient.NoPaho? then S.NoClient else S.Client(pahoClient.conn, Routes()),
                pending, false)
    }

    /** What happens elsewhere does not change the session. */
    twostate lemma SameState()
      requires unchanged(this) && forall c :: c in old(Callbacks()) ==> unchanged(c)
      ensures State() == old(State())
    {
    }

    ghost predicate Valid() {
      timeout > 0
    }

    /** A timeout that is not positive becomes the default. */
    constructor (timeoutSec: int)
      ensures Valid() && State() == S.Init() && !IsConnected() && subscriptions == map[] && !isRunning
      ensures timeout == if timeoutSec <= 0 then 3 else timeoutSec
      ensures published == [] && pahoClient == NoPaho
    {
      timeout := if timeoutSec <= 0 then DEFAULT_TIMEOUT_SEC else timeoutSec;
      isRunning := false;
      pahoClient := NoPaho;
      subscriptions := map[];
      published := [];
      pending := 0;
    }

    method Subscribe(topic: string, handler: H)
      requires Valid()
      modifies this`pahoClient, this`subscriptions
      ensures Valid() && State() == S.Step(S.AsWritten, old(State()), S.Subscribe(topic, handler))
      ensures subscriptions == old(subscriptions)[topic := Some(handler)]
      ensures pahoClient.Paho? == old(pahoClient.Paho?)
      ensures pahoClient.Paho? ==>
                && pahoClient.conn == old(pahoClient.conn)
                && Routes() == if pahoClient.conn == S.Up then old(Routes())[topic := Some(handler)] else old(Routes())
    {
      if pahoClient.Paho? && pahoClient.conn == S.Up {
        var subscribedHandler := new Captured(Some(handler));
        pahoClient := pahoClient.(callbacks := pahoClient.callbacks[topic := subscribedHandler]);
      }
      subscriptions := subscriptions[topic := Some(handler)];
      ghost var goal := S.Step(S.AsWritten, old(State()), S.Subscribe(topic, handler));
      assert pahoClient.Paho? ==> Routes() == goal.paho.routes;
    }

    method Unsubscribe(topic: string)
      requires Valid()
      modifies this`pahoClient, this`subscriptions
      ensures Valid() && State() == S.Step(S.AsWritten, old(State()), S.Unsubscribe(topic))
      ensures pahoClient.Paho? == old(pahoClient.Paho?)
      ensures var live := topic in old(subscriptions) && old(subscriptions)[topic].Some?;
              && subscriptions == (if live && pahoClient.Paho? then old(subscriptions)[topic := None]
                                   else old(subscriptions))
              && (pahoClient.Paho? ==>
                    && pahoClient.conn == old(pahoClient.conn)
                    && Routes() == if live && pahoClient.conn == S.Up then old(Routes()) - {topic} else old(Routes()))
    {
      if topic !in subscriptions || subscriptions[topic].None? {
        return;
      }
      if pahoClient.Paho? {
        if pahoClient.conn == S.Up {
          pahoClient := pahoClient.(callbacks := pahoClient.callbacks - {topic});
        }
        subscriptions := subscriptions[topic := None];
        assert Routes() == S.Step(S.AsWritten, old(State()), S.Unsubscribe(topic)).paho.routes;
      }
    }

    /** The loop variable is one `Captured` that every callback of this loop refers to. The loop reaches into the
        paho client, so with a subscription to restore there has to be one. */
    method Resubscribe() returns (ghost order: seq<string>)
      requires Valid() && pending > 0
      requires pahoClient.Paho? || subscriptions == map[]
      modifies this`pahoClient, this`pending
      ensures IsOrder(order, subscriptions.Keys)
      ensures Valid() && State() == S.Step(S.AsWritten, old(State()), S.Resubscribe(order))
      ensures pending == old(pending) - 1 && pahoClient.Paho? == old(pahoClient.Paho?)
      ensures pahoClient.Paho? ==>
                && pahoClient.conn == old(pahoClient.conn)
                && Routes() == if pahoClient.conn == S.Up && order != []
                               then old(Routes()) + map t | t in subscriptions :: subscriptions[order[|order| - 1]]
                               else old(Routes())
    {
      var subscription;
      order, subscription := WalkSubscriptions();
      pending := pending - 1;
      if pahoClient.Paho? {
        LoopDone(order, subscription);
      }
    }

    /** The loop. */
    method WalkSubscriptions() returns (ghost order: seq<string>, subscription: Captured<H>)
      requires pahoClient.Paho? || subscriptions == map[]
      modifies this`pahoClient
      ensures fresh(subscription) && IsOrder(order, subscriptions.Keys)
      ensures order != [] ==> subscription.subscription == subscriptions[order[|order| - 1]]
      ensures Walked(old(pahoClient), pahoClient, order, subscription)
    {
      order := [];
      var topics := subscriptions.Keys;
      subscription := new Captured<H>(None);
      while topics != {}
        invariant topics <= subscriptions.Keys
        invariant IsOrder(order, subscriptions.Keys - topics)
        invariant order != [] ==> order[|order| - 1] in subscriptions
                                  && subscription.subscription == subscriptions[order[|order| - 1]]
        invariant Walked(old(pahoClient), pahoClient, order, subscription)
        decreases topics
      {
        var topic :| topic in topics;
        subscription.subscription := subscriptions[topic];
        WalkedOneMore(old(pahoClient), pahoClient, order, subscription, topic);
        if pahoClient.conn == S.Up {
          pahoClient := pahoClient.(callbacks := pahoClient.callbacks[topic := subscription]);
        }
        OneMoreKey(order, subscriptions.Keys - topics, topic);
        assert subscriptions.Keys - topics + {topic} == subscriptions.Keys - (topics - {topic});
        order := order + [topic];
        topics := topics - {topic};
      }
      assert subscriptions.Keys - topics == subscriptions.Keys;
    }

    /** What the loop has done to the routes, and so to the session. */
    twostate lemma LoopDone(order: seq<string>, new subscription: Captured<H>)
      requires old(pahoClient.Paho?) && old(pending) > 0 && pending == old(pending) - 1
      requires subscriptions == old(subscriptions)
      requires var callbacks := old(pahoClient).callbacks;
               old(Routes()) == map t | t in callbacks :: callbacks[t].subscription
      requires IsOrder(order, subscriptions.Keys) && Walked(old(pahoClient), pahoClient, order, subscription)
      requires order != [] ==> subscription.subscription == subscriptions[order[|order| - 1]]
      ensures Routes() == if pahoClient.conn == S.Up && order != []
                          then old(Routes()) + map t | t in subscriptions :: subscriptions[order[|order| - 1]]
                          else old(Routes())
      ensures State() == S.Step(S.AsWritten, old(State()), S.Resubscribe(order))
    {
      WalkedAll(old(pahoClient), old(Routes()), order, subscription);
      WalkedIsStep(old(State()), order);
    }

    /** The paho client `now` is `was` with the topics in `order` resubscribed. */
    static ghost predicate Walked(was: PahoClient<H>, now: PahoClient<H>, order: seq<string>,
                                  subscription: Captured<H>) {
      match was
      case NoPaho => now == NoPaho
      case Paho(conn, callbacks) =>
        && now.Paho? && now.conn == conn
        && if conn == S.Up then now.callbacks == callbacks + (map t | t in order :: subscription)
           else now.callbacks == callbacks
    }

    static lemma WalkedOneMore(was: PahoClient<H>, now: PahoClient<H>, order: seq<string>, subscription: Captured<H>,
                               topic: string)
      requires Walked(was, now, order, subscription) && now.Paho?
      ensures Walked(was, if now.conn == S.Up then now.(callbacks := now.callbacks[topic := subscription]) else now,
                     order + [topic], subscription)
    {
      assert (map t | t in order + [topic] :: subscription)
          == (map t | t in order :: subscription)[topic := subscription];
    }

    /** Every callback made by the loop calls the entry visited last. */
    lemma WalkedAll(was: PahoClient<H>, routes: map<string, Option<H>>, order: seq<string>, subscription: Captured<H>)
      requires was.Paho? && routes == map t | t in was.callbacks :: was.callbacks[t].subscription
      requires IsOrder(order, subscriptions.Keys) && Walked(was, pahoClient, order, subscription)
      requires order != [] ==> subscription.subscription == subscriptions[order[|order| - 1]]
      ensures Routes() == if was.conn == S.Up && order != []
                          then routes + map t | t in subscriptions :: subscriptions[order[|order| - 1]]
                          else routes
    {
      if was.conn == S.Up && order != [] {
        var now, last := Routes(), subscriptions[order[|order| - 1]];
        assert now.Keys == routes.Keys + subscriptions.Keys;
        forall t | t in now
          ensures now[t] == if t in subscriptions then last else routes[t]
        {
        }
      } else {
        assert pahoClient.callbacks == was.callbacks;
      }
    }

    /** In terms of the session. */
    lemma WalkedIsStep(was: S.Session<H>, order: seq<string>)
      requires was.paho.Client? && !was.crashed && was.pending > 0 && IsOrder(order, was.subs.Keys)
      requires State() == was.(pending := was.pending - 1, paho := State().paho) && State().paho.Client?
      requires State().paho.conn == was.paho.conn
      requires State().paho.routes == if was.paho.conn == S.Up && order != []
                                      then was.paho.routes + map t | t in was.subs :: was.subs[order[|order| - 1]]
                                      else was.paho.routes
      ensures State() == S.Step(S.AsWritten, was, S.Resubscribe(order))
    {
      S.LastEntryForAll(was.subs, order);
      assert order == [] ==> was.subs.Keys == {};
    }

    /** A new paho client replaces the old one, then the retry loop runs. */
    method Connect(reachable: nat -> bool) returns (failed: bool, attempts: nat, slept: nat)
      requires Valid()
      modifies this`isRunning, this`pahoClient, this`pending
      ensures Valid() && isRunning
      ensures var started := S.Step(S.AsWritten, old(State()), S.NewClient);
              State() == if failed then started else S.Step(S.AsWritten, started, S.Connect)
      ensures pahoClient == Paho(if failed then S.Idle else S.Up, map[]) && (IsConnected() <==> !failed)
      ensures pending == if failed then old(pending) else old(pending) + 1
      ensures attempts > 0 && RetryDuration(attempts - 1) < timeout
      ensures failed == !reachable(attempts - 1) && forall i :: 0 <= i < attempts - 1 ==> !reachable(i)
      ensures failed ==> GivesUpAfter(timeout, attempts) && slept == RetryDuration(attempts)
    {
      if IsConnected() {
        pahoClient := NoPaho;  // disconnected, so it stops reconnecting
      }
      pahoClient := Paho(S.Idle, map[]);
      isRunning := true;
      failed, attempts, slept := RetryLoop(timeout, reachable);
      if !failed {
        pahoClient := Paho(S.Up, map[]);
        pending := pending + 1;
      }
    }

    /** The connection breaks: the session was clean, so broker and client forget the routes. */
    method ConnectionLost()
      requires Valid() && pahoClient.Paho? && pahoClient.conn == S.Up
      modifies this`pahoClient
      ensures Valid() && State() == S.Step(S.AsWritten, old(State()), S.ConnectionLost)
      ensures pahoClient == Paho(S.Lost, map[]) && IsConnected()
    {
      pahoClient := Paho(S.Lost, map[]);
    }

    /** paho reconnects and queues the connect handler. */
    method Reconnected()
      requires Valid() && pahoClient.Paho? && pahoClient.conn == S.Lost
      modifies this`pahoClient, this`pending
      ensures Valid() && State() == S.Step(S.AsWritten, old(State()), S.Connect)
      ensures pahoClient == Paho(S.Up, map[]) && IsConnected() && pending == old(pending) + 1
    {
      pahoClient := Paho(S.Up, map[]);
      pending := pending + 1;
    }

    method Disconnect()
      requires Valid()
      modifies this`isRunning, this`pahoClient, this`subscriptions
      ensures Valid() && !isRunning && State() == S.Step(S.AsWritten, old(State()), S.Disconnect)
      ensures pahoClient == NoPaho && !IsConnected()
      ensures subscriptions == if old(pahoClient.Paho?) then map[] else old(subscriptions)
    {
      isRunning := false;
      if pahoClient.Paho? {
        pahoClient := NoPaho;
        subscriptions := map[];
      }
    }

    /** `tokenError` is what the paho token reports right after the call. A client that is reconnecting takes the
        message too, to send it once it is back. */
    method Publish(topic: string, message: M, tokenError: bool) returns (err: Error)
      requires Valid()
      modifies this`published
      ensures err == NoConnection <==> pahoClient.NoPaho? || pahoClient.conn == S.Idle
      ensures err == NoError <==> pahoClient.Paho? && pahoClient.conn in {S.Up, S.Lost} && !tokenError
      ensures published == if err == NoError then old(published) + [(topic, message)] else old(published)
      ensures State() == old(State())
    {
      if pahoClient.NoPaho? || !IsConnected() {
        return NoConnection;
      }
      if tokenError {
        return BrokerError;
      }
      assert forall c :: c in Callbacks() ==> (c as object) != this;
      published := published + [(topic, message)];
      return NoError;
    }

    /** A message arrives: every callback whose filter matches calls the handler its variable holds now. A variable
        that holds nil panics. Returns the handlers called, by filter. */
    method OnMessage(topic: string) returns (called: map<string, H>)
      requires Valid() && pahoClient.Paho? && pahoClient.conn == S.Up
      requires !S.HitsNil(Routes(), topic)
      ensures State() == S.Step(S.AsWritten, State(), S.Deliver(topic))
      ensures (map f | f in called :: Some(called[f])) == S.Receivers(Routes(), topic)
      ensures forall f :: f in called <==> f in pahoClient.callbacks && Matches(f, topic)
      ensures forall f :: f in called ==> Some(called[f]) == pahoClient.callbacks[f].subscription
    {
      var matched := set f | f in pahoClient.callbacks && Matches(f, topic);
      ReceiversMatched(topic, matched);
      called := map f | f in matched :: pahoClient.callbacks[f].subscription.value;
      DeliveryKeepsState(topic);
    }

    lemma ReceiversMatched(topic: string, matched: set<string>)
      requires pahoClient.Paho? && matched == set f | f in pahoClient.callbacks && Matches(f, topic)
      ensures S.Receivers(Routes(), topic) == map f | f in matched :: pahoClient.callbacks[f].subscription
      ensures !S.HitsNil(Routes(), topic) <==> forall f :: f in matched ==> pahoClient.callbacks[f].subscription.Some?
    {
      var routes := Routes();
      assert forall f :: f in matched <==> f in routes && Matches(f, topic);
    }

    lemma DeliveryKeepsState(topic: string)
      requires pahoClient.Paho? && !S.HitsNil(Routes(), topic)
      ensures State() == S.Step(S.AsWritten, State(), S.Deliver(topic))
    {
      assert State().paho.routes == Routes();
      S.DeliverKeeps(S.AsWritten, State(), topic);
    }
  }
}
