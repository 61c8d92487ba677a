/** From the value stores of exposed things, over the message bus, to the cache of a consumed thing.

    Many things publish on one bus. The bus delivers at least once and in order (QoS 1, sections 4.3.2 and 4.6 of
    MQTT 3.1.1): a sender may go back and send again from an earlier message on, any number of times.
 */
module Replication {
  import opened Wrappers
  import opened Topics
  import opened Things
  import opened Emitting
  import Consuming

  /** An emit request made on thing `id`. */
  datatype Op = Op(id: string, emit: Emit)

  /** A published event; its topic is EventTopic(id, name). */
  datatype BusMessage = BusMessage(id: string, name: string, payload: Payload)

  predicate WellNamed(td: ThingTD) {
    && '/' !in td.id
    && (forall n :: n in td.properties ==> '/' !in n)
    && (forall n :: n in td.events ==> '/' !in n)
  }

  /** The things on the bus, by ID. */
  predicate OnBus(tds: map<string, ThingTD>) {
    forall id :: id in tds ==> tds[id].id == id && WellNamed(tds[id])
  }

  /** In detail: their IDs are those they are listed under, and no ID, property or event has a '/'. */
  lemma OnBusExactly(tds: map<string, ThingTD>)
    ensures OnBus(tds) <==> forall id :: id in tds ==>
              && tds[id].id == id && '/' !in id
              && (forall n :: n in tds[id].properties ==> '/' !in n) && (forall n :: n in tds[id].events ==> '/' !in n)
  {
  }

  /** The latest request panicked, and with it the process of the thing. */
  predicate Panicked(td: ThingTD, es: seq<Emit>) {
    es != [] && Decide(td, StoreAfter(td, es[..|es| - 1]), es[|es| - 1]) == Panics
  }

  /** The requests on thing `id` that are carried out: those up to the first panic. */
  function Executed(tds: map<string, ThingTD>, ops: seq<Op>, id: string): seq<Emit>
    requires id in tds
  {
    if ops == [] then []
    else
      var es, op := Executed(tds, ops[..|ops| - 1], id), ops[|ops| - 1];
      es + if op.id == id && !Panicked(tds[id], es) then [op.emit] else []
  }

  /** It does if it is conditional and both its value and the stored one are arrays, or both objects. */
  lemma {:induction false} PanickedExactly(td: ThingTD, es: seq<Emit>, e: Emit)
    ensures !Panicked(td, [])
    ensures Panicked(td, es + [e])
        <==> && e.Property? && e.name in td.properties && e.changesOnly && e.name in StoreAfter(td, es)
             && var stored := StoreAfter(td, es)[e.name].value;
                (stored.Array? && e.value.Array?) || (stored.Object? && e.value.Object?)
  {
    assert (es + [e])[..|es|] == es;
  }

  /** The requests on thing `id`, carried out or not. */
  function RequestsOn(ops: seq<Op>, id: string): seq<Emit> {
    if ops == [] then []
    else RequestsOn(ops[..|ops| - 1], id) + if ops[|ops| - 1].id == id then [ops[|ops| - 1].emit] else []
  }

  /** They are picked one by one, in order. */
  lemma {:induction false} RequestsOnConcat(a: seq<Op>, b: seq<Op>, op: Op, id: string)
    ensures RequestsOn(a + b, id) == RequestsOn(a, id) + RequestsOn(b, id)
    ensures RequestsOn([op], id) == if op.id == id then [op.emit] else []
  {
    if b == [] {
      assert a + b == a;
    } else {
      assert (a + b)[..|a + b| - 1] == a + b[..|b| - 1];
      RequestsOnConcat(a, b[..|b| - 1], op, id);
    }
    assert [op][..0] == [];
  }

  /** Exactly which are carried out: all of them if none panics, otherwise those up to the first that does. */
  lemma {:induction false} ExecutedExactly(tds: map<string, ThingTD>, ops: seq<Op>, id: string)
    requires id in tds
    ensures var es, all := Executed(tds, ops, id), RequestsOn(ops, id);
            && es <= all && (es == all || Panicked(tds[id], es))
            && forall n :: 0 <= n < |es| ==> !Panicked(tds[id], es[..n])
  {
    if ops != [] {
      var front, op := ops[..|ops| - 1], ops[|ops| - 1];
      ExecutedExactly(tds, front, id);
      var before, all := Executed(tds, front, id), RequestsOn(front, id);
      var es := Executed(tds, ops, id);
      assert before + [] == before && all + [] == all;
      forall n | 0 <= n < |es|
        ensures !Panicked(tds[id], es[..n])
      {
        assert es[..n] == before[..n];
        assert n == |before| ==> before[..n] == before;
      }
    }
  }

  /** What the things put on the bus. */
  function Sent(tds: map<string, ThingTD>, ops: seq<Op>): seq<BusMessage> {
    if ops == [] then []
    else
      var front, op := ops[..|ops| - 1], ops[|ops| - 1];
      Sent(tds, front) + Put(tds, front, op)
  }

  /** What one more operation puts there. */
  function Put(tds: map<string, ThingTD>, front: seq<Op>, op: Op): seq<BusMessage> {
    if op.id !in tds then []
    else
      var es := Executed(tds, front, op.id);
      var decision := Decide(tds[op.id], StoreAfter(tds[op.id], es), op.emit);
      if !Panicked(tds[op.id], es) && decision == Publishes && op.emit.sent
      then [BusMessage(op.id, op.emit.name, Encoded(op.emit.value))]
      else []
  }

  /** The latest message on the bus for one name of one thing. */
  function LastOn(bus: seq<BusMessage>, id: string, name: string): Option<Payload> {
    if bus == [] then None
    else if bus[|bus| - 1].id == id && bus[|bus| - 1].name == name then Some(bus[|bus| - 1].payload)
    else LastOn(bus[..|bus| - 1], id, name)
  }

  /** The value published last for a name. */
  function LastSent(td: ThingTD, es: seq<Emit>, name: string): Option<Json> {
    if es == [] then None
    else
      var front, e := es[..|es| - 1], es[|es| - 1];
      if e.name == name && Decide(td, StoreAfter(td, front), e) == Publishes && e.sent then Some(e.value)
      else LastSent(td, front, name)
  }

  /** Request `i` is published under the name, and no later one is. */
  predicate LastPublish(td: ThingTD, es: seq<Emit>, name: string, i: nat)
    requires i < |es|
  {
    && Published(td, es, name, i) && forall j :: i < j < |es| ==> !Published(td, es, name, j)
  }

  predicate Published(td: ThingTD, es: seq<Emit>, name: string, i: nat)
    requires i < |es|
  {
    es[i].name == name && Decide(td, StoreAfter(td, es[..i]), es[i]) == Publishes && es[i].sent
  }

  lemma {:induction false} LastSentExactly(td: ThingTD, es: seq<Emit>, name: string, value: Json)
    ensures LastSent(td, es, name) == Some(value)
        <==> exists i: nat :: i < |es| && LastPublish(td, es, name, i) && es[i].value == value
  {
    if es != [] {
      var front, n := es[..|es| - 1], |es| - 1;
      LastSentExactly(td, front, name, value);
      forall i: nat | i < n
        ensures Published(td, front, name, i) <==> Published(td, es, name, i)
      {
        assert front[..i] == es[..i];
      }
      if Published(td, es, name, n) {
        assert LastPublish(td, es, name, n);
        assert forall i: nat :: i < n ==> !LastPublish(td, es, name, i);
      } else {
        assert forall i: nat :: i < n ==> (LastPublish(td, front, name, i) <==> LastPublish(td, es, name, i));
      }
    }
  }

  lemma {:induction false} BusHoldsLastSent(tds: map<string, ThingTD>, ops: seq<Op>, id: string, name: string)
    requires id in tds
    ensures LastOn(Sent(tds, ops), id, name) ==
              match LastSent(tds[id], Executed(tds, ops, id), name)
              case None => None
              case Some(v) => Some(Encoded(v))
  {
    if ops != [] {
      var front, op := ops[..|ops| - 1], ops[|ops| - 1];
      BusHoldsLastSent(tds, front, id, name);
      LastOnConcat(Sent(tds, front), Put(tds, front, op), id, name);
      if op.id == id && !Panicked(tds[id], Executed(tds, front, id)) {
        LastSentStep(tds[id], Executed(tds, front, id), op.emit, name);
      } else {
        assert Executed(tds, ops, id) == Executed(tds, front, id);
      }
    }
  }

  lemma {:induction false} LastSentStep(td: ThingTD, es: seq<Emit>, e: Emit, name: string)
    ensures LastSent(td, es + [e], name)
         == if e.name == name && Decide(td, StoreAfter(td, es), e) == Publishes && e.sent then Some(e.value)
            else LastSent(td, es, name)
  {
    assert (es + [e])[..|es|] == es;
  }

  lemma LastOnConcat(bus: seq<BusMessage>, more: seq<BusMessage>, id: string, name: string)
    requires |more| <= 1
    ensures LastOn(bus + more, id, name) ==
              if more != [] && more[0].id == id && more[0].name == name then Some(more[0].payload)
              else LastOn(bus, id, name)
  {
    if more == [] {
      assert bus + more == bus;
    } else {
      assert (bus + more)[..|bus|] == bus;
    }
  }

  // ---- At least once, in order ----

  /** `order` delivers `n` messages: each delivery is followed by the next message or by one sent again, and in the
      end everything has been delivered. */
  predicate AtLeastOnce(n: nat, order: seq<nat>) {
    && (forall k :: 0 <= k < |order| ==> order[k] < n)
    && (forall k :: 0 <= k < |order| - 1 ==> order[k + 1] <= order[k] + 1)
    && if n == 0 then order == [] else order != [] && order[0] == 0 && order[|order| - 1] == n - 1
  }

  /** Everything once is such a delivery, and so is any one of them continued by going back to message `j`. */
  lemma AtLeastOnceHolds(n: nat, order: seq<nat>, j: nat)
    ensures AtLeastOnce(n, seq(n, i => i))
    ensures AtLeastOnce(n, order) && j < n ==> AtLeastOnce(n, order + seq(n - j, i requires 0 <= i < n - j => j + i))
  {
    if AtLeastOnce(n, order) && j < n {
      var again := seq(n - j, i requires 0 <= i < n - j => j + i);
      var all := order + again;
      assert again[|again| - 1] == n - 1 && again[0] == j;
      forall k | 0 <= k < |all| - 1
        ensures all[k + 1] <= all[k] + 1
      {
        if k < |order| - 1 {
          assert order[k + 1] <= order[k] + 1;
        }
      }
    }
  }

  /** And then no message is missed. */
  lemma {:induction false} NothingMissed(n: nat, order: seq<nat>, j: nat)
    requires AtLeastOnce(n, order) && j < n
    ensures j in order
  {
    Reaches(order, j, |order| - 1);
  }

  lemma {:induction false} Reaches(order: seq<nat>, j: nat, k: nat)
    requires k < |order| && order[0] == 0 && j <= order[k]
    requires forall i :: 0 <= i < |order| - 1 ==> order[i + 1] <= order[i] + 1
    ensures j in order
  {
    if order[k] != j {
      assert order[k - 1 + 1] <= order[k - 1] + 1;
      Reaches(order, j, k - 1);
    }
  }

  function Deliveries(bus: seq<BusMessage>, order: seq<nat>): seq<BusMessage>
    requires forall k :: 0 <= k < |order| ==> order[k] < |bus|
  {
    seq(|order|, k requires 0 <= k < |order| => bus[order[k]])
  }

  predicate IsFor(m: BusMessage, id: string, name: string) {
    m.id == id && m.name == name
  }

  /** Position of the latest message for a name. */
  lemma {:induction false} LastPosition(bus: seq<BusMessage>, id: string, name: string) returns (j: nat)
    requires exists i :: 0 <= i < |bus| && IsFor(bus[i], id, name)
    ensures j < |bus| && IsFor(bus[j], id, name) && LastOn(bus, id, name) == Some(bus[j].payload)
    ensures forall i :: j < i < |bus| ==> !IsFor(bus[i], id, name)
  {
    if IsFor(bus[|bus| - 1], id, name) {
      j := |bus| - 1;
    } else {
      var i :| 0 <= i < |bus| && IsFor(bus[i], id, name);
      assert IsFor(bus[..|bus| - 1][i], id, name);
      j := LastPosition(bus[..|bus| - 1], id, name);
    }
  }

  lemma {:induction false} NoneOn(bus: seq<BusMessage>, id: string, name: string)
    requires forall i :: 0 <= i < |bus| ==> !IsFor(bus[i], id, name)
    ensures LastOn(bus, id, name) == None
  {
    if bus != [] {
      NoneOn(bus[..|bus| - 1], id, name);
    }
  }

  /** Once the deliveries are past the latest message, that message is the one delivered last: to get past it again
      after going back, it has to be delivered again. */
  lemma {:induction false} PastTheLatest(bus: seq<BusMessage>, order: seq<nat>, j: nat, id: string, name: string)
    requires order != [] && order[0] == 0
    requires forall k :: 0 <= k < |order| ==> order[k] < |bus|
    requires forall k :: 0 <= k < |order| - 1 ==> order[k + 1] <= order[k] + 1
    requires j < |bus| && IsFor(bus[j], id, name) && forall i :: j < i < |bus| ==> !IsFor(bus[i], id, name)
    requires j <= order[|order| - 1]
    ensures LastOn(Deliveries(bus, order), id, name) == Some(bus[j].payload)
  {
    if order[|order| - 1] != j {
      var front := order[..|order| - 1];
      assert Deliveries(bus, order)[..|order| - 1] == Deliveries(bus, front);
      assert order[|order| - 2 + 1] <= order[|order| - 2] + 1;
      PastTheLatest(bus, front, j, id, name);
    }
  }

  /** Messages sent again do not change what arrives last for a name. */
  lemma RedeliveryHarmless(bus: seq<BusMessage>, order: seq<nat>, id: string, name: string)
    requires AtLeastOnce(|bus|, order)
    ensures LastOn(Deliveries(bus, order), id, name) == LastOn(bus, id, name)
  {
    if exists i :: 0 <= i < |bus| && IsFor(bus[i], id, name) {
      var j := LastPosition(bus, id, name);
      PastTheLatest(bus, order, j, id, name);
    } else {
      NoneOn(bus, id, name);
      NoneOn(Deliveries(bus, order), id, name);
    }
  }

  // ---- The consumed thing's end ----

  /** What a consumed thing receives: the deliveries that match its subscription. */
  function Inbox<L>(thingID: string, deliveries: seq<BusMessage>): seq<Consuming.Input<L>> {
    if deliveries == [] then []
    else
      var m := deliveries[|deliveries| - 1];
      Inbox(thingID, deliveries[..|deliveries| - 1])
      + if Matches(EventFilter(thingID), EventTopic(m.id, m.name))
        then [Consuming.Message(EventTopic(m.id, m.name), m.payload)]
        else []
  }

  predicate SlashFree(bus: seq<BusMessage>) {
    forall i :: 0 <= i < |bus| ==> '/' !in bus[i].id && '/' !in bus[i].name
  }

  /** The subscription and the topic parser together pick out exactly the messages of this thing and name. */
  lemma {:induction false} InboxLatest<L>(thingID: string, bus: seq<BusMessage>, name: string)
    requires '/' !in thingID && !HasWildcard(thingID) && SlashFree(bus)
    ensures Consuming.Latest<L>(Inbox(thingID, bus), name) == LastOn(bus, thingID, name)
  {
    if bus != [] {
      var front, m := bus[..|bus| - 1], bus[|bus| - 1];
      InboxLatest<L>(thingID, front, name);
      TopicIsolation(m.id, m.name, thingID);
      EventNameRecovered(m.id, m.name);
      var inbox: seq<Consuming.Input<L>> := Inbox(thingID, front);
      if m.id == thingID {
        var i: Consuming.Input<L> := Consuming.Message(EventTopic(m.id, m.name), m.payload);
        assert Inbox(thingID, bus) == inbox + [i];
        assert (inbox + [i])[..|inbox|] == inbox;
      } else {
        assert Inbox(thingID, bus) == inbox;
      }
    }
  }

  lemma {:induction false} InboxMessages<L>(thingID: string, bus: seq<BusMessage>)
    ensures forall i :: 0 <= i < |Inbox<L>(thingID, bus)| ==> Inbox<L>(thingID, bus)[i].Message?
  {
    if bus != [] {
      InboxMessages<L>(thingID, bus[..|bus| - 1]);
    }
  }

  lemma {:induction false} SentSlashFree(tds: map<string, ThingTD>, ops: seq<Op>)
    requires OnBus(tds)
    ensures SlashFree(Sent(tds, ops))
  {
    if ops != [] {
      SentSlashFree(tds, ops[..|ops| - 1]);
    }
  }

  /** The cache of a consumed thing after everything sent has been delivered. */
  function Cache(td: ThingTD, deliveries: seq<BusMessage>): Store {
    Consuming.Run<nat>(td, Inbox(td.id, deliveries)).consumer.valueStore
  }

  /** Whatever the other things do and however often messages are sent again, a consumed thing's cache holds, for
      each name of its TD, the value its exposed thing published last. */
  lemma CacheHoldsLastSent(tds: map<string, ThingTD>, ops: seq<Op>, order: seq<nat>, id: string, name: string)
    requires OnBus(tds) && id in tds && !HasWildcard(id) && Consuming.Known(tds[id], name)
    requires AtLeastOnce(|Sent(tds, ops)|, order)
    ensures var td := tds[id]; var cache := Cache(td, Deliveries(Sent(tds, ops), order));
            match LastSent(td, Executed(tds, ops, id), name)
            case None => name !in cache
            case Some(v) => name in cache && cache[name] == FromJson(Encoded(v), Consuming.SchemaOf(td, name))
  {
    var bus := Sent(tds, ops);
    SentSlashFree(tds, ops);
    var deliveries := Deliveries(bus, order);
    InboxLatest<nat>(id, deliveries, name);
    RedeliveryHarmless(bus, order, id, name);
    BusHoldsLastSent(tds, ops, id, name);
    InboxMessages<nat>(id, deliveries);
    Consuming.MessagesOnly<nat>(tds[id], Inbox(id, deliveries));
    Consuming.CacheIsLatest<nat>(tds[id], Inbox(id, deliveries), name);
  }

  // ---- Convergence ----

  /** The latest emit of the property that was handed to the hook. */
  function LastAttempt(td: ThingTD, es: seq<Emit>, name: string): Option<Emit> {
    if es == [] then None
    else
      var front, e := es[..|es| - 1], es[|es| - 1];
      if e.Property? && e.name == name && Decide(td, StoreAfter(td, front), e) == Publishes then Some(e)
      else LastAttempt(td, front, name)
  }

  lemma {:induction false} StoreIsLastAttempt(td: ThingTD, es: seq<Emit>, name: string)
    requires name in td.properties && name !in td.events
    ensures var store := StoreAfter(td, es);
            match LastAttempt(td, es, name)
            case None => name !in store && LastSent(td, es, name) == None
            case Some(e) => && name in store && store[name] == FromValue(e.value, td.properties[name])
                            && (e.sent ==> LastSent(td, es, name) == Some(e.value))
  {
    if es != [] {
      StoreIsLastAttempt(td, es[..|es| - 1], name);
    }
  }

  lemma {:induction false} StoredValues(td: ThingTD, es: seq<Emit>, name: string)
    requires name in td.properties
    ensures var store := StoreAfter(td, es);
            name in store ==> store[name] == FromValue(store[name].value, td.properties[name])
    ensures name !in td.events && LastSent(td, es, name).Some? ==> name in StoreAfter(td, es)
  {
    if es != [] {
      StoredValues(td, es[..|es| - 1], name);
    }
  }

  /** For a property that is not also an event, the consumer has the JSON of the producer's value exactly when the
      value published last is the value stored last. Its decoded value is then the same unless the property is of
      type object: those are decoded to nil. */
  lemma {:induction false} ConvergenceExactly(tds: map<string, ThingTD>, ops: seq<Op>, order: seq<nat>, id: string,
                                              name: string)
    requires OnBus(tds) && id in tds && !HasWildcard(id) && name in tds[id].properties && name !in tds[id].events
    requires AtLeastOnce(|Sent(tds, ops)|, order)
    requires name in StoreAfter(tds[id], Executed(tds, ops, id))
    ensures var stored := StoreAfter(tds[id], Executed(tds, ops, id))[name];
            var cache := Cache(tds[id], Deliveries(Sent(tds, ops), order));
            && (name in cache && cache[name].jsonEncoded == stored.jsonEncoded
                <==> LastSent(tds[id], Executed(tds, ops, id), name) == Some(stored.value))
            && (name in cache && cache[name].jsonEncoded == stored.jsonEncoded ==>
                  (cache[name] == stored
                   <==> tds[id].properties[name].dataType != DATA_TYPE_OBJECT || stored.value == Null))
  {
    CacheHoldsLastSent(tds, ops, order, id, name);
    StoredValues(tds[id], Executed(tds, ops, id), name);
  }

  /** So when the latest publish of the property succeeds, whatever failed before, both ends agree about it: both
      have no value, or the same JSON. */
  lemma Convergence(tds: map<string, ThingTD>, ops: seq<Op>, order: seq<nat>, id: string, name: string)
    requires OnBus(tds) && id in tds && !HasWildcard(id) && name in tds[id].properties && name !in tds[id].events
    requires AtLeastOnce(|Sent(tds, ops)|, order)
    requires var last := LastAttempt(tds[id], Executed(tds, ops, id), name); last.Some? ==> last.value.sent
    ensures var store := StoreAfter(tds[id], Executed(tds, ops, id));
            var cache := Cache(tds[id], Deliveries(Sent(tds, ops), order));
            && (name in cache <==> name in store)
            && (name in cache ==> cache[name].jsonEncoded == store[name].jsonEncoded)
            && (name in cache && tds[id].properties[name].dataType != DATA_TYPE_OBJECT ==> cache[name] == store[name])
  {
    CacheHoldsLastSent(tds, ops, order, id, name);
    StoreIsLastAttempt(tds[id], Executed(tds, ops, id), name);
  }

  /** The filter cannot help: after a failed publish, repeating the value with changesOnly any number of times
      publishes nothing, and the consumer keeps what it had. (Repeating an array or an object panics instead.) */
  lemma {:induction false} StuckAfterFailure(td: ThingTD, es: seq<Emit>, name: string, value: Json, repeats: seq<Emit>)
    requires name in td.properties
    requires Decide(td, StoreAfter(td, es), Property(name, value, false, false)) == Publishes
    requires forall i :: 0 <= i < |repeats| ==> repeats[i].Property? && repeats[i].name == name
                                                && repeats[i].value == value && repeats[i].changesOnly
    ensures var all := es + [Property(name, value, false, false)] + repeats;
            && name in StoreAfter(td, all) && StoreAfter(td, all)[name].value == value
            && LastSent(td, all, name) == LastSent(td, es, name)
  {
    var failed := es + [Property(name, value, false, false)];
    if repeats == [] {
      assert failed + repeats == failed && failed[..|es|] == es;
    } else {
      var front := repeats[..|repeats| - 1];
      StuckAfterFailure(td, es, name, value, front);
      assert (failed + repeats)[..|failed + repeats| - 1] == failed + front;
    }
  }
}
