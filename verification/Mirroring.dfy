/** Producers and a consumer that comes and goes, in one run: emit requests on the exposed things, and what happens to
    the consumer's things and connections. What is published while the consumer is not listening is lost for it.
 */
module Mirroring {
  import opened Wrappers
  import opened Topics
  import opened Things
  import opened Emitting
  import opened Replication
  import C = Consuming
  import D = Delivery
  import R = Registry
  import S = Session
  import Serving

  datatype Moment<T, B> =
    | Does(step: R.Step<T, B>)  // on the consumer's side
    | Emits(op: Op)             // on the producers' side

  function Ops<T, B>(run: seq<Moment<T, B>>): seq<Op> {
    if run == [] then []
    else
      Ops(run[..|run| - 1]) + if run[|run| - 1].Emits? then [run[|run| - 1].op] else []
  }

  /** What the consumer's side sees of the run: its own steps, and every message when it is published. */
  function Seen<T, B>(tds: map<string, ThingTD>, run: seq<Moment<T, B>>): seq<D.Happening<T, B>> {
    if run == [] then [] else Seen(tds, run[..|run| - 1]) + SeenOf(tds, run[..|run| - 1], run[|run| - 1])
  }

  function SeenOf<T, B>(tds: map<string, ThingTD>, front: seq<Moment<T, B>>, m: Moment<T, B>): seq<D.Happening<T, B>> {
    match m
    case Does(step) => [D.Does(step)]
    case Emits(op) =>
      var put := Put(tds, Ops(front), op);
      if put == [] then [] else [D.Arrives(put[0].id, put[0].name, put[0].payload)]
  }

  /** A step of the consumer is seen as it is; a request as the arrival of its value, if it is carried out, not filtered
      and published. */
  lemma {:induction false} SeenGrows<T, B>(tds: map<string, ThingTD>, run: seq<Moment<T, B>>, step: R.Step<T, B>,
                                           op: Op)
    requires op.id in tds
    ensures Seen(tds, run + [Does(step)]) == Seen(tds, run) + [D.Does(step)]
    ensures var es := Executed(tds, Ops(run), op.id);
            Seen(tds, run + [Emits(op)])
            == Seen(tds, run)
               + if !Panicked(tds[op.id], es) && op.emit.sent
                    && Decide(tds[op.id], StoreAfter(tds[op.id], es), op.emit) == Publishes
                 then [D.Arrives(op.id, op.emit.name, Encoded(op.emit.value))]
                 else []
    ensures Ops(run + [Does(step)]) == Ops(run) && Ops(run + [Emits(op)]) == Ops(run) + [op]
  {
    assert (run + [Does(step)])[..|run|] == run && (run + [Emits(op)])[..|run|] == run;
    assert Ops(run) + [] == Ops(run);
  }

  ghost function Consumer<T, B>(tds: map<string, ThingTD>, run: seq<Moment<T, B>>): R.Registry<T, B> {
    D.After(Seen(tds, run))
  }

  /** The store of the exposed thing. */
  function Stored<T, B>(tds: map<string, ThingTD>, run: seq<Moment<T, B>>, id: string): Store
    requires id in tds
  {
    StoreAfter(tds[id], Executed(tds, Ops(run), id))
  }

  /** The cache of the consumed thing. */
  ghost function Cached<T, B>(tds: map<string, ThingTD>, run: seq<Moment<T, B>>, id: string): Store
    requires id in tds && id in Consumer(tds, run).bindings
  {
    C.Run<nat>(tds[id], D.Heard(Seen(tds, run), Consumer(tds, run).bindings[id])).consumer.valueStore
  }

  /** Both ends hold the same JSON. */
  ghost predicate InSync<T, B>(tds: map<string, ThingTD>, run: seq<Moment<T, B>>, id: string, name: string)
    requires id in tds && id in Consumer(tds, run).bindings
  {
    var stored, cached := Stored(tds, run, id), Cached(tds, run, id);
    name in stored && name in cached && cached[name].jsonEncoded == stored[name].jsonEncoded
  }

  /** The value published last among those that met a listening consumer, since the thing was consumed. */
  ghost function LastHeard<T, B>(tds: map<string, ThingTD>, run: seq<Moment<T, B>>, id: string, name: string)
    : Option<Json>
  {
    if run == [] then None
    else
      var front := run[..|run| - 1];
      if Consumer(tds, front).session.crashed then LastHeard(tds, front, id, name)
      else match run[|run| - 1]
      case Does(Add(id', _, _)) =>
        if id' == id && id !in Consumer(tds, front).things then None else LastHeard(tds, front, id, name)
      case Does(Destroy(id')) => if id' == id then None else LastHeard(tds, front, id, name)
      case Does(Net(_)) => LastHeard(tds, front, id, name)
      case Emits(op) =>
        if op.id == id && op.emit.name == name && Put(tds, Ops(front), op) != [] && D.Listening(Seen(tds, front), id)
        then Some(op.emit.value)
        else LastHeard(tds, front, id, name)
  }

  lemma {:induction false} HeardLast<T, B>(tds: map<string, ThingTD>, run: seq<Moment<T, B>>, id: string, name: string)
    ensures D.LastArrival(Seen(tds, run), id, name) ==
              match LastHeard(tds, run, id, name)
              case None => None
              case Some(v) => Some(Encoded(v))
  {
    if run != [] {
      var front, m := run[..|run| - 1], run[|run| - 1];
      HeardLast(tds, front, id, name);
      var seen, more := Seen(tds, front), SeenOf(tds, front, m);
      if more == [] {
        assert seen + more == seen;
      } else {
        assert more == [more[0]];
        ArrivalStep(seen, more[0], id, name);
      }
    }
  }

  lemma ArrivalStep<T, B>(seen: seq<D.Happening<T, B>>, h: D.Happening<T, B>, id: string, name: string)
    ensures D.LastArrival(seen + [h], id, name) ==
              if D.After(seen).session.crashed then D.LastArrival(seen, id, name)
              else match h
              case Does(Add(id', _, _)) =>
                if id' == id && id !in D.After(seen).things then None else D.LastArrival(seen, id, name)
              case Does(Destroy(id')) => if id' == id then None else D.LastArrival(seen, id, name)
              case Does(Net(_)) => D.LastArrival(seen, id, name)
              case Arrives(id', name', payload) =>
                if id' == id && name' == name && D.Listening(seen, id) then Some(payload)
                else D.LastArrival(seen, id, name)
  {
    assert (seen + [h])[..|seen|] == seen;
  }

  /** Whatever is emitted, lost and restored: a property that is not also an event is in sync exactly when the value
      heard last is the value stored last. */
  lemma {:induction false} InSyncExactly<T, B>(tds: map<string, ThingTD>, run: seq<Moment<T, B>>, idOf: B -> string,
                                               id: string, name: string)
    requires id in tds && name in tds[id].properties && name !in tds[id].events
    requires D.Regular(Seen(tds, run), idOf) && id in Consumer(tds, run).bindings
    ensures InSync(tds, run, id, name)
        <==> name in Stored(tds, run, id) && LastHeard(tds, run, id, name) == Some(Stored(tds, run, id)[name].value)
  {
    HeardLast(tds, run, id, name);
    D.CacheAcrossReconnects<T, B, nat>(Seen(tds, run), idOf, tds[id], id, name);
    StoredValues(tds[id], Executed(tds, Ops(run), id), name);
  }

  // ---- One publish, heard or missed ----

  /** Nothing new for the property, and the consumed thing is kept. The request may be repeated conditionally. */
  predicate Quiet<T, B>(m: Moment<T, B>, id: string, name: string, value: Json) {
    match m
    case Does(step) => step != R.Destroy(id)
    case Emits(op) =>
      op.id == id && op.emit.name == name && op.emit.Property? ==> op.emit.changesOnly && op.emit.value == value
  }

  /** The state of the property at both ends. */
  ghost predicate Holds<T, B>(tds: map<string, ThingTD>, run: seq<Moment<T, B>>, id: string, name: string, value: Json,
                              heard: Option<Json>)
    requires id in tds
  {
    && id in Consumer(tds, run).things
    && name in Stored(tds, run, id) && Stored(tds, run, id)[name].value == value
    && LastHeard(tds, run, id, name) == heard
  }

  lemma {:induction false} QuietStep<T, B>(tds: map<string, ThingTD>, run: seq<Moment<T, B>>, m: Moment<T, B>,
                                           id: string, name: string, value: Json, heard: Option<Json>)
    requires id in tds && name in tds[id].properties && name !in tds[id].events
    requires Holds(tds, run, id, name, value, heard) && Quiet(m, id, name, value)
    ensures Holds(tds, run + [m], id, name, value, heard)
  {
    var next := run + [m];
    assert next[..|run|] == run;
    var seen, ops := Seen(tds, run), Ops(run);
    match m
    case Does(step) =>
      assert ops + [] == ops;
      D.AfterStep(seen + [D.Does(step)]);
      assert (seen + [D.Does(step)])[..|seen|] == seen;
    case Emits(op) =>
      EmitKeepsThings(tds, run, op, id);
      QuietEmit(tds, ops, op, id, name);
  }

  lemma {:induction false} EmitKeepsThings<T, B>(tds: map<string, ThingTD>, run: seq<Moment<T, B>>, op: Op, id: string)
    ensures Consumer(tds, run + [Emits(op)]).things == Consumer(tds, run).things
  {
    var next, seen := run + [Emits(op)], Seen(tds, run);
    assert next[..|run|] == run;
    var more := SeenOf(tds, run, next[|run|]);
    if more == [] {
      assert seen + more == seen;
    } else {
      assert more == [more[0]] && more[0].Arrives?;
      ArrivalKeepsThings(seen, more[0]);
    }
  }

  lemma ArrivalKeepsThings<T, B>(seen: seq<D.Happening<T, B>>, h: D.Happening<T, B>)
    requires h.Arrives?
    ensures D.After(seen + [h]).things == D.After(seen).things
  {
    assert (seen + [h])[..|seen|] == seen;
    D.AfterStep(seen + [h]);
  }

  lemma {:induction false} QuietEmit(tds: map<string, ThingTD>, ops: seq<Op>, op: Op, id: string, name: string)
    requires id in tds && name in tds[id].properties && name !in tds[id].events
    requires name in StoreAfter(tds[id], Executed(tds, ops, id))
    requires op.id == id && op.emit.name == name && op.emit.Property? ==>
               op.emit.changesOnly && op.emit.value == StoreAfter(tds[id], Executed(tds, ops, id))[name].value
    ensures op.id == id && op.emit.name == name ==> Put(tds, ops, op) == []
    ensures name in StoreAfter(tds[id], Executed(tds, ops + [op], id))
    ensures StoreAfter(tds[id], Executed(tds, ops + [op], id))[name]
         == StoreAfter(tds[id], Executed(tds, ops, id))[name]
  {
    assert (ops + [op])[..|ops|] == ops;
    var es := Executed(tds, ops, id);
    assert es + [] == es && (es + [op.emit])[..|es|] == es;
  }

  predicate AllQuiet<T, B>(after: seq<Moment<T, B>>, id: string, name: string, value: Json) {
    forall i :: 0 <= i < |after| ==> Quiet(after[i], id, name, value)
  }

  lemma {:induction false} StaysQuiet<T, B>(tds: map<string, ThingTD>, run: seq<Moment<T, B>>, after: seq<Moment<T, B>>,
                                            id: string, name: string, value: Json, heard: Option<Json>)
    requires id in tds && name in tds[id].properties && name !in tds[id].events
    requires Holds(tds, run, id, name, value, heard) && AllQuiet(after, id, name, value)
    ensures Holds(tds, run + after, id, name, value, heard)
    decreases |after|
  {
    if after == [] {
      assert run + after == run;
    } else {
      StaysQuiet(tds, run, after[..|after| - 1], id, name, value, heard);
      QuietStep(tds, run + after[..|after| - 1], after[|after| - 1], id, name, value, heard);
      OneMoreMoment(run, after);
    }
  }

  lemma OneMoreMoment<T, B>(run: seq<Moment<T, B>>, after: seq<Moment<T, B>>)
    requires after != []
    ensures run + after[..|after| - 1] + [after[|after| - 1]] == run + after
  {
  }

  lemma {:induction false} PublishedHolds<T, B>(tds: map<string, ThingTD>, before: seq<Moment<T, B>>, op: Op)
    requires op.id in tds && op.emit.Property? && Put(tds, Ops(before), op) != []
    requires op.id in Consumer(tds, before).things
    ensures Holds(tds, before + [Emits(op)], op.id, op.emit.name, op.emit.value,
                  if D.Listening(Seen(tds, before), op.id) then Some(op.emit.value)
                  else LastHeard(tds, before, op.id, op.emit.name))
  {
    var next, ops := before + [Emits(op)], Ops(before);
    assert next[..|before|] == before;
    EmitKeepsThings(tds, before, op, op.id);
    assert (ops + [op])[..|ops|] == ops;
    var es := Executed(tds, ops, op.id);
    assert (es + [op.emit])[..|es|] == es;
  }

  /** The latest publish of a property reaches the consumer exactly when it is listening at that moment. A missed one
      is missed for good: whatever connections come and go, and however often the value is emitted again with
      changesOnly, both ends stay apart, unless the consumer had heard that value before. */
  lemma {:induction false} HeardOrMissed<T, B>(tds: map<string, ThingTD>, before: seq<Moment<T, B>>, op: Op,
                                               after: seq<Moment<T, B>>, idOf: B -> string)
    requires op.id in tds && op.emit.Property? && op.emit.name !in tds[op.id].events
    requires Put(tds, Ops(before), op) != [] && op.id in Consumer(tds, before).things
    requires forall i :: 0 <= i < |after| ==> after[i] != Does(R.Destroy(op.id))
    requires forall i :: 0 <= i < |after| && after[i].Emits? ==>
               var later := after[i].op;
               later.id == op.id && later.emit.name == op.emit.name && later.emit.Property? ==>
                 later.emit.changesOnly && later.emit.value == op.emit.value
    requires D.Regular(Seen(tds, before + [Emits(op)] + after), idOf)
    ensures var run := before + [Emits(op)] + after;
            && op.id in Consumer(tds, run).bindings
            && (InSync(tds, run, op.id, op.emit.name)
                <==> || D.Listening(Seen(tds, before), op.id)
                     || LastHeard(tds, before, op.id, op.emit.name) == Some(op.emit.value))
  {
    var run, name := before + [Emits(op)] + after, op.emit.name;
    var heard := if D.Listening(Seen(tds, before), op.id) then Some(op.emit.value)
                 else LastHeard(tds, before, op.id, name);
    PublishedHolds(tds, before, op);
    StaysQuiet(tds, before + [Emits(op)], after, op.id, name, op.emit.value, heard);
    Serving.RunIs(S.AsIntended, EventFilter, D.Steps(Seen(tds, run)));
    InSyncExactly(tds, run, idOf, op.id, name);
  }
}
