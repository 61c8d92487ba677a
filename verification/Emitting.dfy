/** What an exposed thing stores and publishes: EmitPropertyChange and EmitEvent as functions of the thing's
    value store, and of the whole sequence of emit requests. */
module Emitting {
  import opened Things

  type Store = map<string, InteractionOutput>

  /** An emit request. `sent` tells whether the protocol binding then manages to publish. */
  datatype Emit =
    | Property(name: string, value: Json, changesOnly: bool, sent: bool)
    | Event(name: string, value: Json, sent: bool)

  datatype Decision = UnknownName | Unchanged | Panics | Publishes

  function Decide(td: ThingTD, store: Store, e: Emit): Decision {
    match e
    case Property(name, value, changesOnly, _) =>
      if name !in td.properties then UnknownName
      else if changesOnly && name in store && ComparePanics(store[name].value, value) then Panics
      else if changesOnly && name in store && store[name].value == value then Unchanged
      else Publishes
    case Event(name, _, _) =>
      if name !in td.events then UnknownName else Publishes
  }

  /** The store is written before the hook is called, so whether the publish succeeds does not matter. */
  function StoreStep(td: ThingTD, store: Store, e: Emit): Store {
    if e.Property? && Decide(td, store, e) == Publishes
    then store[e.name := FromValue(e.value, td.properties[e.name])]
    else store
  }

  function StoreAfter(td: ThingTD, es: seq<Emit>): Store {
    if es == [] then map[] else StoreStep(td, StoreAfter(td, es[..|es| - 1]), es[|es| - 1])
  }

  /** The values handed to the property hook for `name`. */
  function Attempts(td: ThingTD, es: seq<Emit>, name: string): seq<Json> {
    if es == [] then []
    else
      var front, e := es[..|es| - 1], es[|es| - 1];
      Attempts(td, front, name)
      + if e.Property? && e.name == name && Decide(td, StoreAfter(td, front), e) == Publishes then [e.value] else []
  }

  /** The emit requests for property `name`. */
  function Requests(es: seq<Emit>, name: string): (r: seq<Emit>)
    ensures forall i :: 0 <= i < |r| ==> r[i] in es && r[i].Property? && r[i].name == name
  {
    if es == [] then []
    else Requests(es[..|es| - 1], name)
         + if es[|es| - 1].Property? && es[|es| - 1].name == name then [es[|es| - 1]] else []
  }

  /** They are picked one by one, in order. */
  lemma {:induction false} RequestsConcat(a: seq<Emit>, b: seq<Emit>, e: Emit, name: string)
    ensures Requests(a + b, name) == Requests(a, name) + Requests(b, name)
    ensures Requests([e], name) == if e.Property? && e.name == name then [e] else []
  {
    if b == [] {
      assert a + b == a;
    } else {
      assert (a + b)[..|a + b| - 1] == a + b[..|b| - 1];
      RequestsConcat(a, b[..|b| - 1], e, name);
    }
    assert [e][..0] == [];
  }

  /** The requests that are not filtered: the unconditional ones, and those that differ from the request before. */
  function Changes(r: seq<Emit>): (values: seq<Json>) {
    if r == [] then []
    else
      var e := r[|r| - 1];
      Changes(r[..|r| - 1])
      + if e.Event? || !e.changesOnly || |r| == 1 || e.value != r[|r| - 2].value then [e.value] else []
  }

  /** No conditional request compares two slices or two maps. */
  predicate Comparable(r: seq<Emit>) {
    forall i :: 0 < i < |r| && r[i].Property? && r[i].changesOnly ==> !ComparePanics(r[i - 1].value, r[i].value)
  }

  /** The store holds the value requested last. */
  predicate HoldsLast(td: ThingTD, store: Store, r: seq<Emit>, name: string)
    requires name in td.properties
  {
    && (name in store <==> r != [])
    && (r != [] ==> store[name] == FromValue(r[|r| - 1].value, td.properties[name]))
  }

  /** So the decision about the next request is a comparison with the request before. */
  lemma DecideByLast(td: ThingTD, store: Store, r: seq<Emit>, e: Emit)
    requires e.Property? && e.name in td.properties && HoldsLast(td, store, r, e.name)
    ensures var d, before := Decide(td, store, e), r != [] && e.changesOnly;
            && (d == Panics <==> before && ComparePanics(r[|r| - 1].value, e.value))
            && (d == Unchanged <==> before && !ComparePanics(r[|r| - 1].value, e.value) && r[|r| - 1].value == e.value)
            && d != UnknownName
  {
  }

  /** One more request for the property, if it does not panic. */
  lemma StoreByLast(td: ThingTD, store: Store, r: seq<Emit>, e: Emit)
    requires e.Property? && e.name in td.properties && HoldsLast(td, store, r, e.name)
    requires Decide(td, store, e) != Panics
    ensures HoldsLast(td, StoreStep(td, store, e), r + [e], e.name)
    ensures Changes(r + [e]) == Changes(r) + if Decide(td, store, e) == Publishes then [e.value] else []
  {
    DecideByLast(td, store, r, e);
    ChangesStep(r, e);
  }

  lemma {:induction false} OneMoreEmit(td: ThingTD, front: seq<Emit>, e: Emit, name: string)
    ensures var es, store := front + [e], StoreAfter(td, front);
            && Requests(es, name) == Requests(front, name) + (if e.Property? && e.name == name then [e] else [])
            && StoreAfter(td, es) == StoreStep(td, store, e)
            && Attempts(td, es, name)
            == Attempts(td, front, name)
               + if e.Property? && e.name == name && Decide(td, store, e) == Publishes then [e.value] else []
  {
    var es := front + [e];
    assert es[..|es| - 1] == front && es[|es| - 1] == e;
  }

  /** Whichever requests are filtered and whichever publishes fail, the store holds the value requested last, and the
      hook sees exactly the requests that are unconditional or differ from the request before them. */
  lemma {:induction false} FilterExact(td: ThingTD, es: seq<Emit>, name: string)
    requires name in td.properties && Comparable(Requests(es, name))
    ensures HoldsLast(td, StoreAfter(td, es), Requests(es, name), name)
    ensures Attempts(td, es, name) == Changes(Requests(es, name))
  {
    if es != [] {
      var front, e := es[..|es| - 1], es[|es| - 1];
      assert es == front + [e];
      OneMoreEmit(td, front, e, name);
      var r := Requests(front, name);
      ComparablePrefix(r, e);
      assert r + [] == r;
      FilterExact(td, front, name);
      if e.Property? && e.name == name {
        DecideByLast(td, StoreAfter(td, front), r, e);
        StoreByLast(td, StoreAfter(td, front), r, e);
      } else {
        assert Attempts(td, es, name) == Attempts(td, front, name) + [] == Attempts(td, front, name);
      }
    }
  }

  lemma ChangesStep(r: seq<Emit>, e: Emit)
    requires e.Property?
    ensures Changes(r + [e])
         == Changes(r) + if !e.changesOnly || r == [] || e.value != r[|r| - 1].value then [e.value] else []
  {
    assert (r + [e])[..|r|] == r;
  }

  lemma ComparablePrefix(r: seq<Emit>, e: Emit)
    ensures Comparable(r + [e])
        <==> Comparable(r) && (r != [] && e.Property? && e.changesOnly ==> !ComparePanics(r[|r| - 1].value, e.value))
  {
    var all := r + [e];
    assert forall i :: 0 <= i < |r| ==> all[i] == r[i];
    assert all[|r|] == e;
  }

  /** No emit of the property panics along the way. */
  predicate NoPanic(td: ThingTD, es: seq<Emit>, name: string) {
    forall i :: 0 <= i < |es| && es[i].Property? && es[i].name == name ==>
      Decide(td, StoreAfter(td, es[..i]), es[i]) != Panics
  }

  lemma NoPanicPrefix(td: ThingTD, front: seq<Emit>, e: Emit, name: string)
    ensures NoPanic(td, front + [e], name)
        <==> NoPanic(td, front, name)
             && (e.Property? && e.name == name ==> Decide(td, StoreAfter(td, front), e) != Panics)
  {
    var all := front + [e];
    assert all[..|front|] == front && all[|front|] == e;
    assert forall i :: 0 <= i < |front| ==> all[..i] == front[..i] && all[i] == front[i];
  }

  lemma {:induction false} NoPanicComparable(td: ThingTD, es: seq<Emit>, name: string)
    requires name in td.properties
    ensures NoPanic(td, es, name) <==> Comparable(Requests(es, name))
  {
    if es != [] {
      var front, e := es[..|es| - 1], es[|es| - 1];
      NoPanicComparable(td, front, name);
      assert es == front + [e];
      NoPanicPrefix(td, front, e, name);
      OneMoreEmit(td, front, e, name);
      var r := Requests(front, name);
      if e.Property? && e.name == name {
        ComparablePrefix(r, e);
        if Comparable(r) {
          FilterExact(td, front, name);
          DecideByLast(td, StoreAfter(td, front), r, e);
        }
      } else {
        assert Requests(es, name) == r + [] == r;
      }
    }
  }

  /** A run of requests panics exactly when a conditional one and the one before it are both arrays or both objects. */
  lemma {:induction false} PanicsExactly(td: ThingTD, es: seq<Emit>, name: string)
    requires name in td.properties
    ensures NoPanic(td, es, name)
        <==> var r := Requests(es, name);
             forall i :: 0 < i < |r| && r[i].changesOnly ==>
               !(r[i - 1].value.Array? && r[i].value.Array?) && !(r[i - 1].value.Object? && r[i].value.Object?)
  {
    NoPanicComparable(td, es, name);
  }

  /** Without conditions every value is published. */
  lemma {:induction false} UnconditionalAll(r: seq<Emit>)
    requires forall i :: 0 <= i < |r| ==> r[i].Property? && !r[i].changesOnly
    ensures |Changes(r)| == |r| && forall i :: 0 <= i < |r| ==> Changes(r)[i] == r[i].value
  {
    if r != [] {
      UnconditionalAll(r[..|r| - 1]);
    }
  }

  /** With every request conditional, no two successive published values are equal. */
  lemma {:induction false} NoRepeats(r: seq<Emit>)
    requires forall i :: 0 <= i < |r| ==> r[i].Property? && r[i].changesOnly
    ensures var c := Changes(r);
            && (forall k :: 0 <= k < |c| - 1 ==> c[k] != c[k + 1])
            && (r != [] ==> c != [] && c[|c| - 1] == r[|r| - 1].value)
  {
    if r != [] {
      NoRepeats(r[..|r| - 1]);
    }
  }

  /** Which requests are made on a name that the TD does not have, and which events, is decided by the name alone. */
  lemma EventsNotFiltered(td: ThingTD, store: Store, e: Emit)
    ensures Decide(td, store, e) == UnknownName
        <==> if e.Event? then e.name !in td.events else e.name !in td.properties
    ensures e.Event? && e.name in td.events ==> Decide(td, store, e) == Publishes
  {
  }

  /** And no value is lost: that of request `i` is the one published by it, or the last one published before it. So
      dropping adjacent repeats is all the filter does. */
  lemma {:induction false} NothingElseDropped(r: seq<Emit>, i: nat)
    requires forall i :: 0 <= i < |r| ==> r[i].Property? && r[i].changesOnly
    requires i < |r|
    ensures var c, n := Changes(r), |Changes(r[..i + 1])|; 0 < n <= |c| && c[n - 1] == r[i].value
  {
    if i == |r| - 1 {
      assert r[..i + 1] == r;
      NoRepeats(r);
    } else {
      var front := r[..|r| - 1];
      assert front[..i + 1] == r[..i + 1];
      NothingElseDropped(front, i);
    }
  }

  /** The filter never changes the store: the same requests made unconditionally leave the same values. */
  lemma FilterKeepsStore(td: ThingTD, es: seq<Emit>, fs: seq<Emit>, name: string)
    requires name in td.properties
    requires Comparable(Requests(es, name)) && Comparable(Requests(fs, name))
    requires |Requests(es, name)| == |Requests(fs, name)|
    requires forall i :: 0 <= i < |Requests(es, name)| ==> Requests(es, name)[i].value == Requests(fs, name)[i].value
    ensures name in StoreAfter(td, es) <==> name in StoreAfter(td, fs)
    ensures name in StoreAfter(td, es) ==> StoreAfter(td, es)[name] == StoreAfter(td, fs)[name]
  {
    FilterExact(td, es, name);
    FilterExact(td, fs, name);
  }
}
