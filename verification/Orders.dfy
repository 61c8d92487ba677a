/** Go iterates a map in an order the program cannot predict. `IsOrder` says which orders are possible:
    every key once. */
module Orders {

  ghost predicate Distinct(order: seq<string>) {
    forall i, j :: 0 <= i < j < |order| ==> order[i] != order[j]
  }

  ghost predicate IsOrder(order: seq<string>, keys: set<string>) {
    && Distinct(order)
    && forall k :: k in order <==> k in keys
  }

  lemma OrderPrefix(order: seq<string>, k: string)
    requires Distinct(order + [k])
    ensures Distinct(order) && k !in order
  {
    var all := order + [k];
    assert all[|order|] == k;
    forall i, j | 0 <= i < j < |order|
      ensures order[i] != order[j]
    {
      assert all[i] == order[i] && all[j] == order[j];
    }
    forall i | 0 <= i < |order|
      ensures order[i] != k
    {
      assert all[i] == order[i];
    }
  }

  lemma OneMoreKey(order: seq<string>, keys: set<string>, k: string)
    requires IsOrder(order, keys) && k !in keys
    ensures IsOrder(order + [k], keys + {k})
  {
  }
}
