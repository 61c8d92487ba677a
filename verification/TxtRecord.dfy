/** DNS-SD parameters: DiscoServe writes them as "key=value" records, DiscoClient reads them back. */
module TxtRecord {
  import opened Text
  import opened Orders

  function Record(key: string, value: string): string {
    key + "=" + value
  }

  /** The records of `params` when the map is walked in `order`. */
  function Records(params: map<string, string>, order: seq<string>): (text: seq<string>)
    requires forall k :: k in order ==> k in params
  {
    seq(|order|, i requires 0 <= i < |order| => Record(order[i], params[order[i]]))
  }

  /** The parameters read from `text`: the last record of a key counts. */
  function Params(text: seq<string>): map<string, string> {
    if text == [] then map[]
    else
      var before := Params(text[..|text| - 1]);
      var kv := Split(text[|text| - 1], '=');
      if |kv| != 2 then before else before[kv[0] := kv[1]]
  }

  /** Record `i` is the last one that reads as the entry. */
  predicate LastEntry(text: seq<string>, i: nat, key: string, value: string)
    requires i < |text|
  {
    && Split(text[i], '=') == [key, value]
    && forall j :: i < j < |text| ==> !(|Split(text[j], '=')| == 2 && Split(text[j], '=')[0] == key)
  }

  /** What is read: the value of a key is that of its last record, and only records with exactly one '=' count. */
  lemma {:induction false} ParamsExactly(text: seq<string>, key: string, value: string)
    ensures key in Params(text) && Params(text)[key] == value
        <==> exists i: nat :: i < |text| && LastEntry(text, i, key, value)
  {
    if text != [] {
      var front, n := text[..|text| - 1], |text| - 1;
      ParamsExactly(front, key, value);
      var kv := Split(text[n], '=');
      if |kv| == 2 && kv[0] == key {
        assert kv == [key, kv[1]];
        assert LastEntry(text, n, key, kv[1]);
        assert forall i: nat :: i < n ==> !LastEntry(text, i, key, value);
      } else {
        forall i: nat | i < n
          ensures LastEntry(front, i, key, value) <==> LastEntry(text, i, key, value)
        {
          assert forall j :: i <= j < n ==> front[j] == text[j];
        }
      }
    }
  }

  method BuildTextRecord(params: map<string, string>) returns (textRecord: seq<string>, ghost order: seq<string>)
    ensures IsOrder(order, params.Keys)
    ensures textRecord == Records(params, order)
    ensures |textRecord| == |order|
    ensures forall i :: 0 <= i < |order| ==> textRecord[i] == order[i] + "=" + params[order[i]]
    ensures Params(textRecord) == map k | k in params && '=' !in k && '=' !in params[k] :: params[k]
  {
    textRecord, order := [], [];
    var left := params.Keys;
    while left != {}
      invariant left <= params.Keys
      invariant IsOrder(order, params.Keys - left)
      invariant textRecord == Records(params, order)
      decreases left
    {
      var k :| k in left;
      assert k !in order;
      order := order + [k];
      textRecord := textRecord + [Record(k, params[k])];
      left := left - {k};
    }
    TxtRoundTrip(params, order);
  }

  method ParseTextRecord(text: seq<string>) returns (params: map<string, string>)
    ensures params == Params(text)
  {
    params := map[];
    for i := 0 to |text|
      invariant params == Params(text[..i])
    {
      assert text[..i + 1][..i] == text[..i];
      var kv := Split(text[i], '=');
      if |kv| == 2 {
        params := params[kv[0] := kv[1]];
      }
    }
    assert text[..|text|] == text;
  }

  predicate Survives(key: string, value: string) {
    '=' !in key && '=' !in value
  }

  lemma SplitRecord(key: string, value: string)
    ensures |Split(Record(key, value), '=')| == 2 <==> Survives(key, value)
    ensures Survives(key, value) ==> Split(Record(key, value), '=') == [key, value]
  {
    assert Record(key, value) == key + ['='] + value;
    SplitConcat(key, value, '=');
    SplitHead(key, '=');
    SplitHead(value, '=');
  }

  /** The part of `params` that the text record can carry. */
  function Surviving(params: map<string, string>, keys: set<string>): map<string, string> {
    map k | k in params && k in keys && Survives(k, params[k]) :: params[k]
  }

  lemma {:induction false} RecordsOfPrefix(params: map<string, string>, order: seq<string>)
    requires Distinct(order) && forall k :: k in order ==> k in params
    ensures Params(Records(params, order)) == Surviving(params, set k | k in order)
  {
    var text := Records(params, order);
    if order != [] {
      var front, k := order[..|order| - 1], order[|order| - 1];
      assert order == front + [k];
      OrderPrefix(front, k);
      assert text[..|text| - 1] == Records(params, front);
      RecordsOfPrefix(params, front);
      SplitRecord(k, params[k]);
    }
  }

  /** Whatever order the map was walked in, exactly the entries whose key and value hold no '=' come back.
      RFC 6763 section 6.5 allows '=' in a value; such an entry is lost here. */
  lemma TxtRoundTrip(params: map<string, string>, order: seq<string>)
    requires IsOrder(order, params.Keys)
    ensures Params(Records(params, order)) == map k | k in params && '=' !in k && '=' !in params[k] :: params[k]
  {
    RecordsOfPrefix(params, order);
  }

  /** Nothing is lost if and only if no key and no value holds '='. */
  lemma TxtLossless(params: map<string, string>, order: seq<string>)
    requires IsOrder(order, params.Keys)
    ensures Params(Records(params, order)) == params <==> forall k :: k in params ==> '=' !in k && '=' !in params[k]
  {
    TxtRoundTrip(params, order);
  }
}
