/** The converse of order independence: where a keyword of the text has a value that mentions another keyword, two
    iteration orders give different texts.
 */
module TemplateOrders {
  import opened Text
  import opened Orders
  import opened Template

  function Count(ts: seq<Token>, name: string): nat {
    if ts == [] then 0 else (if ts[0] == Var(name) then 1 else 0) + Count(ts[1..], name)
  }

  lemma {:induction false} CountConcat(a: seq<Token>, b: seq<Token>, name: string)
    ensures Count(a + b, name) == Count(a, name) + Count(b, name)
  {
    if a == [] {
      assert a + b == b;
    } else {
      assert (a + b)[1..] == a[1..] + b;
      CountConcat(a[1..], b, name);
    }
  }

  lemma {:induction false} CountPositive(ts: seq<Token>, name: string)
    ensures Count(ts, name) > 0 <==> Var(name) in ts
  {
    if ts != [] {
      CountPositive(ts[1..], name);
      assert forall t :: t in ts <==> t == ts[0] || t in ts[1..];
    }
  }

  lemma OneMoreTimes(n: nat, c: int)
    ensures (n + 1) * c == n * c + c
  {
  }

  lemma {:induction false} SpliceCount(ts: seq<Token>, k: string, value: seq<Token>, name: string)
    ensures Count(Splice(ts, k, value), name)
         == (if name == k then 0 else Count(ts, name)) + Count(ts, k) * Count(value, name)
  {
    if ts != [] {
      SpliceCount(ts[1..], k, value, name);
      var head := if ts[0] == Var(k) then value else [ts[0]];
      CountConcat(head, Splice(ts[1..], k, value), name);
      OneMoreTimes(Count(ts[1..], k), Count(value, name));
      assert Count([ts[0]], name) == if ts[0] == Var(name) then 1 else 0;
    }
  }

  lemma {:induction false} SpliceLength(sigil: string, ts: seq<Token>, k: string, value: seq<Token>)
    ensures |Render(sigil, Splice(ts, k, value))|
         == |Render(sigil, ts)| + Count(ts, k) * (|Render(sigil, value)| - |Keyword(sigil, k)|)
  {
    if ts != [] {
      SpliceLength(sigil, ts[1..], k, value);
      var head := if ts[0] == Var(k) then value else [ts[0]];
      RenderConcat(sigil, head, Splice(ts[1..], k, value));
      RenderOne(sigil, ts[0]);
      OneMoreTimes(Count(ts[1..], k), |Render(sigil, value)| - |Keyword(sigil, k)|);
    }
  }

  lemma {:induction false} SpliceFlat(ts: seq<Token>, k: string, value: seq<Token>)
    requires Flat(ts) && Flat(value)
    ensures Flat(Splice(ts, k, value))
  {
    if ts != [] {
      SpliceFlat(ts[1..], k, value);
    }
  }

  /** A text as long as a keyword it mentions is that keyword. */
  lemma {:induction false} MentionsKeyword(sigil: string, ts: seq<Token>, name: string)
    requires Var(name) in ts
    ensures |Render(sigil, ts)| >= |Keyword(sigil, name)|
    ensures |Render(sigil, ts)| == |Keyword(sigil, name)| ==> Render(sigil, ts) == Keyword(sigil, name)
  {
    if ts[0] != Var(name) {
      assert Var(name) in ts[1..];
      MentionsKeyword(sigil, ts[1..], name);
    }
  }

  /** How often a flat text mentions a keyword can be read off the text: drop the keyword and compare lengths. */
  lemma {:induction false} CountByLength(sigil: string, ts: seq<Token>, name: string)
    requires BraceFree(sigil) && BraceFree(name) && Flat(ts)
    ensures |ReplaceAll(Render(sigil, ts), Keyword(sigil, name), "")|
         == |Render(sigil, ts)| + Count(ts, name) * (0 - |Keyword(sigil, name)|)
  {
    ReplaceKeyword(sigil, ts, name, []);
    SpliceLength(sigil, ts, name, []);
  }

  /** Equal texts mention a keyword equally often. */
  lemma {:induction false} SameCount(sigil: string, ts: seq<Token>, us: seq<Token>, name: string)
    requires BraceFree(sigil) && BraceFree(name) && Flat(ts) && Flat(us)
    requires Render(sigil, ts) == Render(sigil, us)
    ensures Count(ts, name) == Count(us, name)
  {
    CountByLength(sigil, ts, name);
    CountByLength(sigil, us, name);
    SameFactor(Count(ts, name), Count(us, name), |Keyword(sigil, name)|);
  }

  lemma SameFactor(a: nat, b: nat, n: nat)
    requires n > 0 && a * (0 - n) == b * (0 - n)
    ensures a == b
  {
    if a != b {
      NonZero(n, a - b);
    }
  }

  /** `a` has a value that mentions `b`: replacing `a` first or last gives different texts. */
  lemma {:induction false} SwapDiffers(sigil: string, x: seq<Token>, values: map<string, seq<Token>>, a: string,
                                       b: string)
    requires BraceFree(sigil) && Flat(x) && (forall n :: n in values ==> BraceFree(n) && Flat(values[n]))
    requires Clash(sigil, x, values, a, b) && !Tangled(values, a, b)
    ensures Render(sigil, Splice(Splice(x, b, values[b]), a, values[a]))
         != Render(sigil, Splice(Splice(x, a, values[a]), b, values[b]))
  {
    var va, vb := values[a], values[b];
    CountPositive(x, a);
    CountPositive(va, b);
    Positive(Count(x, a), Count(va, b));
    CountPositive(vb, a);
    CountPositive(vb, b);
    if Var(b) in vb && Var(a) !in vb {
      MentionsKeyword(sigil, vb, b);
      SwapLengths(sigil, x, a, va, b, vb);
      NonZero(Count(x, a) * Count(va, b), |Render(sigil, vb)| - |Keyword(sigil, b)|);
    } else if Var(b) !in vb {
      SwapCounts(x, a, va, b, vb);
      DifferentCounts(sigil, x, a, va, b, vb, b);
    } else {
      CountPositive(va, a);
      SwapBackCounts(x, a, va, b, vb);
      DifferentCounts(sigil, x, a, va, b, vb, a);
    }
  }

  lemma {:induction false} DifferentCounts(sigil: string, x: seq<Token>, a: string, va: seq<Token>, b: string,
                                           vb: seq<Token>, name: string)
    requires BraceFree(sigil) && BraceFree(name) && Flat(x) && Flat(va) && Flat(vb)
    requires Count(Splice(Splice(x, b, vb), a, va), name) != Count(Splice(Splice(x, a, va), b, vb), name)
    ensures Render(sigil, Splice(Splice(x, b, vb), a, va)) != Render(sigil, Splice(Splice(x, a, va), b, vb))
  {
    SpliceFlat(x, b, vb);
    SpliceFlat(Splice(x, b, vb), a, va);
    SpliceFlat(x, a, va);
    SpliceFlat(Splice(x, a, va), b, vb);
    var last, first := Splice(Splice(x, b, vb), a, va), Splice(Splice(x, a, va), b, vb);
    if Render(sigil, last) == Render(sigil, first) {
      SameCount(sigil, last, first, name);
    }
  }

  /** The two keywords mention each other, and both mention themselves as well. */
  predicate Tangled(values: map<string, seq<Token>>, a: string, b: string) {
    && a in values && b in values && a != b
    && Var(b) in values[a] && Var(a) in values[b] && Var(a) in values[a] && Var(b) in values[b]
  }

  lemma Positive(m: nat, n: nat)
    requires m > 0 && n > 0
    ensures m * n > 0
  {
  }

  lemma NonZero(m: nat, n: int)
    requires m > 0 && n != 0
    ensures m * n != 0
  {
  }

  /** Where the value of `b` does not mention `b`, no `b` is left if `b` goes last, and some are if `a` does. */
  lemma {:induction false} SwapCounts(x: seq<Token>, a: string, va: seq<Token>, b: string, vb: seq<Token>)
    requires a != b && Count(vb, b) == 0 && Count(x, a) * Count(va, b) > 0
    ensures Count(Splice(Splice(x, b, vb), a, va), b) > 0
    ensures Count(Splice(Splice(x, a, va), b, vb), b) == 0
  {
    SpliceCount(x, b, vb, a);
    SpliceCount(x, b, vb, b);
    SpliceCount(Splice(x, b, vb), a, va, b);
    SpliceCount(Splice(x, a, va), b, vb, b);
    Distribute(Count(x, a), Count(x, b) * Count(vb, a), Count(va, b));
  }

  /** Where the value of `a` does not mention `a` but that of `b` does, no `a` is left if `a` goes last, and some are if
      `b` does. */
  lemma {:induction false} SwapBackCounts(x: seq<Token>, a: string, va: seq<Token>, b: string, vb: seq<Token>)
    requires a != b && Count(va, a) == 0 && Count(vb, a) > 0 && Count(x, a) * Count(va, b) > 0
    ensures Count(Splice(Splice(x, b, vb), a, va), a) == 0
    ensures Count(Splice(Splice(x, a, va), b, vb), a) > 0
  {
    SpliceCount(Splice(x, b, vb), a, va, a);
    SpliceCount(x, a, va, b);
    SpliceCount(Splice(x, a, va), b, vb, a);
    Positive(Count(Splice(x, a, va), b), Count(vb, a));
  }

  lemma {:induction false} LengthAfterTwo(sigil: string, x: seq<Token>, a: string, va: seq<Token>, b: string,
                                          vb: seq<Token>)
    requires a != b
    ensures |Render(sigil, Splice(Splice(x, a, va), b, vb))|
         == |Render(sigil, x)| + Count(x, a) * (|Render(sigil, va)| - |Keyword(sigil, a)|)
          + (Count(x, b) + Count(x, a) * Count(va, b)) * (|Render(sigil, vb)| - |Keyword(sigil, b)|)
  {
    SpliceCount(x, a, va, b);
    SpliceLength(sigil, x, a, va);
    SpliceLength(sigil, Splice(x, a, va), b, vb);
  }

  lemma {:induction false} SwapLengths(sigil: string, x: seq<Token>, a: string, va: seq<Token>, b: string,
                                       vb: seq<Token>)
    requires a != b && Count(vb, a) == 0
    ensures |Render(sigil, Splice(Splice(x, a, va), b, vb))| - |Render(sigil, Splice(Splice(x, b, vb), a, va))|
         == Count(x, a) * Count(va, b) * (|Render(sigil, vb)| - |Keyword(sigil, b)|)
  {
    LengthAfterTwo(sigil, x, a, va, b, vb);
    LengthAfterTwo(sigil, x, b, vb, a, va);
    LengthsDiffer(Count(x, a), Count(x, b), Count(va, b), |Render(sigil, va)| - |Keyword(sigil, a)|,
                  |Render(sigil, vb)| - |Keyword(sigil, b)|);
  }

  lemma LengthsDiffer(na: int, nb: int, p: int, da: int, db: int)
    ensures na * da + (nb + na * p) * db - (nb * db + na * da) == na * p * db
  {
    Distribute(nb, na * p, db);
  }

  lemma Distribute(m: int, n: int, d: int)
    ensures (m + n) * d == m * d + n * d
  {
  }

  // ---- Two orders ----

  lemma {:induction false} OrderExists(keys: set<string>) returns (order: seq<string>)
    ensures IsOrder(order, keys)
  {
    if keys == {} {
      order := [];
    } else {
      var k :| k in keys;
      order := OrderExists(keys - {k});
      OneMoreKey(order, keys - {k}, k);
      assert keys - {k} + {k} == keys;
      order := order + [k];
    }
  }

  /** One step of the loop, on the text as tokens; a keyword other than the replaced one is still there. */
  lemma {:induction false} OneMore(sigil: string, x: seq<Token>, m: map<string, string>,
                                   values: map<string, seq<Token>>, k: string, a: string)
    requires BraceFree(sigil) && Flat(x) && Represents(sigil, m, values) && k in m
    ensures var name := NameOf(sigil, k); var y := Splice(x, name, values[name]);
            && k == Keyword(sigil, name) && name in values
            && Flat(y) && Render(sigil, y) == ReplaceAll(Render(sigil, x), k, m[k])
            && (name != a ==> Count(x, a) <= Count(y, a))
  {
    var name := NameOf(sigil, k);
    assert k == Keyword(sigil, name) && name in values && m[k] == Render(sigil, values[name]);
    OneSplice(sigil, x, name, values[name], a);
  }

  lemma {:induction false} OneSplice(sigil: string, x: seq<Token>, name: string, value: seq<Token>, a: string)
    requires BraceFree(sigil) && Flat(x) && BraceFree(name) && Flat(value)
    ensures var y := Splice(x, name, value);
            && Flat(y) && Render(sigil, y) == ReplaceAll(Render(sigil, x), Keyword(sigil, name), Render(sigil, value))
            && (name != a ==> Count(x, a) <= Count(y, a))
  {
    ReplaceKeyword(sigil, x, name, value);
    SpliceFlat(x, name, value);
    SpliceCount(x, name, value, a);
  }

  /** The text after some keys, as tokens. */
  lemma {:induction false} Processed(sigil: string, ts: seq<Token>, m: map<string, string>,
                                     values: map<string, seq<Token>>, order: seq<string>, a: string)
    returns (x: seq<Token>)
    requires BraceFree(sigil) && Flat(ts) && Represents(sigil, m, values)
    requires (forall k :: k in order ==> k in m) && Keyword(sigil, a) !in order
    ensures Flat(x) && Render(sigil, x) == ReplaceInOrder(Render(sigil, ts), m, order)
    ensures Count(ts, a) <= Count(x, a)
  {
    if order == [] {
      x := ts;
    } else {
      var front, k := order[..|order| - 1], order[|order| - 1];
      assert k in order && forall q :: q in front ==> q in order;
      var y := Processed(sigil, ts, m, values, front, a);
      OneMore(sigil, y, m, values, k, a);
      x := Splice(y, NameOf(sigil, k), values[NameOf(sigil, k)]);
    }
  }

  lemma {:induction false} TwoMore(sigil: string, text: string, x: seq<Token>, m: map<string, string>,
                                   values: map<string, seq<Token>>, order: seq<string>, a: string, b: string)
    requires BraceFree(sigil) && Flat(x) && Represents(sigil, m, values) && a in values && b in values
    requires (forall k :: k in order ==> k in m) && Render(sigil, x) == ReplaceInOrder(text, m, order)
    ensures ReplaceInOrder(text, m, order + [Keyword(sigil, a)] + [Keyword(sigil, b)])
         == Render(sigil, Splice(Splice(x, a, values[a]), b, values[b]))
  {
    var one := order + [Keyword(sigil, a)];
    var two := one + [Keyword(sigil, b)];
    assert one[..|order|] == order && two[..|one|] == one;
    NameBack(sigil, a);
    NameBack(sigil, b);
    OneMore(sigil, x, m, values, Keyword(sigil, a), b);
    OneMore(sigil, Splice(x, a, values[a]), m, values, Keyword(sigil, b), a);
  }

  lemma NameBack(sigil: string, name: string)
    ensures NameOf(sigil, Keyword(sigil, name)) == name
  {
  }

  /** Two keys can be processed last in either order. */
  lemma {:induction false} TwoLast(keys: set<string>, ka: string, kb: string, others: seq<string>)
    requires ka in keys && kb in keys && ka != kb && IsOrder(others, keys - {ka, kb})
    ensures IsOrder(others + [ka] + [kb], keys)
  {
    OneMoreKey(others, keys - {ka, kb}, ka);
    OneMoreKey(others + [ka], keys - {ka, kb} + {ka}, kb);
    assert keys - {ka, kb} + {ka} + {kb} == keys;
  }

  /** A clash shows: two orders give different texts. */
  lemma {:induction false} ClashShows(sigil: string, ts: seq<Token>, m: map<string, string>,
                                      values: map<string, seq<Token>>, a: string, b: string)
    returns (first: seq<string>, last: seq<string>)
    requires BraceFree(sigil) && Flat(ts) && Represents(sigil, m, values)
    requires Clash(sigil, ts, values, a, b) && !Tangled(values, a, b)
    ensures IsOrder(first, m.Keys) && IsOrder(last, m.Keys)
    ensures ReplaceInOrder(Render(sigil, ts), m, first) != ReplaceInOrder(Render(sigil, ts), m, last)
  {
    var ka, kb := Keyword(sigil, a), Keyword(sigil, b);
    KeywordInjective(sigil, a, b);
    var others := OrderExists(m.Keys - {ka, kb});
    TwoLast(m.Keys, ka, kb, others);
    assert m.Keys - {ka, kb} == m.Keys - {kb, ka};
    TwoLast(m.Keys, kb, ka, others);
    first, last := others + [ka] + [kb], others + [kb] + [ka];
    ClashAfter(sigil, ts, m, values, others, a, b);
  }

  lemma {:induction false} ClashAfter(sigil: string, ts: seq<Token>, m: map<string, string>,
                                      values: map<string, seq<Token>>, others: seq<string>, a: string, b: string)
    requires BraceFree(sigil) && Flat(ts) && Represents(sigil, m, values)
    requires Clash(sigil, ts, values, a, b) && !Tangled(values, a, b)
    requires (forall k :: k in others ==> k in m) && Keyword(sigil, a) !in others
    ensures ReplaceInOrder(Render(sigil, ts), m, others + [Keyword(sigil, a)] + [Keyword(sigil, b)])
         != ReplaceInOrder(Render(sigil, ts), m, others + [Keyword(sigil, b)] + [Keyword(sigil, a)])
  {
    var x := Processed(sigil, ts, m, values, others, a);
    CountPositive(ts, a);
    CountPositive(x, a);
    SwapDiffers(sigil, x, values, a, b);
    TwoMore(sigil, Render(sigil, ts), x, m, values, others, a, b);
    TwoMore(sigil, Render(sigil, ts), x, m, values, others, b, a);
  }

  /** Some clash is one that shows, if there is any. */
  ghost predicate SomeClashUntangled(sigil: string, ts: seq<Token>, values: map<string, seq<Token>>) {
    NoClash(sigil, ts, values) || exists a, b :: Clash(sigil, ts, values, a, b) && !Tangled(values, a, b)
  }

  /** So, for flat texts and values, all iteration orders agree if and only if no keyword of the text has a value that
      mentions another keyword that does not stand for itself; only where all clashes are tangled, they may. */
  lemma {:induction false} OrderIndependentExactly(sigil: string, ts: seq<Token>, m: map<string, string>,
                                                   values: map<string, seq<Token>>)
    requires BraceFree(sigil) && Flat(ts) && Represents(sigil, m, values)
    requires SomeClashUntangled(sigil, ts, values)
    ensures (forall o1, o2 :: IsOrder(o1, m.Keys) && IsOrder(o2, m.Keys) ==>
               ReplaceInOrder(Render(sigil, ts), m, o1) == ReplaceInOrder(Render(sigil, ts), m, o2))
        <==> NoClash(sigil, ts, values)
  {
    if NoClash(sigil, ts, values) {
      forall o1, o2 | IsOrder(o1, m.Keys) && IsOrder(o2, m.Keys)
        ensures ReplaceInOrder(Render(sigil, ts), m, o1) == ReplaceInOrder(Render(sigil, ts), m, o2)
      {
        OrderIndependent(sigil, ts, m, values, o1);
        OrderIndependent(sigil, ts, m, values, o2);
      }
    } else {
      var a, b :| Clash(sigil, ts, values, a, b) && !Tangled(values, a, b);
      var first, last := ClashShows(sigil, ts, m, values, a, b);
    }
  }

  // ---- Tangled values can agree by accident ----

  lemma OrdersOfTwo(order: seq<string>, ka: string, kb: string)
    requires ka != kb && IsOrder(order, {ka, kb})
    ensures order == [ka, kb] || order == [kb, ka]
  {
    assert ka in order && kb in order;
    var p :| 0 <= p < |order| && order[p] == ka;
    var q :| 0 <= q < |order| && order[q] == kb;
    forall i | 0 <= i < |order|
      ensures order[i] == ka || order[i] == kb
    {
      assert order[i] in order;
    }
    assert p == 0 || At(order, 0) == kb;
    assert |order| > 2 ==> At(order, 0) == At(order, 1) || At(order, 0) == At(order, 2) || At(order, 1) == At(order, 2);
  }

  ghost function At(order: seq<string>, i: int): string {
    if 0 <= i < |order| then order[i] else ""
  }

  function TangledValues(): map<string, seq<Token>> {
    map["a" := [Var("a"), Var("b"), Var("a")], "b" := [Var("b"), Var("a"), Var("b")]]
  }

  function TangledMap(sigil: string): map<string, string> {
    map[Keyword(sigil, "a") := Render(sigil, TangledValues()["a"]),
        Keyword(sigil, "b") := Render(sigil, TangledValues()["b"])]
  }

  lemma TangledFlat()
    ensures TangledValues().Keys == {"a", "b"}
    ensures forall n :: n in TangledValues() ==> BraceFree(n) && Flat(TangledValues()[n])
  {
  }

  lemma {:induction false} TangledRepresented(sigil: string)
    ensures Represents(sigil, TangledMap(sigil), TangledValues())
    ensures TangledMap(sigil).Keys == {Keyword(sigil, "a"), Keyword(sigil, "b")}
  {
    TangledFlat();
    KeywordInjective(sigil, "a", "b");
    RepresentsTwo(sigil, "a", "b", TangledValues());
  }

  lemma {:induction false} RepresentsTwo(sigil: string, a: string, b: string, values: map<string, seq<Token>>)
    requires values.Keys == {a, b} && Keyword(sigil, a) != Keyword(sigil, b)
    requires BraceFree(a) && BraceFree(b) && Flat(values[a]) && Flat(values[b])
    ensures Represents(sigil, map[Keyword(sigil, a) := Render(sigil, values[a]),
                                 Keyword(sigil, b) := Render(sigil, values[b])], values)
  {
    NameBack(sigil, a);
    NameBack(sigil, b);
  }

  lemma {:induction false} ValueShows(sigil: string)
    ensures Render(sigil, TangledValues()["b"]) != Keyword(sigil, "b")
  {
    RenderConcat(sigil, [Var("b")], [Var("a"), Var("b")]);
    assert [Var("b")] + [Var("a"), Var("b")] == TangledValues()["b"];
    RenderConcat(sigil, [Var("a")], [Var("b")]);
    assert [Var("a")] + [Var("b")] == [Var("a"), Var("b")];
    RenderOne(sigil, Var("a"));
    RenderOne(sigil, Var("b"));
  }

  /** Two keywords that mention each other and themselves: a -> "aba" and b -> "bab" turn "ab" into "abababab" in both
      orders, so there a clash need not show. */
  lemma {:induction false} TangledMayAgree(sigil: string, order: seq<string>)
    requires BraceFree(sigil)
    ensures Represents(sigil, TangledMap(sigil), TangledValues())
    ensures Tangled(TangledValues(), "a", "b") && Clash(sigil, [Var("a"), Var("b")], TangledValues(), "a", "b")
    ensures IsOrder(order, TangledMap(sigil).Keys) ==>
              (ReplaceInOrder(Render(sigil, [Var("a"), Var("b")]), TangledMap(sigil), order)
               == Render(sigil, [Var("a"), Var("b"), Var("a"), Var("b"), Var("a"), Var("b"), Var("a"), Var("b")]))
  {
    TangledRepresented(sigil);
    ValueShows(sigil);
    if IsOrder(order, TangledMap(sigil).Keys) {
      TangledOrder(sigil, order);
    }
  }

  lemma {:induction false} TangledOrder(sigil: string, order: seq<string>)
    requires BraceFree(sigil) && IsOrder(order, TangledMap(sigil).Keys)
    ensures ReplaceInOrder(Render(sigil, [Var("a"), Var("b")]), TangledMap(sigil), order)
         == Render(sigil, [Var("a"), Var("b"), Var("a"), Var("b"), Var("a"), Var("b"), Var("a"), Var("b")])
  {
    TangledRepresented(sigil);
    KeywordInjective(sigil, "a", "b");
    SpliceEight(Var("a"), Var("b"));
    InEitherOrder(sigil, [Var("a"), Var("b")], TangledMap(sigil), TangledValues(), "a", "b", order);
  }

  lemma {:induction false} InEitherOrder(sigil: string, ts: seq<Token>, m: map<string, string>,
                                         values: map<string, seq<Token>>, a: string, b: string, order: seq<string>)
    requires BraceFree(sigil) && Flat(ts) && Represents(sigil, m, values) && a in values && b in values
    requires Keyword(sigil, a) != Keyword(sigil, b) && IsOrder(order, {Keyword(sigil, a), Keyword(sigil, b)})
    requires Splice(Splice(ts, a, values[a]), b, values[b]) == Splice(Splice(ts, b, values[b]), a, values[a])
    requires forall k :: k in order ==> k in m
    ensures ReplaceInOrder(Render(sigil, ts), m, order)
         == Render(sigil, Splice(Splice(ts, a, values[a]), b, values[b]))
  {
    OrdersOfTwo(order, Keyword(sigil, a), Keyword(sigil, b));
    BothAfterNothing(sigil, ts, m, values, a, b);
    BothAfterNothing(sigil, ts, m, values, b, a);
  }

  lemma {:induction false} BothAfterNothing(sigil: string, ts: seq<Token>, m: map<string, string>,
                                            values: map<string, seq<Token>>, a: string, b: string)
    requires BraceFree(sigil) && Flat(ts) && Represents(sigil, m, values) && a in values && b in values
    ensures ReplaceInOrder(Render(sigil, ts), m, [Keyword(sigil, a), Keyword(sigil, b)])
         == Render(sigil, Splice(Splice(ts, a, values[a]), b, values[b]))
  {
    TwoMore(sigil, Render(sigil, ts), ts, m, values, [], a, b);
    AfterNothing(Keyword(sigil, a), Keyword(sigil, b));
  }

  lemma AfterNothing(ka: string, kb: string)
    ensures [] + [ka] + [kb] == [ka, kb]
  {
  }

  lemma {:induction false} SpliceEight(a: Token, b: Token)
    requires a == Var("a") && b == Var("b")
    ensures var va, vb, eight := [a, b, a], [b, a, b], [a, b, a, b, a, b, a, b];
            && Splice(Splice([a, b], "a", va), "b", vb) == eight
            && Splice(Splice([a, b], "b", vb), "a", va) == eight
  {
    var va, vb := [a, b, a], [b, a, b];
    Unfold4("a", va, a, b, a, b);
    Unfold4("b", vb, a, b, a, b);
    Unfold2("a", va, a, b);
    Unfold2("b", vb, a, b);
    assert [a, b, a] + [b] == [a, b, a, b];
    assert [a] + [b, a, b] == [a, b, a, b];
  }

  lemma Unfold1(name: string, value: seq<Token>, t: Token)
    ensures Splice([t], name, value) == if t == Var(name) then value else [t]
  {
    assert [t][1..] == [] && Splice([t][1..], name, value) == [];
  }

  lemma {:induction false} Unfold2(name: string, value: seq<Token>, t: Token, u: Token)
    ensures Splice([t, u], name, value)
         == (if t == Var(name) then value else [t]) + (if u == Var(name) then value else [u])
  {
    assert [t, u] == [t] + [u];
    SpliceConcat([t], [u], name, value);
    Unfold1(name, value, t);
    Unfold1(name, value, u);
  }

  lemma {:induction false} Unfold4(name: string, value: seq<Token>, t: Token, u: Token, v: Token, w: Token)
    ensures Splice([t, u, v, w], name, value)
         == (if t == Var(name) then value else [t]) + (if u == Var(name) then value else [u])
          + (if v == Var(name) then value else [v]) + (if w == Var(name) then value else [w])
  {
    assert [t, u] + [v, w] == [t, u, v, w];
    SpliceConcat([t, u], [v, w], name, value);
    Unfold2(name, value, t, u);
    Unfold2(name, value, v, w);
  }
}
