/** SubstituteText replaces the keywords of a configuration text by looping over a Go map, so in an order
    that changes from run to run. The documented meaning is one simultaneous substitution.

    A keyword is `sigil + "{" + name + "}"`. The hub configuration uses the sigil "" ("{clientID}"), the
    documentation of SubstituteText uses "$" ("${name}"); everything here holds for any sigil without braces.
 */
module Template {
  import opened Text
  import opened Orders

  datatype Token = Lit(text: string) | Var(name: string)

  predicate BraceFree(s: string) {
    '{' !in s && '}' !in s
  }

  function Keyword(sigil: string, name: string): string {
    sigil + "{" + name + "}"
  }

  function TokenText(sigil: string, t: Token): string {
    match t
    case Lit(text) => text
    case Var(name) => Keyword(sigil, name)
  }

  function Render(sigil: string, ts: seq<Token>): string {
    if ts == [] then "" else TokenText(sigil, ts[0]) + Render(sigil, ts[1..])
  }

  /** A text of plain pieces and keywords: no nesting and no stray opening brace. */
  predicate Flat(ts: seq<Token>) {
    forall i :: 0 <= i < |ts| ==> if ts[i].Lit? then '{' !in ts[i].text else BraceFree(ts[i].name)
  }

  predicate KeywordOf(sigil: string, k: string) {
    |k| >= |sigil| + 2 && k == Keyword(sigil, NameOf(sigil, k)) && BraceFree(NameOf(sigil, k))
  }

  function NameOf(sigil: string, k: string): string
    requires |k| >= |sigil| + 2
  {
    k[|sigil| + 1..|k| - 1]
  }

  /** `m` maps keywords to the flat texts that `values` gives by name. The values may mention keywords themselves. */
  ghost predicate Represents(sigil: string, m: map<string, string>, values: map<string, seq<Token>>) {
    && (forall k :: k in m ==> KeywordOf(sigil, k) && NameOf(sigil, k) in values)
    && (forall n :: n in values ==>
          && BraceFree(n) && Flat(values[n])
          && Keyword(sigil, n) in m && m[Keyword(sigil, n)] == Render(sigil, values[n]))
  }

  /** No keyword of the text has a value that mentions another keyword of the map, unless that one stands for
      itself. */
  ghost predicate NoClash(sigil: string, ts: seq<Token>, values: map<string, seq<Token>>) {
    forall a, b :: !Clash(sigil, ts, values, a, b)
  }

  ghost predicate Clash(sigil: string, ts: seq<Token>, values: map<string, seq<Token>>, a: string, b: string) {
    && Var(a) in ts && a in values && b in values && a != b
    && Var(b) in values[a] && Render(sigil, values[b]) != Keyword(sigil, b)
  }

  /** The keys are keywords and the values hold no opening brace: the plain case, in which nothing can clash. */
  predicate PlainMap(sigil: string, m: map<string, string>) {
    forall k :: k in m ==> '{' !in m[k] && KeywordOf(sigil, k)
  }

  lemma PlainMapExactly(sigil: string, m: map<string, string>)
    ensures PlainMap(sigil, m)
        <==> forall k :: k in m ==>
               && '{' !in m[k] && |k| >= |sigil| + 2
               && var name := k[|sigil| + 1..|k| - 1];
                  k == sigil + "{" + name + "}" && '{' !in name && '}' !in name
  {
  }

  /** Replace one keyword by the text `value`. */
  function Splice(ts: seq<Token>, name: string, value: seq<Token>): seq<Token> {
    if ts == [] then [] else (if ts[0] == Var(name) then value else [ts[0]]) + Splice(ts[1..], name, value)
  }

  /** Replace all keywords of `m` at once; keywords that are not in `m` stay. */
  function SubstituteAll(sigil: string, ts: seq<Token>, m: map<string, string>): (r: seq<Token>)
    ensures |r| == |ts|
    ensures forall i :: 0 <= i < |ts| ==>
              r[i] == if ts[i].Var? && Keyword(sigil, ts[i].name) in m
                     then Lit(m[Keyword(sigil, ts[i].name)]) else ts[i]
  {
    if ts == [] then []
    else
      [if ts[0].Var? && Keyword(sigil, ts[0].name) in m then Lit(m[Keyword(sigil, ts[0].name)]) else ts[0]]
      + SubstituteAll(sigil, ts[1..], m)
  }

  /** The loop of SubstituteText over the keys in `order`. */
  function ReplaceInOrder(text: string, m: map<string, string>, order: seq<string>): string
    requires forall k :: k in order ==> k in m
  {
    if order == [] then text
    else
      var k := order[|order| - 1];
      ReplaceAll(ReplaceInOrder(text, m, order[..|order| - 1]), k, m[k])
  }

  /** Any key counts, keyword or not, and each is replaced in what the keys before it have left. */
  lemma KeyByKey(text: string, m: map<string, string>, order: seq<string>, k: string)
    requires k in m && forall q :: q in order ==> q in m
    ensures ReplaceInOrder(text, m, []) == text
    ensures ReplaceInOrder(text, m, order + [k]) == ReplaceAll(ReplaceInOrder(text, m, order), k, m[k])
  {
    assert (order + [k])[..|order|] == order;
  }

  method SubstituteText(text: string, substituteMap: map<string, string>)
    returns (newText: string, ghost order: seq<string>)
    ensures IsOrder(order, substituteMap.Keys)
    ensures newText == ReplaceInOrder(text, substituteMap, order)
    ensures forall sigil, ts ::
              BraceFree(sigil) && Flat(ts) && PlainMap(sigil, substituteMap) && text == Render(sigil, ts) ==>
              newText == Render(sigil, SubstituteAll(sigil, ts, substituteMap))
  {
    newText, order := text, [];
    var left := substituteMap.Keys;
    while left != {}
      invariant left <= substituteMap.Keys
      invariant IsOrder(order, substituteMap.Keys - left)
      invariant newText == ReplaceInOrder(text, substituteMap, order)
      decreases left
    {
      var k :| k in left;
      assert (order + [k])[..|order|] == order;
      newText := ReplaceAll(newText, k, substituteMap[k]);
      order := order + [k];
      left := left - {k};
    }
    forall sigil, ts | BraceFree(sigil) && Flat(ts) && PlainMap(sigil, substituteMap) && text == Render(sigil, ts)
      ensures newText == Render(sigil, SubstituteAll(sigil, ts, substituteMap))
    {
      PlainValues(sigil, ts, substituteMap, order);
    }
  }

  // ---- One ReplaceAll acts on keywords only ----

  /** The first opening brace of a flat text is the one of its first keyword, so the sigil stands before it. */
  lemma {:induction false} BraceAfterSigil(sigil: string, ts: seq<Token>)
    requires BraceFree(sigil) && Flat(ts)
    ensures forall q :: 0 <= q < |sigil| && q < |Render(sigil, ts)| ==> Render(sigil, ts)[q] != '{'
  {
    if ts != [] {
      var head := TokenText(sigil, ts[0]);
      BraceAfterSigil(sigil, ts[1..]);
      if ts[0].Var? {
        assert head[..|sigil|] == sigil;
      }
    }
  }

  /** A keyword can start in front of a flat text only where its opening brace falls on one of the text before. */
  lemma NoMatchAcross(sigil: string, p: string, ts: seq<Token>, name: string, i: nat)
    requires BraceFree(sigil) && Flat(ts) && i < |p|
    requires i + |sigil| < |p| ==> p[i + |sigil|] != '{'
    ensures !(Keyword(sigil, name) <= (p + Render(sigil, ts))[i..])
  {
    var rest := Render(sigil, ts);
    var s := (p + rest)[i..];
    var key := Keyword(sigil, name);
    if key <= s {
      assert key[|sigil|] == '{';
      assert s[|sigil|] == (p + rest)[i + |sigil|];
      BraceAfterSigil(sigil, ts);
      assert false;
    }
  }

  lemma OtherKeyword(sigil: string, name: string, other: string, rest: string)
    requires BraceFree(name) && BraceFree(other) && name != other
    ensures !(Keyword(sigil, name) <= Keyword(sigil, other) + rest)
  {
    var key, s := Keyword(sigil, name), Keyword(sigil, other) + rest;
    var n := |sigil| + 1;
    assert key[n..n + |name|] == name && key[n + |name|] == '}';
    assert s[n..n + |other|] == other && s[n + |other|] == '}';
    assert forall j :: 0 <= j < |name| ==> name[j] == key[n + j];
    assert forall j :: 0 <= j < |other| ==> other[j] == s[n + j];
  }

  /** Replacing one keyword replaces the tokens that are this keyword and touches nothing else. */
  lemma {:induction false} ReplaceKeyword(sigil: string, ts: seq<Token>, name: string, value: seq<Token>)
    requires BraceFree(sigil) && Flat(ts) && BraceFree(name)
    ensures ReplaceAll(Render(sigil, ts), Keyword(sigil, name), Render(sigil, value))
         == Render(sigil, Splice(ts, name, value))
  {
    var key, text := Keyword(sigil, name), Render(sigil, value);
    if ts == [] {
      ReplaceShort("", key, text);
    } else {
      var head, rest := TokenText(sigil, ts[0]), Render(sigil, ts[1..]);
      ReplaceKeyword(sigil, ts[1..], name, value);
      if ts[0] == Var(name) {
        ReplaceHit(rest, key, text);
        RenderConcat(sigil, value, Splice(ts[1..], name, value));
      } else {
        forall i | 0 <= i < |head|
          ensures !(key <= (head + rest)[i..])
        {
          if ts[0].Var? && i == 0 {
            OtherKeyword(sigil, name, ts[0].name, rest);
            assert (head + rest)[0..] == head + rest;
          } else {
            if ts[0].Var? {
              OneBrace(sigil, ts[0].name);
            }
            NoMatchAcross(sigil, head, ts[1..], name, i);
          }
        }
        ReplaceSkip(head, rest, key, text);
        assert ([ts[0]] + Splice(ts[1..], name, value))[1..] == Splice(ts[1..], name, value);
      }
    }
  }

  lemma {:induction false} RenderConcat(sigil: string, a: seq<Token>, b: seq<Token>)
    ensures Render(sigil, a + b) == Render(sigil, a) + Render(sigil, b)
  {
    if a == [] {
      assert a + b == b;
    } else {
      assert (a + b)[1..] == a[1..] + b;
      RenderConcat(sigil, a[1..], b);
      Regroup(TokenText(sigil, a[0]), Render(sigil, a[1..]), Render(sigil, b));
    }
  }

  lemma OneBrace(sigil: string, name: string)
    requires BraceFree(sigil) && BraceFree(name)
    ensures forall i :: 0 <= i < |Keyword(sigil, name)| && i != |sigil| ==> Keyword(sigil, name)[i] != '{'
  {
    var key := Keyword(sigil, name);
    assert key[..|sigil|] == sigil && key[|sigil| + 1..|key| - 1] == name;
    forall i | 0 <= i < |key| && i != |sigil|
      ensures key[i] != '{'
    {
      if |sigil| < i < |key| - 1 {
        assert key[i] == name[i - |sigil| - 1];
      }
    }
  }

  // ---- Without clashes all orders give the same text ----

  /** The text with the keywords in `done` replaced by their values. */
  function Expand(sigil: string, ts: seq<Token>, values: map<string, seq<Token>>, done: set<string>): seq<Token> {
    if ts == [] then []
    else (if ts[0].Var? && Keyword(sigil, ts[0].name) in done && ts[0].name in values
          then values[ts[0].name] else [ts[0]])
         + Expand(sigil, ts[1..], values, done)
  }

  lemma {:induction false} SpliceConcat(a: seq<Token>, b: seq<Token>, name: string, value: seq<Token>)
    ensures Splice(a + b, name, value) == Splice(a, name, value) + Splice(b, name, value)
  {
    if a == [] {
      assert a + b == b;
    } else {
      assert (a + b)[1..] == a[1..] + b;
      SpliceConcat(a[1..], b, name, value);
    }
  }

  /** Replacing a keyword that is not there, or that stands for itself, changes nothing. */
  lemma {:induction false} SpliceSame(sigil: string, ts: seq<Token>, name: string, value: seq<Token>)
    requires Var(name) in ts ==> Render(sigil, value) == Keyword(sigil, name)
    ensures Render(sigil, Splice(ts, name, value)) == Render(sigil, ts)
  {
    if ts != [] {
      assert forall t :: t in ts[1..] ==> t in ts;
      SpliceSame(sigil, ts[1..], name, value);
      var head := if ts[0] == Var(name) then value else [ts[0]];
      RenderConcat(sigil, head, Splice(ts[1..], name, value));
      RenderOne(sigil, ts[0]);
    }
  }

  lemma RenderOne(sigil: string, t: Token)
    ensures Render(sigil, [t]) == TokenText(sigil, t)
  {
    assert Render(sigil, [t][1..]) == "";
  }

  lemma KeywordInjective(sigil: string, a: string, b: string)
    ensures Keyword(sigil, a) == Keyword(sigil, b) <==> a == b
  {
    assert NameOf(sigil, Keyword(sigil, a)) == a && NameOf(sigil, Keyword(sigil, b)) == b;
  }

  /** One more keyword, among those that are replaced already. */
  lemma {:induction false} ExpandStep(sigil: string, ts: seq<Token>, values: map<string, seq<Token>>,
                                      done: set<string>, k: string)
    requires k in values && Keyword(sigil, k) !in done && NoClash(sigil, ts, values)
    ensures Render(sigil, Splice(Expand(sigil, ts, values, done), k, values[k]))
         == Render(sigil, Expand(sigil, ts, values, done + {Keyword(sigil, k)}))
  {
    if ts != [] {
      var t, rest := ts[0], ts[1..];
      assert forall a, b :: Clash(sigil, rest, values, a, b) ==> Clash(sigil, ts, values, a, b);
      ExpandStep(sigil, rest, values, done, k);
      var more := done + {Keyword(sigil, k)};
      var head := if t.Var? && Keyword(sigil, t.name) in done && t.name in values then values[t.name] else [t];
      var next := if t.Var? && Keyword(sigil, t.name) in more && t.name in values then values[t.name] else [t];
      SpliceConcat(head, Expand(sigil, rest, values, done), k, values[k]);
      RenderConcat(sigil, Splice(head, k, values[k]), Splice(Expand(sigil, rest, values, done), k, values[k]));
      RenderConcat(sigil, next, Expand(sigil, rest, values, more));
      HeadStep(sigil, ts, values, done, k);
    }
  }

  lemma HeadStep(sigil: string, ts: seq<Token>, values: map<string, seq<Token>>, done: set<string>, k: string)
    requires ts != [] && k in values && Keyword(sigil, k) !in done && NoClash(sigil, ts, values)
    ensures var t, more := ts[0], done + {Keyword(sigil, k)};
            var head := if t.Var? && Keyword(sigil, t.name) in done && t.name in values then values[t.name] else [t];
            var next := if t.Var? && Keyword(sigil, t.name) in more && t.name in values then values[t.name] else [t];
            Render(sigil, Splice(head, k, values[k])) == Render(sigil, next)
  {
    var t := ts[0];
    if t == Var(k) {
      assert [t][1..] == [] && Splice([t], k, values[k]) == values[k];
    } else if t.Var? && Keyword(sigil, t.name) in done && t.name in values {
      assert !Clash(sigil, ts, values, t.name, k);
      SpliceSame(sigil, values[t.name], k, values[k]);
    } else {
      if t.Var? {
        KeywordInjective(sigil, t.name, k);
      }
      SpliceSame(sigil, [t], k, values[k]);
    }
  }

  lemma {:induction false} ExpandNothing(sigil: string, ts: seq<Token>, values: map<string, seq<Token>>)
    ensures Expand(sigil, ts, values, {}) == ts
  {
    if ts != [] {
      ExpandNothing(sigil, ts[1..], values);
    }
  }

  lemma {:induction false} ExpandFlat(sigil: string, ts: seq<Token>, values: map<string, seq<Token>>, done: set<string>)
    requires Flat(ts) && forall n :: n in values ==> Flat(values[n])
    ensures Flat(Expand(sigil, ts, values, done))
  {
    if ts != [] {
      ExpandFlat(sigil, ts[1..], values, done);
    }
  }

  lemma {:induction false} ExpandAll(sigil: string, ts: seq<Token>, m: map<string, string>,
                                     values: map<string, seq<Token>>)
    requires Represents(sigil, m, values)
    ensures Render(sigil, Expand(sigil, ts, values, m.Keys)) == Render(sigil, SubstituteAll(sigil, ts, m))
  {
    if ts != [] {
      var t, rest := ts[0], ts[1..];
      ExpandAll(sigil, rest, m, values);
      var head := if t.Var? && Keyword(sigil, t.name) in m.Keys && t.name in values then values[t.name] else [t];
      RenderConcat(sigil, head, Expand(sigil, rest, values, m.Keys));
      RenderOne(sigil, t);
      if t.Var? && Keyword(sigil, t.name) in m {
        assert NameOf(sigil, Keyword(sigil, t.name)) == t.name;
      }
      assert SubstituteAll(sigil, ts, m)[1..] == SubstituteAll(sigil, rest, m);
    }
  }

  lemma {:induction false} PrefixOfOrder(sigil: string, ts: seq<Token>, m: map<string, string>,
                                         values: map<string, seq<Token>>, order: seq<string>)
    requires BraceFree(sigil) && Flat(ts) && Represents(sigil, m, values) && NoClash(sigil, ts, values)
    requires Distinct(order) && forall k :: k in order ==> k in m
    ensures ReplaceInOrder(Render(sigil, ts), m, order) == Render(sigil, Expand(sigil, ts, values, set k | k in order))
  {
    if order == [] {
      assert (set k | k in order) == {};
      ExpandNothing(sigil, ts, values);
    } else {
      var front, k := order[..|order| - 1], order[|order| - 1];
      assert order == front + [k] && k in order;
      OrderPrefix(front, k);
      PrefixOfOrder(sigil, ts, m, values, front);
      var done := set q | q in front;
      var name := NameOf(sigil, k);
      ExpandFlat(sigil, ts, values, done);
      ReplaceKeyword(sigil, Expand(sigil, ts, values, done), name, values[name]);
      ExpandStep(sigil, ts, values, done, name);
      assert (set q | q in order) == done + {k};
    }
  }

  /** For a flat text and flat values without clashes, every iteration order gives the one simultaneous substitution;
      a keyword that is not in the map is left unchanged. */
  lemma OrderIndependent(sigil: string, ts: seq<Token>, m: map<string, string>, values: map<string, seq<Token>>,
                         order: seq<string>)
    requires BraceFree(sigil) && Flat(ts) && Represents(sigil, m, values) && NoClash(sigil, ts, values)
    requires IsOrder(order, m.Keys)
    ensures ReplaceInOrder(Render(sigil, ts), m, order) == Render(sigil, SubstituteAll(sigil, ts, m))
  {
    PrefixOfOrder(sigil, ts, m, values, order);
    assert (set k | k in order) == m.Keys;
    ExpandAll(sigil, ts, m, values);
  }

  /** In particular when no value holds an opening brace. */
  lemma PlainValues(sigil: string, ts: seq<Token>, m: map<string, string>, order: seq<string>)
    requires BraceFree(sigil) && Flat(ts) && PlainMap(sigil, m)
    requires IsOrder(order, m.Keys)
    ensures ReplaceInOrder(Render(sigil, ts), m, order) == Render(sigil, SubstituteAll(sigil, ts, m))
  {
    var names := set k | k in m :: NameOf(sigil, k);
    var values := map n | n in names :: [Lit(m[Keyword(sigil, n)])];
    forall n | n in names
      ensures Render(sigil, values[n]) == m[Keyword(sigil, n)]
    {
      RenderOne(sigil, Lit(m[Keyword(sigil, n)]));
    }
    OrderIndependent(sigil, ts, m, values, order);
  }

  /** A text whose keywords are all unknown comes back as it is. */
  lemma {:induction false} UnknownKeywordsStay(sigil: string, ts: seq<Token>, m: map<string, string>,
                                               order: seq<string>)
    requires BraceFree(sigil) && Flat(ts) && PlainMap(sigil, m)
    requires IsOrder(order, m.Keys)
    requires forall i :: 0 <= i < |ts| && ts[i].Var? ==> Keyword(sigil, ts[i].name) !in m
    ensures ReplaceInOrder(Render(sigil, ts), m, order) == Render(sigil, ts)
  {
    PlainValues(sigil, ts, m, order);
    assert SubstituteAll(sigil, ts, m) == ts;
  }

  /** Nested braces: "{{a}}" with a -> b and b -> c gives "c" in one order and "{b}" in the other. */
  lemma NestedBracesDependOnOrder()
    ensures var m := map["{a}" := "b", "{b}" := "c"];
            && IsOrder(["{a}", "{b}"], m.Keys) && IsOrder(["{b}", "{a}"], m.Keys)
            && ReplaceInOrder("{{a}}", m, ["{a}", "{b}"]) == "c"
            && ReplaceInOrder("{{a}}", m, ["{b}", "{a}"]) == "{b}"
  {
    var m := map["{a}" := "b", "{b}" := "c"];
    FirstA();
    ReplaceHit("", "{b}", "c");
    assert ReplaceAll("{b}", "{b}", "c") == "c";
    NoB();
    assert ["{a}", "{b}"][..1] == ["{a}"] && ["{b}", "{a}"][..1] == ["{b}"];
    assert ReplaceInOrder("{{a}}", m, []) == "{{a}}";
    assert ReplaceInOrder("{{a}}", m, ["{a}"]) == "{b}";
    assert ReplaceInOrder("{{a}}", m, ["{b}"]) == "{{a}}";
  }

  lemma FirstA()
    ensures ReplaceAll("{{a}}", "{a}", "b") == "{b}"
  {
    assert "{{a}}" == "{" + ("{a}" + "}");
    ReplaceHit("}", "{a}", "b");
    assert ("{" + ("{a}" + "}"))[0..][1] == '{';
    ReplaceSkip("{", "{a}" + "}", "{a}", "b");
  }

  lemma NoB()
    ensures ReplaceAll("{{a}}", "{b}", "c") == "{{a}}"
  {
    var s := "{{a}}";
    forall i | 0 <= i < |s|
      ensures !("{b}" <= (s + "")[i..])
    {
      assert (s + "")[i..] == s[i..];
      assert |s[i..]| > 1 ==> s[i..][1] == s[i + 1];
    }
    ReplaceSkip(s, "", "{b}", "c");
    assert s + "" == s;
  }
}
