/** The two functions of Go's `strings` package that the library leans on, `strings.Split` for a
    one-character separator and `strings.ReplaceAll`, with the facts every text format below needs.
 */
module Text {

  /** Position of the first `c` in `s`, or `|s|` when there is none. */
  function Index(s: string, c: char): (i: nat)
    ensures i <= |s|
    ensures forall k :: 0 <= k < i ==> s[k] != c
    ensures i < |s| ==> s[i] == c
  {
    if s == "" || s[0] == c then 0 else 1 + Index(s[1..], c)
  }

  function Join(parts: seq<string>, sep: char): string {
    if parts == [] then ""
    else if |parts| == 1 then parts[0]
    else parts[0] + [sep] + Join(parts[1..], sep)
  }

  predicate AllFree(parts: seq<string>, c: char) {
    forall i :: 0 <= i < |parts| ==> c !in parts[i]
  }

  /** strings.Split(s, sep): together with `SplitUnique` the contract says that the result is the only
      way to write `s` as separator-free parts joined by the separator. */
  function Split(s: string, sep: char): (parts: seq<string>)
    ensures |parts| >= 1
    ensures AllFree(parts, sep)
    ensures Join(parts, sep) == s
    decreases |s|
  {
    var i := Index(s, sep);
    if i == |s| then
      [s]
    else
      var rest := Split(s[i + 1..], sep);
      assert ([s[..i]] + rest)[1..] == rest;
      assert s == s[..i] + [sep] + s[i + 1..];
      [s[..i]] + rest
  }

  lemma IndexAfter(a: string, sep: char, b: string)
    requires sep !in a
    ensures Index(a + [sep] + b, sep) == |a|
  {
    var s := a + [sep] + b;
    var i := Index(s, sep);
    assert forall k :: 0 <= k < |a| ==> s[k] == a[k];
    assert s[|a|] == sep;
  }

  lemma {:induction false} SplitUnique(parts: seq<string>, sep: char)
    requires parts != [] && AllFree(parts, sep)
    ensures Split(Join(parts, sep), sep) == parts
  {
    var s := Join(parts, sep);
    if |parts| == 1 {
      assert sep !in s;
    } else {
      var rest := Join(parts[1..], sep);
      IndexAfter(parts[0], sep, rest);
      assert s[..|parts[0]|] == parts[0] && s[|parts[0]| + 1..] == rest;
      SplitUnique(parts[1..], sep);
    }
  }

  lemma {:induction false} JoinConcat(p: seq<string>, q: seq<string>, sep: char)
    requires p != [] && q != []
    ensures Join(p + q, sep) == Join(p, sep) + [sep] + Join(q, sep)
  {
    if |p| == 1 {
      assert (p + q)[1..] == q;
    } else {
      assert (p + q)[1..] == p[1..] + q;
      JoinConcat(p[1..], q, sep);
    }
  }

  /** Splitting distributes over a separator, whatever stands on its two sides. */
  lemma {:induction false} SplitConcat(a: string, b: string, sep: char)
    ensures Split(a + [sep] + b, sep) == Split(a, sep) + Split(b, sep)
  {
    var p, q := Split(a, sep), Split(b, sep);
    JoinConcat(p, q, sep);
    assert Join(p + q, sep) == a + [sep] + b;
    SplitUnique(p + q, sep);
  }

  lemma SplitFree(s: string, sep: char)
    requires sep !in s
    ensures Split(s, sep) == [s]
  {
    SplitUnique([s], sep);
  }

  /** A text is one part exactly when it has no separator; otherwise the first part is shorter than the text. */
  lemma SplitHead(s: string, sep: char)
    ensures Split(s, sep)[0] == s <==> sep !in s
    ensures |Split(s, sep)| == 1 <==> sep !in s
  {
    if sep !in s {
      SplitFree(s, sep);
    }
  }

  /** Go's strings.ReplaceAll: leftmost matches, no overlap, replaced text is not scanned again.
      An empty `old` matches before every character and at the end. */
  function ReplaceAll(s: string, old_: string, new_: string): string
    decreases |s|
  {
    if old_ == "" then
      if s == "" then new_ else new_ + [s[0]] + ReplaceAll(s[1..], old_, new_)
    else if |s| < |old_| then s
    else if old_ <= s then new_ + ReplaceAll(s[|old_|..], old_, new_)
    else [s[0]] + ReplaceAll(s[1..], old_, new_)
  }

  lemma ReplaceHit(s: string, old_: string, new_: string)
    requires old_ != ""
    ensures ReplaceAll(old_ + s, old_, new_) == new_ + ReplaceAll(s, old_, new_)
  {
    assert (old_ + s)[|old_|..] == s;
  }

  lemma ReplaceMiss(c: char, s: string, old_: string, new_: string)
    requires old_ != "" && !(old_ <= [c] + s)
    ensures ReplaceAll([c] + s, old_, new_) == [c] + ReplaceAll(s, old_, new_)
  {
    assert ([c] + s)[1..] == s;
    if |s| + 1 < |old_| {
      ReplaceShort(s, old_, new_);
    }
  }

  /** Text in which no match starts is copied. */
  lemma {:induction false} ReplaceSkip(p: string, s: string, old_: string, new_: string)
    requires old_ != ""
    requires forall i :: 0 <= i < |p| ==> !(old_ <= (p + s)[i..])
    ensures ReplaceAll(p + s, old_, new_) == p + ReplaceAll(s, old_, new_)
  {
    if p == "" {
      assert p + s == s;
    } else {
      var c, q := p[0], p[1..];
      Regroup([c], q, s);
      assert p == [c] + q;
      assert (p + s)[0..] == p + s;
      forall i | 0 <= i < |q|
        ensures !(old_ <= (q + s)[i..])
      {
        assert (q + s)[i..] == (p + s)[i + 1..];
      }
      ReplaceSkip(q, s, old_, new_);
      ReplaceMiss(c, q + s, old_, new_);
      Regroup([c], q, ReplaceAll(s, old_, new_));
    }
  }

  lemma Regroup<T>(a: seq<T>, b: seq<T>, c: seq<T>)
    ensures (a + b) + c == a + (b + c)
  {
  }

  lemma ReplaceShort(s: string, old_: string, new_: string)
    requires |s| < |old_|
    ensures ReplaceAll(s, old_, new_) == s
  {
  }

  /** With an empty `old`, the new text stands before every character and at the end. */
  lemma {:induction false} ReplaceNothing(s: string, c: char, new_: string)
    ensures ReplaceAll("", "", new_) == new_
    ensures ReplaceAll(s + [c], "", new_) == ReplaceAll(s, "", new_) + [c] + new_
  {
    if s == "" {
      assert s + [c] == [c] && [c][1..] == "";
    } else {
      assert (s + [c])[1..] == s[1..] + [c];
      ReplaceNothing(s[1..], c, new_);
    }
  }

  /** Text that does not hold the first character of `old` is copied. */
  lemma ReplaceSkipFirst(p: string, s: string, old_: string, new_: string)
    requires old_ != "" && old_[0] !in p
    ensures ReplaceAll(p + s, old_, new_) == p + ReplaceAll(s, old_, new_)
  {
    forall i | 0 <= i < |p|
      ensures !(old_ <= (p + s)[i..])
    {
      assert (p + s)[i..][0] == p[i];
    }
    ReplaceSkip(p, s, old_, new_);
  }

  function Glue(parts: seq<string>, glue: string): string {
    if parts == [] then ""
    else if |parts| == 1 then parts[0]
    else parts[0] + glue + Glue(parts[1..], glue)
  }

  lemma GlueCons(head: string, parts: seq<string>, glue: string)
    requires parts != []
    ensures Glue([head] + parts, glue) == head + (glue + Glue(parts, glue))
  {
    assert ([head] + parts)[1..] == parts;
  }

  /** ReplaceAll and Split agree: replacing one character is splitting at it and gluing the parts again. */
  lemma {:induction false} ReplaceIsSplitAndGlue(s: string, c: char, new_: string)
    ensures ReplaceAll(s, [c], new_) == Glue(Split(s, c), new_)
    decreases |s|
  {
    var i := Index(s, c);
    var old_ := [c];
    if i == |s| {
      assert s == s + "";
      ReplaceSkipFirst(s, "", old_, new_);
      ReplaceShort("", old_, new_);
      SplitFree(s, c);
    } else {
      var head, rest := s[..i], s[i + 1..];
      assert s == head + (old_ + rest);
      ReplaceSkipFirst(head, old_ + rest, old_, new_);
      ReplaceHit(rest, old_, new_);
      ReplaceIsSplitAndGlue(rest, c, new_);
      assert Split(s, c) == [head] + Split(rest, c);
      GlueCons(head, Split(rest, c), new_);
    }
  }

  /** strings.ToLower on the characters it can map to the ASCII words compared against. */
  function ToLower(s: string): (r: string)
    ensures |r| == |s|
    ensures forall i :: 0 <= i < |s| ==> r[i] == if 'A' <= s[i] <= 'Z' then s[i] - 'A' + 'a' else s[i]
  {
    if s == "" then ""
    else [if 'A' <= s[0] <= 'Z' then s[0] - 'A' + 'a' else s[0]] + ToLower(s[1..])
  }
}
