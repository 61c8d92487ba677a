/** MQTT topics of the thing protocol binding, and the topic matching of MQTT 3.1.1 section 4.7. */
module Topics {
  import opened Text

  const TOPIC_TYPE_TD := "td"
  const TOPIC_TYPE_EVENT := "event"
  const TOPIC_TYPE_ACTION := "action"

  const THING_ID := "{thingID}"

  /** The topic templates TopicThingTD, TopicEmitEvent and TopicInvokeAction. */
  function Template(topicType: string): string {
    "things/" + THING_ID + "/" + topicType
  }

  function ThingTopic(topicType: string, thingID: string): string {
    ReplaceAll(Template(topicType), THING_ID, thingID)
  }

  function TDTopic(thingID: string): string {
    ThingTopic(TOPIC_TYPE_TD, thingID)
  }

  function EventTopic(thingID: string, name: string): string {
    ThingTopic(TOPIC_TYPE_EVENT, thingID) + "/" + name
  }

  function EventFilter(thingID: string): string {
    ThingTopic(TOPIC_TYPE_EVENT, thingID) + "/" + "#"
  }

  function ActionTopic(thingID: string, name: string): string {
    ThingTopic(TOPIC_TYPE_ACTION, thingID) + "/" + name
  }

  function ActionFilter(thingID: string): string {
    ThingTopic(TOPIC_TYPE_ACTION, thingID) + "/" + "#"
  }

  function CreateTopic(thingID: string, topicMessageType: string): string {
    "things/" + (if thingID == "" then "+" else thingID) + "/" + topicMessageType
  }

  datatype TopicParts = TopicParts(thingID: string, topicType: string, subject: string)

  function SplitTopic(topic: string): TopicParts {
    var parts := Split(topic, '/');
    if |parts| < 2 then TopicParts("", "", "")
    else TopicParts(parts[1], if |parts| > 2 then parts[2] else "", if |parts| > 3 then parts[3] else "")
  }

  datatype Name = Named(name: string) | NoName

  /** The name that the consumed thing binding reads from an event topic. */
  function EventName(topic: string): Name {
    var parts := Split(topic, '/');
    if |parts| < 4 then NoName else Named(parts[3])
  }

  /** The name that the exposed thing binding reads from a request topic. */
  function RequestName(topic: string): Name {
    var p := SplitTopic(topic);
    if p.thingID == "" || p.topicType == "" then NoName else Named(p.subject)
  }

  // ---- Topic matching ----

  predicate HasWildcard(level: string) {
    '+' in level || '#' in level
  }

  /** A wildcard fills its whole level and '#' is the last level; a broker refuses any other filter. */
  predicate ValidFilter(levels: seq<string>) {
    forall i :: 0 <= i < |levels| ==>
      !HasWildcard(levels[i]) || levels[i] == "+" || (levels[i] == "#" && i == |levels| - 1)
  }

  /** '#' also matches the parent level, so the filter "a/#" matches the topic "a". */
  predicate MatchLevels(filter: seq<string>, topic: seq<string>) {
    if filter == [] then topic == []
    else if filter == ["#"] then true
    else topic != [] && (filter[0] == "+" || filter[0] == topic[0]) && MatchLevels(filter[1..], topic[1..])
  }

  predicate Matches(filter: string, topic: string) {
    ValidFilter(Split(filter, '/')) && MatchLevels(Split(filter, '/'), Split(topic, '/'))
  }

  /** The rule level by level, for any filter and topic. */
  lemma {:induction false} MatchLevelsExactly(f: seq<string>, t: seq<string>)
    requires forall i :: 0 <= i < |f| - 1 ==> f[i] != "#"
    ensures MatchLevels(f, t)
        <==> var n := if f != [] && f[|f| - 1] == "#" then |f| - 1 else |f|;
             && (if n == |f| then |t| == n else |t| >= n)
             && forall i :: 0 <= i < n ==> f[i] == "+" || f[i] == t[i]
  {
    if f != [] && f != ["#"] && t != [] {
      MatchLevelsExactly(f[1..], t[1..]);
      var n := if f[|f| - 1] == "#" then |f| - 1 else |f|;
      if MatchLevels(f[1..], t[1..]) && (f[0] == "+" || f[0] == t[0]) {
        forall i | 0 <= i < n
          ensures f[i] == "+" || f[i] == t[i]
        {
          assert i > 0 ==> f[i] == f[1..][i - 1] && t[i] == t[1..][i - 1];
        }
      }
      if |t| >= n && forall i :: 0 <= i < n ==> f[i] == "+" || f[i] == t[i] {
        assert forall i :: 0 <= i < n - 1 ==> f[1..][i] == f[i + 1] && t[1..][i] == t[i + 1];
      }
    }
  }

  lemma {:induction false} LevelsMatchExactly(f: seq<string>, t: seq<string>, n: nat)
    requires f != [] && n == if f[|f| - 1] == "#" then |f| - 1 else |f|
    ensures ValidFilter(f) && MatchLevels(f, t)
        <==> && (forall i :: 0 <= i < n ==> ('+' in f[i] ==> f[i] == "+") && '#' !in f[i])
             && (if n == |f| then |t| == n else |t| >= n)
             && forall i :: 0 <= i < n ==> f[i] == "+" || f[i] == t[i]
  {
    ValidLevels(f, n);
    if ValidFilter(f) {
      assert '#' in "#";
      assert forall i :: 0 <= i < |f| - 1 ==> f[i] != "#";
      MatchLevelsExactly(f, t);
    }
  }

  /** Which topics a filter matches: wildcards fill whole levels, '+' stands for one level, a '#' at the end for any
      number of further levels, and everything else for itself. */
  lemma {:induction false} MatchesExactly(filter: string, topic: string)
    ensures Matches(filter, topic)
        <==> var f, t := Split(filter, '/'), Split(topic, '/');
             var n := if f[|f| - 1] == "#" then |f| - 1 else |f|;
             && (forall i :: 0 <= i < n ==> ('+' in f[i] ==> f[i] == "+") && '#' !in f[i])
             && (if n == |f| then |t| == n else |t| >= n)
             && forall i :: 0 <= i < n ==> f[i] == "+" || f[i] == t[i]
  {
    var f := Split(filter, '/');
    LevelsMatchExactly(f, Split(topic, '/'), if f[|f| - 1] == "#" then |f| - 1 else |f|);
  }

  lemma ValidLevels(f: seq<string>, n: nat)
    requires f != [] && n == if f[|f| - 1] == "#" then |f| - 1 else |f|
    ensures ValidFilter(f) <==> forall i :: 0 <= i < n ==> ('+' in f[i] ==> f[i] == "+") && '#' !in f[i]
  {
    assert '#' !in "+" && '+' !in "#" && '#' in "#" && '+' in "+";
    if ValidFilter(f) {
      forall i | 0 <= i < n
        ensures ('+' in f[i] ==> f[i] == "+") && '#' !in f[i]
      {
        assert !HasWildcard(f[i]) || f[i] == "+";
      }
    }
  }

  /** A filter without wildcards matches itself only. */
  lemma {:induction false} PlainFilterMatches(filter: string, topic: string)
    requires '+' !in filter && '#' !in filter
    ensures Matches(filter, topic) <==> topic == filter
  {
    var f, t := Split(filter, '/'), Split(topic, '/');
    forall i | 0 <= i < |f|
      ensures '+' !in f[i] && '#' !in f[i]
    {
      PartOfJoin(f, '/', i);
    }
    assert '#' in "#" && '+' in "+";
    MatchesExactly(filter, topic);
    assert f == t ==> Join(f, '/') == Join(t, '/');
  }

  /** What is read from a topic: the levels after the first, as far as there are any. */
  lemma SplitTopicExactly(topic: string)
    ensures var levels, p := Split(topic, '/'), SplitTopic(topic);
            && p.thingID == (if |levels| >= 2 then levels[1] else "")
            && p.topicType == (if |levels| >= 3 then levels[2] else "")
            && p.subject == (if |levels| >= 4 then levels[3] else "")
            && EventName(topic) == (if |levels| >= 4 then Named(levels[3]) else NoName)
            && RequestName(topic) == (if |levels| >= 3 && levels[1] != "" && levels[2] != "" then Named(p.subject)
                                      else NoName)
  {
  }

  /** So the topics in use are read back, for an ID and a name without '/'. */
  lemma {:induction false} TopicsReadBack(thingID: string, name: string)
    requires '/' !in thingID && '/' !in name
    ensures SplitTopic("things/" + thingID + "/td") == TopicParts(thingID, "td", "")
    ensures SplitTopic("things/" + thingID + "/event/" + name) == TopicParts(thingID, "event", name)
    ensures SplitTopic("things/" + thingID + "/action/" + name) == TopicParts(thingID, "action", name)
  {
    TypesPlain();
    TopicTexts(thingID, name);
    SplitFree(thingID, '/');
    SplitFree(name, '/');
    Levels(TOPIC_TYPE_TD, thingID, name);
    Levels(TOPIC_TYPE_EVENT, thingID, name);
    Levels(TOPIC_TYPE_ACTION, thingID, name);
  }

  // ---- What the templates build ----

  /** A topic type without an opening brace or a level separator, as the three in use. */
  predicate PlainType(topicType: string) {
    '{' !in topicType && '/' !in topicType && !HasWildcard(topicType)
  }

  lemma ReplaceHole(before: string, hole: string, after: string, value: string)
    requires hole != "" && hole[0] !in before && hole[0] !in after
    ensures ReplaceAll(before + hole + after, hole, value) == before + value + after
  {
    assert before + hole + after == before + (hole + after);
    ReplaceSkipFirst(before, hole + after, hole, value);
    ReplaceHit(after, hole, value);
    assert after == after + "";
    ReplaceSkipFirst(after, "", hole, value);
    ReplaceShort("", hole, value);
  }

  lemma TopicText(topicType: string, thingID: string)
    requires PlainType(topicType)
    ensures ThingTopic(topicType, thingID) == "things/" + thingID + "/" + topicType
  {
    var after := "/" + topicType;
    assert Template(topicType) == "things/" + THING_ID + after;
    ReplaceHole("things/", THING_ID, after, thingID);
    assert "things/" + thingID + "/" + topicType == "things/" + thingID + after;
  }

  /** The topics and filters in use, for any ID and name. */
  lemma TopicTexts(thingID: string, name: string)
    ensures TDTopic(thingID) == "things/" + thingID + "/td"
    ensures EventTopic(thingID, name) == "things/" + thingID + "/event/" + name
    ensures ActionTopic(thingID, name) == "things/" + thingID + "/action/" + name
    ensures EventFilter(thingID) == "things/" + thingID + "/event/#"
    ensures ActionFilter(thingID) == "things/" + thingID + "/action/#"
    ensures CreateTopic("", name) == "things/+/" + name
    ensures thingID != "" ==> CreateTopic(thingID, name) == "things/" + thingID + "/" + name
  {
    TypesPlain();
    TopicText(TOPIC_TYPE_TD, thingID);
    TopicText(TOPIC_TYPE_EVENT, thingID);
    TopicText(TOPIC_TYPE_ACTION, thingID);
    assert "/" + "td" == "/td" && "/" + "event" + "/" == "/event/" && "/" + "action" + "/" == "/action/";
    assert "/event/" + "#" == "/event/#" && "/action/" + "#" == "/action/#";
    assert "things/" + "+" + "/" == "things/+/";
  }

  lemma SplitPrefix(thingID: string, topicType: string)
    ensures Split("things/" + thingID + "/" + topicType, '/')
         == ["things"] + Split(thingID, '/') + Split(topicType, '/')
  {
    var a := "things" + ['/'] + thingID;
    assert "things/" + thingID + "/" + topicType == a + ['/'] + topicType;
    SplitFree("things", '/');
    SplitConcat("things", thingID, '/');
    SplitConcat(a, topicType, '/');
  }

  /** Levels of the topics of a thing, whatever its ID. */
  lemma Levels(topicType: string, thingID: string, rest: string)
    requires PlainType(topicType)
    ensures Split(ThingTopic(topicType, thingID), '/') == ["things"] + Split(thingID, '/') + [topicType]
    ensures Split(ThingTopic(topicType, thingID) + "/" + rest, '/')
         == ["things"] + Split(thingID, '/') + [topicType] + Split(rest, '/')
  {
    TopicText(topicType, thingID);
    SplitPrefix(thingID, topicType);
    SplitFree(topicType, '/');
    SplitConcat(ThingTopic(topicType, thingID), rest, '/');
  }

  // ---- Which topics a thing's filter matches ----

  /** The levels `f` match the first levels of `t`. */
  predicate MatchPrefix(f: seq<string>, t: seq<string>) {
    |f| <= |t| && forall i :: 0 <= i < |f| ==> f[i] == "+" || f[i] == t[i]
  }

  lemma {:induction false} MatchHash(f: seq<string>, t: seq<string>)
    ensures MatchLevels(f + ["#"], t) <==> MatchPrefix(f, t)
  {
    if f == [] {
      assert f + ["#"] == ["#"];
    } else {
      assert (f + ["#"])[1..] == f[1..] + ["#"];
      if t != [] {
        MatchHash(f[1..], t[1..]);
        assert MatchPrefix(f, t) <==> (f[0] == "+" || f[0] == t[0]) && MatchPrefix(f[1..], t[1..]) by {
          MatchPrefixHead(f, t);
        }
      }
    }
  }

  lemma MatchPrefixHead(f: seq<string>, t: seq<string>)
    requires f != [] && t != []
    ensures MatchPrefix(f, t) <==> (f[0] == "+" || f[0] == t[0]) && MatchPrefix(f[1..], t[1..])
  {
    if MatchPrefix(f[1..], t[1..]) && (f[0] == "+" || f[0] == t[0]) {
      forall i | 0 <= i < |f|
        ensures f[i] == "+" || f[i] == t[i]
      {
        if i > 0 {
          assert f[i] == f[1..][i - 1] && t[i] == t[1..][i - 1];
        }
      }
    }
  }

  /** An ID that a broker accepts inside a filter. */
  predicate ValidID(id: string) {
    forall i :: 0 <= i < |Split(id, '/')| ==> !HasWildcard(Split(id, '/')[i]) || Split(id, '/')[i] == "+"
  }

  lemma ValidThingFilter(levels: seq<string>, filterType: string)
    requires !HasWildcard(filterType)
    ensures ValidFilter(["things"] + levels + [filterType, "#"])
        <==> forall i :: 0 <= i < |levels| ==> !HasWildcard(levels[i]) || levels[i] == "+"
  {
    var f := ["things"] + levels + [filterType, "#"];
    assert forall i :: 0 <= i < |levels| ==> f[i + 1] == levels[i];
    assert f[0] == "things" && f[|levels| + 1] == filterType && f[|levels| + 2] == "#";
    assert !HasWildcard("things");
    if ValidFilter(f) {
      forall i | 0 <= i < |levels|
        ensures !HasWildcard(levels[i]) || levels[i] == "+"
      {
        assert f[i + 1] == levels[i];
      }
    }
  }

  lemma FilterLevels(filterType: string, filterID: string)
    requires PlainType(filterType)
    ensures var levels := Split(ThingTopic(filterType, filterID) + "/" + "#", '/');
            && levels == (["things"] + (Split(filterID, '/') + [filterType])) + ["#"]
            && (ValidFilter(levels) <==> ValidID(filterID))
  {
    var ids := Split(filterID, '/');
    Levels(filterType, filterID, "#");
    SplitFree("#", '/');
    assert (["things"] + (ids + [filterType])) + ["#"] == ["things"] + ids + [filterType] + ["#"];
    assert ["things"] + ids + [filterType, "#"] == ["things"] + ids + [filterType] + ["#"];
    ValidThingFilter(ids, filterType);
  }

  lemma MatchThingFilter(filterType: string, filterID: string, topic: string, levels: seq<string>)
    requires PlainType(filterType) && Split(topic, '/') == ["things"] + levels
    ensures Matches(ThingTopic(filterType, filterID) + "/" + "#", topic)
        <==> ValidID(filterID) && MatchPrefix(Split(filterID, '/') + [filterType], levels)
  {
    FilterLevels(filterType, filterID);
    MatchTopic(Split(filterID, '/') + [filterType], levels);
  }

  lemma TopicLevels(topicType: string, thingID: string, name: string)
    requires PlainType(topicType)
    ensures var topic := Split(thingID, '/') + [topicType];
            && Split(ThingTopic(topicType, thingID), '/') == ["things"] + topic
            && Split(ThingTopic(topicType, thingID) + "/" + name, '/') == ["things"] + (topic + Split(name, '/'))
  {
    var id, rest := Split(thingID, '/'), Split(name, '/');
    Levels(topicType, thingID, name);
    Regroup(["things"], id, [topicType]);
    Regroup(["things"], id + [topicType], rest);
  }

  /** Exactly which messages a thing's filter matches, for all IDs and names: those whose levels after "things" begin
      with the levels of the filter's ID and its topic type. */
  lemma {:induction false} FilterExactly(filterType: string, filterID: string, topicType: string, thingID: string,
                                         name: string)
    requires PlainType(filterType) && PlainType(topicType)
    ensures var filter := Split(filterID, '/') + [filterType];
            var topic := Split(thingID, '/') + [topicType];
            && (Matches(ThingTopic(filterType, filterID) + "/" + "#", ThingTopic(topicType, thingID) + "/" + name)
                <==> ValidID(filterID) && MatchPrefix(filter, topic + Split(name, '/')))
            && (Matches(ThingTopic(filterType, filterID) + "/" + "#", ThingTopic(topicType, thingID))
                <==> ValidID(filterID) && MatchPrefix(filter, topic))
  {
    var topic := Split(thingID, '/') + [topicType];
    TopicLevels(topicType, thingID, name);
    MatchThingFilter(filterType, filterID, ThingTopic(topicType, thingID) + "/" + name, topic + Split(name, '/'));
    MatchThingFilter(filterType, filterID, ThingTopic(topicType, thingID), topic);
  }

  lemma MatchTopic(filter: seq<string>, topic: seq<string>)
    ensures MatchLevels((["things"] + filter) + ["#"], ["things"] + topic) <==> MatchPrefix(filter, topic)
  {
    var f, t := ["things"] + filter, ["things"] + topic;
    MatchHash(f, t);
    MatchPrefixHead(f, t);
    assert f[1..] == filter && t[1..] == topic;
  }

  /** Without wildcards a filter hears exactly the topics that it is a prefix of, level by level. */
  lemma {:induction false} EventsHeardExactly(filterID: string, thingID: string, name: string)
    requires !HasWildcard(filterID)
    ensures Matches(EventFilter(filterID), EventTopic(thingID, name))
        <==> Split(filterID, '/') + [TOPIC_TYPE_EVENT] <= Split(thingID, '/') + [TOPIC_TYPE_EVENT] + Split(name, '/')
  {
    TypesPlain();
    FilterExactly(TOPIC_TYPE_EVENT, filterID, TOPIC_TYPE_EVENT, thingID, name);
    PlainLevels(filterID);
    PrefixWithoutWildcards(Split(filterID, '/') + [TOPIC_TYPE_EVENT],
                           Split(thingID, '/') + [TOPIC_TYPE_EVENT] + Split(name, '/'));
  }

  lemma {:induction false} PlainLevels(id: string)
    requires !HasWildcard(id)
    ensures ValidID(id) && forall i :: 0 <= i < |Split(id, '/')| ==> !HasWildcard(Split(id, '/')[i])
  {
    var parts := Split(id, '/');
    forall i | 0 <= i < |parts|
      ensures !HasWildcard(parts[i])
    {
      PartOfJoin(parts, '/', i);
    }
  }

  lemma {:induction false} PartOfJoin(parts: seq<string>, sep: char, i: nat)
    requires i < |parts|
    ensures forall c :: c in parts[i] ==> c in Join(parts, sep)
  {
    if i > 0 {
      PartOfJoin(parts[1..], sep, i - 1);
    }
  }

  lemma PrefixWithoutWildcards(f: seq<string>, t: seq<string>)
    requires forall i :: 0 <= i < |f| ==> f[i] != "+"
    ensures MatchPrefix(f, t) <==> f <= t
  {
  }

  /** So for a name without '/', a filter hears the events of another thing exactly when the other's ID goes on from
      its own event topic, or when it is the filter whose ID goes on and the event's name is "event". */
  lemma {:induction false} LeaksExactly(filterID: string, thingID: string, name: string)
    requires !HasWildcard(filterID) && '/' !in name
    ensures var e := TOPIC_TYPE_EVENT; var f, t := Split(filterID, '/'), Split(thingID, '/');
            Matches(EventFilter(filterID), EventTopic(thingID, name))
            <==> filterID == thingID || f + [e] <= t || (f == t + [e] && name == e)
  {
    var e := TOPIC_TYPE_EVENT;
    var f, t := Split(filterID, '/'), Split(thingID, '/');
    EventsHeardExactly(filterID, thingID, name);
    SplitFree(name, '/');
    LongerPrefix(f, t, e, name);
    assert f == t ==> Join(f, '/') == Join(t, '/');
  }

  lemma LongerPrefix(f: seq<string>, t: seq<string>, e: string, name: string)
    ensures f + [e] <= t + [e] + [name] <==> f == t || f + [e] <= t || (f == t + [e] && name == e)
  {
    var a, b := f + [e], t + [e] + [name];
    if a <= b {
      assert forall i :: 0 <= i < |f| ==> f[i] == a[i] == b[i];
      assert a[|f|] == e == b[|f|];
    }
    if f + [e] <= t {
      assert t + [e] + [name] == t + [e, name];
    }
  }

  /** Which things a subscription of an ID without '/' listens to, wildcards in the ID included. */
  predicate Listens(filterID: string, thingID: string) {
    filterID == "+" || (filterID == thingID && !HasWildcard(filterID))
  }

  /** For IDs without '/' the filter of one topic type matches the topics of that type and of the things it listens to,
      with or without a name. */
  lemma {:induction false} TypeIsolation(filterID: string, filterType: string, thingID: string, topicType: string,
                                         name: string)
    requires '/' !in thingID && '/' !in filterID && PlainType(filterType) && PlainType(topicType)
    ensures Matches(ThingTopic(filterType, filterID) + "/" + "#", ThingTopic(topicType, thingID) + "/" + name)
        <==> Listens(filterID, thingID) && filterType == topicType
    ensures Matches(ThingTopic(filterType, filterID) + "/" + "#", ThingTopic(topicType, thingID))
        <==> Listens(filterID, thingID) && filterType == topicType
  {
    FilterExactly(filterType, filterID, topicType, thingID, name);
    SplitFree(filterID, '/');
    SplitFree(thingID, '/');
    TwoLevels(filterID, filterType, thingID, topicType, Split(name, '/'));
    TwoLevels(filterID, filterType, thingID, topicType, []);
    assert [thingID] + [topicType] + [] == [thingID] + [topicType];
  }

  lemma TwoLevels(filterID: string, filterType: string, thingID: string, topicType: string, rest: seq<string>)
    requires !HasWildcard(filterType)
    ensures MatchPrefix([filterID] + [filterType], [thingID] + [topicType] + rest)
        <==> (filterID == "+" || filterID == thingID) && filterType == topicType
  {
    var f, t := [filterID] + [filterType], [thingID] + [topicType] + rest;
    assert f[0] == filterID && f[1] == filterType && t[0] == thingID && t[1] == topicType;
  }

  lemma TypesPlain()
    ensures PlainType(TOPIC_TYPE_TD) && PlainType(TOPIC_TYPE_EVENT) && PlainType(TOPIC_TYPE_ACTION)
    ensures TOPIC_TYPE_TD != TOPIC_TYPE_EVENT && TOPIC_TYPE_TD != TOPIC_TYPE_ACTION
            && TOPIC_TYPE_EVENT != TOPIC_TYPE_ACTION
  {
    assert TOPIC_TYPE_EVENT[0] != TOPIC_TYPE_ACTION[0];
  }

  /** For IDs without '/': an event of one thing matches the event filter of exactly that thing (or of the
      wildcard "+"), and no action filter; a request matches exactly its own action filter, and no event
      filter; the TD topic matches neither. The name may be any text. */
  lemma TopicIsolation(thingID: string, name: string, filterID: string)
    requires '/' !in thingID && '/' !in filterID
    ensures Matches(EventFilter(filterID), EventTopic(thingID, name)) <==> Listens(filterID, thingID)
    ensures Matches(ActionFilter(filterID), ActionTopic(thingID, name)) <==> Listens(filterID, thingID)
    ensures !Matches(ActionFilter(filterID), EventTopic(thingID, name))
    ensures !Matches(EventFilter(filterID), ActionTopic(thingID, name))
    ensures !Matches(EventFilter(filterID), TDTopic(thingID))
    ensures !Matches(ActionFilter(filterID), TDTopic(thingID))
  {
    TypesPlain();
    TypeIsolation(filterID, TOPIC_TYPE_EVENT, thingID, TOPIC_TYPE_EVENT, name);
    TypeIsolation(filterID, TOPIC_TYPE_EVENT, thingID, TOPIC_TYPE_ACTION, name);
    TypeIsolation(filterID, TOPIC_TYPE_EVENT, thingID, TOPIC_TYPE_TD, name);
    TypeIsolation(filterID, TOPIC_TYPE_ACTION, thingID, TOPIC_TYPE_EVENT, name);
    TypeIsolation(filterID, TOPIC_TYPE_ACTION, thingID, TOPIC_TYPE_ACTION, name);
    TypeIsolation(filterID, TOPIC_TYPE_ACTION, thingID, TOPIC_TYPE_TD, name);
  }

  /** The parent level: a message on the bare event or action topic reaches the same filter. The event side
      drops it, the request side reads it as a request with the empty name. */
  lemma ParentLevel(thingID: string)
    requires '/' !in thingID && !HasWildcard(thingID)
    ensures Matches(EventFilter(thingID), ThingTopic(TOPIC_TYPE_EVENT, thingID))
    ensures EventName(ThingTopic(TOPIC_TYPE_EVENT, thingID)) == NoName
    ensures Matches(ActionFilter(thingID), ThingTopic(TOPIC_TYPE_ACTION, thingID))
    ensures RequestName(ThingTopic(TOPIC_TYPE_ACTION, thingID)) == if thingID == "" then NoName else Named("")
  {
    TypesPlain();
    TypeIsolation(thingID, TOPIC_TYPE_EVENT, thingID, TOPIC_TYPE_EVENT, "");
    TypeIsolation(thingID, TOPIC_TYPE_ACTION, thingID, TOPIC_TYPE_ACTION, "");
    Levels(TOPIC_TYPE_EVENT, thingID, "");
    Levels(TOPIC_TYPE_ACTION, thingID, "");
    SplitFree(thingID, '/');
  }

  /** A leak: the events of a thing whose ID goes on from the event topic of another reach that other's subscriber. */
  lemma {:induction false} SlashInIDLeaks(thingID: string, name: string)
    requires !HasWildcard(thingID)
    ensures Matches(EventFilter(thingID), EventTopic(thingID + "/" + TOPIC_TYPE_EVENT, name))
  {
    TypesPlain();
    var e := TOPIC_TYPE_EVENT;
    EventsHeardExactly(thingID, thingID + "/" + e, name);
    assert thingID + "/" + e == thingID + ['/'] + e;
    SplitConcat(thingID, e, '/');
    SplitFree(e, '/');
  }

  /** What the parsers read from a topic, for all IDs and names: the third level after "things". */
  lemma {:induction false} EventNameExactly(thingID: string, name: string)
    ensures var levels := Split(thingID, '/') + [TOPIC_TYPE_EVENT] + Split(name, '/');
            |levels| >= 3 && EventName(EventTopic(thingID, name)) == Named(levels[2])
  {
    TypesPlain();
    Levels(TOPIC_TYPE_EVENT, thingID, name);
    ThirdLevel(Split(thingID, '/'), TOPIC_TYPE_EVENT, Split(name, '/'));
  }

  lemma {:induction false} RequestNameExactly(thingID: string, name: string)
    ensures var levels := Split(thingID, '/') + [TOPIC_TYPE_ACTION] + Split(name, '/');
            && |levels| >= 3
            && RequestName(ActionTopic(thingID, name))
            == if levels[0] == "" || levels[1] == "" then NoName else Named(levels[2])
  {
    TypesPlain();
    Levels(TOPIC_TYPE_ACTION, thingID, name);
    ThirdLevel(Split(thingID, '/'), TOPIC_TYPE_ACTION, Split(name, '/'));
  }

  lemma ThirdLevel(id: seq<string>, topicType: string, name: seq<string>)
    requires id != [] && name != []
    ensures var all := ["things"] + id + [topicType] + name; var levels := id + [topicType] + name;
            |all| >= 4 && all[1] == levels[0] && all[2] == levels[1] && all[3] == levels[2]
  {
    assert ["things"] + id + [topicType] + name == ["things"] + (id + [topicType] + name);
  }

  /** Parsing gives the emitted name back for an ID without '/' exactly when the name has none either; for an ID with
      one '/' only the name "event" is read, and for longer IDs the ID's third level. */
  lemma {:induction false} EventNameRecoveredExactly(thingID: string, name: string)
    ensures EventName(EventTopic(thingID, name)) == Named(name)
        <==> var id := Split(thingID, '/');
             if |id| == 1 then '/' !in name else if |id| == 2 then name == TOPIC_TYPE_EVENT else name == id[2]
  {
    EventNameExactly(thingID, name);
    SplitHead(name, '/');
  }

  /** In particular, for an ID without '/': the name's first level, and so the name exactly when it has no '/'. */
  lemma {:induction false} EventNameRecovered(thingID: string, name: string)
    requires '/' !in thingID
    ensures EventName(EventTopic(thingID, name)) == Named(Split(name, '/')[0])
    ensures EventName(EventTopic(thingID, name)) == Named(name) <==> '/' !in name
  {
    EventNameExactly(thingID, name);
    SplitFree(thingID, '/');
    SplitHead(name, '/');
  }

  /** The same for requests, except that a thing with the empty ID never sees one. */
  lemma {:induction false} RequestNameRecovered(thingID: string, name: string)
    requires '/' !in thingID
    ensures RequestName(ActionTopic(thingID, name)) == if thingID == "" then NoName else Named(Split(name, '/')[0])
    ensures RequestName(ActionTopic(thingID, name)) == Named(name) <==> thingID != "" && '/' !in name
  {
    RequestNameExactly(thingID, name);
    SplitFree(thingID, '/');
    SplitHead(name, '/');
    assert TOPIC_TYPE_ACTION != "";
  }

  lemma TypeInjective(topicType: string, id1: string, id2: string)
    requires PlainType(topicType)
    ensures ThingTopic(topicType, id1) == ThingTopic(topicType, id2) ==> id1 == id2
  {
    TopicText(topicType, id1);
    TopicText(topicType, id2);
    var t1, t2 := ThingTopic(topicType, id1), ThingTopic(topicType, id2);
    assert t1[|"things/"|..|t1| - |topicType| - 1] == id1;
    assert t2[|"things/"|..|t2| - |topicType| - 1] == id2;
  }

  /** Filters of different things differ, and topics of different names, for all IDs and names. */
  lemma FiltersInjective(id1: string, id2: string)
    ensures EventFilter(id1) == EventFilter(id2) ==> id1 == id2
    ensures ActionFilter(id1) == ActionFilter(id2) ==> id1 == id2
  {
    TypesPlain();
    TypeInjective(TOPIC_TYPE_EVENT, id1, id2);
    TypeInjective(TOPIC_TYPE_ACTION, id1, id2);
    var e1, e2 := ThingTopic(TOPIC_TYPE_EVENT, id1), ThingTopic(TOPIC_TYPE_EVENT, id2);
    var a1, a2 := ThingTopic(TOPIC_TYPE_ACTION, id1), ThingTopic(TOPIC_TYPE_ACTION, id2);
    assert EventFilter(id1)[..|EventFilter(id1)| - 2] == e1 && EventFilter(id2)[..|EventFilter(id2)| - 2] == e2;
    assert ActionFilter(id1)[..|ActionFilter(id1)| - 2] == a1 && ActionFilter(id2)[..|ActionFilter(id2)| - 2] == a2;
  }

  /** CreateTopic and SplitTopic undo each other exactly when neither part holds a '/' ("" stands for "+"). */
  lemma TopicRoundTrip(thingID: string, topicType: string)
    ensures SplitTopic(CreateTopic(thingID, topicType))
         == TopicParts(if thingID == "" then "+" else thingID, topicType, "")
        <==> '/' !in thingID && '/' !in topicType
  {
    var id := if thingID == "" then "+" else thingID;
    var topic := CreateTopic(thingID, topicType);
    var a := "things" + ['/'] + id;
    assert topic == a + ['/'] + topicType;
    SplitFree("things", '/');
    SplitConcat("things", id, '/');
    SplitConcat(a, topicType, '/');
    SplitHead(id, '/');
    SplitHead(topicType, '/');
    var parts := Split(topic, '/');
    assert '/' !in parts[1] && '/' !in parts[2];
  }
}
