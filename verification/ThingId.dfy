/** Thing identifiers: "urn:zone:publisher:deviceID:deviceType" and its shorter forms. */
module ThingId {
  import opened Text

  datatype Parts = Parts(zone: string, publisherID: string, deviceID: string, deviceType: string)

  function ZoneOrLocal(zone: string): string {
    if zone == "" then "local" else zone
  }

  function CreatePublisherID(zone: string, publisher: string, deviceID: string, deviceType: string): string {
    "urn:" + ZoneOrLocal(zone) + ":" + publisher + ":" + deviceID + ":" + deviceType
  }

  function CreateThingID(zone: string, deviceID: string, deviceType: string): string {
    "urn:" + ZoneOrLocal(zone) + ":" + deviceID + ":" + deviceType
  }

  /** Total: text that is not a thing ID becomes the device ID, six or more parts become nothing at all. */
  function SplitThingID(thingID: string): Parts {
    var parts := Split(thingID, ':');
    if |parts| < 2 || ToLower(parts[0]) != "urn" then Parts("", "", parts[0], "")
    else if |parts| == 5 then Parts(parts[1], parts[2], parts[3], parts[4])
    else if |parts| == 4 then Parts(parts[1], "", parts[2], parts[3])
    else if |parts| == 3 then Parts("", "", parts[1], parts[2])
    else if |parts| == 2 then Parts("", "", parts[1], "")
    else Parts("", "", "", "")
  }

  predicate ColonFree(p: Parts) {
    ':' !in p.zone && ':' !in p.publisherID && ':' !in p.deviceID && ':' !in p.deviceType
  }

  /** Whatever is split, no part holds a colon. */
  lemma SplitPartsColonFree(thingID: string)
    ensures ColonFree(SplitThingID(thingID))
  {
    var parts := Split(thingID, ':');
    assert forall i :: 0 <= i < |parts| ==> ':' !in parts[i];
  }

  /** The parts of each form, in any letter case of "urn". Text that is not a thing ID keeps what stands before its
      first colon, and six or more parts are lost. */
  lemma {:induction false} FormsOfThingID(urn: string, a: string, b: string, c: string, d: string, other: string)
    requires ToLower(urn) == "urn"
    requires ':' !in a && ':' !in b && ':' !in c && ':' !in d
    ensures SplitThingID(urn + ":" + a) == Parts("", "", a, "")
    ensures SplitThingID(urn + ":" + a + ":" + b) == Parts("", "", a, b)
    ensures SplitThingID(urn + ":" + a + ":" + b + ":" + c) == Parts(a, "", b, c)
    ensures SplitThingID(urn + ":" + a + ":" + b + ":" + c + ":" + d) == Parts(a, b, c, d)
    ensures SplitThingID(urn + ":" + a + ":" + b + ":" + c + ":" + d + ":" + other) == Parts("", "", "", "")
  {
    var s1 := urn + ":" + a;
    var s2 := s1 + ":" + b;
    var s3 := s2 + ":" + c;
    var s4 := s3 + ":" + d;
    UrnPart(urn);
    OneMorePart(urn, [urn], a);
    PartsOf(s1, [urn, a]);
    OneMorePart(s1, [urn, a], b);
    PartsOf(s2, [urn, a, b]);
    OneMorePart(s2, [urn, a, b], c);
    PartsOf(s3, [urn, a, b, c]);
    OneMorePart(s3, [urn, a, b, c], d);
    PartsOf(s4, [urn, a, b, c, d]);
    FurtherParts(s4, [urn, a, b, c, d], other);
    PartsOf(s4 + ":" + other, Split(s4 + ":" + other, ':'));
  }

  lemma PartsOf(thingID: string, parts: seq<string>)
    requires Split(thingID, ':') == parts && |parts| >= 2 && ToLower(parts[0]) == "urn"
    ensures SplitThingID(thingID)
         == if |parts| == 2 then Parts("", "", parts[1], "")
            else if |parts| == 3 then Parts("", "", parts[1], parts[2])
            else if |parts| == 4 then Parts(parts[1], "", parts[2], parts[3])
            else if |parts| == 5 then Parts(parts[1], parts[2], parts[3], parts[4])
            else Parts("", "", "", "")
  {
  }

  lemma UrnPart(urn: string)
    requires ToLower(urn) == "urn"
    ensures Split(urn, ':') == [urn]
  {
    var low := ToLower(urn);
    assert forall i :: 0 <= i < |urn| ==> urn[i] == ':' ==> low[i] == ':';
    SplitFree(urn, ':');
  }

  lemma {:induction false} OneMorePart(s: string, parts: seq<string>, part: string)
    requires Split(s, ':') == parts && ':' !in part
    ensures Split(s + ":" + part, ':') == parts + [part]
  {
    assert s + ":" + part == s + [':'] + part;
    SplitConcat(s, part, ':');
    SplitFree(part, ':');
  }

  lemma {:induction false} FurtherParts(s: string, parts: seq<string>, rest: string)
    requires Split(s, ':') == parts
    ensures |Split(s + ":" + rest, ':')| > |parts| && Split(s + ":" + rest, ':')[..|parts|] == parts
  {
    assert s + ":" + rest == s + [':'] + rest;
    SplitConcat(s, rest, ':');
  }

  lemma {:induction false} NotAThingID(head: string, rest: string)
    requires ':' !in head
    ensures SplitThingID(head) == Parts("", "", head, "")
    ensures ToLower(head) != "urn" ==> SplitThingID(head + ":" + rest) == Parts("", "", head, "")
  {
    SplitFree(head, ':');
    SplitConcat(head, rest, ':');
  }

  /** The texts of created IDs. */
  lemma CreatedTexts(zone: string, publisher: string, deviceID: string, deviceType: string)
    ensures zone == "" ==>
              && CreatePublisherID(zone, publisher, deviceID, deviceType)
                 == "urn:local:" + publisher + ":" + deviceID + ":" + deviceType
              && CreateThingID(zone, deviceID, deviceType) == "urn:local:" + deviceID + ":" + deviceType
    ensures zone != "" ==>
              && CreatePublisherID(zone, publisher, deviceID, deviceType)
                 == "urn:" + zone + ":" + publisher + ":" + deviceID + ":" + deviceType
              && CreateThingID(zone, deviceID, deviceType) == "urn:" + zone + ":" + deviceID + ":" + deviceType
  {
    assert "urn:" + "local" + ":" == "urn:local:";
  }

  lemma SplitOfPublisherID(zone: string, publisher: string, deviceID: string, deviceType: string)
    ensures Split(CreatePublisherID(zone, publisher, deviceID, deviceType), ':')
         == ["urn"] + Split(ZoneOrLocal(zone), ':') + Split(publisher, ':') + Split(deviceID, ':')
          + Split(deviceType, ':')
  {
    var z := ZoneOrLocal(zone);
    var a := "urn" + [':'] + z;
    var b := a + [':'] + publisher;
    var c := b + [':'] + deviceID;
    assert CreatePublisherID(zone, publisher, deviceID, deviceType) == c + [':'] + deviceType;
    SplitFree("urn", ':');
    SplitConcat("urn", z, ':');
    SplitConcat(a, publisher, ':');
    SplitConcat(b, deviceID, ':');
    SplitConcat(c, deviceType, ':');
  }

  lemma SplitOfThingID(zone: string, deviceID: string, deviceType: string)
    ensures Split(CreateThingID(zone, deviceID, deviceType), ':')
         == ["urn"] + Split(ZoneOrLocal(zone), ':') + Split(deviceID, ':') + Split(deviceType, ':')
  {
    var z := ZoneOrLocal(zone);
    var a := "urn" + [':'] + z;
    var b := a + [':'] + deviceID;
    assert CreateThingID(zone, deviceID, deviceType) == b + [':'] + deviceType;
    SplitFree("urn", ':');
    SplitConcat("urn", z, ':');
    SplitConcat(a, deviceID, ':');
    SplitConcat(b, deviceType, ':');
  }

  /** Splitting a created publisher ID gives the parts back exactly when none of them holds a colon. */
  lemma PublisherIDRoundTrip(zone: string, publisher: string, deviceID: string, deviceType: string)
    ensures var parts := Parts(ZoneOrLocal(zone), publisher, deviceID, deviceType);
            SplitThingID(CreatePublisherID(zone, publisher, deviceID, deviceType)) == parts <==> ColonFree(parts)
  {
    var id := CreatePublisherID(zone, publisher, deviceID, deviceType);
    SplitPartsColonFree(id);
    SplitOfPublisherID(zone, publisher, deviceID, deviceType);
    SplitHead(ZoneOrLocal(zone), ':');
    SplitHead(publisher, ':');
    SplitHead(deviceID, ':');
    SplitHead(deviceType, ':');
    assert ToLower("urn") == "urn";
  }

  /** The same for IDs without a publisher. */
  lemma ThingIDRoundTrip(zone: string, deviceID: string, deviceType: string)
    ensures var parts := Parts(ZoneOrLocal(zone), "", deviceID, deviceType);
            SplitThingID(CreateThingID(zone, deviceID, deviceType)) == parts <==> ColonFree(parts)
  {
    var id := CreateThingID(zone, deviceID, deviceType);
    SplitPartsColonFree(id);
    SplitOfThingID(zone, deviceID, deviceType);
    SplitHead(ZoneOrLocal(zone), ':');
    SplitHead(deviceID, ':');
    SplitHead(deviceType, ':');
    assert ToLower("urn") == "urn";
  }

  /** Two publisher IDs made of colon-free parts are equal only if made of the same parts, up to "" and "local". */
  lemma PublisherIDInjective(p: Parts, q: Parts)
    requires ColonFree(p) && ColonFree(q)
    requires CreatePublisherID(p.zone, p.publisherID, p.deviceID, p.deviceType)
          == CreatePublisherID(q.zone, q.publisherID, q.deviceID, q.deviceType)
    ensures ZoneOrLocal(p.zone) == ZoneOrLocal(q.zone)
    ensures p.publisherID == q.publisherID && p.deviceID == q.deviceID && p.deviceType == q.deviceType
  {
    PublisherIDRoundTrip(p.zone, p.publisherID, p.deviceID, p.deviceType);
    PublisherIDRoundTrip(q.zone, q.publisherID, q.deviceID, q.deviceType);
  }

  lemma ThingIDInjective(p: Parts, q: Parts)
    requires ColonFree(p) && ColonFree(q)
    requires CreateThingID(p.zone, p.deviceID, p.deviceType) == CreateThingID(q.zone, q.deviceID, q.deviceType)
    ensures ZoneOrLocal(p.zone) == ZoneOrLocal(q.zone) && p.deviceID == q.deviceID && p.deviceType == q.deviceType
  {
    ThingIDRoundTrip(p.zone, p.deviceID, p.deviceType);
    ThingIDRoundTrip(q.zone, q.deviceID, q.deviceType);
  }

  /** No ID is both a publisher ID and a plain thing ID. */
  lemma IDKindsDisjoint(p: Parts, q: Parts)
    requires ColonFree(p) && ColonFree(q)
    ensures CreatePublisherID(p.zone, p.publisherID, p.deviceID, p.deviceType)
         != CreateThingID(q.zone, q.deviceID, q.deviceType)
  {
    SplitOfPublisherID(p.zone, p.publisherID, p.deviceID, p.deviceType);
    SplitOfThingID(q.zone, q.deviceID, q.deviceType);
    SplitHead(ZoneOrLocal(p.zone), ':');
    SplitHead(p.publisherID, ':');
    SplitHead(p.deviceID, ':');
    SplitHead(p.deviceType, ':');
    SplitHead(ZoneOrLocal(q.zone), ':');
    SplitHead(q.deviceID, ':');
    SplitHead(q.deviceType, ':');
  }

  lemma SameParts(a: string, b: string)
    ensures Split(a, ':') == Split(b, ':') <==> a == b
  {
    assert Join(Split(a, ':'), ':') == a && Join(Split(b, ':'), ':') == b;
  }

  lemma PlainPublisherID(p: Parts)
    requires ColonFree(p)
    ensures Split(CreatePublisherID(p.zone, p.publisherID, p.deviceID, p.deviceType), ':')
         == ["urn", ZoneOrLocal(p.zone), p.publisherID, p.deviceID, p.deviceType]
  {
    SplitOfPublisherID(p.zone, p.publisherID, p.deviceID, p.deviceType);
    SplitFree(ZoneOrLocal(p.zone), ':');
    SplitFree(p.publisherID, ':');
    SplitFree(p.deviceID, ':');
    SplitFree(p.deviceType, ':');
    FiveParts("urn", ZoneOrLocal(p.zone), p.publisherID, p.deviceID, p.deviceType);
  }

  lemma FiveParts(a: string, b: string, c: string, d: string, e: string)
    ensures [a] + [b] + [c] + [d] + [e] == [a, b, c, d, e]
  {
  }

  lemma PlainThingID(p: Parts)
    requires ColonFree(p)
    ensures Split(CreateThingID(p.zone, p.deviceID, p.deviceType), ':')
         == ["urn", ZoneOrLocal(p.zone), p.deviceID, p.deviceType]
  {
    SplitOfThingID(p.zone, p.deviceID, p.deviceType);
    SplitFree(ZoneOrLocal(p.zone), ':');
    SplitFree(p.deviceID, ':');
    SplitFree(p.deviceType, ':');
  }

  /** The other direction: an ID in the long form, starting with a lower-case "urn", is printed back to the same text
      exactly when its zone is not empty. */
  lemma {:induction false} CreateFromPublisherParts(thingID: string, p: Parts)
    requires Split(thingID, ':') == ["urn", p.zone, p.publisherID, p.deviceID, p.deviceType]
    ensures SplitThingID(thingID) == p
    ensures CreatePublisherID(p.zone, p.publisherID, p.deviceID, p.deviceType) == thingID <==> p.zone != ""
  {
    assert ToLower("urn") == "urn";
    SplitPartsColonFree(thingID);
    PlainPublisherID(p);
    SameParts(CreatePublisherID(p.zone, p.publisherID, p.deviceID, p.deviceType), thingID);
    assert ["urn", p.zone, p.publisherID, p.deviceID, p.deviceType][1] == p.zone;
    assert ["urn", ZoneOrLocal(p.zone), p.publisherID, p.deviceID, p.deviceType][1] == ZoneOrLocal(p.zone);
  }

  /** The same for the form without a publisher. */
  lemma CreateFromThingParts(thingID: string, p: Parts)
    requires Split(thingID, ':') == ["urn", p.zone, p.deviceID, p.deviceType] && p.publisherID == ""
    ensures SplitThingID(thingID) == p
    ensures CreateThingID(p.zone, p.deviceID, p.deviceType) == thingID <==> p.zone != ""
  {
    assert ToLower("urn") == "urn";
    SplitPartsColonFree(thingID);
    PlainThingID(p);
    SameParts(CreateThingID(p.zone, p.deviceID, p.deviceType), thingID);
    assert ["urn", p.zone, p.deviceID, p.deviceType][1] == p.zone;
    assert ["urn", ZoneOrLocal(p.zone), p.deviceID, p.deviceType][1] == ZoneOrLocal(p.zone);
  }
}
