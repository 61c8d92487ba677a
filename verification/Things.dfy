/** Thing descriptions, payloads and interaction outputs. JSON text is modelled by the value it encodes. */
module Things {
  datatype Json =
    | Null
    | Bool(b: bool)
    | Number(n: real)
    | Text(s: string)
    | Array(items: seq<Json>)
    | Object(fields: map<string, Json>)

  /** A message body: the JSON encoding of a value, or text that is not JSON. */
  datatype Payload = Encoded(value: Json) | Raw(text: string)

  /** What is handed to the MQTT client: a value, or a thing description. */
  datatype Body = Data(payload: Payload) | Description(td: ThingTD)

  datatype DataSchema = DataSchema(dataType: string, readOnly: bool)

  const DATA_TYPE_OBJECT := "object"

  datatype ThingTD = ThingTD(
    id: string,
    properties: map<string, DataSchema>,
    events: map<string, DataSchema>,
    actions: map<string, DataSchema>)

  datatype InteractionOutput = InteractionOutput(schema: DataSchema, jsonEncoded: Payload, value: Json)

  /** NewInteractionOutput */
  function FromValue(data: Json, schema: DataSchema): InteractionOutput {
    InteractionOutput(schema, Encoded(data), data)
  }

  /** NewInteractionOutputFromJson. For an object schema the source decodes into a second, inner `val`, so the
      value of the output stays nil. */
  function FromJson(jsonEncoded: Payload, schema: DataSchema): InteractionOutput {
    InteractionOutput(schema, jsonEncoded,
                      if schema.dataType == DATA_TYPE_OBJECT then Null
                      else match jsonEncoded
                           case Encoded(v) => v
                           case Raw(text) => Text(text))
  }

  /** Comparing two Go interface values panics when both hold a slice or both hold a map. */
  predicate ComparePanics(a: Json, b: Json) {
    (a.Array? && b.Array?) || (a.Object? && b.Object?)
  }

  /** What an interaction output holds: the message as it came, and the JSON value in it, or the text itself if it is
      not JSON; nothing for an object schema. An output made from a value holds the value. */
  lemma OutputValues(v: Json, text: string, schema: DataSchema)
    ensures FromValue(v, schema).value == v && FromValue(v, schema).jsonEncoded == Encoded(v)
    ensures FromJson(Encoded(v), schema).jsonEncoded == Encoded(v)
    ensures FromJson(Raw(text), schema).jsonEncoded == Raw(text)
    ensures schema.dataType != "object" ==>
              FromJson(Encoded(v), schema).value == v && FromJson(Raw(text), schema).value == Text(text)
    ensures schema.dataType == "object" ==>
              FromJson(Encoded(v), schema).value == Null && FromJson(Raw(text), schema).value == Null
    ensures FromValue(v, schema).schema == schema
    ensures FromJson(Encoded(v), schema).schema == schema && FromJson(Raw(text), schema).schema == schema
  {
  }

  /** What is decoded from an encoded value is that value, unless the schema is an object. */
  lemma DecodeEncode(v: Json, schema: DataSchema)
    ensures FromJson(Encoded(v), schema) == FromValue(v, schema) <==> schema.dataType != DATA_TYPE_OBJECT || v == Null
  {
  }
}
