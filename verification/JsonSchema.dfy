/**
 * The JSON Schema (draft 2020-12) keywords the generated documents use,
 * and what the documents built from them accept.
 */
module JsonSchema {
  import opened Json

  /** Equality of JSON values: numbers by value, never equal to booleans (Core, section 4.2.2). */
  predicate JsonEqual(a: Json, b: Json) {
    match (a, b)
    case (Null, Null) => true
    case (Bool(x), Bool(y)) => x == y
    case (Str(s), Str(t)) => s == t
    case (Arr(s), Arr(t)) => |s| == |t| && forall i | 0 <= i < |s| :: JsonEqual(s[i], t[i])
    case (Obj(m), Obj(n)) => m.Keys == n.Keys && forall k | k in m :: JsonEqual(m[k], n[k])
    case _ => a.IsNumber() && b.IsNumber() && a.Numeric() == b.Numeric()
  }

  /** Validation, section 6.1.1: `number` includes integers and excludes booleans. */
  predicate HasType(name: string, v: Json) {
    match v
    case Null => name == "null"
    case Bool(_) => name == "boolean"
    case Int(_) => name == "integer" || name == "number"
    case Float(r) => name == "number" || (name == "integer" && r == r.Floor as real)
    case Str(_) => name == "string"
    case Arr(_) => name == "array"
    case Obj(_) => name == "object"
  }

  /** The keywords that constrain a value by itself. */
  predicate AssertionsHold(schema: map<string, Json>, v: Json) {
    && ("type" in schema && schema["type"].Str? ==> HasType(schema["type"].s, v))
    && ("enum" in schema && schema["enum"].Arr? ==>
          exists i ::
            0 <= i < |schema["enum"].items| && JsonEqual(schema["enum"].items[i], v))                      // 6.1.2
    && ("maximum" in schema && schema["maximum"].IsNumber() && v.IsNumber() ==>
      v.Numeric() <= schema["maximum"].Numeric())  // 6.2.2
    && ("minimum" in schema && schema["minimum"].IsNumber() && v.IsNumber() ==>
      schema["minimum"].Numeric() <= v.Numeric())  // 6.2.4
    && ("maxItems" in schema && schema["maxItems"].IsNumber() && v.Arr? ==>
      |v.items| as real <= schema["maxItems"].Numeric())  // 6.4.1
    && ("minItems" in schema && schema["minItems"].IsNumber() && v.Arr? ==>
      schema["minItems"].Numeric() <= |v.items| as real)  // 6.4.2
    && ("required" in schema && schema["required"].Arr? && v.Obj? ==>
          forall i | 0 <= i < |schema["required"].items| ::
            schema["required"].items[i].Str? ==> schema["required"].items[i].s in v.fields)  // 6.5.3
  }

  function Properties(schema: map<string, Json>): map<string, Json> {
    if "properties" in schema && schema["properties"].Obj? then schema["properties"].fields else map[]
  }

  predicate Validates(schema: Json, v: Json) {
    match schema
    case Bool(b) => b
    case Obj(fields) =>
      && AssertionsHold(fields, v)
      && ("items" in fields && v.Arr? ==>
        forall i | 0 <= i < |v.items| :: Validates(fields["items"], v.items[i]))    // Core 10.3.1.2
      && ("properties" in fields && fields["properties"].Obj? && v.Obj? ==>
            forall k | k in v.fields && k in fields["properties"].fields ::
              Validates(fields["properties"].fields[k], v.fields[k]))  // Core 10.3.2.1
      && ("additionalProperties" in fields && v.Obj? ==>
            forall k | k in v.fields && k !in Properties(fields) ::
              Validates(fields["additionalProperties"], v.fields[k]))  // Core 10.3.2.3
    case _ => false
  }

  // ---------------------------------------------------------------- the shapes of the generated documents

  function Strs(strings: seq<string>): Json {
    Arr(seq(|strings|, i requires 0 <= i < |strings| => Str(strings[i])))
  }

  function StringSchema(): Json { Obj(map["type" := Str("string")]) }

  function EnumSchema(values: seq<string>): Json { Obj(map["type" := Str("string"), "enum" := Strs(values)]) }

  function ScoreSchema(): Json { Obj(map["type" := Str("number"), "minimum" := Float(0.0), "maximum" := Float(1.0)]) }

  function ArraySchema(items: Json): Json { Obj(map["type" := Str("array"), "items" := items]) }

  function BoundedArraySchema(items: Json, max: nat): Json {
    Obj(map["type" := Str("array"), "items" := items, "minItems" := Int(0), "maxItems" := Int(max)])
  }

  function ObjectFields(properties: map<string, Json>, required: seq<string>): map<string, Json> {
    map["type" := Str("object"), "additionalProperties" := Bool(false), "properties" := Obj(properties),
      "required" := Strs(required)]
  }

  function ObjectSchema(properties: map<string, Json>, required: seq<string>): Json {
    Obj(ObjectFields(properties, required))
  }

  lemma StringMeaning(v: Json)
    ensures Validates(StringSchema(), v) <==> v.Str?
  {
    assert StringSchema().fields["type"] == Str("string");
  }

  lemma EnumMeaning(values: seq<string>, v: Json)
    ensures Validates(EnumSchema(values), v) <==> v.Str? && v.s in values
  {
    var listed := Strs(values).items;
    if v.Str? && v.s in values {
      var i :| 0 <= i < |values| && values[i] == v.s;
      assert JsonEqual(listed[i], v);
    }
    assert forall i | 0 <= i < |listed| :: JsonEqual(listed[i], v) <==> v.Str? && v.s == values[i];
  }

  lemma ScoreMeaning(v: Json)
    ensures Validates(ScoreSchema(), v) <==> v.IsNumber() && 0.0 <= v.Numeric() <= 1.0
  {
    assert HasType("number", v) <==> v.IsNumber();
  }

  lemma ArrayMeaning(items: Json, v: Json)
    ensures Validates(ArraySchema(items), v) <==>
      v.Arr? && forall i | 0 <= i < |v.items| :: Validates(items, v.items[i])
  {
    assert HasType("array", v) <==> v.Arr?;
  }

  lemma BoundedArrayMeaning(items: Json, max: nat, v: Json)
    ensures Validates(BoundedArraySchema(items, max), v) <==>
      v.Arr? && |v.items| <= max && forall i | 0 <= i < |v.items| :: Validates(items, v.items[i])
  {
    assert HasType("array", v) <==> v.Arr?;
  }

  lemma RequiredMeaning(properties: map<string, Json>, required: seq<string>, v: Json)
    ensures AssertionsHold(ObjectFields(properties, required), v) <==>
      v.Obj? && forall i | 0 <= i < |required| :: required[i] in v.fields
  {
    assert HasType("object", v) <==> v.Obj?;
    var needed := Strs(required).items;
    assert forall i | 0 <= i < |needed| :: needed[i] == Str(required[i]);
  }

  /** An object schema that requires everything it describes and nothing else. */
  lemma ObjectMeaning(properties: map<string, Json>, required: seq<string>, v: Json)
    requires forall k :: k in properties <==> k in required
    ensures Validates(ObjectSchema(properties, required), v) <==>
      && v.Obj? && v.fields.Keys == properties.Keys
      && forall k | k in properties :: Validates(properties[k], v.fields[k])
  {
    var fields := ObjectFields(properties, required);
    RequiredMeaning(properties, required, v);
    assert Properties(fields) == properties && "items" !in fields && fields["additionalProperties"] == Bool(false);
    assert Validates(ObjectSchema(properties, required), v) <==>
      && AssertionsHold(fields, v)
      && (forall k | k in v.fields && k in properties :: Validates(properties[k], v.fields[k]))
      && (forall k | k in v.fields :: k in properties);
    if v.Obj? && forall i | 0 <= i < |required| :: required[i] in v.fields {
      forall k | k in properties ensures k in v.fields { var i :| 0 <= i < |required| && required[i] == k; }
    }
  }

  const KEYWORDS: set<string> :=
    {"type", "enum", "maximum", "minimum", "maxItems", "minItems", "required", "items", "properties",
      "additionalProperties"}

  /** Annotations do not change what a schema accepts. */
  lemma AnnotationsIgnored(schema: map<string, Json>, annotations: map<string, Json>, v: Json)
    requires annotations.Keys !! KEYWORDS
    ensures Validates(Obj(annotations + schema), v) <==> Validates(Obj(schema), v)
  {
    var both := annotations + schema;
    forall k | k in KEYWORDS ensures (k in both <==> k in schema) && (k in schema ==> both[k] == schema[k]) {}
    assert AssertionsHold(both, v) <==> AssertionsHold(schema, v);
    assert Properties(both) == Properties(schema);
  }
}
