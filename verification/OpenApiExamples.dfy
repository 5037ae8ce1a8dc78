/** tools/build_openapi.py: placeholder examples for request bodies and successful responses. */
module OpenApiExamples {
  import opened Options
  import opened JsonTree
  import opened OpenApiRefs

  /// Objects as dictionaries

  /** Assigns to a key: in place when it is there, else at the end. */
  function Put(fields: seq<Field>, key: string, value: Json): seq<Field> {
    if fields == [] then [Field(key, value)]
    else if fields[0].key == key then [Field(key, value)] + fields[1..]
    else [fields[0]] + Put(fields[1..], key, value)
  }

  lemma {:induction false} GetPut(fields: seq<Field>, key: string, value: Json, k: string)
    ensures Get(Put(fields, key, value), k) == if k == key then Some(value) else Get(fields, k)
  {
    if fields == [] {
      assert Put(fields, key, value)[1..] == [];
    } else if fields[0].key == key {
      assert Put(fields, key, value)[1..] == fields[1..];
    } else {
      GetPut(fields[1..], key, value, k);
      assert Put(fields, key, value)[1..] == Put(fields[1..], key, value);
    }
  }

  /** Absent keys and empty values are falsy. */
  predicate Truthy(o: Option<Json>) {
    match o
    case None => false
    case Some(j) =>
      match j
      case Null => false
      case Bool(b) => b
      case Number(n) => n != 0.0
      case Str(s) => s != ""
      case Arr(items) => items != []
      case Obj(fields) => fields != []
  }

  /** Seven values are falsy: nothing at all and the empty value of each kind. */
  lemma TruthyIff(o: Option<Json>)
    ensures Truthy(o) <==>
            o !in {None, Some(Null), Some(Bool(false)), Some(Number(0.0)), Some(Str("")), Some(Arr([])), Some(Obj([]))}
  {
  }

  predicate Absent(o: Option<Json>) {
    o == None || o == Some(Null)
  }

  function ObjectAt(fields: seq<Field>, key: string): (o: Option<Json>)
    ensures o.Some? ==> o.value.Obj? && Get(fields, key) == o
    ensures o.None? ==> Get(fields, key).None? || !Get(fields, key).value.Obj?
  {
    if Get(fields, key).Some? && Get(fields, key).value.Obj? then Get(fields, key) else None
  }

  /// Examples from schemas

  const SAMPLE_ID := Str("3fa85f64-5717-4562-b3fc-2c963f66afa6")
  const STATUS_OK := Obj([Field("status", Str("ok"))])

  function ExampleText(format: Option<Json>): Json {
    if format == Some(Str("uuid")) then SAMPLE_ID
    else if format == Some(Str("date-time")) then Str("2026-01-01T00:00:00Z")
    else Str("example")
  }

  /** Anything but an object stands for a missing schema. */
  function ExampleFor(schema: Json): Json
    decreases schema, 1
  {
    if !schema.Obj? || schema.fields == [] then STATUS_OK
    else
      var fields := schema.fields;
      var kind := Get(fields, "type");
      if Get(fields, "$ref").Some? then Obj([Field("id", SAMPLE_ID)])
      else if kind == Some(Str("string")) then ExampleText(Get(fields, "format"))
      else if kind == Some(Str("integer")) || kind == Some(Str("number")) then Number(1.0)
      else if kind == Some(Str("boolean")) then Bool(true)
      else if kind == Some(Str("array")) then
        var items := ObjectAt(fields, "items");
        ValueIsSmaller(schema, "items");
        Arr([if items.Some? then ExampleFor(items.value) else STATUS_OK])
      else if kind == Some(Str("object")) || Get(fields, "properties").Some? then
        var props := ObjectAt(fields, "properties");
        ValueIsSmaller(schema, "properties");
        if !Truthy(props) then STATUS_OK else Obj(ExampleFields(props.value.fields))
      else STATUS_OK
  }

  function ExampleFields(props: seq<Field>): (r: seq<Field>)
    ensures |r| == |props| && forall i :: 0 <= i < |r| ==> r[i].key == props[i].key
    decreases props, 0
  {
    if props == [] then []
    else [Field(props[0].key, ExampleFor(props[0].value))] + ExampleFields(props[1..])
  }

  /// Examples fit their schemas

  const KINDS := ["string", "integer", "number", "boolean", "array", "object"]

  /** The schema node and those under its items and properties name at most one type, one of OpenAPI 3.0's; nothing is
      asked of what hangs elsewhere, nor below a reference. */
  predicate PlainSchema(j: Json)
    decreases j
  {
    j.Obj? && Get(j.fields, "$ref").None? ==>
      && (Get(j.fields, "type").Some? ==> Get(j.fields, "type").value.Str? && Get(j.fields, "type").value.s in KINDS)
      && (ObjectAt(j.fields, "items").Some? ==> (ValueIsSmaller(j, "items"); PlainSchema(Get(j.fields, "items").value)))
      && (ObjectAt(j.fields, "properties").Some? ==>
            (ValueIsSmaller(j, "properties");
             forall f <- Get(j.fields, "properties").value.fields :: PlainSchema(f.value)))
  }

  predicate OfKind(value: Json, kind: string) {
    match kind
    case "string" => value.Str?
    case "integer" => value.Number? && value.n.Floor as real == value.n
    case "number" => value.Number?
    case "boolean" => value.Bool?
    case "array" => value.Arr?
    case "object" => value.Obj?
    case _ => false
  }

  predicate UuidBetween(s: string, from: nat, to: nat)
    requires to <= |s|
  {
    forall i :: from <= i < to ==>
      if i in [8, 13, 18, 23] then s[i] == '-' else '0' <= s[i] <= '9' || 'a' <= s[i] <= 'f'
  }

  /** Eight, four, four, four and twelve lower-case hexadecimal digits between hyphens. */
  predicate IsUuid(s: string) {
    |s| == 36 && UuidBetween(s, 0, 36)
  }

  /** A date and a time of day in UTC, as in section 5.6 of RFC 3339. */
  predicate IsDateTime(s: string) {
    && |s| == 20 && s[4] == s[7] == '-' && s[10] == 'T' && s[13] == s[16] == ':' && s[19] == 'Z'
    && forall i :: 0 <= i < 20 && i !in [4, 7, 10, 13, 16, 19] ==> '0' <= s[i] <= '9'
  }

  /** A text of the format asked for, where it is one of the two the generator knows. */
  predicate OfFormat(value: Json, format: Option<Json>) {
    && (format == Some(Str("uuid")) ==> value.Str? && IsUuid(value.s))
    && (format == Some(Str("date-time")) ==> value.Str? && IsDateTime(value.s))
  }

  /** The value has the schema's type and a text its format; it has items, and they fit the item schema; it has all the
      properties, and its members fit theirs. A reference is not followed: it stands for an object with an id. */
  ghost predicate Fits(value: Json, schema: Json)
    decreases schema
  {
    schema.Obj? ==>
      if Get(schema.fields, "$ref").Some? then value.Obj? && Get(value.fields, "id").Some?
      else
        && (Get(schema.fields, "type").Some? && Get(schema.fields, "type").value.Str?
            ==> OfKind(value, Get(schema.fields, "type").value.s))
        && (Get(schema.fields, "type") == Some(Str("string")) ==> OfFormat(value, Get(schema.fields, "format")))
        && (value.Arr? ==> value.items != [])
        && (value.Arr? && ObjectAt(schema.fields, "items").Some? ==>
              (ValueIsSmaller(schema, "items"); forall x <- value.items :: Fits(x, Get(schema.fields, "items").value)))
        && (value.Obj? && ObjectAt(schema.fields, "properties").Some? ==>
              (ValueIsSmaller(schema, "properties");
               MembersFit(value.fields, Get(schema.fields, "properties").value.fields)))
  }

  ghost predicate MembersFit(members: seq<Field>, props: seq<Field>)
    decreases props
  {
    forall f <- props ::
      (exists g <- members :: f.key == g.key) && forall g <- members :: f.key == g.key ==> Fits(g.value, f.value)
  }

  lemma ValueIsSmaller(j: Json, key: string)
    requires j.Obj?
    ensures Get(j.fields, key).Some? ==> Get(j.fields, key).value < j
  {
    if Get(j.fields, key).Some? {
      GetIsMember(j.fields, key);
    }
  }

  lemma {:induction false} FieldExamples(props: seq<Field>, i: nat)
    requires i < |props|
    ensures ExampleFields(props)[i] == Field(props[i].key, ExampleFor(props[i].value))
  {
    if i > 0 {
      FieldExamples(props[1..], i - 1);
    }
  }

  lemma FirstGroup()
    ensures |SAMPLE_ID.s| == 36 && UuidBetween(SAMPLE_ID.s, 0, 9)
  {
  }

  lemma MiddleGroups()
    ensures |SAMPLE_ID.s| == 36 && UuidBetween(SAMPLE_ID.s, 9, 24)
  {
  }

  lemma LastGroup()
    ensures |SAMPLE_ID.s| == 36 && UuidBetween(SAMPLE_ID.s, 24, 36)
  {
  }

  lemma SampleIdIsUuid()
    ensures IsUuid(SAMPLE_ID.s)
  {
    FirstGroup();
    MiddleGroups();
    LastGroup();
  }

  lemma SampleTimeIsDateTime()
    ensures IsDateTime("2026-01-01T00:00:00Z")
  {
  }

  lemma TextHasFormat(format: Option<Json>)
    ensures ExampleText(format).Str? && OfFormat(ExampleText(format), format)
  {
    hide IsUuid, IsDateTime;
    SampleIdIsUuid();
    SampleTimeIsDateTime();
  }

  lemma ScalarFits(schema: Json, kind: string)
    requires schema.Obj? && schema.fields != [] && Get(schema.fields, "$ref").None?
    requires Get(schema.fields, "type") == Some(Str(kind)) && kind in ["string", "integer", "number", "boolean"]
    ensures Fits(ExampleFor(schema), schema)
  {
    hide ExampleText, OfFormat;
    TextHasFormat(Get(schema.fields, "format"));
  }

  lemma ArrayFits(schema: Json)
    requires schema.Obj? && schema.fields != [] && Get(schema.fields, "$ref").None?
    requires Get(schema.fields, "type") == Some(Str("array"))
    requires var items := ObjectAt(schema.fields, "items");
             items.Some? ==> Fits(ExampleFor(items.value), items.value)
    ensures Fits(ExampleFor(schema), schema)
  {
    var items := ObjectAt(schema.fields, "items");
    assert ExampleFor(schema) == Arr([if items.Some? then ExampleFor(items.value) else STATUS_OK]);
    hide ExampleFor;
  }

  lemma ObjectFits(schema: Json)
    requires schema.Obj? && schema.fields != [] && Get(schema.fields, "$ref").None?
    requires Get(schema.fields, "type") == Some(Str("object")) || Get(schema.fields, "type").None?
    requires var props := ObjectAt(schema.fields, "properties");
             props.Some? ==> MembersFit(ExampleFields(props.value.fields), props.value.fields)
    ensures Fits(ExampleFor(schema), schema)
  {
    var props := ObjectAt(schema.fields, "properties");
    assert ExampleFor(schema) == if Truthy(props) then Obj(ExampleFields(props.value.fields)) else STATUS_OK;
    if props.Some? && props.value.fields == [] {
      NoMemberAskedFor(STATUS_OK.fields, props.value.fields);
    }
    hide ExampleFor, ExampleFields, MembersFit;
  }

  lemma NoMemberAskedFor(members: seq<Field>, props: seq<Field>)
    requires props == []
    ensures MembersFit(members, props)
  {
  }

  /** The generated placeholder fits the schema it was generated from. */
  lemma {:induction false} ExampleFits(schema: Json)
    requires PlainSchema(schema) && WellFormed(schema)
    ensures Fits(ExampleFor(schema), schema)
    decreases schema
  {
    if schema.Obj? && schema.fields != [] && Get(schema.fields, "$ref").None? {
      var fields := schema.fields;
      var kind := Get(fields, "type");
      ValueIsSmaller(schema, "items");
      ValueIsSmaller(schema, "properties");
      var items, props := ObjectAt(fields, "items"), ObjectAt(fields, "properties");
      hide ExampleFor, ExampleFields, Fits;
      if kind == Some(Str("array")) {
        if items.Some? {
          GetIsMember(fields, "items");
          ExampleFits(items.value);
        }
        ArrayFits(schema);
      } else if kind == Some(Str("object")) || kind.None? {
        if props.Some? {
          GetIsMember(fields, "properties");
          PropertiesFit(props.value.fields);
        }
        ObjectFits(schema);
      } else {
        ScalarFits(schema, kind.value.s);
      }
    } else {
      NothingToFit(schema);
    }
  }

  lemma NothingToFit(schema: Json)
    requires !schema.Obj? || schema.fields == [] || Get(schema.fields, "$ref").Some?
    ensures Fits(ExampleFor(schema), schema)
  {
    if schema.Obj? && Get(schema.fields, "$ref").Some? {
      assert ExampleFor(schema) == Obj([Field("id", SAMPLE_ID)]);
    }
    hide ExampleFor;
  }

  lemma {:induction false} PropertiesFit(props: seq<Field>)
    requires UniqueKeys(props) && forall f <- props :: PlainSchema(f.value) && WellFormed(f.value)
    ensures MembersFit(ExampleFields(props), props)
    decreases props
  {
    forall f, g | f in props && g in ExampleFields(props) && f.key == g.key ensures Fits(g.value, f.value) {
      var i :| 0 <= i < |props| && ExampleFields(props)[i] == g;
      FieldExamples(props, i);
      var j :| 0 <= j < |props| && props[j] == f;
      assert i == j;
      ExampleFits(f.value);
    }
    forall f | f in props ensures exists g <- ExampleFields(props) :: f.key == g.key {
      var i :| 0 <= i < |props| && props[i] == f;
      assert ExampleFields(props)[i] in ExampleFields(props);
    }
  }
}
