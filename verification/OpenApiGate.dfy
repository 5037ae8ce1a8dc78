/** The generator's example enrichment (tools/build_openapi.py) and the release gate that consumes it
    (tools/openapi_verify_release.py). */
module OpenApiGate {
  import opened Options
  import opened Text
  import opened JsonTree
  import opened OpenApiRefs
  import opened OpenApiStrip
  import opened OpenApiRedaction
  import opened OpenApiScrub
  import opened OpenApiExamples

  /// Status codes

  predicate IsDigit(c: char) {
    '0' <= c <= '9'
  }

  function NumberOf(s: string): nat
    requires forall c <- s :: IsDigit(c)
  {
    if s == "" then 0
    else
      assert s[|s| - 1] in s && IsDigit(s[|s| - 1]);
      10 * NumberOf(s[..|s| - 1]) + (s[|s| - 1] as int - '0' as int)
  }

  function Code(s: string): Option<nat> {
    if s != "" && forall c <- s :: IsDigit(c) then Some(NumberOf(s)) else None
  }

  predicate Success(code: string) {
    Code(code).Some? && 200 <= Code(code).value < 300
  }

  /// Responses as the generator builds them

  function JsonResponse(description: string, schema: Json, example: Option<Json>): Json {
    var media := [Field("schema", schema)] + if example.Some? then [Field("example", example.value)] else [];
    Obj([Field("description", Str(description)), Field("content", Obj([Field("application/json", Obj(media))]))])
  }

  function TextPlainResponse(description: string, example: string): Json {
    Obj([Field("description", Str(description)),
         Field("content", Obj([Field("text/plain", Obj([
           Field("schema", Obj([Field("type", Str("string")), Field("example", Str(example))]))]))]))])
  }

  /** No content, a JSON block, or a plain-text block with a schema. */
  predicate Constructed(resp: Json) {
    resp.Obj? &&
    match ObjectAt(resp.fields, "content")
    case None => true
    case Some(content) =>
      || content.fields == []
      || ObjectAt(content.fields, "application/json").Some?
      || HasTextSchema(content.fields)
  }

  predicate HasTextSchema(content: seq<Field>) {
    ObjectAt(content, "text/plain").Some? && Get(ObjectAt(content, "text/plain").value.fields, "schema").Some?
  }

  lemma ConstructorsQualify(description: string, schema: Json, example: Option<Json>, text: string)
    ensures Constructed(JsonResponse(description, schema, example))
    ensures Constructed(TextPlainResponse(description, text))
  {
    var json, plain := JsonResponse(description, schema, example).fields, TextPlainResponse(description, text).fields;
    assert json[1..][0].key == "content" && Get(json, "content") == Some(json[1].value);
    assert plain[1..][0].key == "content" && Get(plain, "content") == Some(plain[1].value);
  }

  /// Enrichment

  function SchemaOf(block: seq<Field>): Json {
    if ObjectAt(block, "schema").Some? then ObjectAt(block, "schema").value else Null
  }

  function EnrichRequestBlock(block: seq<Field>): seq<Field> {
    if Absent(Get(block, "example")) && !Truthy(Get(block, "examples"))
    then Put(block, "example", ExampleFor(SchemaOf(block)))
    else block
  }

  function EnrichResponseBlock(block: seq<Field>): seq<Field> {
    if Absent(Get(block, "example")) then Put(block, "example", ExampleFor(SchemaOf(block))) else block
  }

  function EnrichRequest(op: seq<Field>): seq<Field> {
    var body := ObjectAt(op, "requestBody");
    if body.None? then op
    else
      var content := ObjectAt(body.value.fields, "content");
      if content.None? then op
      else
        var block := ObjectAt(content.value.fields, "application/json");
        if block.None? then op
        else
          var block' := Obj(EnrichRequestBlock(block.value.fields));
          var content' := Obj(Put(content.value.fields, "application/json", block'));
          Put(op, "requestBody", Obj(Put(body.value.fields, "content", content')))
  }

  const EMPTY_TEXT := Obj([
    Field("text/plain", Obj([Field("schema", Obj([Field("type", Str("string"))])), Field("example", Str(""))]))])

  function EnrichResponse(resp: seq<Field>): seq<Field> {
    var content := ObjectAt(resp, "content");
    if content.None? || content.value.fields == [] then Put(resp, "content", EMPTY_TEXT)
    else
      var block := ObjectAt(content.value.fields, "application/json");
      if block.None? then resp
      else Put(resp, "content",
               Obj(Put(content.value.fields, "application/json", Obj(EnrichResponseBlock(block.value.fields)))))
  }

  function EnrichResponseField(f: Field): Field {
    if Success(f.key) && f.value.Obj? then Field(f.key, Obj(EnrichResponse(f.value.fields))) else f
  }

  function EnrichResponses(fields: seq<Field>): seq<Field> {
    if fields == [] then [] else [EnrichResponseField(fields[0])] + EnrichResponses(fields[1..])
  }

  function EnrichOperation(op: seq<Field>): seq<Field> {
    var o := EnrichRequest(op);
    var responses := ObjectAt(o, "responses");
    if responses.None? then o else Put(o, "responses", Obj(EnrichResponses(responses.value.fields)))
  }

  function EnrichMethods(fields: seq<Field>): seq<Field> {
    if fields == [] then []
    else
      var f := fields[0];
      [if f.value.Obj? then Field(f.key, Obj(EnrichOperation(f.value.fields))) else f] + EnrichMethods(fields[1..])
  }

  function EnrichPaths(fields: seq<Field>): seq<Field> {
    if fields == [] then []
    else
      var f := fields[0];
      [if f.value.Obj? then Field(f.key, Obj(EnrichMethods(f.value.fields))) else f] + EnrichPaths(fields[1..])
  }

  /** Every operation is an object and so are its successful responses, each as a constructor leaves it. */
  predicate OperationBuilt(op: Json) {
    op.Obj? &&
    match ObjectAt(op.fields, "responses")
    case None => !Truthy(Get(op.fields, "responses"))
    case Some(responses) => forall f <- responses.fields :: Success(f.key) ==> Constructed(f.value)
  }

  predicate PathsBuilt(paths: seq<Field>) {
    forall p <- paths :: p.value.Obj? && forall f <- p.value.fields :: OperationBuilt(f.value)
  }

  /// The gate

  predicate HasExample(block: seq<Field>) {
    Get(block, "example").Some? || Get(block, "examples").Some?
  }

  /** The JSON request block of an operation. */
  function RequestBlock(op: seq<Field>): (b: Option<Json>)
    ensures b.Some? ==> b.value.Obj?
  {
    var body := ObjectAt(op, "requestBody");
    if body.None? then None
    else
      var content := ObjectAt(body.value.fields, "content");
      if content.None? then None else ObjectAt(content.value.fields, "application/json")
  }

  predicate MissingRequest(method_: string, op: seq<Field>) {
    Lower(method_) in ["post", "put", "patch"] && RequestBlock(op).Some? && !HasExample(RequestBlock(op).value.fields)
  }

  predicate SuccessExample(resp: Json) {
    resp.Obj? && ObjectAt(resp.fields, "content").Some? &&
    var content := ObjectAt(resp.fields, "content").value.fields;
    || (ObjectAt(content, "application/json").Some? && HasExample(ObjectAt(content, "application/json").value.fields))
    || Truthy(Get(content, "text/plain")) || Truthy(Get(content, "text/html"))
  }

  predicate HasSuccess(op: seq<Field>) {
    ObjectAt(op, "responses").Some? && exists f <- ObjectAt(op, "responses").value.fields :: Success(f.key)
  }

  predicate HasSuccessExample(op: seq<Field>) {
    ObjectAt(op, "responses").Some?
    && exists f <- ObjectAt(op, "responses").value.fields :: Success(f.key) && SuccessExample(f.value)
  }

  predicate IsOperation(f: Field) {
    f.value.Obj? && !("x-" <= Lower(f.key)) && Lower(f.key) != "parameters"
  }

  predicate OperationPasses(f: Field) {
    IsOperation(f) ==>
      !MissingRequest(f.key, f.value.fields) && (HasSuccess(f.value.fields) ==> HasSuccessExample(f.value.fields))
  }

  predicate GatePasses(paths: seq<Field>) {
    forall p <- paths :: p.value.Obj? ==> forall f <- p.value.fields :: OperationPasses(f)
  }

  /// Enrichment gives what the gate asks for

  lemma RequestEnriched(op: seq<Field>)
    ensures var b := RequestBlock(EnrichRequest(op)); b.Some? ==> HasExample(b.value.fields)
  {
    hide ExampleFor, Truthy;
    var body := ObjectAt(op, "requestBody");
    if body.Some? && ObjectAt(body.value.fields, "content").Some? {
      var content := ObjectAt(body.value.fields, "content").value.fields;
      if ObjectAt(content, "application/json").Some? {
        var block := ObjectAt(content, "application/json").value.fields;
        var block' := Obj(EnrichRequestBlock(block));
        var content' := Obj(Put(content, "application/json", block'));
        GetPut(op, "requestBody", Obj(Put(body.value.fields, "content", content')), "requestBody");
        GetPut(body.value.fields, "content", content', "content");
        GetPut(content, "application/json", block', "application/json");
        BlockEnriched(block);
      }
    }
  }

  lemma BlockEnriched(block: seq<Field>)
    ensures HasExample(EnrichRequestBlock(block)) && HasExample(EnrichResponseBlock(block))
  {
    GetPut(block, "example", ExampleFor(SchemaOf(block)), "example");
  }

  /** A response whose example survives scrubbing: in JSON, or by a text block with a schema. */
  predicate Sturdy(resp: Json) {
    resp.Obj? && ObjectAt(resp.fields, "content").Some? &&
    var content := ObjectAt(resp.fields, "content").value.fields;
    || (ObjectAt(content, "application/json").Some? && HasExample(ObjectAt(content, "application/json").value.fields))
    || HasTextSchema(content)
  }

  lemma ResponseEnriched(resp: seq<Field>)
    requires Constructed(Obj(resp))
    ensures Sturdy(Obj(EnrichResponse(resp)))
  {
    hide ExampleFor;
    var content := ObjectAt(resp, "content");
    if content.None? || content.value.fields == [] {
      GetPut(resp, "content", EMPTY_TEXT, "content");
    } else if ObjectAt(content.value.fields, "application/json").Some? {
      var block := ObjectAt(content.value.fields, "application/json").value.fields;
      var block' := Obj(EnrichResponseBlock(block));
      GetPut(content.value.fields, "application/json", block', "application/json");
      GetPut(resp, "content", Obj(Put(content.value.fields, "application/json", block')), "content");
      BlockEnriched(block);
    }
  }

  lemma {:induction false} GetEnriched(fields: seq<Field>, key: string)
    ensures Get(EnrichResponses(fields), key) ==
            match Get(fields, key) case Some(v) => Some(EnrichResponseField(Field(key, v)).value) case None => None
  {
    hide EnrichResponse, Success;
    if fields != [] {
      GetEnriched(fields[1..], key);
      assert EnrichResponses(fields)[1..] == EnrichResponses(fields[1..]);
    }
  }

  /** An enriched operation has its request example, and a sturdy response under every successful code. */
  lemma OperationEnriched(op: seq<Field>)
    requires OperationBuilt(Obj(op))
    ensures var e := EnrichOperation(op);
            && (RequestBlock(e).Some? ==> HasExample(RequestBlock(e).value.fields))
            && (ObjectAt(e, "responses").Some? ==>
                  var r := ObjectAt(e, "responses").value.fields;
                  forall k :: Success(k) && Get(r, k).Some? ==> Sturdy(Get(r, k).value))
  {
    hide EnrichRequest, RequestBlock, Constructed, Sturdy, Success, EnrichResponse, Truthy;
    RequestEnriched(op);
    var o := EnrichRequest(op);
    RequestKeepsResponses(op);
    var responses := ObjectAt(o, "responses");
    if responses.Some? {
      var r := responses.value.fields;
      var r' := EnrichResponses(r);
      GetPut(o, "responses", Obj(r'), "responses");
      PutKeepsRequest(o, Obj(r'));
      forall k | Success(k) && Get(r', k).Some? ensures Sturdy(Get(r', k).value) {
        GetEnriched(r, k);
        GetIsMember(r, k);
        var v := Get(r, k).value;
        ConstructedIsObject(v);
        ResponseEnriched(v.fields);
      }
    }
  }

  lemma ConstructedIsObject(v: Json)
    requires Constructed(v)
    ensures v.Obj?
  {
  }

  lemma RequestKeepsResponses(op: seq<Field>)
    ensures Get(EnrichRequest(op), "responses") == Get(op, "responses")
  {
    hide EnrichRequestBlock;
    var body := ObjectAt(op, "requestBody");
    if body.Some? && ObjectAt(body.value.fields, "content").Some? {
      var content := ObjectAt(body.value.fields, "content").value.fields;
      if ObjectAt(content, "application/json").Some? {
        var block' := Obj(EnrichRequestBlock(ObjectAt(content, "application/json").value.fields));
        GetPut(op, "requestBody", Obj(Put(body.value.fields, "content", Obj(Put(content, "application/json", block')))),
               "responses");
      }
    }
  }

  lemma PutKeepsRequest(op: seq<Field>, responses: Json)
    ensures RequestBlock(Put(op, "responses", responses)) == RequestBlock(op)
  {
    GetPut(op, "responses", responses, "requestBody");
  }

  /// Scrubbing keeps it

  /** What stripping and rewriting make of a value. */
  function Image(j: Json): Json {
    Redact(Strip(j))
  }

  predicate Plain(key: string) {
    key !in LEGACY_KEYS && key != "required" && key != "parameters"
  }

  lemma GetImage(fields: seq<Field>, key: string)
    requires Plain(key)
    ensures Image(Obj(fields)).Obj?
    ensures Get(Image(Obj(fields)).fields, key)
            == match Get(fields, key) case Some(v) => Some(Image(v)) case None => None
  {
    hide Redact, Strip;
    assert Redact(Strip(Obj(fields))) == Obj(RedactFields(StripFields(fields))) by { ImageOfObject(fields); }
    GetStripped(fields, key);
    GetRedacted(StripFields(fields), key);
  }

  lemma ImageOfObject(fields: seq<Field>)
    ensures Redact(Strip(Obj(fields))) == Obj(RedactFields(StripFields(fields)))
  {
  }

  lemma ImageKinds(j: Json)
    ensures Image(j).Obj? <==> j.Obj?
    ensures j.Obj? ==> Image(j) == Obj(RedactFields(StripFields(j.fields)))
  {
  }

  lemma ImageObjectAt(fields: seq<Field>, key: string)
    requires Plain(key)
    ensures Image(Obj(fields)).Obj?
    ensures var o, o' := ObjectAt(fields, key), ObjectAt(Image(Obj(fields)).fields, key);
            o' == match o case Some(v) => Some(Image(v)) case None => None
  {
    hide Image;
    GetImage(fields, key);
    if Get(fields, key).Some? {
      ImageKinds(Get(fields, key).value);
    }
  }

  /** An operation after the passes; only the seven methods have their own parameters cleaned. */
  function ScrubbedOperation(key: string, op: Json): Json {
    if key in METHODS then Redact(CleanOperation(Strip(op))) else Image(op)
  }

  lemma {:induction false} RedactCommutes(fields: seq<Field>, key: string)
    requires key != "parameters"
    ensures Get(RedactFields(CleanParameterFields(fields)), key) == Get(RedactFields(fields), key)
  {
    GetRedacted(fields, key);
    GetRedacted(CleanParameterFields(fields), key);
    GetCleanedOperation(fields, key);
  }

  lemma GetScrubbed(method_: string, op: seq<Field>, key: string)
    requires Plain(key)
    ensures ScrubbedOperation(method_, Obj(op)).Obj?
    ensures Get(ScrubbedOperation(method_, Obj(op)).fields, key) == Get(Image(Obj(op)).fields, key)
  {
    ImageKinds(Obj(op));
    if method_ in METHODS {
      assert ScrubbedOperation(method_, Obj(op)) == Obj(RedactFields(CleanParameterFields(StripFields(op))));
      RedactCommutes(StripFields(op), key);
    }
  }

  lemma ScrubbedObjectAt(method_: string, op: seq<Field>, key: string)
    requires Plain(key)
    ensures ScrubbedOperation(method_, Obj(op)).Obj?
    ensures var o, o' := ObjectAt(op, key), ObjectAt(ScrubbedOperation(method_, Obj(op)).fields, key);
            o' == match o case Some(v) => Some(Image(v)) case None => None
  {
    hide Image, ScrubbedOperation;
    ImageObjectAt(op, key);
    GetScrubbed(method_, op, key);
  }

  lemma PlainNames()
    ensures Plain("requestBody") && Plain("responses") && Plain("content") && Plain("application/json")
            && Plain("text/plain")
    ensures Plain("schema") && Plain("example") && Plain("examples") && Plain("paths")
  {
  }

  lemma CodesArePlain(key: string)
    requires Success(key)
    ensures Plain(key)
  {
    hide NumberOf;
    assert key[0] in key && IsDigit(key[0]);
  }

  lemma ExampleSurvives(block: seq<Field>)
    requires HasExample(block)
    ensures Image(Obj(block)).Obj? && HasExample(Image(Obj(block)).fields)
  {
    hide Image, Plain;
    PlainNames();
    GetImage(block, "example");
    GetImage(block, "examples");
  }

  lemma RequestSurvives(method_: string, op: seq<Field>)
    requires RequestBlock(op).Some? ==> HasExample(RequestBlock(op).value.fields)
    ensures ScrubbedOperation(method_, Obj(op)).Obj?
            && !MissingRequest(method_, ScrubbedOperation(method_, Obj(op)).fields)
  {
    hide Image, Plain, ScrubbedOperation, HasExample, Lower;
    PlainNames();
    ScrubbedObjectAt(method_, op, "requestBody");
    var body := ObjectAt(op, "requestBody");
    if body.Some? {
      ImageObjectAt(body.value.fields, "content");
      var content := ObjectAt(body.value.fields, "content");
      if content.Some? {
        ImageObjectAt(content.value.fields, "application/json");
        if RequestBlock(op).Some? {
          ExampleSurvives(RequestBlock(op).value.fields);
        }
      }
    }
  }

  lemma SturdySurvives(resp: Json)
    requires Sturdy(resp)
    ensures SuccessExample(Image(resp))
  {
    hide Image, Plain, HasExample;
    PlainNames();
    ImageObjectAt(resp.fields, "content");
    var content := ObjectAt(resp.fields, "content").value.fields;
    ImageObjectAt(content, "application/json");
    ImageObjectAt(content, "text/plain");
    if ObjectAt(content, "application/json").Some? && HasExample(ObjectAt(content, "application/json").value.fields) {
      ExampleSurvives(ObjectAt(content, "application/json").value.fields);
    } else {
      var text := ObjectAt(content, "text/plain").value.fields;
      GetImage(text, "schema");
    }
  }

  lemma {:induction false} StrippedOrigin(fields: seq<Field>, key: string)
    requires exists f <- RedactFields(StripFields(fields)) :: f.key == key
    ensures Get(fields, key).Some?
  {
    hide Strip, Redact, KeepCurrentNames;
    if fields != [] && fields[0].key != key {
      var f :| f in RedactFields(StripFields(fields)) && f.key == key;
      if fields[0].key !in LEGACY_KEYS {
        assert StripFields(fields)[1..] == StripFields(fields[1..]);
        assert RedactFields(StripFields(fields))[1..] == RedactFields(StripFields(fields[1..]));
        assert f in RedactFields(StripFields(fields))[1..];
      } else {
        assert StripFields(fields) == StripFields(fields[1..]);
      }
      StrippedOrigin(fields[1..], key);
    }
  }

  lemma SuccessSurvives(method_: string, op: seq<Field>)
    requires ObjectAt(op, "responses").Some? ==>
               forall k :: Success(k) && Get(ObjectAt(op, "responses").value.fields, k).Some? ==>
                 Sturdy(Get(ObjectAt(op, "responses").value.fields, k).value)
    ensures ScrubbedOperation(method_, Obj(op)).Obj?
    ensures var op' := ScrubbedOperation(method_, Obj(op)).fields; HasSuccess(op') ==> HasSuccessExample(op')
  {
    hide Plain, ScrubbedOperation, Success, Sturdy, SuccessExample;
    PlainNames();
    ScrubbedObjectAt(method_, op, "responses");
    var op' := ScrubbedOperation(method_, Obj(op)).fields;
    if HasSuccess(op') {
      var r := ObjectAt(op, "responses").value.fields;
      var r' := ObjectAt(op', "responses").value.fields;
      ImageKinds(Obj(r));
      var f :| f in r' && Success(f.key);
      StrippedOrigin(r, f.key);
      CodesArePlain(f.key);
      GetImage(r, f.key);
      hide Image;
      SturdySurvives(Get(r, f.key).value);
      GetIsMember(r', f.key);
      assert Field(f.key, Image(Get(r, f.key).value)) in r';
    }
  }

  /** One operation, enriched and scrubbed, passes the gate. */
  lemma OperationMeetsGate(key: string, op: Json)
    requires OperationBuilt(op)
    ensures OperationPasses(Field(key, ScrubbedOperation(key, Obj(EnrichOperation(op.fields)))))
  {
    hide EnrichOperation, ScrubbedOperation, MissingRequest, HasSuccess, HasSuccessExample, Sturdy, Success, HasExample,
         Lower, RequestBlock;
    var e := EnrichOperation(op.fields);
    OperationEnriched(op.fields);
    RequestSurvives(key, e);
    SuccessSurvives(key, e);
  }

  /// The whole document

  lemma {:induction false} MethodOrigin(fields: seq<Field>, f': Field)
    requires f' in RedactFields(CleanPathItemFields(StripFields(fields))) && f'.value.Obj?
    requires forall f <- fields :: f.value.Obj?
    ensures exists f <- fields :: f.key == f'.key && f'.value == ScrubbedOperation(f.key, f.value)
  {
    hide Strip, Redact, CleanOperation, KeepCurrentParameters, KeepCurrentNames;
    if fields != [] {
      var r := RedactFields(CleanPathItemFields(StripFields(fields)));
      if fields[0].key in LEGACY_KEYS {
        assert StripFields(fields) == StripFields(fields[1..]);
      } else {
        assert StripFields(fields)[1..] == StripFields(fields[1..]);
        assert CleanPathItemFields(StripFields(fields))[1..] == CleanPathItemFields(StripFields(fields[1..]));
        assert r[1..] == RedactFields(CleanPathItemFields(StripFields(fields[1..])));
        if f' == r[0] {
          FirstMethod(fields[0]);
          assert fields[0] in fields;
          return;
        }
        assert f' in r[1..];
      }
      assert forall f <- fields[1..] :: f in fields;
      MethodOrigin(fields[1..], f');
    }
  }

  lemma FirstMethod(f: Field)
    requires f.value.Obj?
    ensures CleanPathItemField(StripField(f)).key == f.key
    ensures Redact(CleanPathItemField(StripField(f)).value) == ScrubbedOperation(f.key, f.value)
  {
    ImageKinds(f.value);
    hide Redact;
  }

  lemma {:induction false} MethodEnriched(fields: seq<Field>, f: Field)
    requires f in EnrichMethods(fields) && forall g <- fields :: OperationBuilt(g.value)
    ensures exists g <- fields :: g.value.Obj? && f == Field(g.key, Obj(EnrichOperation(g.value.fields)))
  {
    hide EnrichOperation;
    if fields != [] {
      var rest := EnrichMethods(fields)[1..];
      assert rest == EnrichMethods(fields[1..]);
      assert forall g <- fields[1..] :: g in fields;
      if f == EnrichMethods(fields)[0] {
        assert fields[0] in fields;
      } else {
        assert f in rest;
        MethodEnriched(fields[1..], f);
      }
    }
  }

  /** The operations of one path item all pass. */
  lemma PathItemMeetsGate(methods: seq<Field>, f': Field)
    requires forall f <- methods :: OperationBuilt(f.value)
    requires f' in RedactFields(CleanPathItemFields(StripFields(EnrichMethods(methods))))
    ensures OperationPasses(f')
  {
    hide OperationBuilt, EnrichOperation, ScrubbedOperation, MissingRequest, HasSuccess, HasSuccessExample,
      StripFields, CleanPathItemFields, RedactFields, EnrichMethods;
    if f'.value.Obj? {
      forall f | f in EnrichMethods(methods) ensures f.value.Obj? {
        MethodEnriched(methods, f);
      }
      MethodOrigin(EnrichMethods(methods), f');
      var f :| f in EnrichMethods(methods) && f.key == f'.key && f'.value == ScrubbedOperation(f.key, f.value);
      MethodEnriched(methods, f);
      var g :| g in methods && g.value.Obj? && f == Field(g.key, Obj(EnrichOperation(g.value.fields)));
      OperationMeetsGate(g.key, g.value);
    }
  }

  lemma {:induction false} PathOrigin(paths: seq<Field>, p': Field)
    requires p' in RedactFields(CleanPaths(StripFields(EnrichPaths(paths)))) && p'.value.Obj?
    requires forall p <- paths :: p.value.Obj?
    ensures exists p <- paths ::
              p'.value == Obj(RedactFields(CleanPathItemFields(StripFields(EnrichMethods(p.value.fields)))))
  {
    hide EnrichMethods, RedactFields, CleanPathItemFields, KeepCurrentNames;
    if paths != [] {
      var e := EnrichPaths(paths);
      assert e[1..] == EnrichPaths(paths[1..]);
      assert forall p <- paths[1..] :: p in paths;
      PathStep(e);
      if e[0].key !in LEGACY_KEYS && p' == Field(e[0].key, PathImage(e[0].value)) {
        assert paths[0] in paths;
      } else {
        PathOrigin(paths[1..], p');
      }
    }
  }

  function PathImage(item: Json): Json
    requires item.Obj?
  {
    Obj(RedactFields(CleanPathItemFields(StripFields(item.fields))))
  }

  lemma PathStep(e: seq<Field>)
    requires e != [] && e[0].value.Obj?
    ensures RedactFields(CleanPaths(StripFields(e))) ==
            (if e[0].key in LEGACY_KEYS then [] else [Field(e[0].key, PathImage(e[0].value))])
            + RedactFields(CleanPaths(StripFields(e[1..])))
  {
    if e[0].key in LEGACY_KEYS {
      assert StripFields(e) == StripFields(e[1..]);
    } else {
      StripObjectField(e[0]);
      var item := StripFields(e[0].value.fields);
      assert StripFields(e) == [Field(e[0].key, Obj(item))] + StripFields(e[1..]);
      CleanedHead(e[0].key, item, StripFields(e[1..]));
    }
  }

  lemma StripObjectField(f: Field)
    requires f.value.Obj?
    ensures StripField(f) == Field(f.key, Obj(StripFields(f.value.fields)))
  {
  }

  lemma CleanedHead(key: string, item: seq<Field>, rest: seq<Field>)
    ensures RedactFields(CleanPaths([Field(key, Obj(item))] + rest)) ==
            [Field(key, Obj(RedactFields(CleanPathItemFields(item))))] + RedactFields(CleanPaths(rest))
  {
    var fields := [Field(key, Obj(item))] + rest;
    assert fields[1..] == rest;
    assert CleanPaths(fields)[1..] == CleanPaths(rest);
  }

  /** Generator and gate agree: whatever else the document holds, once its paths are enriched and it is scrubbed, no
      write operation lacks a request example and every operation with a successful response has one. */
  lemma GeneratorMeetsGate(spec: seq<Field>, paths: seq<Field>)
    requires PathsBuilt(paths)
    ensures Get(spec, "paths") == Some(Obj(EnrichPaths(paths))) && Scrub(Obj(spec)).Some? ==>
              && Scrub(Obj(spec)).value.Obj?
              && var out := ObjectAt(Scrub(Obj(spec)).value.fields, "paths");
                 out.Some? && GatePasses(out.value.fields)
  {
    hide OperationBuilt, OperationPasses, StripRaises, ParametersRaise;
    if Get(spec, "paths") == Some(Obj(EnrichPaths(paths))) && Scrub(Obj(spec)).Some? {
      ScrubbedPaths(spec, EnrichPaths(paths));
    }
    hide Scrub, EnrichPaths, EnrichMethods, StripFields, CleanPaths, CleanPathItemFields, RedactFields;
    var out := RedactFields(CleanPaths(StripFields(EnrichPaths(paths))));
    forall p', f' | p' in out && p'.value.Obj? && f' in p'.value.fields ensures OperationPasses(f') {
      PathOrigin(paths, p');
      var p :| p in paths
        && p'.value == Obj(RedactFields(CleanPathItemFields(StripFields(EnrichMethods(p.value.fields)))));
      PathItemMeetsGate(p.value.fields, f');
    }
  }

  lemma ScrubbedPaths(spec: seq<Field>, paths: seq<Field>)
    requires Get(spec, "paths") == Some(Obj(paths)) && Scrub(Obj(spec)).Some?
    ensures Scrub(Obj(spec)).value.Obj?
    ensures ObjectAt(Scrub(Obj(spec)).value.fields, "paths") == Some(Obj(RedactFields(CleanPaths(StripFields(paths)))))
  {
    hide StripRaises, ParametersRaise;
    var stripped := StripFields(spec);
    PlainNames();
    GetStripped(spec, "paths");
    GetCleanedSpec(stripped, "paths");
    GetRedacted(CleanSpecFields(stripped), "paths");
    assert Scrub(Obj(spec)).value == Obj(RedactFields(CleanSpecFields(stripped)));
  }
}
