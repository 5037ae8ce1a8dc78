/** What the example enrichment changes and, more importantly, what it leaves alone: stated by lookups in the operation
    before and after it. */
module OpenApiEnrich {
  import opened Options
  import opened JsonTree
  import opened OpenApiExamples
  import opened OpenApiGate

  /// Effects, by lookups

  /** A block gets the placeholder if it is wanted, and is the same otherwise; no other key changes. */
  ghost predicate BlockEffect(before: seq<Field>, after: seq<Field>, wanted: bool) {
    && (!wanted ==> after == before)
    && (wanted ==>
          Get(after, "example")
          == Some(ExampleFor(match Get(before, "schema") case Some(Obj(fields)) => Obj(fields) case _ => Null)))
    && forall k: string :: k != "example" ==> Get(after, k) == Get(before, k)
  }

  /** A request block wants an example if it has none but null, and no examples worth the name. */
  predicate RequestWants(block: seq<Field>) {
    && (Get(block, "example") == None || Get(block, "example") == Some(Null))
    && !Truthy(Get(block, "examples"))
  }

  /** A response block wants one if it has none but null. */
  predicate ResponseWants(block: seq<Field>) {
    Get(block, "example") == None || Get(block, "example") == Some(Null)
  }

  /** Only the JSON block under `content` changes. */
  ghost predicate ContentEffect(before: seq<Field>, after: seq<Field>, wanted: bool) {
    && (forall k: string :: k != "content" ==> Get(after, k) == Get(before, k))
    && ObjectAt(before, "content").Some? && ObjectAt(after, "content").Some?
    && var was, now := ObjectAt(before, "content").value.fields, ObjectAt(after, "content").value.fields;
       && (forall k: string :: k != "application/json" ==> Get(now, k) == Get(was, k))
       && ObjectAt(was, "application/json").Some? && ObjectAt(now, "application/json").Some?
       && BlockEffect(ObjectAt(was, "application/json").value.fields, ObjectAt(now, "application/json").value.fields,
                      wanted)
  }

  ghost predicate RequestEffect(op: seq<Field>, after: seq<Field>) {
    if RequestBlock(op).None? then Get(after, "requestBody") == Get(op, "requestBody")
    else
      && ObjectAt(op, "requestBody").Some? && ObjectAt(after, "requestBody").Some?
      && ContentEffect(ObjectAt(op, "requestBody").value.fields, ObjectAt(after, "requestBody").value.fields,
                       RequestWants(RequestBlock(op).value.fields))
  }

  ghost predicate ResponseEffect(resp: seq<Field>, after: seq<Field>) {
    var content := ObjectAt(resp, "content");
    if content.None? || content.value.fields == [] then
      && Get(after, "content") == Some(EMPTY_TEXT)
      && forall k: string :: k != "content" ==> Get(after, k) == Get(resp, k)
    else if ObjectAt(content.value.fields, "application/json").None? then after == resp
    else ContentEffect(resp, after, ResponseWants(ObjectAt(content.value.fields, "application/json").value.fields))
  }

  /** Successful responses are enriched, all others stay. */
  ghost predicate ResponsesEffect(before: seq<Field>, after: seq<Field>) {
    forall code: string ::
      match Get(before, code)
      case None => Get(after, code) == None
      case Some(v) =>
        if Success(code) && v.Obj? then
          ObjectAt(after, code).Some? && ResponseEffect(v.fields, ObjectAt(after, code).value.fields)
        else Get(after, code) == Some(v)
  }

  ghost predicate OperationEffect(op: seq<Field>, after: seq<Field>) {
    && RequestEffect(op, after)
    && (match ObjectAt(op, "responses")
        case None => Get(after, "responses") == Get(op, "responses")
        case Some(r) =>
          ObjectAt(after, "responses").Some? && ResponsesEffect(r.fields, ObjectAt(after, "responses").value.fields))
    && forall k: string :: k != "requestBody" && k != "responses" ==> Get(after, k) == Get(op, k)
  }

  /** Paths and methods stay in place, each with its operation enriched. */
  ghost predicate ItemEffect(methods: seq<Field>, after: seq<Field>) {
    && |after| == |methods|
    && forall j :: 0 <= j < |methods| ==>
         && after[j].key == methods[j].key
         && if methods[j].value.Obj? then
              after[j].value.Obj? && OperationEffect(methods[j].value.fields, after[j].value.fields)
            else after[j] == methods[j]
  }

  ghost predicate PathsEffect(paths: seq<Field>, after: seq<Field>) {
    && |after| == |paths|
    && forall i :: 0 <= i < |paths| ==>
         && after[i].key == paths[i].key
         && if paths[i].value.Obj? then
              after[i].value.Obj? && ItemEffect(paths[i].value.fields, after[i].value.fields)
            else after[i] == paths[i]
  }

  /// The enrichment has these effects

  lemma PutChangesOne(fields: seq<Field>, key: string, value: Json)
    ensures Get(Put(fields, key, value), key) == Some(value)
    ensures forall k: string :: k != key ==> Get(Put(fields, key, value), k) == Get(fields, k)
  {
    GetPut(fields, key, value, key);
    forall k: string | k != key ensures Get(Put(fields, key, value), k) == Get(fields, k) {
      GetPut(fields, key, value, k);
    }
  }

  lemma BlocksEnriched(block: seq<Field>)
    ensures BlockEffect(block, EnrichRequestBlock(block), RequestWants(block))
    ensures BlockEffect(block, EnrichResponseBlock(block), ResponseWants(block))
  {
    hide ExampleFor, Truthy;
    PutChangesOne(block, "example", ExampleFor(SchemaOf(block)));
  }

  lemma ContentReplaced(before: seq<Field>, block': seq<Field>, wanted: bool)
    requires ObjectAt(before, "content").Some?
    requires var was := ObjectAt(before, "content").value.fields;
             ObjectAt(was, "application/json").Some?
             && BlockEffect(ObjectAt(was, "application/json").value.fields, block', wanted)
    ensures var was := ObjectAt(before, "content").value.fields;
            ContentEffect(before, Put(before, "content", Obj(Put(was, "application/json", Obj(block')))), wanted)
  {
    hide BlockEffect;
    var was := ObjectAt(before, "content").value.fields;
    PutChangesOne(was, "application/json", Obj(block'));
    PutChangesOne(before, "content", Obj(Put(was, "application/json", Obj(block'))));
  }

  lemma RequestHasEffect(op: seq<Field>)
    ensures RequestEffect(op, EnrichRequest(op))
    ensures forall k: string :: k != "requestBody" ==> Get(EnrichRequest(op), k) == Get(op, k)
  {
    hide BlockEffect, ContentEffect, EnrichRequestBlock, RequestWants;
    if RequestBlock(op).Some? {
      var body := ObjectAt(op, "requestBody").value.fields;
      var content, block := ObjectAt(body, "content").value.fields, RequestBlock(op).value.fields;
      BlocksEnriched(block);
      var block' := EnrichRequestBlock(block);
      ContentReplaced(body, block', RequestWants(block));
      PutChangesOne(op, "requestBody", Obj(Put(body, "content", Obj(Put(content, "application/json", Obj(block'))))));
    }
  }

  lemma ResponseHasEffect(resp: seq<Field>)
    ensures ResponseEffect(resp, EnrichResponse(resp))
  {
    hide BlockEffect, ContentEffect, EnrichResponseBlock, ResponseWants;
    var content := ObjectAt(resp, "content");
    if content.None? || content.value.fields == [] {
      PutChangesOne(resp, "content", EMPTY_TEXT);
    } else if ObjectAt(content.value.fields, "application/json").Some? {
      var block := ObjectAt(content.value.fields, "application/json").value.fields;
      BlocksEnriched(block);
      ContentReplaced(resp, EnrichResponseBlock(block), ResponseWants(block));
    }
  }

  lemma ResponsesHaveEffect(fields: seq<Field>)
    ensures ResponsesEffect(fields, EnrichResponses(fields))
  {
    hide EnrichResponse, ResponseEffect, Success, EnrichResponses;
    forall code: string
      ensures match Get(fields, code)
              case None => Get(EnrichResponses(fields), code) == None
              case Some(v) =>
                if Success(code) && v.Obj? then
                  && ObjectAt(EnrichResponses(fields), code).Some?
                  && ResponseEffect(v.fields, ObjectAt(EnrichResponses(fields), code).value.fields)
                else Get(EnrichResponses(fields), code) == Some(v)
    {
      GetEnriched(fields, code);
      var v := Get(fields, code);
      if v.Some? && v.value.Obj? {
        ResponseHasEffect(v.value.fields);
      }
    }
  }

  /** One operation: the request block and the JSON blocks of successful responses get an example where they have none,
      successful responses without content get an empty text, and every other lookup gives what it gave. */
  lemma OperationHasEffect(op: seq<Field>)
    ensures OperationEffect(op, EnrichOperation(op))
  {
    hide EnrichRequest, RequestBlock, ContentEffect, ResponsesEffect, EnrichResponses;
    RequestHasEffect(op);
    var o := EnrichRequest(op);
    var responses := ObjectAt(o, "responses");
    if responses.Some? {
      ResponsesHaveEffect(responses.value.fields);
      PutChangesOne(o, "responses", Obj(EnrichResponses(responses.value.fields)));
    }
  }

  lemma {:induction false} ItemHasEffect(methods: seq<Field>)
    ensures ItemEffect(methods, EnrichMethods(methods))
  {
    hide EnrichOperation, OperationEffect;
    if methods != [] {
      var f := methods[0];
      if f.value.Obj? {
        OperationHasEffect(f.value.fields);
      }
      ItemHasEffect(methods[1..]);
      var rest := EnrichMethods(methods[1..]);
      assert forall j ::
               1 <= j < |methods| ==> EnrichMethods(methods)[j] == rest[j - 1] && methods[j] == methods[1..][j - 1];
    }
  }

  /** So for every operation of the paths, each in its place. */
  lemma {:induction false} PathsHaveEffect(paths: seq<Field>)
    ensures PathsEffect(paths, EnrichPaths(paths))
  {
    hide EnrichMethods, ItemEffect;
    if paths != [] {
      var f := paths[0];
      if f.value.Obj? {
        ItemHasEffect(f.value.fields);
      }
      PathsHaveEffect(paths[1..]);
      var rest := EnrichPaths(paths[1..]);
      assert forall j :: 1 <= j < |paths| ==> EnrichPaths(paths)[j] == rest[j - 1] && paths[j] == paths[1..][j - 1];
    }
  }

  /// A second enrichment changes nothing

  lemma {:induction false} PutSame(fields: seq<Field>, key: string, value: Json)
    requires Get(fields, key) == Some(value)
    ensures Put(fields, key, value) == fields
  {
    if fields[0].key == key {
      assert fields == [fields[0]] + fields[1..];
    } else {
      PutSame(fields[1..], key, value);
    }
  }

  lemma ExamplesAreNotNull(schema: Json)
    ensures ExampleFor(schema) != Null
  {
  }

  lemma BlocksStay(block: seq<Field>)
    ensures EnrichRequestBlock(EnrichRequestBlock(block)) == EnrichRequestBlock(block)
    ensures EnrichResponseBlock(EnrichResponseBlock(block)) == EnrichResponseBlock(block)
  {
    hide ExampleFor, Truthy;
    PutChangesOne(block, "example", ExampleFor(SchemaOf(block)));
    ExamplesAreNotNull(SchemaOf(block));
  }

  lemma RequestStays(op: seq<Field>)
    ensures EnrichRequest(EnrichRequest(op)) == EnrichRequest(op)
  {
    hide EnrichRequestBlock;
    if RequestBlock(op).Some? {
      var body := ObjectAt(op, "requestBody").value.fields;
      var content, block := ObjectAt(body, "content").value.fields, RequestBlock(op).value.fields;
      var block' := Obj(EnrichRequestBlock(block));
      var content' := Put(content, "application/json", block');
      var body' := Put(body, "content", Obj(content'));
      PutChangesOne(op, "requestBody", Obj(body'));
      PutChangesOne(body, "content", Obj(content'));
      PutChangesOne(content, "application/json", block');
      BlocksStay(block);
      PutSame(content', "application/json", block');
      PutSame(body', "content", Obj(content'));
      PutSame(Put(op, "requestBody", Obj(body')), "requestBody", Obj(body'));
    }
  }

  lemma EmptyTextStays()
    ensures ObjectAt(EMPTY_TEXT.fields, "application/json").None? && EMPTY_TEXT.fields != []
  {
    assert EMPTY_TEXT.fields[1..] == [];
  }

  lemma ResponseStays(resp: seq<Field>)
    ensures EnrichResponse(EnrichResponse(resp)) == EnrichResponse(resp)
  {
    hide EnrichResponseBlock;
    var content := ObjectAt(resp, "content");
    if content.None? || content.value.fields == [] {
      PutChangesOne(resp, "content", EMPTY_TEXT);
      EmptyTextStays();
    } else if ObjectAt(content.value.fields, "application/json").Some? {
      var was := content.value.fields;
      var block := ObjectAt(was, "application/json").value.fields;
      var block' := Obj(EnrichResponseBlock(block));
      var content' := Put(was, "application/json", block');
      PutChangesOne(resp, "content", Obj(content'));
      PutChangesOne(was, "application/json", block');
      BlocksStay(block);
      PutSame(content', "application/json", block');
      PutSame(Put(resp, "content", Obj(content')), "content", Obj(content'));
    }
  }

  lemma {:induction false} ResponsesStay(fields: seq<Field>)
    ensures EnrichResponses(EnrichResponses(fields)) == EnrichResponses(fields)
  {
    hide EnrichResponse, Success;
    if fields != [] {
      if fields[0].value.Obj? {
        ResponseStays(fields[0].value.fields);
      }
      ResponsesStay(fields[1..]);
      assert EnrichResponses(fields)[1..] == EnrichResponses(fields[1..]);
    }
  }

  lemma OperationStays(op: seq<Field>)
    ensures EnrichOperation(EnrichOperation(op)) == EnrichOperation(op)
  {
    hide EnrichResponses;
    var o := EnrichRequest(op);
    var responses := ObjectAt(o, "responses");
    RequestStays(op);
    if responses.Some? {
      var r := Obj(EnrichResponses(responses.value.fields));
      var e := Put(o, "responses", r);
      PutChangesOne(o, "responses", r);
      RequestUnmoved(o, r);
      ResponsesStay(responses.value.fields);
      PutSame(e, "responses", r);
    }
  }

  /** Assigning responses to an operation whose request is enriched leaves nothing to enrich in the request. */
  lemma RequestUnmoved(o: seq<Field>, r: Json)
    requires EnrichRequest(o) == o
    ensures EnrichRequest(Put(o, "responses", r)) == Put(o, "responses", r)
  {
    hide EnrichRequestBlock;
    var e := Put(o, "responses", r);
    PutChangesOne(o, "responses", r);
    if RequestBlock(o).Some? {
      var body := ObjectAt(o, "requestBody").value;
      var content, block := ObjectAt(body.fields, "content").value.fields, RequestBlock(o).value.fields;
      var block' := Obj(EnrichRequestBlock(block));
      var body' := Obj(Put(body.fields, "content", Obj(Put(content, "application/json", block'))));
      PutChangesOne(o, "requestBody", body');
      assert body' == body;
      PutSame(e, "requestBody", body);
    }
  }

  lemma {:induction false} MethodsStay(methods: seq<Field>)
    ensures EnrichMethods(EnrichMethods(methods)) == EnrichMethods(methods)
  {
    hide EnrichOperation;
    if methods != [] {
      if methods[0].value.Obj? {
        OperationStays(methods[0].value.fields);
      }
      MethodsStay(methods[1..]);
      assert EnrichMethods(methods)[1..] == EnrichMethods(methods[1..]);
    }
  }

  /** Enriching an enriched document changes nothing. */
  lemma {:induction false} EnrichmentIsIdempotent(paths: seq<Field>)
    ensures EnrichPaths(EnrichPaths(paths)) == EnrichPaths(paths)
  {
    hide EnrichMethods;
    if paths != [] {
      if paths[0].value.Obj? {
        MethodsStay(paths[0].value.fields);
      }
      EnrichmentIsIdempotent(paths[1..]);
      assert EnrichPaths(paths)[1..] == EnrichPaths(paths[1..]);
    }
  }

  /// Success codes

  predicate AllDigits(s: string) {
    forall c <- s :: IsDigit(c)
  }

  function DigitAt(s: string, i: nat): int
    requires i < |s|
  {
    s[i] as int - '0' as int
  }

  lemma NumberNext(s: string)
    requires s != "" && AllDigits(s)
    ensures var front := s[..|s| - 1];
            && AllDigits(front)
            && NumberOf(s) == 10 * NumberOf(front) + DigitAt(s, |s| - 1)
            && 0 <= DigitAt(s, |s| - 1) <= 9
  {
    var front := s[..|s| - 1];
    assert forall c <- front :: c in s;
    assert s[|s| - 1] in s && IsDigit(s[|s| - 1]);
  }

  lemma LastThree(s: string) returns (low: int)
    requires 3 <= |s| && AllDigits(s)
    ensures var n := |s|;
            && AllDigits(s[..n - 3])
            && 0 <= DigitAt(s, n - 3) <= 9
            && 0 <= low < 100 && NumberOf(s) == 1000 * NumberOf(s[..n - 3]) + 100 * DigitAt(s, n - 3) + low
  {
    hide NumberOf, AllDigits;
    var n := |s|;
    var front, head := s[..n - 1], s[..n - 2];
    assert front[..n - 2] == head && front[n - 2] == s[n - 2];
    assert head[..n - 3] == s[..n - 3] && head[n - 3] == s[n - 3];
    NumberNext(s);
    NumberNext(front);
    NumberNext(head);
    low := 10 * DigitAt(s, n - 2) + DigitAt(s, n - 1);
  }

  lemma TwoDigitsAreSmall(s: string)
    requires |s| <= 2 && AllDigits(s)
    ensures NumberOf(s) < 100
  {
    if s != "" {
      NumberNext(s);
      if |s| == 2 {
        NumberNext(s[..1]);
        assert s[..1][..0] == "";
      } else {
        assert s[..0] == "";
      }
    }
  }

  lemma {:induction false} ZeroMeansZeros(s: string)
    requires AllDigits(s)
    ensures NumberOf(s) == 0 <==> forall i :: 0 <= i < |s| ==> s[i] == '0'
  {
    if s != "" {
      NumberNext(s);
      var front := s[..|s| - 1];
      ZeroMeansZeros(front);
      assert forall i :: 0 <= i < |front| ==> front[i] == s[i];
    }
  }

  /** A code is successful exactly when it is digits, ends in 2xx, and has nothing but zeros before. */
  lemma SuccessMeans(code: string)
    ensures Success(code) <==>
            && 3 <= |code| && AllDigits(code) && code[|code| - 3] == '2'
            && forall i :: 0 <= i < |code| - 3 ==> code[i] == '0'
  {
    hide NumberOf;
    if AllDigits(code) {
      if 3 <= |code| {
        var low := LastThree(code);
        ZeroMeansZeros(code[..|code| - 3]);
        assert forall i :: 0 <= i < |code| - 3 ==> code[..|code| - 3][i] == code[i];
      } else {
        TwoDigitsAreSmall(code);
      }
    }
  }
}
