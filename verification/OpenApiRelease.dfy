/** The enrichment, the gate's example checks and the operation-id check as the tools run them: nested loops over the
    paths map that update it in place or append to lists. */
module OpenApiRelease {
  import opened Options
  import opened Sequences
  import opened Text
  import opened JsonTree
  import opened OpenApiStrip
  import opened OpenApiExamples
  import opened OpenApiGate

  /// Enrichment in place

  class GeneratedPaths {
    var paths: seq<Field>

    constructor (paths: seq<Field>)
      ensures this.paths == paths
    {
      this.paths := paths;
    }

    static method EnrichOne(op: seq<Field>) returns (enriched: seq<Field>)
      ensures enriched == EnrichOperation(op)
    {
      hide EnrichRequest, EnrichResponse, Success;
      enriched := EnrichRequest(op);
      var responses := ObjectAt(enriched, "responses");
      if responses.None? {
        return;
      }
      var fields := responses.value.fields;
      var done: seq<Field> := [];
      for i := 0 to |fields|
        invariant done + EnrichResponses(fields[i..]) == EnrichResponses(fields)
      {
        assert fields[i..][1..] == fields[i + 1..];
        var f := fields[i];
        if Success(f.key) && f.value.Obj? {
          f := Field(f.key, Obj(EnrichResponse(f.value.fields)));
        }
        Regroup(done, [f], EnrichResponses(fields[i + 1..]));
        done := done + [f];
      }
      assert done == EnrichResponses(fields);
      enriched := Put(enriched, "responses", Obj(done));
    }

    static method EnrichItem(methods: seq<Field>) returns (done: seq<Field>)
      ensures done == EnrichMethods(methods)
    {
      hide EnrichOperation;
      done := [];
      for i := 0 to |methods|
        invariant done + EnrichMethods(methods[i..]) == EnrichMethods(methods)
      {
        assert methods[i..][1..] == methods[i + 1..];
        var f := methods[i];
        if f.value.Obj? {
          var op := EnrichOne(f.value.fields);
          f := Field(f.key, Obj(op));
        }
        Regroup(done, [f], EnrichMethods(methods[i + 1..]));
        done := done + [f];
      }
    }

    method EnrichSuccessAndRequestExamples()
      modifies this
      ensures paths == EnrichPaths(old(paths))
    {
      hide EnrichMethods;
      var done: seq<Field> := [];
      for i := 0 to |paths|
        invariant paths == old(paths) && done + EnrichPaths(paths[i..]) == EnrichPaths(paths)
      {
        assert paths[i..][1..] == paths[i + 1..];
        var f := paths[i];
        if f.value.Obj? {
          var item := EnrichItem(f.value.fields);
          f := Field(f.key, Obj(item));
        }
        Regroup(done, [f], EnrichPaths(paths[i + 1..]));
        done := done + [f];
      }
      paths := done;
    }
  }

  /// The gate's example checks

  /** What the gate may report of an operation; the first kind goes to one list, the others to another. */
  datatype Problem = NoRequestExample | NoResponses | NoSuccessResponse | NoSuccessExample

  datatype Report = Report(path: string, method_: string, problem: Problem)

  /** The node is a JSON block with an example of its own. */
  ghost predicate ShowsExample(block: Option<Json>) {
    block.Some? && block.value.Obj?
    && (Get(block.value.fields, "example").Some? || Get(block.value.fields, "examples").Some?)
  }

  /** The response has content in which JSON shows an example, or plain text or HTML says anything at all. */
  ghost predicate ResponseShows(resp: Json) {
    var content := Descend(resp, ["content"]);
    && content.Some? && content.value.Obj?
    && (|| ShowsExample(Get(content.value.fields, "application/json"))
        || Truthy(Get(content.value.fields, "text/plain"))
        || Truthy(Get(content.value.fields, "text/html")))
  }

  /** Exactly when each problem is reported of one operation, read off its keys. */
  ghost predicate Due(f: Field, problem: Problem) {
    && f.value.Obj? && !("x-" <= Lower(f.key)) && Lower(f.key) != "parameters"
    && var block := Descend(f.value, ["requestBody", "content", "application/json"]);
    var responses := Descend(f.value, ["responses"]);
    match problem
    case NoRequestExample =>
      Lower(f.key) in ["post", "put", "patch"] && block.Some? && block.value.Obj? && !ShowsExample(block)
    case NoResponses => responses.None? || !responses.value.Obj?
    case NoSuccessResponse =>
      responses.Some? && responses.value.Obj? && forall r <- responses.value.fields :: !Success(r.key)
    case NoSuccessExample =>
      && responses.Some? && responses.value.Obj? && (exists r <- responses.value.fields :: Success(r.key))
      && forall r <- responses.value.fields :: Success(r.key) ==> !ResponseShows(r.value)
  }

  function Methods(item: Json): seq<Field> {
    if item.Obj? then item.fields else []
  }

  ghost predicate DueInItem(path: string, methods: seq<Field>, r: Report) {
    r.path == path && exists f <- methods :: f.key == r.method_ && Due(f, r.problem)
  }

  ghost predicate DueInPaths(paths: seq<Field>, r: Report) {
    exists p <- paths :: DueInItem(p.key, Methods(p.value), r)
  }

  method CheckResponses(op: seq<Field>) returns (has2xx: bool, has2xxExample: bool)
    ensures has2xx <==> HasSuccess(op)
    ensures has2xxExample <==> HasSuccessExample(op)
  {
    hide Success, SuccessExample;
    has2xx, has2xxExample := false, false;
    var responses := ObjectAt(op, "responses");
    if responses.None? {
      return;
    }
    var fields := responses.value.fields;
    for i := 0 to |fields|
      invariant has2xx <==> exists f <- fields[..i] :: Success(f.key)
      invariant has2xxExample <==> exists f <- fields[..i] :: Success(f.key) && SuccessExample(f.value)
    {
      assert fields[..i + 1] == fields[..i] + [fields[i]];
      if Success(fields[i].key) {
        has2xx := true;
        if SuccessExample(fields[i].value) {
          has2xxExample := true;
        }
      }
    }
    assert fields[..|fields|] == fields;
  }

  /** What one operation adds to the list of missing request examples, or to the list of response issues. */
  function ProblemOf(f: Field, ofRequest: bool): Option<Problem> {
    if !IsOperation(f) then None
    else if ofRequest then (if MissingRequest(f.key, f.value.fields) then Some(NoRequestExample) else None)
    else if ObjectAt(f.value.fields, "responses").None? then Some(NoResponses)
    else if !HasSuccess(f.value.fields) then Some(NoSuccessResponse)
    else if !HasSuccessExample(f.value.fields) then Some(NoSuccessExample)
    else None
  }

  function ReportsOf(path: string, f: Field, ofRequest: bool): seq<Report> {
    match ProblemOf(f, ofRequest)
    case Some(problem) => [Report(path, f.key, problem)]
    case None => []
  }

  function ReportsOfItem(path: string, methods: seq<Field>, ofRequest: bool): seq<Report> {
    if methods == [] then [] else ReportsOf(path, methods[0], ofRequest) + ReportsOfItem(path, methods[1..], ofRequest)
  }

  function ReportsOfPaths(paths: seq<Field>, ofRequest: bool): seq<Report> {
    if paths == [] then []
    else ReportsOfItem(paths[0].key, Methods(paths[0].value), ofRequest) + ReportsOfPaths(paths[1..], ofRequest)
  }

  method CheckOperation(path: string, f: Field) returns (missing: seq<Report>, issues: seq<Report>)
    ensures missing == ReportsOf(path, f, true) && issues == ReportsOf(path, f, false)
  {
    hide MissingRequest, HasSuccess, HasSuccessExample, Lower;
    missing, issues := [], [];
    if IsOperation(f) {
      if MissingRequest(f.key, f.value.fields) {
        missing := [Report(path, f.key, NoRequestExample)];
      }
      if ObjectAt(f.value.fields, "responses").Some? {
        var has2xx, has2xxExample := CheckResponses(f.value.fields);
        if !has2xx {
          issues := [Report(path, f.key, NoSuccessResponse)];
        } else if !has2xxExample {
          issues := [Report(path, f.key, NoSuccessExample)];
        }
      } else {
        issues := [Report(path, f.key, NoResponses)];
      }
    }
  }

  method CheckItem(path: string, methods: seq<Field>) returns (missing: seq<Report>, issues: seq<Report>)
    ensures missing == ReportsOfItem(path, methods, true) && issues == ReportsOfItem(path, methods, false)
  {
    hide ReportsOf;
    missing, issues := [], [];
    for i := 0 to |methods|
      invariant missing + ReportsOfItem(path, methods[i..], true) == ReportsOfItem(path, methods, true)
      invariant issues + ReportsOfItem(path, methods[i..], false) == ReportsOfItem(path, methods, false)
    {
      assert methods[i..][1..] == methods[i + 1..];
      var missingHere, issuesHere := CheckOperation(path, methods[i]);
      Regroup(missing, missingHere, ReportsOfItem(path, methods[i + 1..], true));
      Regroup(issues, issuesHere, ReportsOfItem(path, methods[i + 1..], false));
      missing, issues := missing + missingHere, issues + issuesHere;
    }
  }

  /** The gate's two lists, in the order of the paths and of their operations: exactly the operations that lack a
      request example, and those that lack responses, a successful response, or an example of one. */
  method CheckExamples(paths: seq<Field>) returns (missing: seq<Report>, issues: seq<Report>)
    ensures missing == ReportsOfPaths(paths, true) && issues == ReportsOfPaths(paths, false)
    ensures forall r :: r in missing || r in issues <==> DueInPaths(paths, r)
  {
    hide ReportsOfItem, DueInPaths;
    missing, issues := [], [];
    for i := 0 to |paths|
      invariant missing + ReportsOfPaths(paths[i..], true) == ReportsOfPaths(paths, true)
      invariant issues + ReportsOfPaths(paths[i..], false) == ReportsOfPaths(paths, false)
    {
      assert paths[i..][1..] == paths[i + 1..];
      var missingHere, issuesHere := CheckItem(paths[i].key, Methods(paths[i].value));
      Regroup(missing, missingHere, ReportsOfPaths(paths[i + 1..], true));
      Regroup(issues, issuesHere, ReportsOfPaths(paths[i + 1..], false));
      missing, issues := missing + missingHere, issues + issuesHere;
    }
    forall r ensures r in missing || r in issues <==> DueInPaths(paths, r) {
      ReportedWhenDue(paths, r, true);
      ReportedWhenDue(paths, r, false);
    }
  }

  /// Exactly what is due, once each

  /** Whether a report belongs in the list of missing request examples. */
  predicate OfRequest(r: Report) {
    r.problem == NoRequestExample
  }

  lemma DescendOne(j: Json, key: string)
    ensures Descend(j, [key]) == if j.Obj? then Get(j.fields, key) else None
  {
    assert [key][1..] == [];
  }

  lemma RequestBlockMeans(op: Json)
    requires op.Obj?
    ensures var block := Descend(op, ["requestBody", "content", "application/json"]);
            RequestBlock(op.fields) == if block.Some? && block.value.Obj? then block else None
  {
    var keys := ["requestBody", "content", "application/json"];
    assert keys[1..] == ["content", "application/json"] && keys[1..][1..] == ["application/json"];
    var body := Get(op.fields, "requestBody");
    if body.Some? {
      assert Descend(op, keys) == Descend(body.value, keys[1..]);
      if body.value.Obj? && Get(body.value.fields, "content").Some? {
        DescendOne(Get(body.value.fields, "content").value, "application/json");
      }
    }
  }

  lemma SuccessExampleMeans(resp: Json)
    ensures SuccessExample(resp) <==> ResponseShows(resp)
  {
    hide Truthy;
    DescendOne(resp, "content");
  }

  lemma ResponsesMean(op: Json)
    requires op.Obj?
    ensures var responses := Descend(op, ["responses"]);
            && (ObjectAt(op.fields, "responses").None? <==> responses.None? || !responses.value.Obj?)
            && (HasSuccess(op.fields)
                <==> responses.Some? && responses.value.Obj? && exists r <- responses.value.fields :: Success(r.key))
            && (HasSuccessExample(op.fields)
                <==> && responses.Some? && responses.value.Obj?
                     && exists r <- responses.value.fields :: Success(r.key) && ResponseShows(r.value))
  {
    hide Success, SuccessExample, ResponseShows;
    DescendOne(op, "responses");
    forall resp: Json ensures SuccessExample(resp) <==> ResponseShows(resp) {
      SuccessExampleMeans(resp);
    }
  }

  /** What is due is what the gate asks of an operation. */
  lemma DueMeans(f: Field)
    ensures Due(f, NoRequestExample) <==> IsOperation(f) && MissingRequest(f.key, f.value.fields)
    ensures Due(f, NoResponses) <==> IsOperation(f) && ObjectAt(f.value.fields, "responses").None?
    ensures Due(f, NoSuccessResponse)
            <==> IsOperation(f) && ObjectAt(f.value.fields, "responses").Some? && !HasSuccess(f.value.fields)
    ensures Due(f, NoSuccessExample)
            <==> IsOperation(f) && HasSuccess(f.value.fields) && !HasSuccessExample(f.value.fields)
  {
    hide Descend, RequestBlock, HasSuccess, HasSuccessExample, Success, ResponseShows, Lower;
    if f.value.Obj? {
      RequestBlockMeans(f.value);
      ResponsesMean(f.value);
    }
  }

  lemma ReportedOf(path: string, f: Field, r: Report, ofRequest: bool)
    ensures r in ReportsOf(path, f, ofRequest) <==>
            r.path == path && r.method_ == f.key && Due(f, r.problem) && OfRequest(r) == ofRequest
  {
    hide Due, MissingRequest, HasSuccess, HasSuccessExample, Lower;
    DueMeans(f);
    if IsOperation(f) {
      NoResponsesNoSuccess(f.value.fields);
      SuccessBeforeExample(f.value.fields);
    }
  }

  lemma NoResponsesNoSuccess(op: seq<Field>)
    ensures HasSuccess(op) ==> ObjectAt(op, "responses").Some?
  {
  }

  lemma SuccessBeforeExample(op: seq<Field>)
    ensures HasSuccessExample(op) ==> HasSuccess(op)
  {
    hide Success, SuccessExample;
  }

  lemma {:induction false} ReportedInItem(path: string, methods: seq<Field>, r: Report, ofRequest: bool)
    ensures r in ReportsOfItem(path, methods, ofRequest) <==> DueInItem(path, methods, r) && OfRequest(r) == ofRequest
  {
    hide ReportsOf, Due, OfRequest;
    if methods != [] {
      ReportedOf(path, methods[0], r, ofRequest);
      ReportedInItem(path, methods[1..], r, ofRequest);
      assert methods == [methods[0]] + methods[1..];
    }
  }

  lemma {:induction false} ReportedWhenDue(paths: seq<Field>, r: Report, ofRequest: bool)
    ensures r in ReportsOfPaths(paths, ofRequest) <==> DueInPaths(paths, r) && OfRequest(r) == ofRequest
  {
    hide ReportsOfItem, DueInItem, OfRequest;
    if paths != [] {
      ReportedInItem(paths[0].key, Methods(paths[0].value), r, ofRequest);
      ReportedWhenDue(paths[1..], r, ofRequest);
      assert paths == [paths[0]] + paths[1..];
    }
  }

  /** No path and no method occurs twice. */
  predicate Dictionaries(paths: seq<Field>) {
    UniqueKeys(paths) && forall p <- paths :: UniqueKeys(Methods(p.value))
  }

  lemma RestUnique(fields: seq<Field>)
    requires fields != [] && UniqueKeys(fields)
    ensures UniqueKeys(fields[1..]) && forall f <- fields[1..] :: f.key != fields[0].key
  {
    forall f | f in fields[1..] ensures f.key != fields[0].key {
      var i :| 0 <= i < |fields[1..]| && fields[1..][i] == f;
      assert fields[i + 1] == f;
    }
  }

  lemma OnceOf(path: string, f: Field, r: Report, ofRequest: bool)
    ensures multiset(ReportsOf(path, f, ofRequest))[r] <= 1
    ensures r in ReportsOf(path, f, ofRequest) ==> r.method_ == f.key
  {
    hide ProblemOf;
  }

  lemma MethodIsListed(path: string, methods: seq<Field>, r: Report, ofRequest: bool)
    requires r in ReportsOfItem(path, methods, ofRequest)
    ensures exists f <- methods :: f.key == r.method_
  {
    hide Due;
    ReportedInItem(path, methods, r, ofRequest);
  }

  lemma {:induction false} OnceInItem(path: string, methods: seq<Field>, r: Report, ofRequest: bool)
    requires UniqueKeys(methods)
    ensures multiset(ReportsOfItem(path, methods, ofRequest))[r] <= 1
  {
    hide ReportsOf, UniqueKeys;
    if methods != [] {
      RestUnique(methods);
      var rest := ReportsOfItem(path, methods[1..], ofRequest);
      OnceInItem(path, methods[1..], r, ofRequest);
      OnceOf(path, methods[0], r, ofRequest);
      if r in rest {
        MethodIsListed(path, methods[1..], r, ofRequest);
      }
    }
  }

  /** Each list names an operation at most once with the same problem, and reports follow the order of the document. */
  lemma {:induction false} ReportedOnce(paths: seq<Field>, r: Report, ofRequest: bool)
    requires Dictionaries(paths)
    ensures multiset(ReportsOfPaths(paths, ofRequest))[r]
            == if DueInPaths(paths, r) && OfRequest(r) == ofRequest then 1 else 0
  {
    hide ReportsOfItem, Due, OfRequest;
    ReportedWhenDue(paths, r, ofRequest);
    if paths != [] {
      RestUnique(paths);
      var path, methods, rest := paths[0].key, Methods(paths[0].value), ReportsOfPaths(paths[1..], ofRequest);
      assert paths[0] in paths && forall p <- paths[1..] :: p in paths;
      OnceInItem(path, methods, r, ofRequest);
      ReportedInItem(path, methods, r, ofRequest);
      ReportedOnce(paths[1..], r, ofRequest);
      ReportedWhenDue(paths[1..], r, ofRequest);
    }
  }

  lemma NothingReported(paths: seq<Field>, ofRequest: bool)
    requires paths == []
    ensures ReportsOfPaths(paths, ofRequest) == []
  {
  }

  lemma ReportsFrom(paths: seq<Field>, ofRequest: bool)
    requires paths != []
    ensures ReportsOfPaths(paths, ofRequest) ==
            ReportsOfItem(paths[0].key, Methods(paths[0].value), ofRequest) + ReportsOfPaths(paths[1..], ofRequest)
  {
    hide ReportsOfItem;
  }

  /** The reports of one part of the document come before those of the next. */
  lemma {:induction false} ReportsInOrder(a: seq<Field>, b: seq<Field>, ofRequest: bool)
    ensures ReportsOfPaths(a + b, ofRequest) == ReportsOfPaths(a, ofRequest) + ReportsOfPaths(b, ofRequest)
  {
    hide ReportsOfItem, ReportsOfPaths, Methods;
    var whole := a + b;
    if a == [] {
      NothingReported(a, ofRequest);
      assert whole == b;
    } else {
      ReportsInOrder(a[1..], b, ofRequest);
      ReportsFrom(a, ofRequest);
      ReportsFrom(whole, ofRequest);
      assert whole[0] == a[0] && whole[1..] == a[1..] + b;
      var first := ReportsOfItem(a[0].key, Methods(a[0].value), ofRequest);
      Regroup(first, ReportsOfPaths(a[1..], ofRequest), ReportsOfPaths(b, ofRequest));
    }
  }

  /** Passing the gate is having no example to report as missing. */
  lemma GateMeansNoReport(paths: seq<Field>)
    ensures GatePasses(paths) <==>
            forall r :: DueInPaths(paths, r) ==> r.problem == NoResponses || r.problem == NoSuccessResponse
  {
    hide Due, MissingRequest, HasSuccess, HasSuccessExample, Lower;
    if !GatePasses(paths) {
      var p, f :| p in paths && p.value.Obj? && f in p.value.fields && !OperationPasses(f);
      DueMeans(f);
      var problem := if MissingRequest(f.key, f.value.fields) then NoRequestExample else NoSuccessExample;
      assert Due(f, problem);
      assert DueInItem(p.key, Methods(p.value), Report(p.key, f.key, problem));
      assert DueInPaths(paths, Report(p.key, f.key, problem));
    } else {
      forall r | DueInPaths(paths, r) ensures r.problem == NoResponses || r.problem == NoSuccessResponse {
        var p :| p in paths && DueInItem(p.key, Methods(p.value), r);
        var f :| f in Methods(p.value) && f.key == r.method_ && Due(f, r.problem);
        DueMeans(f);
        assert OperationPasses(f);
      }
    }
  }

  /// Operation ids

  datatype Operation = Operation(path: string, method_: string, id: string)

  /** The operation a field declares, if it has a usable id. */
  function Declared(path: string, f: Field): seq<Operation> {
    if "x-" <= Lower(f.key) || !f.value.Obj? then []
    else
      match Get(f.value.fields, "operationId")
      case Some(Str(s)) => if Trim(s) == "" then [] else [Operation(path, Lower(f.key), Trim(s))]
      case _ => []
  }

  function DeclaredIn(path: string, methods: seq<Field>): seq<Operation> {
    if methods == [] then [] else Declared(path, methods[0]) + DeclaredIn(path, methods[1..])
  }

  function AllDeclared(paths: seq<Field>): seq<Operation> {
    if paths == [] then [] else DeclaredIn(paths[0].key, Methods(paths[0].value)) + AllDeclared(paths[1..])
  }

  /** An operation whose id an earlier one has, with the first such. */
  datatype Collision = Collision(first: Operation, later: Operation)

  function FirstWith(ops: seq<Operation>, id: string): Option<Operation> {
    if ops == [] then None
    else if ops[0].id == id then Some(ops[0])
    else FirstWith(ops[1..], id)
  }

  function CollisionsUpTo(ops: seq<Operation>, n: nat): seq<Collision>
    requires n <= |ops|
  {
    if n == 0 then []
    else
      var first := FirstWith(ops[..n - 1], ops[n - 1].id);
      CollisionsUpTo(ops, n - 1) + if first.Some? then [Collision(first.value, ops[n - 1])] else []
  }

  class IdCheck {
    var seen: map<string, Operation>
    var collisions: seq<Collision>
    ghost var visited: seq<Operation>

    ghost predicate Valid()
      reads this
    {
      && (forall id :: id in seen <==> FirstWith(visited, id).Some?)
      && (forall id <- seen :: FirstWith(visited, id) == Some(seen[id]))
      && collisions == CollisionsUpTo(visited, |visited|)
    }

    constructor ()
      ensures Valid() && visited == []
    {
      seen, collisions, visited := map[], [], [];
    }

    method Visit(op: Operation)
      requires Valid()
      modifies this
      ensures Valid() && visited == old(visited) + [op]
    {
      if op.id in seen {
        collisions := collisions + [Collision(seen[op.id], op)];
      } else {
        seen := seen[op.id := op];
      }
      OneMoreOperation(visited, op);
      visited := visited + [op];
    }

    method VisitItem(path: string, methods: seq<Field>)
      requires Valid()
      modifies this
      ensures Valid() && visited == old(visited) + DeclaredIn(path, methods)
    {
      hide Declared, CollisionsUpTo, Valid;
      for i := 0 to |methods|
        invariant Valid() && visited + DeclaredIn(path, methods[i..]) == old(visited) + DeclaredIn(path, methods)
      {
        assert methods[i..][1..] == methods[i + 1..];
        var declared := Declared(path, methods[i]);
        DeclaresOneAtMost(path, methods[i]);
        Regroup(visited, declared, DeclaredIn(path, methods[i + 1..]));
        if declared != [] {
          Visit(declared[0]);
        }
      }
    }

    method Result() returns (r: seq<Collision>)
      requires Valid()
      ensures r == CollisionsUpTo(visited, |visited|)
    {
      r := collisions;
    }
  }

  lemma {:induction false} FirstWithAppended(ops: seq<Operation>, op: Operation, id: string)
    ensures FirstWith(ops + [op], id) ==
            if FirstWith(ops, id).Some? then FirstWith(ops, id) else if op.id == id then Some(op) else None
  {
    if ops == [] {
      assert (ops + [op])[1..] == [];
    } else {
      FirstWithAppended(ops[1..], op, id);
      assert (ops + [op])[1..] == ops[1..] + [op];
    }
  }

  lemma {:induction false} CollisionsOfPrefix(a: seq<Operation>, b: seq<Operation>, n: nat)
    requires n <= |a| && n <= |b| && a[..n] == b[..n]
    ensures CollisionsUpTo(a, n) == CollisionsUpTo(b, n)
  {
    if n > 0 {
      assert a[..n - 1] == a[..n][..n - 1] == b[..n - 1] && a[n - 1] == a[..n][n - 1] == b[n - 1];
      CollisionsOfPrefix(a, b, n - 1);
    }
  }

  lemma OneMoreOperation(ops: seq<Operation>, op: Operation)
    ensures forall id :: FirstWith(ops + [op], id) ==
                         if FirstWith(ops, id).Some? then FirstWith(ops, id) else if op.id == id then Some(op) else None
    ensures CollisionsUpTo(ops + [op], |ops| + 1) ==
            CollisionsUpTo(ops, |ops|) + match FirstWith(ops, op.id) case Some(f) => [Collision(f, op)] case None => []
  {
    forall id ensures FirstWith(ops + [op], id) ==
                      if FirstWith(ops, id).Some? then FirstWith(ops, id) else if op.id == id then Some(op) else None
    {
      FirstWithAppended(ops, op, id);
    }
    assert (ops + [op])[..|ops|] == ops == ops[..|ops|];
    CollisionsOfPrefix(ops + [op], ops, |ops|);
  }

  method DuplicateOperationIds(paths: seq<Field>) returns (collisions: seq<Collision>)
    ensures var ops := AllDeclared(paths); collisions == CollisionsUpTo(ops, |ops|)
  {
    hide DeclaredIn, CollisionsUpTo, IdCheck.Valid;
    var check := new IdCheck();
    for i := 0 to |paths|
      invariant fresh(check) && check.Valid() && check.visited + AllDeclared(paths[i..]) == AllDeclared(paths)
    {
      assert paths[i..][1..] == paths[i + 1..];
      var path, methods := paths[i].key, Methods(paths[i].value);
      Regroup(check.visited, DeclaredIn(path, methods), AllDeclared(paths[i + 1..]));
      check.VisitItem(path, methods);
    }
    assert check.visited == AllDeclared(paths);
    collisions := check.Result();
  }

  lemma DeclaresOneAtMost(path: string, f: Field)
    ensures Declared(path, f) == [] || Declared(path, f) == [Declared(path, f)[0]]
  {
  }

  ghost predicate DistinctIds(ops: seq<Operation>) {
    forall i, j :: 0 <= i < j < |ops| ==> ops[i].id != ops[j].id
  }

  lemma {:induction false} FirstWithIs(ops: seq<Operation>, id: string)
    ensures FirstWith(ops, id).Some? <==> exists i :: 0 <= i < |ops| && ops[i].id == id
  {
    if ops != [] && ops[0].id != id {
      FirstWithIs(ops[1..], id);
      if i :| 0 <= i < |ops| && ops[i].id == id {
        assert ops[1..][i - 1].id == id;
      }
    }
  }

  /** Nothing is reported exactly when the usable operation ids are pairwise different. */
  lemma {:induction false} NoCollisionIffDistinct(ops: seq<Operation>, n: nat)
    requires n <= |ops|
    ensures CollisionsUpTo(ops, n) == [] <==> DistinctIds(ops[..n])
  {
    if n > 0 {
      NoCollisionIffDistinct(ops, n - 1);
      FirstWithIs(ops[..n - 1], ops[n - 1].id);
      DistinctSoFar(ops, n);
      assert forall i :: 0 <= i < n - 1 ==> ops[..n - 1][i] == ops[i];
    }
  }

  lemma DistinctSoFar(ops: seq<Operation>, n: nat)
    requires 0 < n <= |ops|
    ensures DistinctIds(ops[..n])
            <==> DistinctIds(ops[..n - 1]) && forall i :: 0 <= i < n - 1 ==> ops[i].id != ops[n - 1].id
  {
    var all, some := ops[..n], ops[..n - 1];
    assert all[n - 1] == ops[n - 1] && forall i :: 0 <= i < n - 1 ==> all[i] == some[i] == ops[i];
  }

  /** The tool finds no duplicate exactly when no two declared operations share an id. */
  lemma DuplicateCheckIsExact(paths: seq<Field>)
    ensures var ops := AllDeclared(paths);
            CollisionsUpTo(ops, |ops|) == [] <==> DistinctIds(ops)
  {
    var ops := AllDeclared(paths);
    NoCollisionIffDistinct(ops, |ops|);
    assert ops[..|ops|] == ops;
  }
}
