/** Exactly when a scrubbed document has no unresolved reference: what it takes of every reference that survives. */
module OpenApiClosure {
  import opened Options
  import opened Text
  import opened JsonTree
  import opened OpenApiRefs
  import opened OpenApiStrip
  import opened OpenApiRedaction
  import opened OpenApiScrub

  /** A pointer resolves in the scrubbed document if and only if it resolved and names no legacy key. */
  lemma ScrubbedLookup(doc: Json, pointer: string)
    requires doc.Obj? && Scrub(doc).Some? && "#/" <= pointer
    ensures Resolves(Scrub(doc).value, pointer)
            <==> Resolves(doc, pointer) && forall k <- Segments(pointer) :: k !in LEGACY_KEYS
  {
    hide StripRaises, ParametersRaise, Strip, DropParameters, Redact, Segments;
    var stripped := Strip(doc);
    var dropped := DropParameters(stripped);
    StripPreservesLookup(doc, pointer);
    DropParametersKeepsKeys(stripped);
    SameKeysSameChains(stripped, dropped, Segments(pointer));
    RedactionKeepsChains(dropped, Segments(pointer));
    StrippedObject(doc);
  }

  lemma StrippedObject(doc: Json)
    requires doc.Obj? && Scrub(doc).Some?
    ensures Scrub(doc).value == Redact(DropParameters(Strip(doc)))
  {
    hide StripRaises, ParametersRaise;
  }

  /// Rewriting keeps local references local

  lemma LocalThroughOne(s: string, r: Replacement)
    requires "#/" <= s && r.token != "" && r.token[0] != '#' && r.token[0] != '/'
    ensures "#/" <= ReplaceAll(s, r.token, r.text)
  {
    var rest := s[1..];
    assert rest[0] == '/' && !(r.token <= s) && !(r.token <= rest);
    assert ReplaceAll(s, r.token, r.text) == ['#'] + ReplaceAll(rest, r.token, r.text);
    assert ReplaceAll(rest, r.token, r.text) == ['/'] + ReplaceAll(rest[1..], r.token, r.text);
  }

  lemma {:induction false} LocalThroughAll(s: string, repl: seq<Replacement>)
    requires "#/" <= s && Usable(repl) && forall r <- repl :: r.token != "" && r.token[0] != '#' && r.token[0] != '/'
    ensures "#/" <= ReplaceEach(s, repl)
    decreases repl
  {
    if repl != [] {
      assert repl[0] in repl && forall r <- repl[1..] :: r in repl;
      LocalThroughOne(s, repl[0]);
      LocalThroughAll(ReplaceAll(s, repl[0].token, repl[0].text), repl[1..]);
    }
  }

  lemma TokensBeginWithLetters()
    ensures forall r <- REPLACEMENTS :: r.token != "" && r.token[0] != '#' && r.token[0] != '/'
  {
  }

  lemma LocalIff(s: string)
    ensures "#/" <= RedactText(s) <==> "#/" <= s
  {
    if "#/" <= s {
      TokensBeginWithLetters();
      LocalThroughAll(s, REPLACEMENTS);
    }
    if "#/" <= RedactText(s) {
      LocalBeforeRedaction(s);
    }
  }

  /// References of the rewritten tree

  ghost predicate Rewritten(p: string -> bool, q: string -> bool) {
    forall r :: q(r) == p(RedactText(r))
  }

  lemma OwnRefRewritten(fields: seq<Field>, p: string -> bool, q: string -> bool)
    requires Rewritten(p, q)
    ensures (LocalRef(Obj(RedactFields(fields))).Some? ==> p(LocalRef(Obj(RedactFields(fields))).value)) <==>
            (LocalRef(Obj(fields)).Some? ==> q(LocalRef(Obj(fields)).value))
  {
    hide RedactText;
    GetRedacted(fields, "$ref");
    var ref := Get(fields, "$ref");
    if ref.Some? && ref.value.Str? {
      LocalIff(ref.value.s);
    }
  }

  /** The references of the rewritten tree are the rewritten references of the tree. */
  lemma {:induction false} RewrittenRefs(j: Json, p: string -> bool, q: string -> bool)
    requires Rewritten(p, q)
    ensures LocalRefsSatisfy(Redact(j), p) <==> LocalRefsSatisfy(j, q)
    decreases j, 1
  {
    hide RedactText, LocalRef, Rewritten;
    match j
    case Obj(fields) =>
      OwnRefRewritten(fields, p, q);
      RewrittenFieldRefs(fields, p, q);
    case Arr(items) =>
      RewrittenItemRefs(items, p, q);
      NoOwnRef(j);
      NoOwnRef(Redact(j));
    case _ =>
      NoOwnRef(j);
      NoOwnRef(Redact(j));
  }

  lemma NoOwnRef(j: Json)
    ensures !j.Obj? ==> LocalRef(j) == None
  {
  }

  lemma {:induction false} RewrittenFieldRefs(fields: seq<Field>, p: string -> bool, q: string -> bool)
    requires Rewritten(p, q)
    ensures (forall f <- RedactFields(fields) :: LocalRefsSatisfy(f.value, p))
            <==> forall f <- fields :: LocalRefsSatisfy(f.value, q)
    decreases fields, 0
  {
    hide RedactText, Redact, LocalRefsSatisfy, Rewritten;
    if fields != [] {
      RewrittenRefs(fields[0].value, p, q);
      RewrittenFieldRefs(fields[1..], p, q);
      assert forall f :: f in fields <==> f == fields[0] || f in fields[1..];
      var r := RedactFields(fields);
      assert r[1..] == RedactFields(fields[1..]) && forall f :: f in r <==> f == r[0] || f in r[1..];
    }
  }

  lemma {:induction false} RewrittenItemRefs(items: seq<Json>, p: string -> bool, q: string -> bool)
    requires Rewritten(p, q)
    ensures (forall x <- RedactItems(items) :: LocalRefsSatisfy(x, p)) <==> forall x <- items :: LocalRefsSatisfy(x, q)
    decreases items, 0
  {
    hide RedactText, Redact, LocalRefsSatisfy, Rewritten;
    if items != [] {
      RewrittenRefs(items[0], p, q);
      RewrittenItemRefs(items[1..], p, q);
      assert forall x :: x in items <==> x == items[0] || x in items[1..];
      var r := RedactItems(items);
      assert r[1..] == RedactItems(items[1..]) && forall x :: x in r <==> x == r[0] || x in r[1..];
    }
  }

  /** The references that survive the first two passes. */
  function Surviving(doc: Json): Json {
    DropParameters(Strip(doc))
  }

  /** The rewritten reference resolves in the original document. */
  function RewrittenResolvesIn(doc: Json): string -> bool {
    r => Resolves(doc, RedactText(r))
  }

  function RewrittenResolvesAfter(doc: Json, out: Json): string -> bool {
    r => Resolves(out, RedactText(r))
  }

  /** A rewritten reference resolves after the scrub if and only if it resolved before it: holding no token, it names
      no legacy key. */
  lemma SurvivingRefResolvesIff(doc: Json, r: string)
    requires doc.Obj? && Scrub(doc).Some?
    ensures Resolves(Scrub(doc).value, RedactText(r)) <==> Resolves(doc, RedactText(r))
  {
    hide Scrub, HasChain, Segments, RedactText;
    if "#/" <= RedactText(r) {
      RedactionIsCompleteAndIdempotent(r);
      ClearPointerAvoidsLegacyKeys(RedactText(r));
      ScrubbedLookup(doc, RedactText(r));
    }
  }

  lemma {:induction false} SameTruth(j: Json, p: string -> bool, q: string -> bool)
    requires forall r :: p(r) == q(r)
    ensures LocalRefsSatisfy(j, p) <==> LocalRefsSatisfy(j, q)
    decreases j
  {
    hide LocalRef;
    match j
    case Obj(fields) =>
      forall f | f in fields ensures LocalRefsSatisfy(f.value, p) <==> LocalRefsSatisfy(f.value, q) {
        SameTruth(f.value, p, q);
      }
    case Arr(items) =>
      forall x | x in items ensures LocalRefsSatisfy(x, p) <==> LocalRefsSatisfy(x, q) { SameTruth(x, p, q); }
    case _ =>
  }

  /** The scrubbed document has no unresolved reference if and only if every surviving reference, rewritten, resolved in
      the original document. */
  lemma ScrubClosureIff(doc: Json)
    requires doc.Obj? && Scrub(doc).Some?
    ensures UnresolvedLocalRefs(Scrub(doc).value) == [] <==> LocalRefsSatisfy(Surviving(doc), RewrittenResolvesIn(doc))
  {
    hide LocalRefsSatisfy, MissingBelow, Resolves, RedactText, Strip, DropParameters, Redact;
    var out := Scrub(doc).value;
    StrippedObject(doc);
    NothingMissing(out, out, []);
    var before, after := RewrittenResolvesIn(doc), RewrittenResolvesAfter(doc, out);
    RewrittenRefs(Surviving(doc), ResolvesIn(out), after);
    forall r ensures before(r) == after(r) {
      SurvivingRefResolvesIff(doc, r);
    }
    SameTruth(Surviving(doc), before, after);
  }
}
