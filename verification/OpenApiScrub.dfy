/** tools/build_openapi.py: the three scrubbing passes together, and why references survive them. */
module OpenApiScrub {
  import opened Options
  import opened Sequences
  import opened JsonTree
  import opened Text
  import opened OpenApiRefs
  import opened OpenApiStrip
  import opened OpenApiRedaction

  /** The scrubbed document; `None` when a membership test on a list or an object raises. */
  function Scrub(spec: Json): Option<Json> {
    if StripRaises(spec) then None
    else if !spec.Obj? then Some(spec)
    else if ParametersRaise(Strip(spec)) then None
    else Some(Redact(DropParameters(Strip(spec))))
  }

  /** The generator's document, whose passes replace the tree it holds. */
  class GeneratedSpec {
    var spec: Json

    constructor (spec: Json)
      ensures this.spec == spec
    {
      this.spec := spec;
    }

    static method CleanList(items: seq<Json>) returns (kept: seq<Json>)
      ensures kept == KeepCurrentParameters(items)
    {
      kept := [];
      for i := 0 to |items|
        invariant kept + KeepCurrentParameters(items[i..]) == KeepCurrentParameters(items)
      {
        assert items[i..][1..] == items[i + 1..];
        if !IsLegacyParameter(items[i]) {
          Regroup(kept, [items[i]], KeepCurrentParameters(items[i + 1..]));
          kept := kept + [items[i]];
        }
      }
    }

    static method CleanOwnParameters(fields: seq<Field>) returns (cleaned: seq<Field>)
      ensures cleaned == CleanParameterFields(fields)
    {
      cleaned := [];
      for i := 0 to |fields|
        invariant cleaned + CleanParameterFields(fields[i..]) == CleanParameterFields(fields)
      {
        assert fields[i..][1..] == fields[i + 1..];
        var f := fields[i];
        if f.key == "parameters" && f.value.Arr? {
          var kept := CleanList(f.value.items);
          f := Field(f.key, Arr(kept));
        }
        Regroup(cleaned, [f], CleanParameterFields(fields[i + 1..]));
        cleaned := cleaned + [f];
      }
    }

    static method CleanItem(fields: seq<Field>) returns (cleaned: seq<Field>)
      ensures cleaned == CleanPathItemFields(fields)
    {
      cleaned := [];
      for i := 0 to |fields|
        invariant cleaned + CleanPathItemFields(fields[i..]) == CleanPathItemFields(fields)
      {
        assert fields[i..][1..] == fields[i + 1..];
        var f := fields[i];
        if f.key in METHODS {
          if f.value.Obj? {
            var op := CleanOwnParameters(f.value.fields);
            f := Field(f.key, Obj(op));
          }
        } else if f.key == "parameters" && f.value.Arr? {
          var kept := CleanList(f.value.items);
          f := Field(f.key, Arr(kept));
        }
        Regroup(cleaned, [f], CleanPathItemFields(fields[i + 1..]));
        cleaned := cleaned + [f];
      }
    }

    static method CleanAllPaths(paths: seq<Field>) returns (cleaned: seq<Field>)
      ensures cleaned == CleanPaths(paths)
    {
      cleaned := [];
      for i := 0 to |paths|
        invariant cleaned + CleanPaths(paths[i..]) == CleanPaths(paths)
      {
        assert paths[i..][1..] == paths[i + 1..];
        var f := paths[i];
        if f.value.Obj? {
          var item := CleanItem(f.value.fields);
          f := Field(f.key, Obj(item));
        }
        Regroup(cleaned, [f], CleanPaths(paths[i + 1..]));
        cleaned := cleaned + [f];
      }
    }

    method StripLegacyScopeParameters() returns (raised: bool)
      modifies this
      ensures raised == ParametersRaise(old(spec))
      ensures spec == if raised then old(spec) else DropParameters(old(spec))
    {
      raised := ParametersRaise(spec);
      if raised || !spec.Obj? {
        return;
      }
      var cleaned: seq<Field> := [];
      for i := 0 to |spec.fields|
        invariant spec == old(spec)
        invariant cleaned + CleanSpecFields(spec.fields[i..]) == CleanSpecFields(spec.fields)
      {
        assert spec.fields[i..][1..] == spec.fields[i + 1..];
        var f := spec.fields[i];
        if f.key == "paths" && f.value.Obj? {
          var paths := CleanAllPaths(f.value.fields);
          f := Field(f.key, Obj(paths));
        }
        Regroup(cleaned, [f], CleanSpecFields(spec.fields[i + 1..]));
        cleaned := cleaned + [f];
      }
      spec := Obj(cleaned);
    }

    /** Runs the passes in order; a raised error leaves the caller without a document. */
    method ScrubOpenApiSpec() returns (result: Option<Json>)
      modifies this
      ensures result == Scrub(old(spec))
    {
      if StripRaises(spec) {
        return None;
      }
      var original := spec;
      spec := Strip(spec);
      if !spec.Obj? {
        return Some(original);
      }
      var raised := StripLegacyScopeParameters();
      if raised {
        return None;
      }
      return Some(Redact(spec));
    }
  }

  /// References through the passes

  /** Every local reference in `j` satisfies `p`. */
  predicate LocalRefsSatisfy(j: Json, p: string -> bool)
    decreases j
  {
    (LocalRef(j).Some? ==> p(LocalRef(j).value)) &&
    match j
    case Obj(fields) => forall f <- fields :: LocalRefsSatisfy(f.value, p)
    case Arr(items) => forall x <- items :: LocalRefsSatisfy(x, p)
    case _ => true
  }

  function ResolvesIn(doc: Json): string -> bool {
    r => Resolves(doc, r)
  }

  const HOLDS_NO_TOKEN: string -> bool := r => Clear(r)

  lemma {:induction false} NothingMissing(doc: Json, j: Json, path: seq<Step>)
    ensures MissingBelow(doc, j, path) == [] <==> LocalRefsSatisfy(j, ResolvesIn(doc))
    decreases j, 1
  {
    match j
    case Obj(fields) => NothingMissingInFields(doc, fields, path);
    case Arr(items) => NothingMissingInItems(doc, items, 0, path);
    case _ =>
  }

  lemma {:induction false} NothingMissingInFields(doc: Json, fields: seq<Field>, path: seq<Step>)
    ensures MissingInFields(doc, fields, path) == []
            <==> forall f <- fields :: LocalRefsSatisfy(f.value, ResolvesIn(doc))
    decreases fields, 0
  {
    if fields != [] {
      NothingMissing(doc, fields[0].value, path + [Key(fields[0].key)]);
      NothingMissingInFields(doc, fields[1..], path);
      assert fields == [fields[0]] + fields[1..];
    }
  }

  lemma {:induction false} NothingMissingInItems(doc: Json, items: seq<Json>, from: nat, path: seq<Step>)
    ensures MissingInItems(doc, items, from, path) == [] <==> forall x <- items :: LocalRefsSatisfy(x, ResolvesIn(doc))
    decreases items, 0
  {
    if items != [] {
      NothingMissing(doc, items[0], path + [Index(from)]);
      NothingMissingInItems(doc, items[1..], from + 1, path);
      assert items == [items[0]] + items[1..];
    }
  }

  lemma {:induction false} Weaken(j: Json, p: string -> bool, q: string -> bool)
    requires LocalRefsSatisfy(j, p) && forall r :: p(r) ==> q(r)
    ensures LocalRefsSatisfy(j, q)
    decreases j
  {
    match j
    case Obj(fields) =>
      forall f | f in fields ensures LocalRefsSatisfy(f.value, q) { Weaken(f.value, p, q); }
    case Arr(items) =>
      forall x | x in items ensures LocalRefsSatisfy(x, q) { Weaken(x, p, q); }
    case _ =>
  }

  lemma {:induction false} StripKeepsRefs(j: Json, p: string -> bool)
    requires LocalRefsSatisfy(j, p)
    ensures LocalRefsSatisfy(Strip(j), p)
    decreases j, 1
  {
    match j
    case Obj(fields) =>
      GetStripped(fields, "$ref");
      StripKeepsFieldRefs(fields, p);
    case Arr(items) => StripKeepsItemRefs(items, p);
    case _ =>
  }

  lemma {:induction false} StripKeepsItemRefs(items: seq<Json>, p: string -> bool)
    requires forall x <- items :: LocalRefsSatisfy(x, p)
    ensures forall x <- StripItems(items) :: LocalRefsSatisfy(x, p)
    decreases items, 0
  {
    if items != [] {
      StripKeepsRefs(items[0], p);
      StripKeepsItemRefs(items[1..], p);
      assert forall x <- StripItems(items) :: x == Strip(items[0]) || x in StripItems(items[1..]);
    }
  }

  lemma {:induction false} StripKeepsFieldRefs(fields: seq<Field>, p: string -> bool)
    requires forall f <- fields :: LocalRefsSatisfy(f.value, p)
    ensures forall f <- StripFields(fields) :: LocalRefsSatisfy(f.value, p)
    decreases fields, 0
  {
    if fields != [] {
      var f := fields[0];
      assert f in fields;
      StripKeepsRefs(f.value, p);
      StripKeepsFieldRefs(fields[1..], p);
      if f.key == "required" && f.value.Arr? {
        KeptNames(Strip(f.value).items);
      }
      assert forall g <- StripFields(fields) :: g == StripField(f) || g in StripFields(fields[1..]);
    }
  }

  lemma KeptParameterRefs(items: seq<Json>, p: string -> bool)
    requires forall x <- items :: LocalRefsSatisfy(x, p)
    ensures forall x <- KeepCurrentParameters(items) :: LocalRefsSatisfy(x, p)
  {
    forall x ensures x in KeepCurrentParameters(items) ==> x in items {
      KeptParameters(items, x);
    }
  }

  lemma CleanedFieldRefs(f: Field, p: string -> bool)
    requires LocalRefsSatisfy(f.value, p)
    ensures LocalRefsSatisfy(CleanParameterField(f).value, p)
  {
    if f.key == "parameters" && f.value.Arr? {
      KeptParameterRefs(f.value.items, p);
    }
  }

  lemma {:induction false} CleanedOperationRefs(fields: seq<Field>, p: string -> bool)
    requires forall f <- fields :: LocalRefsSatisfy(f.value, p)
    ensures forall f <- CleanParameterFields(fields) :: LocalRefsSatisfy(f.value, p)
  {
    if fields != [] {
      CleanedFieldRefs(fields[0], p);
      CleanedOperationRefs(fields[1..], p);
    }
  }

  lemma {:induction false} CleanedItemRefs(fields: seq<Field>, p: string -> bool)
    requires forall f <- fields :: LocalRefsSatisfy(f.value, p)
    ensures forall f <- CleanPathItemFields(fields) :: LocalRefsSatisfy(f.value, p)
  {
    if fields != [] {
      var f := fields[0];
      assert f in fields;
      CleanedFieldRefs(f, p);
      CleanedItemRefs(fields[1..], p);
      if f.key in METHODS && f.value.Obj? {
        GetCleanedOperation(f.value.fields, "$ref");
        CleanedOperationRefs(f.value.fields, p);
      }
    }
  }

  lemma {:induction false} CleanedPathsRefs(fields: seq<Field>, p: string -> bool)
    requires forall f <- fields :: LocalRefsSatisfy(f.value, p)
    ensures forall f <- CleanPaths(fields) :: LocalRefsSatisfy(f.value, p)
  {
    if fields != [] {
      var f := fields[0];
      assert f in fields;
      CleanedPathsRefs(fields[1..], p);
      if f.value.Obj? {
        GetCleanedPathItem(f.value.fields, "$ref");
        CleanedItemRefs(f.value.fields, p);
      }
    }
  }

  lemma {:induction false} CleanedSpecRefs(fields: seq<Field>, p: string -> bool)
    requires forall f <- fields :: LocalRefsSatisfy(f.value, p)
    ensures forall f <- CleanSpecFields(fields) :: LocalRefsSatisfy(f.value, p)
  {
    if fields != [] {
      var f := fields[0];
      assert f in fields;
      CleanedSpecRefs(fields[1..], p);
      if f.key == "paths" && f.value.Obj? {
        GetCleanedPath(f.value.fields, "$ref");
        CleanedPathsRefs(f.value.fields, p);
      }
    }
  }

  lemma DropParametersKeepsRefs(spec: Json, p: string -> bool)
    requires LocalRefsSatisfy(spec, p)
    ensures LocalRefsSatisfy(DropParameters(spec), p)
  {
    if spec.Obj? {
      GetCleanedSpec(spec.fields, "$ref");
      CleanedSpecRefs(spec.fields, p);
    }
  }

  lemma OwnRefSurvives(fields: seq<Field>, p: string -> bool)
    requires LocalRef(Obj(fields)).Some? ==> p(LocalRef(Obj(fields)).value)
    requires forall r :: p(r) ==> Clear(r)
    ensures LocalRef(Obj(RedactFields(fields))).Some? ==> p(LocalRef(Obj(RedactFields(fields))).value)
  {
    GetRedacted(fields, "$ref");
    var ref := LocalRef(Obj(RedactFields(fields)));
    if ref.Some? {
      var r := Get(fields, "$ref").value.s;
      RedactedLocalRef(r);
    }
  }

  lemma RedactedLocalRef(r: string)
    ensures "#/" <= RedactText(r) ==> "#/" <= r
    ensures Clear(r) ==> RedactText(r) == r
  {
    if "#/" <= RedactText(r) {
      LocalBeforeRedaction(r);
    }
    RedactionIsCompleteAndIdempotent(r);
  }

  /** References that hold no token come through redaction as they were. */
  lemma {:induction false} RedactionKeepsRefs(j: Json, p: string -> bool)
    requires LocalRefsSatisfy(j, p) && forall r :: p(r) ==> Clear(r)
    ensures LocalRefsSatisfy(Redact(j), p)
    decreases j, 1
  {
    if j.Obj? {
      OwnRefSurvives(j.fields, p);
      RedactionKeepsFieldRefs(j.fields, p);
    } else if j.Arr? {
      RedactionKeepsItemRefs(j.items, p);
    } else {
      ScalarsHoldNoRefs(j, p);
    }
  }

  lemma ScalarsHoldNoRefs(j: Json, p: string -> bool)
    requires !j.Obj? && !j.Arr?
    ensures LocalRefsSatisfy(Redact(j), p)
  {
    assert !Redact(j).Obj? && !Redact(j).Arr?;
  }

  lemma {:induction false} RedactionKeepsFieldRefs(fields: seq<Field>, p: string -> bool)
    requires (forall f <- fields :: LocalRefsSatisfy(f.value, p)) && forall r :: p(r) ==> Clear(r)
    ensures forall f <- RedactFields(fields) :: LocalRefsSatisfy(f.value, p)
    decreases fields, 0
  {
    if fields != [] {
      assert fields[0] in fields;
      RedactionKeepsRefs(fields[0].value, p);
      RedactionKeepsFieldRefs(fields[1..], p);
    }
  }

  lemma {:induction false} RedactionKeepsItemRefs(items: seq<Json>, p: string -> bool)
    requires (forall x <- items :: LocalRefsSatisfy(x, p)) && forall r :: p(r) ==> Clear(r)
    ensures forall x <- RedactItems(items) :: LocalRefsSatisfy(x, p)
    decreases items, 0
  {
    if items != [] {
      RedactionKeepsRefs(items[0], p);
      RedactionKeepsItemRefs(items[1..], p);
    }
  }

  lemma {:induction false} DecodedPart(parts: seq<string>, k: string)
    requires k in DecodeAll(parts)
    ensures exists raw <- parts :: Decode(raw) == k
  {
    if Decode(parts[0]) == k {
      assert parts[0] in parts;
    } else {
      DecodedPart(parts[1..], k);
    }
  }

  lemma {:induction false} MarkAppears(s: string, a: string, b: char)
    requires a != "" && b !in ReplaceAll(s, a, [b])
    ensures ReplaceAll(s, a, [b]) == s
  {
    if s != "" && !(a <= s) {
      assert ReplaceAll(s, a, [b])[1..] == ReplaceAll(s[1..], a, [b]);
      MarkAppears(s[1..], a, b);
    }
  }

  /** A decoded segment without `/` and `~` was written as it stands. */
  lemma PlainSegment(raw: string)
    requires '/' !in Decode(raw) && '~' !in Decode(raw)
    ensures Decode(raw) == raw
  {
    var half := ReplaceAll(raw, "~1", "/");
    MarkAppears(half, "~0", '~');
    MarkAppears(raw, "~1", '/');
  }

  /** A pointer that holds no token names no legacy key. */
  lemma ClearPointerAvoidsLegacyKeys(pointer: string)
    requires "#/" <= pointer && Clear(pointer)
    ensures forall k <- Segments(pointer) :: k !in LEGACY_KEYS
  {
    forall k | k in Segments(pointer)
      ensures k !in LEGACY_KEYS
    {
      if k in LEGACY_KEYS {
        LegacySegmentOccurs(pointer, k);
        LegacyKeysAreTokens(k);
      }
    }
  }

  lemma LegacySegmentOccurs(pointer: string, k: string)
    requires "#/" <= pointer && k in Segments(pointer) && k in LEGACY_KEYS
    ensures Contains(pointer, k)
  {
    var parts := Split(pointer[2..], '/');
    DecodedPart(parts, k);
    var raw :| raw in parts && Decode(raw) == k;
    LegacyKeysArePlain(k);
    PlainSegment(raw);
    SplitPartOccurs(pointer[2..], '/', k);
    assert pointer[1..][1..] == pointer[2..];
    assert Contains(pointer[1..], k);
  }

  lemma LegacyKeysArePlain(k: string)
    requires k in LEGACY_KEYS
    ensures '/' !in k && '~' !in k
  {
  }

  lemma LegacyKeysAreTokens(k: string)
    requires k in LEGACY_KEYS
    ensures exists i :: 0 <= i < |REPLACEMENTS| && REPLACEMENTS[i].token == k
  {
    var i := if k == "scope_id" then 0 else if k == "scopeId" then 1 else if k == "ScopeID" then 2
      else if k == "organization_id" then 3 else if k == "organizationId" then 4 else if k == "OrganizationID" then 5
      else if k == "tenant_id" then 6 else if k == "tenantId" then 7 else 8;
    assert REPLACEMENTS[i].token == k;
  }

  /** A document whose references resolve and hold no legacy token still has no unresolved reference
      after key removal, parameter removal and rewriting. */
  lemma ScrubKeepsClosure(doc: Json)
    requires UnresolvedLocalRefs(doc) == []
    requires LocalRefsSatisfy(doc, HOLDS_NO_TOKEN)
    requires Scrub(doc).Some?
    ensures UnresolvedLocalRefs(Scrub(doc).value) == []
  {
    if doc.Obj? {
      var p := (r: string) => Resolves(doc, r) && Clear(r);
      NothingMissing(doc, doc, []);
      Both(doc, ResolvesIn(doc), HOLDS_NO_TOKEN, p);
      var stripped := Strip(doc);
      var dropped := DropParameters(stripped);
      var final := Redact(dropped);
      StripKeepsRefs(doc, p);
      DropParametersKeepsRefs(stripped, p);
      RedactionKeepsRefs(dropped, p);
      forall r | p(r)
        ensures Resolves(final, r)
      {
        ClearPointerAvoidsLegacyKeys(r);
        StripPreservesLookup(doc, r);
        DropParametersKeepsKeys(stripped);
        SameKeysSameChains(stripped, dropped, Segments(r));
        RedactionKeepsChains(dropped, Segments(r));
      }
      Weaken(final, p, ResolvesIn(final));
      NothingMissing(final, final, []);
    }
  }

  lemma {:induction false} Both(j: Json, p: string -> bool, q: string -> bool, both: string -> bool)
    requires LocalRefsSatisfy(j, p) && LocalRefsSatisfy(j, q) && forall r :: p(r) && q(r) ==> both(r)
    ensures LocalRefsSatisfy(j, both)
    decreases j
  {
    match j
    case Obj(fields) =>
      forall f | f in fields ensures LocalRefsSatisfy(f.value, both) { Both(f.value, p, q, both); }
    case Arr(items) =>
      forall x | x in items ensures LocalRefsSatisfy(x, both) { Both(x, p, q, both); }
    case _ =>
  }
}
