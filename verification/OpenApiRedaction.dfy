/** tools/build_openapi.py: the pass that rewrites legacy wording in every string of the document. */
module OpenApiRedaction {
  import opened Options
  import opened JsonTree
  import opened Text
  import opened OpenApiRefs

  datatype Replacement = Replacement(token: string, text: string)

  const REPLACEMENTS: seq<Replacement> := [
    Replacement("scope_id", "company"),
    Replacement("scopeId", "company"),
    Replacement("ScopeID", "company"),
    Replacement("organization_id", "company"),
    Replacement("organizationId", "company"),
    Replacement("OrganizationID", "company"),
    Replacement("tenant_id", "company"),
    Replacement("tenantId", "company"),
    Replacement("TenantID", "company"),
    Replacement("org_admin", "platform_admin"),
    Replacement("tenant-scoped", "single-company"),
    Replacement("org-scoped", "single-company")
  ]

  predicate Usable(repl: seq<Replacement>) {
    forall i :: 0 <= i < |repl| ==> repl[i].token != ""
  }

  /** The replacements applied in order, each to the result of the one before. */
  function ReplaceEach(s: string, repl: seq<Replacement>): string
    requires Usable(repl)
    decreases repl
  {
    if repl == [] then s else ReplaceEach(ReplaceAll(s, repl[0].token, repl[0].text), repl[1..])
  }

  function RedactText(s: string): string {
    ReplaceEach(s, REPLACEMENTS)
  }

  method ReplaceInOrder(text: string, repl: seq<Replacement>) returns (s: string)
    requires Usable(repl)
    ensures s == ReplaceEach(text, repl)
  {
    s := text;
    for i := 0 to |repl|
      invariant ReplaceEach(s, repl[i..]) == ReplaceEach(text, repl)
    {
      assert repl[i..][1..] == repl[i + 1..];
      s := ReplaceAll(s, repl[i].token, repl[i].text);
    }
  }

  predicate Clear(s: string) {
    forall i :: 0 <= i < |REPLACEMENTS| ==> !Contains(s, REPLACEMENTS[i].token)
  }

  /// No replacement text can overlap its surroundings to form a token

  predicate InertTexts(token: string) {
    Inert("company", token) && Inert("platform_admin", token) && Inert("single-company", token)
  }

  lemma ScopeSnake()
    ensures InertTexts("scope_id")
  {
  }

  lemma ScopeCamel()
    ensures InertTexts("scopeId")
  {
  }

  lemma ScopePascal()
    ensures InertTexts("ScopeID")
  {
  }

  lemma OrganizationSnake()
    ensures InertTexts("organization_id")
  {
  }

  lemma OrganizationCamel()
    ensures InertTexts("organizationId")
  {
  }

  lemma OrganizationPascal()
    ensures InertTexts("OrganizationID")
  {
  }

  lemma TenantSnake()
    ensures InertTexts("tenant_id")
  {
  }

  lemma TenantCamel()
    ensures InertTexts("tenantId")
  {
  }

  lemma TenantPascal()
    ensures InertTexts("TenantID")
  {
  }

  lemma OrgAdmin()
    ensures InertTexts("org_admin")
  {
  }

  lemma TenantScoped()
    ensures InertTexts("tenant-scoped")
  {
  }

  lemma OrgScoped()
    ensures InertTexts("org-scoped")
  {
  }

  lemma LocalMark()
    ensures InertTexts("#/")
  {
  }

  lemma TokenIsInert(i: nat)
    requires i < |REPLACEMENTS|
    ensures REPLACEMENTS[i].token != "" && InertTexts(REPLACEMENTS[i].token)
  {
    match i
    case 0 => ScopeSnake();
    case 1 => ScopeCamel();
    case 2 => ScopePascal();
    case 3 => OrganizationSnake();
    case 4 => OrganizationCamel();
    case 5 => OrganizationPascal();
    case 6 => TenantSnake();
    case 7 => TenantCamel();
    case 8 => TenantPascal();
    case 9 => OrgAdmin();
    case 10 => TenantScoped();
    case _ => OrgScoped();
  }

  lemma TextIsOneOfThree(i: nat)
    requires i < |REPLACEMENTS|
    ensures REPLACEMENTS[i].text in ["company", "platform_admin", "single-company"]
  {
  }

  predicate NoOverlap(repl: seq<Replacement>, token: string) {
    token != "" && forall i :: 0 <= i < |repl| ==> repl[i].token != "" && Inert(repl[i].text, token)
  }

  lemma InertMeansNoOverlap(token: string)
    requires token != "" && InertTexts(token)
    ensures NoOverlap(REPLACEMENTS, token)
  {
    forall i | 0 <= i < |REPLACEMENTS|
      ensures REPLACEMENTS[i].token != "" && Inert(REPLACEMENTS[i].text, token)
    {
      TokenIsInert(i);
      TextIsOneOfThree(i);
    }
  }

  lemma ReplacementsDoNotOverlap()
    ensures Usable(REPLACEMENTS)
    ensures forall i :: 0 <= i < |REPLACEMENTS| ==> NoOverlap(REPLACEMENTS, REPLACEMENTS[i].token)
    ensures NoOverlap(REPLACEMENTS, "#/")
  {
    forall i | 0 <= i < |REPLACEMENTS|
      ensures NoOverlap(REPLACEMENTS, REPLACEMENTS[i].token)
    {
      TokenIsInert(i);
      InertMeansNoOverlap(REPLACEMENTS[i].token);
    }
    LocalMark();
    InertMeansNoOverlap("#/");
  }

  /// Completeness and idempotence on strings

  lemma {:induction false} AbsentStaysAbsent(s: string, repl: seq<Replacement>, token: string)
    requires NoOverlap(repl, token) && !Contains(s, token)
    ensures !Contains(ReplaceEach(s, repl), token)
    decreases repl
  {
    if repl != [] {
      ReplacementCreatesNone(s, repl[0].token, repl[0].text, token);
      AbsentStaysAbsent(ReplaceAll(s, repl[0].token, repl[0].text), repl[1..], token);
    }
  }

  lemma {:induction false} EachTokenRemoved(s: string, repl: seq<Replacement>, i: nat)
    requires i < |repl| && NoOverlap(repl, repl[i].token)
    ensures !Contains(ReplaceEach(s, repl), repl[i].token)
    decreases repl
  {
    var r := repl[0];
    var next := ReplaceAll(s, r.token, r.text);
    if i == 0 {
      ReplacementRemovesAll(s, r.token, r.text);
      AbsentStaysAbsent(next, repl[1..], r.token);
    } else {
      EachTokenRemoved(next, repl[1..], i - 1);
    }
  }

  lemma {:induction false} NothingToReplace(s: string, repl: seq<Replacement>)
    requires Usable(repl) && forall i :: 0 <= i < |repl| ==> !Contains(s, repl[i].token)
    ensures ReplaceEach(s, repl) == s
  {
    if repl != [] {
      ReplacingNothing(s, repl[0].token, repl[0].text);
      NothingToReplace(s, repl[1..]);
    }
  }

  /** After the twelve ordered replacements no token is left, and a second round changes nothing. */
  lemma RedactionIsCompleteAndIdempotent(s: string)
    ensures Clear(RedactText(s))
    ensures RedactText(RedactText(s)) == RedactText(s)
    ensures Clear(s) ==> RedactText(s) == s
  {
    ReplacementsDoNotOverlap();
    forall i | 0 <= i < |REPLACEMENTS|
      ensures !Contains(RedactText(s), REPLACEMENTS[i].token)
    {
      EachTokenRemoved(s, REPLACEMENTS, i);
    }
    NothingToReplace(RedactText(s), REPLACEMENTS);
    if Clear(s) {
      NothingToReplace(s, REPLACEMENTS);
    }
  }

  lemma {:induction false} PrefixSurvivesBackwards(s: string, repl: seq<Replacement>, t: string)
    requires NoOverlap(repl, t) && t <= ReplaceEach(s, repl)
    ensures t <= s
    decreases repl
  {
    if repl != [] {
      var r := repl[0];
      PrefixSurvivesBackwards(ReplaceAll(s, r.token, r.text), repl[1..], t);
      assert t[0..] == t;
      PrefixPredatesReplacement(s, r.token, r.text, t, 0);
    }
  }

  /** Redaction turns no text into a local reference. */
  lemma LocalBeforeRedaction(s: string)
    requires "#/" <= RedactText(s)
    ensures "#/" <= s
  {
    ReplacementsDoNotOverlap();
    PrefixSurvivesBackwards(s, REPLACEMENTS, "#/");
  }

  /// The whole tree

  function Redact(j: Json): Json
    decreases j, 1
  {
    match j
    case Str(s) => Str(RedactText(s))
    case Obj(fields) => Obj(RedactFields(fields))
    case Arr(items) => Arr(RedactItems(items))
    case _ => j
  }

  function RedactFields(fields: seq<Field>): (r: seq<Field>)
    ensures |r| == |fields|
    decreases fields, 0
  {
    if fields == [] then [] else [Field(fields[0].key, Redact(fields[0].value))] + RedactFields(fields[1..])
  }

  function RedactItems(items: seq<Json>): (r: seq<Json>)
    ensures |r| == |items|
    decreases items, 0
  {
    if items == [] then [] else [Redact(items[0])] + RedactItems(items[1..])
  }

  predicate AllClear(j: Json)
    decreases j
  {
    match j
    case Str(s) => Clear(s)
    case Obj(fields) => forall f <- fields :: AllClear(f.value)
    case Arr(items) => forall x <- items :: AllClear(x)
    case _ => true
  }

  lemma RedactedStringIsClear(s: string)
    ensures AllClear(Redact(Str(s))) && Redact(Redact(Str(s))) == Redact(Str(s))
  {
    RedactionIsCompleteAndIdempotent(s);
  }

  /** No string value of the rewritten tree holds a token, and rewriting it again changes nothing. */
  lemma {:induction false} RedactedTreeIsClear(j: Json)
    ensures AllClear(Redact(j))
    ensures Redact(Redact(j)) == Redact(j)
    decreases j, 1
  {
    match j
    case Str(s) => RedactedStringIsClear(s);
    case Obj(fields) => RedactedFieldsAreClear(fields);
    case Arr(items) => RedactedItemsAreClear(items);
    case _ =>
  }

  lemma {:induction false} RedactedFieldsAreClear(fields: seq<Field>)
    ensures AllClear(Obj(RedactFields(fields)))
    ensures RedactFields(RedactFields(fields)) == RedactFields(fields)
    decreases fields, 0
  {
    if fields != [] {
      RedactedTreeIsClear(fields[0].value);
      RedactedFieldsAreClear(fields[1..]);
      var r := RedactFields(fields);
      assert r[1..] == RedactFields(fields[1..]);
      assert forall f <- r :: f == r[0] || f in r[1..];
    }
  }

  lemma {:induction false} RedactedItemsAreClear(items: seq<Json>)
    ensures AllClear(Arr(RedactItems(items)))
    ensures RedactItems(RedactItems(items)) == RedactItems(items)
    decreases items, 0
  {
    if items != [] {
      RedactedTreeIsClear(items[0]);
      RedactedItemsAreClear(items[1..]);
      var r := RedactItems(items);
      assert r[1..] == RedactItems(items[1..]);
      assert forall x <- r :: x == r[0] || x in r[1..];
    }
  }

  lemma {:induction false} GetRedacted(fields: seq<Field>, key: string)
    ensures Get(RedactFields(fields), key) ==
            match Get(fields, key) case Some(v) => Some(Redact(v)) case None => None
  {
    if fields != [] {
      GetRedacted(fields[1..], key);
      assert RedactFields(fields)[1..] == RedactFields(fields[1..]);
    }
  }

  lemma {:induction false} RedactionKeepsChains(j: Json, keys: seq<string>)
    ensures HasChain(Redact(j), keys) <==> HasChain(j, keys)
    decreases keys
  {
    if keys != [] && j.Obj? {
      GetRedacted(j.fields, keys[0]);
      if Get(j.fields, keys[0]).Some? {
        RedactionKeepsChains(Get(j.fields, keys[0]).value, keys[1..]);
      }
    }
  }
}
