/** internal/catalogbootstrap/manifest.go: the import manifest, its two loaders and its validation. */
module CatalogManifest {
  import opened Options
  import opened Sequences
  import opened Text

  datatype CategoryEntry = CategoryEntry(slug: string, name: string, parent: Option<string>)

  /** A brand or a tag. */
  datatype TaxonEntry = TaxonEntry(slug: string, name: string)

  datatype Taxonomy = Taxonomy(categories: seq<CategoryEntry>, brands: seq<TaxonEntry>, tags: seq<TaxonEntry>)

  datatype Product = Product(
    sku: string, name: string, description: string, active: bool,
    category: string, brand: Option<string>, tags: seq<string>,
    price: int, imageUrl: string, publicId: string, imageStatus: string)

  datatype Manifest = Manifest(taxonomy: Taxonomy, products: seq<Product>)

  /// Loading

  datatype FinalProduct = FinalProduct(
    sku: string, name: string, description: string, active: bool,
    finalCategory: string, categorySlug: string, finalBrand: Option<string>, finalTags: seq<string>,
    unitPriceMinor: int, sourceVnd: int, imageUrl: string, imageStatus: string, plannedPublicId: string)

  datatype EnrichedProduct = EnrichedProduct(
    sku: string, name: string, description: string, active: bool,
    categorySlug: string, brandSlug: Option<string>, tagSlugs: seq<string>,
    priceVnd: int, imageUrl: string, publicId: string)

  function PublicIdOr(given: string, sku: string): string {
    if Trim(given) == "" then "import-" + Trim(sku) else Trim(given)
  }

  function FromFinal(p: FinalProduct): Product {
    Product(
      Trim(p.sku), Trim(p.name), Trim(p.description), p.active,
      if Trim(p.finalCategory) == "" then Trim(p.categorySlug) else Trim(p.finalCategory),
      if p.finalBrand.Some? && Trim(p.finalBrand.value) != "" then Some(Trim(p.finalBrand.value)) else None,
      p.finalTags,
      if p.unitPriceMinor == 0 then p.sourceVnd else p.unitPriceMinor,
      Trim(p.imageUrl), PublicIdOr(p.plannedPublicId, p.sku), Trim(p.imageStatus))
  }

  function FromEnriched(p: EnrichedProduct): Product {
    Product(
      Trim(p.sku), Trim(p.name), Trim(p.description), p.active,
      Trim(p.categorySlug), p.brandSlug, p.tagSlugs,
      p.priceVnd, Trim(p.imageUrl), PublicIdOr(p.publicId, p.sku), "PENDING")
  }

  /** A public id that is given wins over the one made from the SKU. */
  predicate PublicIdPrecedence(given: string, sku: string, loaded: string) {
    && (!AllSpace(given) ==> loaded == Trim(given))
    && (AllSpace(given) ==> loaded == "import-" + Trim(sku))
  }

  /** Which raw field a loaded field comes from: the unit price unless it is zero, the decided category unless it is
      blank, the decided brand unless it is missing or blank; every other field its own. */
  predicate FinalPrecedence(raw: FinalProduct, p: Product) {
    && p.sku == Trim(raw.sku) && p.name == Trim(raw.name) && p.description == Trim(raw.description)
    && p.active == raw.active && p.tags == raw.finalTags
    && p.imageUrl == Trim(raw.imageUrl) && p.imageStatus == Trim(raw.imageStatus)
    && (raw.unitPriceMinor != 0 ==> p.price == raw.unitPriceMinor)
    && (raw.unitPriceMinor == 0 ==> p.price == raw.sourceVnd)
    && (!AllSpace(raw.finalCategory) ==> p.category == Trim(raw.finalCategory))
    && (AllSpace(raw.finalCategory) ==> p.category == Trim(raw.categorySlug))
    && (raw.finalBrand.Some? && !AllSpace(raw.finalBrand.value) ==> p.brand == Some(Trim(raw.finalBrand.value)))
    && (raw.finalBrand.None? || AllSpace(raw.finalBrand.value) ==> p.brand == None)
    && PublicIdPrecedence(raw.plannedPublicId, raw.sku, p.publicId)
  }

  /** Every field its own; only a blank public id is made up, and images are pending. */
  predicate EnrichedPrecedence(raw: EnrichedProduct, p: Product) {
    && p.sku == Trim(raw.sku) && p.name == Trim(raw.name) && p.description == Trim(raw.description)
    && p.active == raw.active && p.category == Trim(raw.categorySlug) && p.brand == raw.brandSlug
    && p.tags == raw.tagSlugs && p.price == raw.priceVnd
    && p.imageUrl == Trim(raw.imageUrl) && p.imageStatus == "PENDING"
    && PublicIdPrecedence(raw.publicId, raw.sku, p.publicId)
  }

  lemma PublicIdChosen(given: string, sku: string)
    ensures PublicIdPrecedence(given, sku, PublicIdOr(given, sku))
  {
    hide Trim, AllSpace;
    TrimmedToNothing(given);
  }

  lemma FinalFieldsChosen(raw: FinalProduct)
    ensures FinalPrecedence(raw, FromFinal(raw))
  {
    hide Trim, AllSpace, PublicIdPrecedence, PublicIdOr;
    PublicIdChosen(raw.plannedPublicId, raw.sku);
    TrimmedToNothing(raw.finalCategory);
    if raw.finalBrand.Some? {
      TrimmedToNothing(raw.finalBrand.value);
    }
  }

  lemma EnrichedFieldsChosen(raw: EnrichedProduct)
    ensures EnrichedPrecedence(raw, FromEnriched(raw))
  {
    hide Trim, PublicIdPrecedence, PublicIdOr;
    PublicIdChosen(raw.publicId, raw.sku);
  }

  method LoadFinalManifest(taxonomy: Taxonomy, raw: seq<FinalProduct>) returns (m: Manifest)
    ensures m.taxonomy == taxonomy && |m.products| == |raw|
    ensures forall i :: 0 <= i < |raw| ==> m.products[i] == FromFinal(raw[i]) && FinalPrecedence(raw[i], m.products[i])
    ensures forall p <- m.products ::
              Trim(p.sku) == p.sku && Trim(p.category) == p.category && Trim(p.publicId) == p.publicId
  {
    hide Trim, FinalPrecedence;
    var products: seq<Product> := [];
    for i := 0 to |raw|
      invariant |products| == i
      invariant forall j :: 0 <= j < i ==> products[j] == FromFinal(raw[j]) && FinalPrecedence(raw[j], products[j])
    {
      FinalFieldsChosen(raw[i]);
      products := products + [FromFinal(raw[i])];
    }
    forall p | p in products
      ensures Trim(p.sku) == p.sku && Trim(p.category) == p.category && Trim(p.publicId) == p.publicId
    {
      var j :| 0 <= j < |products| && products[j] == p;
      LoadedFieldsAreTrimmed(raw[j].sku, raw[j].plannedPublicId, raw[j].finalCategory, raw[j].categorySlug);
    }
    m := Manifest(taxonomy, products);
  }

  method LoadEnrichedManifest(taxonomy: Taxonomy, raw: seq<EnrichedProduct>) returns (m: Manifest)
    ensures m.taxonomy == taxonomy && |m.products| == |raw|
    ensures forall i :: 0 <= i < |raw| ==>
              m.products[i] == FromEnriched(raw[i]) && EnrichedPrecedence(raw[i], m.products[i])
    ensures forall p <- m.products ::
              Trim(p.sku) == p.sku && Trim(p.category) == p.category && Trim(p.publicId) == p.publicId
  {
    hide Trim, EnrichedPrecedence;
    var products: seq<Product> := [];
    for i := 0 to |raw|
      invariant |products| == i
      invariant forall j ::
                  0 <= j < i ==> products[j] == FromEnriched(raw[j]) && EnrichedPrecedence(raw[j], products[j])
    {
      EnrichedFieldsChosen(raw[i]);
      products := products + [FromEnriched(raw[i])];
    }
    forall p | p in products
      ensures Trim(p.sku) == p.sku && Trim(p.category) == p.category && Trim(p.publicId) == p.publicId
    {
      var j :| 0 <= j < |products| && products[j] == p;
      LoadedFieldsAreTrimmed(raw[j].sku, raw[j].publicId, raw[j].categorySlug, raw[j].categorySlug);
    }
    m := Manifest(taxonomy, products);
  }

  lemma LoadedFieldsAreTrimmed(sku: string, given: string, category: string, fallback: string)
    ensures Trim(Trim(sku)) == Trim(sku) && Trim(Trim(category)) == Trim(category)
            && Trim(Trim(fallback)) == Trim(fallback)
    ensures Trim(PublicIdOr(given, sku)) == PublicIdOr(given, sku)
  {
    hide Trim;
    TrimIsIdempotent(sku);
    TrimIsIdempotent(category);
    TrimIsIdempotent(fallback);
    TrimIsIdempotent(given);
    TrimmedIff("import-");
    TrimPrefixed("import-", Trim(sku));
  }

  /// Validation

  datatype Issue =
    | NilManifest
    | MissingSku
    | DuplicateSku(sku: string)
    | InvalidCategory(sku: string)
    | UnknownBrand(sku: string)
    | UnknownTag(sku: string, tag: string)
    | MissingImage(sku: string)
    | BadImageStatus(sku: string)
    | InvalidPrice(sku: string)
    | DuplicatePublicId(publicId: string)

  /** The lower-cased slugs that a product may refer to. */
  datatype Known = Known(categories: set<string>, brands: set<string>, tags: set<string>)

  function KnownSlugs(t: Taxonomy): Known {
    Known(set c <- t.categories :: Lower(c.slug), set b <- t.brands :: Lower(b.slug), set g <- t.tags :: Lower(g.slug))
  }

  function TagIssues(sku: string, tags: seq<string>, known: set<string>): seq<Issue> {
    if tags == [] then []
    else (if Lower(tags[0]) in known then [] else [UnknownTag(sku, tags[0])]) + TagIssues(sku, tags[1..], known)
  }

  predicate BrandFine(brand: Option<string>, known: set<string>) {
    brand.None? || brand.value == "" || Lower(brand.value) in known
  }

  predicate StatusFine(status: string) {
    status == "" || status == "OK" || status == "PENDING"
  }

  function ProductIssues(p: Product, known: Known, skus: set<string>, publicIds: set<string>): seq<Issue> {
    if p.sku == "" then [MissingSku]
    else
      (if p.sku in skus then [DuplicateSku(p.sku)] else [])
      + (if p.category == "" || Lower(p.category) !in known.categories then [InvalidCategory(p.sku)] else [])
      + (if BrandFine(p.brand, known.brands) then [] else [UnknownBrand(p.sku)])
      + TagIssues(p.sku, p.tags, known.tags)
      + (if p.imageUrl == "" then [MissingImage(p.sku)] else [])
      + (if StatusFine(p.imageStatus) then [] else [BadImageStatus(p.sku)])
      + (if p.price <= 0 then [InvalidPrice(p.sku)] else [])
      + (if p.publicId in publicIds then [DuplicatePublicId(p.publicId)] else [])
  }

  function IssuesFrom(
    products: seq<Product>, known: Known, i: nat, skus: set<string>, publicIds: set<string>): seq<Issue>
    requires i <= |products|
    decreases |products| - i
  {
    if i == |products| then []
    else
      var p := products[i];
      ProductIssues(p, known, skus, publicIds)
      + if p.sku == "" then IssuesFrom(products, known, i + 1, skus, publicIds)
        else IssuesFrom(products, known, i + 1, skus + {p.sku}, publicIds + {p.publicId})
  }

  function Issues(m: Option<Manifest>): seq<Issue> {
    match m
    case None => [NilManifest]
    case Some(manifest) => IssuesFrom(manifest.products, KnownSlugs(manifest.taxonomy), 0, {}, {})
  }

  method ValidateManifest(m: Option<Manifest>) returns (issues: seq<Issue>)
    ensures issues == Issues(m)
  {
    hide ProductIssues;
    if m.None? {
      return [NilManifest];
    }
    var t, products := m.value.taxonomy, m.value.products;
    var known := KnownSlugs(t);
    issues := [];
    var skus: set<string>, publicIds: set<string> := {}, {};
    for i := 0 to |products|
      invariant issues + IssuesFrom(products, known, i, skus, publicIds) == IssuesFrom(products, known, 0, {}, {})
    {
      var p := products[i];
      var found := CheckProduct(p, known, skus, publicIds);
      ghost var next := if p.sku == "" then IssuesFrom(products, known, i + 1, skus, publicIds)
                        else IssuesFrom(products, known, i + 1, skus + {p.sku}, publicIds + {p.publicId});
      Regroup(issues, found, next);
      issues := issues + found;
      if p.sku != "" {
        skus, publicIds := skus + {p.sku}, publicIds + {p.publicId};
      }
    }
  }

  method CheckProduct(p: Product, known: Known, skus: set<string>, publicIds: set<string>) returns (issues: seq<Issue>)
    ensures issues == ProductIssues(p, known, skus, publicIds)
  {
    hide Lower, BrandFine, StatusFine, TagIssues;
    if p.sku == "" {
      return [MissingSku];
    }
    issues := if p.sku in skus then [DuplicateSku(p.sku)] else [];
    issues := issues
      + (if p.category == "" || Lower(p.category) !in known.categories then [InvalidCategory(p.sku)] else []);
    issues := issues + (if BrandFine(p.brand, known.brands) then [] else [UnknownBrand(p.sku)]);
    var tagIssues := CheckTags(p.sku, p.tags, known.tags);
    issues := issues + tagIssues;
    issues := issues + (if p.imageUrl == "" then [MissingImage(p.sku)] else []);
    issues := issues + (if StatusFine(p.imageStatus) then [] else [BadImageStatus(p.sku)]);
    issues := issues + (if p.price <= 0 then [InvalidPrice(p.sku)] else []);
    issues := issues + (if p.publicId in publicIds then [DuplicatePublicId(p.publicId)] else []);
  }

  lemma TagIssuesNext(sku: string, tags: seq<string>, known: set<string>, i: nat)
    requires i < |tags|
    ensures TagIssues(sku, tags[i..], known) ==
            (if Lower(tags[i]) in known then [] else [UnknownTag(sku, tags[i])]) + TagIssues(sku, tags[i + 1..], known)
  {
    hide Lower;
    assert tags[i..][1..] == tags[i + 1..];
  }

  lemma NoTagsNoIssues(sku: string, known: set<string>)
    ensures TagIssues(sku, [], known) == []
  {
  }

  method CheckTags(sku: string, tags: seq<string>, known: set<string>) returns (issues: seq<Issue>)
    ensures issues == TagIssues(sku, tags, known)
  {
    hide Lower, TagIssues;
    ghost var all := TagIssues(sku, tags, known);
    issues := [];
    assert tags[0..] == tags;
    for i := 0 to |tags|
      invariant all == issues + TagIssues(sku, tags[i..], known)
    {
      TagIssuesNext(sku, tags, known, i);
      ghost var rest := TagIssues(sku, tags[i + 1..], known);
      if Lower(tags[i]) in known {
        NothingFirst(rest);
      } else {
        Regroup(issues, [UnknownTag(sku, tags[i])], rest);
        issues := issues + [UnknownTag(sku, tags[i])];
      }
    }
    assert tags[|tags|..] == [];
    NoTagsNoIssues(sku, known);
  }

  lemma NothingFirst(issues: seq<Issue>)
    ensures [] + issues == issues
  {
  }

  /** One product refers only to known slugs and carries usable values. */
  predicate ProductSound(p: Product, known: Known) {
    && p.sku != ""
    && p.category != "" && Lower(p.category) in known.categories
    && BrandFine(p.brand, known.brands)
    && (forall g <- p.tags :: Lower(g) in known.tags)
    && p.imageUrl != "" && StatusFine(p.imageStatus) && p.price > 0
  }

  predicate NamesCategory(t: Taxonomy, slug: string) {
    exists c <- t.categories :: Lower(c.slug) == Lower(slug)
  }

  predicate NamesTaxon(list: seq<TaxonEntry>, slug: string) {
    exists e <- list :: Lower(e.slug) == Lower(slug)
  }

  /** The same of the taxonomy's own lists: slugs are compared in lower case. */
  predicate FitsTaxonomy(p: Product, t: Taxonomy) {
    && p.sku != "" && p.category != "" && NamesCategory(t, p.category)
    && (p.brand.Some? && p.brand.value != "" ==> NamesTaxon(t.brands, p.brand.value))
    && (forall g <- p.tags :: NamesTaxon(t.tags, g))
    && p.imageUrl != "" && p.imageStatus in {"", "OK", "PENDING"} && p.price > 0
  }

  /** Referential integrity: every product fits the taxonomy, and neither SKUs nor public ids repeat. */
  predicate Integrity(m: Manifest) {
    && (forall p <- m.products :: FitsTaxonomy(p, m.taxonomy))
    && (forall i, j :: 0 <= i < j < |m.products| ==>
          m.products[i].sku != m.products[j].sku && m.products[i].publicId != m.products[j].publicId)
  }

  lemma KnownMeansNamed(t: Taxonomy, slug: string)
    ensures Lower(slug) in KnownSlugs(t).categories <==> NamesCategory(t, slug)
    ensures Lower(slug) in KnownSlugs(t).brands <==> NamesTaxon(t.brands, slug)
    ensures Lower(slug) in KnownSlugs(t).tags <==> NamesTaxon(t.tags, slug)
  {
    hide Lower;
  }

  lemma SoundMeansFits(p: Product, t: Taxonomy)
    ensures ProductSound(p, KnownSlugs(t)) <==> FitsTaxonomy(p, t)
  {
    hide Lower, KnownSlugs, NamesCategory, NamesTaxon;
    KnownMeansNamed(t, p.category);
    if p.brand.Some? {
      KnownMeansNamed(t, p.brand.value);
    }
    forall g | g in p.tags ensures Lower(g) in KnownSlugs(t).tags <==> NamesTaxon(t.tags, g) {
      KnownMeansNamed(t, g);
    }
  }

  lemma {:induction false} NoTagIssues(sku: string, tags: seq<string>, known: set<string>)
    ensures TagIssues(sku, tags, known) == [] <==> forall g <- tags :: Lower(g) in known
  {
    hide Lower;
    if tags != [] {
      NoTagIssues(sku, tags[1..], known);
      assert tags[0] in tags && forall g <- tags :: g == tags[0] || g in tags[1..];
      assert forall g <- tags[1..] :: g in tags;
    }
  }

  lemma NoProductIssues(p: Product, known: Known, skus: set<string>, publicIds: set<string>)
    ensures ProductIssues(p, known, skus, publicIds) == [] <==>
            ProductSound(p, known) && p.sku !in skus && p.publicId !in publicIds
  {
    hide Lower, BrandFine, StatusFine, TagIssues;
    NoTagIssues(p.sku, p.tags, known.tags);
  }

  predicate SoundFrom(products: seq<Product>, known: Known, i: nat, skus: set<string>, publicIds: set<string>) {
    && (forall k :: i <= k < |products| ==>
          ProductSound(products[k], known) && products[k].sku !in skus && products[k].publicId !in publicIds)
    && (forall k, l :: i <= k < l < |products| ==>
          products[k].sku != products[l].sku && products[k].publicId != products[l].publicId)
  }

  lemma {:induction false} NoIssuesFrom(
    products: seq<Product>, known: Known, i: nat, skus: set<string>, publicIds: set<string>)
    requires i <= |products|
    ensures IssuesFrom(products, known, i, skus, publicIds) == [] <==> SoundFrom(products, known, i, skus, publicIds)
    decreases |products| - i
  {
    hide ProductSound, ProductIssues;
    if i < |products| {
      var p := products[i];
      NoProductIssues(p, known, skus, publicIds);
      MissingSkuIsUnsound(p, known);
      SoundFromNext(products, known, i, skus, publicIds);
      hide SoundFrom;
      if p.sku != "" {
        NoIssuesFrom(products, known, i + 1, skus + {p.sku}, publicIds + {p.publicId});
      }
    }
  }

  lemma SoundFromNext(products: seq<Product>, known: Known, i: nat, skus: set<string>, publicIds: set<string>)
    requires i < |products|
    ensures var p := products[i];
            SoundFrom(products, known, i, skus, publicIds) <==>
            && ProductSound(p, known) && p.sku !in skus && p.publicId !in publicIds
            && SoundFrom(products, known, i + 1, skus + {p.sku}, publicIds + {p.publicId})
  {
    hide ProductSound;
    if SoundFrom(products, known, i + 1, skus + {products[i].sku}, publicIds + {products[i].publicId}) {
      forall l | i < l < |products|
        ensures products[i].sku != products[l].sku && products[i].publicId != products[l].publicId
      {
        assert products[l].sku !in skus + {products[i].sku};
      }
    }
  }

  lemma MissingSkuIsUnsound(p: Product, known: Known)
    ensures ProductSound(p, known) ==> p.sku != ""
  {
  }

  /** The accumulating validation finds nothing exactly when the manifest has referential integrity. */
  lemma ValidationIsExact(m: Manifest)
    ensures Issues(Some(m)) == [] <==> Integrity(m)
  {
    hide ProductSound, FitsTaxonomy, IssuesFrom, KnownSlugs;
    NoIssuesFrom(m.products, KnownSlugs(m.taxonomy), 0, {}, {});
    forall p | p in m.products ensures ProductSound(p, KnownSlugs(m.taxonomy)) <==> FitsTaxonomy(p, m.taxonomy) {
      SoundMeansFits(p, m.taxonomy);
    }
    assert forall i :: 0 <= i < |m.products| ==> m.products[i] in m.products;
  }

  /// Each issue

  /** An earlier product that has a SKU. */
  predicate Earlier(products: seq<Product>, j: int, i: int) {
    0 <= j < i <= |products| && products[j].sku != ""
  }

  /** What is wrong with the ith product; one without a SKU is looked at no further, and does not count as earlier. */
  ghost predicate IssueDue(m: Manifest, i: nat, issue: Issue)
    requires i < |m.products|
  {
    var p, t := m.products[i], m.taxonomy;
    if issue.NilManifest? then false
    else if issue.MissingSku? then p.sku == ""
    else
      p.sku != "" &&
      match issue
      case DuplicateSku(sku) => sku == p.sku && exists j :: Earlier(m.products, j, i) && m.products[j].sku == p.sku
      case InvalidCategory(sku) => sku == p.sku && (p.category == "" || !NamesCategory(t, p.category))
      case UnknownBrand(sku) =>
        sku == p.sku && p.brand.Some? && p.brand.value != "" && !NamesTaxon(t.brands, p.brand.value)
      case UnknownTag(sku, tag) => sku == p.sku && tag in p.tags && !NamesTaxon(t.tags, tag)
      case MissingImage(sku) => sku == p.sku && p.imageUrl == ""
      case BadImageStatus(sku) => sku == p.sku && p.imageStatus !in {"", "OK", "PENDING"}
      case InvalidPrice(sku) => sku == p.sku && p.price <= 0
      case DuplicatePublicId(publicId) =>
        publicId == p.publicId && exists j :: Earlier(m.products, j, i) && m.products[j].publicId == p.publicId
      case _ => false
  }

  lemma {:induction false} TagIssuesAre(sku: string, tags: seq<string>, known: set<string>, issue: Issue)
    ensures issue in TagIssues(sku, tags, known) <==>
            issue.UnknownTag? && issue.sku == sku && issue.tag in tags && Lower(issue.tag) !in known
  {
    hide Lower;
    if tags != [] {
      TagIssuesAre(sku, tags[1..], known, issue);
      assert tags == [tags[0]] + tags[1..];
    }
  }

  /** The sets of what was seen are those of the earlier products. */
  ghost predicate SeenBefore(products: seq<Product>, i: nat, skus: set<string>, publicIds: set<string>) {
    && (forall s :: s in skus <==> exists j :: Earlier(products, j, i) && products[j].sku == s)
    && (forall s :: s in publicIds <==> exists j :: Earlier(products, j, i) && products[j].publicId == s)
  }

  /** The issues of one product, against what is known and what was seen. */
  predicate IssueFound(p: Product, known: Known, skus: set<string>, publicIds: set<string>, issue: Issue) {
    if p.sku == "" then issue == MissingSku
    else
      || (p.sku in skus && issue == DuplicateSku(p.sku))
      || ((p.category == "" || Lower(p.category) !in known.categories) && issue == InvalidCategory(p.sku))
      || (!BrandFine(p.brand, known.brands) && issue == UnknownBrand(p.sku))
      || (issue.UnknownTag? && issue.sku == p.sku && issue.tag in p.tags && Lower(issue.tag) !in known.tags)
      || (p.imageUrl == "" && issue == MissingImage(p.sku))
      || (!StatusFine(p.imageStatus) && issue == BadImageStatus(p.sku))
      || (p.price <= 0 && issue == InvalidPrice(p.sku))
      || (p.publicId in publicIds && issue == DuplicatePublicId(p.publicId))
  }

  lemma IssuesFound(p: Product, known: Known, skus: set<string>, publicIds: set<string>, issue: Issue)
    ensures issue in ProductIssues(p, known, skus, publicIds) <==> IssueFound(p, known, skus, publicIds, issue)
  {
    hide Lower, TagIssues, BrandFine, StatusFine;
    TagIssuesAre(p.sku, p.tags, known.tags, issue);
  }

  lemma ProductIssuesAre(m: Manifest, i: nat, skus: set<string>, publicIds: set<string>, issue: Issue)
    requires i < |m.products| && SeenBefore(m.products, i, skus, publicIds)
    ensures issue in ProductIssues(m.products[i], KnownSlugs(m.taxonomy), skus, publicIds) <==> IssueDue(m, i, issue)
  {
    hide Lower, KnownSlugs, NamesCategory, NamesTaxon, ProductIssues, Earlier, SeenBefore;
    var p, t := m.products[i], m.taxonomy;
    IssuesFound(p, KnownSlugs(t), skus, publicIds, issue);
    KnownMeansNamed(t, p.category);
    SeenMeans(m.products, i, skus, publicIds);
    if p.brand.Some? {
      KnownMeansNamed(t, p.brand.value);
    }
    if issue.UnknownTag? {
      KnownMeansNamed(t, issue.tag);
    }
  }

  lemma SeenMeans(products: seq<Product>, i: nat, skus: set<string>, publicIds: set<string>)
    requires i < |products| && SeenBefore(products, i, skus, publicIds)
    ensures products[i].sku in skus <==> exists j :: Earlier(products, j, i) && products[j].sku == products[i].sku
    ensures products[i].publicId in publicIds
            <==> exists j :: Earlier(products, j, i) && products[j].publicId == products[i].publicId
  {
  }

  lemma OneMoreEarlier(products: seq<Product>, i: nat)
    requires i < |products|
    ensures forall j :: Earlier(products, j, i + 1) <==> Earlier(products, j, i) || (j == i && products[i].sku != "")
  {
  }

  lemma SeenNext(products: seq<Product>, i: nat, skus: set<string>, publicIds: set<string>)
    requires i < |products| && SeenBefore(products, i, skus, publicIds)
    ensures var p := products[i];
            if p.sku == "" then SeenBefore(products, i + 1, skus, publicIds)
            else SeenBefore(products, i + 1, skus + {p.sku}, publicIds + {p.publicId})
  {
    OneMoreEarlier(products, i);
    hide Earlier;
  }

  lemma {:induction false} IssuesFromAre(m: Manifest, i: nat, skus: set<string>, publicIds: set<string>, issue: Issue)
    requires i <= |m.products| && SeenBefore(m.products, i, skus, publicIds)
    ensures issue in IssuesFrom(m.products, KnownSlugs(m.taxonomy), i, skus, publicIds) <==>
            exists k: nat :: i <= k < |m.products| && IssueDue(m, k, issue)
    decreases |m.products| - i
  {
    hide ProductIssues, IssueDue, KnownSlugs, SeenBefore;
    if i < |m.products| {
      var p := m.products[i];
      ProductIssuesAre(m, i, skus, publicIds, issue);
      SeenNext(m.products, i, skus, publicIds);
      if p.sku == "" {
        IssuesFromAre(m, i + 1, skus, publicIds, issue);
      } else {
        IssuesFromAre(m, i + 1, skus + {p.sku}, publicIds + {p.publicId}, issue);
      }
    }
  }

  /** Reported is exactly what is wrong with some product. */
  lemma IssuesAre(m: Manifest, issue: Issue)
    ensures issue in Issues(Some(m)) <==> exists i: nat :: i < |m.products| && IssueDue(m, i, issue)
  {
    hide IssuesFrom, IssueDue, KnownSlugs;
    IssuesFromAre(m, 0, {}, {}, issue);
  }
}
