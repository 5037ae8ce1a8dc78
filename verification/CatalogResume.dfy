/** Why the lookups of a validated manifest succeed, and when validation alone does not guarantee them. */
module CatalogResume {
  import opened Options
  import opened Text
  import opened CatalogManifest
  import opened CatalogDatabase
  import opened TaxonomyImport
  import opened CatalogImport

  /// Lookups of a validated manifest

  predicate Normal(slug: string) {
    slug != "" && Trim(slug) == slug && Lower(slug) == slug
  }

  /** Slugs are trimmed and lower-case throughout, and SKUs trimmed as the loaders leave them. */
  predicate Normalized(m: Manifest) {
    && (forall c <- m.taxonomy.categories :: Normal(c.slug))
    && (forall b <- m.taxonomy.brands :: Normal(b.slug))
    && (forall g <- m.taxonomy.tags :: Normal(g.slug))
    && (forall p <- m.products ::
          && Trim(p.sku) == p.sku && Normal(p.category)
          && (p.brand.Some? && p.brand.value != "" ==> Normal(p.brand.value))
          && forall g <- p.tags :: Normal(g))
  }

  /** The ids at hand are those of the rows and cover every slug of the taxonomy. */
  ghost predicate IdsUsable(ids: TaxonIds, db: Db, t: Taxonomy) {
    && Agrees(ids.categories, db.categories) && Agrees(ids.brands, db.brands) && Agrees(ids.tags, db.tags)
    && (forall c <- t.categories :: c.slug in ids.categories)
    && (forall b <- t.brands :: b.slug in ids.brands)
    && (forall g <- t.tags :: g.slug in ids.tags)
  }

  /** Every lookup that importing `p` makes finds a row. */
  ghost predicate Found(ids: TaxonIds, db: Db, p: Product) {
    && Lower(p.category) in db.categories
    && IdAt(ids.categories, p.category) == Some(db.categories[Lower(p.category)].id)
    && (p.brand.Some? && p.brand.value != "" ==>
          && Trim(p.brand.value) == p.brand.value
          && Lower(p.brand.value) in db.brands
          && IdAt(ids.brands, p.brand.value) == Some(db.brands[Lower(p.brand.value)].id))
    && (forall g <- p.tags :: Lower(g) in db.tags && IdAt(ids.tags, g) == Some(db.tags[Lower(g)].id))
  }

  lemma AgreedIdIsFound(ids: map<string, Id>, table: Table, nextId: Id, slug: string)
    requires ValidTable(table, nextId) && Agrees(ids, table) && slug in ids
    ensures Lower(slug) in table && IdAt(ids, slug) == Some(table[Lower(slug)].id)
  {
    hide Lower;
  }

  /** Validation guarantees the lookups: in a normalized manifest without issues every category, brand and
      tag of a product is found, so no tag is dropped. */
  lemma ValidatedLookupsSucceed(m: Manifest, ids: TaxonIds, db: Db, p: Product)
    requires Issues(Some(m)) == [] && Normalized(m) && p in m.products
    requires ValidTaxa(db) && IdsUsable(ids, db, m.taxonomy)
    ensures Found(ids, db, p)
  {
    hide Lower, Trim, Issues, ValidTable, Agrees, IdAt;
    ValidationIsExact(m);
    assert FitsTaxonomy(p, m.taxonomy);
    var c :| c in m.taxonomy.categories && Lower(c.slug) == Lower(p.category);
    assert c.slug == p.category;
    AgreedIdIsFound(ids.categories, db.categories, db.nextId, p.category);
    if p.brand.Some? && p.brand.value != "" {
      var b :| b in m.taxonomy.brands && Lower(b.slug) == Lower(p.brand.value);
      assert b.slug == p.brand.value;
      AgreedIdIsFound(ids.brands, db.brands, db.nextId, p.brand.value);
    }
    forall g | g in p.tags
      ensures Lower(g) in db.tags && IdAt(ids.tags, g) == Some(db.tags[Lower(g)].id)
    {
      var x :| x in m.taxonomy.tags && Lower(x.slug) == Lower(g);
      assert x.slug == g;
      AgreedIdIsFound(ids.tags, db.tags, db.nextId, g);
    }
  }

  lemma {:induction false} LookupAllAgrees(
    env: Env, calls: nat, table: Table, slugs: seq<string>, i: nat, ids: map<string, Id>)
    requires i <= |slugs| && Agrees(ids, table) && forall s <- slugs :: Trim(s) == s
    requires forall j :: 0 <= j < i ==> slugs[j] in ids
    ensures var (n, found) := LookupAll(env, calls, table, slugs, i, ids);
            calls <= n && (found.Some? ==> Agrees(found.value, table) && forall s <- slugs :: s in found.value)
    decreases |slugs| - i
  {
    hide Lower, Trim;
    if i < |slugs| {
      assert slugs[i] in slugs;
      var id := LookupRow(env.fails(calls), table, slugs[i]);
      if id.Some? {
        LookupAllAgrees(env, calls + 1, table, slugs, i + 1, ids[slugs[i] := id.value]);
      }
    }
  }

  lemma LookedUpIdsUsable(env: Env, db: Db, calls: nat, m: Manifest)
    requires Normalized(m)
    ensures var (n, ids) := LookupTaxonomy(env, db, calls, m.taxonomy);
            calls <= n && (ids.Some? ==> IdsUsable(ids.value, db, m.taxonomy))
  {
    hide Lower, Trim, LookupAll, Agrees;
    var t := m.taxonomy;
    var cs, bs, gs := CategorySlugs(t.categories), TaxonSlugs(t.brands), TaxonSlugs(t.tags);
    SlugsListed(t);
    EmptyAgrees(db.categories);
    EmptyAgrees(db.brands);
    EmptyAgrees(db.tags);
    LookupAllAgrees(env, calls, db.categories, cs, 0, map[]);
    var (n1, c) := LookupAll(env, calls, db.categories, cs, 0, map[]);
    LookupAllAgrees(env, n1, db.brands, bs, 0, map[]);
    var (n2, b) := LookupAll(env, n1, db.brands, bs, 0, map[]);
    LookupAllAgrees(env, n2, db.tags, gs, 0, map[]);
    var (_, g) := LookupAll(env, n2, db.tags, gs, 0, map[]);
    if c.Some? && b.Some? && g.Some? {
      assert IdsUsable(TaxonIds(c.value, b.value, g.value), db, t);
    }
  }

  lemma EmptyAgrees(table: Table)
    ensures Agrees(map[], table)
  {
  }

  lemma SlugsListed(t: Taxonomy)
    ensures forall c <- t.categories :: c.slug in CategorySlugs(t.categories)
    ensures forall b <- t.brands :: b.slug in TaxonSlugs(t.brands)
    ensures forall g <- t.tags :: g.slug in TaxonSlugs(t.tags)
    ensures forall s <- CategorySlugs(t.categories) :: exists c <- t.categories :: c.slug == s
    ensures forall s <- TaxonSlugs(t.brands) :: exists b <- t.brands :: b.slug == s
    ensures forall s <- TaxonSlugs(t.tags) :: exists g <- t.tags :: g.slug == s
  {
    forall c | c in t.categories ensures c.slug in CategorySlugs(t.categories) {
      var i :| 0 <= i < |t.categories| && t.categories[i] == c;
      assert CategorySlugs(t.categories)[i] == c.slug;
    }
    TaxonSlugsListed(t.brands);
    TaxonSlugsListed(t.tags);
  }

  lemma TaxonSlugsListed(list: seq<TaxonEntry>)
    ensures forall b <- list :: b.slug in TaxonSlugs(list)
    ensures forall s <- TaxonSlugs(list) :: exists b <- list :: b.slug == s
  {
    forall b | b in list ensures b.slug in TaxonSlugs(list) {
      var i :| 0 <= i < |list| && list[i] == b;
      assert TaxonSlugs(list)[i] == b.slug;
    }
  }

  /** Whether the taxonomy is imported or only looked up, the run goes on with usable ids or not at all. */
  lemma TaxonIdsObtained(env: Env, db: Db, calls: nat, m: Manifest, create: bool)
    requires Normalized(m) && ValidTaxa(db)
    ensures var (db', n, ids) := ObtainTaxonIds(env, db, calls, m.taxonomy, create);
            TaxaGrow(db, db') && calls <= n && (ids.Some? ==> IdsUsable(ids.value, db', m.taxonomy))
  {
    hide Lower, Trim, ImportTaxonomy, LookupTaxonomy, Agrees, ValidTable, NewCategoriesLinked;
    if create {
      TaxonomyImported(env, db, calls, m.taxonomy);
      assert forall c <- m.taxonomy.categories :: Trim(c.slug) == c.slug && (IsRootTodo(c) || !IsRoot(c));
    } else {
      LookedUpIdsUsable(env, db, calls, m);
      NothingGrows(db);
    }
  }

  lemma NothingGrows(db: Db)
    requires ValidTaxa(db)
    ensures TaxaGrow(db, db)
  {
  }

  /// Without normalization

  /** After an import a category is found exactly when the trimmed slug of some imported entry equals it letter for
      letter. */
  lemma CategoryFoundIff(env: Env, db: Db, calls: nat, t: Taxonomy, slug: string)
    requires ValidTaxa(db) && ImportTaxonomy(env, db, calls, t, false).2.Some?
    ensures var ids := ImportTaxonomy(env, db, calls, t, false).2.value;
            IdAt(ids.categories, slug).Some?
            <==> exists c <- t.categories :: (IsRootTodo(c) || !IsRoot(c)) && Trim(c.slug) == slug
  {
    hide Lower, Trim, IsRoot, ImportTaxonomy, NewCategoriesLinked, NewTaxaListed, AllTaken;
    TaxonomyImported(env, db, calls, t);
  }

  /** After an import a product's brand is found exactly when some entry's trimmed slug equals it, trimmed, letter for
      letter. */
  lemma BrandFoundIff(env: Env, db: Db, calls: nat, t: Taxonomy, p: Product)
    requires ValidTaxa(db) && ImportTaxonomy(env, db, calls, t, false).2.Some?
    ensures var ids := ImportTaxonomy(env, db, calls, t, false).2.value;
            BrandOf(p, ids).Some? <==>
            p.brand.Some? && Trim(p.brand.value) != "" && exists b <- t.brands :: Trim(b.slug) == Trim(p.brand.value)
  {
    hide Lower, Trim, ImportTaxonomy, NewCategoriesLinked, NewTaxaListed, AllTaken;
    TaxonomyImported(env, db, calls, t);
  }

  /** After an import a tag is found exactly when some entry's trimmed slug equals it letter for letter. */
  lemma TagFoundIff(env: Env, db: Db, calls: nat, t: Taxonomy, tag: string)
    requires ValidTaxa(db) && ImportTaxonomy(env, db, calls, t, false).2.Some?
    ensures var ids := ImportTaxonomy(env, db, calls, t, false).2.value;
            IdAt(ids.tags, tag).Some? <==> tag != "" && exists g <- t.tags :: Trim(g.slug) == tag
  {
    hide Lower, Trim, ImportTaxonomy, NewCategoriesLinked, NewTaxaListed, AllTaken;
    TaxonomyImported(env, db, calls, t);
  }

  lemma {:induction false} LookupAllKeys(
    env: Env, calls: nat, table: Table, slugs: seq<string>, i: nat, ids: map<string, Id>)
    requires i <= |slugs| && forall k <- table :: table[k].id != 0
    requires forall s <- ids :: ids[s] != 0
    ensures var found := LookupAll(env, calls, table, slugs, i, ids).1;
            found.Some? ==>
              && (forall s :: s in found.value <==> s in ids || s in slugs[i..])
              && (forall s <- found.value :: found.value[s] != 0)
    decreases |slugs| - i
  {
    hide Lower, Trim;
    if i < |slugs| {
      FirstOrRest(slugs, i);
      var id := LookupRow(env.fails(calls), table, slugs[i]);
      if id.Some? {
        var more := ids[slugs[i] := id.value];
        LookupAllKeys(env, calls + 1, table, slugs, i + 1, more);
        assert forall s :: s in more <==> s == slugs[i] || s in ids;
        assert LookupAll(env, calls, table, slugs, i, ids) == LookupAll(env, calls + 1, table, slugs, i + 1, more);
      }
    }
  }

  lemma FirstOrRest(slugs: seq<string>, i: nat)
    requires i < |slugs|
    ensures forall s :: s in slugs[i..] <==> s == slugs[i] || s in slugs[i + 1..]
  {
    assert slugs[i..] == [slugs[i]] + slugs[i + 1..];
  }

  lemma LookedUpKeys(env: Env, calls: nat, table: Table, nextId: Id, slugs: seq<string>, slug: string)
    requires ValidTable(table, nextId)
    ensures var found := LookupAll(env, calls, table, slugs, 0, map[]).1;
            found.Some? ==> (IdAt(found.value, slug).Some? <==> slug in slugs)
  {
    hide Lower;
    LookupAllKeys(env, calls, table, slugs, 0, map[]);
    assert slugs[0..] == slugs;
  }

  /** A run that imports no taxonomy keys its ids by the slugs as they are written, untrimmed. */
  lemma LookedUpFoundIff(env: Env, db: Db, calls: nat, t: Taxonomy, slug: string)
    requires ValidTaxa(db) && LookupTaxonomy(env, db, calls, t).1.Some?
    ensures var ids := LookupTaxonomy(env, db, calls, t).1.value;
            && (IdAt(ids.categories, slug).Some? <==> exists c <- t.categories :: c.slug == slug)
            && (IdAt(ids.brands, slug).Some? <==> exists b <- t.brands :: b.slug == slug)
            && (IdAt(ids.tags, slug).Some? <==> exists g <- t.tags :: g.slug == slug)
  {
    hide Lower, Trim, LookupAll, ValidTable, IdAt;
    var cs, bs, gs := CategorySlugs(t.categories), TaxonSlugs(t.brands), TaxonSlugs(t.tags);
    SlugsListed(t);
    LookedUpKeys(env, calls, db.categories, db.nextId, cs, slug);
    var n1 := LookupAll(env, calls, db.categories, cs, 0, map[]).0;
    LookedUpKeys(env, n1, db.brands, db.nextId, bs, slug);
    var n2 := LookupAll(env, n1, db.brands, bs, 0, map[]).0;
    LookedUpKeys(env, n2, db.tags, db.nextId, gs, slug);
  }

  /** Some entry has the slug letter for letter: trimmed where the taxonomy is imported, as written where it is
      looked up. */
  predicate KnownCategory(list: seq<CategoryEntry>, slug: string, create: bool) {
    if create then exists c <- list :: (IsRootTodo(c) || !IsRoot(c)) && Trim(c.slug) == slug
    else exists c <- list :: c.slug == slug
  }

  predicate KnownTaxon(list: seq<TaxonEntry>, slug: string, create: bool) {
    if create then slug != "" && exists b <- list :: Trim(b.slug) == slug
    else exists b <- list :: b.slug == slug
  }

  predicate HasBrand(p: Product) {
    p.brand.Some? && Trim(p.brand.value) != ""
  }

  /** Every reference of the product is spelled as in the taxonomy. */
  predicate SpelledAlike(t: Taxonomy, p: Product, create: bool) {
    && KnownCategory(t.categories, p.category, create)
    && (HasBrand(p) ==> KnownTaxon(t.brands, Trim(p.brand.value), create))
    && (forall g <- p.tags :: KnownTaxon(t.tags, g, create))
  }

  /** None of the product's references is dropped. */
  predicate NothingDropped(p: Product, ids: TaxonIds) {
    && IdAt(ids.categories, p.category).Some?
    && (HasBrand(p) ==> BrandOf(p, ids).Some?)
    && (forall g <- p.tags :: IdAt(ids.tags, g).Some?)
  }

  /** The import of a product drops none of its references if and only if each is spelled as in the taxonomy; the
      taxonomy may be imported or looked up, and validation plays no part. */
  lemma NothingDroppedIff(env: Env, db: Db, calls: nat, t: Taxonomy, create: bool, p: Product)
    requires ValidTaxa(db) && ObtainTaxonIds(env, db, calls, t, create).2.Some?
    ensures NothingDropped(p, ObtainTaxonIds(env, db, calls, t, create).2.value) <==> SpelledAlike(t, p, create)
  {
    hide Lower, Trim, ImportTaxonomy, LookupTaxonomy, ValidTaxa, IsRoot, IdAt;
    if create {
      CategoryFoundIff(env, db, calls, t, p.category);
      BrandFoundIff(env, db, calls, t, p);
      forall g | g in p.tags
        ensures IdAt(ImportTaxonomy(env, db, calls, t, false).2.value.tags, g).Some? <==> KnownTaxon(t.tags, g, true)
      {
        TagFoundIff(env, db, calls, t, g);
      }
    } else {
      LookedUpFoundIff(env, db, calls, t, p.category);
      if HasBrand(p) {
        LookedUpFoundIff(env, db, calls, t, Trim(p.brand.value));
      }
      forall g | g in p.tags
        ensures IdAt(LookupTaxonomy(env, db, calls, t).1.value.tags, g).Some? <==> KnownTaxon(t.tags, g, false)
      {
        LookedUpFoundIff(env, db, calls, t, g);
      }
    }
  }

  const TEA := Product("1", "Tea", "", true, "a", None, [], 1, "u", "p", "OK")
  const FOOD := CategoryEntry("A", "Food", None)
  const TEA_UNDER_FOOD := Manifest(Taxonomy([FOOD], [], []), [TEA])

  lemma TeaUnderFoodIsValid()
    ensures Issues(Some(TEA_UNDER_FOOD)) == []
  {
    hide Issues;
    assert FOOD in TEA_UNDER_FOOD.taxonomy.categories && Lower(FOOD.slug) == "a" == Lower("a");
    ValidationIsExact(TEA_UNDER_FOOD);
  }

  lemma FoodIsImportable(stored: set<string>)
    ensures Importable(TEA_UNDER_FOOD.taxonomy, stored)
  {
    TrimmedIff("Food");
    hide Trim, Lower;
  }

  /** Validation ignores case but the lookups do not: without issues, and with every call answered, the taxonomy is
      imported and the product's category is still missed. */
  lemma ValidationAloneIsNotEnough(env: Env, db: Db, calls: nat)
    requires ValidTaxa(db) && NeverFails(env, calls)
    ensures Issues(Some(TEA_UNDER_FOOD)) == []
    ensures var ids := ImportTaxonomy(env, db, calls, TEA_UNDER_FOOD.taxonomy, false).2;
            ids.Some? && IdAt(ids.value.categories, TEA.category) == None
  {
    hide Issues, ImportTaxonomy, Lower, Trim, ValidTaxa, Importable;
    TeaUnderFoodIsValid();
    FoodIsImportable(db.categories.Keys);
    ImportSucceedsIff(env, db, calls, TEA_UNDER_FOOD.taxonomy);
    TrimmedIff(FOOD.slug);
    CategoryFoundIff(env, db, calls, TEA_UNDER_FOOD.taxonomy, TEA.category);
  }
}
