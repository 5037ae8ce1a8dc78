/** A concrete history in which every run ends well and yet the imported price is not the effective one. */
module CatalogStranded {
  import opened Options
  import opened Text
  import opened CatalogManifest
  import opened CatalogDatabase
  import opened TaxonomyImport
  import opened CatalogImport
  import opened CatalogResume
  import opened CatalogConvergence

  const STORED := Row(1, "a", "Food", None)
  const SHOP := World(Db(map["a" := STORED], map[], map[], map[], [], [], map[], 2), map[], 0)
  const FOOD_AND_TEA := Manifest(Taxonomy([CategoryEntry("a", "Food", None)], [], []), [TEA])
  const EVERYTHING := RunOptions(false, true, false, true, true, true)

  /** Every call succeeds except the lookup of the default price book in the second run. */
  const ONE_HICCUP := Env((n: nat) => n == 12, (n: nat) => "p")

  const IDS := TaxonIds(map["a" := 1], map[], map[])

  const TEA_ROW := ProductRow(4, "Tea", "Tea", true, Some(1), None, {}, 3)

  const AFTER_FIRST_RUN := World(
    SHOP.db.(products := map["1" := TEA_ROW], media := [MediaRow(3, "1", "p")], books := [2],
             prices := map[(2, 4) := 1], nextId := 5),
    map["1" := Item(Verified, 3, 4, "p")], 10)

  lemma TextsAreTrimmed()
    ensures Trim("1") == "1" && Trim("Tea") == "Tea" && Trim("a") == "a" && Trim("p") == "p" && Lower("a") == "a"
  {
    TrimmedIff("1");
    TrimmedIff("a");
    TrimmedIff("Tea");
    TrimmedIff("p");
  }

  lemma FoodAndTeaIsResumable()
    ensures Resumable(FOOD_AND_TEA, EVERYTHING)
  {
    TextsAreTrimmed();
    hide Issues, Trim, Lower;
    var c := CategoryEntry("a", "Food", None);
    assert c in FOOD_AND_TEA.taxonomy.categories && Lower(c.slug) == "a";
    ValidationIsExact(FOOD_AND_TEA);
  }

  lemma TeaImported()
    ensures ImportOne(ONE_HICCUP, SHOP.db.(books := [2], nextId := 3), 4, EVERYTHING, IDS, 2, TEA, NEW_ITEM)
            == Step(AFTER_FIRST_RUN.db, 9, Item(PriceCreated, 3, 4, "p"), 3, true)
  {
    TextsAreTrimmed();
    hide Trim, Lower;
    assert TagsOf(TEA, IDS) == {};
  }

  lemma FoodIsFound(db: Db, calls: nat)
    requires db.categories == SHOP.db.categories && calls != 12
    ensures ObtainTaxonIds(ONE_HICCUP, db, calls, FOOD_AND_TEA.taxonomy, false) == (db, calls + 1, Some(IDS))
  {
    TextsAreTrimmed();
    hide Trim, Lower;
    assert CategorySlugs(FOOD_AND_TEA.taxonomy.categories) == ["a"] && TaxonSlugs([]) == [];
    assert LookupAll(ONE_HICCUP, calls, db.categories, ["a"], 0, map[]) == (calls + 1, Some(map["a" := 1]));
  }

  lemma FirstBook()
    ensures EnsurePriceBook(ONE_HICCUP, SHOP.db, 2) == (SHOP.db.(books := [2], nextId := 3), 4, 2)
  {
    assert SHOP.db.books + [2] == [2];
  }

  lemma SecondBook()
    ensures EnsurePriceBook(ONE_HICCUP, AFTER_FIRST_RUN.db, 12) == (WITH_SECOND_BOOK, 14, 5)
  {
    assert AFTER_FIRST_RUN.db.books + [5] == [2, 5];
  }

  lemma TeaFinished()
    ensures ImportAll(ONE_HICCUP, Batch(SHOP.db.(books := [2], nextId := 3), 4, map[], map[], true), EVERYTHING, IDS, 2,
                      [TEA], 0)
            == Batch(AFTER_FIRST_RUN.db, 9, AFTER_FIRST_RUN.saved, AFTER_FIRST_RUN.saved, true)
  {
    TeaImported();
    hide ImportOne;
    var done := Batch(AFTER_FIRST_RUN.db, 9, AFTER_FIRST_RUN.saved, AFTER_FIRST_RUN.saved, true);
    assert ImportAll(ONE_HICCUP, done, EVERYTHING, IDS, 2, [TEA], 1) == done;
  }

  lemma TeaSkipped(b: Batch, book: Id)
    requires b.cp == AFTER_FIRST_RUN.saved
    ensures ImportAll(ONE_HICCUP, b, EVERYTHING, IDS, book, [TEA], 0) == b
  {
    hide ImportOne;
    assert ImportAll(ONE_HICCUP, b, EVERYTHING, IDS, book, [TEA], 1) == b;
  }

  /** A resumed run that gets through, phase by phase. */
  lemma RunGoesThrough(
    env: Env, w: World, m: Manifest, opt: RunOptions, n: nat, ids: TaxonIds, db: Db, k: nat, book: Id, b: Batch)
    requires Resumable(m, opt) && !opt.dryRun && opt.importProducts && !env.fails(w.calls) && b.ok
             && !env.fails(b.calls)
    requires ObtainTaxonIds(env, w.db, w.calls + 1, m.taxonomy, opt.importTaxonomy) == (w.db, n, Some(ids))
    requires EnsurePriceBook(env, w.db, n) == (db, k, book) && book != 0
    requires ImportAll(env, Batch(db, k, w.saved, w.saved, true), opt, ids, book, m.products, 0) == b
    ensures Run(env, w, m, opt) == (World(b.db, b.saved, b.calls + 1), true)
  {
    hide Normalized, Issues, ObtainTaxonIds, EnsurePriceBook, ImportAll;
  }

  lemma FirstRun()
    ensures Run(ONE_HICCUP, SHOP, FOOD_AND_TEA, EVERYTHING) == (AFTER_FIRST_RUN, true)
  {
    hide Run, Resumable, ObtainTaxonIds, EnsurePriceBook, ImportAll;
    FoodAndTeaIsResumable();
    FoodIsFound(SHOP.db, 1);
    FirstBook();
    TeaFinished();
    var saved := AFTER_FIRST_RUN.saved;
    RunGoesThrough(ONE_HICCUP, SHOP, FOOD_AND_TEA, EVERYTHING, 2, IDS,
                   SHOP.db.(books := [2], nextId := 3), 4, 2, Batch(AFTER_FIRST_RUN.db, 9, saved, saved, true));
  }

  const WITH_SECOND_BOOK := AFTER_FIRST_RUN.db.(books := [2, 5], nextId := 6)

  lemma SecondRun()
    ensures Run(ONE_HICCUP, AFTER_FIRST_RUN, FOOD_AND_TEA, EVERYTHING)
            == (World(WITH_SECOND_BOOK, AFTER_FIRST_RUN.saved, 15), true)
  {
    hide Run, Resumable, ObtainTaxonIds, EnsurePriceBook, ImportAll;
    FoodAndTeaIsResumable();
    FoodIsFound(AFTER_FIRST_RUN.db, 11);
    SecondBook();
    var b := Batch(WITH_SECOND_BOOK, 14, AFTER_FIRST_RUN.saved, AFTER_FIRST_RUN.saved, true);
    TeaSkipped(b, 5);
    RunGoesThrough(ONE_HICCUP, AFTER_FIRST_RUN, FOOD_AND_TEA, EVERYTHING, 12, IDS, WITH_SECOND_BOOK, 14, 5, b);
  }

  /** A start, a valid manifest and one failed lookup: both runs return no error, but the product has no price in
      the book that takes effect last. */
  lemma FinishedProductLosesItsPrice()
    ensures Resumable(FOOD_AND_TEA, EVERYTHING) && FreshStart(SHOP, FOOD_AND_TEA)
    ensures Run(ONE_HICCUP, SHOP, FOOD_AND_TEA, EVERYTHING).1
    ensures Run(ONE_HICCUP, Runs(ONE_HICCUP, SHOP, FOOD_AND_TEA, EVERYTHING, 1), FOOD_AND_TEA, EVERYTHING).1
    ensures EffectivePrice(Runs(ONE_HICCUP, SHOP, FOOD_AND_TEA, EVERYTHING, 2).db, TEA) == None
  {
    FoodAndTeaIsResumable();
    FirstRun();
    SecondRun();
    TextsAreTrimmed();
    hide Resumable, Run, Lower, Trim;
    assert Runs(ONE_HICCUP, SHOP, FOOD_AND_TEA, EVERYTHING, 0) == SHOP;
    assert Runs(ONE_HICCUP, SHOP, FOOD_AND_TEA, EVERYTHING, 1) == AFTER_FIRST_RUN;
  }
}
