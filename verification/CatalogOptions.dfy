/** What the options of a run confine it to: for any manifest, any database and checkpoint, and any failing calls. */
module CatalogOptions {
  import opened Options
  import opened Text
  import opened CatalogManifest
  import opened CatalogDatabase
  import opened TaxonomyImport
  import opened CatalogImport
  import opened CatalogMedia

  /// Dry runs

  /** A dry run writes neither to the database nor to the checkpoint, and returns no error exactly when the manifest has
      integrity and its evidence can be written. */
  lemma DryRunChangesNothing(env: Env, w: World, m: Manifest, opt: RunOptions)
    requires opt.dryRun
    ensures var (w', ok) := Run(env, w, m, opt);
            && w'.db == w.db && w'.saved == w.saved
            && (ok <==> Integrity(m) && !env.fails(w.calls))
  {
    hide Issues, Integrity;
    ValidationIsExact(m);
  }

  /** So for any number of dry runs, whatever their manifests and replies. */
  lemma {:induction false} DryRunsChangeNothing(w: World, jobs: seq<Job>)
    requires forall j <- jobs :: j.options.dryRun
    ensures RunJobs(w, jobs).db == w.db && RunJobs(w, jobs).saved == w.saved
  {
    hide Run;
    if jobs != [] {
      var before, last := jobs[..|jobs| - 1], jobs[|jobs| - 1];
      DryRunsChangeNothing(w, before);
      DryRunChangesNothing(last.env, RunJobs(w, before), last.manifest, last.options);
    }
  }

  /// Parts of a run

  /** The tables that product imports write. */
  predicate SameCatalog(a: Db, b: Db) {
    a.products == b.products && a.media == b.media && a.prices == b.prices
  }

  predicate SameTaxa(a: Db, b: Db) {
    a.categories == b.categories && a.brands == b.brands && a.tags == b.tags
  }

  /** What importing products may not touch. */
  predicate WithinOptions(a: Db, b: Db, opt: RunOptions) {
    && SameTaxa(a, b) && a.books == b.books
    && (!opt.importPrices ==> a.prices == b.prices)
    && (!opt.uploadImages ==> a.products == b.products && a.media == b.media)
  }

  lemma PricingWithin(env: Env, s: Step, opt: RunOptions, book: Id, product: Id, price: int, done: State)
    ensures var db := PriceProduct(env, s, opt, book, product, price, done).db;
            db == s.db.(prices := db.prices) && (!opt.importPrices ==> db == s.db)
  {
  }

  lemma ImageWithin(env: Env, db: Db, calls: nat, p: Product, item: Item)
    ensures var db' := ObtainMedia(env, db, calls, p, item).db;
            db' == db.(media := db'.media, nextId := db'.nextId)
  {
    hide Trim, FindMedia;
  }

  lemma RowWithin(
    fails: bool, db: Db, p: Product, category: Option<Id>, brand: Option<Id>, tags: set<Id>, media: Id)
    ensures var db' := InsertProduct(fails, db, p, category, brand, tags, media).0;
            db' == db.(products := db'.products, nextId := db'.nextId)
  {
    hide Trim, Describe;
  }

  lemma CreationWithin(env: Env, s: Step, opt: RunOptions, ids: TaxonIds, book: Id, p: Product)
    ensures var db := CreateProduct(env, s, opt, ids, book, p).db;
            && db == s.db.(products := db.products, prices := db.prices, nextId := db.nextId)
            && (!opt.importPrices ==> db.prices == s.db.prices)
  {
    hide Trim, Describe, BrandOf, TagsOf, IdAt, InsertProduct, PriceProduct;
    var category, brand, tags := IdAt(ids.categories, p.category), BrandOf(p, ids), TagsOf(p, ids);
    RowWithin(env.fails(s.calls), s.db, p, category, brand, tags, s.media);
    var (db, id) := InsertProduct(env.fails(s.calls), s.db, p, category, brand, tags, s.media);
    var item := s.item.(product := id, state := ProductCreated);
    PricingWithin(env, s.(db := db, calls := s.calls + 1, item := item), opt, book, id, p.price, PriceCreated);
  }

  lemma OneWithinOptions(
    env: Env, db: Db, calls: nat, opt: RunOptions, ids: TaxonIds, book: Id, p: Product, item: Item)
    ensures WithinOptions(db, ImportOne(env, db, calls, opt, ids, book, p, item).db, opt)
  {
    hide Trim, ObtainMedia, CreateProduct, PriceProduct;
    var sku := Trim(p.sku);
    if sku in db.products {
      var found := Step(db, calls + 1, item.(product := db.products[sku].id), 0, true);
      PricingWithin(env, found, opt, book, db.products[sku].id, p.price, item.state);
    }
    ImageWithin(env, db, calls + 1, p, item);
    CreationWithin(env, ObtainMedia(env, db, calls + 1, p, item), opt, ids, book, p);
  }

  lemma {:induction false} AllWithinOptions(
    env: Env, b: Batch, opt: RunOptions, ids: TaxonIds, book: Id, products: seq<Product>, i: nat)
    requires i <= |products|
    ensures WithinOptions(b.db, ImportAll(env, b, opt, ids, book, products, i).db, opt)
    decreases |products| - i
  {
    hide ImportOne;
    if i < |products| {
      var p := products[i];
      if Finished(b.cp, p.sku) {
        AllWithinOptions(env, b, opt, ids, book, products, i + 1);
      } else {
        OneWithinOptions(env, b.db, b.calls, opt, ids, book, p, ItemOf(b.cp, p.sku));
        var s := ImportOne(env, b.db, b.calls, opt, ids, book, p, ItemOf(b.cp, p.sku));
        var cp := b.cp[p.sku := s.item.(state := if s.ok then Verified else Failed)];
        if s.ok {
          AllWithinOptions(env, Batch(s.db, s.calls, cp, cp, true), opt, ids, book, products, i + 1);
        }
      }
    }
  }

  lemma TaxonomyOnly(env: Env, db: Db, calls: nat, t: Taxonomy, create: bool)
    ensures var db' := ObtainTaxonIds(env, db, calls, t, create).0;
            && SameCatalog(db, db') && db'.books == db.books && (!create ==> db' == db)
  {
    hide ImportRoots, ImportChildren, ImportFlat, LookupTaxonomy;
  }

  lemma BookOnly(env: Env, db: Db, calls: nat)
    ensures var db' := EnsurePriceBook(env, db, calls).0; SameCatalog(db, db') && SameTaxa(db, db')
  {
  }

  lemma ProductsWithin(env: Env, w: World, m: Manifest, opt: RunOptions, cp: Checkpoint, ids: TaxonIds)
    ensures var w' := ImportProducts(env, w, m, opt, cp, ids).0;
            && SameTaxa(w.db, w'.db)
            && (!opt.importProducts ==> SameCatalog(w.db, w'.db) && w'.saved == w.saved)
            && (!opt.importPrices ==> w'.db.prices == w.db.prices)
            && (!opt.uploadImages ==> w'.db.products == w.db.products && w'.db.media == w.db.media)
  {
    hide ImportAll, EnsurePriceBook;
    BookOnly(env, w.db, w.calls);
    var (db, n, book) := EnsurePriceBook(env, w.db, w.calls);
    AllWithinOptions(env, Batch(db, n, cp, w.saved, true), opt, ids, book, m.products, 0);
  }

  /** Each option binds: without taxonomy import no category, brand or tag is written; without product import no
      product, image or price, and no checkpoint; without prices no price; without uploads no image and no product. */
  lemma OptionsBind(env: Env, w: World, m: Manifest, opt: RunOptions)
    ensures var w' := Run(env, w, m, opt).0;
            && (!opt.importTaxonomy ==> SameTaxa(w.db, w'.db))
            && (!opt.importProducts ==> SameCatalog(w.db, w'.db) && w'.saved == w.saved)
            && (!opt.importPrices ==> w'.db.prices == w.db.prices)
            && (!opt.uploadImages ==> w'.db.products == w.db.products && w'.db.media == w.db.media)
  {
    hide Issues, ObtainTaxonIds, ImportProducts;
    TaxonomyOnly(env, w.db, w.calls + 1, m.taxonomy, opt.importTaxonomy);
    var (db, n, ids) := ObtainTaxonIds(env, w.db, w.calls + 1, m.taxonomy, opt.importTaxonomy);
    if ids.Some? {
      ProductsWithin(env, World(db, w.saved, n), m, opt, if opt.resume then w.saved else map[], ids.value);
    }
  }

  /// Resuming

  /** The loop's course does not depend on what was saved before it. */
  predicate SameCourse(r: Batch, r': Batch) {
    r' == r.(saved := r'.saved)
  }

  lemma {:induction false} SavedIsOnlyWritten(
    env: Env, b: Batch, b': Batch, opt: RunOptions, opt': RunOptions, ids: TaxonIds, book: Id, products: seq<Product>,
    i: nat)
    requires i <= |products| && SameCourse(b, b') && opt' == opt.(resume := opt'.resume)
    ensures SameCourse(ImportAll(env, b, opt, ids, book, products, i), ImportAll(env, b', opt', ids, book, products, i))
    decreases |products| - i
  {
    hide ImportOne, Finished;
    if i < |products| {
      var p := products[i];
      if Finished(b.cp, p.sku) {
        SavedIsOnlyWritten(env, b, b', opt, opt', ids, book, products, i + 1);
      } else {
        var item := ItemOf(b.cp, p.sku);
        ResumeIsImmaterial(env, b.db, b.calls, opt, opt', ids, book, p, item);
        var s := ImportOne(env, b.db, b.calls, opt, ids, book, p, item);
        var cp := b.cp[p.sku := s.item.(state := if s.ok then Verified else Failed)];
        if s.ok {
          var next := Batch(s.db, s.calls, cp, cp, true);
          SavedIsOnlyWritten(env, next, next, opt, opt', ids, book, products, i + 1);
        }
      }
    }
  }

  lemma ResumeIsImmaterial(
    env: Env, db: Db, calls: nat, opt: RunOptions, opt': RunOptions, ids: TaxonIds, book: Id, p: Product, item: Item)
    requires opt' == opt.(resume := opt'.resume)
    ensures ImportOne(env, db, calls, opt', ids, book, p, item) == ImportOne(env, db, calls, opt, ids, book, p, item)
  {
    hide Trim, ObtainMedia, InsertProduct, UpsertPrice, BrandOf, TagsOf, IdAt;
  }

  /** A run that does not resume does to the database what a resumed one does with an empty checkpoint file. */
  lemma FreshRunIgnoresCheckpoint(env: Env, w: World, m: Manifest, opt: RunOptions)
    requires !opt.resume
    ensures var (w', ok) := Run(env, w, m, opt);
            var (r, resumed) := Run(env, w.(saved := map[]), m, opt.(resume := true));
            w'.db == r.db && w'.calls == r.calls && ok == resumed
  {
    hide Issues, ObtainTaxonIds, ImportAll, EnsurePriceBook;
    if Issues(Some(m)) == [] && !opt.dryRun && !env.fails(w.calls) {
      var (db1, n1, ids) := ObtainTaxonIds(env, w.db, w.calls + 1, m.taxonomy, opt.importTaxonomy);
      if ids.Some? {
        var (db2, n2, book) := EnsurePriceBook(env, db1, n1);
        SavedIsOnlyWritten(env, Batch(db2, n2, map[], w.saved, true), Batch(db2, n2, map[], map[], true), opt,
                           opt.(resume := true), ids.value, book, m.products, 0);
      }
    }
  }
}
