/** What the checkpoint says is so, where the product loop stops, when an image is uploaded, and when exactly a run
    returns an error: for any failing calls. */
module CatalogCheckpoint {
  import opened Options
  import opened Text
  import opened CatalogManifest
  import opened CatalogDatabase
  import opened TaxonomyImport
  import opened CatalogImport
  import opened CatalogRuns
  import opened CatalogConvergence
  import opened CatalogMedia

  /// Checkpointed ids

  /** What an item claims of its SKU: the product it names is the stored row, the image it names was inserted for the
      SKU under that public id, and a finished product is stored. */
  ghost predicate ItemTrue(item: Item, sku: string, db: Db) {
    && (item.product != 0 ==> sku in db.products && db.products[sku].id == item.product)
    && (item.media != 0 ==> exists r <- db.media :: r.id == item.media && r.sku == sku && r.publicId == item.publicId)
    && (item.state in {Verified, PriceCreated} ==> item.product != 0)
  }

  ghost predicate CheckpointTrue(cp: Checkpoint, db: Db) {
    forall sku <- cp :: ItemTrue(cp[sku], sku, db)
  }

  /** Rows and images are only added. */
  ghost predicate OnlyAdds(before: Db, after: Db) {
    Grows(before.products, after.products) && before.media <= after.media
    && (PositiveIds(before) ==> PositiveIds(after))
  }

  lemma ItemStaysTrue(item: Item, sku: string, before: Db, after: Db)
    requires ItemTrue(item, sku, before) && OnlyAdds(before, after)
    ensures ItemTrue(item, sku, after)
  {
  }

  lemma OnlyAddsTransitive(a: Db, b: Db, c: Db)
    requires OnlyAdds(a, b) && OnlyAdds(b, c)
    ensures OnlyAdds(a, c)
  {
  }

  /** No stored row has the nil id. */
  predicate PositiveIds(db: Db) {
    0 < db.nextId && forall k <- db.products :: db.products[k].id != 0
  }

  /** A step's item is true, except that it may be finished before its product is recorded. */
  ghost predicate StepTrue(before: Db, s: Step, sku: string) {
    && OnlyAdds(before, s.db)
    && (s.item.product != 0 ==> sku in s.db.products && s.db.products[sku].id == s.item.product)
    && (s.item.media != 0
        ==> exists r <- s.db.media :: r.id == s.item.media && r.sku == sku && r.publicId == s.item.publicId)
  }

  lemma ImageTrue(env: Env, db: Db, calls: nat, p: Product, item: Item)
    requires PositiveIds(db) && ItemTrue(item, p.sku, db)
    ensures var s := ObtainMedia(env, db, calls, p, item);
            StepTrue(db, s, p.sku) && s.db.products == db.products && s.item.product == item.product
  {
    hide Trim, FindMedia;
    var s := ObtainMedia(env, db, calls, p, item);
    if |s.db.media| > |db.media| {
      assert s.db.media[|db.media|] in s.db.media;
    }
  }

  lemma PricingTrue(
    env: Env, before: Db, s: Step, opt: RunOptions, book: Id, product: Id, price: int, done: State, sku: string)
    requires StepTrue(before, s, sku)
    ensures var r := PriceProduct(env, s, opt, book, product, price, done);
            StepTrue(before, r, sku) && r.item.product == s.item.product
  {
  }

  lemma RowTrue(
    fails: bool, db: Db, p: Product, category: Option<Id>, brand: Option<Id>, tags: set<Id>, media: Id)
    requires PositiveIds(db) && Trim(p.sku) == p.sku
    ensures var (db', id) := InsertProduct(fails, db, p, category, brand, tags, media);
            && OnlyAdds(db, db') && db'.media == db.media
            && (id == 0 ==> db' == db) && (id != 0 ==> p.sku in db'.products && db'.products[p.sku].id == id)
  {
    hide Trim, Describe;
  }

  lemma CreationTrue(env: Env, before: Db, s: Step, opt: RunOptions, ids: TaxonIds, book: Id, p: Product)
    requires Trim(p.sku) == p.sku && PositiveIds(before) && StepTrue(before, s, p.sku) && s.ok
    ensures var r := CreateProduct(env, s, opt, ids, book, p);
            StepTrue(before, r, p.sku) && (r.ok ==> r.item.product != 0)
  {
    hide Trim, BrandOf, TagsOf, IdAt, InsertProduct, PriceProduct;
    var category, brand, tags := IdAt(ids.categories, p.category), BrandOf(p, ids), TagsOf(p, ids);
    RowTrue(env.fails(s.calls), s.db, p, category, brand, tags, s.media);
    var (db, id) := InsertProduct(env.fails(s.calls), s.db, p, category, brand, tags, s.media);
    if id != 0 {
      OnlyAddsTransitive(before, s.db, db);
      var created := s.(db := db, calls := s.calls + 1, item := s.item.(product := id, state := ProductCreated));
      PricingTrue(env, before, created, opt, book, id, p.price, PriceCreated, p.sku);
    }
  }

  lemma OneTrue(env: Env, db: Db, calls: nat, opt: RunOptions, ids: TaxonIds, book: Id, p: Product, item: Item)
    requires PositiveIds(db) && Trim(p.sku) == p.sku && ItemTrue(item, p.sku, db)
    ensures var s := ImportOne(env, db, calls, opt, ids, book, p, item);
            StepTrue(db, s, p.sku) && (s.ok ==> s.item.product != 0)
  {
    hide Trim, ObtainMedia, CreateProduct, PriceProduct;
    if !env.fails(calls) && p.sku in db.products {
      var found := Step(db, calls + 1, item.(product := db.products[p.sku].id), 0, true);
      PricingTrue(env, db, found, opt, book, db.products[p.sku].id, p.price, item.state, p.sku);
    } else {
      ImageTrue(env, db, calls + 1, p, item);
      var s := ObtainMedia(env, db, calls + 1, p, item);
      if s.ok {
        CreationTrue(env, db, s, opt, ids, book, p);
      }
    }
  }

  lemma TurnTrue(cp: Checkpoint, before: Db, s: Step, sku: string)
    requires CheckpointTrue(cp, before) && StepTrue(before, s, sku) && (s.ok ==> s.item.product != 0)
    ensures CheckpointTrue(cp[sku := s.item.(state := if s.ok then Verified else Failed)], s.db)
  {
    hide ItemTrue;
    var cp' := cp[sku := s.item.(state := if s.ok then Verified else Failed)];
    forall k | k in cp' ensures ItemTrue(cp'[k], k, s.db) {
      if k == sku {
        RecordedTrue(before, s, sku);
      } else {
        ItemStaysTrue(cp[k], k, before, s.db);
      }
    }
  }

  lemma RecordedTrue(before: Db, s: Step, sku: string)
    requires StepTrue(before, s, sku) && (s.ok ==> s.item.product != 0)
    ensures ItemTrue(s.item.(state := if s.ok then Verified else Failed), sku, s.db)
  {
  }

  lemma NewItemIsTrue(sku: string, cp: Checkpoint, db: Db)
    requires CheckpointTrue(cp, db)
    ensures ItemTrue(ItemOf(cp, sku), sku, db)
  {
  }

  lemma {:induction false} LoopTrue(
    env: Env, b: Batch, opt: RunOptions, ids: TaxonIds, book: Id, products: seq<Product>, i: nat)
    requires i <= |products| && (forall p <- products :: Trim(p.sku) == p.sku)
    requires PositiveIds(b.db) && CheckpointTrue(b.cp, b.db)
    ensures var r := ImportAll(env, b, opt, ids, book, products, i);
            && OnlyAdds(b.db, r.db) && CheckpointTrue(r.cp, r.db) && (r == b || r.saved == r.cp)
    decreases |products| - i
  {
    hide Trim, ImportOne, Finished, ItemTrue, CheckpointTrue, PositiveIds;
    if i < |products| {
      var p := products[i];
      assert p in products;
      if Finished(b.cp, p.sku) {
        LoopTrue(env, b, opt, ids, book, products, i + 1);
      } else {
        var item := ItemOf(b.cp, p.sku);
        NewItemIsTrue(p.sku, b.cp, b.db);
        OneTrue(env, b.db, b.calls, opt, ids, book, p, item);
        var s := ImportOne(env, b.db, b.calls, opt, ids, book, p, item);
        var cp := b.cp[p.sku := s.item.(state := if s.ok then Verified else Failed)];
        TurnTrue(b.cp, b.db, s, p.sku);
        if s.ok {
          var next := Batch(s.db, s.calls, cp, cp, true);
          LoopTrue(env, next, opt, ids, book, products, i + 1);
          OnlyAddsTransitive(b.db, s.db, ImportAll(env, next, opt, ids, book, products, i + 1).db);
        }
      }
    }
  }

  lemma SameRowsStayTrue(cp: Checkpoint, before: Db, after: Db)
    requires CheckpointTrue(cp, before) && OnlyAdds(before, after)
    ensures CheckpointTrue(cp, after)
  {
    hide ItemTrue;
    forall k | k in cp ensures ItemTrue(cp[k], k, after) {
      ItemStaysTrue(cp[k], k, before, after);
    }
  }

  lemma RunTrue(env: Env, w: World, m: Manifest, opt: RunOptions)
    requires PositiveIds(w.db) && CheckpointTrue(w.saved, w.db) && forall p <- m.products :: Trim(p.sku) == p.sku
    ensures var r := Run(env, w, m, opt).0; PositiveIds(r.db) && CheckpointTrue(r.saved, r.db)
  {
    hide Issues, ObtainTaxonIds, ImportAll, EnsurePriceBook, CheckpointTrue, Trim;
    if Issues(Some(m)) == [] && !opt.dryRun && !env.fails(w.calls) {
      TaxonomyKeepsRows(env, w.db, w.calls + 1, m.taxonomy, opt.importTaxonomy);
      var (db1, n1, ids) := ObtainTaxonIds(env, w.db, w.calls + 1, m.taxonomy, opt.importTaxonomy);
      SameRowsStayTrue(w.saved, w.db, db1);
      if ids.Some? {
        BookKeepsRows(env, db1, n1);
        var (db2, n2, book) := EnsurePriceBook(env, db1, n1);
        SameRowsStayTrue(w.saved, db1, db2);
        NothingClaimed(db2);
        var cp := if opt.resume then w.saved else map[];
        LoopTrue(env, Batch(db2, n2, cp, w.saved, true), opt, ids.value, book, m.products, 0);
      }
    }
  }

  lemma NothingClaimed(db: Db)
    ensures CheckpointTrue(map[], db)
  {
  }

  /** From an empty checkpoint on, whatever the runs, every checkpointed product id is that of the stored row, every
      checkpointed image was inserted for its SKU under the checkpointed public id, and finished products are stored. */
  lemma {:induction false} CheckpointIsTrue(w: World, jobs: seq<Job>)
    requires PositiveIds(w.db) && w.saved == map[]
    requires forall j <- jobs, p <- j.manifest.products :: Trim(p.sku) == p.sku
    ensures var r := RunJobs(w, jobs); PositiveIds(r.db) && CheckpointTrue(r.saved, r.db)
  {
    hide Run, Trim, CheckpointTrue, PositiveIds;
    if jobs == [] {
      NothingClaimed(w.db);
    } else {
      var before, last := jobs[..|jobs| - 1], jobs[|jobs| - 1];
      assert last in jobs && forall j <- before :: j in jobs;
      CheckpointIsTrue(w, before);
      RunTrue(last.env, RunJobs(w, before), last.manifest, last.options);
    }
  }

  /// Where the loop stops

  /** Products `from` up to `until` are finished. */
  ghost predicate DoneBetween(cp: Checkpoint, products: seq<Product>, from: nat, until: nat)
    requires until <= |products|
  {
    forall j :: from <= j < until ==> Finished(cp, products[j].sku)
  }

  /** Outside of `from` up to `until` the items are the same. */
  ghost predicate SameOutside(cp: Checkpoint, cp': Checkpoint, products: seq<Product>, from: nat, until: nat) {
    forall j :: 0 <= j < |products| && !(from <= j < until) ==>
      ItemOf(cp', products[j].sku) == ItemOf(cp, products[j].sku)
  }

  /** The loop got through from the ith product on, or the kth failed: those between are finished and the others
      untouched. */
  ghost predicate LoopEnd(b: Batch, r: Batch, products: seq<Product>, i: nat, k: nat)
    requires i <= |products|
  {
    if r.ok then DoneBetween(r.cp, products, i, |products|) && SameOutside(b.cp, r.cp, products, i, |products|)
    else
      && i <= k < |products| && DoneBetween(r.cp, products, i, k)
      && ItemOf(r.cp, products[k].sku).state == Failed && SameOutside(b.cp, r.cp, products, i, k + 1)
  }

  lemma FinishedFirst(b: Batch, r: Batch, products: seq<Product>, i: nat, k: nat)
    requires i < |products| && LoopEnd(b, r, products, i + 1, k) && Finished(b.cp, products[i].sku)
    ensures LoopEnd(b, r, products, i, k)
  {
  }

  lemma RecordedFirst(b: Batch, next: Batch, r: Batch, products: seq<Product>, i: nat, k: nat, item: Item)
    requires i < |products| && SkusUnique(products) && item.state == Verified
    requires next.cp == b.cp[products[i].sku := item] && LoopEnd(next, r, products, i + 1, k)
    ensures LoopEnd(b, r, products, i, k)
  {
    assert forall j :: 0 <= j < |products| && j != i ==> products[j].sku != products[i].sku;
    assert SameOutside(b.cp, next.cp, products, i, i + 1);
    assert Finished(next.cp, products[i].sku);
  }

  lemma FailedFirst(b: Batch, r: Batch, products: seq<Product>, i: nat, item: Item)
    requires i < |products| && SkusUnique(products) && item.state == Failed && !r.ok
    requires r.cp == b.cp[products[i].sku := item]
    ensures LoopEnd(b, r, products, i, i)
  {
    assert forall j :: 0 <= j < |products| && j != i ==> products[j].sku != products[i].sku;
  }

  /** The loop goes through all products, or stops at the first that fails. */
  lemma {:induction false} LoopStopsAtFailure(
    env: Env, b: Batch, opt: RunOptions, ids: TaxonIds, book: Id, products: seq<Product>, i: nat) returns (k: nat)
    requires i <= |products| && SkusUnique(products) && b.ok
    ensures LoopEnd(b, ImportAll(env, b, opt, ids, book, products, i), products, i, k)
    decreases |products| - i
  {
    hide ImportOne, Finished, LoopEnd, SkusUnique;
    k := i;
    if i == |products| {
      NothingLeft(b, products);
    } else {
      var p := products[i];
      if Finished(b.cp, p.sku) {
        k := LoopStopsAtFailure(env, b, opt, ids, book, products, i + 1);
        FinishedFirst(b, ImportAll(env, b, opt, ids, book, products, i + 1), products, i, k);
      } else {
        var s := ImportOne(env, b.db, b.calls, opt, ids, book, p, ItemOf(b.cp, p.sku));
        var item := s.item.(state := if s.ok then Verified else Failed);
        var next := Batch(s.db, s.calls, b.cp[p.sku := item], b.cp[p.sku := item], s.ok);
        if s.ok {
          k := LoopStopsAtFailure(env, next, opt, ids, book, products, i + 1);
          RecordedFirst(b, next, ImportAll(env, next, opt, ids, book, products, i + 1), products, i, k, item);
        } else {
          FailedFirst(b, next, products, i, item);
        }
      }
    }
  }

  lemma NothingLeft(b: Batch, products: seq<Product>)
    requires b.ok
    ensures LoopEnd(b, b, products, |products|, |products|)
  {
  }

  /// Single calls

  /** A product is passed over, without a call, if and only if its item in the checkpoint is verified or priced. */
  lemma SkippedIff(env: Env, b: Batch, opt: RunOptions, ids: TaxonIds, book: Id, p: Product)
    ensures var r := ImportAll(env, b, opt, ids, book, [p], 0);
            && b.calls <= r.calls
            && (r.calls == b.calls <==> p.sku in b.cp && b.cp[p.sku].state in {Verified, PriceCreated})
            && (r.calls == b.calls ==> r == b)
  {
    hide ImportOne;
    CallsMade(env, b.db, b.calls, opt, ids, book, p, ItemOf(b.cp, p.sku));
  }

  lemma CallsMade(env: Env, db: Db, calls: nat, opt: RunOptions, ids: TaxonIds, book: Id, p: Product, item: Item)
    ensures calls < ImportOne(env, db, calls, opt, ids, book, p, item).calls
  {
    hide Trim, InsertProduct, InsertMedia, FindMedia, UpsertPrice;
  }

  /** A product row is inserted if and only if the call goes through, SKU and name are not blank, the SKU is new, and an
      active product has an image; the row carries what was given. */
  lemma RowInsertedIff(
    fails: bool, db: Db, p: Product, category: Option<Id>, brand: Option<Id>, tags: set<Id>, media: Id)
    requires 0 < db.nextId
    ensures var (db', id) := InsertProduct(fails, db, p, category, brand, tags, media);
            && (id != 0 <==>
                  !fails && Trim(p.sku) != "" && Trim(p.name) != "" && Trim(p.sku) !in db.products
                  && (p.active ==> media != 0))
            && (id == 0 ==> db' == db)
            && (id != 0 ==>
                  && id == db.nextId && Trim(p.sku) in db'.products
                  && var row := db'.products[Trim(p.sku)];
                     && row.id == id && row.name == Trim(p.name) && row.active == p.active && row.media == media
                     && row.category == category && row.brand == brand && row.tags == tags
                     && row.description == Trim(if p.description == "" then p.name else p.description)
                     && db'.products - {Trim(p.sku)} == db.products - {Trim(p.sku)})
  {
    hide Trim;
  }

  /** A price is set if and only if the call goes through, book and product have ids, the book is there and the price is
      not negative. */
  lemma PriceSetIff(fails: bool, db: Db, book: Id, product: Id, price: int)
    ensures var (db', ok) := UpsertPrice(fails, db, book, product, price);
            && (ok <==> !fails && book != 0 && product != 0 && book in db.books && price >= 0)
            && db' == if ok then db.(prices := db.prices[(book, product) := price]) else db
  {
  }

  /// When a run returns an error

  /** The book is there or can be created. */
  predicate BookObtained(env: Env, db: Db, calls: nat) {
    (!env.fails(calls) && db.books != []) || !env.fails(calls + 1)
  }

  lemma BookObtainedIff(env: Env, db: Db, calls: nat)
    requires ValidBooks(db) && 0 < db.nextId
    ensures EnsurePriceBook(env, db, calls).2 != 0 <==> BookObtained(env, db, calls)
  {
    if db.books != [] {
      assert db.books[|db.books| - 1] in db.books;
    }
  }

  /** With a valid database, a run that is no dry run returns no error if and only if the manifest has integrity, the
      first evidence write, the taxonomy and the price book succeed, every product is finished afterwards, and the audit
      at the end succeeds; with the last call failing it always returns one. */
  lemma RunSucceedsIff(env: Env, w: World, m: Manifest, opt: RunOptions)
    requires ValidDb(w.db) && !opt.dryRun
    ensures var (w', ok) := Run(env, w, m, opt);
            var (db, n, ids) := ObtainTaxonIds(env, w.db, w.calls + 1, m.taxonomy, opt.importTaxonomy);
            ok <==>
              && Integrity(m) && !env.fails(w.calls) && ids.Some? && BookObtained(env, db, n)
              && (opt.importProducts ==> forall p <- m.products :: Finished(w'.saved, p.sku))
              && 0 < w'.calls && !env.fails(w'.calls - 1)
  {
    hide Issues, ObtainTaxonIds, EnsurePriceBook, ImportAll, Finished, ValidTaxa, Integrity, BookObtained;
    ValidationIsExact(m);
    if Issues(Some(m)) == [] && !env.fails(w.calls) {
      TaxonomyKeepsRows(env, w.db, w.calls + 1, m.taxonomy, opt.importTaxonomy);
      TaxonomyKeepsBooks(env, w.db, w.calls + 1, m.taxonomy, opt.importTaxonomy);
      var (db, n, ids) := ObtainTaxonIds(env, w.db, w.calls + 1, m.taxonomy, opt.importTaxonomy);
      if ids.Some? {
        BookObtainedIff(env, db, n);
        var (db2, n2, book) := EnsurePriceBook(env, db, n);
        var start := Batch(db2, n2, if opt.resume then w.saved else map[], w.saved, true);
        if book != 0 && opt.importProducts {
          UniqueSkus(m);
          BatchOkIff(env, start, opt, ids.value, book, m.products);
        }
      }
    }
  }

  lemma TaxonomyKeepsBooks(env: Env, db: Db, calls: nat, t: Taxonomy, create: bool)
    ensures var db' := ObtainTaxonIds(env, db, calls, t, create).0; db'.books == db.books && db'.prices == db.prices
  {
    hide ImportRoots, ImportChildren, ImportFlat, LookupTaxonomy;
  }

  /** The batch gets through exactly when what it saves has every product finished. */
  lemma BatchOkIff(env: Env, b: Batch, opt: RunOptions, ids: TaxonIds, book: Id, products: seq<Product>)
    requires SkusUnique(products) && b.ok && (b.cp == b.saved || b.cp == map[])
    ensures var r := ImportAll(env, b, opt, ids, book, products, 0);
            r.ok <==> forall p <- products :: Finished(r.saved, p.sku)
  {
    hide ImportAll, Finished;
    var k := LoopStopsAtFailure(env, b, opt, ids, book, products, 0);
    SavedAsItGoes(env, b, opt, ids, book, products, 0);
    var r := ImportAll(env, b, opt, ids, book, products, 0);
    if r.ok {
      forall p | p in products ensures Finished(r.saved, p.sku) {
        var j :| 0 <= j < |products| && products[j] == p;
        NothingFinished(p.sku);
      }
    } else {
      FailedIsUnfinished(r.cp, products[k].sku);
      assert products[k] in products;
    }
  }

  lemma NothingFinished(sku: string)
    ensures !Finished(map[], sku)
  {
  }

  lemma FailedIsUnfinished(cp: Checkpoint, sku: string)
    ensures ItemOf(cp, sku).state == Failed ==> !Finished(cp, sku)
  {
  }

  lemma {:induction false} SavedAsItGoes(
    env: Env, b: Batch, opt: RunOptions, ids: TaxonIds, book: Id, products: seq<Product>, i: nat)
    requires i <= |products| && b.ok
    ensures var r := ImportAll(env, b, opt, ids, book, products, i); r == b || r.saved == r.cp
    decreases |products| - i
  {
    hide ImportOne, Finished;
    if i < |products| {
      var p := products[i];
      SavedAsItGoes(env, b, opt, ids, book, products, i + 1);
      var s := ImportOne(env, b.db, b.calls, opt, ids, book, p, ItemOf(b.cp, p.sku));
      var cp := b.cp[p.sku := s.item.(state := if s.ok then Verified else Failed)];
      SavedAsItGoes(env, Batch(s.db, s.calls, cp, cp, true), opt, ids, book, products, i + 1);
    }
  }

  /// When an image is uploaded

  /** The lookup answers and some image has the planned public id. */
  predicate ImageKnown(env: Env, db: Db, calls: nat, p: Product) {
    !env.fails(calls) && Trim(p.publicId) != "" && exists r <- db.media :: r.publicId == Trim(p.publicId)
  }

  predicate PublicIdFree(media: seq<MediaRow>, publicId: string) {
    publicId == "" || forall r <- media :: r.publicId != publicId
  }

  lemma {:induction false} FoundImageIff(media: seq<MediaRow>, publicId: string)
    requires forall r <- media :: r.id != 0
    ensures FindMedia(media, publicId) != 0 <==> publicId != "" && exists r <- media :: r.publicId == publicId
  {
    if media != [] {
      assert media[0] in media && forall r <- media[1..] :: r in media;
      FoundImageIff(media[1..], publicId);
      assert media == [media[0]] + media[1..];
    }
  }

  lemma ObtainedByUploadIff(env: Env, db: Db, calls: nat, p: Product, item: Item)
    requires 0 < db.nextId && forall r <- db.media :: r.id != 0
    ensures ObtainMedia(env, db, calls, p, item).db.media != db.media <==>
            && item.media == 0 && !ImageKnown(env, db, calls, p)
            && !env.fails(calls + 1) && PublicIdFree(db.media, env.providerId(calls + 1))
  {
    hide Trim, FindMedia;
    FoundImageIff(db.media, Trim(p.publicId));
    FoundImageIff(db.media, env.providerId(calls + 1));
    assert |db.media + [MediaRow(db.nextId, p.sku, env.providerId(calls + 1))]| == |db.media| + 1;
  }

  /** Importing one product inserts an image if and only if its lookup errs or finds nothing, uploads are on, the
      checkpoint holds no image and none is known under the planned public id, and the upload gets through. So a failing
      lookup uploads an image even for a stored product. */
  lemma ImageUploadedIff(
    env: Env, db: Db, calls: nat, opt: RunOptions, ids: TaxonIds, book: Id, p: Product, item: Item)
    requires 0 < db.nextId && forall r <- db.media :: r.id != 0
    ensures ImportOne(env, db, calls, opt, ids, book, p, item).db.media != db.media <==>
            && (env.fails(calls) || Trim(p.sku) !in db.products) && opt.uploadImages
            && item.media == 0 && !ImageKnown(env, db, calls + 1, p)
            && !env.fails(calls + 2) && PublicIdFree(db.media, env.providerId(calls + 2))
  {
    hide Trim, ObtainMedia, CreateProduct, PriceProduct, ImageKnown, PublicIdFree;
    var sku := Trim(p.sku);
    ObtainedByUploadIff(env, db, calls + 1, p, item);
    if sku in db.products {
      PricingKeepsImages(env, Step(db, calls + 1, item.(product := db.products[sku].id), 0, true),
                         opt, book, db.products[sku].id, p.price, item.state);
    }
    CreationKeepsImages(env, ObtainMedia(env, db, calls + 1, p, item), opt, ids, book, p);
  }

  /** A known image is shown, and none inserted. */
  lemma KnownImageIsShown(
    env: Env, db: Db, calls: nat, opt: RunOptions, ids: TaxonIds, book: Id, p: Product, item: Item)
    requires Trim(p.sku) == p.sku && p.sku !in db.products && (forall r <- db.media :: r.id != 0)
    requires item.media == 0 && ImageKnown(env, db, calls + 1, p)
    ensures var s := ImportOne(env, db, calls, opt, ids, book, p, item);
            && s.db.media == db.media
            && (p.sku in s.db.products ==>
                  exists r <- db.media :: r.publicId == Trim(p.publicId) && r.id == s.db.products[p.sku].media)
  {
    hide Trim, CreateProduct, FindMedia;
    FoundImageIff(db.media, Trim(p.publicId));
    FoundMediaMatches(db.media, Trim(p.publicId));
    var s := ObtainMedia(env, db, calls + 1, p, item);
    CreationKeepsImages(env, s, opt, ids, book, p);
    CreatedShowsImage(env, s, opt, ids, book, p);
  }
}
