/** Resumed runs insert at most one image per SKU: the checkpoint remembers an upload whose product could not be stored.
    Manifest and options may change from run to run. */
module CatalogMedia {
  import opened Options
  import opened Text
  import opened CatalogManifest
  import opened CatalogDatabase
  import opened TaxonomyImport
  import opened CatalogImport
  import opened CatalogRuns
  import opened CatalogConvergence

  /** One run of a history, with the replies to its calls. */
  datatype Job = Job(env: Env, manifest: Manifest, options: RunOptions)

  function RunJobs(w: World, jobs: seq<Job>): World {
    if jobs == [] then w
    else
      var last := jobs[|jobs| - 1];
      Run(last.env, RunJobs(w, jobs[..|jobs| - 1]), last.manifest, last.options).0
  }

  function MediaCount(media: seq<MediaRow>, sku: string): nat {
    if media == [] then 0
    else MediaCount(media[..|media| - 1], sku) + if media[|media| - 1].sku == sku then 1 else 0
  }

  /** Nothing was inserted for `sku` and its checkpointed image is kept; or one row was, and the checkpoint,
      which had none, now holds an image. */
  predicate OnceAtMost(before: seq<MediaRow>, cp: Checkpoint, after: seq<MediaRow>, cp': Checkpoint, sku: string) {
    var had, has := ItemOf(cp, sku).media, ItemOf(cp', sku).media;
    || (MediaCount(after, sku) == MediaCount(before, sku) && (had != 0 ==> has == had))
    || (MediaCount(after, sku) == MediaCount(before, sku) + 1 && had == 0 && has != 0)
  }

  predicate Appended(before: seq<MediaRow>, after: seq<MediaRow>, sku: string) {
    |after| == |before| + 1 && after[..|before|] == before && after[|before|].sku == sku
  }

  /** From one step to the next, either no image was inserted or the first one was, and the item holds its id. */
  predicate OneImage(before: Db, item: Item, after: Step, sku: string) {
    && 0 < after.db.nextId
    && (after.db.media != before.media || after.item.media != item.media ==>
          item.media == 0 && after.item.media != 0 && Appended(before.media, after.db.media, sku))
  }

  lemma ObtainedImage(env: Env, db: Db, calls: nat, p: Product, item: Item)
    requires 0 < db.nextId
    ensures OneImage(db, item, ObtainMedia(env, db, calls, p, item), p.sku)
  {
    hide Trim, FindMedia;
  }

  lemma PricingKeepsImages(env: Env, s: Step, opt: RunOptions, book: Id, product: Id, price: int, done: State)
    ensures var r := PriceProduct(env, s, opt, book, product, price, done);
            && r.db.media == s.db.media && r.db.nextId == s.db.nextId && r.db.products == s.db.products
            && r.item.media == s.item.media
  {
  }

  lemma CreationKeepsImages(env: Env, s: Step, opt: RunOptions, ids: TaxonIds, book: Id, p: Product)
    ensures var r := CreateProduct(env, s, opt, ids, book, p);
            r.db.media == s.db.media && s.db.nextId <= r.db.nextId && r.item.media == s.item.media
  {
    hide Trim, BrandOf, TagsOf, IdAt, Describe, PriceProduct;
    var (db, id) := InsertProduct(
      env.fails(s.calls), s.db, p, IdAt(ids.categories, p.category), BrandOf(p, ids), TagsOf(p, ids), s.media);
    PricingKeepsImages(env, s.(db := db, calls := s.calls + 1, item := s.item.(product := id, state := ProductCreated)),
                       opt, book, id, p.price, PriceCreated);
  }

  lemma ImportOneMedia(env: Env, db: Db, calls: nat, opt: RunOptions, ids: TaxonIds, book: Id, p: Product, item: Item)
    requires 0 < db.nextId
    ensures OneImage(db, item, ImportOne(env, db, calls, opt, ids, book, p, item), p.sku)
  {
    hide Trim, ObtainMedia, CreateProduct, PriceProduct;
    var sku := Trim(p.sku);
    if sku in db.products {
      PricingKeepsImages(env, Step(db, calls + 1, item.(product := db.products[sku].id), 0, true),
                         opt, book, db.products[sku].id, p.price, item.state);
    }
    ObtainedImage(env, db, calls + 1, p, item);
    CreationKeepsImages(env, ObtainMedia(env, db, calls + 1, p, item), opt, ids, book, p);
  }

  lemma {:induction false} ImportAllMedia(
    env: Env, b: Batch, opt: RunOptions, ids: TaxonIds, book: Id, products: seq<Product>, i: nat, sku: string)
    requires i <= |products| && 0 < b.db.nextId
    ensures var r := ImportAll(env, b, opt, ids, book, products, i);
            OnceAtMost(b.db.media, b.cp, r.db.media, r.cp, sku) && 0 < r.db.nextId && (r == b || r.saved == r.cp)
    decreases |products| - i
  {
    hide ImportOne;
    if i < |products| {
      var p := products[i];
      if Finished(b.cp, p.sku) {
        ImportAllMedia(env, b, opt, ids, book, products, i + 1, sku);
      } else {
        var item := ItemOf(b.cp, p.sku);
        ImportOneMedia(env, b.db, b.calls, opt, ids, book, p, item);
        var s := ImportOne(env, b.db, b.calls, opt, ids, book, p, item);
        var cp := b.cp[p.sku := s.item.(state := if s.ok then Verified else Failed)];
        assert OnceAtMost(b.db.media, b.cp, s.db.media, cp, sku);
        if s.ok {
          ImportAllMedia(env, Batch(s.db, s.calls, cp, cp, true), opt, ids, book, products, i + 1, sku);
        }
      }
    }
  }

  lemma {:induction false} RootsKeepIds(env: Env, p: Progress, list: seq<CategoryEntry>, i: nat)
    requires i <= |list|
    ensures p.nextId <= ImportRoots(env, p, list, i, false).nextId
    decreases |list| - i
  {
    hide IsRoot, Lower, Trim;
    if i < |list| && p.ok {
      RootsKeepIds(env, p, list, i + 1);
      RootsKeepIds(env, EnsureAndRecord(env, p, Trim(list[i].slug), list[i].name, 0), list, i + 1);
    }
  }

  lemma {:induction false} ChildrenKeepIds(env: Env, p: Progress, list: seq<CategoryEntry>, i: nat)
    requires i <= |list|
    ensures p.nextId <= ImportChildren(env, p, list, i, false).nextId
    decreases |list| - i
  {
    hide Lower, Trim;
    if i < |list| && p.ok {
      ChildrenKeepIds(env, p, list, i + 1);
      if !IsRoot(list[i]) {
        var (found, parent) := ParentId(env, p, Trim(list[i].parent.value));
        if parent.Some? {
          ChildrenKeepIds(env, EnsureAndRecord(env, found, Trim(list[i].slug), list[i].name, parent.value), list,
                          i + 1);
        }
      }
    }
  }

  lemma {:induction false} FlatKeepsIds(env: Env, p: Progress, list: seq<TaxonEntry>, i: nat)
    requires i <= |list|
    ensures p.nextId <= ImportFlat(env, p, list, i, false).nextId
    decreases |list| - i
  {
    hide Lower, Trim;
    if i < |list| && p.ok {
      FlatKeepsIds(env, p, list, i + 1);
      FlatKeepsIds(env, EnsureAndRecord(env, p, Trim(list[i].slug), list[i].name, 0), list, i + 1);
    }
  }

  lemma TaxonomyKeepsRows(env: Env, db: Db, calls: nat, t: Taxonomy, create: bool)
    ensures var db' := ObtainTaxonIds(env, db, calls, t, create).0;
            db'.media == db.media && db'.products == db.products && db.nextId <= db'.nextId
  {
    hide ImportRoots, ImportChildren, ImportFlat, LookupTaxonomy;
    var start := Progress(db.categories, db.nextId, calls, map[], true);
    RootsKeepIds(env, start, t.categories, 0);
    ChildrenKeepIds(env, ImportRoots(env, start, t.categories, 0, false), t.categories, 0);
    var c := ImportCategories(env, db, calls, t.categories, false);
    var brands := Progress(db.brands, c.nextId, c.calls, map[], true);
    FlatKeepsIds(env, brands, t.brands, 0);
    var b := ImportFlat(env, brands, t.brands, 0, false);
    FlatKeepsIds(env, Progress(db.tags, b.nextId, b.calls, map[], true), t.tags, 0);
  }

  lemma RunMedia(env: Env, w: World, m: Manifest, opt: RunOptions, sku: string)
    requires 0 < w.db.nextId && opt.resume
    ensures var r := Run(env, w, m, opt).0;
            OnceAtMost(w.db.media, w.saved, r.db.media, r.saved, sku) && 0 < r.db.nextId
  {
    hide Issues, ObtainTaxonIds, ImportAll, EnsurePriceBook;
    if Issues(Some(m)) == [] && !opt.dryRun && !env.fails(w.calls) {
      TaxonomyKeepsRows(env, w.db, w.calls + 1, m.taxonomy, opt.importTaxonomy);
      var (db1, n1, ids) := ObtainTaxonIds(env, w.db, w.calls + 1, m.taxonomy, opt.importTaxonomy);
      if ids.Some? {
        BookKeepsRows(env, db1, n1);
        var (db2, n2, book) := EnsurePriceBook(env, db1, n1);
        ImportAllMedia(env, Batch(db2, n2, w.saved, w.saved, true), opt, ids.value, book, m.products, 0, sku);
      }
    }
  }

  lemma BookKeepsRows(env: Env, db: Db, calls: nat)
    ensures var db' := EnsurePriceBook(env, db, calls).0;
            db'.media == db.media && db'.products == db.products && db.nextId <= db'.nextId
  {
  }

  /** Over any resumed runs, whatever their manifests and options, at most one image is inserted for a SKU, and an
      inserted one stays checkpointed. */
  lemma {:induction false} AtMostOneImage(w: World, jobs: seq<Job>, sku: string)
    requires 0 < w.db.nextId && forall j <- jobs :: j.options.resume
    ensures var r := RunJobs(w, jobs);
            && OnceAtMost(w.db.media, w.saved, r.db.media, r.saved, sku) && 0 < r.db.nextId
            && MediaCount(r.db.media, sku) <= MediaCount(w.db.media, sku) + 1
  {
    hide Run, MediaCount;
    if jobs != [] {
      var before, last := jobs[..|jobs| - 1], jobs[|jobs| - 1];
      AtMostOneImage(w, before, sku);
      RunMedia(last.env, RunJobs(w, before), last.manifest, last.options, sku);
    }
  }

  /// The image of a product

  /** `id` is an image inserted for the product's SKU, or one under its planned public id. */
  predicate HasImage(media: seq<MediaRow>, p: Product, id: Id) {
    exists r <- media :: r.id == id && (r.sku == p.sku || r.publicId == Trim(p.publicId))
  }

  /** The checkpointed and the bound image of every product are its own. */
  ghost predicate OwnImages(cp: Checkpoint, db: Db, products: seq<Product>) {
    && (forall p <- products :: ItemOf(cp, p.sku).media != 0 ==> HasImage(db.media, p, ItemOf(cp, p.sku).media))
    && (forall p <- products :: p.sku in db.products ==> HasImage(db.media, p, db.products[p.sku].media))
  }

  lemma {:induction false} FoundMediaMatches(media: seq<MediaRow>, publicId: string)
    ensures FindMedia(media, publicId) != 0
            ==> exists r <- media :: r.id == FindMedia(media, publicId) && r.publicId == publicId
  {
    if media != [] {
      assert media[0] in media;
      FoundMediaMatches(media[1..], publicId);
      assert forall r <- media[1..] :: r in media;
    }
  }

  lemma ObtainedIsOwn(env: Env, db: Db, calls: nat, p: Product, item: Item)
    requires item.media != 0 ==> HasImage(db.media, p, item.media)
    ensures var s := ObtainMedia(env, db, calls, p, item);
            && s.db.products == db.products && db.media <= s.db.media
            && (s.item.media != 0 ==> HasImage(s.db.media, p, s.item.media))
            && (s.ok ==> HasImage(s.db.media, p, s.media))
  {
    hide Trim, FindMedia;
    FoundMediaMatches(db.media, Trim(p.publicId));
    var s := ObtainMedia(env, db, calls, p, item);
    if |s.db.media| > |db.media| {
      assert s.db.media[|db.media|] in s.db.media;
    }
  }

  /** Rows are kept, and a new one is `p`'s and shows `media`. */
  predicate Inserted(before: Db, after: Db, p: Product, media: Id) {
    && after.media == before.media
    && forall k <- after.products ::
         if k in before.products then after.products[k] == before.products[k]
         else k == p.sku && after.products[k].media == media
  }

  lemma InsertedRow(fails: bool, db: Db, p: Product, category: Option<Id>, brand: Option<Id>, tags: set<Id>, media: Id)
    requires Trim(p.sku) == p.sku
    ensures Inserted(db, InsertProduct(fails, db, p, category, brand, tags, media).0, p, media)
  {
    hide Trim, Describe;
  }

  lemma CreatedShowsImage(env: Env, s: Step, opt: RunOptions, ids: TaxonIds, book: Id, p: Product)
    requires Trim(p.sku) == p.sku
    ensures Inserted(s.db, CreateProduct(env, s, opt, ids, book, p).db, p, s.media)
  {
    hide Trim, BrandOf, TagsOf, IdAt, InsertProduct, PriceProduct;
    var category, brand, tags := IdAt(ids.categories, p.category), BrandOf(p, ids), TagsOf(p, ids);
    InsertedRow(env.fails(s.calls), s.db, p, category, brand, tags, s.media);
    var (db, id) := InsertProduct(env.fails(s.calls), s.db, p, category, brand, tags, s.media);
    PricingKeepsImages(env, s.(db := db, calls := s.calls + 1, item := s.item.(product := id, state := ProductCreated)),
                       opt, book, id, p.price, PriceCreated);
  }

  lemma ImportOneOwn(env: Env, db: Db, calls: nat, opt: RunOptions, ids: TaxonIds, book: Id, p: Product, item: Item)
    requires Trim(p.sku) == p.sku && (item.media != 0 ==> HasImage(db.media, p, item.media))
    ensures var s := ImportOne(env, db, calls, opt, ids, book, p, item);
            && db.media <= s.db.media
            && (s.item.media != 0 ==> HasImage(s.db.media, p, s.item.media))
            && (forall k <- s.db.products ::
                  if k in db.products then s.db.products[k] == db.products[k]
                  else k == p.sku && HasImage(s.db.media, p, s.db.products[k].media))
  {
    hide Trim, ObtainMedia, CreateProduct, HasImage;
    if p.sku in db.products {
      PricingKeepsImages(env, Step(db, calls + 1, item.(product := db.products[p.sku].id), 0, true),
                         opt, book, db.products[p.sku].id, p.price, item.state);
    }
    ObtainedIsOwn(env, db, calls + 1, p, item);
    CreatedShowsImage(env, ObtainMedia(env, db, calls + 1, p, item), opt, ids, book, p);
    CreationKeepsImages(env, ObtainMedia(env, db, calls + 1, p, item), opt, ids, book, p);
  }

  lemma ImageStays(before: seq<MediaRow>, after: seq<MediaRow>, p: Product, id: Id)
    requires before <= after && HasImage(before, p, id)
    ensures HasImage(after, p, id)
  {
    hide Trim;
  }

  lemma TurnKeepsOwn(cp: Checkpoint, before: Db, after: Db, products: seq<Product>, p: Product, item: Item)
    requires OwnImages(cp, before, products) && SkusUnique(products) && p in products
    requires before.media <= after.media && (item.media != 0 ==> HasImage(after.media, p, item.media))
    requires forall k <- after.products ::
               if k in before.products then after.products[k] == before.products[k]
               else k == p.sku && HasImage(after.media, p, after.products[k].media)
    ensures OwnImages(cp[p.sku := item], after, products)
  {
    hide HasImage;
    forall q | q in products
      ensures ItemOf(cp[p.sku := item], q.sku).media != 0
              ==> HasImage(after.media, q, ItemOf(cp[p.sku := item], q.sku).media)
      ensures q.sku in after.products ==> HasImage(after.media, q, after.products[q.sku].media)
    {
      if q.sku == p.sku {
        assert q == p;
      } else if ItemOf(cp, q.sku).media != 0 {
        ImageStays(before.media, after.media, q, ItemOf(cp, q.sku).media);
      }
      if q.sku in before.products {
        ImageStays(before.media, after.media, q, before.products[q.sku].media);
      }
    }
  }

  lemma {:induction false} ImportAllOwn(
    env: Env, b: Batch, opt: RunOptions, ids: TaxonIds, book: Id, products: seq<Product>, i: nat)
    requires i <= |products| && SkusUnique(products) && (forall p <- products :: Trim(p.sku) == p.sku)
    requires OwnImages(b.cp, b.db, products)
    ensures var r := ImportAll(env, b, opt, ids, book, products, i);
            OwnImages(r.cp, r.db, products) && (r == b || r.saved == r.cp)
    decreases |products| - i
  {
    hide ImportOne, OwnImages, HasImage, SkusUnique, Trim;
    if i < |products| {
      var p := products[i];
      assert p in products;
      if Finished(b.cp, p.sku) {
        ImportAllOwn(env, b, opt, ids, book, products, i + 1);
      } else {
        var item := ItemOf(b.cp, p.sku);
        OwnItem(b.cp, b.db, products, p);
        ImportOneOwn(env, b.db, b.calls, opt, ids, book, p, item);
        var s := ImportOne(env, b.db, b.calls, opt, ids, book, p, item);
        TurnKeepsOwn(b.cp, b.db, s.db, products, p, s.item.(state := if s.ok then Verified else Failed));
        var cp := b.cp[p.sku := s.item.(state := if s.ok then Verified else Failed)];
        if s.ok {
          ImportAllOwn(env, Batch(s.db, s.calls, cp, cp, true), opt, ids, book, products, i + 1);
        }
      }
    }
  }

  lemma OwnItem(cp: Checkpoint, db: Db, products: seq<Product>, p: Product)
    requires OwnImages(cp, db, products) && p in products
    ensures ItemOf(cp, p.sku).media != 0 ==> HasImage(db.media, p, ItemOf(cp, p.sku).media)
  {
  }

  lemma SameRows(cp: Checkpoint, before: Db, after: Db, products: seq<Product>)
    requires OwnImages(cp, before, products) && after.media == before.media && after.products == before.products
    ensures OwnImages(cp, after, products)
  {
    hide HasImage;
  }

  lemma NothingCheckpointed(db: Db, products: seq<Product>, cp: Checkpoint)
    requires OwnImages(cp, db, products)
    ensures OwnImages(map[], db, products)
  {
    hide HasImage;
  }

  lemma RunOwn(env: Env, w: World, m: Manifest, opt: RunOptions)
    requires OwnImages(w.saved, w.db, m.products) && forall p <- m.products :: Trim(p.sku) == p.sku
    ensures var r := Run(env, w, m, opt).0;
            OwnImages(r.saved, r.db, m.products)
  {
    hide Issues, ObtainTaxonIds, ImportAll, EnsurePriceBook, OwnImages, SkusUnique, Trim;
    if Issues(Some(m)) == [] && !opt.dryRun && !env.fails(w.calls) {
      UniqueSkus(m);
      TaxonomyKeepsRows(env, w.db, w.calls + 1, m.taxonomy, opt.importTaxonomy);
      var (db1, n1, ids) := ObtainTaxonIds(env, w.db, w.calls + 1, m.taxonomy, opt.importTaxonomy);
      SameRows(w.saved, w.db, db1, m.products);
      if ids.Some? {
        BookKeepsRows(env, db1, n1);
        var (db2, n2, book) := EnsurePriceBook(env, db1, n1);
        SameRows(w.saved, db1, db2, m.products);
        NothingCheckpointed(db2, m.products, w.saved);
        var cp := if opt.resume then w.saved else map[];
        ImportAllOwn(env, Batch(db2, n2, cp, w.saved, true), opt, ids.value, book, m.products, 0);
      }
    }
  }

  /** In every reachable state each stored product shows an image of its own, whether or not the runs resume and
      however their taxonomy and options change. */
  lemma {:induction false} ProductsShowOwnImages(w: World, jobs: seq<Job>, products: seq<Product>)
    requires forall p <- products ::
               Trim(p.sku) == p.sku && p.sku !in w.db.products && ItemOf(w.saved, p.sku).media == 0
    requires forall j <- jobs :: j.manifest.products == products
    ensures var r := RunJobs(w, jobs);
            OwnImages(r.saved, r.db, products)
  {
    hide Run, HasImage, Trim;
    if jobs != [] {
      var before, last := jobs[..|jobs| - 1], jobs[|jobs| - 1];
      ProductsShowOwnImages(w, before, products);
      RunOwn(last.env, RunJobs(w, before), last.manifest, last.options);
    }
  }
}
