/** Without failing calls: exactly when a resumed run returns no error. */
module CatalogProgress {
  import opened Options
  import opened Text
  import opened CatalogManifest
  import opened CatalogDatabase
  import opened TaxonomyImport
  import opened CatalogImport
  import opened CatalogResume
  import opened CatalogRuns
  import opened CatalogConvergence

  /// Uploads

  /** The public ids that uploads get from the nth call on are unused and pairwise different. */
  ghost predicate FreshUploads(env: Env, media: seq<MediaRow>, n: nat) {
    && (forall k: nat :: k >= n ==> FindMedia(media, env.providerId(k)) == 0)
    && (forall j: nat, k: nat :: n <= j < k ==> env.providerId(j) != env.providerId(k))
  }

  lemma {:induction false} AppendedMedia(media: seq<MediaRow>, row: MediaRow, publicId: string)
    requires FindMedia(media, publicId) == 0 && row.publicId != publicId
    ensures FindMedia(media + [row], publicId) == 0
  {
    if media == [] {
      assert (media + [row])[1..] == [];
    } else {
      assert (media + [row])[1..] == media[1..] + [row];
      if !(publicId != "" && media[0].publicId == publicId) {
        AppendedMedia(media[1..], row, publicId);
      }
    }
  }

  lemma FreshLater(env: Env, media: seq<MediaRow>, n: nat, row: MediaRow, later: nat)
    requires FreshUploads(env, media, n) && row.publicId == env.providerId(n) && later > n
    ensures FreshUploads(env, media + [row], later)
  {
    hide FindMedia;
    forall k: nat | k >= later ensures FindMedia(media + [row], env.providerId(k)) == 0 {
      AppendedMedia(media, row, env.providerId(k));
    }
  }

  lemma ImageObtained(env: Env, db: Db, calls: nat, p: Product, item: Item)
    requires 0 < db.nextId && NeverFails(env, calls) && FreshUploads(env, db.media, calls)
    ensures var s := ObtainMedia(env, db, calls, p, item);
            && s.ok && s.media != 0 && 0 < s.db.nextId && calls <= s.calls && FreshUploads(env, s.db.media, s.calls)
            && s.db == db.(media := s.db.media, nextId := s.db.nextId)
  {
    hide Trim, FindMedia;
    var publicId := env.providerId(calls + 1);
    FreshLater(env, db.media, calls + 1, MediaRow(db.nextId, p.sku, publicId), calls + 2);
  }

  /// One product

  predicate Storable(db: Db, p: Product, opt: RunOptions) {
    p.sku in db.products || (opt.uploadImages && Trim(p.name) != "")
  }

  lemma PriceSet(env: Env, s: Step, opt: RunOptions, book: Id, product: Id, price: int, done: State)
    requires NeverFails(env, s.calls) && s.ok && book != 0 && product != 0 && price > 0 && book in s.db.books
    ensures var r := PriceProduct(env, s, opt, book, product, price, done);
            r.ok && s.calls <= r.calls && r.db.media == s.db.media
  {
  }

  lemma ProductCreatedIff(env: Env, s: Step, opt: RunOptions, ids: TaxonIds, book: Id, p: Product)
    requires NeverFails(env, s.calls) && s.ok && s.media != 0 && 0 < s.db.nextId && book != 0 && book in s.db.books
    requires p.price > 0 && p.sku != "" && Trim(p.sku) == p.sku && p.sku !in s.db.products
    ensures var r := CreateProduct(env, s, opt, ids, book, p);
            && (r.ok <==> Trim(p.name) != "") && s.calls <= r.calls && r.db.media == s.db.media
  {
    hide Trim, Describe, BrandOf, TagsOf, IdAt, PriceProduct;
    var (db, id) := InsertProduct(
      env.fails(s.calls), s.db, p, IdAt(ids.categories, p.category), BrandOf(p, ids), TagsOf(p, ids), s.media);
    if id != 0 {
      PriceSet(env, s.(db := db, calls := s.calls + 1, item := s.item.(product := id, state := ProductCreated)),
               opt, book, id, p.price, PriceCreated);
    }
  }

  lemma ImportOneSucceedsIff(
    env: Env, db: Db, calls: nat, opt: RunOptions, ids: TaxonIds, book: Id, p: Product, item: Item)
    requires ValidProducts(db) && NeverFails(env, calls) && FreshUploads(env, db.media, calls) && book != 0
             && book in db.books
    requires p.price > 0 && p.sku != "" && Trim(p.sku) == p.sku
    ensures var s := ImportOne(env, db, calls, opt, ids, book, p, item);
            && (s.ok <==> Storable(db, p, opt)) && calls <= s.calls && (s.ok ==> FreshUploads(env, s.db.media, s.calls))
  {
    hide Trim, ObtainMedia, CreateProduct, PriceProduct, FindMedia;
    if p.sku in db.products {
      PriceSet(env, Step(db, calls + 1, item.(product := db.products[p.sku].id), 0, true),
               opt, book, db.products[p.sku].id, p.price, item.state);
    } else {
      ImageObtained(env, db, calls + 1, p, item);
      ProductCreatedIff(env, ObtainMedia(env, db, calls + 1, p, item), opt, ids, book, p);
    }
  }

  /// All products

  ghost predicate AllStorable(db: Db, cp: Checkpoint, products: seq<Product>, i: nat, opt: RunOptions) {
    forall j :: i <= j < |products| ==> Finished(cp, products[j].sku) || Storable(db, products[j], opt)
  }

  ghost predicate AllPriced(products: seq<Product>) {
    forall p <- products :: p.price > 0 && p.sku != ""
  }

  lemma {:induction false} AllSucceedIff(
    env: Env, b: Batch, opt: RunOptions, ids: TaxonIds, book: Id, products: seq<Product>, i: nat)
    requires i <= |products| && ValidDb(b.db) && book in b.db.books && book != 0 && SkusUnique(products)
    requires AllFound(ids, b.db, products) && AllPriced(products)
    requires b.ok && NeverFails(env, b.calls) && FreshUploads(env, b.db.media, b.calls)
    ensures var r := ImportAll(env, b, opt, ids, book, products, i);
            && (r.ok <==> AllStorable(b.db, b.cp, products, i, opt)) && b.calls <= r.calls
    decreases |products| - i
  {
    hide Lower, Trim, Found, ImportOne, ValidTaxa, ValidBooks, Finished, Moves, FindMedia;
    if i < |products| {
      var p := products[i];
      assert p in products;
      if Finished(b.cp, p.sku) {
        AllSucceedIff(env, b, opt, ids, book, products, i + 1);
      } else {
        ImportOneSucceedsIff(env, b.db, b.calls, opt, ids, book, p, ItemOf(b.cp, p.sku));
        TurnMoves(env, b, opt, ids, book, products, i);
        ImportOneEffect(env, b.db, b.calls, opt, ids, book, p, ItemOf(b.cp, p.sku));
        var s := ImportOne(env, b.db, b.calls, opt, ids, book, p, ItemOf(b.cp, p.sku));
        var cp := b.cp[p.sku := s.item.(state := if s.ok then Verified else Failed)];
        var next := Batch(s.db, s.calls, cp, cp, s.ok);
        StillReady(ids, products, opt.importPrices, book, b, next);
        if s.ok {
          AllSucceedIff(env, next, opt, ids, book, products, i + 1);
          forall j | i < j < |products|
            ensures Finished(cp, products[j].sku) || Storable(s.db, products[j], opt) <==>
                    Finished(b.cp, products[j].sku) || Storable(b.db, products[j], opt)
          {
            OtherStaysStorable(b, s, cp[p.sku], p, products[j], opt, book);
          }
        }
      }
    }
  }

  lemma OtherStaysStorable(b: Batch, s: Step, item: Item, p: Product, q: Product, opt: RunOptions, book: Id)
    requires q.sku != p.sku && Effect(b.db, s.db, p, book)
    ensures Finished(b.cp[p.sku := item], q.sku) <==> Finished(b.cp, q.sku)
    ensures Storable(s.db, q, opt) <==> Storable(b.db, q, opt)
  {
    hide Trim, ValidDb, Expected;
  }

  /// The run

  lemma {:induction false} LookupAllSucceedsIff(
    env: Env, calls: nat, table: Table, slugs: seq<string>, i: nat, ids: map<string, Id>)
    requires i <= |slugs| && NeverFails(env, calls)
    ensures var (n, found) := LookupAll(env, calls, table, slugs, i, ids);
            calls <= n && (found.Some? <==> forall j :: i <= j < |slugs| ==> Lower(Trim(slugs[j])) in table)
    decreases |slugs| - i
  {
    hide Lower, Trim;
    if i < |slugs| {
      var id := LookupRow(env.fails(calls), table, slugs[i]);
      if id.Some? {
        LookupAllSucceedsIff(env, calls + 1, table, slugs, i + 1, ids[slugs[i] := id.value]);
      }
    }
  }

  predicate AllIn(slugs: seq<string>, table: Table) {
    forall j :: 0 <= j < |slugs| ==> Lower(Trim(slugs[j])) in table
  }

  /** What the taxonomy phase needs: everything placeable if it creates, everything stored if it only looks up. */
  predicate TaxonomyReady(db: Db, t: Taxonomy, create: bool) {
    if create then Importable(t, db.categories.Keys)
    else
      && AllIn(CategorySlugs(t.categories), db.categories)
      && AllIn(TaxonSlugs(t.brands), db.brands)
      && AllIn(TaxonSlugs(t.tags), db.tags)
  }

  lemma TaxonIdsIff(env: Env, db: Db, calls: nat, t: Taxonomy, create: bool)
    requires ValidTaxa(db) && NeverFails(env, calls)
    ensures ObtainTaxonIds(env, db, calls, t, create).2.Some? <==> TaxonomyReady(db, t, create)
  {
    hide Lower, Trim, ImportTaxonomy, Importable, LookupAll, ValidTable, CategorySlugs, TaxonSlugs;
    if create {
      ImportSucceedsIff(env, db, calls, t);
    } else {
      var cs, bs, gs := CategorySlugs(t.categories), TaxonSlugs(t.brands), TaxonSlugs(t.tags);
      LookupAllSucceedsIff(env, calls, db.categories, cs, 0, map[]);
      var (n1, c) := LookupAll(env, calls, db.categories, cs, 0, map[]);
      assert c.Some? <==> AllIn(cs, db.categories);
      LookupAllSucceedsIff(env, n1, db.brands, bs, 0, map[]);
      var (n2, b) := LookupAll(env, n1, db.brands, bs, 0, map[]);
      assert b.Some? <==> AllIn(bs, db.brands);
      LookupAllSucceedsIff(env, n2, db.tags, gs, 0, map[]);
      var (_, g) := LookupAll(env, n2, db.tags, gs, 0, map[]);
      assert g.Some? <==> AllIn(gs, db.tags);
    }
  }

  lemma BookObtained(env: Env, db: Db, calls: nat)
    requires ValidTaxa(db) && ValidBooks(db) && NeverFails(env, calls)
    ensures var (db', n, book) := EnsurePriceBook(env, db, calls);
            && book != 0 && book in db'.books && calls <= n
            && db'.media == db.media && db'.products == db.products
  {
    hide ValidTable;
    assert 0 < db.nextId by { FirstIdIsPositive(db); }
    if db.books == [] {
      assert (db.books + [db.nextId])[0] == db.nextId;
    } else {
      assert db.books[|db.books| - 1] in db.books;
    }
  }

  lemma FirstIdIsPositive(db: Db)
    requires ValidTaxa(db)
    ensures 0 < db.nextId
  {
  }

  lemma PricesArePositive(m: Manifest)
    requires Issues(Some(m)) == []
    ensures AllPriced(m.products)
  {
    hide Issues;
    ValidationIsExact(m);
  }

  lemma ProductsSucceedIff(env: Env, w: World, m: Manifest, opt: RunOptions, ids: TaxonIds)
    requires Resumable(m, opt) && Kept(w.saved, w.db, m.products, opt.importPrices) && IdsUsable(ids, w.db, m.taxonomy)
    requires NeverFails(env, w.calls) && FreshUploads(env, w.db.media, w.calls)
    ensures ImportProducts(env, w, m, opt, w.saved, ids).1 <==>
            (opt.importProducts ==> AllStorable(w.db, w.saved, m.products, 0, opt))
  {
    hide Issues, Normalized, IdsUsable, Described, Backed, ValidTaxa, ValidProducts, ValidBooks, EnsurePriceBook,
      ImportAll, Finished, Found, Expected, FindMedia, Storable;
    UniqueSkus(m);
    PricesArePositive(m);
    BookPhase(env, w.saved, w.db, w.calls, m.products, opt.importPrices);
    BookObtained(env, w.db, w.calls);
    var (db, n, book) := EnsurePriceBook(env, w.db, w.calls);
    UsableAfterBook(m, ids, w.db, db);
    AllLookupsSucceed(m, ids, db);
    if opt.importProducts {
      AllSucceedIff(env, Batch(db, n, w.saved, w.saved, true), opt, ids, book, m.products, 0);
      SameStorable(w.db, db, w.saved, m.products, opt);
    }
  }

  lemma SameStorable(before: Db, after: Db, cp: Checkpoint, products: seq<Product>, opt: RunOptions)
    requires after.products == before.products
    ensures AllStorable(after, cp, products, 0, opt) <==> AllStorable(before, cp, products, 0, opt)
  {
    hide Finished, Trim;
  }

  /** Progress: when no call fails and uploads get unused public ids, a resumed run returns no error if and only if
      the taxonomy can be obtained and every product is finished, stored, or named and may be uploaded. */
  lemma FaultFreeRunSucceedsIff(env: Env, w: World, m: Manifest, opt: RunOptions)
    requires Resumable(m, opt) && !opt.dryRun && Kept(w.saved, w.db, m.products, opt.importPrices)
    requires NeverFails(env, w.calls) && FreshUploads(env, w.db.media, w.calls)
    ensures Run(env, w, m, opt).1 <==>
            && TaxonomyReady(w.db, m.taxonomy, opt.importTaxonomy)
            && (opt.importProducts ==> AllStorable(w.db, w.saved, m.products, 0, opt))
  {
    hide Issues, Normalized, ObtainTaxonIds, ImportProducts, IdsUsable, TaxonomyReady, AllStorable, FindMedia,
         Described, Backed, ValidProducts, ValidBooks;
    var start := w.(calls := w.calls + 1);
    TaxonIdsIff(env, w.db, start.calls, m.taxonomy, opt.importTaxonomy);
    TaxonIdsObtained(env, w.db, start.calls, m, opt.importTaxonomy);
    var (db, n, ids) := ObtainTaxonIds(env, w.db, start.calls, m.taxonomy, opt.importTaxonomy);
    if ids.Some? {
      TaxonomyPhase(w.saved, w.db, db, m.products, opt.importPrices);
      SameStorable(w.db, db, w.saved, m.products, opt);
      ProductsSucceedIff(env, World(db, w.saved, n), m, opt, ids.value);
    }
  }
}
