/** What every resumed run of the import keeps, whether or not it returns an error. */
module CatalogRuns {
  import opened Options
  import opened Text
  import opened CatalogManifest
  import opened CatalogDatabase
  import opened TaxonomyImport
  import opened CatalogImport
  import opened CatalogResume

  /// The database

  predicate ValidProducts(db: Db) {
    && 0 < db.nextId
    && (forall k <- db.products :: 0 < db.products[k].id < db.nextId)
    && (forall k, l :: k in db.products && l in db.products && db.products[k].id == db.products[l].id ==> k == l)
  }

  predicate ValidBooks(db: Db) {
    && (forall b <- db.books :: 0 < b < db.nextId)
    && (forall k <- db.prices :: k.0 in db.books)
  }

  predicate ValidDb(db: Db) {
    ValidTaxa(db) && ValidProducts(db) && ValidBooks(db)
  }

  /** The row says of the product what the manifest says, in terms of the taxonomy's rows. */
  ghost predicate Expected(db: Db, p: Product, row: ProductRow) {
    && row.name == Trim(p.name) && row.description == Describe(p) && row.active == p.active
    && Lower(p.category) in db.categories && row.category == Some(db.categories[Lower(p.category)].id)
    && (if p.brand.Some? && Trim(p.brand.value) != ""
        then Lower(Trim(p.brand.value)) in db.brands && row.brand == Some(db.brands[Lower(Trim(p.brand.value))].id)
        else row.brand == None)
    && (forall g <- p.tags :: Lower(g) in db.tags)
    && row.tags == set g <- p.tags | Lower(g) in db.tags :: db.tags[Lower(g)].id
  }

  function PriceIn(db: Db, p: Product, book: Id): Option<int> {
    if p.sku in db.products && (book, db.products[p.sku].id) in db.prices
    then Some(db.prices[(book, db.products[p.sku].id)])
    else None
  }

  predicate Priced(db: Db, p: Product, book: Id) {
    PriceIn(db, p, book) == Some(p.price)
  }

  /// One product

  /** The row under `p`'s SKU is the one whose price in `book` is at `key`. */
  predicate PriceKey(db: Db, p: Product, book: Id, key: (Id, Id)) {
    p.sku in db.products && key == (book, db.products[p.sku].id)
  }

  /** All that importing `p` may do to the database. */
  ghost predicate Effect(before: Db, after: Db, p: Product, book: Id) {
    && after == before.(products := after.products, media := after.media, prices := after.prices,
                        nextId := after.nextId)
    && before.nextId <= after.nextId && ValidDb(after)
    && Grows(before.products, after.products)
    && (forall k <- after.products :: k in before.products || (k == p.sku && Expected(after, p, after.products[k])))
    && (forall k <- before.prices ::
          k in after.prices && (after.prices[k] == before.prices[k] || PriceKey(after, p, book, k)))
    && (forall k <- after.prices :: k in before.prices || PriceKey(after, p, book, k))
  }

  lemma EffectTransitive(a: Db, b: Db, c: Db, p: Product, book: Id)
    requires Effect(a, b, p, book) && Effect(b, c, p, book)
    ensures Effect(a, c, p, book)
  {
    hide Lower, Trim, ValidDb, Describe;
  }

  lemma NoEffect(db: Db, p: Product, book: Id)
    requires ValidDb(db)
    ensures Effect(db, db, p, book)
  {
    hide ValidDb, Expected;
  }

  lemma TaxaStayValid(before: Db, after: Db)
    requires ValidTaxa(before) && before.nextId <= after.nextId
    requires after.categories == before.categories && after.brands == before.brands && after.tags == before.tags
    ensures ValidTaxa(after)
  {
    ValidWithLaterIds(before.categories, before.nextId, after.nextId);
    ValidWithLaterIds(before.brands, before.nextId, after.nextId);
    ValidWithLaterIds(before.tags, before.nextId, after.nextId);
    hide ValidTable;
  }

  lemma MediaEffect(db: Db, p: Product, book: Id, media: seq<MediaRow>, nextId: Id)
    requires ValidDb(db) && db.nextId <= nextId
    ensures Effect(db, db.(media := media, nextId := nextId), p, book)
  {
    hide Expected, ValidTaxa;
    TaxaStayValid(db, db.(media := media, nextId := nextId));
  }

  lemma ObtainMediaEffect(env: Env, db: Db, calls: nat, p: Product, item: Item, book: Id)
    requires ValidDb(db)
    ensures Effect(db, ObtainMedia(env, db, calls, p, item).db, p, book)
  {
    hide Lower, Trim, ValidDb, Effect, FindMedia;
    NoEffect(db, p, book);
    var publicId := env.providerId(calls + 1);
    MediaEffect(db, p, book, db.media + [MediaRow(db.nextId, p.sku, publicId)], db.nextId + 1);
  }

  lemma PriceEffect(env: Env, s: Step, opt: RunOptions, book: Id, p: Product, done: State)
    requires ValidDb(s.db) && book in s.db.books && p.sku in s.db.products && s.ok
    ensures var r := PriceProduct(env, s, opt, book, s.db.products[p.sku].id, p.price, done);
            Effect(s.db, r.db, p, book) && (r.ok && opt.importPrices ==> Priced(r.db, p, book))
  {
    hide Lower, Trim, ValidTaxa, ValidProducts, Expected;
    NoEffect(s.db, p, book);
    SameButPrices(s.db, PriceProduct(env, s, opt, book, s.db.products[p.sku].id, p.price, done).db.prices);
  }

  lemma SameButPrices(db: Db, prices: map<(Id, Id), int>)
    ensures ValidTaxa(db.(prices := prices)) <==> ValidTaxa(db)
    ensures ValidProducts(db.(prices := prices)) <==> ValidProducts(db)
  {
    hide ValidTable;
  }

  lemma NewRowIsExpected(ids: TaxonIds, db: Db, p: Product, id: Id, media: Id)
    requires Found(ids, db, p)
    ensures Expected(db, p, ProductRow(
                id, Trim(p.name), Describe(p), p.active, IdAt(ids.categories, p.category), BrandOf(p, ids),
                TagsOf(p, ids), media))
  {
    hide Lower, Describe;
    assert p.brand.Some? && p.brand.value == "" ==> Trim(p.brand.value) == "";
    hide Trim;
    assert TagsOf(p, ids) == set g <- p.tags | Lower(g) in db.tags :: db.tags[Lower(g)].id;
  }

  lemma InsertEffect(fails: bool, ids: TaxonIds, db: Db, p: Product, media: Id, book: Id)
    requires ValidDb(db) && Trim(p.sku) == p.sku && Found(ids, db, p)
    ensures var (after, id) := InsertProduct(fails, db, p, IdAt(ids.categories, p.category), BrandOf(p, ids),
                                             TagsOf(p, ids), media);
            && Effect(db, after, p, book) && after.books == db.books
            && (id != 0 ==> p.sku in after.products && after.products[p.sku].id == id)
  {
    hide Lower, Trim, Describe, Found, BrandOf, TagsOf, IdAt, Effect, ValidTaxa, ValidProducts, Expected;
    NoEffect(db, p, book);
    NewRowIsExpected(ids, db, p, db.nextId, media);
    var row := ProductRow(
      db.nextId, Trim(p.name), Describe(p), p.active, IdAt(ids.categories, p.category), BrandOf(p, ids), TagsOf(p, ids),
      media);
    if p.sku !in db.products {
      AddedRowEffect(db, p, row, book);
    }
  }

  lemma AddedRowIsValid(db: Db, sku: string, row: ProductRow)
    requires ValidDb(db) && sku !in db.products && row.id == db.nextId
    ensures ValidDb(db.(products := db.products[sku := row], nextId := db.nextId + 1))
  {
    hide ValidTaxa;
    var after := db.(products := db.products[sku := row], nextId := db.nextId + 1);
    TaxaStayValid(db, after);
    assert ValidProducts(after) && ValidBooks(after);
  }

  lemma AddedRowEffect(db: Db, p: Product, row: ProductRow, book: Id)
    requires ValidDb(db) && p.sku !in db.products && Expected(db, p, row) && row.id == db.nextId
    ensures Effect(db, db.(products := db.products[p.sku := row], nextId := db.nextId + 1), p, book)
  {
    AddedRowIsValid(db, p.sku, row);
    hide Lower, Trim, Describe, ValidDb;
    assert Expected(db.(products := db.products[p.sku := row], nextId := db.nextId + 1), p, row);
  }

  lemma CreateEffect(env: Env, s: Step, opt: RunOptions, ids: TaxonIds, book: Id, p: Product)
    requires ValidDb(s.db) && book in s.db.books && s.ok && Trim(p.sku) == p.sku && Found(ids, s.db, p)
    ensures var r := CreateProduct(env, s, opt, ids, book, p);
            && Effect(s.db, r.db, p, book)
            && (r.ok ==> p.sku in r.db.products && (opt.importPrices ==> Priced(r.db, p, book)))
  {
    hide Lower, Trim, Describe, Found, BrandOf, TagsOf, IdAt, InsertProduct, PriceProduct, Expected, ValidTaxa,
         ValidProducts, ValidBooks;
    InsertEffect(env.fails(s.calls), ids, s.db, p, s.media, book);
    var (db, id) := InsertProduct(
      env.fails(s.calls), s.db, p, IdAt(ids.categories, p.category), BrandOf(p, ids), TagsOf(p, ids), s.media);
    if id != 0 {
      var created := s.(db := db, calls := s.calls + 1, item := s.item.(product := id, state := ProductCreated));
      PriceEffect(env, created, opt, book, p, PriceCreated);
      EffectTransitive(s.db, db, PriceProduct(env, created, opt, book, id, p.price, PriceCreated).db, p, book);
    }
  }

  lemma FoundStays(ids: TaxonIds, before: Db, after: Db, p: Product)
    requires Found(ids, before, p)
    requires after.categories == before.categories && after.brands == before.brands && after.tags == before.tags
    ensures Found(ids, after, p)
  {
    hide Lower, Trim, IdAt;
  }

  /** One product: an error or not, all that changes is its own row and price; success means both are there. */
  lemma ImportOneEffect(env: Env, db: Db, calls: nat, opt: RunOptions, ids: TaxonIds, book: Id, p: Product, item: Item)
    requires ValidDb(db) && book in db.books && Trim(p.sku) == p.sku && Found(ids, db, p)
    ensures var s := ImportOne(env, db, calls, opt, ids, book, p, item);
            && Effect(db, s.db, p, book)
            && (s.ok ==> p.sku in s.db.products && (opt.importPrices ==> Priced(s.db, p, book)))
  {
    hide Lower, Trim, Found, PriceProduct, CreateProduct, ObtainMedia, Expected, ValidTaxa, ValidProducts, ValidBooks;
    if !env.fails(calls) && p.sku in db.products {
      var found := Step(db, calls + 1, item.(product := db.products[p.sku].id), 0, true);
      PriceEffect(env, found, opt, book, p, item.state);
      PriceKeepsRows(env, found, opt, book, db.products[p.sku].id, p.price, item.state);
    } else if !opt.uploadImages {
      NoEffect(db, p, book);
    } else {
      ObtainMediaEffect(env, db, calls + 1, p, item, book);
      var s := ObtainMedia(env, db, calls + 1, p, item);
      if s.ok {
        FoundStays(ids, db, s.db, p);
        CreateEffect(env, s, opt, ids, book, p);
        EffectTransitive(db, s.db, CreateProduct(env, s, opt, ids, book, p).db, p, book);
      }
    }
  }

  lemma PriceKeepsRows(env: Env, s: Step, opt: RunOptions, book: Id, product: Id, price: int, done: State)
    ensures PriceProduct(env, s, opt, book, product, price, done).db.products == s.db.products
  {
  }

  /// All products

  ghost predicate SkusUnique(products: seq<Product>) {
    forall i, j :: 0 <= i < |products| && 0 <= j < |products| && products[i].sku == products[j].sku ==> i == j
  }

  /** A finished product is left alone; one that gets finished is stored and, if asked for, priced in `book`. */
  ghost predicate Settled(charge: bool, book: Id, b: Batch, r: Batch, p: Product) {
    && (Finished(b.cp, p.sku) ==>
          && Finished(r.cp, p.sku)
          && (p.sku in b.db.products ==> PriceIn(r.db, p, book) == PriceIn(b.db, p, book)))
    && (Finished(r.cp, p.sku) && !Finished(b.cp, p.sku) ==>
          p.sku in r.db.products && (charge ==> Priced(r.db, p, book)))
  }

  /** What the batch does to the database apart from prices in `book`. */
  ghost predicate Spreads(products: seq<Product>, book: Id, before: Db, after: Db) {
    && after == before.(products := after.products, media := after.media, prices := after.prices,
                        nextId := after.nextId)
    && before.nextId <= after.nextId && ValidDb(after)
    && Grows(before.products, after.products)
    && (forall k <- after.products ::
          k in before.products || exists p <- products :: p.sku == k && Expected(after, p, after.products[k]))
    && (forall k <- before.prices :: k in after.prices && (k.0 != book ==> after.prices[k] == before.prices[k]))
    && (forall k <- after.prices :: k.0 != book ==> k in before.prices)
  }

  ghost predicate Moves(products: seq<Product>, charge: bool, book: Id, b: Batch, r: Batch) {
    Spreads(products, book, b.db, r.db) && forall p <- products :: Settled(charge, book, b, r, p)
  }

  lemma ExpectedStays(before: Db, after: Db, p: Product, row: ProductRow)
    requires Expected(before, p, row)
    requires Grows(before.categories, after.categories) && Grows(before.brands, after.brands)
             && Grows(before.tags, after.tags)
    ensures Expected(after, p, row)
  {
    hide Lower, Trim, Describe;
    assert forall g <- p.tags :: Lower(g) in after.tags && after.tags[Lower(g)] == before.tags[Lower(g)];
  }

  lemma SpreadsTransitive(products: seq<Product>, book: Id, a: Db, b: Db, c: Db)
    requires Spreads(products, book, a, b) && Spreads(products, book, b, c)
    ensures Spreads(products, book, a, c)
  {
    hide ValidDb, Expected;
    forall k | k in c.products && k !in a.products
      ensures exists p <- products :: p.sku == k && Expected(c, p, c.products[k])
    {
      if k in b.products {
        var p :| p in products && p.sku == k && Expected(b, p, b.products[k]);
        ExpectedStays(b, c, p, b.products[k]);
      }
    }
  }

  lemma MovesTransitive(products: seq<Product>, charge: bool, book: Id, a: Batch, b: Batch, c: Batch)
    requires Moves(products, charge, book, a, b) && Moves(products, charge, book, b, c)
    ensures Moves(products, charge, book, a, c)
  {
    SpreadsTransitive(products, book, a.db, b.db, c.db);
    assert Grows(a.db.products, b.db.products);
    hide Spreads, PriceIn, Finished;
    forall p | p in products ensures Settled(charge, book, a, c, p) {
      assert Settled(charge, book, a, b, p) && Settled(charge, book, b, c, p);
    }
  }

  lemma EffectSpreads(products: seq<Product>, before: Db, after: Db, p: Product, book: Id)
    requires Effect(before, after, p, book) && p in products
    ensures Spreads(products, book, before, after)
  {
    hide ValidDb, Expected;
  }

  lemma EffectLeavesOthers(before: Db, after: Db, p: Product, q: Product, book: Id)
    requires Effect(before, after, p, book) && q.sku != p.sku && q.sku in before.products
    ensures PriceIn(after, q, book) == PriceIn(before, q, book)
  {
    hide ValidTaxa, ValidBooks, Expected;
    assert after.products[q.sku] == before.products[q.sku];
    assert !PriceKey(after, p, book, (book, after.products[q.sku].id));
  }

  /** One turn of the product loop. */
  lemma TurnMoves(env: Env, b: Batch, opt: RunOptions, ids: TaxonIds, book: Id, products: seq<Product>, i: nat)
    requires i < |products| && ValidDb(b.db) && book in b.db.books && SkusUnique(products)
    requires Trim(products[i].sku) == products[i].sku && Found(ids, b.db, products[i])
             && !Finished(b.cp, products[i].sku)
    ensures var p := products[i];
            var s := ImportOne(env, b.db, b.calls, opt, ids, book, p, ItemOf(b.cp, p.sku));
            var cp := b.cp[p.sku := s.item.(state := if s.ok then Verified else Failed)];
            Moves(products, opt.importPrices, book, b, Batch(s.db, s.calls, cp, cp, s.ok))
  {
    hide Lower, Trim, Found, ImportOne, ValidDb, Expected;
    var p := products[i];
    ImportOneEffect(env, b.db, b.calls, opt, ids, book, p, ItemOf(b.cp, p.sku));
    var s := ImportOne(env, b.db, b.calls, opt, ids, book, p, ItemOf(b.cp, p.sku));
    EffectSpreads(products, b.db, s.db, p, book);
    var cp := b.cp[p.sku := s.item.(state := if s.ok then Verified else Failed)];
    var r := Batch(s.db, s.calls, cp, cp, s.ok);
    forall q | q in products ensures Settled(opt.importPrices, book, b, r, q) {
      var j :| 0 <= j < |products| && products[j] == q;
      if q.sku != p.sku && q.sku in b.db.products {
        EffectLeavesOthers(b.db, s.db, p, q, book);
      }
    }
  }

  lemma NothingMoves(products: seq<Product>, charge: bool, book: Id, b: Batch)
    requires ValidDb(b.db)
    ensures Moves(products, charge, book, b, b)
  {
    hide ValidDb, Expected;
  }

  ghost predicate AllFound(ids: TaxonIds, db: Db, products: seq<Product>) {
    forall p <- products :: Trim(p.sku) == p.sku && Found(ids, db, p)
  }

  /** The product loop: what it does, and that it goes through only when every product is finished. */
  lemma {:induction false} AllMove(
    env: Env, b: Batch, opt: RunOptions, ids: TaxonIds, book: Id, products: seq<Product>, i: nat)
    requires i <= |products| && ValidDb(b.db) && book in b.db.books && SkusUnique(products)
             && AllFound(ids, b.db, products)
    requires b.ok && forall j :: 0 <= j < i ==> Finished(b.cp, products[j].sku)
    ensures var r := ImportAll(env, b, opt, ids, book, products, i);
            && Moves(products, opt.importPrices, book, b, r)
            && (r == b || r.saved == r.cp)
            && (r.ok ==> forall p <- products :: Finished(r.cp, p.sku))
    decreases |products| - i
  {
    hide Lower, Trim, Found, ImportOne, ValidDb, Settled, Spreads;
    NothingMoves(products, opt.importPrices, book, b);
    if i < |products| {
      var p := products[i];
      assert p in products;
      if Finished(b.cp, p.sku) {
        AllMove(env, b, opt, ids, book, products, i + 1);
      } else {
        TurnMoves(env, b, opt, ids, book, products, i);
        var s := ImportOne(env, b.db, b.calls, opt, ids, book, p, ItemOf(b.cp, p.sku));
        var cp := b.cp[p.sku := s.item.(state := if s.ok then Verified else Failed)];
        var next := Batch(s.db, s.calls, cp, cp, s.ok);
        StillReady(ids, products, opt.importPrices, book, b, next);
        if s.ok {
          forall j | 0 <= j < i + 1 ensures Finished(next.cp, products[j].sku) {}
          AllMove(env, next, opt, ids, book, products, i + 1);
          MovesTransitive(products, opt.importPrices, book, b, next,
                          ImportAll(env, next, opt, ids, book, products, i + 1));
        }
      }
    }
  }

  lemma StillReady(ids: TaxonIds, products: seq<Product>, charge: bool, book: Id, b: Batch, next: Batch)
    requires Moves(products, charge, book, b, next) && book in b.db.books && AllFound(ids, b.db, products)
    ensures ValidDb(next.db) && book in next.db.books && AllFound(ids, next.db, products)
  {
    hide Lower, Trim, Found, ValidDb, Expected, Settled;
    forall p | p in products ensures Found(ids, next.db, p) {
      FoundStays(ids, b.db, next.db, p);
    }
  }
}
