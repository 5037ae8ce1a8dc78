/** Resumed runs converge: wherever earlier runs stopped, a run that returns without error leaves the catalog that
    the manifest describes; and exactly when their prices are the effective ones. */
module CatalogConvergence {
  import opened Options
  import opened Text
  import opened CatalogManifest
  import opened CatalogDatabase
  import opened TaxonomyImport
  import opened CatalogImport
  import opened CatalogResume
  import opened CatalogRuns

  /// The invariant

  ghost predicate Described(db: Db, products: seq<Product>) {
    forall p <- products :: p.sku in db.products ==> Expected(db, p, db.products[p.sku])
  }

  /** Every finished product is stored and, if prices are imported, priced in some default book. */
  ghost predicate Backed(cp: Checkpoint, db: Db, products: seq<Product>, charge: bool) {
    forall p <- products :: Finished(cp, p.sku) ==>
      p.sku in db.products && (charge ==> exists b <- db.books :: Priced(db, p, b))
  }

  ghost predicate Kept(cp: Checkpoint, db: Db, products: seq<Product>, charge: bool) {
    ValidDb(db) && Described(db, products) && Backed(cp, db, products, charge)
  }

  /** The price in the default book that takes effect last. */
  function EffectivePrice(db: Db, p: Product): Option<int> {
    if db.books == [] then None else PriceIn(db, p, db.books[|db.books| - 1])
  }

  ghost predicate Current(cp: Checkpoint, db: Db, products: seq<Product>) {
    forall p <- products :: Finished(cp, p.sku) ==> EffectivePrice(db, p) == Some(p.price)
  }

  ghost predicate AnyFinished(cp: Checkpoint, products: seq<Product>) {
    exists p <- products :: Finished(cp, p.sku)
  }

  /// The phases of a run

  lemma TaxonomyPhase(cp: Checkpoint, before: Db, after: Db, products: seq<Product>, charge: bool)
    requires Kept(cp, before, products, charge) && TaxaGrow(before, after)
    ensures Kept(cp, after, products, charge)
    ensures Current(cp, after, products) <==> Current(cp, before, products)
  {
    hide Expected, Finished, ValidTaxa;
    forall p | p in products && p.sku in after.products ensures Expected(after, p, after.products[p.sku]) {
      ExpectedStays(before, after, p, before.products[p.sku]);
    }
    assert forall p <- products :: EffectivePrice(after, p) == EffectivePrice(before, p);
    assert forall p <- products, b <- before.books :: Priced(after, p, b) == Priced(before, p, b);
  }

  /** Either the newest book is used as it is, or a newer one is created, in which nothing has a price. */
  ghost predicate BookReady(before: Db, after: Db, book: Id, products: seq<Product>) {
    && after == before.(books := after.books, nextId := after.nextId)
    && (after.books == before.books || (|after.books| == |before.books| + 1 && before.books <= after.books))
    && (book != 0 ==> after.books != [] && after.books[|after.books| - 1] == book)
    && (after.books != before.books ==> forall p <- products :: EffectivePrice(after, p) == None)
  }

  lemma BookPhase(env: Env, cp: Checkpoint, db: Db, calls: nat, products: seq<Product>, charge: bool)
    requires Kept(cp, db, products, charge)
    ensures var (db', n, book) := EnsurePriceBook(env, db, calls);
            Kept(cp, db', products, charge) && BookReady(db, db', book, products) && calls <= n
  {
    hide Finished, ValidTaxa, Expected;
    var (db', n, book) := EnsurePriceBook(env, db, calls);
    if db' != db {
      TaxaStayValid(db, db');
      assert db'.books[|db'.books| - 1] == db.nextId && db.nextId !in db.books;
      assert forall b <- db.books :: b in db'.books;
      forall p | p in products && p.sku in db'.products ensures Expected(db', p, db'.products[p.sku]) {
        ExpectedStays(db, db', p, db.products[p.sku]);
      }
    } else if book != 0 {
      assert book == db.books[|db.books| - 1];
    }
  }

  lemma ProductPhase(cp: Checkpoint, products: seq<Product>, charge: bool, book: Id, b: Batch, r: Batch)
    requires Kept(b.cp, b.db, products, charge) && Moves(products, charge, book, b, r) && SkusUnique(products)
    requires b.db.books != [] && b.db.books[|b.db.books| - 1] == book
    ensures Kept(r.cp, r.db, products, charge)
    ensures charge ==> (Current(r.cp, r.db, products) <==> Current(b.cp, b.db, products))
  {
    hide Finished, ValidDb, PriceIn;
    DescribedAfter(products, book, b.db, r.db);
    hide Expected, Described;
    forall p | p in products && Finished(r.cp, p.sku)
      ensures p.sku in r.db.products && (charge ==> exists k <- r.db.books :: Priced(r.db, p, k))
    {
      assert Settled(charge, book, b, r, p);
      assert book in r.db.books;
      if charge && Finished(b.cp, p.sku) {
        var k :| k in b.db.books && Priced(b.db, p, k);
        if k != book {
          OtherBookKeepsPrice(products, book, b.db, r.db, p, k);
        }
        assert Priced(r.db, p, k);
      }
    }
    if charge {
      forall p | p in products
        ensures Finished(b.cp, p.sku) ==> EffectivePrice(r.db, p) == EffectivePrice(b.db, p) && Finished(r.cp, p.sku)
        ensures Finished(r.cp, p.sku) && !Finished(b.cp, p.sku) ==> EffectivePrice(r.db, p) == Some(p.price)
      {
        assert Settled(charge, book, b, r, p);
      }
    }
  }

  lemma DescribedAfter(products: seq<Product>, book: Id, before: Db, after: Db)
    requires Described(before, products) && Spreads(products, book, before, after) && SkusUnique(products)
    ensures Described(after, products)
  {
    hide Expected, ValidDb;
    forall p | p in products && p.sku in after.products ensures Expected(after, p, after.products[p.sku]) {
      if p.sku in before.products {
        ExpectedStays(before, after, p, before.products[p.sku]);
      } else {
        var q :| q in products && q.sku == p.sku && Expected(after, q, after.products[p.sku]);
        assert q == p;
      }
    }
  }

  lemma OtherBookKeepsPrice(products: seq<Product>, book: Id, before: Db, after: Db, p: Product, k: Id)
    requires Spreads(products, book, before, after) && k != book && p.sku in before.products
    ensures PriceIn(after, p, k) == PriceIn(before, p, k)
  {
    hide ValidDb, Expected;
  }

  /// One run

  /** The manifest passes validation and its slugs are normalized; the run is a resumed one. */
  ghost predicate Resumable(m: Manifest, opt: RunOptions) {
    Issues(Some(m)) == [] && Normalized(m) && opt.resume
  }

  /** What one run has done between two database states, whether or not it ended well. */
  ghost predicate Progressed(before: Db, after: Db, products: seq<Product>) {
    && Grows(before.products, after.products) && before.books <= after.books
    && (forall k <- after.products :: k in before.products || exists p <- products :: p.sku == k)
  }

  ghost predicate OutdatesPrices(w: World, w': World, products: seq<Product>) {
    w'.db.books != w.db.books && AnyFinished(w.saved, products)
  }

  /** The guard of the failing branch, on what the run starts from and what its calls reply: some product is already
      finished, the run gets as far as the default price book, looking it up errs (or there is none), and creating
      one succeeds. */
  ghost predicate Strands(env: Env, w: World, m: Manifest, opt: RunOptions) {
    && AnyFinished(w.saved, m.products) && !opt.dryRun && !env.fails(w.calls)
    && var (db, n, ids) := ObtainTaxonIds(env, w.db, w.calls + 1, m.taxonomy, opt.importTaxonomy);
       ids.Some? && (env.fails(n) || db.books == []) && !env.fails(n + 1)
  }

  lemma UniqueSkus(m: Manifest)
    requires Issues(Some(m)) == []
    ensures SkusUnique(m.products)
  {
    hide Issues;
    ValidationIsExact(m);
  }

  lemma AllLookupsSucceed(m: Manifest, ids: TaxonIds, db: Db)
    requires Issues(Some(m)) == [] && Normalized(m) && ValidTaxa(db) && IdsUsable(ids, db, m.taxonomy)
    ensures AllFound(ids, db, m.products)
  {
    hide Issues, Found, IdsUsable, ValidTaxa, Lower, Trim;
    forall p | p in m.products ensures Trim(p.sku) == p.sku && Found(ids, db, p) {
      ValidatedLookupsSucceed(m, ids, db, p);
    }
  }

  ghost predicate RunDone(w: World, w': World, ok: bool, m: Manifest, opt: RunOptions) {
    && Kept(w'.saved, w'.db, m.products, opt.importPrices)
    && Progressed(w.db, w'.db, m.products)
    && (ok && opt.importProducts ==> forall p <- m.products :: Finished(w'.saved, p.sku))
    && (opt.importPrices ==>
          (Current(w'.saved, w'.db, m.products)
           <==> Current(w.saved, w.db, m.products) && !OutdatesPrices(w, w', m.products)))
  }

  lemma NewBookStrands(cp: Checkpoint, before: Db, after: Db, book: Id, products: seq<Product>)
    requires BookReady(before, after, book, products)
    ensures Current(cp, after, products) <==>
            Current(cp, before, products) && !(after.books != before.books && AnyFinished(cp, products))
  {
    hide Finished;
    assert forall p <- products ::
             after.books == before.books ==> EffectivePrice(after, p) == EffectivePrice(before, p);
  }

  lemma ProductsImported(env: Env, w: World, m: Manifest, opt: RunOptions, ids: TaxonIds)
    requires Resumable(m, opt) && Kept(w.saved, w.db, m.products, opt.importPrices) && IdsUsable(ids, w.db, m.taxonomy)
    ensures var (w', ok) := ImportProducts(env, w, m, opt, w.saved, ids);
            RunDone(w, w', ok, m, opt)
  {
    hide Issues, Normalized, IdsUsable, Described, Backed, ValidTaxa, ValidProducts, ValidBooks, EnsurePriceBook,
      ImportAll, Finished, Found, Expected;
    var products, charge := m.products, opt.importPrices;
    UniqueSkus(m);
    BookPhase(env, w.saved, w.db, w.calls, products, charge);
    var (db2, n2, book) := EnsurePriceBook(env, w.db, w.calls);
    NewBookStrands(w.saved, w.db, db2, book, products);
    if book != 0 {
      UsableAfterBook(m, ids, w.db, db2);
      AllLookupsSucceed(m, ids, db2);
      var start := Batch(db2, n2, w.saved, w.saved, true);
      if opt.importProducts {
        AllMove(env, start, opt, ids, book, products, 0);
        var b := ImportAll(env, start, opt, ids, book, products, 0);
        ProductPhase(w.saved, products, charge, book, start, b);
        assert Spreads(products, book, db2, b.db);
      }
    }
  }

  lemma UsableAfterBook(m: Manifest, ids: TaxonIds, before: Db, after: Db)
    requires IdsUsable(ids, before, m.taxonomy)
    requires after == before.(books := after.books, nextId := after.nextId)
    ensures IdsUsable(ids, after, m.taxonomy)
  {
    hide Agrees;
  }

  lemma RunAfterTaxonomy(w: World, w1: World, w': World, ok: bool, m: Manifest, opt: RunOptions)
    requires TaxaGrow(w.db, w1.db) && w1.saved == w.saved && RunDone(w1, w', ok, m, opt)
    requires opt.importPrices ==> (Current(w.saved, w1.db, m.products) <==> Current(w.saved, w.db, m.products))
    ensures RunDone(w, w', ok, m, opt)
  {
    hide Kept, ValidTaxa, Finished, Current;
  }

  lemma NothingDone(w: World, calls: nat, m: Manifest, opt: RunOptions)
    requires Kept(w.saved, w.db, m.products, opt.importPrices)
    ensures RunDone(w, w.(calls := calls), false, m, opt)
  {
    hide Kept, Finished, EffectivePrice;
  }

  /** The invariant of resumed runs: every run keeps it, error or not. */
  lemma RunKeepsInvariant(env: Env, w: World, m: Manifest, opt: RunOptions)
    requires Resumable(m, opt) && Kept(w.saved, w.db, m.products, opt.importPrices)
    ensures var (w', ok) := Run(env, w, m, opt);
            RunDone(w, w', ok && !opt.dryRun, m, opt)
  {
    hide Issues, Normalized, Kept, ObtainTaxonIds, ImportProducts, Current, IdsUsable;
    NothingDone(w, w.calls + 1, m, opt);
    if !opt.dryRun && !env.fails(w.calls) {
      var start := w.(calls := w.calls + 1);
      assert ValidTaxa(w.db) by { KeptIsValid(w, m, opt); }
      TaxonIdsObtained(env, w.db, start.calls, m, opt.importTaxonomy);
      var (db1, n1, ids) := ObtainTaxonIds(env, w.db, start.calls, m.taxonomy, opt.importTaxonomy);
      TaxonomyPhase(w.saved, w.db, db1, m.products, opt.importPrices);
      var w1 := World(db1, w.saved, n1);
      if ids.Some? {
        ProductsImported(env, w1, m, opt, ids.value);
        var (w', ok) := ImportProducts(env, w1, m, opt, w.saved, ids.value);
        RunAfterTaxonomy(w, w1, w', ok, m, opt);
      } else {
        NothingDone(w1, n1, m, opt);
        RunAfterTaxonomy(w, w1, w1, false, m, opt);
      }
    }
  }

  /** A run outdates prices exactly when it starts from, and meets, the guard. */
  lemma StrandsIff(env: Env, w: World, m: Manifest, opt: RunOptions)
    requires Resumable(m, opt) && Kept(w.saved, w.db, m.products, opt.importPrices)
    ensures Strands(env, w, m, opt) <==> OutdatesPrices(w, Run(env, w, m, opt).0, m.products)
  {
    hide Issues, Normalized, ObtainTaxonIds, EnsurePriceBook, ImportProducts, IdsUsable, AnyFinished, Described, Backed,
         ValidProducts, ValidBooks;
    TaxonIdsObtained(env, w.db, w.calls + 1, m, opt.importTaxonomy);
    var (db, n, ids) := ObtainTaxonIds(env, w.db, w.calls + 1, m.taxonomy, opt.importTaxonomy);
    if ids.Some? {
      TaxonomyPhase(w.saved, w.db, db, m.products, opt.importPrices);
      BooksAfterProducts(env, World(db, w.saved, n), m, opt, ids.value);
      BookCreatedIff(env, db, n);
    }
  }

  lemma BooksAfterProducts(env: Env, w: World, m: Manifest, opt: RunOptions, ids: TaxonIds)
    requires Resumable(m, opt) && Kept(w.saved, w.db, m.products, opt.importPrices) && IdsUsable(ids, w.db, m.taxonomy)
    ensures ImportProducts(env, w, m, opt, w.saved, ids).0.db.books == EnsurePriceBook(env, w.db, w.calls).0.books
  {
    hide Issues, Normalized, IdsUsable, Described, Backed, ValidTaxa, ValidProducts, ValidBooks, EnsurePriceBook,
         ImportAll, Finished, Found, Expected;
    UniqueSkus(m);
    BookPhase(env, w.saved, w.db, w.calls, m.products, opt.importPrices);
    var (db, n, book) := EnsurePriceBook(env, w.db, w.calls);
    if book != 0 {
      UsableAfterBook(m, ids, w.db, db);
      AllLookupsSucceed(m, ids, db);
      AllMove(env, Batch(db, n, w.saved, w.saved, true), opt, ids, book, m.products, 0);
    }
  }

  lemma BookCreatedIff(env: Env, db: Db, calls: nat)
    ensures EnsurePriceBook(env, db, calls).0.books != db.books
            <==> (env.fails(calls) || db.books == []) && !env.fails(calls + 1)
  {
    assert |db.books + [db.nextId]| == |db.books| + 1;
  }

  lemma KeptIsValid(w: World, m: Manifest, opt: RunOptions)
    requires Kept(w.saved, w.db, m.products, opt.importPrices)
    ensures ValidTaxa(w.db)
  {
  }

  /// Any number of runs

  /** No product of the manifest is stored yet, and there is no checkpoint. */
  ghost predicate FreshStart(w: World, m: Manifest) {
    ValidDb(w.db) && w.saved == map[] && forall p <- m.products :: p.sku !in w.db.products
  }

  ghost predicate NeverStranded(env: Env, w: World, m: Manifest, opt: RunOptions, n: nat) {
    forall i: nat :: i < n ==> !Strands(env, Runs(env, w, m, opt, i), m, opt)
  }

  /** In every reachable state a finished product is stored and priced, every stored one is as described, and
      nothing else was added or changed. */
  lemma {:induction false} RunsKeepInvariant(env: Env, w: World, m: Manifest, opt: RunOptions, n: nat)
    requires Resumable(m, opt) && FreshStart(w, m)
    ensures var r := Runs(env, w, m, opt, n);
            && Kept(r.saved, r.db, m.products, opt.importPrices)
            && Progressed(w.db, r.db, m.products)
            && (opt.importPrices ==> (Current(r.saved, r.db, m.products) <==> NeverStranded(env, w, m, opt, n)))
  {
    hide Issues, Normalized, Run, ValidDb, Expected, EffectivePrice, Strands;
    if n > 0 {
      RunsKeepInvariant(env, w, m, opt, n - 1);
      hide Kept, Current, AnyFinished;
      RunKeepsInvariant(env, Runs(env, w, m, opt, n - 1), m, opt);
      StrandsIff(env, Runs(env, w, m, opt, n - 1), m, opt);
    }
  }

  /// Convergence

  /** A catalog entry by slugs, free of ids. */
  datatype Entry = Entry(
    name: string, description: string, active: bool, categories: set<string>, brands: set<string>, tags: set<string>)

  function SlugsOf(table: Table, ids: set<Id>): set<string> {
    set k <- table | table[k].id in ids
  }

  function OptionalId(o: Option<Id>): set<Id> {
    if o.Some? then {o.value} else {}
  }

  function EntryOf(db: Db, row: ProductRow): Entry {
    Entry(row.name, row.description, row.active, SlugsOf(db.categories, OptionalId(row.category)),
          SlugsOf(db.brands, OptionalId(row.brand)), SlugsOf(db.tags, row.tags))
  }

  function EntryAt(db: Db, sku: string): Option<Entry> {
    if sku in db.products then Some(EntryOf(db, db.products[sku])) else None
  }

  /** What the manifest says the entry should be. */
  function Planned(p: Product): Entry {
    Entry(Trim(p.name), if p.description == "" then Trim(p.name) else Trim(p.description), p.active,
          {Lower(p.category)},
          if p.brand.Some? && Trim(p.brand.value) != "" then {Lower(Trim(p.brand.value))} else {},
          set g <- p.tags :: Lower(g))
  }

  lemma SlugOfRow(table: Table, nextId: Id, k: string)
    requires ValidTable(table, nextId) && k in table
    ensures SlugsOf(table, {table[k].id}) == {k}
  {
    hide Lower;
  }

  lemma ExpectedMeansPlanned(db: Db, p: Product, row: ProductRow)
    requires ValidTaxa(db) && Expected(db, p, row)
    ensures EntryOf(db, row) == Planned(p)
  {
    hide Lower, Trim;
    SlugOfRow(db.categories, db.nextId, Lower(p.category));
    if row.brand.Some? {
      SlugOfRow(db.brands, db.nextId, Lower(Trim(p.brand.value)));
    } else {
      assert SlugsOf(db.brands, {}) == {};
    }
    TagSlugs(db, p, row.tags);
  }

  lemma TagSlugs(db: Db, p: Product, ids: set<Id>)
    requires ValidTaxa(db) && forall g <- p.tags :: Lower(g) in db.tags
    requires ids == set g <- p.tags | Lower(g) in db.tags :: db.tags[Lower(g)].id
    ensures SlugsOf(db.tags, ids) == set g <- p.tags :: Lower(g)
  {
    hide Lower;
    forall k | k in SlugsOf(db.tags, ids) ensures exists g <- p.tags :: Lower(g) == k {
      var g :| g in p.tags && db.tags[Lower(g)].id == db.tags[k].id;
    }
    forall g | g in p.tags ensures Lower(g) in SlugsOf(db.tags, ids) {
      assert db.tags[Lower(g)].id in ids;
    }
  }

  /** The catalog is the original one plus exactly the manifest's products, as planned. */
  ghost predicate Imported(before: Db, after: Db, m: Manifest, charge: bool) {
    && Grows(before.products, after.products)
    && after.products.Keys == before.products.Keys + (set p <- m.products :: p.sku)
    && forall p <- m.products ::
         EntryAt(after, p.sku) == Some(Planned(p)) && (charge ==> exists b <- after.books :: Priced(after, p, b))
  }

  /** Whatever the first `n` runs did, a further one that returns no error has imported the manifest. */
  lemma SuccessImportsManifest(env: Env, w: World, m: Manifest, opt: RunOptions, n: nat)
    requires Resumable(m, opt) && FreshStart(w, m) && opt.importProducts && !opt.dryRun
    ensures Run(env, Runs(env, w, m, opt, n), m, opt).1 ==>
              var r := Runs(env, w, m, opt, n + 1);
              Imported(w.db, r.db, m, opt.importPrices) && forall p <- m.products :: Finished(r.saved, p.sku)
  {
    hide Issues, Normalized, Run, Expected, Current, Strands, Finished, EntryOf, Planned, ValidTaxa, ValidProducts,
         ValidBooks, NeverStranded;
    RunsKeepInvariant(env, w, m, opt, n);
    RunsKeepInvariant(env, w, m, opt, n + 1);
    RunKeepsInvariant(env, Runs(env, w, m, opt, n), m, opt);
    var r := Runs(env, w, m, opt, n + 1);
    forall p | p in m.products && p.sku in r.db.products ensures EntryOf(r.db, r.db.products[p.sku]) == Planned(p) {
      ExpectedMeansPlanned(r.db, p, r.db.products[p.sku]);
    }
  }

  /** Resume convergence: however often and wherever the runs of two histories failed, once each has a run without
      error they agree on every product of the manifest; with `n == 0` one of them is a single uninterrupted run. */
  lemma ResumeConverges(env: Env, n: nat, env': Env, n': nat, w: World, m: Manifest, opt: RunOptions)
    requires Resumable(m, opt) && FreshStart(w, m) && opt.importProducts && !opt.dryRun
    ensures Run(env, Runs(env, w, m, opt, n), m, opt).1 && Run(env', Runs(env', w, m, opt, n'), m, opt).1 ==>
              var r, r' := Runs(env, w, m, opt, n + 1), Runs(env', w, m, opt, n' + 1);
              && r.db.products.Keys == r'.db.products.Keys
              && (forall p <- m.products :: EntryAt(r.db, p.sku) == EntryAt(r'.db, p.sku) == Some(Planned(p)))
              && (opt.importPrices ==>
                    forall p <- m.products ::
                      (exists b <- r.db.books :: Priced(r.db, p, b)) && exists b <- r'.db.books :: Priced(r'.db, p, b))
              && (opt.importPrices && NeverStranded(env, w, m, opt, n + 1) && NeverStranded(env', w, m, opt, n' + 1) ==>
                    forall p <- m.products :: EffectivePrice(r.db, p) == EffectivePrice(r'.db, p) == Some(p.price))
  {
    hide Resumable, Run, Runs, FreshStart, Finished, EntryAt, Planned, Priced, Grows, EffectivePrice, NeverStranded;
    SuccessImportsManifest(env, w, m, opt, n);
    SuccessImportsManifest(env', w, m, opt, n');
    if opt.importPrices {
      EffectivePricesIff(env, w, m, opt, n);
      EffectivePricesIff(env', w, m, opt, n');
    }
  }

  /** The imported prices are the effective ones exactly when no run met the guard above: such a run creates a newer
      default book and skips the finished products. */
  lemma EffectivePricesIff(env: Env, w: World, m: Manifest, opt: RunOptions, n: nat)
    requires Resumable(m, opt) && FreshStart(w, m) && opt.importProducts && opt.importPrices && !opt.dryRun
    ensures Run(env, Runs(env, w, m, opt, n), m, opt).1 ==>
              ((forall p <- m.products :: EffectivePrice(Runs(env, w, m, opt, n + 1).db, p) == Some(p.price))
               <==> NeverStranded(env, w, m, opt, n + 1))
  {
    hide Resumable, Run, Runs, FreshStart, Finished, Kept, Progressed, Imported, EffectivePrice, NeverStranded;
    SuccessImportsManifest(env, w, m, opt, n);
    RunsKeepInvariant(env, w, m, opt, n + 1);
  }

  /** A single uninterrupted run sets the effective prices. */
  lemma UninterruptedRunSetsPrices(env: Env, w: World, m: Manifest, opt: RunOptions)
    requires Resumable(m, opt) && FreshStart(w, m) && opt.importProducts && opt.importPrices && !opt.dryRun
    ensures Run(env, w, m, opt).1
            ==> forall p <- m.products :: EffectivePrice(Run(env, w, m, opt).0.db, p) == Some(p.price)
  {
    hide Resumable, Run, EffectivePrice;
    assert Runs(env, w, m, opt, 0) == w && Runs(env, w, m, opt, 1) == Run(env, w, m, opt).0;
    EffectivePricesIff(env, w, m, opt, 0);
  }
}
