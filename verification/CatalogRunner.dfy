/** The import as the program runs it: loops over the manifest that call the database and update it, the id maps
    and the checkpoint in place. Every method is proved equal to the function that specifies it. */
module CatalogRunner {
  import opened Options
  import opened Text
  import opened CatalogManifest
  import opened CatalogDatabase
  import Spec = TaxonomyImport
  import opened CatalogImport

  datatype Kind = Category | Brand | Tag

  function TableOf(db: Db, kind: Kind): Table {
    match kind
    case Category => db.categories
    case Brand => db.brands
    case Tag => db.tags
  }

  function WithTable(db: Db, kind: Kind, table: Table, nextId: Id): Db {
    match kind
    case Category => db.(categories := table, nextId := nextId)
    case Brand => db.(brands := table, nextId := nextId)
    case Tag => db.(tags := table, nextId := nextId)
  }

  class Runner {
    const env: Env
    var db: Db
    var saved: Checkpoint
    var calls: nat

    constructor (env: Env, w: World)
      ensures this.env == env && World(db, saved, calls) == w
    {
      this.env := env;
      db, saved, calls := w.db, w.saved, w.calls;
    }

    ghost function Now(): World
      reads this
    {
      World(db, saved, calls)
    }

    /** Where a taxonomy loop over `kind` stands. */
    ghost function Here(kind: Kind, ids: map<string, Id>, ok: bool): Spec.Progress
      reads this
    {
      Spec.Progress(TableOf(db, kind), db.nextId, calls, ids, ok)
    }

    method Call() returns (failed: bool)
      modifies `calls
      ensures calls == old(calls) + 1 && failed == env.fails(old(calls))
    {
      failed := env.fails(calls);
      calls := calls + 1;
    }

    /// Taxonomy

    method Create(kind: Kind, slug: string, name: string, parent: Id) returns (creation: Creation)
      modifies this
      ensures var (table, nextId, c) := CreateRow(env.fails(old(calls)), TableOf(old(db), kind), old(db).nextId, slug,
                                                  name, parent);
              creation == c && Now() == World(WithTable(old(db), kind, table, nextId), old(saved), old(calls) + 1)
    {
      var failed := Call();
      var (table, nextId, c) := CreateRow(failed, TableOf(db, kind), db.nextId, slug, name, parent);
      db, creation := WithTable(db, kind, table, nextId), c;
    }

    method Lookup(kind: Kind, slug: string) returns (id: Option<Id>)
      modifies `calls
      ensures id == LookupRow(env.fails(old(calls)), TableOf(db, kind), slug) && calls == old(calls) + 1
    {
      var failed := Call();
      id := LookupRow(failed, TableOf(db, kind), slug);
    }

    method Ensure(kind: Kind, slug: string, name: string, parent: Id, ghost ids: map<string, Id>)
      returns (id: Option<Id>)
      modifies this
      ensures var (p, r) := Spec.EnsureRow(env, old(Here(kind, ids, true)), slug, name, parent);
              && id == r && Here(kind, ids, true) == p && saved == old(saved)
              && db == WithTable(old(db), kind, TableOf(db, kind), db.nextId)
    {
      hide CreateRow, LookupRow;
      var creation := Create(kind, slug, name, parent);
      match creation
      case Created(i) => id := Some(i);
      case DuplicateSlug => id := Lookup(kind, slug);
      case Refused => id := None;
    }

    method ImportCategories(list: seq<CategoryEntry>, dryRun: bool) returns (ids: map<string, Id>, ok: bool)
      modifies this
      ensures var q := Spec.ImportCategories(env, old(db), old(calls), list, dryRun);
              && Now() == World(old(db).(categories := q.table, nextId := q.nextId), old(saved), q.calls)
              && ok == q.ok && (ok ==> ids == q.ids)
    {
      hide Trim, Lower, Spec.IsRoot, Spec.EnsureRow;
      ids := map[];
      ghost var start := Here(Category, ids, true);
      for i := 0 to |list|
        invariant saved == old(saved) && db == WithTable(old(db), Category, db.categories, db.nextId)
        invariant Spec.ImportRoots(env, Here(Category, ids, true), list, i, dryRun)
                  == Spec.ImportRoots(env, start, list, 0, dryRun)
      {
        var c, slug := list[i], Trim(list[i].slug);
        if !Spec.IsRoot(c) || slug == "" {
          continue;
        }
        if dryRun {
          ids := ids[slug := 0];
          continue;
        }
        var id := Ensure(Category, slug, c.name, 0, ids);
        if id.None? {
          Spec.StoppedStaysStopped(env, Here(Category, ids, false), list);
          return ids, false;
        }
        ids := ids[slug := id.value];
      }
      ghost var roots := Here(Category, ids, true);
      for i := 0 to |list|
        invariant saved == old(saved) && db == WithTable(old(db), Category, db.categories, db.nextId)
        invariant Spec.ImportChildren(env, Here(Category, ids, true), list, i, dryRun)
                  == Spec.ImportChildren(env, roots, list, 0, dryRun)
      {
        var c, slug := list[i], Trim(list[i].slug);
        if Spec.IsRoot(c) {
          continue;
        }
        if dryRun {
          ids := ids[slug := 0];
          continue;
        }
        RootsHaveNoParent(c);
        var parent := FindParent(Trim(c.parent.value), ids);
        if parent.None? {
          return ids, false;
        }
        var id := Ensure(Category, slug, c.name, parent.value, ids);
        if id.None? {
          return ids, false;
        }
        ids := ids[slug := id.value];
      }
      ok := true;
    }

    static lemma RootsHaveNoParent(c: CategoryEntry)
      ensures !Spec.IsRoot(c) ==> c.parent.Some?
    {
    }

    method FindParent(slug: string, ids: map<string, Id>) returns (id: Option<Id>)
      modifies `calls
      ensures var (p, r) := Spec.ParentId(env, old(Here(Category, ids, true)), slug);
              id == r && Here(Category, ids, true) == p
    {
      hide LookupRow;
      if slug in ids && ids[slug] != 0 {
        return Some(ids[slug]);
      }
      id := Lookup(Category, slug);
    }

    method ImportFlat(kind: Kind, list: seq<TaxonEntry>, dryRun: bool) returns (ids: map<string, Id>, ok: bool)
      modifies this
      ensures var q := Spec.ImportFlat(env, old(Here(kind, map[], true)), list, 0, dryRun);
              && Now() == World(WithTable(old(db), kind, q.table, q.nextId), old(saved), q.calls)
              && ok == q.ok && (ok ==> ids == q.ids)
    {
      hide Trim, Lower, Spec.EnsureRow;
      ids := map[];
      ghost var start := Here(kind, ids, true);
      for i := 0 to |list|
        invariant saved == old(saved) && db == WithTable(old(db), kind, TableOf(db, kind), db.nextId)
        invariant Spec.ImportFlat(env, Here(kind, ids, true), list, i, dryRun)
                  == Spec.ImportFlat(env, start, list, 0, dryRun)
      {
        var t, slug := list[i], Trim(list[i].slug);
        if slug == "" {
          continue;
        }
        if dryRun {
          ids := ids[slug := 0];
          continue;
        }
        var id := Ensure(kind, slug, t.name, 0, ids);
        if id.None? {
          return ids, false;
        }
        ids := ids[slug := id.value];
      }
      ok := true;
    }

    method ImportTaxonomy(t: Taxonomy, dryRun: bool) returns (ids: Option<Spec.TaxonIds>)
      modifies this
      ensures var (db', n, r) := Spec.ImportTaxonomy(env, old(db), old(calls), t, dryRun);
              ids == r && Now() == World(db', old(saved), n)
    {
      hide Spec.ImportCategories, Spec.ImportFlat;
      var cats, ok := ImportCategories(t.categories, dryRun);
      if !ok {
        return None;
      }
      var brands, tags;
      brands, ok := ImportFlat(Brand, t.brands, dryRun);
      if !ok {
        return None;
      }
      tags, ok := ImportFlat(Tag, t.tags, dryRun);
      if !ok {
        return None;
      }
      return Some(Spec.TaxonIds(cats, brands, tags));
    }

    method LookupAll(kind: Kind, slugs: seq<string>) returns (ids: map<string, Id>, ok: bool)
      modifies `calls
      ensures var (n, r) := CatalogImport.LookupAll(env, old(calls), TableOf(db, kind), slugs, 0, map[]);
              calls == n && (if ok then r == Some(ids) else r == None)
    {
      hide LookupRow;
      ids := map[];
      for i := 0 to |slugs|
        invariant CatalogImport.LookupAll(env, calls, TableOf(db, kind), slugs, i, ids)
                  == CatalogImport.LookupAll(env, old(calls), TableOf(db, kind), slugs, 0, map[])
      {
        var id := Lookup(kind, slugs[i]);
        if id.None? {
          return ids, false;
        }
        ids := ids[slugs[i] := id.value];
      }
      ok := true;
    }

    method ObtainTaxonIds(t: Taxonomy, create: bool) returns (ids: Option<Spec.TaxonIds>)
      modifies this
      ensures var (db', n, r) := CatalogImport.ObtainTaxonIds(env, old(db), old(calls), t, create);
              ids == r && Now() == World(db', old(saved), n)
    {
      hide Spec.ImportTaxonomy, CatalogImport.LookupAll;
      if create {
        ids := ImportTaxonomy(t, false);
        return;
      }
      var cats, ok := LookupAll(Category, CategorySlugs(t.categories));
      if !ok {
        return None;
      }
      var brands, tags;
      brands, ok := LookupAll(Brand, TaxonSlugs(t.brands));
      if !ok {
        return None;
      }
      tags, ok := LookupAll(Tag, TaxonSlugs(t.tags));
      if !ok {
        return None;
      }
      return Some(Spec.TaxonIds(cats, brands, tags));
    }

    /// Price book, products

    method EnsurePriceBook() returns (book: Id)
      modifies this
      ensures var (db', n, b) := CatalogImport.EnsurePriceBook(env, old(db), old(calls));
              book == b && Now() == World(db', old(saved), n)
    {
      var failed := Call();
      if !failed && db.books != [] {
        return db.books[|db.books| - 1];
      }
      failed := Call();
      if failed {
        return 0;
      }
      book := db.nextId;
      db := db.(books := db.books + [book], nextId := db.nextId + 1);
    }

    method UploadImage(p: Product) returns (id: Id, publicId: string)
      modifies this
      ensures var (db', i) := InsertMedia(env.fails(old(calls)), old(db), p.sku, env.providerId(old(calls)));
              id == i && publicId == env.providerId(old(calls)) && Now() == World(db', old(saved), old(calls) + 1)
    {
      hide FindMedia;
      publicId := env.providerId(calls);
      var failed := Call();
      var db', i := InsertMedia(failed, db, p.sku, publicId).0, InsertMedia(failed, db, p.sku, publicId).1;
      db, id := db', i;
    }

    method UpsertItem(book: Id, product: Id, price: int) returns (ok: bool)
      modifies this
      ensures var (db', r) := UpsertPrice(env.fails(old(calls)), old(db), book, product, price);
              ok == r && Now() == World(db', old(saved), old(calls) + 1)
    {
      var failed := Call();
      var (db', r) := UpsertPrice(failed, db, book, product, price);
      db, ok := db', r;
    }

    method CreateProductRow(p: Product, ids: Spec.TaxonIds, media: Id) returns (id: Id)
      modifies this
      ensures var (db', i) := InsertProduct(env.fails(old(calls)), old(db), p, IdAt(ids.categories, p.category),
                                            BrandOf(p, ids), TagsOf(p, ids), media);
              id == i && Now() == World(db', old(saved), old(calls) + 1)
    {
      hide Trim, Describe;
      var brand: Option<Id> := None;
      if p.brand.Some? && Trim(p.brand.value) != "" {
        brand := IdAt(ids.brands, Trim(p.brand.value));
      }
      var tags: set<Id> := {};
      for i := 0 to |p.tags|
        invariant tags == set g <- p.tags[..i] | g in ids.tags && ids.tags[g] != 0 :: ids.tags[g]
      {
        assert p.tags[..i + 1] == p.tags[..i] + [p.tags[i]];
        if p.tags[i] in ids.tags && ids.tags[p.tags[i]] != 0 {
          tags := tags + {ids.tags[p.tags[i]]};
        }
      }
      assert p.tags[..|p.tags|] == p.tags;
      var failed := Call();
      var (db', i) := InsertProduct(failed, db, p, IdAt(ids.categories, p.category), brand, tags, media);
      db, id := db', i;
    }

    /** The image to bind, uploaded unless one is checkpointed or known; nil when the upload fails. */
    method ObtainImage(p: Product, before: Item) returns (item: Item, media: Id)
      modifies this
      ensures var s := ObtainMedia(env, old(db), old(calls), p, before);
              && item == s.item && media == s.media && (s.ok <==> media != 0)
              && Now() == World(s.db, old(saved), s.calls)
    {
      hide Trim, FindMedia, InsertMedia;
      item, media := before, before.media;
      if media != 0 {
        return;
      }
      var failed := Call();
      media := if failed then 0 else FindMedia(db.media, Trim(p.publicId));
      if media != 0 {
        return;
      }
      var publicId;
      media, publicId := UploadImage(p);
      if media != 0 {
        item := item.(media := media, publicId := publicId, state := CloudinaryUploaded);
      }
    }

    method SetPrice(opt: RunOptions, book: Id, p: Product, product: Id, done: State, before: Item)
      returns (item: Item, ok: bool)
      modifies this
      ensures forall media ::
                var s := PriceProduct(env, Step(old(db), old(calls), before, media, true), opt, book, product, p.price,
                                      done);
                item == s.item && ok == s.ok && Now() == World(s.db, old(saved), s.calls)
    {
      hide UpsertPrice;
      item, ok := before, true;
      if opt.importPrices {
        ok := UpsertItem(book, product, p.price);
        if ok {
          item := item.(state := done);
        }
      }
    }

    /** Imports one product; `item` is updated as the steps succeed. */
    method ImportOne(opt: RunOptions, ids: Spec.TaxonIds, book: Id, p: Product, before: Item)
      returns (item: Item, ok: bool)
      modifies this
      ensures var s := CatalogImport.ImportOne(env, old(db), old(calls), opt, ids, book, p, before);
              item == s.item && ok == s.ok && Now() == World(s.db, old(saved), s.calls)
    {
      hide Trim, InsertProduct, ObtainMedia, PriceProduct, IdAt, BrandOf, TagsOf;
      item := before;
      var sku := Trim(p.sku);
      var failed := Call();
      if !failed && sku in db.products {
        item := item.(product := db.products[sku].id);
        item, ok := SetPrice(opt, book, p, db.products[sku].id, item.state, item);
        return;
      }
      if !opt.uploadImages {
        return item, false;
      }
      var media;
      item, media := ObtainImage(p, item);
      if media == 0 {
        return item, false;
      }
      var product := CreateProductRow(p, ids, media);
      if product == 0 {
        return item, false;
      }
      item := item.(product := product, state := ProductCreated);
      item, ok := SetPrice(opt, book, p, product, PriceCreated, item);
    }

    /// The run

    method ImportAll(opt: RunOptions, ids: Spec.TaxonIds, book: Id, products: seq<Product>, start: Checkpoint)
      returns (ok: bool)
      modifies this
      ensures var b := CatalogImport.ImportAll(env, Batch(old(db), old(calls), start, old(saved), true), opt, ids, book,
                                               products, 0);
              ok == b.ok && Now() == World(b.db, b.saved, b.calls)
    {
      hide CatalogImport.ImportOne, Finished;
      var cp := start;
      ghost var result := CatalogImport.ImportAll(env, Batch(db, calls, cp, saved, true), opt, ids, book, products, 0);
      for i := 0 to |products|
        invariant CatalogImport.ImportAll(env, Batch(db, calls, cp, saved, true), opt, ids, book, products, i) == result
      {
        var p := products[i];
        if Finished(cp, p.sku) {
          continue;
        }
        var item, done := ImportOne(opt, ids, book, p, ItemOf(cp, p.sku));
        cp := cp[p.sku := item.(state := if done then Verified else Failed)];
        saved := cp;
        if !done {
          return false;
        }
      }
      ok := true;
    }

    method Run(m: Manifest, opt: RunOptions) returns (ok: bool)
      modifies this
      ensures var (w', r) := CatalogImport.Run(env, old(Now()), m, opt);
              ok == r && Now() == w'
    {
      hide CatalogImport.ObtainTaxonIds, CatalogImport.ImportAll, CatalogImport.EnsurePriceBook, Issues;
      var issues := ValidateManifest(Some(m));
      if issues != [] {
        return false;
      }
      var failed;
      if opt.dryRun {
        Spec.DryRunWritesNothing(env, db, calls, m.taxonomy);
        var planned := ImportTaxonomy(m.taxonomy, true);
        failed := Call();
        return !failed;
      }
      failed := Call();
      if failed {
        return false;
      }
      var cp := if opt.resume then saved else map[];
      var ids := ObtainTaxonIds(m.taxonomy, opt.importTaxonomy);
      if ids.None? {
        return false;
      }
      var book := EnsurePriceBook();
      if book == 0 {
        return false;
      }
      if opt.importProducts {
        ok := ImportAll(opt, ids.value, book, m.products, cp);
        if !ok {
          return false;
        }
      }
      failed := Call();
      return !failed;
    }
  }
}
