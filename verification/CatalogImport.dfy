/** internal/catalogbootstrap/runner.go and evidence.go: one import run as a function of the database, the
    checkpoint file and what every outside call returns. */
module CatalogImport {
  import opened Options
  import opened Text
  import opened CatalogManifest
  import opened CatalogDatabase
  import opened TaxonomyImport

  datatype State = NoState | Pending | Verified | Failed | CloudinaryUploaded | ProductCreated | PriceCreated

  /** The checkpoint of one SKU; zero ids and the empty text stand for absent fields. */
  datatype Item = Item(state: State, media: Id, product: Id, publicId: string)

  const NEW_ITEM := Item(NoState, 0, 0, "")

  type Checkpoint = map<string, Item>

  /** `saved` is the checkpoint file, `calls` counts the outside calls made so far. */
  datatype World = World(db: Db, saved: Checkpoint, calls: nat)

  datatype RunOptions = RunOptions(
    dryRun: bool, uploadImages: bool, importTaxonomy: bool, importProducts: bool, importPrices: bool, resume: bool)

  function ItemOf(cp: Checkpoint, sku: string): Item {
    if sku in cp then cp[sku] else NEW_ITEM
  }

  predicate Finished(cp: Checkpoint, sku: string) {
    ItemOf(cp, sku).state in {Verified, PriceCreated}
  }

  /// Database calls

  function UpsertPrice(fails: bool, db: Db, book: Id, product: Id, price: int): (Db, bool) {
    if fails || book == 0 || product == 0 || price < 0 || book !in db.books then (db, false)
    else (db.(prices := db.prices[(book, product) := price]), true)
  }

  function FindMedia(media: seq<MediaRow>, publicId: string): Id {
    if media == [] then 0
    else if publicId != "" && media[0].publicId == publicId then media[0].id
    else FindMedia(media[1..], publicId)
  }

  /** Zero when the insertion fails: the call errs, or the public id is taken. */
  function InsertMedia(fails: bool, db: Db, sku: string, publicId: string): (Db, Id) {
    if fails || FindMedia(db.media, publicId) != 0 then (db, 0)
    else (db.(media := db.media + [MediaRow(db.nextId, sku, publicId)], nextId := db.nextId + 1), db.nextId)
  }

  function Describe(p: Product): string {
    Trim(if p.description == "" then p.name else p.description)
  }

  /** Zero when the insertion fails: the call errs, a text is blank, the SKU is taken, or an active product lacks
      media. */
  function InsertProduct(
    fails: bool, db: Db, p: Product, category: Option<Id>, brand: Option<Id>, tags: set<Id>, media: Id): (Db, Id) {
    var sku := Trim(p.sku);
    if fails || sku == "" || Trim(p.name) == "" || (p.active && media == 0) || sku in db.products then (db, 0)
    else
      var row := ProductRow(db.nextId, Trim(p.name), Describe(p), p.active, category, brand, tags, media);
      (db.(products := db.products[sku := row], nextId := db.nextId + 1), db.nextId)
  }

  /** The default price book, created when its lookup errs for whatever reason; zero when that errs too. */
  function EnsurePriceBook(env: Env, db: Db, calls: nat): (Db, nat, Id) {
    if !env.fails(calls) && db.books != [] then (db, calls + 1, db.books[|db.books| - 1])
    else if env.fails(calls + 1) then (db, calls + 2, 0)
    else (db.(books := db.books + [db.nextId], nextId := db.nextId + 1), calls + 2, db.nextId)
  }

  /// One product

  function IdAt(ids: map<string, Id>, slug: string): Option<Id> {
    if slug in ids && ids[slug] != 0 then Some(ids[slug]) else None
  }

  function BrandOf(p: Product, ids: TaxonIds): Option<Id> {
    if p.brand.Some? && Trim(p.brand.value) != "" then IdAt(ids.brands, Trim(p.brand.value)) else None
  }

  function TagsOf(p: Product, ids: TaxonIds): set<Id> {
    set g <- p.tags | g in ids.tags && ids.tags[g] != 0 :: ids.tags[g]
  }

  /** Where the import of one product stands; `media` is the image to bind. */
  datatype Step = Step(db: Db, calls: nat, item: Item, media: Id, ok: bool)

  /** The checkpointed image, else one with the planned public id, else a new upload. */
  function ObtainMedia(env: Env, db: Db, calls: nat, p: Product, item: Item): Step {
    if item.media != 0 then Step(db, calls, item, item.media, true)
    else
      var known := if env.fails(calls) then 0 else FindMedia(db.media, Trim(p.publicId));
      if known != 0 then Step(db, calls + 1, item, known, true)
      else
        var publicId := env.providerId(calls + 1);
        var (db', id) := InsertMedia(env.fails(calls + 1), db, p.sku, publicId);
        if id == 0 then Step(db', calls + 2, item, 0, false)
        else Step(db', calls + 2, item.(media := id, publicId := publicId, state := CloudinaryUploaded), id, true)
  }

  function PriceProduct(env: Env, s: Step, opt: RunOptions, book: Id, product: Id, price: int, done: State): Step {
    if !opt.importPrices then s
    else
      var (db', ok) := UpsertPrice(env.fails(s.calls), s.db, book, product, price);
      s.(db := db', calls := s.calls + 1, ok := ok, item := if ok then s.item.(state := done) else s.item)
  }

  function CreateProduct(env: Env, s: Step, opt: RunOptions, ids: TaxonIds, book: Id, p: Product): Step {
    var (db', id) := InsertProduct(env.fails(s.calls), s.db, p, IdAt(ids.categories, p.category), BrandOf(p, ids),
                                   TagsOf(p, ids), s.media);
    if id == 0 then s.(db := db', calls := s.calls + 1, ok := false)
    else
      var created := s.(db := db', calls := s.calls + 1, item := s.item.(product := id, state := ProductCreated));
      PriceProduct(env, created, opt, book, id, p.price, PriceCreated)
  }

  /** Any error of the product lookup counts as "not found". */
  function ImportOne(
    env: Env, db: Db, calls: nat, opt: RunOptions, ids: TaxonIds, book: Id, p: Product, item: Item): Step {
    var sku := Trim(p.sku);
    if !env.fails(calls) && sku in db.products then
      var found := Step(db, calls + 1, item.(product := db.products[sku].id), 0, true);
      PriceProduct(env, found, opt, book, db.products[sku].id, p.price, item.state)
    else if !opt.uploadImages then Step(db, calls + 1, item, 0, false)
    else
      var s := ObtainMedia(env, db, calls + 1, p, item);
      if s.ok then CreateProduct(env, s, opt, ids, book, p) else s
  }

  /// All products

  datatype Batch = Batch(db: Db, calls: nat, cp: Checkpoint, saved: Checkpoint, ok: bool)

  /** Imports the products from position `i` on, checkpointing after each, until one fails. */
  function ImportAll(
    env: Env, b: Batch, opt: RunOptions, ids: TaxonIds, book: Id, products: seq<Product>, i: nat): Batch
    requires i <= |products|
    decreases |products| - i
  {
    if i == |products| then b
    else
      var p := products[i];
      if Finished(b.cp, p.sku) then ImportAll(env, b, opt, ids, book, products, i + 1)
      else
        var s := ImportOne(env, b.db, b.calls, opt, ids, book, p, ItemOf(b.cp, p.sku));
        var cp := b.cp[p.sku := s.item.(state := if s.ok then Verified else Failed)];
        var next := Batch(s.db, s.calls, cp, cp, s.ok);
        if s.ok then ImportAll(env, next, opt, ids, book, products, i + 1) else next
  }

  /// One run

  /** Looks up slugs that are expected to exist; `None` on the first error. */
  function LookupAll(
    env: Env, calls: nat, table: Table, slugs: seq<string>, i: nat, ids: map<string, Id>)
    : (nat, Option<map<string, Id>>)
    requires i <= |slugs|
    decreases |slugs| - i
  {
    if i == |slugs| then (calls, Some(ids))
    else
      match LookupRow(env.fails(calls), table, slugs[i])
      case None => (calls + 1, None)
      case Some(id) => LookupAll(env, calls + 1, table, slugs, i + 1, ids[slugs[i] := id])
  }

  function CategorySlugs(list: seq<CategoryEntry>): seq<string> {
    seq(|list|, i requires 0 <= i < |list| => list[i].slug)
  }

  function TaxonSlugs(list: seq<TaxonEntry>): seq<string> {
    seq(|list|, i requires 0 <= i < |list| => list[i].slug)
  }

  function LookupTaxonomy(env: Env, db: Db, calls: nat, t: Taxonomy): (nat, Option<TaxonIds>) {
    var (n1, c) := LookupAll(env, calls, db.categories, CategorySlugs(t.categories), 0, map[]);
    if c.None? then (n1, None)
    else
      var (n2, b) := LookupAll(env, n1, db.brands, TaxonSlugs(t.brands), 0, map[]);
      if b.None? then (n2, None)
      else
        var (n3, g) := LookupAll(env, n2, db.tags, TaxonSlugs(t.tags), 0, map[]);
        (n3, if g.None? then None else Some(TaxonIds(c.value, b.value, g.value)))
  }

  function ObtainTaxonIds(env: Env, db: Db, calls: nat, t: Taxonomy, create: bool): (Db, nat, Option<TaxonIds>) {
    if create then ImportTaxonomy(env, db, calls, t, false)
    else var (n, ids) := LookupTaxonomy(env, db, calls, t); (db, n, ids)
  }

  /** The phases after the taxonomy; `cp` is the checkpoint to start from. */
  function ImportProducts(
    env: Env, w: World, m: Manifest, opt: RunOptions, cp: Checkpoint, ids: TaxonIds): (World, bool) {
    var (db, n, book) := EnsurePriceBook(env, w.db, w.calls);
    if book == 0 then (World(db, w.saved, n), false)
    else
      var start := Batch(db, n, cp, w.saved, true);
      var b := if opt.importProducts then ImportAll(env, start, opt, ids, book, m.products, 0) else start;
      if !b.ok then (World(b.db, b.saved, b.calls), false)
      else (World(b.db, b.saved, b.calls + 1), !env.fails(b.calls))
  }

  function Import(env: Env, w: World, m: Manifest, opt: RunOptions, cp: Checkpoint): (World, bool) {
    var (db, n, ids) := ObtainTaxonIds(env, w.db, w.calls, m.taxonomy, opt.importTaxonomy);
    if ids.None? then (World(db, w.saved, n), false)
    else ImportProducts(env, World(db, w.saved, n), m, opt, cp, ids.value)
  }

  /** One run; the flag is false when it returns an error. */
  function Run(env: Env, w: World, m: Manifest, opt: RunOptions): (World, bool) {
    if Issues(Some(m)) != [] then (w, false)
    else if opt.dryRun then (w.(calls := w.calls + 1), !env.fails(w.calls))
    else if env.fails(w.calls) then (w.(calls := w.calls + 1), false)
    else Import(env, w.(calls := w.calls + 1), m, opt, if opt.resume then w.saved else map[])
  }

  /** `n` runs in a row with the same manifest and options. */
  function Runs(env: Env, w: World, m: Manifest, opt: RunOptions, n: nat): World {
    if n == 0 then w else Run(env, Runs(env, w, m, opt, n - 1), m, opt).0
  }
}
