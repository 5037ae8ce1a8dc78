/** internal/catalogbootstrap/taxonomy.go: the idempotent import of categories, brands and tags. */
module TaxonomyImport {
  import opened Options
  import opened Text
  import opened CatalogManifest
  import opened CatalogDatabase

  /** Where one import loop stands: the table, the next id, the calls made, the ids found and whether it goes on. */
  datatype Progress = Progress(table: Table, nextId: Id, calls: nat, ids: map<string, Id>, ok: bool)

  /** Creates the row, or looks it up when its slug is taken; `None` is an error. */
  function EnsureRow(env: Env, p: Progress, slug: string, name: string, parent: Id): (Progress, Option<Id>) {
    var (table, nextId, creation) := CreateRow(env.fails(p.calls), p.table, p.nextId, slug, name, parent);
    var after := p.(table := table, nextId := nextId, calls := p.calls + 1);
    match creation
    case Created(id) => (after, Some(id))
    case DuplicateSlug => (after.(calls := p.calls + 2), LookupRow(env.fails(p.calls + 1), table, slug))
    case Refused => (after, None)
  }

  /** Ensures the row and records its id under `slug`, or stops. */
  function EnsureAndRecord(env: Env, p: Progress, slug: string, name: string, parent: Id): Progress {
    var (after, id) := EnsureRow(env, p, slug, name, parent);
    if id.Some? then after.(ids := p.ids[slug := id.value]) else after.(ok := false)
  }

  predicate IsRoot(c: CategoryEntry) {
    c.parent.None? || Trim(c.parent.value) == ""
  }

  function ImportRoots(env: Env, p: Progress, list: seq<CategoryEntry>, i: nat, dryRun: bool): Progress
    requires i <= |list|
    decreases |list| - i
  {
    if i == |list| || !p.ok then p
    else
      var c, slug := list[i], Trim(list[i].slug);
      if !IsRoot(c) || slug == "" then ImportRoots(env, p, list, i + 1, dryRun)
      else if dryRun then ImportRoots(env, p.(ids := p.ids[slug := 0]), list, i + 1, dryRun)
      else ImportRoots(env, EnsureAndRecord(env, p, slug, c.name, 0), list, i + 1, dryRun)
  }

  /** The id of a child's parent, from the ids at hand or else from the database. */
  function ParentId(env: Env, p: Progress, parent: string): (Progress, Option<Id>) {
    if parent in p.ids && p.ids[parent] != 0 then (p, Some(p.ids[parent]))
    else (p.(calls := p.calls + 1), LookupRow(env.fails(p.calls), p.table, parent))
  }

  function ImportChildren(env: Env, p: Progress, list: seq<CategoryEntry>, i: nat, dryRun: bool): Progress
    requires i <= |list|
    decreases |list| - i
  {
    if i == |list| || !p.ok then p
    else
      var c, slug := list[i], Trim(list[i].slug);
      if IsRoot(c) then ImportChildren(env, p, list, i + 1, dryRun)
      else if dryRun then ImportChildren(env, p.(ids := p.ids[slug := 0]), list, i + 1, dryRun)
      else
        var (found, parent) := ParentId(env, p, Trim(c.parent.value));
        if parent.None? then found.(ok := false)
        else ImportChildren(env, EnsureAndRecord(env, found, slug, c.name, parent.value), list, i + 1, dryRun)
  }

  /** Brands and tags. */
  function ImportFlat(env: Env, p: Progress, list: seq<TaxonEntry>, i: nat, dryRun: bool): Progress
    requires i <= |list|
    decreases |list| - i
  {
    if i == |list| || !p.ok then p
    else
      var t, slug := list[i], Trim(list[i].slug);
      if slug == "" then ImportFlat(env, p, list, i + 1, dryRun)
      else if dryRun then ImportFlat(env, p.(ids := p.ids[slug := 0]), list, i + 1, dryRun)
      else ImportFlat(env, EnsureAndRecord(env, p, slug, t.name, 0), list, i + 1, dryRun)
  }

  datatype TaxonIds = TaxonIds(categories: map<string, Id>, brands: map<string, Id>, tags: map<string, Id>)

  function ImportCategories(env: Env, db: Db, calls: nat, list: seq<CategoryEntry>, dryRun: bool): Progress {
    ImportChildren(env, ImportRoots(env, Progress(db.categories, db.nextId, calls, map[], true), list, 0, dryRun), list,
                   0, dryRun)
  }

  /** The whole import: the database and the number of calls after it, and the ids unless it stopped. */
  function ImportTaxonomy(env: Env, db: Db, calls: nat, t: Taxonomy, dryRun: bool): (Db, nat, Option<TaxonIds>) {
    var c := ImportCategories(env, db, calls, t.categories, dryRun);
    var afterCategories := db.(categories := c.table, nextId := c.nextId);
    if !c.ok then (afterCategories, c.calls, None)
    else
      var b := ImportFlat(env, Progress(db.brands, c.nextId, c.calls, map[], true), t.brands, 0, dryRun);
      var afterBrands := afterCategories.(brands := b.table, nextId := b.nextId);
      if !b.ok then (afterBrands, b.calls, None)
      else
        var g := ImportFlat(env, Progress(db.tags, b.nextId, b.calls, map[], true), t.tags, 0, dryRun);
        (afterBrands.(tags := g.table, nextId := g.nextId), g.calls,
         if g.ok then Some(TaxonIds(c.ids, b.ids, g.ids)) else None)
  }

  /// What every step keeps

  predicate Agrees(ids: map<string, Id>, table: Table) {
    forall s <- ids :: Lower(s) in table && table[Lower(s)].id == ids[s]
  }

  predicate Sound(p: Progress) {
    ValidTable(p.table, p.nextId) && Agrees(p.ids, p.table)
  }

  lemma AgreesAfterGrowth(ids: map<string, Id>, before: Table, after: Table)
    requires Agrees(ids, before) && Grows(before, after)
    ensures Agrees(ids, after)
  {
  }

  /** One step: the table only grows, the recorded id is the row's, and a taken slug leaves the table alone. */
  lemma EnsureKeepsSound(env: Env, p: Progress, slug: string, name: string, parent: Id)
    requires Sound(p) && p.ok && Trim(slug) == slug
    ensures var q := EnsureAndRecord(env, p, slug, name, parent);
            && Sound(q) && Grows(p.table, q.table) && p.nextId <= q.nextId && p.calls <= q.calls
            && q.ids == (if q.ok then p.ids[slug := q.table[Lower(slug)].id] else p.ids)
            && (q.ok ==> slug != "" && Lower(slug) in q.table)
            && (Lower(slug) in p.table ==> q.table == p.table && q.nextId == p.nextId)
            && (forall k <- q.table ::
                  k !in p.table ==>
                    && k == Lower(slug) && Names(q.table[k], slug, name)
                    && q.table[k].parent == if parent == 0 then None else Some(parent))
            && (NeverFails(env, p.calls) ==> (q.ok <==> slug != "" && Trim(name) != ""))
  {
    hide Lower, Trim, CreateRow, ValidTable;
    CreateKeepsValid(env.fails(p.calls), p.table, p.nextId, slug, name, parent);
    var (after, id) := EnsureRow(env, p, slug, name, parent);
    AgreesAfterGrowth(p.ids, p.table, after.table);
    if NeverFails(env, p.calls) {
      EnsureSucceeds(env, p, slug, name, parent);
    }
  }

  lemma EnsureSucceeds(env: Env, p: Progress, slug: string, name: string, parent: Id)
    requires Sound(p) && p.ok && Trim(slug) == slug && NeverFails(env, p.calls)
    ensures EnsureAndRecord(env, p, slug, name, parent).ok <==> slug != "" && Trim(name) != ""
  {
    hide Lower, Trim, CreateRow, ValidTable;
    CreateKeepsValid(env.fails(p.calls), p.table, p.nextId, slug, name, parent);
    var first, second := p.calls, p.calls + 1;
    assert !env.fails(first) && !env.fails(second);
    var (table, _, c) := CreateRow(env.fails(first), p.table, p.nextId, slug, name, parent);
    if c.DuplicateSlug? {
      assert LookupRow(env.fails(second), table, slug).Some?;
    }
  }

  predicate IsRootTodo(c: CategoryEntry) {
    IsRoot(c) && Trim(c.slug) != ""
  }

  /** From `p` to `q` the table only grew, no recorded id was lost, and a stopped loop stayed stopped. */
  ghost predicate Advances(p: Progress, q: Progress) {
    && Sound(q) && Grows(p.table, q.table) && p.nextId <= q.nextId && p.calls <= q.calls
    && (forall s <- p.ids :: s in q.ids) && (q.ok ==> p.ok)
  }

  lemma AdvancesTransitive(p: Progress, q: Progress, r: Progress)
    requires Advances(p, q) && Advances(q, r)
    ensures Advances(p, r)
  {
  }

  /** Row `k` is the root `c`. */
  predicate RootRow(table: Table, k: string, c: CategoryEntry) {
    && IsRootTodo(c) && k == Lower(Trim(c.slug)) && k in table
    && table[k].parent == None && Names(table[k], c.slug, c.name)
  }

  ghost predicate RootsDone(p: Progress, q: Progress, list: seq<CategoryEntry>, i: nat) {
    && Advances(p, q)
    && (forall s <- q.ids ::
          s in p.ids || exists j :: i <= j < |list| && IsRootTodo(list[j]) && Trim(list[j].slug) == s)
    && (q.ok ==> forall j :: i <= j < |list| && IsRootTodo(list[j]) ==> Trim(list[j].slug) in q.ids)
    && (forall k <- q.table :: k !in p.table ==>
          q.table[k].parent == None
          && exists j :: i <= j < |list| && RootRow(q.table, k, list[j]))
    && ((forall j :: i <= j < |list| && IsRootTodo(list[j]) ==> Lower(Trim(list[j].slug)) in p.table) ==>
          q.table == p.table && q.nextId == p.nextId)
  }

  /** What one step creates for a root, or for a brand or tag, is its row. */
  lemma CreatedRow(env: Env, p: Progress, slug: string, name: string)
    requires Sound(p) && p.ok
    ensures var q := EnsureAndRecord(env, p, Trim(slug), name, 0);
            forall k <- q.table :: k !in p.table ==>
              k == Lower(Trim(slug)) && q.table[k].parent == None && Names(q.table[k], slug, name)
  {
    hide Lower, EnsureAndRecord, Sound, Trim;
    TrimIsIdempotent(slug);
    EnsureKeepsSound(env, p, Trim(slug), name, 0);
  }

  lemma RootRowStays(before: Table, after: Table, k: string, c: CategoryEntry)
    requires RootRow(before, k, c) && Grows(before, after)
    ensures RootRow(after, k, c)
  {
    hide Lower, Trim, IsRootTodo;
  }

  lemma {:induction false} RootsImported(env: Env, p: Progress, list: seq<CategoryEntry>, i: nat)
    requires i <= |list| && Sound(p)
    ensures RootsDone(p, ImportRoots(env, p, list, i, false), list, i)
    decreases |list| - i
  {
    hide Lower, Trim, EnsureAndRecord, IsRoot, Sound, RootRow, Names;
    if i < |list| && p.ok {
      var c := list[i];
      var slug := Trim(c.slug);
      if !IsRootTodo(c) {
        RootsImported(env, p, list, i + 1);
      } else {
        TrimIsIdempotent(c.slug);
        EnsureKeepsSound(env, p, slug, c.name, 0);
        var next := EnsureAndRecord(env, p, slug, c.name, 0);
        RootsImported(env, next, list, i + 1);
        var q := ImportRoots(env, next, list, i + 1, false);
        AdvancesTransitive(p, next, q);
        forall k | k in q.table && k !in p.table && k in next.table ensures RootRow(q.table, k, c) {
          RootCreated(env, p, c, k);
          RootRowStays(next.table, q.table, k, c);
        }
      }
    }
  }

  lemma RootCreated(env: Env, p: Progress, c: CategoryEntry, k: string)
    requires Sound(p) && p.ok && IsRootTodo(c)
    requires var q := EnsureAndRecord(env, p, Trim(c.slug), c.name, 0); k in q.table && k !in p.table
    ensures RootRow(EnsureAndRecord(env, p, Trim(c.slug), c.name, 0).table, k, c)
  {
    hide Lower, Trim, EnsureAndRecord, Sound, IsRootTodo, Names;
    CreatedRow(env, p, c.slug, c.name);
  }

  /** Row `k` is the child `c`, linked to the row of `c`'s parent slug. */
  predicate LinkedChild(table: Table, k: string, c: CategoryEntry) {
    && !IsRoot(c) && k == Lower(Trim(c.slug)) && k in table
    && Lower(Trim(c.parent.value)) in table
    && table[k].parent == Some(table[Lower(Trim(c.parent.value))].id) && Names(table[k], c.slug, c.name)
  }

  ghost predicate ChildrenDone(p: Progress, q: Progress, list: seq<CategoryEntry>, i: nat) {
    && Advances(p, q)
    && (forall s <- q.ids :: s in p.ids || exists j :: i <= j < |list| && !IsRoot(list[j]) && Trim(list[j].slug) == s)
    && (q.ok ==> forall j :: i <= j < |list| && !IsRoot(list[j]) ==> Trim(list[j].slug) in q.ids)
    && (forall k <- q.table :: k !in p.table ==> exists j :: i <= j < |list| && LinkedChild(q.table, k, list[j]))
    && ((forall j :: i <= j < |list| && !IsRoot(list[j]) ==> Lower(Trim(list[j].slug)) in p.table) ==>
          q.table == p.table && q.nextId == p.nextId)
  }

  lemma ParentIdIsRight(env: Env, p: Progress, parent: string)
    requires Sound(p) && Trim(parent) == parent
    ensures var (q, id) := ParentId(env, p, parent);
            && q == p.(calls := q.calls) && p.calls <= q.calls
            && (id.Some? ==> id.value != 0 && Lower(parent) in p.table && id.value == p.table[Lower(parent)].id)
            && (NeverFails(env, p.calls) ==> (id.Some? <==> Lower(parent) in p.table))
  {
    hide Lower, Trim;
  }

  lemma {:induction false} ChildrenImported(env: Env, p: Progress, list: seq<CategoryEntry>, i: nat)
    requires i <= |list| && Sound(p)
    ensures ChildrenDone(p, ImportChildren(env, p, list, i, false), list, i)
    decreases |list| - i
  {
    hide Lower, Trim, EnsureAndRecord, IsRoot, Sound, ParentId;
    if i < |list| && p.ok {
      var c := list[i];
      var slug := Trim(c.slug);
      if IsRoot(c) {
        ChildrenImported(env, p, list, i + 1);
      } else {
        TrimIsIdempotent(c.slug);
        RootHasParent(c);
        TrimIsIdempotent(c.parent.value);
        ParentIdIsRight(env, p, Trim(c.parent.value));
        var (found, parent) := ParentId(env, p, Trim(c.parent.value));
        SoundAtAnyCall(p, found.calls);
        if parent.Some? {
          EnsureKeepsSound(env, found, slug, c.name, parent.value);
          var next := EnsureAndRecord(env, found, slug, c.name, parent.value);
          ChildrenImported(env, next, list, i + 1);
          var q := ImportChildren(env, next, list, i + 1, false);
          AdvancesTransitive(p, next, q);
          forall k | k in q.table && k !in p.table
            ensures exists j :: i <= j < |list| && LinkedChild(q.table, k, list[j])
          {
            if k in next.table {
              assert LinkedChild(q.table, k, list[i]);
            }
          }
        } else {
          SoundAtAnyCall(p, found.calls);
          assert Sound(found.(ok := false)) by { SoundWhenStopped(found); }
        }
      }
    }
  }

  lemma RootHasParent(c: CategoryEntry)
    ensures !IsRoot(c) ==> c.parent.Some?
  {
  }

  lemma SoundAtAnyCall(p: Progress, calls: nat)
    ensures Sound(p.(calls := calls)) <==> Sound(p)
  {
  }

  lemma SoundWhenStopped(p: Progress)
    ensures Sound(p.(ok := false)) <==> Sound(p)
  {
  }

  /** Row `k` is the brand or tag `t`. */
  predicate FlatRow(table: Table, k: string, t: TaxonEntry) {
    k == Lower(Trim(t.slug)) && k in table && table[k].parent == None && Names(table[k], t.slug, t.name)
  }

  ghost predicate FlatDone(p: Progress, q: Progress, list: seq<TaxonEntry>, i: nat) {
    && Advances(p, q)
    && (forall s <- q.ids :: s in p.ids || exists j :: i <= j < |list| && Trim(list[j].slug) == s)
    && (q.ok ==> forall j :: i <= j < |list| && Trim(list[j].slug) != "" ==> Trim(list[j].slug) in q.ids)
    && (forall k <- q.table :: k !in p.table ==> exists j :: i <= j < |list| && FlatRow(q.table, k, list[j]))
    && ((forall j :: i <= j < |list| && Trim(list[j].slug) != "" ==> Lower(Trim(list[j].slug)) in p.table) ==>
          q.table == p.table && q.nextId == p.nextId)
  }

  lemma FlatRowStays(before: Table, after: Table, k: string, t: TaxonEntry)
    requires FlatRow(before, k, t) && Grows(before, after)
    ensures FlatRow(after, k, t)
  {
    hide Lower, Trim;
  }

  lemma FlatCreated(env: Env, p: Progress, t: TaxonEntry, k: string)
    requires Sound(p) && p.ok
    requires var q := EnsureAndRecord(env, p, Trim(t.slug), t.name, 0); k in q.table && k !in p.table
    ensures FlatRow(EnsureAndRecord(env, p, Trim(t.slug), t.name, 0).table, k, t)
  {
    hide Lower, Trim, EnsureAndRecord, Sound, Names;
    CreatedRow(env, p, t.slug, t.name);
  }

  lemma {:induction false} FlatImported(env: Env, p: Progress, list: seq<TaxonEntry>, i: nat)
    requires i <= |list| && Sound(p)
    ensures FlatDone(p, ImportFlat(env, p, list, i, false), list, i)
    decreases |list| - i
  {
    hide Lower, Trim, EnsureAndRecord, Sound, FlatRow, Names;
    if i < |list| && p.ok {
      var t := list[i];
      var slug := Trim(t.slug);
      if slug == "" {
        FlatImported(env, p, list, i + 1);
      } else {
        TrimIsIdempotent(t.slug);
        EnsureKeepsSound(env, p, slug, t.name, 0);
        var next := EnsureAndRecord(env, p, slug, t.name, 0);
        FlatImported(env, next, list, i + 1);
        var q := ImportFlat(env, next, list, i + 1, false);
        AdvancesTransitive(p, next, q);
        forall k | k in q.table && k !in p.table && k in next.table ensures FlatRow(q.table, k, t) {
          FlatCreated(env, p, t, k);
          FlatRowStays(next.table, q.table, k, t);
        }
      }
    }
  }

  /// The whole import

  predicate ValidTaxa(db: Db) {
    ValidTable(db.categories, db.nextId) && ValidTable(db.brands, db.nextId) && ValidTable(db.tags, db.nextId)
  }

  lemma ValidWithLaterIds(table: Table, nextId: Id, later: Id)
    requires ValidTable(table, nextId) && nextId <= later
    ensures ValidTable(table, later)
  {
  }

  /** Only taxonomy tables and the id counter differ, and the tables only grew. */
  ghost predicate TaxaGrow(before: Db, after: Db) {
    && after == before.(categories := after.categories, brands := after.brands, tags := after.tags,
                        nextId := after.nextId)
    && Grows(before.categories, after.categories) && Grows(before.brands, after.brands)
    && Grows(before.tags, after.tags)
    && before.nextId <= after.nextId && ValidTaxa(after)
  }

  /** The returned ids are those of the rows, for exactly the slugs that the taxonomy names. */
  ghost predicate IdsMatch(ids: TaxonIds, db: Db, t: Taxonomy) {
    && Agrees(ids.categories, db.categories) && Agrees(ids.brands, db.brands) && Agrees(ids.tags, db.tags)
    && (forall s ::
          s in ids.categories <==> exists c <- t.categories :: (IsRootTodo(c) || !IsRoot(c)) && Trim(c.slug) == s)
    && (forall s :: s in ids.brands <==> s != "" && exists b <- t.brands :: Trim(b.slug) == s)
    && (forall s :: s in ids.tags <==> s != "" && exists g <- t.tags :: Trim(g.slug) == s)
  }

  /** Every category created by the import is a root without parent or hangs under the row of its parent slug. */
  ghost predicate NewCategoriesLinked(before: Db, after: Db, t: Taxonomy) {
    forall k <- after.categories :: k !in before.categories ==>
      exists c <- t.categories :: RootRow(after.categories, k, c) || LinkedChild(after.categories, k, c)
  }

  /** Every brand and tag created by the import is one that the taxonomy lists. */
  ghost predicate NewTaxaListed(before: Db, after: Db, t: Taxonomy) {
    && (forall k <- after.brands :: k !in before.brands ==> exists b <- t.brands :: FlatRow(after.brands, k, b))
    && (forall k <- after.tags :: k !in before.tags ==> exists g <- t.tags :: FlatRow(after.tags, k, g))
  }

  /** Every slug that the import would create is already taken. */
  ghost predicate AllTaken(db: Db, t: Taxonomy) {
    && (forall c <- t.categories :: IsRootTodo(c) || !IsRoot(c) ==> Lower(Trim(c.slug)) in db.categories)
    && (forall b <- t.brands :: Trim(b.slug) != "" ==> Lower(Trim(b.slug)) in db.brands)
    && (forall g <- t.tags :: Trim(g.slug) != "" ==> Lower(Trim(g.slug)) in db.tags)
  }

  lemma CategoriesImported(env: Env, db: Db, calls: nat, list: seq<CategoryEntry>)
    requires ValidTable(db.categories, db.nextId)
    ensures var p := Progress(db.categories, db.nextId, calls, map[], true);
            var q := ImportCategories(env, db, calls, list, false);
            && Advances(p, q)
            && (forall s <- q.ids :: exists c <- list :: (IsRootTodo(c) || !IsRoot(c)) && Trim(c.slug) == s)
            && (q.ok ==> forall c <- list :: IsRootTodo(c) || !IsRoot(c) ==> Trim(c.slug) in q.ids)
            && (forall k <- q.table :: k !in db.categories ==>
                  exists c <- list :: RootRow(q.table, k, c) || LinkedChild(q.table, k, c))
            && ((forall c <- list :: IsRootTodo(c) || !IsRoot(c) ==> Lower(Trim(c.slug)) in db.categories) ==>
                  q.table == db.categories && q.nextId == db.nextId)
  {
    hide Lower, Trim, IsRoot, IsRootTodo, Sound, LinkedChild, ValidTable, Names;
    var p := Progress(db.categories, db.nextId, calls, map[], true);
    StartIsSound(db.categories, db.nextId, calls);
    RootsImported(env, p, list, 0);
    var roots := ImportRoots(env, p, list, 0, false);
    ChildrenImported(env, roots, list, 0);
    var q := ImportChildren(env, roots, list, 0, false);
    AdvancesTransitive(p, roots, q);
    assert forall j :: 0 <= j < |list| ==> list[j] in list;
    forall k | k in q.table && k !in db.categories
      ensures exists c <- list :: RootRow(q.table, k, c) || LinkedChild(q.table, k, c)
    {
      if k in roots.table {
        var j :| 0 <= j < |list| && RootRow(roots.table, k, list[j]);
        assert RootRow(q.table, k, list[j]);
      } else {
        var j :| 0 <= j < |list| && LinkedChild(q.table, k, list[j]);
      }
    }
  }

  lemma StartIsSound(table: Table, nextId: Id, calls: nat)
    requires ValidTable(table, nextId)
    ensures Sound(Progress(table, nextId, calls, map[], true))
  {
  }

  lemma FlatListImported(env: Env, table: Table, nextId: Id, calls: nat, list: seq<TaxonEntry>)
    requires ValidTable(table, nextId)
    ensures var p := Progress(table, nextId, calls, map[], true);
            var q := ImportFlat(env, p, list, 0, false);
            && Advances(p, q)
            && (q.ok ==> forall s :: s in q.ids <==> s != "" && exists t <- list :: Trim(t.slug) == s)
            && (forall k <- q.table :: k !in table ==> exists t <- list :: FlatRow(q.table, k, t))
            && ((forall t <- list :: Trim(t.slug) != "" ==> Lower(Trim(t.slug)) in table)
                ==> q.table == table && q.nextId == nextId)
  {
    hide Lower, Trim, Sound, ValidTable;
    StartIsSound(table, nextId, calls);
    var p := Progress(table, nextId, calls, map[], true);
    FlatImported(env, p, list, 0);
    FlatIdsNonEmpty(env, p, list, 0);
    assert forall j :: 0 <= j < |list| ==> list[j] in list;
  }

  lemma {:induction false} FlatIdsNonEmpty(env: Env, p: Progress, list: seq<TaxonEntry>, i: nat)
    requires i <= |list| && "" !in p.ids
    ensures "" !in ImportFlat(env, p, list, i, false).ids
    decreases |list| - i
  {
    hide Lower, Trim, CreateRow, LookupRow;
    if i < |list| && p.ok {
      var slug := Trim(list[i].slug);
      if slug == "" {
        FlatIdsNonEmpty(env, p, list, i + 1);
      } else {
        FlatIdsNonEmpty(env, EnsureAndRecord(env, p, slug, list[i].name, 0), list, i + 1);
      }
    }
  }

  lemma SoundMeans(p: Progress)
    requires Sound(p)
    ensures ValidTable(p.table, p.nextId) && Agrees(p.ids, p.table)
  {
  }

  lemma CategoriesGrow(db: Db, table: Table, nextId: Id)
    requires ValidTaxa(db) && ValidTable(table, nextId) && Grows(db.categories, table) && db.nextId <= nextId
    ensures TaxaGrow(db, db.(categories := table, nextId := nextId))
  {
    ValidWithLaterIds(db.brands, db.nextId, nextId);
    ValidWithLaterIds(db.tags, db.nextId, nextId);
  }

  lemma BrandsGrow(db: Db, table: Table, nextId: Id)
    requires ValidTaxa(db) && ValidTable(table, nextId) && Grows(db.brands, table) && db.nextId <= nextId
    ensures TaxaGrow(db, db.(brands := table, nextId := nextId))
  {
    ValidWithLaterIds(db.categories, db.nextId, nextId);
    ValidWithLaterIds(db.tags, db.nextId, nextId);
  }

  lemma TagsGrow(db: Db, table: Table, nextId: Id)
    requires ValidTaxa(db) && ValidTable(table, nextId) && Grows(db.tags, table) && db.nextId <= nextId
    ensures TaxaGrow(db, db.(tags := table, nextId := nextId))
  {
    ValidWithLaterIds(db.categories, db.nextId, nextId);
    ValidWithLaterIds(db.brands, db.nextId, nextId);
  }

  lemma TaxaGrowTransitive(a: Db, b: Db, c: Db)
    requires TaxaGrow(a, b) && TaxaGrow(b, c)
    ensures TaxaGrow(a, c)
  {
    hide ValidTable;
  }

  lemma TaxonomyGrows(env: Env, db: Db, calls: nat, t: Taxonomy)
    requires ValidTaxa(db)
    ensures var (db', n, _) := ImportTaxonomy(env, db, calls, t, false);
            TaxaGrow(db, db') && calls <= n
  {
    hide Lower, Trim, IsRoot, IsRootTodo, LinkedChild, ImportCategories, ImportFlat, ValidTable, Agrees, Grows, Sound;
    CategoriesImported(env, db, calls, t.categories);
    var c := ImportCategories(env, db, calls, t.categories, false);
    SoundMeans(c);
    CategoriesGrow(db, c.table, c.nextId);
    var db1 := db.(categories := c.table, nextId := c.nextId);
    FlatListImported(env, db1.brands, c.nextId, c.calls, t.brands);
    var b := ImportFlat(env, Progress(db1.brands, c.nextId, c.calls, map[], true), t.brands, 0, false);
    SoundMeans(b);
    BrandsGrow(db1, b.table, b.nextId);
    var db2 := db1.(brands := b.table, nextId := b.nextId);
    TaxaGrowTransitive(db, db1, db2);
    FlatListImported(env, db2.tags, b.nextId, b.calls, t.tags);
    var g := ImportFlat(env, Progress(db2.tags, b.nextId, b.calls, map[], true), t.tags, 0, false);
    SoundMeans(g);
    TagsGrow(db2, g.table, g.nextId);
    TaxaGrowTransitive(db, db2, db2.(tags := g.table, nextId := g.nextId));
  }

  lemma CategoriesLinked(env: Env, db: Db, calls: nat, t: Taxonomy)
    requires ValidTaxa(db)
    ensures NewCategoriesLinked(db, ImportTaxonomy(env, db, calls, t, false).0, t)
  {
    hide Lower, Trim, IsRoot, IsRootTodo, LinkedChild, ImportCategories, ImportFlat, ValidTable, Grows, Sound;
    CategoriesImported(env, db, calls, t.categories);
  }

  lemma BrandsAndTags(env: Env, db: Db, calls: nat, t: Taxonomy)
    ensures var db' := ImportTaxonomy(env, db, calls, t, false).0;
            var c := ImportCategories(env, db, calls, t.categories, false);
            var b := ImportFlat(env, Progress(db.brands, c.nextId, c.calls, map[], true), t.brands, 0, false);
            var g := ImportFlat(env, Progress(db.tags, b.nextId, b.calls, map[], true), t.tags, 0, false);
            && db'.brands == (if c.ok then b.table else db.brands)
            && db'.tags == (if c.ok && b.ok then g.table else db.tags)
  {
    hide ImportCategories, ImportFlat;
  }

  lemma AdvancesIds(p: Progress, q: Progress)
    requires Advances(p, q)
    ensures p.nextId <= q.nextId && ValidTable(q.table, q.nextId)
  {
  }

  lemma TaxaListed(env: Env, db: Db, calls: nat, t: Taxonomy)
    requires ValidTaxa(db)
    ensures NewTaxaListed(db, ImportTaxonomy(env, db, calls, t, false).0, t)
  {
    hide FlatRow, ImportTaxonomy, ImportCategories, ImportFlat, Advances, ValidTable, RootRow, LinkedChild, IsRoot,
         IsRootTodo,
         Lower, Trim;
    BrandsAndTags(env, db, calls, t);
    CategoriesImported(env, db, calls, t.categories);
    var c := ImportCategories(env, db, calls, t.categories, false);
    AdvancesIds(Progress(db.categories, db.nextId, calls, map[], true), c);
    ValidLater(db, c);
    FlatListImported(env, db.brands, c.nextId, c.calls, t.brands);
    var brands := Progress(db.brands, c.nextId, c.calls, map[], true);
    var b := ImportFlat(env, brands, t.brands, 0, false);
    AdvancesIds(brands, b);
    ValidWithLaterIds(db.tags, c.nextId, b.nextId);
    FlatListImported(env, db.tags, b.nextId, b.calls, t.tags);
  }

  lemma ValidLater(db: Db, c: Progress)
    requires ValidTaxa(db) && db.nextId <= c.nextId
    ensures ValidTable(db.brands, c.nextId) && ValidTable(db.tags, c.nextId)
  {
    ValidWithLaterIds(db.brands, db.nextId, c.nextId);
    ValidWithLaterIds(db.tags, db.nextId, c.nextId);
  }

  lemma TakenStaysAsIs(env: Env, db: Db, calls: nat, t: Taxonomy)
    requires ValidTaxa(db) && AllTaken(db, t)
    ensures ImportTaxonomy(env, db, calls, t, false).0 == db
  {
    hide Lower, Trim, IsRoot, IsRootTodo, LinkedChild, ImportCategories, ImportFlat, ValidTable, Grows, Sound;
    CategoriesImported(env, db, calls, t.categories);
    var c := ImportCategories(env, db, calls, t.categories, false);
    FlatListImported(env, db.brands, c.nextId, c.calls, t.brands);
    var b := ImportFlat(env, Progress(db.brands, c.nextId, c.calls, map[], true), t.brands, 0, false);
    FlatListImported(env, db.tags, b.nextId, b.calls, t.tags);
  }

  lemma CategoryIdsMatch(env: Env, db: Db, calls: nat, list: seq<CategoryEntry>)
    requires ValidTable(db.categories, db.nextId)
    ensures var q := ImportCategories(env, db, calls, list, false);
            && ValidTable(q.table, q.nextId) && db.nextId <= q.nextId && Agrees(q.ids, q.table)
            && (q.ok ==> forall s ::
                  s in q.ids <==> exists c <- list :: (IsRootTodo(c) || !IsRoot(c)) && Trim(c.slug) == s)
  {
    hide Lower, Trim, IsRoot, IsRootTodo, LinkedChild, ImportCategories, ValidTable, Agrees, Grows, Sound;
    CategoriesImported(env, db, calls, list);
    SoundMeans(ImportCategories(env, db, calls, list, false));
  }

  lemma FlatIdsMatch(env: Env, table: Table, validFor: Id, nextId: Id, calls: nat, list: seq<TaxonEntry>)
    requires ValidTable(table, validFor) && validFor <= nextId
    ensures var q := ImportFlat(env, Progress(table, nextId, calls, map[], true), list, 0, false);
            && ValidTable(q.table, q.nextId) && nextId <= q.nextId && Agrees(q.ids, q.table)
            && (q.ok ==> forall s :: s in q.ids <==> s != "" && exists b <- list :: Trim(b.slug) == s)
  {
    hide Lower, Trim, ImportFlat, ValidTable, Agrees, Grows, Sound;
    ValidWithLaterIds(table, validFor, nextId);
    FlatListImported(env, table, nextId, calls, list);
    SoundMeans(ImportFlat(env, Progress(table, nextId, calls, map[], true), list, 0, false));
  }

  lemma TaxonomyIdsMatch(env: Env, db: Db, calls: nat, t: Taxonomy)
    requires ValidTaxa(db) && ImportTaxonomy(env, db, calls, t, false).2.Some?
    ensures var (db', _, ids) := ImportTaxonomy(env, db, calls, t, false);
            IdsMatch(ids.value, db', t)
  {
    hide Lower, Trim, IsRoot, IsRootTodo, ImportCategories, ImportFlat, ValidTable, Agrees;
    CategoryIdsMatch(env, db, calls, t.categories);
    var c := ImportCategories(env, db, calls, t.categories, false);
    FlatIdsMatch(env, db.brands, db.nextId, c.nextId, c.calls, t.brands);
    var b := ImportFlat(env, Progress(db.brands, c.nextId, c.calls, map[], true), t.brands, 0, false);
    FlatIdsMatch(env, db.tags, db.nextId, b.nextId, b.calls, t.tags);
  }

  lemma MatchedIdsAreTaken(ids: TaxonIds, db: Db, t: Taxonomy)
    requires IdsMatch(ids, db, t)
    ensures AllTaken(db, t)
  {
    hide Lower, Trim, IsRoot, IsRootTodo;
  }

  /** Whether it succeeds or stops, the import only adds rows, links every new category to the row of its
      parent slug, and adds nothing when every slug is taken; when it succeeds, the returned ids are the
      rows' ids, for exactly the named slugs. */
  lemma TaxonomyImported(env: Env, db: Db, calls: nat, t: Taxonomy)
    requires ValidTaxa(db)
    ensures var (db', n, ids) := ImportTaxonomy(env, db, calls, t, false);
            && TaxaGrow(db, db') && calls <= n && NewCategoriesLinked(db, db', t) && NewTaxaListed(db, db', t)
            && (ids.Some? ==> IdsMatch(ids.value, db', t) && AllTaken(db', t))
            && (AllTaken(db, t) ==> db' == db)
  {
    hide ImportTaxonomy, TaxaGrow, NewCategoriesLinked, NewTaxaListed, IdsMatch, AllTaken, ValidTaxa;
    TaxonomyGrows(env, db, calls, t);
    CategoriesLinked(env, db, calls, t);
    TaxaListed(env, db, calls, t);
    if AllTaken(db, t) {
      TakenStaysAsIs(env, db, calls, t);
    }
    if ImportTaxonomy(env, db, calls, t, false).2.Some? {
      TaxonomyIdsMatch(env, db, calls, t);
      var (db', _, ids) := ImportTaxonomy(env, db, calls, t, false);
      MatchedIdsAreTaken(ids.value, db', t);
    }
  }

  /** Importing again after a success creates nothing, whichever calls fail. */
  lemma SecondImportCreatesNothing(env: Env, db: Db, calls: nat, t: Taxonomy, later: Env, laterCalls: nat)
    requires ValidTaxa(db) && ImportTaxonomy(env, db, calls, t, false).2.Some?
    ensures var db' := ImportTaxonomy(env, db, calls, t, false).0;
            ImportTaxonomy(later, db', laterCalls, t, false).0 == db'
  {
    hide ImportTaxonomy, AllTaken, IdsMatch, NewCategoriesLinked, NewTaxaListed;
    TaxonomyImported(env, db, calls, t);
    TaxonomyImported(later, ImportTaxonomy(env, db, calls, t, false).0, laterCalls, t);
  }

  lemma {:induction false} DryRootsWriteNothing(env: Env, p: Progress, list: seq<CategoryEntry>, i: nat)
    requires i <= |list|
    ensures var q := ImportRoots(env, p, list, i, true); q == p.(ids := q.ids)
    decreases |list| - i
  {
    hide IsRoot, Trim;
    if i < |list| && p.ok {
      var slug := Trim(list[i].slug);
      DryRootsWriteNothing(env, if !IsRoot(list[i]) || slug == "" then p else p.(ids := p.ids[slug := 0]), list, i + 1);
    }
  }

  lemma {:induction false} DryChildrenWriteNothing(env: Env, p: Progress, list: seq<CategoryEntry>, i: nat)
    requires i <= |list|
    ensures var q := ImportChildren(env, p, list, i, true); q == p.(ids := q.ids)
    decreases |list| - i
  {
    hide IsRoot, Trim;
    if i < |list| && p.ok {
      var next := if IsRoot(list[i]) then p else p.(ids := p.ids[Trim(list[i].slug) := 0]);
      DryChildrenWriteNothing(env, next, list, i + 1);
    }
  }

  lemma {:induction false} DryFlatWritesNothing(env: Env, p: Progress, list: seq<TaxonEntry>, i: nat)
    requires i <= |list|
    ensures var q := ImportFlat(env, p, list, i, true); q == p.(ids := q.ids)
    decreases |list| - i
  {
    hide Trim;
    if i < |list| && p.ok {
      var slug := Trim(list[i].slug);
      DryFlatWritesNothing(env, if slug == "" then p else p.(ids := p.ids[slug := 0]), list, i + 1);
    }
  }

  /** A dry run always succeeds, makes no call and writes nothing. */
  lemma DryRunWritesNothing(env: Env, db: Db, calls: nat, t: Taxonomy)
    ensures var (db', n, ids) := ImportTaxonomy(env, db, calls, t, true);
            db' == db && n == calls && ids.Some?
  {
    hide ImportRoots, ImportChildren, ImportFlat;
    var p := Progress(db.categories, db.nextId, calls, map[], true);
    DryRootsWriteNothing(env, p, t.categories, 0);
    DryChildrenWriteNothing(env, ImportRoots(env, p, t.categories, 0, true), t.categories, 0);
    DryFlatWritesNothing(env, Progress(db.brands, db.nextId, calls, map[], true), t.brands, 0);
    DryFlatWritesNothing(env, Progress(db.tags, db.nextId, calls, map[], true), t.tags, 0);
  }

  /// When it succeeds

  function RootSlugs(list: seq<CategoryEntry>): set<string> {
    set c <- list | IsRootTodo(c) :: Lower(Trim(c.slug))
  }

  /** The slugs of the children before position `j`. */
  function ChildSlugs(list: seq<CategoryEntry>, j: nat): set<string>
    requires j <= |list|
  {
    set k | 0 <= k < j && !IsRoot(list[k]) :: Lower(Trim(list[k].slug))
  }

  predicate Named(slug: string, name: string) {
    Trim(slug) != "" && Trim(name) != ""
  }

  /** The child at `j` has a name and a parent that is stored, a root, or an earlier child. */
  predicate ChildPlaceable(list: seq<CategoryEntry>, j: nat, stored: set<string>)
    requires j < |list|
  {
    !IsRoot(list[j]) ==>
      Named(list[j].slug, list[j].name)
      && Lower(Trim(list[j].parent.value)) in stored + RootSlugs(list) + ChildSlugs(list, j)
  }

  predicate FlatNamed(list: seq<TaxonEntry>) {
    forall t <- list :: Trim(t.slug) != "" ==> Trim(t.name) != ""
  }

  predicate Importable(t: Taxonomy, stored: set<string>) {
    && (forall j :: 0 <= j < |t.categories| && IsRootTodo(t.categories[j]) ==> Trim(t.categories[j].name) != "")
    && (forall j :: 0 <= j < |t.categories| ==> ChildPlaceable(t.categories, j, stored))
    && FlatNamed(t.brands) && FlatNamed(t.tags)
  }

  lemma EnsureAddsKey(env: Env, p: Progress, slug: string, name: string, parent: Id)
    requires Sound(p) && p.ok && Trim(slug) == slug && NeverFails(env, p.calls)
    ensures var q := EnsureAndRecord(env, p, slug, name, parent);
            && (q.ok <==> slug != "" && Trim(name) != "")
            && (q.ok ==> Sound(q) && NeverFails(env, q.calls) && q.table.Keys == p.table.Keys + {Lower(slug)})
  {
    hide Lower, Trim, EnsureAndRecord, Sound;
    EnsureKeepsSound(env, p, slug, name, parent);
    EnsureSucceeds(env, p, slug, name, parent);
  }

  lemma {:induction false} RootsSucceed(env: Env, p: Progress, list: seq<CategoryEntry>, i: nat)
    requires i <= |list| && Sound(p) && p.ok && NeverFails(env, p.calls)
    ensures var q := ImportRoots(env, p, list, i, false);
            && (q.ok <==> forall j :: i <= j < |list| && IsRootTodo(list[j]) ==> Trim(list[j].name) != "")
            && (q.ok ==> Sound(q) && NeverFails(env, q.calls) && q.table.Keys == p.table.Keys + RootSlugs(list[i..]))
    decreases |list| - i
  {
    hide Lower, Trim, EnsureAndRecord, IsRoot, Sound;
    if i < |list| {
      var c := list[i];
      var slug := Trim(c.slug);
      assert list[i..] == [c] + list[i + 1..];
      assert RootSlugs(list[i..]) == RootSlugs(list[i + 1..]) + if IsRootTodo(c) then {Lower(slug)} else {};
      if !IsRootTodo(c) {
        RootsSucceed(env, p, list, i + 1);
      } else {
        TrimIsIdempotent(c.slug);
        EnsureAddsKey(env, p, slug, c.name, 0);
        if EnsureAndRecord(env, p, slug, c.name, 0).ok {
          RootsSucceed(env, EnsureAndRecord(env, p, slug, c.name, 0), list, i + 1);
        } else {
          assert IsRootTodo(list[i]) && Trim(list[i].name) == "";
        }
      }
    }
  }

  lemma {:induction false} ChildrenSucceed(env: Env, p: Progress, list: seq<CategoryEntry>, i: nat, stored: set<string>)
    requires i <= |list| && Sound(p) && p.ok && NeverFails(env, p.calls)
    requires p.table.Keys == stored + RootSlugs(list) + ChildSlugs(list, i)
    ensures var q := ImportChildren(env, p, list, i, false);
            && (q.ok <==> forall j :: i <= j < |list| ==> ChildPlaceable(list, j, stored))
            && (q.ok ==> NeverFails(env, q.calls))
    decreases |list| - i
  {
    hide Lower, Trim, EnsureAndRecord, IsRoot, Sound, ParentId, RootSlugs;
    if i < |list| {
      var c := list[i];
      var slug := Trim(c.slug);
      assert ChildSlugs(list, i + 1) == ChildSlugs(list, i) + if IsRoot(c) then {} else {Lower(slug)};
      if IsRoot(c) {
        ChildrenSucceed(env, p, list, i + 1, stored);
      } else {
        TrimIsIdempotent(c.slug);
        RootHasParent(c);
        TrimIsIdempotent(c.parent.value);
        ParentIdIsRight(env, p, Trim(c.parent.value));
        var (found, parent) := ParentId(env, p, Trim(c.parent.value));
        SoundAtAnyCall(p, found.calls);
        if parent.Some? {
          EnsureAddsKey(env, found, slug, c.name, parent.value);
          if EnsureAndRecord(env, found, slug, c.name, parent.value).ok {
            ChildrenSucceed(env, EnsureAndRecord(env, found, slug, c.name, parent.value), list, i + 1, stored);
          } else {
            assert !ChildPlaceable(list, i, stored);
          }
        } else {
          assert !ChildPlaceable(list, i, stored);
        }
      }
    }
  }

  lemma {:induction false} FlatSucceeds(env: Env, p: Progress, list: seq<TaxonEntry>, i: nat)
    requires i <= |list| && Sound(p) && p.ok && NeverFails(env, p.calls)
    ensures var q := ImportFlat(env, p, list, i, false);
            && (q.ok <==> forall j :: i <= j < |list| ==> (Trim(list[j].slug) != "" ==> Trim(list[j].name) != ""))
            && (q.ok ==> NeverFails(env, q.calls))
    decreases |list| - i
  {
    hide Lower, Trim, EnsureAndRecord, Sound;
    if i < |list| {
      var t := list[i];
      var slug := Trim(t.slug);
      if slug == "" {
        FlatSucceeds(env, p, list, i + 1);
      } else {
        TrimIsIdempotent(t.slug);
        EnsureAddsKey(env, p, slug, t.name, 0);
        if EnsureAndRecord(env, p, slug, t.name, 0).ok {
          FlatSucceeds(env, EnsureAndRecord(env, p, slug, t.name, 0), list, i + 1);
        } else {
          assert Trim(list[i].slug) != "" && Trim(list[i].name) == "";
        }
      }
    }
  }

  /** With no failing call the import succeeds exactly when everything is named and each child's parent is
      stored, a root, or an earlier child: the order of the roots does not matter. */
  lemma ImportSucceedsIff(env: Env, db: Db, calls: nat, t: Taxonomy)
    requires ValidTaxa(db) && NeverFails(env, calls)
    ensures ImportTaxonomy(env, db, calls, t, false).2.Some? <==> Importable(t, db.categories.Keys)
  {
    hide Lower, Trim, IsRoot, ImportRoots, ImportChildren, ImportFlat, ValidTable, ChildPlaceable, RootSlugs;
    StartIsSound(db.categories, db.nextId, calls);
    var p := Progress(db.categories, db.nextId, calls, map[], true);
    RootsSucceed(env, p, t.categories, 0);
    assert t.categories[0..] == t.categories;
    var roots := ImportRoots(env, p, t.categories, 0, false);
    if !roots.ok {
      StoppedStaysStopped(env, roots, t.categories);
    } else {
      assert ChildSlugs(t.categories, 0) == {};
      ChildrenSucceed(env, roots, t.categories, 0, db.categories.Keys);
      CategoriesImported(env, db, calls, t.categories);
      var c := ImportChildren(env, roots, t.categories, 0, false);
      if c.ok {
        FlatSucceedsIff(env, db.brands, db.nextId, c.nextId, c.calls, t.brands);
        var b := ImportFlat(env, Progress(db.brands, c.nextId, c.calls, map[], true), t.brands, 0, false);
        ValidWithLaterIds(db.brands, db.nextId, c.nextId);
        FlatListImported(env, db.brands, c.nextId, c.calls, t.brands);
        if b.ok {
          FlatSucceedsIff(env, db.tags, db.nextId, b.nextId, b.calls, t.tags);
        }
      }
    }
  }

  lemma StoppedStaysStopped(env: Env, p: Progress, list: seq<CategoryEntry>)
    requires !p.ok
    ensures ImportChildren(env, p, list, 0, false) == p
  {
  }

  lemma FlatSucceedsIff(env: Env, table: Table, validFor: Id, nextId: Id, calls: nat, list: seq<TaxonEntry>)
    requires ValidTable(table, validFor) && validFor <= nextId && NeverFails(env, calls)
    ensures var q := ImportFlat(env, Progress(table, nextId, calls, map[], true), list, 0, false);
            (q.ok <==> FlatNamed(list)) && (q.ok ==> NeverFails(env, q.calls))
  {
    hide Trim, ValidTable, ImportFlat;
    ValidWithLaterIds(table, validFor, nextId);
    StartIsSound(table, nextId, calls);
    FlatSucceeds(env, Progress(table, nextId, calls, map[], true), list, 0);
    assert forall j :: 0 <= j < |list| ==> list[j] in list;
  }
}
