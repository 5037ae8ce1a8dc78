/** The database behind the import, as its callers rely on it: slugs are unique ignoring case, SKUs and media
    public ids are unique, ids are fresh, and a failed call has no effect. */
module CatalogDatabase {
  import opened Options
  import opened Text

  /** Zero is the nil id. */
  type Id = nat

  datatype Row = Row(id: Id, slug: string, name: string, parent: Option<Id>)

  /** Categories, brands or tags, by lower-cased slug. */
  type Table = map<string, Row>

  datatype ProductRow = ProductRow(
    id: Id, name: string, description: string, active: bool, category: Option<Id>, brand: Option<Id>, tags: set<Id>,
    media: Id)

  datatype MediaRow = MediaRow(id: Id, sku: string, publicId: string)

  /** `books` holds the active default price books, the one that takes effect last at the end. */
  datatype Db = Db(
    categories: Table, brands: Table, tags: Table, products: map<string, ProductRow>,
    media: seq<MediaRow>, books: seq<Id>, prices: map<(Id, Id), int>, nextId: Id)

  /** `fails(n)` tells whether the nth outside call returns an error, `providerId(n)` what public id an upload gets. */
  datatype Env = Env(fails: nat -> bool, providerId: nat -> string)

  /** No outside call fails from the nth on. */
  ghost predicate NeverFails(env: Env, n: nat) {
    forall k: nat :: k >= n ==> !env.fails(k)
  }

  datatype Creation = Created(id: Id) | DuplicateSlug | Refused

  function CreateRow(
    fails: bool, table: Table, nextId: Id, slug: string, name: string, parent: Id): (Table, Id, Creation) {
    var s, n := Trim(slug), Trim(name);
    if s == "" || n == "" || fails then (table, nextId, Refused)
    else if Lower(s) in table then (table, nextId, DuplicateSlug)
    else (table[Lower(s) := Row(nextId, s, n, if parent == 0 then None else Some(parent))], nextId + 1, Created(nextId))
  }

  function LookupRow(fails: bool, table: Table, slug: string): Option<Id> {
    if !fails && Lower(Trim(slug)) in table then Some(table[Lower(Trim(slug))].id) else None
  }

  /** Ids are issued below `nextId`, are never nil and never shared; rows sit under their own slug. */
  predicate ValidTable(table: Table, nextId: Id) {
    && 0 < nextId
    && (forall k <- table :: 0 < table[k].id < nextId && k == Lower(table[k].slug))
    && (forall k, l :: k in table && l in table && table[k].id == table[l].id ==> k == l)
  }

  ghost predicate Grows<V>(before: map<string, V>, after: map<string, V>) {
    forall k <- before :: k in after && after[k] == before[k]
  }

  /** The row carries the trimmed slug and name. */
  predicate Names(row: Row, slug: string, name: string) {
    row.slug == Trim(slug) && row.name == Trim(name)
  }

  /** What an insertion does, whether or not it succeeds. */
  lemma CreateKeepsValid(fails: bool, table: Table, nextId: Id, slug: string, name: string, parent: Id)
    requires ValidTable(table, nextId) && Trim(slug) == slug
    ensures var (after, next, c) := CreateRow(fails, table, nextId, slug, name, parent);
            && ValidTable(after, next) && nextId <= next && Grows(table, after)
            && (c.Created?
                ==> slug != "" && Lower(slug) !in table && Lower(slug) in after && after[Lower(slug)].id == c.id
                               && after == table[Lower(slug) := after[Lower(slug)]]
                               && after[Lower(slug)].parent == (if parent == 0 then None else Some(parent))
                               && Names(after[Lower(slug)], slug, name))
            && (!c.Created? ==> after == table && next == nextId)
            && (c.DuplicateSlug? ==> slug != "" && Lower(slug) in table)
            && (c.Refused? <==> slug == "" || Trim(name) == "" || fails)
  {
    hide Lower, Trim;
  }
}
