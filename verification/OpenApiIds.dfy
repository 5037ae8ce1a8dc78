/** The operation-id check, stated on the places of the document: which operations declare an id, and which of them are
    reported with which. */
module OpenApiIds {
  import opened Options
  import opened Sequences
  import opened Text
  import opened JsonTree
  import opened OpenApiRelease

  /** The operation under the given method field of the given path field. */
  datatype Place = Place(path: nat, method_: nat)

  predicate Before(a: Place, b: Place) {
    a.path < b.path || (a.path == b.path && a.method_ < b.method_)
  }

  predicate IsPlace(paths: seq<Field>, p: Place) {
    p.path < |paths| && paths[p.path].value.Obj? && p.method_ < |paths[p.path].value.fields|
  }

  /** An operation there declares `id`: it is an object, its method no extension, and its operationId a text that is
      `id` when trimmed, and not blank. */
  predicate DeclaresAt(paths: seq<Field>, p: Place, id: string) {
    IsPlace(paths, p) &&
    var f := paths[p.path].value.fields[p.method_];
    && f.value.Obj? && !("x-" <= Lower(f.key))
    && Get(f.value.fields, "operationId").Some? && Get(f.value.fields, "operationId").value.Str?
    && Trim(Get(f.value.fields, "operationId").value.s) == id && id != ""
  }

  function NameAt(paths: seq<Field>, p: Place, id: string): Operation
    requires IsPlace(paths, p)
  {
    Operation(paths[p.path].key, Lower(paths[p.path].value.fields[p.method_].key), id)
  }

  /// The declared operations are those at the declaring places, in order

  /** The places list the operations one by one, in document order, and every declaring place is among them. */
  ghost predicate Lists(paths: seq<Field>, n: nat, m: nat, places: seq<Place>, ops: seq<Operation>) {
    && |places| == |ops|
    && (forall k ::
          0 <= k < |ops| ==> DeclaresAt(paths, places[k], ops[k].id) && ops[k] == NameAt(paths, places[k], ops[k].id))
    && (forall k, l :: 0 <= k < l < |places| ==> Before(places[k], places[l]))
    && (forall k :: 0 <= k < |places| ==> Before(places[k], Place(n, m)))
    && (forall p, id :: DeclaresAt(paths, p, id) && Before(p, Place(n, m)) ==> p in places)
  }

  lemma DeclaringIsPlace(paths: seq<Field>, p: Place, id: string)
    requires DeclaresAt(paths, p, id)
    ensures IsPlace(paths, p) && NameAt(paths, p, id).id == id && Before(p, Place(|paths|, 0))
  {
    hide Trim, Lower, Get;
  }

  lemma DeclaredWhen(paths: seq<Field>, here: Place, id: string)
    requires IsPlace(paths, here)
    ensures DeclaresAt(paths, here, id) <==>
            Declared(paths[here.path].key, paths[here.path].value.fields[here.method_]) == [NameAt(paths, here, id)]
  {
    hide Trim, Lower, Get;
  }

  lemma DeclaredName(paths: seq<Field>, here: Place)
    requires IsPlace(paths, here)
    ensures var found := Declared(paths[here.path].key, paths[here.path].value.fields[here.method_]);
            found != [] ==> found == [NameAt(paths, here, found[0].id)]
  {
    hide Trim, Lower, Get;
  }

  lemma NextBefore(n: nat, m: nat)
    ensures forall p :: Before(p, Place(n, m + 1)) <==> Before(p, Place(n, m)) || p == Place(n, m)
  {
  }

  lemma PlaceSkipped(paths: seq<Field>, n: nat, m: nat, places: seq<Place>, ops: seq<Operation>)
    requires Lists(paths, n, m, places, ops) && forall id :: !DeclaresAt(paths, Place(n, m), id)
    ensures Lists(paths, n, m + 1, places, ops)
  {
    hide DeclaresAt, NameAt, IsPlace, Before;
    NextBefore(n, m);
  }

  lemma PlaceAdded(paths: seq<Field>, n: nat, m: nat, places: seq<Place>, ops: seq<Operation>, op: Operation)
    requires Lists(paths, n, m, places, ops)
    requires DeclaresAt(paths, Place(n, m), op.id) && IsPlace(paths, Place(n, m))
             && op == NameAt(paths, Place(n, m), op.id)
    ensures Lists(paths, n, m + 1, places + [Place(n, m)], ops + [op])
  {
    hide DeclaresAt, NameAt, IsPlace, Before;
    NextBefore(n, m);
    var here := Place(n, m);
    var places', ops' := places + [here], ops + [op];
    forall k | 0 <= k < |ops'|
      ensures DeclaresAt(paths, places'[k], ops'[k].id) && IsPlace(paths, places'[k])
              && ops'[k] == NameAt(paths, places'[k], ops'[k].id)
    {
      assert k < |ops| ==> places'[k] == places[k] && ops'[k] == ops[k];
      DeclaringIsPlace(paths, places'[k], ops'[k].id);
    }
  }

  lemma OneMorePlace(paths: seq<Field>, n: nat, m: nat, places: seq<Place>, ops: seq<Operation>)
    returns (places': seq<Place>)
    requires IsPlace(paths, Place(n, m)) && Lists(paths, n, m, places, ops)
    ensures Lists(paths, n, m + 1, places', ops + Declared(paths[n].key, paths[n].value.fields[m]))
  {
    hide Declared, DeclaresAt, Lists;
    var here, found := Place(n, m), Declared(paths[n].key, paths[n].value.fields[m]);
    DeclaresOneAtMost(paths[n].key, paths[n].value.fields[m]);
    if found == [] {
      forall id ensures !DeclaresAt(paths, here, id) {
        DeclaredWhen(paths, here, id);
      }
      PlaceSkipped(paths, n, m, places, ops);
      assert ops + [] == ops;
      places' := places;
    } else {
      DeclaredName(paths, here);
      DeclaredWhen(paths, here, found[0].id);
      PlaceAdded(paths, n, m, places, ops, found[0]);
      places' := places + [here];
    }
  }

  lemma NextPath(paths: seq<Field>, n: nat, m: nat, places: seq<Place>, ops: seq<Operation>)
    requires n < |paths| && m == |Methods(paths[n].value)| && Lists(paths, n, m, places, ops)
    ensures Lists(paths, n + 1, 0, places, ops)
  {
    hide Trim, Lower, Get;
    forall p, id | DeclaresAt(paths, p, id) && Before(p, Place(n + 1, 0)) ensures p in places {
      assert Before(p, Place(n, m));
    }
  }

  lemma MethodListed(path: string, methods: seq<Field>, m: nat)
    requires m < |methods|
    ensures DeclaredIn(path, methods[..m + 1]) == DeclaredIn(path, methods[..m]) + Declared(path, methods[m])
  {
    hide Declared;
    assert methods[..m + 1] == methods[..m] + [methods[m]];
    DeclaredInConcat(path, methods[..m], [methods[m]]);
    assert [methods[m]][1..] == [];
    assert DeclaredIn(path, [methods[m]]) == Declared(path, methods[m]);
  }

  lemma {:induction false} DeclaredInConcat(path: string, a: seq<Field>, b: seq<Field>)
    ensures DeclaredIn(path, a + b) == DeclaredIn(path, a) + DeclaredIn(path, b)
  {
    hide Declared;
    if a == [] {
      assert a + b == b;
    } else {
      DeclaredInConcat(path, a[1..], b);
      assert (a + b)[0] == a[0] && (a + b)[1..] == a[1..] + b;
      Regroup(Declared(path, a[0]), DeclaredIn(path, a[1..]), DeclaredIn(path, b));
    }
  }

  lemma PathListed(paths: seq<Field>, n: nat)
    requires n < |paths|
    ensures AllDeclared(paths[..n + 1]) == AllDeclared(paths[..n]) + DeclaredIn(paths[n].key, Methods(paths[n].value))
  {
    hide DeclaredIn;
    assert paths[..n + 1] == paths[..n] + [paths[n]];
    AllDeclaredConcat(paths[..n], [paths[n]]);
    assert [paths[n]][1..] == [];
    assert AllDeclared([paths[n]]) == DeclaredIn(paths[n].key, Methods(paths[n].value));
  }

  lemma {:induction false} AllDeclaredConcat(a: seq<Field>, b: seq<Field>)
    ensures AllDeclared(a + b) == AllDeclared(a) + AllDeclared(b)
  {
    hide DeclaredIn;
    if a == [] {
      assert a + b == b;
    } else {
      AllDeclaredConcat(a[1..], b);
      assert (a + b)[0] == a[0] && (a + b)[1..] == a[1..] + b;
      Regroup(DeclaredIn(a[0].key, Methods(a[0].value)), AllDeclared(a[1..]), AllDeclared(b));
    }
  }

  /** The places up to the mth method of the nth path. */
  lemma {:induction false} ListedUpTo(paths: seq<Field>, n: nat, m: nat) returns (places: seq<Place>)
    requires n <= |paths| && if n == |paths| then m == 0 else m <= |Methods(paths[n].value)|
    ensures Lists(paths, n, m, places,
                  AllDeclared(paths[..n])
                  + if m == 0 then [] else DeclaredIn(paths[n].key, Methods(paths[n].value)[..m]))
    decreases n, m
  {
    hide Lists, Declared, DeclaredIn, AllDeclared;
    if m > 0 {
      var methods := Methods(paths[n].value);
      var before := ListedUpTo(paths, n, m - 1);
      NoMethods(paths[n].key);
      MethodListed(paths[n].key, methods, m - 1);
      assert methods[..0] == [];
      Regroup(AllDeclared(paths[..n]), DeclaredIn(paths[n].key, methods[..m - 1]),
              Declared(paths[n].key, methods[m - 1]));
      assert m == 1
             ==> AllDeclared(paths[..n]) + [] == AllDeclared(paths[..n]) + DeclaredIn(paths[n].key, methods[..0]);
      places := OneMorePlace(paths, n, m - 1, before,
                             AllDeclared(paths[..n]) + DeclaredIn(paths[n].key, methods[..m - 1]));
    } else if n > 0 {
      var methods := Methods(paths[n - 1].value);
      var before := ListedUpTo(paths, n - 1, |methods|);
      NoMethods(paths[n - 1].key);
      PathListed(paths, n - 1);
      assert methods[..|methods|] == methods;
      NextPath(paths, n - 1, |methods|, before, AllDeclared(paths[..n]));
      assert AllDeclared(paths[..n]) + [] == AllDeclared(paths[..n]);
      places := before;
    } else {
      NothingDeclared(paths);
      assert paths[..0] == [];
      places := [];
    }
  }

  lemma NoMethods(path: string)
    ensures DeclaredIn(path, []) == []
  {
  }

  lemma NothingDeclared(paths: seq<Field>)
    ensures AllDeclared([]) == [] && Lists(paths, 0, 0, [], [])
  {
  }

  lemma AllListed(paths: seq<Field>) returns (places: seq<Place>)
    ensures Lists(paths, |paths|, 0, places, AllDeclared(paths))
  {
    hide Lists, AllDeclared;
    places := ListedUpTo(paths, |paths|, 0);
    assert paths[..|paths|] == paths && AllDeclared(paths) + [] == AllDeclared(paths);
  }

  /// The reports

  /** The first place that declares `id`. */
  ghost predicate FirstPlace(paths: seq<Field>, p: Place, id: string) {
    DeclaresAt(paths, p, id) && forall q :: DeclaresAt(paths, q, id) ==> q == p || Before(p, q)
  }

  /** A report names a later operation and the first one with the same id. */
  ghost predicate Collides(paths: seq<Field>, first: Place, later: Place, id: string, c: Collision) {
    && FirstPlace(paths, first, id) && DeclaresAt(paths, later, id) && Before(first, later)
    && c == Collision(NameAt(paths, first, id), NameAt(paths, later, id))
  }

  lemma {:induction false} IndexOfFirst(ops: seq<Operation>, id: string) returns (i: nat)
    requires FirstWith(ops, id).Some?
    ensures i < |ops| && ops[i] == FirstWith(ops, id).value && ops[i].id == id
    ensures forall j :: 0 <= j < i ==> ops[j].id != id
  {
    if ops[0].id == id {
      i := 0;
    } else {
      var k := IndexOfFirst(ops[1..], id);
      assert forall j :: 0 < j < |ops| ==> ops[j] == ops[1..][j - 1];
      i := k + 1;
    }
  }

  /** The ith operation is the first with its id, the kth a later one. */
  ghost predicate Repeats(ops: seq<Operation>, i: nat, k: nat) {
    i < k < |ops| && ops[i].id == ops[k].id && forall j :: 0 <= j < i ==> ops[j].id != ops[k].id
  }

  lemma {:induction false} CollisionsAre(ops: seq<Operation>, n: nat, c: Collision)
    requires n <= |ops|
    ensures c in CollisionsUpTo(ops, n) <==>
            exists i: nat, k: nat :: k < n && Repeats(ops, i, k) && c == Collision(ops[i], ops[k])
  {
    if n > 0 {
      CollisionsAre(ops, n - 1, c);
      var last := ops[n - 1];
      var first := FirstWith(ops[..n - 1], last.id);
      if first.Some? {
        var i := IndexOfFirst(ops[..n - 1], last.id);
        assert forall j :: 0 <= j < n - 1 ==> ops[..n - 1][j] == ops[j];
        assert Repeats(ops, i, n - 1);
      } else {
        FirstWithIs(ops[..n - 1], last.id);
        assert forall j :: 0 <= j < n - 1 ==> ops[..n - 1][j] == ops[j];
      }
    }
  }

  lemma ListedPlace(paths: seq<Field>, places: seq<Place>, k: nat)
    requires Lists(paths, |paths|, 0, places, AllDeclared(paths)) && k < |AllDeclared(paths)|
    ensures k < |places| && DeclaresAt(paths, places[k], AllDeclared(paths)[k].id)
    ensures IsPlace(paths, places[k]) && AllDeclared(paths)[k] == NameAt(paths, places[k], AllDeclared(paths)[k].id)
  {
    hide AllDeclared, DeclaresAt, NameAt;
    DeclaringIsPlace(paths, places[k], AllDeclared(paths)[k].id);
  }

  lemma DeclaredOnce(paths: seq<Field>, p: Place, id: string, id': string)
    requires DeclaresAt(paths, p, id) && DeclaresAt(paths, p, id')
    ensures id == id'
  {
    hide Trim, Lower, Get;
  }

  lemma PlaceIndex(paths: seq<Field>, places: seq<Place>, p: Place, id: string) returns (k: nat)
    requires Lists(paths, |paths|, 0, places, AllDeclared(paths)) && DeclaresAt(paths, p, id)
    ensures k < |places| && k < |AllDeclared(paths)| && places[k] == p && AllDeclared(paths)[k].id == id
    ensures IsPlace(paths, p) && AllDeclared(paths)[k] == NameAt(paths, p, id)
  {
    hide AllDeclared, DeclaresAt, NameAt, IsPlace;
    DeclaringIsPlace(paths, p, id);
    k :| 0 <= k < |places| && places[k] == p;
    DeclaredOnce(paths, p, id, AllDeclared(paths)[k].id);
  }

  lemma InOrder(paths: seq<Field>, places: seq<Place>, k: nat, l: nat)
    requires Lists(paths, |paths|, 0, places, AllDeclared(paths)) && k < |places| && l < |places|
    ensures k < l <==> Before(places[k], places[l])
  {
    hide AllDeclared, DeclaresAt, NameAt, IsPlace;
  }

  lemma FirstIndexIsFirstPlace(paths: seq<Field>, places: seq<Place>, i: nat, k: nat)
    requires Lists(paths, |paths|, 0, places, AllDeclared(paths)) && Repeats(AllDeclared(paths), i, k)
    ensures i < |places| && k < |places|
    ensures Collides(paths, places[i], places[k], AllDeclared(paths)[k].id,
                     Collision(AllDeclared(paths)[i], AllDeclared(paths)[k]))
  {
    hide AllDeclared, DeclaresAt, NameAt, IsPlace, Lists, Before;
    var ops := AllDeclared(paths);
    var id := ops[k].id;
    ListedPlace(paths, places, i);
    ListedPlace(paths, places, k);
    InOrder(paths, places, i, k);
    forall q | DeclaresAt(paths, q, id) ensures q == places[i] || Before(places[i], q) {
      var l := PlaceIndex(paths, places, q, id);
      InOrder(paths, places, i, l);
    }
  }

  lemma PlacesRepeat(paths: seq<Field>, places: seq<Place>, first: Place, later: Place, id: string, c: Collision)
    returns (i: nat, k: nat)
    requires Lists(paths, |paths|, 0, places, AllDeclared(paths)) && Collides(paths, first, later, id, c)
    ensures Repeats(AllDeclared(paths), i, k) && c == Collision(AllDeclared(paths)[i], AllDeclared(paths)[k])
  {
    hide AllDeclared, DeclaresAt, NameAt, IsPlace, Lists;
    var ops := AllDeclared(paths);
    i := PlaceIndex(paths, places, first, id);
    k := PlaceIndex(paths, places, later, id);
    InOrder(paths, places, i, k);
    forall j | 0 <= j < i ensures ops[j].id != id {
      ListedPlace(paths, places, j);
      InOrder(paths, places, j, i);
    }
  }

  /** Reported is exactly each later operation with the first one whose operationId is the same when trimmed. */
  lemma ReportedCollisions(paths: seq<Field>, c: Collision)
    ensures var ops := AllDeclared(paths);
            c in CollisionsUpTo(ops, |ops|) <==> exists first, later, id :: Collides(paths, first, later, id, c)
  {
    hide AllDeclared, Lists, Collides, CollisionsUpTo;
    var ops := AllDeclared(paths);
    var places := AllListed(paths);
    CollisionsAre(ops, |ops|, c);
    if c in CollisionsUpTo(ops, |ops|) {
      var i: nat, k: nat :| k < |ops| && Repeats(ops, i, k) && c == Collision(ops[i], ops[k]);
      FirstIndexIsFirstPlace(paths, places, i, k);
    }
    if first, later, id :| Collides(paths, first, later, id, c) {
      var i, k := PlacesRepeat(paths, places, first, later, id, c);
    }
  }

  /** Something is reported if and only if two operations of the document have operationIds that are the same when
      trimmed, and not blank. */
  lemma ReportedIff(paths: seq<Field>)
    ensures var ops := AllDeclared(paths);
            CollisionsUpTo(ops, |ops|) != [] <==>
            exists p, q, id :: p != q && DeclaresAt(paths, p, id) && DeclaresAt(paths, q, id)
  {
    hide AllDeclared, Lists, DeclaresAt, NameAt, CollisionsUpTo;
    var ops := AllDeclared(paths);
    var places := AllListed(paths);
    if CollisionsUpTo(ops, |ops|) != [] {
      var c := CollisionsUpTo(ops, |ops|)[0];
      ReportedCollisions(paths, c);
      var first, later, id :| Collides(paths, first, later, id, c);
    }
    if p, q, id :| p != q && DeclaresAt(paths, p, id) && DeclaresAt(paths, q, id) {
      var c := SomeCollision(paths, places, p, q, id);
      ReportedCollisions(paths, c);
    }
  }

  lemma SomeCollision(paths: seq<Field>, places: seq<Place>, p: Place, q: Place, id: string) returns (c: Collision)
    requires Lists(paths, |paths|, 0, places, AllDeclared(paths))
    requires p != q && DeclaresAt(paths, p, id) && DeclaresAt(paths, q, id)
    ensures exists first, later :: Collides(paths, first, later, id, c)
  {
    hide AllDeclared, DeclaresAt, NameAt, IsPlace, Lists, Collides;
    var ops := AllDeclared(paths);
    var k := PlaceIndex(paths, places, p, id);
    var l := PlaceIndex(paths, places, q, id);
    var later := if k < l then l else k;
    var i := FirstOccurrence(ops, id, later);
    assert Repeats(ops, i, later);
    FirstIndexIsFirstPlace(paths, places, i, later);
    c := Collision(ops[i], ops[later]);
  }

  lemma {:induction false} FirstOccurrence(ops: seq<Operation>, id: string, k: nat) returns (i: nat)
    requires k < |ops| && ops[k].id == id
    ensures i <= k && ops[i].id == id && forall j :: 0 <= j < i ==> ops[j].id != id
    decreases k
  {
    if j: nat :| j < k && ops[j].id == id {
      i := FirstOccurrence(ops, id, j);
    } else {
      i := k;
    }
  }
}
