/** tools/build_openapi.py: the two passes that drop legacy keys and legacy parameters. */
module OpenApiStrip {
  import opened Options
  import opened Sequences
  import opened JsonTree
  import opened OpenApiRefs

  const LEGACY_KEYS: set<string> := {
    "scope_id", "scopeId", "ScopeID",
    "organization_id", "organizationId", "OrganizationID",
    "tenant_id", "tenantId", "TenantID"
  }

  const METHODS: seq<string> := ["get", "post", "put", "patch", "delete", "options", "head"]

  /// First pass: drop legacy keys

  predicate IsLegacyName(j: Json) {
    j.Str? && j.s in LEGACY_KEYS
  }

  function KeepCurrentNames(items: seq<Json>): seq<Json> {
    if items == [] then []
    else (if IsLegacyName(items[0]) then [] else [items[0]]) + KeepCurrentNames(items[1..])
  }

  function Strip(j: Json): Json
    decreases j, 1
  {
    match j
    case Obj(fields) => Obj(StripFields(fields))
    case Arr(items) => Arr(StripItems(items))
    case _ => j
  }

  function StripItems(items: seq<Json>): (r: seq<Json>)
    ensures |r| == |items|
    decreases items, 0
  {
    if items == [] then [] else [Strip(items[0])] + StripItems(items[1..])
  }

  function StripField(f: Field): Field
    decreases f.value, 2
  {
    var value := Strip(f.value);
    Field(f.key, if f.key == "required" && value.Arr? then Arr(KeepCurrentNames(value.items)) else value)
  }

  function StripFields(fields: seq<Field>): seq<Field>
    decreases fields, 0
  {
    if fields == [] then []
    else (if fields[0].key in LEGACY_KEYS then [] else [StripField(fields[0])]) + StripFields(fields[1..])
  }

  /** Membership of a set is an error for lists and objects, so these `required` lists make the pass raise. */
  predicate HasUnhashable(items: seq<Json>) {
    exists x <- items :: x.Arr? || x.Obj?
  }

  predicate StripRaises(j: Json)
    decreases j
  {
    match j
    case Obj(fields) =>
      exists f <- fields :: f.key !in LEGACY_KEYS &&
        (StripRaises(f.value) || (f.key == "required" && f.value.Arr? && HasUnhashable(f.value.items)))
    case Arr(items) => exists x <- items :: StripRaises(x)
    case _ => false
  }

  lemma {:induction false} GetStripped(fields: seq<Field>, key: string)
    ensures Get(StripFields(fields), key) ==
            if key in LEGACY_KEYS then None
            else match Get(fields, key)
                 case Some(v) => Some(StripField(Field(key, v)).value)
                 case None => None
  {
    if fields != [] {
      GetStripped(fields[1..], key);
      var f := fields[0];
      if f.key in LEGACY_KEYS {
        assert StripFields(fields) == StripFields(fields[1..]);
      } else {
        assert StripFields(fields)[1..] == StripFields(fields[1..]);
      }
    }
  }

  /** Looking up a chain of keys is affected by stripping only where the chain names a legacy key. */
  lemma {:induction false} StripPreservesChains(j: Json, keys: seq<string>)
    ensures HasChain(Strip(j), keys) <==> HasChain(j, keys) && forall k <- keys :: k !in LEGACY_KEYS
    decreases keys
  {
    if keys != [] && j.Obj? {
      GetStripped(j.fields, keys[0]);
      if keys[0] !in LEGACY_KEYS && Get(j.fields, keys[0]).Some? {
        var v := Get(j.fields, keys[0]).value;
        StripPreservesChains(v, keys[1..]);
        if v.Arr? {
          assert keys == [keys[0]] + keys[1..];
        }
      }
    }
  }

  /** Stripping preserves lookup: a pointer resolves afterwards exactly when it did and avoids legacy keys. */
  lemma StripPreservesLookup(doc: Json, pointer: string)
    requires "#/" <= pointer
    ensures Resolves(Strip(doc), pointer) <==>
            Resolves(doc, pointer) && forall k <- Segments(pointer) :: k !in LEGACY_KEYS
  {
    StripPreservesChains(doc, Segments(pointer));
  }

  /** No object of the tree has a legacy key or requires one. */
  predicate FreeOfLegacyKeys(j: Json)
    decreases j
  {
    match j
    case Obj(fields) =>
      forall f <- fields :: && f.key !in LEGACY_KEYS
                            && FreeOfLegacyKeys(f.value)
                            && (f.key == "required" && f.value.Arr? ==> forall x <- f.value.items :: !IsLegacyName(x))
    case Arr(items) => forall x <- items :: FreeOfLegacyKeys(x)
    case _ => true
  }

  lemma {:induction false} KeptNames(items: seq<Json>)
    ensures forall x :: x in KeepCurrentNames(items) <==> x in items && !IsLegacyName(x)
  {
    if items != [] {
      KeptNames(items[1..]);
      assert items == [items[0]] + items[1..];
    }
  }

  lemma {:induction false} StripFreesTree(j: Json)
    ensures FreeOfLegacyKeys(Strip(j))
    decreases j, 1
  {
    match j
    case Obj(fields) => StripFreesFields(fields);
    case Arr(items) => StripFreesItems(items);
    case _ =>
  }

  lemma {:induction false} StripFreesItems(items: seq<Json>)
    ensures FreeOfLegacyKeys(Arr(StripItems(items)))
    decreases items, 0
  {
    if items != [] {
      StripFreesTree(items[0]);
      StripFreesItems(items[1..]);
      assert forall x <- StripItems(items) :: x == Strip(items[0]) || x in StripItems(items[1..]);
    }
  }

  lemma {:induction false} StripFreesFields(fields: seq<Field>)
    ensures FreeOfLegacyKeys(Obj(StripFields(fields)))
    decreases fields, 0
  {
    if fields != [] {
      var f := fields[0];
      StripFreesTree(f.value);
      StripFreesFields(fields[1..]);
      if f.key == "required" && f.value.Arr? {
        KeptNames(Strip(f.value).items);
      }
      assert forall g <- StripFields(fields) :: g == StripField(f) || g in StripFields(fields[1..]);
    }
  }

  lemma {:induction false} NothingToDrop(items: seq<Json>)
    requires forall x <- items :: !IsLegacyName(x)
    ensures KeepCurrentNames(items) == items
  {
    if items != [] {
      NothingToDrop(items[1..]);
    }
  }

  lemma {:induction false} StripLeavesFreeTree(j: Json)
    requires FreeOfLegacyKeys(j)
    ensures Strip(j) == j
    decreases j, 1
  {
    match j
    case Obj(fields) => StripLeavesFreeFields(fields);
    case Arr(items) => StripLeavesFreeItems(items);
    case _ =>
  }

  lemma {:induction false} StripLeavesFreeItems(items: seq<Json>)
    requires forall x <- items :: FreeOfLegacyKeys(x)
    ensures StripItems(items) == items
    decreases items, 0
  {
    if items != [] {
      StripLeavesFreeTree(items[0]);
      StripLeavesFreeItems(items[1..]);
    }
  }

  lemma {:induction false} StripLeavesFreeFields(fields: seq<Field>)
    requires FreeOfLegacyKeys(Obj(fields))
    ensures StripFields(fields) == fields
    decreases fields, 0
  {
    if fields != [] {
      var f := fields[0];
      assert f in fields;
      StripLeavesFreeTree(f.value);
      StripLeavesFreeFields(fields[1..]);
      if f.key == "required" && f.value.Arr? {
        NothingToDrop(f.value.items);
      }
    }
  }

  /** Stripping removes every legacy key at every depth, and doing it twice changes nothing more. */
  lemma StripIsCompleteAndIdempotent(j: Json)
    ensures FreeOfLegacyKeys(Strip(j))
    ensures Strip(Strip(j)) == Strip(j)
  {
    StripFreesTree(j);
    StripLeavesFreeTree(Strip(j));
  }

  /// Second pass: drop legacy parameters

  predicate IsLegacyParameter(x: Json) {
    x.Obj? && match Get(x.fields, "name") case Some(name) => IsLegacyName(name) case None => false
  }

  function KeepCurrentParameters(items: seq<Json>): seq<Json> {
    if items == [] then []
    else (if IsLegacyParameter(items[0]) then [] else [items[0]]) + KeepCurrentParameters(items[1..])
  }

  function CleanParameterField(f: Field): Field {
    if f.key == "parameters" && f.value.Arr? then Field(f.key, Arr(KeepCurrentParameters(f.value.items))) else f
  }

  function CleanParameterFields(fields: seq<Field>): (r: seq<Field>)
    ensures |r| == |fields|
  {
    if fields == [] then [] else [CleanParameterField(fields[0])] + CleanParameterFields(fields[1..])
  }

  function CleanOperation(j: Json): Json {
    if j.Obj? then Obj(CleanParameterFields(j.fields)) else j
  }

  function CleanPathItemField(f: Field): Field {
    if f.key in METHODS then Field(f.key, CleanOperation(f.value)) else CleanParameterField(f)
  }

  function CleanPathItemFields(fields: seq<Field>): (r: seq<Field>)
    ensures |r| == |fields|
  {
    if fields == [] then [] else [CleanPathItemField(fields[0])] + CleanPathItemFields(fields[1..])
  }

  function CleanPathItem(j: Json): Json {
    if j.Obj? then Obj(CleanPathItemFields(j.fields)) else j
  }

  function CleanPaths(fields: seq<Field>): (r: seq<Field>)
    ensures |r| == |fields|
  {
    if fields == [] then [] else [Field(fields[0].key, CleanPathItem(fields[0].value))] + CleanPaths(fields[1..])
  }

  function CleanSpecField(f: Field): Field {
    if f.key == "paths" && f.value.Obj? then Field(f.key, Obj(CleanPaths(f.value.fields))) else f
  }

  function CleanSpecFields(fields: seq<Field>): (r: seq<Field>)
    ensures |r| == |fields|
  {
    if fields == [] then [] else [CleanSpecField(fields[0])] + CleanSpecFields(fields[1..])
  }

  function DropParameters(spec: Json): Json {
    if spec.Obj? then Obj(CleanSpecFields(spec.fields)) else spec
  }

  /** A parameter whose name is a list or an object makes the membership test raise. */
  predicate RaisesOn(f: Field) {
    f.key == "parameters" && f.value.Arr? &&
    exists x <- f.value.items :: x.Obj? &&
      match Get(x.fields, "name") case Some(name) => name.Arr? || name.Obj? case None => false
  }

  predicate PathItemRaises(j: Json) {
    j.Obj? && exists f <- j.fields ::
      RaisesOn(f) || (f.key in METHODS && f.value.Obj? && exists g <- f.value.fields :: RaisesOn(g))
  }

  predicate ParametersRaise(spec: Json) {
    spec.Obj? &&
    (exists f <- spec.fields ::
       f.key == "paths" && f.value.Obj? && (exists p <- f.value.fields :: PathItemRaises(p.value)))
  }

  /** Same keys in the same places: `a` and `b` differ only in array contents and scalars. */
  predicate SameKeys(a: Json, b: Json)
    decreases a
  {
    (a.Obj? <==> b.Obj?) &&
    (a.Obj? ==> |a.fields| == |b.fields|) &&
    (a.Obj? ==>
      forall i ::
        0 <= i < |a.fields| ==> a.fields[i].key == b.fields[i].key && SameKeys(a.fields[i].value, b.fields[i].value))
  }

  lemma SameKeysReflexive(a: Json)
    ensures SameKeys(a, a)
  {
  }

  lemma {:induction false} SameKeysGet(a: seq<Field>, b: seq<Field>, key: string)
    requires SameKeys(Obj(a), Obj(b))
    ensures Get(a, key).Some? <==> Get(b, key).Some?
    ensures Get(a, key).Some? ==> SameKeys(Get(a, key).value, Get(b, key).value)
  {
    if a != [] {
      if a[0].key != key {
        SameKeysGet(a[1..], b[1..], key);
      } else {
        assert SameKeys(a[0].value, b[0].value);
      }
    }
  }

  lemma {:induction false} SameKeysSameChains(a: Json, b: Json, keys: seq<string>)
    requires SameKeys(a, b)
    ensures HasChain(a, keys) <==> HasChain(b, keys)
    decreases keys
  {
    if keys != [] && a.Obj? {
      SameKeysGet(a.fields, b.fields, keys[0]);
      if Get(a.fields, keys[0]).Some? {
        SameKeysSameChains(Get(a.fields, keys[0]).value, Get(b.fields, keys[0]).value, keys[1..]);
      }
    }
  }

  lemma {:induction false} CleanFieldsKeepKeys(fields: seq<Field>)
    ensures SameKeys(Obj(fields), Obj(CleanParameterFields(fields)))
  {
    if fields != [] {
      CleanFieldsKeepKeys(fields[1..]);
      SameKeysReflexive(fields[0].value);
    }
  }

  lemma {:induction false} CleanPathItemKeepsKeys(fields: seq<Field>)
    ensures SameKeys(Obj(fields), Obj(CleanPathItemFields(fields)))
  {
    if fields != [] {
      CleanPathItemKeepsKeys(fields[1..]);
      SameKeysReflexive(fields[0].value);
      if fields[0].value.Obj? {
        CleanFieldsKeepKeys(fields[0].value.fields);
      }
    }
  }

  lemma {:induction false} CleanPathsKeepKeys(fields: seq<Field>)
    ensures SameKeys(Obj(fields), Obj(CleanPaths(fields)))
  {
    if fields != [] {
      CleanPathsKeepKeys(fields[1..]);
      SameKeysReflexive(fields[0].value);
      if fields[0].value.Obj? {
        CleanPathItemKeepsKeys(fields[0].value.fields);
      }
    }
  }

  lemma {:induction false} CleanSpecKeepsKeys(fields: seq<Field>)
    ensures SameKeys(Obj(fields), Obj(CleanSpecFields(fields)))
  {
    if fields != [] {
      CleanSpecKeepsKeys(fields[1..]);
      SameKeysReflexive(fields[0].value);
      if fields[0].value.Obj? {
        CleanPathsKeepKeys(fields[0].value.fields);
      }
    }
  }

  lemma DropParametersKeepsKeys(spec: Json)
    ensures SameKeys(spec, DropParameters(spec))
  {
    if spec.Obj? {
      CleanSpecKeepsKeys(spec.fields);
    }
  }

  lemma {:induction false} GetCleanedPath(fields: seq<Field>, key: string)
    ensures Get(CleanPaths(fields), key) ==
            match Get(fields, key) case Some(v) => Some(CleanPathItem(v)) case None => None
  {
    if fields != [] {
      GetCleanedPath(fields[1..], key);
      assert CleanPaths(fields)[1..] == CleanPaths(fields[1..]);
    }
  }

  lemma {:induction false} GetCleanedSpec(fields: seq<Field>, key: string)
    ensures Get(CleanSpecFields(fields), key) ==
            match Get(fields, key) case Some(v) => Some(CleanSpecField(Field(key, v)).value) case None => None
  {
    if fields != [] {
      GetCleanedSpec(fields[1..], key);
      assert CleanSpecFields(fields)[1..] == CleanSpecFields(fields[1..]);
    }
  }

  lemma {:induction false} GetCleanedPathItem(fields: seq<Field>, key: string)
    ensures Get(CleanPathItemFields(fields), key) ==
            match Get(fields, key) case Some(v) => Some(CleanPathItemField(Field(key, v)).value) case None => None
  {
    if fields != [] {
      GetCleanedPathItem(fields[1..], key);
      assert CleanPathItemFields(fields)[1..] == CleanPathItemFields(fields[1..]);
    }
  }

  lemma {:induction false} GetCleanedOperation(fields: seq<Field>, key: string)
    ensures Get(CleanParameterFields(fields), key) ==
            match Get(fields, key) case Some(v) => Some(CleanParameterField(Field(key, v)).value) case None => None
  {
    if fields != [] {
      GetCleanedOperation(fields[1..], key);
      assert CleanParameterFields(fields)[1..] == CleanParameterFields(fields[1..]);
    }
  }

  /** The node at `path` in a tree of nested objects. */
  function Descend(j: Json, path: seq<string>): Option<Json>
    decreases path
  {
    if path == [] then Some(j)
    else if !j.Obj? then None
    else match Get(j.fields, path[0]) case Some(v) => Descend(v, path[1..]) case None => None
  }

  /** The parameter lists of a document: those of its path items and of their operations. */
  predicate IsParameterPath(path: seq<string>) {
    || (|path| == 3 && path[0] == "paths" && path[2] == "parameters")
    || (|path| == 4 && path[0] == "paths" && path[2] in METHODS && path[3] == "parameters")
  }

  lemma {:induction false} KeptParameters(items: seq<Json>, x: Json)
    ensures x in KeepCurrentParameters(items) <==> x in items && !IsLegacyParameter(x)
  {
    if items != [] {
      KeptParameters(items[1..], x);
      assert items == [items[0]] + items[1..];
    }
  }

  lemma {:induction false} KeptConcat(a: seq<Json>, b: seq<Json>)
    ensures KeepCurrentParameters(a + b) == KeepCurrentParameters(a) + KeepCurrentParameters(b)
  {
    hide IsLegacyParameter;
    if a == [] {
      assert a + b == b;
    } else {
      KeptConcat(a[1..], b);
      assert (a + b)[0] == a[0] && (a + b)[1..] == a[1..] + b;
      var first: seq<Json> := if IsLegacyParameter(a[0]) then [] else [a[0]];
      Regroup(first, KeepCurrentParameters(a[1..]), KeepCurrentParameters(b));
    }
  }

  lemma {:induction false} KeptMultiplicity(items: seq<Json>, x: Json)
    ensures multiset(KeepCurrentParameters(items))[x] == if IsLegacyParameter(x) then 0 else multiset(items)[x]
  {
    hide IsLegacyParameter;
    if items != [] {
      KeptMultiplicity(items[1..], x);
      var rest := KeepCurrentParameters(items[1..]);
      assert multiset(items) == multiset{items[0]} + multiset(items[1..]) by {
        assert items == [items[0]] + items[1..];
      }
      assert !IsLegacyParameter(items[0]) ==> multiset([items[0]] + rest) == multiset{items[0]} + multiset(rest);
      assert IsLegacyParameter(items[0]) ==> KeepCurrentParameters(items) == rest;
    }
  }

  /** Filtering keeps order and multiplicity: it distributes over concatenation, keeps each current parameter as often
      as it occurs and no legacy one. */
  lemma KeptInOrder(a: seq<Json>, b: seq<Json>, x: Json)
    ensures KeepCurrentParameters(a + b) == KeepCurrentParameters(a) + KeepCurrentParameters(b)
    ensures multiset(KeepCurrentParameters(a))[x] == if IsLegacyParameter(x) then 0 else multiset(a)[x]
  {
    hide KeepCurrentParameters, IsLegacyParameter;
    KeptConcat(a, b);
    KeptMultiplicity(a, x);
  }

  /** A parameter list without its legacy parameters; anything else as it is. */
  function Filtered(node: Option<Json>): Option<Json> {
    if node.Some? && node.value.Arr? then Some(Arr(KeepCurrentParameters(node.value.items))) else node
  }

  lemma CleanedOperationPath(op: Json, path: seq<string>)
    requires path != []
    ensures Descend(CleanOperation(op), path)
            == if path == ["parameters"] then Filtered(Descend(op, path)) else Descend(op, path)
  {
    if op.Obj? {
      OwnListPath(op.fields, CleanParameterFields(op.fields), path);
    }
  }

  lemma OwnListPath(fields: seq<Field>, cleaned: seq<Field>, path: seq<string>)
    requires path != [] && cleaned == CleanParameterFields(fields)
    ensures Descend(Obj(cleaned), path)
            == if path == ["parameters"] then Filtered(Descend(Obj(fields), path)) else Descend(Obj(fields), path)
  {
    GetCleanedOperation(fields, path[0]);
    assert path == [path[0]] + path[1..];
    hide KeepCurrentParameters;
  }

  lemma CleanedItemPath(item: Json, path: seq<string>)
    requires path != [] && !(|path| == 1 && path[0] in METHODS)
    ensures Descend(CleanPathItem(item), path) ==
            if path == ["parameters"] || (|path| == 2 && path[0] in METHODS && path[1] == "parameters")
            then Filtered(Descend(item, path)) else Descend(item, path)
  {
    if item.Obj? {
      GetCleanedPathItem(item.fields, path[0]);
      assert path == [path[0]] + path[1..];
      var v := Get(item.fields, path[0]);
      if v.Some? && path[0] in METHODS {
        CleanedOperationPath(v.value, path[1..]);
        assert path[1..] == ["parameters"] <==> |path| == 2 && path[1] == "parameters";
      }
      hide KeepCurrentParameters, CleanOperation;
    }
  }

  /** The document, the paths, one path item or one operation: the nodes that hold parameter lists. */
  predicate HoldsParameterLists(path: seq<string>) {
    || path == [] || path == ["paths"]
    || (|path| == 2 && path[0] == "paths")
    || (|path| == 3 && path[0] == "paths" && path[2] in METHODS)
  }

  /** The second pass changes exactly the parameter lists: of each it keeps the current parameters, and every node that
      neither is one nor holds one is as before. */
  lemma ParameterListsFiltered(spec: Json, path: seq<string>)
    requires !HoldsParameterLists(path)
    ensures Descend(DropParameters(spec), path) ==
            if IsParameterPath(path) then Filtered(Descend(spec, path)) else Descend(spec, path)
  {
    hide CleanPathItem, Filtered, Descend;
    if spec.Obj? {
      GetCleanedSpec(spec.fields, path[0]);
      DescendNext(spec, path);
      DescendNext(DropParameters(spec), path);
      var v := Get(spec.fields, path[0]);
      if v.Some? && path[0] == "paths" && v.value.Obj? {
        assert |path| >= 3;
        CleanedPathsPath(v.value.fields, path[1..]);
        assert IsParameterPath(path)
               <==> path[2..] == ["parameters"] || (|path| == 4 && path[2] in METHODS && path[3] == "parameters");
        assert path[1..][1..] == path[2..];
      } else if v.Some? && path[0] == "paths" {
        NothingInside(v.value, path[1..]);
        FilteredNothing();
      }
      FilteredNothing();
    } else {
      NothingInside(spec, path);
      FilteredNothing();
    }
  }

  lemma CleanedPathsPath(paths: seq<Field>, path: seq<string>)
    requires |path| >= 2 && !(|path| == 2 && path[1] in METHODS)
    ensures Descend(Obj(CleanPaths(paths)), path) ==
            if path[1..] == ["parameters"] || (|path| == 3 && path[1] in METHODS && path[2] == "parameters")
            then Filtered(Descend(Obj(paths), path)) else Descend(Obj(paths), path)
  {
    hide Filtered, CleanPathItem;
    GetCleanedPath(paths, path[0]);
    var item := Get(paths, path[0]);
    if item.Some? {
      CleanedItemPath(item.value, path[1..]);
    }
    FilteredNothing();
  }

  lemma DescendNext(j: Json, path: seq<string>)
    requires path != [] && j.Obj?
    ensures Descend(j, path) == match Get(j.fields, path[0]) case Some(v) => Descend(v, path[1..]) case None => None
  {
  }

  lemma NothingInside(j: Json, path: seq<string>)
    requires path != [] && !j.Obj?
    ensures Descend(j, path) == None
  {
  }

  lemma FilteredNothing()
    ensures Filtered(None) == None
  {
  }
}
