/** The first two scrubbing passes with their membership tests as steps that may raise: `None` is an error that ends
    the pass. They raise exactly where the guards of the scrub say. */
module OpenApiRaise {
  import opened Options
  import opened JsonTree
  import opened OpenApiStrip
  import opened OpenApiRedaction
  import opened OpenApiScrub

  /** Whether a value is one of the legacy names; lists and objects cannot be looked up in a set. */
  function TryMember(x: Json): Option<bool> {
    if x.Arr? || x.Obj? then None else Some(IsLegacyName(x))
  }

  /// Dropping keys

  function TryKeepNames(items: seq<Json>): Option<seq<Json>> {
    if items == [] then Some([])
    else
      match (TryMember(items[0]), TryKeepNames(items[1..]))
      case (Some(legacy), Some(rest)) => Some((if legacy then [] else [items[0]]) + rest)
      case _ => None
  }

  function TryStrip(j: Json): Option<Json>
    decreases j, 1
  {
    match j
    case Obj(fields) => (match TryStripFields(fields) case Some(r) => Some(Obj(r)) case None => None)
    case Arr(items) => (match TryStripItems(items) case Some(r) => Some(Arr(r)) case None => None)
    case _ => Some(j)
  }

  function TryStripItems(items: seq<Json>): Option<seq<Json>>
    decreases items, 0
  {
    if items == [] then Some([])
    else
      match (TryStrip(items[0]), TryStripItems(items[1..]))
      case (Some(first), Some(rest)) => Some([first] + rest)
      case _ => None
  }

  function TryStripField(f: Field): Option<Field>
    decreases f.value, 2
  {
    match TryStrip(f.value)
    case None => None
    case Some(value) =>
      if f.key == "required" && value.Arr? then
        match TryKeepNames(value.items) case Some(kept) => Some(Field(f.key, Arr(kept))) case None => None
      else Some(Field(f.key, value))
  }

  function TryStripFields(fields: seq<Field>): Option<seq<Field>>
    decreases fields, 0
  {
    if fields == [] then Some([])
    else if fields[0].key in LEGACY_KEYS then TryStripFields(fields[1..])
    else
      match (TryStripField(fields[0]), TryStripFields(fields[1..]))
      case (Some(first), Some(rest)) => Some([first] + rest)
      case _ => None
  }

  lemma {:induction false} NamesRaise(items: seq<Json>)
    ensures TryKeepNames(items) == if HasUnhashable(items) then None else Some(KeepCurrentNames(items))
  {
    if items != [] {
      NamesRaise(items[1..]);
      assert items == [items[0]] + items[1..];
    }
  }

  lemma UnhashableFirst(x: Json, items: seq<Json>)
    ensures HasUnhashable([x] + items) <==> x.Arr? || x.Obj? || HasUnhashable(items)
  {
    if HasUnhashable(items) {
      var y :| y in items && (y.Arr? || y.Obj?);
      assert y in [x] + items;
    }
    assert x in [x] + items;
  }

  lemma {:induction false} StrippedKinds(items: seq<Json>)
    ensures HasUnhashable(StripItems(items)) <==> HasUnhashable(items)
  {
    if items != [] {
      StrippedKinds(items[1..]);
      UnhashableFirst(items[0], items[1..]);
      UnhashableFirst(Strip(items[0]), StripItems(items[1..]));
      assert items == [items[0]] + items[1..];
      hide HasUnhashable;
    }
  }

  /** Dropping keys raises exactly where the tree holds a list or an object inside a `required` list. */
  lemma {:induction false} StripRaisesExactly(j: Json)
    ensures TryStrip(j) == if StripRaises(j) then None else Some(Strip(j))
    decreases j, 1
  {
    match j
    case Obj(fields) => FieldsRaise(fields);
    case Arr(items) => ItemsRaise(items);
    case _ =>
  }

  lemma {:induction false} ItemsRaise(items: seq<Json>)
    ensures TryStripItems(items) == if exists x <- items :: StripRaises(x) then None else Some(StripItems(items))
    decreases items, 0
  {
    hide Strip, StripRaises;
    if items != [] {
      StripRaisesExactly(items[0]);
      ItemsRaise(items[1..]);
      assert items == [items[0]] + items[1..];
    }
  }

  predicate FieldRaises(f: Field) {
    StripRaises(f.value) || (f.key == "required" && f.value.Arr? && HasUnhashable(f.value.items))
  }

  lemma {:induction false} FieldRaisesExactly(f: Field)
    ensures TryStripField(f) == if FieldRaises(f) then None else Some(StripField(f))
    decreases f.value, 2
  {
    hide StripRaises;
    StripRaisesExactly(f.value);
    if f.value.Arr? {
      StrippedKinds(f.value.items);
      NamesRaise(StripItems(f.value.items));
    }
  }

  lemma {:induction false} FieldsRaise(fields: seq<Field>)
    ensures TryStripFields(fields) ==
            if SomeFieldRaises(fields) then None else Some(StripFields(fields))
    decreases fields, 0
  {
    hide FieldRaises, StripField, SomeFieldRaises;
    if fields != [] {
      FieldsRaise(fields[1..]);
      FirstFieldRaises(fields);
      if fields[0].key !in LEGACY_KEYS {
        FieldRaisesExactly(fields[0]);
      } else {
        assert StripFields(fields) == StripFields(fields[1..]);
      }
    } else {
      NoFieldRaises();
    }
  }

  predicate SomeFieldRaises(fields: seq<Field>) {
    exists f <- fields :: f.key !in LEGACY_KEYS && FieldRaises(f)
  }

  lemma FirstFieldRaises(fields: seq<Field>)
    requires fields != []
    ensures SomeFieldRaises(fields) <==>
            (fields[0].key !in LEGACY_KEYS && FieldRaises(fields[0])) || SomeFieldRaises(fields[1..])
  {
    hide FieldRaises;
    assert forall f :: f in fields <==> f == fields[0] || f in fields[1..];
  }

  lemma NoFieldRaises()
    ensures !SomeFieldRaises([])
  {
  }

  /// Dropping parameters

  function TryKeepParameters(items: seq<Json>): Option<seq<Json>> {
    if items == [] then Some([])
    else
      match (TryLegacyParameter(items[0]), TryKeepParameters(items[1..]))
      case (Some(legacy), Some(rest)) => Some((if legacy then [] else [items[0]]) + rest)
      case _ => None
  }

  function TryLegacyParameter(x: Json): Option<bool> {
    if !x.Obj? then Some(false)
    else match Get(x.fields, "name") case Some(name) => TryMember(name) case None => Some(false)
  }

  /** Rebuilds a list of fields one by one until a step raises. */
  function TryEach(step: Field -> Option<Field>, fields: seq<Field>): Option<seq<Field>> {
    if fields == [] then Some([])
    else
      match (step(fields[0]), TryEach(step, fields[1..]))
      case (Some(first), Some(rest)) => Some([first] + rest)
      case _ => None
  }

  function TryOwnParameters(f: Field): Option<Field> {
    if f.key == "parameters" && f.value.Arr? then
      match TryKeepParameters(f.value.items) case Some(kept) => Some(Field(f.key, Arr(kept))) case None => None
    else Some(f)
  }

  function TryInside(step: Field -> Option<Field>, f: Field): Option<Field> {
    if f.value.Obj? then
      match TryEach(step, f.value.fields) case Some(r) => Some(Field(f.key, Obj(r))) case None => None
    else Some(f)
  }

  function TryPathItemField(f: Field): Option<Field> {
    if f.key in METHODS then TryInside(TryOwnParameters, f) else TryOwnParameters(f)
  }

  function TryPath(f: Field): Option<Field> {
    TryInside(TryPathItemField, f)
  }

  function TrySpecField(f: Field): Option<Field> {
    if f.key == "paths" then TryInside(TryPath, f) else Some(f)
  }

  function TryDropParameters(spec: Json): Option<Json> {
    if !spec.Obj? then Some(spec)
    else match TryEach(TrySpecField, spec.fields) case Some(r) => Some(Obj(r)) case None => None
  }

  predicate UnhashableName(x: Json) {
    x.Obj? && match Get(x.fields, "name") case Some(name) => name.Arr? || name.Obj? case None => false
  }

  lemma MemberRaises(x: Json)
    ensures TryLegacyParameter(x) == if UnhashableName(x) then None else Some(IsLegacyParameter(x))
  {
  }

  lemma {:induction false} ParametersRaiseAtNames(items: seq<Json>)
    ensures TryKeepParameters(items)
            == if exists x <- items :: UnhashableName(x) then None else Some(KeepCurrentParameters(items))
  {
    if items != [] {
      ParametersRaiseAtNames(items[1..]);
      assert (exists x <- items :: UnhashableName(x))
             <==> UnhashableName(items[0]) || exists x <- items[1..] :: UnhashableName(x) by {
        assert forall x :: x in items <==> x == items[0] || x in items[1..];
      }
      MemberRaises(items[0]);
      hide UnhashableName, TryLegacyParameter, IsLegacyParameter;
      var first, rest := TryLegacyParameter(items[0]), TryKeepParameters(items[1..]);
      assert TryKeepParameters(items) ==
             if first.Some? && rest.Some? then Some((if first.value then [] else [items[0]]) + rest.value) else None;
    }
  }

  lemma OwnParametersRaise(f: Field)
    ensures TryOwnParameters(f) == if RaisesOn(f) then None else Some(CleanParameterField(f))
  {
    hide KeepCurrentParameters, TryKeepParameters;
    if f.value.Arr? {
      ParametersRaiseAtNames(f.value.items);
    }
  }

  /** A pass over fields raises when one of its steps does, and otherwise makes all of them. */
  ghost predicate StepsAre(step: Field -> Option<Field>, raises: Field -> bool, clean: Field -> Field) {
    forall f :: step(f) == if raises(f) then None else Some(clean(f))
  }

  function Each(clean: Field -> Field, fields: seq<Field>): seq<Field> {
    if fields == [] then [] else [clean(fields[0])] + Each(clean, fields[1..])
  }

  lemma {:induction false} EachRaises(
    step: Field -> Option<Field>, raises: Field -> bool, clean: Field -> Field, fields: seq<Field>)
    requires StepsAre(step, raises, clean)
    ensures TryEach(step, fields) == if exists f <- fields :: raises(f) then None else Some(Each(clean, fields))
  {
    if fields != [] {
      EachRaises(step, raises, clean, fields[1..]);
      assert forall f :: f in fields <==> f == fields[0] || f in fields[1..];
    }
  }

  lemma {:induction false} EachOwnParameters(fields: seq<Field>)
    ensures Each(CleanParameterField, fields) == CleanParameterFields(fields)
  {
    if fields != [] {
      EachOwnParameters(fields[1..]);
    }
  }

  lemma {:induction false} EachPathItemField(fields: seq<Field>)
    ensures Each(CleanPathItemField, fields) == CleanPathItemFields(fields)
  {
    if fields != [] {
      EachPathItemField(fields[1..]);
    }
  }

  function CleanPath(f: Field): Field {
    Field(f.key, CleanPathItem(f.value))
  }

  lemma {:induction false} EachPath(fields: seq<Field>)
    ensures Each(CleanPath, fields) == CleanPaths(fields)
  {
    if fields != [] {
      EachPath(fields[1..]);
    }
  }

  lemma {:induction false} EachSpecField(fields: seq<Field>)
    ensures Each(CleanSpecField, fields) == CleanSpecFields(fields)
  {
    if fields != [] {
      EachSpecField(fields[1..]);
    }
  }

  predicate PathItemFieldRaises(f: Field) {
    if f.key in METHODS then f.value.Obj? && exists g <- f.value.fields :: RaisesOn(g) else RaisesOn(f)
  }

  predicate PathRaises(f: Field) {
    f.value.Obj? && exists g <- f.value.fields :: PathItemFieldRaises(g)
  }

  predicate SpecFieldRaises(f: Field) {
    f.key == "paths" && f.value.Obj? && exists g <- f.value.fields :: PathRaises(g)
  }

  lemma PathItemFieldSteps()
    ensures StepsAre(TryPathItemField, PathItemFieldRaises, CleanPathItemField)
  {
    hide RaisesOn, CleanParameterField, TryOwnParameters, TryEach, CleanParameterFields;
    forall f: Field
      ensures TryPathItemField(f) == if PathItemFieldRaises(f) then None else Some(CleanPathItemField(f))
    {
      OwnParametersRaise(f);
      if f.value.Obj? {
        OwnSteps();
        EachRaises(TryOwnParameters, RaisesOn, CleanParameterField, f.value.fields);
        EachOwnParameters(f.value.fields);
      }
    }
  }

  lemma OwnSteps()
    ensures StepsAre(TryOwnParameters, RaisesOn, CleanParameterField)
  {
    hide RaisesOn, CleanParameterField, TryOwnParameters;
    forall f: Field ensures TryOwnParameters(f) == if RaisesOn(f) then None else Some(CleanParameterField(f)) {
      OwnParametersRaise(f);
    }
  }

  lemma PathSteps()
    ensures StepsAre(TryPath, PathRaises, CleanPath)
  {
    hide PathItemFieldRaises, CleanPathItemField, TryPathItemField, TryEach, CleanPathItemFields;
    PathItemFieldSteps();
    forall f: Field ensures TryPath(f) == if PathRaises(f) then None else Some(CleanPath(f)) {
      if f.value.Obj? {
        EachRaises(TryPathItemField, PathItemFieldRaises, CleanPathItemField, f.value.fields);
        EachPathItemField(f.value.fields);
      }
    }
  }

  lemma SpecFieldSteps()
    ensures StepsAre(TrySpecField, SpecFieldRaises, CleanSpecField)
  {
    hide PathRaises, CleanPath, TryPath, TryEach, CleanPaths;
    PathSteps();
    forall f: Field ensures TrySpecField(f) == if SpecFieldRaises(f) then None else Some(CleanSpecField(f)) {
      if f.value.Obj? {
        EachRaises(TryPath, PathRaises, CleanPath, f.value.fields);
        EachPath(f.value.fields);
      }
    }
  }

  lemma PathRaisesMeans(f: Field)
    ensures PathItemRaises(f.value) <==> PathRaises(f)
  {
    hide RaisesOn;
    MethodsAreNotLists();
  }

  lemma MethodsAreNotLists()
    ensures forall f: Field :: f.key in METHODS ==> !RaisesOn(f)
  {
  }

  /** Dropping parameters raises exactly where a listed parameter has a list or an object for a name. */
  lemma ParametersRaiseExactly(spec: Json)
    ensures TryDropParameters(spec) == if ParametersRaise(spec) then None else Some(DropParameters(spec))
  {
    hide PathItemRaises, PathRaises, CleanSpecField, TrySpecField, TryEach, CleanSpecFields;
    if spec.Obj? {
      SpecFieldSteps();
      EachRaises(TrySpecField, SpecFieldRaises, CleanSpecField, spec.fields);
      EachSpecField(spec.fields);
      forall f: Field ensures PathItemRaises(f.value) <==> PathRaises(f) {
        PathRaisesMeans(f);
      }
    }
  }

  /** The passes run one after the other until one raises. */
  function TryScrub(spec: Json): Option<Json> {
    match TryStrip(spec)
    case None => None
    case Some(stripped) =>
      if !stripped.Obj? then Some(spec)
      else match TryDropParameters(stripped) case Some(dropped) => Some(Redact(dropped)) case None => None
  }

  /** The scrub raises exactly where its guards say, and otherwise gives the scrubbed document. */
  lemma ScrubRaisesExactly(spec: Json)
    ensures TryScrub(spec) == Scrub(spec)
  {
    hide StripRaises, ParametersRaise, TryDropParameters, DropParameters, Redact;
    StripRaisesExactly(spec);
    ParametersRaiseExactly(Strip(spec));
  }
}
