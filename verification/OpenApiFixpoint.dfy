/** The scrubbed document as a whole: nothing legacy is left in it, and scrubbing it again changes nothing. */
module OpenApiFixpoint {
  import opened Options
  import opened Text
  import opened JsonTree
  import opened OpenApiStrip
  import opened OpenApiRedaction
  import opened OpenApiScrub
  import opened OpenApiNodes

  /** No legacy key at any depth, and `required` lists of plain values none of which is a legacy name. */
  predicate Tidy(j: Json)
    decreases j
  {
    match j
    case Obj(fields) => forall f <- fields :: TidyField(f)
    case Arr(items) => forall x <- items :: Tidy(x)
    case _ => true
  }

  predicate TidyField(f: Field)
    decreases f
  {
    && f.key !in LEGACY_KEYS && Tidy(f.value)
    && (f.key == "required" && f.value.Arr? ==> forall x <- f.value.items :: PlainName(x))
  }

  predicate PlainName(x: Json) {
    !IsLegacyName(x) && !x.Arr? && !x.Obj?
  }

  lemma {:induction false} TidyMeansStripped(j: Json)
    requires Tidy(j)
    ensures FreeOfLegacyKeys(j) && !StripRaises(j)
    decreases j
  {
    match j
    case Obj(fields) =>
      forall f | f in fields ensures FreeOfLegacyKeys(f.value) && !StripRaises(f.value) { TidyMeansStripped(f.value); }
    case Arr(items) =>
      forall x | x in items ensures FreeOfLegacyKeys(x) && !StripRaises(x) { TidyMeansStripped(x); }
    case _ =>
  }

  /// Dropping keys makes a document tidy

  lemma {:induction false} StripTidies(j: Json)
    requires !StripRaises(j)
    ensures Tidy(Strip(j))
    decreases j, 1
  {
    match j
    case Obj(fields) => StripTidiesFields(fields);
    case Arr(items) => StripTidiesItems(items);
    case _ =>
  }

  lemma {:induction false} StripTidiesItems(items: seq<Json>)
    requires forall x <- items :: !StripRaises(x)
    ensures forall x <- StripItems(items) :: Tidy(x)
    decreases items, 0
  {
    if items != [] {
      assert items[0] in items;
      StripTidies(items[0]);
      StripTidiesItems(items[1..]);
      assert forall x <- StripItems(items) :: x == Strip(items[0]) || x in StripItems(items[1..]);
    }
  }

  lemma {:induction false} StripTidiesField(f: Field)
    requires !StripRaises(Obj([f])) && f.key !in LEGACY_KEYS
    ensures TidyField(StripField(f))
    decreases f.value, 2
  {
    hide Strip;
    assert f in [f];
    StripTidies(f.value);
    StripKeepsKind(f.value);
    if f.key == "required" && f.value.Arr? {
      ScalarsStay(f.value.items);
      KeptNames(f.value.items);
    }
  }

  lemma StripKeepsKind(j: Json)
    ensures if j.Arr? then Strip(j) == Arr(StripItems(j.items)) else !Strip(j).Arr?
  {
  }

  lemma {:induction false} StripTidiesFields(fields: seq<Field>)
    requires !StripRaises(Obj(fields))
    ensures Tidy(Obj(StripFields(fields)))
    decreases fields, 0
  {
    hide StripField, TidyField;
    if fields != [] {
      var f := fields[0];
      assert f in fields && forall g <- fields[1..] :: g in fields;
      StripTidiesFields(fields[1..]);
      if f.key !in LEGACY_KEYS {
        StripTidiesField(f);
      }
      assert forall g <- StripFields(fields) :: g == StripField(f) || g in StripFields(fields[1..]);
    }
  }

  /// Dropping parameters keeps it tidy

  lemma TidyParameters(f: Field)
    requires TidyField(f)
    ensures TidyField(CleanParameterField(f))
  {
    if f.key == "parameters" && f.value.Arr? {
      forall x ensures x in KeepCurrentParameters(f.value.items) ==> x in f.value.items {
        KeptParameters(f.value.items, x);
      }
    }
  }

  lemma {:induction false} TidyOperation(fields: seq<Field>)
    requires Tidy(Obj(fields))
    ensures Tidy(Obj(CleanParameterFields(fields)))
  {
    hide CleanParameterField, TidyField;
    if fields != [] {
      TidyParameters(fields[0]);
      TidyOperation(fields[1..]);
    }
  }

  lemma TidyItemField(f: Field)
    requires TidyField(f)
    ensures TidyField(CleanPathItemField(f))
  {
    if f.key in METHODS {
      if f.value.Obj? {
        TidyOperation(f.value.fields);
      }
    } else {
      TidyParameters(f);
    }
  }

  lemma {:induction false} TidyItem(fields: seq<Field>)
    requires Tidy(Obj(fields))
    ensures Tidy(Obj(CleanPathItemFields(fields)))
  {
    hide CleanPathItemField, TidyField;
    if fields != [] {
      TidyItemField(fields[0]);
      TidyItem(fields[1..]);
    }
  }

  lemma TidyPath(f: Field)
    requires TidyField(f)
    ensures TidyField(Field(f.key, CleanPathItem(f.value)))
  {
    if f.value.Obj? {
      TidyItem(f.value.fields);
    }
  }

  lemma {:induction false} TidyPaths(fields: seq<Field>)
    requires Tidy(Obj(fields))
    ensures Tidy(Obj(CleanPaths(fields)))
  {
    hide CleanPathItem, TidyField;
    if fields != [] {
      TidyPath(fields[0]);
      TidyPaths(fields[1..]);
    }
  }

  lemma TidySpecField(f: Field)
    requires TidyField(f)
    ensures TidyField(CleanSpecField(f))
  {
    if f.key == "paths" && f.value.Obj? {
      TidyPaths(f.value.fields);
    }
  }

  lemma {:induction false} TidySpec(fields: seq<Field>)
    requires Tidy(Obj(fields))
    ensures Tidy(Obj(CleanSpecFields(fields)))
  {
    hide CleanSpecField, TidyField;
    if fields != [] {
      TidySpecField(fields[0]);
      TidySpec(fields[1..]);
    }
  }

  /// Rewriting keeps it tidy

  lemma HoldsItself(s: string)
    requires s != ""
    ensures Contains(s, s)
  {
  }

  /** No clear text is a legacy name. */
  lemma ClearIsCurrent(j: Json)
    requires AllClear(j)
    ensures !IsLegacyName(j)
  {
    hide Contains;
    if IsLegacyName(j) {
      LegacyKeysAreTokens(j.s);
      HoldsItself(j.s);
      assert false;
    }
  }

  lemma {:induction false} RedactTidies(j: Json)
    requires Tidy(j)
    ensures Tidy(Redact(j))
    decreases j, 1
  {
    hide RedactText, TidyField;
    match j
    case Obj(fields) => RedactTidiesFields(fields);
    case Arr(items) => RedactTidiesItems(items);
    case _ =>
  }

  lemma {:induction false} RedactTidiesItems(items: seq<Json>)
    requires forall x <- items :: Tidy(x)
    ensures forall x <- RedactItems(items) :: Tidy(x)
    decreases items, 0
  {
    if items != [] {
      RedactTidies(items[0]);
      RedactTidiesItems(items[1..]);
    }
  }

  lemma {:induction false} PlainNamesRewritten(items: seq<Json>)
    requires forall x <- items :: PlainName(x)
    ensures forall x <- RedactItems(items) :: PlainName(x)
  {
    hide AllClear, IsLegacyName, RedactText;
    if items != [] {
      RedactedTreeIsClear(items[0]);
      ClearIsCurrent(Redact(items[0]));
      assert PlainName(items[0]) ==> !Redact(items[0]).Arr? && !Redact(items[0]).Obj?;
      PlainNamesRewritten(items[1..]);
    }
  }

  lemma {:induction false} RedactTidiesField(f: Field)
    requires TidyField(f)
    ensures TidyField(Field(f.key, Redact(f.value)))
    decreases f.value, 2
  {
    hide PlainName, RedactText;
    RedactTidies(f.value);
    if f.key == "required" && f.value.Arr? {
      PlainNamesRewritten(f.value.items);
    }
  }

  lemma {:induction false} RedactTidiesFields(fields: seq<Field>)
    requires Tidy(Obj(fields))
    ensures Tidy(Obj(RedactFields(fields)))
    decreases fields, 0
  {
    hide Redact, TidyField;
    if fields != [] {
      RedactTidiesField(fields[0]);
      RedactTidiesFields(fields[1..]);
    }
  }

  /// A clear document has no parameter to drop

  lemma ClearParameter(j: Json)
    requires AllClear(j)
    ensures !IsLegacyParameter(j)
  {
    hide Clear, IsLegacyName;
    if j.Obj? && Get(j.fields, "name").Some? {
      GetIsMember(j.fields, "name");
      ClearIsCurrent(Get(j.fields, "name").value);
    }
  }

  lemma {:induction false} AllKept(items: seq<Json>)
    requires forall x <- items :: AllClear(x)
    ensures KeepCurrentParameters(items) == items
  {
    hide AllClear, IsLegacyParameter;
    if items != [] {
      ClearParameter(items[0]);
      AllKept(items[1..]);
    }
  }

  lemma SameParameters(f: Field)
    requires AllClear(f.value)
    ensures CleanParameterField(f) == f
  {
    if f.key == "parameters" && f.value.Arr? {
      AllKept(f.value.items);
    }
  }

  lemma {:induction false} SameOperation(fields: seq<Field>)
    requires forall f <- fields :: AllClear(f.value)
    ensures CleanParameterFields(fields) == fields
  {
    hide AllClear, CleanParameterField;
    if fields != [] {
      SameParameters(fields[0]);
      SameOperation(fields[1..]);
    }
  }

  lemma SameItemField(f: Field)
    requires AllClear(f.value)
    ensures CleanPathItemField(f) == f
  {
    SameParameters(f);
    if f.value.Obj? {
      SameOperation(f.value.fields);
    }
  }

  lemma {:induction false} SameItem(fields: seq<Field>)
    requires forall f <- fields :: AllClear(f.value)
    ensures CleanPathItemFields(fields) == fields
  {
    hide AllClear, CleanPathItemField;
    if fields != [] {
      SameItemField(fields[0]);
      SameItem(fields[1..]);
    }
  }

  lemma {:induction false} SamePaths(fields: seq<Field>)
    requires forall f <- fields :: AllClear(f.value)
    ensures CleanPaths(fields) == fields
  {
    if fields != [] {
      assert fields[0] in fields;
      if fields[0].value.Obj? {
        SameItem(fields[0].value.fields);
      }
      SamePaths(fields[1..]);
    }
  }

  lemma {:induction false} SameSpec(fields: seq<Field>)
    requires forall f <- fields :: AllClear(f.value)
    ensures CleanSpecFields(fields) == fields
  {
    if fields != [] {
      assert fields[0] in fields;
      if fields[0].value.Obj? {
        SamePaths(fields[0].value.fields);
      }
      SameSpec(fields[1..]);
    }
  }

  /// Scrubbing does not make the second pass raise

  lemma {:induction false} RewrittenItemIsIn(items: seq<Json>, y: Json) returns (x: Json)
    requires y in RedactItems(items)
    ensures x in items && y == Redact(x)
  {
    hide Redact;
    if y == Redact(items[0]) {
      x := items[0];
    } else {
      assert RedactItems(items)[1..] == RedactItems(items[1..]);
      x := RewrittenItemIsIn(items[1..], y);
    }
  }

  lemma {:induction false} RewrittenFieldIsIn(fields: seq<Field>, g: Field) returns (f: Field)
    requires g in RedactFields(fields)
    ensures f in fields && g == Field(f.key, Redact(f.value))
  {
    hide Redact;
    if g == Field(fields[0].key, Redact(fields[0].value)) {
      f := fields[0];
    } else {
      assert RedactFields(fields)[1..] == RedactFields(fields[1..]);
      f := RewrittenFieldIsIn(fields[1..], g);
    }
  }

  /** The parameter `x` has a name no set can look up. */
  predicate Unnameable(x: Json) {
    x.Obj? && match Get(x.fields, "name") case Some(name) => name.Arr? || name.Obj? case None => false
  }

  lemma UnnameableBefore(x: Json)
    requires Unnameable(Redact(x))
    ensures Unnameable(x)
  {
    hide RedactText;
    GetRedacted(x.fields, "name");
  }

  lemma RaisedByRewriting(f: Field)
    requires RaisesOn(Field(f.key, Redact(f.value)))
    ensures RaisesOn(f)
  {
    hide RedactText;
    var y :| y in RedactItems(f.value.items) && Unnameable(y);
    var x := RewrittenItemIsIn(f.value.items, y);
    UnnameableBefore(x);
  }

  /** An own list of the object raises. */
  predicate OwnListRaises(j: Json) {
    j.Obj? && exists f <- j.fields :: RaisesOn(f)
  }

  lemma OwnListBefore(j: Json)
    requires OwnListRaises(Redact(j))
    ensures OwnListRaises(j)
  {
    hide RedactText, RaisesOn;
    var g :| g in RedactFields(j.fields) && RaisesOn(g);
    var f := RewrittenFieldIsIn(j.fields, g);
    RaisedByRewriting(f);
  }

  lemma ItemRaisesBefore(j: Json)
    requires PathItemRaises(Redact(j))
    ensures PathItemRaises(j)
  {
    hide RedactText, RaisesOn;
    var g :| g in RedactFields(j.fields) && (RaisesOn(g) || (g.key in METHODS && OwnListRaises(g.value)));
    var f := RewrittenFieldIsIn(j.fields, g);
    if RaisesOn(g) {
      RaisedByRewriting(f);
    } else {
      OwnListBefore(f.value);
    }
  }

  lemma RewritingRaisesNothing(spec: Json)
    requires ParametersRaise(Redact(spec))
    ensures ParametersRaise(spec)
  {
    hide RedactText, PathItemRaises;
    var g :| g in RedactFields(spec.fields) && g.key == "paths" && g.value.Obj?
             && (exists p <- g.value.fields :: PathItemRaises(p.value));
    var f := RewrittenFieldIsIn(spec.fields, g);
    var q :| q in RedactFields(f.value.fields) && PathItemRaises(q.value);
    var p := RewrittenFieldIsIn(f.value.fields, q);
    ItemRaisesBefore(p.value);
  }

  lemma RaisedByDropping(f: Field)
    requires RaisesOn(CleanParameterField(f))
    ensures RaisesOn(f)
  {
    hide KeepCurrentParameters;
    if f.key == "parameters" && f.value.Arr? {
      var x :| x in KeepCurrentParameters(f.value.items) && Unnameable(x);
      KeptParameters(f.value.items, x);
      assert x in f.value.items && Unnameable(x);
    }
  }

  lemma {:induction false} OperationRaisedBefore(fields: seq<Field>)
    requires exists g <- CleanParameterFields(fields) :: RaisesOn(g)
    ensures exists f <- fields :: RaisesOn(f)
  {
    hide RaisesOn, CleanParameterField;
    if RaisesOn(CleanParameterField(fields[0])) {
      RaisedByDropping(fields[0]);
    } else {
      assert CleanParameterFields(fields)[1..] == CleanParameterFields(fields[1..]);
      OperationRaisedBefore(fields[1..]);
    }
  }

  /** What makes a path item raise, one field at a time. */
  predicate ItemFieldRaises(f: Field) {
    RaisesOn(f) || (f.key in METHODS && OwnListRaises(f.value))
  }

  lemma ItemFieldRaisedBefore(f: Field)
    requires ItemFieldRaises(CleanPathItemField(f))
    ensures ItemFieldRaises(f)
  {
    hide RaisesOn;
    if f.key !in METHODS {
      RaisedByDropping(f);
    } else if f.value.Obj? && !RaisesOn(f) {
      MethodsAreNotLists(f);
      OperationRaisedBefore(f.value.fields);
    }
  }

  lemma MethodsAreNotLists(f: Field)
    requires f.key in METHODS
    ensures !RaisesOn(CleanPathItemField(f))
  {
  }

  lemma {:induction false} ItemRaisedBefore(fields: seq<Field>)
    requires exists g <- CleanPathItemFields(fields) :: ItemFieldRaises(g)
    ensures exists f <- fields :: ItemFieldRaises(f)
  {
    hide ItemFieldRaises, CleanPathItemField;
    if ItemFieldRaises(CleanPathItemField(fields[0])) {
      ItemFieldRaisedBefore(fields[0]);
    } else {
      assert CleanPathItemFields(fields)[1..] == CleanPathItemFields(fields[1..]);
      ItemRaisedBefore(fields[1..]);
    }
  }

  lemma RaisesByField(j: Json)
    ensures PathItemRaises(j) <==> j.Obj? && exists f <- j.fields :: ItemFieldRaises(f)
  {
    hide RaisesOn;
  }

  lemma PathRaisedBefore(j: Json)
    requires PathItemRaises(CleanPathItem(j))
    ensures PathItemRaises(j)
  {
    hide PathItemRaises, ItemFieldRaises;
    RaisesByField(j);
    RaisesByField(CleanPathItem(j));
    ItemRaisedBefore(j.fields);
  }

  lemma {:induction false} PathsRaisedBefore(fields: seq<Field>)
    requires exists g <- CleanPaths(fields) :: PathItemRaises(g.value)
    ensures exists f <- fields :: PathItemRaises(f.value)
  {
    hide PathItemRaises, CleanPathItem;
    if PathItemRaises(CleanPathItem(fields[0].value)) {
      PathRaisedBefore(fields[0].value);
      assert fields[0] in fields;
    } else {
      assert CleanPaths(fields)[1..] == CleanPaths(fields[1..]);
      PathsRaisedBefore(fields[1..]);
    }
  }

  predicate SpecFieldRaises(f: Field) {
    f.key == "paths" && f.value.Obj? && exists p <- f.value.fields :: PathItemRaises(p.value)
  }

  lemma {:induction false} SpecRaisedBefore(fields: seq<Field>)
    requires exists g <- CleanSpecFields(fields) :: SpecFieldRaises(g)
    ensures exists f <- fields :: SpecFieldRaises(f)
  {
    hide PathItemRaises;
    if SpecFieldRaises(CleanSpecField(fields[0])) {
      PathsRaisedBefore(fields[0].value.fields);
      assert SpecFieldRaises(fields[0]);
    } else {
      assert CleanSpecFields(fields)[1..] == CleanSpecFields(fields[1..]);
      SpecRaisedBefore(fields[1..]);
    }
  }

  lemma DroppingRaisesNothing(spec: Json)
    requires ParametersRaise(DropParameters(spec))
    ensures ParametersRaise(spec)
  {
    hide PathItemRaises;
    assert exists g <- CleanSpecFields(spec.fields) :: SpecFieldRaises(g);
    SpecRaisedBefore(spec.fields);
    var f :| f in spec.fields && SpecFieldRaises(f);
  }

  /** Scrubbing leaves nothing legacy: no key or required name at any depth, no parameter, no wording. What it leaves,
      it leaves again: scrubbing is done once. */
  lemma ScrubbedOnceIsScrubbed(doc: Json)
    requires Scrub(doc).Some?
    ensures doc.Obj? ==> FreeOfLegacyKeys(Scrub(doc).value) && AllClear(Scrub(doc).value)
    ensures Scrub(Scrub(doc).value) == Scrub(doc)
  {
    hide StripRaises, Tidy, FreeOfLegacyKeys, AllClear, ParametersRaise, Strip, CleanSpecFields, RedactText;
    if doc.Obj? {
      var stripped := Strip(doc);
      var dropped := DropParameters(stripped);
      var out := Redact(dropped);
      StripTidies(doc);
      StrippedObject(doc.fields);
      TidySpec(stripped.fields);
      RedactTidies(dropped);
      RedactedTreeIsClear(dropped);
      TidyMeansStripped(out);
      StripLeavesFreeTree(out);
      ClearDocument(out);
      if ParametersRaise(out) {
        RewritingRaisesNothing(dropped);
        DroppingRaisesNothing(stripped);
      }
    }
  }

  lemma StrippedObject(fields: seq<Field>)
    ensures Strip(Obj(fields)).Obj?
  {
  }

  lemma ClearDocument(out: Json)
    requires AllClear(out)
    ensures DropParameters(out) == out
  {
    hide CleanSpecFields, Clear;
    if out.Obj? {
      SameSpec(out.fields);
    }
  }
}
