/** What the scrubbing passes make of every node of a document, inside lists as well as below keys. */
module OpenApiNodes {
  import opened Options
  import opened Sequences
  import opened JsonTree
  import opened OpenApiRefs
  import opened OpenApiStrip
  import opened OpenApiRedaction

  function KeysOf(fields: seq<Field>): seq<string> {
    if fields == [] then [] else [fields[0].key] + KeysOf(fields[1..])
  }

  function CurrentKeys(keys: seq<string>): seq<string> {
    if keys == [] then []
    else (if keys[0] in LEGACY_KEYS then [] else [keys[0]]) + CurrentKeys(keys[1..])
  }

  /// Rewriting

  /** The same node with its text rewritten: lists keep their length, objects their keys. */
  predicate LooksRewritten(before: Option<Json>, after: Option<Json>) {
    match before
    case None => after == None
    case Some(Str(s)) => after == Some(Str(RedactText(s)))
    case Some(Arr(items)) => after.Some? && after.value.Arr? && |after.value.items| == |items|
    case Some(Obj(fields)) => after.Some? && after.value.Obj? && KeysOf(after.value.fields) == KeysOf(fields)
    case _ => after == before
  }

  lemma {:induction false} RedactedItem(items: seq<Json>, i: nat)
    requires i < |items|
    ensures RedactItems(items)[i] == Redact(items[i])
  {
    if i > 0 {
      RedactedItem(items[1..], i - 1);
    }
  }

  lemma {:induction false} RedactedKeys(fields: seq<Field>)
    ensures KeysOf(RedactFields(fields)) == KeysOf(fields)
  {
    hide Redact;
    if fields != [] {
      RedactedKeys(fields[1..]);
      assert RedactFields(fields)[1..] == RedactFields(fields[1..]);
    }
  }

  lemma {:induction false} RedactedNode(j: Json, path: seq<Step>)
    ensures NodeAt(Redact(j), path) ==
            match NodeAt(j, path) case Some(v) => Some(Redact(v)) case None => None
    decreases path
  {
    hide RedactText;
    if path != [] {
      if j.Obj? && path[0].Key? {
        GetRedacted(j.fields, path[0].name);
        var v := Get(j.fields, path[0].name);
        if v.Some? {
          RedactedNode(v.value, path[1..]);
        }
      } else if j.Arr? && path[0].Index? && path[0].i < |j.items| {
        RedactedItem(j.items, path[0].i);
        RedactedNode(j.items[path[0].i], path[1..]);
      }
    }
  }

  /** Rewriting changes nothing but the strings, each in its place. */
  lemma RedactionIsLocal(j: Json, path: seq<Step>)
    ensures LooksRewritten(NodeAt(j, path), NodeAt(Redact(j), path))
  {
    hide RedactText, NodeAt;
    RedactedNode(j, path);
    var node := NodeAt(j, path);
    if node.Some? && node.value.Obj? {
      RedactedKeys(node.value.fields);
    }
  }

  /// Dropping keys

  predicate NamesLegacyKey(path: seq<Step>) {
    exists s <- path :: s.Key? && s.name in LEGACY_KEYS
  }

  /** The path goes into a list under `required`. */
  predicate EntersRequired(path: seq<Step>) {
    exists i :: 0 <= i < |path| - 1 && path[i] == Key("required") && path[i + 1].Index?
  }

  predicate EndsInRequired(path: seq<Step>) {
    path != [] && path[|path| - 1] == Key("required")
  }

  /** The same node without legacy keys: lists keep their length, but under `required` they lose the legacy names. */
  predicate LooksStripped(before: Option<Json>, after: Option<Json>, required: bool) {
    match before
    case None => after == None
    case Some(Arr(items)) =>
      && after.Some? && after.value.Arr?
      && if required then after.value.items == KeepCurrentNames(items) else |after.value.items| == |items|
    case Some(Obj(fields)) =>
      after.Some? && after.value.Obj? && KeysOf(after.value.fields) == CurrentKeys(KeysOf(fields))
    case _ => after == before
  }

  lemma {:induction false} NamesConcat(a: seq<Json>, b: seq<Json>)
    ensures KeepCurrentNames(a + b) == KeepCurrentNames(a) + KeepCurrentNames(b)
  {
    if a == [] {
      assert a + b == b;
    } else {
      NamesConcat(a[1..], b);
      assert (a + b)[0] == a[0] && (a + b)[1..] == a[1..] + b;
      var first: seq<Json> := if IsLegacyName(a[0]) then [] else [a[0]];
      Regroup(first, KeepCurrentNames(a[1..]), KeepCurrentNames(b));
    }
  }

  /** The names kept under `required` are the current ones, in their order and as often as they were listed. */
  lemma NamesInOrder(a: seq<Json>, b: seq<Json>, x: Json)
    ensures KeepCurrentNames(a + b) == KeepCurrentNames(a) + KeepCurrentNames(b)
    ensures KeepCurrentNames([x]) == if x.Str? && x.s in LEGACY_KEYS then [] else [x]
  {
    NamesConcat(a, b);
    assert KeepCurrentNames([x][1..]) == [];
  }

  lemma {:induction false} StrippedItem(items: seq<Json>, i: nat)
    requires i < |items|
    ensures StripItems(items)[i] == Strip(items[i])
  {
    if i > 0 {
      StrippedItem(items[1..], i - 1);
    }
  }

  lemma {:induction false} ScalarsStay(items: seq<Json>)
    requires !HasUnhashable(items)
    ensures StripItems(items) == items
  {
    if items != [] {
      assert items[0] in items;
      ScalarsStay(items[1..]);
    }
  }

  lemma {:induction false} StrippedKeys(fields: seq<Field>)
    ensures KeysOf(StripFields(fields)) == CurrentKeys(KeysOf(fields))
  {
    hide StripField;
    if fields != [] {
      StrippedKeys(fields[1..]);
      var rest := StripFields(fields[1..]);
      assert KeysOf(fields)[1..] == KeysOf(fields[1..]);
      StripKeepsOne(fields[0]);
      if fields[0].key !in LEGACY_KEYS {
        assert ([StripField(fields[0])] + rest)[1..] == rest;
      } else {
        assert StripFields(fields) == rest;
      }
    }
  }

  lemma StripKeepsOne(f: Field)
    ensures StripField(f).key == f.key
  {
  }

  /** One step down from an object that does not raise. */
  lemma StripBelow(fields: seq<Field>, key: string)
    requires !StripRaises(Obj(fields)) && key !in LEGACY_KEYS && Get(fields, key).Some?
    ensures var v := Get(fields, key).value;
            && !StripRaises(v)
            && Get(StripFields(fields), key)
               == Some(if key == "required" && v.Arr? then Arr(KeepCurrentNames(v.items)) else Strip(v))
  {
    GetStripped(fields, key);
    GetIsMember(fields, key);
    var v := Get(fields, key).value;
    if key == "required" && v.Arr? {
      ScalarsStay(v.items);
    }
  }

  lemma LooksStrippedHere(v: Json)
    ensures LooksStripped(Some(v), Some(Strip(v)), false)
  {
    if v.Obj? {
      StrippedKeys(v.fields);
    }
  }

  /** Dropping keys changes nothing else: a path that names a legacy key leads nowhere, any other to the same node
      without its legacy keys. */
  lemma {:induction false} StrippingIsLocal(j: Json, path: seq<Step>)
    requires !StripRaises(j) && !EntersRequired(path)
    ensures if NamesLegacyKey(path) then NodeAt(Strip(j), path) == None
            else LooksStripped(NodeAt(j, path), NodeAt(Strip(j), path), EndsInRequired(path))
    decreases path, 1
  {
    hide StripRaises, LooksStripped, KeepCurrentNames;
    if path == [] {
      LooksStrippedHere(j);
    } else if j.Obj? && path[0].Key? {
      StrippedInObject(j.fields, path);
    } else if j.Arr? && path[0].Index? && path[0].i < |j.items| {
      StrippedInList(j.items, path);
    } else {
      NowhereToGo(j, path);
    }
  }

  lemma TailPath(path: seq<Step>)
    requires path != []
    ensures NamesLegacyKey(path) <==> (path[0].Key? && path[0].name in LEGACY_KEYS) || NamesLegacyKey(path[1..])
    ensures !EntersRequired(path) ==> !EntersRequired(path[1..])
    ensures |path| > 1 ==> EndsInRequired(path[1..]) == EndsInRequired(path)
  {
    assert path == [path[0]] + path[1..];
    if EntersRequired(path[1..]) {
      var i :| 0 <= i < |path[1..]| - 1 && path[1..][i] == Key("required") && path[1..][i + 1].Index?;
      assert path[i + 1] == Key("required") && path[i + 2].Index?;
    }
  }

  lemma {:induction false} StrippedInObject(fields: seq<Field>, path: seq<Step>)
    requires path != [] && path[0].Key? && !StripRaises(Obj(fields)) && !EntersRequired(path)
    ensures if NamesLegacyKey(path) then NodeAt(Obj(StripFields(fields)), path) == None
            else LooksStripped(NodeAt(Obj(fields), path), NodeAt(Obj(StripFields(fields)), path), EndsInRequired(path))
    decreases path, 0
  {
    hide StripRaises, KeepCurrentNames, EntersRequired, NamesLegacyKey;
    var key, rest := path[0].name, path[1..];
    TailPath(path);
    GetStripped(fields, key);
    if key !in LEGACY_KEYS && Get(fields, key).Some? {
      StripBelow(fields, key);
      var v := Get(fields, key).value;
      if rest == [] {
        LooksStrippedHere(v);
        NothingNamed(rest);
      } else if key == "required" && v.Arr? {
        NoIndexUnderRequired(path);
      } else {
        StrippingIsLocal(v, rest);
      }
    }
  }

  lemma NothingNamed(path: seq<Step>)
    requires path == []
    ensures !NamesLegacyKey(path)
  {
  }

  lemma NoIndexUnderRequired(path: seq<Step>)
    requires |path| > 1 && path[0] == Key("required") && !EntersRequired(path)
    ensures path[1].Key?
  {
  }

  lemma {:induction false} StrippedInList(items: seq<Json>, path: seq<Step>)
    requires path != [] && path[0].Index? && path[0].i < |items|
    requires !StripRaises(Arr(items)) && !EntersRequired(path)
    ensures if NamesLegacyKey(path) then NodeAt(Arr(StripItems(items)), path) == None
            else LooksStripped(NodeAt(Arr(items), path), NodeAt(Arr(StripItems(items)), path), EndsInRequired(path))
    decreases path, 0
  {
    hide KeepCurrentNames, EntersRequired, NamesLegacyKey, LooksStripped;
    TailPath(path);
    StrippedItem(items, path[0].i);
    StrippingIsLocal(items[path[0].i], path[1..]);
    if path[1..] == [] {
      NothingNamed(path[1..]);
    }
  }

  lemma NowhereToGo(j: Json, path: seq<Step>)
    requires path != [] && !(j.Obj? && path[0].Key?) && !(j.Arr? && path[0].Index? && path[0].i < |j.items|)
    ensures NodeAt(j, path) == None && NodeAt(Strip(j), path) == None
    ensures LooksStripped(NodeAt(j, path), NodeAt(Strip(j), path), EndsInRequired(path))
  {
  }
}
