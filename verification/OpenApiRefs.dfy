/** tools/openapi_refs.py: local JSON Pointer resolution and the reference check built on it. */
module OpenApiRefs {
  import opened Options
  import opened Sequences
  import opened JsonTree
  import opened Text

  /// Pointer resolution (sections 3 and 4 of RFC 6901)

  function Decode(raw: string): string {
    ReplaceAll(ReplaceAll(raw, "~1", "/"), "~0", "~")
  }

  function DecodeAll(parts: seq<string>): (r: seq<string>)
    ensures |r| == |parts|
  {
    if parts == [] then [] else [Decode(parts[0])] + DecodeAll(parts[1..])
  }

  function Segments(pointer: string): seq<string>
    requires "#/" <= pointer
  {
    DecodeAll(Split(pointer[2..], '/'))
  }

  /** The chain of object keys `keys` exists below `j`; arrays are never entered. */
  predicate HasChain(j: Json, keys: seq<string>)
    decreases keys
  {
    keys == [] ||
    (j.Obj? && Get(j.fields, keys[0]).Some? && HasChain(Get(j.fields, keys[0]).value, keys[1..]))
  }

  predicate Resolves(doc: Json, pointer: string) {
    "#/" <= pointer && HasChain(doc, Segments(pointer))
  }

  method ResolveLocalJsonPointer(doc: Json, pointer: string) returns (found: bool)
    ensures found == Resolves(doc, pointer)
  {
    if !("#/" <= pointer) {
      return false;
    }
    var cur := doc;
    var parts := Split(pointer[2..], '/');
    for i := 0 to |parts|
      invariant Resolves(doc, pointer) == HasChain(cur, DecodeAll(parts[i..]))
    {
      var part := Decode(parts[i]);
      assert DecodeAll(parts[i..]) == [part] + DecodeAll(parts[i + 1..]) by {
        assert parts[i..][1..] == parts[i + 1..];
      }
      if !cur.Obj? || Get(cur.fields, part).None? {
        return false;
      }
      cur := Get(cur.fields, part).value;
    }
    return true;
  }

  /** The escaping that pointers are written with; the inverse of `Decode`. */
  function Escape(key: string): string {
    if key == "" then ""
    else (if key[0] == '~' then "~0" else if key[0] == '/' then "~1" else [key[0]]) + Escape(key[1..])
  }

  function EscapeAll(keys: seq<string>): (r: seq<string>)
    ensures |r| == |keys|
  {
    if keys == [] then [] else [Escape(keys[0])] + EscapeAll(keys[1..])
  }

  function PointerTo(keys: seq<string>): string
    requires keys != []
  {
    "#/" + Join(EscapeAll(keys), '/')
  }

  /** `key` with only its tildes escaped: the text between the two decoding steps. */
  function EscapeTildes(key: string): string {
    if key == "" then "" else (if key[0] == '~' then "~0" else [key[0]]) + EscapeTildes(key[1..])
  }

  lemma NextIsKept(c: char, rest: string)
    requires c != '~' || rest == "" || rest[0] != '1'
    ensures ReplaceAll([c] + rest, "~1", "/") == [c] + ReplaceAll(rest, "~1", "/")
  {
    var s := [c] + rest;
    assert s[0] == c && s[1..] == rest;
    assert !("~1" <= s);
  }

  lemma NextIsSlash(rest: string)
    ensures ReplaceAll("~1" + rest, "~1", "/") == "/" + ReplaceAll(rest, "~1", "/")
  {
    assert ("~1" + rest)[2..] == rest;
  }

  lemma {:induction false} FirstDecodingStep(key: string)
    ensures ReplaceAll(Escape(key), "~1", "/") == EscapeTildes(key)
  {
    hide ReplaceAll;
    if key != "" {
      FirstDecodingStep(key[1..]);
      var rest := Escape(key[1..]);
      if key[0] == '~' {
        NextIsKept('0', rest);
        NextIsKept('~', "0" + rest);
        assert Escape(key) == ['~'] + ("0" + rest);
      } else if key[0] == '/' {
        NextIsSlash(rest);
      } else {
        NextIsKept(key[0], rest);
      }
    } else {
      EmptyStays();
    }
  }

  lemma EmptyStays()
    ensures ReplaceAll("", "~1", "/") == ""
  {
  }

  lemma {:induction false} SecondDecodingStep(key: string)
    ensures ReplaceAll(EscapeTildes(key), "~0", "~") == key
  {
    if key != "" {
      SecondDecodingStep(key[1..]);
      var e := EscapeTildes(key);
      if key[0] == '~' {
        assert e[2..] == EscapeTildes(key[1..]);
      } else {
        assert e[1..] == EscapeTildes(key[1..]);
      }
    }
  }

  lemma DecodeEscape(key: string)
    ensures Decode(Escape(key)) == key
  {
    FirstDecodingStep(key);
    SecondDecodingStep(key);
  }

  lemma {:induction false} DecodeAllEscapeAll(keys: seq<string>)
    ensures DecodeAll(EscapeAll(keys)) == keys
  {
    if keys != [] {
      DecodeEscape(keys[0]);
      DecodeAllEscapeAll(keys[1..]);
      assert EscapeAll(keys)[1..] == EscapeAll(keys[1..]);
    }
  }

  lemma {:induction false} EscapeHasNoSlash(key: string)
    ensures '/' !in Escape(key)
  {
    if key != "" {
      EscapeHasNoSlash(key[1..]);
    }
  }

  lemma {:induction false} EscapeAllHasNoSlash(keys: seq<string>)
    ensures forall p <- EscapeAll(keys) :: '/' !in p
  {
    if keys != [] {
      EscapeHasNoSlash(keys[0]);
      EscapeAllHasNoSlash(keys[1..]);
    }
  }

  /** Writing a chain of keys as a pointer loses nothing: it resolves exactly when the chain exists. */
  lemma PointerRoundTrip(doc: Json, keys: seq<string>)
    requires keys != []
    ensures Segments(PointerTo(keys)) == keys
    ensures Resolves(doc, PointerTo(keys)) <==> HasChain(doc, keys)
  {
    EscapeAllHasNoSlash(keys);
    SplitJoin(EscapeAll(keys), '/');
    DecodeAllEscapeAll(keys);
    assert PointerTo(keys)[2..] == Join(EscapeAll(keys), '/');
  }

  /// Unresolved references

  datatype Step = Key(name: string) | Index(i: nat)

  datatype Missing = Missing(path: seq<Step>, ref: string)

  /** The local reference held by this very node, if any. */
  function LocalRef(j: Json): Option<string> {
    if !j.Obj? then None else
    match Get(j.fields, "$ref")
    case Some(Str(r)) => if "#/" <= r then Some(r) else None
    case _ => None
  }

  function MissingHere(doc: Json, j: Json, path: seq<Step>): seq<Missing> {
    match LocalRef(j)
    case Some(r) => if Resolves(doc, r) then [] else [Missing(path, r)]
    case None => []
  }

  function MissingBelow(doc: Json, j: Json, path: seq<Step>): seq<Missing>
    decreases j, 1
  {
    MissingHere(doc, j, path) +
    match j
    case Obj(fields) => MissingInFields(doc, fields, path)
    case Arr(items) => MissingInItems(doc, items, 0, path)
    case _ => []
  }

  function MissingInFields(doc: Json, fields: seq<Field>, path: seq<Step>): seq<Missing>
    decreases fields, 0
  {
    if fields == [] then []
    else MissingBelow(doc, fields[0].value, path + [Key(fields[0].key)]) + MissingInFields(doc, fields[1..], path)
  }

  function MissingInItems(doc: Json, items: seq<Json>, from: nat, path: seq<Step>): seq<Missing>
    decreases items, 0
  {
    if items == [] then []
    else MissingBelow(doc, items[0], path + [Index(from)]) + MissingInItems(doc, items[1..], from + 1, path)
  }

  function UnresolvedLocalRefs(doc: Json): seq<Missing> {
    MissingBelow(doc, doc, [])
  }

  /** The recursive walk with its growing list of findings. */
  class RefWalker {
    const doc: Json
    var missing: seq<Missing>

    constructor (doc: Json)
      ensures this.doc == doc && missing == []
    {
      this.doc := doc;
      missing := [];
    }

    method Walk(obj: Json, path: seq<Step>)
      modifies this
      ensures missing == old(missing) + MissingBelow(doc, obj, path)
      decreases obj, 1
    {
      if obj.Obj? {
        var ref := Get(obj.fields, "$ref");
        if ref.Some? && ref.value.Str? && "#/" <= ref.value.s {
          var found := ResolveLocalJsonPointer(doc, ref.value.s);
          if !found {
            missing := missing + [Missing(path, ref.value.s)];
          }
        }
        assert missing == old(missing) + MissingHere(doc, obj, path);
        Regroup(old(missing), MissingHere(doc, obj, path), MissingInFields(doc, obj.fields, path));
        WalkFields(obj.fields, path);
      } else if obj.Arr? {
        assert MissingHere(doc, obj, path) == [];
        WalkItems(obj.items, path);
      }
    }

    method WalkFields(fields: seq<Field>, path: seq<Step>)
      modifies this
      ensures missing == old(missing) + MissingInFields(doc, fields, path)
      decreases fields, 0
    {
      ghost var found: seq<Missing> := [];
      for i := 0 to |fields|
        invariant missing == old(missing) + found
        invariant found + MissingInFields(doc, fields[i..], path) == MissingInFields(doc, fields, path)
      {
        MissingFromField(doc, fields, i, path);
        ghost var below := MissingBelow(doc, fields[i].value, path + [Key(fields[i].key)]);
        Regroup(found, below, MissingInFields(doc, fields[i + 1..], path));
        Regroup(old(missing), found, below);
        Walk(fields[i].value, path + [Key(fields[i].key)]);
        found := found + below;
      }
    }

    method WalkItems(items: seq<Json>, path: seq<Step>)
      modifies this
      ensures missing == old(missing) + MissingInItems(doc, items, 0, path)
      decreases items, 0
    {
      ghost var found: seq<Missing> := [];
      for i := 0 to |items|
        invariant missing == old(missing) + found
        invariant found + MissingInItems(doc, items[i..], i, path) == MissingInItems(doc, items, 0, path)
      {
        MissingFromItem(doc, items, i, path);
        ghost var below := MissingBelow(doc, items[i], path + [Index(i)]);
        Regroup(found, below, MissingInItems(doc, items[i + 1..], i + 1, path));
        Regroup(old(missing), found, below);
        Walk(items[i], path + [Index(i)]);
        found := found + below;
      }
    }
  }

  lemma MissingFromField(doc: Json, fields: seq<Field>, i: nat, path: seq<Step>)
    requires i < |fields|
    ensures MissingInFields(doc, fields[i..], path) ==
            MissingBelow(doc, fields[i].value, path + [Key(fields[i].key)])
              + MissingInFields(doc, fields[i + 1..], path)
  {
    assert fields[i..][1..] == fields[i + 1..];
  }

  lemma MissingFromItem(doc: Json, items: seq<Json>, i: nat, path: seq<Step>)
    requires i < |items|
    ensures MissingInItems(doc, items[i..], i, path) ==
            MissingBelow(doc, items[i], path + [Index(i)]) + MissingInItems(doc, items[i + 1..], i + 1, path)
  {
    assert items[i..][1..] == items[i + 1..];
  }

  method CollectUnresolvedLocalRefs(doc: Json) returns (missing: seq<Missing>)
    ensures missing == UnresolvedLocalRefs(doc)
  {
    var walker := new RefWalker(doc);
    walker.Walk(doc, []);
    missing := walker.missing;
  }

  /** The node that a path of keys and indices leads to. */
  function NodeAt(j: Json, path: seq<Step>): Option<Json>
    decreases path
  {
    if path == [] then Some(j)
    else
      match (path[0], j)
      case (Key(k), Obj(fields)) =>
        (match Get(fields, k) case Some(v) => NodeAt(v, path[1..]) case None => None)
      case (Index(i), Arr(items)) => if i < |items| then NodeAt(items[i], path[1..]) else None
      case _ => None
  }

  /** At `path` an object refers to a place of the document that is not there. */
  predicate Dangling(doc: Json, j: Json, path: seq<Step>, ref: string) {
    var node := NodeAt(j, path);
    && node.Some? && node.value.Obj? && Get(node.value.fields, "$ref") == Some(Str(ref))
    && "#/" <= ref && !HasChain(doc, Segments(ref))
  }

  lemma ReportedHere(doc: Json, j: Json, base: seq<Step>, m: Missing)
    requires m in MissingHere(doc, j, base)
    ensures base <= m.path && Dangling(doc, j, m.path[|base|..], m.ref)
  {
    assert m.path[|base|..] == [];
  }

  lemma DanglingInItem(doc: Json, items: seq<Json>, i: nat, path: seq<Step>, ref: string)
    requires i < |items| && path != [] && path[0] == Index(i) && Dangling(doc, items[i], path[1..], ref)
    ensures Dangling(doc, Arr(items), path, ref)
  {
    hide Resolves, LocalRef;
  }

  lemma {:induction false} ReportedIsDangling(doc: Json, j: Json, base: seq<Step>, m: Missing)
    requires WellFormed(j) && m in MissingBelow(doc, j, base)
    ensures base <= m.path && Dangling(doc, j, m.path[|base|..], m.ref)
    decreases j, 1
  {
    hide Resolves, LocalRef, NodeAt, Dangling, MissingHere;
    if m in MissingHere(doc, j, base) {
      ReportedHere(doc, j, base, m);
    } else if j.Obj? {
      ReportedInFields(doc, j.fields, base, m);
    } else {
      var i := ReportedInItems(doc, j.items, 0, base, m);
      var path := m.path[|base|..];
      assert path[0] == (base + [Index(i)])[|base|] && path[1..] == m.path[|base| + 1..];
      DanglingInItem(doc, j.items, i, path, m.ref);
    }
  }

  lemma DanglingInFirst(doc: Json, fields: seq<Field>, rest: seq<Step>, ref: string)
    requires fields != [] && Dangling(doc, fields[0].value, rest, ref)
    ensures Dangling(doc, Obj(fields), [Key(fields[0].key)] + rest, ref)
  {
    assert ([Key(fields[0].key)] + rest)[1..] == rest;
  }

  lemma DanglingInRest(doc: Json, fields: seq<Field>, path: seq<Step>, ref: string)
    requires fields != [] && UniqueKeys(fields) && Dangling(doc, Obj(fields[1..]), path, ref)
    ensures Dangling(doc, Obj(fields), path, ref)
  {
    var key := if path == [] then "$ref" else path[0].name;
    GetIsMember(fields[1..], key);
    var i :| 0 <= i < |fields[1..]| && fields[1..][i].key == key;
    assert fields[i + 1].key == key;
    assert Get(fields, key) == Get(fields[1..], key);
  }

  lemma {:induction false} ReportedInFields(doc: Json, fields: seq<Field>, base: seq<Step>, m: Missing)
    requires UniqueKeys(fields) && (forall f <- fields :: WellFormed(f.value))
             && m in MissingInFields(doc, fields, base)
    ensures base <= m.path && Dangling(doc, Obj(fields), m.path[|base|..], m.ref)
    decreases fields, 0
  {
    hide Resolves, LocalRef, NodeAt, Dangling;
    var f := fields[0];
    assert f in fields;
    var below := base + [Key(f.key)];
    if m in MissingBelow(doc, f.value, below) {
      ReportedIsDangling(doc, f.value, below, m);
      DanglingInFirst(doc, fields, m.path[|below|..], m.ref);
      assert m.path == below + m.path[|below|..];
      assert m.path[|base|..] == [Key(f.key)] + m.path[|below|..];
    } else {
      ReportedInFields(doc, fields[1..], base, m);
      DanglingInRest(doc, fields, m.path[|base|..], m.ref);
    }
  }

  lemma ReportedInFirstOrRest(doc: Json, items: seq<Json>, from: nat, base: seq<Step>, m: Missing)
    requires m in MissingInItems(doc, items, from, base)
    ensures items != []
    ensures m in MissingBelow(doc, items[0], base + [Index(from)])
            || m in MissingInItems(doc, items[1..], from + 1, base)
  {
    hide MissingBelow;
  }

  lemma {:induction false} ReportedInItems(doc: Json, items: seq<Json>, from: nat, base: seq<Step>, m: Missing)
    returns (i: nat)
    requires (forall x <- items :: WellFormed(x)) && m in MissingInItems(doc, items, from, base)
    ensures from <= i < from + |items| && base + [Index(i)] <= m.path
    ensures Dangling(doc, items[i - from], m.path[|base| + 1..], m.ref)
    decreases items, 0
  {
    hide Dangling, MissingBelow, MissingInItems, WellFormed;
    ReportedInFirstOrRest(doc, items, from, base, m);
    var first, rest := items[0], items[1..];
    var below := base + [Index(from)];
    assert first in items && forall x <- rest :: x in items;
    if m in MissingBelow(doc, first, below) {
      ReportedIsDangling(doc, first, below, m);
      return from;
    }
    i := ReportedInItems(doc, rest, from + 1, base, m);
    assert rest[i - from - 1] == items[i - from];
  }

  lemma DanglingHere(doc: Json, j: Json, base: seq<Step>, ref: string)
    requires Dangling(doc, j, [], ref)
    ensures Missing(base, ref) in MissingHere(doc, j, base)
  {
  }

  lemma {:induction false} DanglingIsReported(doc: Json, j: Json, base: seq<Step>, path: seq<Step>, ref: string)
    requires Dangling(doc, j, path, ref)
    ensures Missing(base + path, ref) in MissingBelow(doc, j, base)
    decreases j, 1
  {
    hide Resolves, LocalRef, HasChain;
    if path == [] {
      DanglingHere(doc, j, base, ref);
      assert base + path == base;
    } else if j.Obj? {
      DanglingInFields(doc, j.fields, base, path, ref);
    } else {
      DanglingInItems(doc, j.items, 0, base, path[0].i, path[1..], ref);
      assert base + [Index(path[0].i)] + path[1..] == base + path;
    }
  }

  lemma {:induction false} DanglingInFields(
    doc: Json, fields: seq<Field>, base: seq<Step>, path: seq<Step>, ref: string)
    requires path != [] && Dangling(doc, Obj(fields), path, ref)
    ensures Missing(base + path, ref) in MissingInFields(doc, fields, base)
    decreases fields, 0
  {
    var f := fields[0];
    if f.key == path[0].name {
      var below := base + [Key(f.key)];
      assert below + path[1..] == base + path;
      DanglingIsReported(doc, f.value, below, path[1..], ref);
    } else {
      DanglingInFields(doc, fields[1..], base, path, ref);
    }
  }

  lemma {:induction false} DanglingInItems(
    doc: Json, items: seq<Json>, from: nat, base: seq<Step>, i: nat, rest: seq<Step>, ref: string)
    requires from <= i < from + |items| && Dangling(doc, items[i - from], rest, ref)
    ensures Missing(base + [Index(i)] + rest, ref) in MissingInItems(doc, items, from, base)
    decreases items, 0
  {
    hide Resolves, LocalRef, NodeAt, Dangling;
    if i == from {
      DanglingIsReported(doc, items[0], base + [Index(from)], rest, ref);
    } else {
      DanglingInItems(doc, items[1..], from + 1, base, i, rest, ref);
    }
  }

  /// Each once

  lemma SameStep(base: seq<Step>, a: Step, b: Step, path: seq<Step>)
    requires base + [a] <= path
    ensures path != base
    ensures base + [b] <= path ==> a == b
  {
    assert (base + [a])[|base|] == a && (base + [b])[|base|] == b;
  }

  lemma {:induction false} ReportedBelowField(doc: Json, fields: seq<Field>, base: seq<Step>, m: Missing)
    returns (f: Field)
    requires (forall f <- fields :: WellFormed(f.value)) && m in MissingInFields(doc, fields, base)
    ensures f in fields && base + [Key(f.key)] <= m.path
  {
    hide MissingBelow, WellFormed, Dangling;
    f := fields[0];
    assert f in fields && forall g <- fields[1..] :: g in fields;
    var below := base + [Key(f.key)];
    if m in MissingBelow(doc, f.value, below) {
      ReportedIsDangling(doc, f.value, below, m);
    } else {
      f := ReportedBelowField(doc, fields[1..], base, m);
    }
  }

  lemma OnceHere(doc: Json, j: Json, base: seq<Step>, m: Missing)
    ensures multiset(MissingHere(doc, j, base))[m] <= 1
    ensures m in MissingHere(doc, j, base) ==> m.path == base
  {
    hide LocalRef, Resolves;
  }

  lemma {:induction false} OnceBelow(doc: Json, j: Json, base: seq<Step>, m: Missing)
    requires WellFormed(j)
    ensures multiset(MissingBelow(doc, j, base))[m] <= 1
    decreases j, 1
  {
    hide MissingHere, MissingInFields, MissingInItems, UniqueKeys, Dangling;
    OnceHere(doc, j, base, m);
    if j.Obj? {
      OnceInFields(doc, j.fields, base, m);
      if m in MissingInFields(doc, j.fields, base) {
        var f := ReportedBelowField(doc, j.fields, base, m);
        SameStep(base, Key(f.key), Key(f.key), m.path);
      }
    } else if j.Arr? {
      OnceInItems(doc, j.items, 0, base, m);
      if m in MissingInItems(doc, j.items, 0, base) {
        var i := ReportedInItems(doc, j.items, 0, base, m);
        SameStep(base, Index(i), Index(i), m.path);
      }
    }
  }

  lemma {:induction false} OnceInFields(doc: Json, fields: seq<Field>, base: seq<Step>, m: Missing)
    requires UniqueKeys(fields) && forall f <- fields :: WellFormed(f.value)
    ensures multiset(MissingInFields(doc, fields, base))[m] <= 1
    decreases fields, 0
  {
    hide MissingBelow, WellFormed, Dangling;
    if fields != [] {
      var f, rest := fields[0], fields[1..];
      assert f in fields && forall g <- rest :: g in fields && g.key != f.key;
      var below := base + [Key(f.key)];
      OnceBelow(doc, f.value, below, m);
      OnceInFields(doc, rest, base, m);
      if m in MissingBelow(doc, f.value, below) && m in MissingInFields(doc, rest, base) {
        ReportedIsDangling(doc, f.value, below, m);
        var g := ReportedBelowField(doc, rest, base, m);
        SameStep(base, Key(f.key), Key(g.key), m.path);
      }
    }
  }

  lemma {:induction false} OnceInItems(doc: Json, items: seq<Json>, from: nat, base: seq<Step>, m: Missing)
    requires forall x <- items :: WellFormed(x)
    ensures multiset(MissingInItems(doc, items, from, base))[m] <= 1
    decreases items, 0
  {
    hide MissingBelow, WellFormed, Dangling;
    if items != [] {
      var rest := items[1..];
      assert items[0] in items && forall x <- rest :: x in items;
      var below := base + [Index(from)];
      OnceBelow(doc, items[0], below, m);
      OnceInItems(doc, rest, from + 1, base, m);
      if m in MissingBelow(doc, items[0], below) && m in MissingInItems(doc, rest, from + 1, base) {
        ReportedIsDangling(doc, items[0], below, m);
        var i := ReportedInItems(doc, rest, from + 1, base, m);
        SameStep(base, Index(from), Index(i), m.path);
      }
    }
  }

  /** The check reports exactly the dangling local references, each at its own place and once. */
  lemma ReportIsExact(doc: Json, path: seq<Step>, ref: string)
    requires WellFormed(doc)
    ensures multiset(UnresolvedLocalRefs(doc))[Missing(path, ref)] == if Dangling(doc, doc, path, ref) then 1 else 0
  {
    hide WellFormed, MissingBelow, Dangling;
    var m := Missing(path, ref);
    OnceBelow(doc, doc, [], m);
    if m in UnresolvedLocalRefs(doc) {
      ReportedIsDangling(doc, doc, [], m);
      assert m.path[0..] == path;
    }
    if Dangling(doc, doc, path, ref) {
      DanglingIsReported(doc, doc, [], path, ref);
      assert [] + path == path;
    }
  }
}
