/** JSON documents as the tools hold them in memory: objects keep insertion order. */
module JsonTree {
  import opened Options

  datatype Json =
    | Null
    | Bool(b: bool)
    | Number(n: real)
    | Str(s: string)
    | Arr(items: seq<Json>)
    | Obj(fields: seq<Field>)

  datatype Field = Field(key: string, value: Json)

  function Get(fields: seq<Field>, key: string): Option<Json> {
    if fields == [] then None
    else if fields[0].key == key then Some(fields[0].value)
    else Get(fields[1..], key)
  }

  /** No object anywhere in `j` repeats a key, as in every decoded document. */
  predicate WellFormed(j: Json)
    decreases j, 1
  {
    match j
    case Arr(items) => forall x <- items :: WellFormed(x)
    case Obj(fields) => UniqueKeys(fields) && forall f <- fields :: WellFormed(f.value)
    case _ => true
  }

  predicate UniqueKeys(fields: seq<Field>) {
    forall i, j :: 0 <= i < j < |fields| ==> fields[i].key != fields[j].key
  }

  lemma {:induction false} GetIsMember(fields: seq<Field>, key: string)
    requires Get(fields, key).Some?
    ensures Field(key, Get(fields, key).value) in fields
  {
    if fields[0].key != key {
      GetIsMember(fields[1..], key);
    } else {
      assert fields[0] == Field(key, Get(fields, key).value);
    }
  }
}
