/**
 * JSON values as the runner passes them between steps ("promises"), Python's
 * truthiness on them, and the deep merge that `jsonmerge.merge` performs when it
 * is given no schema: an object head is merged key by key into the base, any
 * other head replaces the base outright.
 */
module Json {

  datatype Json =
    | JNull
    | JBool(b: bool)
    | JInt(n: int)
    | JStr(s: string)
    | JArray(items: seq<Json>)
    | JObject(fields: map<string, Json>)

  /** A promise store: output identifiers to the values published for them. */
  type PromiseMap = map<string, Json>

  /** Python's `bool(v)` on a JSON value. */
  predicate Truthy(v: Json)
  {
    match v
    case JNull => false
    case JBool(b) => b
    case JInt(n) => n != 0
    case JStr(s) => s != ""
    case JArray(items) => items != []
    case JObject(fields) => fields != map[]
  }

  /** `merge(base, head)`: objects merge recursively, everything else is overwritten by the head. */
  function Merge(base: Json, head: Json): (r: Json)
    decreases head
    ensures !head.JObject? ==> r == head
    ensures head.JObject? ==> r.JObject?
  {
    match head
    case JObject(hm) =>
      var bm := if base.JObject? then base.fields else map[];
      JObject(map k | k in bm.Keys + hm.Keys ::
                if k in hm then (if k in bm then Merge(bm[k], hm[k]) else hm[k]) else bm[k])
    case _ => head
  }

  /** `merge(base, head)` for two objects, as used to fold promise stores. */
  function MergeFields(base: PromiseMap, head: PromiseMap): (r: PromiseMap)
    ensures r.Keys == base.Keys + head.Keys
    ensures forall k :: k in base && k !in head ==> r[k] == base[k]
    ensures forall k :: k in head && k !in base ==> r[k] == head[k]
    ensures forall k :: k in head && k in base ==> r[k] == Merge(base[k], head[k])
  {
    Merge(JObject(base), JObject(head)).fields
  }

  /** On disjoint keys the merge is the plain union, whichever side comes first. */
  lemma MergeDisjoint(a: PromiseMap, b: PromiseMap)
    requires a.Keys !! b.Keys
    ensures MergeFields(a, b) == a + b
    ensures MergeFields(a, b) == MergeFields(b, a)
  {
    assert MergeFields(a, b) == a + b;
    assert MergeFields(b, a) == b + a;
  }

  /** A later non-object value for a key replaces the earlier one. */
  lemma MergeOverwrites(a: PromiseMap, b: PromiseMap, k: string)
    requires k in b && !b[k].JObject?
    ensures MergeFields(a, b)[k] == b[k]
  {
  }

  /** Merging never retracts a key: whatever was in the base is still there. */
  lemma MergeKeepsKeys(a: PromiseMap, b: PromiseMap)
    ensures a.Keys <= MergeFields(a, b).Keys && b.Keys <= MergeFields(a, b).Keys
  {
  }

  /** Merging a value into itself changes nothing. */
  lemma {:induction false} MergeIdempotent(v: Json)
    ensures Merge(v, v) == v
  {
    match v
    case JObject(m) =>
      forall k | k in m
        ensures Merge(m[k], m[k]) == m[k]
      {
        MergeIdempotent(m[k]);
      }
      assert Merge(v, v).fields == m;
    case _ =>
  }

  /** The empty store is a neutral element on both sides. */
  lemma MergeEmpty(a: PromiseMap)
    ensures MergeFields(map[], a) == a
    ensures MergeFields(a, map[]) == a
  {
    assert MergeFields(map[], a) == a;
    assert MergeFields(a, map[]) == a;
  }

  /** Merging `{a: 1}` with `{b: 2}` gives `{a: 1, b: 2}`. */
  lemma MergeExampleDisjoint()
    ensures MergeFields(map["a" := JInt(1)], map["b" := JInt(2)]) == map["a" := JInt(1), "b" := JInt(2)]
  {
    MergeDisjoint(map["a" := JInt(1)], map["b" := JInt(2)]);
  }

  /** Merging `{a: 1}` then `{a: 2}` gives `{a: 2}`. */
  lemma MergeExampleOverwrite()
    ensures MergeFields(map["a" := JInt(1)], map["a" := JInt(2)]) == map["a" := JInt(2)]
  {
    var r := MergeFields(map["a" := JInt(1)], map["a" := JInt(2)]);
    assert r.Keys == {"a"};
  }

  /** Merging `{a: {x: 1}}` and `{a: {y: 2}}` gives `{a: {x: 1, y: 2}}`. */
  lemma MergeExampleNested()
    ensures MergeFields(map["a" := JObject(map["x" := JInt(1)])], map["a" := JObject(map["y" := JInt(2)])])
         == map["a" := JObject(map["x" := JInt(1), "y" := JInt(2)])]
  {
    var inner := Merge(JObject(map["x" := JInt(1)]), JObject(map["y" := JInt(2)]));
    assert inner.fields.Keys == {"x", "y"};
    assert inner == JObject(map["x" := JInt(1), "y" := JInt(2)]);
    var r := MergeFields(map["a" := JObject(map["x" := JInt(1)])], map["a" := JObject(map["y" := JInt(2)])]);
    assert r.Keys == {"a"};
  }
}
