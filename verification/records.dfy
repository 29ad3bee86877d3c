/** Schemaless records: a Firestore document, a list entry kept by the
    app's hooks, or the signed-in user object, all seen as a map from field
    name to value. A merge-write (`set(fields, { merge: true })`) and an
    object spread (`{ ...base, ...updates }`) are the same operation here. */
module Records {
  import opened Outcomes

  /** Field values; timestamps are opaque numbers (`serverTimestamp()`,
      `new Date()`), never inspected by the code being modelled. */
  datatype Value = Str(s: string) | Flag(b: bool) | Stamp(t: int)

  type Fields = map<string, Value>

  /** `{ ...base, ...updates }`: every field named in `updates` takes its new
      value, every other field of `base` keeps its old one, nothing is dropped. */
  function Merge(base: Fields, updates: Fields): (r: Fields)
    ensures r.Keys == base.Keys + updates.Keys
    ensures forall k :: k in updates ==> r[k] == updates[k]
    ensures forall k :: k in base && k !in updates ==> r[k] == base[k]
  {
    base + updates
  }

  /** A later merge-write that names every field an earlier one named
      overwrites all of the earlier one's effect. */
  lemma MergeAbsorbs(base: Fields, first: Fields, second: Fields)
    requires first.Keys <= second.Keys
    ensures Merge(Merge(base, first), second) == Merge(base, second)
  {
    var lhs := Merge(Merge(base, first), second);
    var rhs := Merge(base, second);
    assert lhs.Keys == rhs.Keys;
    forall k | k in lhs
      ensures lhs[k] == rhs[k]
    {
    }
  }

  /** Merging the same fields twice is merging them once. */
  lemma MergeIdempotent(base: Fields, updates: Fields)
    ensures Merge(Merge(base, updates), updates) == Merge(base, updates)
  {
    MergeAbsorbs(base, updates, updates);
  }

  /** The string stored under `key`, if there is one. */
  function StrField(f: Fields, key: string): Option<string>
  {
    if key in f && f[key].Str? then Some(f[key].s) else None
  }

  /** `f.key === s` for a string literal `s`: false when the field is
      missing or holds something other than that string. */
  predicate HasStr(f: Fields, key: string, s: string)
  {
    key in f && f[key] == Str(s)
  }
}
