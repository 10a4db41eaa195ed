/** The values of the data format: the CBOR data model the bindings build and read. */
module Cbor {
  import opened Substrate

  /** Floats are kept as their bit patterns; a map is a list of entries, in the order they were added. */
  datatype Value =
    | Null
    | Bool(flag: bool)
    | Integer(number: int)
    | Float(bits: nat)
    | Text(text: string)
    | ByteString(data: Bytes)
    | Array(items: seq<Value>)
    | Map(entries: seq<Entry>)
    | Tag(tag: nat, inner: Value)

  datatype Entry = Entry(key: Value, value: Value)

  predicate IsPermutation(perm: seq<nat>, n: nat) {
    && |perm| == n
    && (forall i :: 0 <= i < n ==> perm[i] < n)
    && (forall i, j :: 0 <= i < j < n ==> perm[i] != perm[j])
    && (forall j :: 0 <= j < n ==> j in perm)
  }

  /** What canonical encoding and parsing again may make of a value: the entries of its maps, at every level, in some
      other order, such as that of section 4.2.1 of RFC 8949, and its tags gone. */
  ghost predicate Reordered(u: Value, w: Value)
    decreases u
  {
    match u
    case Array(items) =>
      w.Array? && |w.items| == |items| && forall i :: 0 <= i < |items| ==> Reordered(items[i], w.items[i])
    case Map(entries) =>
      w.Map? && |w.entries| == |entries| &&
      exists perm :: IsPermutation(perm, |entries|) && forall i :: 0 <= i < |entries| ==> EntryReordered(u, perm[i], w.entries[i])
    case Tag(_, inner) => Reordered(inner, w)
    case _ => u == w
  }

  ghost predicate EntryReordered(u: Value, j: int, e: Entry)
    requires u.Map?
    decreases u, 0
  {
    0 <= j < |u.entries| && Reordered(u.entries[j].key, e.key) && Reordered(u.entries[j].value, e.value)
  }
}
