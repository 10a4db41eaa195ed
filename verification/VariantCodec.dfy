/**
 The bridge between script values and CBOR: two depth-bounded recursive conversions.
 */
module VariantCodec {
  import opened Wrappers
  import opened Substrate
  import opened Cbor

  const MAX_DEPTH := 64
  const I64_MIN := -0x8000_0000_0000_0000
  const I64_MAX := 0x7fff_ffff_ffff_ffff
  const U64_MAX := 0xffff_ffff_ffff_ffff

  type I64 = n: int | I64_MIN <= n <= I64_MAX

  /** A script value.  A dictionary keeps its entries in insertion order; `Opaque` is any type without a CBOR form. */
  datatype Variant =
    | VNil
    | VBool(flag: bool)
    | VInt(number: I64)
    | VFloat(bits: nat)
    | VString(text: string)
    | VBytes(data: Bytes)
    | VArray(items: seq<Variant>)
    | VDict(pairs: seq<Pair>)
    | VOpaque(kind: string)

  datatype Pair = Pair(key: Variant, value: Variant)

  datatype ConversionError = TooDeep | BadKey(kind: string) | Unsupported(kind: string)

  /** A dictionary has one entry per key. */
  ghost predicate WellFormed(v: Variant)
    decreases v
  {
    match v
    case VArray(items) => forall i :: 0 <= i < |items| ==> WellFormed(items[i])
    case VDict(pairs) =>
      && (forall i :: 0 <= i < |pairs| ==> WellFormed(pairs[i].value))
      && (forall i, j :: 0 <= i < j < |pairs| ==> pairs[i].key != pairs[j].key)
    case _ => true
  }

  function KindOf(v: Variant): string {
    match v
    case VNil => "NIL"
    case VBool(_) => "BOOL"
    case VInt(_) => "INT"
    case VFloat(_) => "FLOAT"
    case VString(_) => "STRING"
    case VBytes(_) => "PACKED_BYTE_ARRAY"
    case VArray(_) => "ARRAY"
    case VDict(_) => "DICTIONARY"
    case VOpaque(kind) => kind
  }

  /** `cbor_kind`. */
  function CborKind(v: Value): string {
    match v
    case Null => "null"
    case Bool(_) => "bool"
    case Integer(_) => "integer"
    case Float(_) => "float"
    case ByteString(_) => "bytes"
    case Text(_) => "text"
    case Array(_) => "array"
    case Map(_) => "map"
    case Tag(_, _) => "tag"
  }

  // ---------- encoding ----------

  /** `variant_to_value`. */
  function Encode(v: Variant, depth: nat): Result<Value, ConversionError>
    decreases v, 1, 0
  {
    if depth > MAX_DEPTH then Err(TooDeep)
    else
      match v
      case VNil => Ok(Null)
      case VBool(b) => Ok(Bool(b))
      case VInt(n) => Ok(Integer(n))
      case VFloat(bits) => Ok(Float(bits))
      case VString(s) => Ok(Text(s))
      case VBytes(data) => Ok(ByteString(data))
      case VArray(items) =>
        (match EncodeItems(v, |items|, depth + 1)
         case Ok(out) => Ok(Array(out))
         case Err(e) => Err(e))
      case VDict(pairs) =>
        (match EncodePairs(v, |pairs|, depth + 1)
         case Ok(out) => Ok(Map(out))
         case Err(e) => Err(e))
      case VOpaque(kind) => Err(Unsupported(kind))
  }

  /** The first `n` items of an array, each one level down. */
  function EncodeItems(v: Variant, n: nat, depth: nat): (r: Result<seq<Value>, ConversionError>)
    requires v.VArray? && n <= |v.items|
    ensures r.Ok? ==> |r.value| == n
    decreases v, 0, n
  {
    if n == 0 then Ok([])
    else
      match EncodeItems(v, n - 1, depth)
      case Err(e) => Err(e)
      case Ok(front) =>
        match Encode(v.items[n - 1], depth)
        case Err(e) => Err(e)
        case Ok(last) => Ok(front + [last])
  }

  /** The first `n` entries of a dictionary. */
  function EncodePairs(v: Variant, n: nat, depth: nat): (r: Result<seq<Entry>, ConversionError>)
    requires v.VDict? && n <= |v.pairs|
    ensures r.Ok? ==> |r.value| == n
    decreases v, 0, n
  {
    if n == 0 then Ok([])
    else
      match EncodePairs(v, n - 1, depth)
      case Err(e) => Err(e)
      case Ok(front) =>
        var key := v.pairs[n - 1].key;
        if !key.VString? then Err(BadKey(KindOf(key)))
        else
          match Encode(v.pairs[n - 1].value, depth)
          case Err(e) => Err(e)
          case Ok(last) => Ok(front + [Entry(Text(key.text), last)])
  }

  lemma {:induction false} ItemsStop(v: Variant, k: nat, n: nat, depth: nat)
    requires v.VArray? && k <= n <= |v.items| && EncodeItems(v, k, depth).Err?
    ensures EncodeItems(v, n, depth) == EncodeItems(v, k, depth)
    decreases n
  {
    if k < n { ItemsStop(v, k, n - 1, depth); }
  }

  lemma {:induction false} PairsStop(v: Variant, k: nat, n: nat, depth: nat)
    requires v.VDict? && k <= n <= |v.pairs| && EncodePairs(v, k, depth).Err?
    ensures EncodePairs(v, n, depth) == EncodePairs(v, k, depth)
    decreases n
  {
    if k < n { PairsStop(v, k, n - 1, depth); }
  }

  method EncodeVariant(v: Variant, depth: nat) returns (r: Result<Value, ConversionError>)
    ensures r == Encode(v, depth)
    decreases v
  {
    if depth > MAX_DEPTH { return Err(TooDeep); }
    match v
    case VArray(items) =>
      var out: seq<Value> := [];
      for i := 0 to |items|
        invariant EncodeItems(v, i, depth + 1) == Ok(out)
      {
        var item := EncodeVariant(items[i], depth + 1);
        if item.Err? {
          ItemsStop(v, i + 1, |items|, depth + 1);
          return Err(item.error);
        }
        out := out + [item.value];
      }
      r := Ok(Array(out));
    case VDict(pairs) =>
      var out: seq<Entry> := [];
      for i := 0 to |pairs|
        invariant EncodePairs(v, i, depth + 1) == Ok(out)
      {
        var key := pairs[i].key;
        if !key.VString? {
          PairsStop(v, i + 1, |pairs|, depth + 1);
          return Err(BadKey(KindOf(key)));
        }
        var value := EncodeVariant(pairs[i].value, depth + 1);
        if value.Err? {
          PairsStop(v, i + 1, |pairs|, depth + 1);
          return Err(value.error);
        }
        out := out + [Entry(Text(key.text), value.value)];
      }
      r := Ok(Map(out));
    case VNil => r := Ok(Null);
    case VBool(b) => r := Ok(Bool(b));
    case VInt(n) => r := Ok(Integer(n));
    case VFloat(bits) => r := Ok(Float(bits));
    case VString(s) => r := Ok(Text(s));
    case VBytes(data) => r := Ok(ByteString(data));
    case VOpaque(kind) => r := Err(Unsupported(kind));
  }

  // ---------- when encoding succeeds ----------

  /** Every part has a CBOR form and every dictionary key is a string. */
  ghost predicate Supported(v: Variant)
    decreases v
  {
    match v
    case VArray(items) => forall i :: 0 <= i < |items| ==> Supported(items[i])
    case VDict(pairs) => forall i :: 0 <= i < |pairs| ==> pairs[i].key.VString? && Supported(pairs[i].value)
    case VOpaque(_) => false
    case _ => true
  }

  /** No part lies more than `d` levels below the top. */
  ghost predicate NestedWithin(v: Variant, d: int)
    decreases v
  {
    && d >= 0
    && match v
       case VArray(items) => forall i :: 0 <= i < |items| ==> NestedWithin(items[i], d - 1)
       case VDict(pairs) => forall i :: 0 <= i < |pairs| ==> NestedWithin(pairs[i].value, d - 1)
       case _ => true
  }

  ghost predicate Encodable(v: Variant, depth: nat) {
    Supported(v) && NestedWithin(v, MAX_DEPTH - depth)
  }

  lemma {:induction false} EncodesExactly(v: Variant, depth: nat)
    ensures Encode(v, depth).Ok? <==> Encodable(v, depth)
    decreases v, 1, 0
  {
    if depth <= MAX_DEPTH {
      if v.VArray? {
        ItemsEncodeExactly(v, |v.items|, depth + 1);
      } else if v.VDict? {
        PairsEncodeExactly(v, |v.pairs|, depth + 1);
      }
    }
  }

  lemma {:induction false} ItemsEncodeExactly(v: Variant, n: nat, depth: nat)
    requires v.VArray? && n <= |v.items|
    ensures EncodeItems(v, n, depth).Ok? <==> forall i :: 0 <= i < n ==> Encodable(v.items[i], depth)
    decreases v, 0, n
  {
    if n > 0 {
      ItemsEncodeExactly(v, n - 1, depth);
      EncodesExactly(v.items[n - 1], depth);
    }
  }

  lemma {:induction false} PairsEncodeExactly(v: Variant, n: nat, depth: nat)
    requires v.VDict? && n <= |v.pairs|
    ensures EncodePairs(v, n, depth).Ok? <==> forall i :: 0 <= i < n ==> v.pairs[i].key.VString? && Encodable(v.pairs[i].value, depth)
    decreases v, 0, n
  {
    if n > 0 {
      PairsEncodeExactly(v, n - 1, depth);
      EncodesExactly(v.pairs[n - 1].value, depth);
    }
  }

  // ---------- decoding ----------

  function Distance(a: int, b: int): nat {
    if a < b then b - a else a - b
  }

  /** `cbor_int_to_i64_clamped`: over the CBOR integer range, the nearest representable number. */
  function Clamp(n: int): (r: I64)
    ensures -U64_MAX - 1 <= n <= U64_MAX ==> forall m: I64 :: Distance(n, r) <= Distance(n, m)
  {
    if I64_MIN <= n <= I64_MAX then n
    else if 0 <= n <= U64_MAX then I64_MAX
    else I64_MIN
  }

  /** Dictionary insertion: an existing key keeps its place and takes the new value. */
  function DictInsert(pairs: seq<Pair>, key: Variant, value: Variant): (r: seq<Pair>)
    ensures (forall i :: 0 <= i < |pairs| ==> pairs[i].key != key) ==> r == pairs + [Pair(key, value)]
  {
    if pairs == [] then [Pair(key, value)]
    else if pairs[0].key == key then [Pair(key, value)] + pairs[1..]
    else [pairs[0]] + DictInsert(pairs[1..], key, value)
  }

  /** `value_to_variant`. */
  function Decode(w: Value, depth: nat): Result<Variant, ConversionError>
    decreases w, 1, 0
  {
    if depth > MAX_DEPTH then Err(TooDeep)
    else
      match w
      case Null => Ok(VNil)
      case Bool(b) => Ok(VBool(b))
      case Integer(n) => Ok(VInt(Clamp(n)))
      case Float(bits) => Ok(VFloat(bits))
      case Text(s) => Ok(VString(s))
      case ByteString(data) => Ok(VBytes(data))
      case Array(items) =>
        (match DecodeItems(w, |items|, depth + 1)
         case Ok(out) => Ok(VArray(out))
         case Err(e) => Err(e))
      case Map(entries) =>
        (match DecodeEntries(w, |entries|, depth + 1)
         case Ok(out) => Ok(VDict(out))
         case Err(e) => Err(e))
      case Tag(_, inner) => Decode(inner, depth + 1)
  }

  function DecodeItems(w: Value, n: nat, depth: nat): (r: Result<seq<Variant>, ConversionError>)
    requires w.Array? && n <= |w.items|
    ensures r.Ok? ==> |r.value| == n
    decreases w, 0, n
  {
    if n == 0 then Ok([])
    else
      match DecodeItems(w, n - 1, depth)
      case Err(e) => Err(e)
      case Ok(front) =>
        match Decode(w.items[n - 1], depth)
        case Err(e) => Err(e)
        case Ok(last) => Ok(front + [last])
  }

  function DecodeEntries(w: Value, n: nat, depth: nat): Result<seq<Pair>, ConversionError>
    requires w.Map? && n <= |w.entries|
    decreases w, 0, n
  {
    if n == 0 then Ok([])
    else
      match DecodeEntries(w, n - 1, depth)
      case Err(e) => Err(e)
      case Ok(front) =>
        var key := w.entries[n - 1].key;
        if !key.Text? then Err(BadKey(CborKind(key)))
        else
          match Decode(w.entries[n - 1].value, depth)
          case Err(e) => Err(e)
          case Ok(last) => Ok(DictInsert(front, VString(key.text), last))
  }

  lemma {:induction false} DecodeItemsStop(w: Value, k: nat, n: nat, depth: nat)
    requires w.Array? && k <= n <= |w.items| && DecodeItems(w, k, depth).Err?
    ensures DecodeItems(w, n, depth) == DecodeItems(w, k, depth)
    decreases n
  {
    if k < n { DecodeItemsStop(w, k, n - 1, depth); }
  }

  lemma {:induction false} DecodeEntriesStop(w: Value, k: nat, n: nat, depth: nat)
    requires w.Map? && k <= n <= |w.entries| && DecodeEntries(w, k, depth).Err?
    ensures DecodeEntries(w, n, depth) == DecodeEntries(w, k, depth)
    decreases n
  {
    if k < n { DecodeEntriesStop(w, k, n - 1, depth); }
  }

  method DecodeValue(w: Value, depth: nat) returns (r: Result<Variant, ConversionError>)
    ensures r == Decode(w, depth)
    decreases w
  {
    if depth > MAX_DEPTH { return Err(TooDeep); }
    match w
    case Array(items) =>
      var out: seq<Variant> := [];
      for i := 0 to |items|
        invariant DecodeItems(w, i, depth + 1) == Ok(out)
      {
        var item := DecodeValue(items[i], depth + 1);
        if item.Err? {
          DecodeItemsStop(w, i + 1, |items|, depth + 1);
          return Err(item.error);
        }
        out := out + [item.value];
      }
      r := Ok(VArray(out));
    case Map(entries) =>
      var dict: seq<Pair> := [];
      for i := 0 to |entries|
        invariant DecodeEntries(w, i, depth + 1) == Ok(dict)
      {
        var key := entries[i].key;
        if !key.Text? {
          DecodeEntriesStop(w, i + 1, |entries|, depth + 1);
          return Err(BadKey(CborKind(key)));
        }
        var value := DecodeValue(entries[i].value, depth + 1);
        if value.Err? {
          DecodeEntriesStop(w, i + 1, |entries|, depth + 1);
          return Err(value.error);
        }
        dict := DictInsert(dict, VString(key.text), value.value);
      }
      r := Ok(VDict(dict));
    case Null => r := Ok(VNil);
    case Bool(b) => r := Ok(VBool(b));
    case Integer(n) => r := Ok(VInt(Clamp(n)));
    case Float(bits) => r := Ok(VFloat(bits));
    case Text(s) => r := Ok(VString(s));
    case ByteString(data) => r := Ok(VBytes(data));
    case Tag(_, inner) => r := DecodeValue(inner, depth + 1);
  }

  // ---------- the reference walk ----------

  /** `walk_for_errors`: the decoder's control flow without its results. */
  function Walk(w: Value, depth: nat): Option<ConversionError>
    decreases w, 1, 0
  {
    if depth > MAX_DEPTH then Some(TooDeep)
    else
      match w
      case Map(entries) => WalkEntries(w, 0, depth + 1)
      case Array(items) => WalkItems(w, 0, depth + 1)
      case Tag(_, inner) => Walk(inner, depth + 1)
      case _ => None
  }

  /** From entry `i` on. */
  function WalkEntries(w: Value, i: nat, depth: nat): Option<ConversionError>
    requires w.Map? && i <= |w.entries|
    decreases w, 0, |w.entries| - i
  {
    if i == |w.entries| then None
    else if !w.entries[i].key.Text? then Some(BadKey(CborKind(w.entries[i].key)))
    else
      var e := Walk(w.entries[i].value, depth);
      if e.Some? then e else WalkEntries(w, i + 1, depth)
  }

  function WalkItems(w: Value, i: nat, depth: nat): Option<ConversionError>
    requires w.Array? && i <= |w.items|
    decreases w, 0, |w.items| - i
  {
    if i == |w.items| then None
    else
      var e := Walk(w.items[i], depth);
      if e.Some? then e else WalkItems(w, i + 1, depth)
  }

  function ErrorOf<T>(r: Result<T, ConversionError>): Option<ConversionError> {
    if r.Err? then Some(r.error) else None
  }

  /** The decoder's verdict, and its first error, are those of the reference walk. */
  lemma {:induction false} DecoderFailsAsWalk(w: Value, depth: nat)
    ensures ErrorOf(Decode(w, depth)) == Walk(w, depth)
    decreases w, 1, 0
  {
    if depth <= MAX_DEPTH {
      match w
      case Array(items) => ItemsFailAsWalk(w, 0, depth + 1);
      case Map(entries) => EntriesFailAsWalk(w, 0, depth + 1);
      case Tag(_, inner) => DecoderFailsAsWalk(inner, depth + 1);
      case _ =>
    }
  }

  lemma {:induction false} ItemsFailAsWalk(w: Value, i: nat, depth: nat)
    requires w.Array? && i <= |w.items| && DecodeItems(w, i, depth).Ok?
    ensures ErrorOf(DecodeItems(w, |w.items|, depth)) == WalkItems(w, i, depth)
    decreases w, 0, |w.items| - i
  {
    if i < |w.items| {
      DecoderFailsAsWalk(w.items[i], depth);
      if DecodeItems(w, i + 1, depth).Ok? {
        ItemsFailAsWalk(w, i + 1, depth);
      } else {
        DecodeItemsStop(w, i + 1, |w.items|, depth);
      }
    }
  }

  lemma {:induction false} EntriesFailAsWalk(w: Value, i: nat, depth: nat)
    requires w.Map? && i <= |w.entries| && DecodeEntries(w, i, depth).Ok?
    ensures ErrorOf(DecodeEntries(w, |w.entries|, depth)) == WalkEntries(w, i, depth)
    decreases w, 0, |w.entries| - i
  {
    if i < |w.entries| {
      DecoderFailsAsWalk(w.entries[i].value, depth);
      if DecodeEntries(w, i + 1, depth).Ok? {
        EntriesFailAsWalk(w, i + 1, depth);
      } else {
        DecodeEntriesStop(w, i + 1, |w.entries|, depth);
      }
    }
  }

  // ---------- what decoding yields ----------

  /** The last of the first `n` entries under a key. */
  ghost predicate LastUnder(w: Value, n: nat, key: string, i: int)
    requires w.Map? && n <= |w.entries|
  {
    0 <= i < n && w.entries[i].key == Text(key) && forall j :: i < j < n ==> w.entries[j].key != Text(key)
  }

  /** The key `a` occurs among the first `n` entries before `b` does. */
  ghost predicate OccursBefore(w: Value, n: nat, a: string, b: string)
    requires w.Map? && n <= |w.entries|
  {
    exists i :: 0 <= i < n && w.entries[i].key == Text(a) && forall j :: 0 <= j <= i ==> w.entries[j].key != Text(b)
  }

  ghost predicate UniqueKeys(pairs: seq<Pair>) {
    && (forall a :: 0 <= a < |pairs| ==> pairs[a].key.VString?)
    && (forall a, b :: 0 <= a < b < |pairs| ==> pairs[a].key != pairs[b].key)
  }

  /** The keys of a dictionary are those of the first `n` entries, each once, in the order of their first occurrences. */
  ghost predicate KeysOf(w: Value, n: nat, pairs: seq<Pair>)
    requires w.Map? && n <= |w.entries|
  {
    && UniqueKeys(pairs)
    && (forall i :: 0 <= i < n ==> w.entries[i].key.Text? && Lookup(pairs, VString(w.entries[i].key.text)).Some?)
    && (forall a, b :: 0 <= a < b < |pairs| ==> OccursBefore(w, n, pairs[a].key.text, pairs[b].key.text))
  }

  /** What a value means to the script: numbers go to the nearest representable one, tags say nothing, and of several entries under one key the
      last one counts. */
  ghost predicate Means(w: Value, v: Variant)
    decreases w
  {
    match w
    case Null => v == VNil
    case Bool(b) => v == VBool(b)
    case Integer(n) => v.VInt? && (-U64_MAX - 1 <= n <= U64_MAX ==> forall m: I64 :: Distance(n, v.number) <= Distance(n, m))
    case Float(bits) => v == VFloat(bits)
    case Text(s) => v == VString(s)
    case ByteString(data) => v == VBytes(data)
    case Array(items) => v.VArray? && |v.items| == |items| && forall i :: 0 <= i < |items| ==> Means(items[i], v.items[i])
    case Map(entries) =>
      && v.VDict? && KeysOf(w, |entries|, v.pairs)
      && forall i :: 0 <= i < |entries| && entries[i].key.Text? && LastUnder(w, |entries|, entries[i].key.text, i) ==>
           Lookup(v.pairs, VString(entries[i].key.text)).Some? && Means(entries[i].value, Lookup(v.pairs, VString(entries[i].key.text)).value)
    case Tag(_, inner) => Means(inner, v)
  }

  /** Insertion changes what is found under the key, and keeps the keys and their order or adds the new one at the end. */
  lemma {:induction false} InsertLooksUp(pairs: seq<Pair>, key: Variant, value: Variant, other: Variant)
    ensures Lookup(DictInsert(pairs, key, value), other) == if other == key then Some(value) else Lookup(pairs, other)
    decreases |pairs|
  {
    if pairs != [] && pairs[0].key != key {
      InsertLooksUp(pairs[1..], key, value, other);
      assert DictInsert(pairs, key, value)[1..] == DictInsert(pairs[1..], key, value);
    } else if pairs != [] {
      assert DictInsert(pairs, key, value)[1..] == pairs[1..];
    }
  }

  lemma {:induction false} InsertKeepsKeys(pairs: seq<Pair>, key: Variant, value: Variant)
    ensures Lookup(pairs, key).Some? ==> |DictInsert(pairs, key, value)| == |pairs|
    ensures Lookup(pairs, key).Some? ==> forall a :: 0 <= a < |pairs| ==> DictInsert(pairs, key, value)[a].key == pairs[a].key
    ensures Lookup(pairs, key).None? ==> DictInsert(pairs, key, value) == pairs + [Pair(key, value)]
    decreases |pairs|
  {
    if pairs != [] && pairs[0].key != key {
      InsertKeepsKeys(pairs[1..], key, value);
    }
  }

  lemma {:induction false} LookupNone(pairs: seq<Pair>, key: Variant)
    ensures Lookup(pairs, key).None? <==> forall a :: 0 <= a < |pairs| ==> pairs[a].key != key
    decreases |pairs|
  {
    if pairs != [] {
      LookupNone(pairs[1..], key);
      assert forall a :: 0 <= a < |pairs[1..]| ==> pairs[1..][a] == pairs[a + 1];
      assert forall a :: 1 <= a < |pairs| ==> pairs[a] == pairs[1..][a - 1];
    }
  }

  lemma {:induction false} OccursBeforeMore(w: Value, n: nat, a: string, b: string)
    requires w.Map? && n < |w.entries| && OccursBefore(w, n, a, b)
    ensures OccursBefore(w, n + 1, a, b)
  {}

  /** Each key of the dictionary is one of an entry. */
  ghost predicate KeysOccur(w: Value, n: nat, pairs: seq<Pair>)
    requires w.Map? && n <= |w.entries|
  {
    forall a :: 0 <= a < |pairs| ==> pairs[a].key.VString? && Occurs(w, n, pairs[a].key.text)
  }

  ghost predicate Occurs(w: Value, n: nat, key: string)
    requires w.Map? && n <= |w.entries|
  {
    exists i :: 0 <= i < n && w.entries[i].key == Text(key)
  }

  /** Keys after one more entry. */
  lemma {:induction false} KeysSnoc(w: Value, n: nat, pairs: seq<Pair>, value: Variant)
    requires w.Map? && n < |w.entries| && w.entries[n].key.Text? && KeysOf(w, n, pairs) && KeysOccur(w, n, pairs)
    ensures KeysOf(w, n + 1, DictInsert(pairs, VString(w.entries[n].key.text), value))
  {
    var text := w.entries[n].key.text;
    var key := VString(text);
    var out := DictInsert(pairs, key, value);
    InsertKeepsKeys(pairs, key, value);
    LookupNone(pairs, key);
    forall i | 0 <= i < n + 1 ensures w.entries[i].key.Text? && Lookup(out, VString(w.entries[i].key.text)).Some? {
      InsertLooksUp(pairs, key, value, VString(w.entries[i].key.text));
    }
    forall a, b | 0 <= a < b < |out| ensures OccursBefore(w, n + 1, out[a].key.text, out[b].key.text) {
      if b < |pairs| {
        OccursBeforeMore(w, n, pairs[a].key.text, pairs[b].key.text);
      } else {
        assert Occurs(w, n, pairs[a].key.text);
        var i :| 0 <= i < n && w.entries[i].key == Text(pairs[a].key.text);
        assert Lookup(pairs, key).None?;
        forall j | 0 <= j <= i ensures w.entries[j].key != Text(text) {
          assert Lookup(pairs, VString(w.entries[j].key.text)).Some?;
        }
      }
    }
  }

  lemma {:induction false} KeysStep(w: Value, n: nat, front: seq<Pair>, value: Variant, pairs: seq<Pair>)
    requires w.Map? && 0 < n <= |w.entries| && w.entries[n - 1].key.Text? && KeysOf(w, n - 1, front) && KeysOccur(w, n - 1, front)
    requires pairs == DictInsert(front, VString(w.entries[n - 1].key.text), value)
    ensures KeysOf(w, n, pairs) && KeysOccur(w, n, pairs)
  {
    var m := n - 1;
    KeysSnoc(w, m, front, value);
    KeysOccurSnoc(w, m, front, value);
  }

  /** The last entry goes into the dictionary of those before it. */
  lemma {:induction false} DecodedStep(w: Value, n: nat, depth: nat)
    requires w.Map? && 0 < n <= |w.entries| && DecodeEntries(w, n, depth).Ok?
    ensures DecodeEntries(w, n - 1, depth).Ok? && w.entries[n - 1].key.Text? && Decode(w.entries[n - 1].value, depth).Ok?
    ensures DecodeEntries(w, n, depth).value ==
            DictInsert(DecodeEntries(w, n - 1, depth).value, VString(w.entries[n - 1].key.text), Decode(w.entries[n - 1].value, depth).value)
  {}

  lemma {:induction false} DecodedKeys(w: Value, n: nat, depth: nat, pairs: seq<Pair>)
    requires w.Map? && n <= |w.entries| && DecodeEntries(w, n, depth) == Ok(pairs)
    ensures KeysOf(w, n, pairs) && KeysOccur(w, n, pairs)
    decreases n
  {
    if n > 0 {
      DecodedStep(w, n, depth);
      var front, value := DecodeEntries(w, n - 1, depth).value, Decode(w.entries[n - 1].value, depth).value;
      DecodedKeys(w, n - 1, depth, front);
      KeysStep(w, n, front, value, pairs);
    }
  }

  lemma {:induction false} KeysOccurSnoc(w: Value, n: nat, pairs: seq<Pair>, value: Variant)
    requires w.Map? && n < |w.entries| && w.entries[n].key.Text? && KeysOccur(w, n, pairs)
    ensures KeysOccur(w, n + 1, DictInsert(pairs, VString(w.entries[n].key.text), value))
  {
    var key := VString(w.entries[n].key.text);
    InsertKeepsKeys(pairs, key, value);
    var out := DictInsert(pairs, key, value);
    forall a | 0 <= a < |out| ensures out[a].key.VString? && Occurs(w, n + 1, out[a].key.text) {
      if a < |pairs| {
        assert Occurs(w, n, pairs[a].key.text);
      } else {
        assert w.entries[n].key == Text(out[a].key.text);
      }
    }
  }

  /** Under each key stands the value of the last entry that has it. */
  lemma {:induction false} DecodedLast(w: Value, n: nat, depth: nat, key: string, i: nat)
    requires w.Map? && n <= |w.entries| && DecodeEntries(w, n, depth).Ok? && LastUnder(w, n, key, i)
    ensures Decode(w.entries[i].value, depth).Ok?
    ensures Lookup(DecodeEntries(w, n, depth).value, VString(key)) == Some(Decode(w.entries[i].value, depth).value)
    decreases n
  {
    var front, value := DecodeEntries(w, n - 1, depth).value, Decode(w.entries[n - 1].value, depth).value;
    InsertLooksUp(front, VString(w.entries[n - 1].key.text), value, VString(key));
    if i < n - 1 { DecodedLast(w, n - 1, depth, key, i); }
  }

  lemma {:induction false} DecodedItem(w: Value, n: nat, depth: nat, i: nat)
    requires w.Array? && i < n <= |w.items| && DecodeItems(w, n, depth).Ok?
    ensures Decode(w.items[i], depth) == Ok(DecodeItems(w, n, depth).value[i])
    decreases n
  {
    if i < n - 1 { DecodedItem(w, n - 1, depth, i); }
  }

  /** Whatever decodes, with tags, repeated keys and numbers out of range, decodes to what it means. */
  lemma {:induction false} DecodesToMeaning(w: Value, depth: nat)
    requires Decode(w, depth).Ok?
    ensures Means(w, Decode(w, depth).value)
    decreases w
  {
    match w
    case Array(items) =>
      forall i | 0 <= i < |items| ensures Means(items[i], Decode(w, depth).value.items[i]) {
        DecodedItem(w, |items|, depth + 1, i);
        DecodesToMeaning(items[i], depth + 1);
      }
    case Map(entries) =>
      var n := |entries|;
      DecodedKeys(w, n, depth + 1, DecodeEntries(w, n, depth + 1).value);
      forall i | 0 <= i < n && entries[i].key.Text? && LastUnder(w, n, entries[i].key.text, i)
        ensures Lookup(Decode(w, depth).value.pairs, VString(entries[i].key.text)).Some?
        ensures Means(entries[i].value, Lookup(Decode(w, depth).value.pairs, VString(entries[i].key.text)).value)
      {
        DecodedLast(w, n, depth + 1, entries[i].key.text, i);
        DecodesToMeaning(entries[i].value, depth + 1);
      }
    case Tag(_, inner) => DecodesToMeaning(inner, depth + 1);
    case _ =>
  }

  // ---------- what an encoding error means ----------

  ghost predicate HasBadKey(v: Variant, kind: string)
    decreases v
  {
    match v
    case VArray(items) => exists i :: 0 <= i < |items| && HasBadKey(items[i], kind)
    case VDict(pairs) => exists i :: 0 <= i < |pairs| && ((!pairs[i].key.VString? && KindOf(pairs[i].key) == kind) || HasBadKey(pairs[i].value, kind))
    case _ => false
  }

  ghost predicate HasOpaque(v: Variant, kind: string)
    decreases v
  {
    match v
    case VArray(items) => exists i :: 0 <= i < |items| && HasOpaque(items[i], kind)
    case VDict(pairs) => exists i :: 0 <= i < |pairs| && HasOpaque(pairs[i].value, kind)
    case VOpaque(k) => k == kind
    case _ => false
  }

  /** The error names something that is really there. */
  ghost predicate Shows(v: Variant, depth: nat, e: ConversionError) {
    match e
    case TooDeep => !NestedWithin(v, MAX_DEPTH - depth)
    case BadKey(kind) => HasBadKey(v, kind)
    case Unsupported(kind) => HasOpaque(v, kind)
  }

  lemma {:induction false} EncodingErrorsAreReal(v: Variant, depth: nat)
    requires Encode(v, depth).Err?
    ensures Shows(v, depth, Encode(v, depth).error)
    decreases v, 1, 0
  {
    if depth <= MAX_DEPTH {
      if v.VArray? {
        var i := ItemErrorIsReal(v, |v.items|, depth + 1);
      } else if v.VDict? {
        var i := PairErrorIsReal(v, |v.pairs|, depth + 1);
      }
    }
  }

  lemma {:induction false} ItemErrorIsReal(v: Variant, n: nat, depth: nat) returns (i: nat)
    requires v.VArray? && n <= |v.items| && EncodeItems(v, n, depth).Err?
    ensures i < n && Shows(v.items[i], depth, EncodeItems(v, n, depth).error)
    decreases v, 0, n
  {
    if EncodeItems(v, n - 1, depth).Err? {
      i := ItemErrorIsReal(v, n - 1, depth);
    } else {
      i := n - 1;
      EncodingErrorsAreReal(v.items[i], depth);
    }
  }

  lemma {:induction false} PairErrorIsReal(v: Variant, n: nat, depth: nat) returns (i: nat)
    requires v.VDict? && n <= |v.pairs| && EncodePairs(v, n, depth).Err?
    ensures i < n
    ensures || Shows(v.pairs[i].value, depth, EncodePairs(v, n, depth).error)
            || (!v.pairs[i].key.VString? && EncodePairs(v, n, depth).error == BadKey(KindOf(v.pairs[i].key)))
    decreases v, 0, n
  {
    if EncodePairs(v, n - 1, depth).Err? {
      i := PairErrorIsReal(v, n - 1, depth);
    } else {
      i := n - 1;
      if v.pairs[i].key.VString? { EncodingErrorsAreReal(v.pairs[i].value, depth); }
    }
  }

  // ---------- round trip ----------

  function Lookup(pairs: seq<Pair>, key: Variant): Option<Variant> {
    if pairs == [] then None
    else if pairs[0].key == key then Some(pairs[0].value)
    else Lookup(pairs[1..], key)
  }

  /** Equality of script values: dictionaries are equal when they map the same keys to equal values, in whatever order. */
  ghost predicate Same(v: Variant, w: Variant)
    decreases v
  {
    match v
    case VArray(items) => w.VArray? && |w.items| == |items| && forall i :: 0 <= i < |items| ==> Same(items[i], w.items[i])
    case VDict(pairs) =>
      && w.VDict? && |w.pairs| == |pairs|
      && forall i :: 0 <= i < |pairs| ==>
           Lookup(w.pairs, pairs[i].key).Some? && Same(pairs[i].value, Lookup(w.pairs, pairs[i].key).value)
    case _ => v == w
  }

  lemma {:induction false} EncodeItemsAt(v: Variant, n: nat, depth: nat, i: nat)
    requires v.VArray? && i < n <= |v.items| && EncodeItems(v, n, depth).Ok?
    ensures Encode(v.items[i], depth) == Ok(EncodeItems(v, n, depth).value[i])
    decreases n
  {
    if i < n - 1 { EncodeItemsAt(v, n - 1, depth, i); }
  }

  lemma {:induction false} EncodePairsAt(v: Variant, n: nat, depth: nat, i: nat)
    requires v.VDict? && i < n <= |v.pairs| && EncodePairs(v, n, depth).Ok?
    ensures v.pairs[i].key.VString? && Encode(v.pairs[i].value, depth).Ok?
    ensures EncodePairs(v, n, depth).value[i] == Entry(Text(v.pairs[i].key.text), Encode(v.pairs[i].value, depth).value)
    decreases n
  {
    if i < n - 1 { EncodePairsAt(v, n - 1, depth, i); }
  }

  lemma {:induction false} DecodeItemsAll(w: Value, n: nat, depth: nat)
    requires w.Array? && n <= |w.items| && forall i :: 0 <= i < n ==> Decode(w.items[i], depth).Ok?
    ensures DecodeItems(w, n, depth).Ok?
    ensures forall i :: 0 <= i < n ==> DecodeItems(w, n, depth).value[i] == Decode(w.items[i], depth).value
    decreases n
  {
    if n > 0 { DecodeItemsAll(w, n - 1, depth); }
  }

  ghost predicate DistinctKeys(w: Value, n: nat)
    requires w.Map? && n <= |w.entries|
  {
    forall i, j :: 0 <= i < j < n ==> w.entries[i].key != w.entries[j].key
  }

  ghost predicate EntryDecodes(w: Value, i: int, depth: nat)
    requires w.Map? && 0 <= i < |w.entries|
  {
    w.entries[i].key.Text? && Decode(w.entries[i].value, depth).Ok?
  }

  lemma {:induction false} NextEntry(w: Value, n: nat, depth: nat, front: seq<Pair>)
    requires w.Map? && 0 < n <= |w.entries| && DecodeEntries(w, n - 1, depth) == Ok(front) && EntryDecodes(w, n - 1, depth)
    requires forall i :: 0 <= i < |front| ==> front[i].key != VString(w.entries[n - 1].key.text)
    ensures DecodeEntries(w, n, depth) == Ok(front + [Pair(VString(w.entries[n - 1].key.text), Decode(w.entries[n - 1].value, depth).value)])
  {}

  lemma {:induction false} DecodeEntriesAll(w: Value, n: nat, depth: nat)
    requires w.Map? && n <= |w.entries| && DistinctKeys(w, n) && forall i :: 0 <= i < n ==> EntryDecodes(w, i, depth)
    ensures DecodeEntries(w, n, depth).Ok? && |DecodeEntries(w, n, depth).value| == n
    ensures forall i :: 0 <= i < n ==>
              EntryDecodes(w, i, depth) &&
              DecodeEntries(w, n, depth).value[i] == Pair(VString(w.entries[i].key.text), Decode(w.entries[i].value, depth).value)
    decreases n
  {
    if n > 0 {
      DecodeEntriesAll(w, n - 1, depth);
      var front := DecodeEntries(w, n - 1, depth).value;
      assert EntryDecodes(w, n - 1, depth);
      forall i | 0 <= i < n - 1 ensures front[i].key != VString(w.entries[n - 1].key.text) {
        assert w.entries[i].key != w.entries[n - 1].key;
      }
      NextEntry(w, n, depth, front);
    }
  }

  lemma {:induction false} LookupAt(pairs: seq<Pair>, i: nat)
    requires i < |pairs| && forall a, b :: 0 <= a < b < |pairs| ==> pairs[a].key != pairs[b].key
    ensures Lookup(pairs, pairs[i].key) == Some(pairs[i].value)
    decreases |pairs|
  {
    if i > 0 {
      assert pairs[1..][i - 1] == pairs[i];
      LookupAt(pairs[1..], i - 1);
    }
  }

  lemma {:induction false} ArrayRoundTrip(v: Variant, w: Value, depth: nat)
    requires v.VArray? && WellFormed(v) && Encode(v, depth).Ok? && Reordered(Encode(v, depth).value, w)
    ensures Decode(w, depth).Ok? && Same(v, Decode(w, depth).value)
    decreases v, 0
  {
    var n := |v.items|;
    var u := EncodeItems(v, n, depth + 1).value;
    forall i | 0 <= i < n ensures Decode(w.items[i], depth + 1).Ok? && Same(v.items[i], Decode(w.items[i], depth + 1).value) {
      EncodeItemsAt(v, n, depth + 1, i);
      assert Reordered(u[i], w.items[i]);
      RoundTripFrom(v.items[i], w.items[i], depth + 1);
    }
    DecodeItemsAll(w, n, depth + 1);
  }

  /** Entry `i` of the reordered map decodes to entry `j` of the dictionary. */
  lemma {:induction false} EntryRoundTrip(v: Variant, w: Value, depth: nat, j: nat, i: nat)
    requires v.VDict? && WellFormed(v) && EncodePairs(v, |v.pairs|, depth).Ok? && w.Map? && i < |w.entries|
    requires EntryReordered(Map(EncodePairs(v, |v.pairs|, depth).value), j, w.entries[i])
    ensures j < |v.pairs| && EntryDecodes(w, i, depth) && v.pairs[j].key == VString(w.entries[i].key.text)
    ensures Same(v.pairs[j].value, Decode(w.entries[i].value, depth).value)
    decreases v, 0
  {
    EncodePairsAt(v, |v.pairs|, depth, j);
    assert Text(v.pairs[j].key.text) == w.entries[i].key;
    RoundTripFrom(v.pairs[j].value, w.entries[i].value, depth);
  }

  lemma {:induction false} DictRoundTrip(v: Variant, w: Value, depth: nat)
    requires v.VDict? && WellFormed(v) && Encode(v, depth).Ok? && Reordered(Encode(v, depth).value, w)
    ensures Decode(w, depth).Ok? && Same(v, Decode(w, depth).value)
    decreases v, 1
  {
    var n := |v.pairs|;
    var u := Map(EncodePairs(v, n, depth + 1).value);
    var perm :| IsPermutation(perm, n) && forall i :: 0 <= i < n ==> EntryReordered(u, perm[i], w.entries[i]);
    forall i | 0 <= i < n
      ensures EntryDecodes(w, i, depth + 1) && v.pairs[perm[i]].key == VString(w.entries[i].key.text)
      ensures Same(v.pairs[perm[i]].value, Decode(w.entries[i].value, depth + 1).value)
    {
      EntryRoundTrip(v, w, depth + 1, perm[i], i);
    }
    DictKeysDistinct(v, w, perm);
    DecodeEntriesAll(w, n, depth + 1);
    SameByLookup(v, DecodeEntries(w, n, depth + 1).value, perm);
  }

  /** A dictionary is the same as one that lists equal values under the same keys in another order. */
  lemma {:induction false} SameByLookup(v: Variant, out: seq<Pair>, perm: seq<nat>)
    requires v.VDict? && WellFormed(v) && |out| == |v.pairs| && IsPermutation(perm, |out|)
    requires forall i :: 0 <= i < |out| ==> v.pairs[perm[i]].key == out[i].key && Same(v.pairs[perm[i]].value, out[i].value)
    ensures Same(v, VDict(out))
  {
    forall i, j | 0 <= i < j < |out| ensures out[i].key != out[j].key {
      assert v.pairs[perm[i]].key != v.pairs[perm[j]].key;
    }
    forall j | 0 <= j < |out| ensures Lookup(out, v.pairs[j].key).Some? && Same(v.pairs[j].value, Lookup(out, v.pairs[j].key).value) {
      assert j in perm;
      var i :| 0 <= i < |out| && perm[i] == j;
      LookupAt(out, i);
    }
  }

  lemma DictKeysDistinct(v: Variant, w: Value, perm: seq<nat>)
    requires v.VDict? && WellFormed(v) && w.Map? && |w.entries| == |v.pairs| && IsPermutation(perm, |v.pairs|)
    requires forall i :: 0 <= i < |w.entries| ==> w.entries[i].key.Text? && v.pairs[perm[i]].key == VString(w.entries[i].key.text)
    ensures DistinctKeys(w, |w.entries|)
  {
    forall i, j | 0 <= i < j < |w.entries| ensures w.entries[i].key != w.entries[j].key {
      assert perm[i] != perm[j];
      assert v.pairs[perm[i]].key != v.pairs[perm[j]].key;
    }
  }

  lemma {:induction false} RoundTripFrom(v: Variant, w: Value, depth: nat)
    requires WellFormed(v) && Encode(v, depth).Ok? && Reordered(Encode(v, depth).value, w)
    ensures Decode(w, depth).Ok? && Same(v, Decode(w, depth).value)
    decreases v, 2
  {
    if v.VArray? {
      ArrayRoundTrip(v, w, depth);
    } else if v.VDict? {
      DictRoundTrip(v, w, depth);
    }
  }

  /** Every supported value nested at most 64 deep encodes, and whatever order its map entries are
      put in afterwards, at every level, it decodes to an equal value. */
  lemma RoundTrip(v: Variant, w: Value)
    requires WellFormed(v) && Supported(v) && NestedWithin(v, MAX_DEPTH)
    ensures Encode(v, 0).Ok?
    ensures Reordered(Encode(v, 0).value, w) ==> Decode(w, 0).Ok? && Same(v, Decode(w, 0).value)
  {
    EncodesExactly(v, 0);
    if Reordered(Encode(v, 0).value, w) {
      RoundTripFrom(v, w, 0);
    }
  }
}
