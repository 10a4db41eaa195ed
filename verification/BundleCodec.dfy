/**
 The portable identity bundle as CBOR: a printer with a fixed key order, and a lenient parser that skips unknown keys
 and drops array items it cannot rebuild.
 */
module BundleCodec {
  import opened Wrappers
  import opened Substrate
  import opened Cbor

  const BUNDLE_SCHEMA_VERSION := 2
  const U32_MAX := 0xffff_ffff

  datatype Property = Property(name: string, value: Value)

  datatype IdentityBundle = IdentityBundle(
    identityHash: Hash,
    identityEntity: Entity,
    quorums: seq<Entity>,
    attestations: seq<Entity>,
    signatures: seq<Entity>,
    labelText: Option<string>,
    properties: seq<Property>)

  datatype BundleError =
    | NotAMap
    | LegacyKeypair
    | MissingVersion
    | UnsupportedVersion(version: int)
    | MissingIdentityHash
    | MissingIdentityEntity

  /** The process's hash format, and the content hash under it. */
  datatype Home = Home(format: int, compute: (string, Bytes) -> Hash)

  /** `Entity::new`: refuses an empty type or empty data, a peer identity away from SHA-256, and an unallocated format. */
  function EntityNew(home: Home, entityType: string, data: Bytes): Option<Entity> {
    if entityType == "" || data == [] then None
    else if entityType == TYPE_PEER && home.format != SHA256_FORMAT then None
    else if DigestLength(home.format).None? then None
    else Some(Entity(entityType, data, home.compute(entityType, data)))
  }

  // ---------- printing ----------

  function EntityValue(e: Entity): Value {
    Map([Entry(Text("data"), ByteString(e.data)), Entry(Text("type"), Text(e.entityType))])
  }

  function EntityValues(es: seq<Entity>): seq<Value> {
    if es == [] then [] else EntityValues(es[..|es| - 1]) + [EntityValue(es[|es| - 1])]
  }

  function PropertyEntries(ps: seq<Property>): seq<Entry> {
    if ps == [] then []
    else PropertyEntries(ps[..|ps| - 1]) + [Entry(Text(ps[|ps| - 1].name), ps[|ps| - 1].value)]
  }

  function LabelEntries(b: IdentityBundle): seq<Entry> {
    if b.labelText.Some? then [Entry(Text("label"), Text(b.labelText.value))] else []
  }

  function PropertiesEntries(b: IdentityBundle): seq<Entry> {
    if b.properties != [] then [Entry(Text("properties"), Map(PropertyEntries(b.properties)))] else []
  }

  function HeadEntries(b: IdentityBundle): seq<Entry> {
    [Entry(Text("attestations"), Array(EntityValues(b.attestations))),
     Entry(Text("identity_entity"), EntityValue(b.identityEntity)),
     Entry(Text("identity_hash"), ByteString(ToBytes(b.identityHash)))]
  }

  function TailEntries(b: IdentityBundle): seq<Entry> {
    [Entry(Text("quorums"), Array(EntityValues(b.quorums))),
     Entry(Text("schema_version"), Integer(BUNDLE_SCHEMA_VERSION)),
     Entry(Text("signatures"), Array(EntityValues(b.signatures)))]
  }

  function BundleEntries(b: IdentityBundle): seq<Entry> {
    HeadEntries(b) + LabelEntries(b) + PropertiesEntries(b) + TailEntries(b)
  }

  /** `to_cbor_value`. */
  function Encode(b: IdentityBundle): Value {
    Map(BundleEntries(b))
  }

  // ---------- parsing ----------

  datatype EntityFields = EntityFields(entityType: Option<string>, data: Option<Bytes>)

  function ReadEntityFields(entries: seq<Entry>): EntityFields {
    if entries == [] then EntityFields(None, None)
    else
      var before, e := ReadEntityFields(entries[..|entries| - 1]), entries[|entries| - 1];
      if e.key == Text("type") then before.(entityType := if e.value.Text? then Some(e.value.text) else None)
      else if e.key == Text("data") && e.value.ByteString? then before.(data := Some(e.value.data))
      else before
  }

  /** `value_to_entity`. */
  function ParseEntity(home: Home, v: Value): Option<Entity> {
    if !v.Map? then None
    else
      var fields := ReadEntityFields(v.entries);
      if fields.entityType.None? || fields.data.None? then None
      else EntityNew(home, fields.entityType.value, fields.data.value)
  }

  /** The entities of an array; items that do not parse are dropped. */
  function ParseEntities(home: Home, items: seq<Value>): seq<Entity> {
    if items == [] then []
    else
      var last := ParseEntity(home, items[|items| - 1]);
      ParseEntities(home, items[..|items| - 1]) + if last.Some? then [last.value] else []
  }

  function ParseProperties(entries: seq<Entry>): seq<Property> {
    if entries == [] then []
    else
      var e := entries[|entries| - 1];
      ParseProperties(entries[..|entries| - 1]) + if e.key.Text? then [Property(e.key.text, e.value)] else []
  }

  /** What the parser has gathered so far. */
  datatype Partial = Partial(
    version: Option<int>,
    identityHash: Option<Hash>,
    identityEntity: Option<Entity>,
    quorums: seq<Entity>,
    attestations: seq<Entity>,
    signatures: seq<Entity>,
    labelText: Option<string>,
    properties: seq<Property>)

  const Nothing := Partial(None, None, None, [], [], [], None, [])

  /** The effect of one top-level entry other than the refused one. */
  function Absorb(home: Home, p: Partial, e: Entry): Partial {
    if !e.key.Text? then p
    else if e.key.text == "schema_version" then
      if e.value.Integer? && 0 <= e.value.number <= U32_MAX then p.(version := Some(e.value.number)) else p
    else if e.key.text == "identity_hash" then
      if e.value.ByteString? then p.(identityHash := FromBytes(e.value.data)) else p
    else if e.key.text == "identity_entity" then p.(identityEntity := ParseEntity(home, e.value))
    else if e.key.text == "quorums" then
      if e.value.Array? then p.(quorums := p.quorums + ParseEntities(home, e.value.items)) else p
    else if e.key.text == "attestations" then
      if e.value.Array? then p.(attestations := p.attestations + ParseEntities(home, e.value.items)) else p
    else if e.key.text == "signatures" then
      if e.value.Array? then p.(signatures := p.signatures + ParseEntities(home, e.value.items)) else p
    else if e.key.text == "label" then p.(labelText := if e.value.Text? then Some(e.value.text) else None)
    else if e.key.text == "properties" then
      if e.value.Map? then p.(properties := p.properties + ParseProperties(e.value.entries)) else p
    else p
  }

  predicate IsLegacy(e: Entry) {
    e.key == Text("keypair_pem")
  }

  function AbsorbAll(home: Home, p: Partial, entries: seq<Entry>): Result<Partial, BundleError> {
    if entries == [] then Ok(p)
    else
      match AbsorbAll(home, p, entries[..|entries| - 1])
      case Err(e) => Err(e)
      case Ok(q) =>
        var e := entries[|entries| - 1];
        if IsLegacy(e) then Err(LegacyKeypair) else Ok(Absorb(home, q, e))
  }

  function Finish(p: Partial): Result<IdentityBundle, BundleError> {
    if p.version.None? then Err(MissingVersion)
    else if p.version.value != BUNDLE_SCHEMA_VERSION then Err(UnsupportedVersion(p.version.value))
    else if p.identityHash.None? then Err(MissingIdentityHash)
    else if p.identityEntity.None? then Err(MissingIdentityEntity)
    else Ok(IdentityBundle(p.identityHash.value, p.identityEntity.value, p.quorums, p.attestations, p.signatures,
                           p.labelText, p.properties))
  }

  /** `from_cbor_value`. */
  function Decode(home: Home, v: Value): Result<IdentityBundle, BundleError> {
    if !v.Map? then Err(NotAMap)
    else
      match AbsorbAll(home, Nothing, v.entries)
      case Err(e) => Err(e)
      case Ok(p) => Finish(p)
  }

  // ---------- the loops of the parser ----------

  method ParseEntityLoop(home: Home, v: Value) returns (r: Option<Entity>)
    ensures r == ParseEntity(home, v)
  {
    if !v.Map? { return None; }
    var entityType, data := None, None;
    for i := 0 to |v.entries|
      invariant EntityFields(entityType, data) == ReadEntityFields(v.entries[..i])
    {
      var e := v.entries[i];
      assert v.entries[..i + 1][..i] == v.entries[..i];
      if e.key == Text("type") {
        entityType := if e.value.Text? then Some(e.value.text) else None;
      } else if e.key == Text("data") && e.value.ByteString? {
        data := Some(e.value.data);
      }
    }
    assert v.entries[..|v.entries|] == v.entries;
    if entityType.None? || data.None? { return None; }
    r := EntityNew(home, entityType.value, data.value);
  }

  method ParseEntitiesLoop(home: Home, items: seq<Value>, gathered: seq<Entity>) returns (r: seq<Entity>)
    ensures r == gathered + ParseEntities(home, items)
  {
    r := gathered;
    for i := 0 to |items|
      invariant r == gathered + ParseEntities(home, items[..i])
    {
      assert items[..i + 1][..i] == items[..i];
      var e := ParseEntityLoop(home, items[i]);
      if e.Some? { r := r + [e.value]; }
    }
    assert items[..|items|] == items;
  }

  method ParsePropertiesLoop(entries: seq<Entry>, gathered: seq<Property>) returns (r: seq<Property>)
    ensures r == gathered + ParseProperties(entries)
  {
    r := gathered;
    for i := 0 to |entries|
      invariant r == gathered + ParseProperties(entries[..i])
    {
      assert entries[..i + 1][..i] == entries[..i];
      if entries[i].key.Text? { r := r + [Property(entries[i].key.text, entries[i].value)]; }
    }
    assert entries[..|entries|] == entries;
  }

  lemma {:induction false} AbsorbStops(home: Home, p: Partial, entries: seq<Entry>, k: nat)
    requires k <= |entries| && AbsorbAll(home, p, entries[..k]).Err?
    ensures AbsorbAll(home, p, entries) == AbsorbAll(home, p, entries[..k])
    decreases |entries|
  {
    if k == |entries| {
      assert entries[..k] == entries;
    } else {
      assert entries[..|entries| - 1][..k] == entries[..k];
      AbsorbStops(home, p, entries[..|entries| - 1], k);
    }
  }

  /** One turn of the main loop. */
  method AbsorbEntry(home: Home, p: Partial, e: Entry) returns (r: Partial)
    ensures r == Absorb(home, p, e)
  {
    r := p;
    if !e.key.Text? { return; }
    match e.key.text
    case "schema_version" =>
      if e.value.Integer? && 0 <= e.value.number <= U32_MAX { r := p.(version := Some(e.value.number)); }
    case "identity_hash" =>
      if e.value.ByteString? { r := p.(identityHash := FromBytes(e.value.data)); }
    case "identity_entity" =>
      var entity := ParseEntityLoop(home, e.value);
      r := p.(identityEntity := entity);
    case "quorums" =>
      if e.value.Array? { var es := ParseEntitiesLoop(home, e.value.items, p.quorums); r := p.(quorums := es); }
    case "attestations" =>
      if e.value.Array? { var es := ParseEntitiesLoop(home, e.value.items, p.attestations); r := p.(attestations := es); }
    case "signatures" =>
      if e.value.Array? { var es := ParseEntitiesLoop(home, e.value.items, p.signatures); r := p.(signatures := es); }
    case "label" =>
      r := p.(labelText := if e.value.Text? then Some(e.value.text) else None);
    case "properties" =>
      if e.value.Map? { var ps := ParsePropertiesLoop(e.value.entries, p.properties); r := p.(properties := ps); }
    case _ =>
  }

  method DecodeBundle(home: Home, v: Value) returns (r: Result<IdentityBundle, BundleError>)
    ensures r == Decode(home, v)
  {
    if !v.Map? { return Err(NotAMap); }
    var p := Nothing;
    for i := 0 to |v.entries|
      invariant AbsorbAll(home, Nothing, v.entries[..i]) == Ok(p)
    {
      assert v.entries[..i + 1][..i] == v.entries[..i];
      if IsLegacy(v.entries[i]) {
        AbsorbStops(home, Nothing, v.entries, i + 1);
        return Err(LegacyKeypair);
      }
      p := AbsorbEntry(home, p, v.entries[i]);
    }
    assert v.entries[..|v.entries|] == v.entries;
    r := Finish(p);
  }

  // ---------- what the parser accepts ----------

  /** The entity is the one `Entity::new` builds here from its type and data. */
  predicate Native(home: Home, e: Entity) {
    EntityNew(home, e.entityType, e.data) == Some(e)
  }

  ghost predicate AllNative(home: Home, es: seq<Entity>) {
    forall i :: 0 <= i < |es| ==> Native(home, es[i])
  }

  ghost predicate NativeBundle(home: Home, b: IdentityBundle) {
    Native(home, b.identityEntity) && AllNative(home, b.quorums) && AllNative(home, b.attestations) && AllNative(home, b.signatures)
  }

  lemma {:induction false} ParsedAreNative(home: Home, items: seq<Value>)
    ensures AllNative(home, ParseEntities(home, items))
    decreases |items|
  {
    if items != [] { ParsedAreNative(home, items[..|items| - 1]); }
  }

  ghost predicate NativePartial(home: Home, p: Partial) {
    && (p.identityEntity.Some? ==> Native(home, p.identityEntity.value))
    && AllNative(home, p.quorums) && AllNative(home, p.attestations) && AllNative(home, p.signatures)
  }

  lemma AbsorbKeepsNative(home: Home, p: Partial, e: Entry)
    requires NativePartial(home, p)
    ensures NativePartial(home, Absorb(home, p, e))
  {
    if e.value.Array? { ParsedAreNative(home, e.value.items); }
  }

  lemma {:induction false} AbsorbedIsNative(home: Home, entries: seq<Entry>)
    requires AbsorbAll(home, Nothing, entries).Ok?
    ensures NativePartial(home, AbsorbAll(home, Nothing, entries).value)
    decreases |entries|
  {
    if entries != [] {
      AbsorbedIsNative(home, entries[..|entries| - 1]);
      AbsorbKeepsNative(home, AbsorbAll(home, Nothing, entries[..|entries| - 1]).value, entries[|entries| - 1]);
    }
  }

  /** The refusal of private keys: a `keypair_pem` key anywhere at the top level, and nothing else, gives that error, whatever else the bundle holds. */
  lemma LegacyKeyAlwaysRejected(home: Home, v: Value)
    ensures Decode(home, v) == Err(LegacyKeypair) <==>
            v.Map? && exists i :: 0 <= i < |v.entries| && IsLegacy(v.entries[i])
  {
    if v.Map? { LegacyExactly(home, Nothing, v.entries); }
  }

  lemma {:induction false} LegacyExactly(home: Home, p: Partial, entries: seq<Entry>)
    ensures AbsorbAll(home, p, entries).Err? <==> exists i :: 0 <= i < |entries| && IsLegacy(entries[i])
    ensures AbsorbAll(home, p, entries).Err? ==> AbsorbAll(home, p, entries) == Err(LegacyKeypair)
    decreases |entries|
  {
    if entries != [] {
      var front := entries[..|entries| - 1];
      LegacyExactly(home, p, front);
      if i :| 0 <= i < |entries| && IsLegacy(entries[i]) {
        if i < |front| { assert IsLegacy(front[i]); }
      }
      if i :| 0 <= i < |front| && IsLegacy(front[i]) {
        assert IsLegacy(entries[i]);
      }
    }
  }

  // ---------- the parser's verdict ----------

  /** The last entry of the kind holds this value. */
  ghost predicate LastHolds(entries: seq<Entry>, kind: Entry -> bool, v: Value) {
    exists i :: LastAt(entries, kind, i) && entries[i].value == v
  }

  ghost predicate LastAt(entries: seq<Entry>, kind: Entry -> bool, i: int) {
    0 <= i < |entries| && kind(entries[i]) && forall j :: i < j < |entries| ==> !kind(entries[j])
  }

  ghost predicate NoneHolds(entries: seq<Entry>, kind: Entry -> bool) {
    forall i :: 0 <= i < |entries| ==> !kind(entries[i])
  }

  lemma {:induction false} LastHoldsSnoc(entries: seq<Entry>, e: Entry, kind: Entry -> bool, v: Value)
    ensures LastHolds(entries + [e], kind, v) <==> if kind(e) then e.value == v else LastHolds(entries, kind, v)
    ensures NoneHolds(entries + [e], kind) <==> NoneHolds(entries, kind) && !kind(e)
  {
    var all := entries + [e];
    assert all[|entries|] == e;
    if i :| LastAt(all, kind, i) && all[i].value == v {
      if !kind(e) {
        assert i < |entries| && all[i] == entries[i];
        assert forall j :: i < j < |entries| ==> all[j] == entries[j];
        assert LastAt(entries, kind, i);
      }
    }
    if kind(e) {
      assert LastAt(all, kind, |entries|);
      assert !NoneHolds(all, kind);
    } else if i :| LastAt(entries, kind, i) && entries[i].value == v {
      assert LastAt(all, kind, i);
    }
    assert forall i :: 0 <= i < |entries| ==> all[i] == entries[i];
  }

  predicate Versions(e: Entry) {
    e.key == Text("schema_version") && e.value.Integer? && 0 <= e.value.number <= U32_MAX
  }

  predicate IdentityHashes(e: Entry) {
    e.key == Text("identity_hash") && e.value.ByteString?
  }

  predicate IdentityEntities(e: Entry) {
    e.key == Text("identity_entity")
  }

  predicate Labels(e: Entry) {
    e.key == Text("label")
  }

  predicate EntityTypes(e: Entry) {
    e.key == Text("type")
  }

  predicate EntityData(e: Entry) {
    e.key == Text("data") && e.value.ByteString?
  }

  /** The entity that type and data make here: neither is empty, the home format is allocated, and is SHA-256 for a peer. */
  predicate Makes(home: Home, entityType: string, data: Bytes, e: Entity) {
    && entityType != "" && data != [] && (home.format == SHA256_FORMAT || (home.format == SHA384_FORMAT && entityType != TYPE_PEER))
    && e.entityType == entityType && e.data == data && e.hash == home.compute(entityType, data)
  }

  /** The value is a map whose last type and last byte-string data make the entity. */
  ghost predicate Describes(home: Home, v: Value, e: Entity) {
    && v.Map? && LastHolds(v.entries, EntityTypes, Text(e.entityType)) && LastHolds(v.entries, EntityData, ByteString(e.data))
    && Makes(home, e.entityType, e.data, e)
  }

  ghost predicate NamesHash(entries: seq<Entry>, h: Hash) {
    exists data :: LastHolds(entries, IdentityHashes, ByteString(data)) && FromBytes(data) == Some(h)
  }

  ghost predicate NamesEntity(home: Home, entries: seq<Entry>, e: Entity) {
    exists v :: LastHolds(entries, IdentityEntities, v) && Describes(home, v, e)
  }

  lemma FieldsSnoc(front: seq<Entry>, e: Entry)
    ensures ReadEntityFields(front + [e]).entityType ==
            if !EntityTypes(e) then ReadEntityFields(front).entityType else if e.value.Text? then Some(e.value.text) else None
    ensures ReadEntityFields(front + [e]).data == if EntityData(e) then Some(e.value.data) else ReadEntityFields(front).data
  {
    assert (front + [e])[..|front|] == front;
  }

  lemma {:induction false} FieldsAre(entries: seq<Entry>, t: string, d: Bytes)
    ensures ReadEntityFields(entries).entityType == Some(t) <==> LastHolds(entries, EntityTypes, Text(t))
    ensures ReadEntityFields(entries).data == Some(d) <==> LastHolds(entries, EntityData, ByteString(d))
    decreases |entries|
  {
    if entries != [] {
      var front, e := entries[..|entries| - 1], entries[|entries| - 1];
      assert entries == front + [e];
      FieldsAre(front, t, d);
      FieldsSnoc(front, e);
      LastHoldsSnoc(front, e, EntityTypes, Text(t));
      LastHoldsSnoc(front, e, EntityData, ByteString(d));
    }
  }

  /** Which entity a value is read as, if any. */
  lemma {:induction false} ParseEntityExactly(home: Home, v: Value, e: Entity)
    ensures ParseEntity(home, v) == Some(e) <==> Describes(home, v, e)
  {
    if v.Map? {
      FieldsAre(v.entries, e.entityType, e.data);
    }
  }

  /** The items of all arrays under a key, in order. */
  function ItemsUnder(entries: seq<Entry>, key: string): seq<Value> {
    if entries == [] then []
    else
      var e := entries[|entries| - 1];
      ItemsUnder(entries[..|entries| - 1], key) + if e.key == Text(key) && e.value.Array? then e.value.items else []
  }

  /** The entries of all maps under a key, in order. */
  function EntriesUnder(entries: seq<Entry>, key: string): seq<Entry> {
    if entries == [] then []
    else
      var e := entries[|entries| - 1];
      EntriesUnder(entries[..|entries| - 1], key) + if e.key == Text(key) && e.value.Map? then e.value.entries else []
  }

  lemma {:induction false} ParseEntitiesConcat(home: Home, a: seq<Value>, b: seq<Value>)
    ensures ParseEntities(home, a + b) == ParseEntities(home, a) + ParseEntities(home, b)
    decreases |b|
  {
    if b == [] {
      assert a + b == a;
    } else {
      assert (a + b)[..|a + b| - 1] == a + b[..|b| - 1];
      ParseEntitiesConcat(home, a, b[..|b| - 1]);
    }
  }

  lemma {:induction false} ParsePropertiesConcat(a: seq<Entry>, b: seq<Entry>)
    ensures ParseProperties(a + b) == ParseProperties(a) + ParseProperties(b)
    decreases |b|
  {
    if b == [] {
      assert a + b == a;
    } else {
      assert (a + b)[..|a + b| - 1] == a + b[..|b| - 1];
      ParsePropertiesConcat(a, b[..|b| - 1]);
    }
  }

  /** The lists of a bundle are what can be read of all the arrays, and of all the maps, under their keys. */
  ghost predicate ListsRead(home: Home, entries: seq<Entry>, quorums: seq<Entity>, attestations: seq<Entity>, signatures: seq<Entity>,
                            properties: seq<Property>) {
    && quorums == ParseEntities(home, ItemsUnder(entries, "quorums"))
    && attestations == ParseEntities(home, ItemsUnder(entries, "attestations"))
    && signatures == ParseEntities(home, ItemsUnder(entries, "signatures"))
    && properties == ParseProperties(EntriesUnder(entries, "properties"))
  }

  lemma {:induction false} ItemsUnderSnoc(home: Home, entries: seq<Entry>, e: Entry, key: string)
    ensures ParseEntities(home, ItemsUnder(entries + [e], key)) ==
            ParseEntities(home, ItemsUnder(entries, key)) + if e.key == Text(key) && e.value.Array? then ParseEntities(home, e.value.items) else []
  {
    assert (entries + [e])[..|entries|] == entries;
    if e.key == Text(key) && e.value.Array? {
      ParseEntitiesConcat(home, ItemsUnder(entries, key), e.value.items);
    } else {
      assert ItemsUnder(entries, key) + [] == ItemsUnder(entries, key);
    }
  }

  lemma {:induction false} EntriesUnderSnoc(entries: seq<Entry>, e: Entry, key: string)
    ensures ParseProperties(EntriesUnder(entries + [e], key)) ==
            ParseProperties(EntriesUnder(entries, key)) + if e.key == Text(key) && e.value.Map? then ParseProperties(e.value.entries) else []
  {
    assert (entries + [e])[..|entries|] == entries;
    if e.key == Text(key) && e.value.Map? {
      ParsePropertiesConcat(EntriesUnder(entries, key), e.value.entries);
    } else {
      assert EntriesUnder(entries, key) + [] == EntriesUnder(entries, key);
    }
  }

  /** What one entry adds to each list. */
  lemma AbsorbQuorums(home: Home, p: Partial, e: Entry)
    ensures Absorb(home, p, e).quorums == p.quorums + if e.key == Text("quorums") && e.value.Array? then ParseEntities(home, e.value.items) else []
  {}

  lemma AbsorbAttestations(home: Home, p: Partial, e: Entry)
    ensures Absorb(home, p, e).attestations ==
            p.attestations + if e.key == Text("attestations") && e.value.Array? then ParseEntities(home, e.value.items) else []
  {}

  lemma AbsorbSignatures(home: Home, p: Partial, e: Entry)
    ensures Absorb(home, p, e).signatures ==
            p.signatures + if e.key == Text("signatures") && e.value.Array? then ParseEntities(home, e.value.items) else []
  {}

  lemma AbsorbMoreProperties(home: Home, p: Partial, e: Entry)
    ensures Absorb(home, p, e).properties ==
            p.properties + if e.key == Text("properties") && e.value.Map? then ParseProperties(e.value.entries) else []
  {}

  lemma AbsorbVersion(home: Home, p: Partial, e: Entry)
    ensures Absorb(home, p, e).version == if Versions(e) then Some(e.value.number) else p.version
  {}

  lemma {:induction false} ListsReadSnoc(home: Home, entries: seq<Entry>, e: Entry, p: Partial)
    requires ListsRead(home, entries, p.quorums, p.attestations, p.signatures, p.properties)
    ensures var q := Absorb(home, p, e); ListsRead(home, entries + [e], q.quorums, q.attestations, q.signatures, q.properties)
  {
    var q := Absorb(home, p, e);
    assert q.quorums == ParseEntities(home, ItemsUnder(entries + [e], "quorums")) by {
      ItemsUnderSnoc(home, entries, e, "quorums");
      AbsorbQuorums(home, p, e);
    }
    assert q.attestations == ParseEntities(home, ItemsUnder(entries + [e], "attestations")) by {
      ItemsUnderSnoc(home, entries, e, "attestations");
      AbsorbAttestations(home, p, e);
    }
    assert q.signatures == ParseEntities(home, ItemsUnder(entries + [e], "signatures")) by {
      ItemsUnderSnoc(home, entries, e, "signatures");
      AbsorbSignatures(home, p, e);
    }
    assert q.properties == ParseProperties(EntriesUnder(entries + [e], "properties")) by {
      EntriesUnderSnoc(entries, e, "properties");
      AbsorbMoreProperties(home, p, e);
    }
  }

  lemma {:induction false} ListsAreRead(home: Home, entries: seq<Entry>)
    requires AbsorbAll(home, Nothing, entries).Ok?
    ensures var p := AbsorbAll(home, Nothing, entries).value;
            ListsRead(home, entries, p.quorums, p.attestations, p.signatures, p.properties)
    decreases |entries|
  {
    if entries != [] {
      var front, e := entries[..|entries| - 1], entries[|entries| - 1];
      assert entries == front + [e];
      ListsAreRead(home, front);
      ListsReadSnoc(home, front, e, AbsorbAll(home, Nothing, front).value);
    }
  }

  lemma {:induction false} VersionRead(home: Home, entries: seq<Entry>, n: int)
    requires AbsorbAll(home, Nothing, entries).Ok?
    ensures var p := AbsorbAll(home, Nothing, entries).value;
            && (p.version == Some(n) <==> LastHolds(entries, Versions, Integer(n)))
            && (p.version.None? <==> NoneHolds(entries, Versions))
    decreases |entries|
  {
    if entries != [] {
      var front, e := entries[..|entries| - 1], entries[|entries| - 1];
      assert entries == front + [e];
      VersionRead(home, front, n);
      LastHoldsSnoc(front, e, Versions, Integer(n));
      AbsorbVersion(home, AbsorbAll(home, Nothing, front).value, e);
    }
  }

  lemma {:induction false} LabelRead(home: Home, entries: seq<Entry>, text: string)
    requires AbsorbAll(home, Nothing, entries).Ok?
    ensures AbsorbAll(home, Nothing, entries).value.labelText == Some(text) <==> LastHolds(entries, Labels, Text(text))
    decreases |entries|
  {
    if entries != [] {
      var front, e := entries[..|entries| - 1], entries[|entries| - 1];
      assert entries == front + [e];
      LabelRead(home, front, text);
      LastHoldsSnoc(front, e, Labels, Text(text));
      AbsorbLabelText(home, AbsorbAll(home, Nothing, front).value, e);
    }
  }

  lemma {:induction false} NamesHashSnoc(entries: seq<Entry>, e: Entry, h: Hash)
    ensures NamesHash(entries + [e], h) <==> if IdentityHashes(e) then FromBytes(e.value.data) == Some(h) else NamesHash(entries, h)
  {
    forall data ensures LastHolds(entries + [e], IdentityHashes, ByteString(data)) <==>
                        if IdentityHashes(e) then e.value == ByteString(data) else LastHolds(entries, IdentityHashes, ByteString(data))
    {
      LastHoldsSnoc(entries, e, IdentityHashes, ByteString(data));
    }
  }

  lemma {:induction false} NamesEntitySnoc(home: Home, entries: seq<Entry>, e: Entry, entity: Entity)
    ensures NamesEntity(home, entries + [e], entity) <==>
            if IdentityEntities(e) then Describes(home, e.value, entity) else NamesEntity(home, entries, entity)
  {
    forall v ensures LastHolds(entries + [e], IdentityEntities, v) <==>
                     if IdentityEntities(e) then e.value == v else LastHolds(entries, IdentityEntities, v)
    {
      LastHoldsSnoc(entries, e, IdentityEntities, v);
    }
  }

  lemma AbsorbIdentity(home: Home, p: Partial, e: Entry)
    ensures Absorb(home, p, e).identityHash == if IdentityHashes(e) then FromBytes(e.value.data) else p.identityHash
    ensures Absorb(home, p, e).identityEntity == if IdentityEntities(e) then ParseEntity(home, e.value) else p.identityEntity
  {}

  lemma AbsorbLabelText(home: Home, p: Partial, e: Entry)
    ensures Absorb(home, p, e).labelText == if !Labels(e) then p.labelText else if e.value.Text? then Some(e.value.text) else None
  {}

  lemma {:induction false} IdentityHashRead(home: Home, entries: seq<Entry>, h: Hash)
    requires AbsorbAll(home, Nothing, entries).Ok?
    ensures AbsorbAll(home, Nothing, entries).value.identityHash == Some(h) <==> NamesHash(entries, h)
    decreases |entries|
  {
    if entries != [] {
      var front, e := entries[..|entries| - 1], entries[|entries| - 1];
      assert entries == front + [e];
      IdentityHashRead(home, front, h);
      NamesHashSnoc(front, e, h);
      AbsorbIdentity(home, AbsorbAll(home, Nothing, front).value, e);
    }
  }

  lemma {:induction false} IdentityEntityRead(home: Home, entries: seq<Entry>, entity: Entity)
    requires AbsorbAll(home, Nothing, entries).Ok?
    ensures AbsorbAll(home, Nothing, entries).value.identityEntity == Some(entity) <==> NamesEntity(home, entries, entity)
    decreases |entries|
  {
    if entries != [] {
      var front, e := entries[..|entries| - 1], entries[|entries| - 1];
      assert entries == front + [e];
      IdentityEntityRead(home, front, entity);
      NamesEntitySnoc(home, front, e, entity);
      ParseEntityExactly(home, e.value, entity);
      AbsorbIdentity(home, AbsorbAll(home, Nothing, front).value, e);
    }
  }

  ghost predicate HasLegacyKey(entries: seq<Entry>) {
    exists i :: 0 <= i < |entries| && entries[i].key == Text("keypair_pem")
  }

  /** What the entries of a well-formed bundle say it holds. */
  ghost predicate Says(home: Home, entries: seq<Entry>, b: IdentityBundle) {
    && NamesHash(entries, b.identityHash) && NamesEntity(home, entries, b.identityEntity)
    && ListsRead(home, entries, b.quorums, b.attestations, b.signatures, b.properties)
    && (forall text :: b.labelText == Some(text) <==> LastHolds(entries, Labels, Text(text)))
  }

  /** On every value: decoding yields a bundle if and only if the value is a map without the private-key field whose last version is 2, whose last
      identity hash parses and whose last identity entity can be rebuilt; and the bundle is what the entries say. */
  lemma {:induction false} DecodesExactly(home: Home, v: Value, b: IdentityBundle)
    ensures Decode(home, v) == Ok(b) <==>
            v.Map? && !HasLegacyKey(v.entries) && LastHolds(v.entries, Versions, Integer(2)) && Says(home, v.entries, b)
  {
    if v.Map? {
      LegacyExactly(home, Nothing, v.entries);
      assert HasLegacyKey(v.entries) <==> AbsorbAll(home, Nothing, v.entries).Err?;
      if !HasLegacyKey(v.entries) { ReadExactly(home, v.entries, b); }
    }
  }

  lemma {:induction false} LabelExactly(home: Home, entries: seq<Entry>, labelText: Option<string>)
    requires AbsorbAll(home, Nothing, entries).Ok?
    ensures AbsorbAll(home, Nothing, entries).value.labelText == labelText <==>
            forall text :: labelText == Some(text) <==> LastHolds(entries, Labels, Text(text))
  {
    var read := AbsorbAll(home, Nothing, entries).value.labelText;
    forall text ensures read == Some(text) <==> LastHolds(entries, Labels, Text(text)) { LabelRead(home, entries, text); }
    if read.Some? { assert read == Some(read.value); }
    if labelText.Some? { assert labelText == Some(labelText.value); }
  }

  lemma {:induction false} ReadExactly(home: Home, entries: seq<Entry>, b: IdentityBundle)
    requires AbsorbAll(home, Nothing, entries).Ok?
    ensures Finish(AbsorbAll(home, Nothing, entries).value) == Ok(b) <==> LastHolds(entries, Versions, Integer(2)) && Says(home, entries, b)
  {
    VersionRead(home, entries, 2);
    IdentityHashRead(home, entries, b.identityHash);
    IdentityEntityRead(home, entries, b.identityEntity);
    ListsAreRead(home, entries);
    LabelExactly(home, entries, b.labelText);
  }

  /** And what each refusal means. */
  lemma {:induction false} DecodeRefusals(home: Home, v: Value)
    ensures Decode(home, v) == Err(NotAMap) <==> !v.Map?
    ensures Decode(home, v) == Err(LegacyKeypair) <==> v.Map? && HasLegacyKey(v.entries)
    ensures Decode(home, v) == Err(MissingVersion) <==> v.Map? && !HasLegacyKey(v.entries) && NoneHolds(v.entries, Versions)
    ensures forall n :: Decode(home, v) == Err(UnsupportedVersion(n)) <==>
                        v.Map? && !HasLegacyKey(v.entries) && LastHolds(v.entries, Versions, Integer(n)) && n != 2
    ensures Decode(home, v) == Err(MissingIdentityHash) <==>
            && v.Map? && !HasLegacyKey(v.entries) && LastHolds(v.entries, Versions, Integer(2))
            && forall h :: !NamesHash(v.entries, h)
    ensures Decode(home, v) == Err(MissingIdentityEntity) <==>
            && v.Map? && !HasLegacyKey(v.entries) && LastHolds(v.entries, Versions, Integer(2))
            && (exists h :: NamesHash(v.entries, h)) && forall e :: !NamesEntity(home, v.entries, e)
  {
    LegacyKeyAlwaysRejected(home, v);
    if v.Map? {
      assert HasLegacyKey(v.entries) <==> exists i :: 0 <= i < |v.entries| && IsLegacy(v.entries[i]);
      LegacyExactly(home, Nothing, v.entries);
      if !HasLegacyKey(v.entries) { RefusedExactly(home, v.entries); }
    }
  }

  lemma {:induction false} RefusedExactly(home: Home, entries: seq<Entry>)
    requires AbsorbAll(home, Nothing, entries).Ok?
    ensures var p := AbsorbAll(home, Nothing, entries).value;
            && (forall n :: p.version == Some(n) <==> LastHolds(entries, Versions, Integer(n)))
            && (p.version.None? <==> NoneHolds(entries, Versions))
            && (p.identityHash.Some? <==> exists h :: NamesHash(entries, h))
            && (p.identityEntity.Some? <==> exists e :: NamesEntity(home, entries, e))
  {
    var p := AbsorbAll(home, Nothing, entries).value;
    forall n ensures p.version == Some(n) <==> LastHolds(entries, Versions, Integer(n)) { VersionRead(home, entries, n); }
    VersionRead(home, entries, 2);
    forall h: Hash ensures p.identityHash == Some(h) <==> NamesHash(entries, h) { IdentityHashRead(home, entries, h); }
    forall e: Entity ensures p.identityEntity == Some(e) <==> NamesEntity(home, entries, e) { IdentityEntityRead(home, entries, e); }
    if p.identityHash.Some? { assert NamesHash(entries, p.identityHash.value); }
    if p.identityEntity.Some? { assert NamesEntity(home, entries, p.identityEntity.value); }
  }

  // ---------- round trips ----------

  /** What an entity's printed form parses to: the entity rebuilt under this home. */
  lemma ParsePrinted(home: Home, e: Entity)
    ensures ParseEntity(home, EntityValue(e)) == EntityNew(home, e.entityType, e.data)
  {
    var entries := EntityValue(e).entries;
    assert entries[..1][..0] == [] && entries[..2] == entries && entries[..2][..1] == entries[..1];
    assert ReadEntityFields(entries[..0]) == EntityFields(None, None);
    assert ReadEntityFields(entries[..1]) == EntityFields(None, Some(e.data));
    assert ReadEntityFields(entries) == EntityFields(Some(e.entityType), Some(e.data));
  }

  lemma {:induction false} ParsePrintedAll(home: Home, es: seq<Entity>)
    requires AllNative(home, es)
    ensures ParseEntities(home, EntityValues(es)) == es
    decreases |es|
  {
    if es != [] {
      var n := |es| - 1;
      ParsePrintedAll(home, es[..n]);
      ParsePrinted(home, es[n]);
      var values := EntityValues(es);
      assert values == EntityValues(es[..n]) + [EntityValue(es[n])];
      assert values[..|values| - 1] == EntityValues(es[..n]);
      assert es == es[..n] + [es[n]];
    }
  }

  lemma {:induction false} PropertiesRoundTrip(ps: seq<Property>)
    ensures ParseProperties(PropertyEntries(ps)) == ps
    decreases |ps|
  {
    if ps != [] {
      var n := |ps| - 1;
      PropertiesRoundTrip(ps[..n]);
      var entries := PropertyEntries(ps);
      assert entries[..|entries| - 1] == PropertyEntries(ps[..n]);
      assert ps == ps[..n] + [ps[n]];
    }
  }

  lemma AbsorbSnoc(home: Home, p: Partial, entries: seq<Entry>, e: Entry)
    requires AbsorbAll(home, p, entries).Ok? && !IsLegacy(e)
    ensures AbsorbAll(home, p, entries + [e]) == Ok(Absorb(home, AbsorbAll(home, p, entries).value, e))
  {
    assert (entries + [e])[..|entries|] == entries;
  }

  /** A list of entities printed and parsed again. */
  function Rebuilt(home: Home, es: seq<Entity>): seq<Entity> {
    ParseEntities(home, EntityValues(es))
  }

  /** The first three printed entries. */
  lemma AbsorbHead(home: Home, b: IdentityBundle)
    ensures AbsorbAll(home, Nothing, HeadEntries(b)) ==
            Ok(Partial(None, Some(b.identityHash), ParseEntity(home, EntityValue(b.identityEntity)), [], Rebuilt(home, b.attestations), [], None, []))
  {
    var e1 := Entry(Text("attestations"), Array(EntityValues(b.attestations)));
    var e2 := Entry(Text("identity_entity"), EntityValue(b.identityEntity));
    var e3 := Entry(Text("identity_hash"), ByteString(ToBytes(b.identityHash)));
    HashBytesRoundTrip(b.identityHash);
    AbsorbSnoc(home, Nothing, [], e1);
    assert [] + [e1] == [e1] && [] + Rebuilt(home, b.attestations) == Rebuilt(home, b.attestations);
    assert Absorb(home, Nothing, e1) == Nothing.(attestations := Rebuilt(home, b.attestations));
    AbsorbSnoc(home, Nothing, [e1], e2);
    AbsorbSnoc(home, Nothing, [e1] + [e2], e3);
    assert [e1] + [e2] + [e3] == [e1, e2, e3];
  }

  lemma AbsorbLabel(home: Home, b: IdentityBundle, entries: seq<Entry>, p: Partial)
    requires AbsorbAll(home, Nothing, entries) == Ok(p) && p.labelText.None?
    ensures AbsorbAll(home, Nothing, entries + LabelEntries(b)) == Ok(p.(labelText := b.labelText))
  {
    if b.labelText.Some? {
      AbsorbSnoc(home, Nothing, entries, Entry(Text("label"), Text(b.labelText.value)));
    } else {
      assert entries + LabelEntries(b) == entries;
    }
  }

  lemma AbsorbFirstProperties(home: Home, p: Partial, entries: seq<Entry>)
    requires p.properties == []
    ensures Absorb(home, p, Entry(Text("properties"), Map(entries))) == p.(properties := ParseProperties(entries))
  {
    assert [] + ParseProperties(entries) == ParseProperties(entries);
  }

  lemma AbsorbProperties(home: Home, b: IdentityBundle, entries: seq<Entry>, p: Partial)
    requires AbsorbAll(home, Nothing, entries) == Ok(p) && p.properties == []
    ensures AbsorbAll(home, Nothing, entries + PropertiesEntries(b)) == Ok(p.(properties := b.properties))
  {
    if b.properties != [] {
      PropertiesRoundTrip(b.properties);
      AbsorbFirstProperties(home, p, PropertyEntries(b.properties));
      AbsorbSnoc(home, Nothing, entries, Entry(Text("properties"), Map(PropertyEntries(b.properties))));
    } else {
      assert entries + PropertiesEntries(b) == entries;
      assert p.(properties := b.properties) == p;
    }
  }

  /** The last three. */
  lemma AbsorbTail(home: Home, b: IdentityBundle, entries: seq<Entry>, p: Partial)
    requires AbsorbAll(home, Nothing, entries) == Ok(p) && p.quorums == [] && p.signatures == []
    ensures AbsorbAll(home, Nothing, entries + TailEntries(b)) ==
            Ok(p.(quorums := Rebuilt(home, b.quorums), version := Some(BUNDLE_SCHEMA_VERSION), signatures := Rebuilt(home, b.signatures)))
  {
    var e6 := Entry(Text("quorums"), Array(EntityValues(b.quorums)));
    var e7 := Entry(Text("schema_version"), Integer(BUNDLE_SCHEMA_VERSION));
    var e8 := Entry(Text("signatures"), Array(EntityValues(b.signatures)));
    AbsorbSnoc(home, Nothing, entries, e6);
    assert forall es: seq<Entity> :: [] + es == es;
    AbsorbSnoc(home, Nothing, entries + [e6], e7);
    AbsorbSnoc(home, Nothing, entries + [e6] + [e7], e8);
    assert entries + [e6] + [e7] + [e8] == entries + [e6, e7, e8];
  }

  /** The printed bundle, read back entry by entry, whatever this home makes of the identity entity. */
  lemma AbsorbPrinted(home: Home, b: IdentityBundle)
    ensures AbsorbAll(home, Nothing, BundleEntries(b)) ==
            Ok(Partial(Some(BUNDLE_SCHEMA_VERSION), Some(b.identityHash), ParseEntity(home, EntityValue(b.identityEntity)),
                       Rebuilt(home, b.quorums), Rebuilt(home, b.attestations), Rebuilt(home, b.signatures),
                       b.labelText, b.properties))
  {
    var head := HeadEntries(b);
    var p := Partial(None, Some(b.identityHash), ParseEntity(home, EntityValue(b.identityEntity)), [], Rebuilt(home, b.attestations), [], None, []);
    AbsorbHead(home, b);
    AbsorbLabel(home, b, head, p);
    AbsorbProperties(home, b, head + LabelEntries(b), p.(labelText := b.labelText));
    AbsorbTail(home, b, head + LabelEntries(b) + PropertiesEntries(b), p.(labelText := b.labelText, properties := b.properties));
  }

  predicate KeysPrecede(a: Entry, b: Entry) {
    a.key.Text? && b.key.Text? && Precedes(a.key.text, b.key.text)
  }

  lemma {:induction false} PrecedesAfter(common: string, a: string, b: string)
    requires a != "" && b != "" && a[0] < b[0]
    ensures Precedes(common + a, common + b)
    decreases |common|
  {
    if common == "" {
      assert common + a == a && common + b == b;
    } else {
      assert (common + a)[1..] == common[1..] + a && (common + b)[1..] == common[1..] + b;
      PrecedesAfter(common[1..], a, b);
    }
  }

  lemma ByFirstLetter(a: string, b: string)
    requires a != "" && b != "" && a[0] < b[0]
    ensures Precedes(a, b)
  {}

  lemma IdentityKeysInOrder()
    ensures Precedes("identity_entity", "identity_hash")
  {
    PrecedesAfter("identity_", "entity", "hash");
    assert "identity_" + "entity" == "identity_entity" && "identity_" + "hash" == "identity_hash";
  }

  lemma LastKeysInOrder()
    ensures Precedes("schema_version", "signatures")
  {
    PrecedesAfter("s", "chema_version", "ignatures");
    assert "s" + "chema_version" == "schema_version" && "s" + "ignatures" == "signatures";
  }

  /** Consecutive keys of the list are in order. */
  ghost predicate KeysInOrder(es: seq<Entry>) {
    forall i :: 0 <= i < |es| - 1 ==> KeysPrecede(es[i], es[i + 1])
  }

  lemma {:induction false} JoinKeys(a: seq<Entry>, b: seq<Entry>)
    requires KeysInOrder(a) && KeysInOrder(b) && a != [] && (b != [] ==> KeysPrecede(a[|a| - 1], b[0]))
    ensures KeysInOrder(a + b)
  {}

  lemma HeadInKeyOrder(b: IdentityBundle)
    ensures KeysInOrder(HeadEntries(b))
  {
    ByFirstLetter("attestations", "identity_entity");
    IdentityKeysInOrder();
  }

  lemma TailInKeyOrder(b: IdentityBundle)
    ensures KeysInOrder(TailEntries(b))
  {
    ByFirstLetter("quorums", "schema_version");
    LastKeysInOrder();
  }

  /** The printed keys stand in alphabetical order, each once, whichever optional fields are there. */
  lemma {:induction false} PrintedInKeyOrder(b: IdentityBundle)
    ensures Encode(b).Map? && KeysInOrder(Encode(b).entries)
  {
    HeadInKeyOrder(b);
    TailInKeyOrder(b);
    var head, named := HeadEntries(b), HeadEntries(b) + LabelEntries(b);
    ByFirstLetter("identity_hash", "label");
    JoinKeys(head, LabelEntries(b));
    ByFirstLetter(named[|named| - 1].key.text, "properties");
    JoinKeys(named, PropertiesEntries(b));
    var most := named + PropertiesEntries(b);
    ByFirstLetter(most[|most| - 1].key.text, "quorums");
    JoinKeys(most, TailEntries(b));
  }

  /** A bundle survives encoding and decoding exactly when each of its entities is the one `Entity::new` builds on the reading side. */
  lemma RoundTripExactly(home: Home, b: IdentityBundle)
    ensures Decode(home, Encode(b)) == Ok(b) <==> NativeBundle(home, b)
  {
    if NativeBundle(home, b) {
      AbsorbPrinted(home, b);
      ParsePrinted(home, b.identityEntity);
      ParsePrintedAll(home, b.quorums);
      ParsePrintedAll(home, b.attestations);
      ParsePrintedAll(home, b.signatures);
    } else if Decode(home, Encode(b)).Ok? {
      AbsorbedIsNative(home, BundleEntries(b));
    }
  }

  /** Decoding settles a bundle: whatever was dropped or ignored on the way in, printing and parsing it again changes nothing. */
  lemma DecodingIsStable(home: Home, v: Value)
    requires Decode(home, v).Ok?
    ensures Decode(home, Encode(Decode(home, v).value)) == Decode(home, v)
  {
    AbsorbedIsNative(home, v.entries);
    RoundTripExactly(home, Decode(home, v).value);
  }

  /** Away from SHA-256 no bundle of a peer can be read at all, whatever it holds, since its identity entity cannot be rebuilt there. */
  lemma PeerBundleNeedsSha256Home(home: Home, b: IdentityBundle)
    requires home.format != SHA256_FORMAT && b.identityEntity.entityType == TYPE_PEER
    ensures Decode(home, Encode(b)) == Err(MissingIdentityEntity)
  {
    AbsorbPrinted(home, b);
    ParsePrinted(home, b.identityEntity);
  }
}
