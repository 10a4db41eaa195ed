/**
 The identity bootstrap ceremony: a sequence of writes to the content store and the location index, closed by a configure
 call.  Every write is one operation, so stopping anywhere leaves a prefix of them.
 */
module Ceremony {
  import opened Wrappers
  import opened Substrate
  import opened Cbor
  import opened CertPaths
  import opened BundleCodec

  // ---------- writes ----------

  datatype Space = Space(store: map<Hash, Entity>, index: map<Path, Hash>)

  datatype Op = Put(entity: Entity) | Bind(path: Path, hash: Hash)

  /** A stored hash is left alone; a bound path is rebound. */
  function Apply(s: Space, op: Op): Space {
    match op
    case Put(e) => if e.hash in s.store then s else s.(store := s.store[e.hash := e])
    case Bind(p, h) => s.(index := s.index[p := h])
  }

  function ApplyAll(s: Space, ops: seq<Op>): Space {
    if ops == [] then s else Apply(ApplyAll(s, ops[..|ops| - 1]), ops[|ops| - 1])
  }

  /** What the last binding of a path says. */
  function LastBind(ops: seq<Op>, p: Path): Option<Hash> {
    if ops == [] then None
    else
      var op := ops[|ops| - 1];
      if op.Bind? && op.path == p then Some(op.hash) else LastBind(ops[..|ops| - 1], p)
  }

  /** What the first write under a hash stores. */
  function FirstPut(ops: seq<Op>, h: Hash): Option<Entity> {
    if ops == [] then None
    else
      var before, op := FirstPut(ops[..|ops| - 1], h), ops[|ops| - 1];
      if before.None? && op.Put? && op.entity.hash == h then Some(op.entity) else before
  }

  function Or<T>(a: Option<T>, b: Option<T>): Option<T> {
    if a.Some? then a else b
  }

  /** What a run of writes leaves at a path and under a hash. */
  lemma {:induction false} AfterWrites(s: Space, ops: seq<Op>, p: Path, h: Hash)
    ensures At(ApplyAll(s, ops).index, p) == Or(LastBind(ops, p), At(s.index, p))
    ensures At(ApplyAll(s, ops).store, h) == Or(At(s.store, h), FirstPut(ops, h))
    decreases |ops|
  {
    if ops != [] { AfterWrites(s, ops[..|ops| - 1], p, h); }
  }

  lemma {:induction false} PrefixWrites(ops: seq<Op>, k: nat, p: Path, h: Hash)
    requires k <= |ops|
    ensures LastBind(ops, p).None? ==> LastBind(ops[..k], p).None?
    ensures FirstPut(ops[..k], h).Some? ==> FirstPut(ops, h) == FirstPut(ops[..k], h)
    decreases |ops|
  {
    if k == |ops| {
      assert ops[..k] == ops;
    } else {
      assert ops[..|ops| - 1][..k] == ops[..k];
      PrefixWrites(ops[..|ops| - 1], k, p, h);
    }
  }

  lemma SameSpace(a: Space, b: Space)
    requires forall p :: At(a.index, p) == At(b.index, p)
    requires forall h :: At(a.store, h) == At(b.store, h)
    ensures a == b
  {
    assert forall p :: p in a.index <==> At(a.index, p).Some?;
    assert forall p :: p in b.index <==> At(b.index, p).Some?;
    assert forall h :: h in a.store <==> At(a.store, h).Some?;
    assert forall h :: h in b.store <==> At(b.store, h).Some?;
    assert forall p :: p in a.index ==> Some(a.index[p]) == At(a.index, p) == At(b.index, p) == Some(b.index[p]);
    assert forall h :: h in a.store ==> Some(a.store[h]) == At(a.store, h) == At(b.store, h) == Some(b.store[h]);
    assert a.index == b.index && a.store == b.store;
  }

  /** Writing some first part of a list of writes and then the whole list comes to writing the list once. */
  lemma {:induction false} RewritingFromStart(s: Space, ops: seq<Op>, k: nat)
    requires k <= |ops|
    ensures ApplyAll(ApplyAll(s, ops[..k]), ops) == ApplyAll(s, ops)
  {
    var t := ApplyAll(s, ops[..k]);
    var a, b := ApplyAll(t, ops), ApplyAll(s, ops);
    forall p ensures At(a.index, p) == At(b.index, p) {
      RewritingAt(s, ops, k, p, Hash(0, seq(32, _ => 0)));
    }
    forall h ensures At(a.store, h) == At(b.store, h) {
      RewritingAt(s, ops, k, "", h);
    }
    SameSpace(a, b);
  }

  lemma {:induction false} RewritingAt(s: Space, ops: seq<Op>, k: nat, p: Path, h: Hash)
    requires k <= |ops|
    ensures At(ApplyAll(ApplyAll(s, ops[..k]), ops).index, p) == At(ApplyAll(s, ops).index, p)
    ensures At(ApplyAll(ApplyAll(s, ops[..k]), ops).store, h) == At(ApplyAll(s, ops).store, h)
  {
    AfterWrites(s, ops[..k], p, h);
    AfterWrites(ApplyAll(s, ops[..k]), ops, p, h);
    AfterWrites(s, ops, p, h);
    PrefixWrites(ops, k, p, h);
  }

  // ---------- order of writes ----------

  ghost predicate PutBefore(ops: seq<Op>, i: int, h: Hash) {
    exists j :: 0 <= j < i && j < |ops| && ops[j].Put? && ops[j].entity.hash == h
  }

  /** Everything is stored before it is bound. */
  ghost predicate StoredFirst(ops: seq<Op>) {
    forall i :: 0 <= i < |ops| && ops[i].Bind? ==> PutBefore(ops, i, ops[i].hash)
  }

  /** After any part of such writes, each path holds what it held before or something that is stored. */
  ghost predicate NewBindingsStored(s: Space, t: Space) {
    forall p :: p in t.index ==> At(t.index, p) == At(s.index, p) || t.index[p] in t.store
  }

  lemma {:induction false} PutsAreStored(s: Space, ops: seq<Op>, j: nat)
    requires j < |ops| && ops[j].Put?
    ensures ops[j].entity.hash in ApplyAll(s, ops).store
    decreases |ops|
  {
    if j < |ops| - 1 {
      assert ops[..|ops| - 1][j] == ops[j];
      PutsAreStored(s, ops[..|ops| - 1], j);
    }
  }

  lemma {:induction false} LastBindIsThere(ops: seq<Op>, p: Path) returns (i: nat)
    requires LastBind(ops, p).Some?
    ensures i < |ops| && ops[i] == Bind(p, LastBind(ops, p).value)
    ensures forall j :: i < j < |ops| ==> !(ops[j].Bind? && ops[j].path == p)
    decreases |ops|
  {
    var op := ops[|ops| - 1];
    if op.Bind? && op.path == p {
      i := |ops| - 1;
    } else {
      i := LastBindIsThere(ops[..|ops| - 1], p);
    }
  }

  lemma {:induction false} PrefixKeepsBindingsStored(s: Space, ops: seq<Op>, k: nat)
    requires StoredFirst(ops) && k <= |ops|
    ensures NewBindingsStored(s, ApplyAll(s, ops[..k]))
  {
    var done := ops[..k];
    var t := ApplyAll(s, done);
    forall p | p in t.index ensures At(t.index, p) == At(s.index, p) || t.index[p] in t.store {
      AfterWrites(s, done, p, t.index[p]);
      if LastBind(done, p).Some? {
        var i := LastBindIsThere(done, p);
        assert ops[i] == done[i];
        var j :| 0 <= j < i && ops[j].Put? && ops[j].entity.hash == ops[i].hash;
        assert done[j] == ops[j];
        PutsAreStored(s, done, j);
      }
    }
  }

  lemma {:induction false} BoundBy(ops: seq<Op>, i: nat, p: Path)
    requires i < |ops| && ops[i].Bind? && ops[i].path == p
    requires forall j :: i < j < |ops| ==> !(ops[j].Bind? && ops[j].path == p)
    ensures LastBind(ops, p) == Some(ops[i].hash)
    decreases |ops|
  {
    if i < |ops| - 1 {
      assert ops[..|ops| - 1][i] == ops[i];
      BoundBy(ops[..|ops| - 1], i, p);
    }
  }

  lemma {:induction false} Unbound(ops: seq<Op>, p: Path)
    requires forall j :: 0 <= j < |ops| ==> !(ops[j].Bind? && ops[j].path == p)
    ensures LastBind(ops, p).None?
    decreases |ops|
  {
    if ops != [] { Unbound(ops[..|ops| - 1], p); }
  }

  // ---------- paths of the ceremony ----------

  function CertPath(pid: string, relative: Path): Path {
    "/" + pid + "/" + relative
  }

  /** Paths of different kinds differ, by the letters after the common part. */
  lemma QuorumPathShape(pid: string, q: Hash)
    ensures |QuorumPath(pid, q)| > |pid| + 9 && QuorumPath(pid, q)[|pid| + 9] == 'q'
  {
    assert "/" + pid + "/system/quorum/" + HexSegment(q) == ("/" + pid + "/system/") + ("quorum/" + HexSegment(q));
  }

  lemma SignaturePathShape(pid: string, h: Hash)
    ensures |SignaturePath(pid, h)| > |pid| + 9 && SignaturePath(pid, h)[|pid| + 9] == 's'
  {
    assert "/" + pid + "/system/signature/" + HexSegment(h) == ("/" + pid + "/system/") + ("signature/" + HexSegment(h));
  }

  lemma PeerConfigPathShape(pid: string)
    ensures |PeerConfigPath(pid)| > |pid| + 19 && PeerConfigPath(pid)[|pid| + 9] == 'i'
    ensures PeerConfigPath(pid)[|pid| + 18] == 'p' && PeerConfigPath(pid)[|pid| + 19] == 'e'
  {
    assert "/" + pid + "/system/identity/peer-config" == ("/" + pid) + "/system/identity/peer-config";
  }

  lemma CertPathShape(pid: string, mode: PublishMode, contact: Option<Hash>, att: Hash)
    requires CanonicalCertPath(mode, contact, att).Some?
    ensures var p := CertPath(pid, CanonicalCertPath(mode, contact, att).value);
            |p| > |pid| + 19 && p[|pid| + 9] == 'i' && (p[|pid| + 18] == 'p' ==> p[|pid| + 19] == 'u')
  {
    var rel := CanonicalCertPath(mode, contact, att).value;
    assert |rel| > 17 && rel[7] == 'i' && (rel[16] == 'p' ==> rel[17] == 'u');
    assert CertPath(pid, rel) == ("/" + pid + "/") + rel;
  }

  // ---------- building the entities ----------

  /** The collaborators: entity construction, canonical encoding, and parsing. */
  datatype Platform = Platform(home: Home, ecf: Value -> Bytes, parse: Bytes -> Option<Value>)

  /** The local peer's key, identity and name.  Signing has no other input than its message. */
  datatype Keys = Keys(peerId: string, identity: Hash, peerEntity: Option<Entity>, publicKey: Bytes, sign: Hash -> Bytes)

  datatype Options = Options(threshold: nat, labelText: Option<string>, properties: seq<Property>, force: bool)

  function HashValue(h: Hash): Value {
    ByteString(ToBytes(h))
  }

  function HashValues(hs: seq<Hash>): seq<Value> {
    if hs == [] then [] else [HashValue(hs[0])] + HashValues(hs[1..])
  }

  /** `build_quorum_entity`. */
  function BuildQuorum(pl: Platform, signers: seq<Hash>, threshold: nat, name: Option<string>): Option<Entity> {
    var named := if name.Some? then [Entry(Text("name"), Text(name.value))] else [];
    var fields := named + [Entry(Text("signers"), Array(HashValues(signers))), Entry(Text("threshold"), Integer(threshold))];
    EntityNew(pl.home, TYPE_QUORUM, pl.ecf(Map(fields)))
  }

  function AttestationValue(attesting: Hash, attested: Hash, properties: seq<Entry>): Value {
    Map([Entry(Text("attested"), HashValue(attested)), Entry(Text("attesting"), HashValue(attesting))]
        + if properties != [] then [Entry(Text("properties"), Map(properties))] else [])
  }

  /** `build_attestation_entity`. */
  function BuildAttestation(pl: Platform, attesting: Hash, attested: Hash, properties: seq<Entry>): Option<Entity> {
    EntityNew(pl.home, TYPE_ATTESTATION, pl.ecf(AttestationValue(attesting, attested, properties)))
  }

  function SignatureValue(keys: Keys, target: Hash): Value {
    Map([Entry(Text("algorithm"), Text("ed25519")), Entry(Text("signature"), ByteString(keys.sign(target))),
         Entry(Text("signer"), HashValue(keys.identity)), Entry(Text("target"), HashValue(target))])
  }

  function BuildSignature(pl: Platform, keys: Keys, target: Hash): Option<Entity> {
    EntityNew(pl.home, TYPE_SIGNATURE, pl.ecf(SignatureValue(keys, target)))
  }

  function KeyText(e: Entry): string {
    if e.key.Text? then e.key.text else ""
  }

  ghost predicate SortedByKey(es: seq<Entry>) {
    forall i :: 0 <= i < |es| - 1 ==> !Precedes(KeyText(es[i + 1]), KeyText(es[i]))
  }

  /** A stable insertion: after every entry whose key does not follow the new one. */
  function InsertByKey(es: seq<Entry>, e: Entry): seq<Entry> {
    if es == [] || Precedes(KeyText(e), KeyText(es[0])) then [e] + es else [es[0]] + InsertByKey(es[1..], e)
  }

  function SortByKey(es: seq<Entry>): seq<Entry> {
    if es == [] then [] else InsertByKey(SortByKey(es[..|es| - 1]), es[|es| - 1])
  }

  lemma {:induction false} InsertPermutes(es: seq<Entry>, e: Entry)
    ensures multiset(InsertByKey(es, e)) == multiset(es) + multiset{e}
    decreases |es|
  {
    if es != [] && !Precedes(KeyText(e), KeyText(es[0])) {
      InsertPermutes(es[1..], e);
      assert es == [es[0]] + es[1..];
    }
  }

  lemma {:induction false} InsertSorts(es: seq<Entry>, e: Entry)
    requires SortedByKey(es)
    ensures SortedByKey(InsertByKey(es, e))
    ensures InsertByKey(es, e) != [] && InsertByKey(es, e)[0] == if es == [] || Precedes(KeyText(e), KeyText(es[0])) then e else es[0]
    decreases |es|
  {
    if es != [] {
      if Precedes(KeyText(e), KeyText(es[0])) {
        PrecedesAsymmetric(KeyText(e), KeyText(es[0]));
      } else {
        InsertSorts(es[1..], e);
      }
    }
  }

  /** The sorted list holds the same entries. */
  lemma {:induction false} SortPermutes(es: seq<Entry>)
    ensures multiset(SortByKey(es)) == multiset(es)
    decreases |es|
  {
    if es != [] {
      var front, last := es[..|es| - 1], es[|es| - 1];
      SortPermutes(front);
      InsertPermutes(SortByKey(front), last);
      assert es == front + [last];
    }
  }

  /** They stand in the order of their keys. */
  lemma {:induction false} SortOrders(es: seq<Entry>)
    ensures SortedByKey(SortByKey(es))
    decreases |es|
  {
    if es != [] {
      SortOrders(es[..|es| - 1]);
      InsertSorts(SortByKey(es[..|es| - 1]), es[|es| - 1]);
    }
  }

  predicate Pinned(key: string) {
    key == "kind" || key == "function" || key == "mode"
  }

  const PinnedEntries := [Entry(Text("function"), Text("controller")), Entry(Text("kind"), Text("identity-cert")),
                          Entry(Text("mode"), Text("internal"))]

  /** The caller's entries, without those for pinned keys. */
  function Extras(properties: seq<Property>): (r: seq<Entry>)
    ensures forall i :: 0 <= i < |r| ==> r[i].key.Text? && !Pinned(r[i].key.text)
  {
    if properties == [] then []
    else
      var p := properties[|properties| - 1];
      Extras(properties[..|properties| - 1]) + if Pinned(p.name) then [] else [Entry(Text(p.name), p.value)]
  }

  /** `build_controller_cert_properties`. */
  function ControllerProperties(extra: seq<Property>): seq<Entry> {
    SortByKey(PinnedEntries + Extras(extra))
  }

  method BuildControllerProperties(extra: seq<Property>) returns (r: seq<Entry>)
    ensures r == ControllerProperties(extra)
    ensures multiset(r) == multiset(PinnedEntries + Extras(extra)) && SortedByKey(r)
  {
    var props := PinnedEntries;
    for i := 0 to |extra|
      invariant props == PinnedEntries + Extras(extra[..i])
    {
      assert extra[..i + 1][..i] == extra[..i];
      if !Pinned(extra[i].name) {
        props := props + [Entry(Text(extra[i].name), extra[i].value)];
      }
    }
    assert extra[..|extra|] == extra;
    r := SortByKey(props);
    SortPermutes(props);
    SortOrders(props);
  }

  /** The nested map under the first entry with this key that holds one. */
  function FirstMap(entries: seq<Entry>, key: string): Option<seq<Entry>> {
    if entries == [] then None
    else if entries[0].key == Text(key) && entries[0].value.Map? then Some(entries[0].value.entries)
    else FirstMap(entries[1..], key)
  }

  function ParsedEntries(pl: Platform, e: Entity): seq<Entry> {
    match pl.parse(e.data)
    case Some(Map(entries)) => entries
    case _ => []
  }

  /** `extract_signature_target`. */
  function TargetOf(pl: Platform, sig: Entity): Option<Hash> {
    FirstHash(ParsedEntries(pl, sig), "target")
  }

  /** `extract_attestation_properties`. */
  function PropertiesOf(pl: Platform, att: Entity): seq<Entry> {
    match FirstMap(ParsedEntries(pl, att), "properties")
    case Some(entries) => entries
    case None => []
  }

  /** Where restore binds an attestation: the canonical path of its mode, or the internal one. */
  function RestoredCertPath(pl: Platform, att: Entity): Path {
    var props := PropertiesOf(pl, att);
    var mode := ReadMode(props);
    var canonical := if mode.Some? then CanonicalCertPath(mode.value, ReadContactId(props), att.hash) else None;
    if canonical.Some? then canonical.value else PathInternalCert(att.hash)
  }

  // ---------- what the controller certificate says ----------

  lemma {:induction false} CountedTwice(es: seq<Entry>, i: nat, k: nat, x: Entry)
    requires i < |es| && k < |es| && i != k && es[i] == x && es[k] == x
    ensures multiset(es)[x] >= 2
  {
    var rest := es[..k] + es[k + 1..];
    assert es == es[..k] + [x] + es[k + 1..];
    assert multiset(es) == multiset(rest) + multiset{x};
    assert if i < k then rest[i] == x else rest[i - 1] == x;
    assert x in rest;
  }

  lemma PropertyOrigin(extra: seq<Property>, p: nat, e: Entry)
    requires p < 3 && e in PinnedEntries + Extras(extra)
    ensures e.key.Text? && (e.key == PinnedEntries[p].key ==> e == PinnedEntries[p])
  {
    var all := PinnedEntries + Extras(extra);
    var j :| 0 <= j < |all| && all[j] == e;
    if j >= 3 { assert all[j] == Extras(extra)[j - 3]; }
  }

  lemma SameMembers(a: seq<Entry>, b: seq<Entry>, e: Entry)
    requires multiset(a) == multiset(b)
    ensures e in a <==> e in b
  {
    assert e in a <==> e in multiset(a);
    assert e in b <==> e in multiset(b);
  }

  /** Each pinned key occurs once among the certificate's properties, with the pinned value, whatever the caller supplied. */
  lemma {:induction false} PinnedOnce(extra: seq<Property>, p: nat) returns (k: nat)
    requires p < 3
    ensures var props := ControllerProperties(extra);
            && k < |props| && props[k] == PinnedEntries[p]
            && (forall i :: 0 <= i < |props| ==> props[i].key.Text?)
            && (forall i :: 0 <= i < |props| && i != k ==> props[i].key != PinnedEntries[p].key)
  {
    var props := ControllerProperties(extra);
    var all := PinnedEntries + Extras(extra);
    var x := PinnedEntries[p];
    assert all[p] == x;
    SortPermutes(all);
    SameMembers(props, all, x);
    k :| 0 <= k < |props| && props[k] == x;
    forall i | 0 <= i < |props| ensures props[i].key.Text? && (i != k ==> props[i].key != x.key) {
      SameMembers(props, all, props[i]);
      PropertyOrigin(extra, p, props[i]);
      if i != k && props[i].key == x.key {
        CountedTwice(props, i, k, x);
        PinnedCounts(extra, p);
      }
    }
  }

  lemma PinnedCounts(extra: seq<Property>, p: nat)
    requires p < 3
    ensures multiset(PinnedEntries + Extras(extra))[PinnedEntries[p]] == 1
  {
    var x := PinnedEntries[p];
    assert Pinned(x.key.text);
    assert x !in Extras(extra);
    assert multiset(PinnedEntries)[x] == 1 by {
      assert PinnedEntries == [PinnedEntries[0]] + [PinnedEntries[1]] + [PinnedEntries[2]];
    }
  }

  lemma {:induction false} FirstMapAt(entries: seq<Entry>, key: string, k: nat)
    requires k < |entries| && entries[k].key == Text(key) && entries[k].value.Map?
    requires forall i :: 0 <= i < |entries| && i != k ==> entries[i].key != Text(key)
    ensures FirstMap(entries, key) == Some(entries[k].value.entries)
    decreases |entries|
  {
    if k > 0 {
      assert entries[1..][k - 1] == entries[k];
      FirstMapAt(entries[1..], key, k - 1);
    }
  }

  /** Encoding and parsing only reorders what was encoded. */
  ghost predicate Readable(pl: Platform, v: Value, e: Entity) {
    pl.parse(e.data).Some? && Reordered(v, pl.parse(e.data).value)
  }

  /** The properties of an attestation, as restore reads them back. */
  lemma {:induction false} PropertiesReadBack(pl: Platform, attesting: Hash, attested: Hash, props: seq<Entry>, att: Entity)
    requires props != [] && Readable(pl, AttestationValue(attesting, attested, props), att)
    ensures Reordered(Map(props), Map(PropertiesOf(pl, att)))
  {
    var u := AttestationValue(attesting, attested, props);
    var w := pl.parse(att.data).value;
    var j := EntryAfterReordering(u, w, 2);
    assert u.entries[2] == Entry(Text("properties"), Map(props));
    TextEntryKept(u, 2, w.entries[j]);
    FirstMapAt(w.entries, "properties", j);
  }

  /** A pinned property reads back as pinned. */
  lemma {:induction false} PinnedReadsBack(pl: Platform, extra: seq<Property>, attesting: Hash, attested: Hash, att: Entity, p: nat)
    requires p < 3 && Readable(pl, AttestationValue(attesting, attested, ControllerProperties(extra)), att)
    ensures FirstValue(PropertiesOf(pl, att), PinnedEntries[p].key.text) == Some(PinnedEntries[p].value)
  {
    var props := ControllerProperties(extra);
    var k := PinnedOnce(extra, p);
    PropertiesReadBack(pl, attesting, attested, props, att);
    FirstValueReordered(Map(props), Map(PropertiesOf(pl, att)), PinnedEntries[p].key.text, k);
  }

  /** Bootstrap and restore choose the same path for the controller certificate, and restore
      recognises it as one, whatever properties the caller supplied. */
  lemma {:induction false} SameCertPath(pl: Platform, extra: seq<Property>, attesting: Hash, attested: Hash, att: Entity)
    requires Readable(pl, AttestationValue(attesting, attested, ControllerProperties(extra)), att)
    ensures RestoredCertPath(pl, att) == PathInternalCert(att.hash)
    ensures ReadFunction(PropertiesOf(pl, att)) == Some("controller")
  {
    PinnedReadsBack(pl, extra, attesting, attested, att, 0);
    PinnedReadsBack(pl, extra, attesting, attested, att, 2);
  }

  // ---------- the ceremony ----------

  datatype CeremonyError =
    | BadThreshold
    | MultiSignerUnsupported
    | MalformedConfig
    | EncodingFailed
    | IdentityDrift
    | NoPublicKey
    | KeypairMismatch
    | NoQuorum
    | MalformedSignature
    | NoControllerCert
    | ConfigureFailed

  datatype CeremonyResult =
    | AlreadyBootstrapped(identity: Hash, quorum: Hash)
    | Bootstrapped(identity: Hash, quorum: Hash, cert: Hash, issued: seq<Hash>)

  datatype Minted = Minted(quorum: Hash, cert: Hash)

  /** The writes before configure, in order, and whether the ceremony gets as far as configure. */
  datatype Plan = Plan(ops: seq<Op>, outcome: Result<Minted, CeremonyError>)

  /** `system/identity:configure` for a quorum: the space it leaves and the capabilities it issued, if it accepted. */
  type Configure = (Space, Hash) -> Configured

  datatype Configured = Configured(space: Space, issued: Option<seq<Hash>>)

  datatype Outcome = Outcome(space: Space, result: Result<CeremonyResult, CeremonyError>)

  function Resolve(s: Space, p: Path): Option<Entity> {
    if p in s.index && s.index[p] in s.store then Some(s.store[s.index[p]]) else None
  }

  /** `decode_peer_config_trusts_quorum`. */
  function TrustsQuorum(pl: Platform, config: Entity): Option<Hash> {
    FirstHash(ParsedEntries(pl, config), "trusts_quorum")
  }

  /** The entities a bootstrap builds, as far as they can be built. */
  datatype Material = Material(quorum: Option<Entity>, cert: Option<Entity>, signature: Option<Entity>)

  function Materials(pl: Platform, keys: Keys, opts: Options): Material {
    match BuildQuorum(pl, [keys.identity], 1, opts.labelText)
    case None => Material(None, None, None)
    case Some(q) =>
      match BuildAttestation(pl, q.hash, keys.identity, ControllerProperties(opts.properties))
      case None => Material(Some(q), None, None)
      case Some(cert) => Material(Some(q), Some(cert), BuildSignature(pl, keys, cert.hash))
  }

  function QuorumOps(pid: string, q: Entity): seq<Op> {
    [Put(q), Bind(QuorumPath(pid, q.hash), q.hash)]
  }

  function SignatureOps(pid: string, target: Hash, sig: Entity): seq<Op> {
    [Put(sig), Bind(SignaturePath(pid, target), sig.hash)]
  }

  function CertOps(pid: string, cert: Entity, sig: Entity): seq<Op> {
    [Put(cert)] + SignatureOps(pid, cert.hash, sig) + [Bind(CertPath(pid, PathInternalCert(cert.hash)), cert.hash)]
  }

  function PlanWith(keys: Keys, m: Material): Plan {
    if keys.peerEntity.None? then Plan([], Err(EncodingFailed))
    else if keys.peerEntity.value.hash != keys.identity then Plan([], Err(IdentityDrift))
    else
      var first := [Put(keys.peerEntity.value)];
      if m.quorum.None? then Plan(first, Err(EncodingFailed))
      else
        var second := first + QuorumOps(keys.peerId, m.quorum.value);
        if m.cert.None? then Plan(second, Err(EncodingFailed))
        else if m.signature.None? then Plan(second + [Put(m.cert.value)], Err(EncodingFailed))
        else Plan(second + CertOps(keys.peerId, m.cert.value, m.signature.value), Ok(Minted(m.quorum.value.hash, m.cert.value.hash)))
  }

  function BootstrapPlan(pl: Platform, keys: Keys, opts: Options): Plan {
    PlanWith(keys, Materials(pl, keys, opts))
  }

  /** The writes of the certificate under a quorum, and its hash if it was signed and bound. */
  function CertUnder(pl: Platform, keys: Keys, quorum: Hash, properties: seq<Property>): (seq<Op>, Option<Hash>) {
    match BuildAttestation(pl, quorum, keys.identity, ControllerProperties(properties))
    case None => ([], None)
    case Some(cert) =>
      match BuildSignature(pl, keys, cert.hash)
      case None => ([Put(cert)], None)
      case Some(sig) => (CertOps(keys.peerId, cert, sig), Some(cert.hash))
  }

  /** The writes of the peer entity and the quorum, and the quorum's hash. */
  function Foundation(pl: Platform, keys: Keys, name: Option<string>): (seq<Op>, Result<Hash, CeremonyError>) {
    if keys.peerEntity.None? then ([], Err(EncodingFailed))
    else if keys.peerEntity.value.hash != keys.identity then ([], Err(IdentityDrift))
    else
      match BuildQuorum(pl, [keys.identity], 1, name)
      case None => ([Put(keys.peerEntity.value)], Err(EncodingFailed))
      case Some(q) => ([Put(keys.peerEntity.value)] + QuorumOps(keys.peerId, q), Ok(q.hash))
  }

  lemma {:induction false} PlanSplits(pl: Platform, keys: Keys, opts: Options)
    ensures var f := Foundation(pl, keys, opts.labelText);
            BootstrapPlan(pl, keys, opts) ==
            match f.1
            case Err(e) => Plan(f.0, Err(e))
            case Ok(q) =>
              var (ops, cert) := CertUnder(pl, keys, q, opts.properties);
              Plan(f.0 + ops, if cert.Some? then Ok(Minted(q, cert.value)) else Err(EncodingFailed))
  {
    assert forall ops: seq<Op> :: ops + [] == ops;
  }

  /** The writes of a plan, then configure. */
  function Carry(plan: Plan, keys: Keys, configure: Configure, s: Space): Outcome {
    var written := ApplyAll(s, plan.ops);
    match plan.outcome
    case Err(e) => Outcome(written, Err(e))
    case Ok(m) =>
      var c := configure(written, m.quorum);
      if c.issued.None? then Outcome(c.space, Err(ConfigureFailed))
      else Outcome(c.space, Ok(Bootstrapped(keys.identity, m.quorum, m.cert, c.issued.value)))
  }

  /** What the guard of both ceremonies answers when a peer-config is published. */
  function Recorded(pl: Platform, keys: Keys, config: Entity): Result<CeremonyResult, CeremonyError> {
    match TrustsQuorum(pl, config)
    case None => Err(MalformedConfig)
    case Some(q) => Ok(AlreadyBootstrapped(keys.identity, q))
  }

  /** `run_bootstrap`. */
  function Bootstrap(pl: Platform, keys: Keys, configure: Configure, opts: Options, s: Space): Outcome {
    if opts.threshold == 0 then Outcome(s, Err(BadThreshold))
    else if opts.threshold != 1 then Outcome(s, Err(MultiSignerUnsupported))
    else
      var config := Resolve(s, PeerConfigPath(keys.peerId));
      if !opts.force && config.Some? then Outcome(s, Recorded(pl, keys, config.value))
      else Carry(BootstrapPlan(pl, keys, opts), keys, configure, s)
  }

  /** A peer's store and index, with the log of the writes the ceremonies made. */
  class PeerSpace {
    const pl: Platform
    const keys: Keys
    const configure: Configure
    var store: map<Hash, Entity>
    var index: map<Path, Hash>
    ghost var log: seq<Op>

    constructor (pl: Platform, keys: Keys, configure: Configure, s: Space)
      ensures Snapshot() == s && log == [] && this.pl == pl && this.keys == keys && this.configure == configure
    {
      this.pl, this.keys, this.configure := pl, keys, configure;
      store, index, log := s.store, s.index, [];
    }

    function Snapshot(): Space
      reads this
    {
      Space(store, index)
    }

    method PutEntity(e: Entity)
      modifies this
      ensures Snapshot() == Apply(old(Snapshot()), Put(e)) && log == old(log) + [Put(e)]
    {
      if e.hash !in store { store := store[e.hash := e]; }
      log := log + [Put(e)];
    }

    method SetPath(p: Path, h: Hash)
      modifies this
      ensures Snapshot() == Apply(old(Snapshot()), Bind(p, h)) && log == old(log) + [Bind(p, h)]
    {
      index := index[p := h];
      log := log + [Bind(p, h)];
    }

    /** `sign_and_bind_cert`. */
    method SignAndBind(cert: Hash) returns (ok: bool)
      modifies this
      ensures ok == BuildSignature(pl, keys, cert).Some?
      ensures var ops := if ok then
                           var sig := BuildSignature(pl, keys, cert).value;
                           SignatureOps(keys.peerId, cert, sig)
                         else [];
              log == old(log) + ops && Snapshot() == ApplyAll(old(Snapshot()), ops)
    {
      var sig := BuildSignature(pl, keys, cert);
      if sig.None? { return false; }
      ghost var s := Snapshot();
      PutEntity(sig.value);
      SetPath(SignaturePath(keys.peerId, cert), sig.value.hash);
      ApplyTwo(s, Put(sig.value), Bind(SignaturePath(keys.peerId, cert), sig.value.hash));
      ok := true;
    }

    method WriteQuorum(q: Entity)
      modifies this
      ensures log == old(log) + QuorumOps(keys.peerId, q) && Snapshot() == ApplyAll(old(Snapshot()), QuorumOps(keys.peerId, q))
    {
      ghost var s := Snapshot();
      PutEntity(q);
      SetPath(QuorumPath(keys.peerId, q.hash), q.hash);
      ApplyTwo(s, Put(q), Bind(QuorumPath(keys.peerId, q.hash), q.hash));
    }

    /** The certificate is stored, its signature is stored and bound, and only then is it bound. */
    method WriteCert(cert: Entity) returns (ok: bool)
      modifies this
      ensures ok == BuildSignature(pl, keys, cert.hash).Some?
      ensures var ops := if ok then CertOps(keys.peerId, cert, BuildSignature(pl, keys, cert.hash).value) else [Put(cert)];
              log == old(log) + ops && Snapshot() == ApplyAll(old(Snapshot()), ops)
    {
      ghost var s := Snapshot();
      PutEntity(cert);
      ApplyMore(s, [], Put(cert));
      ok := SignAndBind(cert.hash);
      if !ok { return; }
      ghost var signing := SignatureOps(keys.peerId, cert.hash, BuildSignature(pl, keys, cert.hash).value);
      ApplyConcat(s, [Put(cert)], signing);
      var path := CertPath(keys.peerId, PathInternalCert(cert.hash));
      SetPath(path, cert.hash);
      ApplyMore(s, [Put(cert)] + signing, Bind(path, cert.hash));
    }

    /** From the quorum on: the certificate under it. */
    method WriteCertUnder(quorum: Hash, properties: seq<Property>) returns (cert: Option<Hash>)
      modifies this
      ensures var under := CertUnder(pl, keys, quorum, properties);
              cert == under.1 && log == old(log) + under.0 && Snapshot() == ApplyAll(old(Snapshot()), under.0)
    {
      var props := BuildControllerProperties(properties);
      var built := BuildAttestation(pl, quorum, keys.identity, props);
      if built.None? { return None; }
      var ok := WriteCert(built.value);
      cert := if ok then Some(built.value.hash) else None;
    }

    /** The peer's own identity entity, then the quorum. */
    method WriteFoundation(name: Option<string>) returns (quorum: Result<Hash, CeremonyError>)
      modifies this
      ensures var f := Foundation(pl, keys, name);
              quorum == f.1 && log == old(log) + f.0 && Snapshot() == ApplyAll(old(Snapshot()), f.0)
    {
      ghost var s := Snapshot();
      if keys.peerEntity.None? { return Err(EncodingFailed); }
      if keys.peerEntity.value.hash != keys.identity { return Err(IdentityDrift); }
      PutEntity(keys.peerEntity.value);
      ghost var first := [Put(keys.peerEntity.value)];
      ApplyMore(s, [], first[0]);
      var q := BuildQuorum(pl, [keys.identity], 1, name);
      if q.None? { return Err(EncodingFailed); }
      WriteQuorum(q.value);
      ApplyConcat(s, first, QuorumOps(keys.peerId, q.value));
      quorum := Ok(q.value.hash);
    }

    /** The ceremony's writes up to configure, in the order of the plan. */
    method WriteBootstrap(opts: Options) returns (r: Result<Minted, CeremonyError>)
      modifies this
      ensures var plan := BootstrapPlan(pl, keys, opts);
              r == plan.outcome && log == old(log) + plan.ops && Snapshot() == ApplyAll(old(Snapshot()), plan.ops)
    {
      ghost var s, before := Snapshot(), log;
      PlanSplits(pl, keys, opts);
      var quorum := WriteFoundation(opts.labelText);
      if quorum.Err? { return Err(quorum.error); }
      ghost var first := Foundation(pl, keys, opts.labelText).0;
      var cert := WriteCertUnder(quorum.value, opts.properties);
      ghost var second := CertUnder(pl, keys, quorum.value, opts.properties).0;
      JoinWrites(s, before, first, second);
      if cert.None? { return Err(EncodingFailed); }
      r := Ok(Minted(quorum.value, cert.value));
    }

    method Configuring(quorum: Hash) returns (issued: Option<seq<Hash>>)
      modifies this`store, this`index
      ensures Snapshot() == configure(old(Snapshot()), quorum).space && issued == configure(old(Snapshot()), quorum).issued
    {
      var c := configure(Space(store, index), quorum);
      store, index := c.space.store, c.space.index;
      issued := c.issued;
    }

    method RunBootstrap(opts: Options) returns (r: Result<CeremonyResult, CeremonyError>)
      modifies this
      ensures Outcome(Snapshot(), r) == Bootstrap(pl, keys, configure, opts, old(Snapshot()))
    {
      if opts.threshold == 0 { return Err(BadThreshold); }
      if opts.threshold != 1 { return Err(MultiSignerUnsupported); }
      var config := Resolve(Space(store, index), PeerConfigPath(keys.peerId));
      if !opts.force && config.Some? {
        return Recorded(pl, keys, config.value);
      }
      var minted := WriteBootstrap(opts);
      if minted.Err? { return Err(minted.error); }
      var issued := Configuring(minted.value.quorum);
      if issued.None? { return Err(ConfigureFailed); }
      r := Ok(Bootstrapped(keys.identity, minted.value.quorum, minted.value.cert, issued.value));
    }
  }

  lemma ApplyMore(s: Space, ops: seq<Op>, op: Op)
    ensures ApplyAll(s, ops + [op]) == Apply(ApplyAll(s, ops), op)
    ensures [] + [op] == [op]
  {
    assert (ops + [op])[..|ops|] == ops;
  }

  lemma ApplyTwo(s: Space, a: Op, b: Op)
    ensures ApplyAll(s, [a, b]) == Apply(Apply(s, a), b)
  {
    ApplyMore(s, [], a);
    ApplyMore(s, [a], b);
    assert [a] + [b] == [a, b] && ApplyAll(s, []) == s;
  }

  lemma {:induction false} ApplyConcat(s: Space, a: seq<Op>, b: seq<Op>)
    ensures ApplyAll(s, a + b) == ApplyAll(ApplyAll(s, a), b)
    decreases |b|
  {
    if b == [] {
      assert a + b == a;
    } else {
      var n := |b| - 1;
      assert a + b == (a + b[..n]) + [b[n]];
      ApplyMore(s, a + b[..n], b[n]);
      ApplyConcat(s, a, b[..n]);
    }
  }

  lemma {:induction false} JoinWrites(s: Space, log: seq<Op>, a: seq<Op>, b: seq<Op>)
    ensures ApplyAll(ApplyAll(s, a), b) == ApplyAll(s, a + b) && log + a + b == log + (a + b)
  {
    ApplyConcat(s, a, b);
  }

  // ---------- restart ----------

  /** The seven writes of a complete plan; an incomplete one is a part of them. */
  lemma {:induction false} PlanOps(keys: Keys, m: Material)
    ensures var ops := PlanWith(keys, m).ops;
            && |ops| <= 7 && (PlanWith(keys, m).outcome.Ok? ==> |ops| == 7)
            && (|ops| > 0 ==> ops[0].Put?)
            && (|ops| > 1 ==> |ops| > 2 && m.quorum.Some? && ops[1] == Put(m.quorum.value) &&
                              ops[2] == Bind(QuorumPath(keys.peerId, m.quorum.value.hash), m.quorum.value.hash))
            && (|ops| > 3 ==> m.cert.Some? && ops[3] == Put(m.cert.value))
            && (|ops| > 4 ==> |ops| == 7 && m.signature.Some? && ops[4] == Put(m.signature.value) &&
                              ops[5] == Bind(SignaturePath(keys.peerId, m.cert.value.hash), m.signature.value.hash) &&
                              ops[6] == Bind(CertPath(keys.peerId, PathInternalCert(m.cert.value.hash)), m.cert.value.hash))
            && (PlanWith(keys, m).outcome.Ok? ==> PlanWith(keys, m).outcome.value == Minted(m.quorum.value.hash, m.cert.value.hash))
  {}

  lemma {:induction false} PlanSparesPeerConfig(keys: Keys, m: Material, i: nat)
    requires i < |PlanWith(keys, m).ops| && PlanWith(keys, m).ops[i].Bind?
    ensures PlanWith(keys, m).ops[i].path != PeerConfigPath(keys.peerId)
  {
    PlanOps(keys, m);
    PeerConfigPathShape(keys.peerId);
    if i == 2 {
      QuorumPathShape(keys.peerId, m.quorum.value.hash);
    } else if i == 5 {
      SignaturePathShape(keys.peerId, m.cert.value.hash);
    } else {
      CertPathShape(keys.peerId, Internal, None, m.cert.value.hash);
    }
  }

  lemma {:induction false} PrefixSparesPeerConfig(keys: Keys, m: Material, k: nat)
    requires k <= |PlanWith(keys, m).ops|
    ensures LastBind(PlanWith(keys, m).ops[..k], PeerConfigPath(keys.peerId)).None?
  {
    var ops, p := PlanWith(keys, m).ops, PeerConfigPath(keys.peerId);
    forall j | 0 <= j < k ensures !(ops[..k][j].Bind? && ops[..k][j].path == p) {
      if ops[j].Bind? { PlanSparesPeerConfig(keys, m, j); }
    }
    Unbound(ops[..k], p);
  }

  /** A peer-config path that led nowhere comes to lead to something these writes store. */
  predicate Awakens(ops: seq<Op>, s: Space, pid: string) {
    PeerConfigPath(pid) in s.index && FirstPut(ops, s.index[PeerConfigPath(pid)]).Some?
  }

  /** When writes that spare the peer-config path leave it leading nowhere. */
  lemma {:induction false} GuardAfterWrites(s: Space, ops: seq<Op>, pid: string)
    requires LastBind(ops, PeerConfigPath(pid)).None? && Resolve(s, PeerConfigPath(pid)).None?
    ensures Resolve(ApplyAll(s, ops), PeerConfigPath(pid)).None? <==> !Awakens(ops, s, pid)
  {
    var p := PeerConfigPath(pid);
    AfterWrites(s, ops, p, if p in s.index then s.index[p] else Hash(0, seq(32, _ => 0)));
    var t := ApplyAll(s, ops);
    assert p in t.index <==> At(t.index, p).Some?;
    if p in s.index {
      assert t.index[p] == s.index[p];
      assert s.index[p] in t.store <==> At(t.store, s.index[p]).Some?;
    }
  }

  /** Bootstrap is restartable: stopped after any of its writes and run again with the same key and options, it leaves the same
      store and index, and answers the same, as one uninterrupted run; the one exception is a peer-config path that was
      bound to a hash which was not stored and which these writes store. */
  lemma {:induction false} BootstrapIsRestartable(pl: Platform, keys: Keys, configure: Configure, opts: Options, s: Space, k: nat)
    requires k <= |BootstrapPlan(pl, keys, opts).ops|
    requires opts.threshold == 1 && (opts.force || Resolve(s, PeerConfigPath(keys.peerId)).None?)
    ensures var stopped := ApplyAll(s, BootstrapPlan(pl, keys, opts).ops[..k]);
            Bootstrap(pl, keys, configure, opts, stopped) == Bootstrap(pl, keys, configure, opts, s) <==>
            opts.force || !Awakens(BootstrapPlan(pl, keys, opts).ops[..k], s, keys.peerId)
  {
    var plan := BootstrapPlan(pl, keys, opts);
    var stopped := ApplyAll(s, plan.ops[..k]);
    RewritingFromStart(s, plan.ops, k);
    assert Carry(plan, keys, configure, stopped) == Carry(plan, keys, configure, s);
    assert Bootstrap(pl, keys, configure, opts, s) == Carry(plan, keys, configure, s);
    if !opts.force {
      PrefixSparesPeerConfig(keys, Materials(pl, keys, opts), k);
      GuardAfterWrites(s, plan.ops[..k], keys.peerId);
      PlanErrors(keys, Materials(pl, keys, opts));
    }
  }

  /** The ceremony itself never answers what the guard does. */
  lemma {:induction false} PlanErrors(keys: Keys, m: Material)
    ensures PlanWith(keys, m).outcome.Err? ==> PlanWith(keys, m).outcome.error != MalformedConfig
  {}

  /** What configure promises when it accepts: nothing stored is lost, the peer-config is published and names the quorum, no bound path
      changes but the peer-config's and those of the capabilities it issues, and what it binds
      besides is the peer's signature of a capability, stored, at that capability's signature path. */
  ghost predicate ConfigureEffect(pl: Platform, keys: Keys, before: Space, quorum: Hash, after: Space) {
    && (forall h :: h in before.store ==> h in after.store && after.store[h] == before.store[h])
    && Resolve(after, PeerConfigPath(keys.peerId)).Some?
    && TrustsQuorum(pl, Resolve(after, PeerConfigPath(keys.peerId)).value) == Some(quorum)
    && (forall p :: p in before.index && p != PeerConfigPath(keys.peerId) && !IssuedCapPath(keys.peerId, p) ==>
          p in after.index && after.index[p] == before.index[p])
    && (forall p :: p in after.index && p !in before.index ==>
          p == PeerConfigPath(keys.peerId) || IssuedCapPath(keys.peerId, p) || SignsTarget(pl, keys.peerId, after, p))
  }

  /** The path is the signature path of some target, and leads to a signature of that target. */
  ghost predicate SignsTarget(pl: Platform, pid: string, s: Space, p: Path) {
    exists t :: p == SignaturePath(pid, t) && SignatureAt(pl, s, p, t)
  }

  predicate SignatureAt(pl: Platform, s: Space, p: Path, t: Hash) {
    var e := Resolve(s, p);
    e.Some? && e.value.entityType == TYPE_SIGNATURE && TargetOf(pl, e.value) == Some(t) && Native(pl.home, e.value)
  }

  predicate IssuedCapPath(pid: string, p: Path) {
    "/" + pid + "/system/capability" + "/grants/identity/peer-to-controller/" <= p
  }

  /** Configure keeps its promise where the plan's writes have led. */
  ghost predicate ConfigureSoundAfter(pl: Platform, keys: Keys, configure: Configure, plan: Plan, s: Space) {
    plan.outcome.Ok? ==>
      var written, quorum := ApplyAll(s, plan.ops), plan.outcome.value.quorum;
      configure(written, quorum).issued.Some? ==> ConfigureEffect(pl, keys, written, quorum, configure(written, quorum).space)
  }

  /** A ceremony that ran through ends with what configure left for its quorum. */
  lemma {:induction false} CarriedThrough(plan: Plan, keys: Keys, configure: Configure, s: Space)
    requires Carry(plan, keys, configure, s).result.Ok?
    ensures plan.outcome.Ok?
    ensures var c := configure(ApplyAll(s, plan.ops), plan.outcome.value.quorum);
            && c.issued.Some? && Carry(plan, keys, configure, s).space == c.space
            && Carry(plan, keys, configure, s).result.value.Bootstrapped?
            && Carry(plan, keys, configure, s).result.value.quorum == plan.outcome.value.quorum
  {}

  /** After a ceremony that ran through, every further run that is not forced answers the recorded quorum and changes nothing. */
  lemma {:induction false} FurtherRunsChangeNothing(pl: Platform, keys: Keys, configure: Configure, opts: Options, s: Space, again: Options)
    requires ConfigureSoundAfter(pl, keys, configure, BootstrapPlan(pl, keys, opts), s) && again.threshold == 1 && !again.force
    requires var r := Bootstrap(pl, keys, configure, opts, s).result; r.Ok? && r.value.Bootstrapped?
    ensures var first := Bootstrap(pl, keys, configure, opts, s);
            Bootstrap(pl, keys, configure, again, first.space) ==
            Outcome(first.space, Ok(AlreadyBootstrapped(keys.identity, first.result.value.quorum)))
  {
    var plan := BootstrapPlan(pl, keys, opts);
    var first := Bootstrap(pl, keys, configure, opts, s);
    assert first == Carry(plan, keys, configure, s);
    CarriedThrough(plan, keys, configure, s);
    var q := plan.outcome.value.quorum;
    var config := Resolve(first.space, PeerConfigPath(keys.peerId));
    assert ConfigureEffect(pl, keys, ApplyAll(s, plan.ops), q, first.space);
    assert config.Some? && TrustsQuorum(pl, config.value) == Some(q);
    assert Recorded(pl, keys, config.value) == Ok(AlreadyBootstrapped(keys.identity, q));
  }

  // ---------- every prefix ----------

  /** Wherever the ceremony stops, each path it bound leads to a stored entity, and the certificate is bound
      only when the quorum and the signature of the certificate are. */
  lemma {:induction false} BootstrapPrefixesAreOrderly(pl: Platform, keys: Keys, opts: Options, s: Space, k: nat)
    requires k <= |BootstrapPlan(pl, keys, opts).ops|
    ensures var t := ApplyAll(s, BootstrapPlan(pl, keys, opts).ops[..k]);
            && NewBindingsStored(s, t)
            && (BootstrapPlan(pl, keys, opts).outcome.Ok? ==>
                  var m := BootstrapPlan(pl, keys, opts).outcome.value;
                  var p := CertPath(keys.peerId, PathInternalCert(m.cert));
                  At(t.index, p) != At(s.index, p) ==>
                    && At(t.index, QuorumPath(keys.peerId, m.quorum)) == Some(m.quorum)
                    && BuildSignature(pl, keys, m.cert).Some?
                    && At(t.index, SignaturePath(keys.peerId, m.cert)) == Some(BuildSignature(pl, keys, m.cert).value.hash))
  {
    var m := Materials(pl, keys, opts);
    BootstrapStoresFirst(keys, m);
    PrefixKeepsBindingsStored(s, BootstrapPlan(pl, keys, opts).ops, k);
    if BootstrapPlan(pl, keys, opts).outcome.Ok? {
      PlanOps(keys, m);
      BootstrapCertLast(keys, m, s, k);
    }
  }

  lemma {:induction false} BootstrapStoresFirst(keys: Keys, m: Material)
    ensures StoredFirst(PlanWith(keys, m).ops)
  {
    var ops := PlanWith(keys, m).ops;
    PlanOps(keys, m);
    forall i | 0 <= i < |ops| && ops[i].Bind? ensures PutBefore(ops, i, ops[i].hash) {
      var j := if i == 2 then 1 else if i == 5 then 4 else 3;
      assert ops[j].Put? && ops[j].entity.hash == ops[i].hash;
    }
  }

  lemma {:induction false} BootstrapCertLast(keys: Keys, m: Material, s: Space, k: nat)
    requires k <= |PlanWith(keys, m).ops| && PlanWith(keys, m).outcome.Ok?
    ensures m.quorum.Some? && m.cert.Some? && m.signature.Some?
    ensures var t := ApplyAll(s, PlanWith(keys, m).ops[..k]);
            var p := CertPath(keys.peerId, PathInternalCert(m.cert.value.hash));
            At(t.index, p) != At(s.index, p) ==>
              && At(t.index, QuorumPath(keys.peerId, m.quorum.value.hash)) == Some(m.quorum.value.hash)
              && At(t.index, SignaturePath(keys.peerId, m.cert.value.hash)) == Some(m.signature.value.hash)
  {
    PlanOps(keys, m);
    var ops, pid := PlanWith(keys, m).ops, keys.peerId;
    var cert, quorum := m.cert.value.hash, m.quorum.value.hash;
    var p, q, sg := CertPath(pid, PathInternalCert(cert)), QuorumPath(pid, quorum), SignaturePath(pid, cert);
    CertPathShape(pid, Internal, None, cert);
    QuorumPathShape(pid, quorum);
    SignaturePathShape(pid, cert);
    if k < |ops| {
      Unbound(ops[..k], p);
      AfterWrites(s, ops[..k], p, cert);
    } else {
      assert ops[..k] == ops;
      BoundBy(ops, 2, q);
      BoundBy(ops, 5, sg);
      AfterWrites(s, ops, q, cert);
      AfterWrites(s, ops, sg, cert);
    }
  }
}
