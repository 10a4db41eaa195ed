/**
 What the two ceremonies leave behind, read back the way others read it: the quorum, the certificate and its signature a bootstrap
 makes, and where a restore puts what a bundle holds.
 */
module CeremonyReads {
  import opened Wrappers
  import opened Substrate
  import opened Cbor
  import opened CertPaths
  import opened BundleCodec
  import opened Ceremony
  import opened BundleRestore

  // ---------- reading fields ----------

  /** Whatever value the entity's data encodes, parsing the data gives it back up to the order of map entries. */
  ghost predicate ReadsBack(pl: Platform, e: Entity) {
    forall v :: pl.ecf(v) == e.data ==> Readable(pl, v, e)
  }

  /** The fields of the map have text keys, and none occurs twice. */
  predicate DistinctFields(fields: seq<Entry>) {
    && (forall i :: 0 <= i < |fields| ==> fields[i].key.Text?)
    && (forall i, j :: 0 <= i < j < |fields| ==> fields[i].key != fields[j].key)
  }

  /** A field that holds a hash reads back as that hash. */
  lemma {:induction false} HashField(fields: seq<Entry>, w: Value, k: nat, key: string, h: Hash)
    requires DistinctFields(fields) && Reordered(Map(fields), w) && k < |fields| && fields[k] == Entry(Text(key), HashValue(h))
    ensures w.Map? && FirstHash(w.entries, key) == Some(h)
  {
    var j := EntryAfterReordering(Map(fields), w, k);
    assert Reordered(fields[k].value, w.entries[j].value);
    FirstHashAt(w.entries, key, j);
    HashBytesRoundTrip(h);
  }

  /** A field that holds anything else reads back up to the order of map entries. */
  lemma {:induction false} ValueField(fields: seq<Entry>, w: Value, k: nat, key: string)
    requires DistinctFields(fields) && Reordered(Map(fields), w) && k < |fields| && fields[k].key == Text(key)
    ensures w.Map? && FirstValue(w.entries, key).Some? && Reordered(fields[k].value, FirstValue(w.entries, key).value)
  {
    FirstValueReordered(Map(fields), w, key, k);
  }

  lemma {:induction false} NoField(entries: seq<Entry>, key: string)
    requires forall i :: 0 <= i < |entries| ==> entries[i].key != Text(key)
    ensures FirstValue(entries, key).None?
    decreases |entries|
  {
    if entries != [] { NoField(entries[1..], key); }
  }

  lemma {:induction false} AbsentField(fields: seq<Entry>, w: Value, key: string)
    requires DistinctFields(fields) && Reordered(Map(fields), w) && forall i :: 0 <= i < |fields| ==> fields[i].key != Text(key)
    ensures w.Map? && FirstValue(w.entries, key).None?
  {
    var perm :| IsPermutation(perm, |fields|) && forall i :: 0 <= i < |fields| ==> EntryReordered(Map(fields), perm[i], w.entries[i]);
    forall i | 0 <= i < |w.entries| ensures w.entries[i].key != Text(key) { TextEntryKept(Map(fields), perm[i], w.entries[i]); }
    NoField(w.entries, key);
  }

  /** The target of a signature the peer makes reads back. */
  lemma {:induction false} TargetReadsBack(pl: Platform, keys: Keys, target: Hash, sig: Entity)
    requires Readable(pl, SignatureValue(keys, target), sig)
    ensures TargetOf(pl, sig) == Some(target)
  {
    var u, w := SignatureValue(keys, target), pl.parse(sig.data).value;
    var j := EntryAfterReordering(u, w, 3);
    assert u.entries[3] == Entry(Text("target"), HashValue(target));
    assert Reordered(u.entries[3].value, w.entries[j].value);
    FirstHashAt(w.entries, "target", j);
    HashBytesRoundTrip(target);
  }

  // ---------- what a bootstrap makes ----------

  /** A quorum of the one identity, with threshold one and the given name. */
  ghost predicate SelfQuorum(pl: Platform, identity: Hash, name: Option<string>, e: Entity) {
    var fields := ParsedEntries(pl, e);
    && FirstValue(fields, "signers") == Some(Array([ByteString(ToBytes(identity))]))
    && FirstValue(fields, "threshold") == Some(Integer(1))
    && FirstValue(fields, "name") == if name.Some? then Some(Text(name.value)) else None
  }

  /** A certificate in which the quorum attests the identity: the caller's properties, and besides them that it is an internal controller
      certificate of an identity, sorted by key. */
  ghost predicate ControllerCert(pl: Platform, identity: Hash, quorum: Hash, extra: seq<Property>, e: Entity) {
    var fields := ParsedEntries(pl, e);
    && FirstHash(fields, "attested") == Some(identity) && FirstHash(fields, "attesting") == Some(quorum)
    && exists props :: SortedByKey(props) && Reordered(Map(props), Map(PropertiesOf(pl, e))) && HasProperties(extra, props)
  }

  /** How often an entry must be among the certificate's properties. */
  function Wanted(extra: seq<Property>, e: Entry): nat {
    if !e.key.Text? then 0
    else if e.key.text == "kind" then (if e.value == Text("identity-cert") then 1 else 0)
    else if e.key.text == "function" then (if e.value == Text("controller") then 1 else 0)
    else if e.key.text == "mode" then (if e.value == Text("internal") then 1 else 0)
    else multiset(extra)[Property(e.key.text, e.value)]
  }

  ghost predicate HasProperties(extra: seq<Property>, props: seq<Entry>) {
    forall e :: multiset(props)[e] == Wanted(extra, e)
  }

  /** The peer's signature of the certificate. */
  ghost predicate CertSignature(pl: Platform, keys: Keys, cert: Hash, e: Entity) {
    var fields := ParsedEntries(pl, e);
    && FirstHash(fields, "target") == Some(cert) && FirstHash(fields, "signer") == Some(keys.identity)
    && FirstValue(fields, "signature") == Some(ByteString(keys.sign(cert)))
    && FirstValue(fields, "algorithm") == Some(Text("ed25519"))
  }

  lemma {:induction false} QuorumReads(pl: Platform, identity: Hash, name: Option<string>, e: Entity)
    requires BuildQuorum(pl, [identity], 1, name) == Some(e) && ReadsBack(pl, e)
    ensures SelfQuorum(pl, identity, name, e)
  {
    var named := if name.Some? then [Entry(Text("name"), Text(name.value))] else [];
    var fields := named + [Entry(Text("signers"), Array(HashValues([identity]))), Entry(Text("threshold"), Integer(1))];
    assert Readable(pl, Map(fields), e);
    var w := pl.parse(e.data).value;
    assert HashValues([identity]) == [HashValue(identity)];
    ValueField(fields, w, |named|, "signers");
    SoleItem(HashValue(identity), FirstValue(w.entries, "signers").value);
    ValueField(fields, w, |named| + 1, "threshold");
    if name.Some? { ValueField(fields, w, 0, "name"); } else { AbsentField(fields, w, "name"); }
  }

  lemma SoleItem(item: Value, w: Value)
    requires item.ByteString? && Reordered(Array([item]), w)
    ensures w == Array([item])
  {
    assert Reordered([item][0], w.items[0]);
    assert w.items == [item];
  }

  lemma {:induction false} SignatureReads(pl: Platform, keys: Keys, cert: Hash, e: Entity)
    requires BuildSignature(pl, keys, cert) == Some(e) && ReadsBack(pl, e)
    ensures CertSignature(pl, keys, cert, e)
  {
    var fields := SignatureValue(keys, cert).entries;
    assert Readable(pl, Map(fields), e);
    var w := pl.parse(e.data).value;
    ValueField(fields, w, 0, "algorithm");
    ValueField(fields, w, 1, "signature");
    HashField(fields, w, 2, "signer", keys.identity);
    HashField(fields, w, 3, "target", cert);
  }

  lemma {:induction false} ExtrasAre(extra: seq<Property>, e: Entry)
    ensures multiset(Extras(extra))[e] == if e.key.Text? && !Pinned(e.key.text) then multiset(extra)[Property(e.key.text, e.value)] else 0
    decreases |extra|
  {
    if extra != [] {
      var front, last := extra[..|extra| - 1], extra[|extra| - 1];
      assert extra == front + [last];
      ExtrasAre(front, e);
    }
  }

  lemma PinnedAre(e: Entry)
    ensures multiset(PinnedEntries)[e] == if e in PinnedEntries then 1 else 0
    ensures e in PinnedEntries <==>
            || e == Entry(Text("kind"), Text("identity-cert")) || e == Entry(Text("function"), Text("controller"))
            || e == Entry(Text("mode"), Text("internal"))
  {
    assert PinnedEntries == [PinnedEntries[0]] + [PinnedEntries[1]] + [PinnedEntries[2]];
    assert PinnedEntries[0] in PinnedEntries && PinnedEntries[1] in PinnedEntries && PinnedEntries[2] in PinnedEntries;
  }

  lemma {:induction false} WantedIs(extra: seq<Property>, e: Entry)
    ensures multiset(PinnedEntries + Extras(extra))[e] == Wanted(extra, e)
  {
    PinnedAre(e);
    ExtrasAre(extra, e);
  }

  lemma {:induction false} PropertiesWanted(extra: seq<Property>)
    ensures HasProperties(extra, ControllerProperties(extra)) && SortedByKey(ControllerProperties(extra))
  {
    var all := PinnedEntries + Extras(extra);
    SortPermutes(all);
    SortOrders(all);
    forall e ensures multiset(ControllerProperties(extra))[e] == Wanted(extra, e) { WantedIs(extra, e); }
  }

  lemma {:induction false} CertReads(pl: Platform, identity: Hash, quorum: Hash, extra: seq<Property>, e: Entity)
    requires BuildAttestation(pl, quorum, identity, ControllerProperties(extra)) == Some(e) && ReadsBack(pl, e)
    ensures ControllerCert(pl, identity, quorum, extra, e)
  {
    var props := ControllerProperties(extra);
    var value := AttestationValue(quorum, identity, props);
    var k := PinnedOnce(extra, 0);
    assert Readable(pl, value, e);
    HashField(value.entries, pl.parse(e.data).value, 0, "attested", identity);
    HashField(value.entries, pl.parse(e.data).value, 1, "attesting", quorum);
    PropertiesReadBack(pl, quorum, identity, props, e);
    PropertiesWanted(extra);
  }

  /** The three paths the ceremony binds, and what it binds there. */
  function CeremonyBind(pid: string, q: Hash, cert: Hash, sig: Hash, p: Path): Option<Hash> {
    if p == CertPath(pid, PathInternalCert(cert)) then Some(cert)
    else if p == SignaturePath(pid, cert) then Some(sig)
    else if p == QuorumPath(pid, q) then Some(q)
    else None
  }

  lemma {:induction false} BootstrapBinds(keys: Keys, m: Material, p: Path)
    requires PlanWith(keys, m).outcome.Ok?
    ensures m.quorum.Some? && m.cert.Some? && m.signature.Some?
    ensures LastBind(PlanWith(keys, m).ops, p) ==
            CeremonyBind(keys.peerId, m.quorum.value.hash, m.cert.value.hash, m.signature.value.hash, p)
  {
    PlanOps(keys, m);
    var ops, pid := PlanWith(keys, m).ops, keys.peerId;
    CertPathShape(pid, Internal, None, m.cert.value.hash);
    QuorumPathShape(pid, m.quorum.value.hash);
    SignaturePathShape(pid, m.cert.value.hash);
    if p == ops[6].path {
      BoundBy(ops, 6, p);
    } else if p == ops[5].path {
      BoundBy(ops, 5, p);
    } else if p == ops[2].path {
      BoundBy(ops, 2, p);
    } else {
      Unbound(ops, p);
    }
  }

  /** The space `t` is `s` with the entities stored and the paths bound, and nothing else. */
  ghost predicate Adds(s: Space, t: Space, entities: set<Entity>, binds: map<Path, Hash>) {
    && t.index == s.index + binds
    && (forall h :: h in s.store ==> h in t.store && t.store[h] == s.store[h])
    && (forall e :: e in entities ==> e.hash in t.store)
    && (forall h :: h in t.store && h !in s.store ==> t.store[h] in entities && t.store[h].hash == h)
  }

  lemma {:induction false} FirstPutIs(ops: seq<Op>, h: Hash) returns (j: nat)
    requires FirstPut(ops, h).Some?
    ensures j < |ops| && ops[j] == Put(FirstPut(ops, h).value) && FirstPut(ops, h).value.hash == h
    decreases |ops|
  {
    if FirstPut(ops[..|ops| - 1], h).Some? { j := FirstPutIs(ops[..|ops| - 1], h); } else { j := |ops| - 1; }
  }

  /** Writes whose bindings are those of a map, and that store some entities, add these. */
  lemma {:induction false} WritesAdd(s: Space, ops: seq<Op>, entities: set<Entity>, binds: map<Path, Hash>)
    requires forall p :: LastBind(ops, p) == At(binds, p)
    requires forall j :: 0 <= j < |ops| && ops[j].Put? ==> ops[j].entity in entities
    requires forall e :: e in entities ==> Put(e) in ops
    ensures Adds(s, ApplyAll(s, ops), entities, binds)
  {
    var t := ApplyAll(s, ops);
    forall p ensures At(t.index, p) == At(s.index + binds, p) { AfterWrites(s, ops, p, Hash(0, seq(32, _ => 0))); }
    SameIndex(t.index, s.index + binds);
    forall h ensures At(t.store, h) == Or(At(s.store, h), FirstPut(ops, h)) { AfterWrites(s, ops, "", h); }
    forall e | e in entities ensures e.hash in t.store {
      var j :| 0 <= j < |ops| && ops[j] == Put(e);
      PutsAreStored(s, ops, j);
    }
    forall h | h in t.store ensures if h in s.store then t.store[h] == s.store[h] else t.store[h] in entities && t.store[h].hash == h {
      assert At(t.store, h) == Some(t.store[h]);
      if h !in s.store { var j := FirstPutIs(ops, h); }
    }
    assert forall h :: h in s.store ==> At(t.store, h) == Some(s.store[h]);
  }

  lemma SameIndex(a: map<Path, Hash>, b: map<Path, Hash>)
    requires forall p :: At(a, p) == At(b, p)
    ensures a == b
  {
    assert forall p :: p in a <==> At(a, p).Some?;
    assert forall p :: p in b <==> At(b, p).Some?;
    assert forall p :: p in a ==> Some(a[p]) == At(a, p) == At(b, p) == Some(b[p]);
  }

  /** The three bindings of a ceremony. */
  function CeremonyBinds(pid: string, q: Hash, cert: Hash, sig: Hash): map<Path, Hash> {
    map[QuorumPath(pid, q) := q, SignaturePath(pid, cert) := sig, CertPath(pid, PathInternalCert(cert)) := cert]
  }

  lemma {:induction false} MaterialsAdd(keys: Keys, m: Material, s: Space)
    requires PlanWith(keys, m).outcome.Ok?
    ensures keys.peerEntity.Some? && m.quorum.Some? && m.cert.Some? && m.signature.Some?
    ensures Adds(s, ApplyAll(s, PlanWith(keys, m).ops), {keys.peerEntity.value, m.quorum.value, m.cert.value, m.signature.value},
                 CeremonyBinds(keys.peerId, m.quorum.value.hash, m.cert.value.hash, m.signature.value.hash))
  {
    var ops := PlanWith(keys, m).ops;
    PlanOps(keys, m);
    assert ops[0] == Put(keys.peerEntity.value);
    var binds := CeremonyBinds(keys.peerId, m.quorum.value.hash, m.cert.value.hash, m.signature.value.hash);
    forall p ensures LastBind(ops, p) == At(binds, p) { BootstrapBinds(keys, m, p); }
    WritesAdd(s, ops, {keys.peerEntity.value, m.quorum.value, m.cert.value, m.signature.value}, binds);
  }

  /** What a bootstrap has written when it calls configure: the peer's identity entity, a quorum of the identity alone, a certificate in which
      that quorum attests the identity, and the peer's signature of that certificate, each bound at its path; and nothing else. */
  ghost predicate Founded(pl: Platform, keys: Keys, opts: Options, s: Space, written: Space, quorum: Entity, cert: Entity, sig: Entity) {
    && keys.peerEntity.Some? && keys.peerEntity.value.hash == keys.identity
    && quorum.entityType == TYPE_QUORUM && cert.entityType == TYPE_ATTESTATION && sig.entityType == TYPE_SIGNATURE
    && (ReadsBack(pl, quorum) ==> SelfQuorum(pl, keys.identity, opts.labelText, quorum))
    && (ReadsBack(pl, cert) ==> ControllerCert(pl, keys.identity, quorum.hash, opts.properties, cert))
    && (ReadsBack(pl, sig) ==> CertSignature(pl, keys, cert.hash, sig))
    && Adds(s, written, {keys.peerEntity.value, quorum, cert, sig}, CeremonyBinds(keys.peerId, quorum.hash, cert.hash, sig.hash))
  }

  lemma {:induction false} MaterialsRead(pl: Platform, keys: Keys, opts: Options, s: Space)
    requires BootstrapPlan(pl, keys, opts).outcome.Ok?
    ensures var m := Materials(pl, keys, opts);
            && m.quorum.Some? && m.cert.Some? && m.signature.Some?
            && BootstrapPlan(pl, keys, opts).outcome.value == Minted(m.quorum.value.hash, m.cert.value.hash)
            && Founded(pl, keys, opts, s, ApplyAll(s, BootstrapPlan(pl, keys, opts).ops), m.quorum.value, m.cert.value, m.signature.value)
  {
    var m := Materials(pl, keys, opts);
    PlanOps(keys, m);
    MaterialsAdd(keys, m, s);
    if ReadsBack(pl, m.quorum.value) { QuorumReads(pl, keys.identity, opts.labelText, m.quorum.value); }
    if ReadsBack(pl, m.cert.value) { CertReads(pl, keys.identity, m.quorum.value.hash, opts.properties, m.cert.value); }
    if ReadsBack(pl, m.signature.value) { SignatureReads(pl, keys, m.cert.value.hash, m.signature.value); }
  }

  /** What a ceremony answers once configure has answered. */
  function Answer(keys: Keys, c: Configured, quorum: Hash, cert: Hash): Outcome {
    Outcome(c.space, if c.issued.Some? then Ok(Bootstrapped(keys.identity, quorum, cert, c.issued.value)) else Err(ConfigureFailed))
  }

  /** The ceremony came as far as configure. */
  predicate Configures(out: Outcome) {
    (out.result.Ok? && out.result.value.Bootstrapped?) || out.result == Err(ConfigureFailed)
  }

  /** A bootstrap that comes as far as configure has founded the identity, and reports the quorum, the certificate and what configure issued for that quorum. */
  lemma {:induction false} BootstrapLeaves(pl: Platform, keys: Keys, configure: Configure, opts: Options, s: Space)
    returns (written: Space, quorum: Entity, cert: Entity, sig: Entity)
    requires Configures(Bootstrap(pl, keys, configure, opts, s))
    ensures opts.threshold == 1 && Founded(pl, keys, opts, s, written, quorum, cert, sig)
    ensures Bootstrap(pl, keys, configure, opts, s) == Answer(keys, configure(written, quorum.hash), quorum.hash, cert.hash)
  {
    var plan, m := BootstrapPlan(pl, keys, opts), Materials(pl, keys, opts);
    assert Bootstrap(pl, keys, configure, opts, s) == Carry(plan, keys, configure, s);
    MaterialsRead(pl, keys, opts, s);
    written, quorum, cert, sig := ApplyAll(s, plan.ops), m.quorum.value, m.cert.value, m.signature.value;
  }

  /** Entities can be built: the home format is allocated and encoding never gives nothing. */
  ghost predicate CanBuild(pl: Platform) {
    (pl.home.format == SHA256_FORMAT || pl.home.format == SHA384_FORMAT) && forall v :: pl.ecf(v) != []
  }

  lemma {:induction false} PlanGetsThrough(pl: Platform, keys: Keys, opts: Options)
    requires CanBuild(pl) && keys.peerEntity.Some? && keys.peerEntity.value.hash == keys.identity
    ensures BootstrapPlan(pl, keys, opts).outcome.Ok?
  {}

  /** When a bootstrap gets as far as configure, and what it answers otherwise. */
  lemma {:induction false} BootstrapVerdict(pl: Platform, keys: Keys, configure: Configure, opts: Options, s: Space)
    requires CanBuild(pl)
    ensures var out := Bootstrap(pl, keys, configure, opts, s);
            var config := Resolve(s, PeerConfigPath(keys.peerId));
            if opts.threshold == 0 then out == Outcome(s, Err(BadThreshold))
            else if opts.threshold > 1 then out == Outcome(s, Err(MultiSignerUnsupported))
            else if config.Some? && !opts.force then
              && out.space == s
              && (forall q :: out.result == Ok(AlreadyBootstrapped(keys.identity, q)) <==>
                              FirstHash(ParsedEntries(pl, config.value), "trusts_quorum") == Some(q))
              && (out.result == Err(MalformedConfig) <==> FirstHash(ParsedEntries(pl, config.value), "trusts_quorum").None?)
            else if keys.peerEntity.None? then out == Outcome(s, Err(EncodingFailed))
            else if keys.peerEntity.value.hash != keys.identity then out == Outcome(s, Err(IdentityDrift))
            else Configures(out)
  {
    if keys.peerEntity.Some? && keys.peerEntity.value.hash == keys.identity { PlanGetsThrough(pl, keys, opts); }
  }

  // ---------- the field readers ----------

  ghost predicate FirstAt(entries: seq<Entry>, kind: Entry -> bool, i: int) {
    0 <= i < |entries| && kind(entries[i]) && forall j :: 0 <= j < i ==> !kind(entries[j])
  }

  function BytesUnder(key: string): Entry -> bool {
    (e: Entry) => e.key == Text(key) && e.value.ByteString?
  }

  function MapUnder(key: string): Entry -> bool {
    (e: Entry) => e.key == Text(key) && e.value.Map?
  }

  predicate Key32(e: Entry) {
    e.key == Text("public_key") && e.value.ByteString? && |e.value.data| == 32
  }

  lemma {:induction false} FirstAtCons(entries: seq<Entry>, kind: Entry -> bool, i: int)
    requires entries != [] && !kind(entries[0])
    ensures FirstAt(entries, kind, i) <==> i > 0 && FirstAt(entries[1..], kind, i - 1)
  {}

  /** The reader of hashes goes by the first byte string under the key, whether or not it is a hash. */
  lemma {:induction false} FirstHashExactly(entries: seq<Entry>, key: string, h: Hash)
    ensures FirstHash(entries, key) == Some(h) <==>
            exists i :: FirstAt(entries, BytesUnder(key), i) && FromBytes(entries[i].value.data) == Some(h)
    decreases |entries|
  {
    if entries != [] {
      if BytesUnder(key)(entries[0]) {
        assert FirstAt(entries, BytesUnder(key), 0);
      } else {
        FirstHashExactly(entries[1..], key, h);
        forall i { FirstAtCons(entries, BytesUnder(key), i); }
        if i :| FirstAt(entries[1..], BytesUnder(key), i) && FromBytes(entries[1..][i].value.data) == Some(h) {
          assert FirstAt(entries, BytesUnder(key), i + 1);
        }
      }
    }
  }

  lemma {:induction false} FirstMapExactly(entries: seq<Entry>, key: string, m: seq<Entry>)
    ensures FirstMap(entries, key) == Some(m) <==> exists i :: FirstAt(entries, MapUnder(key), i) && entries[i].value.entries == m
    decreases |entries|
  {
    if entries != [] {
      if MapUnder(key)(entries[0]) {
        assert FirstAt(entries, MapUnder(key), 0);
      } else {
        FirstMapExactly(entries[1..], key, m);
        forall i { FirstAtCons(entries, MapUnder(key), i); }
        if i :| FirstAt(entries[1..], MapUnder(key), i) && entries[1..][i].value.entries == m {
          assert FirstAt(entries, MapUnder(key), i + 1);
        }
      }
    }
  }

  /** The key of a peer entity is the first byte string of 32 bytes under its name. */
  lemma {:induction false} FirstKeyExactly(entries: seq<Entry>, k: Bytes)
    ensures FirstKey32(entries) == Some(k) <==> exists i :: FirstAt(entries, Key32, i) && entries[i].value.data == k
    decreases |entries|
  {
    if entries != [] {
      if Key32(entries[0]) {
        assert FirstAt(entries, Key32, 0);
      } else {
        FirstKeyExactly(entries[1..], k);
        forall i { FirstAtCons(entries, Key32, i); }
        if i :| FirstAt(entries[1..], Key32, i) && entries[1..][i].value.data == k {
          assert FirstAt(entries, Key32, i + 1);
        }
      }
    }
  }

  // ---------- what a restore leaves ----------

  /** The path of a certificate by what its properties say: internal unless they name another mode, and for a relationship also its contact. */
  function CertHome(pl: Platform, att: Entity): Path {
    var props := PropertiesOf(pl, att);
    var mode := FirstValue(props, "mode");
    if mode == Some(Text("public")) then PathPublicCert(att.hash)
    else if mode == Some(Text("per-relationship")) && FirstHash(props, "contact_id").Some?
    then PathRelationshipCert(FirstHash(props, "contact_id").value, att.hash)
    else PathInternalCert(att.hash)
  }

  lemma RestoredAtHome(pl: Platform, att: Entity)
    ensures RestoredCertPath(pl, att) == CertHome(pl, att)
  {}

  predicate Controls(pl: Platform, att: Entity) {
    FirstValue(PropertiesOf(pl, att), "function") == Some(Text("controller"))
  }

  ghost predicate FirstControls(pl: Platform, atts: seq<Entity>, i: int) {
    0 <= i < |atts| && Controls(pl, atts[i]) && forall j :: 0 <= j < i ==> !Controls(pl, atts[j])
  }

  lemma {:induction false} FirstControllerExactly(pl: Platform, atts: seq<Entity>) returns (i: nat)
    ensures FirstController(pl, atts).None? <==> forall j :: 0 <= j < |atts| ==> !Controls(pl, atts[j])
    ensures FirstController(pl, atts).Some? ==> FirstControls(pl, atts, i) && FirstController(pl, atts) == Some(atts[i].hash)
    decreases |atts|
  {
    i := 0;
    if atts != [] {
      var front := atts[..|atts| - 1];
      assert forall j :: 0 <= j < |front| ==> front[j] == atts[j];
      i := FirstControllerExactly(pl, front);
      if FirstController(pl, front).None? { i := |atts| - 1; }
    }
  }

  /** The last signature of the target. */
  ghost predicate LastSigns(pl: Platform, sigs: seq<Entity>, t: Hash, i: int) {
    0 <= i < |sigs| && TargetOf(pl, sigs[i]) == Some(t) && forall j :: i < j < |sigs| ==> TargetOf(pl, sigs[j]) != Some(t)
  }

  lemma {:induction false} LastBindConcat(a: seq<Op>, b: seq<Op>, p: Path)
    ensures LastBind(a + b, p) == Or(LastBind(b, p), LastBind(a, p))
    decreases |b|
  {
    if b == [] {
      assert a + b == a;
    } else {
      assert (a + b)[..|a + b| - 1] == a + b[..|b| - 1];
      LastBindConcat(a, b[..|b| - 1], p);
    }
  }

  lemma PairBinds(pid: string, target: Hash, sig: Entity, p: Path)
    ensures LastBind(SignatureOps(pid, target, sig), p) == if p == SignaturePath(pid, target) then Some(sig.hash) else None
  {
    var pair := SignatureOps(pid, target, sig);
    assert pair[..1] == [Put(sig)] && pair[..1][..0] == [];
    assert LastBind(pair[..1], p).None?;
  }

  lemma {:induction false} LastSignatureBinds(pl: Platform, pid: string, sigs: seq<Entity>, t: Hash, i: nat)
    requires SignaturesOps(pl, pid, sigs).complete && LastSigns(pl, sigs, t, i)
    ensures LastBind(SignaturesOps(pl, pid, sigs).ops, SignaturePath(pid, t)) == Some(sigs[i].hash)
    decreases |sigs|
  {
    var front, last := sigs[..|sigs| - 1], sigs[|sigs| - 1];
    var target, p := TargetOf(pl, last).value, SignaturePath(pid, t);
    LastBindConcat(SignaturesOps(pl, pid, front).ops, SignatureOps(pid, target, last), p);
    PairBinds(pid, target, last, p);
    if i < |front| {
      LastSignatureBinds(pl, pid, front, t, i);
      if SignaturePath(pid, target) == p { SignaturePathTarget(pid, target, pid, t); }
    }
  }

  lemma {:induction false} CertsSpareSignatures(pl: Platform, pid: string, atts: seq<Entity>, t: Hash)
    ensures LastBind(CertBinds(pl, pid, atts), SignaturePath(pid, t)).None?
  {
    var ops := CertBinds(pl, pid, atts);
    forall j | 0 <= j < |ops| ensures !(ops[j].Bind? && ops[j].path == SignaturePath(pid, t)) {
      CertBindsAre(pl, pid, atts, j);
      CertBindShape(pl, pid, atts[j]);
      SignaturePathShape(pid, t);
    }
    Unbound(ops, SignaturePath(pid, t));
  }

  /** Of several signatures of one target the last stays bound. */
  lemma {:induction false} LastSignatureHeld(pl: Platform, pid: string, b: IdentityBundle, s: Space, t: Hash, i: nat)
    requires SignaturesOps(pl, pid, b.signatures).complete && LastSigns(pl, b.signatures, t, i)
    ensures At(ApplyAll(s, AllWrites(pl, pid, b)).index, SignaturePath(pid, t)) == Some(b.signatures[i].hash)
  {
    var first := [Put(b.identityEntity)] + QuorumsOps(pid, b.quorums) + PutAll(b.attestations);
    LastSignatureBinds(pl, pid, b.signatures, t, i);
    LastBindConcat(first, SignaturesOps(pl, pid, b.signatures).ops, SignaturePath(pid, t));
    CertsSpareSignatures(pl, pid, b.attestations, t);
    LastBindConcat(BeforeBinds(pl, pid, b), CertBinds(pl, pid, b.attestations), SignaturePath(pid, t));
    AfterWrites(s, AllWrites(pl, pid, b), SignaturePath(pid, t), b.identityHash);
  }

  /** The path is one that the bundle's contents are restored to. */
  ghost predicate RestoredPath(pl: Platform, pid: string, b: IdentityBundle, p: Path) {
    || (exists q :: q in b.quorums && p == QuorumPath(pid, q.hash))
    || (exists sig :: sig in b.signatures && TargetOf(pl, sig).Some? && p == SignaturePath(pid, TargetOf(pl, sig).value))
    || (exists a :: a in b.attestations && p == CertPath(pid, CertHome(pl, a)))
  }

  /** Every entity of the bundle is stored, and nothing else is stored anew. */
  ghost predicate StoredBack(b: IdentityBundle, s: Space, written: Space) {
    && (forall e :: InBundle(b, e) ==> e.hash in written.store)
    && (forall h :: h in s.store ==> h in written.store && written.store[h] == s.store[h])
    && (forall h :: h in written.store && h !in s.store ==> InBundle(b, written.store[h]) && written.store[h].hash == h)
  }

  /** Quorums are bound at their paths, certificates at the paths their properties say, and at the path of each signed target the last signature of
      it; nothing else is bound anew. */
  ghost predicate BoundBack(pl: Platform, pid: string, b: IdentityBundle, s: Space, written: Space) {
    && (forall q :: q in b.quorums ==> At(written.index, QuorumPath(pid, q.hash)) == Some(q.hash))
    && (forall a :: a in b.attestations ==> At(written.index, CertPath(pid, CertHome(pl, a))) == Some(a.hash))
    && (forall sig :: sig in b.signatures ==> TargetOf(pl, sig).Some?)
    && (forall t, i :: LastSigns(pl, b.signatures, t, i) ==> At(written.index, SignaturePath(pid, t)) == Some(b.signatures[i].hash))
    && (forall p :: At(written.index, p) != At(s.index, p) ==> RestoredPath(pl, pid, b, p))
  }

  lemma {:induction false} QuorumPutAt(pid: string, qs: seq<Entity>, q: Entity) returns (i: nat)
    requires q in qs
    ensures i < |QuorumsOps(pid, qs)| && QuorumsOps(pid, qs)[i] == Put(q)
    decreases |qs|
  {
    var front, last := qs[..|qs| - 1], qs[|qs| - 1];
    if q == last {
      i := |QuorumsOps(pid, front)|;
    } else {
      i := QuorumPutAt(pid, front, q);
    }
  }

  lemma {:induction false} SignaturePutAt(pl: Platform, pid: string, sigs: seq<Entity>, sig: Entity) returns (i: nat)
    requires sig in sigs && SignaturesOps(pl, pid, sigs).complete
    ensures i < |SignaturesOps(pl, pid, sigs).ops| && SignaturesOps(pl, pid, sigs).ops[i] == Put(sig)
    decreases |sigs|
  {
    var front, last := sigs[..|sigs| - 1], sigs[|sigs| - 1];
    if sig == last {
      i := |SignaturesOps(pl, pid, front).ops|;
    } else {
      i := SignaturePutAt(pl, pid, front, sig);
    }
  }

  lemma {:induction false} QuorumIsStored(pl: Platform, pid: string, b: IdentityBundle, s: Space, e: Entity)
    requires e in b.quorums
    ensures e.hash in ApplyAll(s, AllWrites(pl, pid, b)).store
  {
    var i := QuorumPutAt(pid, b.quorums, e);
    assert BeforeBinds(pl, pid, b)[1 + i] == QuorumsOps(pid, b.quorums)[i];
    PutsAreStored(s, AllWrites(pl, pid, b), 1 + i);
  }

  lemma {:induction false} AttestationIsStored(pl: Platform, pid: string, b: IdentityBundle, s: Space, e: Entity)
    requires e in b.attestations
    ensures e.hash in ApplyAll(s, AllWrites(pl, pid, b)).store
  {
    var i :| 0 <= i < |b.attestations| && b.attestations[i] == e;
    var early := BeforeBinds(pl, pid, b);
    AttestationStoredEarly(pl, pid, b, i);
    var j :| 0 <= j < |early| && early[j].Put? && early[j].entity.hash == e.hash;
    PutsAreStored(s, AllWrites(pl, pid, b), j);
  }

  lemma {:induction false} SignatureIsStored(pl: Platform, pid: string, b: IdentityBundle, s: Space, e: Entity)
    requires SignaturesOps(pl, pid, b.signatures).complete && e in b.signatures
    ensures e.hash in ApplyAll(s, AllWrites(pl, pid, b)).store
  {
    var i := SignaturePutAt(pl, pid, b.signatures, e);
    var at := 1 + |QuorumsOps(pid, b.quorums)| + |PutAll(b.attestations)| + i;
    assert BeforeBinds(pl, pid, b)[at] == SignaturesOps(pl, pid, b.signatures).ops[i];
    PutsAreStored(s, AllWrites(pl, pid, b), at);
  }

  lemma {:induction false} BundleIsStored(pl: Platform, pid: string, b: IdentityBundle, s: Space, e: Entity)
    requires SignaturesOps(pl, pid, b.signatures).complete && InBundle(b, e)
    ensures e.hash in ApplyAll(s, AllWrites(pl, pid, b)).store
  {
    if e in b.quorums {
      QuorumIsStored(pl, pid, b, s, e);
    } else if e in b.attestations {
      AttestationIsStored(pl, pid, b, s, e);
    } else if e in b.signatures {
      SignatureIsStored(pl, pid, b, s, e);
    } else {
      assert AllWrites(pl, pid, b)[0] == Put(b.identityEntity);
      PutsAreStored(s, AllWrites(pl, pid, b), 0);
    }
  }

  lemma {:induction false} OnlyBundleIsStored(pl: Platform, pid: string, b: IdentityBundle, s: Space, h: Hash)
    ensures var t := ApplyAll(s, AllWrites(pl, pid, b));
            && (h in s.store ==> h in t.store && t.store[h] == s.store[h])
            && (h in t.store && h !in s.store ==> InBundle(b, t.store[h]) && t.store[h].hash == h)
  {
    var all := AllWrites(pl, pid, b);
    var t := ApplyAll(s, all);
    AfterWrites(s, all, "", h);
    assert h in s.store ==> At(t.store, h) == Some(s.store[h]);
    assert h in t.store ==> At(t.store, h) == Some(t.store[h]);
    if h in t.store && h !in s.store {
      var j := FirstPutIs(all, h);
      AllWritesAre(pl, pid, b, j);
    }
  }

  lemma {:induction false} OnlyRestoredPaths(pl: Platform, pid: string, b: IdentityBundle, s: Space, p: Path)
    requires At(ApplyAll(s, AllWrites(pl, pid, b)).index, p) != At(s.index, p)
    ensures RestoredPath(pl, pid, b, p)
  {
    var all := AllWrites(pl, pid, b);
    AfterWrites(s, all, p, b.identityHash);
    var j := LastBindIsThere(all, p);
    AllWritesAre(pl, pid, b, j);
    if a :| a in b.attestations && all[j] == CertBind(pl, pid, a) { RestoredAtHome(pl, a); }
  }

  lemma {:induction false} RestoreStores(pl: Platform, pid: string, b: IdentityBundle, s: Space)
    requires SignaturesOps(pl, pid, b.signatures).complete
    ensures StoredBack(b, s, ApplyAll(s, AllWrites(pl, pid, b)))
  {
    var t := ApplyAll(s, AllWrites(pl, pid, b));
    forall e | InBundle(b, e) ensures e.hash in t.store { BundleIsStored(pl, pid, b, s, e); }
    forall h
      ensures h in s.store ==> h in t.store && t.store[h] == s.store[h]
      ensures h in t.store && h !in s.store ==> InBundle(b, t.store[h]) && t.store[h].hash == h
    {
      OnlyBundleIsStored(pl, pid, b, s, h);
    }
  }

  lemma {:induction false} CertHeldAtHome(pl: Platform, pid: string, b: IdentityBundle, s: Space, a: Entity)
    requires a in b.attestations
    ensures At(ApplyAll(s, AllWrites(pl, pid, b)).index, CertPath(pid, CertHome(pl, a))) == Some(a.hash)
  {
    CertHeld(pl, pid, b, s, a);
    RestoredAtHome(pl, a);
  }

  lemma {:induction false} QuorumHeldAfter(pl: Platform, pid: string, b: IdentityBundle, s: Space, q: Entity)
    requires q in b.quorums
    ensures At(ApplyAll(s, AllWrites(pl, pid, b)).index, QuorumPath(pid, q.hash)) == Some(q.hash)
  {
    var all := AllWrites(pl, pid, b);
    assert all[..|all|] == all;
    QuorumHeld(pl, pid, b, s, |all|, q);
  }

  lemma {:induction false} RestoreBinds(pl: Platform, pid: string, b: IdentityBundle, s: Space)
    requires SignaturesOps(pl, pid, b.signatures).complete
    ensures BoundBack(pl, pid, b, s, ApplyAll(s, AllWrites(pl, pid, b)))
  {
    var t := ApplyAll(s, AllWrites(pl, pid, b));
    forall q | q in b.quorums ensures At(t.index, QuorumPath(pid, q.hash)) == Some(q.hash) { QuorumHeldAfter(pl, pid, b, s, q); }
    forall a | a in b.attestations ensures At(t.index, CertPath(pid, CertHome(pl, a))) == Some(a.hash) { CertHeldAtHome(pl, pid, b, s, a); }
    forall sig | sig in b.signatures ensures TargetOf(pl, sig).Some? { var i := SignatureBoundAt(pl, pid, b.signatures, sig); }
    forall h, i: nat | LastSigns(pl, b.signatures, h, i) ensures At(t.index, SignaturePath(pid, h)) == Some(b.signatures[i].hash) {
      LastSignatureHeld(pl, pid, b, s, h, i);
    }
    forall p | At(t.index, p) != At(s.index, p) ensures RestoredPath(pl, pid, b, p) { OnlyRestoredPaths(pl, pid, b, s, p); }
  }

  lemma RestoreOutcome(pl: Platform, keys: Keys, b: IdentityBundle)
    requires RestorePlan(pl, keys, b).outcome.Ok?
    ensures b.quorums != [] && RestorePlan(pl, keys, b).outcome.value.quorum == b.quorums[0].hash
    ensures FirstController(pl, b.attestations) == Some(RestorePlan(pl, keys, b).outcome.value.cert)
  {}

  /** A restore that comes as far as configure has put the bundle back, and reports its first quorum and its first controller certificate. */
  lemma {:induction false} RestoreLeaves(pl: Platform, keys: Keys, configure: Configure, b: IdentityBundle, s: Space) returns (written: Space, i: nat)
    requires Configures(Restore(pl, keys, configure, b, s))
    ensures StoredBack(b, s, written) && BoundBack(pl, keys.peerId, b, s, written) && b.quorums != [] && FirstControls(pl, b.attestations, i)
    ensures Restore(pl, keys, configure, b, s) ==
            Answer(keys, configure(written, b.quorums[0].hash), b.quorums[0].hash, b.attestations[i].hash)
  {
    var plan := RestorePlan(pl, keys, b);
    assert Restore(pl, keys, configure, b, s) == Carry(plan, keys, configure, s);
    PlanIsPrefix(pl, keys, b);
    RestoreOutcome(pl, keys, b);
    written := ApplyAll(s, plan.ops);
    RestoreStores(pl, keys.peerId, b, s);
    RestoreBinds(pl, keys.peerId, b, s);
    i := FirstControllerExactly(pl, b.attestations);
  }

  lemma {:induction false} SigningExactly(pl: Platform, pid: string, sigs: seq<Entity>)
    ensures SignaturesOps(pl, pid, sigs).complete <==> forall sig :: sig in sigs ==> TargetOf(pl, sig).Some?
    decreases |sigs|
  {
    if sigs != [] {
      var front, last := sigs[..|sigs| - 1], sigs[|sigs| - 1];
      assert forall sig :: sig in sigs <==> sig in front || sig == last;
      SigningExactly(pl, pid, front);
    }
  }

  /** When a restore gets as far as configure, and what it answers otherwise. */
  lemma {:induction false} RestoreVerdict(pl: Platform, keys: Keys, configure: Configure, b: IdentityBundle, s: Space)
    ensures var out := Restore(pl, keys, configure, b, s);
            var key := PublicKeyOf(pl, b.identityEntity);
            var config := Resolve(s, PeerConfigPath(keys.peerId));
            if key.None? then out == Outcome(s, Err(NoPublicKey))
            else if key != Some(keys.publicKey) || b.identityHash != keys.identity then out == Outcome(s, Err(KeypairMismatch))
            else if config.Some? then
              && out.space == s
              && (forall q :: out.result == Ok(AlreadyBootstrapped(keys.identity, q)) <==>
                              FirstHash(ParsedEntries(pl, config.value), "trusts_quorum") == Some(q))
              && (out.result == Err(MalformedConfig) <==> FirstHash(ParsedEntries(pl, config.value), "trusts_quorum").None?)
            else if b.quorums == [] then out.result == Err(NoQuorum)
            else if exists sig :: sig in b.signatures && TargetOf(pl, sig).None? then out.result == Err(MalformedSignature)
            else if forall j :: 0 <= j < |b.attestations| ==> !Controls(pl, b.attestations[j]) then out.result == Err(NoControllerCert)
            else Configures(out)
  {
    SigningExactly(pl, keys.peerId, b.signatures);
    var i := FirstControllerExactly(pl, b.attestations);
  }
}
