/**
 The closed round trip: a peer that is bootstrapped, exported, restored elsewhere under the same key, and exported again.
 */
module BootstrapRoundTrip {
  import opened Wrappers
  import opened Substrate
  import opened Cbor
  import opened CertPaths
  import opened BundleCodec
  import opened Ceremony
  import opened BundleRestore
  import opened BundleRoundTrip
  import opened CeremonyReads

  /** The path lies in one of the directories an export lists. */
  predicate Listed(pid: string, p: Path) {
    || QuorumDir(pid) <= p || SignatureDir(pid) <= p
    || CertPath(pid, INTERNAL_CERTS + "/") <= p || CertPath(pid, PUBLIC_CERTS + "/") <= p || CertPath(pid, RELATIONSHIPS + "/") <= p
  }

  /** One of the three paths this ceremony binds. */
  predicate BoundByCeremony(pid: string, m: Material, p: Path) {
    && m.quorum.Some? && m.cert.Some? && m.signature.Some?
    && CeremonyBind(pid, m.quorum.value.hash, m.cert.value.hash, m.signature.value.hash, p).Some?
  }

  /** No other identity stack: of the directories an export lists, only signatures at their targets' paths and paths of this very ceremony
      are bound.  The handlers, grants, grant signatures and policies of a built peer are as may be. */
  ghost predicate NoOtherStack(pl: Platform, pid: string, m: Material, s: Space) {
    forall p :: p in s.index && Listed(pid, p) ==> BoundByCeremony(pid, m, p) || SignsTarget(pl, pid, s, p)
  }

  /** Encoding and parsing the certificate and its signature only reorders them. */
  ghost predicate CeremonyReadable(pl: Platform, keys: Keys, opts: Options, m: Material) {
    && (m.quorum.Some? && m.cert.Some? ==>
          Readable(pl, AttestationValue(m.quorum.value.hash, keys.identity, ControllerProperties(opts.properties)), m.cert.value))
    && (m.cert.Some? && m.signature.Some? ==> Readable(pl, SignatureValue(keys, m.cert.value.hash), m.signature.value))
  }

  /** The peer's own identity entity: it is rebuilt alike, and carries the key. */
  ghost predicate OwnIdentity(pl: Platform, keys: Keys) {
    keys.peerEntity.Some? && Native(pl.home, keys.peerEntity.value) && PublicKeyOf(pl, keys.peerEntity.value) == Some(keys.publicKey)
  }

  ghost predicate MaterialFree(entityOf: Hash -> Entity, s: Space, keys: Keys, m: Material) {
    && (forall h :: h in s.store ==> s.store[h] == entityOf(h))
    && (keys.peerEntity.Some? ==> entityOf(keys.peerEntity.value.hash) == keys.peerEntity.value)
    && (m.quorum.Some? ==> entityOf(m.quorum.value.hash) == m.quorum.value)
    && (m.cert.Some? ==> entityOf(m.cert.value.hash) == m.cert.value)
    && (m.signature.Some? ==> entityOf(m.signature.value.hash) == m.signature.value)
  }

  // ---------- the paths after a bootstrap ----------

  lemma {:induction false} BootstrapStores(entityOf: Hash -> Entity, keys: Keys, m: Material, s: Space, j: nat)
    requires MaterialFree(entityOf, s, keys, m) && PlanWith(keys, m).outcome.Ok? && j < 7 && j != 2 && j < 5
    ensures PlanWith(keys, m).ops[j].Put?
    ensures var e := PlanWith(keys, m).ops[j].entity; At(ApplyAll(s, PlanWith(keys, m).ops).store, e.hash) == Some(e)
  {
    PlanOps(keys, m);
    var ops := PlanWith(keys, m).ops;
    assert ops[0] == Put(keys.peerEntity.value);
    PutsAreStored(s, ops, j);
    StoreStaysAddressed(entityOf, s, ops, ops[j].entity.hash);
  }

  /** The ceremony's entities are where it put them. */
  ghost predicate StackAt(keys: Keys, m: Material, s: Space) {
    && m.quorum.Some? && m.cert.Some? && m.signature.Some?
    && Resolve(s, QuorumPath(keys.peerId, m.quorum.value.hash)) == m.quorum
    && Resolve(s, CertPath(keys.peerId, PathInternalCert(m.cert.value.hash))) == m.cert
    && Resolve(s, SignaturePath(keys.peerId, m.cert.value.hash)) == m.signature
    && At(s.store, keys.identity) == keys.peerEntity
  }

  /** What is bound after the ceremony and configure. */
  ghost predicate AfterCeremony(pl: Platform, keys: Keys, m: Material, s: Space) {
    && StackAt(keys, m, s)
    && Resolve(s, PeerConfigPath(keys.peerId)).Some?
    && NoOtherStack(pl, keys.peerId, m, s)
  }

  lemma {:induction false} CeremonyPathsSafe(pid: string, q: Hash, cert: Hash)
    ensures forall p :: p in {QuorumPath(pid, q), SignaturePath(pid, cert), CertPath(pid, PathInternalCert(cert))} ==>
              p != PeerConfigPath(pid) && !IssuedCapPath(pid, p)
  {
    CertPathShape(pid, Internal, None, cert);
    QuorumPathShape(pid, q);
    SignaturePathShape(pid, cert);
    PeerConfigPathShape(pid);
    forall p | IssuedCapPath(pid, p) ensures |p| > |pid| + 9 && p[|pid| + 9] == 'c' { IssuedCapShape(pid, p); }
  }

  lemma {:induction false} ResolvedAfterWrites(entityOf: Hash -> Entity, keys: Keys, m: Material, s: Space, j: nat, p: Path)
    requires MaterialFree(entityOf, s, keys, m) && PlanWith(keys, m).outcome.Ok? && j < 5 && j != 2
    requires PlanWith(keys, m).ops[j].Put? && LastBind(PlanWith(keys, m).ops, p) == Some(PlanWith(keys, m).ops[j].entity.hash)
    ensures Resolve(ApplyAll(s, PlanWith(keys, m).ops), p) == Some(PlanWith(keys, m).ops[j].entity)
  {
    BootstrapStores(entityOf, keys, m, s, j);
    AfterWrites(s, PlanWith(keys, m).ops, p, keys.identity);
  }

  /** The writes of the ceremony leave no other stack where there was none. */
  lemma {:induction false} WritesKeepSignatures(pl: Platform, keys: Keys, m: Material, s: Space, p: Path)
    requires PlanWith(keys, m).outcome.Ok? && NoOtherStack(pl, keys.peerId, m, s)
    requires p in ApplyAll(s, PlanWith(keys, m).ops).index && Listed(keys.peerId, p)
    ensures BoundByCeremony(keys.peerId, m, p) || SignsTarget(pl, keys.peerId, ApplyAll(s, PlanWith(keys, m).ops), p)
  {
    var ops, pid := PlanWith(keys, m).ops, keys.peerId;
    BootstrapBinds(keys, m, p);
    if !BoundByCeremony(pid, m, p) {
      AfterWrites(s, ops, p, keys.identity);
      assert p in s.index && s.index[p] == ApplyAll(s, ops).index[p];
      var target :| p == SignaturePath(pid, target) && SignatureAt(pl, s, p, target);
      AfterWrites(s, ops, p, s.index[p]);
      assert SignatureAt(pl, ApplyAll(s, ops), p, target);
    }
  }

  lemma {:induction false} WrittenByBootstrap(entityOf: Hash -> Entity, pl: Platform, keys: Keys, m: Material, s: Space)
    requires MaterialFree(entityOf, s, keys, m) && PlanWith(keys, m).outcome.Ok? && NoOtherStack(pl, keys.peerId, m, s)
    ensures StackAt(keys, m, ApplyAll(s, PlanWith(keys, m).ops))
    ensures NoOtherStack(pl, keys.peerId, m, ApplyAll(s, PlanWith(keys, m).ops))
  {
    PlanOps(keys, m);
    var ops, pid := PlanWith(keys, m).ops, keys.peerId;
    var t := ApplyAll(s, ops);
    var qp, cp, sp := QuorumPath(pid, m.quorum.value.hash), CertPath(pid, PathInternalCert(m.cert.value.hash)), SignaturePath(pid, m.cert.value.hash);
    CertPathShape(pid, Internal, None, m.cert.value.hash);
    QuorumPathShape(pid, m.quorum.value.hash);
    SignaturePathShape(pid, m.cert.value.hash);
    BootstrapBinds(keys, m, qp);
    ResolvedAfterWrites(entityOf, keys, m, s, 1, qp);
    BootstrapBinds(keys, m, cp);
    ResolvedAfterWrites(entityOf, keys, m, s, 3, cp);
    BootstrapBinds(keys, m, sp);
    ResolvedAfterWrites(entityOf, keys, m, s, 4, sp);
    BootstrapStores(entityOf, keys, m, s, 0);
    forall p | p in t.index && Listed(pid, p) ensures BoundByCeremony(pid, m, p) || SignsTarget(pl, pid, t, p) {
      WritesKeepSignatures(pl, keys, m, s, p);
    }
  }

  /** Nor does configure add one. */
  lemma {:induction false} ConfigureAddsSignatures(pl: Platform, keys: Keys, m: Material, t: Space, quorum: Hash, after: Space, p: Path)
    requires NoOtherStack(pl, keys.peerId, m, t) && ConfigureEffect(pl, keys, t, quorum, after)
    requires p in after.index && Listed(keys.peerId, p)
    ensures BoundByCeremony(keys.peerId, m, p) || SignsTarget(pl, keys.peerId, after, p)
  {
    var pid := keys.peerId;
    ListedLetters(pid, p);
    PeerConfigPathShape(pid);
    if IssuedCapPath(pid, p) { IssuedCapShape(pid, p); }
    if p in t.index && !BoundByCeremony(pid, m, p) {
      var target :| p == SignaturePath(pid, target) && SignatureAt(pl, t, p, target);
      assert SignatureAt(pl, after, p, target);
    }
  }

  lemma {:induction false} StackSurvives(pl: Platform, keys: Keys, m: Material, t: Space, quorum: Hash, after: Space)
    requires StackAt(keys, m, t) && keys.peerEntity.Some? && ConfigureEffect(pl, keys, t, quorum, after)
    ensures StackAt(keys, m, after)
  {
    var pid := keys.peerId;
    CeremonyPathsSafe(pid, m.quorum.value.hash, m.cert.value.hash);
    SurvivesConfigure(pl, keys, t, quorum, after, QuorumPath(pid, m.quorum.value.hash), m.quorum.value);
    SurvivesConfigure(pl, keys, t, quorum, after, CertPath(pid, PathInternalCert(m.cert.value.hash)), m.cert.value);
    SurvivesConfigure(pl, keys, t, quorum, after, SignaturePath(pid, m.cert.value.hash), m.signature.value);
    assert keys.identity in t.store;
  }

  lemma {:induction false} ConfiguredAfterBootstrap(entityOf: Hash -> Entity, pl: Platform, keys: Keys, m: Material, s: Space, quorum: Hash, after: Space)
    requires MaterialFree(entityOf, s, keys, m) && PlanWith(keys, m).outcome.Ok? && NoOtherStack(pl, keys.peerId, m, s)
    requires ConfigureEffect(pl, keys, ApplyAll(s, PlanWith(keys, m).ops), quorum, after)
    ensures AfterCeremony(pl, keys, m, after)
  {
    var t := ApplyAll(s, PlanWith(keys, m).ops);
    WrittenByBootstrap(entityOf, pl, keys, m, s);
    StackSurvives(pl, keys, m, t, quorum, after);
    forall p | p in after.index && Listed(keys.peerId, p) ensures BoundByCeremony(keys.peerId, m, p) || SignsTarget(pl, keys.peerId, after, p) {
      ConfigureAddsSignatures(pl, keys, m, t, quorum, after, p);
    }
  }

  // ---------- what an export of a bootstrapped peer lists ----------

  lemma {:induction false} ListsNothing(s: Space, paths: seq<Path>, prefix: Path, entityType: string)
    requires forall p :: p in paths ==> !Lists(s, p, prefix, entityType)
    ensures ListTyped(s, paths, prefix, entityType) == []
    decreases |paths|
  {
    if paths != [] {
      var front, last := paths[..|paths| - 1], paths[|paths| - 1];
      assert last in paths && forall p :: p in front ==> p in paths;
      ListsNothing(s, front, prefix, entityType);
    }
  }

  lemma {:induction false} ListsOne(s: Space, paths: seq<Path>, prefix: Path, entityType: string, q: Path)
    requires q in paths && Lists(s, q, prefix, entityType)
    requires forall p :: p in paths && p != q ==> !Lists(s, p, prefix, entityType)
    requires forall i, j :: 0 <= i < j < |paths| ==> paths[i] != paths[j]
    ensures ListTyped(s, paths, prefix, entityType) == [Resolve(s, q).value]
    decreases |paths|
  {
    var front, last := paths[..|paths| - 1], paths[|paths| - 1];
    assert last in paths && forall p :: p in front ==> p in paths;
    if last == q {
      ListsNothing(s, front, prefix, entityType);
    } else {
      ListsOne(s, front, prefix, entityType, q);
    }
  }

  /** What the directories an export lists say about a path. */
  lemma {:induction false} UnderQuorumDir(pid: string, p: Path)
    requires QuorumDir(pid) <= p
    ensures |p| > |pid| + 9 && p[|pid| + 9] == 'q'
  {
    assert QuorumDir(pid)[|pid| + 9] == 'q';
  }

  lemma {:induction false} UnderSignatureDir(pid: string, p: Path)
    requires SignatureDir(pid) <= p
    ensures |p| > |pid| + 9 && p[|pid| + 9] == 's'
  {
    assert SignatureDir(pid)[|pid| + 9] == 's';
  }

  lemma {:induction false} CertDirLetters(dir: Path)
    requires dir in {INTERNAL_CERTS, PUBLIC_CERTS, RELATIONSHIPS}
    ensures |dir| > 18 && dir[7] == 'i'
    ensures dir[16] == (if dir == INTERNAL_CERTS then 'i' else if dir == PUBLIC_CERTS then 'p' else 'r')
    ensures dir == PUBLIC_CERTS ==> dir[17] == 'u'
  {}

  lemma {:induction false} UnderCertDir(pid: string, dir: Path, p: Path)
    requires |dir| > 18 && CertPath(pid, dir + "/") <= p
    ensures |p| > |pid| + 19 && p[|pid| + 9] == dir[7]
    ensures p[|pid| + 18] == dir[16] && p[|pid| + 19] == dir[17]
  {
    var start := "/" + pid + "/";
    var full := CertPath(pid, dir + "/");
    assert full == start + (dir + "/");
    assert full[|start| + 7] == dir[7] && full[|start| + 16] == dir[16] && full[|start| + 17] == dir[17];
  }

  /** A listed path is recognised by its letters, and is neither the peer-config nor an issued capability. */
  lemma {:induction false} ListedLetters(pid: string, p: Path)
    requires Listed(pid, p)
    ensures |p| > |pid| + 9 && p[|pid| + 9] in {'q', 's', 'i'}
    ensures p[|pid| + 9] == 'i' ==> |p| > |pid| + 19 && (p[|pid| + 18] == 'p' ==> p[|pid| + 19] == 'u')
  {
    if QuorumDir(pid) <= p {
      UnderQuorumDir(pid, p);
    } else if SignatureDir(pid) <= p {
      UnderSignatureDir(pid, p);
    } else {
      var dir := if CertPath(pid, INTERNAL_CERTS + "/") <= p then INTERNAL_CERTS
                 else if CertPath(pid, PUBLIC_CERTS + "/") <= p then PUBLIC_CERTS else RELATIONSHIPS;
      CertDirLetters(dir);
      UnderCertDir(pid, dir, p);
    }
  }

  lemma {:induction false} SignsTargetShape(pl: Platform, pid: string, s: Space, p: Path)
    requires SignsTarget(pl, pid, s, p)
    ensures |p| > |pid| + 9 && p[|pid| + 9] == 's'
  {
    var t :| p == SignaturePath(pid, t) && SignatureAt(pl, s, p, t);
    SignaturePathShape(pid, t);
  }

  /** The path of each listed kind after a ceremony, by its letters. */
  lemma {:induction false} CeremonyPathKind(pl: Platform, keys: Keys, m: Material, s: Space, p: Path)
    requires AfterCeremony(pl, keys, m, s) && p in s.index && Listed(keys.peerId, p) && |p| > |keys.peerId| + 9
    ensures p[|keys.peerId| + 9] == 'q' ==> p == QuorumPath(keys.peerId, m.quorum.value.hash)
    ensures p[|keys.peerId| + 9] == 's' ==> p == SignaturePath(keys.peerId, m.cert.value.hash) || SignsTarget(pl, keys.peerId, s, p)
    ensures p[|keys.peerId| + 9] == 'i' ==> p == CertPath(keys.peerId, PathInternalCert(m.cert.value.hash))
  {
    var pid := keys.peerId;
    CertPathShape(pid, Internal, None, m.cert.value.hash);
    QuorumPathShape(pid, m.quorum.value.hash);
    SignaturePathShape(pid, m.cert.value.hash);
    if SignsTarget(pl, pid, s, p) { SignsTargetShape(pl, pid, s, p); }
  }

  lemma {:induction false} OnlyTheQuorum(pl: Platform, keys: Keys, m: Material, s: Space, p: Path)
    requires AfterCeremony(pl, keys, m, s) && p in s.index && QuorumDir(keys.peerId) <= p
    ensures p == QuorumPath(keys.peerId, m.quorum.value.hash)
  {
    UnderQuorumDir(keys.peerId, p);
    CeremonyPathKind(pl, keys, m, s, p);
  }

  lemma {:induction false} ExportsOneQuorum(pl: Platform, keys: Keys, m: Material, s: Space, paths: seq<Path>)
    requires AfterCeremony(pl, keys, m, s) && Enumerates(paths, s.index) && m.quorum.value.entityType == TYPE_QUORUM
    ensures ListTyped(s, paths, QuorumDir(keys.peerId), TYPE_QUORUM) == [m.quorum.value]
  {
    var prefix, q := QuorumDir(keys.peerId), QuorumPath(keys.peerId, m.quorum.value.hash);
    assert prefix <= q;
    forall p | p in paths && p != q ensures !Lists(s, p, prefix, TYPE_QUORUM) {
      if prefix <= p { OnlyTheQuorum(pl, keys, m, s, p); }
    }
    ListsOne(s, paths, prefix, TYPE_QUORUM, q);
  }

  /** Only the certificate lies under a certificate directory, and under the internal one. */
  lemma {:induction false} OnlyTheCert(pl: Platform, keys: Keys, m: Material, s: Space, dir: Path, p: Path)
    requires AfterCeremony(pl, keys, m, s) && p in s.index
    requires dir in {INTERNAL_CERTS, PUBLIC_CERTS, RELATIONSHIPS} && CertPath(keys.peerId, dir + "/") <= p
    ensures dir == INTERNAL_CERTS && p == CertPath(keys.peerId, PathInternalCert(m.cert.value.hash))
  {
    var pid := keys.peerId;
    CertDirLetters(dir);
    UnderCertDir(pid, dir, p);
    CeremonyPathKind(pl, keys, m, s, p);
    InternalCertLetter(pid, m.cert.value.hash);
  }

  lemma {:induction false} InternalCertLetter(pid: string, cert: Hash)
    ensures var p := CertPath(pid, PathInternalCert(cert));
            |p| > |pid| + 19 && p[|pid| + 18] == 'i' && CertPath(pid, INTERNAL_CERTS + "/") <= p
  {
    UnderDirectory(pid, INTERNAL_CERTS + "/", HexSegment(cert));
    CertDirLetters(INTERNAL_CERTS);
    UnderCertDir(pid, INTERNAL_CERTS, CertPath(pid, PathInternalCert(cert)));
  }

  lemma {:induction false} OtherDirsEmpty(pl: Platform, keys: Keys, m: Material, s: Space, paths: seq<Path>, dir: Path)
    requires AfterCeremony(pl, keys, m, s) && Enumerates(paths, s.index) && dir in {PUBLIC_CERTS, RELATIONSHIPS}
    ensures ListTyped(s, paths, CertPath(keys.peerId, dir + "/"), TYPE_ATTESTATION) == []
  {
    CertDirLetters(dir);
    CertDirLetters(INTERNAL_CERTS);
    forall p | p in paths ensures !Lists(s, p, CertPath(keys.peerId, dir + "/"), TYPE_ATTESTATION) {
      if CertPath(keys.peerId, dir + "/") <= p { OnlyTheCert(pl, keys, m, s, dir, p); }
    }
    ListsNothing(s, paths, CertPath(keys.peerId, dir + "/"), TYPE_ATTESTATION);
  }

  lemma {:induction false} InternalDirHoldsCert(pl: Platform, keys: Keys, m: Material, s: Space, paths: seq<Path>)
    requires AfterCeremony(pl, keys, m, s) && Enumerates(paths, s.index) && m.cert.value.entityType == TYPE_ATTESTATION
    ensures ListTyped(s, paths, CertPath(keys.peerId, INTERNAL_CERTS + "/"), TYPE_ATTESTATION) == [m.cert.value]
  {
    var prefix, c := CertPath(keys.peerId, INTERNAL_CERTS + "/"), CertPath(keys.peerId, PathInternalCert(m.cert.value.hash));
    InternalCertLetter(keys.peerId, m.cert.value.hash);
    forall p | p in paths && p != c ensures !Lists(s, p, prefix, TYPE_ATTESTATION) {
      if prefix <= p { OnlyTheCert(pl, keys, m, s, INTERNAL_CERTS, p); }
    }
    ListsOne(s, paths, prefix, TYPE_ATTESTATION, c);
  }

  lemma {:induction false} ExportsOneCert(pl: Platform, keys: Keys, m: Material, s: Space, paths: seq<Path>)
    requires AfterCeremony(pl, keys, m, s) && Enumerates(paths, s.index) && m.cert.value.entityType == TYPE_ATTESTATION
    ensures ListAttestations(keys.peerId, s, paths) == [m.cert.value]
  {
    InternalDirHoldsCert(pl, keys, m, s, paths);
    OtherDirsEmpty(pl, keys, m, s, paths, PUBLIC_CERTS);
    OtherDirsEmpty(pl, keys, m, s, paths, RELATIONSHIPS);
  }

  /** Every signature an export lists is bound at its target's path and is rebuilt alike. */
  lemma {:induction false} SignaturesInOrder(pl: Platform, keys: Keys, m: Material, s: Space, p: Path)
    requires AfterCeremony(pl, keys, m, s) && Native(pl.home, m.signature.value) && TargetOf(pl, m.signature.value) == Some(m.cert.value.hash)
    requires SignatureDir(keys.peerId) <= p && Resolve(s, p).Some?
    ensures TargetOf(pl, Resolve(s, p).value).Some? && p == SignaturePath(keys.peerId, TargetOf(pl, Resolve(s, p).value).value)
    ensures Native(pl.home, Resolve(s, p).value)
  {
    UnderSignatureDir(keys.peerId, p);
    CeremonyPathKind(pl, keys, m, s, p);
    if p != SignaturePath(keys.peerId, m.cert.value.hash) {
      var t :| p == SignaturePath(keys.peerId, t) && SignatureAt(pl, s, p, t);
    }
  }

  /** What the ceremony builds, it builds alike again. */
  lemma {:induction false} MaterialsAreNative(pl: Platform, keys: Keys, opts: Options)
    ensures var m := Materials(pl, keys, opts);
            && (m.quorum.Some? ==> Native(pl.home, m.quorum.value) && m.quorum.value.entityType == TYPE_QUORUM)
            && (m.cert.Some? ==> m.quorum.Some? && Native(pl.home, m.cert.value) && m.cert.value.entityType == TYPE_ATTESTATION)
            && (m.signature.Some? ==> m.cert.Some? && Native(pl.home, m.signature.value))
  {}

  lemma {:induction false} AllSignaturesInOrder(pl: Platform, keys: Keys, m: Material, s: Space, paths: seq<Path>)
    requires AfterCeremony(pl, keys, m, s) && Native(pl.home, m.signature.value) && TargetOf(pl, m.signature.value) == Some(m.cert.value.hash)
    ensures SignaturesAtTargets(pl, keys.peerId, s)
    ensures AllNative(pl.home, ListTyped(s, paths, SignatureDir(keys.peerId), TYPE_SIGNATURE))
  {
    forall p | SignatureDir(keys.peerId) <= p && Resolve(s, p).Some? && Resolve(s, p).value.entityType == TYPE_SIGNATURE
      ensures TargetOf(pl, Resolve(s, p).value).Some? && p == SignaturePath(keys.peerId, TargetOf(pl, Resolve(s, p).value).value)
    {
      SignaturesInOrder(pl, keys, m, s, p);
    }
    var sigs := ListTyped(s, paths, SignatureDir(keys.peerId), TYPE_SIGNATURE);
    forall i | 0 <= i < |sigs| ensures Native(pl.home, sigs[i]) {
      var p := ListedFrom(s, paths, SignatureDir(keys.peerId), TYPE_SIGNATURE, sigs[i]);
      SignaturesInOrder(pl, keys, m, s, p);
    }
  }

  /** The bundle of a peer with one quorum, one certificate and rebuildable signatures. */
  lemma {:induction false} SingleStack(pl: Platform, keys: Keys, b: IdentityBundle, q: Entity, c: Entity)
    requires Native(pl.home, b.identityEntity) && PublicKeyOf(pl, b.identityEntity) == Some(keys.publicKey)
    requires b.quorums == [q] && b.attestations == [c] && Native(pl.home, q) && Native(pl.home, c)
    requires AllNative(pl.home, b.signatures) && IsController(pl, c)
    ensures OneOfEach(pl, keys, b, q, c)
  {
    assert [c][0] == c;
  }

  /** The export of a bootstrapped peer: exactly the ceremony's quorum and certificate, and signatures that are all in place. */
  lemma {:induction false} BootstrappedExport(pl: Platform, keys: Keys, opts: Options, m: Material, s: Space, paths: seq<Path>)
    requires m == Materials(pl, keys, opts) && AfterCeremony(pl, keys, m, s) && CeremonyReadable(pl, keys, opts, m)
    requires OwnIdentity(pl, keys) && Enumerates(paths, s.index)
    ensures Export(keys, s, paths).Ok? && SignaturesAtTargets(pl, keys.peerId, s)
    ensures OneOfEach(pl, keys, Export(keys, s, paths).value, m.quorum.value, m.cert.value)
  {
    MaterialsAreNative(pl, keys, opts);
    TargetReadsBack(pl, keys, m.cert.value.hash, m.signature.value);
    AllSignaturesInOrder(pl, keys, m, s, paths);
    ExportsOneQuorum(pl, keys, m, s, paths);
    ExportsOneCert(pl, keys, m, s, paths);
    assert IsController(pl, m.cert.value) by {
      SameCertPath(pl, opts.properties, m.quorum.value.hash, keys.identity, m.cert.value);
    }
    SingleStack(pl, keys, Export(keys, s, paths).value, m.quorum.value, m.cert.value);
  }

  lemma {:induction false} BootstrapCarries(pl: Platform, keys: Keys, configure: Configure, opts: Options, start: Space)
    requires var r := Bootstrap(pl, keys, configure, opts, start).result; r.Ok? && r.value.Bootstrapped?
    ensures Bootstrap(pl, keys, configure, opts, start) == Carry(BootstrapPlan(pl, keys, opts), keys, configure, start)
  {}

  /** A bootstrap that ran through leaves the stack of its materials and reports it. */
  lemma {:induction false} BootstrapSettles(entityOf: Hash -> Entity, pl: Platform, keys: Keys, configure: Configure, opts: Options, m: Material, start: Space)
    requires m == Materials(pl, keys, opts) && NoOtherStack(pl, keys.peerId, m, start)
    requires MaterialFree(entityOf, start, keys, m) && ConfigureSoundAfter(pl, keys, configure, BootstrapPlan(pl, keys, opts), start)
    requires var r := Bootstrap(pl, keys, configure, opts, start).result; r.Ok? && r.value.Bootstrapped?
    ensures AfterCeremony(pl, keys, m, Bootstrap(pl, keys, configure, opts, start).space)
    ensures var r := Bootstrap(pl, keys, configure, opts, start).result.value; r.quorum == m.quorum.value.hash && r.cert == m.cert.value.hash
  {
    var plan := PlanWith(keys, m);
    BootstrapCarries(pl, keys, configure, opts, start);
    CarriedThrough(plan, keys, configure, start);
    var q := plan.outcome.value.quorum;
    var after := configure(ApplyAll(start, plan.ops), q).space;
    assert ConfigureEffect(pl, keys, ApplyAll(start, plan.ops), q, after);
    ConfiguredAfterBootstrap(entityOf, pl, keys, m, start, q, after);
    PlanOps(keys, m);
  }

  /** The closed round trip.  A built peer without another identity stack, bootstrapped with any options, exported, encoded, decoded, restored under the same key
      where there is no stack yet, and exported again: the restore reports the very quorum and certificate the bootstrap
      did, and the second bundle holds every quorum, attestation and signature of the first. */
  lemma {:induction false} BootstrappedPeerRoundTrips(entityOf: Hash -> Entity, pl: Platform, keys: Keys, configure: Configure, opts: Options,
                                                      start: Space, sourcePaths: seq<Path>, b: IdentityBundle, s: Space, paths: seq<Path>)
    requires OwnIdentity(pl, keys)
    requires var m := Materials(pl, keys, opts);
             NoOtherStack(pl, keys.peerId, m, start) && CeremonyReadable(pl, keys, opts, m) && MaterialFree(entityOf, start, keys, m)
    requires ConfigureSoundAfter(pl, keys, configure, BootstrapPlan(pl, keys, opts), start)
    requires ConfigureSoundAfter(pl, keys, configure, RestorePlan(pl, keys, b), s)
    requires var r := Bootstrap(pl, keys, configure, opts, start).result; r.Ok? && r.value.Bootstrapped?
    requires Enumerates(sourcePaths, Bootstrap(pl, keys, configure, opts, start).space.index)
    requires Export(keys, Bootstrap(pl, keys, configure, opts, start).space, sourcePaths) == Ok(b)
    requires CollisionFree(entityOf, s, b) && Resolve(s, PeerConfigPath(keys.peerId)).None?
    requires Restore(pl, keys, configure, b, s).result != Err(ConfigureFailed)
    requires Enumerates(paths, Restore(pl, keys, configure, b, s).space.index)
    ensures Decode(pl.home, Encode(b)) == Ok(b)
    ensures var first, restored := Bootstrap(pl, keys, configure, opts, start).result.value, Restore(pl, keys, configure, b, s);
            && restored.result.Ok? && restored.result.value.Bootstrapped?
            && restored.result.value.quorum == first.quorum && restored.result.value.cert == first.cert
            && Export(keys, restored.space, paths).Ok? && Carries(b, Export(keys, restored.space, paths).value)
  {
    var m, source := Materials(pl, keys, opts), Bootstrap(pl, keys, configure, opts, start).space;
    BootstrapSettles(entityOf, pl, keys, configure, opts, m, start);
    BootstrappedExport(pl, keys, opts, m, source, sourcePaths);
    RoundTripCarriesTheStack(entityOf, pl, keys, configure, source, sourcePaths, b, s, paths, m.quorum.value, m.cert.value);
  }
}
