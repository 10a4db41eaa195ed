/**
 Export, encode, decode, restore on another device with the same key, and export again.
 */
module BundleRoundTrip {
  import opened Wrappers
  import opened Substrate
  import opened CertPaths
  import opened BundleCodec
  import opened Ceremony
  import opened BundleRestore

  // ---------- export ----------

  datatype ExportError = NotBootstrapped | PeerEntityUnavailable

  function QuorumDir(pid: string): Path {
    "/" + pid + "/system/quorum/"
  }

  function SignatureDir(pid: string): Path {
    "/" + pid + "/system/signature/"
  }

  /** The paths of an index in the order its listing gives them. */
  ghost predicate Enumerates(paths: seq<Path>, index: map<Path, Hash>) {
    && (forall p :: p in paths <==> p in index)
    && (forall i, j :: 0 <= i < j < |paths| ==> paths[i] != paths[j])
  }

  /** The path lies under the prefix and leads to an entity of the type. */
  predicate Lists(s: Space, p: Path, prefix: Path, entityType: string) {
    prefix <= p && Resolve(s, p).Some? && Resolve(s, p).value.entityType == entityType
  }

  /** `list_typed`: the entities of one type under a prefix. */
  function ListTyped(s: Space, paths: seq<Path>, prefix: Path, entityType: string): seq<Entity> {
    if paths == [] then []
    else
      var p := paths[|paths| - 1];
      ListTyped(s, paths[..|paths| - 1], prefix, entityType) +
      if Lists(s, p, prefix, entityType) then [Resolve(s, p).value] else []
  }

  lemma {:induction false} Listed(s: Space, paths: seq<Path>, prefix: Path, entityType: string, p: Path, e: Entity)
    requires p in paths && prefix <= p && Resolve(s, p) == Some(e) && e.entityType == entityType
    ensures e in ListTyped(s, paths, prefix, entityType)
    decreases |paths|
  {
    if p != paths[|paths| - 1] { Listed(s, paths[..|paths| - 1], prefix, entityType, p, e); }
  }

  lemma {:induction false} ListedFrom(s: Space, paths: seq<Path>, prefix: Path, entityType: string, e: Entity) returns (p: Path)
    requires e in ListTyped(s, paths, prefix, entityType)
    ensures p in paths && prefix <= p && Resolve(s, p) == Some(e) && e.entityType == entityType
    decreases |paths|
  {
    if e in ListTyped(s, paths[..|paths| - 1], prefix, entityType) {
      p := ListedFrom(s, paths[..|paths| - 1], prefix, entityType, e);
    } else {
      p := paths[|paths| - 1];
    }
  }

  function ListAttestations(pid: string, s: Space, paths: seq<Path>): seq<Entity> {
    ListTyped(s, paths, CertPath(pid, INTERNAL_CERTS + "/"), TYPE_ATTESTATION)
    + ListTyped(s, paths, CertPath(pid, PUBLIC_CERTS + "/"), TYPE_ATTESTATION)
    + ListTyped(s, paths, CertPath(pid, RELATIONSHIPS + "/"), TYPE_ATTESTATION)
  }

  /** `export_bundle`. */
  function Export(keys: Keys, s: Space, paths: seq<Path>): Result<IdentityBundle, ExportError> {
    if Resolve(s, PeerConfigPath(keys.peerId)).None? then Err(NotBootstrapped)
    else
      var identity := if keys.identity in s.store then Some(s.store[keys.identity]) else keys.peerEntity;
      if identity.None? then Err(PeerEntityUnavailable)
      else
        Ok(IdentityBundle(keys.identity, identity.value,
                          ListTyped(s, paths, QuorumDir(keys.peerId), TYPE_QUORUM),
                          ListAttestations(keys.peerId, s, paths),
                          ListTyped(s, paths, SignatureDir(keys.peerId), TYPE_SIGNATURE),
                          None, []))
  }

  /** Some path under the directory leads to this entity, and it is of the type. */
  ghost predicate HeldUnder(s: Space, dir: Path, entityType: string, e: Entity) {
    e.entityType == entityType && exists p :: p in s.index && dir <= p && Resolve(s, p) == Some(e)
  }

  lemma {:induction false} ListsExactly(s: Space, paths: seq<Path>, dir: Path, entityType: string, e: Entity)
    requires Enumerates(paths, s.index)
    ensures e in ListTyped(s, paths, dir, entityType) <==> HeldUnder(s, dir, entityType, e)
  {
    if e in ListTyped(s, paths, dir, entityType) {
      var p := ListedFrom(s, paths, dir, entityType, e);
    }
    if HeldUnder(s, dir, entityType, e) {
      var p :| p in s.index && dir <= p && Resolve(s, p) == Some(e);
      Listed(s, paths, dir, entityType, p, e);
    }
  }

  /** What an export holds: exactly the quorums, certificates and signatures that paths of their directories lead to, and the peer's own identity. */
  lemma {:induction false} ExportHoldsExactly(keys: Keys, s: Space, paths: seq<Path>, e: Entity)
    requires Enumerates(paths, s.index)
    ensures Export(keys, s, paths) == Err(NotBootstrapped) <==> Resolve(s, PeerConfigPath(keys.peerId)).None?
    ensures Export(keys, s, paths).Ok? ==>
              var b := Export(keys, s, paths).value;
              && b.identityHash == keys.identity
              && (e == b.identityEntity <==> Or(At(s.store, keys.identity), keys.peerEntity) == Some(e))
              && (e in b.quorums <==> HeldUnder(s, "/" + keys.peerId + "/system/quorum/", TYPE_QUORUM, e))
              && (e in b.signatures <==> HeldUnder(s, "/" + keys.peerId + "/system/signature/", TYPE_SIGNATURE, e))
              && (e in b.attestations <==>
                    || HeldUnder(s, CertPath(keys.peerId, INTERNAL_CERTS + "/"), TYPE_ATTESTATION, e)
                    || HeldUnder(s, CertPath(keys.peerId, PUBLIC_CERTS + "/"), TYPE_ATTESTATION, e)
                    || HeldUnder(s, CertPath(keys.peerId, RELATIONSHIPS + "/"), TYPE_ATTESTATION, e))
  {
    if Export(keys, s, paths).Ok? {
      var pid := keys.peerId;
      ListsExactly(s, paths, QuorumDir(pid), TYPE_QUORUM, e);
      ListsExactly(s, paths, SignatureDir(pid), TYPE_SIGNATURE, e);
      AttestationsExactly(pid, s, paths, e);
    }
  }

  lemma {:induction false} AttestationsExactly(pid: string, s: Space, paths: seq<Path>, e: Entity)
    requires Enumerates(paths, s.index)
    ensures e in ListAttestations(pid, s, paths) <==>
            || HeldUnder(s, CertPath(pid, INTERNAL_CERTS + "/"), TYPE_ATTESTATION, e)
            || HeldUnder(s, CertPath(pid, PUBLIC_CERTS + "/"), TYPE_ATTESTATION, e)
            || HeldUnder(s, CertPath(pid, RELATIONSHIPS + "/"), TYPE_ATTESTATION, e)
  {
    ListsExactly(s, paths, CertPath(pid, INTERNAL_CERTS + "/"), TYPE_ATTESTATION, e);
    ListsExactly(s, paths, CertPath(pid, PUBLIC_CERTS + "/"), TYPE_ATTESTATION, e);
    ListsExactly(s, paths, CertPath(pid, RELATIONSHIPS + "/"), TYPE_ATTESTATION, e);
  }

  // ---------- what a restorable bundle is ----------

  ghost predicate WellTyped(b: IdentityBundle) {
    && (forall e :: e in b.quorums ==> e.entityType == TYPE_QUORUM)
    && (forall e :: e in b.attestations ==> e.entityType == TYPE_ATTESTATION)
    && (forall e :: e in b.signatures ==> e.entityType == TYPE_SIGNATURE)
  }

  ghost predicate OneSignaturePerTarget(pl: Platform, sigs: seq<Entity>) {
    && (forall e :: e in sigs ==> TargetOf(pl, e).Some?)
    && (forall e, f :: e in sigs && f in sigs && TargetOf(pl, e) == TargetOf(pl, f) ==> e.hash == f.hash)
  }

  /** No two entities in play share a hash: `entityOf` names the one of each hash. */
  ghost predicate CollisionFree(entityOf: Hash -> Entity, s: Space, b: IdentityBundle) {
    && (forall h :: h in s.store ==> s.store[h] == entityOf(h))
    && (forall e :: InBundle(b, e) ==> entityOf(e.hash) == e)
  }

  // ---------- what restore leaves ----------

  lemma {:induction false} StoreStaysAddressed(entityOf: Hash -> Entity, s: Space, ops: seq<Op>, h: Hash)
    requires forall k :: k in s.store ==> s.store[k] == entityOf(k)
    requires forall i :: 0 <= i < |ops| && ops[i].Put? ==> entityOf(ops[i].entity.hash) == ops[i].entity
    ensures h in ApplyAll(s, ops).store ==> ApplyAll(s, ops).store[h] == entityOf(h)
    decreases |ops|
  {
    if ops != [] { StoreStaysAddressed(entityOf, s, ops[..|ops| - 1], h); }
  }

  lemma StoreAfterRestore(entityOf: Hash -> Entity, pl: Platform, pid: string, b: IdentityBundle, s: Space, h: Hash)
    requires CollisionFree(entityOf, s, b)
    ensures h in ApplyAll(s, AllWrites(pl, pid, b)).store ==> ApplyAll(s, AllWrites(pl, pid, b)).store[h] == entityOf(h)
  {
    var all := AllWrites(pl, pid, b);
    forall k | 0 <= k < |all| && all[k].Put? ensures entityOf(all[k].entity.hash) == all[k].entity {
      AllWritesAre(pl, pid, b, k);
    }
    StoreStaysAddressed(entityOf, s, all, h);
  }

  lemma BoundPathIsSafe(pl: Platform, pid: string, b: IdentityBundle, p: Path)
    requires LastBind(AllWrites(pl, pid, b), p).Some?
    ensures p != PeerConfigPath(pid) && !IssuedCapPath(pid, p)
  {
    var i := LastBindIsThere(AllWrites(pl, pid, b), p);
    AllWritesAre(pl, pid, b, i);
    NotPeerConfig(pl, pid, b, AllWrites(pl, pid, b)[i]);
  }

  lemma BoundHashIsStored(s: Space, ops: seq<Op>, p: Path)
    requires StoredFirst(ops) && LastBind(ops, p).Some?
    ensures LastBind(ops, p).value in ApplyAll(s, ops).store && At(ApplyAll(s, ops).index, p) == LastBind(ops, p)
  {
    var i := LastBindIsThere(ops, p);
    var j :| 0 <= j < i && ops[j].Put? && ops[j].entity.hash == ops[i].hash;
    PutsAreStored(s, ops, j);
    AfterWrites(s, ops, p, ops[i].hash);
  }

  /** An entity of the bundle whose hash the writes bind at a path resolves there. */
  lemma BoundEntityResolves(entityOf: Hash -> Entity, pl: Platform, pid: string, b: IdentityBundle, s: Space, p: Path, e: Entity)
    requires CollisionFree(entityOf, s, b) && InBundle(b, e)
    requires LastBind(AllWrites(pl, pid, b), p) == Some(e.hash)
    ensures Resolve(ApplyAll(s, AllWrites(pl, pid, b)), p) == Some(e)
    ensures p != PeerConfigPath(pid) && !IssuedCapPath(pid, p)
  {
    BoundPathIsSafe(pl, pid, b, p);
    AllStoredFirst(pl, pid, b);
    BoundHashIsStored(s, AllWrites(pl, pid, b), p);
    StoreAfterRestore(entityOf, pl, pid, b, s, e.hash);
  }

  lemma LastBindOf(s: Space, ops: seq<Op>, i: nat, p: Path)
    requires i < |ops| && ops[i].Bind? && ops[i].path == p
    ensures LastBind(ops, p).Some? && LastBind(ops, p) == At(ApplyAll(s, ops).index, p)
  {
    BoundSomewhere(ops, i, p);
    AfterWrites(s, ops, p, ops[i].hash);
  }

  /** Every path that resolved to an entity of the bundle still does after configure. */
  lemma SurvivesConfigure(pl: Platform, keys: Keys, before: Space, quorum: Hash, after: Space, p: Path, e: Entity)
    requires ConfigureEffect(pl, keys, before, quorum, after) && Resolve(before, p) == Some(e)
    requires p != PeerConfigPath(keys.peerId) && !IssuedCapPath(keys.peerId, p)
    ensures Resolve(after, p) == Some(e) && p in after.index
  {}

  /** Where each entity of a bundle is after the writes. */
  lemma QuorumResolves(entityOf: Hash -> Entity, pl: Platform, pid: string, b: IdentityBundle, s: Space, q: Entity)
    requires CollisionFree(entityOf, s, b) && q in b.quorums
    ensures var p := QuorumPath(pid, q.hash);
            && Resolve(ApplyAll(s, AllWrites(pl, pid, b)), p) == Some(q) && p != PeerConfigPath(pid) && !IssuedCapPath(pid, p)
  {
    var all, p := AllWrites(pl, pid, b), QuorumPath(pid, q.hash);
    assert all[..|all|] == all;
    QuorumHeld(pl, pid, b, s, |all|, q);
    var at := QuorumWrittenAt(pl, pid, b, q);
    LastBindOf(s, all, at, p);
    BoundEntityResolves(entityOf, pl, pid, b, s, p, q);
  }

  lemma SignatureResolves(entityOf: Hash -> Entity, pl: Platform, pid: string, b: IdentityBundle, s: Space, sig: Entity)
    requires CollisionFree(entityOf, s, b) && sig in b.signatures
    requires OneSignaturePerTarget(pl, b.signatures) && SignaturesOps(pl, pid, b.signatures).complete
    ensures var p := SignaturePath(pid, TargetOf(pl, sig).value);
            && Resolve(ApplyAll(s, AllWrites(pl, pid, b)), p) == Some(sig) && p != PeerConfigPath(pid) && !IssuedCapPath(pid, p)
  {
    var all, p := AllWrites(pl, pid, b), SignaturePath(pid, TargetOf(pl, sig).value);
    assert all[..|all|] == all;
    var held := SignatureHeld(pl, pid, b, s, |all|, sig);
    var at := SignatureWrittenAt(pl, pid, b, sig);
    LastBindOf(s, all, at, p);
    BoundEntityResolves(entityOf, pl, pid, b, s, p, sig);
  }

  lemma CertResolves(entityOf: Hash -> Entity, pl: Platform, pid: string, b: IdentityBundle, s: Space, att: Entity)
    requires CollisionFree(entityOf, s, b) && att in b.attestations
    ensures var p := CertBind(pl, pid, att).path;
            && Resolve(ApplyAll(s, AllWrites(pl, pid, b)), p) == Some(att) && p != PeerConfigPath(pid) && !IssuedCapPath(pid, p)
  {
    var all, p := AllWrites(pl, pid, b), CertBind(pl, pid, att).path;
    CertHeld(pl, pid, b, s, att);
    var at := CertBoundAt(pl, pid, b, att);
    LastBindOf(s, all, at, p);
    BoundEntityResolves(entityOf, pl, pid, b, s, p, att);
  }

  lemma UnderDirectory(pid: string, dir: Path, rest: Path)
    ensures CertPath(pid, dir) <= CertPath(pid, dir + rest)
  {
    assert CertPath(pid, dir + rest) == CertPath(pid, dir) + rest;
  }

  lemma RelationshipPrefix(contact: Hash, att: Hash)
    ensures PathRelationshipCert(contact, att) == (RELATIONSHIPS + "/") + (HexSegment(contact) + "/cert" + "/" + HexSegment(att))
  {}

  /** The restored path of a certificate lies in one of the three directories an export lists. */
  lemma RestoredPathIsListed(pl: Platform, pid: string, att: Entity)
    ensures var p := CertBind(pl, pid, att).path;
            || CertPath(pid, INTERNAL_CERTS + "/") <= p
            || CertPath(pid, PUBLIC_CERTS + "/") <= p
            || CertPath(pid, RELATIONSHIPS + "/") <= p
  {
    var mode, contact := RestoredIsCanonical(pl, att);
    var hex := HexSegment(att.hash);
    if mode == Internal {
      UnderDirectory(pid, INTERNAL_CERTS + "/", hex);
    } else if mode == Public {
      UnderDirectory(pid, PUBLIC_CERTS + "/", hex);
    } else {
      RelationshipPrefix(contact.value, att.hash);
      UnderDirectory(pid, RELATIONSHIPS + "/", HexSegment(contact.value) + "/cert" + "/" + hex);
    }
  }

  /** Everything in one bundle is in the other, for the same identity. */
  ghost predicate Carries(small: IdentityBundle, big: IdentityBundle) {
    && big.identityHash == small.identityHash
    && (forall e :: e in small.quorums ==> e in big.quorums)
    && (forall e :: e in small.attestations ==> e in big.attestations)
    && (forall e :: e in small.signatures ==> e in big.signatures)
  }

  lemma SigningCompletes(pl: Platform, pid: string, sigs: seq<Entity>)
    requires forall e :: e in sigs ==> TargetOf(pl, e).Some?
    ensures SignaturesOps(pl, pid, sigs).complete
  {
    if sigs != [] {
      assert forall e :: e in sigs[..|sigs| - 1] ==> e in sigs;
      SigningCompletes(pl, pid, sigs[..|sigs| - 1]);
    }
  }

  lemma FirstControllerFound(pl: Platform, atts: seq<Entity>, c: Entity)
    requires c in atts && IsController(pl, c)
    requires forall a :: a in atts && IsController(pl, a) ==> a.hash == c.hash
    ensures FirstController(pl, atts) == Some(c.hash)
  {
    var front := atts[..|atts| - 1];
    assert forall a :: a in front ==> a in atts;
    if c in front { FirstControllerFound(pl, front, c); } else { NoOtherController(pl, front, c); }
  }

  lemma NoOtherController(pl: Platform, atts: seq<Entity>, c: Entity)
    requires forall a :: a in atts && IsController(pl, a) ==> a.hash == c.hash
    ensures FirstController(pl, atts) in {None, Some(c.hash)}
  {
    if atts != [] {
      assert forall a :: a in atts[..|atts| - 1] ==> a in atts;
      NoOtherController(pl, atts[..|atts| - 1], c);
    }
  }

  /** After the writes and configure, an export lists everything the bundle held. */
  lemma {:induction false} ExportCarries(entityOf: Hash -> Entity, pl: Platform, keys: Keys, b: IdentityBundle, s: Space, quorum: Hash, after: Space, paths: seq<Path>)
    requires CollisionFree(entityOf, s, b) && WellTyped(b) && OneSignaturePerTarget(pl, b.signatures)
    requires ConfigureEffect(pl, keys, ApplyAll(s, AllWrites(pl, keys.peerId, b)), quorum, after)
    requires Enumerates(paths, after.index) && Export(keys, after, paths).Ok? && b.identityHash == keys.identity
    ensures Carries(b, Export(keys, after, paths).value)
  {
    var pid := keys.peerId;
    var written := ApplyAll(s, AllWrites(pl, pid, b));
    var again := Export(keys, after, paths).value;
    SigningCompletes(pl, pid, b.signatures);
    forall e | e in b.quorums ensures e in again.quorums {
      QuorumResolves(entityOf, pl, pid, b, s, e);
      SurvivesConfigure(pl, keys, written, quorum, after, QuorumPath(pid, e.hash), e);
      Listed(after, paths, QuorumDir(pid), TYPE_QUORUM, QuorumPath(pid, e.hash), e);
    }
    forall e | e in b.signatures ensures e in again.signatures {
      SignatureResolves(entityOf, pl, pid, b, s, e);
      var p := SignaturePath(pid, TargetOf(pl, e).value);
      SurvivesConfigure(pl, keys, written, quorum, after, p, e);
      Listed(after, paths, SignatureDir(pid), TYPE_SIGNATURE, p, e);
    }
    forall e | e in b.attestations ensures e in again.attestations {
      CertResolves(entityOf, pl, pid, b, s, e);
      var p := CertBind(pl, pid, e).path;
      SurvivesConfigure(pl, keys, written, quorum, after, p, e);
      RestoredPathIsListed(pl, pid, e);
      if CertPath(pid, INTERNAL_CERTS + "/") <= p {
        Listed(after, paths, CertPath(pid, INTERNAL_CERTS + "/"), TYPE_ATTESTATION, p, e);
      } else if CertPath(pid, PUBLIC_CERTS + "/") <= p {
        Listed(after, paths, CertPath(pid, PUBLIC_CERTS + "/"), TYPE_ATTESTATION, p, e);
      } else {
        Listed(after, paths, CertPath(pid, RELATIONSHIPS + "/"), TYPE_ATTESTATION, p, e);
      }
    }
  }

  // ---------- what an export is ----------

  /** Each signature the index lists is bound at the path of its own target. */
  ghost predicate SignaturesAtTargets(pl: Platform, pid: string, s: Space) {
    forall p :: SignatureDir(pid) <= p && Resolve(s, p).Some? && Resolve(s, p).value.entityType == TYPE_SIGNATURE ==>
                  TargetOf(pl, Resolve(s, p).value).Some? && p == SignaturePath(pid, TargetOf(pl, Resolve(s, p).value).value)
  }

  /** An export is well typed, and holds one signature per target when the source's pointers are in order. */
  lemma ExportIsRestorable(pl: Platform, keys: Keys, s: Space, paths: seq<Path>)
    requires Export(keys, s, paths).Ok? && SignaturesAtTargets(pl, keys.peerId, s)
    ensures WellTyped(Export(keys, s, paths).value)
    ensures OneSignaturePerTarget(pl, Export(keys, s, paths).value.signatures)
  {
    var b, pid := Export(keys, s, paths).value, keys.peerId;
    forall e | e in b.quorums ensures e.entityType == TYPE_QUORUM {
      var p := ListedFrom(s, paths, QuorumDir(pid), TYPE_QUORUM, e);
    }
    forall e | e in b.attestations ensures e.entityType == TYPE_ATTESTATION {
      var dir := if e in ListTyped(s, paths, CertPath(pid, INTERNAL_CERTS + "/"), TYPE_ATTESTATION) then INTERNAL_CERTS
                 else if e in ListTyped(s, paths, CertPath(pid, PUBLIC_CERTS + "/"), TYPE_ATTESTATION) then PUBLIC_CERTS
                 else RELATIONSHIPS;
      var p := ListedFrom(s, paths, CertPath(pid, dir + "/"), TYPE_ATTESTATION, e);
    }
    forall e | e in b.signatures
      ensures e.entityType == TYPE_SIGNATURE && TargetOf(pl, e).Some? && Resolve(s, SignaturePath(pid, TargetOf(pl, e).value)) == Some(e)
    {
      var p := ListedFrom(s, paths, SignatureDir(pid), TYPE_SIGNATURE, e);
    }
  }

  /** A restore that gets through writes everything and then configures. */
  lemma {:induction false} RestoreRuns(pl: Platform, keys: Keys, configure: Configure, b: IdentityBundle, s: Space, q: Hash, c: Hash)
    requires Mismatch(pl, keys, b).None? && Resolve(s, PeerConfigPath(keys.peerId)).None?
    requires b.quorums != [] && b.quorums[0].hash == q && FirstController(pl, b.attestations) == Some(c)
    requires OneSignaturePerTarget(pl, b.signatures)
    requires Restore(pl, keys, configure, b, s).result != Err(ConfigureFailed)
    ensures configure(ApplyAll(s, AllWrites(pl, keys.peerId, b)), q).issued.Some?
    ensures var after := configure(ApplyAll(s, AllWrites(pl, keys.peerId, b)), q);
            Restore(pl, keys, configure, b, s) == Outcome(after.space, Ok(Bootstrapped(keys.identity, q, c, after.issued.value)))
  {
    SigningCompletes(pl, keys.peerId, b.signatures);
  }

  /** What configure leaves after a complete restore: the quorum is recorded, and an export carries the bundle. */
  lemma {:induction false} RestoredExportCarries(entityOf: Hash -> Entity, pl: Platform, keys: Keys, b: IdentityBundle, s: Space,
                                                 quorum: Hash, after: Space, paths: seq<Path>)
    requires CollisionFree(entityOf, s, b) && WellTyped(b) && OneSignaturePerTarget(pl, b.signatures) && b.identityHash == keys.identity
    requires ConfigureEffect(pl, keys, ApplyAll(s, AllWrites(pl, keys.peerId, b)), quorum, after)
    requires keys.peerEntity.Some? && Enumerates(paths, after.index)
    ensures Resolve(after, PeerConfigPath(keys.peerId)).Some?
    ensures TrustsQuorum(pl, Resolve(after, PeerConfigPath(keys.peerId)).value) == Some(quorum)
    ensures Export(keys, after, paths).Ok? && Carries(b, Export(keys, after, paths).value)
  {
    ExportCarries(entityOf, pl, keys, b, s, quorum, after, paths);
  }

  /** The stack of the exported peer: its own identity, one quorum, one controller certificate, and
      entities the reading side builds alike. */
  ghost predicate OneOfEach(pl: Platform, keys: Keys, b: IdentityBundle, q: Entity, c: Entity) {
    && NativeBundle(pl.home, b) && PublicKeyOf(pl, b.identityEntity) == Some(keys.publicKey)
    && b.quorums == [q] && c in b.attestations && IsController(pl, c)
    && (forall a :: a in b.attestations && IsController(pl, a) ==> a.hash == c.hash)
  }

  /** The round trip.  A peer whose stack has one quorum, one controller certificate and every signature at its target's path is exported; the
      bundle is encoded, decoded, and restored where the same key has no stack yet and configure
      accepts.  The restore then reports that quorum and that certificate, the new peer-config records
      the quorum, and exporting again gives a bundle with every quorum, attestation and signature of
      the first. */
  lemma {:induction false} RoundTripCarriesTheStack(entityOf: Hash -> Entity, pl: Platform, keys: Keys, configure: Configure,
                                 source: Space, sourcePaths: seq<Path>, b: IdentityBundle, s: Space, paths: seq<Path>, q: Entity, c: Entity)
    requires Export(keys, source, sourcePaths) == Ok(b) && SignaturesAtTargets(pl, keys.peerId, source)
    requires OneOfEach(pl, keys, b, q, c) && CollisionFree(entityOf, s, b) && ConfigureSoundAfter(pl, keys, configure, RestorePlan(pl, keys, b), s)
    requires Resolve(s, PeerConfigPath(keys.peerId)).None? && keys.peerEntity.Some?
    requires Restore(pl, keys, configure, b, s).result != Err(ConfigureFailed)
    requires Enumerates(paths, Restore(pl, keys, configure, b, s).space.index)
    ensures Decode(pl.home, Encode(b)) == Ok(b)
    ensures var restored := Restore(pl, keys, configure, b, s);
            && restored.result.Ok? && restored.result.value.Bootstrapped?
            && restored.result.value.quorum == q.hash && restored.result.value.cert == c.hash
            && Resolve(restored.space, PeerConfigPath(keys.peerId)).Some?
            && TrustsQuorum(pl, Resolve(restored.space, PeerConfigPath(keys.peerId)).value) == Some(q.hash)
            && Export(keys, restored.space, paths).Ok?
            && Carries(b, Export(keys, restored.space, paths).value)
  {
    RoundTripExactly(pl.home, b);
    ExportIsRestorable(pl, keys, source, sourcePaths);
    FirstControllerFound(pl, b.attestations, c);
    RestoreRuns(pl, keys, configure, b, s, q.hash, c.hash);
    RestoredExportCarries(entityOf, pl, keys, b, s, q.hash, Restore(pl, keys, configure, b, s).space, paths);
  }
}
