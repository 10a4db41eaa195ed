/**
 Exporting an identity stack as a bundle and restoring it on a peer with the same key.
 */
module BundleRestore {
  import opened Wrappers
  import opened Substrate
  import opened Cbor
  import opened CertPaths
  import opened BundleCodec
  import opened Ceremony

  // ---------- reading entities ----------

  function FirstKey32(entries: seq<Entry>): Option<Bytes> {
    if entries == [] then None
    else if entries[0].key == Text("public_key") && entries[0].value.ByteString? && |entries[0].value.data| == 32
    then Some(entries[0].value.data)
    else FirstKey32(entries[1..])
  }

  /** `extract_peer_public_key`. */
  function PublicKeyOf(pl: Platform, e: Entity): Option<Bytes> {
    FirstKey32(ParsedEntries(pl, e))
  }

  predicate IsController(pl: Platform, att: Entity) {
    ReadFunction(PropertiesOf(pl, att)) == Some("controller")
  }

  function FirstController(pl: Platform, atts: seq<Entity>): Option<Hash> {
    if atts == [] then None
    else
      var before, last := FirstController(pl, atts[..|atts| - 1]), atts[|atts| - 1];
      if before.Some? then before else if IsController(pl, last) then Some(last.hash) else None
  }

  // ---------- the writes of a restore ----------

  function QuorumsOps(pid: string, qs: seq<Entity>): seq<Op> {
    if qs == [] then [] else QuorumsOps(pid, qs[..|qs| - 1]) + QuorumOps(pid, qs[|qs| - 1])
  }

  function PutAll(es: seq<Entity>): seq<Op> {
    if es == [] then [] else PutAll(es[..|es| - 1]) + [Put(es[|es| - 1])]
  }

  /** The writes of the signatures up to the first without a target, and whether there is none such. */
  datatype Signing = Signing(ops: seq<Op>, complete: bool)

  function SignaturesOps(pl: Platform, pid: string, sigs: seq<Entity>): Signing {
    if sigs == [] then Signing([], true)
    else
      var before, last := SignaturesOps(pl, pid, sigs[..|sigs| - 1]), sigs[|sigs| - 1];
      if !before.complete then before
      else
        match TargetOf(pl, last)
        case None => Signing(before.ops, false)
        case Some(t) => Signing(before.ops + SignatureOps(pid, t, last), true)
  }

  function CertBind(pl: Platform, pid: string, att: Entity): Op {
    Bind(CertPath(pid, RestoredCertPath(pl, att)), att.hash)
  }

  function CertBinds(pl: Platform, pid: string, atts: seq<Entity>): seq<Op> {
    if atts == [] then [] else CertBinds(pl, pid, atts[..|atts| - 1]) + [CertBind(pl, pid, atts[|atts| - 1])]
  }

  /** Everything before the certificates are bound. */
  function BeforeBinds(pl: Platform, pid: string, b: IdentityBundle): seq<Op> {
    [Put(b.identityEntity)] + QuorumsOps(pid, b.quorums) + PutAll(b.attestations) + SignaturesOps(pl, pid, b.signatures).ops
  }

  function RestorePlan(pl: Platform, keys: Keys, b: IdentityBundle): Plan {
    var pid := keys.peerId;
    if b.quorums == [] then Plan([Put(b.identityEntity)], Err(NoQuorum))
    else if !SignaturesOps(pl, pid, b.signatures).complete then Plan(BeforeBinds(pl, pid, b), Err(MalformedSignature))
    else
      var ops := BeforeBinds(pl, pid, b) + CertBinds(pl, pid, b.attestations);
      match FirstController(pl, b.attestations)
      case None => Plan(ops, Err(NoControllerCert))
      case Some(c) => Plan(ops, Ok(Minted(b.quorums[0].hash, c)))
  }

  /** The preconditions: the bundle is of the local peer's key and identity. */
  function Mismatch(pl: Platform, keys: Keys, b: IdentityBundle): Option<CeremonyError> {
    var pk := PublicKeyOf(pl, b.identityEntity);
    if pk.None? then Some(NoPublicKey)
    else if pk.value != keys.publicKey || b.identityHash != keys.identity then Some(KeypairMismatch)
    else None
  }

  /** `run_restore_from_bundle`. */
  function Restore(pl: Platform, keys: Keys, configure: Configure, b: IdentityBundle, s: Space): Outcome {
    match Mismatch(pl, keys, b)
    case Some(e) => Outcome(s, Err(e))
    case None =>
      match Resolve(s, PeerConfigPath(keys.peerId))
      case Some(config) => Outcome(s, Recorded(pl, keys, config))
      case None => Carry(RestorePlan(pl, keys, b), keys, configure, s)
  }

  // ---------- the loops ----------

  method WriteQuorums(peer: PeerSpace, qs: seq<Entity>)
    modifies peer
    ensures peer.log == old(peer.log) + QuorumsOps(peer.keys.peerId, qs)
    ensures peer.Snapshot() == ApplyAll(old(peer.Snapshot()), QuorumsOps(peer.keys.peerId, qs))
  {
    ghost var s, log, pid := peer.Snapshot(), peer.log, peer.keys.peerId;
    for i := 0 to |qs|
      invariant peer.log == log + QuorumsOps(pid, qs[..i])
      invariant peer.Snapshot() == ApplyAll(s, QuorumsOps(pid, qs[..i]))
    {
      assert qs[..i + 1][..i] == qs[..i];
      peer.WriteQuorum(qs[i]);
      JoinWrites(s, log, QuorumsOps(pid, qs[..i]), QuorumOps(pid, qs[i]));
    }
    assert qs[..|qs|] == qs;
  }

  method PutOne(peer: PeerSpace, e: Entity)
    modifies peer
    ensures peer.log == old(peer.log) + [Put(e)] && peer.Snapshot() == ApplyAll(old(peer.Snapshot()), [Put(e)])
  {
    ghost var s := peer.Snapshot();
    peer.PutEntity(e);
    ApplyMore(s, [], Put(e));
  }

  method PutEntities(peer: PeerSpace, es: seq<Entity>)
    modifies peer
    ensures peer.log == old(peer.log) + PutAll(es) && peer.Snapshot() == ApplyAll(old(peer.Snapshot()), PutAll(es))
  {
    ghost var s, log := peer.Snapshot(), peer.log;
    for i := 0 to |es|
      invariant peer.log == log + PutAll(es[..i])
      invariant peer.Snapshot() == ApplyAll(s, PutAll(es[..i]))
    {
      assert es[..i + 1][..i] == es[..i];
      PutOne(peer, es[i]);
      JoinWrites(s, log, PutAll(es[..i]), [Put(es[i])]);
    }
    assert es[..|es|] == es;
  }

  lemma {:induction false} SigningStops(pl: Platform, pid: string, sigs: seq<Entity>, k: nat)
    requires k <= |sigs| && !SignaturesOps(pl, pid, sigs[..k]).complete
    ensures SignaturesOps(pl, pid, sigs) == SignaturesOps(pl, pid, sigs[..k])
    decreases |sigs|
  {
    if k == |sigs| {
      assert sigs[..k] == sigs;
    } else {
      assert sigs[..|sigs| - 1][..k] == sigs[..k];
      SigningStops(pl, pid, sigs[..|sigs| - 1], k);
    }
  }

  method WriteSignatures(peer: PeerSpace, sigs: seq<Entity>) returns (ok: bool)
    modifies peer
    ensures var signing := SignaturesOps(peer.pl, peer.keys.peerId, sigs);
            && ok == signing.complete && peer.log == old(peer.log) + signing.ops
            && peer.Snapshot() == ApplyAll(old(peer.Snapshot()), signing.ops)
  {
    ghost var s, log, pl, pid := peer.Snapshot(), peer.log, peer.pl, peer.keys.peerId;
    for i := 0 to |sigs|
      invariant SignaturesOps(pl, pid, sigs[..i]).complete
      invariant peer.log == log + SignaturesOps(pl, pid, sigs[..i]).ops
      invariant peer.Snapshot() == ApplyAll(s, SignaturesOps(pl, pid, sigs[..i]).ops)
    {
      assert sigs[..i + 1][..i] == sigs[..i];
      var target := TargetOf(peer.pl, sigs[i]);
      if target.None? {
        SigningStops(pl, pid, sigs, i + 1);
        return false;
      }
      WriteSignature(peer, target.value, sigs[i]);
      JoinWrites(s, log, SignaturesOps(pl, pid, sigs[..i]).ops, SignatureOps(pid, target.value, sigs[i]));
    }
    assert sigs[..|sigs|] == sigs;
    ok := true;
  }

  method WriteSignature(peer: PeerSpace, target: Hash, sig: Entity)
    modifies peer
    ensures peer.log == old(peer.log) + SignatureOps(peer.keys.peerId, target, sig)
    ensures peer.Snapshot() == ApplyAll(old(peer.Snapshot()), SignatureOps(peer.keys.peerId, target, sig))
  {
    ghost var s := peer.Snapshot();
    peer.PutEntity(sig);
    peer.SetPath(SignaturePath(peer.keys.peerId, target), sig.hash);
    ApplyTwo(s, Put(sig), Bind(SignaturePath(peer.keys.peerId, target), sig.hash));
  }

  method BindRestored(peer: PeerSpace, att: Entity)
    modifies peer
    ensures peer.log == old(peer.log) + [CertBind(peer.pl, peer.keys.peerId, att)]
    ensures peer.Snapshot() == ApplyAll(old(peer.Snapshot()), [CertBind(peer.pl, peer.keys.peerId, att)])
  {
    ghost var s := peer.Snapshot();
    peer.SetPath(CertPath(peer.keys.peerId, RestoredCertPath(peer.pl, att)), att.hash);
    ApplyMore(s, [], CertBind(peer.pl, peer.keys.peerId, att));
  }

  method BindCerts(peer: PeerSpace, atts: seq<Entity>) returns (controller: Option<Hash>)
    modifies peer
    ensures controller == FirstController(peer.pl, atts)
    ensures peer.log == old(peer.log) + CertBinds(peer.pl, peer.keys.peerId, atts)
    ensures peer.Snapshot() == ApplyAll(old(peer.Snapshot()), CertBinds(peer.pl, peer.keys.peerId, atts))
  {
    ghost var s, log, pl, pid := peer.Snapshot(), peer.log, peer.pl, peer.keys.peerId;
    controller := None;
    for i := 0 to |atts|
      invariant controller == FirstController(pl, atts[..i])
      invariant peer.log == log + CertBinds(pl, pid, atts[..i])
      invariant peer.Snapshot() == ApplyAll(s, CertBinds(pl, pid, atts[..i]))
    {
      assert atts[..i + 1][..i] == atts[..i];
      BindRestored(peer, atts[i]);
      JoinWrites(s, log, CertBinds(pl, pid, atts[..i]), [CertBind(pl, pid, atts[i])]);
      if controller.None? && IsController(peer.pl, atts[i]) {
        controller := Some(atts[i].hash);
      }
    }
    assert atts[..|atts|] == atts;
  }

  /** The writes of a restore up to configure, in the order of the plan. */
  method WriteRestore(peer: PeerSpace, b: IdentityBundle) returns (r: Result<Minted, CeremonyError>)
    modifies peer
    ensures var plan := RestorePlan(peer.pl, peer.keys, b);
            r == plan.outcome && peer.log == old(peer.log) + plan.ops && peer.Snapshot() == ApplyAll(old(peer.Snapshot()), plan.ops)
  {
    ghost var s, log, pl, pid := peer.Snapshot(), peer.log, peer.pl, peer.keys.peerId;
    peer.PutEntity(b.identityEntity);
    ghost var first := [Put(b.identityEntity)];
    ApplyMore(s, [], first[0]);
    WriteQuorums(peer, b.quorums);
    JoinWrites(s, log, first, QuorumsOps(pid, b.quorums));
    if b.quorums == [] {
      assert first + QuorumsOps(pid, b.quorums) == first;
      return Err(NoQuorum);
    }
    PutEntities(peer, b.attestations);
    JoinWrites(s, log, first + QuorumsOps(pid, b.quorums), PutAll(b.attestations));
    var signed := WriteSignatures(peer, b.signatures);
    JoinWrites(s, log, first + QuorumsOps(pid, b.quorums) + PutAll(b.attestations), SignaturesOps(pl, pid, b.signatures).ops);
    if !signed { return Err(MalformedSignature); }
    var controller := BindCerts(peer, b.attestations);
    JoinWrites(s, log, BeforeBinds(pl, pid, b), CertBinds(pl, pid, b.attestations));
    if controller.None? { return Err(NoControllerCert); }
    r := Ok(Minted(b.quorums[0].hash, controller.value));
  }

  method RunRestore(peer: PeerSpace, b: IdentityBundle) returns (r: Result<CeremonyResult, CeremonyError>)
    modifies peer
    ensures Outcome(peer.Snapshot(), r) == Restore(peer.pl, peer.keys, peer.configure, b, old(peer.Snapshot()))
    ensures PublicKeyOf(peer.pl, b.identityEntity) != Some(peer.keys.publicKey) || b.identityHash != peer.keys.identity ==>
              r in {Err(NoPublicKey), Err(KeypairMismatch)} && peer.log == old(peer.log) && peer.Snapshot() == old(peer.Snapshot())
  {
    var mismatch := Mismatch(peer.pl, peer.keys, b);
    if mismatch.Some? { return Err(mismatch.value); }
    var config := Resolve(Space(peer.store, peer.index), PeerConfigPath(peer.keys.peerId));
    if config.Some? { return Recorded(peer.pl, peer.keys, config.value); }
    var minted := WriteRestore(peer, b);
    if minted.Err? { return Err(minted.error); }
    var issued := peer.Configuring(minted.value.quorum);
    if issued.None? { return Err(ConfigureFailed); }
    r := Ok(Bootstrapped(peer.keys.identity, minted.value.quorum, minted.value.cert, issued.value));
  }

  // ---------- what is bound where ----------

  predicate InBundle(b: IdentityBundle, e: Entity) {
    e == b.identityEntity || e in b.quorums || e in b.attestations || e in b.signatures
  }

  /** The writes before the certificates are bound: entities of the bundle, quorums and signatures. */
  ghost predicate EarlyWrite(pl: Platform, pid: string, b: IdentityBundle, op: Op) {
    || (op.Put? && InBundle(b, op.entity))
    || (exists q :: q in b.quorums && op == Bind(QuorumPath(pid, q.hash), q.hash))
    || (exists sig :: sig in b.signatures && TargetOf(pl, sig).Some? && op == Bind(SignaturePath(pid, TargetOf(pl, sig).value), sig.hash))
  }

  ghost predicate RestoreWrite(pl: Platform, pid: string, b: IdentityBundle, op: Op) {
    EarlyWrite(pl, pid, b, op) || exists a :: a in b.attestations && op == CertBind(pl, pid, a)
  }

  lemma {:induction false} QuorumsOpsAre(pid: string, qs: seq<Entity>, i: nat) returns (q: Entity)
    requires i < |QuorumsOps(pid, qs)|
    ensures q in qs && QuorumsOps(pid, qs)[i] in QuorumOps(pid, q)
    decreases |qs|
  {
    var front := qs[..|qs| - 1];
    if i < |QuorumsOps(pid, front)| {
      q := QuorumsOpsAre(pid, front, i);
    } else {
      q := qs[|qs| - 1];
    }
  }

  lemma {:induction false} PutAllAre(es: seq<Entity>, i: nat)
    requires i < |PutAll(es)|
    ensures |PutAll(es)| == |es| && PutAll(es)[i] == Put(es[i])
    decreases |es|
  {
    PutAllLength(es);
    if i < |es| - 1 { PutAllAre(es[..|es| - 1], i); } else { PutAllLength(es[..|es| - 1]); }
  }

  lemma {:induction false} PutAllLength(es: seq<Entity>)
    ensures |PutAll(es)| == |es|
    decreases |es|
  {
    if es != [] { PutAllLength(es[..|es| - 1]); }
  }

  lemma {:induction false} SignaturesOpsAre(pl: Platform, pid: string, sigs: seq<Entity>, i: nat) returns (sig: Entity)
    requires i < |SignaturesOps(pl, pid, sigs).ops|
    ensures sig in sigs && TargetOf(pl, sig).Some?
    ensures SignaturesOps(pl, pid, sigs).ops[i] in SignatureOps(pid, TargetOf(pl, sig).value, sig)
    decreases |sigs|
  {
    var front := sigs[..|sigs| - 1];
    if i < |SignaturesOps(pl, pid, front).ops| {
      sig := SignaturesOpsAre(pl, pid, front, i);
    } else {
      sig := sigs[|sigs| - 1];
    }
  }

  lemma {:induction false} CertBindsAre(pl: Platform, pid: string, atts: seq<Entity>, i: nat)
    requires i < |CertBinds(pl, pid, atts)|
    ensures i < |atts| && CertBinds(pl, pid, atts)[i] == CertBind(pl, pid, atts[i])
    decreases |atts|
  {
    CertBindsLength(pl, pid, atts);
    if i < |atts| - 1 { CertBindsAre(pl, pid, atts[..|atts| - 1], i); } else { CertBindsLength(pl, pid, atts[..|atts| - 1]); }
  }

  lemma {:induction false} CertBindsLength(pl: Platform, pid: string, atts: seq<Entity>)
    ensures |CertBinds(pl, pid, atts)| == |atts|
    decreases |atts|
  {
    if atts != [] { CertBindsLength(pl, pid, atts[..|atts| - 1]); }
  }

  /** Every write before the certificates are bound is of a known kind. */
  lemma BeforeBindsAre(pl: Platform, pid: string, b: IdentityBundle, i: nat)
    requires i < |BeforeBinds(pl, pid, b)|
    ensures EarlyWrite(pl, pid, b, BeforeBinds(pl, pid, b)[i])
  {
    var qs, ps := QuorumsOps(pid, b.quorums), PutAll(b.attestations);
    var j := i - 1;
    if 0 <= j < |qs| {
      var q := QuorumsOpsAre(pid, b.quorums, j);
      assert BeforeBinds(pl, pid, b)[i] == qs[j];
    } else if |qs| <= j < |qs| + |ps| {
      PutAllAre(b.attestations, j - |qs|);
      assert BeforeBinds(pl, pid, b)[i] == ps[j - |qs|];
    } else if |qs| + |ps| <= j {
      var sig := SignaturesOpsAre(pl, pid, b.signatures, j - |qs| - |ps|);
      assert BeforeBinds(pl, pid, b)[i] == SignaturesOps(pl, pid, b.signatures).ops[j - |qs| - |ps|];
    }
  }

  /** The writes of a complete restore. */
  function AllWrites(pl: Platform, pid: string, b: IdentityBundle): seq<Op> {
    BeforeBinds(pl, pid, b) + CertBinds(pl, pid, b.attestations)
  }

  lemma AllWritesAre(pl: Platform, pid: string, b: IdentityBundle, i: nat)
    requires i < |AllWrites(pl, pid, b)|
    ensures RestoreWrite(pl, pid, b, AllWrites(pl, pid, b)[i])
  {
    var n := |BeforeBinds(pl, pid, b)|;
    if i < n {
      BeforeBindsAre(pl, pid, b, i);
    } else {
      CertBindsAre(pl, pid, b.attestations, i - n);
      assert b.attestations[i - n] in b.attestations;
    }
  }

  /** The restored path is the canonical path of some mode. */
  lemma RestoredIsCanonical(pl: Platform, att: Entity) returns (mode: PublishMode, contact: Option<Hash>)
    ensures CanonicalCertPath(mode, contact, att.hash) == Some(RestoredCertPath(pl, att))
  {
    var props := PropertiesOf(pl, att);
    mode, contact := Internal, None;
    if ReadMode(props).Some? && CanonicalCertPath(ReadMode(props).value, ReadContactId(props), att.hash).Some? {
      mode, contact := ReadMode(props).value, ReadContactId(props);
    }
  }

  lemma CertBindShape(pl: Platform, pid: string, att: Entity)
    ensures var p := CertBind(pl, pid, att).path;
            |p| > |pid| + 19 && p[|pid| + 9] == 'i' && (p[|pid| + 18] == 'p' ==> p[|pid| + 19] == 'u')
  {
    var mode, contact := RestoredIsCanonical(pl, att);
    CertPathShape(pid, mode, contact, att.hash);
  }

  /** Different certificates are restored to different paths. */
  lemma RestoredPathsDiffer(pl: Platform, pid: string, a: Entity, c: Entity)
    requires CertBind(pl, pid, a).path == CertBind(pl, pid, c).path
    ensures a.hash == c.hash
  {
    var m, x := RestoredIsCanonical(pl, a);
    var n, y := RestoredIsCanonical(pl, c);
    PrefixedEqual("/" + pid + "/", RestoredCertPath(pl, a), RestoredCertPath(pl, c));
    CanonicalCertPathInjective(m, x, a.hash, n, y, c.hash);
  }

  lemma QuorumPathInjective(pid: string, g: Hash, h: Hash)
    requires QuorumPath(pid, g) == QuorumPath(pid, h)
    ensures g == h
  {
    var dir := "/" + pid + "/system/quorum/";
    assert QuorumPath(pid, g) == dir + HexSegment(g) && QuorumPath(pid, h) == dir + HexSegment(h);
    PrefixedEqual(dir, HexSegment(g), HexSegment(h));
    HexSegmentInjective(g, h);
  }

  /** Nothing but the quorum is bound at a quorum's path. */
  lemma AtQuorumPath(pl: Platform, pid: string, b: IdentityBundle, op: Op, h: Hash)
    requires RestoreWrite(pl, pid, b, op) && op.Bind? && op.path == QuorumPath(pid, h)
    ensures op.hash == h
  {
    QuorumPathShape(pid, h);
    if q :| q in b.quorums && op == Bind(QuorumPath(pid, q.hash), q.hash) {
      QuorumPathInjective(pid, q.hash, h);
    } else if sig :| sig in b.signatures && TargetOf(pl, sig).Some? && op == Bind(SignaturePath(pid, TargetOf(pl, sig).value), sig.hash) {
      SignaturePathShape(pid, TargetOf(pl, sig).value);
    } else {
      var a :| a in b.attestations && op == CertBind(pl, pid, a);
      CertBindShape(pl, pid, a);
    }
  }

  /** At a signature path only a signature of that target is bound. */
  lemma AtSignaturePath(pl: Platform, pid: string, b: IdentityBundle, op: Op, t: Hash) returns (sig: Entity)
    requires RestoreWrite(pl, pid, b, op) && op.Bind? && op.path == SignaturePath(pid, t)
    ensures sig in b.signatures && TargetOf(pl, sig) == Some(t) && op.hash == sig.hash
  {
    SignaturePathShape(pid, t);
    if q :| q in b.quorums && op == Bind(QuorumPath(pid, q.hash), q.hash) {
      QuorumPathShape(pid, q.hash);
    } else if a :| a in b.attestations && op == CertBind(pl, pid, a) {
      CertBindShape(pl, pid, a);
    }
    sig :| sig in b.signatures && TargetOf(pl, sig).Some? && op == Bind(SignaturePath(pid, TargetOf(pl, sig).value), sig.hash);
    SignaturePathTarget(pid, t, pid, TargetOf(pl, sig).value);
  }

  /** At a certificate's path only that certificate is bound. */
  lemma AtCertPath(pl: Platform, pid: string, b: IdentityBundle, op: Op, att: Entity)
    requires RestoreWrite(pl, pid, b, op) && op.Bind? && op.path == CertBind(pl, pid, att).path
    ensures op.hash == att.hash
  {
    CertBindShape(pl, pid, att);
    if q :| q in b.quorums && op == Bind(QuorumPath(pid, q.hash), q.hash) {
      QuorumPathShape(pid, q.hash);
    } else if sig :| sig in b.signatures && TargetOf(pl, sig).Some? && op == Bind(SignaturePath(pid, TargetOf(pl, sig).value), sig.hash) {
      SignaturePathShape(pid, TargetOf(pl, sig).value);
    } else {
      var a :| a in b.attestations && op == CertBind(pl, pid, a);
      RestoredPathsDiffer(pl, pid, a, att);
    }
  }

  lemma IssuedCapShape(pid: string, p: Path)
    requires IssuedCapPath(pid, p)
    ensures |p| > |pid| + 9 && p[|pid| + 9] == 'c'
  {
    var head := "/" + pid + "/system/capability";
    assert head[|pid| + 9] == 'c';
    assert head <= p;
  }

  /** Neither the peer-config nor an issued capability is touched. */
  lemma NotPeerConfig(pl: Platform, pid: string, b: IdentityBundle, op: Op)
    requires RestoreWrite(pl, pid, b, op) && op.Bind?
    ensures op.path != PeerConfigPath(pid) && !IssuedCapPath(pid, op.path)
  {
    PeerConfigPathShape(pid);
    if IssuedCapPath(pid, op.path) { IssuedCapShape(pid, op.path); }
    if q :| q in b.quorums && op == Bind(QuorumPath(pid, q.hash), q.hash) {
      QuorumPathShape(pid, q.hash);
    } else if sig :| sig in b.signatures && TargetOf(pl, sig).Some? && op == Bind(SignaturePath(pid, TargetOf(pl, sig).value), sig.hash) {
      SignaturePathShape(pid, TargetOf(pl, sig).value);
    } else {
      var a :| a in b.attestations && op == CertBind(pl, pid, a);
      CertBindShape(pl, pid, a);
    }
  }

  lemma EarlySparesCerts(pl: Platform, pid: string, b: IdentityBundle, op: Op, att: Entity)
    requires EarlyWrite(pl, pid, b, op) && op.Bind?
    ensures op.path != CertBind(pl, pid, att).path
  {
    CertBindShape(pl, pid, att);
    if q :| q in b.quorums && op == Bind(QuorumPath(pid, q.hash), q.hash) {
      QuorumPathShape(pid, q.hash);
    } else {
      var sig :| sig in b.signatures && TargetOf(pl, sig).Some? && op == Bind(SignaturePath(pid, TargetOf(pl, sig).value), sig.hash);
      SignaturePathShape(pid, TargetOf(pl, sig).value);
    }
  }

  lemma PlanIsPrefix(pl: Platform, keys: Keys, b: IdentityBundle)
    ensures RestorePlan(pl, keys, b).ops <= AllWrites(pl, keys.peerId, b)
    ensures |RestorePlan(pl, keys, b).ops| > |BeforeBinds(pl, keys.peerId, b)| ==> SignaturesOps(pl, keys.peerId, b.signatures).complete
    ensures RestorePlan(pl, keys, b).outcome.Ok? ==>
              RestorePlan(pl, keys, b).ops == AllWrites(pl, keys.peerId, b) && SignaturesOps(pl, keys.peerId, b.signatures).complete
  {}

  /** Restore is restartable too: stopped after any of its writes and run again, it comes out as one uninterrupted run, but for a
      peer-config path that was bound to a hash which was not stored and which these writes store. */
  lemma {:induction false} RestoreIsRestartable(pl: Platform, keys: Keys, configure: Configure, b: IdentityBundle, s: Space, k: nat)
    requires k <= |RestorePlan(pl, keys, b).ops| && Mismatch(pl, keys, b).None? && Resolve(s, PeerConfigPath(keys.peerId)).None?
    ensures var stopped := ApplyAll(s, RestorePlan(pl, keys, b).ops[..k]);
            Restore(pl, keys, configure, b, stopped) == Restore(pl, keys, configure, b, s) <==>
            !Awakens(RestorePlan(pl, keys, b).ops[..k], s, keys.peerId)
  {
    var plan := RestorePlan(pl, keys, b);
    var stopped := ApplyAll(s, plan.ops[..k]);
    RewritingFromStart(s, plan.ops, k);
    assert Carry(plan, keys, configure, stopped) == Carry(plan, keys, configure, s);
    assert Restore(pl, keys, configure, b, s) == Carry(plan, keys, configure, s);
    RestoreSparesPeerConfig(pl, keys, b, k);
    GuardAfterWrites(s, plan.ops[..k], keys.peerId);
    RestoreErrors(pl, keys, b);
  }

  lemma {:induction false} RestoreErrors(pl: Platform, keys: Keys, b: IdentityBundle)
    ensures RestorePlan(pl, keys, b).outcome.Err? ==> RestorePlan(pl, keys, b).outcome.error != MalformedConfig
  {}

  lemma {:induction false} RestoreSparesPeerConfig(pl: Platform, keys: Keys, b: IdentityBundle, k: nat)
    requires k <= |RestorePlan(pl, keys, b).ops|
    ensures LastBind(RestorePlan(pl, keys, b).ops[..k], PeerConfigPath(keys.peerId)).None?
  {
    var ops, p := RestorePlan(pl, keys, b).ops[..k], PeerConfigPath(keys.peerId);
    PlanIsPrefix(pl, keys, b);
    forall j | 0 <= j < |ops| ensures !(ops[j].Bind? && ops[j].path == p) {
      assert ops[j] == AllWrites(pl, keys.peerId, b)[j];
      AllWritesAre(pl, keys.peerId, b, j);
      if ops[j].Bind? { NotPeerConfig(pl, keys.peerId, b, ops[j]); }
    }
    Unbound(ops, p);
  }

  // ---------- everything is stored before it is bound ----------

  lemma StoredFirstConcat(a: seq<Op>, b: seq<Op>)
    requires StoredFirst(a)
    requires forall i :: 0 <= i < |b| && b[i].Bind? ==> PutBefore(b, i, b[i].hash) || PutBefore(a, |a|, b[i].hash)
    ensures StoredFirst(a + b)
  {
    var ops := a + b;
    forall i | 0 <= i < |ops| && ops[i].Bind? ensures PutBefore(ops, i, ops[i].hash) {
      var h := ops[i].hash;
      if i < |a| || !PutBefore(b, i - |a|, h) {
        var j :| 0 <= j < i && j < |a| && a[j].Put? && a[j].entity.hash == h;
        assert ops[j] == a[j];
      } else {
        var j :| 0 <= j < i - |a| && b[j].Put? && b[j].entity.hash == h;
        assert ops[|a| + j] == b[j];
      }
    }
  }

  lemma PairStoredFirst(a: seq<Op>, e: Entity, p: Path)
    requires StoredFirst(a)
    ensures StoredFirst(a + [Put(e), Bind(p, e.hash)])
  {
    var b := [Put(e), Bind(p, e.hash)];
    assert b[0].Put? && b[0].entity.hash == e.hash;
    assert PutBefore(b, 1, e.hash);
    StoredFirstConcat(a, b);
  }

  lemma {:induction false} QuorumsStoredFirst(pid: string, qs: seq<Entity>)
    ensures StoredFirst(QuorumsOps(pid, qs))
    decreases |qs|
  {
    if qs != [] {
      QuorumsStoredFirst(pid, qs[..|qs| - 1]);
      PairStoredFirst(QuorumsOps(pid, qs[..|qs| - 1]), qs[|qs| - 1], QuorumPath(pid, qs[|qs| - 1].hash));
    }
  }

  lemma {:induction false} SignaturesStoredFirst(pl: Platform, pid: string, sigs: seq<Entity>)
    ensures StoredFirst(SignaturesOps(pl, pid, sigs).ops)
    decreases |sigs|
  {
    if sigs != [] {
      var front, last := sigs[..|sigs| - 1], sigs[|sigs| - 1];
      SignaturesStoredFirst(pl, pid, front);
      if SignaturesOps(pl, pid, front).complete && TargetOf(pl, last).Some? {
        PairStoredFirst(SignaturesOps(pl, pid, front).ops, last, SignaturePath(pid, TargetOf(pl, last).value));
      }
    }
  }

  lemma AllStoredFirst(pl: Platform, pid: string, b: IdentityBundle)
    ensures StoredFirst(AllWrites(pl, pid, b))
  {
    var first := [Put(b.identityEntity)];
    var qs, ps, ss := QuorumsOps(pid, b.quorums), PutAll(b.attestations), SignaturesOps(pl, pid, b.signatures).ops;
    QuorumsStoredFirst(pid, b.quorums);
    SignaturesStoredFirst(pl, pid, b.signatures);
    StoredFirstConcat(first, qs);
    forall i | 0 <= i < |ps| ensures ps[i].Put? { PutAllAre(b.attestations, i); }
    StoredFirstConcat(first + qs, ps);
    StoredFirstConcat(first + qs + ps, ss);
    CertsStoredFirst(pl, pid, b);
  }

  lemma AttestationStoredEarly(pl: Platform, pid: string, b: IdentityBundle, i: nat)
    requires i < |b.attestations|
    ensures PutBefore(BeforeBinds(pl, pid, b), |BeforeBinds(pl, pid, b)|, b.attestations[i].hash)
  {
    var early := BeforeBinds(pl, pid, b);
    var n := 1 + |QuorumsOps(pid, b.quorums)|;
    PutAllLength(b.attestations);
    PutAllAre(b.attestations, i);
    assert early[n + i] == PutAll(b.attestations)[i];
  }

  lemma CertsStoredFirst(pl: Platform, pid: string, b: IdentityBundle)
    requires StoredFirst(BeforeBinds(pl, pid, b))
    ensures StoredFirst(AllWrites(pl, pid, b))
  {
    var early, certs := BeforeBinds(pl, pid, b), CertBinds(pl, pid, b.attestations);
    forall i | 0 <= i < |certs| && certs[i].Bind? ensures PutBefore(early, |early|, certs[i].hash) {
      CertBindsAre(pl, pid, b.attestations, i);
      AttestationStoredEarly(pl, pid, b, i);
    }
    StoredFirstConcat(early, certs);
  }

  // ---------- what the writes leave bound ----------

  lemma BoundTo(s: Space, ops: seq<Op>, i: nat, p: Path, h: Hash)
    requires i < |ops| && ops[i].Bind? && ops[i].path == p
    requires forall j :: 0 <= j < |ops| && ops[j].Bind? && ops[j].path == p ==> ops[j].hash == h
    ensures At(ApplyAll(s, ops).index, p) == Some(h)
  {
    BoundSomewhere(ops, i, p);
    var j := LastBindIsThere(ops, p);
    AfterWrites(s, ops, p, h);
  }

  lemma {:induction false} BoundSomewhere(ops: seq<Op>, i: nat, p: Path)
    requires i < |ops| && ops[i].Bind? && ops[i].path == p
    ensures LastBind(ops, p).Some?
    decreases |ops|
  {
    if i < |ops| - 1 {
      assert ops[..|ops| - 1][i] == ops[i];
      BoundSomewhere(ops[..|ops| - 1], i, p);
    }
  }

  lemma {:induction false} QuorumBoundAt(pid: string, qs: seq<Entity>, q: Entity) returns (i: nat)
    requires q in qs
    ensures i < |QuorumsOps(pid, qs)| && QuorumsOps(pid, qs)[i] == Bind(QuorumPath(pid, q.hash), q.hash)
    decreases |qs|
  {
    var front, last := qs[..|qs| - 1], qs[|qs| - 1];
    if q == last {
      i := |QuorumsOps(pid, qs)| - 1;
    } else {
      i := QuorumBoundAt(pid, front, q);
    }
  }

  lemma {:induction false} SignatureBoundAt(pl: Platform, pid: string, sigs: seq<Entity>, sig: Entity) returns (i: nat)
    requires sig in sigs && SignaturesOps(pl, pid, sigs).complete
    ensures TargetOf(pl, sig).Some? && i < |SignaturesOps(pl, pid, sigs).ops|
    ensures SignaturesOps(pl, pid, sigs).ops[i] == Bind(SignaturePath(pid, TargetOf(pl, sig).value), sig.hash)
    decreases |sigs|
  {
    var front, last := sigs[..|sigs| - 1], sigs[|sigs| - 1];
    if sig == last {
      i := |SignaturesOps(pl, pid, sigs).ops| - 1;
    } else {
      i := SignatureBoundAt(pl, pid, front, sig);
    }
  }

  lemma {:induction false} QuorumWrittenAt(pl: Platform, pid: string, b: IdentityBundle, q: Entity) returns (at: nat)
    requires q in b.quorums
    ensures at < |BeforeBinds(pl, pid, b)| <= |AllWrites(pl, pid, b)|
    ensures AllWrites(pl, pid, b)[at] == Bind(QuorumPath(pid, q.hash), q.hash)
  {
    var i := QuorumBoundAt(pid, b.quorums, q);
    at := 1 + i;
    assert BeforeBinds(pl, pid, b)[at] == QuorumsOps(pid, b.quorums)[i];
  }

  lemma {:induction false} SignatureWrittenAt(pl: Platform, pid: string, b: IdentityBundle, sig: Entity) returns (at: nat)
    requires sig in b.signatures && SignaturesOps(pl, pid, b.signatures).complete
    ensures TargetOf(pl, sig).Some? && at < |BeforeBinds(pl, pid, b)| <= |AllWrites(pl, pid, b)|
    ensures AllWrites(pl, pid, b)[at] == Bind(SignaturePath(pid, TargetOf(pl, sig).value), sig.hash)
  {
    var i := SignatureBoundAt(pl, pid, b.signatures, sig);
    at := 1 + |QuorumsOps(pid, b.quorums)| + |PutAll(b.attestations)| + i;
    assert BeforeBinds(pl, pid, b)[at] == SignaturesOps(pl, pid, b.signatures).ops[i];
  }

  lemma {:induction false} QuorumHeld(pl: Platform, pid: string, b: IdentityBundle, s: Space, k: nat, q: Entity)
    requires |BeforeBinds(pl, pid, b)| <= k <= |AllWrites(pl, pid, b)| && q in b.quorums
    ensures At(ApplyAll(s, AllWrites(pl, pid, b)[..k]).index, QuorumPath(pid, q.hash)) == Some(q.hash)
  {
    var all, p := AllWrites(pl, pid, b), QuorumPath(pid, q.hash);
    var at := QuorumWrittenAt(pl, pid, b, q);
    forall j | 0 <= j < k && all[j].Bind? && all[j].path == p ensures all[j].hash == q.hash {
      AllWritesAre(pl, pid, b, j);
      AtQuorumPath(pl, pid, b, all[j], q.hash);
    }
    BoundTo(s, all[..k], at, p, q.hash);
  }

  /** At the path of a signature's target some signature of that target is bound. */
  lemma {:induction false} SignatureHeld(pl: Platform, pid: string, b: IdentityBundle, s: Space, k: nat, sig: Entity) returns (held: Entity)
    requires |BeforeBinds(pl, pid, b)| <= k <= |AllWrites(pl, pid, b)| && sig in b.signatures
    requires SignaturesOps(pl, pid, b.signatures).complete
    ensures TargetOf(pl, sig).Some? && held in b.signatures && TargetOf(pl, held) == TargetOf(pl, sig)
    ensures At(ApplyAll(s, AllWrites(pl, pid, b)[..k]).index, SignaturePath(pid, TargetOf(pl, sig).value)) == Some(held.hash)
  {
    var ops := AllWrites(pl, pid, b)[..k];
    var at := SignatureWrittenAt(pl, pid, b, sig);
    var t := TargetOf(pl, sig).value;
    var p := SignaturePath(pid, t);
    BoundSomewhere(ops, at, p);
    var j := LastBindIsThere(ops, p);
    AllWritesAre(pl, pid, b, j);
    held := AtSignaturePath(pl, pid, b, ops[j], t);
    AfterWrites(s, ops, p, held.hash);
  }

  lemma CertBoundAt(pl: Platform, pid: string, b: IdentityBundle, att: Entity) returns (at: nat)
    requires att in b.attestations
    ensures at < |AllWrites(pl, pid, b)| && AllWrites(pl, pid, b)[at] == CertBind(pl, pid, att)
  {
    var i :| 0 <= i < |b.attestations| && b.attestations[i] == att;
    CertBindsLength(pl, pid, b.attestations);
    CertBindsAre(pl, pid, b.attestations, i);
    at := |BeforeBinds(pl, pid, b)| + i;
  }

  lemma CertHeld(pl: Platform, pid: string, b: IdentityBundle, s: Space, att: Entity)
    requires att in b.attestations
    ensures At(ApplyAll(s, AllWrites(pl, pid, b)).index, CertBind(pl, pid, att).path) == Some(att.hash)
  {
    var ops, p := AllWrites(pl, pid, b), CertBind(pl, pid, att).path;
    var at := CertBoundAt(pl, pid, b, att);
    forall j | 0 <= j < |ops| && ops[j].Bind? && ops[j].path == p ensures ops[j].hash == att.hash {
      AllWritesAre(pl, pid, b, j);
      AtCertPath(pl, pid, b, ops[j], att);
    }
    BoundTo(s, ops, at, p, att.hash);
  }

  /** Wherever a restore stops, each path it bound leads to a stored entity, and an attestation is bound at its path only
      when every quorum of the bundle is bound and every signature's target has a signature bound. */
  lemma RestorePrefixesAreOrderly(pl: Platform, keys: Keys, b: IdentityBundle, s: Space, k: nat)
    requires k <= |RestorePlan(pl, keys, b).ops|
    ensures var t := ApplyAll(s, RestorePlan(pl, keys, b).ops[..k]);
            && NewBindingsStored(s, t)
            && forall att :: att in b.attestations && At(t.index, CertBind(pl, keys.peerId, att).path) != At(s.index, CertBind(pl, keys.peerId, att).path) ==>
                 StackBound(pl, keys.peerId, b, t)
  {
    var pid := keys.peerId;
    PlanIsPrefix(pl, keys, b);
    var all := AllWrites(pl, pid, b);
    assert RestorePlan(pl, keys, b).ops[..k] == all[..k];
    AllStoredFirst(pl, pid, b);
    PrefixKeepsBindingsStored(s, all, k);
    var t := ApplyAll(s, all[..k]);
    forall att | att in b.attestations && At(t.index, CertBind(pl, pid, att).path) != At(s.index, CertBind(pl, pid, att).path)
      ensures StackBound(pl, pid, b, t)
    {
      if k <= |BeforeBinds(pl, pid, b)| {
        EarlyPrefixSparesCert(pl, pid, b, s, k, att);
      } else {
        StackIsBound(pl, pid, b, s, k);
      }
    }
  }

  ghost predicate StackBound(pl: Platform, pid: string, b: IdentityBundle, t: Space) {
    && (forall q :: q in b.quorums ==> At(t.index, QuorumPath(pid, q.hash)) == Some(q.hash))
    && (forall sig :: sig in b.signatures ==> SignatureBound(pl, pid, b, t, sig))
  }

  /** The path of the signature's target leads to a signature of the bundle with that target. */
  ghost predicate SignatureBound(pl: Platform, pid: string, b: IdentityBundle, t: Space, sig: Entity) {
    && TargetOf(pl, sig).Some?
    && exists held :: held in b.signatures && TargetOf(pl, held) == TargetOf(pl, sig) &&
                      At(t.index, SignaturePath(pid, TargetOf(pl, sig).value)) == Some(held.hash)
  }

  lemma StackIsBound(pl: Platform, pid: string, b: IdentityBundle, s: Space, k: nat)
    requires |BeforeBinds(pl, pid, b)| <= k <= |AllWrites(pl, pid, b)| && SignaturesOps(pl, pid, b.signatures).complete
    ensures StackBound(pl, pid, b, ApplyAll(s, AllWrites(pl, pid, b)[..k]))
  {
    var t := ApplyAll(s, AllWrites(pl, pid, b)[..k]);
    forall q | q in b.quorums ensures At(t.index, QuorumPath(pid, q.hash)) == Some(q.hash) {
      QuorumHeld(pl, pid, b, s, k, q);
    }
    forall sig | sig in b.signatures ensures SignatureBound(pl, pid, b, t, sig) {
      var held := SignatureHeld(pl, pid, b, s, k, sig);
    }
  }

  lemma EarlyPrefixSparesCert(pl: Platform, pid: string, b: IdentityBundle, s: Space, k: nat, att: Entity)
    requires k <= |BeforeBinds(pl, pid, b)|
    ensures var p := CertBind(pl, pid, att).path;
            At(ApplyAll(s, AllWrites(pl, pid, b)[..k]).index, p) == At(s.index, p)
  {
    var ops, p := AllWrites(pl, pid, b)[..k], CertBind(pl, pid, att).path;
    forall j | 0 <= j < k ensures !(ops[j].Bind? && ops[j].path == p) {
      assert ops[j] == BeforeBinds(pl, pid, b)[j];
      BeforeBindsAre(pl, pid, b, j);
      if ops[j].Bind? { EarlySparesCerts(pl, pid, b, ops[j], att); }
    }
    Unbound(ops, p);
    AfterWrites(s, ops, p, att.hash);
  }
}
