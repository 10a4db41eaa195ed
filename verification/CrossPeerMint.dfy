/**
 Minting a cross-peer dispatch capability under the grant a connection conferred, and what the mint
 leaves behind for the bundle walk.
 */
module CrossPeerMint {
  import opened Wrappers
  import opened Substrate
  import opened CrossPeerCap

  datatype Token = Token(fields: ChainFields, grants: seq<Grant>, createdAt: nat)

  /** The peer's key and the hashing of the two entities a mint builds.  Signing has no other input than the
      message; building the capability entity may fail. */
  datatype Minter = Minter(
    peerId: string,
    identity: Hash,
    capHash: Token -> Option<Hash>,
    sign: Hash -> Bytes,
    sigHash: (Claim, Bytes) -> Hash)

  /** One call: its arguments, what the connection pool holds for the remote peer, the clock, and
      which store writes of the call would succeed. */
  datatype Request = Request(
    remote: string,
    grants: seq<Grant>,
    expiresAt: Option<nat>,
    connection: Option<View>,
    now: nat,
    putParent: bool,
    putCap: bool,
    putSig: bool)

  datatype MintError =
    | NoRemote
    | NoGrants
    | NotConnected
    | StoreRefused
    | NoIdentity
    | MissingParent
    | MissingGrantee
    | BuildFailed
    | PathTaken

  datatype Peer = Peer(store: Store, index: Index)

  datatype Outcome = Outcome(peer: Peer, result: Result<View, MintError>)

  predicate IsZero(h: Hash) {
    h.format == SHA256_FORMAT && forall i :: 0 <= i < |h.digest| ==> h.digest[i] == 0
  }

  /** A content-store write: a hash that is already present is left alone. */
  function PutView(store: Store, v: View): Store {
    if v.hash in store then store else store[v.hash := v]
  }

  predicate Refused(store: Store, v: View, ok: bool) {
    v.hash !in store && !ok
  }

  function TokenOf(m: Minter, parent: View, q: Request): Token {
    Token(ChainFields(Single(m.identity), m.identity, Some(parent.hash), None, q.expiresAt), q.grants, q.now)
  }

  function CapView(h: Hash, t: Token): View {
    View(h, TYPE_CAPABILITY, Some(t.fields), Some(t.grants), None, None, None)
  }

  function SigView(m: Minter, cap: Hash): View {
    var claim := Claim(cap, m.identity);
    View(m.sigHash(claim, m.sign(cap)), TYPE_SIGNATURE, None, None, None, Some(claim), Some(m.sign(cap)))
  }

  /** Everything from the persisted grant on. */
  function MintUnder(peer: Peer, m: Minter, parent: View, q: Request): Outcome {
    if m.identity !in peer.store then Outcome(peer, Err(NoIdentity))
    else if IsZero(parent.hash) then Outcome(peer, Err(MissingParent))
    else if IsZero(m.identity) then Outcome(peer, Err(MissingGrantee))
    else
      match m.capHash(TokenOf(m, parent, q))
      case None => Outcome(peer, Err(BuildFailed))
      case Some(h) =>
        var cap, sig := CapView(h, TokenOf(m, parent, q)), SigView(m, h);
        if Refused(peer.store, cap, q.putCap) then Outcome(peer, Err(StoreRefused))
        else
          var withCap := peer.(store := PutView(peer.store, cap));
          if Refused(withCap.store, sig, q.putSig) then Outcome(withCap, Err(StoreRefused))
          else
            var withSig := withCap.(store := PutView(withCap.store, sig));
            var path := SignaturePath(m.peerId, h);
            if path !in peer.index then Outcome(withSig.(index := peer.index[path := sig.hash]), Ok(cap))
            else Outcome(withSig, if peer.index[path] == sig.hash then Ok(cap) else Err(PathTaken))
  }

  /** `mint_cross_peer_chain_capability`. */
  function Mint(peer: Peer, m: Minter, q: Request): Outcome {
    if q.remote == "" then Outcome(peer, Err(NoRemote))
    else if q.grants == [] then Outcome(peer, Err(NoGrants))
    else
      match q.connection
      case None => Outcome(peer, Err(NotConnected))
      case Some(parent) =>
        if Refused(peer.store, parent, q.putParent) then Outcome(peer, Err(StoreRefused))
        else MintUnder(peer.(store := PutView(peer.store, parent)), m, parent, q)
  }

  /** What a caller is handed: a capability of its own for the grants and expiry it asked for, under the connection grant, hashed as a token of
      this moment. */
  predicate LeafFor(m: Minter, q: Request, leaf: View) {
    && q.connection.Some? && leaf.entityType == TYPE_CAPABILITY
    && leaf.fields.Some? && leaf.grants == Some(q.grants)
    && var f := leaf.fields.value;
    && f.granter == Single(m.identity) && f.grantee == m.identity && f.parent == Some(q.connection.value.hash)
    && f.notBefore.None? && f.expiresAt == q.expiresAt
    && m.capHash(Token(f, q.grants, q.now)) == Some(leaf.hash)
  }

  /** A signature by this peer of the capability. */
  predicate SignatureFor(m: Minter, cap: Hash, v: View) {
    && v.entityType == TYPE_SIGNATURE && v.claim == Some(Claim(cap, m.identity)) && v.signature == Some(m.sign(cap))
    && v.hash == m.sigHash(Claim(cap, m.identity), m.sign(cap))
  }

  /** What a successful mint leaves: the leaf, its grant, the identity and the signature are stored, everything newly stored is the grant, the
      leaf or its signature, and the peer's pointer path for the leaf leads to the signature. */
  ghost predicate MintedIn(m: Minter, q: Request, leaf: View, before: Peer, after: Peer)
    requires q.connection.Some?
  {
    var sig := m.sigHash(Claim(leaf.hash, m.identity), m.sign(leaf.hash));
    && {leaf.hash, sig, q.connection.value.hash, m.identity} <= after.store.Keys
    && At(after.index, SignaturePath(m.peerId, leaf.hash)) == Some(sig)
    && forall h :: h in after.store && h !in before.store ==>
         after.store[h] == q.connection.value || after.store[h] == leaf || SignatureFor(m, leaf.hash, after.store[h])
  }

  /** The peer whose store and index the mint writes. */
  class PeerContext {
    const minter: Minter
    var store: Store
    var index: Index

    constructor (minter: Minter, store: Store, index: Index)
      ensures this.minter == minter && Snapshot() == Peer(store, index)
    {
      this.minter, this.store, this.index := minter, store, index;
    }

    function Snapshot(): Peer
      reads this
    {
      Peer(store, index)
    }

    method Put(v: View, ok: bool) returns (accepted: bool)
      modifies this`store
      ensures accepted == !Refused(old(store), v, ok)
      ensures store == if accepted then PutView(old(store), v) else old(store)
    {
      accepted := v.hash in store || ok;
      if v.hash !in store && ok { store := store[v.hash := v]; }
    }

    method MintCapability(q: Request) returns (result: Result<View, MintError>)
      modifies this
      ensures Outcome(Snapshot(), result) == Mint(old(Snapshot()), minter, q)
      ensures result.Ok? ==> LeafFor(minter, q, result.value) && MintedIn(minter, q, result.value, old(Snapshot()), Snapshot())
    {
      MintMakes(Snapshot(), minter, q);
      if q.remote == "" { return Err(NoRemote); }
      if q.grants == [] { return Err(NoGrants); }
      if q.connection.None? { return Err(NotConnected); }
      var parent := q.connection.value;
      var ok := Put(parent, q.putParent);
      if !ok { return Err(StoreRefused); }
      if minter.identity !in store { return Err(NoIdentity); }
      if IsZero(parent.hash) { return Err(MissingParent); }
      if IsZero(minter.identity) { return Err(MissingGrantee); }
      var token := TokenOf(minter, parent, q);
      var h := minter.capHash(token);
      if h.None? { return Err(BuildFailed); }
      var cap, sig := CapView(h.value, token), SigView(minter, h.value);
      ok := Put(cap, q.putCap);
      if !ok { return Err(StoreRefused); }
      ok := Put(sig, q.putSig);
      if !ok { return Err(StoreRefused); }
      var path := SignaturePath(minter.peerId, h.value);
      if path in index {
        if index[path] != sig.hash { return Err(PathTaken); }
      } else {
        index := index[path := sig.hash];
      }
      result := Ok(cap);
    }
  }

  // ---------- runs of mints ----------

  function MintAll(peer: Peer, m: Minter, qs: seq<Request>): Peer
    decreases |qs|
  {
    if qs == [] then peer else MintAll(Mint(peer, m, qs[0]).peer, m, qs[1..])
  }

  /** Nothing stored or bound before is lost or changed. */
  ghost predicate Extends(before: Peer, after: Peer) {
    && (forall h :: h in before.store ==> h in after.store && after.store[h] == before.store[h])
    && (forall p :: p in before.index ==> p in after.index && after.index[p] == before.index[p])
  }

  /** Every binding gained is this peer's own signature path of some capability, bound to the hash
      of the signature deterministic signing gives, and that signature is stored. */
  ghost predicate GainsOwnSignatures(before: Peer, after: Peer, m: Minter) {
    forall p :: p in after.index && p !in before.index ==>
                  exists cap :: p == SignaturePath(m.peerId, cap) && after.index[p] == SigView(m, cap).hash &&
                                after.index[p] in after.store
  }

  /** A mint binds at most one path, unbound before, and only once the signature is stored. */
  lemma {:induction false} MintIndex(peer: Peer, m: Minter, q: Request)
    ensures var after := Mint(peer, m, q).peer;
            || after.index == peer.index
            || (&& q.connection.Some? && m.capHash(TokenOf(m, q.connection.value, q)).Some?
                && var h := m.capHash(TokenOf(m, q.connection.value, q)).value;
                && SignaturePath(m.peerId, h) !in peer.index
                && after.index == peer.index[SignaturePath(m.peerId, h) := SigView(m, h).hash]
                && SigView(m, h).hash in after.store)
  {}

  /** The stores the stages of a mint leave: at most the capability, then its signature, on top of what was there. */
  lemma {:induction false} MintUnderStages(peer: Peer, m: Minter, parent: View, q: Request)
    ensures var after := MintUnder(peer, m, parent, q).peer.store;
            || after == peer.store
            || (&& m.capHash(TokenOf(m, parent, q)).Some?
                && var h := m.capHash(TokenOf(m, parent, q)).value;
                && var withCap := PutView(peer.store, CapView(h, TokenOf(m, parent, q)));
                (after == withCap || after == PutView(withCap, SigView(m, h))))
  {}

  /** And the grant before them. */
  lemma {:induction false} MintStages(peer: Peer, m: Minter, q: Request)
    ensures var after := Mint(peer, m, q).peer;
            || after == peer
            || (&& q.connection.Some?
                && after == MintUnder(peer.(store := PutView(peer.store, q.connection.value)), m, q.connection.value, q).peer)
  {}

  /** A store write keeps everything and adds at most the entity under its own hash. */
  lemma {:induction false} PutKeeps(store: Store, v: View, k: Hash)
    ensures k in store ==> k in PutView(store, v) && PutView(store, v)[k] == store[k]
    ensures k in PutView(store, v) && k !in store ==> k == v.hash && PutView(store, v)[k] == v
  {}

  /** A mint stores at most the grant, the capability and its signature, each under its own hash. */
  lemma {:induction false} MintStores(peer: Peer, m: Minter, q: Request, k: Hash)
    ensures k in peer.store ==> k in Mint(peer, m, q).peer.store && Mint(peer, m, q).peer.store[k] == peer.store[k]
    ensures k in Mint(peer, m, q).peer.store && k !in peer.store ==>
              && q.connection.Some?
              && var v := Mint(peer, m, q).peer.store[k];
              && v.hash == k
              && (|| v == q.connection.value
                  || (&& m.capHash(TokenOf(m, q.connection.value, q)).Some?
                      && var h := m.capHash(TokenOf(m, q.connection.value, q)).value;
                      v == CapView(h, TokenOf(m, q.connection.value, q)) || v == SigView(m, h)))
  {
    MintStages(peer, m, q);
    if Mint(peer, m, q).peer != peer {
      var parent := q.connection.value;
      var granted := PutView(peer.store, parent);
      PutKeeps(peer.store, parent, k);
      MintUnderStages(peer.(store := granted), m, parent, q);
      var h := m.capHash(TokenOf(m, parent, q));
      if h.Some? {
        var cap := CapView(h.value, TokenOf(m, parent, q));
        PutKeeps(granted, cap, k);
        PutKeeps(PutView(granted, cap), SigView(m, h.value), k);
      }
    }
  }

  lemma {:induction false} MintExtends(peer: Peer, m: Minter, q: Request)
    ensures Extends(peer, Mint(peer, m, q).peer)
    ensures GainsOwnSignatures(peer, Mint(peer, m, q).peer, m)
  {
    MintIndex(peer, m, q);
    forall k ensures k in peer.store ==> k in Mint(peer, m, q).peer.store && Mint(peer, m, q).peer.store[k] == peer.store[k] {
      MintStores(peer, m, q, k);
    }
  }

  /** Over any sequence of mints, failing ones included, no binding and no stored entity ever
      changes, and whatever is bound anew is a stored signature of this peer at its own path. */
  lemma {:induction false} MintsNeverRebind(peer: Peer, m: Minter, qs: seq<Request>)
    ensures Extends(peer, MintAll(peer, m, qs))
    ensures GainsOwnSignatures(peer, MintAll(peer, m, qs), m)
    decreases |qs|
  {
    if qs != [] {
      var next := Mint(peer, m, qs[0]).peer;
      var last := MintAll(peer, m, qs);
      MintExtends(peer, m, qs[0]);
      MintsNeverRebind(next, m, qs[1..]);
      forall p | p in last.index && p !in peer.index
        ensures exists cap :: p == SignaturePath(m.peerId, cap) && last.index[p] == SigView(m, cap).hash &&
                              last.index[p] in last.store
      {
        if p in next.index {
          var cap :| p == SignaturePath(m.peerId, cap) && next.index[p] == SigView(m, cap).hash &&
                     next.index[p] in next.store;
          assert last.index[p] == next.index[p];
        }
      }
    }
  }

  /** The own signature paths that are bound lead to the signature a mint would produce. */
  ghost predicate OwnPathsAgree(peer: Peer, m: Minter) {
    forall cap :: SignaturePath(m.peerId, cap) in peer.index ==>
                    peer.index[SignaturePath(m.peerId, cap)] == SigView(m, cap).hash
  }

  lemma {:induction false} OwnPathsAgreeAfter(before: Peer, after: Peer, m: Minter)
    requires OwnPathsAgree(before, m) && Extends(before, after) && GainsOwnSignatures(before, after, m)
    ensures OwnPathsAgree(after, m)
  {
    forall cap | SignaturePath(m.peerId, cap) in after.index
      ensures after.index[SignaturePath(m.peerId, cap)] == SigView(m, cap).hash
    {
      var p := SignaturePath(m.peerId, cap);
      if p !in before.index {
        var c :| p == SignaturePath(m.peerId, c) && after.index[p] == SigView(m, c).hash && after.index[p] in after.store;
        SignaturePathTarget(m.peerId, cap, m.peerId, c);
      }
    }
  }

  lemma {:induction false} AgreeingPathIsFree(peer: Peer, m: Minter, parent: View, q: Request)
    requires OwnPathsAgree(peer, m)
    ensures MintUnder(peer, m, parent, q).result != Err(PathTaken)
  {}

  /** Because signing is deterministic, mints never collide with each other: on a peer whose own signature
      paths agree with its key, no mint after any sequence of mints finds its path taken. */
  lemma {:induction false} MintNeverFindsPathTaken(peer: Peer, m: Minter, qs: seq<Request>, q: Request)
    requires OwnPathsAgree(peer, m)
    ensures Mint(MintAll(peer, m, qs), m, q).result != Err(PathTaken)
  {
    var last := MintAll(peer, m, qs);
    MintsNeverRebind(peer, m, qs);
    OwnPathsAgreeAfter(peer, last, m);
    if q.connection.Some? {
      var parent := q.connection.value;
      AgreeingPathIsFree(last.(store := PutView(last.store, parent)), m, parent, q);
    }
  }

  /** What a successful mint has put in place. */
  lemma {:induction false} MintLeaves(peer: Peer, m: Minter, q: Request)
    requires Mint(peer, m, q).result.Ok?
    ensures q.remote != "" && q.grants != [] && q.connection.Some?
    ensures var leaf := Mint(peer, m, q).result.value;
            && !IsZero(q.connection.value.hash) && !IsZero(m.identity)
            && m.capHash(TokenOf(m, q.connection.value, q)) == Some(leaf.hash)
            && leaf == CapView(leaf.hash, TokenOf(m, q.connection.value, q))
            && {leaf.hash, SigView(m, leaf.hash).hash, q.connection.value.hash, m.identity} <= Mint(peer, m, q).peer.store.Keys
            && At(Mint(peer, m, q).peer.index, SignaturePath(m.peerId, leaf.hash)) == Some(SigView(m, leaf.hash).hash)
  {}

  /** A successful mint hands out the leaf that was asked for, and leaves what belongs to it. */
  lemma {:induction false} MintMakes(peer: Peer, m: Minter, q: Request)
    ensures var r := Mint(peer, m, q);
            r.result.Ok? ==> LeafFor(m, q, r.result.value) && MintedIn(m, q, r.result.value, peer, r.peer)
  {
    var r := Mint(peer, m, q);
    if r.result.Ok? {
      MintLeaves(peer, m, q);
      forall h | h in r.peer.store && h !in peer.store
        ensures r.peer.store[h] == q.connection.value || r.peer.store[h] == r.result.value || SignatureFor(m, r.result.value.hash, r.peer.store[h])
      {
        MintStores(peer, m, q, h);
      }
    }
  }

  /** The entity is stored, is the grant being stored, or its write would succeed. */
  predicate Storable(peer: Peer, parent: View, h: Hash, ok: bool) {
    h in peer.store || h == parent.hash || ok
  }

  /** Nothing stands in the way of a mint under `parent` whose capability hashes to `h`. */
  predicate MayMint(peer: Peer, m: Minter, q: Request, parent: View, h: Hash) {
    var sig := m.sigHash(Claim(h, m.identity), m.sign(h));
    && (parent.hash in peer.store || q.putParent) && (m.identity in peer.store || m.identity == parent.hash)
    && !IsZero(parent.hash) && !IsZero(m.identity)
    && Storable(peer, parent, h, q.putCap) && (Storable(peer, parent, sig, q.putSig) || sig == h)
    && (SignaturePath(m.peerId, h) in peer.index ==> peer.index[SignaturePath(m.peerId, h)] == sig)
  }

  /** When a mint succeeds, in terms of its arguments and the peer alone: a remote and some grants are named, the connection conferred a
      grant, the capability can be built, the three entities are or can be stored, neither hash is zero, and the pointer path is free or right. */
  lemma {:induction false} MintSucceedsExactly(peer: Peer, m: Minter, q: Request)
    ensures Mint(peer, m, q).result.Ok? <==>
            && q.remote != "" && q.grants != [] && q.connection.Some?
            && var parent := q.connection.value;
            var h := m.capHash(Token(ChainFields(Single(m.identity), m.identity, Some(parent.hash), None, q.expiresAt), q.grants, q.now));
            h.Some? && MayMint(peer, m, q, parent, h.value)
  {
    if q.connection.Some? {
      PutKeeps(peer.store, q.connection.value, m.identity);
    }
  }

  /** What each refusal means. */
  lemma {:induction false} MintRefusals(peer: Peer, m: Minter, q: Request)
    ensures Mint(peer, m, q).result == Err(NoRemote) <==> q.remote == ""
    ensures Mint(peer, m, q).result == Err(NoGrants) <==> q.remote != "" && q.grants == []
    ensures Mint(peer, m, q).result == Err(NotConnected) <==> q.remote != "" && q.grants != [] && q.connection.None?
    ensures Mint(peer, m, q).result == Err(NoIdentity) ==> m.identity !in peer.store && m.identity != q.connection.value.hash
    ensures Mint(peer, m, q).result == Err(MissingParent) ==> IsZero(q.connection.value.hash)
    ensures Mint(peer, m, q).result == Err(MissingGrantee) ==> IsZero(m.identity)
    ensures Mint(peer, m, q).result == Err(StoreRefused) ==> !q.putParent || !q.putCap || !q.putSig
    ensures Mint(peer, m, q).result == Err(PathTaken) ==>
              exists h :: SignaturePath(m.peerId, h) in peer.index &&
                          peer.index[SignaturePath(m.peerId, h)] != m.sigHash(Claim(h, m.identity), m.sign(h))
  {
    if Mint(peer, m, q).result == Err(PathTaken) {
      var h := m.capHash(TokenOf(m, q.connection.value, q)).value;
      assert SignaturePath(m.peerId, h) in peer.index;
    }
  }

  /** An expired leaf convinces nobody: neither a verifier with the whole store nor one with any included entities that hold the leaf. */
  lemma {:induction false} LapsedLeafIsRejected(peer: Peer, m: Minter, q: Request, included: Store, find: Finder, c: Checks)
    requires Mint(peer, m, q).result.Ok? && q.expiresAt.Some? && c.now >= q.expiresAt.value
    requires var leaf := Mint(peer, m, q).result.value; leaf.hash in included ==> included[leaf.hash] == leaf
    ensures !Accepts(included, find, c, Mint(peer, m, q).result.value.hash)
  {
    MintMakes(peer, m, q);
    var leaf := Mint(peer, m, q).result.value;
    var r := Collect(included, leaf.hash, MAX_CHAIN_DEPTH + 1);
    assert r.Some? ==> r.value[0] == leaf && !InForce(leaf.fields.value, c.now);
  }

  /** Re-minting the same capability (same arguments, same clock reading) after any number of
      further mints succeeds with the same leaf and changes nothing, whatever the
      store would answer to new writes. */
  lemma {:induction false} RemintIsIdempotent(peer: Peer, m: Minter, q: Request, qs: seq<Request>, again: Request)
    requires Mint(peer, m, q).result.Ok?
    requires again == q.(putParent := again.putParent, putCap := again.putCap, putSig := again.putSig)
    ensures var later := MintAll(Mint(peer, m, q).peer, m, qs);
            Mint(later, m, again) == Outcome(later, Mint(peer, m, q).result)
  {
    var first := Mint(peer, m, q);
    var later := MintAll(first.peer, m, qs);
    MintLeaves(peer, m, q);
    MintsNeverRebind(first.peer, m, qs);
    var leaf := first.result.value;
    var sig := SigView(m, leaf.hash);
    assert leaf.hash in first.peer.store && sig.hash in first.peer.store;
    assert later.index[SignaturePath(m.peerId, leaf.hash)] == sig.hash;
    assert TokenOf(m, q.connection.value, again) == TokenOf(m, q.connection.value, q);
  }

  // ---------- the mint and the bundle ----------

  /** No two different entities in play share a hash: `entityOf` names the one entity of each hash. */
  ghost predicate CollisionFree(entityOf: Hash -> View, peer: Peer, m: Minter, q: Request) {
    && (forall h :: h in peer.store ==> peer.store[h] == entityOf(h) && entityOf(h).hash == h && Decoded(entityOf(h)))
    && (q.connection.Some? ==>
          var parent := q.connection.value;
          && entityOf(parent.hash) == parent && Decoded(parent)
          && match m.capHash(TokenOf(m, parent, q))
             case None => true
             case Some(h) =>
               entityOf(h) == CapView(h, TokenOf(m, parent, q)) && entityOf(SigView(m, h).hash) == SigView(m, h))
  }

  /** The identity hash is that of this peer's identity entity. */
  ghost predicate IdentityIsOwn(entityOf: Hash -> View, m: Minter) {
    entityOf(m.identity).peer.Some? && entityOf(m.identity).peer.value.peerId == Some(m.peerId)
  }

  lemma {:induction false} MintKeepsStoreAddressed(entityOf: Hash -> View, peer: Peer, m: Minter, q: Request)
    requires CollisionFree(entityOf, peer, m, q)
    ensures ContentAddressed(Mint(peer, m, q).peer.store)
    ensures forall h :: h in Mint(peer, m, q).peer.store ==> Mint(peer, m, q).peer.store[h] == entityOf(h)
  {
    var after := Mint(peer, m, q).peer;
    forall k | k in after.store
      ensures after.store[k] == entityOf(k) && entityOf(k).hash == k && Decoded(entityOf(k))
    {
      MintStores(peer, m, q, k);
    }
  }

  /** Every signature path that is bound leads to something stored. */
  ghost predicate PointersResolve(peer: Peer) {
    forall pid, cap :: SignaturePath(pid, cap) in peer.index ==> peer.index[SignaturePath(pid, cap)] in peer.store
  }

  /** A mint keeps every signature pointer sound. */
  lemma {:induction false} MintKeepsPointersSound(entityOf: Hash -> View, peer: Peer, m: Minter, q: Request)
    requires CollisionFree(entityOf, peer, m, q) && PointersSound(peer.store, peer.index) && PointersResolve(peer)
    ensures PointersSound(Mint(peer, m, q).peer.store, Mint(peer, m, q).peer.index)
  {
    var after := Mint(peer, m, q).peer;
    MintKeepsStoreAddressed(entityOf, peer, m, q);
    MintExtends(peer, m, q);
    forall pid, cap | SignaturePath(pid, cap) in after.index && after.index[SignaturePath(pid, cap)] in after.store
      ensures Targets(after.store[after.index[SignaturePath(pid, cap)]], cap)
    {
      var p := SignaturePath(pid, cap);
      if p !in peer.index {
        MintIndex(peer, m, q);
        SignaturePathTarget(pid, cap, m.peerId, m.capHash(TokenOf(m, q.connection.value, q)).value);
      }
    }
  }

  /** The leaf's pointer leads to the signature the mint made. */
  lemma MintedSignatureIsPointed(entityOf: Hash -> View, peer: Peer, m: Minter, q: Request)
    requires CollisionFree(entityOf, peer, m, q) && IdentityIsOwn(entityOf, m) && Mint(peer, m, q).result.Ok?
    ensures var leaf := Mint(peer, m, q).result.value;
            var after := Mint(peer, m, q).peer;
            && leaf.hash in after.store && after.store[leaf.hash] == leaf && LinkGranter(leaf) == Some(m.identity)
            && m.identity in after.store
            && PointedSignature(after.store, after.index, leaf.hash, m.identity) == Some(SigView(m, leaf.hash))
  {
    MintLeaves(peer, m, q);
    MintKeepsStoreAddressed(entityOf, peer, m, q);
  }

  lemma WalkReachesParent(store: Store, cap: View, limit: nat)
    requires limit >= 2 && cap.grants.Some? && cap.fields.Some? && cap.fields.value.parent.Some?
    requires cap.fields.value.parent.value in store
    ensures var walk := Walk(store, cap, limit);
            |walk| >= 2 && walk[0] == cap && walk[1] == store[cap.fields.value.parent.value]
  {
    assert Walk(store, store[cap.fields.value.parent.value], limit - 1) != [];
  }

  lemma BundledByLink(store: Store, index: Index, leaf: View, i: nat, k: Hash)
    requires ContentAddressed(store) && leaf.hash in store && store[leaf.hash] == leaf
    requires i < |Walk(store, leaf, WALK_LIMIT)| && LinkKey(store, index, Walk(store, leaf, WALK_LIMIT)[i], k)
    ensures k in store && At(Bundle(store, index, leaf), k) == Some(store[k])
  {
    WalkStored(store, leaf, WALK_LIMIT);
    GatherIs(store, index, Walk(store, leaf, WALK_LIMIT), k);
  }

  /** After every successful mint the bundle of the leaf holds the leaf, the connection grant above
      it, the local identity and the leaf's signature. */
  lemma {:induction false} MintComposesWithBundle(entityOf: Hash -> View, peer: Peer, m: Minter, q: Request)
    requires CollisionFree(entityOf, peer, m, q) && IdentityIsOwn(entityOf, m) && Mint(peer, m, q).result.Ok?
    ensures var leaf := Mint(peer, m, q).result.value;
            var b := Bundle(Mint(peer, m, q).peer.store, Mint(peer, m, q).peer.index, leaf);
            && At(b, leaf.hash) == Some(leaf)
            && At(b, q.connection.value.hash) == q.connection
            && At(b, m.identity) == Some(entityOf(m.identity))
            && At(b, SigView(m, leaf.hash).hash) == Some(SigView(m, leaf.hash))
  {
    var after, leaf := Mint(peer, m, q).peer, Mint(peer, m, q).result.value;
    var parent := q.connection.value;
    MintLeaves(peer, m, q);
    MintKeepsStoreAddressed(entityOf, peer, m, q);
    MintedSignatureIsPointed(entityOf, peer, m, q);
    WalkReachesParent(after.store, leaf, WALK_LIMIT);
    BundledByLink(after.store, after.index, leaf, 0, leaf.hash);
    BundledByLink(after.store, after.index, leaf, 1, parent.hash);
    BundledByLink(after.store, after.index, leaf, 0, m.identity);
    BundledByLink(after.store, after.index, leaf, 0, SigView(m, leaf.hash).hash);
  }

  /** A minted leaf is granted to its own granter, so its bundle carries as far as the walk does: a verifier that
      sees only the bundle accepts it exactly when one with the whole store and index does
      and the chain has at most 64 links. */
  lemma {:induction false} MintedBundleReach(entityOf: Hash -> View, peer: Peer, m: Minter, q: Request, find: Finder, c: Checks, chain: seq<View>)
    requires CollisionFree(entityOf, peer, m, q) && IdentityIsOwn(entityOf, m) && Mint(peer, m, q).result.Ok?
    requires PointersSound(peer.store, peer.index) && PointersResolve(peer)
    requires var after, leaf := Mint(peer, m, q).peer, Mint(peer, m, q).result.value;
             && Collect(after.store, leaf.hash, MAX_CHAIN_DEPTH + 1) == Some(chain)
             && ScansFor(Bundle(after.store, after.index, leaf), find)
    ensures var after, leaf := Mint(peer, m, q).peer, Mint(peer, m, q).result.value;
            Accepts(Bundle(after.store, after.index, leaf), find, c, leaf.hash) <==>
            Accepts(after.store, StoreFinder(after.store, after.index), c, leaf.hash) && |chain| <= WALK_LIMIT
  {
    var after, leaf := Mint(peer, m, q).peer, Mint(peer, m, q).result.value;
    MintLeaves(peer, m, q);
    MintKeepsStoreAddressed(entityOf, peer, m, q);
    MintedSignatureIsPointed(entityOf, peer, m, q);
    MintKeepsPointersSound(entityOf, peer, m, q);
    assert chain[0] == leaf && GrantedBy(chain, m.identity);
    BundleSufficiency(after.store, after.index, find, c, leaf, chain);
  }
}
