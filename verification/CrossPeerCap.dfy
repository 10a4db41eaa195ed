/**
 Cross-peer dispatch capabilities: the bundle of everything a remote verifier needs to check a
 capability chain, and the verifier it is meant for.
 */
module CrossPeerCap {
  import opened Wrappers
  import opened Substrate

  datatype Granter = Single(id: Hash) | Multi(signers: seq<Hash>)

  /** What the chain walk reads of a capability. */
  datatype ChainFields = ChainFields(
    granter: Granter,
    grantee: Hash,
    parent: Option<Hash>,
    notBefore: Option<nat>,
    expiresAt: Option<nat>)

  datatype Grant = Grant(handlers: seq<string>, resources: seq<string>, operations: seq<string>)

  datatype PeerKey = PeerKey(publicKey: Bytes, peerId: Option<string>)

  datatype Claim = Claim(target: Hash, signer: Hash)

  /** An entity as its decoders read it: the lenient chain reader, the strict token, identity and
      signature decoders, and the lenient target/signer reader of the signature scan. */
  datatype View = View(
    hash: Hash,
    entityType: string,
    fields: Option<ChainFields>,
    grants: Option<seq<Grant>>,
    peer: Option<PeerKey>,
    claim: Option<Claim>,
    signature: Option<Bytes>)

  /** The strict decoders refuse other entity types, and accept only what the lenient ones read. */
  predicate Decoded(v: View) {
    && (v.grants.Some? ==> v.entityType == TYPE_CAPABILITY && v.fields.Some?)
    && (v.peer.Some? ==> v.entityType == TYPE_PEER)
    && (v.signature.Some? ==> v.entityType == TYPE_SIGNATURE && v.claim.Some?)
  }

  type Store = map<Hash, View>
  type Index = map<Path, Hash>

  ghost predicate ContentAddressed(store: Store) {
    forall h :: h in store ==> store[h].hash == h && Decoded(store[h])
  }

  // ---------- the bundle ----------

  const WALK_LIMIT := 64

  /** The signature of `cap` that `granter`'s invariant pointer path leads to. */
  function PointedSignature(store: Store, index: Index, cap: Hash, granter: Hash): Option<View> {
    if granter in store && store[granter].peer.Some? && store[granter].peer.value.peerId.Some? then
      var path := SignaturePath(store[granter].peer.value.peerId.value, cap);
      if path in index && index[path] in store then Some(store[index[path]]) else None
    else None
  }

  /** What the granter of a link adds: its identity and, through its pointer path, the signature. */
  function GranterEntries(store: Store, index: Index, cap: Hash, g: Hash): map<Hash, View> {
    if g !in store then map[]
    else
      map[g := store[g]] +
      match PointedSignature(store, index, cap, g)
      case Some(sig) => map[index[SignaturePath(store[g].peer.value.peerId.value, cap)] := sig]
      case None => map[]
  }

  /** What one link adds to the bundle. */
  function LinkEntries(store: Store, index: Index, cap: View): map<Hash, View> {
    map[cap.hash := cap] +
    if cap.grants.Some? && cap.fields.Some? && cap.fields.value.granter.Single?
    then GranterEntries(store, index, cap.hash, cap.fields.value.granter.id) else map[]
  }

  /** The capabilities the bundle walk visits. */
  function Walk(store: Store, cap: View, limit: nat): seq<View>
    decreases limit
  {
    if limit == 0 then []
    else if cap.grants.None? || cap.fields.None? then [cap]
    else
      match cap.fields.value.parent
      case None => [cap]
      case Some(p) => if p in store then [cap] + Walk(store, store[p], limit - 1) else [cap]
  }

  function Gather(store: Store, index: Index, caps: seq<View>): map<Hash, View> {
    if caps == [] then map[]
    else Gather(store, index, caps[..|caps| - 1]) + LinkEntries(store, index, caps[|caps| - 1])
  }

  function Bundle(store: Store, index: Index, leaf: View): map<Hash, View> {
    Gather(store, index, Walk(store, leaf, WALK_LIMIT))
  }

  method AddGranter(store: Store, index: Index, cap: Hash, g: Hash, bundle: map<Hash, View>) returns (r: map<Hash, View>)
    ensures r == bundle + GranterEntries(store, index, cap, g)
  {
    r := bundle;
    if g in store {
      r := r[g := store[g]];
      if store[g].peer.Some? && store[g].peer.value.peerId.Some? {
        var path := SignaturePath(store[g].peer.value.peerId.value, cap);
        if path in index && index[path] in store {
          r := r[index[path] := store[index[path]]];
        }
      }
    }
  }

  /** The body of the walk: a capability, its granter's identity and its pointed-to signature. */
  method AddLink(store: Store, index: Index, cap: View, bundle: map<Hash, View>) returns (r: map<Hash, View>)
    ensures r == bundle + LinkEntries(store, index, cap)
  {
    r := bundle[cap.hash := cap];
    if cap.grants.Some? && cap.fields.Some? && cap.fields.value.granter.Single? {
      r := AddGranter(store, index, cap.hash, cap.fields.value.granter.id, r);
    }
  }

  /** The walk of `bundle_cross_peer_chain`, for any depth limit. */
  method BundleWalk(store: Store, index: Index, leaf: View, limit: nat) returns (bundle: map<Hash, View>)
    ensures bundle == Gather(store, index, Walk(store, leaf, limit))
  {
    bundle := map[];
    var current := leaf;
    ghost var walked: seq<View> := [];
    for i := 0 to limit
      invariant Walk(store, leaf, limit) == walked + Walk(store, current, limit - i)
      invariant bundle == Gather(store, index, walked)
    {
      bundle := AddLink(store, index, current, bundle);
      ghost var before := walked;
      walked := walked + [current];
      assert walked[..|walked| - 1] == before;
      if current.grants.None? || current.fields.None? || current.fields.value.parent.None? {
        return;
      }
      var parent := current.fields.value.parent.value;
      if parent !in store {
        return;
      }
      current := store[parent];
    }
    assert walked + [] == walked;
  }

  /** `bundle_cross_peer_chain`. */
  method BundleCrossPeerChain(store: Store, index: Index, leaf: View) returns (bundle: map<Hash, View>)
    ensures bundle == Bundle(store, index, leaf)
  {
    bundle := BundleWalk(store, index, leaf, WALK_LIMIT);
  }

  // ---------- the verifier ----------

  const MAX_CHAIN_DEPTH := 64

  /** The checks the verifier hands to other components, and its own situation. */
  datatype Checks = Checks(
    localPeerId: string,
    now: nat,
    signed: (PeerKey, Hash, Bytes) -> bool,
    attenuated: (View, View, string, string, string) -> bool,
    caveats: (View, View, nat) -> bool,
    matchable: seq<Grant> -> bool)

  /** How the verifier finds the signature of a capability by a granter. */
  type Finder = (Hash, Hash) -> Option<View>

  /** The chain from `h` to its root, if it is reachable within `budget` capabilities. */
  function Collect(included: Store, h: Hash, budget: nat): (r: Option<seq<View>>)
    ensures r.Some? ==> 1 <= |r.value| <= budget && h in included && r.value[0] == included[h]
    decreases budget
  {
    if budget == 0 || h !in included || included[h].fields.None? then None
    else
      match included[h].fields.value.parent
      case None => Some([included[h]])
      case Some(p) =>
        match Collect(included, p, budget - 1)
        case None => None
        case Some(rest) => Some([included[h]] + rest)
  }

  function PeerIdOr(key: PeerKey, fallback: string): string {
    if key.peerId.Some? then key.peerId.value else fallback
  }

  predicate InForce(fields: ChainFields, now: nat) {
    && (fields.expiresAt.Some? ==> now < fields.expiresAt.value)
    && (fields.notBefore.Some? ==> fields.notBefore.value <= now)
  }

  /** Link `i` names a single granter whose identity and signature check out, and it is a
      permitted narrowing of the next link or, at the root, issued by the verifier itself. */
  predicate LinkValid(included: Store, find: Finder, c: Checks, chain: seq<View>, i: nat)
    requires i < |chain|
  {
    var cap := chain[i];
    && cap.fields.Some? && cap.fields.value.granter.Single?
    && var g := cap.fields.value.granter.id;
    && find(cap.hash, g).Some?
    && var sig := find(cap.hash, g).value;
    && sig.signature.Some? && sig.claim.Some? && sig.claim.value.signer == g
    && g in included && included[g].peer.Some?
    && c.signed(included[g].peer.value, cap.hash, sig.signature.value)
    && if i + 1 < |chain| then
         var parent := chain[i + 1];
         && parent.fields.Some? && parent.fields.value.granter.Single? && parent.fields.value.grantee == g
         && cap.grants.Some? && parent.grants.Some?
         && var pg := parent.fields.value.granter.id;
         && pg in included && included[pg].peer.Some?
         && c.attenuated(cap, parent,
                         PeerIdOr(included[g].peer.value, c.localPeerId),
                         PeerIdOr(included[pg].peer.value, c.localPeerId), c.localPeerId)
         && c.caveats(parent, cap, i)
       else
         included[g].peer.value.peerId == Some(c.localPeerId)
  }

  /** `verify_capability_chain`, for chains whose granters are single identities. */
  predicate Accepts(included: Store, find: Finder, c: Checks, leaf: Hash) {
    && (forall h :: h in included ==> included[h].hash == h)
    && var r := Collect(included, leaf, MAX_CHAIN_DEPTH + 1);
    && r.Some?
    && var chain := r.value;
    && (forall i :: 0 <= i < |chain| ==> chain[i].hash.format == chain[0].hash.format)
    && (forall i :: 0 <= i < |chain| ==> GranteeResolves(included, chain[i]))
    && (forall i :: 0 <= i < |chain| ==> chain[i].fields.Some? && InForce(chain[i].fields.value, c.now))
    && (forall i :: 0 <= i < |chain| && chain[i].grants.Some? ==> c.matchable(chain[i].grants.value))
    && (forall i :: 0 <= i < |chain| ==> LinkValid(included, find, c, chain, i))
  }

  predicate GranteeResolves(included: Store, cap: View) {
    cap.fields.Some? && cap.fields.value.grantee in included &&
    included[cap.fields.value.grantee].entityType == TYPE_PEER
  }

  /** The scan of an envelope: some signature entity among its values that targets the capability,
      if there is one.  Any scan order is allowed. */
  ghost predicate ScansFor(included: Store, find: Finder) {
    forall cap, g ::
      match find(cap, g)
      case None => forall h :: h in included ==> !Targets(included[h], cap)
      case Some(sig) => Targets(sig, cap) && exists h :: h in included && included[h] == sig
  }

  predicate Targets(v: View, cap: Hash) {
    v.entityType == TYPE_SIGNATURE && v.claim.Some? && v.claim.value.target == cap
  }

  /** A verifier with the whole store and index resolves signatures through the pointer paths. */
  function StoreFinder(store: Store, index: Index): Finder {
    (cap: Hash, g: Hash) => PointedSignature(store, index, cap, g)
  }

  /** What the pointer paths promise: each leads to a signature of its target. */
  ghost predicate PointersSound(store: Store, index: Index) {
    forall pid, cap :: SignaturePath(pid, cap) in index && index[SignaturePath(pid, cap)] in store ==>
                         Targets(store[index[SignaturePath(pid, cap)]], cap)
  }

  // ---------- the bundle as a part of the store ----------

  ghost predicate Stored(store: Store, caps: seq<View>) {
    forall i :: 0 <= i < |caps| ==> caps[i].hash in store && store[caps[i].hash] == caps[i]
  }

  /** The granter whose identity and signature the link contributes. */
  function LinkGranter(cap: View): Option<Hash> {
    if cap.grants.Some? && cap.fields.Some? && cap.fields.value.granter.Single?
    then Some(cap.fields.value.granter.id) else None
  }

  ghost predicate LinkKey(store: Store, index: Index, cap: View, k: Hash) {
    || k == cap.hash
    || (LinkGranter(cap) == Some(k) && k in store)
    || (LinkGranter(cap).Some? && k in store && PointedSignature(store, index, cap.hash, LinkGranter(cap).value) == Some(store[k]))
  }

  lemma {:induction false} LinkEntriesAre(store: Store, index: Index, cap: View, k: Hash)
    requires ContentAddressed(store) && cap.hash in store && store[cap.hash] == cap
    ensures k in LinkEntries(store, index, cap) <==> LinkKey(store, index, cap, k)
    ensures k in LinkEntries(store, index, cap) ==> k in store && LinkEntries(store, index, cap)[k] == store[k]
  {}

  lemma {:induction false} GatherIs(store: Store, index: Index, caps: seq<View>, k: Hash)
    requires ContentAddressed(store) && Stored(store, caps)
    ensures k in Gather(store, index, caps) <==>
              exists i :: 0 <= i < |caps| && LinkKey(store, index, caps[i], k)
    ensures k in Gather(store, index, caps) ==> k in store && Gather(store, index, caps)[k] == store[k]
  {
    if caps != [] {
      var before, cap := caps[..|caps| - 1], caps[|caps| - 1];
      GatherIs(store, index, before, k);
      LinkEntriesAre(store, index, cap, k);
      if i :| 0 <= i < |caps| && LinkKey(store, index, caps[i], k) {
        if i < |before| { assert before[i] == caps[i]; }
      }
      if i :| 0 <= i < |before| && LinkKey(store, index, before[i], k) {
        assert before[i] == caps[i];
      }
    }
  }

  lemma {:induction false} WalkStored(store: Store, cap: View, limit: nat)
    requires ContentAddressed(store) && cap.hash in store && store[cap.hash] == cap
    ensures Stored(store, Walk(store, cap, limit)) && |Walk(store, cap, limit)| <= limit
    decreases limit
  {
    if limit > 0 && cap.grants.Some? && cap.fields.Some? && cap.fields.value.parent.Some? {
      var p := cap.fields.value.parent.value;
      if p in store { WalkStored(store, store[p], limit - 1); }
    }
  }

  /** Every bundle entry is keyed by its own content hash, and is the stored entity of that hash. */
  lemma {:induction false} BundleKeyedByContent(store: Store, index: Index, leaf: View)
    requires ContentAddressed(store) && leaf.hash in store && store[leaf.hash] == leaf
    ensures forall k :: k in Bundle(store, index, leaf) ==>
              k in store && Bundle(store, index, leaf)[k] == store[k] && store[k].hash == k
  {
    forall k | k in Bundle(store, index, leaf)
      ensures k in store && Bundle(store, index, leaf)[k] == store[k]
    {
      WalkStored(store, leaf, WALK_LIMIT);
      GatherIs(store, index, Walk(store, leaf, WALK_LIMIT), k);
    }
  }

  // ---------- chains ----------

  ghost predicate AllGrants(chain: seq<View>) {
    forall i :: 0 <= i < |chain| ==> chain[i].grants.Some?
  }

  /** On a chain whose links all decode, the walk visits exactly the first `limit` links. */
  lemma {:induction false} WalkIsChainPrefix(store: Store, h: Hash, budget: nat, limit: nat)
    requires Collect(store, h, budget).Some? && AllGrants(Collect(store, h, budget).value)
    ensures var chain := Collect(store, h, budget).value;
            Walk(store, store[h], limit) == if limit < |chain| then chain[..limit] else chain
    decreases budget
  {
    var chain := Collect(store, h, budget).value;
    if limit > 0 && chain[0].fields.value.parent.Some? {
      var p := chain[0].fields.value.parent.value;
      var rest := Collect(store, p, budget - 1).value;
      assert chain == [chain[0]] + rest;
      assert AllGrants(rest) by {
        forall i | 0 <= i < |rest| ensures rest[i].grants.Some? { assert rest[i] == chain[i + 1]; }
      }
      WalkIsChainPrefix(store, p, budget - 1, limit - 1);
    }
  }

  lemma {:induction false} CollectGrows(small: Store, big: Store, h: Hash, budget: nat)
    requires forall k :: k in small ==> k in big && big[k] == small[k]
    requires Collect(small, h, budget).Some?
    ensures Collect(big, h, budget) == Collect(small, h, budget)
    decreases budget
  {
    if small[h].fields.value.parent.Some? {
      CollectGrows(small, big, small[h].fields.value.parent.value, budget - 1);
    }
  }

  lemma {:induction false} CollectRestricted(small: Store, big: Store, h: Hash, budget: nat)
    requires forall k :: k in big ==> big[k].hash == k
    requires Collect(big, h, budget).Some?
    requires forall i :: 0 <= i < |Collect(big, h, budget).value| ==>
               var e := Collect(big, h, budget).value[i]; e.hash in small && small[e.hash] == e
    ensures Collect(small, h, budget) == Collect(big, h, budget)
    decreases budget
  {
    var chain := Collect(big, h, budget).value;
    assert chain[0].hash == h;
    if big[h].fields.value.parent.Some? {
      var p := big[h].fields.value.parent.value;
      var rest := Collect(big, p, budget - 1).value;
      forall i | 0 <= i < |rest| ensures rest[i].hash in small && small[rest[i].hash] == rest[i] {
        assert rest[i] == chain[i + 1];
      }
      CollectRestricted(small, big, p, budget - 1);
    }
  }

  /** From any link on, the chain is the chain of that link. */
  lemma {:induction false} CollectSuffix(store: Store, h: Hash, budget: nat, i: nat)
    requires forall k :: k in store ==> store[k].hash == k
    requires Collect(store, h, budget).Some? && i < |Collect(store, h, budget).value|
    ensures var chain := Collect(store, h, budget).value;
            && chain[i].hash in store && store[chain[i].hash] == chain[i]
            && (forall b :: b >= |chain| - i ==> Collect(store, chain[i].hash, b) == Some(chain[i..]))
    decreases i, budget
  {
    var chain := Collect(store, h, budget).value;
    if i > 0 {
      var p := chain[0].fields.value.parent.value;
      CollectSuffix(store, p, budget - 1, i - 1);
      assert chain[1..] == Collect(store, p, budget - 1).value;
      assert chain[i..] == chain[1..][i - 1..];
    } else {
      assert chain[0..] == chain;
      forall b: nat | b >= |chain| ensures Collect(store, h, b) == Some(chain) {
        CollectBudget(store, h, budget, b);
      }
    }
  }

  lemma {:induction false} CollectBudget(store: Store, h: Hash, budget: nat, b: nat)
    requires Collect(store, h, budget).Some? && b >= |Collect(store, h, budget).value|
    ensures Collect(store, h, b) == Collect(store, h, budget)
    decreases budget
  {
    if store[h].fields.value.parent.Some? {
      CollectBudget(store, store[h].fields.value.parent.value, budget - 1, b - 1);
    }
  }

  /** A chain that reaches a root never visits a capability twice. */
  lemma {:induction false} ChainDistinct(store: Store, h: Hash, budget: nat, i: nat, j: nat)
    requires forall k :: k in store ==> store[k].hash == k
    requires Collect(store, h, budget).Some? && i < j < |Collect(store, h, budget).value|
    ensures Collect(store, h, budget).value[i].hash != Collect(store, h, budget).value[j].hash
  {
    var chain := Collect(store, h, budget).value;
    CollectSuffix(store, h, budget, i);
    CollectSuffix(store, h, budget, j);
    assert |Collect(store, chain[i].hash, |chain|).value| == |chain| - i;
    assert |Collect(store, chain[j].hash, |chain|).value| == |chain| - j;
  }

  // ---------- sufficiency ----------

  /** The granter identities named along a chain. */
  ghost predicate GrantedBy(chain: seq<View>, id: Hash) {
    exists i :: 0 <= i < |chain| && LinkGranter(chain[i]) == Some(id)
  }

  /** When a chain's links all decode and the walk reaches its root, the bundle holds every capability, every granter
      identity and every pointed-to signature of the chain. */
  lemma {:induction false} BundleHolds(store: Store, index: Index, leaf: View, i: nat)
    requires ContentAddressed(store) && leaf.hash in store && store[leaf.hash] == leaf
    requires Collect(store, leaf.hash, MAX_CHAIN_DEPTH + 1).Some?
    requires var chain := Collect(store, leaf.hash, MAX_CHAIN_DEPTH + 1).value;
             AllGrants(chain) && |chain| <= WALK_LIMIT && i < |chain|
    ensures var cap := Collect(store, leaf.hash, MAX_CHAIN_DEPTH + 1).value[i];
            var b := Bundle(store, index, leaf);
            && cap.hash in b && b[cap.hash] == cap
            && (LinkGranter(cap).Some? ==>
                  var g := LinkGranter(cap).value;
                  && (g in store ==> g in b && b[g] == store[g])
                  && (PointedSignature(store, index, cap.hash, g).Some? ==>
                        var sig := PointedSignature(store, index, cap.hash, g).value;
                        sig.hash in b && b[sig.hash] == sig))
  {
    var chain := Collect(store, leaf.hash, MAX_CHAIN_DEPTH + 1).value;
    WalkIsChainPrefix(store, leaf.hash, MAX_CHAIN_DEPTH + 1, WALK_LIMIT);
    WalkStored(store, leaf, WALK_LIMIT);
    var cap := chain[i];
    assert LinkKey(store, index, cap, cap.hash);
    GatherIs(store, index, chain, cap.hash);
    if LinkGranter(cap).Some? {
      var g := LinkGranter(cap).value;
      if g in store {
        assert LinkKey(store, index, cap, g);
        GatherIs(store, index, chain, g);
        var sig := PointedSignature(store, index, cap.hash, g);
        if sig.Some? {
          assert LinkKey(store, index, cap, sig.value.hash);
          GatherIs(store, index, chain, sig.value.hash);
        }
      }
    }
  }

  /** Whatever the bundle holds comes from some walked link. */
  lemma {:induction false} BundleOrigin(store: Store, index: Index, leaf: View, k: Hash) returns (i: nat)
    requires ContentAddressed(store) && leaf.hash in store && store[leaf.hash] == leaf
    requires k in Bundle(store, index, leaf)
    ensures i < |Walk(store, leaf, WALK_LIMIT)| && LinkKey(store, index, Walk(store, leaf, WALK_LIMIT)[i], k)
    ensures k in store && Bundle(store, index, leaf)[k] == store[k]
  {
    var walk := Walk(store, leaf, WALK_LIMIT);
    WalkStored(store, leaf, WALK_LIMIT);
    GatherIs(store, index, walk, k);
    i :| 0 <= i < |walk| && LinkKey(store, index, walk[i], k);
  }

  ghost predicate GrantersArePeers(store: Store, chain: seq<View>) {
    forall j :: 0 <= j < |chain| && LinkGranter(chain[j]).Some? ==>
                  LinkGranter(chain[j]).value in store && store[LinkGranter(chain[j]).value].peer.Some?
  }

  ghost predicate IsChain(store: Store, leaf: View, chain: seq<View>) {
    && ContentAddressed(store) && leaf.hash in store && store[leaf.hash] == leaf
    && Collect(store, leaf.hash, MAX_CHAIN_DEPTH + 1) == Some(chain)
  }

  /** What a bundle entry of each entity type can be. */
  lemma {:induction false} BundleEntryKind(store: Store, index: Index, leaf: View, chain: seq<View>, k: Hash) returns (j: nat)
    requires IsChain(store, leaf, chain) && AllGrants(chain) && GrantersArePeers(store, chain)
    requires PointersSound(store, index) && k in Bundle(store, index, leaf)
    ensures j < |chain| && j < WALK_LIMIT && k in store && Bundle(store, index, leaf)[k] == store[k]
    ensures || (k == chain[j].hash && store[k].entityType == TYPE_CAPABILITY)
            || (LinkGranter(chain[j]) == Some(k) && store[k].entityType == TYPE_PEER)
            || (LinkGranter(chain[j]).Some? && Targets(store[k], chain[j].hash) &&
                PointedSignature(store, index, chain[j].hash, LinkGranter(chain[j]).value) == Some(store[k]))
  {
    j := BundleOrigin(store, index, leaf, k);
    WalkIsChainPrefix(store, leaf.hash, MAX_CHAIN_DEPTH + 1, WALK_LIMIT);
    assert Walk(store, leaf, WALK_LIMIT)[j] == chain[j];
    CollectSuffix(store, leaf.hash, MAX_CHAIN_DEPTH + 1, j);
  }

  /** The only signature of link `i` in the bundle is the one its granter's pointer leads to. */
  lemma {:induction false} BundleSignatureIsPointed(store: Store, index: Index, leaf: View, chain: seq<View>, i: nat, k: Hash)
    requires IsChain(store, leaf, chain) && AllGrants(chain) && GrantersArePeers(store, chain)
    requires PointersSound(store, index) && i < |chain|
    requires k in Bundle(store, index, leaf) && Targets(Bundle(store, index, leaf)[k], chain[i].hash)
    ensures LinkGranter(chain[i]).Some?
    ensures PointedSignature(store, index, chain[i].hash, LinkGranter(chain[i]).value) == Some(Bundle(store, index, leaf)[k])
  {
    var j := BundleEntryKind(store, index, leaf, chain, k);
    if j < i {
      ChainDistinct(store, leaf.hash, MAX_CHAIN_DEPTH + 1, j, i);
    } else if i < j {
      ChainDistinct(store, leaf.hash, MAX_CHAIN_DEPTH + 1, i, j);
    }
  }

  /** Every link after the first is decoded by the verifier itself. */
  lemma {:induction false} AcceptedDecodes(included: Store, find: Finder, c: Checks, chain: seq<View>)
    requires forall i :: 0 <= i < |chain| ==> LinkValid(included, find, c, chain, i)
    requires |chain| >= 1 && chain[0].grants.Some?
    ensures AllGrants(chain) && GrantersArePeers(included, chain)
    ensures forall i :: 1 <= i < |chain| ==>
              chain[i].fields.Some? && LinkGranter(chain[i - 1]) == Some(chain[i].fields.value.grantee)
  {
    forall i | 0 <= i < |chain|
      ensures chain[i].grants.Some?
      ensures LinkGranter(chain[i]).Some? ==>
                LinkGranter(chain[i]).value in included && included[LinkGranter(chain[i]).value].peer.Some?
    {
      assert LinkValid(included, find, c, chain, i);
      if i > 0 { assert LinkValid(included, find, c, chain, i - 1); }
    }
    forall i | 1 <= i < |chain|
      ensures chain[i].fields.Some? && LinkGranter(chain[i - 1]) == Some(chain[i].fields.value.grantee)
    {
      assert LinkValid(included, find, c, chain, i - 1);
    }
  }

  /** Scanning the bundle for the signature of a link finds the one its granter's pointer leads to. */
  lemma {:induction false} ScanFindsPointed(store: Store, index: Index, find: Finder, leaf: View, chain: seq<View>, i: nat)
    requires IsChain(store, leaf, chain) && AllGrants(chain) && |chain| <= WALK_LIMIT && i < |chain|
    requires GrantersArePeers(store, chain) && PointersSound(store, index)
    requires ScansFor(Bundle(store, index, leaf), find) && LinkGranter(chain[i]).Some?
    requires PointedSignature(store, index, chain[i].hash, LinkGranter(chain[i]).value).Some?
    ensures find(chain[i].hash, LinkGranter(chain[i]).value) == PointedSignature(store, index, chain[i].hash, LinkGranter(chain[i]).value)
  {
    var b, cap, g := Bundle(store, index, leaf), chain[i], LinkGranter(chain[i]).value;
    BundleHolds(store, index, leaf, i);
    var sig := PointedSignature(store, index, cap.hash, g).value;
    assert Targets(b[sig.hash], cap.hash);
    var found := find(cap.hash, g);
    assert found.Some?;
    var k :| k in b && b[k] == found.value;
    BundleSignatureIsPointed(store, index, leaf, chain, i, k);
  }

  /** A link the store verifier accepts is accepted from the bundle, whatever order the bundle is scanned in. */
  lemma {:induction false} LinkCarriesOver(store: Store, index: Index, find: Finder, c: Checks, leaf: View, chain: seq<View>, i: nat)
    requires IsChain(store, leaf, chain) && AllGrants(chain) && |chain| <= WALK_LIMIT && i < |chain|
    requires GrantersArePeers(store, chain) && PointersSound(store, index)
    requires ScansFor(Bundle(store, index, leaf), find)
    requires LinkValid(store, StoreFinder(store, index), c, chain, i)
    ensures LinkValid(Bundle(store, index, leaf), find, c, chain, i)
  {
    ScanFindsPointed(store, index, find, leaf, chain, i);
    BundleHolds(store, index, leaf, i);
    if i + 1 < |chain| { BundleHolds(store, index, leaf, i + 1); }
  }

  /** Sufficiency: a chain of at most 64 decodable links that the store verifier accepts, and whose leaf is granted
      to one of the chain's granters, is accepted by a verifier that sees only the bundle. */
  lemma {:induction false} BundleSuffices(store: Store, index: Index, find: Finder, c: Checks, leaf: View, chain: seq<View>)
    requires IsChain(store, leaf, chain) && PointersSound(store, index) && ScansFor(Bundle(store, index, leaf), find)
    requires Accepts(store, StoreFinder(store, index), c, leaf.hash)
    requires leaf.grants.Some? && |chain| <= WALK_LIMIT && GrantedBy(chain, leaf.fields.value.grantee)
    ensures Accepts(Bundle(store, index, leaf), find, c, leaf.hash)
  {
    var b := Bundle(store, index, leaf);
    BundleKeyedByContent(store, index, leaf);
    AcceptedDecodes(store, StoreFinder(store, index), c, chain);
    forall i | 0 <= i < |chain|
      ensures chain[i].hash in b && b[chain[i].hash] == chain[i]
      ensures GranteeResolves(b, chain[i]) && LinkValid(b, find, c, chain, i)
    {
      BundleHolds(store, index, leaf, i);
      if i > 0 {
        BundleHolds(store, index, leaf, i - 1);
      } else {
        var j :| 0 <= j < |chain| && LinkGranter(chain[j]) == Some(leaf.fields.value.grantee);
        BundleHolds(store, index, leaf, j);
      }
      LinkCarriesOver(store, index, find, c, leaf, chain, i);
    }
    CollectRestricted(b, store, leaf.hash, MAX_CHAIN_DEPTH + 1);
  }

  /** A bundle whose leaf the strict decoder refuses holds nothing but that leaf. */
  lemma {:induction false} UndecodableLeafRejected(store: Store, index: Index, find: Finder, c: Checks, leaf: View)
    requires ContentAddressed(store) && leaf.hash in store && store[leaf.hash] == leaf
    requires leaf.grants.None? && ScansFor(Bundle(store, index, leaf), find)
    ensures !Accepts(Bundle(store, index, leaf), find, c, leaf.hash)
  {
    var b := Bundle(store, index, leaf);
    var walk := Walk(store, leaf, WALK_LIMIT);
    assert walk == [leaf] && walk[..0] == [];
    assert Gather(store, index, walk) == Gather(store, index, walk[..0]) + LinkEntries(store, index, leaf);
    assert b == map[leaf.hash := leaf];
    assert forall g :: find(leaf.hash, g).Some? ==> find(leaf.hash, g).value == leaf;
    var r := Collect(b, leaf.hash, MAX_CHAIN_DEPTH + 1);
    if r.Some? {
      assert !LinkValid(b, find, c, r.value, 0);
    }
  }

  /** A link accepted from the bundle is accepted by the store verifier. */
  lemma {:induction false} LinkCarriesBack(store: Store, index: Index, find: Finder, c: Checks, leaf: View, chain: seq<View>, i: nat)
    requires IsChain(store, leaf, chain) && AllGrants(chain) && i < |chain|
    requires GrantersArePeers(store, chain) && PointersSound(store, index)
    requires ScansFor(Bundle(store, index, leaf), find)
    requires LinkValid(Bundle(store, index, leaf), find, c, chain, i)
    ensures LinkValid(store, StoreFinder(store, index), c, chain, i)
  {
    var b := Bundle(store, index, leaf);
    BundleKeyedByContent(store, index, leaf);
    var found := find(chain[i].hash, chain[i].fields.value.granter.id).value;
    var k :| k in b && b[k] == found;
    BundleSignatureIsPointed(store, index, leaf, chain, i, k);
  }

  /** A bundle that is accepted came from a chain the walk exhausted. */
  lemma {:induction false} AcceptedBundleReachesRoot(store: Store, index: Index, leaf: View, chain: seq<View>)
    requires IsChain(store, leaf, chain) && AllGrants(chain) && GrantersArePeers(store, chain) && PointersSound(store, index)
    requires forall i :: 0 <= i < |chain| ==> chain[i].hash in Bundle(store, index, leaf)
    ensures |chain| <= WALK_LIMIT
  {
    if |chain| > WALK_LIMIT {
      var root := chain[WALK_LIMIT];
      CollectSuffix(store, leaf.hash, MAX_CHAIN_DEPTH + 1, WALK_LIMIT);
      var j := BundleEntryKind(store, index, leaf, chain, root.hash);
      ChainDistinct(store, leaf.hash, MAX_CHAIN_DEPTH + 1, j, WALK_LIMIT);
    }
  }

  /** Necessity: what a bundle-only verifier accepts, the store verifier accepts, and the conditions hold. */
  lemma {:induction false} BundleNeeds(store: Store, index: Index, find: Finder, c: Checks, leaf: View, chain: seq<View>)
    requires IsChain(store, leaf, chain) && PointersSound(store, index) && ScansFor(Bundle(store, index, leaf), find)
    requires Accepts(Bundle(store, index, leaf), find, c, leaf.hash)
    ensures Accepts(store, StoreFinder(store, index), c, leaf.hash)
    ensures leaf.grants.Some? && |chain| <= WALK_LIMIT && GrantedBy(chain, leaf.fields.value.grantee)
  {
    var b := Bundle(store, index, leaf);
    BundleKeyedByContent(store, index, leaf);
    CollectGrows(b, store, leaf.hash, MAX_CHAIN_DEPTH + 1);
    assert leaf.grants.Some? by {
      if leaf.grants.None? { UndecodableLeafRejected(store, index, find, c, leaf); }
    }
    AcceptedDecodes(b, find, c, chain);
    forall i | 0 <= i < |chain| ensures chain[i].hash in b {
      CollectSuffix(b, leaf.hash, MAX_CHAIN_DEPTH + 1, i);
    }
    AcceptedBundleReachesRoot(store, index, leaf, chain);
    forall i | 0 <= i < |chain| ensures LinkValid(store, StoreFinder(store, index), c, chain, i) {
      LinkCarriesBack(store, index, find, c, leaf, chain, i);
    }
    var j := BundleEntryKind(store, index, leaf, chain, leaf.fields.value.grantee);
  }

  /** The exact reach of the bundle.  For a stored leaf whose pointer paths are sound, a verifier that sees nothing but the bundle
      accepts exactly when one with the whole store and index does and, besides, the chain has at
      most 64 links, the leaf decodes as a token, and the leaf is granted to one of
      the identities that grant along the chain. */
  lemma {:induction false} BundleSufficiency(store: Store, index: Index, find: Finder, c: Checks, leaf: View, chain: seq<View>)
    requires IsChain(store, leaf, chain) && PointersSound(store, index) && ScansFor(Bundle(store, index, leaf), find)
    ensures Accepts(Bundle(store, index, leaf), find, c, leaf.hash) <==>
            && Accepts(store, StoreFinder(store, index), c, leaf.hash)
            && leaf.grants.Some? && |chain| <= WALK_LIMIT && GrantedBy(chain, leaf.fields.value.grantee)
  {
    if Accepts(Bundle(store, index, leaf), find, c, leaf.hash) {
      BundleNeeds(store, index, find, c, leaf, chain);
    } else if && Accepts(store, StoreFinder(store, index), c, leaf.hash)
              && leaf.grants.Some? && |chain| <= WALK_LIMIT && GrantedBy(chain, leaf.fields.value.grantee) {
      BundleSuffices(store, index, find, c, leaf, chain);
    }
  }

  /** On a longer chain the capabilities bundled are exactly the first 64. */
  lemma {:induction false} LongChainBundlesFirst64(store: Store, index: Index, leaf: View, budget: nat)
    requires leaf.hash in store && store[leaf.hash] == leaf && Collect(store, leaf.hash, budget).Some?
    requires AllGrants(Collect(store, leaf.hash, budget).value) && |Collect(store, leaf.hash, budget).value| > WALK_LIMIT
    ensures Walk(store, leaf, WALK_LIMIT) == Collect(store, leaf.hash, budget).value[..WALK_LIMIT]
    ensures Bundle(store, index, leaf) == Gather(store, index, Collect(store, leaf.hash, budget).value[..64])
  {
    WalkIsChainPrefix(store, leaf.hash, budget, WALK_LIMIT);
  }

  /** A root capability, its granter's and its grantee's identity, and the granter's signature. */
  function ThirdPartyStore(pid: string, cap: Hash, granter: Hash, grantee: Hash, sig: Hash): Store {
    map[granter := View(granter, TYPE_PEER, None, None, Some(PeerKey([], Some(pid))), None, None)]
       [grantee := View(grantee, TYPE_PEER, None, None, Some(PeerKey([], None)), None, None)]
       [sig := View(sig, TYPE_SIGNATURE, None, None, None, Some(Claim(cap, granter)), Some([]))]
       [cap := View(cap, TYPE_CAPABILITY, Some(ChainFields(Single(granter), grantee, None, None, None)), Some([]), None, None, None)]
  }

  function Permissive(pid: string): Checks {
    Checks(pid, 0, (_, _, _) => true, (_, _, _, _, _) => true, (_, _, _) => true, _ => true)
  }

  lemma {:induction false} ThirdPartyStoreAccepted(pid: string, cap: Hash, granter: Hash, grantee: Hash, sig: Hash)
    requires cap != granter && cap != grantee && cap != sig && granter != grantee && granter != sig && grantee != sig
    ensures var store := ThirdPartyStore(pid, cap, granter, grantee, sig);
            var index := map[SignaturePath(pid, cap) := sig];
            && IsChain(store, store[cap], [store[cap]])
            && PointersSound(store, index)
            && Accepts(store, StoreFinder(store, index), Permissive(pid), cap)
  {
    var store := ThirdPartyStore(pid, cap, granter, grantee, sig);
    var index := map[SignaturePath(pid, cap) := sig];
    assert Collect(store, cap, MAX_CHAIN_DEPTH + 1) == Some([store[cap]]);
    assert PointedSignature(store, index, cap, granter) == Some(store[sig]);
    assert LinkValid(store, StoreFinder(store, index), Permissive(pid), [store[cap]], 0);
    forall p, h | SignaturePath(p, h) in index
      ensures Targets(store[index[SignaturePath(p, h)]], h)
    {
      SignaturePathTarget(p, h, pid, cap);
    }
  }

  /** Why the leaf's grantee matters: a capability the verifying peer itself granted to a third peer is accepted with the
      store at hand, while its bundle lacks the grantee's identity and is rejected. */
  lemma {:induction false} ThirdPartyGranteeIsLeftOut(pid: string, cap: Hash, granter: Hash, grantee: Hash, sig: Hash, find: Finder)
    requires cap != granter && cap != grantee && cap != sig && granter != grantee && granter != sig && grantee != sig
    requires var store := ThirdPartyStore(pid, cap, granter, grantee, sig);
             ScansFor(Bundle(store, map[SignaturePath(pid, cap) := sig], store[cap]), find)
    ensures var store := ThirdPartyStore(pid, cap, granter, grantee, sig);
            var index := map[SignaturePath(pid, cap) := sig];
            && Accepts(store, StoreFinder(store, index), Permissive(pid), cap)
            && !Accepts(Bundle(store, index, store[cap]), find, Permissive(pid), cap)
  {
    var store := ThirdPartyStore(pid, cap, granter, grantee, sig);
    var index := map[SignaturePath(pid, cap) := sig];
    ThirdPartyStoreAccepted(pid, cap, granter, grantee, sig);
    BundleSufficiency(store, index, find, Permissive(pid), store[cap], [store[cap]]);
  }
}
