/** The peers a manager hosts, the SDK registry beneath, and the primary among them. */
module PeerRegistry {
  import opened Wrappers
  import opened Substrate

  type Node = nat

  datatype Metadata = Metadata(alias: Option<string>, persisted: bool, listenAddresses: seq<string>)

  /** A spawn call: its configuration, and the id of the context that was built for it, if building succeeded. */
  datatype SpawnRequest = SpawnRequest(
    identitySource: Option<string>,
    storageKind: Option<string>,
    alias: string,
    listenAddress: string,
    built: Option<string>)

  function IdentitySource(q: SpawnRequest): string {
    if q.identitySource.Some? then q.identitySource.value else "new_keypair"
  }

  function StorageKind(q: SpawnRequest): string {
    if q.storageKind.Some? then q.storageKind.value else "memory"
  }

  /** `phantom` is the SDK's own default peer, which the manager never hosts. */
  datatype Registry = Registry(
    phantom: string,
    hosted: map<string, Node>,
    sdkPeers: set<string>,
    sdkMetadata: map<string, Metadata>,
    primary: Option<string>)

  datatype Event = Spawn(request: SpawnRequest, node: Node) | Remove(pid: string)

  function Fresh(phantom: string): Registry {
    Registry(phantom, map[], {phantom}, map[phantom := Metadata(None, false, [])], None)
  }

  /** The configuration is acceptable, a context could be built, and neither registry knows its id. */
  predicate Accepted(r: Registry, q: SpawnRequest) {
    && IdentitySource(q) == "new_keypair"
    && (StorageKind(q) == "sqlite" || StorageKind(q) == "memory")
    && (StorageKind(q) == "sqlite" ==> q.alias != "")
    && q.built.Some? && q.built.value !in r.hosted && q.built.value !in r.sdkPeers
  }

  function MetadataOf(q: SpawnRequest): Metadata {
    Metadata(if q.alias == "" then None else Some(q.alias), StorageKind(q) == "sqlite",
             if q.listenAddress == "" then [] else [q.listenAddress])
  }

  // ---------- the least id ----------

  ghost predicate IsLeast(ids: set<string>, x: string) {
    x in ids && forall y :: y in ids && y != x ==> Precedes(x, y)
  }

  lemma {:induction false} LeastExists(ids: set<string>)
    requires ids != {}
    ensures exists x :: IsLeast(ids, x)
    decreases |ids|
  {
    var y :| y in ids;
    if ids == {y} {
      assert IsLeast(ids, y);
    } else {
      var rest := ids - {y};
      assert ids == rest + {y};
      LeastExists(rest);
      var x :| IsLeast(rest, x);
      PrecedesTotal(x, y);
      if Precedes(y, x) {
        forall z | z in ids && z != y ensures Precedes(y, z) {
          if z != x { PrecedesTransitive(y, x, z); }
        }
        assert IsLeast(ids, y);
      } else {
        assert IsLeast(ids, x);
      }
    }
  }

  lemma LeastIsUnique(ids: set<string>, x: string, y: string)
    requires IsLeast(ids, x) && IsLeast(ids, y)
    ensures x == y
  {
    if x != y { PrecedesAsymmetric(x, y); }
  }

  ghost function Least(ids: set<string>): (x: Option<string>)
    ensures x.None? <==> ids == {}
    ensures x.Some? ==> IsLeast(ids, x.value)
  {
    if ids == {} then None
    else
      LeastExists(ids);
      var x :| IsLeast(ids, x);
      Some(x)
  }

  // ---------- the operations ----------

  ghost function AfterSpawn(r: Registry, q: SpawnRequest, node: Node): Registry {
    if !Accepted(r, q) then r
    else
      var id := q.built.value;
      r.(hosted := r.hosted[id := node], sdkPeers := r.sdkPeers + {id}, sdkMetadata := r.sdkMetadata[id := MetadataOf(q)],
         primary := if r.primary.None? then Some(id) else r.primary)
  }

  ghost function AfterRemove(r: Registry, pid: string): Registry {
    if pid !in r.hosted then r
    else
      var hosted := r.hosted - {pid};
      var r' := r.(hosted := hosted, primary := if r.primary == Some(pid) then Least(hosted.Keys) else r.primary);
      // the SDK keeps its own default peer
      if pid == r.phantom then r' else r'.(sdkPeers := r.sdkPeers - {pid}, sdkMetadata := r.sdkMetadata - {pid})
  }

  /** The first of the sorted keys. */
  method FirstKey(ids: set<string>) returns (first: Option<string>)
    ensures first == Least(ids)
  {
    first := None;
    var rest := ids;
    ghost var seen: set<string> := {};
    while rest != {}
      invariant seen + rest == ids && seen !! rest
      invariant first.None? ==> seen == {}
      invariant first.Some? ==> IsLeast(seen, first.value)
      decreases |rest|
    {
      var y :| y in rest;
      LeastOfMore(seen, first, y);
      first := Some(Lesser(first, y));
      rest, seen := rest - {y}, seen + {y};
    }
    assert seen == ids;
    LeastIs(ids, first);
  }

  lemma LeastIs(ids: set<string>, first: Option<string>)
    requires first.None? ==> ids == {}
    requires first.Some? ==> IsLeast(ids, first.value)
    ensures first == Least(ids)
  {
    if first.Some? { LeastIsUnique(ids, first.value, Least(ids).value); }
  }

  function Lesser(first: Option<string>, y: string): string {
    if first.None? || Precedes(y, first.value) then y else first.value
  }

  class PeerManager {
    const phantom: string
    var peers: map<string, Node>
    var sdkPeers: set<string>
    var sdkMetadata: map<string, Metadata>
    var primary: Option<string>

    ghost function State(): Registry
      reads this
    {
      Registry(phantom, peers, sdkPeers, sdkMetadata, primary)
    }

    constructor (phantom: string)
      ensures State() == Fresh(phantom)
    {
      this.phantom := phantom;
      peers, sdkPeers, primary := map[], {phantom}, None;
      sdkMetadata := map[phantom := Metadata(None, false, [])];
    }

    method InsertIntoSdk(id: string, metadata: Metadata) returns (ok: bool)
      modifies this`sdkPeers, this`sdkMetadata
      ensures ok == (id !in old(sdkPeers))
      ensures sdkPeers == old(sdkPeers) + {id}
      ensures sdkMetadata == if ok then old(sdkMetadata)[id := metadata] else old(sdkMetadata)
    {
      ok := id !in sdkPeers;
      if ok {
        sdkPeers := sdkPeers + {id};
        sdkMetadata := sdkMetadata[id := metadata];
      }
    }

    method RemoveFromSdk(id: string) returns (known: bool)
      modifies this`sdkPeers, this`sdkMetadata
      ensures known == (id != phantom && id in old(sdkMetadata))
      ensures sdkPeers == if id == phantom then old(sdkPeers) else old(sdkPeers) - {id}
      ensures sdkMetadata == if id == phantom then old(sdkMetadata) else old(sdkMetadata) - {id}
    {
      if id == phantom { return false; }
      known := id in sdkMetadata;
      sdkMetadata := sdkMetadata - {id};
      sdkPeers := sdkPeers - {id};
    }

    method SpawnPeer(q: SpawnRequest, node: Node) returns (ok: bool)
      modifies this
      ensures State() == AfterSpawn(old(State()), q, node) && ok == Accepted(old(State()), q)
    {
      if IdentitySource(q) != "new_keypair" { return false; }
      var kind := StorageKind(q);
      if kind != "sqlite" && kind != "memory" { return false; }
      if kind == "sqlite" && q.alias == "" { return false; }
      if q.built.None? || q.built.value in peers { return false; }
      var id := q.built.value;
      ghost var before := sdkPeers;
      var inserted := InsertIntoSdk(id, MetadataOf(q));
      if !inserted {
        assert sdkPeers == before;
        return false;
      }
      if primary.None? { primary := Some(id); }
      peers := peers[id := node];
      ok := true;
    }

    method RemovePeer(pid: string) returns (removed: bool)
      modifies this
      ensures State() == AfterRemove(old(State()), pid) && removed == (pid in old(peers))
    {
      if pid !in peers { return false; }
      peers := peers - {pid};
      var _ := RemoveFromSdk(pid);
      if primary == Some(pid) {
        primary := FirstKey(peers.Keys);
      }
      removed := true;
    }
  }

  lemma LeastOfMore(seen: set<string>, first: Option<string>, y: string)
    requires first.None? ==> seen == {}
    requires first.Some? ==> IsLeast(seen, first.value)
    requires y !in seen
    ensures IsLeast(seen + {y}, Lesser(first, y))
  {
    if first.Some? {
      PrecedesTotal(y, first.value);
      if Precedes(y, first.value) {
        forall z | z in seen && z != first.value ensures Precedes(y, z) {
          PrecedesTransitive(y, first.value, z);
        }
      }
    }
  }

  // ---------- every run ----------

  ghost function Next(r: Registry, e: Event): Registry {
    match e
    case Spawn(q, node) => AfterSpawn(r, q, node)
    case Remove(pid) => AfterRemove(r, pid)
  }

  ghost function Exec(r: Registry, events: seq<Event>): Registry {
    if events == [] then r else Next(Exec(r, events[..|events| - 1]), events[|events| - 1])
  }

  /** The two registries agree but for the phantom, and the primary is a hosted peer whenever there is one. */
  ghost predicate Consistent(r: Registry) {
    && r.phantom !in r.hosted
    && r.sdkPeers == r.hosted.Keys + {r.phantom} && r.sdkMetadata.Keys == r.sdkPeers
    && (r.primary.None? <==> r.hosted == map[])
    && (r.primary.Some? ==> r.primary.value in r.hosted)
  }

  lemma ConsistentStep(r: Registry, e: Event)
    requires Consistent(r)
    ensures Consistent(Next(r, e)) && Next(r, e).phantom == r.phantom
  {
    if e.Spawn? && Accepted(r, e.request) {
      var id := e.request.built.value;
      assert Next(r, e).hosted.Keys == r.hosted.Keys + {id};
    } else if e.Remove? && e.pid in r.hosted {
      var r' := Next(r, e);
      assert r'.hosted.Keys == r.hosted.Keys - {e.pid};
      assert r'.hosted == map[] <==> r'.hosted.Keys == {};
    }
  }

  /** Over every run of spawns, failing ones included, and removals, from a fresh manager: the SDK knows exactly the hosted peers and
      the phantom, and the primary is missing only when nothing is hosted. */
  lemma {:induction false} RegistryStaysConsistent(phantom: string, events: seq<Event>)
    ensures Consistent(Exec(Fresh(phantom), events)) && Exec(Fresh(phantom), events).phantom == phantom
    decreases |events|
  {
    if events != [] {
      RegistryStaysConsistent(phantom, events[..|events| - 1]);
      ConsistentStep(Exec(Fresh(phantom), events[..|events| - 1]), events[|events| - 1]);
    }
  }

  /** The last event of the run about the peer is a spawn the manager takes: a new keypair, a known storage kind, for a persistent one an alias, a
      context that could be built, and an id that neither hosts already nor is the SDK's own. */
  ghost predicate LastSpawned(phantom: string, events: seq<Event>, id: string, k: int) {
    && 0 <= k < |events| && events[k].Spawn? && events[k].request.built == Some(id)
    && var q := events[k].request;
    && (q.identitySource.None? || q.identitySource == Some("new_keypair"))
    && (q.storageKind.None? || q.storageKind == Some("memory") || (q.storageKind == Some("sqlite") && q.alias != ""))
    && id != phantom && id !in Exec(Fresh(phantom), events[..k]).hosted
    && forall j :: k < j < |events| ==> events[j] != Remove(id)
  }

  /** The registries hold, under the id, what that spawn said. */
  ghost predicate HoldsSpawn(r: Registry, id: string, e: Event)
    requires e.Spawn?
  {
    && id in r.hosted && r.hosted[id] == e.node && id in r.sdkMetadata
    && var m := r.sdkMetadata[id];
    && m.alias == (if e.request.alias == "" then None else Some(e.request.alias))
    && (m.persisted <==> e.request.storageKind == Some("sqlite"))
    && m.listenAddresses == if e.request.listenAddress == "" then [] else [e.request.listenAddress]
  }

  ghost predicate WasSpawned(phantom: string, events: seq<Event>, id: string) {
    exists k :: LastSpawned(phantom, events, id, k)
  }

  lemma {:induction false} AcceptedExactly(phantom: string, r: Registry, q: SpawnRequest, id: string)
    requires Consistent(r) && r.phantom == phantom
    ensures Accepted(r, q) && q.built == Some(id) <==>
            && q.built == Some(id)
            && (q.identitySource.None? || q.identitySource == Some("new_keypair"))
            && (q.storageKind.None? || q.storageKind == Some("memory") || (q.storageKind == Some("sqlite") && q.alias != ""))
            && id != phantom && id !in r.hosted
  {}

  lemma {:induction false} SpawnedSnoc(phantom: string, events: seq<Event>, e: Event, id: string)
    ensures var r := Exec(Fresh(phantom), events);
            WasSpawned(phantom, events + [e], id) <==>
            (e.Spawn? && Accepted(r, e.request) && e.request.built == Some(id)) || (WasSpawned(phantom, events, id) && e != Remove(id))
  {
    var all, r := events + [e], Exec(Fresh(phantom), events);
    RegistryStaysConsistent(phantom, events);
    if e.Spawn? { AcceptedExactly(phantom, r, e.request, id); }
    assert all[..|events|] == events && all[|events|] == e;
    forall k | 0 <= k < |events|
      ensures LastSpawned(phantom, all, id, k) <==> LastSpawned(phantom, events, id, k) && e != Remove(id)
    {
      assert all[..k] == events[..k];
    }
    assert LastSpawned(phantom, all, id, |events|) <==> e.Spawn? && Accepted(r, e.request) && e.request.built == Some(id);
    if k :| LastSpawned(phantom, all, id, k) { assert k < |events| ==> LastSpawned(phantom, events, id, k); }
    if k :| LastSpawned(phantom, events, id, k) { assert e != Remove(id) ==> LastSpawned(phantom, all, id, k); }
  }

  /** Over every run: a peer is hosted if and only if it was spawned, by a request the manager takes, and not removed since. */
  lemma {:induction false} HostedExactly(phantom: string, events: seq<Event>, id: string)
    ensures id in Exec(Fresh(phantom), events).hosted <==> WasSpawned(phantom, events, id)
    decreases |events|
  {
    if events != [] {
      var front, e := events[..|events| - 1], events[|events| - 1];
      assert events == front + [e];
      HostedExactly(phantom, front, id);
      SpawnedSnoc(phantom, front, e, id);
    }
  }

  /** And its node, alias, persistence and listen address are those of that spawn. */
  lemma {:induction false} HostedAsSpawned(phantom: string, events: seq<Event>, id: string, k: nat)
    requires LastSpawned(phantom, events, id, k)
    ensures HoldsSpawn(Exec(Fresh(phantom), events), id, events[k])
    decreases |events|
  {
    var n := |events| - 1;
    var front, e := events[..n], events[n];
    var r := Exec(Fresh(phantom), front);
    RegistryStaysConsistent(phantom, front);
    if k == n {
      AcceptedExactly(phantom, r, e.request, id);
    } else {
      assert front[..k] == events[..k];
      assert LastSpawned(phantom, front, id, k);
      HostedAsSpawned(phantom, front, id, k);
    }
  }

  /** After any run: removing the primary promotes the least id that is left, if any; no other event takes the primary away
      from a peer; and the SDK never refuses to drop a hosted peer. */
  lemma PrimaryOnlyMovesByRemoval(phantom: string, events: seq<Event>, e: Event)
    ensures var r := Exec(Fresh(phantom), events);
            && (r.primary.Some? && e != Remove(r.primary.value) ==> Next(r, e).primary == r.primary)
            && (r.primary.Some? && e == Remove(r.primary.value) ==>
                  var left := r.hosted.Keys - {e.pid};
                  if left == {} then Next(r, e).primary.None?
                  else Next(r, e).primary.Some? && IsLeast(left, Next(r, e).primary.value))
            && (e.Remove? && e.pid in r.hosted ==> e.pid != phantom && e.pid in r.sdkMetadata)
  {
    RegistryStaysConsistent(phantom, events);
    var r := Exec(Fresh(phantom), events);
    if e.Remove? && e.pid in r.hosted {
      assert (r.hosted - {e.pid}).Keys == r.hosted.Keys - {e.pid};
    }
  }
}
