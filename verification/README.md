# Entity bindings: a verified model

A Dafny model of the binding layer of the entity peer: the Rust SDK, the Godot nodes and the C interface that sit on top of
a content store (hash to entity) and a location index (path to hash). It models the layer's protocols and loops
and proves, for all inputs, runs and reachable states, what they are for.

| file | models |
|---|---|
| `Wrappers.dfy`, `Substrate.dfy`, `Cbor.dfy` | outcome types; hashes, entities, paths, the order of strings; the CBOR data model and what canonical encoding may reorder |
| `MirrorFollow.dfy`, `ContinuationFollow.dfy` | following a remote subtree, by change events and by extract-and-merge continuations |
| `CertPaths.dfy`, `Ceremony.dfy`, `CeremonyReads.dfy` | certificate paths; the bootstrap ceremony as a sequence of writes; what bootstrap and restore leave, read back through the parser |
| `BundleCodec.dfy`, `BundleRestore.dfy`, `BundleRoundTrip.dfy`, `BootstrapRoundTrip.dfy` | the portable identity bundle: parser and printer, restore, the export-restore-export round trip, and the same from a bootstrap on |
| `CrossPeerCap.dfy`, `CrossPeerMint.dfy` | the bundle of a capability chain against the verifier it is meant for; minting a capability |
| `HandlerBridge.dfy`, `OpFuture.dfy` | the bridges between worker threads and the script's main thread |
| `HandleMap.dfy`, `EcfBuilder.dfy`, `EcfThreads.dfy` | the handle table, concurrently; building values through handles, call by call and with calls interleaved |
| `VariantCodec.dfy`, `ConfigFile.dfy`, `ShellTick.dfy`, `PeerRegistry.dfy` | value conversion, the configuration file, the drain loop, the peer registry |

`dafny verify dfyconfig.toml` checks the project.

How the source is put into Dafny. Code that interleaves (spawned tasks, worker threads, two-step inserts) is a state machine with one
step per stretch that nothing else can split, and a run is any sequence of enabled steps. Objects and loops are classes and
methods with the source's fields, each proved against a function, about which the laws are then proved. The
collaborators are parameters with stated hypotheses: hashing (no two entities in play share a hash), signing (a function of its
message, as in section 5.1.6 of RFC 8032), canonical encoding and parsing (a value comes back with its map entries in some
order, section 4.2.1 of RFC 8949, and its tags gone), the clock, the remote's answers, and the configure call.

Where the code does not meet what one would expect of it, the model follows the code and says exactly when the law holds:

- The bundle of a capability chain leaves out the identity of the leaf's grantee, and walks 64 capabilities where the
  verifier walks 65. `CrossPeerCap.BundleSufficiency` is the exact condition; a capability the peer mints itself
  meets it up to the length (`CrossPeerMint.MintedBundleReach`).
- Request ids of script handlers are counted per handler from the same start, though one map holds all of them
  (the field's comment says the counter is reset on stop; nothing changes it). `HandlerBridge.IdsDifferExactly` says when ids name one
  invocation, `HandlerBridge.ResponseReachesAnnounced` that responses then arrive, `HandlerBridge.SharedIdsMisdeliver` what
  is always possible with two handlers, and `HandlerBridge.ResponseGoesToHolder` where a response goes with any number of them.
- Change events of one path may be applied out of order, since each is its own task: `MirrorFollow.OvertakingTasksDiverge`.
  `MirrorFollow.PathConvergedExactly` is the exact condition, `MirrorFollow.AppliedPathConverged` the one a scheduler can meet.
- Continuation follow does not carry deletions: `ContinuationFollow.DeletionIsNotMirrored`; `ContinuationFollow.SubtreesEqualExactly`
  says when the subtrees are equal all the same. (A comment on the options still calls this mode not yet
  implemented; the code implements it.)
- A ceremony stopped halfway can be run again, but for a peer-config path bound to a hash that was not stored and that the ceremony
  itself stores: `Ceremony.BootstrapIsRestartable`, `BundleRestore.RestoreIsRestartable`.
- In a process whose home hash format is not SHA-256, no identity bundle can be read: `BundleCodec.PeerBundleNeedsSha256Home`.
- A label with a newline does not survive the configuration file: `ConfigFile.LabelSurvivesExactly`.
- The comment on removing a peer says the manager has no notion of primary; the code promotes one.

## Model

| member | source | states |
|---|---|---|
| `MirrorFollow.MirrorHoldsOnlyRemoteValues` | bindings/sdk/src/follow.rs:571-648 | For every interleaving of remote writes, deliveries, fetches and local puts, with no ordering assumption: whatever the mirror holds at a path is its starting value or a value (or absence) the remote wrote at that very path; paths without an event are untouched; the generation counter moved once per put that succeeded |
| `MirrorFollow.MirrorIsLastPut` | bindings/sdk/src/follow.rs:581-635 | With no ordering assumption, the mirror holds at each path what the last successful put of the run carried there, or its starting value if there was none |
| `MirrorFollow.PathConvergedExactly` | bindings/sdk/src/follow.rs:571-648 | The exact law: for a path with an event, mirror and remote agree if and only if the last put of the run there carried what the latest event wrote (or, without a put, the starting value was that already) |
| `MirrorFollow.EventIsPutExactly` | bindings/sdk/src/follow.rs:581-612 | From the steps of a run alone: an event whose deletion or payload was delivered, or whose fetch was answered while the path was bound, has a put of that deletion, payload or remote value as its one next step; it is applied if and only if that put succeeded; and until then its delivery and fetch are possible |
| `MirrorFollow.WatchedPaths` | bindings/sdk/src/follow.rs:474-479 | The follow watches exactly the paths below the prefix as a directory, given with or without the slash |
| `MirrorFollow.AppliedPathConverged` | bindings/sdk/src/follow.rs:581-612 | Path by path: if the puts of one path were in event order, whatever happened at the others, and its last event was given its value (deletion, payload or fetch hit) and put, the mirror holds there exactly the remote's value or absence |
| `MirrorFollow.SubtreeConverged` | bindings/sdk/src/follow.rs:571-648 | When the puts of each path were in event order, the last event of every path was given its value and put, and the trees agreed at the start, the mirrored subtree equals the remote one |
| `MirrorFollow.OvertakingTasksDiverge` | bindings/sdk/src/follow.rs:574-579 | The ordering hypothesis is needed: a concrete run in which two updates of one path are both delivered and put, and the mirror keeps the older |
| `ContinuationFollow.ExtractAt` | core/tree/src/lib.rs:1997-2130 | An extract as the follow requests it holds at each relative path what the tree holds at prefix plus path if the caller may read it, and nothing else |
| `ContinuationFollow.MergeAt` | core/tree/src/lib.rs:1900-1953 | A source-wins merge writes each binding at prefix plus relative path and leaves every other path alone |
| `ContinuationFollow.KeptByRun` | bindings/sdk/src/follow.rs:357-468 | Kept by every run in extract order: an envelope that saw all writes holds the present subtree; a write the newest envelope missed has a trigger waiting; what the newest merged envelope brought is still in the local tree |
| `ContinuationFollow.FollowLeavesNoGap` | bindings/sdk/src/follow.rs:357-468 | However remote writes fall between the installs, the subscription, the bootstrap and the triggered extracts, once set up with no trigger waiting and the newest envelope merged, every readable path of the remote subtree is bound to the same entity at the same local path |
| `ContinuationFollow.MirrorGrowsByMergesOnly` | core/tree/src/lib.rs:1900-1953 | Over every run, in whatever order envelopes are merged: a path is in the mirror if and only if it was there at the start or a merged envelope brought it, and nothing outside the prefix changes |
| `ContinuationFollow.TriggersWait` | bindings/sdk/src/follow.rs:357-468 | At every moment the triggers waiting are the subtree writes since the subscription that no extract has consumed, whether the bootstrap succeeded, failed or has not run |
| `ContinuationFollow.EnvelopesAreToldBySteps` | bindings/sdk/src/follow.rs:357-468 | An envelope can be merged if and only if its extract succeeded and no merge of it was tried, and is merged if and only if that succeeded |
| `ContinuationFollow.SubtreesEqualExactly` | bindings/sdk/src/follow.rs:357-468 | At quiescence the mirror equals the readable remote subtree if and only if every path under the prefix that the starting mirror or a merged envelope bound is still bound, and readable, remotely |
| `ContinuationFollow.DeletionIsNotMirrored` | bindings/sdk/src/follow.rs:498-540 | The law cannot be strengthened to equality: a concrete run in order, ending quiescent, after which a deleted path is still in the mirror |
| `Substrate.SignaturePathTarget` | core/hash/src/lib.rs:392-420 | A signature pointer path determines the signer's peer id and the target hash |
| `Substrate.FromBytesExactly` | core/hash/src/lib.rs:235-253 | A hash is read only from its own bytes, but for a padded format |
| `CrossPeerCap.AddLink` | bindings/sdk/src/cross_peer_cap.rs:225-264 | One turn of the walk adds exactly the capability, its granter's identity and the signature its pointer path leads to |
| `CrossPeerCap.BundleWalk` | bindings/sdk/src/cross_peer_cap.rs:215-279 | The walk loop, for any depth limit, gathers the entries of the capabilities on the parent path up to that limit |
| `CrossPeerCap.BundleCrossPeerChain` | bindings/sdk/src/cross_peer_cap.rs:215-279 | The bundle of a leaf is what gathering over its first 64 links gives |
| `CrossPeerCap.BundleKeyedByContent` | bindings/sdk/src/cross_peer_cap.rs:215-279 | Every bundle entry is keyed by its own content hash and is the stored entity of that hash |
| `CrossPeerCap.LongChainBundlesFirst64` | bindings/sdk/src/cross_peer_cap.rs:224-276 | On a decodable chain of more than 64 links, the capabilities walked are exactly the first 64 |
| `CrossPeerCap.BundleSuffices` | core/protocol/src/verify.rs:893-1215 | A chain the store-and-index verifier accepts, of at most 64 links, whose leaf decodes and is granted to one of the chain's granters, is accepted by a verifier that sees only the bundle, whatever order it scans it in |
| `CrossPeerCap.BundleNeeds` | core/protocol/src/verify.rs:406-441 | Conversely, what a bundle-only verifier accepts the full verifier accepts, and each of those conditions holds |
| `CrossPeerCap.BundleSufficiency` | bindings/sdk/src/cross_peer_cap.rs:215-279 | The exact reach of the bundle: bundle-only acceptance holds if and only if full acceptance holds, the leaf decodes, the chain has at most 64 links and the leaf's grantee is a granter on the chain |
| `CrossPeerCap.ThirdPartyGranteeIsLeftOut` | bindings/sdk/src/cross_peer_cap.rs:236-264 | A concrete family: a capability granted to a third peer is accepted with the store at hand and rejected from its bundle, which lacks the grantee's identity |
| `CrossPeerMint.PeerContext.MintCapability` | bindings/sdk/src/cross_peer_cap.rs:77-194 | The mint leaves store and index, and answers, as specified; a leaf it hands out is by and for the local identity, under the connection grant, with the caller's grants and expiry and no start, hashed with this moment; grant, leaf, identity and signature are stored, and the leaf's pointer path leads to its signature |
| `CrossPeerMint.MintSucceedsExactly` | bindings/sdk/src/cross_peer_cap.rs:77-194 | A mint succeeds if and only if a remote and some grants are named, the connection conferred a grant, no hash is zero, the capability can be built, the three entities are or can be stored, and the pointer path is free or right |
| `CrossPeerMint.MintRefusals` | bindings/sdk/src/cross_peer_cap.rs:83-186 | What each refusal says about the call and the peer |
| `CrossPeerMint.LapsedLeafIsRejected` | core/protocol/src/verify.rs:893-1215 | Once the requested expiry has come, no verifier accepts the leaf, with the whole store or with any other entities that hold it |
| `CrossPeerMint.MintExtends` | bindings/sdk/src/cross_peer_cap.rs:117-193 | A mint changes no stored entity and no binding; anything newly bound is the peer's own signature path of a capability, bound to a stored signature |
| `CrossPeerMint.MintsNeverRebind` | bindings/sdk/src/cross_peer_cap.rs:77-194 | The same over any sequence of mints, failing ones included |
| `CrossPeerMint.MintNeverFindsPathTaken` | bindings/sdk/src/cross_peer_cap.rs:177-186 | As signing is deterministic, after any sequence of mints no mint finds its signature path bound to a different hash, on a peer whose own paths agreed with its key |
| `CrossPeerMint.RemintIsIdempotent` | bindings/sdk/src/cross_peer_cap.rs:174-193 | Re-minting with the same arguments and clock reading, after any further mints, succeeds with the same leaf and changes nothing |
| `CrossPeerMint.MintComposesWithBundle` | bindings/sdk/src/cross_peer_cap.rs:162-193 | After every successful mint the bundle of the leaf holds the leaf, the connection grant above it, the local identity and the leaf's signature |
| `CrossPeerMint.MintedBundleReach` | core/capability/src/mint.rs:100-157 | A minted leaf's bundle is accepted exactly when the full verifier accepts it and the chain has at most 64 links |
| `HandlerBridge.InvStep` | bindings/godot/src/peer_node.rs:758-814 | Kept by every step: the map and the parked senders mirror each other, only the current channel is open, on a dropped channel a sender waits only during a stop, ids follow the counters, and each accepted response is its invocation's only delivery |
| `HandlerBridge.NoInvocationOutlivesStop` | bindings/godot/src/peer_node.rs:1360-1391 | After a completed stop, an invocation of the stopped bridge has at most three own steps to go, each uses one up, and at every later moment outside a further stop it is over or able to take its next step without waiting for anybody |
| `HandlerBridge.ResponsesAreDeliveredOnce` | bindings/godot/src/peer_node.rs:858-916 | Over every run, each accepted response reached an invocation holding the id it named, no invocation accepted two, and a body returns only a response that was delivered to it |
| `HandlerBridge.AnswersAreReturned` | bindings/godot/src/peer_node.rs:782-814 | Over every run, a body whose request was sent returns a response if and only if that very response was accepted for it, a waiting body whose response was accepted can return it at once, and a body reports a dropped bridge only on a closed channel |
| `HandlerBridge.ChannelDropsHaveACause` | bindings/godot/src/peer_node.rs:773-806 | A body that reports a dropped one-shot lost its sender to the end of a stop or to another invocation's use of its id, at some step of the run |
| `HandlerBridge.HandlerServesUntilStop` | bindings/godot/src/peer_node.rs:744-788 | From its registration until the next stop a handler's channel is open, and none of its bodies reports a dropped bridge |
| `HandlerBridge.IdsDifferExactly` | bindings/godot/src/peer_node.rs:756-762 | Over every run, all invocations carry different ids if and only if at most one handler was ever invoked, and that one at most 2^64 times |
| `HandlerBridge.HandlerIdsDiffer` | bindings/godot/src/peer_node.rs:758-762 | Within one handler, below 2^64 invocations, an id names one invocation, whatever other handlers do |
| `HandlerBridge.ResponseReachesAnnounced` | bindings/godot/src/peer_node.rs:858-916 | Under that condition an accepted response naming the id under which an invocation was announced, through the script's signed integers, went to that invocation |
| `HandlerBridge.SharedIdsMisdeliver` | bindings/godot/src/peer_node.rs:756-759 | Otherwise the clash is always ahead: from every reachable state outside a stop with two handlers on an open channel, some run makes the answer to a request of one land in an invocation of the other, while the one asked reports a dropped channel |
| `HandlerBridge.ResponseGoesToHolder` | bindings/godot/src/peer_node.rs:858-916 | With any number of handlers, after any run and outside a stop, a response is accepted for an invocation if and only if that invocation inserted the id it names last and has not been taken since; without such a holder it is dropped |
| `OpFuture.PeerOpFuture.TryComplete` | bindings/godot/src/peer_op_future.rs:246-266 | Polling takes the slot, caches and queues the converted result once, and answers whether the future has emitted |
| `OpFuture.PeerOpFuture.FailWith` | bindings/godot/src/peer_op_future.rs:279-288 | Force-completing queues `Nil` once, and does nothing to a future that has emitted |
| `OpFuture.PeerOpFuture.Result` | bindings/godot/src/peer_op_future.rs:313-318 | What a late caller reads is the one value that was emitted, and `Nil` before any was |
| `OpFuture.EntityPeer.Process` | bindings/godot/src/peer_node.rs:538-541 | One frame polls every pending future once and keeps exactly those that have not emitted, in order |
| `OpFuture.EntityPeer.Stop` | bindings/godot/src/peer_node.rs:1360-1363 | A stop force-completes every pending future and empties the list |
| `OpFuture.Frame` | bindings/godot/src/peer_node.rs:538-541 | A frame of the peer object is a run of the machine: begin, poll every pending future, end |
| `OpFuture.StopNow` | bindings/godot/src/peer_node.rs:1360-1363 | A stop of the peer object is a run of the machine: begin, force-complete every pending future, end |
| `OpFuture.CompletionIsExactlyOnce` | bindings/godot/src/peer_node.rs:538-541 | Over every interleaving of worker fills, frames and stops, each pushed future is held and silent, or let go of with exactly one emit, of the value it caches |
| `OpFuture.StopCompletesAll` | bindings/godot/src/peer_node.rs:1360-1363 | When a stop ends, every future pushed so far has emitted exactly once |
| `OpFuture.ResultNeverChanges` | bindings/godot/src/peer_op_future.rs:246-288 | Once emitted, what a future emitted and caches never changes |
| `OpFuture.EmittedValueIsWorkersIffSeen` | bindings/godot/src/peer_op_future.rs:246-288 | The emitted value is the worker's result if a frame saw it before any stop reached the future, and `Nil` otherwise |
| `OpFuture.SeenResultIsEmitted` | bindings/godot/src/peer_op_future.rs:246-288 | No worker's result is lost: once a frame has polled a future whose slot was filled, no stop having come first, it has emitted that result |
| `HandleMap.HandleMap.Insert` | bindings/ffi/src/handles.rs:30-34 | Insertion draws the counter, which wraps, and stores the value under it |
| `HandleMap.HandleMap.WithMut` | bindings/ffi/src/handles.rs:43-46 | Mutation replaces exactly the value under the handle, if there is one |
| `HandleMap.HandleMap.Remove` | bindings/ffi/src/handles.rs:49-51 | Removal returns the value and leaves the handle invalid |
| `HandleMap.TableHoldsLiveValues` | bindings/ffi/src/handles.rs:21-52 | For any interleaving of the two steps of insert with removals and mutations, up to 2^64 - 1 insertions: a handle is in the table exactly when its insertion is published and not removed, and holds that insertion's value as mutated through that handle |
| `HandleMap.HandleReadsItsTicket` | bindings/ffi/src/handles.rs:37-40 | Reading through a handle sees its own insertion's value as mutated through it while that is live, and nothing before it is published or after it is removed |
| `HandleMap.InsertIsTwoSteps` | bindings/ffi/src/handles.rs:30-34 | An undisturbed insertion is the reservation and the publication of one ticket, leaving the counter and table the object's method leaves |
| `HandleMap.HandlesUniqueExactlyBelowWrap` | bindings/ffi/src/handles.rs:21-34 | Handles are all nonzero and different if and only if there were at most 2^64 - 1 insertions |
| `HandleMap.InsertCall` | bindings/ffi/src/handles.rs:30-34 | A call of `Insert` on the object runs as the reservation and publication of one new ticket of the concurrent machine, and returns that ticket's id |
| `HandleMap.MutateCall` | bindings/ffi/src/handles.rs:43-46 | A call of `WithMut` runs as one mutation; it answers if and only if the handle is live, with the closure's result on the live ticket's value |
| `HandleMap.RemoveCall` | bindings/ffi/src/handles.rs:49-51 | A call of `Remove` runs as one removal; it answers if and only if the handle is live, handing over the live ticket's value, and that ticket is removed |
| `HandleMap.RemovedNeverValidAgain` | bindings/ffi/src/handles.rs:30-51 | Whatever follows, a removed handle is never in the table again |
| `EcfBuilder.Builder.CreateArray` | bindings/ffi/src/ecf.rs:74-89 | The array loop takes handles one by one and loses what it took when one is not there |
| `EcfBuilder.Builder.InsertIntoMap` | bindings/ffi/src/ecf.rs:99-137 | Map insertion consumes key, then value, then pushes onto the map; the first failure refuses, and what was consumed stays consumed |
| `EcfBuilder.Builder.CreateValue` | bindings/ffi/src/ecf.rs:40-66 | A created value is stored under the next handle |
| `EcfBuilder.Builder.FreeValue` | bindings/ffi/src/ecf.rs:145-147 | Freeing takes the handle out of the table, known or not |
| `EcfBuilder.Builder.EncodeValue` | bindings/ffi/src/ecf.rs:155-165 | Encoding consumes the handle and yields the value it held |
| `EcfBuilder.CallStep` | bindings/ffi/src/ecf.rs:74-165 | Each builder call does to the table, and answers, exactly what a reference that only records which handle was put into which says |
| `EcfBuilder.TableHoldsTerms` | bindings/ffi/src/ecf.rs:74-165 | After every trace, with stale, repeated and self-referencing handles and partial failures, the table holds exactly the live handles, each with the term the record of the trace gives it |
| `EcfBuilder.RepliesAgree` | bindings/ffi/src/ecf.rs:74-165 | Every answer of every trace, encoded values included, is the reference's |
| `EcfBuilder.NothingIsSharedTwice` | bindings/ffi/src/handles.rs:30-51 | Whatever the trace, a handle is a child in at most one place of one container, and never while still in the table |
| `EcfThreads.TermsHoldAcrossThreads` | bindings/ffi/src/ecf.rs:74-137 | Over every interleaving of any number of builder calls, lock by lock, up to 2^64 - 1 ids: the handles in the table are exactly the live ones of the reference, each holding the term the reference gives it, and what a call holds in its hands are the terms its handles stood for when they were taken |
| `EcfThreads.EveryValueIsInOnePlace` | bindings/ffi/src/ecf.rs:74-137 | Over every such interleaving each value ever published is in exactly one place, be it in the table, a member of one container, in the hands of one call, or discarded; nothing unpublished is anywhere, and members were taken before their container |
| `EcfThreads.TableRuns` | bindings/ffi/src/handles.rs:21-52 | Every run of the builder threads makes a run of the handle table's own machine |
| `EcfThreads.CallAlone` | bindings/ffi/src/ecf.rs:40-165 | An undisturbed run of a call's steps leaves the counter and table that the builder object's method leaves |
| `VariantCodec.EncodeVariant` | bindings/godot/src/cbor_util.rs:165-238 | The encoder's loops compute the recursive conversion, first error included |
| `VariantCodec.DecodeValue` | bindings/godot/src/cbor_util.rs:244-286 | The decoder's loops compute the recursive conversion, first error included |
| `VariantCodec.EncodesExactly` | bindings/godot/src/cbor_util.rs:165-238 | Encoding succeeds if and only if every part is supported, dictionary keys are strings, and nothing lies more than 64 levels down |
| `VariantCodec.RoundTrip` | bindings/godot/src/cbor_util.rs:165-286 | Such a value, encoded and with its map entries reordered in any way at every level, decodes to an equal value |
| `VariantCodec.DecoderFailsAsWalk` | bindings/godot/src/cbor_util.rs:443-471 | The decoder's verdict and first error are those of the reference walk, on every value |
| `VariantCodec.DecodesToMeaning` | bindings/godot/src/cbor_util.rs:244-286 | On any input that decodes: tags say nothing, a number goes to the nearest representable one, and a dictionary has the keys in the order of their first entries, each with the value of its last |
| `VariantCodec.EncodingErrorsAreReal` | bindings/godot/src/cbor_util.rs:165-238 | An encoding error names nesting beyond the limit, a key of that kind that is no string, or a part of that unsupported kind, which the value really has |
| `BundleCodec.DecodeBundle` | bindings/sdk/src/identity_bundle.rs:184-285 | The parser's loop over the top-level entries computes the specification, including its early exit and the checks after the loop |
| `BundleCodec.DecodesExactly` | bindings/sdk/src/identity_bundle.rs:184-285 | On every value: decoding yields a bundle if and only if the value is a map without the private-key field whose last in-range version is 2, whose last byte-string identity hash parses and whose last identity entity can be rebuilt; the bundle holds these, the last label, and what can be read of all arrays and property maps under their keys |
| `BundleCodec.DecodeRefusals` | bindings/sdk/src/identity_bundle.rs:184-285 | Exactly when each refusal is given, the unsupported-version one for a last version other than 2, with that number |
| `BundleCodec.PrintedInKeyOrder` | bindings/sdk/src/identity_bundle.rs:141-181 | The printed keys stand in alphabetical order, each once, whichever optional fields are there |
| `BundleCodec.ParseEntityLoop` | bindings/sdk/src/identity_bundle.rs:304-327 | The entity parser keeps the last type entry and the last byte-string data entry, and rebuilds the entity |
| `BundleCodec.ParseEntityExactly` | bindings/sdk/src/identity_bundle.rs:304-327 | A value is read as an entity if and only if it is a map whose last type is text, with a byte-string data, neither empty, and the home format builds that type |
| `BundleCodec.RoundTripExactly` | bindings/sdk/src/identity_bundle.rs:144-285 | A bundle survives encoding and decoding if and only if each of its entities is the one `Entity::new` builds on the reading side |
| `BundleCodec.DecodingIsStable` | bindings/sdk/src/identity_bundle.rs:184-285 | Decode, encode, decode equals one decode, whatever was dropped or ignored on the way in |
| `BundleCodec.LegacyKeyAlwaysRejected` | bindings/sdk/src/identity_bundle.rs:213-222 | A `keypair_pem` key anywhere at the top level, and nothing else, gives the legacy error |
| `BundleCodec.PeerBundleNeedsSha256Home` | core/entity/src/lib.rs:105-153 | In a process whose home format is not SHA-256 no bundle of a `system/peer` identity decodes |
| `CertPaths.CanonicalCertPathInjective` | bindings/sdk/src/identity.rs:478-505 | A canonical certificate path determines the certificate, its mode and its contact |
| `CertPaths.FirstValueReordered` | bindings/sdk/src/identity.rs:519-548 | What the property readers find under a key that occurs once does not depend on the order of the entries |
| `Ceremony.BuildControllerProperties` | bindings/sdk/src/identity_bootstrap.rs:522-543 | The properties are, as a multiset, the three pinned ones and the caller's others, in the order of their keys |
| `Ceremony.PinnedOnce` | bindings/sdk/src/identity_bootstrap.rs:522-543 | Each pinned key occurs once with its pinned value, whatever the caller supplied |
| `Ceremony.SameCertPath` | bindings/sdk/src/identity_bundle.rs:553-578 | Bootstrap and restore choose the same path for the controller certificate and restore recognises it as one, for any caller-supplied properties |
| `Ceremony.PeerSpace.SignAndBind` | bindings/sdk/src/identity_bootstrap.rs:550-580 | The signature of a certificate is stored and then bound at the signer's path for it |
| `Ceremony.PeerSpace.WriteCert` | bindings/sdk/src/identity_bootstrap.rs:358-379 | A certificate is stored, its signature stored and bound, and only then is it bound |
| `Ceremony.PeerSpace.WriteBootstrap` | bindings/sdk/src/identity_bootstrap.rs:331-379 | The writes of the ceremony, in order, are those of the plan, as far as the entities can be built |
| `Ceremony.PeerSpace.RunBootstrap` | bindings/sdk/src/identity_bootstrap.rs:284-412 | The ceremony's option checks, guard, writes and configure call leave the space and answer as specified |
| `CeremonyReads.BootstrapLeaves` | bindings/sdk/src/identity_bootstrap.rs:331-412 | A bootstrap that comes as far as configure has added exactly its identity entity, a quorum whose only signer is the identity, with threshold one and the label, a certificate in which that quorum attests the identity, with the pinned and the caller's properties, and the peer's signature of that certificate's hash, each at its path; it reports that quorum and certificate and what configure issued. Entities are read back through the parser |
| `CeremonyReads.BootstrapVerdict` | bindings/sdk/src/identity_bootstrap.rs:288-343 | Where the home format is allocated and encoding yields bytes: which bootstraps come as far as configure, and what every other one answers, with nothing written |
| `Ceremony.RewritingFromStart` | bindings/sdk/src/identity_bootstrap.rs:331-379 | For any list of writes, writing a first part and then the whole list comes to writing the list once |
| `Ceremony.BootstrapIsRestartable` | bindings/sdk/src/identity_bootstrap.rs:284-412 | Stopped after any of its writes and run again with the same key and options, bootstrap leaves the same store and index and answers the same as one uninterrupted run, if and only if those writes did not store the hash of a peer-config path that led nowhere (or the run is forced) |
| `Ceremony.FurtherRunsChangeNothing` | bindings/sdk/src/identity_bootstrap.rs:316-329 | After a ceremony that ran through, every further run that is not forced changes nothing and answers the recorded quorum |
| `Ceremony.BootstrapPrefixesAreOrderly` | bindings/sdk/src/identity_bootstrap.rs:345-379 | After every prefix of the writes, each new binding leads to a stored entity, and the certificate is bound only when the quorum and its signature are |
| `BundleRestore.WriteRestore` | bindings/sdk/src/identity_bundle.rs:509-579 | The restore loops write, in order, exactly the writes of the plan, stopping where it stops |
| `BundleRestore.WriteSignatures` | bindings/sdk/src/identity_bundle.rs:538-551 | The signature loop stores each signature and binds it at its target's path, and stops at the first without a target |
| `BundleRestore.BindCerts` | bindings/sdk/src/identity_bundle.rs:553-578 | The binding loop binds each attestation at its canonical or internal path and reports the first controller certificate |
| `BundleRestore.RunRestore` | bindings/sdk/src/identity_bundle.rs:460-636 | The restore's preconditions, guard, writes and configure call leave the space and answer as specified; a bundle of another key or identity is refused with nothing written |
| `CeremonyReads.RestoreLeaves` | bindings/sdk/src/identity_bundle.rs:493-636 | A restore that comes as far as configure has stored exactly the bundle's entities, bound quorums at their paths, certificates where their properties say and the last signature of each target at its path, and nothing else; it reports the first quorum and the first controller certificate |
| `CeremonyReads.RestoreVerdict` | bindings/sdk/src/identity_bundle.rs:460-588 | Which restores come as far as configure, and what every other one answers |
| `BundleRestore.RestoreIsRestartable` | bindings/sdk/src/identity_bundle.rs:509-579 | Stopped after any of its writes and run again, restore comes out as one uninterrupted run, if and only if those writes did not store the hash of a peer-config path that led nowhere |
| `BundleRestore.RestoredPathsDiffer` | bindings/sdk/src/identity_bundle.rs:553-572 | Different certificates are restored to different paths |
| `BundleRestore.RestorePrefixesAreOrderly` | bindings/sdk/src/identity_bundle.rs:509-578 | After every prefix of the writes, each new binding leads to a stored entity, and an attestation is bound only when every quorum of the bundle is bound and every signature's target has a signature bound |
| `BundleRoundTrip.ExportIsRestorable` | bindings/sdk/src/identity_bundle.rs:341-409 | An export is well typed, and has one signature per target when each listed signature is bound at its target's path |
| `BundleRoundTrip.ExportHoldsExactly` | bindings/sdk/src/identity_bundle.rs:341-409 | An export holds exactly the quorums, certificates and signatures that paths of their directories lead to, and the peer's own identity |
| `BundleRoundTrip.ExportCarries` | bindings/sdk/src/identity_bundle.rs:509-578 | After a restore's writes and configure, an export lists every quorum, attestation and signature of the restored bundle |
| `BundleRoundTrip.RoundTripCarriesTheStack` | bindings/sdk/src/identity_bundle.rs:341-636 | Export, encode, decode, restore under the same key where there is no stack, export again: the second bundle holds every quorum, attestation and signature of the first, with the same quorum and controller certificate reported and recorded |
| `BootstrapRoundTrip.BootstrappedExport` | bindings/sdk/src/identity_bundle.rs:341-409 | The export of a bootstrapped peer, whatever handlers, grants, grant signatures and policies it has, holds exactly the ceremony's quorum and certificate, and signatures that are all bound at their targets' paths |
| `BootstrapRoundTrip.BootstrappedPeerRoundTrips` | bindings/sdk/src/identity_bootstrap.rs:284-412 | The closed round trip of a built peer with no identity stack yet, for any options: bootstrap, export, encode, decode, restore, export; the restore reports the bootstrap's quorum and certificate, and the second bundle holds every quorum, attestation and signature of the first, grant signatures included |
| `ConfigFile.ReadConfig` | bindings/godot/src/persistence.rs:112-136 | The line loop computes the fold of the lines over the default configuration |
| `ConfigFile.QuotedReadsBack` | bindings/godot/src/persistence.rs:104-110 | A quoted setting sets its key to its value, whatever quotes, backslashes, equals signs and white space the value holds |
| `ConfigFile.BareReadsBack` | bindings/godot/src/persistence.rs:119-135 | A bare value without quotes and backslashes is taken as it is, with or without spaces around the equals sign |
| `ConfigFile.LaterSettingWins` | bindings/godot/src/persistence.rs:119-135 | Of two settings of one key the later one counts |
| `ConfigFile.LabelSurvivesExactly` | bindings/godot/src/persistence.rs:112-149 | A label is read back as written if and only if it is not empty and holds no newline; without a newline the backend reads as sqlite |
| `ConfigFile.NoLabelReadsBack` | bindings/godot/src/persistence.rs:138-149 | A file written without a label reads as the default configuration |
| `ConfigFile.UnknownKeysAreIgnored` | bindings/godot/src/persistence.rs:119-135 | Appending text whose lines set neither key changes nothing |
| `ShellTick.DrainStream` | bindings/godot/src/shell_node.rs:666-682 | Draining a stream renders all its chunks in order and reports whether it has closed |
| `ShellTick.EntityShell.Tick` | bindings/godot/src/shell_node.rs:632-652 | One tick ends, outputs the chunks of the streams in the order it comes to them, and keeps the open ones in that order |
| `ShellTick.EachStreamDrainedOnce` | bindings/godot/src/shell_node.rs:641-651 | Whatever the swaps do to the order, every stream is visited exactly once |
| `ShellTick.OpenStreamsInOrder` | bindings/godot/src/shell_node.rs:641-651 | Where nothing has closed, streams are drained in their order |
| `ShellTick.LastFollowsClosed` | bindings/godot/src/shell_node.rs:641-651 | When a stream has closed, the last one takes its turn next and the others follow in their order |
| `ShellTick.OutputHoldsEachQueueOnce` | bindings/godot/src/shell_node.rs:632-682 | The output is the rendered queues of the streams, each complete, in order and in one piece, every position exactly once |
| `ShellTick.OpenStreamsRemain` | bindings/godot/src/shell_node.rs:641-651 | What is left is, as a multiset, exactly the streams still open, each emptied |
| `PeerRegistry.PeerManager.SpawnPeer` | bindings/godot/src/peer_manager_node.rs:201-404 | A spawn registers the peer in both registries, with its metadata, and makes it primary if there is none; every refusal, of identity source, storage kind, alias, build or known id, changes nothing |
| `PeerRegistry.PeerManager.RemovePeer` | bindings/godot/src/peer_manager_node.rs:435-467 | A removal drops the peer from both registries and, if it was primary, promotes the least remaining id |
| `PeerRegistry.PeerManager.InsertIntoSdk` | bindings/sdk/src/sdk.rs:2136-2152 | The SDK refuses an id it knows and otherwise records peer and metadata |
| `PeerRegistry.PeerManager.RemoveFromSdk` | bindings/sdk/src/sdk.rs:2187-2194 | The SDK keeps its default peer and otherwise forgets the id, answering whether it knew it |
| `PeerRegistry.RegistryStaysConsistent` | bindings/godot/src/peer_manager_node.rs:347-467 | Over every run of spawns, failing ones included, and removals: the SDK knows exactly the hosted peers and the phantom, and the primary is hosted, missing only when nothing is |
| `PeerRegistry.HostedExactly` | bindings/godot/src/peer_manager_node.rs:201-467 | Over every run, a peer is hosted if and only if it was spawned by a request the manager takes (a new keypair, a known storage kind, an alias for a persistent one, a context that was built, an unknown id) and not removed since |
| `PeerRegistry.HostedAsSpawned` | bindings/godot/src/peer_manager_node.rs:347-404 | Its node, alias, persistence and listen address are those of that spawn |
| `PeerRegistry.PrimaryOnlyMovesByRemoval` | bindings/godot/src/peer_manager_node.rs:457-462 | Removing the primary promotes the least remaining id, no other event moves it, and the SDK never refuses to drop a hosted peer |

## Left out

- Capability chains with multi-signer granters: the verifier model covers links granted by a single identity; a multi-signer link is rejected there.
- Attenuation, caveats, grant matching and signature arithmetic of the verifier are parameters, the same for both verifiers compared; revocation is not modelled.
- The server side of configure, subscription matching and the tree handler are atomic steps with the effect their code has for these callers; the configure call is a parameter with a stated effect (`Ceremony.ConfigureEffect`), with its own peer-config, the capabilities it issues and their signatures as the only paths it binds.
- Continuation teardown, install failures and the minting inside the install are not modelled.
- A refused store write stops a ceremony like a crash would and is covered as a prefix of its writes; that a refused write of the peer's own entity is ignored is not modelled.
- RoundTripCarriesTheStack: says that the second bundle contains the first, not that they are equal, since configure issues a fresh capability and signs it.
- Float bit patterns are opaque, so the shortest-float rule and NaN payloads of the canonical encoding are not modelled.
- TermsHoldAcrossThreads: stops, like `EveryValueIsInOnePlace`, where the 64-bit counter would wrap and two values would claim one handle; what the wrap does to the table is `HandleMap.HandlesUniqueExactlyBelowWrap`.
- A bootstrap on a peer that already holds a foreign quorum, certificate or misplaced signature of its own is outside the closed round trip; the ceremony and restore results cover it.
- Handler bodies and workers that panic while holding a lock (poisoned mutexes), and relaxed memory ordering beyond the atomicity of each step.
- ExtractAt: leaves out the optional list of paths an extract may ask for, which the follow never sends, and takes one reading right for the bootstrap and the triggered extracts.
- Sorting of listings by path: an export lists paths in any fixed order.
- Raw pointers and UTF-8 checks of the C interface, and decoding of bytes into values: creating a value stands for every call that makes one.
- File access around the configuration file, key files and data directories: text in, text out.
- Signal marshalling, the typed request wrappers of the SDK, display helpers, aliases and shell verbs: they build requests, decode fields and format text.
- `config_path` and `sanitize_name`: name mangling with no law worth stating.
