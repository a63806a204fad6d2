# Validated Streams: a verified model

Validated Streams lets a network of validators agree on events seen outside the chain. A validator
signs the hash of an event it witnessed and gossips the signature; every node stores the signatures
it can verify; once more than two thirds of the authorities have signed, the event is submitted as
an extrinsic; blocks are imported only if their events have enough stored signatures; and the events
of finalized blocks are streamed back to clients.

This project models that protocol and proves what it is for:

- **Agreement.** Over every run of the whole protocol (any number of nodes, forged, lost, repeated
  and reordered messages, handlers, purges and import checks interleaved storage access by storage
  access), two conflicting events are never both imported while at most a third of the authority
  list is faulty. The threshold is the least one: a gate at any smaller value would accept two
  conflicting events in some run.
- **Evidence.** Every event in the pallet's record was counted by the importing node with verifying
  signatures of a threshold of the parent's authorities, and if its purges keep those authorities,
  that many signatures were in its store at the moment of the import.
- **When a block can be imported.** Nodes handle messages under the finalized authority list, while
  the gate counts under the list at the block's parent. Call an event settled for a node's present
  list when whatever the node has stored, pending or counted for it is by keys of that list; handling
  one message of the event under the list settles it, and so does never having used a wider one. In
  every run, for a block whose events are settled, the node can go on to import it if and only if,
  for each event, a threshold of the parent's list has signed and is also in the node's list; if the
  two lists share no key, no block with such an event is imported. Before an event is settled,
  signatures stored under an earlier list can still carry a block. Once a threshold is stored and
  kept, every count that starts then and finishes reaches the target.
- **The off-chain proof store.** Sequentially it agrees with the in-memory store after every
  history of calls, and the RocksDB store agrees with it exactly as long as no purge strays into
  another event's keys. Concurrently, its compare-and-set loops never lose a key's signature from the
  signer list unless two purges that omit the key overlap, they are lock-free, and counts taken key
  by key are bracketed by the true counts as long as the purges under way keep the counted keys. Both
  side conditions are exact, and there are runs that break each property without it. A machine that
  remembers, decodes and compares bytes only has the same runs.
- **The gossip handler.** Its outcome depends only on the set of valid messages received, it is one
  schedule of the concurrent store, and in on-chain mode whatever it submits is accepted by the pallet.
- **The pallet.** In both build modes, what is recorded, by which call or block, and that records
  never change.
- **The finalized stream.** Each response describes the unique finalized block of its height,
  whatever reorganisations are seen while waiting, and the wait ends in a bounded number of
  notifications.
- **The authority cache and the network configuration.**

## How it is organised

| file | contents |
|---|---|
| `Types.dfy`, `Sequences.dfy` | shared values; duplicate-free lists and counting |
| `Quorum.dfy`, `Authorities.dfy` | threshold; origin check and the honest signing step |
| `KeyLayout.dfy`, `ProofStore.dfy` | storage keys; the typed contents of a proof store |
| `OffchainProofs.dfy`, `InMemoryProofs.dfy`, `RocksDbProofs.dfy`, `StoreHistory.dfy`, `RocksHistory.dfy` | the three stores; sequential histories |
| `ConcurrentStore.dfy`, `ConcurrentBytes.dfy`, `SignerIndex.dfy`, `LockFreedom.dfy`, `ConcurrentCount.dfy` | the off-chain store as interleaved storage accesses, typed and on the bytes |
| `GossipHandler.dfy`, `BlockImport.dfy`, `Protocol.dfy` | handler, import gate, whole protocol, end-to-end result |
| `ProtocolProgress.dfy`, `Importability.dfy`, `ThresholdRuns.dfy` | continuing a run; when a block can be imported; the threshold over runs |
| `Pallet.dfy` | the pallet in both modes and the runtime's extrinsic helpers |
| `Finality.dfy`, `AuthorityCache.dfy`, `NetworkConfig.dfy` | stream, cache, ports and addresses |

Runs are lists of actions. An action that is not enabled leaves the state unchanged, so every list
is a run and a statement about all lists is a statement about all runs.

## Assumptions

- Signature verification is an arbitrary relation. The only assumption is unforgeability, and only
  in the protocol: a verifying message under an honest key exists only after its holder witnessed
  the event.
- Serialization of signer lists is any codec whose decoder inverts its encoder; it may fail on
  other bytes. The layout of storage keys is concrete.
- Authority lists are sequences. Results about counts name their two conditions where they need
  them: no duplicates, and a length the u16 can hold, 65535 where a count must reach the target and
  98302 where a reached target must be a quorum (the runtime caps lists at 32).
- The protocol lets a node start any number of adds, purges and counts at any time and under any
  lists. The node's gossip loop handles one message at a time, so its runs are among these; where a
  continuation is shown to exist, it is made of such handler steps, counts and an import.
- The threshold is the code's floor(2n/3) + 1. Two remarks in the comment beside it differ: it says
  `f < 3n` where `3f < n` is meant, and ends with `n * 2 // 3`, one less than the formula.

## Model

| member | source | states |
|---|---|---|
| Quorum.ThresholdExact | consensus/src/events/mod.rs:79-94 | for all n and t: t prevents two conflicting events from both passing with up to n/3 double voters if and only if t is at least floor(2n/3)+1 |
| Quorum.ThresholdIsMajorityPlusFaulty | consensus/src/events/mod.rs:87-91 | the formula equals a strict majority of the non-failing nodes plus the double voters |
| Quorum.ThresholdReachable | consensus/src/events/mod.rs:79-94 | the n-f non-failing nodes reach the threshold if and only if 3f < n |
| ThresholdRuns.ThresholdExactOverRuns | consensus/src/events/mod.rs:79-94 | for every duplicate-free list of n sr25519 keys and every t: no run of the protocol with at most n/3 of them faulty has finished counts of two conflicting events that both reach t, if and only if t is at least floor(2n/3)+1 |
| Quorum.TargetCastExact | consensus/src/events/mod.rs:92-95 | the u16 cast is exact if and only if n is at most 98302 |
| Quorum.QuorumsIntersect | consensus/src/events/mod.rs:79-94 | two sets that reach the threshold share more than a third of the authorities |
| Authorities.VerifyOrigin | consensus/src/events/mod.rs:47-77 | accepts exactly verifying messages, with keys and signatures of the right size, from listed authorities, and returns them unchanged |
| Authorities.WitnessEvent | consensus/src/events/witness.rs:56-84 | publishes exactly one message, the event signed with the first authority key held, when the lookup, the keystore and serialization all answer; otherwise none, with the error of the first step that failed |
| KeyLayout.KeyRoundTrip | consensus/src/proofs/rocksdb.rs:81-94 | a serialized key is recovered whatever bytes follow it |
| KeyLayout.DecodeExact | consensus/src/proofs/rocksdb.rs:81-94 | bytes decode to a key if and only if they start with its serialization |
| KeyLayout.LayoutExact | consensus/src/proofs/offchain.rs:28-46 | byte by byte: an index is under the event id; a signature under the id, the four-byte tag, the key length in eight bytes with the least significant first, and the key |
| KeyLayout.SigKeyInjective | consensus/src/proofs/offchain.rs:28-46 | signature keys determine event and signer and never equal an index key |
| ProofStore.PurgeExact | consensus/src/proofs/mod.rs:59-66 | on an indexed store a purge deletes exactly the event's signatures by keys outside the list, and keeps the store indexed |
| ProofStore.CountMatchesProofs | consensus/src/proofs/mod.rs:49-57 | the documented equality of the count with the number of returned proofs holds if and only if no stored signer occurs twice in the validator list |
| OffchainProofs.OffchainStorageEventProofs.AddEventProof | consensus/src/proofs/offchain.rs:27-51 | the compare-and-set loop ends with the signature stored, the key appended to the list and all other bytes unchanged, or fails on a corrupt list with only the signature stored |
| OffchainProofs.OffchainStorageEventProofs.PurgeEventStaleSignatures | consensus/src/proofs/offchain.rs:88-122 | ends with exactly the listed non-validators' signatures gone, the listed validators kept as often and in the order they occur and all other bytes unchanged, or fails on a corrupt list with nothing changed |
| OffchainProofs.AddRefines | consensus/src/proofs/offchain.rs:27-51 | the add on bytes corresponds to the typed add and cannot fail on a represented store |
| OffchainProofs.PurgeRefines | consensus/src/proofs/offchain.rs:88-122 | the purge on bytes corresponds to the typed purge and cannot fail on a represented store |
| OffchainProofs.ReadsRefine | consensus/src/proofs/offchain.rs:53-86 | proofs and counts read from bytes are those of the typed store |
| InMemoryProofs.InMemoryEventProofs.AddEventProof | consensus/src/proofs/in_memory.rs:29-49 | for every event and signer, the signature stored afterwards: the new one only if it is theirs and they had none, otherwise the old one |
| InMemoryProofs.InMemoryEventProofs.PurgeEventStaleSignatures | consensus/src/proofs/in_memory.rs:67-78 | for every event and signer, the signature stored afterwards: none for a non-validator of the purged event, otherwise the old one |
| StoreHistory.StoresAgree | consensus/src/proofs/in_memory.rs:29-78 | after every history of adds and purges both stores report the same signers for every event and list; in memory the oldest signature since the signer was last purged, off-chain the newest |
| StoreHistory.CountsAgree | consensus/src/proofs/offchain.rs:71-86 | and the same count over every duplicate-free list |
| RocksDbProofs.RocksDbEventProofs.PurgeEventStaleSignatures | consensus/src/proofs/rocksdb.rs:81-94 | deletes exactly the visited keys whose decoded signer is not a validator, stopping at the first key that does not decode |
| RocksDbProofs.RocksPurgeExact | consensus/src/proofs/rocksdb.rs:81-94 | if the iterator visits at least the event's keys, decoding never fails, the event keeps exactly its validators, and any signature is deleted exactly when visited and stale |
| RocksHistory.RocksAgreesIff | consensus/src/proofs/rocksdb.rs:31-94 | throughout a history of adds and purges the RocksDB store holds the off-chain store's signatures if and only if no purge in it visits a non-validator's key of another event |
| RocksHistory.PrefixIteratorAgrees | consensus/src/proofs/rocksdb.rs:81-94 | in particular after every history, with an iterator that stops at the end of the event's keys |
| ConcurrentStore.LoneAdd | consensus/src/proofs/offchain.rs:27-51 | an add left alone makes three accesses and has the effect of the sequential add |
| ConcurrentStore.LonePurge | consensus/src/proofs/offchain.rs:88-122 | a purge left alone makes one pass and has the effect of the sequential purge |
| ConcurrentStore.LoneCount | consensus/src/proofs/offchain.rs:71-86 | a count left alone finds as many keys as the sequential count |
| ConcurrentBytes.RunsRefine | consensus/src/proofs/offchain.rs:27-122 | every interleaved run of operations that remember, decode and compare bytes corresponds to the typed run: same data, every operation at the same access with the encoded list, same keys found, and none fails to decode |
| SignerIndex.StoredSignatureTracked | consensus/src/proofs/offchain.rs:27-122 | key by key, in every run in which no two purges of the event that omit the key overlap, however many others do, a stored signature of the key is in the event's signer list or belongs to an add that has not won its compare-and-set |
| SignerIndex.StoredSignaturesTracked | consensus/src/proofs/offchain.rs:27-51 | in particular every stored signature, with one purge per event at a time |
| SignerIndex.OverlapExact | consensus/src/proofs/offchain.rs:88-122 | with two lists in use for an event, each by one purge at a time, a key is tracked in every run if and only if one of the lists keeps it |
| SignerIndex.PurgeLeavesOnlyInFlight | consensus/src/proofs/offchain.rs:88-122 | in the step in which a purge returns, however it does, the event's list comes to name its validators only, and a key it omits, and no overlapping purge omits, has no signature or one whose add is in flight |
| SignerIndex.AddReturnsListed | consensus/src/proofs/offchain.rs:34-49 | in the step in which an add returns, its key comes to be the last in the event's list, after those listed before |
| SignerIndex.OverlappingPurgesLoseASigner | consensus/src/proofs/offchain.rs:93-120 | for every event, key and pair of lists without the key there is a run with two overlapping purges under them after which a stored signature is in no list and no add is in flight |
| LockFreedom.FailuresBounded | consensus/src/proofs/offchain.rs:34-49 | in every run an operation's failed compare-and-sets never outnumber the successful ones of others on its event since it started |
| ConcurrentCount.CountBracketed | consensus/src/proofs/offchain.rs:71-86 | while the purges under way keep the counted validators, a finished count lies between the true counts at its start and at its end |
| ConcurrentCount.AcceptedCountJustified | consensus/src/events/mod.rs:118-124 | so a count that reaches the target means the store holds floor(2n/3)+1 of the listed signatures when counting ends |
| ConcurrentCount.CoverageExact | consensus/src/events/mod.rs:118-124 | over every run that purges the event under one list, accepted counts are backed by the store if and only if that list keeps every counted key |
| ConcurrentCount.LastReadCoverageExact | consensus/src/events/mod.rs:118-124 | at the count's last read the exact condition is that the list keeps every counted key but the last |
| ConcurrentCount.UncoveredCountOverstates | consensus/src/events/mod.rs:118-124 | for every list without a counted key, a purge under it during a count of two keys can make the count report both, although at no point of the run are both stored |
| GossipHandler.EventGossipHandler.HandleWitnessedEvent | consensus/src/events/gossip.rs:75-114 | the new store, the exact reply and the submission of one message, for every authority, runtime and pool answer: a submission that is not created or is refused is an error; the store keeps only verified, indexed signatures |
| GossipHandler.EventGossipHandler.SubmitEventExtrinsic | consensus/src/events/gossip.rs:118-147 | hands one extrinsic to the pool, with the converted and bounded proofs in on-chain mode; already imported and stale answers count as success |
| GossipHandler.HandleExact | consensus/src/events/gossip.rs:75-90 | a valid message adds its signer and drops the event's signers outside the list; other events are untouched and an invalid message changes nothing |
| HandlerSchedule.HandlingIsASchedule | consensus/src/events/gossip.rs:80-90 | handling a valid message is a schedule of the concurrent store that ends in the specified store and decides alike |
| OrderIndependence.OutcomeIsSetOfValidMessages | consensus/src/events/gossip.rs:75-114 | under a fixed duplicate-free list the stored signers are exactly the authorities with a valid message, and a submission has been tried exactly when they reach the threshold |
| OrderIndependence.OrderDoesNotMatter | consensus/src/events/gossip.rs:75-114 | runs with the same valid messages end with the same signers and the same submissions, whatever the order, repeats and bad messages |
| OrderIndependence.SignersAreSurviving | consensus/src/events/gossip.rs:75-90 | under lists that change from message to message, the stored signers of an event are exactly those with a valid message since which every valid message for the event was handled under a list with the signer |
| OrderIndependence.GateAfterHandling | consensus/src/block_import.rs:125-137 | so after any inputs the gate over any duplicate-free list opens for an event if and only if a threshold of that list survives |
| OrderIndependence.GateUnderOneList | consensus/src/block_import.rs:125-137 | and, after inputs handled under one list, if and only if a threshold of the gate's list has a valid message, which only members of both lists can have |
| OrderIndependence.DisjointListsShutTheGate | consensus/src/events/gossip.rs:76-83 | if every list the handler used is disjoint from the gate's, the gate's count is 0 and below the target for every event, whatever was received |
| OnChainSubmission.ConversionKeepsSize | consensus/src/events/gossip.rs:123-131 | the proof map keeps its size through conversion if and only if no two proofs share raw key bytes |
| OnChainSubmission.SubmissionAccepted | consensus/src/events/gossip.rs:85-131 | from an empty store and for every list of at most 32 keys, whenever the handler submits, the conversions cannot panic, the map keeps its size, and the pallet accepts under the same duplicate-free single-type list if the event is new |
| OnChainSubmission.OversizedProofsRefused | runtime/src/lib.rs:406-424 | a submission's proofs are dropped, and the pallet's answer in any state is that there are none, if and only if they have more than 32 distinct raw keys |
| BlockImport.VerifyEventsValidity | consensus/src/events/mod.rs:99-126 | returns exactly the ids whose stored count is below the target, as often and in the order they were given, or the authority error |
| BlockImport.ImportBlock | consensus/src/block_import.rs:114-163 | a block with a body passes a node that is not syncing if and only if the authorities are known and every id reaches the target; syncing or without a body it passes |
| Protocol.RunsSound | consensus/src/events/gossip.rs:75-90 | over every run every stored signature verifies and was sent, none is forged, and every gated import had a quorum for each of its events |
| Protocol.ImportedWithStoredQuorum | consensus/src/block_import.rs:124-162 | in every run, when the gate lets a block through, the node's store at that moment holds verifying signatures of at least floor(2n/3)+1 of the parent's authorities for each event whose purges by the node keep them |
| Protocol.Agreement | consensus/src/block_import.rs:114-163 | over every run, with no honest validator witnessing both events and at most floor(n/3) of the shared duplicate-free list faulty, no two gated imports on any nodes contain one event each |
| Importability.ImportableIffQuorate | consensus/src/block_import.rs:124-162 | in every run, whatever lists a node handled messages under before, once the events of a block are settled for its present list, the messages sent so far suffice for it to import the block, by any interleaving of its work under that list, if and only if for each event at least floor(2n/3)+1 of the parent's authorities are in the list and have signed |
| Importability.HandlingSettles | consensus/src/events/gossip.rs:75-90 | handling one message of an event under the present list settles the event, if its signatures are listed and nothing else is pending on it |
| Importability.ImportableUnderOneList | consensus/src/block_import.rs:124-162 | the same if-and-only-if for a node that has only ever received under lists within its present one |
| Importability.QuorateBlockCanBeImported | consensus/src/events/gossip.rs:75-90 | from whatever state a run has reached, that condition gives a continuation of handler steps under the list, counts under the parent's list and the import |
| Importability.SignedBlockCanBeImported | consensus/src/block_import.rs:124-162 | in particular a threshold of signatures suffices when the parent's authorities are all in the list |
| Importability.DisjointListsNeverImport | consensus/src/events/mod.rs:128-142 | once an event is settled for a list without any of the parent's authorities, no later import of the node contains it |
| Importability.StaleSignaturesImport | consensus/src/proofs/mod.rs:59-60 | after handling under the parent's own list, a block with a quorum can still be imported while working under any other list |
| Importability.UnsettledImport | consensus/src/proofs/mod.rs:59-60 | so for an event that is not settled the condition is not necessary: a run in which a block can be imported under every list without its only signer |
| Importability.LateCountReachesTarget | consensus/src/events/mod.rs:118-124 | in every run, once a threshold of the gate's list is stored for an event, and while the node's purges of it keep them, every count over the gate's list that starts then and finishes reaches the target |
| Importability.LateCountsImport | consensus/src/block_import.rs:124-162 | so the gate lets a block through on whatever such counts of its events it is given |
| ProtocolProgress.GateIsImportBlock | consensus/src/block_import.rs:124-162 | with undisturbed counts the protocol's gate imports a block exactly when the import check on the same store's bytes lets it through, and otherwise changes nothing |
| EndToEnd.RecordedEventsWereWitnessed | consensus/src/block_import.rs:124-162 | every event in the pallet's record of an imported chain is recorded at the first block naming it; at least floor(2n/3)+1 distinct authorities of its parent had been counted with verifying signatures held by the node, and were in the store at the import if the count was covered, as it is when the node's purges of the event keep those authorities |
| PalletTypes.GetExtrinsicIds | runtime/src/lib.rs:391-405 | collects the ids of exactly the direct calls, as often and in the order they occur in the body |
| PalletTypes.ExtrinsicIdsExact | runtime/src/lib.rs:391-405 | an id is collected if and only if some extrinsic is a direct call for it |
| OffChainPallet.Pallet.ValidateEvent | pallet/src/lib.rs:106-116 | fails exactly on recorded events, changing nothing; otherwise records the event at the block and deposits it |
| OffChainPallet.BlocksPartitionEvents | pallet/src/lib.rs:181-190 | over every run with increasing block numbers the per-block event sets are disjoint and together are all events |
| OffChainPallet.BlockEventsAreDeposits | pallet/src/lib.rs:185-190 | a block's events are exactly the ids it deposited, each once, and later blocks never change them |
| OffChainPallet.DepositsInOrder | pallet/src/lib.rs:106-116 | a block deposits exactly the events it is the first to name, in the order it names them |
| OffChainPallet.StaleIffDispatchFails | pallet/src/lib.rs:158-176 | after every run, a local or in-block call is stale exactly when an executed block named its event, and exactly when dispatch would fail; external and other calls are refused |
| OnChainPallet.Pallet.ValidateEvent | pallet/src/lib.rs:118-153 | succeeds exactly for new events with enough verifying proofs of authorities only; each failure reports its own error and changes nothing |
| OnChainPallet.OneAnswer | pallet/src/lib.rs:118-153 | every call has exactly one answer: the error conditions are disjoint and cover every refusal |
| OnChainPallet.StaleVersusDispatch | pallet/src/lib.rs:118-176 | after every run, a local or in-block call is stale exactly when some call inserted its event, and then fails; one that is not stale fails exactly when it is not acceptable, and not as already validated |
| OnChainPallet.StoredOnce | pallet/src/lib.rs:118-153 | over every run a stored event was inserted by exactly one call, keeps that call's proof map, and was deposited once |
| OnChainPallet.StoredProofsAreQuorums | pallet/src/lib.rs:135-147 | every stored map has at least floor(2n/3)+1 distinct keys, all authorities at insertion and all verifying the event |
| BlockTree.LcaDetectsAncestor | consensus/src/events/validate.rs:48-51 | the lowest common ancestor with a block is that block if and only if it is an ancestor |
| BlockTree.LcaIsLowest | consensus/src/events/validate.rs:48-51 | it is an ancestor of both blocks, and their ancestors at a height agree if and only if the height is not above it |
| Finality.WaitForFinalized | consensus/src/events/validate.rs:40-60 | the wait loop ends at the first pass whose canonical block of the height lies on the chain of the known finalized tip, with that block |
| Finality.SettledBlockIsFinalized | consensus/src/events/validate.rs:43-60 | with tips that only extend, the block a call settles on is the one finalized at its height, whatever was reorganised meanwhile |
| Finality.WaitTerminates | consensus/src/events/validate.rs:41-60 | with strictly increasing notified heights on the canonical chain the loop ends after at most n-h0+1 notifications, and at once if n is already finalized |
| Finality.GetFinalizedBlockEvents | consensus/src/events/validate.rs:40-69 | returns the ids of the direct calls in the body of the block finalized at the height, in body order, none if the body is missing or the runtime cannot extract them, and waits exactly while no pass has found it |
| Finality.ValidatedEvents | consensus/src/server.rs:89-128 | the k-th response carries the ids of the direct calls in the block finalized at height first+k, in body order, where first is the requested height, or the latest finalized one if asked for; each block is the parent of the next, and the stream stops short only while waiting |
| AuthorityCache.BlockStateCache.GetAuthoritiesList | consensus/src/events/mod.rs:144-170 | answers what the runtime would and keeps every cached entry correct |
| AuthorityCache.CacheTransparent | consensus/src/events/mod.rs:144-170 | in every interleaving of callers through the separately locked get and put each result is the direct call's, every entry is correct and unique, and the capacity of 4 holds |
| AuthorityCache.PutEvictsOldest | node/src/service.rs:53 | insertion loses another block only when the cache holds four, and then the least recently used one |
| AuthorityCache.CacheIsMostRecent | consensus/src/events/mod.rs:144-170 | after every history of lookups the cache holds, newest first, the four blocks with an authority list that were asked for last |
| AuthorityCache.LoneCaller | consensus/src/events/mod.rs:144-170 | a caller left alone in the interleaved model returns the runtime's answer and leaves the cache as a lone lookup does |
| NetworkConfig.AdjustPortNearest | consensus/src/config.rs:46-51 | a fixed port replaces the old one; an offset gives the port nearest to the exact sum |
| NetworkConfig.AdjustMultiaddr | consensus/src/config.rs:53-74 | part by part: those before the last port stay, those after it follow in reverse order, and the port comes last, of the same protocol and adjusted; without a port the whole address is reversed |
| NetworkConfig.InPlaceIffPortLast | consensus/src/config.rs:53-74 | with a port, the result is an in-place update if and only if the port is the last part |
| NetworkConfig.UnchangedIffPalindrome | consensus/src/config.rs:53-74 | without a port, the address is unchanged if and only if it reads the same backwards |
| NetworkConfig.FixedPortIdempotent | consensus/src/config.rs:53-74 | setting a fixed port twice is setting it once |
| NetworkConfig.PrintParseRoundTrip | consensus/src/config.rs:77-102 | parsing a printed value gives it back if and only if it is not the least offset in a build with overflow checks |
| NetworkConfig.PrintedForms | consensus/src/config.rs:77-91 | a port prints in decimal, an offset as its sign and magnitude, and the least offset panics or prints a second sign |
| NetworkConfig.ParseExact | consensus/src/config.rs:93-102 | exactly which texts parse, and to which port or offset |
| NetworkConfig.DecimalDigits | consensus/src/config.rs:77-91 | decimal notation has the most significant digit first and no leading zeros |

## Left out

- libp2p swarm, transport, discovery and dialing: network plumbing; only delivery of messages is modelled.
- sr25519, keystore and bincode internals: taken as the relations and codec named under Assumptions; undecodable gossip bytes are dropped before the model starts.
- Lock poisoning and RocksDB I/O errors: error paths of libraries, which the model does not raise.
- RocksDB lookups: the same reads, under the same keys, as the off-chain store's.
- What the RocksDB iterator visits past the event's prefix: it is a parameter of the model.
- GRANDPA, Aura, the transaction pool and the client backend: taken as extending finalized tips, a parent-linked tree and the pool's answer.
- Imports during major sync, without a body, or with failing id extraction: they pass the gate by design, so the protocol results speak of gated imports only.
- Sudo-wrapped or nested calls: id extraction sees direct calls only, and only these write the pallet's record here.
- Events deposited in the genesis block: the framework discards them; chains here start at block 1.
- Iteration order of storage maps: the pallet's event listings are modelled as sets.
- Wrap-around of u32 block numbers in the stream: the stream is modelled up to the last u32 height.
- node/, chain specifications, RPC, weights, benchmarks and samples: wiring and examples.
