# OpenModelPool: protocol models and proofs

OpenModelPool is a node that shares model quota with other nodes. This project
models the parts of it that keep state or run a protocol, and proves what they
promise. Everything between those parts (HTTP, UDP, TLS, files, JSON text,
cryptography, the clock) is a parameter or is left out.

Code that updates objects is modelled by classes and methods with loops. Each
method is proved equal to a function on values, and the laws, invariants and
results over whole runs are lemmas about those functions.

| files | what they model |
|---|---|
| `TrustPool`, `TrustPoolMerge`, `Federation`, `FederationRuns`, `TombstoneRank`, `MergedRecords`, `RecordFields` | the replicated trust pool: merge, tombstones, the manager, runs, the tombstone cap, the merge record by record and field by field, pulls between replicas |
| `XorMetric`, `Kademlia`, `DhtNetwork`, `DhtAnswers`, `DhtRuns`, `DhtLookups`, `DhtStore` | XOR metric, k-buckets, lookups, what a node answers and learns, the in-process network, lookups spread over a run, storing |
| `WireAuth`, `WireMessages` | trust-on-first-use keys on DHT messages, and what acceptance says of a message |
| `Shuffle`, `PeerSelection` | the secure shuffle and the choice of gossip partners |
| `Ledger`, `LedgerEntries`, `LedgerChain`, `LedgerSums` | the contribution ledger, what it takes down for its callers, its hash chain, its sums |
| `LedgerStore`, `LedgerRuns`, `LedgerReload`, `LedgerLaws` | the key-value store behind it, write-back under interleaving and crashes, reload |
| `Governance`, `GovernanceRuns`, `GovernanceCalls`, `GovernanceVotes` | co-governance proposals, ratifications and rosters |
| `AlgorithmGovernance`, `AlgorithmRuns`, `AlgorithmCalls` | node-local votes with an event history |
| `ConfigStore`, `ConfigRuns`, `ConfigSettings` | the configuration, its debounced writer, and what reaches the file |
| `Quota`, `QuotaGrants`, `QuotaRuns`, `GuestRuns`, `TicketSums` | quota reservations: when they are granted and what they count, many requests at once on the public key and on guest keys |
| `Settlement`, `ChatCharges` | one chat completion and what it costs |
| `Wrappers`, `Sorting`, `ByteText`, `Hashing` | option and result types, sorting and lists without repeats, byte order and decimal numerals, freedom from collisions |

`dafny verify dfyconfig.toml` checks all of it.

A hash function has finitely many values, so none is ever assumed injective. Where
a result depends on hashes, it asks that no two of the texts at hand collide, or it
says that a failure exhibits a collision.

## Where the code differs from what it says

In each case the model follows the code. A lemma gives the exact condition under
which the promise holds, or the exact behaviour.

- **Trust pool merge.** It is a join (later time wins, removal wins a tie) on
  pools whose local records are all active. A local record that is not active
  but newer than every tombstone clears the tombstone and is then dropped
  itself: `MergeIsJoinIff`, `LossHappens`.
- **Tombstone cap.** Over 256 unexpired tombstones the cap compares timestamps
  as text, and ties fall either way. `UnionRankLaw` says exactly which tombstones
  survive every outcome and which survive none. A fresh removal that is the 257th
  is safe only if another text is strictly smaller, and loses its own tombstone at
  once if all others are strictly greater: `RemovalKeptIff`, `RemovalEvictedIff`.
- **Removals between replicas.** A comment says the version bump and the tombstone
  carry a removal to every peer. A pool whose version is not above the local one is
  ignored, so the removal arrives exactly when the versions let it through and the
  tombstone is still delivered: `RemovalReachesIff`. Two replicas with equal versions
  learn nothing from each other, and one removal against one addition is enough for
  that: `EqualVersionsFrozen`, `StuckApart`.
- **Revoked nodes** stay in the gossip peer map, so a lookup still finds them:
  `RevokedLookup`, `GossipThenRevoked`.
- **Established identity.** Only the public key is protected in a merge. A
  sparse incoming record that is not older clears the GitHub user, its id and the
  inviter (`MergeClearsIff`), and `UpdateNodeInfo` replaces the key itself
  (`GossipKeepsKeyIff`).
- **STORE** is acknowledged even when the value is over the size caps and is not
  kept: `StoreAckedButStoredIff`. The sender counts such answers as stored:
  `StoreCountsReached`, `StoreOnAll`.
- **Ledger hash text.** The seven hashed fields are joined with bars, so the text
  determines them exactly when none of them contains a bar: `TextIdentifiesIff`.
- **Ledger reload.** The store returns transactions in byte order of keys whose
  number is not zero-padded. Order, and with it the chain, survives exactly
  when neighbouring numbers also sort as text: `OrderRestoredByNumbers`,
  `ChainRestoredIff`. A fresh ledger with ten straight appends no longer
  verifies after a reload: `StraightChainSurvivesIff`.
- **Contribution proofs** are filled in outside the lock. Until the record is
  marked again its stored value may be stale; the write-back guarantee excludes
  those keys (`racing`), and it has to: `RacingGoesStale`, `StaleWhileRacing`.
- **Governance chains** are described as tamper-evident, but the hashes cover
  neither `PrevHash` nor the status. Any selection of proposals verifies once it
  is relinked: `RelinkVerifiesIff`. Saving re-encodes payload texts, and the
  chain verifies after a restart exactly when no text changed:
  `ReloadVerifiesIff`.
- **Voters** are not checked for eligibility, so with more voters than the
  electorate both sides can reach the threshold, and then the order of ballots
  decides: `OrderIrrelevantIff`, `Conflict`.
- **Config.** The dirty flag drops even when the save failed, and nothing
  retries until the next change: `FailedSaveIsForgotten`, `QuietNeverRetries`.
  Whether the file is current is settled by the steps of the run: `FileCurrentIff`.
  A sensitive value that already looks encrypted is stored as it is and decrypted
  on load: `SealOpenIff`.
- **Quota.** A comment promises that unknown usage keeps the estimate; a
  non-stream answer without usage is free: `FreeServiceIff`, `UnknownUsageIsFree`.
  A refund after the daily reset is charged against the new day and can make its
  counters negative: `CountersAddUp`, `RefundAfterReset`. A guest key's refund from
  an earlier window is floored at zero, so what it takes off the new one depends on
  the order: `CountersBounded`, `RefundOrder`. A guest window without a limit is
  refunded although it was never charged: `NetIff`.

## Model

| member | source | states |
|---|---|---|
| TrustPoolMerge.MergeIsJoin | federation.go:346-419 | for every id, merging into a pool of active records gives the later of what both pools say, removal winning ties, whatever order the maps are walked in |
| TrustPoolMerge.MergeCommutes | federation.go:346-419 | the order of the two pools does not matter to any id's standing |
| TrustPoolMerge.MergeIdempotent | federation.go:346-419 | merging a pool with itself changes no id's standing |
| TrustPoolMerge.MergeAssociates | federation.go:346-419 | the grouping of three pools does not matter |
| TrustPoolMerge.MergeKeepsActive | federation.go:346-419 | pools of active records merge into one, so the laws apply along a run |
| TrustPoolMerge.MergeIsJoinIff | federation.go:388-414 | with inactive local records the merge is the join at an id if and only if it does not lose the node, and a lost node leaves neither record nor tombstone |
| TrustPoolMerge.LossHappens | federation.go:388-414 | one inactive record newer than its tombstone, merged with an empty pool, is such a loss |
| TrustPoolMerge.UnionMark | federation.go:521-545 | below the cap the union of tombstones keeps for every id the newest unexpired removal of both sides |
| TrustPoolMerge.DedupeMark | federation.go:423-440 | dropping duplicate records keeps every id's latest sighting |
| Federation.UnionTombstones | federation.go:521-545 | returns a union: one tombstone per id, the newest, unexpired, at most 256, the textually latest when there are more |
| Federation.CapTombstones | federation.go:536-543 | the cap keeps 256 tombstones such that none dropped has a later text |
| Federation.DedupeNodeInfos | federation.go:423-440 | the loop with an index map equals the fold that keeps one merged record per id |
| Federation.MergeTrustPools | federation.go:346-419 | the loops over maps and slices compute a merge in the sense the laws are about |
| Federation.FederationManager.UpdateTrustPool | federation.go:310-332 | the new state is the merge when the offered version is newer, and the old one otherwise |
| Federation.FederationManager.UpdateNodeInfo | federation.go:562-599 | a gossiped record is refused by a tombstone, or clears it and replaces the record |
| Federation.FederationManager.RemoveNodeReason | federation.go:612-664 | the node leaves pool and peers and its tombstone is refreshed in place or appended, then capped |
| Federation.FederationManager.UpsertKnownNode | federation.go:718-755 | one record is gated, filled in or appended; nothing else changes |
| Federation.FederationManager.AddKnownNodes | federation.go:681-707 | records are applied in order and the version moves once, if any was named |
| Federation.FederationManager.GetNode | federation.go:261-278 | the pool's record, else the gossip peer's |
| FederationRuns.StepKeepsInv | federation.go:310-755 | every operation keeps live ids distinct, tombstones distinct and at most 256, and the two disjoint |
| FederationRuns.RunKeepsInv | federation.go:310-755 | so does every run of operations |
| FederationRuns.NewManagerInv | federation.go:310-755 | a new manager satisfies it at every point of every run |
| FederationRuns.RemovalSticks | federation.go:310-755 | a removed id stays out of pool and peers as long as what is offered for it is not newer and its tombstone survives |
| FederationRuns.MarkerSurvives | federation.go:521-664 | one step within the cap and the TTL keeps the tombstone |
| FederationRuns.RemovalSticksWithinTTL | federation.go:310-755 | within cap and TTL a removal sticks without assuming that the tombstone survives |
| FederationRuns.RemoveMarks | federation.go:612-664 | a removal starts that situation |
| TombstoneRank.UnionRankLaw | federation.go:521-545 | a contender's tombstone survives every outcome of the union if and only if fewer than 256 others have a text not below its own, and none if and only if 256 have one strictly above |
| TombstoneRank.RemovalKeptIff | federation.go:612-664 | a removal leaves its tombstone in every outcome if and only if it is unexpired and fewer than 256 unexpired ones compete or one of them has a strictly smaller text |
| TombstoneRank.RemovalEvictedIff | federation.go:612-664 | it leaves none in any outcome if and only if it is expired or 256 unexpired ones all have a strictly greater text |
| TombstoneRank.UpdateRankLaw | federation.go:310-419 | the same law for a merge, with the records that clear a tombstone |
| MergedRecords.MergeRecordAt | federation.go:346-419 | the record a merge leaves of any node is the reference one: an offered record that gets past the tombstone is reconciled with the local one, a local one stays alone only if active and past the tombstone |
| MergedRecords.MergeClearsIff | federation.go:388-404 | of a node that survives a merge, GitHub user, GitHub id and inviter are each cleared if and only if a record without it gets past the tombstone and is not older; the public key is only ever filled in |
| RecordFields.MergeFields | federation.go:346-482 | after a merge every field of a node's record: the strictly later record wins with its endpoint, addresses, models, providers, times and state, a later local one takes what it lacks from the offered one, the key stays the local one unless empty; the header is the offered pool's |
| RecordFields.DedupeFields | federation.go:423-482 | one more record of a node in a list: if strictly later it wins and takes what it lacks from the one before, else it is ignored |
| RecordFields.DedupeKeepsLatest | federation.go:423-440 | with times that parse, the record kept has the state of the node's latest one and every field that one has |
| RecordFields.UpsertFields | federation.go:718-755 | an upserted record is refused by a tombstone it is not later than; else it is active, seen when it says or now, with the established key, its own fields before those that were there, and nobody else's record changes |
| RecordFields.AddKnownSays | federation.go:681-707 | in personal mode or without a named record nothing happens; else the version moves once and peers stay |
| RecordFields.GossipIsFound | federation.go:562-599 | a gossiped record that is not refused is what a lookup then returns, as it came, and no other lookup changes |
| RecordFields.PoolShadowsPeer | federation.go:259-278 | a node known by gossip and then added as known has both records, and a lookup returns the pool's |
| RecordFields.LookupPrefersPool | federation.go:259-278 | the pool's record is returned whenever there is one, else the peer's |
| RecordFields.RemovalFields | federation.go:612-664 | a removal changes no other lookup, moves the version once, and its tombstone has its time and its reason, or the old one's when none is given |
| RecordFields.UnionSays | federation.go:521-560 | what a union keeps for a node is one of its tombstones that none is later than and that is at most thirty days old; with at most 256 on both sides it keeps one unless one of the node's is older |
| MergedRecords.PullRemovesIff | federation.go:310-419 | a pull of a pool that does not list a node removes it in every outcome if and only if it is not there, or the version is newer and it is inactive or has a tombstone that is not older and safe from the cap by rank |
| MergedRecords.RemovalReachesIff | federation.go:310-664 | a removal at one replica, pulled by another that lists the node, removes it there in every outcome if and only if the first one's version was at least the other's and the record is inactive or the tombstone is still delivered and not older |
| MergedRecords.EqualVersionsFrozen | federation.go:310-332 | two replicas of equal version that only pull from each other never change |
| MergedRecords.StuckApart | federation.go:310-707 | one removal and one addition from a common pool end in that: however often they pull, only one side lists the node |
| FederationRuns.RevokedLookup | federation.go:261-278 | a tombstoned id is found by lookup if and only if it is a gossip peer |
| FederationRuns.GossipThenRevoked | federation.go:310-332 | gossip followed by a merged removal leaves the id findable |
| FederationRuns.KeyNeverRotatesIff | federation.go:346-755 | over any run the non-empty key of a node that stays live never changes, if and only if no gossiped record of it carries another |
| FederationRuns.GossipKeepsKeyIff | federation.go:562-599 | a gossiped record keeps the key of a member if and only if it is for another node or carries the same key |
| XorMetric.XORDistance | dht_kademlia.go:92-98 | the byte loop computes the XOR whose value is the distance |
| XorMetric.DistanceZeroIff | dht_kademlia.go:92-98 | distance zero means equal ids, and conversely |
| XorMetric.DistanceSymmetric | dht_kademlia.go:92-98 | distance is symmetric |
| XorMetric.DistanceTriangle | dht_kademlia.go:92-98 | the triangle inequality over 256-bit ids |
| XorMetric.DistanceUnique | dht_kademlia.go:92-98 | two ids at the same distance from a target are equal |
| XorMetric.BytesLessIsValue | dht_kademlia.go:142-166 | comparing distances byte by byte is comparing them as numbers |
| XorMetric.BucketIndexLoop | dht_kademlia.go:102-113 | the byte and bit loops find the highest set bit |
| XorMetric.BucketIndexIsLog | dht_kademlia.go:102-113 | the bucket of another id is the floor of the binary logarithm of its distance |
| Kademlia.DHT.AddNode | dht_kademlia.go:116-139 | the table becomes the one with the entry refreshed, appended, or dropped when the bucket is full |
| Kademlia.DHT.RemoveNode | dht_kademlia.go:251-264 | the id leaves the table and the result says whether it was there |
| Kademlia.DHT.FindClosest | dht_kademlia.go:142-166 | the k nearest entries in strict order, every omitted one strictly farther |
| Kademlia.DHT.StaleEntries | dht_kademlia.go:233-247 | exactly the entries older than the cutoff |
| Kademlia.DHT.Put | dht_kademlia.go:169-178 | the key maps to the new record with its deadline |
| Kademlia.DHT.Get | dht_kademlia.go:181-189 | the record unless absent or expired |
| Kademlia.AddKeepsInv | dht_kademlia.go:116-139 | entries sit in the bucket their distance dictates, once, at most 20 a bucket |
| Kademlia.RemoveKeepsInv | dht_kademlia.go:251-264 | removal keeps the same invariant |
| Kademlia.AddMembers | dht_kademlia.go:116-139 | which ids are in the table after an add: all before, and the new one unless it is self or its bucket is full |
| Kademlia.RemoveMembers | dht_kademlia.go:251-264 | which ids are left after a removal |
| Kademlia.ClosestUnique | dht_kademlia.go:142-166 | a set of entries has only one nearest-k list |
| Kademlia.ClosestPrefix | dht_kademlia.go:142-166 | asking for fewer gives a prefix of asking for more |
| Kademlia.LayoutIrrelevant | dht_kademlia.go:142-166 | tables with the same entries answer alike, however they are spread over buckets |
| DhtNetwork.DHTNode.HandleMessage | dht_networking.go:203-237 | the reply and the new state are those of the pure handler, for every message type |
| DhtAnswers.AnswerSays | dht_networking.go:203-253 | the reply has the message's id, the node as sender and the matching type; a value is found if and only if a fresh record is held; FIND_NODE and a FIND_VALUE miss list the node itself and then the 20 entries nearest the target of the table after learning the requester |
| DhtAnswers.AnswerLeaves | dht_networking.go:203-253 | a message leaves its sender learned under its address, and a record under the key for 48 hours if it is a STORE within 256 and 16384 bytes, and nothing else |
| DhtAnswers.AskerIsListed | dht_networking.go:203-253 | who asks for its own id is the first entry listed if the table took it |
| DhtAnswers.RoundAnswers | dht_networking.go:305-333 | a round of a value lookup asks the node at that address for this key and target, and leaves the asker learned there |
| DhtAnswers.LearnTakesEntry | dht_networking.go:176-186 | every entry but the node itself is taken with its addresses and the current time, its first address in the address book |
| DhtAnswers.AddedEntries | dht_kademlia.go:116-139 | after an addition the table holds under the id exactly the new addresses and the current time, if the id was known or its bucket had room; all other entries stay |
| DhtAnswers.RemovedEntries | dht_kademlia.go:251-264 | a removal takes out the entries under the id and no other |
| DhtAnswers.RefreshStamps | dht_networking.go:122-152 | a refresh stamps the old entries that answer, drops those that do not, and leaves every other entry |
| DhtNetwork.DHTNode.LearnEntry | dht_networking.go:176-186 | an entry goes to the table and its first address to the address book |
| DhtNetwork.DHTNode.FindNext | dht_networking.go:370-384 | the nearest of the 20 closest that is not self, not queried and has an address |
| DhtNetwork.DHTNode.IterativeFindNode | dht_networking.go:278-300 | the loop is the round-by-round lookup function |
| DhtNetwork.DHTNode.IterativeFindValue | dht_networking.go:305-333 | likewise for values, stopping at the first answer that carries one |
| DhtNetwork.DHTNode.RefreshBuckets | dht_networking.go:122-152 | stale entries are pinged, those that answer are refreshed, those that do not are removed; the two counts are the numbers of stale entries with an address and of those that do not answer |
| DhtNetwork.RefreshEvictsExactly | dht_networking.go:122-152 | an id is evicted exactly when a stale entry of it with an address does not answer |
| DhtNetwork.StoreAckedButStoredIff | dht_networking.go:203-237 | a STORE is always acknowledged and stored if and only if key and value are within the caps |
| DhtNetwork.LookupQueriesOnce | dht_networking.go:278-300 | no node is queried twice, self never, and at most 256 are |
| DhtNetwork.LookupEarlyExit | dht_networking.go:278-300 | when rounds are left, every addressed non-self entry of the 20 closest was queried |
| DhtNetwork.LookupNeverRetreats | dht_networking.go:278-300 | the closest known distance to the target never grows |
| DhtRuns.RunKeepsProvenance | dht_networking.go:203-237 | in every run, every record of every node was put there by an accepted STORE of that key and value |
| DhtRuns.LogIsHistory | dht_networking.go:411-424 | each accepted STORE was a message sent earlier in the run, within the caps |
| DhtRuns.FindValueIsLookup | dht_networking.go:305-333 | the lookup over the network is the node's own loop with the network as transport |
| DhtRuns.FindValueProvenance | dht_networking.go:305-333 | what a lookup returns was stored under that key and has not expired, and looking changes no record |
| DhtRuns.LookupInAnyRun | dht_networking.go:305-333 | the same at every point of every run, naming the step that sent the STORE |
| DhtLookups.AnswerInAnyRun | dht_networking.go:203-237 | an answer with a value at any step of any run goes back to an earlier STORE of that key and value at the same node, still fresh |
| DhtLookups.InterleavedLookup | dht_networking.go:305-333 | a lookup whose rounds are spread over a run, each choosing from the table the asker has by then and with any steps between choosing, asking and learning, returns only a value stored under that key before its last question, at the node asked there, and fresh |
| DhtLookups.InterleavedQueriesOnce | dht_networking.go:305-384 | however the asker's table changes in between, no node is asked twice and there are at most 256 rounds |
| DhtLookups.InterleavedEarlyExit | dht_networking.go:305-384 | such a lookup that finds nothing with rounds left has asked every addressed entry of the 20 closest it has in the end |
| DhtLookups.AloneIsAtomic | dht_networking.go:305-333 | without other steps in between it comes to the same as the lookup in one piece |
| DhtStore.StoreOnAll | dht_networking.go:336-366 | after storing, exactly the nodes reached hold the value, and only if it is within the caps; every other record stays |
| DhtStore.StoreCountsReached | dht_networking.go:336-366 | the count that decides success is that of nodes reached, whatever they kept |
| DhtStore.StoreThenFind | dht_networking.go:203-237 | a node reached answers a lookup with a value within the caps if and only if it is fresh, whatever it held before; a value over the caps leaves its answer as it was |
| DhtAnswers.StoreAnswers | dht_networking.go:336-366 | the node a STORE reaches acknowledges it, keeps the value under the key and the sender's id for 48 hours if it is within the caps, and learns the sender |
| WireAuth.DhtWireAuth.VerifyMessage | dht_wire_auth.go:121-197 | verdict and new pin map are those of the pure judgement |
| WireAuth.DhtWireAuth.SignMessage | dht_wire_auth.go:94-114 | key id, key and signature are set, or the message is left unsigned |
| WireAuth.SignThenVerify | dht_wire_auth.go:94-197 | a signed message is accepted by whoever trusts or pinned the key, and by a stranger exactly when solicited |
| WireMessages.AcceptedIff | dht_wire_auth.go:121-197 | a message is accepted if and only if it names itself, sits in its own slot, and its signature covers everything else in it under the trusted key, else the pinned one, else its own if it was asked for |
| WireMessages.AcceptedWasSent | dht_wire_auth.go:94-197 | if signatures cannot be forged, whatever is accepted in a run is in every field what the owner of the identity's key sent |
| WireAuth.PinsNeverChange | dht_wire_auth.go:121-197 | a pin never changes in any run |
| WireAuth.OneKeyPerIdentity | dht_wire_auth.go:121-197 | everything accepted for one key id in a run verifies under one key |
| WireAuth.FirstContactSolicited | dht_wire_auth.go:121-197 | a key id outside the pool is first accepted on a solicited response |
| WireAuth.SharedSlotIsCollision | dht_wire_auth.go:121-145 | two accepted messages share a routing slot if and only if the hash maps their key ids together |
| WireAuth.SlotBelongsToOne | dht_wire_auth.go:121-197 | in a run every accepted routing slot belongs to one key id if and only if no two accepted key ids collide |
| Shuffle.CryptoRandBelow | gossip.go:1033-1044 | the rejection loop returns the first accepted draw modulo max |
| Shuffle.EqualPreimages | gossip.go:1033-1044 | every index has exactly limit / max accepted 64-bit draws |
| Shuffle.CryptoShuffle | gossip.go:1018-1028 | the in-place swaps compute the shuffle of the drawn indices |
| Shuffle.ShuffledIsPermutation | gossip.go:1018-1028 | a shuffle permutes the slice |
| Shuffle.ShuffledInjective | gossip.go:1018-1028 | different index vectors give different orders of distinct elements |
| Shuffle.ShuffledSurjective | gossip.go:1018-1028 | every order comes from some index vector |
| PeerSelection.SelectPeers | gossip.go:124-164 | the loops compute the first count of shuffled seeds followed by shuffled regular nodes |
| PeerSelection.SelectionIsSound | gossip.go:124-164 | only reachable peers, as many as asked for or there are, and no regular node while a seed is left out |
| PeerSelection.SelectedPeers | gossip.go:124-164 | only other nodes of the pool with an endpoint or an address are chosen, and all of them if enough are asked for |
| PeerSelection.EverySelectionPossible | gossip.go:124-164 | every arrangement of both groups can be drawn |
| Ledgers.GossipLedger.RecordOne | contribution_ledger.go:182-322 | the record is completed, signed where its kind is, stored and marked; a contribution gets its proof |
| LedgerEntries.RecordSays | contribution_ledger.go:175-322 | a record is stored under its own id or the next number of its kind, with its peer and time filled in if missing, signed if it is a contribution or penalty, a contribution with its content hash; no other record changes |
| Ledgers.GossipLedger.GossipSync | contribution_ledger.go:324-373 | the four passes compute the merge and the result counts the growth |
| Ledgers.GossipLedger.AppendTransaction | contribution_ledger.go:375-415 | the transaction is linked to the last one and list, index, counter, sequence number and dirty keys follow |
| LedgerEntries.AppendSays | contribution_ledger.go:375-416 | the appended transaction has the caller's kind, node, amount, model, request and day, the next number, the last hash before it, and a hash and signature over that; records stay |
| LedgerEntries.AppendMoves | contribution_ledger.go:375-459 | every node's balance moves by the amount of a contribution, against that of a consumption, and by nothing else; the day's counter by a contribution of that node and day |
| LedgerEntries.LedgerSays | contribution_ledger.go:375-416 | a list of requests is in the ledger in its order, one linked transaction each |
| LedgerEntries.LedgerMoves | contribution_ledger.go:375-459 | every balance is what it was plus what the requests come to |
| LedgerEntries.LedgerCounts | contribution_ledger.go:408-425 | every day's counter is what it stood for plus what was contributed that day, in 64-bit arithmetic |
| Ledgers.GossipLedger.DeriveBalance | contribution_ledger.go:444-459 | the loop returns contributions minus consumptions of the node, wrapped to 64 bits |
| Ledgers.GossipLedger.VerifyChain | contribution_ledger.go:469-482 | true if and only if every link and every hash is right |
| Ledgers.ParseKey | contribution_ledger.go:1127-1158 | store keys decode to what they were built from, so no two things share a key |
| Ledgers.DailyKeyInjective | contribution_ledger.go:428-430 | no two pairs of node and day share a counter |
| LedgerLaws.SyncMeaning | contribution_ledger.go:324-373 | first wins: present records stay, otherwise the first offered under an id is taken |
| LedgerLaws.SyncAllTables | contribution_ledger.go:324-373 | the same for all four tables after the whole call |
| LedgerLaws.SyncAgain | contribution_ledger.go:324-373 | offering the same records again changes nothing |
| LedgerChain.TextIdentifiesIff | contribution_ledger.go:396-397 | the hashed text determines the seven fields if and only if none of them holds a bar |
| LedgerChain.AgreeFromHead | contribution_ledger.go:469-482 | two valid chains with one head hash agree position by position from the end |
| LedgerChain.HeadHashIsHistory | contribution_ledger.go:375-482 | for chains begun by appending, head hashes are equal if and only if the histories are |
| LedgerChain.AppendKeepsChain | contribution_ledger.go:375-415 | appending keeps a valid chain valid and never repairs a broken one |
| LedgerSums.AppendMatches | contribution_ledger.go:408-413 | appending keeps the daily counter equal to a scan |
| LedgerSums.RebuiltMatches | contribution_ledger.go:799-806 | the counter rebuilt on load equals a scan |
| LedgerSums.BalancesConserve | contribution_ledger.go:444-459 | the balances of all nodes add up to contributions minus consumptions |
| LedgerSums.DerivedBalancesConserve | contribution_ledger.go:444-459 | the same in the 64-bit arithmetic of the program |
| LedgerStore.SaveBbolt | contribution_ledger.go:1189-1220 | a flush writes the image of all dirty keys and clears them, or changes nothing |
| LedgerStore.WriteAllBbolt | contribution_ledger.go:1223-1248 | a full write stores every key of the ledger or nothing |
| LedgerStore.SerializeKeys | contribution_ledger.go:1161-1171 | succeeds if and only if every key is in memory and encodable, and returns their values |
| LedgerStore.BboltHandle.Cursor | contribution_ledger.go:1263-1266 | all keys in strictly increasing byte order |
| LedgerStore.LoadLedgerBbolt | contribution_ledger.go:1251-1331 | the loaded ledger, or the error, is the fold over the cursor |
| LedgerRuns.SwapStoreOk | contribution_ledger.go:1189-1220 | what a swap puts in flight leaves the store consistent: no stored transaction number is ahead of the stored counter |
| LedgerReload.RunKeepsInv | contribution_ledger.go:134-1331 | write-back safety in every interleaving of calls, swap, commit, failure, merge-back and crash: a key outside dirty, flight and racing equals its memory value |
| LedgerReload.StartInv | contribution_ledger.go:1335-1384 | a ledger written in full to an empty bucket starts such runs |
| LedgerReload.SwapFailsOnlyToEncode | contribution_ledger.go:1127-1158 | serialising a dirty key never hits the not-found error |
| LedgerReload.PendingUntilCommitted | contribution_ledger.go:1189-1220 | only a successful commit takes a key off the list, and then the store has its value |
| LedgerReload.RacingGoesStale | contribution_ledger.go:202-213 | filling in a proof outside the lock leaves the stored value stale with nothing marked |
| LedgerReload.StaleWhileRacing | contribution_ledger.go:202-213 | from every start a flush between the two locked sections reaches such a state |
| LedgerReload.QuietIsPersisted | contribution_ledger.go:1189-1220 | with nothing dirty, in flight or racing, store and memory agree on every key |
| LedgerReload.DailyEqualsScan | contribution_ledger.go:408-413 | the daily counter equals a scan after any run with reloads and crashes |
| LedgerReload.GetDailyIsScan | contribution_ledger.go:421-425 | so the daily lookup of a node returns what a scan of its contributions of that day gives, in 64-bit arithmetic |
| LedgerReload.NextIdUnused | contribution_ledger.go:375-380 | the next transaction id is unused in any run, also after a crash lost work |
| LedgerReload.LoadReflectsStore | contribution_ledger.go:1251-1331 | a consistent store always loads, and the ledger says exactly what the store says |
| LedgerReload.RoundTrip | contribution_ledger.go:1251-1331 | after a run that ends quiet, loading restores all tables, index, counters and balances, the transactions up to order |
| LedgerReload.OrderRestoredIff | contribution_ledger.go:1263-1313 | the order survives a reload if and only if neighbouring ids are in byte order |
| LedgerReload.OrderRestoredByNumbers | contribution_ledger.go:380-380 | in terms of sequence numbers: each is at most the next one cut to its width |
| LedgerReload.EqualWidthRestores | contribution_ledger.go:380-380 | numbers of equal decimal width keep their order |
| LedgerReload.ChainRestoredIff | contribution_ledger.go:469-482 | a reloaded chain verifies if and only if the order survived |
| LedgerLaws.StraightChainSurvivesIff | contribution_ledger.go:375-1331 | a new ledger with n appends verifies after write and reload if and only if n is below ten |
| Governance.GovernanceLedger.Propose | governance.go:151-187 | a proposal is appended, indexed and counted, or refused with the reason |
| Governance.GovernanceLedger.Ratify | governance.go:191-232 | a ballot is recorded and the proposal recomputed, or refused with the reason |
| Governance.GovernanceLedger.Recompute | governance.go:236-270 | counting all ballots closes the proposal when a side has enough, approvals first |
| GovernanceCalls.RunRosters | governance.go:236-318 | after any run of a new ledger a node is admitted if and only if a ratified admit_node proposal names it, and a model allowed if and only if a ratified allow_model proposal names it |
| GovernanceCalls.RosterKinds | governance.go:274-318 | a roster changes only with the ratification of a proposal of its own kind |
| GovernanceCalls.ParamChangesNoRoster | governance.go:274-318 | ratifying param_change proposals never changes a roster |
| GovernanceCalls.ProposeSays | governance.go:151-187 | a proposal is accepted if and only if it has a kind and a title and its proposer fewer than five open ones, and records what was proposed |
| GovernanceCalls.RatifySays | governance.go:191-232 | a ballot is accepted if and only if the proposal is open and the node has not voted on it, and records what was voted |
| GovernanceCalls.HashesSay | governance.go:452-462 | after any run every hash is that of the fields it covers |
| Governance.GovernanceLedger.ApplySnapshot | governance.go:541-563 | both lists are taken over and every index and roster is the fold over them |
| Governance.GovernanceLedger.VerifyChain | governance.go:418-443 | true if and only if every proposal and ratification has its own hash and the previous one's |
| GovernanceRuns.StepKeepsInv | governance.go:151-318 | every call keeps ids numbered and indexed, open counts exact and at most five, one ballot a node, both chains valid, rosters those of ratified proposals |
| GovernanceRuns.NewLedgerInv | governance.go:121-318 | a new ledger satisfies all of that after any run |
| GovernanceRuns.RunExtends | governance.go:151-270 | lists only grow, and a closed proposal never changes |
| GovernanceRuns.ReloadSame | governance.go:541-563 | rebuilding from a snapshot gives the same indexes, counters, ballots and rosters |
| GovernanceRuns.ReloadVerifiesIff | governance.go:452-522 | after a restart the chains verify if and only if saving changed no payload text |
| GovernanceRuns.RelinkVerifiesIff | governance.go:452-455 | any list of proposals verifies after relinking if and only if each has its own hash |
| GovernanceVotes.SupermajorityIsLeast | governance.go:464-469 | the threshold is the least number that is at least two thirds |
| GovernanceVotes.NotBothSides | governance.go:464-469 | an electorate never has enough votes for both sides |
| GovernanceVotes.OrderIrrelevantIff | governance.go:236-270 | the order of ballots does not matter if and only if not both sides reach the threshold |
| GovernanceVotes.Conflict | governance.go:236-270 | otherwise two orders of the same ballots end in opposite outcomes |
| GovernanceVotes.RunTracks | governance.go:191-270 | in any run with a fixed electorate a proposal's status is decided by the first ballot of each node, in order |
| GovernanceVotes.OutcomeIsTotals | governance.go:191-270 | with at most as many voters as the electorate, ratified if and only if the approvals reach the threshold, in whatever order |
| AlgorithmGovernance.TrimSpace | algorithm_governance.go:474-484 | both loops compute the trimmed text |
| AlgorithmGovernance.AlgorithmGovernor.CreateProposal | algorithm_governance.go:264-296 | a proposal and its event are added, or the missing title reported |
| AlgorithmGovernance.AlgorithmGovernor.CastVote | algorithm_governance.go:301-361 | the ballot replaces the voter's earlier one in place or is appended, with one event; refusals change nothing |
| AlgorithmGovernance.AlgorithmGovernor.ResolveProposal | algorithm_governance.go:366-396 | an open proposal is finalised with one event, a resolved one is returned unchanged |
| AlgorithmGovernance.AlgorithmGovernor.GetHistory | algorithm_governance.go:432-443 | the in-place loop returns the history reversed |
| AlgorithmGovernance.TallyVotes | algorithm_governance.go:446-460 | the loop counts each choice and all ballots |
| AlgorithmRuns.TrimMeaning | algorithm_governance.go:474-484 | exactly the blanks at both ends are cut |
| AlgorithmRuns.HistoryReproduces | algorithm_governance.go:264-402 | folding the history rebuilds every proposal with its status, resolution and ballots in place |
| AlgorithmRuns.LastWordCounts | algorithm_governance.go:301-396 | a proposal's status and each voter's counted choice are the last ones in the history |
| AlgorithmCalls.RunIsCalls | algorithm_governance.go:264-396 | after any calls a proposal is there if and only if one created it; it says what its creator and its first resolver passed, and each voter's ballot is what the voter passed last while it was open |
| AlgorithmCalls.HistoryIsCalls | algorithm_governance.go:264-402 | the history has one event for each call that did something, in order, saying what was passed |
| AlgorithmCalls.RefusalIsCalls | algorithm_governance.go:301-330 | a ballot is refused for a choice that is none, a proposal nobody created, or one that is resolved, in that order |
| AlgorithmRuns.NothingAfterResolution | algorithm_governance.go:264-402 | with fresh ids a creation comes first, nothing follows a resolution, and there is at most one |
| AlgorithmRuns.ResolvedIsFinal | algorithm_governance.go:301-396 | no call changes a resolved proposal or rewrites history |
| AlgorithmRuns.TallyCountsVoters | algorithm_governance.go:446-460 | yes, no and abstain add up to the number of distinct voters |
| AlgorithmRuns.RestartRestores | algorithm_governance.go:180-195 | loading a snapshot in any list order gives back every proposal |
| ConfigStore.Config.Write | config.go:280-290 | the key and the update time are set, or an unstorable value is rejected |
| ConfigStore.Config.WriteMany | config.go:295-310 | all storable values with a key are set in one section |
| ConfigStore.Config.Save | config.go:188-197 | the flag is set and the writer's slot taken |
| ConfigStore.Config.Set | config.go:280-290 | a storable value is set, marked and signalled; an unstorable one changes nothing |
| ConfigStore.Config.SetMany | config.go:295-310 | likewise for many values at once |
| ConfigStore.Config.FlushLocked | config.go:118-123 | the settings reach the file when dirty and the save works; the flag drops either way |
| ConfigStore.SealOpenIff | config.go:140-243 | loading what was saved gives the settings back if and only if no sensitive value that looks encrypted decrypts to something else |
| ConfigSettings.SetSays | config.go:280-290 | a key that was set holds its value and the update time is the new one; every other key stays |
| ConfigSettings.SetManySays | config.go:295-310 | the same for many keys, those without a name or with an unstorable value left alone |
| ConfigSettings.LastWriteHolds | config.go:280-290 | after any writes every key holds what was last written to it |
| ConfigSettings.SavedSays | config.go:135-243 | the file has every setting as it is, but the four secrets encrypted when they are plain text |
| ConfigSettings.LoadedSays | config.go:135-243 | loading decrypts exactly the encrypted secrets |
| ConfigSettings.FileKeepsSecrets | config.go:93-243 | in every interleaving of setters and writer a file without plain secrets never gets one |
| ConfigRuns.RunKeepsInv | config.go:93-197 | in every interleaving a dirty flag nobody is signalling has a token or a writer on its way, and the file is the last save that worked |
| ConfigRuns.WriterCatchesUp | config.go:93-135 | such a writer flushes by its own steps alone |
| ConfigRuns.ExitSavesMarked | config.go:93-135 | once the writer is gone, the file covers every save marked before its last check |
| ConfigRuns.ExitCoversIff | config.go:93-135 | when saves may fail: it covers them if and only if some save worked after the last of them was written |
| ConfigRuns.QuietIsAttempted | config.go:93-197 | at rest every write has been in an attempted save |
| ConfigRuns.FileCurrentIff | config.go:93-243 | the file is that of the latest settings if and only if some check saved them and nothing was written since, or nothing was written at all |
| ConfigRuns.QuietNeverRetries | config.go:118-123 | at rest nothing reaches the file without another write |
| ConfigRuns.FailedSaveIsForgotten | config.go:118-123 | one write with a failing save comes to rest with the old file |
| Quota.PublicKeyQuota.ReserveQuota | network_global_pool.go:1027-1148 | all four layers are checked in order and charged together, or none is |
| Quota.PublicKeyQuota.AdjustQuota | network_global_pool.go:1153-1189 | the difference is applied to every layer, after the resets that are due |
| Quota.GuestKeyUsage.CheckAndReserveFull | network_keys.go:614-661 | all limits are checked; only limited windows are charged, the request count always |
| Quota.GuestKeyUsage.Adjust | network_keys.go:666-683 | the difference is applied to both windows, floored at zero |
| QuotaGrants.GrantedIff | network_global_pool.go:1027-1148 | a reservation is granted if and only if it is within every limit that applies by this clock, and a refusal names the first one it breaks |
| QuotaGrants.ReservedCounts | network_global_pool.go:1027-1148 | granted, it counts on the global, address, hour and model counters as they stand by this clock; refused, on none |
| QuotaGrants.AdjustedCounts | network_global_pool.go:1153-1189 | a settlement corrects all of them by the difference |
| QuotaGrants.GuestGrantedIff | network_keys.go:541-661 | a guest key's reservation is granted if and only if it is within the request cap, what is left of both windows, and the requests of the minute |
| QuotaGrants.GuestReservedCounts | network_keys.go:541-661 | it then counts once for the minute and with its tokens in each window with a limit; a refused one counts nowhere |
| QuotaGrants.GuestAdjustedCounts | network_keys.go:541-683 | a settlement corrects both windows, never below zero, and no other key's |
| QuotaRuns.CountersAddUp | network_global_pool.go:1027-1292 | in every interleaving and across all resets, each counter (global, per address by day and hour, per model, per hour key) is the reservations made since it was last started again plus the corrections of requests settled since |
| QuotaRuns.DayIsCharges | network_global_pool.go:1027-1189 | while a day lasts that is the open reservations plus the settled amounts |
| QuotaRuns.LimitsHold | network_global_pool.go:1027-1292 | over all runs and clocks no layer passes its limit by more than the requests used beyond their reservations |
| QuotaRuns.HourAttributionIff | network_global_pool.go:1153-1189 | an hour gets the actual amount if and only if the request was settled in it or at its estimate, or the hour was dropped with nothing to report |
| QuotaRuns.RefundAfterReset | network_global_pool.go:1153-1189 | settled after a daily reset, the counter is the bare difference, negative if and only if it was a refund |
| GuestRuns.CountersBounded | network_keys.go:541-683 | in every interleaving and across all days and hours, a guest key with a limit has used at most the open reservations and settled amounts of the window plus the overruns that crossed into it, and at least that less the refunds that crossed |
| GuestRuns.CountersExact | network_keys.go:541-683 | exactly that when no refund crossed into the window |
| GuestRuns.CountersAddUp | network_keys.go:614-683 | within a day, and within an hour, it has used what was there plus its open reservations and settled amounts; the floor never loses anything |
| GuestRuns.RefundOrder | network_keys.go:666-683 | a refund that crossed is lost ahead of a reservation and taken off it in full behind it, so both bounds are attained |
| GuestRuns.LimitsHold | network_keys.go:614-683 | over all runs and clocks no window of a guest key passes its limit by more than the overruns settled in it |
| GuestRuns.NetIff | network_keys.go:541-683 | a window in which a request begins and ends is charged the actual amount if and only if it has a limit or there was nothing to charge; one that rolled in between starts with the overrun |
| Settlement.StreamProxy | handlers.go:1057-1090 | reports data sent if and only if some byte went out, and the stream's error |
| Settlement.TryCandidates | handlers.go:928-1052 | the last candidate tried is the first that finishes, none before it reached the client, and reply and charge follow from it |
| Settlement.HandleChatCompletions | handlers.go:803-1053 | reply and both quotas are those of the specification: what was reserved is settled once on every way out |
| Settlement.ChargeByReply | handlers.go:948-1052 | the estimate on stream success or partial delivery, reported tokens on an answer, nothing on denial or failure |
| ChatCharges.AdmittedIff | handlers.go:803-901 | a request gets to its providers if and only if what it asks for, the most tokens it wants or 4096, is granted by every quota it is under and the pools allow it |
| ChatCharges.AnswerCosts | handlers.go:803-1052 | an answer reporting its usage costs prompt and completion tokens together on every layer of the public quota and in each limited guest window, and is passed on |
| ChatCharges.SilentAnswerCosts | handlers.go:1009-1024 | an answer without usage costs nothing |
| ChatCharges.StreamCosts | handlers.go:816-980 | a stream, also one that broke after its first bytes, costs the most tokens it asked for, or 4096 |
| ChatCharges.FailureCosts | handlers.go:928-1053 | when every provider fails the request costs nothing, and it is answered as rate limited if and only if the last error is |
| ChatCharges.RefusalCosts | handlers.go:803-927 | a request turned away by a quota, the pools or for want of a provider costs nothing |
| ChatCharges.RequestIsCounted | handlers.go:850-877 | a guest key's request counts once for its minute if it was admitted, however it ends |
| Settlement.ServedIff | handlers.go:803-1052 | a request is served if and only if nothing refused it and some candidate finishes |
| Settlement.FreeServiceIff | handlers.go:1009-1024 | a served request is free if and only if it was not streamed and the first candidate that finishes reported no tokens or no usage |
| Settlement.UnknownUsageIsFree | handlers.go:1009-1024 | one request whose provider answers without usage: estimate 4096, charge nothing |
| Settlement.PublicNetCharge | handlers.go:816-820 | within one window every layer ends up with the charge and nothing else changes |
| Settlement.GuestNetCharge | handlers.go:874-877 | the same for a guest key, in each limited window in which the request begins and ends |

## Left out

- HTTP handlers, provider adapters, TLS, the UDP read loop, registry and seed refresh (wholesale replacement of the pool): I/O.
- Cryptography, JSON text, bbolt and files: functions, partial functions and maps with operations that may fail.
- Pointers shared between callers: entries, records and proposals are values; an entry in a message is never nil, and one node is not registered under two addresses.
- Concurrent calls of `verifyMessage`, two flushers at once in `saveBbolt`, and `saveSync` of the configuration.
- The side tables of the federation manager for DHT entries, and its invite and token bookkeeping: no protocol state depends on them.
- The transport's answers in the single-node lookup loops are a list of replies; `DhtRuns` closes the loop over the in-process network.
- The network run models one RPC as one step; concurrent handling of two messages by a node is serialised by its locks.
- Transparency reports, CSV and JSON export, honour rolls, capability probing and the content hash cache of the ledger file: easy members.
- The four record types of the ledger share one datatype with the fields the code treats specially; other fields are one text.
- Sequence numbers are unbounded, so wrap-around after 2^64 ids is not modelled; amounts do wrap at 64 bits.
- `Save` to a JSON file is not modelled beyond the counter that `LoadGossipLedger` rebuilds; it keeps the order.
- The governance threshold uses exact integers where the program rounds a double; they agree below 2^51 voters. Who may vote is not checked there, so the electorate is a parameter.
- `List`, `AdmittedNodes` and similar read-only listings.
- The writer's debounce timer is a step that may happen at any time.
- Adopted hand-offs from the network gateway, the cross-pool priority manager beyond its verdict, provider cooldowns and usage statistics in the chat handler.
- The remaining-tokens hint of the quota calls: informational.
- TrustPoolMerge.MergeIsJoin: assumes parseable times and that the unexpired tombstones fit the cap; beyond the cap which tombstones survive depends on their text, see `UnionRankLaw`.
- GuestRuns.CountersBounded: covers windows with a limit, because those without one are not counters of consumption, see `NetIff`; with refunds from an earlier window it gives the two bounds and not the amount, which depends on the order of events, see `RefundOrder`.
