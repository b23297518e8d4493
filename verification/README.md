# A Dafny model of an S5 node

The repository is a Go node of the S5 peer-to-peer network. Nodes keep connections to each other,
flood queries for the locations of content, relay signed answers back, gossip signed registry
entries, and exchange all of this in hand-written binary formats. This project models those parts
and proves what they promise, and where a promise fails, exactly when it holds.

`dafny verify dfyconfig.toml` checks the whole project.

## How it is laid out

| module | what it models |
|---|---|
| `Base`, `Sorting`, `Sums`, `Chains` | shared vocabulary; sorted rearrangements; finite sums; chains of moves |
| `Endian`, `Cid`, `EncryptedCid`, `RegistryEntry`, `Announcement` | the binary formats, printers against parsers |
| `Locations`, `HashRouter` | one node's location store and routing table |
| `Flood`, `FloodBounds`, `Cycles`, `FloodEnds`, `Answered` | the query flood and the relay of answers in a network, when they end, and who is answered |
| `Deliveries`, `Livelock`, `Starvation` | two concrete networks at the limits of those results |
| `Registry`, `Gossip` | one node's registry, and a network of them |
| `Dialer`, `Handshake` | outgoing connections with back-off; the handshake and the gate behind it |
| `CachedStore`, `NodeScore`, `Ranking`, `WebApp` | the cached key-value store, votes and ranking, the canonical file map |

Objects that the Go code updates in place are classes (`HashRouter.Router`, `Registry.RegistryService`,
`Dialer.P2PService`, `Handshake.P2PService`, `Ranking.Voting`, `Locations.StorageService`,
`CachedStore.Bucket`, `WebApp.WebAppFileMap`). Each of their methods is proved to take the state to the
value of a function of the old state; the lemmas about whole runs are about those functions. Networks
are step systems whose steps apply the same functions at the receiving node.

## What the model assumes

- A handler runs as one step. The Go listener starts a goroutine per message (net/ws.go:75), and
  the registry's Set reads at service/default/registry.go:95 and writes at line 131 without a lock.
- Ed25519 is abstract: a verifier and a signer passed in. Where it matters, an accepted signature has
  64 bytes and what was signed verifies (section 5.1.7 of RFC 8032).
- Node ids are their bytes; their text form is an injective encoding and names the same node.
- The sender of a registry entry is a connected peer: service/default/registry.go:70 reads its id first.
- Clocks, dial results, socket writes, failing reads and writes of a bucket, cache evictions, random
  challenges and the provider store's answers are parameters or inputs of the operations that meet them.
- Every bucket is a map of its own: the registry's, the votes' and the stored locations'. Behind the shared cache that
  takes keys that no two buckets use (`CachedStore.CacheRightIff`). Registry keys and node ids are both 33 bytes
  beginning with 0xed, so it means that no node that was voted on has an id that is also a registry key.
- No node is its own peer where cycles and components are concerned: service/default/p2p.go:249 does not dial the node itself.
- A run-time panic of the Go code on a slice or index out of range is an error result (`OutOfRange`, `Panicked`).

## What turned out false, and the exact conditions

- The flood always ends, whoever can provide, whatever is stored and however deliveries interleave, exactly
  if no cycle of peers is connected to an origin (`FloodEnds.FloodEndsIff`). Round a cycle queries and answers
  can chase each other for ever: a served entry is dropped, and a dropped entry lets the query flood again.
- Origins that do not provide are always answered by the providers they are connected to, for any number of
  both, exactly if every component of the peer graph is a clique or a star (`Answered.AnswersOthersIff`); origins
  that may themselves provide, exactly if connected nodes are peers (`Answered.AnswersAnyoneIff`). On every graph
  a peer of a provider is answered (`Answered.PeerAnswered`), and so is the origin at the end of a provider's reverse
  path (`Flood.ReverseOriginAnswered`), which with one origin is that origin (`Flood.AnswerDelivery`).
- The relay never leaves out the peer an announcement came from: protocol/storage_location.go:103
  compares a node id with a peer, which is never equal.
- A registry broadcast only reaches the peer the entry came from (service/default/registry.go:161), so news does
  not leave the links it was travelling on (`Gossip.NewsStaysOnItsLink`).
- One cache is shared by all buckets under bare keys. Reads are right exactly when no key is used in two
  buckets (`CachedStore.CacheRightIff`).
- Etcd buckets opened inside buckets can share physical keys, exactly if one's path of names, its last name
  doubled, begins the other's (`CachedStore.ChainsCollideIff`).
- A node that failed as often as allowed is blocked unless closing its sender's connection fails
  (`Dialer.FailuresBlockedIff`). The sleeps of a failing call add up exactly if no nap overflows
  (`Dialer.ExhaustedCost`), and a 64-bit delay of 2^j vanishes exactly after 64 - j doublings (`Dialer.DelayVanishesIff`).
- Closing a connection leaves it filed nowhere exactly if it was filed under the node last proved on it only
  (`Handshake.ClosedUnfiledIff`). One prover is enough for that; a later one leaves the first filed (`Handshake.StaleFiling`).
  It also unfiles another, live connection exactly if that is filed under the same node (`Handshake.CloseUnfilesOtherIff`), and
  a closed connection is filed again at the first right proof handled after its closing (`Handshake.FiledAgainIff`).
- Ranking keys scores by the first four bytes of an id. Every outcome of the sort is in falling order of the
  true scores exactly if listed nodes with the same code have the same score (`Ranking.RankedByScoreIff`).
  Two votes are enough to break that (`Ranking.VotesMisrank`).

## Model

| member | source | states |
|---|---|---|
| Endian.EncodeEndian | utils/endian.go:3-10 | the loop produces the low bytes of the number, least significant first |
| Endian.DecodeEndian | utils/endian.go:12-22 | with uint64 wrap-around in total and multiplier, the result is the little-endian value modulo 2^64 at any length |
| Endian.ValueSnoc | utils/endian.go:12-22 | a further byte counts 256 to the power of its position: the order is little-endian |
| Endian.ValueOfEncode | utils/endian.go:3-10 | n bytes keep exactly the value modulo 256^n |
| Endian.EncodeOfValue | utils/endian.go:3-22 | encoding a byte string's value at its length gives the string back |
| Endian.RoundTrip | utils/endian.go:3-22 | n bytes give a number back exactly when it is below 256^n |
| Endian.TrimmedUnique | encoding/cid.go:52-60 | two trimmed byte strings of equal value are equal |
| Cid.ToBytes | encoding/cid.go:48-65 | prefix, hash, and for raw CIDs the trimmed size, as the trimming loop builds it |
| Cid.ParseSerialized | encoding/cid.go:48-65 | any known non-bridge CID with a 33-byte hash parses back to type, hash and, if raw, its uint64 size |
| Cid.Layout | encoding/cid.go:48-65 | type byte, hash, and for raw CIDs a non-empty little-endian size without high zeros; a bridge CID is its hash |
| Cid.ParseReads | encoding/cid.go:271-301 | a known type byte, its 33 or 34 bytes of hash and any rest are read as type, hash and the value of the rest as a uint64 |
| Cid.AcceptedIff | encoding/cid.go:271-301 | only such strings are accepted; which error says what is wrong with any other |
| Cid.RoundTripIff | encoding/cid.go:271-301 | printing then parsing is the identity on exactly the portable CIDs |
| Cid.EqualsIff | encoding/cid.go:189-191 | for any two CIDs with hashes of one length, Equals is exactly equality of type byte, hash and, if raw, size |
| Cid.WellFormedEqualsIff | encoding/cid.go:189-191 | on well-formed CIDs it is equality of what they carry |
| Cid.EqualsConfuses | encoding/cid.go:52-65 | with hashes of different lengths two raw CIDs can be equal though neither hash nor size is |
| Cid.CarriedIff | encoding/cid.go:271-301 | what a CID carries comes back exactly when type is known and non-bridge and the hash has 33 bytes |
| Cid.ReprintIff | encoding/cid.go:271-301 | parsing then printing is the identity on exactly the canonical byte strings |
| EncryptedCid.ToBytes | encoding/encrypted_cid.go:73-83 | the appended fields in order |
| EncryptedCid.ParseSerialized | encoding/encrypted_cid.go:50-67 | printed fields of the right lengths come back; padding modulo 2^32, chunk power modulo 256 |
| EncryptedCid.ParsedIff | encoding/encrypted_cid.go:50-67 | accepted are exactly 0xae, algorithm, chunk power, 33 bytes of hash, 32 of key, four of padding and the bytes of a CID, as what they say |
| EncryptedCid.ParseErrors | encoding/encrypted_cid.go:50-67 | which error says what is wrong with any other |
| EncryptedCid.RoundTripIff | encoding/encrypted_cid.go:50-84 | the round trip is the identity on exactly the encrypted CIDs in range around a portable CID |
| RegistryEntry.MarshalRegistryEntry | protocol/registry.go:123-138 | the appended record, with or without the key |
| RegistryEntry.UnmarshalMarshal | protocol/registry.go:117-163 | entries with 33-byte key, at most 255 bytes of data and a signature come back |
| RegistryEntry.RoundTripIff | protocol/registry.go:117-163 | and only those do |
| RegistryEntry.RemarshalIff | protocol/registry.go:140-163 | an accepted record is reprinted to itself exactly when its leading byte is 7 |
| RegistryEntry.UnmarshalIff | protocol/registry.go:140-163 | bytes are read as an entry exactly if they are its printing up to the leading byte |
| RegistryEntry.UnmarshalErrors | protocol/registry.go:140-163 | records too short for their data, and those without a signature, are refused as such |
| RegistryEntry.BodyInjective | protocol/registry.go:110-115 | the signed bytes fix revision and data |
| Announcement.PrepareProvideMessage | storage/p2p.go:11-51 | the growing list is the signed layout, then key, then a signature of exactly that layout |
| Announcement.ParseMessage | protocol/storage_location.go:46-74 | the cursor loop computes the parse, with its error and out-of-range cases |
| Announcement.ParsePrinted | storage/p2p.go:11-51 | in range, the parser returns what was printed, and the bytes it verifies are the bytes that were signed |
| Announcement.AcceptsIff | protocol/storage_location.go:46-78 | a message is accepted as an announcement exactly if it is its printing in range, up to the first byte and the terminator |
| Announcement.RefusedKey | protocol/storage_location.go:69-74 | one that reads so but for the type of its key is refused for that type |
| Announcement.ParsedInRange | protocol/storage_location.go:46-78 | whatever is accepted is in range, and signed bytes, key and signature make up the message |
| Announcement.RoundTripIff | protocol/storage_location.go:46-78 | an announcement is read back unchanged exactly when it is in range |
| Announcement.ReprintIff | protocol/storage_location.go:46-78 | an accepted message is the printing of what was read, up to the record type and the terminator the parser skips |
| Announcement.SignedBytesInjective | storage/p2p.go:14-44 | distinct announcements in range never share signed bytes |
| Locations.StorageService.AddStorageLocation | service/default/storage.go:187-228 | the nested maps of the hash gain or replace one record, nothing else changes; nothing at all if the bucket cannot be read or written |
| Locations.StorageService.GetCachedStorageLocations | service/default/storage.go:81-147 | for each node exactly the entry of the last listed kind with an unexpired record; an error exactly if the bucket cannot be read |
| Locations.StoredIsLast | service/default/storage.go:187-228 | after any additions, what is stored is the last thing added for its hash, kind and node |
| Locations.LookupIsLastWriter | service/default/storage.go:81-147 | after any additions, a lookup returns for each node the last record of the last listed kind that has an unexpired one, and nothing else |
| HashRouter.Router.SendHashRequest | service/default/p2p.go:629-646 | one query to every reachable peer and nothing else; no kinds means kind 3 |
| HashRouter.Router.HandleHashQuery | protocol/hash_query.go:90-181 | succeeds exactly if the store can be read and ranked, the provider does not fail and what there is to send can be sent; the sender then gains exactly the stored announcement of the best-ranked available node and, if the node provides, its own, which in range parses to the hash, location and key given, signed over the bytes before the key; a hash that is new goes to every other reachable peer; the requester is recorded |
| HashRouter.OwnReplyAnnounces | protocol/hash_query.go:133-147 | the own reply is, in range, the one message that announces the location under the node's key and signature; there is one exactly if the node provides |
| HashRouter.ReplyIsLastAnnouncement | protocol/hash_query.go:96-131 | after any additions the reply from the store is the message of the last addition for the node, of the last listed kind with an unexpired one |
| HashRouter.RepliesAreVouched | protocol/hash_query.go:114-131 | from records that are vouched for, it is an unexpired announcement of the hash, of a kind asked for, by the ranked node and verified under its key |
| HashRouter.Router.RelayTo | protocol/storage_location.go:100-121 | one turn of the relay loop: who is sent to, and when the entry goes |
| HashRouter.Router.HandleStorageLocation | protocol/storage_location.go:40-124 | accepted exactly if it parses and the verifier accepts, under its key without the first byte, the bytes before the key and the rest as signature, and it is stored; every printed announcement in range that verifies is; one copy goes to each recorded requester that is a reachable peer and not its node; the entry goes if there is such a requester or one that is no longer a peer; records stay vouched for |
| HashRouter.StoreIsVouched | protocol/storage_location.go:76-85 | whatever messages arrive and whatever fails, every stored record's message parses to that record and verifies under the node it is stored for |
| HashRouter.ToAllCounts | protocol/hash_query.go:170-178 | a broadcast is one copy per target and nothing else |
| Flood.InvKept | protocol/hash_query.go:133-178 | every delivery of a query or a location keeps the five-part invariant |
| Flood.ReverseOriginAnswered | protocol/storage_location.go:92-121 | any number of origins, any interleaving: once no location travels, the origin at the end of a provider's reverse path was sent a provider's location and stores one, or is a provider |
| Flood.AnswerDelivery | protocol/storage_location.go:92-121 | any interleaving: with one origin, once a provider has handled a query and no location travels, the origin was sent a provider's location and stores one |
| Flood.QuietMeansAnswered | protocol/hash_query.go:133-178 | once the network is quiet, an origin connected to a provider has been sent and stores its location |
| Flood.FloodCoverage | service/default/p2p.go:636-643 | once no query travels, every node connected to an origin handled it, whatever entries were dropped and created anew |
| Flood.ReversePathExists | protocol/hash_query.go:155-178 | first requesters lead from any node to an origin, each hop to a node that handled the query strictly earlier, with no other origin on the way |
| Flood.ReversePathsAcyclic | protocol/hash_query.go:155-178 | in query-only runs these hops are all recorded in the routing entries |
| Flood.NoRequesterForgotten | protocol/hash_query.go:155-168 | whoever's query was handled is in the entry, or was sent a location since the last such query, or announced one that is stored |
| Flood.HeardAlwaysHolds | protocol/storage_location.go:80-85 | a node that handled a location stores one, from a provider |
| FloodBounds.QueriesBounded | protocol/hash_query.go:155-178 | in any run, queries delivered are bounded by those pending at the start plus the degrees reopened by locations |
| FloodBounds.AnswersBounded | protocol/storage_location.go:100-121 | in any run, locations delivered are bounded by the backlog at the start plus three per query |
| FloodBounds.FloodTerminates | protocol/hash_query.go:155-178 | with no location delivered the flood ends within the pending queries |
| FloodBounds.RelayTerminates | protocol/storage_location.go:100-121 | with no query delivered relaying ends within the sum of entry sizes and travelling locations |
| FloodBounds.UnansweredFloodTerminates | protocol/hash_query.go:155-178 | where nobody can provide, every run ends |
| FloodEnds.FloodEndsIff | protocol/hash_query.go:155-178 | for given peers and origins, every run from every start is bounded exactly if no cycle of peers is connected to an origin |
| FloodEnds.FloodBounded | protocol/hash_query.go:170-178 | without such a cycle, four times the load of the first queries plus the backlog bounds every run of any interleaving |
| FloodEnds.FloodUnbounded | protocol/storage_location.go:100-121 | with one, and the location of a node that has left stored everywhere, there are runs of every length |
| Answered.AnswersOthersIff | protocol/hash_query.go:133-178 | for given peers: all origins that do not provide are answered by any providers they are connected to, in every run that comes to rest, exactly if connected nodes are peers or have one peer each |
| Answered.AnswersAnyoneIff | protocol/hash_query.go:133-178 | for given peers: all origins, providing or not, are answered or provide themselves exactly if any two connected nodes are peers |
| Answered.PeerAnswered | protocol/hash_query.go:133-147 | on any graph and in every run that comes to rest, an origin that is a peer of a provider is answered |
| Answered.StarAnswered | protocol/storage_location.go:100-121 | so is an origin whose peer is the only peer of a provider, the other providers around that peer having no other either |
| Answered.FartherOriginStarves | protocol/hash_query.go:155-178 | around a provider with two peers that both ask, an origin further off can be left without an answer |
| Answered.ProvidingOriginStarves | protocol/hash_query.go:155-178 | of two origins that are connected but not peers, one of them providing, the other can be left without an answer |
| Cycles.WalkBound | protocol/hash_query.go:170-178 | without a cycle, a query passed on and never straight back visits no node twice |
| Cycles.LongWalk | protocol/hash_query.go:170-178 | from an origin connected to a cycle it can go on for any number of hops |
| Livelock.FloodNeedNotEnd | protocol/storage_location.go:120-120 | sharper, on three mutual peers: runs of unbounded length return to the very same traffic every nine deliveries |
| Livelock.TriangleNeedNotEnd | protocol/storage_location.go:120-120 | three mutual peers are an instance of the exact condition |
| Starvation.SecondOriginStarves | protocol/hash_query.go:155-163 | a run that ends quiet although one of two origins, connected to the provider, was never sent a location |
| Starvation.ForkIsInstance | protocol/hash_query.go:155-163 | its network is an instance of the exact condition: neither a clique nor a star |
| Registry.RegistryService.GetFromDB | service/default/registry.go:295-311 | a failing read, no entry, an unreadable one, or the entry under the key |
| Registry.RegistryService.BroadcastEntry | service/default/registry.go:143-175 | as written, only the peer the entry came from is sent it |
| Registry.RegistryService.Set | service/default/registry.go:64-142 | refused, known, answered with the newer entry or stored and sent on; bucket, events, messages and result in every case; the answer reads as exactly the entry stored under the key |
| Registry.RefusalIff | service/default/registry.go:76-93 | which of the five checks refuses an entry; valid is exactly a 33-byte 0xed key, revision up to 2^48, up to 64 bytes of data, and a signature over type, revision, length and data |
| Registry.DecideExplained | service/default/registry.go:95-134 | whatever the bucket holds: known, stale and stored by comparing revisions; a stale answer reads as the stored entry, a stored record as the entry that came |
| Registry.StaleIsStored | service/default/registry.go:100-110 | in a meaningful bucket the stale answer is a valid entry of the key, of a higher revision |
| Registry.BucketStaysMeaningful | service/default/registry.go:76-93 | after any entries, stored bytes unmarshal to an entry of their key that verifies, revision at most 2^48, data at most 64 bytes |
| Registry.RevisionsOnlyGrow | service/default/registry.go:95-134 | a key's stored revision never decreases |
| Registry.RegisterIsMaximum | service/default/registry.go:95-134 | a key holds the first delivered of its valid entries of highest revision, and nothing if it had none |
| Registry.OrderDoesNotMatter | service/default/registry.go:95-134 | the stored revision is the same for every permutation of the entries |
| Gossip.InvKept | service/default/registry.go:95-174 | every delivery keeps all buckets meaningful and all mail addressed to nodes |
| Gossip.StepDecreases | service/default/registry.go:95-174 | every delivery makes a register gain, or leaves them and makes the mail lighter |
| Gossip.GossipQuiesces | service/default/registry.go:95-174 | no network can deliver for ever, whatever is in flight and whoever stored entries are broadcast to |
| Gossip.DeliveredEntry | service/default/registry.go:95-134 | a delivered valid entry replaces exactly a missing or older one in its target's register; no other register changes |
| Gossip.StaleIsAnswered | service/default/registry.go:104-110 | an older entry is answered to its source with the target's own, valid entry |
| Gossip.SenderCatchesUp | service/default/registry.go:104-110 | once that answer is delivered, whatever happened in between, the source holds the answerer's entry unless it holds that revision or a later one |
| Gossip.NewsIsBroadcast | service/default/registry.go:143-175 | an entry that was stored leaves for every node broadcast to |
| Gossip.NewsStaysOnItsLink | service/default/registry.go:156-172 | with the broadcast as written, a node at neither end of a travelling record keeps its bucket to the byte |
| Dialer.ChooseUri | service/default/p2p.go:161-179 | the first web socket URI, else the first TCP one |
| Dialer.ChosenIff | service/default/p2p.go:161-179 | none is chosen exactly without a ws, wss or tcp URI; else the first web socket one, or without any the first TCP one |
| Dialer.TargetIff | service/default/p2p.go:161-201 | the node is the decoded user of the chosen URI; which error says what is missing |
| Dialer.P2PService.BlockFrom | service/default/p2p.go:212-234 | the sender's id and address are blocked and it is closed; the flag is the closing's |
| Dialer.P2PService.RecordFailure | service/default/p2p.go:259-303 | one more failure; at the limit the sender is blocked first, and the node only if the closing succeeds |
| Dialer.P2PService.DialNode | service/default/p2p.go:255-361 | one dial: success forgets the failures and makes the node pending; exhaustion gives up; otherwise the delay doubles and its old value is slept |
| Dialer.P2PService.ConnectToNode | service/default/p2p.go:149-361 | the recursive call ends, in the state and with the error of the attempts it is made of |
| Dialer.P2PService.AddPeer | service/default/p2p.go:596-609 | filed, delay reset to 1, no longer pending |
| Dialer.CallReaches | service/default/p2p.go:255-361 | after a call whose last dial succeeded the node is pending and has no failures, and there is no error; if all its dials failed it has one failure more and is not pending |
| Dialer.ReachedNotRedialled | service/default/p2p.go:203-205 | over any run, a pending node or a peer stays one of the two and is not dialled again until a connection with its id is closed |
| Dialer.FailuresAreGiveUps | service/default/p2p.go:259-330 | after any run a node's failures are the give-ups on it since the last dial of it that succeeded |
| Dialer.DelaysAreRetries | service/default/p2p.go:315-321 | after any run a node's delay is two to the power of its retries since its last handshake, modulo 2^64 |
| Dialer.StepOfFailures | service/default/p2p.go:259-330 | an event changes a node's failures exactly by reaching it or giving up on it |
| Dialer.StepOfFiling | service/default/p2p.go:349-349 | a node is pending from a dial that succeeds until its handshake or a closing, and a peer from then until a closing |
| Dialer.StepOfDelay | service/default/p2p.go:315-321 | a delay doubles exactly with a failed dial that will be retried, and a handshake resets it to 1 |
| Dialer.StepOfLog | service/default/p2p.go:255-325 | exactly the dials are logged, and the delay before its doubling is slept for each retry |
| Dialer.StepOfBlocks | service/default/p2p.go:269-303 | a node is blocked exactly by a give-up at the limit whose sender, if any, closes |
| Dialer.StepOfSender | service/default/p2p.go:207-241 | a sender of a blocked or given-up node is kept out by id and address and closed once |
| Dialer.OutcomeIff | service/default/p2p.go:149-361 | which attempts are repeated, and which end in which error |
| Dialer.ExhaustedCost | service/default/p2p.go:255-325 | when every dial fails, budget M costs exactly M + 2 dials of the target, one more failure, the delay times 2^(M+1) modulo 2^64, and at most d * (2^(M+1) - 1) seconds slept: that many exactly if no nap overflows |
| Dialer.DelayVanishes | service/default/p2p.go:315-323 | with a budget of at least 63 the doubled delay ends at zero |
| Dialer.DelayVanishesIff | service/default/p2p.go:315-323 | a delay of 2^j ends at zero exactly if j + M + 1 reaches 64 |
| Dialer.DelaysStayPowers | service/default/p2p.go:315-321 | after any run every delay is a power of two or has vanished |
| Dialer.DialBound | service/default/p2p.go:149-361 | whatever the dials' outcomes, a call dials its own target only, at most M + 2 times |
| Dialer.CallIsRun | service/default/p2p.go:325-325 | every call is a run of attempts with one retry more each, so facts about all runs cover calls interleaved in any way; its error is that of the last |
| Dialer.SenderBlockedIff | service/default/p2p.go:207-303 | a sender is newly blocked exactly for passing on a blocked node, or one on which the attempt gives up at the limit |
| Dialer.FailuresBlockedIff | service/default/p2p.go:269-303 | an event keeps every node at its failure limit blocked, exactly unless it gives up at the limit and the sender fails to close |
| Dialer.FailuresAlwaysBlocked | service/default/p2p.go:269-303 | if closings succeed, every node at its limit is blocked after any run |
| Dialer.BlockedForGood | service/default/p2p.go:207-241 | over any run a blocked node stays blocked and is not dialled |
| Dialer.FailedOutNeverDialled | service/default/p2p.go:207-303 | if closings succeed, no run dials a node again once its failures reached the limit |
| Dialer.CloseFailureRedials | service/default/p2p.go:290-293 | otherwise the very next attempt dials it |
| Handshake.P2PService.HandleHandshakeDone | protocol/signed_handshake_done.go:77-139 | challenge, id and features are checked in this order; connection and handshake flags are set before the features check, the peer is filed after it |
| Handshake.P2PService.HandleSigned | protocol/signed_message.go:84-125 | the inner gate: peer announcements need a finished handshake, HandshakeDone does not |
| Handshake.P2PService.OnMessage | service/default/p2p.go:444-500 | the outer gate, and the signature check before anything inside is read; a decodable message of a gated kind and a verified peer announcement are applied exactly if the gate is open, with their own kind and body |
| Handshake.GateIff | service/default/p2p.go:454-463 | over any run a connection's gate is open exactly if a verified HandshakeDone over its challenge arrived on it while services ran, by the dialled node if it was dialled |
| Handshake.NothingBeforeProof | protocol/signed_message.go:94-103 | no message changes registry, routing, locations or dialling unless such a proof came earlier on its connection |
| Handshake.StoreIsFold | service/default/p2p.go:488-500 | over any run, the state behind the gate is the fold of exactly the decodable gated messages and verified peer announcements on connections with an earlier proof, in order |
| Handshake.StepApplies | service/default/p2p.go:488-500 | in any state such a message is applied exactly if the gate is open, and nothing else changes that state |
| Handshake.ProofEffects | protocol/signed_handshake_done.go:92-129 | a proof sets id, connected and handshake flags; with the right features it also files the connection, resets the delay, ends the pending and names the node in its URIs |
| Handshake.OnlyProofsMatter | protocol/signed_handshake_done.go:77-139 | no other message changes connections, peers, delays or pending |
| Handshake.FailureIff | protocol/signed_message.go:84-151 | which messages are ignored, refused for which reason, or replied to with what |
| Handshake.StepPending | service/default/p2p.go:432-434 | a node is pending from its dialling until it is proved with the right features or a connection with its id closes |
| Handshake.StartedIff | protocol/signed_handshake_done.go:84-90 | services run exactly if they were last started |
| Handshake.FiledWasProved | protocol/signed_handshake_done.go:92-110 | a connection filed under an id had such a proof signed by that id, with the required features |
| Handshake.DialledIsFiled | protocol/signed_handshake_done.go:98-104 | a dialled connection is filed only under the id it was dialled for, and its challenge is the one it was opened with |
| Handshake.ClosedUnfiledIff | service/default/p2p.go:421-436 | after any run, closing a connection leaves it filed nowhere exactly if it was filed under its last prover only |
| Handshake.OneProverUnfiles | service/default/p2p.go:421-436 | a connection on which only one node was ever proved is filed nowhere once it is closed |
| Handshake.DialledUnfiles | service/default/p2p.go:421-436 | in particular every dialled connection |
| Handshake.StaleFiling | service/default/p2p.go:421-436 | after any run, a connection filed under one node and then proved by another stays filed under the first when it closes |
| Handshake.StaleFromStart | protocol/signed_handshake_done.go:96-102 | from the start, any two nodes' proofs on an accepted connection come to that |
| Handshake.CloseUnfilesOtherIff | service/default/p2p.go:428-434 | after any run, closing one connection unfiles another exactly if the first has the id under which the second is filed |
| Handshake.LiveUnfiledFromStart | service/default/p2p.go:428-434 | from the start, of two connections of one node, closing the first leaves the second, live one filed nowhere |
| Handshake.FilesIff | protocol/signed_handshake_done.go:92-110 | in any state, before or after its closing, an event files a connection under a node exactly by proving it with the right features |
| Handshake.FiledAgainIff | protocol/signed_handshake_done.go:92-110 | a closed connection is filed again at the first such proof handled after its closing, and not before |
| Handshake.PairIff | protocol/handshake_open.go:92-119 | between correct nodes, a's opening is answered and files b under its id exactly if their networks agree |
| CachedStore.Bucket.Get | db/bboltdb.go:74-102 | the cached value if there is one, without asking the backend; else the stored one, which is then cached; a failing backend or a root bucket is an error that changes nothing |
| CachedStore.Bucket.Put | db/bboltdb.go:104-128 | store and cache are both updated, or neither on an error |
| CachedStore.Bucket.Delete | db/bboltdb.go:130-154 | removed from both, or from neither on an error |
| CachedStore.GetIsLastPut | db/lru.go:23-39 | with keys apart, after any history and any evictions every read returns the last value put at its place |
| CachedStore.CachedIff | db/bboltdb.go:74-164 | after any history over keys apart, a key is cached exactly if a put or successful read brought it in and no deletion or eviction lost it since |
| CachedStore.CacheRightIff | db/bboltdb.go:156-164 | all reads of all histories are right exactly when no key is used in two buckets |
| CachedStore.SiblingKeysInjective | db/etcd.go:115-131 | physical keys of sibling buckets are equal exactly for equal bucket and key |
| CachedStore.ChainsCollideIff | db/etcd.go:115-131 | two chains of nested buckets can share a physical key exactly if one's path of names, its last name doubled, begins the other's |
| CachedStore.NestedKeysCollide | db/etcd.go:115-131 | in particular a bucket inside a bucket of the same name shares keys with it |
| NodeScore.UpvoteRaises | protocol/protocol.go:24-34 | an upvote strictly raises the score, for every positive, decreasing, convex weight that is 1 at 0 |
| NodeScore.DownvoteLowers | protocol/protocol.go:24-34 | a downvote strictly lowers it |
| NodeScore.ScoreSymmetric | protocol/protocol.go:24-34 | score(g, b) + score(b, g) = 1 |
| NodeScore.ScoreBetween | protocol/protocol.go:24-34 | the score is in [0, 1], between 1/2 and the plain average |
| NodeScore.ScoreByPull | protocol/protocol.go:24-34 | the score leaves 1/2 by half the vote difference times (1 - w(t)) / t for t votes |
| NodeScore.ScoreStrictlyBetween | protocol/protocol.go:24-34 | no votes bring a score to 0 or 1 |
| Ranking.Voting.Vote | service/default/p2p.go:666-683 | one count of one node goes up by one, exactly if its votes can be read, decoded and saved; else nothing changes |
| Ranking.Voting.GetNodeScore | service/default/p2p.go:544-556 | 1 for the node itself, 1/2 and an error for votes that cannot be read or decoded, else the score of the counts |
| Ranking.Voting.SortNodesByScore | service/default/p2p.go:557-576 | in place, a rearrangement in falling order of the scores map; an error exactly if some node's votes cannot be read |
| Ranking.VotesAreCounted | service/default/p2p.go:666-683 | after any votes, a node's record counts its upvotes and downvotes, in whatever order |
| Ranking.RateOfVotes | service/default/p2p.go:544-569 | after any votes a node rates 1 exactly if it is the node itself, 0 exactly if reading fails, and else the score of the votes cast on it |
| Ranking.LocalFirstFailingLast | service/default/p2p.go:557-576 | where codes tell ratings apart, every outcome has the node itself first and unreadable nodes last |
| Ranking.VoteMovesOnlyItsNode | service/default/p2p.go:666-683 | after any votes, one more moves its node's rating strictly the way it points and no other |
| Ranking.SameCodeIff | utils/bytes.go:9-18 | two ids share a code exactly when they share their first four bytes |
| Ranking.ScoreOfLast | service/default/p2p.go:561-569 | the scores map holds the rating of the last listed node of each code |
| Ranking.OwnScoresIff | service/default/p2p.go:557-576 | every listed node is ranked by its own rating exactly when nodes of one code have one rating |
| Ranking.RankedByScoreIff | service/default/p2p.go:571-573 | every outcome of the sort is in falling order of the true ratings exactly if nodes of one code have one rating |
| Ranking.CollisionMisranks | service/default/p2p.go:571-573 | a node whose code is listed later with a worse rating ranks below every node in between |
| Ranking.VotesMisrank | service/default/p2p.go:557-576 | one upvote and one downvote are enough: the node voted up ranks below one without votes in every outcome |
| WebApp.WebAppFileMap.Put | metadata/web_app.go:127-129 | a new key goes last, an old one keeps its place |
| WebApp.WebAppFileMap.Remove | metadata/web_app.go:139-141 | the key leaves order and table, the rest keeps its order |
| WebApp.WebAppFileMap.Sort | metadata/web_app.go:161-172 | the rebuilt map has the same entries, keys in bytewise order |
| WebApp.WebAppFileMap.EncodeMsgpack | metadata/web_app.go:174-199 | one row of path, CID bytes and content type for each entry, in bytewise order of the paths, leaving the map sorted |
| WebApp.WebAppFileMap.DecodeMsgpack | metadata/web_app.go:201-247 | the loop computes the decoding with every error case, headers and rows that are no arrays included; after a bad row exactly the rows before it stay, after a bad header everything does |
| WebApp.PathOrder | metadata/web_app.go:165-165 | the bytewise order is total, transitive and antisymmetric |
| WebApp.PathLeIff | metadata/web_app.go:165-165 | a path comes before another exactly if it begins it or has the smaller byte where they first differ |
| WebApp.EncodingIsCanonical | metadata/web_app.go:174-199 | maps with the same entries encode to the same sequence, whatever the insertion order |
| WebApp.DecodedIff | metadata/web_app.go:201-247 | a document decodes exactly if it is an array that counts no more rows than there are, all of text, CID bytes and text |
| WebApp.DecodedEntries | metadata/web_app.go:201-247 | what is decoded is sorted and has for each path exactly what its last row says |
| WebApp.DecodedErrors | metadata/web_app.go:201-247 | no array, the first bad row, or rows counted but not there decide the error |
| WebApp.ReadRowIff | metadata/web_app.go:216-240 | which rows are read as what, and which field of a bad one decides its error |
| WebApp.DecodeEncodedIff | metadata/web_app.go:201-247 | decoding an encoding gives the key-sorted map with equal content types and carried CIDs, exactly when all CIDs are known, non-bridge and have 33-byte hashes |
| WebApp.ReencodeSame | metadata/web_app.go:174-247 | what was decoded encodes to the same sequence again, so its CIDs are equal under Equals |

## Left out

- WebSockets, HTTP handlers, TLS, URL parsing, logging, bbolt and etcd themselves: input and output, or foreign code.
- MessagePack bytes: messages are values. Kinds 5 and 7 are single-byte positive fixints (the int format family of the MessagePack specification), which is why raw records dispatch on their first byte.
- Base58, base32, base64 and hex: injective encodings of the bytes the model uses.
- Concurrency inside a handler: two goroutines of one connection, or two calls of Set, interleaving between a read and its write.
- Registry queries, Get, Listen and SendRegistryRequest: built on sleeps and emitters; a query can also trigger queries to all peers.
- Trusted calls of Set in the bucket and gossip theorems: they skip the checks those need. The method itself covers them.
- The incoming blocklist test of OnNewPeer: as written it looks the id up among addresses and the address among ids (service/default/p2p.go:376 and 384). Nothing is claimed about it.
- Bridge CIDs: their printed form lacks the prefix the parser expects, so they have no round trip; CIDVerify, CopyWith, the registry and JSON forms only wrap what is modelled.
- Slice capacity: a Go slice may be cut beyond its length up to its capacity; the model reports that as out of range.
- Directory, media, extra and JSON metadata and the error pages of a web app: reflection-driven decoding, several encoders unimplemented.
- Mutex wrappers, accessors and the mediator: maps and sets keyed by value.
- The location provider's polling goroutine and its timeouts, and local locations of the storage service.
- Floating-point rounding in the score, and the logarithm: the weight is any positive, decreasing, convex function that is 1 at 0. Vote counts do not wrap.
- Several hashes at once in the flood: routing entries of different hashes do not influence each other, so the network model follows one hash, and a fixed set of peers with reliable sends.
- Flood.AnswerDelivery: one origin; with more the answer depends on the peer graph, as `Answered.AnswersOthersIff` states.
- Handshake.P2PService.OnMessage: what the handlers behind the gate do, and the errors they return, is a parameter here, and whether its reply to an opening can be written is not asked; the handlers are modelled in `HashRouter`, `Registry` and `Dialer`.
- HashRouter.Router.HandleHashQuery: the ranking of the available nodes is a parameter, any choice among them or an error; `Ranking` models the ranking.
- Ranking.Voting.SortNodesByScore: the order among equal scores, which Go's sort does not promise.
- Dialer.P2PService.ConnectToNode: a budget of the largest uint, where the retry counter would wrap before it is exceeded; and errors of the transport's peer constructor, which web sockets do not have.
