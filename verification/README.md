# A verified model of the messenger's protocol cores

This project models, in Dafny, the parts of the messenger that carry its guarantees, and proves what they guarantee:

- the Double Ratchet and X3DH (sections 3.3 to 3.5 of "The Double Ratchet Algorithm", sections 3.3 and 3.4 of "The X3DH
  Key Agreement Protocol"): `Ratchet`, `RatchetSystem`, `RatchetLedger`, `RatchetGaps`,
  `X3dh`, `PreKeyPool`
- the Kademlia table and its iterative lookups: `NodeId`, `Closest`, `RoutingTable`, `Lookup`, `ValueLookup`
- ordered, deduplicated delivery: `Ordering`
- erasure-coded storage spread over peers, with repair: `ShardKeys`, `Erasure`, `Distributed`, `Repair`, `Outcomes`,
  `StorageNode`,
  and the choice of peers: `Placement`
- onion building and relay forwarding: `Onion`, `Relay`
- the wire codecs: `Codec`, `CodecLoops`, `Wire`; the API rate limiter: `RateLimiter`; byte strings: `Bytes`

`dafny verify dfyconfig.toml` checks everything.

## How the model is built

Objects that Go updates in place are classes, and every method of such a class is proved equal to a function of the
old state; the theorems are about those functions, and so hold of the methods. Loops stay loops.

The primitives (X25519, HKDF, AES-GCM, RSA, BLAKE2b, JSON, Reed-Solomon) are function values held in a datatype
(`Suite`, `Ciphers`, `Code`). What is assumed of them is the predicate `Lawful` of that datatype and no more: DH commutes,
opening inverts sealing, any ten shards of a codeword determine all fifteen (`RatchetSystem.SomeSuiteIsLawful` and
`Onion.SomeCiphersAreLawful` show that the laws of a `Suite` and of `Ciphers` can be met). Random values, clock readings, RPC replies,
failures and goroutine schedules are parameters, so every theorem ranges over all of them.

uint16, uint32 and uint64 arithmetic wraps where it wraps in Go.

## What the code does that its documentation does not say

- `SkipMessageKeys` advances the chain but not `ReceivingMsgNum`. After a gap the chain runs ahead of the counter for
  ever: `RatchetLedger.RunAccounted` keeps the account over every run, `RatchetGaps.OwnKeyIffNoGap` says exactly which
  messages are still opened with their own key, `RatchetGaps.SecondAfterGapFails` gives the shortest failing order, and
  `RatchetGaps.OneGapRecovers` says exactly which skipped messages decrypt after one gap.
- A late message of a chain already left is opened with its stored key, yet it makes the receiver ratchet back to the old
  key and overwrite the stored keys of the lower numbers with keys derived from the current root
  (`RatchetLedger.LateRatchetsBack`). From then on the messages of the chain just left are opened with keys derived from the
  replaced root (`RatchetLedger.LateDesynchronises`).
- If a sending counter wraps past 2^32 on a lost message, `SkipMessageKeys` stores nothing for that chain
  (`RatchetSystem.LeaveChain`); what arrives still decrypts.
- Sessions made by `InitializeRatchetSession` never run the DH ratchet (`RatchetSystem.SettledNeverRatchets`), because each
  side already has the key the other side announces. Replies travel on a chain that starts from the all-zero key on both
  sides; they do decrypt.
- A one-time prekey with id 0 is used by the initiator and ignored by the responder, so the secrets differ unless the KDF
  collides (`X3dh.Agreement`, with an instance in `X3dh.IdZeroDisagrees`).
- A refill that runs past the largest uint32 overwrites live keys (`PreKeyPool.RefillKeepsLive`), and so does a second
  `InitializeX3DH` (`PreKeyPool.SecondInitializeOverwrites`); `PreKeyPool.LiveKeysKeptIff` says when no key is ever lost.
- An encrypted onion key longer than 65533 bytes breaks its box, because `2 + keyLen` is computed in uint16
  (`Onion.SeparateCombine`).
- After 2^64 messages a sequence number is used again, and the later message can be delivered in the earlier one's
  place (`Ordering.PrefixIffNoReuse`).
- Peer ids shorter than 32 bytes that differ only in trailing zero bytes are at the same distance from every key, and the
  order in which libp2p lists them decides (`Placement.ListingDecidesChoice`; `Placement.ShortIdsTie` has two such ids).
- `GetShardStatus` only pings, so a shard lost at a live peer does not count as missing: `RepairChunk` reports success and
  does nothing even when no shard is left anywhere (`Repair.DoneButLost`, `Repair.RepairHeldIff`).
- One window length can see almost twice the request limit, 2 * limit - 1 requests, and no more
  (`RateLimiter.LessThanTwiceTheLimit`).

## Model

| member | source | states |
|---|---|---|
| `Ratchet.HeaderRoundTrip` | pkg/protocol/ratchet.go:88-106 | A header followed by any bytes decodes to itself. |
| `Ratchet.ChainSplit` | pkg/protocol/ratchet.go:135-158 | Taking m and then n KDF_CK steps is taking m + n, and message keys shift along. |
| `Ratchet.StoredKeys` | pkg/protocol/ratchet.go:391-416 | For every key id: skipping stores exactly the numbers in the gap, each with the message key at its own distance along the chain, and leaves all other stored keys alone. |
| `Ratchet.EncryptKeepsReceiving` | pkg/protocol/ratchet.go:314-336 | RatchetEncrypt changes the sending chain and its counter and nothing else. |
| `Ratchet.DecryptKeepsSending` | pkg/protocol/ratchet.go:361-387 | On the chain being received RatchetDecrypt, gap or no gap, error or not, changes the receiving chain, its counter and the stored keys and nothing else. |
| `Ratchet.RatchetSetsSending` | pkg/protocol/ratchet.go:259-310 | With another key, for every message number: root, sending chain, counters and key pair are those KDF_RK and the generated key give, or what a refused gap or failed key generation leaves. |
| `Ratchet.RatchetState.Initiator` | pkg/protocol/ratchet.go:167-203 | The initiator's state: root and sending chain from the first DH, zero receiving chain. |
| `Ratchet.RatchetState.Receiver` | pkg/protocol/ratchet.go:208-227 | The receiver's state: the shared secret as root, zero chains and remote key. |
| `Ratchet.RatchetState.SkipMessageKeys` | pkg/protocol/ratchet.go:391-416 | The loop stores the keys of the gap and advances the chain but not the counter; a gap above 1000 (in uint32 arithmetic) is an error that changes nothing. |
| `Ratchet.RatchetState.DHRatchet` | pkg/protocol/ratchet.go:259-310 | Both halves of the DH ratchet, and the half-done state left behind when key generation fails. |
| `Ratchet.RatchetState.RatchetEncrypt` | pkg/protocol/ratchet.go:314-336 | Whole new state and result, also when encryption fails after the chain has moved. |
| `Ratchet.RatchetState.RatchetDecrypt` | pkg/protocol/ratchet.go:340-387 | Whole new state and result on every path: short header, gap too wide, failed key generation, stored key, chain key, failed decryption. |
| `RatchetSystem.StepInSync` | pkg/protocol/ratchet.go:259-416 | The same for party a, on which the case of the other party rests. |
| `RatchetSystem.EventInSync` | pkg/protocol/ratchet.go:259-416 | One send, loss or receive by either party keeps the two-party invariant, and the receive returns the plaintext. |
| `RatchetSystem.LeaveChain` | pkg/protocol/ratchet.go:349-378 | Leaving a chain stores exactly the keys its sender used for the lost tail, or none if the 32-bit counter wrapped on that tail. |
| `RatchetSystem.ReceiveNewer` | pkg/protocol/ratchet.go:259-310 | The first message of an unseen chain makes the receiver ratchet, decrypt, and take over the lead. |
| `RatchetSystem.RunDecrypts` | pkg/protocol/ratchet.go:167-416 | Tail loss: in every interleaving of sends, losses of chain tails of at most 1000, receives and DH ratchets, every message that arrives decrypts to its plaintext. |
| `RatchetSystem.StoredAreLost` | pkg/protocol/ratchet.go:340-416 | After every run the stored keys are exactly those the peer used for lost messages of chains already left, except chains whose counter wrapped on a lost message. |
| `RatchetSystem.Lockstep` | pkg/protocol/ratchet.go:167-387 | Over lossless FIFO channels every decrypt returns the matching plaintext and no key is ever stored. |
| `RatchetSystem.FreshPairInSync` | pkg/protocol/ratchet.go:167-227 | The two constructors on one secret give a pair in the invariant, with the DH ratchet still to run. |
| `RatchetSystem.FreshPairDecrypts` | pkg/protocol/ratchet.go:167-416 | From that start, for every run: all arriving messages decrypt, stored keys are exactly the lost ones, none if nothing is lost. |
| `RatchetSystem.FirstMessageRatchets` | pkg/protocol/ratchet.go:349-359 | From that start the first message makes the receiver ratchet to a new key pair. |
| `RatchetSystem.SettledNeverRatchets` | pkg/network/session_manager.go:84-112 | When both sides already know each other's key, root and DH keys stay the same over every run. |
| `RatchetLedger.RatchetResets` | pkg/protocol/ratchet.go:259-310 | A DH ratchet to any key, one with stored keys included, resets counter and gaps and keeps the stored keys, also when it stops half way. |
| `RatchetLedger.DecryptAccounted` | pkg/protocol/ratchet.go:340-416 | One RatchetDecrypt on any path (bad header, gap too wide, ratchet, failed key generation, stored or chain key): KDF_CK steps equal the counter plus the gaps filled, and the message is opened with the key the account names. |
| `RatchetLedger.RunAccounted` | pkg/protocol/ratchet.go:259-416 | Chain position accounting over every run of encrypts and decrypts with arbitrary headers, bodies and key generation failures. |
| `RatchetLedger.NewAccounted` | pkg/protocol/ratchet.go:167-227 | New sessions start with an empty account, so every reachable session has one. |
| `RatchetLedger.LateRatchetsBack` | pkg/protocol/ratchet.go:349-378 | A late message with a stored key, in every case: refused with no change; stopped half way by failed key generation; opened with that key while remote key, root, key pair and the lower stored keys are replaced; or refused after the ratchet. |
| `RatchetLedger.LateDesynchronises` | pkg/protocol/ratchet.go:349-387 | After that every further message of the chain just left, without a stored key, is opened with a key derived from the replaced root and the new key pair. |
| `RatchetGaps.ArriveAt` | pkg/protocol/ratchet.go:361-387 | On the chain being received the account becomes a count, a lead and a position for each stored number. |
| `RatchetGaps.RunAt` | pkg/protocol/ratchet.go:361-387 | For every arrival order on one chain, out-of-reach messages included: which key opens each message, and where chain and counter stand in the end. |
| `RatchetGaps.OwnKeyIffNoGap` | pkg/protocol/ratchet.go:361-387 | RatchetDecrypt uses the key at a message's own number if and only if it is in reach and its own key is stored, or none is stored and it is neither late nor behind a gap. |
| `RatchetGaps.SecondAfterGapFails` | pkg/protocol/ratchet.go:391-416 | Counterexample: of messages 0, 1, 2 only 1 and 2 arrive, in order; 1 decrypts and 2 does not. |
| `RatchetGaps.OneGapRecovers` | pkg/protocol/ratchet.go:361-416 | After one gap of at most 1000, in any order: the gap-closing message decrypts; a skipped one is opened with its own key if and only if it is the first skipped or none with a higher number came before it. |
| `X3dh.Agreement` | pkg/protocol/x3dh.go:228-375 | For an honest bundle both sides derive one secret if and only if no one-time key is used, its id is not 0, or the KDF collides; the one-time key used, and only it, leaves the pool. |
| `X3dh.IdZeroDisagrees` | pkg/protocol/x3dh.go:314-360 | A lawful suite and an honest bundle with one-time key id 0 for which the two secrets differ. |
| `X3dh.SessionsAgree` | pkg/network/session_manager.go:84-112 | Equal secrets give equal roots, and each sending chain is the other side's receiving chain. |
| `X3dh.AgreementThenLockstep` | pkg/network/session_manager.go:58-126 | From an honest bundle through X3DH to any lossless exchange: everything decrypts, and DH keys never change. |
| `PreKeyPool.InsertAt` | pkg/protocol/x3dh.go:155-175 | Exactly the ids within the batch, with wrap-around, get a new key, each its own; the others keep theirs. |
| `PreKeyPool.ClientStepKeepsOnce` | pkg/network/x3dh_manager.go:80-112 | Initialisation, refills and incoming initial messages keep every private one-time key unserved or served once. |
| `PreKeyPool.EachKeyServesOnce` | pkg/protocol/x3dh.go:310-375 | Over every life of a client each private one-time key serves at most one successful responder run. |
| `PreKeyPool.LiveKeysKeptIff` | pkg/network/x3dh_manager.go:80-102 | Over every interleaving of initialisations, refills and responder runs: every key ever live is in the end still in the pool under its id or has served, if and only if each event that adds keys found no live id where its new ids lie. |
| `PreKeyPool.RefillKeepsLive` | pkg/network/x3dh_manager.go:80-102 | One refill overwrites no live key if and only if no live id lies where the new ids wrap to. |
| `PreKeyPool.RefillOverwritesAtWrap` | pkg/network/x3dh_manager.go:86-102 | Counterexample at the uint32 boundary. |
| `PreKeyPool.SecondInitializeOverwrites` | pkg/network/x3dh_manager.go:29-38 | Initialising again loses every live key with an id from 100 to 149. |
| `PreKeyPool.X3dhClient.constructor` | pkg/network/client.go:72-84 | A client starts without keys, sessions or history. |
| `PreKeyPool.X3dhClient.InitializeX3DH` | pkg/network/x3dh_manager.go:14-52 | Identity key, signed prekey 1 and one-time keys 100 to 149; what was generated before a failure stays. |
| `PreKeyPool.X3dhClient.RefillOneTimePreKeys` | pkg/network/x3dh_manager.go:80-112 | The scan for the largest id and the insert loop are one refill step of the pool, or none when enough keys are left. |
| `PreKeyPool.X3dhClient.InitializeRatchetSession` | pkg/network/session_manager.go:58-126 | Whole new client state; an existing session and every failure leave it unchanged. |
| `PreKeyPool.StoredSessionSettled` | pkg/network/session_manager.go:58-126 | A bundle published by a client, an initiation with it and the client's handling of the initial message: the stored session is in step with the initiator's, the one-time key is spent, every other address keeps its session. |
| `PreKeyPool.StoredSessionDecrypts` | pkg/network/session_manager.go:58-126 | From the stored session every lossless exchange decrypts. |
| `PreKeyPool.EstablishRefuses` | pkg/network/session_manager.go:58-82 | Exactly when an initial message fails, and that a failure or an existing session leaves the client unchanged. |
| `PreKeyPool.InitializeGives` | pkg/network/x3dh_manager.go:14-38 | A first initialisation gives exactly the keys drawn, under ids 1 and 100 to 149. |
| `PreKeyPool.RunKeepsKeyed` | pkg/network/x3dh_manager.go:14-112 | Over every life the keys stand under their own ids with their own public keys. |
| `PreKeyPool.BundleIsHonest` | pkg/network/x3dh_manager.go:56-77 | The bundle a client publishes is an honest one, in whatever order the map is walked. |
| `NodeId.XorLoop` | pkg/dht/node_id.go:66-72 | The byte loop computes the XOR of the two ids. |
| `NodeId.CloserTo` | pkg/dht/node_id.go:129-141 | True if and only if the 160-bit XOR distance is smaller as a number. |
| `NodeId.Less` | pkg/dht/node_id.go:53-63 | True if and only if the id is smaller as a number. |
| `NodeId.CommonPrefixLen` | pkg/dht/node_id.go:82-101 | The number of leading bits two ids share, defined by the bit length of their distance. |
| `NodeId.PrefixLen` | pkg/dht/node_id.go:105-126 | The same number, counted up bit by bit: the two functions agree everywhere. |
| `NodeId.DistanceInjective` | pkg/dht/node_id.go:66-78 | Ids at one distance from a target are one id, so CloserTo is a strict total order for each target. |
| `NodeId.DistanceZero` | pkg/dht/node_id.go:75-78 | Distance 0 means equal ids, both ways. |
| `NodeId.DistanceSymmetric` | pkg/dht/node_id.go:66-78 | Distance is symmetric. |
| `NodeId.SharedBitsMeaning` | pkg/dht/node_id.go:82-126 | Sharing exactly i bits means 2^(159-i) <= distance < 2^(160-i). |
| `NodeId.SharedBitsUltrametric` | pkg/dht/node_id.go:82-101 | Two ids share at least as many bits as the fewer of what each shares with a third. |
| `Closest.Streaming` | pkg/dht/protocol.go:204-228 | Keeping only the k closest so far loses nothing, counted with multiplicity. |
| `Closest.TopKUnique` | pkg/dht/routing_table.go:172-197 | The ids of the k closest are determined. |
| `Closest.HeadNeverRecedes` | pkg/dht/protocol.go:216-239 | More contacts never move the head of the list away. |
| `RoutingTable.Bucket.AddContact` | pkg/dht/routing_table.go:51-75 | Known contact to the back with its old address, new one appended while there is room; the result says which. |
| `RoutingTable.Bucket.RemoveContact` | pkg/dht/routing_table.go:78-89 | The contact is gone and the others keep their order. |
| `RoutingTable.BucketAddMeaning` | pkg/dht/routing_table.go:51-75 | A known contact goes behind all others, which keep their order, with its old address; an unknown one goes behind everything while there is room; a full bucket stays. |
| `RoutingTable.BucketRemoveMeaning` | pkg/dht/routing_table.go:78-89 | The contacts with other ids stay, in order. |
| `RoutingTable.AddKeepsOthers` | pkg/dht/routing_table.go:155-163 | Every contact with another id stays as it is, no other bucket changes, and the id is then in the table exactly if it was or its bucket had room. |
| `RoutingTable.AddKeepsIds` | pkg/dht/routing_table.go:155-163 | No id leaves the table by an add. |
| `RoutingTable.RemoveKeepsOthers` | pkg/dht/routing_table.go:166-169 | Exactly the contacts with other ids stay. |
| `RoutingTable.RunsKeepTable` | pkg/dht/routing_table.go:51-169 | Over every run of adds and removes: every contact is in the bucket its id selects, no self, no bucket above 20, no id twice in a bucket. |
| `RoutingTable.NoIdTwice` | pkg/dht/routing_table.go:133-163 | No id occurs twice in the whole table. |
| `RoutingTable.BucketCapacity` | pkg/dht/routing_table.go:51-75 | Bucket i holds at most min(20, 2^(159-i)) contacts. |
| `RoutingTable.TableSize` | pkg/dht/routing_table.go:213-222 | The whole table holds at most 3131 contacts. |
| `RoutingTable.SortByDistance` | pkg/dht/routing_table.go:183-190 | The in-place exchange sort yields a sorted permutation. |
| `RoutingTable.Routing.constructor` | pkg/dht/routing_table.go:118-129 | 160 empty buckets. |
| `RoutingTable.Routing.GetBucketIndex` | pkg/dht/routing_table.go:133-152 | The scan finds the number of shared bits for distinct ids, and the last bucket for the node's own id. |
| `RoutingTable.BucketIndexMeaning` | pkg/dht/routing_table.go:133-152 | Bucket i is for distances from 2^(159-i) up to 2^(160-i); the own id selects the last. |
| `RoutingTable.Routing.AddContact` | pkg/dht/routing_table.go:155-163 | Only the bucket selected by the id changes; the answer is true if and only if the id is not the node's own and the bucket now holds it. |
| `RoutingTable.Routing.RemoveContact` | pkg/dht/routing_table.go:166-169 | Only the bucket selected by the id changes. |
| `RoutingTable.Routing.GetAllContacts` | pkg/dht/routing_table.go:225-234 | All buckets in order. |
| `RoutingTable.Routing.FindClosest` | pkg/dht/routing_table.go:172-197 | A strictly sorted list of min(count, size) contacts; nothing left out is closer than anything returned. |
| `RoutingTable.Routing.GetContact` | pkg/dht/routing_table.go:200-210 | Looking in one bucket finds an id exactly when a scan of the whole table would. |
| `Lookup.RunOrderMarks` | pkg/dht/protocol.go:177-188 | In every schedule of a round exactly the queried ids become marked. |
| `Lookup.RunOrderAccepts` | pkg/dht/protocol.go:199-212 | In every schedule, what is accepted came in a reply of the round, was not marked before it and is not the node itself. |
| `Lookup.RoundComplete` | pkg/dht/protocol.go:202-212 | In every schedule each reply contact that is not the node and not queried by the end of the round is accepted, as often as it came, and none more often. |
| `Lookup.NothingDropped` | pkg/dht/protocol.go:202-212 | Everything replied in any round, never asked and not the node, was accepted. |
| `Lookup.SelectTakesNearest` | pkg/dht/protocol.go:157-163 | The contacts chosen for a round are the nearest of those not asked before. |
| `Lookup.SelectLeavesOut` | pkg/dht/protocol.go:157-168 | One not asked before is left out only when enough others were found, so choosing none means that all were asked. |
| `Lookup.AddAllHas` | pkg/dht/protocol.go:205-211 | After the accepted contacts are added no id has left the table, and each of them is in it or met a full bucket. |
| `Lookup.NextProgress` | pkg/dht/protocol.go:154-239 | One round keeps the whole history invariant, and either brings a strictly nearer contact or is the last. |
| `Lookup.Node.QueryRound` | pkg/dht/protocol.go:172-217 | The marks, accepted contacts and table updates of a round, for any replies, failures and schedule. |
| `Lookup.Node.SortAndTrim` | pkg/dht/protocol.go:215-226 | The shortlist becomes the k closest of itself and the new contacts. |
| `Lookup.Node.IterativeFindNode` | pkg/dht/protocol.go:135-242 | Terminates; returns the k closest, sorted with multiplicity, of the initial table and all accepted contacts, never the node itself; accepted is everything replied, as often as it was, but for the node and what was asked; head distances fall strictly until the last round; each round asks the nearest not asked before; no id is asked in two rounds; it stops only when all have been asked or nothing nearer came; the table has received exactly the accepted contacts. |
| `ValueLookup.IdsBounded` | pkg/dht/protocol.go:252-254 | A set of ids has at most 2^160 members: the bound that makes the value lookup end. |
| `ValueLookup.RankedNext` | pkg/dht/protocol.go:333-344 | After a round the shortlist is again the K closest of everything known so far. |
| `ValueLookup.RoundAccepts` | pkg/dht/protocol.go:311-329 | A round without the value accepts exactly the contacts answered, as often as they came, but for the node itself and those marked. |
| `ValueLookup.Finder.ReadResults` | pkg/dht/protocol.go:311-329 | Results are read until one carries the value; otherwise the accepted contacts are exactly those not marked and not the node. |
| `ValueLookup.Finder.IterativeFindValue` | pkg/dht/protocol.go:245-349 | Terminates because every round marks a new id; each round asks the nearest not asked before of the K closest known; the table receives exactly the accepted contacts; a value returned was some answer; not found means no answer had one and the search was exhausted; no id in two rounds, never itself. |
| `Ordering.ReceiveAllReflects` | pkg/network/message_handler.go:316-393 | For every arrival sequence the log is the first arrivals of 0..m-1 in order with m the least number not arrived, the buffer holds exactly the arrived numbers above m, and the received set exactly what arrived. |
| `Ordering.OrderIndependent` | pkg/network/message_handler.go:316-393 | Arrival sequences with the same first arrivals leave the same state and log. |
| `Ordering.PrefixIffNoReuse` | pkg/network/message_sender.go:177-181 | Whatever the network drops, repeats or reorders, the log is a prefix of what was sent if and only if no number is reused for another message. |
| `Ordering.ReuseIsDelivered` | pkg/network/message_handler.go:316-393 | Whenever a number is reused, some arrival sequence delivers the later message in the earlier one's place. |
| `Ordering.SendAllNumbers` | pkg/network/message_sender.go:177-181 | The messages numbered for one recipient carry 0, 1, .. modulo 2^64. |
| `Ordering.DeliveredIsPrefix` | pkg/network/message_sender.go:177-181 | For at most 2^64 messages the delivered log is a prefix of them. |
| `Ordering.FirstArrivedAreDelivered` | pkg/network/message_handler.go:316-393 | Once numbers 0..n-1 have each arrived, the first n messages have been delivered. |
| `Ordering.TruthNext` | pkg/network/message_handler.go:316-368 | An arrival advances only its own sender's state. |
| `Ordering.Client.constructor` | pkg/network/message_handler.go:316-331 | A new client has nothing for any sender. |
| `Ordering.Client.GetNextSequenceNumber` | pkg/network/message_sender.go:177-181 | Returns the counter of this recipient and advances only it. |
| `Ordering.Client.NumberMessage` | pkg/network/message_sender.go:184-200 | In any interleaving of recipients, the messages for each of them are numbered exactly as SendAll numbers them. |
| `Ordering.Client.DeliverBufferedMessages` | pkg/network/message_handler.go:371-393 | The loop drains the buffer of this sender and touches no other. |
| `Ordering.Client.HandleOrderedMessage` | pkg/network/message_handler.go:316-368 | After each arrival every sender's state and log are what its own arrivals determine. |
| `ShardKeys.ShardKeyInjective` | pkg/meshstorage/distributed.go:113-113 | The shard key format is one-to-one in user, chunk and shard index, even if the user string contains underscores and digits. |
| `Erasure.SplitJoinTrim` | pkg/meshstorage/erasure.go:57-139 | Padding, cutting, joining and trimming give the data back. |
| `Erasure.SplitPadsWithZeros` | pkg/meshstorage/erasure.go:57-83 | The ten shards are the data padded with as few zeros as make them one size. |
| `Erasure.DecodeEncode` | pkg/meshstorage/erasure.go:57-139 | Any ten or more shards of an encoding decode to the data; fewer are refused. |
| `Erasure.DecodeVerifies` | pkg/meshstorage/erasure.go:88-139 | Decoding succeeds if and only if fifteen slots, ten of them filled, reconstruct to a codeword, and never gives more than the original size. |
| `Erasure.DecodeLoop` | pkg/meshstorage/erasure.go:88-139 | The counting and appending loops compute the decoding, with each of its errors. |
| `Distributed.DistributeKeepsSafe` | pkg/meshstorage/distributed.go:103-150 | Storing any selection of shards with any outcomes, lost acknowledgements included, keeps every recorded location sound and records only what is held. |
| `Distributed.StoreChunkSafe` | pkg/meshstorage/distributed.go:70-174 | After a successful store every recorded location holds its shard and at most five are the zero location. |
| `Outcomes.PeerForShard` | pkg/meshstorage/distributed.go:241-263 | Shards go to the peers listed, the node itself left out, in the order listed. |
| `Outcomes.SelfForShard` | pkg/meshstorage/distributed.go:83-100 | Shards for which there is no other peer stay with the node. |
| `Outcomes.StorePlaces` | pkg/meshstorage/distributed.go:102-142 | A successful store records each acknowledged shard at the peer listed for it, which holds it. |
| `Outcomes.StoreSparesSelf` | pkg/meshstorage/distributed.go:241-263 | With fifteen other peers nothing enters the node's own store. |
| `Outcomes.PrestoreHolds` | pkg/meshstorage/distributed.go:83-94 | The shards without a peer of their own are put aside in the node's own store. |
| `Outcomes.StoreDoneIff` | pkg/meshstorage/distributed.go:147-174 | A store succeeds if and only if there is data, the local shards could be put aside, and at most five of the fifteen store calls failed. |
| `Distributed.FetchedIsReachable` | pkg/meshstorage/distributed.go:177-222 | What is fetched agrees with the shards and is exactly what is recorded and answers. |
| `Distributed.RetrieveExact` | pkg/meshstorage/distributed.go:177-238 | In a sound world a retrieval returns exactly the stored bytes when ten recorded shards can be fetched, and an error otherwise. |
| `Repair.RepairRebuilds` | pkg/meshstorage/distributed.go:391-553 | A repair that proceeds stores the original shards, and otherwise changes nothing. |
| `Repair.RepairKeepsSafe` | pkg/meshstorage/distributed.go:391-553 | A repair, successful or not, keeps every recorded location sound. |
| `Repair.RepairRestores` | pkg/meshstorage/distributed.go:480-553 | A missing shard whose store call succeeds is recorded at its new node, which holds it. |
| `Outcomes.RepairPlaces` | pkg/meshstorage/distributed.go:484-541 | A missing shard whose store call is acknowledged is recorded at the peer listed for it. |
| `Outcomes.RepairSparesSelf` | pkg/meshstorage/distributed.go:484-499 | With fifteen other peers a repair leaves the node's own store alone. |
| `Outcomes.RepairReports` | pkg/meshstorage/distributed.go:416-474 | Which result a repair reports, in every case. |
| `Outcomes.RepairDoneIff` | pkg/meshstorage/distributed.go:545-553 | Success is reported if and only if all shards count as available, or the repair proceeds and at least one missing shard's store call is acknowledged. |
| `Repair.RepairHeldIff` | pkg/meshstorage/distributed.go:391-553 | After a repair a shard is held where it is recorded if and only if it was before, or the repair proceeded, counted it as missing and its store call went through. |
| `Repair.PingedIsDone` | pkg/meshstorage/distributed.go:273-303 | If every recorded peer answers its ping, a repair reports success and changes nothing, whatever the peers hold. |
| `Repair.DoneButLost` | pkg/meshstorage/distributed.go:391-421 | So it does when no shard is left at all and every retrieval fails. |
| `Repair.RunKeepsSafe` | pkg/meshstorage/distributed.go:70-553 | Every run of losses, peers going up and down, traffic for other chunks and repairs keeps soundness. |
| `Repair.StorageSurvives` | pkg/meshstorage/distributed.go:70-553 | After one successful store, under any such run, a retrieval returns exactly the stored bytes whenever ten recorded shards can be fetched, and an error otherwise. |
| `StorageNode.DistributedStorage.StoreDistributed` | pkg/meshstorage/distributed.go:70-174 | The method's effect on all stores and the chunk it returns are those of the store function, on every error path too. |
| `StorageNode.DistributedStorage.RetrieveDistributed` | pkg/meshstorage/distributed.go:177-238 | The loop over locations computes the retrieval. |
| `StorageNode.DistributedStorage.GetShardStatus` | pkg/meshstorage/distributed.go:273-303 | Status for every order in which the goroutines write, zero locations included. |
| `Repair.StatusLast` | pkg/meshstorage/distributed.go:273-303 | The last goroutine that writes under an index decides its status. |
| `StorageNode.DistributedStorage.FindStorageNodes` | pkg/meshstorage/distributed.go:241-263 | The filtering loop gives the other peers in order, and the node itself once if they are too few. |
| `StorageNode.DistributedStorage.RepairChunk` | pkg/meshstorage/distributed.go:391-553 | New stores, rewritten locations and result are those of the repair function. |
| `Placement.XorDistanceBytes` | pkg/meshstorage/node.go:445-466 | XOR of the two strings, the shorter padded with zeros. |
| `Placement.SameDistance` | pkg/meshstorage/node.go:445-466 | Two peers are at one distance from a key if and only if their ids agree after padding to 32 bytes. |
| `Placement.DistanceIsXor` | pkg/meshstorage/node.go:445-466 | The distance is the XOR with the key: taking the key away again gives the id, byte by byte. |
| `Placement.KeyMatters` | pkg/meshstorage/node.go:445-466 | From one peer no two keys are at one distance. |
| `Placement.CompareDistances` | pkg/meshstorage/node.go:470-495 | -1, 0 and 1 exactly for before, equal and after in the lexicographic order. |
| `Placement.BeforeTotal` | pkg/meshstorage/node.go:470-495 | That order is total and irreflexive. |
| `Placement.BeforeTransitive` | pkg/meshstorage/node.go:470-495 | That order is transitive. |
| `Placement.BeforeIsLess` | pkg/meshstorage/node.go:470-495 | Of two distances of one length the smaller number comes first. |
| `Placement.SortPeersByDistance` | pkg/meshstorage/node.go:498-510 | The in-place bubble sort yields a sorted and stable permutation. |
| `Placement.SortingUnique` | pkg/meshstorage/node.go:498-510 | There is only one such arrangement. |
| `Placement.LongIdsAreDistinct` | pkg/meshstorage/node.go:445-466 | Distinct ids of 32 bytes or more, or of one length, stay distinct after padding. |
| `Placement.PlacementIndependent` | pkg/meshstorage/node.go:185-223 | If no two ids agree after padding, the sorted peers do not depend on the listing order. |
| `Placement.ChosenAreNearest` | pkg/meshstorage/node.go:185-223 | No peer left out is nearer to the key than one that is chosen. |
| `Placement.ChoiceIndependent` | pkg/meshstorage/node.go:185-223 | Then the nodes chosen, and their order, depend only on the set of peers with addresses. |
| `Placement.ConnectedChoice` | pkg/meshstorage/node.go:185-223 | The same from the list of connected peers, of which those without addresses are skipped. |
| `Placement.ListingDecidesTies` | pkg/meshstorage/node.go:185-223 | Conversely, two peers whose ids agree after padding, listed the other way round, are sorted differently. |
| `Placement.ListingDecidesChoice` | pkg/meshstorage/node.go:185-223 | And then the nodes chosen differ, when as many are asked for as there are peers. |
| `Placement.FindClosestNodes` | pkg/meshstorage/node.go:185-223 | The first `count` of the sorted peers with known addresses. |
| `Placement.AddressedInOrder` | pkg/meshstorage/node.go:193-199 | Peers without addresses are skipped one by one, so the others keep the order of the listing. |
| `Onion.SeparateCombine` | pkg/crypto/onion.go:93-122 | The two parts of a box come back if and only if the encrypted key is at most 65533 bytes. |
| `Onion.PeelSeal` | pkg/crypto/onion.go:109-153 | The holder of the private key finds the layer that was sealed. |
| `Onion.PeelChecksHash` | pkg/crypto/onion.go:136-153 | A layer is handed out only if its payload has the hash it announces. |
| `Onion.WrongHashRefused` | pkg/crypto/onion.go:136-153 | A layer sealed with another hash is refused. |
| `Onion.BuildOnionLayers` | pkg/crypto/onion.go:37-106 | The reverse loop builds the onion defined recursively from the inside; an empty path is an error, and so is a failure of any layer's random source or encryption. |
| `Onion.OnionPeels` | pkg/crypto/onion.go:37-153 | For every path and payload, peeling in path order gives the later relays, then the recipient, then the exact payload. |
| `Relay.RelayServer.DeliverMessage` | pkg/network/relay_delivery.go:48-96 | Written to a connected recipient, queued for an absent one if there is a queue. |
| `Relay.RelayServer.ForwardToNextHop` | pkg/network/relay_delivery.go:12-45 | Written to a connected next hop, otherwise nothing changes. |
| `Relay.RelayServer.HandleRelayForward` | pkg/network/relay_handlers.go:75-130 | Whole new relay state on every path, counter included. |
| `Relay.MiddleHop` | pkg/network/relay_handlers.go:75-130 | A middle relay puts the next onion on the wire to the next relay and changes no keys, peers or queues. |
| `Relay.HopForwards` | pkg/network/relay_handlers.go:112-128 | One frame to the next relay and the counter, and nothing else in the network changes. |
| `Relay.NothingToRelay` | pkg/network/relay_handlers.go:84-105 | What cannot be peeled, or names no next hop, changes nothing. |
| `Relay.LostOnTheWay` | pkg/network/relay_handlers.go:112-128 | A connection that does not take the frame loses the message; only the counter moves. |
| `Relay.LastHop` | pkg/network/relay_delivery.go:12-96 | The last relay writes the exact payload to a connected recipient, as a forward frame if that is a relay, or queues it; for a zero address, or an absent one without a queue, it does nothing. |
| `Relay.OnionDelivered` | pkg/network/relay_handlers.go:75-130 | End to end, for paths of any length: after as many hops as relays the payload is on the recipient's connection or in the last relay's queue, if and only if the recipient is a real address that is connected or finds a queue; otherwise the last relay is unchanged. |
| `RateLimiter.Limiter.AllowRequest` | pkg/meshstorage/api/middleware.go:58-83 | Counter and answer on every path. |
| `RateLimiter.Limiter.Cleanup` | pkg/meshstorage/api/middleware.go:86-100 | The loop removes exactly the expired counters. |
| `RateLimiter.SweepRemovesExpired` | pkg/meshstorage/api/middleware.go:93-97 | A sweep removes exactly the windows that are over and changes no other. |
| `RateLimiter.AllowedIff` | pkg/meshstorage/api/middleware.go:58-83 | A request is allowed if and only if it opens a window or the window has room; a refused one changes nothing, and no other address is touched. |
| `RateLimiter.WindowServes` | pkg/meshstorage/api/middleware.go:58-83 | Within a window exactly as many requests are allowed as it has room for, and they are the first ones. |
| `RateLimiter.SweepUnobservable` | pkg/meshstorage/api/middleware.go:86-100 | Cleanup at arbitrary moments never changes an answer. |
| `RateLimiter.LessThanTwiceTheLimit` | pkg/meshstorage/api/middleware.go:58-100 | Any closed interval of one window length contains at most 2 * limit - 1 allowed requests per address. |
| `RateLimiter.BoundIsAttained` | pkg/meshstorage/api/middleware.go:58-83 | For every limit and window of at least 1, a run that reaches this bound. |
| `Codec.RoundTrip` | pkg/protocol/message.go:45-118 | For every layout, decoding the encoding of a value that fits, followed by any bytes, gives the value and those bytes. |
| `Codec.RoundTripIffFits` | pkg/protocol/group.go:17-78 | A message survives the wire if and only if its lengths and numbers fit their fields. |
| `Codec.Canonical` | pkg/protocol/x3dh.go:424-467 | Whatever decodes is the encoding of what it decodes to. |
| `Codec.EncodeInjective` | pkg/protocol/routing.go:18-134 | Different messages that fit have different encodings. |
| `Codec.EveryTypeRoundTrips` | pkg/protocol/routing.go:18-134 | Each of the fourteen message layouts round-trips if and only if the message fits, and different messages that fit have different encodings. |
| `Codec.TruncatedFails` | pkg/protocol/message.go:231-266 | No proper prefix of an encoding decodes. |
| `Codec.TooShort` | pkg/protocol/header.go:42-57 | A buffer below the layout's least size does not decode, so testing the length first refuses nothing more. |
| `Codec.LengthTests` | pkg/protocol/message.go:154-157 | The constants the decoders test against are the least sizes of their layouts. |
| `Codec.EmptySizes` | pkg/protocol/profile.go:52-54 | The fixed parts of the sizes that the other encoders compute. |
| `Codec.SizeIsEncoded` | pkg/protocol/group.go:17-21 | The size an encoder sums up beforehand is the length of what it writes, for every layout whose records have one size. |
| `Codec.SigningPrefix` | pkg/protocol/group.go:246-310 | What is signed is what is sent without the length-prefixed signature, for join, leave, update and profile. |
| `CodecLoops.WriteRows` | pkg/protocol/group.go:40-47 | The member loop writes the records one after the other and nothing before them. |
| `CodecLoops.EncodeMessage` | pkg/protocol/message.go:45-80 | The offset-driven writes exactly fill the buffer of the size summed up beforehand, with the encoding. |
| `CodecLoops.EncodeLayout` | pkg/protocol/group.go:17-47 | The same for each of the fourteen message types. |
| `CodecLoops.ReadRows` | pkg/protocol/x3dh.go:455-464 | The prekey loop reads the announced number of records, or fails. |
| `CodecLoops.ReadFields` | pkg/protocol/message.go:83-118 | The offset-driven reads compute the decoding. |
| `Wire.HeaderOnWire` | pkg/protocol/header.go:27-39 | The named fields, each in its width, one after the other. |
| `Wire.DirectMessageOnWire` | pkg/protocol/message.go:45-80 | The named fields, each in its width, one after the other. |
| `Wire.GroupMessageOnWire` | pkg/protocol/message.go:282-311 | The named fields, each in its width, one after the other. |
| `Wire.AckMessageOnWire` | pkg/protocol/message.go:132-151 | The named fields, each in its width, one after the other. |
| `Wire.NackMessageOnWire` | pkg/protocol/message.go:199-228 | The named fields, each in its width, one after the other. |
| `Wire.ReadReceiptOnWire` | pkg/protocol/message.go:364-387 | The named fields, each in its width, one after the other. |
| `Wire.GroupCreateOnWire` | pkg/protocol/group.go:17-47 | The named fields, each in its width, one after the other. |
| `Wire.GroupJoinOnWire` | pkg/protocol/group.go:108-128 | The named fields, each in its width, one after the other. |
| `Wire.GroupUpdateOnWire` | pkg/protocol/group.go:276-309 | The named fields, each in its width, one after the other. |
| `Wire.HandshakeOnWire` | pkg/protocol/routing.go:18-47 | The named fields, each in its width, one after the other. |
| `Wire.RelayForwardOnWire` | pkg/protocol/routing.go:92-112 | The named fields, each in its width, one after the other. |
| `Wire.ProfileUpdateOnWire` | pkg/protocol/profile.go:52-87 | The named fields, each in its width, one after the other. |
| `Wire.KeyBundleOnWire` | pkg/protocol/x3dh.go:380-421 | The named fields, each in its width, one after the other. |
| `Wire.InitialMessageOnWire` | pkg/protocol/x3dh.go:470-504 | The named fields, each in its width, one after the other. |

## Left out

- The cryptographic primitives, JSON and the Reed-Solomon library themselves: they enter as functions with the laws in `Lawful`, which are assumed and not proved.
- Signature checks (VerifySignedPreKey, group and profile signatures) and key-bundle caching.
- Trying one ciphertext against all sessions, and concurrent use of one session.
- PreKeyPool.X3dhClient.InitializeRatchetSession: saving the pool and the session to the database is not modelled.
- Lookup.Node.IterativeFindNode: contacts are values, so a later refresh of LastSeen through a shared pointer is not seen in the shortlist.
- ValueLookup.Finder.IterativeFindValue: the unsynchronised writes to `queried` are taken as done when the round's replies are read.
- RPC transport, Store, Ping, Lookup's local cache, bootstrap and refresh of the table.
- Messages sent by RequestProfile, which take no sequence number; acknowledgements, receipts and the GUI callback of delivery.
- StorageNode.DistributedStorage.GetShardStatus: the order of the goroutines' writes is any sequence of locations, not only a permutation, which is more than the code can do.
- DeleteChunk, which looks nodes up under another key than StoreDistributed; the float health score and the monitoring loop; chunk registration.
- Parallel shard stores and fetches: they touch different keys, and are taken one after the other.
- Relay.RelayServer.HandleRelayForward: the header, acknowledgement frames and read errors of the connection; `writes` says whether the connection accepts the frame.
- deliverQueuedMessages and the expiry of queued messages; relay scoring, circuit selection and padding.
- Codec.RoundTrip: a message is the list of its fields instead of one struct per type, and an error return and a panic on a short buffer are both "does not decode".
- CodecLoops.ReadFields: Go's slicing beyond a buffer's length up to its capacity is not modelled.
- CodecLoops.EncodeMessage: takes fields that are arrays in Go with their type's length, which Go's type system ensures.
- Relay.OnionDelivered: connections accept what is written to them; a failing one loses the message.
- Presence and typing messages, schema migration, connection pool, contact and message tables: no properties beyond those of the parts above.
