# LUMA broker: verified model

LUMA is an MQTT 3.1.1 / 5.0 broker. This project models the parts of it that run on
in-memory state and proves what they promise over every run:

- **Router** (`Topics`, `TrieModel`, `TrieNodes`, `TopicIndex`, `SharedGroups`, `Router`).
  The 256-shard trie is a heap structure whose methods are proved against a trie that is a
  value (`map` from path to subscribers). Runs of operations are compared with their history:
  who is subscribed is decided by the last operation that concerns the (filter, client) pair,
  and a publish reaches exactly the clients whose filters in force the linear matcher accepts.
- **Wire codec** (`Wire`, `Framing`, `Packets`, `Decoders`, `Encoders`). The decoders are
  cursor code proved equal to positional parsers, which undo the encoders. The framing loop is
  proved over arbitrary message cuts and buffer sizes.
- **Session and QoS** (`PacketIds`, `Sessions`, `Delivery`, `Outbound`, `ExactlyOnce`, `Aliases`,
  `Inbound`, `Clients`, `Expiry`). The session and the client connection are classes; whole runs
  are transition systems whose steps are the functions those classes are proved against, and
  what they write is compared with the bytes on the wire.
- **Rate limiter** (`Limiter`) and **partition assignment** (`Partitions`), with the shared
  arithmetic and ordering in `Counting` and `Ordering`.

`dafny verify dfyconfig.toml` checks everything.

## Modelling decisions

- Go strings are byte sequences, so topics, filters and identifiers are `seq<Byte>`.
- The shard hash and the partition hash are arbitrary functions.
- Each router, session and store operation is one atomic step. The code releases the parent
  lock before taking the child's (`internal/router/router.go:81-91`) and the group map's lock
  before the group's (`internal/router/router.go:305-319`); interleavings inside an operation
  are not covered. The deliver function is one step too: with two deliveries in parallel the
  counters 65536k and 65536k + 1 give both the identifier 1 (`PacketIds.NeighboursCollideIff`).
- A delivery function is named by a number; what a publish delivers is a map from receiver to
  delivery, because Go's map iteration order is unspecified.
- Clocks, access control, plugins and message expiry verdicts are parameters. Rate limiter
  floats are exact reals.
- A client connects again only after the cleanup of its previous connection has finished; the
  code does not order the two (`internal/broker/server.go:314-323`,
  `internal/broker/client.go:814-850`).
- `NextPacketID` never returns while all 65535 identifiers are in flight. Delivery is therefore
  stated for sessions with fewer, and `PacketIds.FullNeverFree` shows the bound is exact.
- The encoders write the remaining length into four bytes, so encoding is stated for packets of
  at most 268435455 bytes after the fixed header; a longer one overruns that buffer.

## Where code and documentation differ

- The comment on `NextPacketID` says identifiers cycle through 1-65535; identifier 1 comes up
  twice in a row at each 16-bit wrap.
- The repository's README describes all brokers re-routing cluster messages
  (`README.md:325-331`); the code lets only the partition's owner do so.
- `GetFilters` is meant to list a client's filters; a filter that begins with a slash is listed
  without it. The listing theorems give the exact condition.
- `UnsubscribeAll` can leave empty trie nodes behind, unlike `Unsubscribe`
  (`TrieModel.RemoveClientKeepsNoDeadLeafIff`).
- Round robin is fair until the 64-bit counter wraps, and across the wrap exactly for group
  sizes that divide 2^64 (`SharedGroups.RoundRobinFairIff`).
- A cluster message whose partition number is beyond a broker's count is taken by every broker
  but its source (`Partitions.ReroutedAtMostOnceIff`).
- `EncodePublish` cuts a topic over 65535 bytes but announces its full length, so the packet
  does not frame. `Encoders.PublishWellFramedIff` gives the exact condition.
- Rate limiter clean-up is transparent, and the rate bound holds with it, only if a bucket
  refills within the clean-up age or holds less than one token (`Limiter.CleanupInvisibleIff`,
  `Limiter.RateBoundIff`).

## Model

| member | source | states |
|---|---|---|
| `Topics.Split` | internal/protocol/packet.go:1086-1096 | the segments between slashes: at least one, none with a slash |
| `Topics.JoinSplit` | internal/protocol/packet.go:1086-1096 | joining the segments gives the text back |
| `Topics.SplitJoin` | internal/router/router.go:586-591 | splitting joined slash-free segments gives them back |
| `Topics.SplitFilter` | internal/protocol/packet.go:1086-1096 | the in-place scan of `splitFilter` computes the segments |
| `Topics.ParseSharedSound` | internal/protocol/packet.go:1026-1050 | whatever `ParseSharedTopicFilter` accepts is a valid group name and filter, and prints back to the same text |
| `Topics.ParseSharedInverse` | internal/protocol/packet.go:1026-1050 | every valid group name and filter, printed, parses back to itself |
| `Topics.ValidFilterHashOnlyLast` | internal/protocol/packet.go:1052-1084 | a filter `ValidTopicFilter` accepts has `#` only as its last segment |
| `Topics.MatchSegs` | internal/router/router.go:568-584 | the two-index loop decides the recursive match of the remaining segments |
| `Topics.TopicMatchesFilter` | internal/router/router.go:562-566 | the linear matcher decides whether the filter accepts the topic |
| `Topics.MatcherIsWildcardRule` | internal/router/router.go:562-584 | for filters with `#` only last, the matcher is the wildcard rule of section 4.7.1 of MQTT 5.0, both directions |
| `TrieModel.SubscribeStores` | internal/router/router.go:78-99 | subscribing changes exactly the named (filter, client) pair and keeps the trie well formed |
| `TrieModel.UnsubscribeRemoves` | internal/router/router.go:101-138 | unsubscribing removes exactly the named pair |
| `TrieModel.UnsubscribeDeletesOnlyEmpty` | internal/router/router.go:105-138 | a deleted node lies on the path and carries no other subscription |
| `TrieModel.RemoveClientRemoves` | internal/router/router.go:183-204 | removing a client removes its pairs and no other |
| `TrieModel.UnsubscribeKeepsNoDeadLeaf` | internal/router/router.go:105-138 | pruning leaves no leaf without a subscriber |
| `TrieModel.SubscribeUnsubscribe` | internal/router/router.go:78-138 | subscribing a fresh pair and unsubscribing it restores the identical trie |
| `TrieModel.BuildHasNoDeadLeaf` | internal/router/router.go:78-138 | in every run of subscribe and unsubscribe each leaf below the root has a subscriber |
| `TrieModel.BuildUndo` | internal/router/router.go:78-138 | after every such run, adding and dropping a fresh pair gives back the identical trie |
| `TrieModel.RemoveClientLeavesDeadLeaf` | internal/router/router.go:183-204 | with `UnsubscribeAll` the leaf law fails: a concrete run leaves an empty node |
| `TrieModel.RemoveClientKeepsNoDeadLeafIff` | internal/router/router.go:183-204 | `UnsubscribeAll` keeps the leaf law if and only if the client is not the only subscriber of any leaf |
| `TrieModel.TrieMatchIsFilterMatches` | internal/router/router.go:146-171 | trie descent and linear matcher accept the same topics when `#` is only last |
| `TrieModel.MatchersAgreeIff` | internal/router/router.go:146-171 | the two matchers agree on all topics if and only if `#` occurs only as the last segment |
| `TrieModel.NameFaithfulIff` | internal/router/router.go:207-227 | the name rebuilt along a trie path is the stored filter if and only if the path is one segment or starts with a non-empty one |
| `TrieNodes.Shard.Subscribe` | internal/router/router.go:78-99 | the pointer trie after the call is the specified trie with the pair added; nodes created are new |
| `TrieNodes.Shard.Descend` | internal/router/router.go:79-91 | walking and creating children reaches the node of the path and adds exactly the missing prefixes |
| `TrieNodes.Shard.Unsubscribe` | internal/router/router.go:101-103 | the pointer trie after the call is the specified pruned trie |
| `TrieNodes.Shard.UnsubRecursive` | internal/router/router.go:105-138 | recursive removal prunes below its depth and reports whether its own node is now empty |
| `TrieNodes.Shard.RemoveClient` | internal/router/router.go:183-204 | the pointer trie after the call has lost exactly the client's subscriptions |
| `TrieNodes.Shard.RemoveClientFromNode` | internal/router/router.go:183-204 | the recursion clears the client from every node below its start and nowhere else |
| `TrieNodes.Shard.MatchNode` | internal/router/router.go:146-171 | merges into the result, by highest QoS, exactly the subscribers whose path matches the rest of the topic |
| `TrieNodes.Shard.CollectFilters` | internal/router/router.go:207-227 | lists the names of exactly the paths below the node that hold the client, each once |
| `TrieNodes.MergeSubscribers` | internal/router/router.go:174-181 | keeps, per client, a subscription of highest QoS among both maps |
| `TopicIndex.Index.constructor` | internal/router/router.go:254-263 | 256 shards that share no memory and hold nothing |
| `TopicIndex.Index.ShardFor` | internal/router/router.go:278-287 | the shard is chosen by the hash of the first segment alone |
| `TopicIndex.Index.Subscribe` | internal/router/router.go:290-301 | the live set gains exactly the (filter, client) pair, for any hash |
| `TopicIndex.Index.Unsubscribe` | internal/router/router.go:323-331 | the live set loses exactly the pair |
| `TopicIndex.Index.UnsubscribeAll` | internal/router/router.go:353-361 | the live set loses exactly the client's pairs |
| `TopicIndex.Index.MatchSubscribers` | internal/router/router.go:492-502 | per client a best subscription among exactly the live filters that match the topic, whatever the hash |
| `TopicIndex.Index.GetFilters` | internal/router/router.go:383-398 | every stored filter of the client once; printed faithfully if and only if none begins with a slash |
| `TopicIndex.FoundInAll` | internal/router/router.go:492-502 | searching all shards finds exactly the matching live subscriptions |
| `TopicIndex.ListingFaithfulIff` | internal/router/router.go:207-227 | the listing is faithful if and only if no filter of the client begins with a slash |
| `SharedGroups.KeyToFilterInverse` | internal/router/router.go:265-276 | the printed form of a group key is the subscription text it came from |
| `SharedGroups.StoreKeyInjective` | internal/router/router.go:265-267 | different valid groups have different keys |
| `SharedGroups.SharedKeyRoundTrip` | internal/router/router.go:265-276 | parsing the printed key of a valid group gives back its name and filter |
| `SharedGroups.JoinGroupSound` | internal/router/router.go:303-321 | joining changes exactly one membership; no stored group is empty |
| `SharedGroups.LeaveGroupSound` | internal/router/router.go:333-350 | leaving changes exactly one membership; an emptied group is dropped |
| `SharedGroups.LeaveAllSound` | internal/router/router.go:363-380 | removing a client changes exactly its memberships; emptied groups are dropped |
| `SharedGroups.RoundRobinFair` | internal/router/router.go:445-489 | in n consecutive rounds each of k members is picked floor(n/k) or ceil(n/k) times, before the 64-bit counter wraps or if k divides 2^64 |
| `SharedGroups.UnfairAcrossWrap` | internal/router/router.go:464-476 | for every group size that does not divide 2^64, a counter value and a number of rounds in which a member is picked too often |
| `SharedGroups.RoundRobinFairIff` | internal/router/router.go:445-489 | a group is fair at every counter value and over any number of rounds if and only if its size divides 2^64 |
| `SharedGroups.PickRank` | internal/router/router.go:445-489 | the member picked has as many members before it in byte order as the counter leaves modulo their number |
| `SharedGroups.Group.Next` | internal/router/router.go:464-477 | the counter selects one member of the sorted ids and advances, wrapping at 64 bits |
| `SharedGroups.Groups.SubscribeShared` | internal/router/router.go:303-321 | the store of groups after the call is the specified one |
| `SharedGroups.Groups.UnsubscribeShared` | internal/router/router.go:333-350 | the store of groups after the call is the specified one |
| `SharedGroups.Groups.RemoveClientFromAll` | internal/router/router.go:363-380 | the store after the call is the specified one, and the result counts the groups left |
| `SharedGroups.Groups.DeliverShared` | internal/router/router.go:445-489 | each matching group makes one delivery to its selected member and advances; the others do nothing |
| `SharedGroups.Groups.FiltersOf` | internal/router/router.go:383-398 | lists the shared filters of a client, each once |
| `RouterModel.LiveIsCurrent` | internal/router/router.go:290-361 | after every run the index holds, per filter and client, what the last operation concerning them left |
| `RouterModel.MemberIsCurrent` | internal/router/router.go:303-380 | the same for shared groups |
| `RouterModel.RoutingTheorem` | internal/router/router.go:402-443 | after every run with valid filters, matching reaches exactly the clients with an accepting filter in force, each at its highest QoS |
| `RouterModel.PublishTheorem` | internal/router/router.go:402-443 | after every run, each delivery of a publish comes from an accepting filter in force and that filter's connection; its QoS exceeds neither the published nor the granted one and equals one of them, no other filter would give it a higher one, and no client is missed |
| `RouterModel.SharedRoutingTheorem` | internal/router/router.go:445-489 | a group is stored exactly while a subscription to it is in force, and the member it selects holds one |
| `RouterModel.SharedDeliveryIsDue` | internal/router/router.go:445-489 | after every run what a group delivers goes to one member in force, at the lower QoS, and only if its filter matches |
| `RouterModel.SharedDeliveryIsMade` | internal/router/router.go:445-489 | after every run a matching group with a subscription in force delivers |
| `RouterModel.GroupFairness` | internal/router/router.go:445-489 | after every run, over any series of operations that leaves the members as they are, each of the k members is picked floor(n/k) or ceil(n/k) times by the n matching publishes, unless the counter wraps and k does not divide 2^64 |
| `RouterModel.CounterIsHits` | internal/router/router.go:464-477 | after every run a group's counter is the number of matching publishes since it was last created, modulo 2^64 |
| `RouterModel.PickedByHistory` | internal/router/router.go:445-489 | after every run a group picks, of the clients subscribed to it, the one whose rank in byte order is the number of matching publishes since the group came up, modulo 2^64 and then modulo their number |
| `RouterModel.RetainedIsLast` | internal/router/router.go:402-415 | after every run the store holds, per topic, the last retained message not since cleared |
| `RouterModel.ReplayAgreesWithRouting` | internal/router/router.go:505-524 | a retained topic is replayed to a filter exactly when a live publish would be routed to it, plain or shared |
| `RouterModel.ReplayTheorem` | internal/router/router.go:505-524 | after every run a topic is replayed exactly when a retained message is in force on it and routing would reach the filter, at the lower QoS |
| `RouterModel.ListingTheorem` | internal/router/router.go:383-398 | after every run the listing holds exactly the filters in force, each once, if and only if no plain filter of the client in force begins with a slash |
| `RouterModel.Router.constructor` | internal/router/router.go:254-263 | an empty router |
| `RouterModel.Router.Subscribe` | internal/router/router.go:290-301 | the state after the call is the specified step |
| `RouterModel.Router.Unsubscribe` | internal/router/router.go:323-331 | the state after the call is the specified step |
| `RouterModel.Router.UnsubscribeAll` | internal/router/router.go:353-361 | the state after the call is the specified step |
| `RouterModel.Router.Publish` | internal/router/router.go:402-443 | one delivery per matched client and one per matching group, at the lower QoS; retained store updated; the count returned |
| `RouterModel.Router.SendRetained` | internal/router/router.go:505-524 | one delivery per retained topic that matches, flagged retained, at the lower QoS |
| `RouterModel.Router.SetRetained` | internal/router/router.go:527-533 | loading a retained message is the specified step |
| `RouterModel.Router.GetFilters` | internal/router/router.go:383-398 | the index listing followed by the shared listing |
| `RouterModel.Execute` | internal/router/router.go:254-533 | any sequence of operations on the real router ends in the state of the specified run |
| `Wire.VarIntRoundTrip` | internal/protocol/packet.go:236-274 | decoding an encoded variable byte integer gives it back and uses exactly its bytes |
| `Wire.VarIntLength` | internal/protocol/packet.go:259-274 | at most k bytes if and only if the value is below 128^k |
| `Wire.ScanIsParse` | internal/protocol/packet.go:1238-1254 | the multiply-and-add digit loop computes the base-128 value, with the same errors |
| `Wire.EncodeVarInt` | internal/protocol/packet.go:259-274 | writes exactly the encoding into the caller's buffer |
| `Framing.FramesOfConcat` | internal/protocol/packet.go:226-255 | any concatenation of packets within the limit is cut into exactly those packets |
| `Framing.TakenIffWithinLimit` | internal/broker/client.go:126-137 | a packet at the front of the input is taken if it is within the size limit, and otherwise ends the reading |
| `Framing.WsConn.Read` | internal/broker/transports.go:130-142 | returns the next bytes of the message stream, losing and repeating none |
| `Framing.BufReader.ReadFull` | internal/broker/client.go:128-136 | exactly the next n bytes of the stream, or the end-of-input error |
| `Framing.BufReader.ReadFixed` | internal/protocol/packet.go:226-255 | the fixed header at the front of the stream, or its error |
| `Framing.BufReader.ReadPacket` | internal/broker/client.go:109-137 | one packet off the front of the stream, or none |
| `Framing.ReadLoop` | internal/broker/client.go:109-137 | the packets of the stream up to the first failure |
| `Framing.ReadBack` | internal/broker/client.go:109-137 | however the stream is cut into messages and whatever the buffer size, the packets sent are read |
| `Packets.PublishRoundTrip` | internal/protocol/packet.go:631-765 | decoding an encoded PUBLISH gives back every field, in both versions |
| `Packets.PropsHere` | internal/protocol/packet.go:1150-1236 | a well-formed property block decodes to the last value of each identifier and is consumed exactly |
| `Encoders.EncodePublish` | internal/protocol/packet.go:694-726 | emits exactly the specified bytes |
| `Encoders.EncodePublishV5` | internal/protocol/packet.go:731-765 | emits exactly the specified bytes |
| `Encoders.PublishWellFramedIff` | internal/protocol/packet.go:694-765 | the bytes are one well-framed packet if the topic fits 16 bits and never frame otherwise |
| `Encoders.PublishOverTheWire` | internal/protocol/packet.go:631-765 | framing and decoding the emitted bytes gives exactly the packet sent |
| `Encoders.PublishNumbersArrive` | internal/protocol/packet.go:667-681 | expiry interval and topic alias arrive as the numbers sent last, or as 0 if not sent, whatever else the block holds |
| `Encoders.ApproxSizeTight` | internal/protocol/packet.go:995-1007 | the estimate exceeds the encoded length by 0 to 3 bytes |
| `Encoders.AckRoundTrip` | internal/protocol/packet.go:770-810 | every acknowledgement decodes to its identifier |
| `Encoders.DisconnectRoundTrip` | internal/protocol/packet.go:939-992 | a DISCONNECT decodes to its reason and expiry interval |
| `Encoders.DisconnectExpiryArrives` | internal/protocol/packet.go:964-992 | the expiry interval of a DISCONNECT arrives as the number sent last, or as absent |
| `Encoders.PlainDisconnect` | internal/protocol/packet.go:964-973 | an ordinary DISCONNECT, the bytes E0 00, has reason 0 and no expiry interval |
| `Encoders.TrailingDisconnectRefused` | internal/protocol/packet.go:964-985 | bytes after the property block of a DISCONNECT are refused, in either version |
| `Encoders.AcceptedPublishIsValid` | internal/protocol/packet.go:631-689 | an accepted PUBLISH has QoS at most 2, an identifier exactly at QoS 1 and 2, no wildcard or zero byte in its topic, no duplicate flag at QoS 0, and an alias if its topic is empty |
| `Encoders.PublishFlagsInPlace` | internal/protocol/packet.go:633-638 | the header flags of an accepted PUBLISH are 8 for duplicate, twice the QoS and 1 for retain |
| `Encoders.FlagsAcceptedIff` | internal/protocol/packet.go:371-393 | connect flags are accepted if and only if the reserved bit is clear, the will QoS is not 3, and the will bits are clear without a will |
| `Encoders.FlagsReadInPlace` | internal/protocol/packet.go:371-393 | an accepted flags byte is the weighted sum of the flags read from it |
| `Encoders.AcceptedConnectIsValid` | internal/protocol/packet.go:347-393 | an accepted CONNECT has a known protocol name and version and a will QoS of at most 2 |
| `Encoders.ConnectNumbersArrive` | internal/protocol/packet.go:401-424 | session expiry, Receive Maximum, Maximum Packet Size and Topic Alias Maximum arrive as the numbers sent last under 0x11, 0x21, 0x27 and 0x22, and as 0 if not sent |
| `Encoders.ZeroLimitRefused` | internal/protocol/packet.go:409-420 | a Receive Maximum or Maximum Packet Size of zero is refused |
| `Encoders.ConnectNumbersCanBeSent` | internal/protocol/packet.go:1190-1232 | a block with the four identifiers and any numbers is well formed |
| `Encoders.GeneralNumbersCanBeSent` | internal/protocol/packet.go:1150-1184 | a block with 0x02, 0x23, 0x11 and any numbers is well formed |
| `Encoders.EmptySubscribeRefused` | internal/protocol/packet.go:821-849 | a SUBSCRIBE without a filter is refused |
| `Encoders.AskedInOrder` | internal/protocol/packet.go:835-845 | the filters requested come out in order, each with the two low bits of its options byte |
| `Encoders.SubscribeRoundTrip` | internal/protocol/packet.go:821-849 | a SUBSCRIBE body decodes to the subscriptions it was built from, with any property block and option bits |
| `Encoders.UnsubscribeRoundTrip` | internal/protocol/packet.go:885-904 | an UNSUBSCRIBE body decodes to the filters it was built from, with any property block |
| `Packets.SkippedHere` | internal/protocol/packet.go:1126-1148 | any property block is skipped exactly |
| `Encoders.ConnectRoundTrip` | internal/protocol/packet.go:347-478 | a CONNECT body decodes to every field the client put in it, with any will property block |
| `Encoders.PastEndReadsNothing` | internal/protocol/packet.go:1109-1254 | at or past the end every read is an error and the rest is empty |
| `Encoders.PublishOverrunEmpty` | internal/protocol/packet.go:667-688 | a PUBLISH that declares properties up to the end of its body or beyond has an empty payload |
| `Encoders.ConnectOverrunRefused` | internal/protocol/packet.go:400-430 | a CONNECT that declares properties up to the end of its body or beyond is refused |
| `Decoders.SliceReader.ReadBytes` | internal/protocol/packet.go:1109-1121 | reads within the data or fails, and moves the cursor by what it read |
| `Decoders.SliceReader.ReadVarInt` | internal/protocol/packet.go:1238-1254 | the cursor loop computes the parsed value and position |
| `Decoders.SliceReader.ReadProps` | internal/protocol/packet.go:1150-1236 | the property loop ends and computes the parsed properties and position, past the end included |
| `Decoders.SliceReader.SkipProps` | internal/protocol/packet.go:1126-1148 | the skipping loop computes the parsed position |
| `Decoders.DecodePublish` | internal/protocol/packet.go:631-689 | total on every input, and equal to the positional parser |
| `Decoders.DecodePacketId` | internal/protocol/packet.go:805-810 | total on every input, and equal to the positional parser |
| `Decoders.DecodeSubscribe` | internal/protocol/packet.go:821-849 | total on every input, and equal to the positional parser |
| `Decoders.DecodeUnsubscribe` | internal/protocol/packet.go:885-904 | total on every input, and equal to the positional parser |
| `Decoders.DecodeDisconnect` | internal/protocol/packet.go:964-992 | total on every input, and equal to the positional parser |
| `Decoders.DecodeConnect` | internal/protocol/packet.go:347-478 | total on every input, and equal to the positional parser |
| `PacketIds.SearchBound` | internal/session/session.go:204-218 | with f < 65535 identifiers in flight at most f + 1 tries fail, across both wraps and the remap of 0 to 1 |
| `PacketIds.Tries` | internal/session/session.go:204-218 | the search ends within f + 2 tries at the first free identifier |
| `PacketIds.FullNeverFree` | internal/session/session.go:204-218 | with all 65535 identifiers in flight no try ever succeeds |
| `PacketIds.NeighboursCollideIff` | internal/session/session.go:204-218 | two successive counters give the same identifier if and only if the first is a multiple of 65536 |
| `Sessions.Session.NextPacketId` | internal/session/session.go:204-218 | returns a free identifier in 1..65535 within f + 2 increments, the counter wrapping at 32 bits |
| `Sessions.Session.AddOutFlightLimited` | internal/session/session.go:230-249 | records the message exactly when fewer than Receive Maximum are in flight, or there is no limit |
| `Sessions.Session.AckOutFlight` | internal/session/session.go:257-263 | forgets exactly the acknowledged message |
| `Sessions.Session.SetOutFlightPhase` | internal/session/session.go:265-271 | changes the phase of that message only |
| `Sessions.Session.Enqueue` | internal/session/session.go:308-321 | appends, dropping the head of a full queue; refuses clean sessions |
| `Sessions.Session.DrainQueue` | internal/session/session.go:323-333 | hands over the whole queue in order and empties it |
| `Sessions.Session.AddInFlight` | internal/session/session.go:285-289 | stores the inbound message under its identifier |
| `Sessions.Session.AckInFlight` | internal/session/session.go:297-303 | takes out the stored inbound message, if any |
| `Sessions.Session.SetProtocolAndExpiry` | internal/session/session.go:143-155 | the interval is taken in version 5 and zeroed for clean sessions, otherwise kept |
| `Sessions.Session.PrepareDisconnectExpiry` | internal/session/session.go:166-183 | purge now at interval 0, no deadline at the maximum, else a deadline |
| `Sessions.PushedKeepsOrder` | internal/session/session.go:308-321 | evicted messages followed by the new queue are the old queue followed by the message; one is evicted exactly if 1000 are queued; a clean session queues nothing |
| `Sessions.CountPositive` | internal/session/session.go:236-242 | the counting loop counts the messages in flight |
| `Delivery.Conservation` | internal/broker/client.go:658-743 | in every run the QoS > 0 messages handed over are exactly those in flight, queued, in transit, acknowledged and evicted |
| `Delivery.InFlightKept` | internal/broker/client.go:658-714 | no step but its acknowledgement drops an in-flight message or changes it; only a PUBREC changes its phase |
| `Delivery.InFlightUntilAcked` | internal/broker/client.go:658-714 | in every run an in-flight message keeps its identifier until that is acknowledged, and a PUBREC for it is the only thing that changes its phase |
| `Delivery.WithinReceiveMax` | internal/session/session.go:230-249 | while a connection lasts the messages in flight stay within its Receive Maximum, or within what the session brought |
| `Delivery.DrainIsRedelivery` | internal/broker/client.go:733-743 | draining message by message is a run of the events above |
| `Delivery.RoomForAll` | internal/broker/client.go:733-743 | a drain goes through if there are free identifiers for all the messages and none is too long to encode |
| `Outbound.SentFits` | internal/broker/client.go:677-712 | no PUBLISH the deliver function encodes exceeds the peer's Maximum Packet Size |
| `Outbound.DeliverIsHandled` | internal/broker/client.go:658-714 | every call either queues the message behind the others and writes nothing, or writes one packet, which frames and decodes to the message and at QoS 1 and 2 carries the free identifier it is in flight under; it must wait if the client is away, its Receive Maximum is used up or the packet is too long, and must go if not (up to the 3 bytes of slack in the size estimate) |
| `Clients.Client.Deliver` | internal/broker/client.go:658-714 | the call is handled in the sense of `Outbound.Handled`: queued, or on the wire under the identifier it is in flight with; the session state after it is the specified one |
| `Clients.Client.DrainOfflineQueue` | internal/broker/client.go:733-743 | the drained messages are delivered in order, each queued again or on the wire; the session state after it is the specified one |
| `Clients.Client.HandlePuback` | internal/broker/client.go:502-509 | ends the exchange of that identifier only; malformed bodies change nothing |
| `Clients.Client.HandlePubrec` | internal/broker/client.go:511-519 | moves the message to the received phase and writes a packet of type 6, flags 2, with the identifier |
| `Clients.Client.HandlePublish` | internal/broker/client.go:418-470 | routing, storing and answering by QoS and verdict, with errors first; the answer is one framed packet with the identifier |
| `Clients.Client.HandlePubrel` | internal/broker/client.go:521-531 | routes the stored message, if any, forgets it and writes a packet of type 7, flags 0, with the identifier |
| `Clients.Client.ResolvePublishTopic` | internal/broker/client.go:384-414 | the resolved topic and stored aliases are the specified ones |
| `Clients.Client.Enqueue` | internal/broker/client.go:776-789 | a full write queue drops the packet, a closed one takes none |
| `Inbound.Qos2PublishStored` | internal/broker/client.go:456-468 | any encoded QoS 2 PUBLISH is stored once under its identifier, answered with type 5 and not routed |
| `Inbound.LowQosPublishRouted` | internal/broker/client.go:446-454 | any encoded QoS 0 or 1 PUBLISH is routed at once with all its fields, and answered, with type 4, exactly at QoS 1 |
| `Inbound.OnlyAcceptedTakesEffect` | internal/broker/client.go:418-448 | for every packet and verdict: nothing is routed or stored unless the packet decodes, its topic resolves and it is accepted; a refused packet is answered exactly when it is denied at QoS 1, and then by a PUBACK |
| `Inbound.AcceptedByMeaning` | internal/broker/client.go:384-470 | after any history of aliases, an accepted version 5 PUBLISH is routed or stored under exactly the topic it means, or refused if it means none |
| `Inbound.AcceptedAsIs` | internal/broker/client.go:384-470 | an accepted 3.1.1 PUBLISH is routed or stored under the topic in it |
| `Inbound.RoutedCameFromAccepted` | internal/broker/client.go:418-531 | over a whole connection, every message routed by a PUBLISH or a PUBREL is that of an accepted PUBLISH, under the topic it meant when it arrived, or was stored in the session before |
| `Inbound.AcksOnTheWire` | internal/protocol/packet.go:769-802 | the four acknowledgements frame to types 4, 5, 6 and 7 with flags 0, 0, 2 and 0, and carry the identifier |
| `Inbound.PublishStepOnTheWire` | internal/broker/client.go:456-468 | a QoS 2 PUBLISH sent and handled as bytes does to the session what the handshake model does, and its answer reads as the PUBREC the model appends |
| `Inbound.PubrelStepOnTheWire` | internal/broker/client.go:521-531 | the same for PUBREL and PUBCOMP |
| `ExactlyOnce.RoutedExactlyOnce` | internal/broker/client.go:456-531 | in every run with losses, repeats and reconnects, per identifier the routed messages are a prefix of those begun, each once, containing all whose PUBCOMP arrived |
| `ExactlyOnce.StepKeeps` | internal/broker/client.go:456-531 | every step keeps the handshake invariant of every identifier |
| `ExactlyOnce.CanAlwaysAdvance` | internal/broker/client.go:456-531 | from every reachable state one undisturbed exchange completes the next phase |
| `Aliases.StoredIsLastSet` | internal/broker/client.go:384-414 | in every run the stored aliases are exactly those set, lie in 1..max and map to the latest topic |
| `Aliases.ResolveIsMeant` | internal/broker/client.go:384-414 | after any history a packet resolves to exactly what section 3.3.2.3.4 of MQTT 5.0 says it means |
| `Aliases.AliasesPreserveTopics` | internal/broker/client.go:384-414 | from any stream compressed within the maximum the original topics come back |
| `Expiry.ExpiryTheorem` | internal/session/session.go:107-193 | after a disconnect the session is in the store exactly as long as its effective interval has not elapsed at a sweep, for every version, interval and run |
| `Expiry.ConnectedHasNoDeadline` | internal/session/session.go:136-155 | in every run a connected session has no deadline |
| `Expiry.OnlineUndisturbed` | internal/broker/server.go:296-312 | while a client is connected no other client and no sweep touches its session |
| `Expiry.Store.GetOrCreate` | internal/session/session.go:372-390 | a persistent session is resumed, anything else replaced by a fresh one |
| `Expiry.Store.HandleConnect` | internal/broker/client.go:300-309 | the store after the call is the specified one; only the life fields of sessions change, so a resumed session and every other keeps its messages; a new one is empty |
| `Expiry.Store.HandleDisconnect` | internal/broker/client.go:814-841 | the store after the call is the specified one; only the life fields of sessions change, so a kept session keeps its messages |
| `Expiry.AwayAndBack` | internal/broker/client.go:814-841 | disconnect, sweep and reconnect give back the same session with its counter, in-flight messages and queue if the sweep spared it, else an empty one |
| `Expiry.Store.ExpiredIds` | internal/session/session.go:186-193 | exactly the disconnected persistent sessions past their deadline |
| `Expiry.Store.SweepOnce` | internal/broker/server.go:296-312 | purges exactly the expired sessions |
| `Limiter.RateLimiter.Allow` | internal/auth/auth.go:318-340 | decides by the refilled tokens and leaves the specified bucket |
| `Limiter.RateLimiter.Cleanup` | internal/auth/auth.go:343-352 | removes exactly the buckets not used for longer than the age |
| `Limiter.DecisionsAreOwn` | internal/auth/auth.go:318-352 | decisions are those of the client's own bucket, whatever others do and however often buckets are cleaned patiently |
| `Limiter.AllowedIffFits` | internal/auth/auth.go:318-340 | request i of a client is allowed if and only if for every earlier request j, and i itself, the number allowed since j plus one is at most burst + rate * (t_i - t_j) |
| `Limiter.DecisionsByHistory` | internal/auth/auth.go:318-352 | the same for every run of many clients with patient clean-ups |
| `Limiter.RateBound` | internal/auth/auth.go:318-340 | after any run, in any window of length d, a client is allowed at most burst + rate * d requests, if clean-ups are patient |
| `Limiter.RateBoundIff` | internal/auth/auth.go:318-352 | no run with clean-ups of an age exceeds the bound if and only if the bucket refills within the age or holds less than one token |
| `Limiter.CleanupInvisibleIff` | internal/auth/auth.go:343-352 | a clean-up can never be noticed if and only if the bucket refills within its age or holds less than one token |
| `Partitions.Manager.constructor` | internal/cluster/partition.go:17-27 | every partition starts with this broker |
| `Partitions.Manager.PartitionForTopic` | internal/cluster/partition.go:29-33 | every topic falls in one of the partitions |
| `Partitions.Manager.Owner` | internal/cluster/partition.go:35-42 | the recorded owner, or this broker |
| `Partitions.Manager.SetOwner` | internal/cluster/partition.go:44-48 | changes that partition only |
| `Partitions.Manager.Reconcile` | internal/broker/server.go:420-435 | every partition gets the owner computed from the live brokers |
| `Partitions.Manager.OnClusterMsg` | internal/broker/server.go:437-455 | publishes locally exactly as a non-source owner, or for version 0 |
| `Partitions.OrderIrrelevant` | internal/broker/server.go:420-435 | brokers that see the same live brokers in any order compute the same owners |
| `Partitions.OwnerIsLive` | internal/broker/server.go:430-434 | every partition is owned by a live broker |
| `Partitions.OwnerByRank` | internal/broker/server.go:430-434 | the owner of a partition has as many live brokers before it in byte order as the partition number leaves modulo their number |
| `Partitions.Balanced` | internal/broker/server.go:430-434 | partition counts of any two live brokers differ by at most one |
| `Partitions.EveryPartitionOnce` | internal/broker/server.go:430-434 | the live brokers together own every partition exactly once |
| `Partitions.OnlyOwnerReroutes` | internal/broker/server.go:437-455 | under agreement a version 1 message is re-routed by its partition's owner only, and never by its source |
| `Partitions.ReroutersAre` | internal/broker/server.go:437-455 | under agreement exactly the owner, unless it is the source, re-routes a version 1 message in the partition range, and everyone but the source any other message |
| `Partitions.ReroutedAtMostOnceIff` | internal/broker/server.go:437-455 | at most one broker re-routes if and only if the message is of version 1 in the partition range, or at most one broker besides its source is live |

## Left out

- Redis, PostgreSQL, TLS, sockets, the HTTP and WebSocket servers, metrics, logging, configuration: input and output, or foreign libraries.
- Password, token and certificate checks and the token cache: they rest on libraries that are not part of this model.
- Cluster fan-out of inbound messages: it fires on every accepted PUBLISH, repeats included, so it is outside the exactly-once claim.
- Retransmission of unacknowledged outbound messages after a reconnect: nothing in the code performs it.
- The retained and subscription gauges: clearing an absent topic still decrements the first, and neither is exact.
- The exclusion of `$` topics in section 4.7.2 of MQTT 5.0: neither matcher implements it.
- Exact consumption of malformed property blocks: unknown identifiers skip to the declared end; round trips are stated for well-formed blocks.
- Reason code tables, CONNACK and SUBACK options, the plugin manager, the bundled test client: single-branch facts or drivers.
- Locking inside an operation, and the order of takeover and cleanup, as described above.
- Publication of the last will and the keep-alive deadline of a connection: the session's will fields and read timeouts are not modelled.
- Topic alias negotiation (`internal/broker/client.go:311-322`): the maximum is a parameter of the alias theorems.
- Clients.Client.HandlePublish: does not model the asynchronous logging and storage calls that follow routing.
