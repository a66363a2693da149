# TouchNodeInterface core, modelled in Dafny

This project models the logic of TouchNodeInterface, a SpriteKit installation
whose touch tables share a graph of records (provinces, cities, events) and
talk to a hub over MONode, a small UDP protocol. The model covers:

- **MONode's wire codec** (`bytes.dfy`, `packet.dfy`).
  - A packet is a 12-byte header followed by the raw payload. The header holds the total size as a UInt32, then the type tag and the sender id, each an Int32.
  - Integers are four bytes, little-endian. `Data.append` is a method on a growable `ByteBuffer` class; `extract` is a pure read at an offset.
  - Serialization and deserialization are methods, proved equal to the specification functions `Encoding` and `Decode`. The round trip, the short-buffer error and the ignored trailing bytes are proved about those functions.
- **MONode's link** (`network_configuration.dfy`, `socket_manager.dfy`).
  - `SocketManager` is a class whose status moves idle → bound → acknowledged.
  - Sends are appended to an outbox, and the delegate's `handleError` / `handlePacket` calls are appended to two logs.
  - Every method is tied to a pure transition on a `LinkState` value. Lemmas over runs of events state what holds for any sequence of traffic.
  - The device id is a pure function of the device name and a random fallback.
- **Records** (`record_type.dfy`, `record.dfy`, `record_json.dfy`).
  - A record's identity is its (type, id, title) key, which is what its `==` compares.
  - The relations of a `Record` object are a per-type map of keys, updated in place by `Relate`.
  - `relatedRecords(sorted:)` is proved to list every related record once and, when sorted, in rank order.
  - The failable `City` / `Province` JSON initialisers are modelled as functions returning an `Option`.
- **The record manager** (`related_levels.dfy`, `record_manager.dfy`).
  - The related levels of a record are a breadth-first layering of the relation graph.
  - They are specified by a function, proved layered, disjoint, complete and unique, and computed by loops proved equal to that function.
  - `RecordManager` is a class caching records by type and id.
- **The entity manager and the node scene** (`entity_manager.dfy`, `node_scene.dfy`).
  - The entity table maps type → id → list of entities, with its store, remove, release and lookup rules.
  - The scene's cluster table draws ids from a pool of 1 to 18.
  - The hit test lets a cluster layer shield the record nodes behind it.

`wrappers.dfy` holds `Option` and `Result`. `sequences.dfy` models one iteration of
a Swift `Set` or `Dictionary`: a sequence listing every element once, in an order
the model leaves open.

## Model

| member | source | states |
|---|---|---|
| Bytes.LittleEndian | Pods/MONode/Sources/Common/DataExtension.swift:25-31 | appending a UInt32 adds exactly four bytes |
| Bytes.LittleEndianInt32 | Pods/MONode/Sources/Common/DataExtension.swift:25-31 | appending an Int32 adds exactly four bytes |
| Bytes.ExtractUInt32 | Pods/MONode/Sources/Common/DataExtension.swift:16-20 | the value read at offset k has the byte at k as its least significant byte and the byte at k+3 as its most significant (little-endian) |
| Bytes.ExtractInt32 | Pods/MONode/Sources/Common/DataExtension.swift:16-20 | an Int32 read at offset k has the bit pattern of the UInt32 read there, and is negative exactly when the top bit of the byte at k+3 is set |
| Bytes.Int32Bits | Pods/MONode/Sources/Common/DataExtension.swift:25-31 | an Int32 is stored as its two's-complement bit pattern: non-negative values unchanged, negative ones at or above 2^31 |
| Bytes.Int32OfBits | Pods/MONode/Sources/Common/DataExtension.swift:16-20 | reading four bytes as an Int32 inverts the bit pattern the writer stored |
| Bytes.Int32BitsInjective | Pods/MONode/Sources/Common/DataExtension.swift:16-31 | an Int32 written as bits and read back is the same Int32 |
| Bytes.ExtractLittleEndian | Pods/MONode/Sources/Common/DataExtension.swift:16-31 | extracting the four bytes written for a UInt32 gives the value back |
| Bytes.LittleEndianOfExtract | Pods/MONode/Sources/Common/DataExtension.swift:16-31 | any four bytes are the encoding of the value extracted from them (the encoding is a bijection) |
| Bytes.ExtractIsLocal | Pods/MONode/Sources/Common/DataExtension.swift:16-20 | `extract` at offset k depends only on bytes k..k+4 |
| Bytes.ExtractAfterAppend | Pods/MONode/Sources/Common/DataExtension.swift:16-31 | appending v and extracting at the old length returns v, whatever precedes or follows it |
| Bytes.ExtractInt32AfterAppend | Pods/MONode/Sources/Common/DataExtension.swift:16-31 | the same round trip for a signed Int32 |
| Bytes.ByteBuffer.constructor | Pods/MONode/Sources/Common/Packet.swift:58 | `Data(capacity:)` is empty; the capacity is only a hint |
| Bytes.ByteBuffer.AppendUInt32 | Pods/MONode/Sources/Common/DataExtension.swift:25-32 | grows the buffer by four bytes at the end, keeps all earlier bytes, and the value can be extracted at the old length |
| Bytes.ByteBuffer.AppendInt32 | Pods/MONode/Sources/Common/DataExtension.swift:25-32 | the same for an Int32 |
| Bytes.ByteBuffer.AppendData | Pods/MONode/Sources/Common/Packet.swift:65-67 | appends the payload bytes verbatim after the earlier bytes |
| Packets.SameType | Pods/MONode/Sources/Common/Packet.swift:23-25 | defined as equality of raw values; `SameTypeIsIdentity` shows it is equality of types |
| Packets.SameTypeIsIdentity | Pods/MONode/Sources/Common/Packet.swift:18-25 | type equality is raw-value equality; handshake (0) and ping (1) differ |
| Packets.BasePacketSizeIsTwelve | Pods/MONode/Sources/Common/Packet.swift:36 | a packet without payload is 12 bytes |
| Packets.SamePacket | Pods/MONode/Sources/Common/Packet.swift:98-100 | defined as type and id equality; `SamePacketIgnoresPayload` states its properties |
| Packets.SamePacketIgnoresPayload | Pods/MONode/Sources/Common/Packet.swift:98-100 | packet `==` compares type and id only and never the payload; it is reflexive and symmetric |
| Packets.Encoding | Pods/MONode/Sources/Common/Packet.swift:55-69 | the encoding is 12 + payload-length bytes, its first four bytes declare that length, and it ends with the payload verbatim |
| Packets.Serialize | Pods/MONode/Sources/Common/Packet.swift:55-69 | the appended buffer is the encoding, exactly 12 + payload-length bytes |
| Packets.Decode | Pods/MONode/Sources/Common/Packet.swift:72-91 | fails, with `notEnoughData`, exactly when the buffer is shorter than its declared size; on success the payload is nil iff the declared size is at most 12, and otherwise is bytes 12..declared size |
| Packets.Deserialize | Pods/MONode/Sources/Common/Packet.swift:72-91 | the index-advancing decoder computes exactly `Decode` |
| Packets.EncodingLayout | Pods/MONode/Sources/Common/Packet.swift:55-69 | bytes 0..4 of the encoding declare its own length, bytes 4..8 hold the type's raw value, 8..12 the id, and the payload follows verbatim |
| Packets.RoundTrip | Pods/MONode/Sources/Common/Packet.swift:55-91 | decoding a serialized packet gives its type, id and payload back, an empty payload as nil, and the result is `==` to the original |
| Packets.TruncatedFails | Pods/MONode/Sources/Common/Packet.swift:75-78 | every strict prefix of at least four bytes of an encoding fails with `notEnoughData` |
| Packets.TrailingBytesIgnored | Pods/MONode/Sources/Common/Packet.swift:87-90 | bytes past the declared size do not change the decoded packet |
| Packets.BroadcastExampleBytes | Pods/MONode/Sources/Common/Packet.swift:55-69 | a type-2 packet from node 7 with payload [1, 2] is the 14 bytes 14,0,0,0,2,0,0,0,7,0,0,0,1,2 |
| NetworkConfigurations.DefaultConfiguration | Pods/MONode/Sources/Common/NetworkConiguration.swift:8-31 | the configuration `init()` yields; its values are stated by `DefaultsSeparateHubAndNodes` |
| NetworkConfigurations.DefaultsSeparateHubAndNodes | Pods/MONode/Sources/Common/NetworkConiguration.swift:10-30 | the defaults are hub 10.0.0.1:10101, broadcast 10.0.0.255, node port 11111 (not the hub's), IPv4 on and IPv6 off |
| Sockets.RemoveMO | Pods/MONode/Sources/MONode/SocketManager.swift:28 | removing every "MO" never lengthens the name; what it removes is stated by `RemoveMOAppend`, `RemoveMOKeepsNamesWithoutM` and `OnlyMONamesFallBack` |
| Sockets.ParseInt32 | Pods/MONode/Sources/MONode/SocketManager.swift:29 | `Int32(String)` accepts only a non-empty run of digits with an optional sign, so the empty string gives nil; unsigned digits give their value iff it is below 2^31, and "-" followed by digits gives the negated value iff it is at most 2^31, and "+" followed by digits gives their value iff it is below 2^31 |
| Sockets.RemoveMOAppend | Pods/MONode/Sources/MONode/SocketManager.swift:28 | the removal is a single left-to-right pass: the parts of a name split after any character other than M are cleaned independently |
| Sockets.SinglePassExample | Pods/MONode/Sources/MONode/SocketManager.swift:28 | an "MO" formed by a removal is not removed again: "MMOO" becomes "MO" |
| Sockets.ResolveDeviceID | Pods/MONode/Sources/MONode/SocketManager.swift:22-33 | the id is the name without "MO" parsed as an Int32 when that parses, the random fallback otherwise |
| Sockets.RemoveMOKeepsNamesWithoutM | Pods/MONode/Sources/MONode/SocketManager.swift:28 | a name without the letter M is unchanged by the removal |
| Sockets.NumberedDeviceName | Pods/MONode/Sources/MONode/SocketManager.swift:22-33 | a device named "MO" followed by a number below 2^31 gets that number as its id, whatever the fallback |
| Sockets.OnlyMONamesFallBack | Pods/MONode/Sources/MONode/SocketManager.swift:22-33 | a name made only of "MO" pairs, the empty name included, is removed entirely, and the node takes the random fallback id |
| Sockets.BareMONameFallsBack | Pods/MONode/Sources/MONode/SocketManager.swift:22-33 | a worked example: "MO" becomes the empty string and the node named "MO" takes the fallback id |
| Sockets.Opened | Pods/MONode/Sources/MONode/SocketManager.swift:58-71 | does nothing unless idle; bound when setup succeeds; otherwise the status stays idle, and exactly one error, "Could not open socket: " and the reason, is reported when a delegate is attached and none when it is nil |
| Sockets.Closed | Pods/MONode/Sources/MONode/SocketManager.swift:52-55 | idle from any status; nothing else changes |
| Sockets.Received | Pods/MONode/Sources/MONode/SocketManager.swift:73-94 | undecodable: exactly one error, nothing else. Handshake: acknowledged, no send, no delegate call. Ping: status kept, one reply to the hub that decodes as a ping carrying this node's id. Any other type: handed unchanged to the delegate exactly once |
| Sockets.Broadcast | Pods/MONode/Sources/MONode/SocketManager.swift:97-99 | one new datagram to the broadcast host at the node port that decodes back to the packet; earlier sends, status and logs unchanged |
| Sockets.Started | Pods/MONode/Sources/MONode/SocketManager.swift:36-49 | after start-up the status is bound or idle by the setup's outcome, exactly one handshake with the device id went to the hub, and nothing is logged: the weak delegate (declared at line 15) is still nil during `init`, so an open failure is dropped |
| Sockets.StartExample | Pods/MONode/Sources/MONode/SocketManager.swift:36-49 | node 42 with the default configuration is bound and has sent the 12-byte handshake to 10.0.0.1:10101 |
| Sockets.AcknowledgedUntilClosed | Pods/MONode/Sources/MONode/SocketManager.swift:52-94 | once acknowledged, no sequence of opens, receives and broadcasts leaves the acknowledged status; only close does |
| Sockets.LogsOnlyGrow | Pods/MONode/Sources/MONode/SocketManager.swift:52-99 | over any run of events, earlier sends, errors and delegate packets are kept as a prefix |
| Sockets.SendsOnlyRepliesAndBroadcasts | Pods/MONode/Sources/MONode/SocketManager.swift:73-99 | after start-up a node sends exactly one datagram per ping received and per broadcast requested, and nothing else |
| Sockets.DelegateSeesOnlyApplicationPackets | Pods/MONode/Sources/MONode/SocketManager.swift:82-92 | the delegate is never handed a handshake or a ping, over any run |
| Sockets.SocketManager.constructor | Pods/MONode/Sources/MONode/SocketManager.swift:36-49 | the id comes from the device name, and the state is `Started`: open first, with no delegate yet, then the handshake |
| Sockets.SocketManager.Send | Pods/MONode/Sources/MONode/SocketManager.swift:48 | one datagram is appended to the outbox; nothing else changes |
| Sockets.SocketManager.Close | Pods/MONode/Sources/MONode/SocketManager.swift:52-55 | the new state is `Closed` of the old one |
| Sockets.SocketManager.Open | Pods/MONode/Sources/MONode/SocketManager.swift:58-71 | the new state is `Opened` of the old one, the setup and whether a delegate is attached |
| Sockets.SocketManager.DidReceive | Pods/MONode/Sources/MONode/SocketManager.swift:73-94 | the new state is `Received` of the old one |
| Sockets.SocketManager.BroadcastPacket | Pods/MONode/Sources/MONode/SocketManager.swift:97-99 | the new state is `Broadcast` of the old one |
| RecordTypes.SortOrder | Sources/Helpers/RecordType.swift:26-37 | the rank of a type lies in 1..4 and is its position in `allCases` (province 1, city 2, event 3, individual 4) |
| RecordTypes.SortOrderInjective | Sources/Helpers/RecordType.swift:26-37 | distinct types never tie |
| RecordTypes.AllCasesComplete | Sources/Helpers/RecordType.swift:7-12 | `allCases` lists every type, none twice |
| Records.SameRecord | Sources/Models/Records/Record.swift:62-64 | defined as id, type and title equality; `SameRecordIsSameKey` ties it to the key |
| Records.SameRecordIsSameKey | Sources/Models/Records/Record.swift:62-64 | two records are `==` iff their id, type and title keys agree; description and relations are ignored |
| Records.HashValue | Sources/Models/Records/Record.swift:17-19 | the id's hash xor the type's hash, for the runtime's hash functions given as parameters; `EqualRecordsHashAlike` states its agreement with `==` |
| Records.EqualRecordsHashAlike | Sources/Models/Records/Record.swift:17-19 | `==` records have the same hash, for every choice of the runtime's hash functions |
| Records.WithRelation | Sources/Models/Records/Record.swift:36-42 | the related record joins the set of its own type, created if absent; every other type's set is unchanged; records stay filed under their own type |
| Records.RelateIdempotent | Sources/Models/Records/Record.swift:38 | relating twice gives the same map as relating once |
| Records.RankedBefore | Sources/Models/Records/Record.swift:51-56 | the sort's comparator: by type rank, then ascending id; `RankedBeforeIsStrictOrder` states its properties |
| Records.RankedBeforeIsStrictOrder | Sources/Models/Records/Record.swift:51-56 | the comparator is irreflexive, asymmetric and transitive, and ties only records with the same type and id |
| Records.SortRanked | Sources/Models/Records/Record.swift:51-56 | the sorted list is a permutation of its input, ordered by type rank and then by ascending id |
| Records.SortRankedEnumerates | Sources/Models/Records/Record.swift:44-56 | sorting a list of the related records neither loses nor repeats one |
| Records.Record.constructor | Sources/Models/Records/Record.swift:24-31 | a new record has its fields and no relations |
| Records.Record.Relate | Sources/Models/Records/Record.swift:36-42 | the relations become `WithRelation` of the old ones, and stay filed by type |
| Records.Record.RelatedRecords | Sources/Models/Records/Record.swift:44-57 | lists every related record exactly once; when `sorted`, in rank order |
| RecordJson.StringAt | Sources/Models/Records/City.swift:20 | a value is read only when the key is present and holds a string |
| RecordJson.CityFromJson | Sources/Models/Records/City.swift:19-27 | nil unless "city", "population" and "admin" are all strings; otherwise a city titled by "city", in province "admin", with the title's hash as id, whose population can be read back |
| RecordJson.Population | Sources/Models/Records/City.swift:25 | reading the population back from a description is the inverse of writing the population sentence |
| RecordJson.CityDescription | Sources/Models/Records/City.swift:25 | the description is "<title> has a population of <population>." |
| RecordJson.SameCityTitleSameRecord | Sources/Models/Records/City.swift:26 | cities with the same title are the same record for `==` |
| RecordJson.ProvinceFromJson | Sources/Models/Records/Province.swift:16-22 | nil unless "admin" is a string; otherwise a province whose title and description are that string and whose id is its hash |
| RecordJson.CityEntryNamesItsProvince | Sources/Models/Records/City.swift:24 | every city entry also yields a province whose title is the city's province |
| Layering.NextLevel | Sources/Managers/RecordManager.swift:99-108 | the level built in one pass of the loop; `NextLevelMembers` states its members |
| Layering.NextLevelMembers | Sources/Managers/RecordManager.swift:99-108 | a record is in the next level iff it is a relative of a member of the last level, is in no level yet, and is not the root |
| Layering.RelatedLevels | Sources/Managers/RecordManager.swift:93-113 | the levels of a record: between 1 and `maxRelatedLevels` of them, level 0 being its direct relatives |
| Layering.LayerLayered | Sources/Managers/RecordManager.swift:98-113 | each pass of the level loop keeps the levels layered, and the loop stops only at the limit or at an empty next level |
| Layering.RelatedLevelsLayered | Sources/Managers/RecordManager.swift:93-113 | level 0 is the direct relatives and is always present, even when empty; later levels are non-empty; there are at most `maxRelatedLevels` levels |
| Layering.LayeredMembers | Sources/Managers/RecordManager.swift:101-106 | a member of level L ≥ 1 is a relative of some member of level L-1, is in no earlier level, and is not the root |
| Layering.LayeredDisjoint | Sources/Managers/RecordManager.swift:104 | the levels are pairwise disjoint |
| Layering.LayeredUnique | Sources/Managers/RecordManager.swift:88-116 | there is only one layered, complete sequence of levels within the limit, so the result depends on the graph alone and not on iteration order |
| Layering.LevelsContain | Sources/Managers/RecordManager.swift:118-125 | true iff some level contains the record |
| Layering.LevelsForRecord | Sources/Managers/RecordManager.swift:93-113 | the loop for one record computes exactly `RelatedLevels` |
| Layering.NextLevelOf | Sources/Managers/RecordManager.swift:99-108 | one pass collects exactly the relatives of the previous level that are in no level yet and are not the root |
| RecordManagers.RecordManager.constructor | Sources/Managers/RecordManager.swift:19-23 | every record type has an empty id map, and there are no levels |
| RecordManagers.RecordManager.Cache | Sources/Managers/RecordManager.swift:41-43 | the record is stored under its own type and id when its type has a map; the cache stays keyed by type and id |
| RecordManagers.RecordManager.RecordsForIds | Sources/Managers/RecordManager.swift:76-78 | exactly the cached records of the type whose id is listed; unknown ids are skipped |
| RecordManagers.RecordManager.RecordsOfType | Sources/Managers/RecordManager.swift:80-86 | every cached record of the type exactly once, and none when the type has no map |
| RecordManagers.RecordManager.AllRecords | Sources/Managers/RecordManager.swift:89 | the concatenation over all types contains every cached record and nothing else |
| RecordManagers.RecordManager.StoreLevels | Sources/Managers/RecordManager.swift:91-115 | each listed record's levels are stored under its key; other entries and the cache are unchanged |
| RecordManagers.RecordManager.CreateLevelsForRecords | Sources/Managers/RecordManager.swift:88-116 | every cached record of every type gets an entry equal to its `RelatedLevels` in the relation graph; other entries and the cache are unchanged |
| EntityManagers.Lookup | Sources/Managers/EntityManager.swift:57 | a list is found iff both the type and the id have an entry |
| EntityManagers.WithAppended | Sources/Managers/EntityManager.swift:178-184 | the entity is appended to its record's list, created when absent, so the list grows by exactly one; all other keys are unchanged; an unknown type makes it a no-op |
| EntityManagers.Without | Sources/Managers/EntityManager.swift:80-83 | one copy of the entity leaves the list and nothing else; a list without it is unchanged |
| EntityManagers.CutFirst | Sources/Managers/EntityManager.swift:80-83 | removing at the first identical index is `Without` |
| EntityManagers.ConcatMembers | Sources/Managers/EntityManager.swift:50-53 | the concatenation of the lists holds exactly their entities |
| EntityManagers.StateAfterRelease | Sources/Managers/EntityManager.swift:56-72 | the state `release` assigns, given the stored list; characterised by `ReleaseOutcomes` |
| EntityManagers.ReleaseOutcomes | Sources/Managers/EntityManager.swift:56-72 | a released entity is marked for removal iff its record has more than one entity; otherwise a city drifts and any other type resets; without a list nothing changes |
| EntityManagers.EntityManager.constructor | Sources/Managers/EntityManager.swift:34-38 | every record type has an empty id map |
| EntityManagers.EntityManager.Store | Sources/Managers/EntityManager.swift:178-184 | the table becomes `WithAppended` of the old one |
| EntityManagers.EntityManager.EntitiesOf | Sources/Managers/EntityManager.swift:50-53 | the concatenation of the type's lists in some order of their ids: exactly the entities stored under the type, and empty when there are none |
| EntityManagers.EntityManager.Release | Sources/Managers/EntityManager.swift:56-72 | the entity's new state is the one `ReleaseOutcomes` characterises; its cluster is kept unless the entity starts to drift |
| EntityManagers.EntityManager.IndexOf | Sources/Managers/EntityManager.swift:80 | the first index holding the identical entity, or none iff it is absent |
| EntityManagers.EntityManager.RemoveEntity | Sources/Managers/EntityManager.swift:75-86 | requires the entity to be marked for removal and its list to exist; deletes the first identical element and nothing else in the table, which is unchanged when the entity is absent |
| EntityManagers.EntityManager.GetEntity | Sources/Managers/EntityManager.swift:187-197 | nil when there is no list or it is empty; else the first entity outside every cluster; else, when all are clustered, the first entity |
| EntityManagers.EntityManager.EntitiesFor | Sources/Managers/EntityManager.swift:115-124 | a subset of the given entities, all with a listed record, of size `min(size, number of matches)`, and empty when `size` ≤ 0 |
| NodeScenes.NodeScene.constructor | Sources/Controllers/NodeViewController/NodeScene.swift:11 | the scene starts with no clusters |
| NodeScenes.NodeScene.AtMostEighteenClusters | Sources/Controllers/NodeViewController/NodeScene.swift:16 | cluster ids lie in 1...18, so there are never more than 18 clusters |
| NodeScenes.NodeScene.AvailableClusterID | Sources/Controllers/NodeViewController/NodeScene.swift:387-395 | the smallest id in 1...18 without a cluster; nil iff all 18 are taken |
| NodeScenes.NodeScene.CreateCluster | Sources/Controllers/NodeViewController/NodeScene.swift:377-385 | nil and the table unchanged when no id is free; otherwise a new cluster stored under the smallest free id and nothing else changed |
| NodeScenes.NodeScene.RemoveCluster | Sources/Controllers/NodeViewController/NodeScene.swift:86-89 | only the entry under the cluster's id goes |
| NodeScenes.NodeScene.NodeClusterFor | Sources/Controllers/NodeViewController/NodeScene.swift:369-375 | the entity's own cluster, with the table unchanged, when it has one; only otherwise a new cluster |
| NodeScenes.NodesAt | Sources/Controllers/NodeViewController/NodeScene.swift:71-84 | at most one node; nothing when no node contains the point or the first decisive node is a cluster layer; otherwise exactly that first decisive node, a record node |

## Left out

- Socket I/O, the main dispatch queue and `withTimeout` are not modelled. A send appends to an outbox. Whether `enableBroadcast`, `bind` and `beginReceiving` succeed is a `SocketSetup` parameter.
- The IPv4/IPv6 setters are not modelled, because they only configure the socket.
- The delegate is `weak` and optional. It is nil inside `init`, so an open failure at start-up is dropped; `open()` takes whether a delegate is attached. After start-up the model assumes one is attached: in runs of events every `handleError` / `handlePacket` call is logged.
- `Host.current()` / `UIDevice` and `arc4random_uniform` are parameters: the device name, and a fallback below Int32.max.
- `deviceID` is lazy. Its first use is the handshake in `init`, so the model fixes it at construction.
- Packets.Decode: datagrams shorter than 4 bytes, or shorter than 12 bytes that declare a size they satisfy, make `extract` read past the buffer. That behaviour is undefined, so such datagrams are excluded by the `Decodable` precondition rather than modelled.
- Packets.Serialize: a payload that overflows the UInt32 size field traps in the `UInt32` conversion. Such packets are excluded by the `Serializable` precondition.
- Ping timing (`pingInterval`, `pingTimeout`) is carried in the configuration but never read by a node.
- Swift's `String.hashValue`, `Int.hashValue` and `RecordType.hashValue` are seeded per process. They are function-valued parameters.
- The order in which a `Set` or `Dictionary` is iterated is left open: each iteration is some order of the elements.
- Records.Record.RelatedRecords: relations hold the related records' (type, id, title) keys, not object references. This is the identity the source's `==` and hashing use. The sort is specified by its outcome (a ranked permutation), not by the standard library's algorithm.
- Record dates and coordinate, and `RecordType.color` / `placeholder`, are not modelled: they carry no logic.
- `RecordManager.initialize` does bundle file I/O, JSON parsing and random event relations. Only its caching step (`Cache`) and its call to `createLevelsForRecords` are modelled. The creation of entities from the levels is not.
- RecordManagers.RecordManager.CreateLevelsForRecords: the levels are computed from a snapshot of the cached records' relations, looked up by key.
- `NodeCluster.maxRelatedLevels` is not part of this model, so it is a parameter of at least 1. `levelsForRecord.at(index: level - 1)` is always in range because the loop breaks at the first empty level, so the nil case never arises.
- EntityManagers.EntityManager.Release: the random drift `dx` is a parameter. `set(state:)` is modelled as the assignment of the state; the state machine's enter and exit steps (RecordStateMachine.swift:36-87) are not modelled, neither the deferred animations nor the synchronous calls.
- EntityManagers.EntityManager.Release: entering `.drift` calls `resetProperties()` at once (RecordStateMachine.swift:56). RecordEntity is not part of this model, so the entity's cluster after a city starts to drift is left unspecified. In every other case the cluster is kept, assuming `updateBitMasks()` and `updatePhysicsProperties()` (:85-86) do not touch it.
- EntityManagers.EntityManager.RemoveEntity: `removeComponents`, `node.removeFromParent` and the gesture manager's removal are scene side effects and are not modelled.
- `createEntity`, `createCopy`, `requestEntities` (a random shuffle plus scene insertion) and `requestEntityLevels` are not modelled. Neither are the component systems and `update`, nor the movement and physics components (floating point).
- NodeScenes.NodeScene.RemoveCluster: `cluster.reset()` acts on `NodeCluster`, whose internals are not part of this model. The same holds for the entity and scene handed to the `NodeCluster` initialiser.
- NodeScenes.NodesAt: `super.nodes(at:)` and `contains(_:)` are SpriteKit geometry. Each node carries its kind and whether it contains the point, in front-to-back order.
- The rest of `NodeScene` (gestures, setup, dragging, contact impulses, display windows), `NodeViewController`, `AppDelegate` and `Style` are UI and are not modelled.
