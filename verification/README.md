# Redisson cluster connection: a Dafny model

This project models the cluster-aware decision logic of Redisson's Spring Data
cluster connection, `RedissonClusterConnection`. It covers four parts:

- **Topology queries** (`Topology`) over one `CLUSTER NODES` snapshot. These are the replicas of a
  master, the master→replicas map, the master owning a slot or a key, and the
  slot-array conversion.
- **Cross-slot rename** (`Relocation`). `rename` and `renameNX` delegate to the native command
  when both keys hash to the same slot. Otherwise they emulate it with DUMP, TTL,
  RESTORE and DEL. The store these commands act on is a `KeySpace` (module `Store`):
  a map from key to value and expiry.
- **Multi-key batches** (`Batch`). `del`, `mGet` and `mSet` have two modes. In deferred mode
  (queueing or pipelined) they enqueue one command per key. In immediate mode they send
  one batch and aggregate its replies.
- **The node scan step** (`Scan`). `doScan` normalises the not-started cursor,
  lays out the SCAN arguments, parses the returned position and drops the bound
  client on the terminal position `"0"`.

Collaborators the connection cannot compute are parameters:
- the snapshot returned by `clusterGetNodes` (a `seq<Node>`);
- the connection manager's `calcSlot` (a function `Key -> Slot`, where `Slot` is 0..16383);
- the node answering a SCAN (a function from client and arguments to its reply).

The connection's mode is a value `Mode(queueing, pipelined)`. A thrown exception is
`Failure(error)` of a `Result`. Java `null` is `None`.

Behaviour of the cluster connection worth knowing, and where its cross-slot
rename differs from the native single-slot RENAME and RENAMENX commands:

- `clusterGetNodeForSlot` answers null when no master owns the slot.
- `clusterGetMasterSlaveMap` has a key only for a master that some node names as its
  master. A master without replicas is not a key.
- Unlike native RENAME, which fails with "no such key", a cross-slot `rename` of a missing
  source does nothing and raises no error (`Relocation.CrossSlotRenameDiffers`).
- `restore(key, ttl, value)` is the three-argument form. It sends RESTORE without REPLACE,
  and the store refuses that with BUSYKEY when the key exists. So a cross-slot `rename`
  onto an existing destination fails, and both keys stay as they were. Native RENAME
  would overwrite the destination (`Relocation.CrossSlotRenameDiffers`).
- The TTL reply is the remaining time rounded to the nearest second, as the Redis TTL
  command computes it. A source with less than half a second left therefore reads as 0,
  and it is restored without any expiry (`Relocation.RelocatedExpiryBounds`).
- The cross-slot emulation is several separate round trips, so the keys can change between
  them. A source that expires between DUMP and TTL reads TTL -2, and it is restored with
  ttl 0, so the destination never expires. For `renameNX`, a destination that another
  client creates between EXISTS and RESTORE makes RESTORE fail with BUSYKEY, and the call
  throws. The model runs every command against one unchanging key space (see "## Left out").

## Model

| member | source | states |
|---|---|---|
| Topology.AddressIndex | redisson-spring-data/redisson-spring-data-27/src/main/java/org/redisson/spring/data/connection/RedissonClusterConnection.java:76-84 | answers the index of the first snapshot node with the given host and port, and none exactly when no node has them |
| Topology.ClusterGetSlaves | redisson-spring-data/redisson-spring-data-27/src/main/java/org/redisson/spring/data/connection/RedissonClusterConnection.java:74-98 | fails with MasterNotFound when no snapshot node has the master's host and port; otherwise returns the snapshot nodes whose masterId is the id of the first node at that address |
| Topology.ReplicasOfMembers | redisson-spring-data/redisson-spring-data-27/src/main/java/org/redisson/spring/data/connection/RedissonClusterConnection.java:90-97 | a node is kept by the replica filter if and only if it is in the snapshot and has a non-null masterId equal to the given id |
| Topology.ReplicasOfAppend | redisson-spring-data/redisson-spring-data-27/src/main/java/org/redisson/spring/data/connection/RedissonClusterConnection.java:90-97 | the filter distributes over concatenation, so the kept nodes keep their snapshot order |
| Topology.SlavesIncludeMasterOnlyIfSelfReplicating | redisson-spring-data/redisson-spring-data-27/src/main/java/org/redisson/spring/data/connection/RedissonClusterConnection.java:90-97 | the located master appears among its own replicas exactly when its masterId equals its own id |
| Topology.ClusterGetMasterSlaveMap | redisson-spring-data/redisson-spring-data-27/src/main/java/org/redisson/spring/data/connection/RedissonClusterConnection.java:101-129 | the map built by the two loops equals the reference map: one key per master that some node names, holding the naming nodes in snapshot order |
| Topology.ReplicaListedUnderItsMaster | redisson-spring-data/redisson-spring-data-27/src/main/java/org/redisson/spring/data/connection/RedissonClusterConnection.java:113-127 | every node whose masterId equals a master's id is listed under that master |
| Topology.MapKeysAreNamedMasters | redisson-spring-data/redisson-spring-data-27/src/main/java/org/redisson/spring/data/connection/RedissonClusterConnection.java:104-127 | a node is a key if and only if it is a master of the snapshot and some node names it; a master without replicas is never a key |
| Topology.MapListsOnlyNamedReplicas | redisson-spring-data/redisson-spring-data-27/src/main/java/org/redisson/spring/data/connection/RedissonClusterConnection.java:113-127 | a master's list holds exactly the nodes naming its id, so a node with a null or unmatched masterId is listed nowhere |
| Topology.NodeForSlot | redisson-spring-data/redisson-spring-data-27/src/main/java/org/redisson/spring/data/connection/RedissonClusterConnection.java:138-145 | the node answered for a slot is null if and only if no master of the snapshot holds the slot; otherwise it is the first such master in snapshot order |
| Topology.ClusterGetNodeForSlot | redisson-spring-data/redisson-spring-data-27/src/main/java/org/redisson/spring/data/connection/RedissonClusterConnection.java:138-146 | the loop over the snapshot answers exactly the node for the slot: null if and only if no master's slot range holds the slot, otherwise the first such master in snapshot order |
| Topology.FirstOwnerUnique | redisson-spring-data/redisson-spring-data-27/src/main/java/org/redisson/spring/data/connection/RedissonClusterConnection.java:140-145 | the first owning master is unique, so the node answered for a slot is determined |
| Topology.ClusterGetNodeForKey | redisson-spring-data/redisson-spring-data-27/src/main/java/org/redisson/spring/data/connection/RedissonClusterConnection.java:149-152 | the answer is the node for calcSlot(key): the first master owning that slot, or null when there is none |
| Topology.Convert | redisson-spring-data/redisson-spring-data-27/src/main/java/org/redisson/spring/data/connection/RedissonClusterConnection.java:174-180 | the parameter list has the slot array's length and the same slot at every position |
| Relocation.Rename | redisson-spring-data/redisson-spring-data-27/src/main/java/org/redisson/spring/data/connection/RedissonClusterConnection.java:431-458 | fails when pipelined. Equal slots give the native RENAME's outcome. Across slots: a missing source leaves the store unchanged; an existing destination makes RESTORE fail with BusyKey; otherwise only the source and destination change, the source is gone, and the destination holds the source's value with the relocated expiry |
| Relocation.RenameNX | redisson-spring-data/redisson-spring-data-27/src/main/java/org/redisson/spring/data/connection/RedissonClusterConnection.java:461-490 | fails when pipelined. Equal slots give the native RENAMENX's outcome. Across slots: a missing source or an existing destination answers false with the store unchanged; otherwise it answers true, the source is gone, and the destination holds its value with the relocated expiry |
| Relocation.RelocatedExpiryBounds | redisson-spring-data/redisson-spring-data-27/src/main/java/org/redisson/spring/data/connection/RedissonClusterConnection.java:446-455 | no expiry stays none; at least 500 ms remaining is carried over as whole seconds, within 500 ms of the original; less than 500 ms remaining is restored without expiry |
| Relocation.CrossSlotMatchesNative | redisson-spring-data/redisson-spring-data-27/src/main/java/org/redisson/spring/data/connection/RedissonClusterConnection.java:437-457 | for a source whose expiry is none or whole seconds, and an absent destination, the emulated rename ends in the same store as the native RENAME |
| Relocation.CrossSlotNeverLosesValue | redisson-spring-data/redisson-spring-data-27/src/main/java/org/redisson/spring/data/connection/RedissonClusterConnection.java:442-457 | between RESTORE and DEL both keys hold the source's value; after DEL only the destination holds it; at no step does neither key hold it |
| Relocation.CrossSlotRenameDiffers | redisson-spring-data/redisson-spring-data-27/src/main/java/org/redisson/spring/data/connection/RedissonClusterConnection.java:442-457 | across slots a missing source is silently left alone where the native RENAME fails, and an existing destination is refused with BusyKey where the native RENAME overwrites it |
| Relocation.CrossSlotNXMatchesNative | redisson-spring-data/redisson-spring-data-27/src/main/java/org/redisson/spring/data/connection/RedissonClusterConnection.java:470-489 | for a present source whose expiry is none or whole seconds, the emulated renameNX answers and ends exactly as the native RENAMENX |
| Relocation.CrossSlotNXMissingSource | redisson-spring-data/redisson-spring-data-27/src/main/java/org/redisson/spring/data/connection/RedissonClusterConnection.java:470-489 | with the source missing the emulated renameNX answers false and changes nothing, where the native RENAMENX fails |
| Batch.ExecBatch | redisson-spring-data/redisson-spring-data-27/src/main/java/org/redisson/spring/data/connection/RedissonClusterConnection.java:502-506 | a batch answers exactly one reply per submitted command |
| Batch.DelBatchStore | redisson-spring-data/redisson-spring-data-27/src/main/java/org/redisson/spring/data/connection/RedissonClusterConnection.java:502-506 | a batch of one DEL per key leaves the store without exactly the listed keys |
| Batch.DelBatchCount | redisson-spring-data/redisson-spring-data-27/src/main/java/org/redisson/spring/data/connection/RedissonClusterConnection.java:502-507 | the DEL replies of the batch sum to the number of distinct listed keys that existed |
| Batch.GetBatch | redisson-spring-data/redisson-spring-data-27/src/main/java/org/redisson/spring/data/connection/RedissonClusterConnection.java:519-524 | a batch of one GET per key changes nothing, and its i-th reply is the value of the i-th key |
| Batch.SetBatch | redisson-spring-data/redisson-spring-data-27/src/main/java/org/redisson/spring/data/connection/RedissonClusterConnection.java:536-540 | after a batch of one SET per pair, each assigned key holds its last assigned value without expiry, and every other key is unchanged |
| Batch.DelKeys | redisson-spring-data/redisson-spring-data-27/src/main/java/org/redisson/spring/data/connection/RedissonClusterConnection.java:493-508 | deferred: enqueues a DEL per key in order, answers null and leaves the store alone. Immediate: answers the number of distinct given keys that existed, and all given keys are gone |
| Batch.MGet | redisson-spring-data/redisson-spring-data-27/src/main/java/org/redisson/spring/data/connection/RedissonClusterConnection.java:511-525 | deferred: enqueues a GET per key in order and answers null. Immediate: answers one entry per key, positionally, holding its value or null when missing. The store never changes |
| Batch.MSet | redisson-spring-data/redisson-spring-data-27/src/main/java/org/redisson/spring/data/connection/RedissonClusterConnection.java:528-542 | always answers true. Deferred: enqueues a SET per pair and leaves the store alone. Immediate: every pair is set, the last pair wins for a key, and no other key changes |
| Scan.DecimalStringDigits | redisson-spring-data/redisson-spring-data-27/src/main/java/org/redisson/spring/data/connection/RedissonClusterConnection.java:407 | the unsigned text of a cursor is a non-empty string of decimal digits denoting the cursor |
| Scan.CursorTextRoundTrip | redisson-spring-data/redisson-spring-data-27/src/main/java/org/redisson/spring/data/connection/RedissonClusterConnection.java:407-425 | parseUnsignedLong of toUnsignedString(c) is c for every unsigned 64-bit cursor |
| Scan.ZeroText | redisson-spring-data/redisson-spring-data-27/src/main/java/org/redisson/spring/data/connection/RedissonClusterConnection.java:421 | the cursor text is "0" if and only if the cursor is 0 |
| Scan.ScanArgs | redisson-spring-data/redisson-spring-data-27/src/main/java/org/redisson/spring/data/connection/RedissonClusterConnection.java:403-415 | the arguments are the cursor text (0 for the not-started value), then MATCH and the pattern when given, then COUNT and the count when given, in that order |
| Scan.DoScan | redisson-spring-data/redisson-spring-data-27/src/main/java/org/redisson/spring/data/connection/RedissonClusterConnection.java:394-426 | fails in queueing or pipelined mode and keeps the client. A dropped client answers null. Otherwise the next client is dropped if and only if the reply's position is "0"; an unparsable position fails with InvalidCursor; a parsable one yields the page with the parsed cursor, which is 0 for "0" |
| Scan.NotStartedIsZero | redisson-spring-data/redisson-spring-data-27/src/main/java/org/redisson/spring/data/connection/RedissonClusterConnection.java:404-406 | a step from cursor 101010101010101010 is identical to a step from cursor 0 |
| Scan.FinishedScanStaysFinished | redisson-spring-data/redisson-spring-data-27/src/main/java/org/redisson/spring/data/connection/RedissonClusterConnection.java:419-423 | after the node answers "0" the client is dropped, and every later step, whatever its cursor, answers null |
| Scan.StepsAfterDrop | redisson-spring-data/redisson-spring-data-27/src/main/java/org/redisson/spring/data/connection/RedissonClusterConnection.java:399-401 | with no client bound, every step of any run of steps answers null |

## Left out

- The source of the topology snapshot: `clusterGetNodes` is a CLUSTER NODES read, and `RedisClusterNodeDecoder`, which parses it, is not part of this model. The snapshot is a parameter.
- `calcSlot`: its CRC16 body (from the key-distribution section of the Redis Cluster specification) and its hash-tag extraction are not part of this model. It is a parameter with results in 0..16383.
- Node identity in hashed collections: Java keys the master set and result map by `RedisClusterNode.equals`, whose definition is not part of this model. The model uses value equality of the whole node record.
- Per-node administrative pass-throughs (`ping`, `bgReWriteAof`, `bgSave`, `lastSave`, `save`, `dbSize`, `flushDb`, `flushAll`, `info`, `keys`, `randomKey`, `shutdown`, `getConfig`, `setConfig`, `resetConfigStats`, `time`, `getClientList`): each issues one command to one node and returns the decoded reply, so it has no logic of its own.
- Cluster mutation commands (`clusterAddSlots`, `clusterDeleteSlots`, `clusterDeleteSlotsInRange`, `clusterForget`, `clusterMeet`, `clusterSetSlot`, `clusterReplicate`), plus `clusterCountKeysInSlot`, `clusterGetKeysInSlot`, `clusterGetSlotForKey` and `clusterGetClusterInfo`: they forward their arguments to the network. Only the slot-array copy they share is modelled (`Topology.Convert`).
- `getEntry`, `execute`, `executorService`, `CommandBatchService` and `syncFuture`: these are connection resolution, transport and futures. The batch facility is modelled as running its commands in submission order against one store. Interleaving across nodes cannot change the result of these batches, because commands on one key go to one node in order.
- Transport, decoding and redirection errors are not modelled, and neither are partially applied batches after such an error.
- Relocation.Rename: in queueing (MULTI) mode without a pipeline, `dump` and `ttl` are deferred inside `RedissonConnection`, which is not part of this model. The model treats every non-pipelined call as immediate.
- Relocation.RenameNX: same as for Relocation.Rename in queueing mode.
- Relocation.Rename: the key space is held fixed across DUMP, TTL, RESTORE and DEL: no time passes and no other client acts between them. A source that expires between DUMP and TTL (TTL reply -2, restored with ttl 0, so the destination never expires) is therefore not covered.
- Relocation.RenameNX: the key space is held fixed across DUMP, EXISTS, TTL, RESTORE and DEL. A destination created by another client between EXISTS and RESTORE, which makes RESTORE fail with BUSYKEY and renameNX throw, cannot occur in the model, so its contract says a cross-slot call never fails. The expiry race of Relocation.Rename is not covered either.
- Relocation.Rename: the Java multiplication `sourceTtlInSeconds * 1000` is computed on unbounded integers; a 64-bit wrap-around is not modelled.
- Value types and the DUMP serialization format: a dumped value is the stored payload itself. RESTORE of a DUMP therefore recreates the payload exactly, and GET of a non-string value is not distinguished.
- Scan.DoScan: position tokens are read as ASCII digits only. `Long.parseUnsignedLong` also accepts the other Unicode decimal digits, whose table depends on the JDK's Unicode version; a token written in them fails here with InvalidCursor. Redis writes cursors in ASCII.
- Scan.DoScan: the `ScanCursor` driver that calls `doScan` repeatedly, `open()` and the `Cursor` iterator are Spring Data code and are not part of this model. `Scan.Steps` stands for a run of calls.
- The `redisson` API interfaces (`RMapCacheRx`, `RBlockingQueueRx`, `RObject`): they are declarations without bodies.
