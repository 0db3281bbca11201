/**
 Topology queries of the cluster connection over one CLUSTER NODES snapshot:
 the replicas of a master, the master-to-replicas map, the master owning a
 slot or a key, and the slot-list conversion used by the slot commands.
 The snapshot itself is read from the cluster and is a parameter here.
 */
module Topology {
  import opened ClusterTypes

  datatype Role = Master | Replica

  /** One node record of a snapshot; `slots` is its slot range (empty for replicas). */
  datatype Node = Node(
    id: string,
    host: string,
    port: int,
    masterId: Option<string>,
    role: Role,
    slots: set<int>)

  type Snapshot = seq<Node>

  predicate IsMaster(n: Node) {
    n.role == Master
  }

  /** The node names `id` as its master (a non-null masterId equal to `id`). */
  predicate ReplicatesId(n: Node, id: string) {
    n.masterId == Some(id)
  }

  predicate AtAddress(n: Node, host: string, port: int) {
    n.host == host && n.port == port
  }

  /** The node is a master whose slot range contains `slot`. */
  predicate OwnsSlot(n: Node, slot: int) {
    IsMaster(n) && slot in n.slots
  }

  /** Index `i` holds the first node of the snapshot at the given address. */
  predicate FirstAtAddress(nodes: Snapshot, host: string, port: int, i: int) {
    && 0 <= i < |nodes|
    && AtAddress(nodes[i], host, port)
    && forall j :: 0 <= j < i ==> !AtAddress(nodes[j], host, port)
  }

  /** Index `i` holds the first master of the snapshot owning `slot`. */
  predicate FirstOwnerAt(nodes: Snapshot, slot: int, i: int) {
    && 0 <= i < |nodes|
    && OwnsSlot(nodes[i], slot)
    && forall j :: 0 <= j < i ==> !OwnsSlot(nodes[j], slot)
  }

  /** The nodes of the snapshot naming `id` as their master, in snapshot order. */
  function ReplicasOf(nodes: Snapshot, id: string): Snapshot
    decreases |nodes|
  {
    if |nodes| == 0 then []
    else
      var last := nodes[|nodes| - 1];
      ReplicasOf(nodes[..|nodes| - 1], id) + (if ReplicatesId(last, id) then [last] else [])
  }

  /** The masters of the snapshot, as the set the source collects them in. */
  function MastersOf(nodes: Snapshot): set<Node> {
    set n | n in nodes && IsMaster(n)
  }

  /** Reference definition of the master-to-replicas map of a snapshot prefix. */
  function ReplicaMap(nodes: Snapshot, masters: set<Node>): map<Node, Snapshot> {
    map m | m in masters && ReplicasOf(nodes, m.id) != [] :: ReplicasOf(nodes, m.id)
  }

  // ---------------------------------------------------------------------
  // Lemmas about ReplicasOf
  // ---------------------------------------------------------------------

  /** Extending a prefix by one node extends the replica list by at most that node. */
  lemma ReplicasOfSnoc(nodes: Snapshot, i: int, id: string)
    requires 0 <= i < |nodes|
    ensures ReplicasOf(nodes[..i + 1], id)
         == ReplicasOf(nodes[..i], id) + (if ReplicatesId(nodes[i], id) then [nodes[i]] else [])
  {
    assert nodes[..i + 1][..i] == nodes[..i];
  }

  /** A node is listed exactly when it is in the snapshot and names `id` as its master. */
  lemma {:induction false} ReplicasOfMembers(nodes: Snapshot, id: string, n: Node)
    ensures n in ReplicasOf(nodes, id) <==> n in nodes && ReplicatesId(n, id)
    decreases |nodes|
  {
    if |nodes| > 0 {
      var init := nodes[..|nodes| - 1];
      ReplicasOfMembers(init, id, n);
      assert nodes == init + [nodes[|nodes| - 1]];
    }
  }

  /** Filtering commutes with concatenation, so snapshot order is kept. */
  lemma {:induction false} ReplicasOfAppend(a: Snapshot, b: Snapshot, id: string)
    ensures ReplicasOf(a + b, id) == ReplicasOf(a, id) + ReplicasOf(b, id)
    decreases |b|
  {
    if |b| == 0 {
      assert a + b == a;
    } else {
      var b' := b[..|b| - 1];
      ReplicasOfAppend(a, b', id);
      assert (a + b)[..|a + b| - 1] == a + b';
    }
  }

  // ---------------------------------------------------------------------
  // clusterGetSlaves
  // ---------------------------------------------------------------------

  /** The index of the first snapshot node at the address, or None when there is none. */
  function AddressIndex(nodes: Snapshot, host: string, port: int): (r: Option<nat>)
    ensures r.Some? ==> FirstAtAddress(nodes, host, port, r.value)
    ensures r.None? ==> forall j :: 0 <= j < |nodes| ==> !AtAddress(nodes[j], host, port)
    decreases |nodes|
  {
    if |nodes| == 0 then None
    else if AtAddress(nodes[0], host, port) then Some(0)
    else
      match AddressIndex(nodes[1..], host, port)
      case None => None
      case Some(i) => Some(i + 1)
  }

  /**
   The replicas of `master`: the first snapshot node at the master's address
   is taken as the master, and the snapshot is filtered down to the nodes
   whose masterId equals that node's id. No node at the address is an error.
   */
  method ClusterGetSlaves(nodes: Snapshot, master: Node) returns (r: Result<Snapshot>)
    ensures AddressIndex(nodes, master.host, master.port).None? ==>
      r == Failure(MasterNotFound(master.host, master.port))
    ensures AddressIndex(nodes, master.host, master.port).Some? ==>
      r == Success(ReplicasOf(nodes, nodes[AddressIndex(nodes, master.host, master.port).value].id))
  {
    var found := false;
    var idx := 0;
    while idx < |nodes|
      invariant 0 <= idx <= |nodes|
      invariant forall j :: 0 <= j < idx ==> !AtAddress(nodes[j], master.host, master.port)
      invariant found ==> FirstAtAddress(nodes, master.host, master.port, idx)
    {
      if AtAddress(nodes[idx], master.host, master.port) {
        found := true;
        break;
      }
      idx := idx + 1;
    }
    var expected := AddressIndex(nodes, master.host, master.port);
    if !found {
      assert expected.None?;
      return Failure(MasterNotFound(master.host, master.port));
    }
    assert expected == Some(idx);
    var masterId := nodes[idx].id;
    var kept: Snapshot := [];
    var i := 0;
    while i < |nodes|
      invariant 0 <= i <= |nodes|
      invariant kept == ReplicasOf(nodes[..i], masterId)
    {
      ReplicasOfSnoc(nodes, i, masterId);
      if nodes[i].masterId.Some? && nodes[i].masterId.value == masterId {
        kept := kept + [nodes[i]];
      }
      i := i + 1;
    }
    assert nodes[..|nodes|] == nodes;
    return Success(kept);
  }

  /** The located master is listed among its own replicas only if its masterId is its own id. */
  lemma {:induction false} SlavesIncludeMasterOnlyIfSelfReplicating(nodes: Snapshot, i: int)
    requires 0 <= i < |nodes|
    ensures nodes[i] in ReplicasOf(nodes, nodes[i].id) <==> nodes[i].masterId == Some(nodes[i].id)
  {
    ReplicasOfMembers(nodes, nodes[i].id, nodes[i]);
  }

  // ---------------------------------------------------------------------
  // clusterGetMasterSlaveMap
  // ---------------------------------------------------------------------

  /** `result` agrees with the reference map of `prefix` on every master. */
  predicate AgreesWith(result: map<Node, Snapshot>, masters: set<Node>, prefix: Snapshot) {
    && (forall m :: m in result ==> m in masters)
    && (forall m :: m in masters ==>
          && (m in result <==> ReplicasOf(prefix, m.id) != [])
          && (m in result ==> result[m] == ReplicasOf(prefix, m.id)))
  }

  /**
   The master-to-replicas map: the masters are collected into a set, then every
   snapshot node is appended to the list of each master whose id it names as
   its masterId. Masters nobody names never become keys.
   */
  method ClusterGetMasterSlaveMap(nodes: Snapshot) returns (result: map<Node, Snapshot>)
    ensures result == ReplicaMap(nodes, MastersOf(nodes))
  {
    var masters: set<Node> := {};
    var k := 0;
    while k < |nodes|
      invariant 0 <= k <= |nodes|
      invariant masters == set j | 0 <= j < k && IsMaster(nodes[j]) :: nodes[j]
    {
      if nodes[k].role == Master {
        masters := masters + {nodes[k]};
      }
      k := k + 1;
    }
    assert masters == MastersOf(nodes) by {
      forall n
        ensures n in masters <==> n in MastersOf(nodes)
      {
        if n in MastersOf(nodes) {
          var j :| 0 <= j < |nodes| && nodes[j] == n;
        }
      }
    }

    result := map[];
    var i := 0;
    while i < |nodes|
      invariant 0 <= i <= |nodes|
      invariant AgreesWith(result, masters, nodes[..i])
    {
      var n := nodes[i];
      var pending := masters;
      while pending != {}
        invariant pending <= masters
        invariant forall m :: m in result ==> m in masters
        invariant forall m :: m in masters && m in pending ==>
          && (m in result <==> ReplicasOf(nodes[..i], m.id) != [])
          && (m in result ==> result[m] == ReplicasOf(nodes[..i], m.id))
        invariant forall m :: m in masters && m !in pending ==>
          && (m in result <==> ReplicasOf(nodes[..i + 1], m.id) != [])
          && (m in result ==> result[m] == ReplicasOf(nodes[..i + 1], m.id))
        decreases pending
      {
        var m :| m in pending;
        ReplicasOfSnoc(nodes, i, m.id);
        if n.masterId.Some? && n.masterId.value == m.id {
          var list := if m in result then result[m] else [];
          result := result[m := list + [n]];
        }
        pending := pending - {m};
      }
      i := i + 1;
    }
    assert nodes[..|nodes|] == nodes;
    var expected := ReplicaMap(nodes, masters);
    assert result.Keys == expected.Keys;
  }

  /** Every node naming some master's id is listed under that master. */
  lemma ReplicaListedUnderItsMaster(nodes: Snapshot, m: Node, n: Node)
    requires m in nodes && IsMaster(m)
    requires n in nodes && ReplicatesId(n, m.id)
    ensures m in ReplicaMap(nodes, MastersOf(nodes))
    ensures n in ReplicaMap(nodes, MastersOf(nodes))[m]
  {
    ReplicasOfMembers(nodes, m.id, n);
  }

  /** A key of the map is a master of the snapshot that some node names. */
  lemma MapKeysAreNamedMasters(nodes: Snapshot, m: Node)
    ensures m in ReplicaMap(nodes, MastersOf(nodes)) <==>
      m in nodes && IsMaster(m) && exists n :: n in nodes && ReplicatesId(n, m.id)
  {
    if m in nodes && IsMaster(m) && ReplicasOf(nodes, m.id) != [] {
      var n := ReplicasOf(nodes, m.id)[0];
      ReplicasOfMembers(nodes, m.id, n);
    }
    if n :| n in nodes && ReplicatesId(n, m.id) {
      ReplicasOfMembers(nodes, m.id, n);
    }
  }

  /** A node listed anywhere in the map names that master's id; orphans appear nowhere. */
  lemma MapListsOnlyNamedReplicas(nodes: Snapshot, m: Node, n: Node)
    requires m in ReplicaMap(nodes, MastersOf(nodes))
    ensures n in ReplicaMap(nodes, MastersOf(nodes))[m] <==> n in nodes && ReplicatesId(n, m.id)
  {
    ReplicasOfMembers(nodes, m.id, n);
  }

  // ---------------------------------------------------------------------
  // clusterGetNodeForSlot / clusterGetNodeForKey
  // ---------------------------------------------------------------------

  /** The index of the first master of the snapshot whose slot range holds `slot`. */
  function OwnerIndex(nodes: Snapshot, slot: int): (r: Option<nat>)
    ensures r.Some? ==> FirstOwnerAt(nodes, slot, r.value)
    ensures r.None? ==> forall j :: 0 <= j < |nodes| ==> !OwnsSlot(nodes[j], slot)
    decreases |nodes|
  {
    if |nodes| == 0 then None
    else if OwnsSlot(nodes[0], slot) then Some(0)
    else
      match OwnerIndex(nodes[1..], slot)
      case None => None
      case Some(i) => Some(i + 1)
  }

  /** The node answered for a slot: the first owning master, or null when no master owns it. */
  function NodeForSlot(nodes: Snapshot, slot: int): (r: Option<Node>)
    ensures r.None? <==> forall n :: n in nodes ==> !OwnsSlot(n, slot)
    ensures r.Some? ==> exists i :: FirstOwnerAt(nodes, slot, i) && nodes[i] == r.value
  {
    match OwnerIndex(nodes, slot)
    case None => None
    case Some(i) => Some(nodes[i])
  }

  /** The first owner is unique, so the contracts above determine the node answered. */
  lemma FirstOwnerUnique(nodes: Snapshot, slot: int, i: int, j: int)
    requires FirstOwnerAt(nodes, slot, i) && FirstOwnerAt(nodes, slot, j)
    ensures i == j
  {
  }

  /** clusterGetNodeForSlot: the snapshot scanned in order for the first master holding `slot`. */
  method ClusterGetNodeForSlot(nodes: Snapshot, slot: int) returns (r: Option<Node>)
    ensures r.None? <==> forall n :: n in nodes ==> !OwnsSlot(n, slot)
    ensures r.Some? ==> exists i :: FirstOwnerAt(nodes, slot, i) && nodes[i] == r.value
    ensures r == NodeForSlot(nodes, slot)
  {
    var i := 0;
    while i < |nodes|
      invariant 0 <= i <= |nodes|
      invariant forall j :: 0 <= j < i ==> !OwnsSlot(nodes[j], slot)
    {
      if nodes[i].role == Master && slot in nodes[i].slots {
        assert FirstOwnerAt(nodes, slot, i);
        assert OwnerIndex(nodes, slot) == Some(i);
        return Some(nodes[i]);
      }
      i := i + 1;
    }
    assert forall n :: n in nodes ==> !OwnsSlot(n, slot) by {
      forall n | n in nodes
        ensures !OwnsSlot(n, slot)
      {
        var j :| 0 <= j < |nodes| && nodes[j] == n;
      }
    }
    return None;
  }

  /** clusterGetNodeForKey: the slot query applied to calcSlot(key). */
  method ClusterGetNodeForKey(nodes: Snapshot, slotOf: Key -> Slot, key: Key) returns (r: Option<Node>)
    ensures r == NodeForSlot(nodes, slotOf(key))
    ensures r.None? <==> forall n :: n in nodes ==> !OwnsSlot(n, slotOf(key))
    ensures r.Some? ==> exists i :: FirstOwnerAt(nodes, slotOf(key), i) && nodes[i] == r.value
  {
    var slot := slotOf(key);
    r := ClusterGetNodeForSlot(nodes, slot);
  }

  // ---------------------------------------------------------------------
  // convert
  // ---------------------------------------------------------------------

  /** The slot array copied into a list, element by element and in order. */
  method Convert(slots: seq<int>) returns (params: seq<int>)
    ensures |params| == |slots|
    ensures forall i :: 0 <= i < |slots| ==> params[i] == slots[i]
  {
    params := [];
    var i := 0;
    while i < |slots|
      invariant 0 <= i <= |slots|
      invariant params == slots[..i]
    {
      params := params + [slots[i]];
      i := i + 1;
    }
  }
}
