/**
 Consistent hashing in the master: registered slaves in a circular doubly linked list, ascending by unsigned id,
 with two maps for constant-time access, and the choice of the two replicas of a key.
 */
module KvRing {
  import opened Rings

  /** A 64-bit signed number, as the source stores ids and hashes. */
  newtype Long = n: int | -0x8000_0000_0000_0000 <= n < 0x8000_0000_0000_0000

  /** The number that the bits stand for when read without a sign. */
  function Unsigned(n: Long): int {
    if n < 0 then n as int + 0x1_0000_0000_0000_0000 else n as int
  }

  function IsLessThanUnsigned(a: Long, b: Long): (r: bool)
    ensures r <==> Unsigned(a) < Unsigned(b)
  {
    (a < b) != ((a < 0) != (b < 0))
  }

  function IsLessThanEqualUnsigned(a: Long, b: Long): (r: bool)
    ensures r <==> Unsigned(a) <= Unsigned(b)
  {
    IsLessThanUnsigned(a, b) || a == b
  }

  // ---------- Choosing replicas, on a list of slaves ----------

  class SlaveInfo {
    const slaveID: Long

    constructor (id: Long)
      ensures slaveID == id
    {
      slaveID := id;
    }
  }

  ghost function Place(x: SlaveInfo): int {
    Unsigned(x.slaveID)
  }

  ghost predicate Ascending(infos: seq<SlaveInfo>) {
    forall i, j :: 0 <= i < j < |infos| ==> Place(infos[i]) < Place(infos[j])
  }

  /** Position `i` holds the least id that is not below `n`, or the least id of all if every id is below `n`. */
  ghost predicate Owns(infos: seq<SlaveInfo>, n: Long, i: int) {
    && 0 <= i < |infos|
    && if Unsigned(n) <= Place(infos[i])
       then forall k | 0 <= k < |infos| && Unsigned(n) <= Place(infos[k]) :: Place(infos[i]) <= Place(infos[k])
       else i == 0 && forall k | 0 <= k < |infos| :: Place(infos[k]) < Unsigned(n)
  }

  /** No hash has two owners. */
  lemma OwnerUnique(infos: seq<SlaveInfo>, n: Long, i: int, j: int)
    requires Ascending(infos) && Owns(infos, n, i) && Owns(infos, n, j)
    ensures i == j
  {}

  /** The first position whose id is not below `n`, or else the front, is the owner. */
  lemma FirstAtOrAbove(infos: seq<SlaveInfo>, n: Long, i: int)
    requires Ascending(infos) && 0 <= i <= |infos| && infos != []
    requires forall k :: 0 <= k < i ==> Place(infos[k]) < Unsigned(n)
    requires i < |infos| ==> Unsigned(n) <= Place(infos[i])
    ensures Owns(infos, n, if i < |infos| then i else 0)
  {}

  function NextIndex(i: int, n: int): int {
    if i + 1 < n then i + 1 else 0
  }

  /** Re-registration moves no key: the owner of every hash keeps its place. */
  lemma ReregistrationMovesNothing(infos: seq<SlaveInfo>, k: int, x: SlaveInfo, hash: Long, i: int)
    requires 0 <= k < |infos| && infos[k].slaveID == x.slaveID
    ensures Ascending(infos) ==> Ascending(infos[k := x])
    ensures Owns(infos[k := x], hash, i) <==> Owns(infos, hash, i)
  {
    assert forall j :: 0 <= j < |infos| ==> Place(infos[k := x][j]) == Place(infos[j]);
  }

  /** A slave that joins takes over only the hashes that it then owns: every other hash keeps its owner. */
  lemma JoiningTakesOnlyItsShare(infos: seq<SlaveInfo>, longer: seq<SlaveInfo>, k: int, x: SlaveInfo,
                                 hash: Long, i: int, j: int)
    requires Ascending(longer) && Inserted(infos, longer, x, k)
    requires Owns(infos, hash, i) && Owns(longer, hash, j)
    ensures j == k || longer[j] == infos[i]
  {
    var i' := if i < k then i else i + 1;
    assert longer[i'] == infos[i];
    if j != k {
      var j' := if j < k then j else j - 1;
      assert longer[j] == infos[j'];
      assert 0 < k ==> longer[0] == infos[0];
    }
  }

  /** An id put between smaller and greater ones keeps the order, and it was not there before. */
  lemma InsertedAscending(infos: seq<SlaveInfo>, x: SlaveInfo, i: int)
    requires Ascending(infos) && 0 <= i <= |infos|
    requires forall k :: 0 <= k < i ==> Place(infos[k]) < Place(x)
    requires i < |infos| ==> Place(x) < Place(infos[i])
    ensures Ascending(infos[..i] + [x] + infos[i..])
    ensures Inserted(infos, infos[..i] + [x] + infos[i..], x, i)
    ensures !HasId(infos, x.slaveID)
  {}

  ghost predicate HasId(infos: seq<SlaveInfo>, id: Long) {
    exists k :: 0 <= k < |infos| && infos[k].slaveID == id
  }

  // ---------- The list ----------

  class SlaveNode {
    var next: SlaveNode?
    var prev: SlaveNode?
    var info: SlaveInfo?

    constructor (info: SlaveInfo?)
      ensures this.info == info && next == null && prev == null
    {
      this.info, next, prev := info, null, null;
    }
  }

  /** Neighbours in the sequence point at each other. */
  ghost predicate Joined(ring: seq<SlaveNode>)
    reads ring
  {
    && (forall i :: 0 <= i < |ring| - 1 ==> ring[i].next == ring[i + 1])
    && (forall i :: 0 < i < |ring| ==> ring[i].prev == ring[i - 1])
  }

  /** A ring whose gap at `i` is bridged by `x` is joined once `x` is put there. */
  lemma InsertedJoined(ring: seq<SlaveNode>, longer: seq<SlaveNode>, x: SlaveNode, i: int)
    requires 0 < i < |ring| && Inserted(ring, longer, x, i)
    requires forall j :: 0 <= j < |ring| - 1 && j != i - 1 ==> ring[j].next == ring[j + 1]
    requires forall j :: 0 < j < |ring| && j != i ==> ring[j].prev == ring[j - 1]
    requires ring[i - 1].next == x && x.prev == ring[i - 1] && x.next == ring[i] && ring[i].prev == x
    ensures Joined(longer)
  {
    forall j | 0 <= j < |longer| - 1 ensures longer[j].next == longer[j + 1] {
      if j < i - 1 { assert ring[j].next == ring[j + 1]; }
      if j > i { assert ring[j - 1].next == ring[j]; }
    }
    forall j | 0 < j < |longer| ensures longer[j].prev == longer[j - 1] {
      if j < i { assert ring[j].prev == ring[j - 1]; }
      if j > i + 1 { assert ring[j - 1].prev == ring[j - 2]; }
    }
  }

  class SlaveList {
    var size: int
    const head: SlaveNode
    ghost var ring: seq<SlaveNode>   // the head, the nodes in order, and the head again
    ghost var infos: seq<SlaveInfo>  // the slaves in order

    ghost predicate Linked()
      reads this, ring
    {
      && Once(ring) && ring[0] == head && head.info == null && Joined(ring)
      && size == |infos| == |ring| - 2
      && (forall i :: 0 <= i < |infos| ==> ring[i + 1].info == infos[i])
    }

    ghost predicate Valid()
      reads this, ring
    {
      Linked() && Ascending(infos)
    }

    constructor ()
      ensures Valid() && infos == [] && fresh(head) && ring == [head, head]
    {
      head := new SlaveNode(null);
      size := 0;
      ring, infos := [head, head], [];
      new;
      head.next := head;
      head.prev := head;
    }

    /** Sets the four links that put `n` between `p` and `q`. */
    static method Splice(p: SlaveNode, n: SlaveNode, q: SlaveNode)
      requires n != p && n != q && q.prev == p && p.next == q
      modifies p`next, n`next, n`prev, q`prev
      ensures p.next == n && n.prev == p && n.next == q && q.prev == n
    {
      q.prev.next := n;
      n.prev := q.prev;
      n.next := q;
      q.prev := n;
    }

    /** Inserts a new node before the one at position `i` of the ring. */
    method InsertBefore(newNode: SlaveNode, node: SlaveNode, ghost i: int)
      requires Linked() && 0 < i < |ring| && node == ring[i]
      requires newNode !in ring && newNode.info != null
      modifies this, ring`next, ring`prev, newNode`next, newNode`prev
      ensures Linked() && Inserted(old(ring), ring, newNode, i)
      ensures infos == old(infos)[..i - 1] + [newNode.info] + old(infos)[i - 1..]
    {
      assert node.prev == ring[i - 1] && ring[i - 1].next == node;
      Splice(node.prev, newNode, node);
      ghost var longer := ring[..i] + [newNode] + ring[i..];
      InsertedJoined(ring, longer, newNode, i);
      InsertedOnce(ring, longer, newNode, i);
      hide Joined;
      hide Once;
      Grow(newNode, longer, i);
    }

    /** Counts the node that was just linked in at position `i`. */
    method Grow(newNode: SlaveNode, ghost longer: seq<SlaveNode>, ghost i: int)
      requires 0 < i < |ring| && Inserted(ring, longer, newNode, i) && Once(longer) && Joined(longer)
      requires ring[0] == head && head.info == null && size == |infos| == |ring| - 2
      requires forall j :: 0 <= j < |infos| ==> ring[j + 1].info == infos[j]
      requires newNode.info != null
      modifies this
      ensures Linked() && ring == longer
      ensures infos == old(infos)[..i - 1] + [newNode.info] + old(infos)[i - 1..]
    {
      hide Joined;
      hide Once;
      size := size + 1;
      ring := longer;
      infos := infos[..i - 1] + [newNode.info] + infos[i - 1..];
    }

    /** Gives a node another description with the same id. */
    method SetInfo(node: SlaveNode, slave: SlaveInfo, ghost i: int)
      requires Valid() && 0 <= i < |infos| && node == ring[i + 1] && infos[i].slaveID == slave.slaveID
      modifies node`info, this`infos
      ensures Valid() && infos == old(infos)[i := slave]
    {
      ReregistrationMovesNothing(infos, i, slave, 0, 0);
      node.info := slave;
      infos := infos[i := slave];
    }

    /** Walks the ring from the front to the first id that is not below `id`, or to the head. */
    method Seek(id: Long) returns (node: SlaveNode, ghost i: int)
      requires Valid()
      ensures 0 <= i <= |infos| && node == ring[i + 1]
      ensures forall k :: 0 <= k < i ==> Place(infos[k]) < Unsigned(id)
      ensures if node == head then i == |infos|
              else i < |infos| && node.info == infos[i] && Unsigned(id) <= Place(infos[i])
    {
      assert head.next == ring[1];
      node := head.next;
      i := 0;
      while node != head && IsLessThanUnsigned(node.info.slaveID, id)
        invariant 0 <= i <= |infos| && node == ring[i + 1]
        invariant if node == head then i == |infos| else i < |infos| && node.info == infos[i]
        invariant forall k :: 0 <= k < i ==> Place(infos[k]) < Unsigned(id)
        decreases |infos| - i
      {
        assert ring[i + 1].next == ring[i + 2];
        node := node.next;
        i := i + 1;
      }
    }

    /** Adds a slave at its place in the order; an id that is already there keeps its node. */
    method AddSlave(slave: SlaveInfo) returns (node: SlaveNode, ghost i: int)
      requires Valid()
      modifies this, ring`next, ring`prev
      ensures Valid() && 0 <= i < |infos| && node == ring[i + 1]
      ensures HasId(old(infos), slave.slaveID) ==>
                infos == old(infos) && ring == old(ring) && infos[i].slaveID == slave.slaveID
      ensures !HasId(old(infos), slave.slaveID) ==>
                fresh(node) && Inserted(old(ring), ring, node, i + 1) && Inserted(old(infos), infos, slave, i)
    {
      var newNode := new SlaveNode(slave);
      var currNode;
      currNode, i := Seek(slave.slaveID);
      if currNode != head && IsLessThanEqualUnsigned(currNode.info.slaveID, slave.slaveID) {
        return currNode, i;
      }
      InsertedAscending(infos, slave, i);
      InsertBefore(newNode, currNode, i + 1);
      node := newNode;
    }
  }

  // ---------- The master's registry ----------

  /** The two maps say of the slaves in the ring who they are and where their nodes are, and of nobody else. */
  ghost predicate MapsAgree(ring: seq<SlaveNode>, infos: seq<SlaveInfo>,
                            idMap: map<Long, SlaveInfo>, nodeMap: map<SlaveInfo, SlaveNode>)
  {
    && |ring| == |infos| + 2
    && (forall i :: 0 <= i < |infos| ==>
          && infos[i].slaveID in idMap && idMap[infos[i].slaveID] == infos[i]
          && infos[i] in nodeMap && nodeMap[infos[i]] == ring[i + 1])
    && (forall id :: id in idMap ==> idMap[id].slaveID == id && idMap[id] in infos)
    && (forall x :: x in nodeMap ==> x in infos)
  }

  lemma OneNew(ring: seq<SlaveNode>, longer: seq<SlaveNode>, x: SlaveNode, i: int)
    requires Inserted(ring, longer, x, i)
    ensures forall n :: n in longer ==> n in ring || n == x
  {}

  lemma NewId(ring: seq<SlaveNode>, infos: seq<SlaveInfo>, idMap: map<Long, SlaveInfo>,
              nodeMap: map<SlaveInfo, SlaveNode>, id: Long)
    requires MapsAgree(ring, infos, idMap, nodeMap) && id !in idMap
    ensures !HasId(infos, id)
  {}

  lemma MapsAdd(ring: seq<SlaveNode>, infos: seq<SlaveInfo>, idMap: map<Long, SlaveInfo>,
                nodeMap: map<SlaveInfo, SlaveNode>, i: int, x: SlaveInfo, n: SlaveNode,
                ring': seq<SlaveNode>, infos': seq<SlaveInfo>)
    requires MapsAgree(ring, infos, idMap, nodeMap) && x.slaveID !in idMap
    requires Inserted(infos, infos', x, i) && Inserted(ring, ring', n, i + 1)
    ensures MapsAgree(ring', infos', idMap[x.slaveID := x], nodeMap[x := n])
  {
    assert infos'[i] == x;
    forall y | y in infos ensures y in infos' {
      var j :| 0 <= j < |infos| && infos[j] == y;
      assert infos'[if j < i then j else j + 1] == y;
    }
    forall j | 0 <= j < |infos'| && j != i
      ensures infos'[j].slaveID in idMap && idMap[infos'[j].slaveID] == infos'[j]
      ensures infos'[j] in nodeMap && nodeMap[infos'[j]] == ring'[j + 1]
    {
      var k := if j < i then j else j - 1;
      assert infos'[j] == infos[k] && ring'[j + 1] == ring[k + 1];
    }
  }

  lemma MapsReplace(ring: seq<SlaveNode>, infos: seq<SlaveInfo>, idMap: map<Long, SlaveInfo>,
                    nodeMap: map<SlaveInfo, SlaveNode>, i: int, x: SlaveInfo)
    requires MapsAgree(ring, infos, idMap, nodeMap) && 0 <= i < |infos| && infos[i].slaveID == x.slaveID
    requires Ascending(infos)
    ensures MapsAgree(ring, infos[i := x], idMap[x.slaveID := x], (nodeMap - {infos[i]})[x := ring[i + 1]])
  {
    forall j | 0 <= j < |infos| && j != i ensures infos[j].slaveID != x.slaveID {}
    forall y | y in infos && y != infos[i] ensures y in infos[i := x] {
      var j :| 0 <= j < |infos| && infos[j] == y;
      assert infos[i := x][j] == y;
    }
    assert infos[i := x][i] == x;
  }

  class TPCMaster {
    const numSlaves: nat
    var numRegistered: int
    const slaveList: SlaveList
    var slaveIdMap: map<Long, SlaveInfo>
    var slaveNodeMap: map<SlaveInfo, SlaveNode>

    /** The list and the two maps describe the same slaves, and there are not too many of them. */
    ghost predicate Valid()
      reads this, slaveList, slaveList.ring
    {
      && slaveList.Valid()
      && numRegistered == |slaveList.infos| <= numSlaves
      && MapsAgree(slaveList.ring, slaveList.infos, slaveIdMap, slaveNodeMap)
    }

    constructor (numSlaves: nat)
      ensures Valid() && this.numSlaves == numSlaves && slaveList.infos == []
    {
      this.numSlaves, numRegistered := numSlaves, 0;
      slaveList := new SlaveList();
      slaveIdMap, slaveNodeMap := map[], map[];
    }

    /**
     * A new slave joins at its place; a known id keeps its place with the new description; a surplus slave is
     * ignored.
     */
    method RegisterSlave(slave: SlaveInfo?)
      requires Valid()
      modifies this, slaveList, slaveList.ring
      ensures Valid()
      ensures var infos, infos' := old(slaveList.infos), slaveList.infos;
              if slave == null then infos' == infos
              else if slave.slaveID in old(slaveIdMap) then
                exists i :: 0 <= i < |infos| && infos[i].slaveID == slave.slaveID && infos' == infos[i := slave]
              else if |infos| >= numSlaves then infos' == infos
              else exists i :: Inserted<SlaveInfo>(infos, infos', slave, i)
      ensures fresh(set n | n in slaveList.ring && n !in old(slaveList.ring))
    {
      if slave == null {
        return;
      }
      if slave.slaveID in slaveIdMap {
        var _ := Reregister(slave);
      } else if slaveList.size < numSlaves {
        var _ := Register(slave);
      }
    }

    method Reregister(slave: SlaveInfo) returns (ghost i: int)
      requires Valid() && slave.slaveID in slaveIdMap
      modifies this`slaveIdMap, this`slaveNodeMap, slaveList`infos, slaveList.ring`info
      ensures Valid()
      ensures 0 <= i < |old(slaveList.infos)| && old(slaveList.infos)[i].slaveID == slave.slaveID
      ensures slaveList.infos == old(slaveList.infos)[i := slave]
    {
      var oldInfo := slaveIdMap[slave.slaveID];
      i :| 0 <= i < |slaveList.infos| && slaveList.infos[i] == oldInfo;
      MapsReplace(slaveList.ring, slaveList.infos, slaveIdMap, slaveNodeMap, i, slave);
      var node := slaveNodeMap[oldInfo];
      hide MapsAgree;
      hide Ascending;
      hide Joined;
      slaveList.SetInfo(node, slave, i);
      Replace(oldInfo, slave, node);
    }

    /** Enters the new description of a slave into the two maps in the place of the old one. */
    method Replace(oldInfo: SlaveInfo, slave: SlaveInfo, node: SlaveNode)
      requires slaveList.Valid()
      modifies this`slaveIdMap, this`slaveNodeMap
      ensures slaveList.Valid()
      ensures slaveIdMap == old(slaveIdMap)[slave.slaveID := slave]
      ensures slaveNodeMap == (old(slaveNodeMap) - {oldInfo})[slave := node]
    {
      slaveIdMap := slaveIdMap[slave.slaveID := slave];
      slaveNodeMap := slaveNodeMap - {oldInfo};
      slaveNodeMap := slaveNodeMap[slave := node];
    }

    method Register(slave: SlaveInfo) returns (ghost i: int)
      requires Valid() && slave.slaveID !in slaveIdMap && |slaveList.infos| < numSlaves
      modifies this, slaveList, slaveList.ring
      ensures Valid()
      ensures Inserted(old(slaveList.infos), slaveList.infos, slave, i)
      ensures fresh(set n | n in slaveList.ring && n !in old(slaveList.ring))
    {
      NewId(slaveList.ring, slaveList.infos, slaveIdMap, slaveNodeMap, slave.slaveID);
      hide MapsAgree;
      hide Ascending;
      hide HasId;
      hide Joined;
      hide Once;
      var node;
      node, i := slaveList.AddSlave(slave);
      OneNew(old(slaveList.ring), slaveList.ring, node, i + 1);
      MapsAdd(old(slaveList.ring), old(slaveList.infos), slaveIdMap, slaveNodeMap, i, slave, node,
              slaveList.ring, slaveList.infos);
      Record(slave, node);
    }

    /** Enters a new slave and its node into the two maps and counts it. */
    method Record(slave: SlaveInfo, node: SlaveNode)
      requires slaveList.Valid()
      modifies this
      ensures slaveList.Valid() && numRegistered == old(numRegistered) + 1
      ensures slaveIdMap == old(slaveIdMap)[slave.slaveID := slave]
      ensures slaveNodeMap == old(slaveNodeMap)[slave := node]
    {
      slaveIdMap := slaveIdMap[slave.slaveID := slave];
      slaveNodeMap := slaveNodeMap[slave := node];
      numRegistered := numRegistered + 1;
    }

    /** The slave that owns a hash: the least id not below it, or the least id of all. */
    method FindSlaveAfterLong(n: Long) returns (r: SlaveInfo, ghost i: int)
      requires Valid() && slaveList.size > 0
      ensures Owns(slaveList.infos, n, i) && r == slaveList.infos[i]
    {
      var currNode;
      currNode, i := slaveList.Seek(n);
      FirstAtOrAbove(slaveList.infos, n, i);
      if currNode != slaveList.head {
        return currNode.info, i;
      }
      assert slaveList.head.next == slaveList.ring[1];
      return slaveList.head.next.info, 0;
    }

    /** The replica after the first one: the next node of the ring, or the owner of the id if it is not registered. */
    method FindSuccessor(first: SlaveInfo?) returns (r: SlaveInfo?)
      requires Valid()
      ensures r == null <==> slaveList.infos == [] || first == null
      ensures forall i :: 0 <= i < |slaveList.infos| && first == slaveList.infos[i] ==>
                r == slaveList.infos[NextIndex(i, |slaveList.infos|)]
      ensures slaveList.infos != [] && first != null && first !in slaveList.infos ==>
                exists i :: Owns(slaveList.infos, first.slaveID, i) && r == slaveList.infos[i]
    {
      if slaveList.size == 0 || first == null {
        return null;
      }
      ghost var infos, ring := slaveList.infos, slaveList.ring;
      if first !in slaveNodeMap {
        ghost var i;
        r, i := FindSlaveAfterLong(first.slaveID);
        return;
      }
      ghost var i :| 0 <= i < |infos| && infos[i] == first;
      var firstNode := slaveNodeMap[first];
      assert firstNode == ring[i + 1] && ring[i + 1].next == ring[i + 2];
      if firstNode.next != null && firstNode.next.info != null {
        return firstNode.next.info;
      }
      assert slaveList.head.next == ring[1] && ring[1].info == infos[0];
      return slaveList.head.next.info;
    }

    /** The two replicas of a key are different as soon as two slaves are registered. */
    method FindReplicas(hash: Long) returns (first: SlaveInfo, second: SlaveInfo)
      requires Valid() && slaveList.size > 0
      ensures exists i :: Owns(slaveList.infos, hash, i) && first == slaveList.infos[i]
                          && second == slaveList.infos[NextIndex(i, |slaveList.infos|)]
      ensures |slaveList.infos| >= 2 ==> first != second && first.slaveID != second.slaveID
    {
      ghost var i;
      first, i := FindSlaveAfterLong(hash);
      var s := FindSuccessor(first);
      second := s;
    }
  }

  /** The ring depends on the set of registered slaves only, not on the order of their registration. */
  lemma {:induction false} SameIdsSameOrder(a: seq<SlaveInfo>, b: seq<SlaveInfo>)
    requires Ascending(a) && Ascending(b) && (forall x :: x in a <==> x in b)
    ensures a == b
    decreases |a|
  {
    assert (a == [] || a[0] in b) && (b == [] || b[0] in a);
    if a != [] {
      var x, y := a[|a| - 1], b[|b| - 1];
      assert x in b && y in a;
      assert x == y;
      var a', b' := a[..|a| - 1], b[..|b| - 1];
      forall z ensures z in a' <==> z in b' {
        assert z in a <==> z in a' || z == x;
        assert z in b <==> z in b' || z == y;
        assert x !in a' && y !in b';
      }
      SameIdsSameOrder(a', b');
      assert a == a' + [x] && b == b' + [y];
    }
  }
}
