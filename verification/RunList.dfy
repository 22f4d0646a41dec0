/**
 * The circular doubly linked list of runs with its sentinel. A ghost sequence lists the nodes in ring order,
 * another one the runs they hold; every operation is described by what it does to these sequences.
 */
module RunList {
  import opened OceanRuns
  import opened Rings

  const NULL_TYPE := -10
  const NULL_LENGTH := -10

  class DListNode {
    var runType: int
    var runLength: int
    var hunger: int
    var next: DListNode?
    var prev: DListNode?

    constructor (runType: int, runLength: int, hunger: int)
      ensures Holds() == Run(Cell(runType, hunger), runLength) && next == null && prev == null
    {
      this.runType, this.runLength, this.hunger := runType, runLength, hunger;
      next, prev := null, null;
    }

    ghost function Holds(): Run
      reads this`runType, this`runLength, this`hunger
    {
      Run(Cell(runType, hunger), runLength)
    }
  }

  /** Neighbours in the sequence point at each other. */
  ghost predicate Joined(ring: seq<DListNode>)
    reads ring
  {
    && (forall i :: 0 <= i < |ring| - 1 ==> ring[i].next == ring[i + 1])
    && (forall i :: 0 < i < |ring| ==> ring[i].prev == ring[i - 1])
  }

  /** Joined, but for the links across the gap before position `i`. */
  ghost predicate JoinedBut(ring: seq<DListNode>, i: int)
    reads ring
  {
    && (forall j :: 0 <= j < |ring| - 1 && j != i - 1 ==> ring[j].next == ring[j + 1])
    && (forall j :: 0 < j < |ring| && j != i ==> ring[j].prev == ring[j - 1])
  }

  lemma InsertedJoined(ring: seq<DListNode>, longer: seq<DListNode>, x: DListNode, i: int)
    requires 0 < i < |ring| && Inserted(ring, longer, x, i) && JoinedBut(ring, i)
    requires ring[i - 1].next == x && x.prev == ring[i - 1] && x.next == ring[i] && ring[i].prev == x
    ensures Joined(longer)
  {
    forall j | 0 <= j < |longer| - 1 ensures longer[j].next == longer[j + 1] {
      if j < i - 1 { assert ring[j].next == ring[j + 1]; }
      if j > i { assert ring[j - 1].next == ring[j]; }
    }
    forall j | 0 < j < |longer| ensures longer[j].prev == longer[j - 1] {
      if j < i { assert ring[j].prev == ring[j - 1]; }
      if j > i + 1 { assert ring[j - 1].prev == ring[j - 2]; }
    }
  }

  lemma RemovedJoined(ring: seq<DListNode>, shorter: seq<DListNode>, x: DListNode, i: int)
    requires 0 < i < |ring| - 1 && Inserted(shorter, ring, x, i) && JoinedBut(shorter, i)
    requires ring[i - 1].next == ring[i + 1] && ring[i + 1].prev == ring[i - 1]
    ensures Joined(shorter)
  {
    assert shorter[i - 1] == ring[i - 1] && shorter[i] == ring[i + 1];
  }

  class DList {
    var size: int
    const sentinel: DListNode
    ghost var ring: seq<DListNode>
    ghost var runs: seq<Run>

    ghost predicate Valid()
      reads this, ring
    {
      && Once(ring) && ring[0] == sentinel && Joined(ring)
      && sentinel.Holds() == Run(Cell(NULL_TYPE, NULL_HUNGER), NULL_LENGTH)
      && size == |runs| == |ring| - 2
      && (forall i :: 0 <= i < |runs| ==> ring[i + 1].Holds() == runs[i])
    }

    constructor ()
      ensures Valid() && runs == [] && fresh(sentinel) && ring == [sentinel, sentinel]
    {
      sentinel := new DListNode(NULL_TYPE, NULL_LENGTH, NULL_HUNGER);
      size := 0;
      new;
      ring, runs := [sentinel, sentinel], [];
      sentinel.next := sentinel;
      sentinel.prev := sentinel;
    }

    lemma Links(i: int)
      requires Valid() && 0 < i < |ring| - 1
      ensures ring[i].prev == ring[i - 1] && ring[i].next == ring[i + 1] && ring[i].Holds() == runs[i - 1]
    {
      assert ring[i - 1 + 1].Holds() == runs[i - 1];
    }

    lemma First()
      requires Valid()
      ensures sentinel.next == ring[1]
    {}

    static method Link(p: DListNode, n: DListNode, q: DListNode)
      requires n != p && n != q
      modifies p`next, n`next, n`prev, q`prev
      ensures p.next == n && n.prev == p && n.next == q && q.prev == n
    {
      n.next := q;
      n.prev := p;
      p.next := n;
      q.prev := n;
    }

    static method Unlink(p: DListNode, n: DListNode, q: DListNode)
      requires n != p && n != q
      modifies p`next, n`next, n`prev, q`prev
      ensures p.next == q && q.prev == p
    {
      p.next := q;
      q.prev := p;
      n.prev := null;
      n.next := null;
    }

    /** Links a new node in before position `i` of the ring. */
    method Insert(newNode: DListNode, p: DListNode, q: DListNode, ghost i: int)
      requires Valid() && 0 < i < |ring| && p == ring[i - 1] && q == ring[i] && newNode !in ring
      modifies this, ring`next, ring`prev, newNode`next, newNode`prev
      ensures Valid() && ring == old(ring[..i] + [newNode] + ring[i..])
      ensures runs == With(old(runs), i - 1, old(newNode.Holds()))
    {
      Link(p, newNode, q);
      ghost var longer := ring[..i] + [newNode] + ring[i..];
      InsertedJoined(ring, longer, newNode, i);
      InsertedOnce(ring, longer, newNode, i);
      Grow(newNode, longer, i);
    }

    method Grow(newNode: DListNode, ghost longer: seq<DListNode>, ghost i: int)
      requires 0 < i < |ring| && Inserted(ring, longer, newNode, i) && Once(longer) && Joined(longer)
      requires ring[0] == sentinel && size == |runs| == |ring| - 2
      requires sentinel.Holds() == Run(Cell(NULL_TYPE, NULL_HUNGER), NULL_LENGTH)
      requires forall j :: 0 <= j < |runs| ==> ring[j + 1].Holds() == runs[j]
      modifies this
      ensures Valid() && ring == longer
      ensures runs == old(runs)[..i - 1] + [newNode.Holds()] + old(runs)[i - 1..]
    {
      hide Joined;
      hide Once;
      size := size + 1;
      ring := longer;
      runs := runs[..i - 1] + [newNode.Holds()] + runs[i - 1..];
    }

    method AddBefore(currNode: DListNode, newNode: DListNode, ghost i: int)
      requires Valid() && 0 < i < |ring| && currNode == ring[i] && newNode !in ring
      modifies this, ring`next, ring`prev, newNode`next, newNode`prev
      ensures Valid() && ring == old(ring[..i] + [newNode] + ring[i..])
      ensures runs == With(old(runs), i - 1, old(newNode.Holds()))
    {
      assert currNode.prev == ring[i - 1];
      Insert(newNode, currNode.prev, currNode, i);
    }

    method AddAfter(currNode: DListNode, newNode: DListNode, ghost i: int)
      requires Valid() && 0 <= i < |ring| - 1 && currNode == ring[i] && newNode !in ring
      modifies this, ring`next, ring`prev, newNode`next, newNode`prev
      ensures Valid() && ring == old(ring[..i + 1] + [newNode] + ring[i + 1..])
      ensures runs == With(old(runs), i, old(newNode.Holds()))
    {
      assert currNode.next == ring[i + 1];
      Insert(newNode, currNode, currNode.next, i + 1);
    }

    method AddLast(newLastNode: DListNode)
      requires Valid() && newLastNode !in ring
      modifies this, ring`next, ring`prev, newLastNode`next, newLastNode`prev
      ensures Valid() && ring == old(ring[..|ring| - 1] + [newLastNode] + ring[|ring| - 1..])
      ensures runs == old(runs) + [old(newLastNode.Holds())]
    {
      ghost var i := |ring| - 1;
      assert sentinel.prev == ring[i - 1];
      Insert(newLastNode, sentinel.prev, sentinel, i);
    }

    /** A new last node with the given run. */
    method Append(runType: int, runLength: int, hunger: int)
      requires Valid()
      modifies this, ring`next, ring`prev
      ensures Valid() && fresh(set n | n in ring && n !in old(ring))
      ensures runs == old(runs) + [Run(Cell(runType, hunger), runLength)]
    {
      var runNode := new DListNode(runType, runLength, hunger);
      AddLast(runNode);
    }

    /** Takes the node at position `i` out; the source treats the two ends separately. */
    method RemoveNode(n: DListNode, ghost i: int)
      requires Valid() && 0 < i < |ring| - 1 && n == ring[i]
      modifies this, ring`next, ring`prev
      ensures Valid() && ring == old(ring[..i] + ring[i + 1..])
      ensures runs == Without(old(runs), i - 1)
    {
      assert n.prev == ring[i - 1] && n.next == ring[i + 1];
      assert n == sentinel.next <==> i == 1 by {
        assert sentinel.next == ring[1];
      }
      assert n == sentinel.prev <==> i == |ring| - 2 by {
        assert sentinel.prev == ring[|ring| - 2];
      }
      if n == sentinel.next {
        Cut(sentinel, n, n.next, i);
      } else if n == sentinel.prev {
        Cut(n.prev, n, sentinel, i);
      } else {
        Cut(n.prev, n, n.next, i);
      }
    }

    method Cut(p: DListNode, n: DListNode, q: DListNode, ghost i: int)
      requires Valid() && 0 < i < |ring| - 1 && p == ring[i - 1] && n == ring[i] && q == ring[i + 1]
      modifies this, ring`next, ring`prev
      ensures Valid() && ring == old(ring[..i] + ring[i + 1..])
      ensures runs == Without(old(runs), i - 1)
    {
      ghost var shorter := ring[..i] + ring[i + 1..];
      RemovedOnce(ring, shorter, n, i);
      Unlink(p, n, q);
      RemovedJoined(ring, shorter, n, i);
      Shrink(shorter, n, i);
    }

    method Shrink(ghost shorter: seq<DListNode>, n: DListNode, ghost i: int)
      requires 0 < i < |ring| - 1 && Inserted(shorter, ring, n, i) && Once(shorter) && Joined(shorter)
      requires ring[0] == sentinel && size == |runs| == |ring| - 2
      requires sentinel.Holds() == Run(Cell(NULL_TYPE, NULL_HUNGER), NULL_LENGTH)
      requires forall j :: 0 <= j < |runs| ==> ring[j + 1].Holds() == runs[j]
      modifies this
      ensures Valid() && ring == shorter
      ensures runs == old(runs)[..i - 1] + old(runs)[i..]
    {
      hide Joined;
      hide Once;
      size := size - 1;
      ring := shorter;
      runs := runs[..i - 1] + runs[i..];
    }

    /** Overwrites the run that a node holds. */
    method SetRun(node: DListNode, runType: int, runLength: int, hunger: int, ghost i: int)
      requires Valid() && 0 < i < |ring| - 1 && node == ring[i]
      modifies this`runs, node`runType, node`runLength, node`hunger
      ensures Valid() && runs == old(runs)[i - 1 := Run(Cell(runType, hunger), runLength)]
    {
      node.runType := runType;
      node.runLength := runLength;
      node.hunger := hunger;
      runs := runs[i - 1 := node.Holds()];
    }
  }
}
