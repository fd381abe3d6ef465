/** The linked list inside the blocking queue: what push and pull do to it while they hold the lock. */
module LinkedQueue {
  import opened BlockingQueue

  class Node {
    var data: Pointer
    var next: Node?

    constructor (data: Pointer)
      ensures this.data == data && next == null
    {
      this.data, next := data, null;
    }
  }

  class List {
    var head: Node?
    var tail: Node?
    var size: int
    /** The nodes from head to tail. */
    ghost var nodes: seq<Node>
    ghost var contents: seq<Pointer>

    ghost predicate Valid()
      reads this, nodes
    {
      && size == |nodes| == |contents|
      && head == (if nodes == [] then null else nodes[0])
      && tail == (if nodes == [] then null else nodes[|nodes| - 1])
      && (forall i: nat, j: nat :: i < j < |nodes| ==> nodes[i] != nodes[j])
      && (forall i: nat {:trigger nodes[i].next} :: i < |nodes| ==>
            nodes[i].next == if i + 1 < |nodes| then nodes[i + 1] else null)
      && (forall i: nat :: i < |nodes| ==> nodes[i].data == contents[i])
    }

    constructor ()
      ensures Valid() && contents == [] && nodes == []
    {
      head, tail, size, nodes, contents := null, null, 0, [], [];
    }

    /** The new element is last; the others stay. */
    method Push(data: Pointer)
      requires Valid()
      modifies this, nodes
      ensures Valid() && contents == old(contents) + [data] && size == old(size) + 1
      ensures |nodes| == |old(nodes)| + 1 && nodes[..|old(nodes)|] == old(nodes) && fresh(nodes[|old(nodes)|])
    {
      size := size + 1;
      var node := new Node(data);
      if head == null {
        head := node;
        tail := node;
      } else {
        tail.next := node;
        tail := node;
      }
      nodes, contents := nodes + [node], contents + [data];
    }

    /** The first element comes out; the others stay. */
    method Pull() returns (data: Pointer)
      requires Valid() && size != 0
      modifies this
      ensures Valid() && old(contents) == [data] + contents && size == old(size) - 1
      ensures nodes == old(nodes)[1..]
    {
      assert nodes[0].next == if 1 < |nodes| then nodes[1] else null;
      size := size - 1;
      var first := head;
      data := first.data;
      head := head.next;
      if head == null {
        tail := null;
      }
      nodes, contents := nodes[1..], contents[1..];
      assert old(contents) == [data] + contents;
    }
  }
}
