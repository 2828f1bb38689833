/** The linked FIFO under the worker pool.  An empty queue keeps whatever `head` and `tail` it had. */
module TaskQueue {
  import opened Wrappers

  class Node<T> {
    var next: Node?<T>
    const data: T

    constructor (data: T)
      ensures this.data == data && next == null
    {
      this.data := data;
      next := null;
    }
  }

  lemma OneMore<T>(s: seq<T>, k: nat)
    requires k < |s|
    ensures SetOf(s[..k + 1]) == SetOf(s[..k]) + {s[k]}
  {
    assert s[..k + 1] == s[..k] + [s[k]];
  }

  class Queue<T> {
    var head: Node?<T>
    var tail: Node?<T>
    var size: nat
    ghost var nodes: seq<Node<T>>     // the live nodes, in order
    ghost var freed: set<Node<T>>     // the nodes given back to the allocator

    ghost predicate Valid()
      reads this, nodes
    {
      && size == |nodes|
      && (size > 0 ==> head == nodes[0] && tail == nodes[size - 1])
      && (forall i | 0 <= i < size - 1 :: nodes[i].next == nodes[i + 1])
      && (forall i, j | 0 <= i < j < size :: nodes[i] != nodes[j])
      && (forall i | 0 <= i < size :: nodes[i] !in freed)
    }

    // The queued values, first in first.
    ghost function Contents(): (s: seq<T>)
      reads this, nodes
    {
      seq(|nodes|, i requires 0 <= i < |nodes| reads this, nodes => nodes[i].data)
    }

    // queue_new does not initialise `head` and `tail`.
    constructor (garbageHead: Node?<T>, garbageTail: Node?<T>)
      ensures Valid() && Contents() == [] && nodes == [] && freed == {}
    {
      head, tail, size := garbageHead, garbageTail, 0;
      nodes, freed := [], {};
    }

    // `hasMemory` says whether malloc succeeds.
    method Enqueue(data: T, hasMemory: bool) returns (newSize: nat)
      requires Valid()
      modifies this, nodes
      ensures Valid() && freed == old(freed)
      ensures Contents() == if hasMemory then old(Contents()) + [data] else old(Contents())
      ensures newSize == if hasMemory then |Contents()| else 0
      ensures forall n | n in nodes :: n in old(nodes) || fresh(n)
    {
      if !hasMemory {
        return 0;
      }
      var element := new Node(data);
      if size == 0 {
        head := element;
      } else {
        tail.next := element;
      }
      tail := element;
      size := size + 1;
      nodes := nodes + [element];
      newSize := size;
    }

    method Dequeue() returns (data: Option<T>)
      requires Valid()
      modifies this
      ensures Valid()
      ensures if old(Contents()) == [] then data == None && Contents() == [] && freed == old(freed)
              else (data == Some(old(Contents())[0]) && Contents() == old(Contents())[1..]
                    && freed == old(freed) + {old(nodes)[0]})
      ensures old(size) > 0 ==> nodes == old(nodes)[1..]
      ensures old(size) == 0 ==> nodes == []
    {
      if size == 0 {
        return None;
      }
      size := size - 1;
      data := Some(head.data);
      var tmp := head.next;
      freed := freed + {head};
      head := tmp;
      nodes := nodes[1..];
    }

    // Clears every queued value once, in order, and frees every node.
    method Destroy() returns (cleared: seq<T>)
      requires Valid()
      modifies this
      ensures cleared == old(Contents())
      ensures size == 0 && freed == old(freed) + SetOf(old(nodes))
    {
      cleared := [];
      ghost var k, all, contents, before := 0, nodes, Contents(), freed;
      assert before + SetOf(all[..0]) == before;
      while size > 0
        invariant Valid() && k + size == |all| == |contents| && nodes == all[k..]
        invariant cleared == contents[..k] && Contents() == contents[k..]
        invariant freed == before + SetOf(all[..k])
        decreases size
      {
        OneMore(all, k);
        hide SetOf;
        var data := Dequeue();
        cleared := cleared + [data.value];
        k := k + 1;
      }
      assert all[..k] == all && contents[..k] == contents;
    }
  }
}
