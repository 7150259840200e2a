/** The generic doubly linked list, pointer by pointer. */
module AdList {

  class ListNode<T> {
    var prev: ListNode?<T>
    var next: ListNode?<T>
    var value: T

    constructor (v: T)
      ensures value == v && prev == null && next == null
    {
      value := v;
      prev := null;
      next := null;
    }
  }

  predicate Distinct<T>(s: seq<ListNode<T>>) {
    forall i, j | 0 <= i < j < |s| :: s[i] != s[j]
  }

  /** The node at a position, or null past either end. */
  function At<T>(s: seq<ListNode<T>>, i: int): ListNode?<T> {
    if 0 <= i < |s| then s[i] else null
  }

  function Removed<T>(s: seq<ListNode<T>>, i: nat): seq<ListNode<T>>
    requires i < |s|
  {
    s[..i] + s[i + 1..]
  }

  lemma RemovedAt<T>(s: seq<ListNode<T>>, i: nat)
    requires i < |s|
    ensures |Removed(s, i)| == |s| - 1
    ensures forall j | 0 <= j < |s| - 1 :: Removed(s, i)[j] == s[if j < i then j else j + 1]
  {
  }

  class List<T> {
    var head: ListNode?<T>
    var tail: ListNode?<T>
    var len: nat

    /** The nodes from head to tail. */
    ghost var nodes: seq<ListNode<T>>

    ghost predicate Linked(i: int)
      requires 0 <= i < |nodes|
      reads this, nodes
    {
      nodes[i].next == At(nodes, i + 1) && nodes[i].prev == At(nodes, i - 1)
    }

    ghost predicate Valid()
      reads this, nodes
    {
      && Distinct(nodes) && len == |nodes| && head == At(nodes, 0) && tail == At(nodes, |nodes| - 1)
      && forall i | 0 <= i < |nodes| :: Linked(i)
    }

    ghost function Values(): seq<T>
      reads this, nodes
    {
      seq(|nodes|, i requires 0 <= i < |nodes| reads this, nodes => nodes[i].value)
    }

    constructor ()
      ensures Valid() && nodes == []
    {
      head := null;
      tail := null;
      len := 0;
      nodes := [];
    }

    method AddNodeHead(v: T)
      requires Valid()
      modifies this, nodes`prev, nodes`next
      ensures Valid() && Values() == [v] + old(Values()) && |nodes| > 0 && fresh(nodes[0]) && nodes[1..] == old(nodes)
    {
      var node := new ListNode(v);
      if len == 0 {
        head, tail := node, node;
      } else {
        node.next := head;
        head.prev := node;
        head := node;
      }
      ghost var was := nodes;
      nodes := [node] + nodes;
      len := len + 1;
      forall j | 0 <= j < |nodes| ensures Linked(j) {
        if j > 0 {
          assert old(Linked(j - 1)) && nodes[j] == was[j - 1];
        }
      }
    }

    /** Returns the node, which is what blockForKeys remembers. */
    method AddNodeTail(v: T) returns (node: ListNode<T>)
      requires Valid()
      modifies this, nodes`prev, nodes`next
      ensures Valid() && Values() == old(Values()) + [v] && fresh(node) && nodes == old(nodes) + [node] && tail == node
    {
      node := new ListNode(v);
      if len == 0 {
        head, tail := node, node;
      } else {
        node.prev := tail;
        tail.next := node;
        tail := node;
      }
      ghost var was := nodes;
      nodes := nodes + [node];
      len := len + 1;
      forall j | 0 <= j < |nodes| ensures Linked(j) {
        if j < |was| {
          assert old(Linked(j)) && nodes[j] == was[j];
        }
      }
    }

    /** Takes out exactly the node given, in constant time; the others keep their order. */
    method DelNode(node: ListNode<T>, ghost i: nat)
      requires Valid() && i < |nodes| && nodes[i] == node
      modifies this, nodes`prev, nodes`next
      ensures Valid() && nodes == Removed(old(nodes), i) && Values() == old(Values()[..i] + Values()[i + 1..])
    {
      hide Removed;
      ghost var was, values := nodes, Values();
      RemovedAt(nodes, i);
      assert Linked(i);
      if node.prev != null {
        node.prev.next := node.next;
      } else {
        head := node.next;
      }
      if node.next != null {
        node.next.prev := node.prev;
      } else {
        tail := node.prev;
      }
      nodes := Removed(nodes, i);
      len := len - 1;
      assert Values() == values[..i] + values[i + 1..];
      forall j | 0 <= j < |nodes| ensures Linked(j) {
        if j < i {
          assert old(Linked(j)) && nodes[j] == was[j];
        } else {
          assert old(Linked(j + 1)) && nodes[j] == was[j + 1];
        }
      }
    }

    method RotateHeadToTail()
      requires Valid()
      modifies this, nodes`prev, nodes`next
      ensures Valid() && nodes == (if |old(nodes)| <= 1 then old(nodes) else old(nodes)[1..] + [old(nodes)[0]])
      ensures Values() == if |old(nodes)| <= 1 then old(Values()) else old(Values()[1..] + [Values()[0]])
    {
      if len <= 1 {
        return;
      }
      var first := head;
      assert Linked(0);
      head := first.next;
      head.prev := null;
      tail.next := first;
      first.next := null;
      first.prev := tail;
      tail := first;
      ghost var was := nodes;
      nodes := nodes[1..] + [nodes[0]];
      forall j | 0 <= j < |nodes| ensures Linked(j) {
        if j < |was| - 1 {
          assert old(Linked(j + 1)) && nodes[j] == was[j + 1];
        }
      }
    }

    /** The other list's nodes move behind this one's; the other is left empty. */
    method Join(o: List<T>)
      requires Valid() && o.Valid() && o != this
      requires forall i, j | 0 <= i < |nodes| && 0 <= j < |o.nodes| :: nodes[i] != o.nodes[j]
      modifies this, nodes`prev, nodes`next, o, o.nodes`prev, o.nodes`next
      ensures Valid() && nodes == old(nodes) + old(o.nodes) && Values() == old(Values()) + old(o.Values())
      ensures o.Valid() && o.nodes == []
    {
      ghost var mine, values := nodes, Values() + o.Values();
      if o.head != null {
        o.head.prev := tail;
      }
      if tail != null {
        tail.next := o.head;
      } else {
        head := o.head;
      }
      if o.tail != null {
        tail := o.tail;
      }
      len := len + o.len;
      nodes := nodes + o.nodes;
      o.head := null;
      o.tail := null;
      o.len := 0;
      o.nodes := [];
      assert Values() == values;
      forall j | 0 <= j < |nodes| ensures Linked(j) {
        if j < |mine| {
          assert old(Linked(j)) && nodes[j] == mine[j];
        } else {
          assert old(o.Linked(j - |mine|)) && nodes[j] == old(o.nodes)[j - |mine|];
        }
      }
    }
  }
}
