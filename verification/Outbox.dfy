/**
  The outbox (src/Outbox.h): a singly linked queue with a built-in cursor and external iterators. Abstractly it
  is a sequence of items and a cursor index, |items| standing for a cursor past the end.
 */
module Outbox {
  import opened Options

  class Node<T> {
    var data: T
    var next: Node?<T>

    constructor (data: T)
      ensures this.data == data && next == null
    {
      this.data, this.next := data, null;
    }
  }

  class Iterator<T> {
    var node: Node?<T>
    var prev: Node?<T>

    constructor (node: Node?<T>, prev: Node?<T>)
      ensures this.node == node && this.prev == prev
    {
      this.node, this.prev := node, prev;
    }

    // operator++
    method Advance()
      modifies this
      ensures old(node) == null ==> node == null && prev == old(prev)
      ensures old(node) != null ==> prev == old(node) && node == old(node.next)
    {
      if node != null {
        prev := node;
        node := node.next;
      }
    }
  }

  // node i points to its successor in the list, or nowhere if it is the last
  ghost predicate Hop<T>(ns: seq<Node<T>>, i: nat)
    requires i < |ns|
    reads ns[i]
  {
    ns[i].next == if i + 1 < |ns| then ns[i + 1] else null
  }

  function Without<A>(s: seq<A>, i: nat): seq<A>
    requires i < |s|
  {
    s[..i] + s[i + 1..]
  }

  lemma WithoutElements<A>(s: seq<A>, i: nat)
    requires i < |s|
    ensures forall x :: x in Without(s, i) ==> x in s
    ensures |Without(s, i)| == |s| - 1
    ensures forall j :: 0 <= j < |s| - 1 ==> Without(s, i)[j] == s[if j < i then j else j + 1]
  {
  }

  lemma FrontRemoved<A>(x: A, s: seq<A>)
    ensures Without([x] + s, 0) == s
  {
  }

  // where a cursor goes when item i disappears: it stays on its item, or on the successor of a removed one
  function CursorWithout(cursor: nat, i: nat): nat {
    if i < cursor then cursor - 1 else cursor
  }

  // the items under and before the cursor, when item i goes
  lemma CursorNeighbours<A>(s: seq<A>, i: nat, cursor: nat)
    requires i < |s| && cursor <= |s|
    ensures |Without(s, i)| == |s| - 1 && CursorWithout(cursor, i) <= |s| - 1
    ensures var c := CursorWithout(cursor, i);
            && (c < |s| - 1 ==> if cursor == i then i + 1 < |s| && Without(s, i)[c] == s[i + 1] else cursor < |s| && Without(s, i)[c] == s[cursor])
            && (c == |s| - 1 ==> if cursor == i then i + 1 == |s| else cursor == |s|)
            && (c > 0 ==> if cursor == i + 1 then i > 0 && Without(s, i)[c - 1] == s[i - 1] else cursor > 0 && Without(s, i)[c - 1] == s[cursor - 1])
  {
  }

  class Outbox<T> {
    var first: Node?<T>
    var last: Node?<T>
    var current: Node?<T>
    var prev: Node?<T>
    ghost var nodes: seq<Node<T>>
    ghost var items: seq<T>
    ghost var cursor: nat

    ghost predicate Chained()
      reads this`nodes, this`items, nodes
    {
      && |items| == |nodes|
      && (forall i :: 0 <= i < |nodes| ==> nodes[i].data == items[i])
      && (forall i :: 0 <= i < |nodes| ==> Hop(nodes, i))
      && (forall i, j :: 0 <= i < j < |nodes| ==> nodes[i] != nodes[j])
    }

    /**
      `prev` is the node before `current` unless the cursor is at the front: resetCurrent leaves it behind, and
      it may then even be a node that is no longer in the queue.
     */
    ghost predicate Valid()
      reads this, nodes
    {
      && Chained()
      && first == (if nodes == [] then null else nodes[0])
      && last == (if nodes == [] then null else nodes[|nodes| - 1])
      && cursor <= |nodes|
      && current == (if cursor < |nodes| then nodes[cursor] else null)
      && (cursor > 0 ==> prev == nodes[cursor - 1])
    }

    /** The iterator stands on item i, or past the end. */
    ghost predicate At(it: Iterator<T>, i: nat)
      reads this, it
    {
      && i <= |nodes|
      && it.node == (if i < |nodes| then nodes[i] else null)
      && it.prev == (if i > 0 then nodes[i - 1] else null)
    }

    constructor ()
      ensures Valid() && fresh(this) && items == [] && cursor == 0 && nodes == []
    {
      first, last, current, prev := null, null, null, null;
      nodes, items, cursor := [], [], 0;
    }

    // hangs a new node behind the last one
    method Link(node: Node<T>)
      requires Valid() && node.next == null && forall i :: 0 <= i < |nodes| ==> nodes[i] != node
      modifies this`first, this`last, this`current, this`nodes, this`items, nodes
      ensures Valid() && nodes == old(nodes) + [node] && items == old(items) + [node.data] && cursor == old(cursor)
    {
      ghost var ns := nodes;
      if first == null {
        first, current := node, node;
      } else {
        assert Hop(ns, |ns| - 1);
        last.next := node;
      }
      last := node;
      if current == null {
        current := last;
      }
      nodes, items := nodes + [node], items + [node.data];
      forall i | 0 <= i < |nodes| ensures Hop(nodes, i) {
        if i < |ns| - 1 { assert old(Hop(nodes, i)); }
      }
    }

    /** Appends; the cursor index stays, so that a cursor past the end now points to the new item. */
    method Emplace(data: T) returns (it: Iterator<T>)
      requires Valid()
      modifies this, nodes
      ensures Valid() && items == old(items) + [data] && cursor == old(cursor)
      ensures old(nodes) <= nodes && |nodes| == |old(nodes)| + 1 && fresh(nodes[|old(nodes)|])
      ensures forall i :: 0 <= i < |nodes| ==> nodes[i] in old(nodes) || fresh(nodes[i])
      ensures fresh(it) && At(it, |items| - 1)
    {
      LastNode();
      hide Valid, Hop;
      var node := new Node(data);
      it := new Iterator(node, if first != null then last else null);
      Link(node);
      LastNode();
    }

    lemma LastNode()
      requires Valid()
      ensures |items| == |nodes| && first == (if nodes == [] then null else nodes[0])
      ensures last == if nodes == [] then null else nodes[|nodes| - 1]
    {
    }

    // hangs a new node before the first one
    method LinkFront(node: Node<T>)
      requires Valid() && node.next == null && forall i :: 0 <= i < |nodes| ==> nodes[i] != node
      modifies this, node`next
      ensures Valid() && nodes == [node] + old(nodes) && items == [node.data] + old(items) && cursor == 0
    {
      ghost var ns := nodes;
      if first == null {
        last := node;
      } else {
        node.next := first;
      }
      current, first := node, node;
      prev := null;
      nodes, items, cursor := [node] + nodes, [node.data] + items, 0;
      assert nodes[0] == node && forall i :: 1 <= i < |nodes| ==> nodes[i] == ns[i - 1];
      forall i | 0 <= i < |nodes| ensures Hop(nodes, i) {
        if i > 0 { assert old(Hop(nodes, i - 1)); }
      }
    }

    /** Prepends; the cursor goes to the new front. */
    method EmplaceFront(data: T) returns (it: Iterator<T>)
      requires Valid()
      modifies this, nodes
      ensures Valid() && items == [data] + old(items) && cursor == 0
      ensures |nodes| > 0 && nodes == [nodes[0]] + old(nodes) && fresh(nodes[0])
      ensures forall i :: 0 <= i < |nodes| ==> nodes[i] in old(nodes) || fresh(nodes[i])
      ensures fresh(it) && At(it, 0)
    {
      hide Valid, Hop;
      var node := new Node(data);
      it := new Iterator(node, null);
      LinkFront(node);
    }

    // takes node i out of the chain
    method Splice(before: Node?<T>, node: Node<T>, ghost i: nat)
      requires Chained() && i < |nodes| && node == nodes[i] && (i > 0 ==> before == nodes[i - 1])
      requires first == nodes[0] && last == nodes[|nodes| - 1]
      modifies this`first, this`last, this`nodes, this`items, nodes
      ensures Chained() && nodes == Without(old(nodes), i) && items == Without(old(items), i)
      ensures first == (if nodes == [] then null else nodes[0])
      ensures last == (if nodes == [] then null else nodes[|nodes| - 1])
    {
      hide Without;
      ghost var ns := nodes;
      WithoutElements(nodes, i);
      WithoutElements(items, i);
      assert Hop(ns, i) && (i > 0 ==> Hop(ns, i - 1));
      if first == last {
        first, last := null, null;
      } else if first == node {
        first := node.next;
      } else if last == node {
        last := before;
        last.next := null;
      } else {
        before.next := node.next;
      }
      nodes, items := Without(nodes, i), Without(items, i);
      forall j | 0 <= j < |nodes| ensures Hop(nodes, j) {
        assert old(Hop(nodes, if j < i then j else j + 1));
      }
    }

    lemma NodeAt(i: nat)
      requires Chained() && i < |nodes|
      ensures |items| == |nodes| && nodes[i].next == if i + 1 < |nodes| then nodes[i + 1] else null
      ensures forall j :: 0 <= j < |nodes| && j != i ==> nodes[j] != nodes[i]
    {
      assert Hop(nodes, i);
    }

    // _remove: unlinks node i, given the node before it
    method Unlink(before: Node?<T>, node: Node?<T>, ghost i: nat)
      requires Valid() && i <= |nodes| && node == (if i < |nodes| then nodes[i] else null)
      requires 0 < i < |nodes| ==> before == nodes[i - 1]
      // at the front only the queue's own stale `prev` may be passed in place of null
      requires i == 0 && |nodes| > 0 ==> before == null || (before == prev && cursor == 0)
      modifies this, nodes
      ensures Valid() && forall n :: n in nodes ==> n in old(nodes)
      ensures i == |old(nodes)| ==> nodes == old(nodes) && items == old(items) && cursor == old(cursor)
      ensures i < |old(nodes)| ==>
        nodes == Without(old(nodes), i) && items == Without(old(items), i) && cursor == CursorWithout(old(cursor), i)
    {
      hide Chained, Hop, Without, CursorWithout;
      if node == null { return; }
      NodeAt(i);
      CursorNeighbours(nodes, i, cursor);
      WithoutElements(nodes, i);
      if current == node {
        current := node.next;
      }
      if prev == node {
        prev := before;
      }
      Splice(before, node, i);
      cursor := CursorWithout(cursor, i);
    }

    /** Removes the item under the iterator, which moves on to the next one. */
    method Remove(it: Iterator<T>, ghost i: nat)
      requires Valid() && At(it, i)
      modifies this, nodes, it
      ensures Valid() && At(it, i) && forall n :: n in nodes ==> n in old(nodes)
      ensures i == |old(nodes)| ==> nodes == old(nodes) && items == old(items) && cursor == old(cursor)
      ensures i < |old(nodes)| ==>
        nodes == Without(old(nodes), i) && items == Without(old(items), i) && cursor == CursorWithout(old(cursor), i)
    {
      if it.node == null { return; }
      assert Hop(nodes, i);
      var node, before, after := it.node, it.prev, it.node.next;
      Unlink(before, node, i);
      it.prev := before;
      it.node := after;
    }

    /** Removes the item under the cursor, which moves on to the next one. */
    method RemoveCurrent()
      requires Valid()
      modifies this, nodes
      ensures Valid() && cursor == old(cursor) && forall n :: n in nodes ==> n in old(nodes)
      ensures cursor == |old(items)| ==> items == old(items) && nodes == old(nodes)
      ensures cursor < |old(items)| ==> items == Without(old(items), cursor) && nodes == Without(old(nodes), cursor)
    {
      Unlink(prev, current, cursor);
    }

    method GetCurrent() returns (r: Option<T>)
      requires Valid()
      ensures r == if cursor < |items| then Some(items[cursor]) else None
    {
      r := if current != null then Some(current.data) else None;
    }

    // writing through the pointer getCurrent returns
    method SetCurrent(data: T)
      requires Valid() && cursor < |items|
      modifies this`items, nodes
      ensures Valid() && items == old(items)[cursor := data] && nodes == old(nodes) && cursor == old(cursor)
    {
      assert forall i :: 0 <= i < |nodes| && i != cursor ==> nodes[i] != current;
      current.data := data;
      items := items[cursor := data];
      assert forall i :: 0 <= i < |nodes| && i != cursor ==> nodes[i].data == old(nodes[i].data);
      forall i | 0 <= i < |nodes| ensures Hop(nodes, i) { assert old(Hop(nodes, i)); }
    }

    method ResetCurrent()
      requires Valid()
      modifies this`current, this`cursor
      ensures Valid() && cursor == 0
    {
      current := first;
      cursor := 0;
    }

    method Next()
      requires Valid()
      modifies this`current, this`prev, this`cursor
      ensures Valid() && cursor == if old(cursor) < |items| then old(cursor) + 1 else old(cursor)
    {
      if current != null {
        assert Hop(nodes, cursor);
        prev := current;
        current := current.next;
        cursor := cursor + 1;
      }
    }

    method Front() returns (it: Iterator<T>)
      requires Valid()
      ensures fresh(it) && At(it, 0)
    {
      it := new Iterator(first, null);
    }

    predicate Empty()
      requires Valid()
      reads this, nodes
      ensures Empty() <==> items == []
    {
      first == null
    }

    method Size() returns (count: nat)
      requires Valid()
      ensures count == |items|
    {
      var n := first;
      count := 0;
      while n != null
        invariant count <= |nodes| && n == if count < |nodes| then nodes[count] else null
        decreases |nodes| - count
      {
        assert Hop(nodes, count);
        n := n.next;
        count := count + 1;
      }
    }

    /** What _addPacket does when the packet could not be built: append, then remove again. Nothing is left of it. */
    method EmplaceAndUndo(data: T)
      requires Valid()
      modifies this, nodes
      ensures Valid() && items == old(items) && cursor == old(cursor) && nodes == old(nodes)
    {
      var it := Emplace(data);
      Remove(it, |nodes| - 1);
      assert nodes == old(nodes) && items == old(items);
    }

    /** What _addPacketFront does then: the queue is back, but the cursor has been reset to the front. */
    method EmplaceFrontAndUndo(data: T)
      requires Valid()
      modifies this, nodes
      ensures Valid() && items == old(items) && cursor == 0 && nodes == old(nodes)
    {
      hide Valid, At;
      var it := EmplaceFront(data);
      FrontRemoved(nodes[0], old(nodes));
      FrontRemoved(data, old(items));
      Remove(it, 0);
    }
  }

  /** The invariant "prev is the node before current" is false: after a reset it can be current itself. */
  method StalePrev<T>(a: T, b: T) returns (o: Outbox<T>)
    ensures fresh(o) && o.Valid() && o.items == [a, b] && o.cursor == 0
    ensures o.current == o.nodes[0] && o.prev == o.nodes[0]
  {
    o := new Outbox<T>();
    var it := o.Emplace(a);
    it := o.Emplace(b);
    o.Next();
    o.ResetCurrent();
  }
}
