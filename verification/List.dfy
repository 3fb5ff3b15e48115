/**
 * The kernel's circular doubly linked lists (blt/kernel/list.c): pointer surgery on
 * nodes, around a head that is a node of the ring itself.  A list is the sequence
 * of its nodes; every operation does to that sequence what its name says.
 */
module List {
  import opened Seqs
  import opened Wrappers

  class Node {
    var next: Node
    var prev: Node
    var data: int

    constructor (data: int)
      ensures this.data == data && next == this && prev == this
    {
      this.next, this.prev, this.data := this, this, data;
    }
  }

  /** Following `next` leads through `walk`, and following `prev` leads back. */
  ghost predicate Linked(walk: seq<Node>)
    reads walk
  {
    && (forall i {:trigger walk[i].next} :: 0 <= i < |walk| - 1 ==> walk[i].next == walk[i + 1])
    && (forall i {:trigger walk[i].prev} :: 0 < i < |walk| ==> walk[i].prev == walk[i - 1])
  }

  /** `walk` is a ring: it ends where it starts, and meets every other node once. */
  ghost predicate Ring(walk: seq<Node>) {
    && 2 <= |walk| && walk[0] == walk[|walk| - 1]
    && (forall i, j :: 0 <= i < j < |walk| - 1 ==> walk[i] != walk[j])
  }

  lemma Neighbours(walk: seq<Node>, k: nat)
    requires Linked(walk) && Ring(walk)
    ensures k < |walk| - 1 ==> walk[k].next == walk[k + 1]
    ensures 0 < k < |walk| ==> walk[k].prev == walk[k - 1]
  {
  }

  lemma RingWithout(walk: seq<Node>, k: nat)
    requires Ring(walk) && 0 < k < |walk| - 1
    ensures Ring(walk[..k] + walk[k + 1..])
  {
  }

  lemma RingWith(walk: seq<Node>, k: nat, node: Node)
    requires Ring(walk) && 0 < k < |walk| && node !in walk
    ensures Ring(walk[..k] + [node] + walk[k..])
  {
  }

  /** Pointing the neighbours of `walk[k]` at each other. */
  twostate lemma Shortcut(walk: seq<Node>, new k: nat, new r: seq<Node>)
    requires 0 < k < |walk| - 1 && |r| == |walk| - 1
    requires forall i :: 0 <= i < |r| ==> r[i] == walk[if i < k then i else i + 1]
    requires Ring(walk) && 0 < k < |walk| - 1 && old(Linked(walk))
    requires walk[k - 1].next == walk[k + 1] && walk[k + 1].prev == walk[k - 1]
    requires forall i {:trigger walk[i].next} :: 0 <= i < |walk| && walk[i] != walk[k - 1] ==>
      walk[i].next == old(walk[i].next)
    requires forall i {:trigger walk[i].prev} :: 0 <= i < |walk| && walk[i] != walk[k + 1] ==>
      walk[i].prev == old(walk[i].prev)
    ensures Linked(r)
  {
  }

  /** Pointing `walk[k-1]`, `node` and `walk[k]` at each other. */
  twostate lemma Splice(walk: seq<Node>, new k: nat, new node: Node, new r: seq<Node>)
    requires 0 < k < |walk| && |r| == |walk| + 1
    requires forall i :: 0 <= i < |r| ==> r[i] == if i == k then node else walk[if i < k then i else i - 1]
    requires Ring(walk) && 0 < k < |walk| && old(Linked(walk)) && node !in walk
    requires walk[k - 1].next == node && node.next == walk[k] && walk[k].prev == node && node.prev == walk[k - 1]
    requires forall i {:trigger walk[i].next} :: 0 <= i < |walk| && walk[i] != walk[k - 1] ==>
      walk[i].next == old(walk[i].next)
    requires forall i {:trigger walk[i].prev} :: 0 <= i < |walk| && walk[i] != walk[k] ==>
      walk[i].prev == old(walk[i].prev)
    ensures Linked(r)
  {
  }

  /** The walk round a list without its node `i`. */
  lemma WalkWithout(head: Node, nodes: seq<Node>, i: nat)
    requires i < |nodes|
    ensures var walk, rest := [head] + nodes + [head], [head] + (nodes[..i] + nodes[i + 1..]) + [head];
      && walk[i + 1] == nodes[i] && walk[i] in walk && walk[i + 2] in walk
      && rest == walk[..i + 1] + walk[i + 2..] && |rest| == |walk| - 1
      && forall j :: 0 <= j < |rest| ==> rest[j] == walk[if j < i + 1 then j else j + 1]
  {
    var walk, rest := [head] + nodes + [head], [head] + (nodes[..i] + nodes[i + 1..]) + [head];
    assert walk[i + 1] == nodes[i] && walk[i] in walk && walk[i + 2] in walk;
    assert rest == walk[..i + 1] + walk[i + 2..];
  }

  lemma Apart(walk: seq<Node>, i: nat, j: nat)
    requires Ring(walk) && i < |walk| - 1 && j < |walk| - 1 && i != j
    ensures walk[i] != walk[j]
  {
  }

  class List {
    /** The list itself, as a node. */
    const head: Node
    var count: int
    ghost var nodes: seq<Node>

    /** Once round the list. */
    ghost function Walk(): seq<Node>
      reads this
    {
      [head] + nodes + [head]
    }

    ghost predicate Valid()
      reads this, Walk()
    {
      Linked(Walk()) && Ring(Walk()) && count == |nodes|
    }

    /** What the nodes carry, first to last. */
    ghost function Contents(): (s: seq<int>)
      reads this, nodes
      ensures |s| == |nodes|
    {
      seq(|nodes|, i requires 0 <= i < |nodes| reads this, nodes => nodes[i].data)
    }

    constructor (dummy: int)
      ensures Valid() && nodes == [] && fresh(head)
    {
      head := new Node(dummy);
      count, nodes := 0, [];
      new;
      assert Walk() == [head, head];
    }

    method AttachHead(node: Node)
      requires Valid() && node !in Walk()
      modifies this, Walk(), node
      ensures Valid() && nodes == [node] + old(nodes)
      ensures node.data == old(node.data)
      ensures forall n :: n in old(nodes) ==> n.data == old(n.data)
    {
      ghost var walk := Walk();
      Neighbours(walk, 0);
      assert walk[0] == head && walk[1] in walk;
      node.next := head.next;
      node.next.prev := node;
      node.prev := head;
      head.next := node;
      count := count + 1;
      nodes := [node] + nodes;
      Splice(walk, 1, node, Walk());
      RingWith(walk, 1, node);
      assert Walk() == walk[..1] + [node] + walk[1..];
    }

    method AttachTail(node: Node)
      requires Valid() && node !in Walk()
      modifies this, Walk(), node
      ensures Valid() && nodes == old(nodes) + [node]
      ensures node.data == old(node.data)
      ensures forall n :: n in old(nodes) ==> n.data == old(n.data)
    {
      ghost var walk := Walk();
      ghost var k := |nodes| + 1;
      Neighbours(walk, k);
      assert walk[k] == head && walk[k - 1] in walk;
      node.prev := head.prev;
      node.prev.next := node;
      node.next := head;
      head.prev := node;
      count := count + 1;
      nodes := nodes + [node];
      Splice(walk, k, node, Walk());
      RingWith(walk, k, node);
      assert Walk() == walk[..k] + [node] + walk[k..];
    }

    /** The two assignments that take `nodes[i]` out of the ring. */
    method Unlink(node: Node, ghost i: nat)
      requires Valid() && i < |nodes| && nodes[i] == node
      modifies this, Walk()
      ensures Valid() && nodes == old(nodes[..i] + nodes[i + 1..])
      ensures forall n :: n in old(nodes) ==> n.data == old(n.data)
    {
      ghost var walk := Walk();
      WalkWithout(head, nodes, i);
      Neighbours(walk, i + 1);
      RingWithout(walk, i + 1);
      node.prev.next := node.next;
      node.next.prev := node.prev;
      count := count - 1;
      nodes := nodes[..i] + nodes[i + 1..];
      Shortcut(walk, i + 1, Walk());
    }

    method AddHead(data: int)
      requires Valid()
      modifies this, Walk()
      ensures Valid() && Contents() == [data] + old(Contents())
      ensures fresh(nodes[0]) && nodes[1..] == old(nodes)
    {
      var node := new Node(data);
      AttachHead(node);
    }

    method AddTail(data: int)
      requires Valid()
      modifies this, Walk()
      ensures Valid() && Contents() == old(Contents()) + [data]
      ensures nodes != [] && fresh(nodes[|nodes| - 1]) && nodes[..|nodes| - 1] == old(nodes)
    {
      var node := new Node(data);
      AttachTail(node);
    }

    /** The first node, or the list itself when there is none. */
    method First() returns (node: Node, found: bool)
      requires Valid()
      ensures found <==> nodes != []
      ensures found ==> node == nodes[0]
    {
      Neighbours(Walk(), 0);
      if nodes != [] { Apart(Walk(), 0, 1); }
      node := head.next;
      found := node != head;
    }

    method Last() returns (node: Node, found: bool)
      requires Valid()
      ensures found <==> nodes != []
      ensures found ==> node == nodes[|nodes| - 1]
    {
      Neighbours(Walk(), |nodes| + 1);
      if nodes != [] { Apart(Walk(), 0, |nodes|); }
      node := head.prev;
      found := node != head;
    }

    method PeekHead() returns (data: Option<int>)
      requires Valid()
      ensures data == if Contents() == [] then None else Some(Contents()[0])
    {
      var node, found := First();
      data := if found then Some(node.data) else None;
    }

    method PeekTail() returns (data: Option<int>)
      requires Valid()
      ensures data == if Contents() == [] then None else Some(Contents()[|Contents()| - 1])
    {
      var node, found := Last();
      data := if found then Some(node.data) else None;
    }

    method DetachHead() returns (data: Option<int>)
      requires Valid()
      modifies this, Walk()
      ensures Valid() && data == if old(nodes) == [] then None else Some(old(nodes[0].data))
      ensures nodes == if old(nodes) == [] then [] else old(nodes)[1..]
      ensures Contents() == if old(nodes) == [] then [] else old(Contents())[1..]
    {
      var node, found := First();
      if !found {
        return None;
      }
      Unlink(node, 0);
      data := Some(node.data);
    }

    method DetachTail() returns (data: Option<int>)
      requires Valid()
      modifies this, Walk()
      ensures Valid() && data == if old(nodes) == [] then None else Some(old(nodes[|nodes| - 1].data))
      ensures nodes == if old(nodes) == [] then [] else old(nodes)[..|old(nodes)| - 1]
      ensures Contents() == if old(nodes) == [] then [] else old(Contents())[..|old(nodes)| - 1]
    {
      var node, found := Last();
      if !found {
        return None;
      }
      Unlink(node, |nodes| - 1);
      data := Some(node.data);
    }
  }

  /** The first place where `x` occurs in `s`, or its length. */
  function IndexOf(s: seq<int>, x: int): (i: nat)
    ensures i <= |s|
    ensures i < |s| ==> s[i] == x
    ensures forall j :: 0 <= j < i ==> s[j] != x
    ensures i == |s| <==> x !in s
  {
    if s == [] then 0 else if s[0] == x then 0 else 1 + IndexOf(s[1..], x)
  }

  /** `s` without the first occurrence of `x`. */
  function Without(s: seq<int>, x: int): seq<int> {
    var i := IndexOf(s, x);
    if i == |s| then s else s[..i] + s[i + 1..]
  }

  // ---- lists without repetition

  lemma WithoutDistinct(s: seq<int>, x: int)
    requires Distinct(s)
    ensures Distinct(Without(s, x))
    ensures forall y :: y in Without(s, x) <==> y in s && y != x
    ensures x in s ==> |Without(s, x)| == |s| - 1
  {
    var i := IndexOf(s, x);
    if i < |s| {
      var t := Without(s, x);
      forall y | y in s && y != x ensures y in t {
        var j :| 0 <= j < |s| && s[j] == y;
        assert t[if j < i then j else j - 1] == y;
      }
    }
  }

  /** Detach the first node that carries `data`; false is the source's -1. */
  method Detach(list: List, data: int) returns (found: bool)
    requires list.Valid()
    modifies list, list.Walk()
    ensures list.Valid()
    ensures found <==> data in old(list.Contents())
    ensures list.Contents() == Without(old(list.Contents()), data)
  {
    var node, at := Find(list, data);
    found := node != list.head;
    if found {
      list.Unlink(node, at);
    }
  }

  /** The search loop: the first node that carries `data`, or the list's own head. */
  method Find(list: List, data: int) returns (node: Node, ghost at: nat)
    requires list.Valid()
    ensures at == IndexOf(list.Contents(), data)
    ensures var k := IndexOf(list.Contents(), data);
            if k < |list.nodes| then node == list.nodes[k] && node != list.head else node == list.head
  {
    ghost var s := list.Contents();
    at := 0;
    Neighbours(list.Walk(), 0);
    node := list.head.next;
    while node != list.head
      invariant 0 <= at <= |s|
      invariant node == if at < |s| then list.nodes[at] else list.head
      invariant forall j :: 0 <= j < at ==> s[j] != data
      decreases |s| - at
    {
      if node.data == data {
        IndexIs(s, data, at);
        HeadApart(list, at);
        return;
      }
      Neighbours(list.Walk(), at + 1);
      node := node.next;
      at := at + 1;
    }
    EndApart(list, at);
    IndexIs(s, data, at);
  }

  lemma HeadApart(list: List, i: nat)
    requires list.Valid() && i < |list.nodes|
    ensures list.nodes[i] != list.head
  {
    Apart(list.Walk(), 0, i + 1);
  }

  lemma EndApart(list: List, i: nat)
    requires list.Valid() && i <= |list.nodes|
    requires (if i < |list.nodes| then list.nodes[i] else list.head) == list.head
    ensures i == |list.nodes|
  {
    if i < |list.nodes| {
      HeadApart(list, i);
    }
  }

  lemma IndexIs(s: seq<int>, x: int, i: nat)
    requires i <= |s| && (forall j :: 0 <= j < i ==> s[j] != x) && (i < |s| ==> s[i] == x)
    ensures i == IndexOf(s, x)
  {
  }
}
