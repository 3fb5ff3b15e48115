/**
 * The chain of waiting messages of a port (blt/kernel/port.c): `first` and `last`
 * pointers into singly linked messages, and a count.  It is the queue that the
 * port table of module Port works with.
 */
module MessageChain {
  import opened Port

  class Node {
    var next: Node?
    const m: Message

    constructor (m: Message)
      ensures this.m == m && next == null
    {
      this.m, next := m, null;
    }
  }

  class Chain {
    var first: Node?
    var last: Node?
    var msgcount: nat
    ghost var nodes: seq<Node>

    ghost predicate Valid()
      reads this, nodes
    {
      && msgcount == |nodes|
      && first == (if nodes == [] then null else nodes[0])
      && last == (if nodes == [] then null else nodes[|nodes| - 1])
      && (forall i, j :: 0 <= i < j < |nodes| ==> nodes[i] != nodes[j])
      && (forall i {:trigger nodes[i].next} :: 0 <= i < |nodes| ==>
        nodes[i].next == if i + 1 < |nodes| then nodes[i + 1] else null)
    }

    /** The waiting messages, oldest first. */
    ghost function Contents(): (s: seq<Message>)
      reads this
      ensures |s| == |nodes|
    {
      seq(|nodes|, i requires 0 <= i < |nodes| reads this => nodes[i].m)
    }

    constructor ()
      ensures Valid() && Contents() == []
    {
      first, last, msgcount, nodes := null, null, 0, [];
    }

    /** A new message goes to the end, whether or not the chain is empty. */
    method Append(m: Message)
      requires Valid()
      modifies this, nodes
      ensures Valid() && Contents() == old(Contents()) + [m] && fresh(set n | n in nodes && n !in old(nodes))
      ensures msgcount == old(msgcount) + 1
    {
      var n := new Node(m);
      if last != null {
        last.next := n;
      } else {
        first := n;
      }
      last := n;
      msgcount := msgcount + 1;
      nodes := nodes + [n];
    }

    /** The oldest message leaves; the last one leaving empties both pointers. */
    method RemoveFirst() returns (m: Message)
      requires Valid() && Contents() != []
      modifies this
      ensures Valid() && [m] + Contents() == old(Contents()) && nodes == old(nodes)[1..]
      ensures msgcount == old(msgcount) - 1
    {
      m := first.m;
      first := first.next;
      if first == null {
        last := null;
      }
      msgcount := msgcount - 1;
      nodes := nodes[1..];
    }
  }

  /** The chain of a port holds what its record in the port table says. */
  ghost predicate Holds(c: Chain, q: Port)
    reads c, c.nodes
  {
    c.Valid() && c.Contents() == q.msgs
  }

  lemma SendToMessages(q: Port, t: TaskId, m: Message, fits: bool)
    ensures SendTo(q, t, m, fits).msgs == if |q.msgs| < MAX_MSGCOUNT && fits then q.msgs + [m] else q.msgs
  {
  }

  lemma RecvFromMessages(q: Port, t: TaskId)
    ensures RecvFrom(q, t).msgs == if q.msgs == [] then [] else q.msgs[1..]
  {
  }

  /** What a send does to the chain, by the count it keeps, is what the port table's step does to the queue. */
  method Send(c: Chain, ghost q: Port, ghost t: TaskId, m: Message, fits: bool)
    requires Holds(c, q)
    modifies c, c.nodes
    ensures Holds(c, SendTo(q, t, m, fits)) && fresh(set n | n in c.nodes && n !in old(c.nodes))
  {
    hide SendTo;
    SendToMessages(q, t, m, fits);
    assert c.msgcount == |c.Contents()|;
    if c.msgcount < MAX_MSGCOUNT && fits {
      c.Append(m);
    }
  }

  /** And so is what a receive does: it takes the message that the table says, if any. */
  method Receive(c: Chain, ghost q: Port, ghost t: TaskId) returns (taken: seq<Message>)
    requires Holds(c, q)
    modifies c
    ensures Holds(c, RecvFrom(q, t)) && taken == if q.msgs == [] then [] else [q.msgs[0]]
  {
    hide RecvFrom;
    RecvFromMessages(q, t);
    assert c.msgcount == |c.Contents()|;
    taken := [];
    if c.msgcount != 0 {
      var m := c.RemoveFirst();
      taken := [m];
      assert c.Contents() == q.msgs[1..];
    }
  }
}
