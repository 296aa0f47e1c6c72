/** The message queue of `task.c` on the heap: a doubly linked list of `msgque_t` nodes. */
module MsgList {
  import opened MessageQueue

  class MsgNode {
    var data: string
    var id: string
    var len: int
    var conn: int
    var prev: MsgNode?
    var next: MsgNode?

    constructor (id: string, len: int, data: string, conn: int)
      ensures Value() == Msg(id, len, data, conn)
      ensures prev == null && next == null
    {
      this.data := data;
      this.id := id;
      this.len := len;
      this.conn := conn;
      this.prev := null;
      this.next := null;
    }

    function Value(): Msg
      reads this
    {
      Msg(id, len, data, conn)
    }
  }

  class MsgQueue {
    var head: MsgNode?
    ghost var Nodes: seq<MsgNode>

    /** The nodes met from the head along `next`; they are pairwise distinct, so the chain ends. */
    ghost predicate NextChain()
      reads this, Nodes
    {
      && head == (if Nodes == [] then null else Nodes[0])
      && (forall i {:trigger Nodes[i].next} :: 0 <= i < |Nodes| ==>
            Nodes[i].next == if i + 1 < |Nodes| then Nodes[i + 1] else null)
      && (forall i, j :: 0 <= i < j < |Nodes| ==> Nodes[i] != Nodes[j])
    }

    /** `prev` is the inverse of `next`, and the head's is null. */
    ghost predicate PrevInverse()
      reads this, Nodes
    {
      forall i {:trigger Nodes[i].prev} :: 0 <= i < |Nodes| ==>
        Nodes[i].prev == if i == 0 then null else Nodes[i - 1]
    }

    ghost predicate Valid()
      reads this, Nodes
    {
      NextChain() && PrevInverse()
    }

    ghost function Contents(): (q: seq<Msg>)
      reads this, Nodes
      ensures |q| == |Nodes|
    {
      seq(|Nodes|, i requires 0 <= i < |Nodes| reads this, Nodes => Nodes[i].Value())
    }

    constructor ()
      ensures Valid() && Nodes == []
    {
      head := null;
      Nodes := [];
    }

    /** The tail walk and relinking at the end of `push_to_msgq`. */
    method Append(temp: MsgNode)
      requires Valid() && temp !in Nodes && temp.prev == null && temp.next == null
      modifies this, Nodes, temp
      ensures Valid() && Nodes == old(Nodes) + [temp]
      ensures Contents() == old(Contents()) + [old(temp.Value())]
    {
      var trav := head;
      if trav == null {
        head := temp;
        temp.prev := null;
        Nodes := [temp];
        return;
      }
      ghost var k := 0;
      while trav.next != null
        invariant 0 <= k < |Nodes| && trav == Nodes[k]
        decreases |Nodes| - k
      {
        trav := trav.next;
        k := k + 1;
      }
      trav.next := temp;
      temp.prev := trav;
      Nodes := Nodes + [temp];
    }

    /** `pop_from_msgq` as written. It returns the first node of the connection, detached. The list
        stays well formed, and the node leaves it, exactly when the match is not a tail behind the head. */
    method Pop(con: int) returns (node: MsgNode?)
      requires Valid()
      modifies this, Nodes
      ensures node == null <==> FirstFor(old(Contents()), con) == |old(Nodes)|
      ensures node != null ==>
        && node == old(Nodes)[FirstFor(old(Contents()), con)]
        && node.Value() == old(Contents())[FirstFor(old(Contents()), con)]
        && node.next == null && node.prev == null
        && (node in Nodes <==> TakesTail(old(Contents()), con))
      ensures NextChain() && Contents() == AfterPop(old(Contents()), con)
      ensures Valid() <==> !TakesTail(old(Contents()), con)
      ensures forall n :: n in Nodes ==> n in old(Nodes)
    {
      var temp := head;
      node := null;
      if temp == null {
        return;
      }
      assert temp.Value() == Contents()[0];
      if temp.conn == con {
        TakeHead();
        return temp;
      }
      ghost var k := 0;
      while temp != null
        invariant 0 <= k <= |Nodes|
        invariant temp == if k < |Nodes| then Nodes[k] else null
        invariant k <= FirstFor(Contents(), con)
        decreases |Nodes| - k
      {
        assert temp.Value() == Contents()[k];
        if temp.conn == con {
          assert FirstFor(Contents(), con) == k > 0;
          if temp.next != null {
            TakeMiddle(temp, k);
          } else {
            DetachTail(temp);
          }
          return temp;
        }
        temp := temp.next;
        k := k + 1;
      }
    }

    /** The same routine with the predecessor's link updated for a matching tail too. */
    method PopRepaired(con: int) returns (node: MsgNode?)
      requires Valid()
      modifies this, Nodes
      ensures Valid()
      ensures node == null <==> FirstFor(old(Contents()), con) == |old(Nodes)|
      ensures node != null ==>
        && node == old(Nodes)[FirstFor(old(Contents()), con)]
        && node.Value() == old(Contents())[FirstFor(old(Contents()), con)]
        && node.next == null && node.prev == null && node !in Nodes
      ensures Contents() == WithoutFirst(old(Contents()), con)
      ensures forall n :: n in Nodes ==> n in old(Nodes)
    {
      var temp := head;
      node := null;
      if temp == null {
        return;
      }
      assert temp.Value() == Contents()[0];
      if temp.conn == con {
        TakeHead();
        return temp;
      }
      ghost var k := 0;
      while temp != null
        invariant 0 <= k <= |Nodes|
        invariant temp == if k < |Nodes| then Nodes[k] else null
        invariant k <= FirstFor(Contents(), con)
        decreases |Nodes| - k
      {
        assert temp.Value() == Contents()[k];
        if temp.conn == con {
          assert FirstFor(Contents(), con) == k > 0;
          if temp.next != null {
            TakeMiddle(temp, k);
          } else {
            TakeTail(temp);
          }
          return temp;
        }
        temp := temp.next;
        k := k + 1;
      }
    }

    /** The branch for a matching head. */
    method TakeHead()
      requires Valid() && head != null
      modifies this, Nodes
      ensures Valid() && Nodes == old(Nodes)[1..] && Contents() == old(Contents())[1..]
      ensures old(head).Value() == old(Contents())[0]
      ensures old(head).next == null && old(head).prev == null && old(head) !in Nodes
    {
      var temp := head;
      head := head.next;
      if head != null {
        head.prev := null;
      }
      Nodes := Nodes[1..];
      temp.next := null;
      temp.prev := null;
    }

    /** The branch for a match with a predecessor and a successor: both links are updated. */
    method TakeMiddle(temp: MsgNode, ghost k: nat)
      requires Valid() && 0 < k && k + 1 < |Nodes| && temp == Nodes[k]
      modifies this, Nodes
      ensures Valid() && Nodes == old(Nodes)[..k] + old(Nodes)[k + 1..]
      ensures Contents() == old(Contents())[..k] + old(Contents())[k + 1..]
      ensures temp.Value() == old(Contents())[k]
      ensures temp.next == null && temp.prev == null && temp !in Nodes
    {
      assert temp.Value() == Contents()[k];
      temp.next.prev := temp.prev;
      temp.prev.next := temp.next;
      Nodes := Nodes[..k] + Nodes[k + 1..];
      temp.next := null;
      temp.prev := null;
    }

    /** The branch for a matching tail: no neighbour's link is updated, so the tail stays in the
        chain with its own `prev` gone. */
    method DetachTail(temp: MsgNode)
      requires Valid() && 1 < |Nodes| && temp == Nodes[|Nodes| - 1]
      modifies temp
      ensures NextChain() && !PrevInverse() && Contents() == old(Contents())
      ensures temp.Value() == old(Contents())[|Nodes| - 1]
      ensures temp.next == null && temp.prev == null
    {
      assert temp.Value() == Contents()[|Nodes| - 1];
      temp.next := null;
      temp.prev := null;
      assert Nodes[|Nodes| - 1].prev == null;
    }

    method TakeTail(temp: MsgNode)
      requires Valid() && 1 < |Nodes| && temp == Nodes[|Nodes| - 1]
      modifies this, Nodes
      ensures Valid() && Nodes == old(Nodes)[..|old(Nodes)| - 1]
      ensures Contents() == old(Contents())[..|old(Nodes)| - 1]
      ensures temp.Value() == old(Contents())[|old(Nodes)| - 1]
      ensures temp.next == null && temp.prev == null && temp !in Nodes
    {
      assert temp.Value() == Contents()[|Nodes| - 1];
      assert temp.prev == Nodes[|Nodes| - 2];
      temp.prev.next := null;
      Nodes := Nodes[..|Nodes| - 1];
      temp.next := null;
      temp.prev := null;
    }
  }
}
