/** The shared queue of outgoing messages as a value: one list for all connections, from whose
    middle each connection's sender takes its own oldest message. */
module MessageQueue {

  datatype Msg = Msg(id: string, len: int, data: string, conn: int)

  /** The position of connection c's oldest message, or the length of the queue. */
  function FirstFor(q: seq<Msg>, c: int): (k: nat)
    ensures k <= |q|
    ensures k < |q| ==> q[k].conn == c
    ensures forall i :: 0 <= i < k ==> q[i].conn != c
  {
    if q == [] || q[0].conn == c then 0 else 1 + FirstFor(q[1..], c)
  }

  /** The match is the tail of the queue but not its head: the one case in which the pop of
      `task.c` hands the node out without unlinking it. */
  predicate TakesTail(q: seq<Msg>, c: int) {
    0 < FirstFor(q, c) && FirstFor(q, c) + 1 == |q|
  }

  function WithoutFirst(q: seq<Msg>, c: int): seq<Msg> {
    var k := FirstFor(q, c);
    if k < |q| then q[..k] + q[k + 1..] else q
  }

  /** The queue after a pop by the literal code. */
  function AfterPop(q: seq<Msg>, c: int): seq<Msg> {
    if TakesTail(q, c) then q else WithoutFirst(q, c)
  }

  /** The messages of connection c, in queue order. */
  function For(q: seq<Msg>, c: int): seq<Msg> {
    if q == [] then []
    else if q[0].conn == c then [q[0]] + For(q[1..], c)
    else For(q[1..], c)
  }

  lemma {:induction false} ForOfConcat(q: seq<Msg>, r: seq<Msg>, c: int)
    ensures For(q + r, c) == For(q, c) + For(r, c)
  {
    if q == [] {
      assert q + r == r;
    } else {
      assert (q + r)[1..] == q[1..] + r;
      ForOfConcat(q[1..], r, c);
    }
  }

  lemma {:induction false} ForOfOthers(q: seq<Msg>, c: int)
    requires forall i :: 0 <= i < |q| ==> q[i].conn != c
    ensures For(q, c) == []
  {
    if q != [] {
      ForOfOthers(q[1..], c);
    }
  }

  /** Taking c's first message takes the head of c's own sequence, and leaves the sequence of
      every other connection as it was. */
  lemma WithoutFirstPerConn(q: seq<Msg>, c: int, d: int)
    ensures FirstFor(q, c) < |q| <==> For(q, c) != []
    ensures For(q, c) != [] ==>
      q[FirstFor(q, c)] == For(q, c)[0] && For(WithoutFirst(q, c), c) == For(q, c)[1..]
    ensures For(q, c) == [] ==> WithoutFirst(q, c) == q
    ensures c != d ==> For(WithoutFirst(q, c), d) == For(q, d)
  {
    var k := FirstFor(q, c);
    ForOfOthers(q[..k], c);
    ForOfConcat(q[..k], q[k..], c);
    ForOfConcat(q[..k], q[k..], d);
    assert q == q[..k] + q[k..];
    if k < |q| {
      assert q[k..][1..] == q[k + 1..];
      ForOfConcat(q[..k], q[k + 1..], c);
      ForOfConcat(q[..k], q[k + 1..], d);
    }
  }
}
