/** The push of an outgoing request: routing a message over the id table and the round-robin
    cursor into the message queue (`push_to_msgq`), on values and on the heap. */
module PushPath {
  import opened Timeval
  import opened SessionTable
  import opened MessageQueue
  import opened RoundRobin
  import opened IdList
  import opened MsgList

  /** The shared state guarded by the queue mutex. */
  datatype Store = Store(table: seq<Entry>, queue: seq<Msg>, cursor: nat)

  /** KEY_SIZE bounds the id, terminator included. */
  const MAX_ID := 255

  datatype Request = Request(id: string, len: int, data: string, fn: int, param: int)

  /** What every operation keeps: ids unique and nonempty, every connection one of the n peers. */
  ghost predicate Ok(s: Store, n: nat) {
    && UniqueIds(s.table) && NonEmptyIds(s.table)
    && (forall i :: 0 <= i < |s.table| ==> 0 <= s.table[i].conn < n)
    && (forall i :: 0 <= i < |s.queue| ==> 0 <= s.queue[i].conn < n)
    && s.cursor < n
  }

  /** Only a new id needs a peer that is up. */
  ghost predicate Routable(s: Store, id: string, up: seq<bool>) {
    s.cursor < |up| && (id != "" && !Present(s.table, id) ==> SomeUp(up))
  }

  /** The connection a push routes its message to. */
  ghost function Route(s: Store, id: string, up: seq<bool>): int
    requires id != "" && Routable(s, id, up)
  {
    if Present(s.table, id) then s.table[IndexOf(s.table, id)].conn else Choose(up, s.cursor)
  }

  ghost function Push(s: Store, r: Request, now: TimeVal, up: seq<bool>): Store
    requires Routable(s, r.id, up)
  {
    if r.id == "" then s
    else
      var conn := Route(s, r.id, up);
      var queue := s.queue + [Msg(r.id, r.len, r.data, conn)];
      if Present(s.table, r.id)
      then Store(Updated(s.table, r.id, now, r.fn, r.param), queue, s.cursor)
      else Store(s.table + [Fresh(r.id, conn, now, r.fn, r.param)], queue, Succ(Choose(up, s.cursor), |up|))
  }

  lemma PushKeepsOk(s: Store, r: Request, now: TimeVal, up: seq<bool>)
    requires Ok(s, |up|) && Routable(s, r.id, up)
    ensures Ok(Push(s, r, now, up), |up|)
  {
    if r.id != "" {
      if Present(s.table, r.id) {
        UpdateRefinesMap(s.table, r.id, now, r.fn, r.param);
      } else {
        AddRefinesMap(s.table, Fresh(r.id, Route(s, r.id, up), now, r.fn, r.param));
      }
    }
  }

  /** A push of the empty id changes nothing. Any other, known or new, queues exactly one message behind
      the others, as it was given, on the connection that the id's entry has afterwards; the entry is the
      created or the refreshed one, and no other id's entry changes. */
  lemma PushQueuesMessage(s: Store, r: Request, now: TimeVal, up: seq<bool>)
    requires Ok(s, |up|) && Routable(s, r.id, up)
    ensures r.id == "" ==> Push(s, r, now, up) == s
    ensures r.id != "" ==>
      var t := Push(s, r, now, up);
      && r.id in AsMap(t.table)
      && var entry := AsMap(t.table)[r.id];
         && t.queue == s.queue + [Msg(r.id, r.len, r.data, entry.conn)]
         && entry == (if r.id in AsMap(s.table) then Refreshed(AsMap(s.table)[r.id], now, r.fn, r.param)
                      else Fresh(r.id, Choose(up, s.cursor), now, r.fn, r.param))
         && AsMap(t.table) == AsMap(s.table)[r.id := entry]
    ensures Push(s, r, now, up).cursor
         == if r.id == "" || Present(s.table, r.id) then s.cursor else Succ(Choose(up, s.cursor), |up|)
  {
    if r.id != "" {
      PresentIsMembership(s.table, r.id);
      if Present(s.table, r.id) {
        UpdateRefinesMap(s.table, r.id, now, r.fn, r.param);
      } else {
        AddRefinesMap(s.table, Fresh(r.id, Choose(up, s.cursor), now, r.fn, r.param));
      }
    }
  }

  lemma PopKeepsOk(s: Store, conn: int, n: nat)
    requires Ok(s, n)
    ensures Ok(s.(queue := AfterPop(s.queue, conn)), n)
    ensures Ok(s.(queue := WithoutFirst(s.queue, conn)), n)
  {
  }

  lemma SweepKeepsOk(s: Store, clock: seq<TimeVal>, n: nat)
    requires Ok(s, n) && |clock| == |s.table|
    ensures Ok(s.(table := Swept(s.table, clock)), n)
  {
    SweptUnique(s.table, clock);
  }

  lemma RemoveKeepsOk(s: Store, id: string, n: nat)
    requires Ok(s, n)
    ensures Ok(s.(table := Removed(s.table, id)), n)
  {
    RemoveRefinesMap(s.table, id);
  }

  class Session {
    const numPeers: nat
    const ids: IdTable
    const msgs: MsgQueue
    const balancer: Balancer

    constructor (numPeers: nat)
      requires 0 < numPeers
      ensures Valid() && fresh(ids) && fresh(msgs) && fresh(balancer)
      ensures this.numPeers == numPeers
      ensures State() == Store([], [], 0)
    {
      this.numPeers := numPeers;
      this.ids := new IdTable();
      this.msgs := new MsgQueue();
      this.balancer := new Balancer();
    }

    ghost predicate Valid()
      reads ids, ids.Nodes, msgs, msgs.Nodes, balancer
    {
      ids.Valid() && msgs.Valid() && Ok(State(), numPeers)
    }

    ghost function State(): Store
      reads ids, ids.Nodes, msgs, msgs.Nodes, balancer
    {
      Store(ids.Entries(), msgs.Contents(), balancer.cursor)
    }

    /** The objects an operation may change. */
    ghost function Footprint(): set<object>
      reads ids, msgs
    {
      {ids, msgs, balancer} + (set n | n in ids.Nodes) + (set n | n in msgs.Nodes)
    }

    /** `push_to_msgq`: an empty id is dropped; any other message is tagged and appended. */
    method PushToMsgq(tid: string, len: int, data: string, now: TimeVal, fn: int, param: int, up: seq<bool>)
      requires Valid() && |tid| <= MAX_ID
      requires |up| == numPeers && Routable(State(), tid, up)
      modifies ids, ids.Nodes, msgs, msgs.Nodes, balancer
      ensures Valid()
      ensures State() == Push(old(State()), Request(tid, len, data, fn, param), now, up)
      ensures forall n :: n in ids.Nodes ==> n in old(ids.Nodes) || fresh(n)
      ensures forall n :: n in msgs.Nodes ==> n in old(msgs.Nodes) || fresh(n)
    {
      if tid == "" {
        return;
      }
      ghost var before, request := State(), Request(tid, len, data, fn, param);
      PushKeepsOk(before, request, now, up);
      var conn := ConnectionFor(tid, -1, now, fn, param, up);
      assert conn == Route(before, tid, up);
      Enqueue(tid, len, data, conn);
      assert State() == Push(before, request, now, up);
    }

    /** `pop_from_msgq` on the session's queue. */
    method PopFromMsgq(con: int) returns (node: MsgNode?)
      requires Valid()
      modifies msgs, msgs.Nodes
      ensures State() == old(State()).(queue := AfterPop(old(State()).queue, con))
      ensures node == null <==> FirstFor(old(State()).queue, con) == |old(State()).queue|
      ensures node != null ==> node.Value() == old(State()).queue[FirstFor(old(State()).queue, con)]
      ensures Valid() <==> !TakesTail(old(State()).queue, con)
      ensures msgs.NextChain() && (node != null ==> (node in msgs.Nodes <==> TakesTail(old(State()).queue, con)))
      ensures forall n :: n in msgs.Nodes ==> n in old(msgs.Nodes)
    {
      node := msgs.Pop(con);
      PopKeepsOk(old(State()), con, numPeers);
    }

    /** `list_expired_idq` on the session's table. */
    method Sweep(clock: seq<TimeVal>)
      requires Valid() && |clock| == |State().table|
      modifies ids, ids.Nodes
      ensures Valid() && State() == old(State()).(table := Swept(old(State()).table, clock))
      ensures ids.Nodes == old(ids.Nodes)
    {
      ids.ListExpired(clock);
      SweepKeepsOk(old(State()), clock, numPeers);
    }

    /** `rem_id` on the session's table. */
    method RemId(tid: string)
      requires Valid()
      modifies ids, ids.Nodes
      ensures Valid() && State() == old(State()).(table := Removed(old(State()).table, tid))
      ensures forall n :: n in ids.Nodes ==> n in old(ids.Nodes)
    {
      ids.Remove(tid);
      RemoveKeepsOk(old(State()), tid, numPeers);
    }

    /** The queue's part of a push. */
    method Enqueue(tid: string, len: int, data: string, conn: int)
      requires msgs.Valid()
      modifies msgs, msgs.Nodes
      ensures msgs.Valid()
      ensures msgs.Contents() == old(msgs.Contents()) + [Msg(tid, len, data, conn)]
      ensures forall n :: n in msgs.Nodes ==> n in old(msgs.Nodes) || fresh(n)
    {
      var temp := new MsgNode(tid, len, data, conn);
      msgs.Append(temp);
    }

    /** The table's part of a push. The jump back to adding an entry after a failed refresh is dead
        code: refreshing a present id returns its connection, which is never -1. */
    method ConnectionFor(tid: string, before: int, now: TimeVal, fn: int, param: int, up: seq<bool>)
      returns (conn: int)
      requires ids.Valid() && tid != ""
      requires forall i :: 0 <= i < |ids.Entries()| ==> 0 <= ids.Entries()[i].conn
      requires balancer.cursor < |up| && (!Present(ids.Entries(), tid) ==> SomeUp(up))
      modifies ids, ids.Nodes, balancer
      ensures ids.Valid()
      ensures Present(old(ids.Entries()), tid) ==>
        && conn == old(ids.Entries())[IndexOf(old(ids.Entries()), tid)].conn
        && ids.Entries() == Updated(old(ids.Entries()), tid, now, fn, param)
        && balancer.cursor == old(balancer.cursor)
      ensures !Present(old(ids.Entries()), tid) ==>
        && conn == Choose(up, old(balancer.cursor))
        && ids.Entries() == old(ids.Entries()) + [Fresh(tid, conn, now, fn, param)]
        && balancer.cursor == Succ(Choose(up, old(balancer.cursor)), |up|)
      ensures forall n :: n in ids.Nodes ==> n in old(ids.Nodes) || fresh(n)
    {
      var rc;
      rc, conn := ids.IsPresent(tid, before);
      if rc == 1 {
        var ret := ids.Update(tid, now, fn, param);
        if ret == -1 {
          assert false;
        }
      } else {
        conn := ids.Add(tid, now, fn, param, balancer, up);
      }
    }
  }
}
