/** The id list of `task.c` on the heap: `tsidque_t` nodes chained by `next`, relinked in place.
    Only the `next` chain is an invariant: removal leaves `prev` fields stale, and nothing reads them. */
module IdList {
  import opened Timeval
  import opened SessionTable
  import opened RoundRobin

  class IdNode {
    var id: string
    var conn: int
    var isExpired: bool
    var atime: TimeVal
    var etime: TimeVal
    var fn: int
    var param: int
    var prev: IdNode?
    var next: IdNode?

    constructor (id: string, conn: int, now: TimeVal, fn: int, param: int)
      ensures Value() == Fresh(id, conn, now, fn, param)
      ensures prev == null && next == null
    {
      this.id := id;
      this.conn := conn;
      this.isExpired := false;
      this.atime := now;
      this.etime := ExpiryOf(now);
      this.fn := fn;
      this.param := param;
      this.prev := null;
      this.next := null;
    }

    /** A refresh leaves id, connection and mark alone. */
    method Refresh(now: TimeVal, fn: int, param: int)
      modifies this`atime, this`etime, this`fn, this`param
      ensures Value() == Refreshed(old(Value()), now, fn, param)
    {
      atime := now;
      etime := TimeVal(now.sec + EXPIRY_SECS, now.usec);
      this.fn := fn;
      this.param := param;
    }

    /** The sweep's test of one node. */
    method MarkIfExpired(now: TimeVal)
      modifies this`isExpired
      ensures Value() == Marked(old(Value()), now)
    {
      if etime.sec < now.sec || (etime.sec == now.sec && etime.usec < now.usec) {
        isExpired := true;
      }
    }

    function Value(): Entry
      reads this
    {
      Entry(id, conn, isExpired, atime, etime, fn, param)
    }
  }

  /** What `lookup_ID_idq` copies out under the lock. */
  datatype Snapshot = Snapshot(id: string, expired: bool, fn: int, param: int)

  function SnapshotOf(e: Entry): Snapshot {
    Snapshot(e.id, e.expired, e.fn, e.param)
  }

  class IdTable {
    var head: IdNode?
    ghost var Nodes: seq<IdNode>

    ghost predicate Valid()
      reads this, Nodes
    {
      && head == (if Nodes == [] then null else Nodes[0])
      && (forall i {:trigger Nodes[i].next} :: 0 <= i < |Nodes| ==>
            Nodes[i].next == if i + 1 < |Nodes| then Nodes[i + 1] else null)
      && (forall i, j :: 0 <= i < j < |Nodes| ==> Nodes[i] != Nodes[j])
    }

    ghost function Entries(): (t: seq<Entry>)
      reads this, Nodes
      ensures |t| == |Nodes|
    {
      seq(|Nodes|, i requires 0 <= i < |Nodes| reads this, Nodes => Nodes[i].Value())
    }

    constructor ()
      ensures Valid() && Nodes == []
    {
      head := null;
      Nodes := [];
    }

    /** Finds the connection of a known id; the caller's `conn` keeps its value otherwise. */
    method IsPresent(tid: string, before: int) returns (rc: int, conn: int)
      requires Valid()
      ensures rc == if tid != "" && Present(Entries(), tid) then 1 else 0
      ensures conn == if rc == 1 then Entries()[IndexOf(Entries(), tid)].conn else before
    {
      conn := before;
      var temp := head;
      if head == null {
        return 0, conn;
      }
      if tid != "" {
        ghost var k := 0;
        while temp != null
          invariant 0 <= k <= |Nodes|
          invariant temp == if k < |Nodes| then Nodes[k] else null
          invariant k <= IndexOf(Entries(), tid)
          decreases |Nodes| - k
        {
          assert temp.Value() == Entries()[k];
          if temp.id == tid {
            return 1, temp.conn;
          }
          temp := temp.next;
          k := k + 1;
        }
      }
      return 0, conn;
    }

    method Lookup(tid: string, curr: TimeVal) returns (rc: int, elapsed: int, node: Snapshot)
      requires Valid()
      ensures rc == if tid != "" && Present(Entries(), tid) then 1 else 0
      ensures rc == 1 ==>
        var e := Entries()[IndexOf(Entries(), tid)];
        elapsed == ElapsedMsecs(curr, e.atime) && node == SnapshotOf(e)
      ensures rc == 0 ==> elapsed == 0
    {
      elapsed := 0;
      node := Snapshot("", false, 0, 0);
      var temp := head;
      if head == null {
        return 0, elapsed, node;
      }
      if tid != "" {
        ghost var k := 0;
        while temp != null
          invariant 0 <= k <= |Nodes|
          invariant temp == if k < |Nodes| then Nodes[k] else null
          invariant k <= IndexOf(Entries(), tid)
          decreases |Nodes| - k
        {
          assert temp.Value() == Entries()[k];
          if temp.id == tid {
            elapsed := (curr.sec - temp.atime.sec) * 1000 + TruncDiv(curr.usec - temp.atime.usec, 1000);
            node := Snapshot(temp.id, temp.isExpired, temp.fn, temp.param);
            return 1, elapsed, node;
          }
          temp := temp.next;
          k := k + 1;
        }
      }
      return 0, elapsed, node;
    }

    /** Returns 0 on an empty list, -1 when the id is missing, and the connection otherwise. */
    method Update(id: string, now: TimeVal, fn: int, param: int) returns (ret: int)
      requires Valid()
      modifies Nodes
      ensures Valid()
      ensures Entries() == Updated(old(Entries()), id, now, fn, param)
      ensures ret == if Nodes == [] then 0
                     else if Present(old(Entries()), id) then old(Entries())[IndexOf(old(Entries()), id)].conn
                     else -1
    {
      var temp := head;
      if head == null {
        return 0;
      }
      ghost var k := 0;
      while temp != null
        invariant 0 <= k <= |Nodes|
        invariant temp == if k < |Nodes| then Nodes[k] else null
        invariant k <= IndexOf(Entries(), id)
        invariant Valid() && Entries() == old(Entries())
        decreases |Nodes| - k
      {
        assert temp.Value() == Entries()[k];
        if id == temp.id {
          temp.Refresh(now, fn, param);
          assert Nodes[k].Value() == Refreshed(old(Entries())[k], now, fn, param);
          assert forall i :: 0 <= i < |Nodes| && i != k ==> Nodes[i].Value() == old(Entries())[i];
          return temp.conn;
        }
        temp := temp.next;
        k := k + 1;
      }
      return -1;
    }

    /** Appends an entry for the id on the next up peer; an empty id is refused. */
    method Add(tid: string, now: TimeVal, fn: int, param: int, balancer: Balancer, up: seq<bool>)
      returns (con: int)
      requires Valid()
      requires tid != "" ==> SomeUp(up) && balancer.cursor < |up|
      modifies this, Nodes, balancer
      ensures Valid()
      ensures forall n :: n in Nodes ==> n in old(Nodes) || fresh(n)
      ensures tid == "" ==>
        con == -1 && Entries() == old(Entries()) && balancer.cursor == old(balancer.cursor)
      ensures tid != "" ==>
        && con == Choose(up, old(balancer.cursor))
        && balancer.cursor == Succ(con, |up|)
        && Entries() == old(Entries()) + [Fresh(tid, con, now, fn, param)]
    {
      var trav := head;
      if tid == "" {
        return -1;
      }
      var temp := new IdNode(tid, 0, now, fn, param);
      ghost var probes;
      con, probes := balancer.Assign(up);
      temp.conn := con;
      if trav == null {
        head := temp;
        temp.prev := null;
        Nodes := [temp];
        return con;
      }
      ghost var k := 0;
      while trav.next != null
        invariant 0 <= k < |Nodes| && trav == Nodes[k]
        decreases |Nodes| - k
      {
        trav := trav.next;
        k := k + 1;
      }
      trav.next := temp;
      temp.prev := trav;
      Nodes := Nodes + [temp];
    }

    /** The sweep; `clock` holds the reading taken at each entry. */
    method ListExpired(clock: seq<TimeVal>)
      requires Valid() && |clock| == |Nodes|
      modifies Nodes
      ensures Valid()
      ensures Entries() == Swept(old(Entries()), clock)
    {
      var current := head;
      if current == null {
        return;
      }
      var k := 0;
      while current != null
        invariant 0 <= k <= |Nodes|
        invariant current == if k < |Nodes| then Nodes[k] else null
        invariant Valid()
        invariant forall i :: 0 <= i < k ==> Nodes[i].Value() == Marked(old(Entries())[i], clock[i])
        invariant forall i :: k <= i < |Nodes| ==> Nodes[i].Value() == old(Entries())[i]
        decreases |Nodes| - k
      {
        var now := clock[k];
        assert current.Value() == old(Entries())[k];
        current.MarkIfExpired(now);
        current := current.next;
        k := k + 1;
      }
    }

    /** Unlinks the first node holding the id; its successor's `prev` is left stale. */
    method Remove(tid: string)
      requires Valid()
      modifies this, Nodes
      ensures Valid()
      ensures Entries() == Removed(old(Entries()), tid)
      ensures forall n :: n in Nodes ==> n in old(Nodes)
    {
      var current := head;
      if current == null {
        return;
      }
      assert current.Value() == Entries()[0];
      if current.id == tid {
        head := head.next;
        Nodes := Nodes[1..];
        return;
      }
      ghost var k := 0;
      while current.next != null
        invariant 0 <= k < |Nodes| && current == Nodes[k]
        invariant k < IndexOf(Entries(), tid)
        invariant Valid() && Nodes == old(Nodes) && Entries() == old(Entries())
        decreases |Nodes| - k
      {
        assert current.next.Value() == Entries()[k + 1];
        if current.next.id == tid {
          UnlinkNext(current, k);
          return;
        }
        current := current.next;
        k := k + 1;
      }
    }

    method UnlinkNext(current: IdNode, ghost k: nat)
      requires Valid() && k + 1 < |Nodes| && current == Nodes[k]
      modifies this, current
      ensures Valid()
      ensures Nodes == old(Nodes[..k + 1] + Nodes[k + 2..])
      ensures Entries() == old(Entries())[..k + 1] + old(Entries())[k + 2..]
    {
      current.next := current.next.next;
      Nodes := Nodes[..k + 1] + Nodes[k + 2..];
    }
  }
}
