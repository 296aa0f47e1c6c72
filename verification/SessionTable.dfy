/** The table of live transaction ids as a value: what each routine of `task.c` does to the list
    of entries, and the finite map that list stands for. */
module SessionTable {
  import opened Timeval

  /** One `tsidque_t`. The callback function and its parameter are separate pointers; both are
      opaque handles here. */
  datatype Entry = Entry(id: string, conn: int, expired: bool, atime: TimeVal, etime: TimeVal,
                         fn: int, param: int)

  function Fresh(id: string, conn: int, now: TimeVal, fn: int, param: int): Entry {
    Entry(id, conn, false, now, ExpiryOf(now), fn, param)
  }

  /** The first position holding the id, or the length of the table. */
  function IndexOf(t: seq<Entry>, id: string): (k: nat)
    ensures k <= |t|
    ensures k < |t| ==> t[k].id == id
    ensures forall i :: 0 <= i < k ==> t[i].id != id
  {
    if t == [] || t[0].id == id then 0 else 1 + IndexOf(t[1..], id)
  }

  predicate Present(t: seq<Entry>, id: string) {
    IndexOf(t, id) < |t|
  }

  /** A push of a known id refreshes times and callback; the `expired` mark stays as it was. */
  function Refreshed(e: Entry, now: TimeVal, fn: int, param: int): Entry {
    e.(atime := now, etime := ExpiryOf(now), fn := fn, param := param)
  }

  function Updated(t: seq<Entry>, id: string, now: TimeVal, fn: int, param: int): (r: seq<Entry>)
    ensures |r| == |t|
  {
    var k := IndexOf(t, id);
    if k < |t| then t[k := Refreshed(t[k], now, fn, param)] else t
  }

  function Removed(t: seq<Entry>, id: string): seq<Entry> {
    var k := IndexOf(t, id);
    if k < |t| then t[..k] + t[k + 1..] else t
  }

  function Marked(e: Entry, now: TimeVal): Entry {
    if Before(e.etime, now) then e.(expired := true) else e
  }

  /** The sweep reads the clock once per entry. */
  function Swept(t: seq<Entry>, clock: seq<TimeVal>): (r: seq<Entry>)
    requires |clock| == |t|
    ensures |r| == |t|
  {
    seq(|t|, i requires 0 <= i < |t| => Marked(t[i], clock[i]))
  }

  ghost predicate UniqueIds(t: seq<Entry>) {
    forall i, j :: 0 <= i < j < |t| ==> t[i].id != t[j].id
  }

  ghost predicate NonEmptyIds(t: seq<Entry>) {
    forall i :: 0 <= i < |t| ==> t[i].id != ""
  }

  ghost function Ids(t: seq<Entry>): set<string> {
    set i | 0 <= i < |t| :: t[i].id
  }

  /** The map the list stands for: an id is mapped to the entry a lookup would find. */
  ghost function AsMap(t: seq<Entry>): map<string, Entry> {
    map id | id in Ids(t) :: LookupEntry(t, id)
  }

  ghost function LookupEntry(t: seq<Entry>, id: string): Entry
    requires id in Ids(t)
  {
    t[IndexOf(t, id)]
  }

  lemma PresentIsMembership(t: seq<Entry>, id: string)
    ensures Present(t, id) <==> id in Ids(t)
    ensures Present(t, id) ==> AsMap(t)[id] == t[IndexOf(t, id)]
  {
  }

  lemma UniqueIndex(t: seq<Entry>, i: nat)
    requires UniqueIds(t) && i < |t|
    ensures IndexOf(t, t[i].id) == i
    ensures t[i].id in AsMap(t) && AsMap(t)[t[i].id] == t[i]
  {
    assert t[i].id in Ids(t);
  }

  /** Two duplicate-free tables whose entries agree as sets stand for the same map. */
  lemma AsMapByEntries(t: seq<Entry>, m: map<string, Entry>)
    requires UniqueIds(t)
    requires forall i :: 0 <= i < |t| ==> t[i].id in m && m[t[i].id] == t[i]
    requires forall id :: id in m ==> id in Ids(t)
    ensures AsMap(t) == m
  {
    forall id | id in AsMap(t)
      ensures id in m && m[id] == AsMap(t)[id]
    {
      PresentIsMembership(t, id);
    }
  }

  /** Adding an entry for an absent id is map insertion. */
  lemma AddRefinesMap(t: seq<Entry>, e: Entry)
    requires UniqueIds(t) && !Present(t, e.id)
    ensures UniqueIds(t + [e])
    ensures AsMap(t + [e]) == AsMap(t)[e.id := e]
  {
    var r := t + [e];
    PresentIsMembership(t, e.id);
    forall i | 0 <= i < |r|
      ensures r[i].id in AsMap(t)[e.id := e] && AsMap(t)[e.id := e][r[i].id] == r[i]
    {
      if i < |t| {
        UniqueIndex(t, i);
      }
    }
    forall id | id in AsMap(t)[e.id := e]
      ensures id in Ids(r)
    {
      if id == e.id {
        assert r[|t|].id == id;
      } else {
        var i :| 0 <= i < |t| && t[i].id == id;
        assert r[i].id == id;
      }
    }
    AsMapByEntries(r, AsMap(t)[e.id := e]);
  }

  /** Refreshing a present id is map update, and touches no other id. */
  lemma UpdateRefinesMap(t: seq<Entry>, id: string, now: TimeVal, fn: int, param: int)
    requires UniqueIds(t) && Present(t, id)
    ensures UniqueIds(Updated(t, id, now, fn, param))
    ensures id in AsMap(t)
    ensures AsMap(Updated(t, id, now, fn, param))
         == AsMap(t)[id := Refreshed(AsMap(t)[id], now, fn, param)]
  {
    PresentIsMembership(t, id);
    var k := IndexOf(t, id);
    var r := Updated(t, id, now, fn, param);
    var m := AsMap(t)[id := Refreshed(AsMap(t)[id], now, fn, param)];
    forall i | 0 <= i < |r|
      ensures r[i].id == t[i].id && r[i].id in m && m[r[i].id] == r[i]
    {
      UniqueIndex(t, i);
    }
    forall x | x in m
      ensures x in Ids(r)
    {
      var i :| 0 <= i < |t| && t[i].id == x;
      assert r[i].id == x;
    }
    AsMapByEntries(r, m);
  }

  lemma RemovedEntries(t: seq<Entry>, id: string)
    requires UniqueIds(t)
    ensures UniqueIds(Removed(t, id))
    ensures Ids(Removed(t, id)) == Ids(t) - {id}
    ensures forall i :: 0 <= i < |Removed(t, id)| ==> Removed(t, id)[i] in t
  {
    var k := IndexOf(t, id);
    var r := Removed(t, id);
    if k < |t| {
      forall x | x in Ids(t) - {id}
        ensures x in Ids(r)
      {
        var i :| 0 <= i < |t| && t[i].id == x;
        assert r[if i < k then i else i - 1].id == x;
      }
      forall i | 0 <= i < |r|
        ensures r[i] in t && r[i].id in Ids(t) && r[i].id != id
      {
        assert r[i] == t[if i < k then i else i + 1];
      }
    } else {
      PresentIsMembership(t, id);
    }
  }

  /** Removing an id is map removal, whether or not it is present. */
  lemma RemoveRefinesMap(t: seq<Entry>, id: string)
    requires UniqueIds(t)
    ensures UniqueIds(Removed(t, id))
    ensures AsMap(Removed(t, id)) == AsMap(t) - {id}
  {
    var r := Removed(t, id);
    RemovedEntries(t, id);
    forall i | 0 <= i < |r|
      ensures r[i].id in AsMap(t) - {id} && (AsMap(t) - {id})[r[i].id] == r[i]
    {
      var j :| 0 <= j < |t| && t[j] == r[i];
      UniqueIndex(t, j);
      assert r[i].id in Ids(r);
    }
    AsMapByEntries(r, AsMap(t) - {id});
  }

  lemma SameIds(t: seq<Entry>, r: seq<Entry>)
    requires |t| == |r| && forall i :: 0 <= i < |t| ==> t[i].id == r[i].id
    ensures Ids(t) == Ids(r)
    ensures UniqueIds(t) <==> UniqueIds(r)
  {
    assert forall x :: x in Ids(t) ==> exists i :: 0 <= i < |r| && r[i].id == x;
    assert forall x :: x in Ids(r) ==> exists i :: 0 <= i < |t| && t[i].id == x;
  }

  /** The readings a sweep takes, by id. */
  ghost function ReadingsOf(t: seq<Entry>, clock: seq<TimeVal>): map<string, TimeVal>
    requires |clock| == |t|
  {
    map id | id in Ids(t) :: ReadingAt(t, clock, id)
  }

  ghost function ReadingAt(t: seq<Entry>, clock: seq<TimeVal>, id: string): TimeVal
    requires |clock| == |t| && id in Ids(t)
  {
    clock[IndexOf(t, id)]
  }

  lemma SweptUnique(t: seq<Entry>, clock: seq<TimeVal>)
    requires UniqueIds(t) && |clock| == |t|
    ensures UniqueIds(Swept(t, clock)) && Ids(Swept(t, clock)) == Ids(t)
    ensures forall i :: 0 <= i < |t| ==> Swept(t, clock)[i].(expired := t[i].expired) == t[i]
  {
    assert forall i :: 0 <= i < |t| ==> Swept(t, clock)[i] == Marked(t[i], clock[i]);
    SameIds(t, Swept(t, clock));
  }

  /** A sweep keeps every id and its connection, times and callback; it can only set marks, and it
      sets exactly those of entries whose expiry lies before the reading taken at them. */
  lemma SweepRefinesMap(t: seq<Entry>, clock: seq<TimeVal>)
    requires UniqueIds(t) && |clock| == |t|
    ensures UniqueIds(Swept(t, clock))
    ensures AsMap(Swept(t, clock))
         == map id | id in AsMap(t) :: Marked(AsMap(t)[id], ReadingsOf(t, clock)[id])
  {
    var r := Swept(t, clock);
    SweptUnique(t, clock);
    forall id | id in Ids(t)
      ensures AsMap(r)[id] == Marked(AsMap(t)[id], ReadingsOf(t, clock)[id])
    {
      PresentIsMembership(t, id);
      var i := IndexOf(t, id);
      UniqueIndex(r, i);
      assert r[i] == Marked(t[i], clock[i]);
    }
  }
}
