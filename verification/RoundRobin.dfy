/** The round-robin choice of a peer connection for a new transaction id: the probe loop of
    `add_entry_idq` over the cursor `glast_con_rr`, skipping peers that are down. */
module RoundRobin {

  lemma ModOfSmall(c: nat, n: nat)
    requires c < n
    ensures c % n == c
  {
  }

  /** The cursor's successor: increment, and wrap at the number of peers. */
  function Succ(c: nat, n: nat): (r: nat)
    requires c < n
    ensures r < n
  {
    if c + 1 == n then 0 else c + 1
  }

  lemma SuccIsNextAroundTheRing(c: nat, n: nat)
    requires c < n
    ensures Succ(c, n) == (c + 1) % n
  {
    ModOfSmall(Succ(c, n), n);
  }

  /** Hops from c forward to x around the ring. */
  function Dist(c: nat, x: nat, n: nat): (d: nat)
    requires c < n && x < n
    ensures d < n
  {
    if c <= x then x - c else x + n - c
  }

  lemma DistBySucc(c: nat, x: nat, n: nat)
    requires c < n && x < n
    ensures Dist(c, x, n) == if c == x then 0 else 1 + Dist(Succ(c, n), x, n)
  {
  }

  ghost predicate SomeUp(up: seq<bool>) {
    exists i: nat :: i < |up| && up[i]
  }

  ghost function UpSet(up: seq<bool>): set<nat> {
    set i: nat | i < |up| && up[i]
  }

  /** Peer p is up and no up peer comes before it in cyclic order from the cursor c. */
  ghost predicate IsFirstUp(up: seq<bool>, c: nat, p: nat)
    requires c < |up|
  {
    p < |up| && up[p]
    && forall x: nat :: x < |up| && up[x] ==> Dist(c, p, |up|) <= Dist(c, x, |up|)
  }

  lemma {:induction false} FirstUpExists(up: seq<bool>, c: nat, x: nat)
    requires c < |up| && x < |up| && up[x]
    ensures exists p: nat :: IsFirstUp(up, c, p)
    decreases Dist(c, x, |up|)
  {
    if up[c] {
      assert IsFirstUp(up, c, c);
    } else {
      FirstUpExists(up, Succ(c, |up|), x);
      var p: nat :| IsFirstUp(up, Succ(c, |up|), p);
      FirstUpSkipsDown(up, c, p);
    }
  }

  lemma FirstUpSkipsDown(up: seq<bool>, c: nat, p: nat)
    requires c < |up| && !up[c]
    requires IsFirstUp(up, Succ(c, |up|), p)
    ensures IsFirstUp(up, c, p)
  {
    var d := Succ(c, |up|);
    forall x: nat | x < |up| && up[x]
      ensures Dist(c, p, |up|) <= Dist(c, x, |up|)
    {
      assert Dist(d, p, |up|) <= Dist(d, x, |up|);
    }
  }

  lemma FirstUpUnique(up: seq<bool>, c: nat, p: nat, q: nat)
    requires c < |up| && IsFirstUp(up, c, p) && IsFirstUp(up, c, q)
    ensures p == q
  {
    assert Dist(c, p, |up|) == Dist(c, q, |up|);
  }

  /** The peer a new id gets when the cursor is c. */
  ghost function Choose(up: seq<bool>, c: nat): (p: nat)
    requires c < |up| && SomeUp(up)
    ensures IsFirstUp(up, c, p)
  {
    var x: nat :| x < |up| && up[x];
    FirstUpExists(up, c, x);
    var p: nat :| IsFirstUp(up, c, p);
    p
  }

  lemma ChooseSkipsDown(up: seq<bool>, c: nat)
    requires c < |up| && SomeUp(up) && !up[c]
    ensures Choose(up, c) == Choose(up, Succ(c, |up|))
  {
    var p := Choose(up, Succ(c, |up|));
    FirstUpSkipsDown(up, c, p);
    FirstUpUnique(up, c, p, Choose(up, c));
  }

  lemma ChooseTakesUp(up: seq<bool>, c: nat)
    requires c < |up| && up[c]
    ensures SomeUp(up) && Choose(up, c) == c
  {
    assert IsFirstUp(up, c, c);
    FirstUpUnique(up, c, c, Choose(up, c));
  }

  class Balancer {
    var cursor: nat

    constructor ()
      ensures cursor == 0
    {
      cursor := 0;
    }

    /** The probe loop. `probes` counts the peer states read. */
    method Assign(up: seq<bool>) returns (conn: nat, ghost probes: nat)
      requires SomeUp(up) && cursor < |up|
      modifies this
      ensures IsFirstUp(up, old(cursor), conn) && conn == Choose(up, old(cursor))
      ensures probes == Dist(old(cursor), conn, |up|) + 1 <= |up|
      ensures cursor == Succ(conn, |up|)
    {
      var n := |up|;
      ghost var goal := Choose(up, cursor);
      probes := 1;
      ModOfSmall(cursor, n);
      conn := cursor % n;
      while !up[conn]
        invariant conn == cursor < n
        invariant Dist(old(cursor), cursor, n) + 1 == probes
        invariant Dist(cursor, goal, n) + probes == Dist(old(cursor), goal, n) + 1
        invariant goal < n && up[goal]
        decreases Dist(cursor, goal, n)
      {
        cursor := cursor + 1;
        if cursor == n {
          cursor := 0;
        }
        ModOfSmall(cursor, n);
        conn := cursor % n;
        probes := probes + 1;
      }
      assert Dist(old(cursor), goal, n) <= Dist(old(cursor), conn, n);
      cursor := cursor + 1;
      if cursor == n {
        cursor := 0;
      }
    }
  }

  /** The peers found up among the next m ring positions, in probing order. */
  function Trace(up: seq<bool>, c: nat, m: nat): seq<nat>
    requires c < |up|
    decreases m
  {
    if m == 0 then []
    else if up[c] then [c] + Trace(up, Succ(c, |up|), m - 1)
    else Trace(up, Succ(c, |up|), m - 1)
  }

  lemma {:induction false} NothingUpInTrace(up: seq<bool>, c: nat, m: nat)
    requires c < |up| && !SomeUp(up)
    ensures Trace(up, c, m) == []
    decreases m
  {
    if m > 0 {
      NothingUpInTrace(up, Succ(c, |up|), m - 1);
    }
  }

  /** However long it probes, the loop finds no peer that is up, if and only if all are down. */
  lemma ProbesForeverIffAllDown(up: seq<bool>, c: nat)
    requires c < |up|
    ensures (forall m: nat :: Trace(up, c, m) == []) <==> !SomeUp(up)
  {
    if SomeUp(up) {
      var x: nat :| x < |up| && up[x];
      LapLoad(up, c, |up|, x);
    } else {
      forall m: nat
        ensures Trace(up, c, m) == []
      {
        NothingUpInTrace(up, c, m);
      }
    }
  }

  /** The peers of k consecutive assignments. */
  ghost function Assignments(up: seq<bool>, c: nat, k: nat): (s: seq<nat>)
    requires c < |up| && SomeUp(up)
    ensures |s| == k
    decreases k
  {
    if k == 0 then []
    else
      var p := Choose(up, c);
      [p] + Assignments(up, Succ(p, |up|), k - 1)
  }

  /** The cursor after k assignments. */
  ghost function CursorAfter(up: seq<bool>, c: nat, k: nat): (r: nat)
    requires c < |up| && SomeUp(up)
    ensures r < |up|
    decreases k
  {
    if k == 0 then c else CursorAfter(up, Succ(Choose(up, c), |up|), k - 1)
  }

  /** How many of the assignments peer x got. */
  function Load(s: seq<nat>, x: nat): nat {
    multiset(s)[x]
  }

  lemma LoadOfConcat(s: seq<nat>, t: seq<nat>, x: nat)
    ensures Load(s + t, x) == Load(s, x) + Load(t, x)
  {
    assert multiset(s + t) == multiset(s) + multiset(t);
  }

  /** Within one lap every up peer the probes pass is met once, and nothing else is. */
  lemma {:induction false} LapLoad(up: seq<bool>, c: nat, m: nat, x: nat)
    requires c < |up| && m <= |up|
    ensures Load(Trace(up, c, m), x)
         == if x < |up| && up[x] && Dist(c, x, |up|) < m then 1 else 0
    decreases m
  {
    if m > 0 {
      var d := Succ(c, |up|);
      LapLoad(up, d, m - 1, x);
      LoadOfConcat([c], Trace(up, d, m - 1), x);
    }
  }

  lemma {:induction false} AssignmentsFollowTrace(up: seq<bool>, c: nat, m: nat)
    requires c < |up| && SomeUp(up)
    ensures Assignments(up, c, |Trace(up, c, m)|) == Trace(up, c, m)
    decreases m
  {
    if m > 0 {
      var d := Succ(c, |up|);
      var rest := Trace(up, d, m - 1);
      AssignmentsFollowTrace(up, d, m - 1);
      if up[c] {
        ChooseTakesUp(up, c);
      } else {
        AssignmentsSkipDown(up, c, |rest|);
      }
    }
  }

  lemma AssignmentsSkipDown(up: seq<bool>, c: nat, k: nat)
    requires c < |up| && SomeUp(up) && !up[c]
    ensures Assignments(up, c, k) == Assignments(up, Succ(c, |up|), k)
  {
    ChooseSkipsDown(up, c);
  }

  lemma LapIsUpSet(up: seq<bool>, c: nat)
    requires c < |up|
    ensures multiset(Trace(up, c, |up|)) == multiset(UpSet(up))
    ensures |Trace(up, c, |up|)| == |UpSet(up)|
  {
    var t: seq<nat> := Trace(up, c, |up|);
    forall x: nat
      ensures Load(t, x) == if x in UpSet(up) then 1 else 0
    {
      LapLoad(up, c, |up|, x);
    }
    forall x: nat
      ensures multiset(t)[x] == multiset(UpSet(up))[x]
    {
      assert Load(t, x) == multiset(t)[x];
    }
    assert multiset(t) == multiset(UpSet(up));
    assert |multiset(t)| == |t|;
  }

  /** Fairness of a round: while the set of up peers stays put, as many consecutive new ids as
      there are up peers hit each of them exactly once, wherever the cursor stands. */
  lemma FairRound(up: seq<bool>, c: nat)
    requires c < |up| && SomeUp(up)
    ensures |UpSet(up)| > 0
    ensures multiset(Assignments(up, c, |UpSet(up)|)) == multiset(UpSet(up))
  {
    LapIsUpSet(up, c);
    AssignmentsFollowTrace(up, c, |up|);
    var w: nat :| w < |up| && up[w];
    assert w in UpSet(up);
  }

  lemma RoundLoad(up: seq<bool>, c: nat, x: nat)
    requires c < |up| && SomeUp(up)
    ensures |UpSet(up)| > 0
    ensures Load(Assignments(up, c, |UpSet(up)|), x) == if x in UpSet(up) then 1 else 0
  {
    FairRound(up, c);
  }

  lemma AssignmentsUnfold(up: seq<bool>, c: nat, k: nat)
    requires c < |up| && SomeUp(up) && 0 < k
    ensures Assignments(up, c, k) == [Choose(up, c)] + Assignments(up, Succ(Choose(up, c), |up|), k - 1)
  {
  }

  lemma {:induction false} AssignmentsSplit(up: seq<bool>, c: nat, j: nat, k: nat)
    requires c < |up| && SomeUp(up)
    ensures Assignments(up, c, j + k)
         == Assignments(up, c, j) + Assignments(up, CursorAfter(up, c, j), k)
    decreases j
  {
    if j == 0 {
      assert Assignments(up, c, 0) == [];
    } else {
      var p := Choose(up, c);
      var d := Succ(p, |up|);
      AssignmentsUnfold(up, c, j);
      AssignmentsUnfold(up, c, j + k);
      AssignmentsSplit(up, d, j - 1, k);
      assert (j - 1) + k == j + k - 1;
      assert CursorAfter(up, c, j) == CursorAfter(up, d, j - 1);
      PrependConcat(p, Assignments(up, d, j - 1), Assignments(up, CursorAfter(up, c, j), k));
    }
  }

  lemma PrependConcat(p: nat, s: seq<nat>, t: seq<nat>)
    ensures [p] + (s + t) == ([p] + s) + t
  {
  }

  lemma LoadSplit(up: seq<bool>, c: nat, j: nat, k: nat, x: nat)
    requires c < |up| && SomeUp(up) && j <= k
    ensures Load(Assignments(up, c, k), x)
         == Load(Assignments(up, c, j), x) + Load(Assignments(up, CursorAfter(up, c, j), k - j), x)
  {
    var first, rest := Assignments(up, c, j), Assignments(up, CursorAfter(up, c, j), k - j);
    AssignmentsSplit(up, c, j, k - j);
    assert j + (k - j) == k;
    assert Assignments(up, c, k) == first + rest;
    LoadOfConcat(first, rest, x);
  }

  /** Full rounds of u assignments in a window of k. */
  function Rounds(k: nat, u: nat): nat
    requires 0 < u
    decreases k
  {
    if k < u then 0 else 1 + Rounds(k - u, u)
  }

  lemma PartRoundLoad(up: seq<bool>, c: nat, k: nat, x: nat)
    requires c < |up| && SomeUp(up) && k < |UpSet(up)|
    ensures Load(Assignments(up, c, k), x) <= if x in UpSet(up) then 1 else 0
  {
    var u := |UpSet(up)|;
    RoundLoad(up, c, x);
    LoadSplit(up, c, k, u, x);
  }

  lemma FullRoundLoad(up: seq<bool>, c: nat, u: nat, k: nat, x: nat)
    requires c < |up| && SomeUp(up) && u == |UpSet(up)| <= k
    ensures Load(Assignments(up, c, k), x)
         == (if x in UpSet(up) then 1 else 0) + Load(Assignments(up, CursorAfter(up, c, u), k - u), x)
  {
    RoundLoad(up, c, x);
    LoadSplit(up, c, u, k, x);
  }

  lemma SomeUpCounts(up: seq<bool>)
    requires SomeUp(up)
    ensures |UpSet(up)| > 0
  {
    var w: nat :| w < |up| && up[w];
    assert w in UpSet(up);
  }

  /** What a window of k may hold of an up peer, or of one that is down. */
  predicate FairLoad(load: nat, k: nat, u: nat, isUp: bool)
    requires 0 < u
  {
    if isUp then Rounds(k, u) <= load <= Rounds(k, u) + 1 else load == 0
  }

  lemma OneMoreRound(load: nat, k: nat, u: nat, isUp: bool)
    requires 0 < u <= k && FairLoad(load, k - u, u, isUp)
    ensures FairLoad((if isUp then 1 else 0) + load, k, u, isUp)
  {
  }

  lemma {:induction false} WindowIsFair(up: seq<bool>, c: nat, u: nat, k: nat, x: nat)
    requires c < |up| && SomeUp(up) && 0 < u == |UpSet(up)|
    ensures FairLoad(Load(Assignments(up, c, k), x), k, u, x in UpSet(up))
    decreases k
  {
    if k < u {
      PartRoundLoad(up, c, k, x);
    } else {
      var d := CursorAfter(up, c, u);
      WindowIsFair(up, d, u, k - u, x);
      FullRoundLoad(up, c, u, k, x);
      OneMoreRound(Load(Assignments(up, d, k - u), x), k, u, x in UpSet(up));
    }
  }

  /** Fairness of every window: an up peer gets one id for each full round in it, or one more, and
      a peer that is down gets none. */
  lemma FairWindow(up: seq<bool>, c: nat, k: nat, x: nat)
    requires c < |up| && SomeUp(up)
    ensures |UpSet(up)| > 0
    ensures x in UpSet(up) ==>
      Rounds(k, |UpSet(up)|) <= Load(Assignments(up, c, k), x) <= Rounds(k, |UpSet(up)|) + 1
    ensures x !in UpSet(up) ==> Load(Assignments(up, c, k), x) == 0
  {
    SomeUpCounts(up);
    WindowIsFair(up, c, |UpSet(up)|, k, x);
  }

  /** In any window of assignments the loads of two up peers differ by at most one. */
  lemma LoadsDifferByAtMostOne(up: seq<bool>, c: nat, k: nat, x: nat, y: nat)
    requires c < |up| && x in UpSet(up) && y in UpSet(up)
    ensures SomeUp(up)
    ensures -1 <= Load(Assignments(up, c, k), x) - Load(Assignments(up, c, k), y) <= 1
  {
    FairWindow(up, c, k, x);
    FairWindow(up, c, k, y);
  }
}
