/** Whole runs of the session state: pushes, per-connection pops, sweeps and removals in any
    order, with peer states and clock readings chosen anew at every step. */
module SessionRuns {
  import opened Timeval
  import opened SessionTable
  import opened MessageQueue
  import opened RoundRobin
  import opened PushPath
  import opened MsgList

  datatype Op =
    | PushOp(request: Request, now: TimeVal, up: seq<bool>)
    | PopOp(conn: int)
    | SweepOp(clock: seq<TimeVal>)
    | RemoveOp(id: string)

  /** Which pop the run uses: the code as written, or with the tail unlinked too. */
  datatype PopKind = Literal | Repaired

  /** A run remembers every message routed and every message handed to a sender. A literal pop that
      takes the tail leaves the list ill formed; the run records that and stops there. */
  datatype Run = Run(store: Store, routed: seq<Msg>, popped: seq<Msg>, brokenByTail: bool)

  const START := Run(Store([], [], 0), [], [], false)

  ghost predicate Enabled(r: Run, op: Op, n: nat) {
    r.brokenByTail
    || match op
       case PushOp(request, now, up) => |request.id| <= MAX_ID && |up| == n && Routable(r.store, request.id, up)
       case PopOp(conn) => true
       case SweepOp(clock) => |clock| == |r.store.table|
       case RemoveOp(id) => true
  }

  ghost function Step(r: Run, op: Op, kind: PopKind, n: nat): Run
    requires Enabled(r, op, n) && r.store.cursor < n
  {
    if r.brokenByTail then r
    else match op
      case PushOp(request, now, up) =>
        var s := Push(r.store, request, now, up);
        r.(store := s, routed := r.routed + s.queue[|r.store.queue|..])
      case PopOp(conn) =>
        var q := r.store.queue;
        var k := FirstFor(q, conn);
        if k == |q| then r
        else
          var after := if kind == Literal then AfterPop(q, conn) else WithoutFirst(q, conn);
          Run(r.store.(queue := after), r.routed, r.popped + [q[k]],
              kind == Literal && TakesTail(q, conn))
      case SweepOp(clock) =>
        r.(store := r.store.(table := Swept(r.store.table, clock)))
      case RemoveOp(id) =>
        r.(store := r.store.(table := Removed(r.store.table, id)))
  }

  /** Every operation keeps ids unique and nonempty, and connections and cursor in range. */
  lemma StepKeepsOk(r: Run, op: Op, kind: PopKind, n: nat)
    requires Ok(r.store, n) && Enabled(r, op, n)
    ensures Ok(Step(r, op, kind, n).store, n)
  {
    if !r.brokenByTail {
      match op
      case PushOp(request, now, up) => PushKeepsOk(r.store, request, now, up);
      case PopOp(conn) => PopKeepsOk(r.store, conn, n);
      case SweepOp(clock) => SweepKeepsOk(r.store, clock, n);
      case RemoveOp(id) => RemoveKeepsOk(r.store, id, n);
    }
  }

  ghost predicate Legal(r: Run, ops: seq<Op>, kind: PopKind, n: nat)
    requires Ok(r.store, n)
    decreases |ops|
  {
    ops == []
    || (Enabled(r, ops[0], n)
        && (StepKeepsOk(r, ops[0], kind, n); Legal(Step(r, ops[0], kind, n), ops[1..], kind, n)))
  }

  ghost function After(r: Run, ops: seq<Op>, kind: PopKind, n: nat): (f: Run)
    requires Ok(r.store, n) && Legal(r, ops, kind, n)
    ensures Ok(f.store, n)
    decreases |ops|
  {
    if ops == [] then r
    else
      StepKeepsOk(r, ops[0], kind, n);
      After(Step(r, ops[0], kind, n), ops[1..], kind, n)
  }

  lemma {:induction false} BrokenStays(r: Run, ops: seq<Op>, kind: PopKind, n: nat)
    requires Ok(r.store, n) && Legal(r, ops, kind, n) && r.brokenByTail
    ensures After(r, ops, kind, n) == r
    decreases |ops|
  {
    if ops != [] {
      BrokenStays(Step(r, ops[0], kind, n), ops[1..], kind, n);
    }
  }

  // The heap routines carry the runs out.

  method StillQueued(msgs: MsgQueue, node: MsgNode) returns (found: bool)
    requires msgs.NextChain()
    ensures found <==> node in msgs.Nodes
  {
    var temp := msgs.head;
    ghost var k := 0;
    while temp != null
      invariant 0 <= k <= |msgs.Nodes|
      invariant temp == if k < |msgs.Nodes| then msgs.Nodes[k] else null
      invariant node !in msgs.Nodes[..k]
      decreases |msgs.Nodes| - k
    {
      if temp == node {
        return true;
      }
      temp := temp.next;
      k := k + 1;
    }
    return false;
  }

  /** The session is in the run's state; `repr` covers the objects it may change. */
  ghost predicate Follows(session: Session, r: Run, repr: set<object>)
    reads session.Footprint()
  {
    session.Footprint() <= repr && session.State() == r.store && (session.Valid() <==> !r.brokenByTail)
  }

  method ExecutePop(session: Session, conn: int) returns (out: seq<Msg>, broken: bool)
    requires session.Valid()
    modifies session.msgs, session.msgs.Nodes
    ensures
      var q := old(session.State()).queue;
      && session.State() == old(session.State()).(queue := AfterPop(q, conn))
      && out == (if FirstFor(q, conn) < |q| then [q[FirstFor(q, conn)]] else [])
      && broken == TakesTail(q, conn)
    ensures session.Valid() <==> !broken
    ensures forall n :: n in session.msgs.Nodes ==> n in old(session.msgs.Nodes)
  {
    out, broken := [], false;
    var node := session.PopFromMsgq(conn);
    if node != null {
      out := [node.Value()];
      broken := StillQueued(session.msgs, node);
    }
  }

  method ExecuteOp(session: Session, op: Op, ghost r: Run, ghost repr: set<object>)
    returns (out: seq<Msg>, broken: bool, ghost grown: set<object>, ghost s: Run)
    requires !r.brokenByTail && Follows(session, r, repr) && Enabled(r, op, session.numPeers)
    modifies repr
    ensures Ok(r.store, session.numPeers) && s == Step(r, op, Literal, session.numPeers)
    ensures Follows(session, s, grown) && fresh(grown - repr)
    ensures s.popped == r.popped + out && s.brokenByTail == broken
  {
    out, broken := [], false;
    match op {
      case PushOp(q, now, up) =>
        session.PushToMsgq(q.id, q.len, q.data, now, q.fn, q.param, up);
      case PopOp(conn) => out, broken := ExecutePop(session, conn);
      case SweepOp(clock) => session.Sweep(clock);
      case RemoveOp(id) => session.RemId(id);
    }
    grown := repr + session.Footprint();
    s := Step(r, op, Literal, session.numPeers);
  }

  lemma ConcatInTurn<T>(a: seq<T>, b: seq<T>, c: seq<T>)
    ensures a + (b + c) == (a + b) + c
  {
  }

  lemma RunAfterOp(r: Run, ops: seq<Op>, n: nat)
    requires Ok(r.store, n) && ops != [] && Legal(r, ops, Literal, n)
    ensures
      var s := Step(r, ops[0], Literal, n);
      && Ok(s.store, n) && Legal(s, ops[1..], Literal, n)
      && After(r, ops, Literal, n) == After(s, ops[1..], Literal, n)
      && (s.brokenByTail ==> After(r, ops, Literal, n) == s)
  {
    var s := Step(r, ops[0], Literal, n);
    StepKeepsOk(r, ops[0], Literal, n);
    if s.brokenByTail {
      BrokenStays(s, ops[1..], Literal, n);
    }
  }

  /** A whole run on the heap: from any good state, the session ends where the run does and has handed
      out what the run has, and its lists are well formed unless a pop took a tail. */
  method Execute(session: Session, ops: seq<Op>, ghost r: Run, ghost repr: set<object>)
    returns (popped: seq<Msg>, broken: bool)
    requires Ok(r.store, session.numPeers) && Legal(r, ops, Literal, session.numPeers)
    requires !r.brokenByTail && Follows(session, r, repr)
    modifies repr
    ensures
      var f := After(r, ops, Literal, session.numPeers);
      session.State() == f.store && r.popped + popped == f.popped && broken == f.brokenByTail
    ensures session.Valid() <==> !broken
    decreases |ops|
  {
    popped, broken := [], false;
    if ops != [] {
      ghost var grown, s;
      popped, broken, grown, s := ExecuteOp(session, ops[0], r, repr);
      RunAfterOp(r, ops, session.numPeers);
      if !broken {
        var rest;
        rest, broken := Execute(session, ops[1..], s, grown);
        ConcatInTurn(r.popped, popped, rest);
        popped := popped + rest;
      }
    }
  }

  /** A session begun anew follows the run from the start. */
  method ExecuteFromStart(n: nat, ops: seq<Op>) returns (session: Session, popped: seq<Msg>, broken: bool)
    requires 0 < n && Legal(START, ops, Literal, n)
    ensures session.numPeers == n
    ensures
      var f := After(START, ops, Literal, n);
      session.State() == f.store && popped == f.popped && broken == f.brokenByTail
    ensures session.Valid() <==> !broken
  {
    session := new Session(n);
    popped, broken := Execute(session, ops, START, session.Footprint());
  }

  /** For every connection: what was handed out, followed by what is still queued, is what was
      routed to it, in order. Nothing is lost, duplicated or reordered. */
  ghost predicate Conserved(r: Run) {
    forall c :: For(r.popped, c) + For(r.store.queue, c) == For(r.routed, c)
  }

  lemma PushConserves(r: Run, op: Op, kind: PopKind, n: nat)
    requires Ok(r.store, n) && Enabled(r, op, n) && op.PushOp? && !r.brokenByTail
    requires Conserved(r)
    ensures Conserved(Step(r, op, kind, n))
  {
    var s := Step(r, op, kind, n);
    var q := r.store.queue;
    var added := s.store.queue[|q|..];
    assert s.store.queue == q + added;
    forall c
      ensures For(s.popped, c) + For(s.store.queue, c) == For(s.routed, c)
    {
      ForOfConcat(q, added, c);
      ForOfConcat(r.routed, added, c);
      assert For(r.popped, c) + For(q, c) == For(r.routed, c);
    }
  }

  lemma MoveConserves(popped: seq<Msg>, q: seq<Msg>, conn: int, c: int)
    requires FirstFor(q, conn) < |q|
    ensures For(popped + [q[FirstFor(q, conn)]], c) + For(WithoutFirst(q, conn), c) == For(popped, c) + For(q, c)
  {
    WithoutFirstPerConn(q, conn, c);
    ForOfConcat(popped, [q[FirstFor(q, conn)]], c);
  }

  /** A pop keeps the queues conserved exactly when it does not take a tail without unlinking it. */
  lemma PopConservesIff(r: Run, op: Op, kind: PopKind, n: nat)
    requires Ok(r.store, n) && op.PopOp? && !r.brokenByTail
    requires Conserved(r)
    ensures Conserved(Step(r, op, kind, n)) <==> !(kind == Literal && TakesTail(r.store.queue, op.conn))
  {
    var s := Step(r, op, kind, n);
    var q := r.store.queue;
    var k := FirstFor(q, op.conn);
    if kind == Literal && TakesTail(q, op.conn) {
      ForOfConcat(r.popped, [q[k]], op.conn);
      assert For(r.popped, op.conn) + For(q, op.conn) == For(r.routed, op.conn);
      assert |For(s.popped, op.conn)| == |For(r.popped, op.conn)| + 1;
      assert For(s.popped, op.conn) + For(s.store.queue, op.conn) != For(s.routed, op.conn);
    } else if k < |q| {
      assert s.store.queue == WithoutFirst(q, op.conn);
      forall c
        ensures For(s.popped, c) + For(s.store.queue, c) == For(s.routed, c)
      {
        MoveConserves(r.popped, q, op.conn, c);
      }
    }
  }

  lemma {:induction false} ConservedAlong(r: Run, ops: seq<Op>, kind: PopKind, n: nat)
    requires Ok(r.store, n) && Legal(r, ops, kind, n)
    requires Conserved(r) <==> !r.brokenByTail
    ensures Conserved(After(r, ops, kind, n)) <==> !After(r, ops, kind, n).brokenByTail
    decreases |ops|
  {
    if ops != [] {
      var s := Step(r, ops[0], kind, n);
      StepKeepsOk(r, ops[0], kind, n);
      if !r.brokenByTail {
        match ops[0]
        case PushOp(request, now, up) => PushConserves(r, ops[0], kind, n);
        case PopOp(conn) => PopConservesIff(r, ops[0], kind, n);
        case SweepOp(clock) =>
          assert s.popped == r.popped && s.routed == r.routed && s.store.queue == r.store.queue;
        case RemoveOp(id) =>
          assert s.popped == r.popped && s.routed == r.routed && s.store.queue == r.store.queue;
      }
      ConservedAlong(s, ops[1..], kind, n);
    }
  }

  lemma StartIsConserved(n: nat)
    requires 0 < n
    ensures Ok(START.store, n) && Conserved(START)
  {
  }

  /** The pushes of nonempty ids among the operations, in order. */
  function Requested(ops: seq<Op>): seq<Request> {
    if ops == [] then []
    else if ops[0].PushOp? && ops[0].request.id != "" then [ops[0].request] + Requested(ops[1..])
    else Requested(ops[1..])
  }

  predicate CarriesRequest(m: Msg, q: Request) {
    m.id == q.id && m.len == q.len && m.data == q.data
  }

  /** The messages of `after` are those of `before` and then, one for one, what the requests asked to
      send; all of the requests, or the first of them. */
  ghost predicate Adds(before: seq<Msg>, after: seq<Msg>, requests: seq<Request>, all: bool) {
    && |before| <= |after| <= |before| + |requests|
    && (forall i :: 0 <= i < |before| ==> after[i] == before[i])
    && (forall i :: |before| <= i < |after| ==> CarriesRequest(after[i], requests[i - |before|]))
    && (all ==> |after| == |before| + |requests|)
  }

  lemma AddsInTurn(a: seq<Msg>, b: seq<Msg>, c: seq<Msg>, first: seq<Request>, rest: seq<Request>, all: bool)
    requires Adds(a, b, first, true) && Adds(b, c, rest, all)
    ensures Adds(a, c, first + rest, all)
  {
  }

  lemma StepRoutesRequest(r: Run, op: Op, kind: PopKind, n: nat)
    requires Ok(r.store, n) && Enabled(r, op, n) && !r.brokenByTail
    ensures Adds(r.routed, Step(r, op, kind, n).routed, Requested([op]), true)
  {
    assert [op][1..] == [];
    if op.PushOp? {
      PushQueuesMessage(r.store, op.request, op.now, op.up);
    }
  }

  lemma RequestedSplit(ops: seq<Op>)
    requires ops != []
    ensures Requested(ops) == Requested([ops[0]]) + Requested(ops[1..])
  {
    assert [ops[0]][1..] == [];
  }

  /** What a run routes is what was asked of it, in order; an operation behind a pop that took a tail
      is not carried out any more. */
  lemma {:induction false} RoutedIsRequested(r: Run, ops: seq<Op>, kind: PopKind, n: nat)
    requires Ok(r.store, n) && Legal(r, ops, kind, n) && !r.brokenByTail
    ensures
      var f := After(r, ops, kind, n);
      Adds(r.routed, f.routed, Requested(ops), !f.brokenByTail)
    decreases |ops|
  {
    if ops != [] {
      var s := Step(r, ops[0], kind, n);
      StepKeepsOk(r, ops[0], kind, n);
      StepRoutesRequest(r, ops[0], kind, n);
      RequestedSplit(ops);
      if s.brokenByTail {
        BrokenStays(s, ops[1..], kind, n);
      } else {
        RoutedIsRequested(s, ops[1..], kind, n);
      }
      AddsInTurn(r.routed, s.routed, After(r, ops, kind, n).routed,
                 Requested([ops[0]]), Requested(ops[1..]), !After(r, ops, kind, n).brokenByTail);
    }
  }

  /** The code as written delivers every connection's messages exactly once and in order over a
      run if and only if no pop of the run took a tail that was not also the head. The messages are
      those the pushes asked for. */
  lemma LiteralPopConservesIffNoTail(ops: seq<Op>, n: nat)
    requires 0 < n && Legal(START, ops, Literal, n)
    ensures
      var f := After(START, ops, Literal, n);
      && (Conserved(f) <==> !f.brokenByTail)
      && Adds([], f.routed, Requested(ops), !f.brokenByTail)
  {
    StartIsConserved(n);
    ConservedAlong(START, ops, Literal, n);
    RoutedIsRequested(START, ops, Literal, n);
  }

  /** A pop hands out the connection's oldest queued message, or nothing if there is none, and nobody
      else's. */
  lemma PopHandsOutOldest(r: Run, conn: int, kind: PopKind, n: nat, c: int)
    requires Ok(r.store, n) && !r.brokenByTail
    ensures
      var s, waiting := Step(r, PopOp(conn), kind, n), For(r.store.queue, conn);
      For(s.popped, c) == For(r.popped, c) + (if c == conn && waiting != [] then [waiting[0]] else [])
  {
    var q := r.store.queue;
    WithoutFirstPerConn(q, conn, c);
    if FirstFor(q, conn) < |q| {
      ForOfConcat(r.popped, [q[FirstFor(q, conn)]], c);
    }
  }

  /** Sweeps and removals of a run do to the table what the names say; pops leave it alone. */
  lemma StepOnTable(r: Run, op: Op, kind: PopKind, n: nat)
    requires Ok(r.store, n) && Enabled(r, op, n) && !r.brokenByTail && !op.PushOp?
    ensures
      var m, t := AsMap(r.store.table), Step(r, op, kind, n).store.table;
      && (op.PopOp? ==> t == r.store.table)
      && (op.SweepOp? ==>
            AsMap(t) == map id | id in m :: Marked(m[id], ReadingsOf(r.store.table, op.clock)[id]))
      && (op.RemoveOp? ==> AsMap(t) == m - {op.id})
  {
    if op.SweepOp? {
      SweepRefinesMap(r.store.table, op.clock);
    } else if op.RemoveOp? {
      RemoveRefinesMap(r.store.table, op.id);
    }
  }

  lemma {:induction false} RepairedNeverBreaks(r: Run, ops: seq<Op>, n: nat)
    requires Ok(r.store, n) && Legal(r, ops, Repaired, n) && !r.brokenByTail
    ensures !After(r, ops, Repaired, n).brokenByTail
    decreases |ops|
  {
    if ops != [] {
      StepKeepsOk(r, ops[0], Repaired, n);
      RepairedNeverBreaks(Step(r, ops[0], Repaired, n), ops[1..], n);
    }
  }

  /** With the tail unlinked as well, the messages asked for are conserved over every run. */
  lemma RepairedPopConserves(ops: seq<Op>, n: nat)
    requires 0 < n && Legal(START, ops, Repaired, n)
    ensures
      var f := After(START, ops, Repaired, n);
      Conserved(f) && Adds([], f.routed, Requested(ops), true)
  {
    StartIsConserved(n);
    ConservedAlong(START, ops, Repaired, n);
    RepairedNeverBreaks(START, ops, n);
    RoutedIsRequested(START, ops, Repaired, n);
  }

  // One peer or more.

  lemma OnePeerNeverTakesTail(s: Store, c: int)
    requires Ok(s, 1)
    ensures !TakesTail(s.queue, c)
  {
    if s.queue != [] {
      assert s.queue[0].conn == 0;
    }
  }

  lemma {:induction false} OnePeerNeverBreaks(r: Run, ops: seq<Op>)
    requires Ok(r.store, 1) && Legal(r, ops, Literal, 1) && !r.brokenByTail
    ensures !After(r, ops, Literal, 1).brokenByTail
    decreases |ops|
  {
    if ops != [] {
      StepKeepsOk(r, ops[0], Literal, 1);
      if ops[0].PopOp? {
        OnePeerNeverTakesTail(r.store, ops[0].conn);
      }
      OnePeerNeverBreaks(Step(r, ops[0], Literal, 1), ops[1..]);
    }
  }

  function AllUp(n: nat): seq<bool> { seq(n, _ => true) }

  function PushA(n: nat, now: TimeVal): Op { PushOp(Request("a", 1, "x", 1, 1), now, AllUp(n)) }
  function PushB(n: nat, now: TimeVal): Op { PushOp(Request("b", 1, "y", 2, 2), now, AllUp(n)) }

  ghost function OneQueued(now: TimeVal): Run {
    var a := Msg("a", 1, "x", 0);
    Run(Store([Fresh("a", 0, now, 1, 1)], [a], 1), [a], [], false)
  }

  ghost function TwoQueued(n: nat, now: TimeVal): Run
    requires 2 <= n
  {
    var a, b := Msg("a", 1, "x", 0), Msg("b", 1, "y", 1);
    Run(Store([Fresh("a", 0, now, 1, 1), Fresh("b", 1, now, 2, 2)], [a, b], Succ(1, n)), [a, b], [], false)
  }

  lemma TwoPushes(n: nat, now: TimeVal)
    requires 2 <= n
    ensures Enabled(START, PushA(n, now), n) && Step(START, PushA(n, now), Literal, n) == OneQueued(now)
    ensures Enabled(OneQueued(now), PushB(n, now), n)
    ensures Step(OneQueued(now), PushB(n, now), Literal, n) == TwoQueued(n, now)
  {
    assert AllUp(n)[0] && AllUp(n)[1];
    ChooseTakesUp(AllUp(n), 0);
    ChooseTakesUp(AllUp(n), 1);
    var t := OneQueued(now).store.table;
    assert t[0].id == "a" && "a"[0] != "b"[0];
    assert IndexOf(t, "b") == 1;
  }

  lemma DuplicatingPop(n: nat, now: TimeVal)
    requires 2 <= n && Ok(TwoQueued(n, now).store, n)
    ensures Legal(TwoQueued(n, now), [PopOp(1)], Literal, n)
    ensures After(TwoQueued(n, now), [PopOp(1)], Literal, n)
         == TwoQueued(n, now).(popped := [Msg("b", 1, "y", 1)], brokenByTail := true)
  {
    var r := TwoQueued(n, now);
    assert FirstFor(r.store.queue[1..], 1) == 0;
    assert FirstFor(r.store.queue, 1) == 1;
    StepKeepsOk(r, PopOp(1), Literal, n);
    var s := Step(r, PopOp(1), Literal, n);
    assert [PopOp(1)][1..] == [];
    assert After(s, [], Literal, n) == s;
  }

  /** With two peers or more: two pushes to two of them, then a pop by the second one's sender. Its
      message is handed out and stays queued. */
  lemma LiteralPopCanDuplicate(n: nat, now: TimeVal)
    requires 2 <= n
    ensures
      var ops := [PushA(n, now), PushB(n, now), PopOp(1)];
      && Legal(START, ops, Literal, n)
      && After(START, ops, Literal, n).popped == [Msg("b", 1, "y", 1)]
      && After(START, ops, Literal, n).store.queue == [Msg("a", 1, "x", 0), Msg("b", 1, "y", 1)]
      && !Conserved(After(START, ops, Literal, n))
  {
    var ops := [PushA(n, now), PushB(n, now), PopOp(1)];
    var tail := [PushB(n, now), PopOp(1)];
    assert ops[1..] == tail && tail[1..] == [PopOp(1)];
    TwoPushes(n, now);
    StepKeepsOk(START, PushA(n, now), Literal, n);
    StepKeepsOk(OneQueued(now), PushB(n, now), Literal, n);
    DuplicatingPop(n, now);
    assert Legal(OneQueued(now), tail, Literal, n);
    assert After(OneQueued(now), tail, Literal, n) == After(TwoQueued(n, now), [PopOp(1)], Literal, n);
    LiteralPopConservesIffNoTail(ops, n);
  }

  /** So the code as written is safe over every run if and only if there is a single peer. */
  lemma LiteralPopConservesIffOnePeer(n: nat)
    requires 0 < n
    ensures (forall ops: seq<Op> :: Legal(START, ops, Literal, n) ==> Conserved(After(START, ops, Literal, n)))
        <==> n == 1
  {
    if n == 1 {
      forall ops: seq<Op> | Legal(START, ops, Literal, n)
        ensures Conserved(After(START, ops, Literal, n))
      {
        LiteralPopConservesIffNoTail(ops, n);
        OnePeerNeverBreaks(START, ops);
      }
    } else {
      LiteralPopCanDuplicate(n, TimeVal(0, 0));
    }
  }

  ghost predicate HasEntry(s: Store, id: string, conn: int) {
    Present(s.table, id) && s.table[IndexOf(s.table, id)].conn == conn
  }

  lemma EntryByMap(s: Store, id: string, conn: int)
    ensures HasEntry(s, id, conn) <==> id in AsMap(s.table) && AsMap(s.table)[id].conn == conn
  {
    PresentIsMembership(s.table, id);
  }

  lemma PushKeepsEntry(s: Store, q: Request, now: TimeVal, up: seq<bool>, id: string, conn: int)
    requires Ok(s, |up|) && Routable(s, q.id, up) && HasEntry(s, id, conn)
    ensures HasEntry(Push(s, q, now, up), id, conn)
  {
    EntryByMap(s, id, conn);
    EntryByMap(Push(s, q, now, up), id, conn);
    if q.id != "" {
      if Present(s.table, q.id) {
        UpdateRefinesMap(s.table, q.id, now, q.fn, q.param);
      } else {
        PresentIsMembership(s.table, q.id);
        AddRefinesMap(s.table, Fresh(q.id, Route(s, q.id, up), now, q.fn, q.param));
      }
    }
  }

  lemma SweepKeepsEntry(s: Store, clock: seq<TimeVal>, id: string, conn: int)
    requires UniqueIds(s.table) && |clock| == |s.table| && HasEntry(s, id, conn)
    ensures HasEntry(s.(table := Swept(s.table, clock)), id, conn)
  {
    var k := IndexOf(s.table, id);
    SweptUnique(s.table, clock);
    UniqueIndex(Swept(s.table, clock), k);
  }

  lemma RemoveKeepsEntry(s: Store, other: string, id: string, conn: int)
    requires UniqueIds(s.table) && HasEntry(s, id, conn) && other != id
    ensures HasEntry(s.(table := Removed(s.table, other)), id, conn)
  {
    EntryByMap(s, id, conn);
    EntryByMap(s.(table := Removed(s.table, other)), id, conn);
    RemoveRefinesMap(s.table, other);
  }

  /** No operation other than the removal of the id itself changes the connection of a live id. */
  lemma StepKeepsEntry(r: Run, op: Op, kind: PopKind, n: nat, id: string, conn: int)
    requires Ok(r.store, n) && Enabled(r, op, n)
    requires HasEntry(r.store, id, conn) && op != RemoveOp(id)
    ensures HasEntry(Step(r, op, kind, n).store, id, conn)
  {
    if !r.brokenByTail {
      match op
      case PushOp(q, now, up) => PushKeepsEntry(r.store, q, now, up, id, conn);
      case PopOp(c) =>
      case SweepOp(clock) => SweepKeepsEntry(r.store, clock, id, conn);
      case RemoveOp(other) => RemoveKeepsEntry(r.store, other, id, conn);
    }
  }

  /** Messages of the id routed after the first `from` ones all carry the connection. */
  ghost predicate RoutedTo(r: Run, from: nat, id: string, conn: int) {
    forall i :: from <= i < |r.routed| && r.routed[i].id == id ==> r.routed[i].conn == conn
  }

  lemma StepKeepsRouting(r: Run, op: Op, kind: PopKind, n: nat, from: nat, id: string, conn: int)
    requires Ok(r.store, n) && Enabled(r, op, n)
    requires HasEntry(r.store, id, conn) && from <= |r.routed| && RoutedTo(r, from, id, conn)
    ensures r.routed <= Step(r, op, kind, n).routed
    ensures RoutedTo(Step(r, op, kind, n), from, id, conn)
  {
  }

  lemma {:induction false} EntryStaysAlong(r: Run, ops: seq<Op>, kind: PopKind, n: nat, from: nat, id: string, conn: int)
    requires Ok(r.store, n) && Legal(r, ops, kind, n)
    requires HasEntry(r.store, id, conn) && from <= |r.routed| && RoutedTo(r, from, id, conn)
    requires RemoveOp(id) !in ops
    ensures HasEntry(After(r, ops, kind, n).store, id, conn)
    ensures RoutedTo(After(r, ops, kind, n), from, id, conn)
    decreases |ops|
  {
    if ops != [] {
      StepKeepsOk(r, ops[0], kind, n);
      StepKeepsEntry(r, ops[0], kind, n, id, conn);
      StepKeepsRouting(r, ops[0], kind, n, from, id, conn);
      EntryStaysAlong(Step(r, ops[0], kind, n), ops[1..], kind, n, from, id, conn);
    }
  }

  /** Session affinity: from the push that creates an id's entry until its removal, every message
      pushed with the id goes to the connection the creating push chose, whatever else happens. */
  lemma OneConnectionPerLife(r: Run, create: Op, ops: seq<Op>, kind: PopKind, n: nat)
    requires Ok(r.store, n) && !r.brokenByTail && Legal(r, [create] + ops, kind, n)
    requires create.PushOp? && create.request.id != "" && !Present(r.store.table, create.request.id)
    requires RemoveOp(create.request.id) !in ops
    ensures
      var id, conn := create.request.id, Choose(create.up, r.store.cursor);
      var f := After(r, [create] + ops, kind, n);
      HasEntry(f.store, id, conn) && RoutedTo(f, |r.routed|, id, conn)
  {
    var id, conn := create.request.id, Choose(create.up, r.store.cursor);
    assert ([create] + ops)[1..] == ops;
    StepKeepsOk(r, create, kind, n);
    var s := Step(r, create, kind, n);
    AddRefinesMap(r.store.table, Fresh(id, conn, create.now, create.request.fn, create.request.param));
    EntryByMap(s.store, id, conn);
    EntryStaysAlong(s, ops, kind, n, |r.routed|, id, conn);
  }
}
