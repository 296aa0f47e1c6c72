/** The thread pool of `tpool.h`: pushers under the shared lock, `start` and `end` under the
    exclusive one, and one thread per worker with its own blocking queue, interleaved freely. A
    queue operation is one atomic step; a pop is possible only when the queue is not empty. */
module ThreadPool {
  import opened Sums

  /** A queued packaged task: a caller's, or the no-op that `worker::end` uses to wake the thread.
      A task carries the hash it was pushed with and the number of `start` calls completed then. */
  datatype Item = Task(name: nat, hash: nat, epoch: nat) | Noop

  /** The program counter of a worker's thread. `Done` is a finished thread not joined yet. */
  datatype Pc =
    | NoThread
    | TestEnd | Pop | Run(item: Item)
    | TestEmpty | DrainPop | DrainRun(item: Item)
    | Done

  /** `accepted` and `ran` record every item ever queued here and every item whose run finished. */
  datatype Worker = Worker(pc: Pc, queue: seq<Item>, accepted: seq<Item>, ran: seq<Item>)

  /** Where the holder of the exclusive lock is. In Starting and Ending, i is the worker at hand
      and `joining` says that its no-op has been pushed and its thread is being joined. */
  datatype Control =
    | Idle
    | StartFlag(n: nat) | Starting(n: nat, i: nat, joining: bool)
    | EndSwap | EndFlag(n: nat) | Ending(n: nat, i: nat, joining: bool)

  /** A pusher holding the shared lock, before and after it has read the number of threads. */
  datatype Pusher = Locked(name: nat, hash: nat) | Chosen(name: nat, hash: nat, n: nat) | Leaving

  datatype Pool = Pool(threadNum: nat, end: bool, workers: seq<Worker>, control: Control,
                       pushers: map<nat, Pusher>, sizes: seq<nat>)

  datatype Action =
    | LockToStart(n: nat) | LockToEnd | ControlStep
    | WorkerStep(i: nat)
    | PushLock(p: nat, name: nat, hash: nat) | PushStep(p: nat)

  function Enqueue(w: Worker, item: Item): Worker {
    w.(queue := w.queue + [item], accepted := w.accepted + [item])
  }

  /** One step of a worker's thread; `end` is the shared flag. */
  function ThreadStep(w: Worker, end: bool): Worker
    requires CanRun(w)
  {
    match w.pc
    case TestEnd => w.(pc := if end then TestEmpty else Pop)
    case Pop => w.(pc := Run(w.queue[0]), queue := w.queue[1..])
    case Run(item) => w.(pc := TestEnd, ran := w.ran + [item])
    case TestEmpty => w.(pc := if w.queue == [] then Done else DrainPop)
    case DrainPop => w.(pc := DrainRun(w.queue[0]), queue := w.queue[1..])
    case DrainRun(item) => w.(pc := TestEmpty, ran := w.ran + [item])
  }

  predicate CanRun(w: Worker) {
    match w.pc
    case NoThread => false
    case Done => false
    case Pop => w.queue != []
    case DrainPop => w.queue != []
    case _ => true
  }

  /** A join can return only once the thread is done. */
  predicate ControlCanStep(s: Pool) {
    match s.control
    case Idle => false
    case Starting(n, i, joining) => n <= |s.workers| && (joining ==> i < n && s.workers[i].pc == Done)
    case Ending(n, i, joining) => n <= |s.workers| && (joining ==> i < n && s.workers[i].pc == Done)
    case _ => true
  }

  predicate Enabled(s: Pool, a: Action) {
    match a
    case LockToStart(n) => s.control == Idle && s.pushers == map[] && 0 < n <= |s.workers|
    case LockToEnd => s.control == Idle && s.pushers == map[]
    case ControlStep => ControlCanStep(s)
    case WorkerStep(i) => i < |s.workers| && CanRun(s.workers[i])
    case PushLock(p, name, hash) => s.control == Idle && p !in s.pushers
    case PushStep(p) =>
      p in s.pushers && (s.pushers[p].Chosen? ==> 0 < s.pushers[p].n <= |s.workers|)
  }

  function WithWorker(s: Pool, i: nat, w: Worker): Pool
    requires i < |s.workers|
  {
    s.(workers := s.workers[i := w])
  }

  function StartStep(s: Pool): Pool
    requires s.control.Starting? && ControlCanStep(s)
  {
    var Starting(n, i, joining) := s.control;
    if joining then
      WithWorker(s, i, s.workers[i].(pc := TestEnd)).(control := Starting(n, i + 1, false))
    else if i >= n then
      s.(threadNum := n, control := Idle, sizes := s.sizes + [n])
    else if s.workers[i].pc != NoThread then
      WithWorker(s, i, Enqueue(s.workers[i], Noop)).(control := Starting(n, i, true))
    else
      WithWorker(s, i, s.workers[i].(pc := TestEnd)).(control := Starting(n, i + 1, false))
  }

  function EndStep(s: Pool): Pool
    requires s.control.Ending? && ControlCanStep(s)
  {
    var Ending(n, i, joining) := s.control;
    if joining then
      WithWorker(s, i, s.workers[i].(pc := NoThread)).(control := Ending(n, i + 1, false))
    else if i >= n then
      s.(control := Idle)
    else if s.workers[i].pc != NoThread then
      WithWorker(s, i, Enqueue(s.workers[i], Noop)).(control := Ending(n, i, true))
    else
      s.(control := Ending(n, i + 1, false))
  }

  function PusherStep(s: Pool, p: nat): Pool
    requires Enabled(s, PushStep(p))
  {
    match s.pushers[p]
    case Locked(name, hash) =>
      if s.threadNum == 0 then s.(pushers := s.pushers - {p})
      else s.(pushers := s.pushers[p := Chosen(name, hash, s.threadNum)])
    case Chosen(name, hash, n) =>
      var i := hash % n;
      WithWorker(s, i, Enqueue(s.workers[i], Task(name, hash, |s.sizes|)))
        .(pushers := s.pushers[p := Leaving])
    case Leaving => s.(pushers := s.pushers - {p})
  }

  function Step(s: Pool, a: Action): Pool
    requires Enabled(s, a)
  {
    match a
    case LockToStart(n) => s.(control := StartFlag(n))
    case LockToEnd => s.(control := EndSwap)
    case ControlStep =>
      (match s.control
       case StartFlag(n) => s.(end := false, control := Starting(n, 0, false))
       case Starting(_, _, _) => StartStep(s)
       case EndSwap => s.(threadNum := 0, control := EndFlag(s.threadNum))
       case EndFlag(n) => s.(end := true, control := Ending(n, 0, false))
       case Ending(_, _, _) => EndStep(s))
    case WorkerStep(i) => WithWorker(s, i, ThreadStep(s.workers[i], s.end))
    case PushLock(p, name, hash) => s.(pushers := s.pushers[p := Locked(name, hash)])
    case PushStep(p) => PusherStep(s, p)
  }

  ghost function Start(size: nat): Pool {
    Pool(0, true, seq(size, _ => Worker(NoThread, [], [], [])), Idle, map[], [])
  }

  // Invariants.

  function InHand(w: Worker): seq<Item> {
    match w.pc
    case Run(item) => [item]
    case DrainRun(item) => [item]
    case _ => []
  }

  /** The thread is in its first loop. */
  predicate Looping(w: Worker) {
    w.pc == TestEnd || w.pc == Pop || w.pc.Run?
  }

  predicate Quiet(queue: seq<Item>) {
    queue == [] || queue == [Noop]
  }

  /** Queue discipline of one worker: first in, first out, nothing lost; the drain loop's pop never
      finds the queue empty; a thread that is done left no task behind. */
  predicate WorkerInv(w: Worker) {
    && w.accepted == w.ran + InHand(w) + w.queue
    && (w.pc == DrainPop ==> w.queue != [])
    && (w.pc == NoThread || w.pc == Done ==> Quiet(w.queue))
  }

  /** The worker of index i is one of the n in use and its thread is in the first loop; others have none. */
  predicate RunningN(s: Pool, n: nat) {
    forall i :: 0 <= i < |s.workers| ==>
      if i < n then Looping(s.workers[i]) else s.workers[i].pc == NoThread
  }

  predicate ControlInv(s: Pool) {
    && s.threadNum <= |s.workers|
    && match s.control
       case Idle => s.end == (s.threadNum == 0) && RunningN(s, s.threadNum)
       case StartFlag(n) => 0 < n <= |s.workers| && RunningN(s, s.threadNum)
                            && s.end == (s.threadNum == 0)
       case Starting(n, i, joining) =>
         && i <= n && 0 < n <= |s.workers| && !s.end
         && (s.threadNum > 0 ==> i == 0) && (joining ==> s.threadNum > 0)
         && RunningN(s, if s.threadNum > 0 then s.threadNum else i)
       case EndSwap => s.end == (s.threadNum == 0) && RunningN(s, s.threadNum)
       case EndFlag(n) => n <= |s.workers| && s.threadNum == 0 && s.end == (n == 0) && RunningN(s, n)
       case Ending(n, i, joining) =>
         && i <= n <= |s.workers| && s.threadNum == 0 && s.end && (joining ==> i < n)
         && (forall k :: 0 <= k < |s.workers| ==> (s.workers[k].pc == NoThread <==> !(i <= k < n)))
         && (forall k :: 0 <= k < |s.workers| && s.workers[k].pc == Done && !(joining && k == i) ==>
               s.workers[k].queue == [])
         && (joining ==> s.workers[i].pc == Pop ==> s.workers[i].queue != [])
  }

  predicate PusherInv(s: Pool) {
    && (s.control != Idle ==> s.pushers == map[])
    && (forall p :: p in s.pushers && s.pushers[p].Chosen? ==> 0 < s.threadNum == s.pushers[p].n)
  }

  /** A task sits at the worker its hash selects among the threads of its epoch. */
  predicate PlacementInv(s: Pool) {
    && (forall i, k :: 0 <= i < |s.workers| && 0 <= k < |s.workers[i].accepted| ==>
          WellPlaced(s.sizes, i, s.workers[i].accepted[k]))
    && (s.control == Idle && s.threadNum > 0 ==>
          s.sizes != [] && s.sizes[|s.sizes| - 1] == s.threadNum)
  }

  predicate WellPlaced(sizes: seq<nat>, i: nat, item: Item) {
    item.Task? ==>
      0 < item.epoch <= |sizes| && 0 < sizes[item.epoch - 1] && i == item.hash % sizes[item.epoch - 1]
  }

  predicate Inv(s: Pool) {
    && (forall i :: 0 <= i < |s.workers| ==> WorkerInv(s.workers[i]))
    && ControlInv(s) && PusherInv(s) && PlacementInv(s)
  }

  lemma ThreadStepKeepsWorkerInv(w: Worker, end: bool)
    requires WorkerInv(w) && CanRun(w)
    ensures WorkerInv(ThreadStep(w, end))
    ensures ThreadStep(w, end).accepted == w.accepted
  {
  }

  lemma WorkerStepKeepsControl(s: Pool, i: nat)
    requires ControlInv(s) && i < |s.workers| && CanRun(s.workers[i]) && WorkerInv(s.workers[i])
    ensures ControlInv(WithWorker(s, i, ThreadStep(s.workers[i], s.end)))
  {
  }

  lemma WorkerStepKeepsPlacement(s: Pool, i: nat)
    requires PlacementInv(s) && i < |s.workers| && CanRun(s.workers[i])
    ensures PlacementInv(WithWorker(s, i, ThreadStep(s.workers[i], s.end)))
  {
    var t := WithWorker(s, i, ThreadStep(s.workers[i], s.end));
    assert forall k :: 0 <= k < |t.workers| ==> t.workers[k].accepted == s.workers[k].accepted;
  }

  lemma WorkerStepKeepsInv(s: Pool, a: Action)
    requires Inv(s) && Enabled(s, a) && a.WorkerStep?
    ensures Inv(Step(s, a))
  {
    ThreadStepKeepsWorkerInv(s.workers[a.i], s.end);
    WorkerStepKeepsControl(s, a.i);
    WorkerStepKeepsPlacement(s, a.i);
  }

  lemma StartStepKeepsControl(s: Pool)
    requires Inv(s) && s.control.Starting? && ControlCanStep(s)
    ensures ControlInv(StartStep(s)) && PusherInv(StartStep(s))
  {
  }

  lemma StartStepKeepsInv(s: Pool)
    requires Inv(s) && s.control.Starting? && ControlCanStep(s)
    ensures Inv(StartStep(s))
  {
    StartStepKeepsControl(s);
  }

  lemma EndStepKeepsInv(s: Pool)
    requires Inv(s) && s.control.Ending? && ControlCanStep(s)
    ensures Inv(EndStep(s))
  {
  }

  /** A task appended at the worker its hash selects. */
  lemma EnqueueKeepsInv(s: Pool, p: nat)
    requires Inv(s) && Enabled(s, PushStep(p)) && s.pushers[p].Chosen?
    ensures Inv(PusherStep(s, p))
  {
    var t := PusherStep(s, p);
    var i := s.pushers[p].hash % s.pushers[p].n;
    assert t.workers == s.workers[i := t.workers[i]];
    assert WorkerInv(s.workers[i]) && WorkerInv(t.workers[i]);
    assert ControlInv(t);
    forall j, k | 0 <= j < |t.workers| && 0 <= k < |t.workers[j].accepted|
      ensures WellPlaced(t.sizes, j, t.workers[j].accepted[k])
    {
      assert k < |s.workers[j].accepted| ==> WellPlaced(s.sizes, j, s.workers[j].accepted[k]);
    }
  }

  lemma PusherStepKeepsInv(s: Pool, p: nat)
    requires Inv(s) && Enabled(s, PushStep(p))
    ensures Inv(PusherStep(s, p))
  {
    if s.pushers[p].Chosen? {
      EnqueueKeepsInv(s, p);
    }
  }

  lemma StepKeepsInv(s: Pool, a: Action)
    requires Inv(s) && Enabled(s, a)
    ensures Inv(Step(s, a))
  {
    match a
    case LockToStart(n) =>
    case LockToEnd =>
    case ControlStep =>
      if s.control.Starting? {
        StartStepKeepsInv(s);
      } else if s.control.Ending? {
        EndStepKeepsInv(s);
      }
    case WorkerStep(i) => WorkerStepKeepsInv(s, a);
    case PushLock(p, name, hash) =>
    case PushStep(p) => PusherStepKeepsInv(s, p);
  }

  // Runs.

  ghost predicate Legal(s: Pool, acts: seq<Action>)
    decreases |acts|
  {
    acts == [] || (Enabled(s, acts[0]) && Legal(Step(s, acts[0]), acts[1..]))
  }

  ghost function After(s: Pool, acts: seq<Action>): Pool
    requires Legal(s, acts)
    decreases |acts|
  {
    if acts == [] then s else After(Step(s, acts[0]), acts[1..])
  }

  lemma {:induction false} InvAlong(s: Pool, acts: seq<Action>)
    requires Inv(s) && Legal(s, acts)
    ensures Inv(After(s, acts))
    decreases |acts|
  {
    if acts != [] {
      StepKeepsInv(s, acts[0]);
      InvAlong(Step(s, acts[0]), acts[1..]);
    }
  }

  function Tasks(items: seq<Item>): seq<Item> {
    if items == [] then []
    else if items[0].Task? then [items[0]] + Tasks(items[1..])
    else Tasks(items[1..])
  }

  lemma {:induction false} TasksOfConcat(a: seq<Item>, b: seq<Item>)
    ensures Tasks(a + b) == Tasks(a) + Tasks(b)
  {
    if a == [] {
      assert a + b == b;
    } else {
      assert (a + b)[1..] == a[1..] + b;
      TasksOfConcat(a[1..], b);
    }
  }

  // What was pushed, told from the actions.

  /** The tasks sent to worker i: at each push that has read the number of threads, its task, if its
      hash selects the worker among them. */
  ghost function Sent(s: Pool, acts: seq<Action>, i: nat): seq<Item>
    requires Legal(s, acts)
    decreases |acts|
  {
    if acts == [] then [] else SentBy(s, acts[0], i) + Sent(Step(s, acts[0]), acts[1..], i)
  }

  function SentBy(s: Pool, a: Action, i: nat): seq<Item>
    requires Enabled(s, a)
  {
    if a.PushStep? && s.pushers[a.p].Chosen? && s.pushers[a.p].hash % s.pushers[a.p].n == i
    then [Task(s.pushers[a.p].name, s.pushers[a.p].hash, |s.sizes|)]
    else []
  }

  lemma StepAcceptsSent(s: Pool, a: Action, i: nat)
    requires Enabled(s, a) && i < |s.workers|
    ensures |Step(s, a).workers| == |s.workers|
    ensures Tasks(Step(s, a).workers[i].accepted) == Tasks(s.workers[i].accepted) + SentBy(s, a, i)
  {
    var before, after := s.workers[i].accepted, Step(s, a).workers[i].accepted;
    if after == before {
      assert SentBy(s, a, i) == [];
    } else {
      assert after == before + [after[|before|]];
      TasksOfConcat(before, [after[|before|]]);
    }
  }

  lemma ConcatInTurn<T>(a: seq<T>, b: seq<T>, c: seq<T>)
    ensures a + (b + c) == (a + b) + c
  {
  }

  lemma {:induction false} AcceptedIsSent(s: Pool, acts: seq<Action>, i: nat)
    requires Legal(s, acts) && i < |s.workers|
    ensures |After(s, acts).workers| == |s.workers|
    ensures Tasks(After(s, acts).workers[i].accepted) == Tasks(s.workers[i].accepted) + Sent(s, acts, i)
    decreases |acts|
  {
    if acts != [] {
      StepAcceptsSent(s, acts[0], i);
      AcceptedIsSent(Step(s, acts[0]), acts[1..], i);
      ConcatInTurn(Tasks(s.workers[i].accepted), SentBy(s, acts[0], i), Sent(Step(s, acts[0]), acts[1..], i));
    }
  }

  function Count(items: seq<Item>, name: nat, hash: nat): nat {
    if items == [] then 0
    else (if items[0].Task? && items[0].name == name && items[0].hash == hash then 1 else 0)
         + Count(items[1..], name, hash)
  }

  function AcceptedAs(name: nat, hash: nat): Worker -> nat {
    (w: Worker) => Count(w.accepted, name, hash)
  }

  function RanAs(name: nat, hash: nat): Worker -> nat {
    (w: Worker) => Count(w.ran, name, hash)
  }

  /** How often push was called with the task and the hash. */
  function PushCalls(acts: seq<Action>, name: nat, hash: nat): nat {
    if acts == [] then 0
    else (if acts[0].PushLock? && acts[0].name == name && acts[0].hash == hash then 1 else 0)
         + PushCalls(acts[1..], name, hash)
  }

  /** How many of these calls threw because they found no threads. */
  ghost function Refused(s: Pool, acts: seq<Action>, name: nat, hash: nat): nat
    requires Legal(s, acts)
    decreases |acts|
  {
    if acts == [] then 0
    else RefusedBy(s, acts[0], name, hash) + Refused(Step(s, acts[0]), acts[1..], name, hash)
  }

  function RefusedBy(s: Pool, a: Action, name: nat, hash: nat): nat
    requires Enabled(s, a)
  {
    if a.PushStep? && s.pushers[a.p] == Locked(name, hash) && s.threadNum == 0 then 1 else 0
  }

  /** The calls that are still to send their task. */
  function Askers(pushers: map<nat, Pusher>, name: nat, hash: nat): set<nat> {
    set p | p in pushers && Asks(pushers[p], name, hash)
  }

  predicate Asks(x: Pusher, name: nat, hash: nat) {
    !x.Leaving? && x.name == name && x.hash == hash
  }

  function AsksNow(pushers: map<nat, Pusher>, p: nat, name: nat, hash: nat): nat {
    if p in pushers && Asks(pushers[p], name, hash) then 1 else 0
  }

  lemma AskersUpdate(pushers: map<nat, Pusher>, p: nat, x: Pusher, name: nat, hash: nat)
    ensures |Askers(pushers[p := x], name, hash)| + AsksNow(pushers, p, name, hash)
         == |Askers(pushers, name, hash)| + (if Asks(x, name, hash) then 1 else 0)
  {
    var before, after := Askers(pushers, name, hash), Askers(pushers[p := x], name, hash);
    assert before - {p} == after - {p};
    SizeWithout(before, p);
    SizeWithout(after, p);
  }

  lemma AskersRemove(pushers: map<nat, Pusher>, p: nat, name: nat, hash: nat)
    ensures |Askers(pushers - {p}, name, hash)| + AsksNow(pushers, p, name, hash) == |Askers(pushers, name, hash)|
  {
    assert Askers(pushers - {p}, name, hash) == Askers(pushers, name, hash) - {p};
    SizeWithout(Askers(pushers, name, hash), p);
  }

  lemma SizeWithout(s: set<nat>, p: nat)
    ensures |s| == |s - {p}| + (if p in s then 1 else 0)
  {
    if p in s {
      assert s == (s - {p}) + {p};
    } else {
      assert s == s - {p};
    }
  }

  lemma {:induction false} CountOfConcat(a: seq<Item>, b: seq<Item>, name: nat, hash: nat)
    ensures Count(a + b, name, hash) == Count(a, name, hash) + Count(b, name, hash)
  {
    if a == [] {
      assert a + b == b;
    } else {
      assert (a + b)[1..] == a[1..] + b;
      CountOfConcat(a[1..], b, name, hash);
    }
  }

  /** The copies of a task on their way in or accepted. */
  function Total(s: Pool, name: nat, hash: nat): nat {
    Sum(s.workers, AcceptedAs(name, hash)) + |Askers(s.pushers, name, hash)|
  }

  lemma EnqueueAccepts(s: Pool, i: nat, item: Item, name: nat, hash: nat)
    requires i < |s.workers|
    ensures Sum(s.workers[i := Enqueue(s.workers[i], item)], AcceptedAs(name, hash))
         == Sum(s.workers, AcceptedAs(name, hash)) + Count([item], name, hash)
  {
    SumUpdate(s.workers, i, Enqueue(s.workers[i], item), AcceptedAs(name, hash));
    CountOfConcat(s.workers[i].accepted, [item], name, hash);
  }

  lemma SameAccepted(s: Pool, i: nat, w: Worker, name: nat, hash: nat)
    requires i < |s.workers| && w.accepted == s.workers[i].accepted
    ensures Sum(s.workers[i := w], AcceptedAs(name, hash)) == Sum(s.workers, AcceptedAs(name, hash))
  {
    SumUpdate(s.workers, i, w, AcceptedAs(name, hash));
  }

  lemma ControlKeepsTotal(s: Pool, name: nat, hash: nat)
    requires Enabled(s, ControlStep)
    ensures Total(Step(s, ControlStep), name, hash) == Total(s, name, hash)
  {
    if s.control.Starting? || s.control.Ending? {
      var i := s.control.i;
      if i < |s.workers| {
        SameAccepted(s, i, s.workers[i].(pc := TestEnd), name, hash);
        SameAccepted(s, i, s.workers[i].(pc := NoThread), name, hash);
        EnqueueAccepts(s, i, Noop, name, hash);
      }
    }
  }

  lemma PusherBalances(s: Pool, p: nat, name: nat, hash: nat)
    requires Enabled(s, PushStep(p))
    ensures Total(Step(s, PushStep(p)), name, hash) + RefusedBy(s, PushStep(p), name, hash) == Total(s, name, hash)
  {
    match s.pushers[p]
    case Locked(x, h) =>
      AskersRemove(s.pushers, p, name, hash);
      AskersUpdate(s.pushers, p, Chosen(x, h, s.threadNum), name, hash);
    case Chosen(x, h, n) =>
      AskersUpdate(s.pushers, p, Leaving, name, hash);
      EnqueueAccepts(s, h % n, Task(x, h, |s.sizes|), name, hash);
    case Leaving =>
      AskersRemove(s.pushers, p, name, hash);
  }

  lemma StepBalancesPushes(s: Pool, a: Action, name: nat, hash: nat)
    requires Enabled(s, a)
    ensures Total(Step(s, a), name, hash) + RefusedBy(s, a, name, hash)
         == Total(s, name, hash) + PushCalls([a], name, hash)
  {
    assert [a][1..] == [];
    match a
    case LockToStart(n) =>
    case LockToEnd =>
    case ControlStep => ControlKeepsTotal(s, name, hash);
    case WorkerStep(i) => SameAccepted(s, i, ThreadStep(s.workers[i], s.end), name, hash);
    case PushLock(p, x, h) => AskersUpdate(s.pushers, p, Locked(x, h), name, hash);
    case PushStep(p) => PusherBalances(s, p, name, hash);
  }

  lemma {:induction false} PushesBalance(s: Pool, acts: seq<Action>, name: nat, hash: nat)
    requires Legal(s, acts)
    ensures Total(After(s, acts), name, hash) + Refused(s, acts, name, hash)
         == Total(s, name, hash) + PushCalls(acts, name, hash)
    decreases |acts|
  {
    if acts != [] {
      assert [acts[0]][1..] == [];
      StepBalancesPushes(s, acts[0], name, hash);
      PushesBalance(Step(s, acts[0]), acts[1..], name, hash);
    }
  }

  lemma NothingAcceptedYet(size: nat, name: nat, hash: nat)
    ensures Total(Start(size), name, hash) == 0
  {
    NothingIn(Start(size).workers, name, hash);
  }

  lemma {:induction false} NothingIn(workers: seq<Worker>, name: nat, hash: nat)
    requires forall i :: 0 <= i < |workers| ==> workers[i].accepted == []
    ensures Sum(workers, AcceptedAs(name, hash)) == 0
  {
    if workers != [] {
      NothingIn(workers[1..], name, hash);
    }
  }

  /** Over every run, each call of push has been refused for want of threads, has still to send its
      task, or has its task accepted by a worker, under its own name and hash. */
  lemma EveryPushIsAccountedFor(size: nat, acts: seq<Action>, name: nat, hash: nat)
    requires Legal(Start(size), acts)
    ensures
      var s := After(Start(size), acts);
      PushCalls(acts, name, hash)
        == Sum(s.workers, AcceptedAs(name, hash)) + |Askers(s.pushers, name, hash)|
         + Refused(Start(size), acts, name, hash)
  {
    NothingAcceptedYet(size, name, hash);
    PushesBalance(Start(size), acts, name, hash);
  }

  lemma {:induction false} CountOfTasks(items: seq<Item>, name: nat, hash: nat)
    ensures Count(Tasks(items), name, hash) == Count(items, name, hash)
  {
    if items != [] {
      CountOfTasks(items[1..], name, hash);
    }
  }

  lemma {:induction false} AllAcceptedRan(workers: seq<Worker>, name: nat, hash: nat)
    requires forall i :: 0 <= i < |workers| ==> Tasks(workers[i].ran) == Tasks(workers[i].accepted)
    ensures Sum(workers, RanAs(name, hash)) == Sum(workers, AcceptedAs(name, hash))
  {
    if workers != [] {
      CountOfTasks(workers[0].ran, name, hash);
      CountOfTasks(workers[0].accepted, name, hash);
      AllAcceptedRan(workers[1..], name, hash);
    }
  }

  lemma StoppedHasRunAll(s: Pool, i: nat)
    requires Inv(s) && s.control == Idle && s.threadNum == 0 && i < |s.workers|
    ensures s.workers[i].pc == NoThread && Quiet(s.workers[i].queue)
    ensures Tasks(s.workers[i].ran) == Tasks(s.workers[i].accepted)
  {
    var w := s.workers[i];
    assert WorkerInv(w);
    assert w.accepted == w.ran + w.queue;
    TasksOfConcat(w.ran, w.queue);
  }

  /** Whenever no pool is running and nobody holds the exclusive lock -- in particular when end()
      has returned -- the tasks sent to a worker have all run there, once each and in the order they were
      sent; no thread is left, and a queue holds at most one leftover no-op. */
  lemma EndLeavesNothingBehind(size: nat, acts: seq<Action>, i: nat)
    requires Legal(Start(size), acts) && i < |After(Start(size), acts).workers|
    requires After(Start(size), acts).control == Idle && After(Start(size), acts).threadNum == 0
    ensures
      var w := After(Start(size), acts).workers[i];
      w.pc == NoThread && Tasks(w.ran) == Tasks(w.accepted) && Quiet(w.queue)
    ensures Tasks(After(Start(size), acts).workers[i].ran) == Sent(Start(size), acts, i)
  {
    InvAlong(Start(size), acts);
    StoppedHasRunAll(After(Start(size), acts), i);
    WorkersStay(Start(size), acts);
    AcceptedIsSent(Start(size), acts, i);
  }

  lemma {:induction false} WorkersStay(s: Pool, acts: seq<Action>)
    requires Legal(s, acts)
    ensures |After(s, acts).workers| == |s.workers|
    decreases |acts|
  {
    if acts != [] {
      WorkersStay(Step(s, acts[0]), acts[1..]);
    }
  }

  /** Then each call of push has run exactly once, but for those refused and those that have just come in
      and will find no threads. */
  lemma EveryPushHasRunOnce(size: nat, acts: seq<Action>, name: nat, hash: nat)
    requires Legal(Start(size), acts)
    requires After(Start(size), acts).control == Idle && After(Start(size), acts).threadNum == 0
    ensures
      var s := After(Start(size), acts);
      PushCalls(acts, name, hash)
        == Sum(s.workers, RanAs(name, hash)) + |Askers(s.pushers, name, hash)|
         + Refused(Start(size), acts, name, hash)
    ensures forall p :: p in Askers(After(Start(size), acts).pushers, name, hash) ==>
      After(Start(size), acts).pushers[p] == Locked(name, hash)
  {
    var s := After(Start(size), acts);
    InvAlong(Start(size), acts);
    forall i | 0 <= i < |s.workers|
      ensures Tasks(s.workers[i].ran) == Tasks(s.workers[i].accepted)
    {
      StoppedHasRunAll(s, i);
    }
    AllAcceptedRan(s.workers, name, hash);
    EveryPushIsAccountedFor(size, acts, name, hash);
  }

  /** The leftover is real: a thread that saw the flag, drained its queue and was done before its
      no-op was pushed leaves it behind for the next start. */
  lemma LateNoopStaysQueued(s: Pool)
    requires Inv(s) && s.control.Ending? && !s.control.joining && s.control.i < s.control.n
    requires s.workers[s.control.i].pc == Done
    ensures
      var i := s.control.i;
      && Legal(s, [ControlStep, ControlStep])
      && var t := After(s, [ControlStep, ControlStep]);
         t.workers[i].pc == NoThread && t.workers[i].queue == [Noop]
  {
    var acts := [ControlStep, ControlStep];
    var s1 := Step(s, ControlStep);
    var s2 := Step(s1, ControlStep);
    assert acts[1..] == [ControlStep] && acts[1..][1..] == [];
    assert After(s2, []) == s2;
  }

  /** A worker runs its items in the order they were pushed, at every moment of every run, and the
      tasks among them in the order they were sent. */
  lemma RunsInPushOrder(size: nat, acts: seq<Action>, i: nat)
    requires Legal(Start(size), acts) && i < |After(Start(size), acts).workers|
    ensures
      var w := After(Start(size), acts).workers[i];
      w.ran <= w.accepted && |w.accepted| <= |w.ran| + 1 + |w.queue|
    ensures Tasks(After(Start(size), acts).workers[i].ran) <= Sent(Start(size), acts, i)
  {
    InvAlong(Start(size), acts);
    WorkersStay(Start(size), acts);
    var w := After(Start(size), acts).workers[i];
    assert WorkerInv(w);
    var rest := InHand(w) + w.queue;
    assert w.accepted == w.ran + rest;
    TasksOfConcat(w.ran, rest);
    AcceptedIsSent(Start(size), acts, i);
    assert Tasks(w.accepted) == Sent(Start(size), acts, i);
  }

  /** Between a start and the next end, tasks pushed with the same hash are at the same worker. */
  lemma SameHashSameWorker(size: nat, acts: seq<Action>, i: nat, j: nat, a: Item, b: Item)
    requires Legal(Start(size), acts)
    requires i < |After(Start(size), acts).workers| && a in After(Start(size), acts).workers[i].accepted
    requires j < |After(Start(size), acts).workers| && b in After(Start(size), acts).workers[j].accepted
    requires a.Task? && b.Task? && a.epoch == b.epoch && a.hash == b.hash
    ensures i == j
  {
    InvAlong(Start(size), acts);
    var s := After(Start(size), acts);
    var k :| 0 <= k < |s.workers[i].accepted| && s.workers[i].accepted[k] == a;
    var l :| 0 <= l < |s.workers[j].accepted| && s.workers[j].accepted[l] == b;
    assert WellPlaced(s.sizes, i, a) && WellPlaced(s.sizes, j, b);
  }

  // Progress of start and end.

  function PcRank(pc: Pc): nat {
    match pc
    case NoThread => 0
    case Done => 0
    case DrainPop => 0
    case TestEmpty => 1
    case Pop => 1
    case TestEnd => 2
    case DrainRun(_) => 2
    case Run(_) => 3
  }

  /** Bounds the steps a thread can take before more work arrives. */
  function Rank(w: Worker): nat {
    3 * |w.queue| + PcRank(w.pc)
  }

  function ControlRank(s: Pool): nat {
    match s.control
    case Idle => 0
    case StartFlag(n) => 8 * n + 5
    case Starting(n, i, _) => if i <= n then 8 * (n - i) + 4 else 0
    case EndSwap => 8 * |s.workers| + 6
    case EndFlag(n) => 8 * n + 5
    case Ending(n, i, joining) => if i <= n then 8 * (n - i) + (if joining then 0 else 4) else 0
  }

  function Measure(s: Pool): nat {
    Sum(s.workers, Rank) + ControlRank(s)
  }

  /** A start of a stopped pool or an end is in progress. */
  predicate InProgress(s: Pool) {
    s.control != Idle && (s.control.StartFlag? || s.control.Starting? ==> s.threadNum == 0)
  }

  /** It is never stuck: the lock holder can step, or the thread it waits for can. */
  lemma NeverStuck(s: Pool)
    requires Inv(s) && InProgress(s)
    ensures Enabled(s, ControlStep)
         || (s.control.Ending? && s.control.joining && Enabled(s, WorkerStep(s.control.i)))
  {
    if s.control.Ending? && s.control.joining {
      assert WorkerInv(s.workers[s.control.i]);
    }
  }

  lemma ThreadStepLowersRank(w: Worker, end: bool)
    requires CanRun(w)
    ensures Rank(ThreadStep(w, end)) < Rank(w)
  {
  }

  lemma StartStepLowersMeasure(s: Pool)
    requires Inv(s) && s.control.Starting? && s.threadNum == 0 && ControlCanStep(s)
    ensures Measure(StartStep(s)) < Measure(s)
  {
    var i := s.control.i;
    if i < s.control.n {
      SumUpdate(s.workers, i, s.workers[i].(pc := TestEnd), Rank);
    }
  }

  lemma EndStepLowersMeasure(s: Pool)
    requires Inv(s) && s.control.Ending? && ControlCanStep(s)
    ensures Measure(EndStep(s)) < Measure(s)
  {
    var i := s.control.i;
    if i < s.control.n {
      SumUpdate(s.workers, i, s.workers[i].(pc := NoThread), Rank);
      SumUpdate(s.workers, i, Enqueue(s.workers[i], Noop), Rank);
    }
  }

  /** A push in progress never waits: pushers only share the lock and append to a queue. */
  lemma PushersCanStep(s: Pool, p: nat)
    requires Inv(s) && p in s.pushers
    ensures Enabled(s, PushStep(p))
  {
  }

  /** And every step of anyone brings its return closer. */
  lemma MeasureDecreases(s: Pool, a: Action)
    requires Inv(s) && InProgress(s) && Enabled(s, a)
    ensures Measure(Step(s, a)) < Measure(s)
    ensures Step(s, a).control != Idle ==> InProgress(Step(s, a))
  {
    match a
    case WorkerStep(i) =>
      ThreadStepLowersRank(s.workers[i], s.end);
      SumUpdate(s.workers, i, ThreadStep(s.workers[i], s.end), Rank);
    case ControlStep =>
      if s.control.Starting? {
        StartStepLowersMeasure(s);
      } else if s.control.Ending? {
        EndStepLowersMeasure(s);
      }
    case _ =>
  }

  /** A start of a stopped pool, or an end, returns within a bounded number of steps under every
      schedule: any longer run passes through a state in which the lock is free again. */
  lemma {:induction false} StartAndEndReturn(s: Pool, acts: seq<Action>) returns (k: nat)
    requires Inv(s) && InProgress(s) && Legal(s, acts) && Measure(s) < |acts|
    ensures k <= |acts| && Legal(s, acts[..k]) && After(s, acts[..k]).control == Idle
    decreases |acts|
  {
    var t := Step(s, acts[0]);
    MeasureDecreases(s, acts[0]);
    StepKeepsInv(s, acts[0]);
    if t.control == Idle {
      k := 1;
      assert acts[..1][1..] == [];
    } else {
      var j := StartAndEndReturn(t, acts[1..]);
      k := j + 1;
      assert acts[..k][1..] == acts[1..][..j];
    }
  }

  /** The exclusive lock is held in every state of the run but perhaps the last. */
  ghost predicate Held(s: Pool, acts: seq<Action>)
    requires Legal(s, acts)
    decreases |acts|
  {
    acts == [] || (s.control != Idle && Held(Step(s, acts[0]), acts[1..]))
  }

  predicate IsStarting(s: Pool, n: nat) {
    (s.control.StartFlag? || s.control.Starting?) && s.control.n == n
  }

  predicate IsEnding(s: Pool) {
    s.control.EndSwap? || s.control.EndFlag? || s.control.Ending?
  }

  lemma {:induction false} StartingEndsInRunning(s: Pool, n: nat, acts: seq<Action>)
    requires Inv(s) && IsStarting(s, n) && Legal(s, acts) && Held(s, acts)
    ensures
      var t := After(s, acts);
      if t.control == Idle then t.threadNum == n && RunningN(t, n) && t.sizes == s.sizes + [n]
      else IsStarting(t, n) && t.sizes == s.sizes
    decreases |acts|
  {
    if acts != [] {
      var t := Step(s, acts[0]);
      StepKeepsInv(s, acts[0]);
      if t.control != Idle {
        StartingEndsInRunning(t, n, acts[1..]);
      }
    }
  }

  /** When start(n) returns, the pool has n threads, all in their loops. */
  lemma StartGivesNThreads(s: Pool, n: nat, acts: seq<Action>)
    requires Inv(s) && Enabled(s, LockToStart(n))
    requires Legal(Step(s, LockToStart(n)), acts) && Held(Step(s, LockToStart(n)), acts)
    requires After(Step(s, LockToStart(n)), acts).control == Idle
    ensures
      var t := After(Step(s, LockToStart(n)), acts);
      t.threadNum == n && RunningN(t, n) && t.sizes == s.sizes + [n]
  {
    StepKeepsInv(s, LockToStart(n));
    StartingEndsInRunning(Step(s, LockToStart(n)), n, acts);
  }

  lemma {:induction false} EndingEndsInStopped(s: Pool, acts: seq<Action>)
    requires Inv(s) && IsEnding(s) && Legal(s, acts) && Held(s, acts)
    ensures
      var t := After(s, acts);
      if t.control == Idle then t.threadNum == 0 && RunningN(t, 0) && t.end else IsEnding(t)
    decreases |acts|
  {
    if acts != [] {
      var t := Step(s, acts[0]);
      StepKeepsInv(s, acts[0]);
      if t.control != Idle {
        EndingEndsInStopped(t, acts[1..]);
      }
    }
  }

  /** When end() returns, the pool has no thread. */
  lemma EndGivesNoThreads(s: Pool, acts: seq<Action>)
    requires Inv(s) && Enabled(s, LockToEnd)
    requires Legal(Step(s, LockToEnd), acts) && Held(Step(s, LockToEnd), acts)
    requires After(Step(s, LockToEnd), acts).control == Idle
    ensures
      var t := After(Step(s, LockToEnd), acts);
      t.threadNum == 0 && RunningN(t, 0) && t.end
  {
    StepKeepsInv(s, LockToEnd);
    EndingEndsInStopped(Step(s, LockToEnd), acts);
  }

  /** Starting a pool that is running already never returns: its first join waits for a thread that
      no one tells to end. */
  lemma {:induction false} RestartNeverReturns(s: Pool, acts: seq<Action>)
    requires Inv(s) && (s.control.StartFlag? || s.control.Starting?) && 0 < s.threadNum
    requires Legal(s, acts)
    ensures After(s, acts).control != Idle
    decreases |acts|
  {
    if acts != [] {
      StepKeepsInv(s, acts[0]);
      RestartNeverReturns(Step(s, acts[0]), acts[1..]);
    }
  }
}
