/** The work queue of `workev.c`: workers taking jobs from a stack under a mutex, sleeping on a
    condition variable while it is empty, and a shutdown that sets the workers' flags without the
    mutex before it empties the stack and wakes everybody. */
module WorkQueue {
  import opened Sums
  import opened JobList

  type Job = nat

  /** A worker's program counter. From LoopTest to ExitTest and Take it holds the mutex; a woken
      worker has yet to get the mutex back. */
  datatype Pc =
    | AtLock | LoopTest | SleepTest | Asleep | Woken | ExitTest | Take
    | Running(job: Job) | Exited

  /** Shutdown: not begun, setting flag k next, or past its critical section. */
  datatype Shutdown = Open | Flagging(k: nat) | Closed

  datatype State = State(waiting: seq<Job>, terminate: seq<bool>, pcs: seq<Pc>, shutdown: Shutdown,
                         added: multiset<Job>, finished: multiset<Job>, dropped: multiset<Job>)

  datatype Action =
    | WorkerStep(i: nat)
    | Spurious(i: nat)
    | AddJob(job: Job, woken: nat)
    | SetFlag | Close

  predicate Holding(pc: Pc) {
    pc == LoopTest || pc == SleepTest || pc == ExitTest || pc == Take
  }

  predicate MutexFree(s: State) {
    forall i :: 0 <= i < |s.pcs| ==> !Holding(s.pcs[i])
  }

  predicate SomeAsleep(s: State) {
    exists i :: 0 <= i < |s.pcs| && s.pcs[i] == Asleep
  }

  predicate At(s: State, i: nat, pc: Pc) {
    i < |s.pcs| && s.pcs[i] == pc
  }

  /** A worker that wants the mutex waits until it is free. */
  predicate CanStep(s: State, i: nat) {
    && i < |s.pcs| && i < |s.terminate|
    && s.pcs[i] != Asleep && s.pcs[i] != Exited
    && (s.pcs[i] == AtLock || s.pcs[i] == Woken ==> MutexFree(s))
  }

  /** The signal of an added job wakes one sleeper if there is any. */
  predicate Enabled(s: State, a: Action) {
    match a
    case WorkerStep(i) => CanStep(s, i)
    case Spurious(i) => At(s, i, Asleep)
    case AddJob(job, woken) => MutexFree(s) && (SomeAsleep(s) ==> At(s, woken, Asleep))
    case SetFlag => s.shutdown == Open || (s.shutdown.Flagging? && s.shutdown.k < |s.terminate|)
    case Close => MutexFree(s) && (s.shutdown == Flagging(|s.pcs|) || s.shutdown == Closed)
  }

  function Goto(s: State, i: nat, pc: Pc): State
    requires i < |s.pcs|
  {
    s.(pcs := s.pcs[i := pc])
  }

  /** One step of a worker's thread. */
  function WorkerMove(s: State, i: nat): State
    requires CanStep(s, i)
  {
    match s.pcs[i]
    case AtLock => Goto(s, i, LoopTest)
    case Woken => Goto(s, i, LoopTest)
    case LoopTest => Goto(s, i, if s.waiting == [] then SleepTest else ExitTest)
    case SleepTest => Goto(s, i, if s.terminate[i] then ExitTest else Asleep)
    case ExitTest => Goto(s, i, if s.terminate[i] then Exited else Take)
    case Take =>
      if s.waiting == [] then Goto(s, i, AtLock)
      else Goto(s, i, Running(s.waiting[0])).(waiting := s.waiting[1..])
    case Running(job) => Goto(s, i, AtLock).(finished := s.finished + multiset{job})
  }

  function Wake(pc: Pc): Pc {
    if pc == Asleep then Woken else pc
  }

  function Step(s: State, a: Action): State
    requires Enabled(s, a)
  {
    match a
    case WorkerStep(i) => WorkerMove(s, i)
    case Spurious(i) => Goto(s, i, Woken)
    case AddJob(job, woken) =>
      var t := if SomeAsleep(s) then Goto(s, woken, Woken) else s;
      t.(waiting := [job] + s.waiting, added := s.added + multiset{job})
    case SetFlag =>
      var k := if s.shutdown == Open then 0 else s.shutdown.k;
      if k < |s.terminate| then s.(terminate := s.terminate[k := true], shutdown := Flagging(k + 1))
      else s.(shutdown := Flagging(k))
    case Close =>
      s.(waiting := [], dropped := s.dropped + multiset(s.waiting), shutdown := Closed,
         pcs := seq(|s.pcs|, i requires 0 <= i < |s.pcs| => Wake(s.pcs[i])))
  }

  ghost function Start(n: nat): State {
    State([], seq(n, _ => false), seq(n, _ => AtLock), Open, multiset{}, multiset{}, multiset{})
  }

  // Invariants.

  predicate MutualExclusion(s: State) {
    forall i, j :: 0 <= i < j < |s.pcs| ==> !(Holding(s.pcs[i]) && Holding(s.pcs[j]))
  }

  /** How many flags shutdown has set. */
  predicate FlagsInv(s: State) {
    && |s.terminate| == |s.pcs|
    && (s.shutdown.Flagging? ==> s.shutdown.k <= |s.pcs|)
    && forall i :: 0 <= i < |s.pcs| ==>
         (s.terminate[i] <==> match s.shutdown case Open => false case Flagging(k) => i < k case Closed => true)
  }

  /** What the holder of the mutex knows. A worker past both tests finds a job, so
      worker_function's test of the job pointer for null never succeeds. */
  predicate HolderInv(s: State) {
    forall i :: 0 <= i < |s.pcs| && i < |s.terminate| ==>
      && (s.pcs[i] == SleepTest ==> s.waiting == [])
      && (s.pcs[i] == ExitTest && s.waiting == [] ==> s.terminate[i])
      && (s.pcs[i] == Take ==> s.waiting != [])
  }

  /** After shutdown's critical section no one sleeps and no one is about to take a job. */
  predicate ClosedInv(s: State) {
    s.shutdown == Closed ==>
      forall i :: 0 <= i < |s.pcs| ==> s.pcs[i] != Asleep && s.pcs[i] != Take
  }

  /** The workers that will look at the stack without being woken first. */
  function Ready(pc: Pc): nat {
    if pc.Running? || pc == Asleep || pc == Exited then 0 else 1
  }

  predicate NoLostWakeup(s: State) {
    s.shutdown == Open && SomeAsleep(s) ==> |s.waiting| <= Sum(s.pcs, Ready)
  }

  function RunningAs(job: Job): Pc -> nat {
    pc => if pc == Running(job) then 1 else 0
  }

  /** Where the copies of a job are: waiting, running, finished, or dropped by shutdown. */
  predicate JobBalance(s: State, job: Job) {
    s.added[job] == multiset(s.waiting)[job] + Sum(s.pcs, RunningAs(job)) + s.finished[job] + s.dropped[job]
  }

  ghost predicate JobsConserved(s: State) {
    forall job :: JobBalance(s, job)
  }

  ghost predicate Inv(s: State) {
    MutualExclusion(s) && FlagsInv(s) && HolderInv(s) && ClosedInv(s) && NoLostWakeup(s) && JobsConserved(s)
  }

  lemma WorkerKeepsMutualExclusion(s: State, i: nat)
    requires MutualExclusion(s) && CanStep(s, i)
    ensures MutualExclusion(WorkerMove(s, i))
  {
    var t := WorkerMove(s, i);
    forall j, k | 0 <= j < k < |t.pcs|
      ensures !(Holding(t.pcs[j]) && Holding(t.pcs[k]))
    {
      if Holding(t.pcs[i]) && (i == j || i == k) {
        var other := if i == j then k else j;
        assert t.pcs[other] == s.pcs[other];
        assert MutexFree(s) || Holding(s.pcs[i]);
      }
    }
  }

  lemma StepKeepsMutualExclusion(s: State, a: Action)
    requires MutualExclusion(s) && Enabled(s, a)
    ensures MutualExclusion(Step(s, a))
  {
    if a.WorkerStep? {
      WorkerKeepsMutualExclusion(s, a.i);
    }
  }

  lemma StepKeepsFlags(s: State, a: Action)
    requires FlagsInv(s) && Enabled(s, a)
    ensures FlagsInv(Step(s, a))
  {
  }

  lemma WorkerKeepsHolder(s: State, i: nat)
    requires MutualExclusion(s) && FlagsInv(s) && HolderInv(s) && CanStep(s, i)
    ensures HolderInv(WorkerMove(s, i))
  {
    var t := WorkerMove(s, i);
    if t.waiting != s.waiting {
      assert s.pcs[i] == Take;
      assert forall j :: 0 <= j < |s.pcs| && j != i ==> !Holding(s.pcs[j]);
    }
  }

  lemma StepKeepsHolder(s: State, a: Action)
    requires MutualExclusion(s) && FlagsInv(s) && HolderInv(s) && Enabled(s, a)
    ensures HolderInv(Step(s, a))
  {
    match a
    case WorkerStep(i) => WorkerKeepsHolder(s, i);
    case Spurious(i) =>
    case AddJob(_, _) => assert forall j :: 0 <= j < |s.pcs| ==> !Holding(Step(s, a).pcs[j]);
    case SetFlag =>
    case Close => assert forall j :: 0 <= j < |s.pcs| ==> !Holding(Step(s, a).pcs[j]);
  }

  lemma StepKeepsClosed(s: State, a: Action)
    requires FlagsInv(s) && ClosedInv(s) && Enabled(s, a)
    ensures ClosedInv(Step(s, a))
  {
  }

  lemma StepKeepsWakeups(s: State, a: Action)
    requires FlagsInv(s) && HolderInv(s) && NoLostWakeup(s) && Enabled(s, a)
    ensures NoLostWakeup(Step(s, a))
  {
    match a
    case SetFlag =>
    case Close =>
    case AddJob(job, woken) =>
      if SomeAsleep(s) {
        SumUpdate(s.pcs, woken, Woken, Ready);
      }
    case Spurious(i) => SumUpdate(s.pcs, i, Woken, Ready);
    case WorkerStep(i) => WorkerKeepsWakeups(s, i);
  }

  lemma WorkerKeepsWakeups(s: State, i: nat)
    requires FlagsInv(s) && HolderInv(s) && NoLostWakeup(s) && CanStep(s, i)
    ensures NoLostWakeup(WorkerMove(s, i))
  {
    var t := WorkerMove(s, i);
    SumUpdate(s.pcs, i, t.pcs[i], Ready);
    if s.pcs[i] == SleepTest {
      assert s.waiting == [];
    } else if SomeAsleep(t) {
      var k :| 0 <= k < |t.pcs| && t.pcs[k] == Asleep;
      assert s.pcs[k] == Asleep;
    }
  }

  lemma {:induction false} RunningWoken(pcs: seq<Pc>, woken: seq<Pc>, job: Job)
    requires |woken| == |pcs| && forall i :: 0 <= i < |pcs| ==> woken[i] == Wake(pcs[i])
    ensures Sum(woken, RunningAs(job)) == Sum(pcs, RunningAs(job))
  {
    if pcs != [] {
      RunningWoken(pcs[1..], woken[1..], job);
    }
  }

  lemma StepBalancesJob(s: State, a: Action, job: Job)
    requires JobBalance(s, job) && Enabled(s, a)
    ensures JobBalance(Step(s, a), job)
  {
    match a
    case SetFlag =>
    case Close => RunningWoken(s.pcs, Step(s, a).pcs, job);
    case AddJob(added, woken) =>
      assert multiset([added] + s.waiting) == multiset{added} + multiset(s.waiting);
      if SomeAsleep(s) {
        SumUpdate(s.pcs, woken, Woken, RunningAs(job));
      }
    case Spurious(i) => SumUpdate(s.pcs, i, Woken, RunningAs(job));
    case WorkerStep(i) => WorkerBalancesJob(s, i, job);
  }

  lemma WorkerBalancesJob(s: State, i: nat, job: Job)
    requires JobBalance(s, job) && CanStep(s, i)
    ensures JobBalance(WorkerMove(s, i), job)
  {
    var t := WorkerMove(s, i);
    SumUpdate(s.pcs, i, t.pcs[i], RunningAs(job));
    if s.pcs[i] == Take && s.waiting != [] {
      assert s.waiting == [s.waiting[0]] + s.waiting[1..];
      assert multiset(s.waiting) == multiset{s.waiting[0]} + multiset(t.waiting);
    }
  }

  lemma StepKeepsInv(s: State, a: Action)
    requires Inv(s) && Enabled(s, a)
    ensures Inv(Step(s, a))
  {
    StepKeepsMutualExclusion(s, a);
    StepKeepsFlags(s, a);
    StepKeepsHolder(s, a);
    StepKeepsClosed(s, a);
    StepKeepsWakeups(s, a);
    forall job
      ensures JobBalance(Step(s, a), job)
    {
      StepBalancesJob(s, a, job);
    }
  }

  // Runs.

  ghost predicate Legal(s: State, acts: seq<Action>)
    decreases |acts|
  {
    acts == [] || (Enabled(s, acts[0]) && Legal(Step(s, acts[0]), acts[1..]))
  }

  ghost function After(s: State, acts: seq<Action>): State
    requires Legal(s, acts)
    decreases |acts|
  {
    if acts == [] then s else After(Step(s, acts[0]), acts[1..])
  }

  lemma {:induction false} InvAlong(s: State, acts: seq<Action>)
    requires Inv(s) && Legal(s, acts)
    ensures Inv(After(s, acts))
    decreases |acts|
  {
    if acts != [] {
      StepKeepsInv(s, acts[0]);
      InvAlong(Step(s, acts[0]), acts[1..]);
    }
  }

  lemma {:induction false} NoneRunning(n: nat, job: Job)
    ensures Sum(seq(n, _ => AtLock), RunningAs(job)) == 0
  {
    if n > 0 {
      assert seq(n, _ => AtLock)[1..] == seq(n - 1, _ => AtLock);
      NoneRunning(n - 1, job);
    }
  }

  lemma StartInv(n: nat)
    ensures Inv(Start(n))
  {
    forall job
      ensures JobBalance(Start(n), job)
    {
      NoneRunning(n, job);
    }
  }

  /** No wakeup is lost: before any shutdown, in every reachable state, while somebody sleeps there
      are at least as many workers on their way to the stack as there are jobs on it. */
  lemma SleepersLeaveEnoughAwake(n: nat, acts: seq<Action>, i: nat)
    requires Legal(Start(n), acts)
    requires After(Start(n), acts).shutdown == Open && At(After(Start(n), acts), i, Asleep)
    ensures |After(Start(n), acts).waiting| <= Sum(After(Start(n), acts).pcs, Ready)
  {
    StartInv(n);
    InvAlong(Start(n), acts);
    assert After(Start(n), acts).pcs[i] == Asleep;
  }

  /** How often the job was handed to workqueue_add_job. */
  function Adds(acts: seq<Action>, job: Job): nat {
    if acts == [] then 0
    else (if acts[0].AddJob? && acts[0].job == job then 1 else 0) + Adds(acts[1..], job)
  }

  lemma {:induction false} AddedAlong(s: State, acts: seq<Action>, job: Job)
    requires Legal(s, acts)
    ensures After(s, acts).added[job] == s.added[job] + Adds(acts, job)
    decreases |acts|
  {
    if acts != [] {
      AddedAlong(Step(s, acts[0]), acts[1..], job);
    }
  }

  /** Over every run, each copy of a job handed to workqueue_add_job is in exactly one place. */
  lemma EveryJobIsSomewhere(n: nat, acts: seq<Action>, job: Job)
    requires Legal(Start(n), acts)
    ensures
      var s := After(Start(n), acts);
      Adds(acts, job)
        == multiset(s.waiting)[job] + Sum(s.pcs, RunningAs(job)) + s.finished[job] + s.dropped[job]
  {
    StartInv(n);
    InvAlong(Start(n), acts);
    AddedAlong(Start(n), acts, job);
    assert JobBalance(After(Start(n), acts), job);
  }

  /** All the states the run passes through have at least so many jobs waiting. */
  ghost predicate NeverBelow(s: State, acts: seq<Action>, depth: nat)
    requires Legal(s, acts)
    decreases |acts|
  {
    depth <= |s.waiting| && (acts == [] || NeverBelow(Step(s, acts[0]), acts[1..], depth))
  }

  /** The jobs at the bottom of the stack, the last `depth` of them. */
  function Bottom(waiting: seq<Job>, depth: nat): seq<Job>
    requires depth <= |waiting|
  {
    waiting[|waiting| - depth..]
  }

  lemma StepKeepsBottom(s: State, a: Action, depth: nat)
    requires Enabled(s, a) && depth <= |s.waiting| && depth <= |Step(s, a).waiting| && a != Close
    ensures Bottom(Step(s, a).waiting, depth) == Bottom(s.waiting, depth)
  {
  }

  /** Last in, first out: while no fewer jobs wait than at a state, those jobs lie untouched and in order
      below the ones added since. So when as many wait again, the stack is the same, and
      the next job taken is the one that was on top of it. */
  lemma {:induction false} LastInFirstOut(s: State, acts: seq<Action>, depth: nat)
    requires Legal(s, acts) && Close !in acts && NeverBelow(s, acts, depth)
    ensures depth <= |After(s, acts).waiting|
    ensures Bottom(After(s, acts).waiting, depth) == Bottom(s.waiting, depth)
    decreases |acts|
  {
    if acts != [] {
      StepKeepsBottom(s, acts[0], depth);
      LastInFirstOut(Step(s, acts[0]), acts[1..], depth);
    }
  }

  /** The job added last is the one a worker takes next, once all added after it are gone. */
  lemma AddedJobIsTaken(s: State, job: Job, woken: nat, acts: seq<Action>, i: nat)
    requires Enabled(s, AddJob(job, woken)) && Legal(Step(s, AddJob(job, woken)), acts) && Close !in acts
    requires NeverBelow(Step(s, AddJob(job, woken)), acts, |s.waiting| + 1)
    requires
      var t := After(Step(s, AddJob(job, woken)), acts);
      |t.waiting| == |s.waiting| + 1 && At(t, i, Take) && CanStep(t, i)
    ensures
      var t := After(Step(s, AddJob(job, woken)), acts);
      At(Step(t, WorkerStep(i)), i, Running(job)) && Step(t, WorkerStep(i)).waiting == s.waiting
  {
    var added := Step(s, AddJob(job, woken));
    LastInFirstOut(added, acts, |s.waiting| + 1);
    assert added.waiting[1..] == s.waiting;
  }

  // The job list carries these steps out.

  method AddOnList(stack: JobStack, item: JobNode, ghost s: State, ghost woken: nat)
    requires stack.Valid() && stack.ForwardOnly() && item !in stack.Nodes
    requires stack.Jobs() == s.waiting && Enabled(s, AddJob(item.job, woken))
    modifies stack, item
    ensures stack.Valid() && stack.ForwardOnly()
    ensures stack.Jobs() == Step(s, AddJob(item.job, woken)).waiting
  {
    stack.Add(item);
  }

  method TakeFromList(stack: JobStack, ghost s: State, ghost i: nat) returns (node: JobNode?)
    requires stack.Valid() && stack.ForwardOnly()
    requires stack.Jobs() == s.waiting && At(s, i, Take) && CanStep(s, i)
    modifies stack, stack.Nodes
    ensures stack.Valid() && stack.ForwardOnly()
    ensures stack.Jobs() == Step(s, WorkerStep(i)).waiting
    ensures At(Step(s, WorkerStep(i)), i, if node == null then AtLock else Running(node.job))
  {
    node := stack.TakeHead();
  }

  method CloseOnList(stack: JobStack, ghost s: State)
    requires stack.Jobs() == s.waiting && Enabled(s, Close)
    modifies stack
    ensures stack.Valid() && stack.ForwardOnly()
    ensures stack.Jobs() == Step(s, Close).waiting
  {
    stack.Clear();
  }

  /** A worker past its tests finds a job: worker_function never goes round its loop for want of one. */
  lemma TakeFindsAJob(n: nat, acts: seq<Action>, i: nat)
    requires Legal(Start(n), acts) && At(After(Start(n), acts), i, Take)
    ensures After(Start(n), acts).waiting != []
  {
    StartInv(n);
    InvAlong(Start(n), acts);
  }

  /** A worker that has exited had its flag set. */
  predicate LeaveInv(s: State) {
    forall i :: 0 <= i < |s.pcs| && i < |s.terminate| && s.pcs[i] == Exited ==> s.terminate[i]
  }

  lemma StepKeepsLeave(s: State, a: Action)
    requires FlagsInv(s) && LeaveInv(s) && Enabled(s, a)
    ensures LeaveInv(Step(s, a))
  {
    assert forall i :: 0 <= i < |s.terminate| && s.terminate[i] ==> Step(s, a).terminate[i];
  }

  lemma {:induction false} LeaveAlong(s: State, acts: seq<Action>)
    requires Inv(s) && LeaveInv(s) && Legal(s, acts)
    ensures Inv(After(s, acts)) && LeaveInv(After(s, acts))
    decreases |acts|
  {
    if acts != [] {
      StepKeepsInv(s, acts[0]);
      StepKeepsLeave(s, acts[0]);
      LeaveAlong(Step(s, acts[0]), acts[1..]);
    }
  }

  /** Over every run, nobody leaves before shutdown has begun, nor before it has set the worker's flag. */
  lemma NobodyLeavesEarly(n: nat, acts: seq<Action>, i: nat)
    requires Legal(Start(n), acts) && At(After(Start(n), acts), i, Exited)
    ensures
      var s := After(Start(n), acts);
      s.shutdown != Open && (s.shutdown.Flagging? ==> i < s.shutdown.k)
  {
    StartInv(n);
    LeaveAlong(Start(n), acts);
  }

  function Started(s: State, job: Job): nat {
    Sum(s.pcs, RunningAs(job)) + s.finished[job]
  }

  lemma ClosedMoveStartsNothing(s: State, i: nat, job: Job)
    requires CanStep(s, i) && s.pcs[i] != Take
    ensures Started(WorkerMove(s, i), job) == Started(s, job)
  {
    SumUpdate(s.pcs, i, WorkerMove(s, i).pcs[i], RunningAs(job));
  }

  lemma ClosedStepStartsNothing(s: State, a: Action, job: Job)
    requires ClosedInv(s) && s.shutdown == Closed && Enabled(s, a)
    ensures Step(s, a).shutdown == Closed
    ensures Started(Step(s, a), job) == Started(s, job)
  {
    if a.WorkerStep? {
      ClosedMoveStartsNothing(s, a.i, job);
    } else if a.Close? {
      RunningWoken(s.pcs, Step(s, a).pcs, job);
    }
  }

  /** Once shutdown has left its critical section no job is dequeued any more, even one added later,
      and nobody is asleep or falls asleep again. */
  lemma {:induction false} NothingStartsAfterShutdown(s: State, acts: seq<Action>, job: Job)
    requires Inv(s) && s.shutdown == Closed && Legal(s, acts)
    ensures After(s, acts).shutdown == Closed && !SomeAsleep(After(s, acts))
    ensures Started(After(s, acts), job) == Started(s, job)
    decreases |acts|
  {
    if acts != [] {
      StepKeepsInv(s, acts[0]);
      ClosedStepStartsNothing(s, acts[0], job);
      NothingStartsAfterShutdown(Step(s, acts[0]), acts[1..], job);
    }
  }

  lemma MoveAddsNothing(s: State, i: nat, job: Job)
    requires CanStep(s, i)
    ensures multiset(WorkerMove(s, i).waiting)[job] <= multiset(s.waiting)[job]
  {
    if s.waiting != [] {
      assert s.waiting == [s.waiting[0]] + s.waiting[1..];
      assert multiset(s.waiting) == multiset{s.waiting[0]} + multiset(s.waiting[1..]);
    }
  }

  lemma StepAddsJob(s: State, a: Action, job: Job)
    requires Enabled(s, a)
    ensures multiset(Step(s, a).waiting)[job] <= multiset(s.waiting)[job] + Adds([a], job)
  {
    assert [a][1..] == [] && Adds([a], job) == if a.AddJob? && a.job == job then 1 else 0;
    if a.AddJob? {
      assert multiset([a.job] + s.waiting) == multiset{a.job} + multiset(s.waiting);
    } else if a.WorkerStep? {
      MoveAddsNothing(s, a.i, job);
    }
  }

  lemma {:induction false} WaitingGrowsByAdds(s: State, acts: seq<Action>, job: Job)
    requires Legal(s, acts)
    ensures multiset(After(s, acts).waiting)[job] <= multiset(s.waiting)[job] + Adds(acts, job)
    decreases |acts|
  {
    if acts != [] {
      assert [acts[0]][1..] == [];
      StepAddsJob(s, acts[0], job);
      WaitingGrowsByAdds(Step(s, acts[0]), acts[1..], job);
    }
  }

  /** Shutdown drops every waiting job: what waits later was added later. */
  lemma OnlyLaterJobsWait(s: State, acts: seq<Action>, job: Job)
    requires Enabled(s, Close) && Legal(Step(s, Close), acts)
    ensures multiset(After(Step(s, Close), acts).waiting)[job] <= Adds(acts, job)
    ensures Step(s, Close).dropped == s.dropped + multiset(s.waiting)
  {
    WaitingGrowsByAdds(Step(s, Close), acts, job);
  }

  /** How far a worker is from its exit once its flag is set. */
  function ExitRank(pc: Pc): nat {
    match pc
    case Running(_) => 6
    case AtLock => 5
    case Woken => 5
    case Asleep => 5
    case LoopTest => 4
    case SleepTest => 3
    case ExitTest => 2
    case Take => 1
    case Exited => 0
  }

  function WorkerSteps(acts: seq<Action>): nat {
    if acts == [] then 0 else (if acts[0].WorkerStep? then 1 else 0) + WorkerSteps(acts[1..])
  }

  lemma ClosedMoveLowersRank(s: State, i: nat)
    requires CanStep(s, i) && s.terminate[i] && s.pcs[i] != Take
    ensures Sum(WorkerMove(s, i).pcs, ExitRank) < Sum(s.pcs, ExitRank)
  {
    SumUpdate(s.pcs, i, WorkerMove(s, i).pcs[i], ExitRank);
  }

  lemma ClosedStepLowersRank(s: State, a: Action)
    requires FlagsInv(s) && ClosedInv(s) && s.shutdown == Closed && Enabled(s, a)
    ensures Sum(Step(s, a).pcs, ExitRank) + (if a.WorkerStep? then 1 else 0) <= Sum(s.pcs, ExitRank)
  {
    if a.WorkerStep? {
      ClosedMoveLowersRank(s, a.i);
    } else if a.Close? {
      assert Step(s, a).pcs == s.pcs;
    }
  }

  /** After shutdown the workers together take a bounded number of steps, whoever is scheduled and
      however many jobs are still added... */
  lemma {:induction false} WorkersWindDown(s: State, acts: seq<Action>)
    requires Inv(s) && s.shutdown == Closed && Legal(s, acts)
    ensures WorkerSteps(acts) + Sum(After(s, acts).pcs, ExitRank) <= Sum(s.pcs, ExitRank)
    decreases |acts|
  {
    if acts != [] {
      StepKeepsInv(s, acts[0]);
      ClosedStepLowersRank(s, acts[0]);
      assert Step(s, acts[0]).shutdown == Closed;
      WorkersWindDown(Step(s, acts[0]), acts[1..]);
    }
  }

  /** A worker that is neither asleep nor gone can step, or waits for the mutex of one that can. */
  lemma AwakeMeansProgress(s: State, i: nat) returns (j: nat)
    requires FlagsInv(s) && i < |s.pcs| && s.pcs[i] != Asleep && s.pcs[i] != Exited
    ensures CanStep(s, j) && (j == i || Holding(s.pcs[j]))
  {
    if MutexFree(s) {
      j := i;
    } else {
      j :| 0 <= j < |s.pcs| && Holding(s.pcs[j]);
    }
  }

  /** ... and until all of them have exited, one of them can step: every worker gets out. */
  lemma WindDownNeverStuck(s: State, i: nat) returns (j: nat)
    requires Inv(s) && s.shutdown == Closed && i < |s.pcs| && s.pcs[i] != Exited
    ensures CanStep(s, j)
  {
    j := AwakeMeansProgress(s, i);
  }

  lemma {:induction false} SomeoneReady(pcs: seq<Pc>) returns (i: nat)
    requires 0 < Sum(pcs, Ready)
    ensures i < |pcs| && Ready(pcs[i]) == 1
  {
    if Ready(pcs[0]) == 1 {
      i := 0;
    } else {
      var k := SomeoneReady(pcs[1..]);
      i := k + 1;
    }
  }

  /** Work conservation: before shutdown, while a job waits and somebody sleeps, a worker on its way
      to the stack can step. */
  lemma JobsNeverWaitForSleepers(s: State, i: nat) returns (j: nat)
    requires Inv(s) && s.shutdown == Open && s.waiting != [] && At(s, i, Asleep)
    ensures CanStep(s, j) && Ready(s.pcs[j]) == 1
  {
    assert SomeAsleep(s);
    var k := SomeoneReady(s.pcs);
    j := AwakeMeansProgress(s, k);
  }
}
