/** The blocking queue of `safeqtempl.h`: its operations under the mutex, and the protocol of mutex,
    condition variable and notification around them. */
module SafeQueue {
  import opened Options
  import opened Sums

  class ThreadsafeQueue<T> {
    var queue: seq<T>
    ghost var pushed: seq<T>
    ghost var taken: seq<T>

    /** First in, first out: what has left the queue, and then what is in it, is what came in. */
    ghost predicate Valid()
      reads this
    {
      pushed == taken + queue
    }

    /** The queue as part of a state of the protocol below. */
    ghost function In(consumers: seq<Consumer>, unnotified: nat): State<T>
      reads this
    {
      State(queue, consumers, unnotified, pushed, taken)
    }

    constructor ()
      ensures Valid() && forall cs, u: nat :: In(cs, u) == State([], cs, u, [], [])
    {
      queue, pushed, taken := [], [], [];
    }

    /** The protocol's push, whoever waits; the notification is a step of its own. */
    method PushBack(item: T)
      requires Valid()
      modifies this
      ensures Valid() && pushed == old(pushed) + [item] && taken == old(taken)
      ensures forall cs, u: nat :: In(cs, u + 1) == Step(old(In(cs, u)), Push(item))
    {
      queue, pushed := queue + [item], pushed + [item];
    }

    /** One turn of the loop in pop_front, the protocol's test: with nothing queued the caller goes to
        wait, otherwise the k-th item to leave is the k-th that came in. */
    method PopFront() returns (n: Option<T>)
      requires Valid()
      modifies this
      ensures Valid() && pushed == old(pushed)
      ensures n.None? <==> old(taken) == pushed
      ensures n.None? ==> taken == old(taken)
      ensures n.Some? ==> n.value == pushed[|old(taken)|] && taken == old(taken) + [n.value]
      ensures forall cs, u: nat, i: nat :: At(old(In(cs, u)), i, Testing) ==>
        In(cs[i := if n.None? then Asleep else Elsewhere], u) == Step(old(In(cs, u)), TestQueue(i))
    {
      if queue == [] {
        return None;
      }
      n := Some(queue[0]);
      queue, taken := queue[1..], taken + [queue[0]];
    }

    method Size() returns (size: nat)
      ensures size == |queue|
    {
      size := |queue|;
    }

    method Empty() returns (empty: bool)
      ensures empty <==> queue == []
    {
      var size := Size();
      empty := size == 0;
    }

    /** The protocol's clearing: all that came in has left. */
    method Clear()
      requires Valid()
      modifies this
      ensures Valid() && taken == pushed == old(pushed)
      ensures forall cs, u: nat :: In(cs, u) == Step(old(In(cs, u)), ClearAll)
    {
      while queue != []
        invariant Valid() && pushed == old(pushed) && taken + queue == old(taken + queue)
        decreases |queue|
      {
        queue, taken := queue[1..], taken + [queue[0]];
      }
    }
  }

  /** A consumer: elsewhere, about to take the mutex and test the queue, or in its wait. The test and
      what follows it happen in one critical section. */
  datatype Consumer = Elsewhere | Testing | Asleep

  /** A push is two steps: it appends under the mutex, and notifies after releasing it. `unnotified`
      counts the pushes in between; `taken` records what has left the queue, in order. */
  datatype State<T> = State(queue: seq<T>, consumers: seq<Consumer>, unnotified: nat,
                            pushed: seq<T>, taken: seq<T>)

  datatype Action<T> = Push(item: T) | Notify(woken: nat) | CallPop(i: nat) | TestQueue(i: nat) | Spurious(i: nat) | ClearAll

  predicate At<T>(s: State<T>, i: nat, c: Consumer) {
    i < |s.consumers| && s.consumers[i] == c
  }

  predicate SomeAsleep<T>(s: State<T>) {
    exists i :: 0 <= i < |s.consumers| && s.consumers[i] == Asleep
  }

  predicate Enabled<T>(s: State<T>, a: Action<T>) {
    match a
    case Push(item) => true
    case Notify(woken) => 0 < s.unnotified && (SomeAsleep(s) ==> At(s, woken, Asleep))
    case CallPop(i) => At(s, i, Elsewhere)
    case TestQueue(i) => At(s, i, Testing)
    case Spurious(i) => At(s, i, Asleep)
    case ClearAll => true
  }

  function Goto<T>(s: State<T>, i: nat, c: Consumer): State<T>
    requires i < |s.consumers|
  {
    s.(consumers := s.consumers[i := c])
  }

  function Step<T>(s: State<T>, a: Action<T>): State<T>
    requires Enabled(s, a)
  {
    match a
    case Push(item) => s.(queue := s.queue + [item], pushed := s.pushed + [item], unnotified := s.unnotified + 1)
    case Notify(woken) =>
      var t := s.(unnotified := s.unnotified - 1);
      if SomeAsleep(s) then Goto(t, woken, Testing) else t
    case CallPop(i) => Goto(s, i, Testing)
    case TestQueue(i) =>
      if s.queue == [] then Goto(s, i, Asleep)
      else Goto(s, i, Elsewhere).(queue := s.queue[1..], taken := s.taken + [s.queue[0]])
    case Spurious(i) => Goto(s, i, Testing)
    case ClearAll => s.(queue := [], taken := s.taken + s.queue)
  }

  function Tests(c: Consumer): nat {
    if c == Testing then 1 else 0
  }

  /** First in, first out; and while a consumer sleeps, each queued item has a test or a
      notification on its way. */
  predicate Inv<T(==)>(s: State<T>) {
    && s.pushed == s.taken + s.queue
    && (SomeAsleep(s) ==> |s.queue| <= Sum(s.consumers, Tests) + s.unnotified)
  }

  lemma StepKeepsInv<T>(s: State<T>, a: Action<T>)
    requires Inv(s) && Enabled(s, a)
    ensures Inv(Step(s, a))
  {
    match a
    case Push(item) =>
    case Notify(woken) =>
      if SomeAsleep(s) {
        SumUpdate(s.consumers, woken, Testing, Tests);
      }
    case CallPop(i) => SumUpdate(s.consumers, i, Testing, Tests);
    case TestQueue(i) =>
      SumUpdate(s.consumers, i, Step(s, a).consumers[i], Tests);
      if s.queue != [] && SomeAsleep(Step(s, a)) {
        var k :| 0 <= k < |s.consumers| && Step(s, a).consumers[k] == Asleep;
        assert s.consumers[k] == Asleep;
      }
    case Spurious(i) => SumUpdate(s.consumers, i, Testing, Tests);
    case ClearAll =>
  }

  ghost predicate Legal<T>(s: State<T>, acts: seq<Action<T>>)
    decreases |acts|
  {
    acts == [] || (Enabled(s, acts[0]) && Legal(Step(s, acts[0]), acts[1..]))
  }

  ghost function After<T>(s: State<T>, acts: seq<Action<T>>): State<T>
    requires Legal(s, acts)
    decreases |acts|
  {
    if acts == [] then s else After(Step(s, acts[0]), acts[1..])
  }

  lemma {:induction false} InvAlong<T>(s: State<T>, acts: seq<Action<T>>)
    requires Inv(s) && Legal(s, acts)
    ensures Inv(After(s, acts)) && |After(s, acts).consumers| == |s.consumers|
    decreases |acts|
  {
    if acts != [] {
      StepKeepsInv(s, acts[0]);
      InvAlong(Step(s, acts[0]), acts[1..]);
    }
  }

  /** The items pushed, told from the actions. */
  function Items<T>(acts: seq<Action<T>>): seq<T> {
    if acts == [] then []
    else (if acts[0].Push? then [acts[0].item] else []) + Items(acts[1..])
  }

  lemma {:induction false} PushedAlong<T>(s: State<T>, acts: seq<Action<T>>)
    requires Legal(s, acts)
    ensures After(s, acts).pushed == s.pushed + Items(acts)
    decreases |acts|
  {
    if acts != [] {
      PushedAlong(Step(s, acts[0]), acts[1..]);
    }
  }

  /** With any number of consumers, items leave in the order in which they were pushed. */
  lemma FirstInFirstOut<T>(consumers: nat, acts: seq<Action<T>>)
    requires Legal(State([], seq(consumers, _ => Elsewhere), 0, [], []), acts)
    ensures
      var s := After(State([], seq(consumers, _ => Elsewhere), 0, [], []), acts);
      s.taken + s.queue == Items(acts)
  {
    InvAlong(State([], seq(consumers, _ => Elsewhere), 0, [], []), acts);
    PushedAlong(State([], seq(consumers, _ => Elsewhere), 0, [], []), acts);
  }

  /** With one consumer, as in each worker of the thread pool: a pop never stays asleep over a
      queued item, since a pusher that will notify it is still under way. And items come out in
      the order they went in. */
  lemma SoleConsumerIsWoken<T>(acts: seq<Action<T>>)
    requires Legal(State([], [Elsewhere], 0, [], []), acts)
    ensures
      var s := After(State([], [Elsewhere], 0, [], []), acts);
      && s.taken + s.queue == Items(acts)
      && (At(s, 0, Asleep) && s.queue != [] ==> 0 < s.unnotified)
  {
    InvAlong(State([], [Elsewhere], 0, [], []), acts);
    PushedAlong(State([], [Elsewhere], 0, [], []), acts);
    var s := After(State([], [Elsewhere], 0, [], []), acts);
    assert s.consumers == [s.consumers[0]];
    assert Sum(s.consumers, Tests) == Tests(s.consumers[0]) + Sum([], Tests);
  }
}
