/** The receive workers, one per connection, delivering replies: each takes a lookup, a callback and
    a removal as separate steps, of which only the first and the last hold the queue mutex. Pushes
    and sweeps by other threads come in between. The id table appears as the map it stands for. */
module Dispatch {
  import opened Options
  import opened Timeval
  import opened SessionTable
  import opened IdList
  import opened Sums

  /** A live entry. `life` numbers the push that created it among such pushes, `push` its latest push
      among all. `sweptAt` is the reading the latest sweep since that push took at it, and `stale`
      says whether it carried a mark already when it was pushed. */
  datatype Live = Live(entry: Entry, life: nat, push: nat, sweptAt: Option<TimeVal>, stale: bool)

  /** A callback about to be made, or made: its arguments, the entry as the lookup found it, the
      clock reading of the lookup, and the end of the last sweep before it. */
  datatype Call = Call(fn: int, param: int, timeout: bool, elapsed: int,
                       from: Live, at: TimeVal, lastSweep: TimeVal)

  datatype Worker = Waiting | Found(call: Call) | Called(call: Call)

  /** What a push registers. */
  datatype Registration = Registration(life: nat, id: string, fn: int, param: int, time: TimeVal)

  /** `registered` lists the pushes so far, in order; `lastSweep` starts as the time of the start. */
  datatype State = State(live: map<string, Live>, workers: seq<Worker>, clock: TimeVal, lastSweep: TimeVal,
                         nextLife: nat, registered: seq<Registration>, calls: seq<Call>)

  datatype Action =
    | Push(id: string, conn: nat, fn: int, param: int, now: TimeVal)
    | Sweep(readings: map<string, TimeVal>, now: TimeVal)
    | Lookup(worker: nat, id: string, now: TimeVal)
    | Callback(worker: nat)
    | Remove(worker: nat)

  predicate Ticks(s: State, now: TimeVal) {
    Normal(now) && NotAfter(s.clock, now)
  }

  /** Clock readings never go back. A push of a new id may pick any of the connections; a push of
      the empty id is dropped. */
  ghost predicate Enabled(s: State, a: Action) {
    match a
    case Push(id, conn, fn, param, now) => conn < |s.workers| && Ticks(s, now)
    case Sweep(readings, now) =>
      && Ticks(s, now) && readings.Keys == s.live.Keys
      && forall id :: id in readings ==> Ticks(s, readings[id]) && NotAfter(readings[id], now)
    case Lookup(w, id, now) => w < |s.workers| && s.workers[w] == Waiting && Ticks(s, now)
    case Callback(w) => w < |s.workers| && s.workers[w].Found?
    case Remove(w) => w < |s.workers| && s.workers[w].Called?
  }

  function AfterSweep(l: Live, reading: TimeVal): Live {
    l.(entry := Marked(l.entry, reading), sweptAt := Some(reading))
  }

  function CallFor(s: State, l: Live, now: TimeVal): Call {
    Call(l.entry.fn, l.entry.param, l.entry.expired, ElapsedMsecs(now, l.entry.atime), l, now, s.lastSweep)
  }

  function PushStep(s: State, id: string, conn: nat, fn: int, param: int, now: TimeVal): State {
    var known := id in s.live;
    var l := if known
      then Live(Refreshed(s.live[id].entry, now, fn, param), s.live[id].life, |s.registered|, None, s.live[id].entry.expired)
      else Live(Fresh(id, conn, now, fn, param), s.nextLife, |s.registered|, None, false);
    s.(live := s.live[id := l], clock := now,
       nextLife := if known then s.nextLife else s.nextLife + 1,
       registered := s.registered + [Registration(l.life, id, fn, param, now)])
  }

  ghost function Step(s: State, a: Action): State
    requires Enabled(s, a)
  {
    match a
    case Push(id, conn, fn, param, now) => if id == "" then s else PushStep(s, id, conn, fn, param, now)
    case Sweep(readings, now) =>
      s.(live := map id | id in s.live :: AfterSweep(s.live[id], readings[id]), clock := now, lastSweep := now)
    case Lookup(w, id, now) =>
      var next := if id in s.live then Found(CallFor(s, s.live[id], now)) else Waiting;
      s.(clock := now, workers := s.workers[w := next])
    case Callback(w) =>
      var call := s.workers[w].call;
      s.(calls := s.calls + [call], workers := s.workers[w := Called(call)])
    case Remove(w) =>
      s.(live := s.live - {s.workers[w].call.from.entry.id}, workers := s.workers[w := Waiting])
  }

  ghost function Start(n: nat, clock: TimeVal): State {
    State(map[], seq(n, _ => Waiting), clock, clock, 0, [], [])
  }

  ghost predicate Legal(s: State, acts: seq<Action>)
    decreases |acts|
  {
    acts == [] || (Enabled(s, acts[0]) && Legal(Step(s, acts[0]), acts[1..]))
  }

  ghost function After(s: State, acts: seq<Action>): State
    requires Legal(s, acts)
    decreases |acts|
  {
    if acts == [] then s else After(Step(s, acts[0]), acts[1..])
  }

  // What is true of entries and calls, whatever connection a reply arrives on.

  ghost predicate Registers(s: State, l: Live) {
    l.push < |s.registered|
    && s.registered[l.push] == Registration(l.life, l.entry.id, l.entry.fn, l.entry.param, l.entry.atime)
  }

  /** A sweep since the latest push would have marked the entry. */
  predicate FoundExpired(l: Live) {
    l.sweptAt.Some? && Before(l.entry.etime, l.sweptAt.value)
  }

  ghost predicate LiveOk(s: State, id: string, l: Live) {
    && l.entry.id == id && id != "" && 0 <= l.entry.conn < |s.workers|
    && Normal(l.entry.atime) && l.entry.etime == ExpiryOf(l.entry.atime)
    && NotAfter(l.entry.atime, s.clock)
    && l.life < s.nextLife && Registers(s, l)
    && (l.entry.expired <==> l.stale || FoundExpired(l))
    && (l.sweptAt == None ==> NotAfter(s.lastSweep, l.entry.atime))
    && (l.sweptAt.Some? ==> Normal(l.sweptAt.value) && NotAfter(l.sweptAt.value, s.clock))
  }

  /** What a reported outcome says about the time behind it. The elapsed time is that since the latest
      push, give or take less than a millisecond. A timeout is reported for a marked entry: one that was
      marked when it was last pushed, or one that a sweep since has found expired. A reply in time to an
      entry swept since its push is bounded from that sweep, any other one from the last sweep of all. */
  ghost predicate Truthful(c: Call) {
    && 0 <= c.elapsed == ElapsedMsecs(c.at, c.from.entry.atime)
    && -1000 < 1000 * c.elapsed - (Micros(c.at) - Micros(c.from.entry.atime)) < 1000
    && c.timeout == c.from.entry.expired == (c.from.stale || FoundExpired(c.from))
    && (FoundExpired(c.from) ==> EXPIRY_MSECS <= c.elapsed)
    && (!c.timeout && c.from.sweptAt.Some? ==>
          1000 * c.elapsed < 1000 * EXPIRY_MSECS + (Micros(c.at) - Micros(c.from.sweptAt.value)) + 1000)
    && (!c.timeout && c.from.sweptAt == None ==>
          1000 * c.elapsed < (Micros(c.at) - Micros(c.lastSweep)) + 1000)
  }

  ghost predicate CallOk(s: State, c: Call) {
    && Truthful(c) && c.from.life < s.nextLife && Registers(s, c.from)
    && c.fn == c.from.entry.fn && c.param == c.from.entry.param
  }

  ghost predicate LiveInv(s: State) {
    && Normal(s.clock) && Normal(s.lastSweep) && NotAfter(s.lastSweep, s.clock)
    && (forall id :: id in s.live ==> LiveOk(s, id, s.live[id]))
    && (forall i, j :: i in s.live && j in s.live && i != j ==> s.live[i].life != s.live[j].life)
  }

  ghost predicate CallsInv(s: State) {
    && (forall w :: 0 <= w < |s.workers| && !s.workers[w].Waiting? ==> CallOk(s, s.workers[w].call))
    && (forall i :: 0 <= i < |s.calls| ==> CallOk(s, s.calls[i]))
  }

  lemma PushKeepsLiveInv(s: State, a: Action)
    requires LiveInv(s) && Enabled(s, a) && a.Push?
    ensures LiveInv(Step(s, a))
  {
  }

  lemma SweepKeepsLiveOk(s: State, a: Action, id: string)
    requires LiveInv(s) && Enabled(s, a) && a.Sweep? && id in s.live
    ensures LiveOk(Step(s, a), id, AfterSweep(s.live[id], a.readings[id]))
  {
    assert LiveOk(s, id, s.live[id]);
  }

  lemma SweepKeepsLiveInv(s: State, a: Action)
    requires LiveInv(s) && Enabled(s, a) && a.Sweep?
    ensures LiveInv(Step(s, a))
  {
    forall id | id in s.live
      ensures LiveOk(Step(s, a), id, Step(s, a).live[id])
    {
      SweepKeepsLiveOk(s, a, id);
    }
  }

  lemma WorkerKeepsLiveInv(s: State, a: Action)
    requires LiveInv(s) && Enabled(s, a) && !a.Push? && !a.Sweep?
    ensures LiveInv(Step(s, a))
  {
  }

  lemma CallForIsTruthful(s: State, id: string, now: TimeVal)
    requires LiveInv(s) && id in s.live && Ticks(s, now)
    ensures CallOk(s, CallFor(s, s.live[id], now))
  {
    var l := s.live[id];
    assert LiveOk(s, id, l);
    ElapsedMonotone(l.entry.atime, now, l.entry.atime);
    ElapsedWithinOneMsec(now, l.entry.atime);
    if FoundExpired(l) {
      ExpiredMeansElapsed(l.entry.atime, l.sweptAt.value, now);
    } else if l.sweptAt.Some? {
      NotExpiredBoundsElapsed(l.entry.atime, l.sweptAt.value, now);
    }
  }

  lemma StepKeepsCallsInv(s: State, a: Action)
    requires LiveInv(s) && CallsInv(s) && Enabled(s, a)
    ensures CallsInv(Step(s, a))
  {
    if a.Lookup? && a.id in s.live {
      CallForIsTruthful(s, a.id, a.now);
    }
  }

  lemma {:induction false} RecordsAlong(s: State, acts: seq<Action>)
    requires LiveInv(s) && CallsInv(s) && Legal(s, acts)
    ensures LiveInv(After(s, acts)) && CallsInv(After(s, acts))
    decreases |acts|
  {
    if acts != [] {
      StepKeepsRecords(s, acts[0]);
      RecordsAlong(Step(s, acts[0]), acts[1..]);
    }
  }

  lemma StepKeepsRecords(s: State, a: Action)
    requires LiveInv(s) && CallsInv(s) && Enabled(s, a)
    ensures LiveInv(Step(s, a)) && CallsInv(Step(s, a))
  {
    StepKeepsCallsInv(s, a);
    match a
    case Push(_, _, _, _, _) => PushKeepsLiveInv(s, a);
    case Sweep(_, _) => SweepKeepsLiveInv(s, a);
    case Lookup(_, _, _) => WorkerKeepsLiveInv(s, a);
    case Callback(_) => WorkerKeepsLiveInv(s, a);
    case Remove(_) => WorkerKeepsLiveInv(s, a);
  }

  // The records, told from the actions.

  /** The pushes that register something. */
  function PushesOf(acts: seq<Action>): (pushes: seq<Action>)
    ensures forall k :: 0 <= k < |pushes| ==> pushes[k].Push? && pushes[k].id != ""
  {
    if acts == [] then []
    else if acts[0].Push? && acts[0].id != "" then [acts[0]] + PushesOf(acts[1..])
    else PushesOf(acts[1..])
  }

  predicate Records(r: Registration, a: Action) {
    a.Push? && r.id == a.id && r.fn == a.fn && r.param == a.param && r.time == a.now
  }

  /** The registrations are, after the first `from`, those of the pushes, in order. */
  ghost predicate RecordsFrom(registered: seq<Registration>, from: nat, pushes: seq<Action>) {
    && |registered| == from + |pushes|
    && forall k :: from <= k < |registered| ==> Records(registered[k], pushes[k - from])
  }

  lemma {:induction false} RegisteredAlong(s: State, acts: seq<Action>)
    requires Legal(s, acts)
    ensures RecordsFrom(After(s, acts).registered, |s.registered|, PushesOf(acts))
    ensures s.registered <= After(s, acts).registered
    decreases |acts|
  {
    if acts != [] {
      RegisteredAlong(Step(s, acts[0]), acts[1..]);
    }
  }

  /** Where the latest sweep ended, told from the actions. */
  function LastSweep(acts: seq<Action>, before: TimeVal): TimeVal {
    if acts == [] then before
    else LastSweep(acts[1..], if acts[0].Sweep? then acts[0].now else before)
  }

  lemma {:induction false} LastSweepAlong(s: State, acts: seq<Action>)
    requires Legal(s, acts)
    ensures After(s, acts).lastSweep == LastSweep(acts, s.lastSweep)
    decreases |acts|
  {
    if acts != [] {
      LastSweepAlong(Step(s, acts[0]), acts[1..]);
    }
  }

  /** The reading the latest sweep took at the id since the latest push of it. */
  function LastReading(acts: seq<Action>, id: string, before: Option<TimeVal>): Option<TimeVal> {
    if acts == [] then before
    else LastReading(acts[1..], id,
      if acts[0].Push? && acts[0].id == id then None
      else if acts[0].Sweep? && id in acts[0].readings then Some(acts[0].readings[id])
      else before)
  }

  lemma {:induction false} LastReadingAlong(s: State, acts: seq<Action>, id: string, before: Option<TimeVal>)
    requires LiveInv(s) && CallsInv(s) && Legal(s, acts) && (id in s.live ==> s.live[id].sweptAt == before)
    ensures id in After(s, acts).live ==> After(s, acts).live[id].sweptAt == LastReading(acts, id, before)
    decreases |acts|
  {
    if acts != [] {
      var a := acts[0];
      StepKeepsRecords(s, a);
      var next := if a.Push? && a.id == id then None
                  else if a.Sweep? && id in a.readings then Some(a.readings[id])
                  else before;
      LastReadingAlong(Step(s, a), acts[1..], id, next);
    }
  }

  /** What a lookup found, if it found anything. */
  ghost function FoundBy(s: State, a: Action): Option<Call>
    requires Enabled(s, a)
  {
    if a.Lookup? && a.id in s.live then Some(CallFor(s, s.live[a.id], a.now)) else None
  }

  /** How many lookups of the run found this. */
  ghost function Finds(s: State, acts: seq<Action>, c: Call): nat
    requires Legal(s, acts)
    decreases |acts|
  {
    if acts == [] then 0
    else (if FoundBy(s, acts[0]) == Some(c) then 1 else 0) + Finds(Step(s, acts[0]), acts[1..], c)
  }

  function HasFound(c: Call): Worker -> nat {
    (w: Worker) => if w == Found(c) then 1 else 0
  }

  /** The callbacks of c made or about to be made. */
  function Owed(s: State, c: Call): nat {
    multiset(s.calls)[c] + Sum(s.workers, HasFound(c))
  }

  lemma StepOwes(s: State, a: Action, c: Call)
    requires Enabled(s, a)
    ensures Owed(Step(s, a), c) == Owed(s, c) + (if FoundBy(s, a) == Some(c) then 1 else 0)
  {
    if a.Lookup? || a.Callback? || a.Remove? {
      SumUpdate(s.workers, a.worker, Step(s, a).workers[a.worker], HasFound(c));
      if a.Callback? {
        assert multiset(s.calls + [s.workers[a.worker].call])
            == multiset(s.calls) + multiset{s.workers[a.worker].call};
      }
    }
  }

  lemma {:induction false} OwedAlong(s: State, acts: seq<Action>, c: Call)
    requires Legal(s, acts)
    ensures Owed(After(s, acts), c) == Owed(s, c) + Finds(s, acts, c)
    decreases |acts|
  {
    if acts != [] {
      StepOwes(s, acts[0], c);
      OwedAlong(Step(s, acts[0]), acts[1..], c);
    }
  }

  lemma {:induction false} NothingFound(workers: seq<Worker>, c: Call)
    requires forall w :: 0 <= w < |workers| ==> workers[w] == Waiting
    ensures Sum(workers, HasFound(c)) == 0
  {
    if workers != [] {
      NothingFound(workers[1..], c);
    }
  }

  /** Over every run, each lookup that finds an entry leads to one callback with what it found: made, or
      still owed by the worker. No other callback is made. */
  lemma EachFindCallsOnce(n: nat, clock: TimeVal, acts: seq<Action>, c: Call)
    requires Legal(Start(n, clock), acts)
    ensures
      var s := After(Start(n, clock), acts);
      multiset(s.calls)[c] + Sum(s.workers, HasFound(c)) == Finds(Start(n, clock), acts, c)
  {
    OwedAlong(Start(n, clock), acts, c);
    NothingFound(Start(n, clock).workers, c);
  }

  // The entry a call was looked up in is that of the latest push.

  ghost predicate NoneSince(s: State, l: Live) {
    forall q :: l.push < q < |s.registered| ==> s.registered[q].id != l.entry.id
  }

  /** Pushes of the id after the one looked up came after the lookup. */
  ghost predicate NoneBefore(s: State, c: Call) {
    && NotAfter(c.at, s.clock)
    && forall q :: c.from.push < q < |s.registered| && s.registered[q].id == c.from.entry.id ==>
         NotAfter(c.at, s.registered[q].time)
  }

  ghost predicate LatestInv(s: State) {
    && (forall id :: id in s.live ==> NoneSince(s, s.live[id]))
    && (forall w :: 0 <= w < |s.workers| && !s.workers[w].Waiting? ==> NoneBefore(s, s.workers[w].call))
    && (forall i :: 0 <= i < |s.calls| ==> NoneBefore(s, s.calls[i]))
  }

  lemma PushKeepsLatest(s: State, a: Action)
    requires LiveInv(s) && LatestInv(s) && Enabled(s, a) && a.Push? && a.id != ""
    ensures LatestInv(Step(s, a))
  {
    var t := Step(s, a);
    forall id | id in t.live
      ensures NoneSince(t, t.live[id])
    {
      if id != a.id {
        assert LiveOk(s, id, s.live[id]) && NoneSince(s, s.live[id]);
      }
    }
    forall w | 0 <= w < |t.workers| && !t.workers[w].Waiting?
      ensures NoneBefore(t, t.workers[w].call)
    {
      assert NoneBefore(s, s.workers[w].call);
    }
    forall i | 0 <= i < |t.calls|
      ensures NoneBefore(t, t.calls[i])
    {
      assert NoneBefore(s, s.calls[i]);
    }
  }

  lemma OthersKeepLatest(s: State, a: Action)
    requires LiveInv(s) && LatestInv(s) && Enabled(s, a) && !(a.Push? && a.id != "")
    ensures LatestInv(Step(s, a))
  {
    var t := Step(s, a);
    assert t.registered == s.registered && NotAfter(s.clock, t.clock);
    forall id | id in t.live
      ensures NoneSince(t, t.live[id])
    {
      assert NoneSince(s, s.live[id]) && t.live[id].push == s.live[id].push;
    }
    forall w | 0 <= w < |t.workers| && !t.workers[w].Waiting?
      ensures NoneBefore(t, t.workers[w].call)
    {
      if t.workers[w] != s.workers[w] && a.Lookup? {
        assert NoneSince(s, s.live[a.id]);
      } else {
        assert NoneBefore(s, s.workers[w].call);
      }
    }
    forall i | 0 <= i < |t.calls|
      ensures NoneBefore(t, t.calls[i])
    {
      if i < |s.calls| {
        assert NoneBefore(s, s.calls[i]);
      } else {
        assert NoneBefore(s, s.workers[a.worker].call);
      }
    }
  }

  lemma {:induction false} LatestAlong(s: State, acts: seq<Action>)
    requires LiveInv(s) && CallsInv(s) && LatestInv(s) && Legal(s, acts)
    ensures LatestInv(After(s, acts))
    decreases |acts|
  {
    if acts != [] {
      StepKeepsRecords(s, acts[0]);
      if acts[0].Push? && acts[0].id != "" {
        PushKeepsLatest(s, acts[0]);
      } else {
        OthersKeepLatest(s, acts[0]);
      }
      LatestAlong(Step(s, acts[0]), acts[1..]);
    }
  }

  /** Over every run, a callback uses the function and the parameter that one push of its id registered
      together, the latest before the lookup. */
  lemma CallbackWasRegistered(n: nat, clock: TimeVal, acts: seq<Action>, c: Call)
    requires Normal(clock) && Legal(Start(n, clock), acts)
    requires c in After(Start(n, clock), acts).calls
    ensures
      var pushes, p := PushesOf(acts), c.from.push;
      && p < |pushes|
      && pushes[p].id == c.from.entry.id && pushes[p].fn == c.fn && pushes[p].param == c.param
      && pushes[p].now == c.from.entry.atime
      && (forall q :: p < q < |pushes| && pushes[q].id == c.from.entry.id ==> NotAfter(c.at, pushes[q].now))
  {
    var s := After(Start(n, clock), acts);
    RecordsAlong(Start(n, clock), acts);
    RegisteredAlong(Start(n, clock), acts);
    LatestAlong(Start(n, clock), acts);
    assert CallOk(s, c) && NoneBefore(s, c);
    forall q | 0 <= q < |PushesOf(acts)|
      ensures Records(s.registered[q], PushesOf(acts)[q])
    {
    }
  }

  /** Over every run, a callback's elapsed time is that from the latest push to the lookup, and it reports
      a timeout if and only if the entry was marked when it was last pushed or a sweep since has found it
      expired; in the second case at least the expiry period has passed. A reply reported in time comes
      within that period plus the time since the sweep that left the entry alone, or, if it was pushed
      after the last sweep, within the time since that sweep, plus the rounding of one millisecond. */
  lemma ReportedTimesAreTruthful(n: nat, clock: TimeVal, acts: seq<Action>, c: Call)
    requires Normal(clock) && Legal(Start(n, clock), acts)
    requires c in After(Start(n, clock), acts).calls
    ensures Truthful(c)
  {
    RecordsAlong(Start(n, clock), acts);
  }

  /** An entry keeps its life from its creation to its removal; each created entry has a new one. */
  lemma StepKeepsLife(s: State, a: Action, id: string)
    requires LiveInv(s) && Enabled(s, a) && id in Step(s, a).live
    ensures id in s.live ==> Step(s, a).live[id].life == s.live[id].life
    ensures id !in s.live ==> Step(s, a).live[id].life == s.nextLife < Step(s, a).nextLife
  {
  }

  // At most one callback per entry.

  predicate Busy(w: Worker, id: string) {
    !w.Waiting? && w.call.from.entry.id == id
  }

  /** Some worker has looked the id up and not removed it yet. */
  predicate Dispatching(s: State, id: string) {
    exists w :: 0 <= w < |s.workers| && Busy(s.workers[w], id)
  }

  /** The guard: a lookup does not find an id that is being dispatched already. */
  predicate Apart(s: State, a: Action) {
    a.Lookup? && a.id in s.live ==> !Dispatching(s, a.id)
  }

  ghost predicate AllApart(s: State, acts: seq<Action>)
    requires Legal(s, acts)
    decreases |acts|
  {
    acts == [] || (Apart(s, acts[0]) && AllApart(Step(s, acts[0]), acts[1..]))
  }

  /** A worker that has made the call of the id's entry is about to remove the id. */
  predicate Finishing(s: State, id: string) {
    exists w :: 0 <= w < |s.workers| && s.workers[w].Called? && Busy(s.workers[w], id)
  }

  /** The entry a call was looked up in is still live. */
  predicate StillLive(s: State, c: Call) {
    c.from.entry.id in s.live && s.live[c.from.entry.id].life == c.from.life
  }

  ghost predicate WorkersApart(s: State) {
    && (forall w :: 0 <= w < |s.workers| && !s.workers[w].Waiting? ==> StillLive(s, s.workers[w].call))
    && (forall v, w :: 0 <= v < w < |s.workers| && !s.workers[v].Waiting? ==>
          !Busy(s.workers[w], s.workers[v].call.from.entry.id))
    && (forall w :: 0 <= w < |s.workers| && s.workers[w].Called? ==> s.workers[w].call in s.calls)
  }

  ghost predicate DistinctLives(calls: seq<Call>) {
    forall i, j :: 0 <= i < j < |calls| ==> calls[i].from.life != calls[j].from.life
  }

  /** Each call is the only one of its life; while that life lasts, its worker is about to end it. */
  ghost predicate CallsApart(s: State) {
    && DistinctLives(s.calls)
    && (forall i, id :: 0 <= i < |s.calls| && id in s.live && s.live[id].life == s.calls[i].from.life ==>
          Finishing(s, id))
  }

  ghost predicate Inv(s: State) {
    LiveInv(s) && CallsInv(s) && WorkersApart(s) && CallsApart(s)
  }

  lemma PushKeepsApart(s: State, a: Action)
    requires Inv(s) && Enabled(s, a) && a.Push?
    ensures WorkersApart(Step(s, a)) && CallsApart(Step(s, a))
  {
    var t := Step(s, a);
    assert t.workers == s.workers && t.calls == s.calls;
    forall i, id | 0 <= i < |t.calls| && id in t.live && t.live[id].life == t.calls[i].from.life
      ensures Finishing(t, id)
    {
      assert CallOk(s, s.calls[i]);
      assert Finishing(s, id);
    }
  }

  lemma SweepKeepsApart(s: State, a: Action)
    requires WorkersApart(s) && CallsApart(s) && Enabled(s, a) && a.Sweep?
    ensures WorkersApart(Step(s, a)) && CallsApart(Step(s, a))
  {
    var t := Step(s, a);
    forall i, id | 0 <= i < |t.calls| && id in t.live && t.live[id].life == t.calls[i].from.life
      ensures Finishing(t, id)
    {
      assert Finishing(s, id);
    }
  }

  /** Workers other than w keep their state, so an entry one of them is finishing stays so. */
  lemma FinishingElsewhere(s: State, t: State, w: nat, id: string)
    requires Finishing(s, id) && w < |s.workers| && !(s.workers[w].Called? && Busy(s.workers[w], id))
    requires |t.workers| == |s.workers| && forall v :: 0 <= v < |s.workers| && v != w ==> t.workers[v] == s.workers[v]
    ensures Finishing(t, id)
  {
    var v :| 0 <= v < |s.workers| && s.workers[v].Called? && Busy(s.workers[v], id);
    assert t.workers[v].Called? && Busy(t.workers[v], id);
  }

  lemma LookupKeepsApart(s: State, a: Action)
    requires Inv(s) && Enabled(s, a) && a.Lookup? && Apart(s, a)
    ensures WorkersApart(Step(s, a)) && CallsApart(Step(s, a))
  {
    var t := Step(s, a);
    if a.id in s.live {
      assert LiveOk(s, a.id, s.live[a.id]);
    }
    forall i, id | 0 <= i < |t.calls| && id in t.live && t.live[id].life == t.calls[i].from.life
      ensures Finishing(t, id)
    {
      FinishingElsewhere(s, t, a.worker, id);
    }
  }

  lemma CallbackKeepsApart(s: State, a: Action)
    requires Inv(s) && Enabled(s, a) && a.Callback?
    ensures WorkersApart(Step(s, a)) && CallsApart(Step(s, a))
  {
    var t := Step(s, a);
    var call := s.workers[a.worker].call;
    assert StillLive(s, call);
    assert !Finishing(s, call.from.entry.id);
    forall i, id | 0 <= i < |t.calls| && id in t.live && t.live[id].life == t.calls[i].from.life
      ensures Finishing(t, id)
    {
      if i < |s.calls| {
        FinishingElsewhere(s, t, a.worker, id);
      } else {
        assert t.workers[a.worker].Called? && Busy(t.workers[a.worker], id);
      }
    }
  }

  lemma RemoveKeepsApart(s: State, a: Action)
    requires Inv(s) && Enabled(s, a) && a.Remove?
    ensures WorkersApart(Step(s, a)) && CallsApart(Step(s, a))
  {
    var t := Step(s, a);
    forall i, id | 0 <= i < |t.calls| && id in t.live && t.live[id].life == t.calls[i].from.life
      ensures Finishing(t, id)
    {
      FinishingElsewhere(s, t, a.worker, id);
    }
  }

  lemma StepKeepsInv(s: State, a: Action)
    requires Inv(s) && Enabled(s, a) && Apart(s, a)
    ensures Inv(Step(s, a))
  {
    StepKeepsRecords(s, a);
    match a
    case Push(_, _, _, _, _) => PushKeepsApart(s, a);
    case Sweep(_, _) => SweepKeepsApart(s, a);
    case Lookup(_, _, _) => LookupKeepsApart(s, a);
    case Callback(_) => CallbackKeepsApart(s, a);
    case Remove(_) => RemoveKeepsApart(s, a);
  }

  lemma {:induction false} InvAlong(s: State, acts: seq<Action>)
    requires Inv(s) && Legal(s, acts) && AllApart(s, acts)
    ensures Inv(After(s, acts))
    decreases |acts|
  {
    if acts != [] {
      StepKeepsInv(s, acts[0]);
      InvAlong(Step(s, acts[0]), acts[1..]);
    }
  }

  /** Over every run in which no lookup finds an id that is being dispatched, each created entry gets
      at most one callback. */
  lemma AtMostOneCallbackPerEntry(n: nat, clock: TimeVal, acts: seq<Action>)
    requires Normal(clock) && Legal(Start(n, clock), acts) && AllApart(Start(n, clock), acts)
    ensures DistinctLives(After(Start(n, clock), acts).calls)
  {
    InvAlong(Start(n, clock), acts);
  }

  /** A reply arrives on the connection its entry was pushed to. */
  predicate Routed(s: State, a: Action) {
    a.Lookup? && a.id in s.live ==> s.live[a.id].entry.conn == a.worker
  }

  ghost predicate AllRouted(s: State, acts: seq<Action>)
    requires Legal(s, acts)
    decreases |acts|
  {
    acts == [] || (Routed(s, acts[0]) && AllRouted(Step(s, acts[0]), acts[1..]))
  }

  /** A live entry that is being dispatched is dispatched by its own connection's worker. */
  ghost predicate OwnEntries(s: State) {
    forall w :: 0 <= w < |s.workers| && !s.workers[w].Waiting? && s.workers[w].call.from.entry.id in s.live ==>
      s.live[s.workers[w].call.from.entry.id].entry.conn == w
  }

  lemma RoutedIsApart(s: State, a: Action)
    requires Inv(s) && OwnEntries(s) && Enabled(s, a) && Routed(s, a)
    ensures Apart(s, a)
  {
  }

  lemma StepKeepsOwnEntries(s: State, a: Action)
    requires Inv(s) && OwnEntries(s) && Enabled(s, a) && Routed(s, a)
    ensures OwnEntries(Step(s, a))
  {
    if a.Lookup? && a.id in s.live {
      assert LiveOk(s, a.id, s.live[a.id]);
    }
  }

  lemma {:induction false} RoutedIsApartAlong(s: State, acts: seq<Action>)
    requires Inv(s) && OwnEntries(s) && Legal(s, acts) && AllRouted(s, acts)
    ensures AllApart(s, acts)
    decreases |acts|
  {
    if acts != [] {
      RoutedIsApart(s, acts[0]);
      StepKeepsInv(s, acts[0]);
      StepKeepsOwnEntries(s, acts[0]);
      RoutedIsApartAlong(Step(s, acts[0]), acts[1..]);
    }
  }

  /** Replies that arrive on the connection of their entry meet the guard. */
  lemma AtMostOneCallbackWhenRouted(n: nat, clock: TimeVal, acts: seq<Action>)
    requires Normal(clock) && Legal(Start(n, clock), acts) && AllRouted(Start(n, clock), acts)
    ensures AllApart(Start(n, clock), acts)
    ensures DistinctLives(After(Start(n, clock), acts).calls)
  {
    RoutedIsApartAlong(Start(n, clock), acts);
    AtMostOneCallbackPerEntry(n, clock, acts);
  }

  // The list routines carry these steps out.

  ghost function TableOf(s: State): map<string, Entry> {
    map id | id in s.live :: s.live[id].entry
  }

  lemma PresentIsLive(s: State, t: seq<Entry>, id: string)
    requires AsMap(t) == TableOf(s)
    ensures Present(t, id) <==> id in s.live
  {
    PresentIsMembership(t, id);
    assert id in AsMap(t) <==> id in TableOf(s);
  }

  lemma ListPushNewRefines(s: State, t: seq<Entry>, a: Action)
    requires UniqueIds(t) && AsMap(t) == TableOf(s)
    requires a.Push? && a.id != "" && Enabled(s, a) && a.id !in s.live
    ensures !Present(t, a.id)
    ensures AsMap(t + [Fresh(a.id, a.conn, a.now, a.fn, a.param)]) == TableOf(Step(s, a))
  {
    PresentIsLive(s, t, a.id);
    AddRefinesMap(t, Fresh(a.id, a.conn, a.now, a.fn, a.param));
  }

  lemma ListPushKnownRefines(s: State, t: seq<Entry>, a: Action)
    requires UniqueIds(t) && AsMap(t) == TableOf(s)
    requires a.Push? && a.id != "" && Enabled(s, a) && a.id in s.live
    ensures Present(t, a.id)
    ensures AsMap(Updated(t, a.id, a.now, a.fn, a.param)) == TableOf(Step(s, a))
  {
    PresentIsLive(s, t, a.id);
    UpdateRefinesMap(t, a.id, a.now, a.fn, a.param);
  }

  lemma ListSweepRefines(s: State, t: seq<Entry>, a: Action, clock: seq<TimeVal>)
    requires UniqueIds(t) && AsMap(t) == TableOf(s)
    requires a.Sweep? && Enabled(s, a) && |clock| == |t| && a.readings == ReadingsOf(t, clock)
    ensures AsMap(Swept(t, clock)) == TableOf(Step(s, a))
  {
    SweepRefinesMap(t, clock);
    SweepOfTable(s, a);
  }

  lemma SweepOfTable(s: State, a: Action)
    requires a.Sweep? && Enabled(s, a)
    ensures TableOf(Step(s, a)) == map id | id in TableOf(s) :: Marked(TableOf(s)[id], a.readings[id])
  {
    var m := map id | id in TableOf(s) :: Marked(TableOf(s)[id], a.readings[id]);
    assert m.Keys == s.live.Keys == TableOf(Step(s, a)).Keys;
  }

  /** A lookup finds what the list's lookup returns, at the reading of the lookup, and like the callback
      it leaves the table alone. */
  lemma ListLookupRefines(s: State, t: seq<Entry>, a: Action)
    requires LiveInv(s) && UniqueIds(t) && AsMap(t) == TableOf(s)
    requires a.Lookup? && Enabled(s, a)
    ensures AsMap(t) == TableOf(Step(s, a))
    ensures
      var w := Step(s, a).workers[a.worker];
      if a.id != "" && Present(t, a.id) then
        var e := t[IndexOf(t, a.id)];
        && w.Found? && w.call.at == a.now && w.call.from == s.live[a.id] && w.call.from.entry == e
        && w.call.lastSweep == s.lastSweep
        && w.call.elapsed == ElapsedMsecs(a.now, e.atime)
        && Snapshot(a.id, w.call.timeout, w.call.fn, w.call.param) == SnapshotOf(e)
      else w == Waiting
  {
    PresentIsLive(s, t, a.id);
    PresentIsMembership(t, a.id);
    assert a.id in s.live ==> LiveOk(s, a.id, s.live[a.id]) && TableOf(s)[a.id] == s.live[a.id].entry;
  }

  lemma ListUntouchedByCallback(s: State, t: seq<Entry>, a: Action)
    requires AsMap(t) == TableOf(s) && a.Callback? && Enabled(s, a)
    ensures AsMap(t) == TableOf(Step(s, a))
  {
  }

  /** The list's own lookup returns what the worker goes on with. */
  method LookupOnList(table: IdTable, tid: string, curr: TimeVal, ghost s: State, ghost worker: nat)
    returns (rc: int, elapsed: int, node: Snapshot)
    requires table.Valid() && UniqueIds(table.Entries()) && AsMap(table.Entries()) == TableOf(s)
    requires LiveInv(s) && Enabled(s, Lookup(worker, tid, curr))
    ensures
      var w := Step(s, Lookup(worker, tid, curr)).workers[worker];
      if rc == 1 then
        w.Found? && w.call.at == curr && w.call.elapsed == elapsed
        && node == Snapshot(tid, w.call.timeout, w.call.fn, w.call.param)
      else rc == 0 && w == Waiting
  {
    rc, elapsed, node := table.Lookup(tid, curr);
    ListLookupRefines(s, table.Entries(), Lookup(worker, tid, curr));
  }

  lemma ListRemoveRefines(s: State, t: seq<Entry>, a: Action)
    requires UniqueIds(t) && AsMap(t) == TableOf(s)
    requires a.Remove? && Enabled(s, a)
    ensures AsMap(Removed(t, s.workers[a.worker].call.from.entry.id)) == TableOf(Step(s, a))
  {
    RemoveRefinesMap(t, s.workers[a.worker].call.from.entry.id);
  }
}
