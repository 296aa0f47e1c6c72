/** When the dispatch protocol does what its callers want: the exact condition, readable before the
    step it is about, for a lookup, for a push and for the timeout of an entry pushed again. */
module DispatchConditions {
  import opened Options
  import opened Timeval
  import opened SessionTable
  import opened Dispatch

  // A lookup.

  lemma OneCallback(t: State, w: nat)
    requires w < |t.workers| && t.workers[w].Found?
    ensures Legal(t, [Callback(w)]) && AllApart(t, [Callback(w)])
    ensures After(t, [Callback(w)]).calls == t.calls + [t.workers[w].call]
  {
    assert [Callback(w)][1..] == [];
  }

  lemma TwoCallbacks(t: State, v: nat, w: nat)
    requires v < |t.workers| && w < |t.workers| && v != w && t.workers[v].Found? && t.workers[w].Found?
    ensures Legal(t, [Callback(v), Callback(w)]) && AllApart(t, [Callback(v), Callback(w)])
    ensures After(t, [Callback(v), Callback(w)]).calls == t.calls + [t.workers[v].call, t.workers[w].call]
  {
    assert [Callback(v), Callback(w)][1..] == [Callback(w)];
    OneCallback(Step(t, Callback(v)), w);
  }

  /** A lookup of an id that worker v is dispatching goes on to a second call of one life: after v's
      own callback if that is still to come, else at once. */
  lemma OverlappingLookupCallsTwice(s: State, a: Action, v: nat, acts: seq<Action>)
    requires Inv(s) && Enabled(s, a) && a.Lookup? && a.id in s.live
    requires v < |s.workers| && Busy(s.workers[v], a.id)
    requires acts == (if s.workers[v].Found? then [Callback(v), Callback(a.worker)] else [Callback(a.worker)])
    ensures Legal(Step(s, a), acts) && AllApart(Step(s, a), acts)
    ensures !DistinctLives(After(Step(s, a), acts).calls)
  {
    var t := Step(s, a);
    var second := CallFor(s, s.live[a.id], a.now);
    assert StillLive(s, s.workers[v].call);
    var k := |s.calls|;
    if s.workers[v].Found? {
      TwoCallbacks(t, v, a.worker);
      var calls := After(t, acts).calls;
      assert calls[k] == s.workers[v].call && calls[k + 1] == second;
    } else {
      OneCallback(t, a.worker);
      var calls := After(t, acts).calls;
      var i :| 0 <= i < k && s.calls[i] == s.workers[v].call;
      assert calls[i] == s.workers[v].call && calls[k] == second;
    }
  }

  /** Calls stay one to an entry in every continuation that meets the guard, if and only if the lookup
      itself meets it. */
  lemma LookupSafeIffNotDispatching(s: State, a: Action)
    requires Inv(s) && Enabled(s, a) && a.Lookup? && a.id in s.live
    ensures (forall acts :: Legal(Step(s, a), acts) && AllApart(Step(s, a), acts) ==>
               DistinctLives(After(Step(s, a), acts).calls))
       <==> !Dispatching(s, a.id)
  {
    var t := Step(s, a);
    if Dispatching(s, a.id) {
      var v :| 0 <= v < |s.workers| && Busy(s.workers[v], a.id);
      var acts := if s.workers[v].Found? then [Callback(v), Callback(a.worker)] else [Callback(a.worker)];
      OverlappingLookupCallsTwice(s, a, v, acts);
    } else {
      StepKeepsInv(s, a);
      forall acts | Legal(t, acts) && AllApart(t, acts)
        ensures DistinctLives(After(t, acts).calls)
      {
        InvAlong(t, acts);
      }
    }
  }

  // A push.

  predicate NoPushOf(acts: seq<Action>, id: string) {
    forall i :: 0 <= i < |acts| && acts[i].Push? ==> acts[i].id != id
  }

  predicate CallMade(s: State, p: nat) {
    exists i :: 0 <= i < |s.calls| && s.calls[i].from.push == p
  }

  /** The id's entry is live with what push p registered, or has been called back with it. */
  predicate Honoured(s: State, id: string, p: nat) {
    (id in s.live && s.live[id].push == p) || CallMade(s, p)
  }

  /** No worker is about to remove the id for the sake of an earlier push. */
  ghost predicate Underway(s: State, id: string, p: nat) {
    CallMade(s, p)
    || (&& id in s.live && s.live[id].push == p
        && forall w :: 0 <= w < |s.workers| && Busy(s.workers[w], id) ==>
             s.workers[w].call.from.push == p && !s.workers[w].Called?)
  }

  lemma StepKeepsCallMade(s: State, a: Action, p: nat)
    requires Enabled(s, a) && CallMade(s, p)
    ensures CallMade(Step(s, a), p)
  {
    var i :| 0 <= i < |s.calls| && s.calls[i].from.push == p;
    assert Step(s, a).calls[i] == s.calls[i];
  }

  lemma StepKeepsUnderway(s: State, a: Action, id: string, p: nat)
    requires LiveInv(s) && Enabled(s, a) && Underway(s, id, p) && NoPushOf([a], id)
    ensures Underway(Step(s, a), id, p)
  {
    var t := Step(s, a);
    assert a.Push? ==> [a][0].id != id;
    if CallMade(s, p) {
      StepKeepsCallMade(s, a, p);
    } else if a.Callback? && Busy(s.workers[a.worker], id) {
      assert t.calls[|s.calls|].from.push == p;
    } else if a.Lookup? && a.id in s.live {
      assert LiveOk(s, a.id, s.live[a.id]);
    }
  }

  lemma {:induction false} UnderwayAlong(s: State, acts: seq<Action>, id: string, p: nat)
    requires LiveInv(s) && CallsInv(s) && Underway(s, id, p) && Legal(s, acts) && NoPushOf(acts, id)
    ensures Underway(After(s, acts), id, p)
    decreases |acts|
  {
    if acts != [] {
      StepKeepsUnderway(s, acts[0], id, p);
      StepKeepsRecords(s, acts[0]);
      UnderwayAlong(Step(s, acts[0]), acts[1..], id, p);
    }
  }

  lemma JustRemove(t: State, w: nat)
    requires w < |t.workers| && t.workers[w].Called?
    ensures Legal(t, [Remove(w)])
    ensures After(t, [Remove(w)]).live == t.live - {t.workers[w].call.from.entry.id}
    ensures After(t, [Remove(w)]).calls == t.calls
  {
    assert [Remove(w)][1..] == [];
  }

  lemma CallAndRemove(t: State, w: nat)
    requires w < |t.workers| && t.workers[w].Found?
    ensures Legal(t, [Callback(w), Remove(w)])
    ensures After(t, [Callback(w), Remove(w)]).live == t.live - {t.workers[w].call.from.entry.id}
    ensures After(t, [Callback(w), Remove(w)]).calls == t.calls + [t.workers[w].call]
  {
    assert [Callback(w), Remove(w)][1..] == [Remove(w)];
    JustRemove(Step(t, Callback(w)), w);
  }

  /** A push of an id that worker w is dispatching is forgotten when w has finished. */
  lemma PushDuringDispatchIsForgotten(s: State, a: Action, w: nat, acts: seq<Action>)
    requires LiveInv(s) && CallsInv(s) && Enabled(s, a) && a.Push? && a.id != ""
    requires w < |s.workers| && Busy(s.workers[w], a.id)
    requires acts == (if s.workers[w].Found? then [Callback(w), Remove(w)] else [Remove(w)])
    ensures Legal(Step(s, a), acts) && NoPushOf(acts, a.id)
    ensures !Honoured(After(Step(s, a), acts), a.id, |s.registered|)
  {
    var t := Step(s, a);
    var f := if s.workers[w].Found? then t.calls + [t.workers[w].call] else t.calls;
    if s.workers[w].Found? {
      CallAndRemove(t, w);
    } else {
      JustRemove(t, w);
    }
    assert After(t, acts).calls == f && a.id !in After(t, acts).live;
    assert CallOk(s, s.workers[w].call);
    forall i | 0 <= i < |f|
      ensures f[i].from.push < |s.registered|
    {
      assert i < |s.calls| ==> CallOk(s, s.calls[i]);
    }
  }

  /** Whatever follows, short of another push of the id, a push leaves its entry live or called back
      with what was pushed, if and only if nobody is dispatching the id when it comes. */
  lemma PushHonouredIffNotDispatching(s: State, a: Action)
    requires LiveInv(s) && CallsInv(s) && Enabled(s, a) && a.Push? && a.id != ""
    ensures (forall acts :: Legal(Step(s, a), acts) && NoPushOf(acts, a.id) ==>
               Honoured(After(Step(s, a), acts), a.id, |s.registered|))
       <==> !Dispatching(s, a.id)
  {
    var t := Step(s, a);
    if Dispatching(s, a.id) {
      var w :| 0 <= w < |s.workers| && Busy(s.workers[w], a.id);
      var acts := if s.workers[w].Found? then [Callback(w), Remove(w)] else [Remove(w)];
      PushDuringDispatchIsForgotten(s, a, w, acts);
    } else {
      StepKeepsRecords(s, a);
      forall acts | Legal(t, acts) && NoPushOf(acts, a.id)
        ensures Honoured(After(t, acts), a.id, |s.registered|)
      {
        UnderwayAlong(t, acts, a.id, |s.registered|);
      }
    }
  }

  // The timeout of an entry pushed again.

  /** If a lookup at the reading would report a timeout, the expiry period has passed. */
  ghost predicate HonestAt(s: State, id: string, now: TimeVal) {
    id in s.live ==>
      var call := CallFor(s, s.live[id], now);
      call.timeout ==> EXPIRY_MSECS <= call.elapsed
  }

  ghost predicate Honest(s: State, id: string) {
    forall now :: Ticks(s, now) ==> HonestAt(s, id, now)
  }

  ghost predicate MarkedInTime(s: State, id: string) {
    id in s.live && s.live[id].entry.expired ==> Before(s.live[id].entry.etime, s.clock)
  }

  lemma MarkedInTimeIsHonest(s: State, id: string)
    requires LiveInv(s) && MarkedInTime(s, id)
    ensures Honest(s, id)
  {
    forall now | Ticks(s, now)
      ensures HonestAt(s, id, now)
    {
      if id in s.live && s.live[id].entry.expired {
        assert LiveOk(s, id, s.live[id]);
        ExpiredMeansElapsed(s.live[id].entry.atime, s.clock, now);
      }
    }
  }

  lemma StepKeepsMarkedInTime(s: State, a: Action, id: string)
    requires LiveInv(s) && Enabled(s, a) && MarkedInTime(s, id) && (a.Push? ==> a.id != id)
    ensures MarkedInTime(Step(s, a), id)
  {
    assert id in s.live ==> LiveOk(s, id, s.live[id]);
  }

  lemma {:induction false} MarkedInTimeAlong(s: State, acts: seq<Action>, id: string)
    requires LiveInv(s) && CallsInv(s) && MarkedInTime(s, id) && Legal(s, acts) && NoPushOf(acts, id)
    ensures LiveInv(After(s, acts)) && MarkedInTime(After(s, acts), id)
    decreases |acts|
  {
    if acts != [] {
      StepKeepsMarkedInTime(s, acts[0], id);
      StepKeepsRecords(s, acts[0]);
      MarkedInTimeAlong(Step(s, acts[0]), acts[1..], id);
    }
  }

  /** A lookup straight after the push of a live id reports no timeout before its time, at whatever
      reading, if and only if the entry was not marked before the push. */
  lemma RepushHonestIffUnmarked(s: State, a: Action)
    requires LiveInv(s) && Enabled(s, a) && a.Push? && a.id in s.live
    ensures (forall now :: Ticks(Step(s, a), now) ==> HonestAt(Step(s, a), a.id, now))
       <==> !s.live[a.id].entry.expired
  {
    var t := Step(s, a);
    assert LiveOk(s, a.id, s.live[a.id]);
    if s.live[a.id].entry.expired {
      ElapsedWithinOneMsec(a.now, a.now);
      assert !HonestAt(t, a.id, a.now);
    } else {
      PushKeepsLiveInv(s, a);
      MarkedInTimeIsHonest(t, a.id);
    }
  }

  /** The same for the lookups at every later moment before another push of the id, and for a push of
      any id: only a marked entry pushed again can report a timeout before its time. */
  lemma TimeoutsHonestIffUnmarked(s: State, a: Action)
    requires LiveInv(s) && CallsInv(s) && Enabled(s, a) && a.Push? && a.id != ""
    ensures (forall acts :: Legal(Step(s, a), acts) && NoPushOf(acts, a.id) ==>
               Honest(After(Step(s, a), acts), a.id))
       <==> !(a.id in s.live && s.live[a.id].entry.expired)
  {
    var t := Step(s, a);
    if a.id in s.live && s.live[a.id].entry.expired {
      RepushHonestIffUnmarked(s, a);
      assert Legal(t, []) && NoPushOf([], a.id) && After(t, []) == t;
    } else {
      StepKeepsRecords(s, a);
      forall acts | Legal(t, acts) && NoPushOf(acts, a.id)
        ensures Honest(After(t, acts), a.id)
      {
        MarkedInTimeAlong(t, acts, a.id);
        MarkedInTimeIsHonest(After(t, acts), a.id);
      }
    }
  }
}
