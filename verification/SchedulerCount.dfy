/**
 What the one signed byte `count` means over a run: slices exhausted since the thread entered
 queue A, or ticks waited since it entered queue B.
 */
module SchedulerCount {
  import opened Queues
  import opened SchedulerSpec
  import opened SchedulerInvariant
  import opened SchedulerRuns
  import opened SchedulerBounds

  /** At this event `t` uses up a full slice of queue A. */
  ghost predicate ExhaustsSlice(s: State, e: Event, t: Tid) {
    e == Tick && s.cur == t && t in s.count && s.count[t] >= 0 && s.ticks + 1 >= 4
  }

  /** At this event queue B waits one tick, because a thread of queue A has the processor. */
  ghost predicate WaitingTick(s: State, e: Event) {
    e == Tick && s.cur in s.count && s.count[s.cur] >= 0
  }

  ghost predicate Survives(s: State, e: Event, t: Tid) {
    t in s.count && !(e == Exit && t == s.cur)
  }

  lemma DispatchCount(s: State, t: Tid)
    requires QueuesKnown(s) && t in s.count
    ensures var r := Dispatch(s);
            t in r.count && r.count[t] == if r.cur == t && s.count[t] < 0 then -1 else s.count[t]
  {
  }

  lemma TickStateCount(s: State, t: Tid)
    requires Inv(s) && t in s.count
    ensures var x := TickState(s);
            t in x.count
            && (t == s.cur ==> x.count[t] == if !ExhaustsSlice(s, Tick, t) then s.count[t]
                                             else if s.count[t] >= 1 then -1 else s.count[t] + 1)
            && (t != s.cur ==> x.count[t] == if WaitingTick(s, Tick) && t in s.b then Aged(s.count[t]) else s.count[t])
  {
    CurUnqueued(s);
    AgeSteady(s);
  }

  /** What one event can do to the count of a thread that is not in queue B. */
  lemma CountOutsideB(s: State, e: Event, t: Tid)
    requires Inv(s) && Enabled(s, e) && Survives(s, e, t) && t !in s.b
    ensures var r := Apply(s, e);
            t in r.count && r.count[t] == if !ExhaustsSlice(s, e, t) then s.count[t]
                                          else if s.count[t] >= 1 then -1 else s.count[t] + 1
  {
    assert Placed(s, t);
    OccFind(s.b, t);
    if e == Tick {
      TickSteady(s);
      TickStateCount(s, t);
      if TickYields(s) {
        LeavingInv(TickState(s), Yield);
        DispatchCount(Leaving(TickState(s), Yield), t);
      }
    } else if e == Block || e == Yield || e == Exit {
      LeavingInv(s, e);
      DispatchCount(Leaving(s, e), t);
    }
  }

  /** What one event can do to the count of a thread in queue B. */
  lemma CountInB(s: State, e: Event, t: Tid)
    requires Inv(s) && Enabled(s, e) && t in s.b
    ensures t in s.count && t in Apply(s, e).count
    ensures var r, c := Apply(s, e), if WaitingTick(s, e) then Aged(s.count[t]) else s.count[t];
            r.count[t] == if r.cur == t && c < 0 then -1 else c
  {
    InB(s, t);
    CurUnqueued(s);
    if e == Tick {
      TickSteady(s);
      TickStateCount(s, t);
      if TickYields(s) {
        LeavingInv(TickState(s), Yield);
        DispatchCount(Leaving(TickState(s), Yield), t);
      }
    } else if e == Block || e == Yield || e == Exit {
      LeavingInv(s, e);
      DispatchCount(Leaving(s, e), t);
    }
  }

  /** One event for a thread of queue B: it waits on, is promoted when due, or is dispatched. */
  lemma StaysOrLeavesB(s: State, e: Event, t: Tid)
    requires Inv(s) && Enabled(s, e) && t in s.b
    ensures t in s.count && t in Apply(s, e).count
    ensures var r, c := Apply(s, e), s.count[t] - if WaitingTick(s, e) then 1 else 0;
            && (t in r.b ==> r.count[t] == c >= -WAITING_TIME)
            && (t !in r.b ==> if c < -WAITING_TIME then r.count[t] == 0 && (t in r.a || r.cur == t)
                              else r.count[t] == -1 && r.cur == t)
  {
    var r := Apply(s, e);
    InB(s, t);
    CountInB(s, e, t);
    StepB(s, e, t);
    StepInv(s, e);
    assert Placed(r, t);
    OccFind(r.a, t);
    OccFind(r.b, t);
    if r.cur == t {
      LeftB(r, t);
    }
  }

  // ----- over runs -----

  /** Full slices `t` used up in queue A during the first `k` events. */
  ghost function Slices(s: State, es: seq<Event>, t: Tid, k: nat): nat
    requires Inv(s) && Legal(s, es) && k <= |es|
  {
    if k == 0 then 0
    else Slices(s, es, t, k - 1) + if ExhaustsSlice(Trace(s, es)[k - 1], es[k - 1], t) then 1 else 0
  }

  /** Ticks queue B waited during the first `k` events. */
  ghost function WaitedTicks(s: State, es: seq<Event>, k: nat): nat
    requires Inv(s) && Legal(s, es) && k <= |es|
  {
    if k == 0 then 0
    else WaitedTicks(s, es, k - 1) + if WaitingTick(Trace(s, es)[k - 1], es[k - 1]) then 1 else 0
  }

  /**
   From entering queue A (count 0) on, count is the number of slices used up, and the thread
   is demoted exactly when it has used up its second: not by yielding, blocking or waiting.
   */
  lemma {:induction false} DemotedAtSecondSlice(s: State, es: seq<Event>, t: Tid, k: nat)
    requires Inv(s) && Legal(s, es) && k <= |es|
    requires forall j | 0 <= j < k :: Survives(Trace(s, es)[j], es[j], t) && Trace(s, es)[j].count[t] >= 0
    requires t in s.count && s.count[t] == 0
    ensures t in Trace(s, es)[k].count && Slices(s, es, t, k) <= 2
    ensures Trace(s, es)[k].count[t] == if Slices(s, es, t, k) < 2 then Slices(s, es, t, k) else -1
  {
    if k > 0 {
      DemotedAtSecondSlice(s, es, t, k - 1);
      TraceStep(s, es, k - 1);
      var r := Trace(s, es)[k - 1];
      assert Placed(r, t);
      OccFind(r.b, t);
      CountOutsideB(r, es[k - 1], t);
    }
  }

  /**
   From entering queue B (count -1) on, count is -1 less the ticks waited; the thread leaves
   queue B undispatched exactly at the 24th of these ticks, with count 0, that is into queue A
   or straight onto the processor from its front; otherwise it leaves by being dispatched.
   */
  lemma {:induction false} PromotedAtTick24(s: State, es: seq<Event>, t: Tid, k: nat)
    requires Inv(s) && Legal(s, es) && k <= |es|
    requires forall j | 0 <= j < k :: t in Trace(s, es)[j].b
    requires t in s.b && t in s.count && s.count[t] == -1
    ensures var r, w := Trace(s, es)[k], WaitedTicks(s, es, k);
            && t in r.count && w <= 24
            && (t in r.b ==> w < 24 && r.count[t] == -1 - w)
            && (t !in r.b ==> if w == 24 then r.count[t] == 0 && (t in r.a || r.cur == t)
                              else r.count[t] == -1 && r.cur == t)
  {
    if k > 0 {
      PromotedAtTick24(s, es, t, k - 1);
      TraceStep(s, es, k - 1);
      StaysOrLeavesB(Trace(s, es)[k - 1], es[k - 1], t);
    } else {
      InB(s, t);
    }
  }

  /**
   The comment above the aging loop promotes at count -24.  The code does not: a thread whose
   count falls to -24 stays in queue B, and it is the next waiting tick that promotes it.
   */
  lemma NotPromotedAtMinus24(s: State, t: Tid)
    requires Inv(s) && t in s.b && t in s.count && WaitingTick(s, Tick)
    ensures s.count[t] == -23 && Apply(s, Tick).cur != t ==>
              t in Apply(s, Tick).b && t in Apply(s, Tick).count && Apply(s, Tick).count[t] == -24
    ensures Apply(s, Tick).cur != t ==> (t !in Apply(s, Tick).b <==> s.count[t] == -24)
  {
    StaysOrLeavesB(s, Tick, t);
    InB(s, t);
  }

  /** main runs, thread 3 has waited 22 ticks in queue B. */
  ghost function NearlyDue(): State {
    State(map[1 := 0, 2 := 0, 3 := -23], map[1 := Running, 2 := Blocked, 3 := Ready], [], [3], 1, 2, 0)
  }

  lemma NearlyDueInv()
    ensures Inv(NearlyDue())
  {
    forall t ensures Placed(NearlyDue(), t) {
      OccSingle(3, t);
    }
  }

  lemma OccSingle(x: Tid, t: Tid)
    ensures Occ([x], t) == (if x == t then 1 else 0) && Occ([], t) == 0
  {
    OccPush([], x, t);
    assert [] + [x] == [x];
  }

  /** A tick later its count is -24, and it is still in queue B. */
  lemma StillWaiting()
    ensures Inv(NearlyDue())
    ensures var r := Apply(NearlyDue(), Tick); 3 in r.b && 3 in r.count && r.count[3] == -24
  {
    NearlyDueInv();
    TickSteady(NearlyDue());
    assert NearlyDue().b[0] == 3;
    NotPromotedAtMinus24(NearlyDue(), 3);
  }
}
