/**
 What each event does to the processor, the queues and the threads' states, in the words of
 the C code and with its numbers.
 */
module SchedulerSwitch {
  import opened Basics
  import opened Queues
  import opened SchedulerSpec
  import opened SchedulerInvariant
  import opened SchedulerRuns

  /** Of these queues the front of A runs, else the front of B, else idle; the others stay in order. */
  ghost predicate FrontRuns(a: seq<Tid>, b: seq<Tid>, r: State) {
    if a != [] then [r.cur] + r.a == a && r.b == b
    else if b != [] then r.a == [] && [r.cur] + r.b == b
    else r.a == [] && r.b == [] && r.cur == r.idle
  }

  /** The thread that runs is on a new slice. */
  ghost predicate Fresh(r: State) {
    r.ticks == 0 && r.cur in r.status && r.status[r.cur] == Running
  }

  lemma SwitchFront(s: State, e: Event)
    requires Steady(s) && (e == Block || e == Yield || (e == Exit && s.cur != s.idle))
    ensures BetweenThreads(Leaving(s, e))
    ensures var r, back := Dispatch(Leaving(s, e)), e == Yield && s.cur != s.idle;
            && Fresh(r) && r.idle == s.idle
            && FrontRuns(if back && s.count[s.cur] >= 0 then s.a + [s.cur] else s.a,
                         if back && s.count[s.cur] < 0 then s.b + [s.cur] else s.b, r)
  {
    LeavingInv(s, e);
  }

  // ----- yielding, blocking, exiting -----

  /**
   A yield: the thread goes to the back of queue A if its count is not negative, else to the
   back of queue B, and is ready there unless it is itself the first in line.
   */
  lemma YieldGoesBehind(s: State)
    requires Inv(s) && s.cur != s.idle
    ensures var t, r := s.cur, Apply(s, Yield);
            && Fresh(r) && t in r.status && r.status[t] == (if r.cur == t then Running else Ready)
            && (s.count[t] >= 0 ==> [r.cur] + r.a == s.a + [t] && r.b == s.b)
            && (s.count[t] < 0 && s.a != [] ==> [r.cur] + r.a == s.a && r.b == s.b + [t])
            && (s.count[t] < 0 && s.a == [] ==> r.a == [] && [r.cur] + r.b == s.b + [t])
  {
    SwitchFront(s, Yield);
  }

  /** A block: the thread is in no queue, and the next one runs. */
  lemma BlockSleeps(s: State)
    requires Inv(s)
    ensures var t, r := s.cur, Apply(s, Block);
            && Fresh(r) && FrontRuns(s.a, s.b, r) && t in r.status
            && r.status[t] == (if r.cur == t then Running else Blocked) && (r.cur == t ==> t == s.idle)
  {
    SwitchFront(s, Block);
    CurUnqueued(s);
    CurNotFront(s);
  }

  lemma CurNotFront(s: State)
    requires Steady(s)
    ensures s.a != [] ==> s.a[0] != s.cur
    ensures s.b != [] ==> s.b[0] != s.cur
  {
    CurUnqueued(s);
  }

  /** An exit: the thread is gone and the next one runs. */
  lemma ExitLeaves(s: State)
    requires Inv(s) && s.cur != s.idle
    ensures var r := Apply(s, Exit);
            Fresh(r) && FrontRuns(s.a, s.b, r) && s.cur !in r.status && s.cur !in r.count && r.cur != s.cur
  {
    SwitchFront(s, Exit);
    CurNotFront(s);
  }

  // ----- waking and creating -----

  /** An unblocked thread is ready at the back of the queue of its count; nothing else changes. */
  lemma UnblockWakes(s: State, t: Tid)
    requires Inv(s) && t in s.status && s.status[t] == Blocked && t != s.idle
    ensures t in s.count
    ensures var r := Apply(s, Unblock(t));
            && r.status == s.status[t := Ready] && r.count == s.count
            && r.cur == s.cur && r.idle == s.idle && r.ticks == s.ticks
            && (s.count[t] >= 0 ==> r.a == s.a + [t] && r.b == s.b)
            && (s.count[t] < 0 ==> r.a == s.a && r.b == s.b + [t])
  {
  }

  /** A created thread has count 0 and is ready at the back of queue A; nothing else changes. */
  lemma CreatedInA(s: State, t: Tid)
    requires Inv(s) && s.cur != s.idle && t !in s.count
    ensures var r := Apply(s, Create(t));
            && r.count == s.count[t := 0] && r.status == s.status[t := Ready] && r.a == s.a + [t] && r.b == s.b
            && r.cur == s.cur && r.idle == s.idle && r.ticks == s.ticks
  {
  }

  // ----- ticks -----

  /** Nothing of a thread's turn is over yet. */
  ghost predicate KeepsOn(s: State, r: State) {
    && r.cur == s.cur && r.ticks == s.ticks + 1
    && s.cur in s.count && s.cur in r.count && r.count[s.cur] == s.count[s.cur]
    && s.cur in r.status && r.status[s.cur] == Running
  }

  /** A thread of queue A keeps the processor at its first three ticks. */
  lemma TickKeepsA(s: State)
    requires Inv(s) && s.count[s.cur] >= 0 && s.ticks + 1 < 4
    ensures KeepsOn(s, Apply(s, Tick))
  {
    TickSteady(s);
  }

  /** A thread of queue B keeps it at its first seven ticks, as long as queue A is empty. */
  lemma TickKeepsB(s: State)
    requires Inv(s) && s.count[s.cur] < 0 && s.a == [] && s.ticks + 1 < 8
    ensures KeepsOn(s, Apply(s, Tick)) && Apply(s, Tick).a == [] && Apply(s, Tick).b == s.b
  {
    TickSteady(s);
  }

  /** The threads at the front of queue B that have waited so long that this tick promotes them. */
  ghost predicate Promotes(s: State, k: nat) {
    && k <= |s.b| && Keyed(s.b, s.count)
    && (forall i | 0 <= i < |s.b| :: i < k <==> s.count[s.b[i]] == -24)
  }

  lemma PromotesDue(s: State) returns (k: nat)
    requires Inv(s)
    ensures QueuesKnown(s) && Promotes(s, k) && Age(s).a == s.a + s.b[..k] && Age(s).b == s.b[k..]
  {
    k := DueFront(s.b, s.count);
    AgeSplits(s, k);
    forall i | 0 <= i < |s.b| ensures i < k <==> s.count[s.b[i]] == -24 {
      OccAt(s.b, i);
      assert Placed(s, s.b[i]);
    }
  }

  /**
   The fourth tick of a thread of queue A: with count 0 it goes to the back of queue A, with
   count 1 to the back of queue B; threads promoted by the same tick stand before it.  Idle
   goes nowhere.
   */
  lemma FourthTickSwitches(s: State) returns (k: nat)
    requires Inv(s) && s.count[s.cur] >= 0 && s.ticks + 1 >= 4
    ensures Promotes(s, k) && Fresh(Apply(s, Tick))
    ensures var t, r, a, b := s.cur, Apply(s, Tick), s.a + s.b[..k], s.b[k..];
            && t in r.status && r.status[t] == (if r.cur == t then Running else Ready)
            && t in r.count && r.count[t] == (if s.count[t] == 0 then 1 else -1)
            && FrontRuns(if s.count[t] == 0 && t != s.idle then a + [t] else a,
                         if s.count[t] == 1 && t != s.idle then b + [t] else b, r)
  {
    k := PromotesDue(s);
    TickSteady(s);
    FourthTick(s, k);
    SwitchFront(TickState(s), Yield);
    TickStatus(s, s.cur);
    KeptAlive(s, Tick, s.cur);
    SwitchCount(TickState(s), s.cur);
  }

  lemma FourthTick(s: State, k: nat)
    requires Inv(s) && s.count[s.cur] >= 0 && s.ticks + 1 >= 4 && k <= |s.b|
    requires Age(s).a == s.a + s.b[..k] && Age(s).b == s.b[k..]
    ensures var x := TickState(s);
            && x.cur == s.cur && x.idle == s.idle && x.a == s.a + s.b[..k] && x.b == s.b[k..] && TickYields(s)
            && s.cur in x.count && x.count[s.cur] == (if s.count[s.cur] == 0 then 1 else -1) && s.count[s.cur] <= 1
  {
    AgeSteady(s);
    assert Placed(s, s.cur);
  }

  lemma SwitchCount(s: State, t: Tid)
    requires Steady(s) && t in s.count && s.count[t] >= -1
    ensures BetweenThreads(Leaving(s, Yield))
    ensures var r := Dispatch(Leaving(s, Yield)); t in r.count && r.count[t] == s.count[t]
  {
    LeavingInv(s, Yield);
  }

  /** The eighth tick of a thread of queue B, or any while queue A is not empty: it goes to the back of queue B. */
  lemma TickSwitchesB(s: State)
    requires Inv(s) && s.count[s.cur] < 0 && (s.a != [] || s.ticks + 1 >= 8)
    ensures Fresh(Apply(s, Tick))
    ensures var t, r := s.cur, Apply(s, Tick);
            && t in r.status && r.status[t] == (if r.cur == t then Running else Ready)
            && t in r.count && r.count[t] == -1
            && FrontRuns(s.a, if t != s.idle then s.b + [t] else s.b, r)
  {
    TickSteady(s);
    assert Placed(s, s.cur);
    SwitchFront(TickState(s), Yield);
  }

  // ----- the states of all threads -----

  /** What an event leaves the state of `t` at: the whole law of blocking and waking. */
  ghost function StatusLaw(s: State, e: Event, r: State, t: Tid): Status {
    if t == r.cur then Running
    else if e == Create(t) || e == Unblock(t) then Ready
    else if t == s.cur then if e == Block then Blocked else Ready
    else if t in s.status then s.status[t] else Dying
  }

  lemma SwitchStatus(s: State, e: Event, t: Tid)
    requires Steady(s) && (e == Block || e == Yield || (e == Exit && s.cur != s.idle))
    ensures BetweenThreads(Leaving(s, e))
    ensures var r := Dispatch(Leaving(s, e)); t in r.status ==> r.status[t] == StatusLaw(s, e, r, t)
  {
    LeavingInv(s, e);
  }

  lemma TickStatus(s: State, t: Tid)
    requires Inv(s)
    ensures var r := Apply(s, Tick); t in r.status ==> r.status[t] == StatusLaw(s, Tick, r, t)
  {
    TickSteady(s);
    TickKeepsStatus(s);
    if TickYields(s) {
      SwitchStatus(TickState(s), Yield, t);
      var r := Dispatch(Leaving(TickState(s), Yield));
      assert StatusLaw(TickState(s), Yield, r, t) == StatusLaw(s, Tick, r, t);
    }
  }

  lemma TickKeepsStatus(s: State)
    requires Known(s)
    ensures var x := TickState(s); x.status == s.status && x.cur == s.cur && x.idle == s.idle
  {
  }

  /** Every event and every thread that is there afterwards. */
  lemma StatusAfter(s: State, e: Event, t: Tid)
    requires Inv(s) && Enabled(s, e)
    ensures var r := Apply(s, e); t in r.status ==> r.status[t] == StatusLaw(s, e, r, t)
  {
    match e
    case Create(_) => StepInv(s, e);
    case Unblock(_) => StepInv(s, e);
    case Tick => TickStatus(s, t);
    case _ => SwitchStatus(s, e, t);
  }

  ghost predicate IsBlocked(s: State, t: Tid) {
    t in s.status && s.status[t] == Blocked
  }

  /** A thread blocks only by its own Block, and stops being blocked exactly by an Unblock of it. */
  lemma BlockedAfter(s: State, e: Event, t: Tid)
    requires Inv(s) && Enabled(s, e) && t != s.idle
    ensures IsBlocked(Apply(s, e), t) <==> (e == Block && t == s.cur) || (IsBlocked(s, t) && e != Unblock(t))
  {
    StatusAfter(s, e, t);
    BlockedStays(s, e, t);
  }

  lemma BlockedStays(s: State, e: Event, t: Tid)
    requires Inv(s) && Enabled(s, e) && t != s.idle
    ensures (e == Block && t == s.cur) || (IsBlocked(s, t) && e != Unblock(t)) ==>
              t in Apply(s, e).status && t != Apply(s, e).cur
  {
    NotPicked(s, e, t);
    assert s.cur in s.status && s.status[s.cur] == Running;
    if (e == Block && t == s.cur) || (IsBlocked(s, t) && e != Unblock(t)) {
      KeptAlive(s, e, t);
    }
  }

  lemma KeptAlive(s: State, e: Event, t: Tid)
    requires Inv(s) && Enabled(s, e) && t in s.status && !(e == Exit && t == s.cur)
    ensures t in Apply(s, e).status
  {
    if e == Tick {
      TickSteady(s);
      if TickYields(s) {
        LeavingInv(TickState(s), Yield);
      }
    } else if e == Block || e == Yield || e == Exit {
      LeavingInv(s, e);
    }
  }

  /** A blocked thread, or one that blocks now, is not the next to run, unless it is idle. */
  lemma NotPicked(s: State, e: Event, t: Tid)
    requires Inv(s) && Enabled(s, e) && t != s.idle
    ensures (e == Block && t == s.cur) || (IsBlocked(s, t) && e != Unblock(t)) ==> t != Apply(s, e).cur
  {
    if e == Block || e == Yield || e == Exit {
      LeavingInv(s, e);
      PickedWasReady(Leaving(s, e));
    } else if e == Tick {
      TickSteady(s);
      if TickYields(s) {
        LeavingInv(TickState(s), Yield);
        PickedWasReady(Leaving(TickState(s), Yield));
      }
    }
  }

  lemma PickedWasReady(s: State)
    requires BetweenThreads(s)
    ensures Next(s) == s.idle || (Next(s) in s.status && s.status[Next(s)] == Ready)
  {
    assert Placed(s, Next(s));
    if s.a != [] {
      OccAt(s.a, 0);
    } else if s.b != [] {
      OccAt(s.b, 0);
    }
  }

  /** Idle is blocked after an event exactly if it was, or blocks now, and does not run. */
  lemma IdleBlockedAfter(s: State, e: Event)
    requires Inv(s) && Enabled(s, e)
    ensures var r := Apply(s, e);
            IsBlocked(r, s.idle) <==> r.cur != s.idle && (IsBlocked(s, s.idle) || (e == Block && s.cur == s.idle))
  {
    StatusAfter(s, e, s.idle);
    KeptAlive(s, e, s.idle);
  }

  // ----- over runs -----

  /** By the Blocks and Unblocks of the run alone: is `t` asleep after `k` events? */
  ghost predicate Asleep(s: State, es: seq<Event>, t: Tid, k: nat)
    requires Inv(s) && Legal(s, es) && k <= |es|
  {
    if k == 0 then IsBlocked(s, t)
    else (es[k - 1] == Block && Trace(s, es)[k - 1].cur == t) || (Asleep(s, es, t, k - 1) && es[k - 1] != Unblock(t))
  }

  /** In every state of every run a thread is blocked exactly if its last Block was not followed by an Unblock. */
  lemma {:induction false} BlockedOverRun(s: State, es: seq<Event>, t: Tid, k: nat)
    requires Inv(s) && Legal(s, es) && k <= |es| && t != s.idle
    ensures Trace(s, es)[k].idle == s.idle && (IsBlocked(Trace(s, es)[k], t) <==> Asleep(s, es, t, k))
  {
    if k > 0 {
      BlockedOverRun(s, es, t, k - 1);
      TraceStep(s, es, k - 1);
      BlockedAfter(Trace(s, es)[k - 1], es[k - 1], t);
      SameIdle(Trace(s, es)[k - 1], es[k - 1]);
    }
  }

  lemma SameIdle(s: State, e: Event)
    requires Inv(s) && Enabled(s, e)
    ensures Apply(s, e).idle == s.idle
  {
    if e == Tick {
      TickSteady(s);
      if TickYields(s) {
        LeavingInv(TickState(s), Yield);
      }
    } else if e == Block || e == Yield || e == Exit {
      LeavingInv(s, e);
    }
  }

  lemma {:induction false} TicksPush(es: seq<Event>, k: nat)
    requires k < |es|
    ensures Ticks(es, k + 1) == Ticks(es, k) + One(es[k] == Tick)
    decreases k
  {
    if k > 0 {
      TicksPush(es[1..], k - 1);
    }
  }

  /** The running thread does not give up the processor by itself in the first `k` events. */
  ghost predicate Undisturbed(es: seq<Event>, k: nat)
    requires k <= |es|
  {
    forall j | 0 <= j < k :: es[j] == Tick || es[j].Create? || es[j].Unblock?
  }

  /** A thread of queue A that does not give it up has the processor until its fourth tick. */
  lemma {:induction false} KeepsUntilFourth(s: State, es: seq<Event>, k: nat)
    requires Inv(s) && Legal(s, es) && k <= |es| && Undisturbed(es, k)
    requires s.count[s.cur] >= 0 && s.ticks + Ticks(es, k) < 4
    ensures var r := Trace(s, es)[k];
            && r.cur == s.cur && r.ticks == s.ticks + Ticks(es, k)
            && s.cur in r.count && r.count[s.cur] == s.count[s.cur]
  {
    if k > 0 {
      TicksPush(es, k - 1);
      KeepsUntilFourth(s, es, k - 1);
      TraceStep(s, es, k - 1);
      if es[k - 1] == Tick {
        TickKeepsA(Trace(s, es)[k - 1]);
      }
    }
  }

  /**
   Exactly four ticks: a thread just dispatched from queue A that does not block, yield or exit
   runs on over three ticks and goes behind its queue at the fourth.
   */
  lemma FourTicksEach(s: State, es: seq<Event>, k: nat) returns (n: nat)
    requires Inv(s) && Legal(s, es) && k < |es| && Undisturbed(es, k) && es[k] == Tick
    requires s.count[s.cur] >= 0 && s.cur != s.idle && s.ticks == 0 && Ticks(es, k) == 3
    ensures Promotes(Trace(s, es)[k], n)
    ensures var t, x, r := s.cur, Trace(s, es)[k], Trace(s, es)[k + 1];
            && x.cur == t
            && FrontRuns(if s.count[t] == 0 then x.a + x.b[..n] + [t] else x.a + x.b[..n],
                         if s.count[t] == 0 then x.b[n..] else x.b[n..] + [t], r)
  {
    KeepsUntilFourth(s, es, k);
    TraceStep(s, es, k);
    BlockedOverRun(s, es, s.cur, k);
    var x := Trace(s, es)[k];
    n := FourthTickSwitches(x);
    assert Placed(x, s.cur);
  }

  /** A thread of queue B has the processor until its eighth tick, as long as queue A stays empty. */
  lemma {:induction false} KeepsUntilEighth(s: State, es: seq<Event>, k: nat)
    requires Inv(s) && Legal(s, es) && k <= |es| && Undisturbed(es, k)
    requires forall j | 0 <= j < k :: Trace(s, es)[j].a == []
    requires s.count[s.cur] < 0 && s.ticks + Ticks(es, k) < 8
    ensures var r := Trace(s, es)[k];
            && r.cur == s.cur && r.ticks == s.ticks + Ticks(es, k)
            && s.cur in r.count && r.count[s.cur] == s.count[s.cur]
  {
    if k > 0 {
      TicksPush(es, k - 1);
      KeepsUntilEighth(s, es, k - 1);
      TraceStep(s, es, k - 1);
      if es[k - 1] == Tick {
        TickKeepsB(Trace(s, es)[k - 1]);
      }
    }
  }
}
