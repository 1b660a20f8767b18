/**
 How long a ready thread can be kept waiting, in timer ticks.  Each queue has a ranking
 function that no event increases and every tick decreases.
 */
module SchedulerBounds {
  import opened Queues
  import opened SchedulerSpec
  import opened SchedulerInvariant
  import opened SchedulerRuns

  /** Ticks the running thread can still take before thread `t` of queue A moves up. */
  ghost function RankA(s: State, t: Tid): int
    requires Known(s) && t in s.a
  {
    TIME_SLICE * Pos(s.a, t) + if s.count[s.cur] >= 0 then TIME_SLICE - s.ticks else 1
  }

  /** Likewise for thread `t` of queue B, counting the waiting that earns a promotion. */
  ghost function RankB(s: State, t: Tid): int
    requires Known(s) && t in s.b && t in s.count
  {
    TIME_SLICE_LOW * Pos(s.b, t) + (WAITING_TIME + 1 + s.count[t])
    + if s.count[s.cur] < 0 then TIME_SLICE_LOW - s.ticks else 0
  }

  lemma DispatchFromA(s: State, t: Tid)
    requires BetweenThreads(s) && t in s.a
    ensures var r := Dispatch(s); Known(r) && (r.cur == t || (t in r.a && RankA(r, t) == TIME_SLICE * Pos(s.a, t)))
  {
    DispatchInv(s);
    Distinct(s);
    OccAt(s.a, 0);
    assert Placed(s, s.a[0]);
    if t != s.a[0] {
      PosDrop(s.a, 1, t);
    }
  }

  lemma DispatchFromB(s: State, t: Tid)
    requires BetweenThreads(s) && t in s.b && t in s.count
    ensures var r := Dispatch(s);
            Known(r) && (r.cur == t || (t in r.b && t in r.count
              && RankB(r, t) <= TIME_SLICE_LOW * Pos(s.b, t) + (WAITING_TIME + 1 + s.count[t])))
  {
    DispatchInv(s);
    Distinct(s);
    if s.a != [] {
      OccAt(s.a, 0);
      assert Placed(s, s.a[0]);
    } else if t != s.b[0] {
      PosDrop(s.b, 1, t);
    }
  }

  /** The same when the running thread gives up the processor, for whatever reason. */
  lemma LeaveFromA(s: State, e: Event, t: Tid)
    requires Steady(s) && (e == Block || e == Yield || (e == Exit && s.cur != s.idle)) && t in s.a
    ensures BetweenThreads(Leaving(s, e))
    ensures var r := Dispatch(Leaving(s, e));
            Known(r) && (r.cur == t || (t in r.a && RankA(r, t) == TIME_SLICE * Pos(s.a, t)))
  {
    LeavingInv(s, e);
    var x := Leaving(s, e);
    Distinct(x);
    if x.a != s.a {
      PosAppend(s.a, [s.cur], t);
    }
    DispatchFromA(x, t);
  }

  lemma LeaveFromB(s: State, e: Event, t: Tid)
    requires Steady(s) && (e == Block || e == Yield || (e == Exit && s.cur != s.idle))
    requires t in s.b && t in s.count
    ensures BetweenThreads(Leaving(s, e))
    ensures var r := Dispatch(Leaving(s, e));
            Known(r) && (r.cur == t || (t in r.b && t in r.count
              && RankB(r, t) <= TIME_SLICE_LOW * Pos(s.b, t) + (WAITING_TIME + 1 + s.count[t])))
  {
    LeavingInv(s, e);
    var x := Leaving(s, e);
    Distinct(x);
    CurUnqueued(s);
    if x.b != s.b {
      PosAppend(s.b, [s.cur], t);
    }
    DispatchFromB(x, t);
  }

  ghost function TickOf(e: Event): int {
    if e == Tick then 1 else 0
  }

  lemma TickA(s: State, t: Tid)
    requires Inv(s) && t in s.a
    ensures var r := Apply(s, Tick); Known(r) && (r.cur == t || (t in r.a && RankA(r, t) + 1 <= RankA(s, t)))
  {
    TickSteady(s);
    var x := TickState(s);
    Distinct(x);
    if s.count[s.cur] >= 0 {
      PosAppend(s.a, Promoted(s.b, s.count), t);
    }
    if TickYields(s) {
      LeaveFromA(x, Yield, t);
    }
  }

  /** Queue A: no event moves `t` back, and every tick brings it at least one tick nearer. */
  lemma StepA(s: State, e: Event, t: Tid)
    requires Inv(s) && Enabled(s, e) && t in s.a
    ensures var r := Apply(s, e);
            Known(r) && (r.cur == t || (t in r.a && RankA(r, t) + TickOf(e) <= RankA(s, t)))
  {
    StepInv(s, e);
    Distinct(Apply(s, e));
    match e
    case Create(x) => PosAppend(s.a, [x], t);
    case Unblock(x) => if Apply(s, e).a != s.a { PosAppend(s.a, [x], t); }
    case Tick => TickA(s, t);
    case _ => LeaveFromA(s, e, t);
  }

  /** Waiting one tick out: `t` is promoted, or moves up and has waited longer. */
  lemma AgeB(s: State, t: Tid)
    requires QueuesKnown(s) && Ascending(s.b, s.count) && t in s.b && t in s.count
    ensures var x := Age(s);
            t in x.a || (t in x.b && t in x.count && x.count[t] == s.count[t] - 1 && Pos(x.b, t) <= Pos(s.b, t))
  {
    var k, p := DueFront(s.b, s.count), Pos(s.b, t);
    AgeSplits(s, k);
    if p < k {
      assert s.b[..k][p] == t;
    } else {
      assert s.b[k..][p - k] == t;
      PosFirst(s.b[k..], p - k);
    }
  }

  lemma TickB(s: State, t: Tid)
    requires Inv(s) && t in s.b && t in s.count
    ensures var r := Apply(s, Tick);
            Known(r) && (r.cur == t || t in r.a
              || (t in r.b && t in r.count && RankB(r, t) + 1 <= RankB(s, t)))
  {
    TickSteady(s);
    AgeSteady(s);
    var x := TickState(s);
    if s.count[s.cur] >= 0 {
      AgeB(s, t);
      CurUnqueued(Age(s));
    }
    if TickYields(s) {
      if t in x.a {
        LeaveFromA(x, Yield, t);
      } else {
        LeaveFromB(x, Yield, t);
      }
    }
  }

  /** Queue B: likewise, until `t` is dispatched or promoted. */
  lemma StepB(s: State, e: Event, t: Tid)
    requires Inv(s) && Enabled(s, e) && t in s.b && t in s.count
    ensures var r := Apply(s, e);
            Known(r) && (r.cur == t || t in r.a
              || (t in r.b && t in r.count && RankB(r, t) + TickOf(e) <= RankB(s, t)))
  {
    StepInv(s, e);
    Distinct(Apply(s, e));
    match e
    case Create(x) =>
    case Unblock(x) => if Apply(s, e).b != s.b { PosAppend(s.b, [x], t); }
    case Tick => TickB(s, t);
    case _ => LeaveFromB(s, e, t);
  }

  // ----- whole runs -----

  /** The longest wait, in ticks, at position p of queue A: 4(p + 1). */
  ghost function BoundA(s: State, t: Tid): int
    requires t in s.a
  {
    4 * (Pos(s.a, t) + 1)
  }

  /** The longest wait, in ticks, at position p of queue B: 24 + 8(p + 1). */
  ghost function BoundB(s: State, t: Tid): int
    requires t in s.b
  {
    24 + 8 * (Pos(s.b, t) + 1)
  }

  /** After `m` events, at most `bound` of them ticks, `t` leaves queue A and runs. */
  ghost predicate RunsAfter(s: State, es: seq<Event>, t: Tid, m: nat, bound: int)
    requires Inv(s) && Legal(s, es)
  {
    && 0 < m <= |es| && Ticks(es, m) <= bound
    && Trace(s, es)[m].cur == t
    && forall j | 0 <= j < m :: t in Trace(s, es)[j].a
  }

  /** After `m` events, at most `bound` of them ticks, `t` leaves queue B for the processor or queue A. */
  ghost predicate LeavesBAfter(s: State, es: seq<Event>, t: Tid, m: nat, bound: int)
    requires Inv(s) && Legal(s, es)
  {
    && 0 < m <= |es| && Ticks(es, m) <= bound
    && t !in Trace(s, es)[m].b && (Trace(s, es)[m].cur == t || t in Trace(s, es)[m].a)
    && forall j | 0 <= j < m :: t in Trace(s, es)[j].b
  }

  /** A wait that starts one event later, one event earlier. */
  lemma RunsOneLater(s: State, es: seq<Event>, t: Tid, m: nat, bound: int)
    requires Inv(s) && Legal(s, es) && es != [] && t in s.a
    requires Inv(Apply(s, es[0])) && RunsAfter(Apply(s, es[0]), es[1..], t, m, bound)
    ensures RunsAfter(s, es, t, m + 1, bound + TickOf(es[0]))
  {
    var s1, rest := Apply(s, es[0]), es[1..];
    forall j | 0 <= j < m + 1 ensures t in Trace(s, es)[j].a {
      assert j > 0 ==> Trace(s, es)[j] == Trace(s1, rest)[j - 1];
    }
  }

  lemma {:induction false} RankAExhausted(s: State, es: seq<Event>, t: Tid)
    requires Inv(s) && Legal(s, es) && t in s.a && Ticks(es, |es|) >= RankA(s, t)
    ensures exists m: nat :: RunsAfter(s, es, t, m, RankA(s, t))
    decreases |es|
  {
    assert RankA(s, t) >= 1;
    if es != [] {
      StepA(s, es[0], t);
      StepInv(s, es[0]);
      var s1, rest := Apply(s, es[0]), es[1..];
      if s1.cur == t {
        assert Ticks(es, 1) == TickOf(es[0]) + Ticks(rest, 0);
        assert Trace(s, es)[1] == Trace(s1, rest)[0] == s1;
        assert RunsAfter(s, es, t, 1, RankA(s, t));
      } else {
        RankAExhausted(s1, rest, t);
        var m: nat :| RunsAfter(s1, rest, t, m, RankA(s1, t));
        RunsOneLater(s, es, t, m, RankA(s1, t));
        assert RunsAfter(s, es, t, m + 1, RankA(s, t));
      }
    }
  }

  /** A running or promoted thread is not in queue B. */
  lemma LeftB(s: State, t: Tid)
    requires Inv(s) && (s.cur == t || t in s.a)
    ensures t !in s.b
  {
    CurUnqueued(s);
    Distinct(s);
  }

  lemma LeavesBOneLater(s: State, es: seq<Event>, t: Tid, m: nat, bound: int)
    requires Inv(s) && Legal(s, es) && es != [] && t in s.b
    requires Inv(Apply(s, es[0])) && LeavesBAfter(Apply(s, es[0]), es[1..], t, m, bound)
    ensures LeavesBAfter(s, es, t, m + 1, bound + TickOf(es[0]))
  {
    var s1, rest := Apply(s, es[0]), es[1..];
    forall j | 0 <= j < m + 1 ensures t in Trace(s, es)[j].b {
      assert j > 0 ==> Trace(s, es)[j] == Trace(s1, rest)[j - 1];
    }
  }

  lemma {:induction false} RankBExhausted(s: State, es: seq<Event>, t: Tid)
    requires Inv(s) && Legal(s, es) && t in s.b && t in s.count && Ticks(es, |es|) >= RankB(s, t)
    ensures exists m: nat :: LeavesBAfter(s, es, t, m, RankB(s, t))
    decreases |es|
  {
    InB(s, t);
    if es != [] {
      StepB(s, es[0], t);
      StepInv(s, es[0]);
      var s1, rest := Apply(s, es[0]), es[1..];
      if s1.cur == t || t in s1.a {
        LeftB(s1, t);
        assert Ticks(es, 1) == TickOf(es[0]) + Ticks(rest, 0);
        assert Trace(s, es)[1] == Trace(s1, rest)[0] == s1;
        assert LeavesBAfter(s, es, t, 1, RankB(s, t));
      } else {
        RankBExhausted(s1, rest, t);
        var m: nat :| LeavesBAfter(s1, rest, t, m, RankB(s1, t));
        LeavesBOneLater(s, es, t, m, RankB(s1, t));
        assert LeavesBAfter(s, es, t, m + 1, RankB(s, t));
      }
    }
  }

  lemma InB(s: State, t: Tid)
    requires Inv(s) && t in s.b
    ensures t in s.count && -WAITING_TIME <= s.count[t] <= -1
    ensures 1 <= RankB(s, t) <= BoundB(s, t)
  {
    assert Placed(s, t);
    OccFind(s.b, t);
  }

  /** Queue A: the thread at position p runs within 4(p + 1) ticks, whatever else happens. */
  lemma BoundedWaitInA(s: State, es: seq<Event>, t: Tid)
    requires Inv(s) && Legal(s, es) && t in s.a && Ticks(es, |es|) >= BoundA(s, t)
    ensures exists m: nat :: RunsAfter(s, es, t, m, BoundA(s, t))
  {
    RankAExhausted(s, es, t);
    var m: nat :| RunsAfter(s, es, t, m, RankA(s, t));
    assert RunsAfter(s, es, t, m, BoundA(s, t));
  }

  /** If `t` is in queue A after `m` events and the run goes on long enough, `t` runs within the bound. */
  ghost predicate PromotedThenRuns(s: State, es: seq<Event>, t: Tid, m: nat)
    requires Inv(s) && Legal(s, es)
  {
    m <= |es| &&
    (RunFrom(s, es, m);
     var s1, rest := Trace(s, es)[m], es[m..];
     t in s1.a && Ticks(rest, |rest|) >= BoundA(s1, t) ==>
       exists n: nat :: RunsAfter(s1, rest, t, n, BoundA(s1, t)))
  }

  /**
   Queue B: the thread at position p is dispatched or promoted within 24 + 8(p + 1) ticks;
   once promoted to position q of queue A it runs within 4(q + 1) further ticks.
   */
  lemma NoStarvation(s: State, es: seq<Event>, t: Tid)
    requires Inv(s) && Legal(s, es) && t in s.b && Ticks(es, |es|) >= BoundB(s, t)
    ensures exists m: nat :: LeavesBAfter(s, es, t, m, BoundB(s, t)) && PromotedThenRuns(s, es, t, m)
  {
    InB(s, t);
    RankBExhausted(s, es, t);
    var m: nat :| LeavesBAfter(s, es, t, m, RankB(s, t));
    assert LeavesBAfter(s, es, t, m, BoundB(s, t));
    RunFrom(s, es, m);
    var s1, rest := Trace(s, es)[m], es[m..];
    if t in s1.a && Ticks(rest, |rest|) >= BoundA(s1, t) {
      BoundedWaitInA(s1, rest, t);
    }
    assert PromotedThenRuns(s, es, t, m);
  }
}
