/** No step loses or duplicates a thread: every live thread is in one place, in every run. */
module SchedulerConservation {
  import opened Basics
  import opened Queues
  import opened SchedulerSpec
  import opened SchedulerInvariant
  import opened SchedulerRuns

  /** In how many places is `t`: on the processor, blocked, or so often in a queue? */
  ghost function Places(s: State, t: Tid): nat {
    One(t == s.cur) + One(t in s.status && s.status[t] == Blocked) + Occ(s.a, t) + Occ(s.b, t)
  }

  ghost function Here(s: State, t: Tid): nat {
    if t in s.count then 1 else 0
  }

  /** A live thread other than idle runs, or is blocked, or is ready in the queue that the sign of its count names. */
  lemma OnePlace(s: State, t: Tid)
    requires Inv(s) && t in s.count && t != s.idle
    ensures Places(s, t) == 1 && t in s.status
    ensures match s.status[t]
            case Running => t == s.cur && t !in s.a && t !in s.b
            case Blocked => t != s.cur && t !in s.a && t !in s.b
            case Ready => t != s.cur && (t in s.a <==> s.count[t] >= 0) && (t in s.b <==> s.count[t] < 0)
            case Dying => false
  {
    assert Placed(s, t);
    OccFind(s.a, t);
    OccFind(s.b, t);
  }

  /** In every state of every run count fits its byte with room to spare, and away from queue B it is -1, 0 or 1. */
  lemma CountNeverWraps(s: State, es: seq<Event>, t: Tid, k: nat)
    requires Inv(s) && Legal(s, es) && k <= |es| && t in Trace(s, es)[k].count
    ensures -24 <= Trace(s, es)[k].count[t] <= 1
    ensures t !in Trace(s, es)[k].b ==> -1 <= Trace(s, es)[k].count[t]
  {
    RunInv(s, es, k);
    assert Placed(Trace(s, es)[k], t);
    OccFind(Trace(s, es)[k].b, t);
  }

  /** What is not a live thread is nowhere. */
  lemma NoPlace(s: State, t: Tid)
    requires Inv(s) && t !in s.count
    ensures Places(s, t) == 0
  {
    assert Placed(s, t);
  }

  lemma SwitchKeeps(s: State, e: Event, t: Tid)
    requires Steady(s) && (e == Block || e == Yield || (e == Exit && s.cur != s.idle))
    ensures BetweenThreads(Leaving(s, e))
    ensures var r := Dispatch(Leaving(s, e));
            r.idle == s.idle && (t in r.count <==> t in s.count && !(e == Exit && t == s.cur))
  {
    LeavingInv(s, e);
  }

  /** Only creation adds a thread, and only its own exit removes one. */
  lemma StepConserves(s: State, e: Event, t: Tid)
    requires Inv(s) && Enabled(s, e)
    ensures Apply(s, e).idle == s.idle
    ensures Here(Apply(s, e), t) ==
            Here(s, t) + (if e == Create(t) then 1 else 0) - if e == Exit && t == s.cur then 1 else 0
  {
    match e
    case Create(_) =>
    case Unblock(_) =>
    case Tick =>
      TickSteady(s);
      if TickYields(s) {
        SwitchKeeps(TickState(s), Yield, t);
      }
    case _ =>
      SwitchKeeps(s, e, t);
  }

  /** How often `t` was created, and exited, during the first `k` events. */
  ghost function Creations(es: seq<Event>, t: Tid, k: nat): nat
    requires k <= |es|
  {
    if k == 0 then 0 else Creations(es, t, k - 1) + if es[k - 1] == Create(t) then 1 else 0
  }

  ghost function Exits(s: State, es: seq<Event>, t: Tid, k: nat): nat
    requires Inv(s) && Legal(s, es) && k <= |es|
  {
    if k == 0 then 0
    else Exits(s, es, t, k - 1) + if es[k - 1] == Exit && t == Trace(s, es)[k - 1].cur then 1 else 0
  }

  lemma {:induction false} HereConserved(s: State, es: seq<Event>, t: Tid, k: nat)
    requires Inv(s) && Legal(s, es) && k <= |es|
    ensures Here(Trace(s, es)[k], t) == Here(s, t) + Creations(es, t, k) - Exits(s, es, t, k)
    ensures Trace(s, es)[k].idle == s.idle
  {
    if k > 0 {
      HereConserved(s, es, t, k - 1);
      TraceStep(s, es, k - 1);
      StepConserves(Trace(s, es)[k - 1], es[k - 1], t);
    }
  }

  /** Over a whole run: `t` is in as many places as it has been created and not exited, and that is at most one. */
  lemma ThreadsConserved(s: State, es: seq<Event>, t: Tid, k: nat)
    requires Inv(s) && Legal(s, es) && k <= |es| && t != s.idle
    ensures Places(Trace(s, es)[k], t) == Here(s, t) + Creations(es, t, k) - Exits(s, es, t, k) <= 1
  {
    var r := Trace(s, es)[k];
    RunInv(s, es, k);
    HereConserved(s, es, t, k);
    if t in r.count {
      OnePlace(r, t);
    } else {
      NoPlace(r, t);
    }
  }
}
