/**
 Who runs before whom: queue A before queue B, each queue first come first served; and what
 the number in count means over a run.
 */
module SchedulerOrder {
  import opened Queues
  import opened SchedulerSpec
  import opened SchedulerInvariant
  import opened SchedulerRuns
  import opened SchedulerBounds

  // ----- priority -----

  /** After every timer interrupt, a thread of queue B runs only if queue A is empty. */
  lemma TickGivesPriority(s: State)
    requires Inv(s)
    ensures var r := Apply(s, Tick); r.cur in r.count && (r.count[r.cur] < 0 ==> r.a == [])
  {
    TickSteady(s);
    if TickYields(s) {
      var x := Leaving(TickState(s), Yield);
      LeavingInv(TickState(s), Yield);
      DispatchInv(x);
      if x.a != [] {
        OccAt(x.a, 0);
        assert Placed(x, x.a[0]);
      }
    }
  }

  // ----- first come, first served -----

  /** Only a front of `q` has left; the others come first in `q'`, in their old order. */
  ghost predicate FrontLeft(q: seq<Tid>, q': seq<Tid>) {
    exists k :: 0 <= k <= |q| && q[k..] <= q' && forall i | 0 <= i < k :: q[i] !in q'
  }

  lemma FrontLeaves(q: seq<Tid>, k: nat, extra: seq<Tid>, d: nat)
    requires NoDup(q) && k <= |q| && d <= 1 && d <= |q| - k + |extra|
    requires forall t | t in extra :: t !in q
    ensures FrontLeft(q, (q[k..] + extra)[d..])
  {
    var q' := (q[k..] + extra)[d..];
    var n := if d == 1 && k < |q| then k + 1 else k;
    assert q[n..] <= q' by {
      if n == |q| {
        assert q[n..] == [];
      } else {
        assert q' == q[n..] + extra;
      }
    }
    forall i, j | 0 <= i < n && 0 <= j < |q'| ensures q[i] != q'[j] {
      if d + j < |q| - k {
        assert q'[j] == q[k + d + j];
      } else {
        assert q'[j] == extra[d + j - (|q| - k)] && q'[j] in extra && q[i] in q;
      }
    }
  }

  /** What the running thread's departure does to the queues. */
  lemma LeavingQueues(s: State, e: Event) returns (toA: seq<Tid>, fromA: nat, toB: seq<Tid>, fromB: nat)
    requires Steady(s) && (e == Block || e == Yield || (e == Exit && s.cur != s.idle))
    ensures BetweenThreads(Leaving(s, e))
    ensures fromA <= 1 && fromA <= |s.a + toA| && Dispatch(Leaving(s, e)).a == (s.a + toA)[fromA..]
    ensures fromB <= 1 && fromB <= |s.b + toB| && Dispatch(Leaving(s, e)).b == (s.b + toB)[fromB..]
    ensures forall t | t in toA || t in toB :: t == s.cur
  {
    LeavingInv(s, e);
    var x := Leaving(s, e);
    toA := if x.a == s.a then [] else [s.cur];
    toB := if x.b == s.b then [] else [s.cur];
    assert x.a == s.a + toA && x.b == s.b + toB;
    fromA := if x.a != [] then 1 else 0;
    fromB := if x.a == [] && x.b != [] then 1 else 0;
    assert x.a[0..] == x.a && x.b[0..] == x.b;
  }

  /** Both queues are first come, first served: at every event only a front of each leaves. */
  lemma QueuesAreFifo(s: State, e: Event)
    requires Inv(s) && Enabled(s, e)
    ensures FrontLeft(s.a, Apply(s, e).a) && FrontLeft(s.b, Apply(s, e).b)
  {
    Distinct(s);
    CurUnqueued(s);
    assert s.a[0..] == s.a && s.b[0..] == s.b;
    if e == Tick {
      TickIsFifo(s);
    } else if e.Create? || e.Unblock? {
      var t, r := e.t, Apply(s, e);
      assert Placed(s, t);
      OccFind(s.a, t);
      OccFind(s.b, t);
      var toA, toB := if r.a == s.a then [] else [t], if r.b == s.b then [] else [t];
      assert r.a == (s.a[0..] + toA)[0..] && r.b == (s.b[0..] + toB)[0..];
      FrontLeaves(s.a, 0, toA, 0);
      FrontLeaves(s.b, 0, toB, 0);
    } else {
      var toA, fromA, toB, fromB := LeavingQueues(s, e);
      FrontLeaves(s.a, 0, toA, fromA);
      FrontLeaves(s.b, 0, toB, fromB);
    }
  }

  lemma TickStateQueues(s: State) returns (k: nat)
    requires Steady(s)
    ensures k <= |s.b| && TickState(s).a == s.a + s.b[..k] && TickState(s).b == s.b[k..]
  {
    k := DueFront(s.b, s.count);
    AgeSplits(s, k);
    if s.count[s.cur] < 0 {
      k := 0;
    }
  }

  /** The queues after a timer interrupt: fronts gone, newcomers behind. */
  lemma TickQueues(s: State) returns (k: nat, toA: seq<Tid>, fromA: nat, toB: seq<Tid>, fromB: nat)
    requires Inv(s)
    ensures k <= |s.b| && fromA <= 1 && fromA <= |s.a + s.b[..k] + toA| && fromB <= 1 && fromB <= |s.b[k..] + toB|
    ensures Apply(s, Tick).a == (s.a + s.b[..k] + toA)[fromA..]
    ensures Apply(s, Tick).b == (s.b[k..] + toB)[fromB..]
    ensures forall t | t in toA || t in toB :: t == s.cur
  {
    TickSteady(s);
    var x := TickState(s);
    k := TickStateQueues(s);
    if TickYields(s) {
      toA, fromA, toB, fromB := LeavingQueues(x, Yield);
      assert Apply(s, Tick) == Dispatch(Leaving(x, Yield));
    } else {
      toA, fromA, toB, fromB := [], 0, [], 0;
      assert Apply(s, Tick) == x;
      assert (x.a + [])[0..] == x.a && (x.b + [])[0..] == x.b;
    }
  }

  lemma TickIsFifo(s: State)
    requires Inv(s)
    ensures FrontLeft(s.a, Apply(s, Tick).a) && FrontLeft(s.b, Apply(s, Tick).b)
  {
    Distinct(s);
    CurUnqueued(s);
    var k, toA, fromA, toB, fromB := TickQueues(s);
    assert s.a + s.b[..k] + toA == s.a + (s.b[..k] + toA);
    FifoAfterTick(s, s.b[..k], k, toA, fromA, toB, fromB);
  }

  lemma FifoAfterTick(s: State, promoted: seq<Tid>, k: nat, toA: seq<Tid>, fromA: nat, toB: seq<Tid>, fromB: nat)
    requires NoDup(s.a) && NoDup(s.b) && (forall t | t in s.a :: t !in s.b) && s.cur !in s.a && s.cur !in s.b
    requires k <= |s.b| && promoted == s.b[..k] && (forall t | t in toA || t in toB :: t == s.cur)
    requires fromA <= 1 && fromA <= |s.a + (promoted + toA)| && fromB <= 1 && fromB <= |s.b[k..] + toB|
    ensures FrontLeft(s.a, (s.a + (promoted + toA))[fromA..]) && FrontLeft(s.b, (s.b[k..] + toB)[fromB..])
  {
    assert s.a[0..] == s.a;
    forall t | t in promoted + toA ensures t !in s.a {
      assert t in promoted ==> t in s.b;
    }
    FrontLeaves(s.a, 0, promoted + toA, fromA);
    FrontLeaves(s.b, k, toB, fromB);
  }

  /**
   Over a whole run: as long as `x` stays in queue B, a thread `y` behind it stays behind it.
   So no thread leaves queue B before one that entered earlier.
   */
  lemma {:induction false} NoOvertakingInB(s: State, es: seq<Event>, x: Tid, y: Tid, m: nat)
    requires Inv(s) && Legal(s, es) && m <= |es|
    requires x in s.b && y in s.b && Pos(s.b, x) < Pos(s.b, y)
    requires forall j | 0 <= j <= m :: x in Trace(s, es)[j].b
    ensures var b := Trace(s, es)[m].b; y in b && Pos(b, x) < Pos(b, y)
  {
    if m > 0 {
      NoOvertakingInB(s, es, x, y, m - 1);
      TraceStep(s, es, m - 1);
      var r := Trace(s, es)[m - 1];
      QueuesAreFifo(r, es[m - 1]);
      Distinct(r);
      StillBehind(r.b, Trace(s, es)[m].b, x, y);
    }
  }

  lemma MovesUp(q: seq<Tid>, q': seq<Tid>, k: nat, i: nat)
    requires NoDup(q) && k <= i < |q| && q[k..] <= q'
    ensures q[i] in q' && Pos(q', q[i]) == i - k
  {
    var r := q[k..];
    assert r[i - k] == q[i];
    PosUnique(r, i - k);
    PosPrefix(r, q', q[i]);
  }

  lemma StillBehind(q: seq<Tid>, q': seq<Tid>, x: Tid, y: Tid)
    requires FrontLeft(q, q') && NoDup(q)
    requires x in q && y in q && Pos(q, x) < Pos(q, y) && x in q'
    ensures y in q' && Pos(q', x) < Pos(q', y)
  {
    var k :| 0 <= k <= |q| && q[k..] <= q' && forall i | 0 <= i < k :: q[i] !in q';
    MovesUp(q, q', k, Pos(q, x));
    MovesUp(q, q', k, Pos(q, y));
  }
}
