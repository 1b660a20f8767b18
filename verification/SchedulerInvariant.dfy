/**
 Every step of the scheduler keeps its invariant: the partition of the live threads, the
 range of count, the order of queue B, the length of the running slice.
 */
module SchedulerInvariant {
  import opened Queues
  import opened SchedulerSpec

  // ----- aging -----

  /** The aging split loses and invents nobody. */
  lemma {:induction false} AgedMembers(q: seq<Tid>, count: map<Tid, int>, t: Tid)
    requires Keyed(q, count)
    ensures Occ(Promoted(q, count), t) == if t in count && Due(count[t]) then Occ(q, t) else 0
    ensures Occ(Waiting(q, count), t) == if t in count && Due(count[t]) then 0 else Occ(q, t)
  {
    if q != [] {
      var front, x := q[..|q| - 1], q[|q| - 1];
      AgedMembers(front, count, t);
      if Due(count[x]) {
        OccPush(Promoted(front, count), x, t);
        assert Waiting(q, count) == Waiting(front, count);
      } else {
        OccPush(Waiting(front, count), x, t);
        assert Promoted(q, count) == Promoted(front, count);
      }
    }
  }

  lemma {:induction false} AllDue(q: seq<Tid>, count: map<Tid, int>)
    requires Keyed(q, count) && forall i | 0 <= i < |q| :: Due(count[q[i]])
    ensures Promoted(q, count) == q && Waiting(q, count) == []
  {
    if q != [] {
      AllDue(q[..|q| - 1], count);
    }
  }

  /** A queue of due threads followed by threads that are not: aging cuts it there. */
  lemma {:induction false} AgingCuts(p: seq<Tid>, q: seq<Tid>, count: map<Tid, int>)
    requires Keyed(p, count) && Keyed(q, count) && Keyed(p + q, count)
    requires forall i | 0 <= i < |p| :: Due(count[p[i]])
    requires forall i | 0 <= i < |q| :: !Due(count[q[i]])
    ensures Promoted(p + q, count) == p && Waiting(p + q, count) == q
  {
    if q == [] {
      assert p + q == p;
      AllDue(p, count);
    } else {
      var front := q[..|q| - 1];
      assert (p + q)[..|p + q| - 1] == p + front;
      AgingCuts(p, front, count);
    }
  }

  /** How many threads at the front of `q` the next tick of aging promotes. */
  ghost function DueFront(q: seq<Tid>, count: map<Tid, int>): (k: nat)
    requires Keyed(q, count)
    ensures k <= |q| && (forall i | 0 <= i < k :: Due(count[q[i]])) && (k < |q| ==> !Due(count[q[k]]))
  {
    if q == [] || !Due(count[q[0]]) then 0 else 1 + DueFront(q[1..], count)
  }

  lemma DueIsPrefix(q: seq<Tid>, count: map<Tid, int>, k: nat)
    requires Keyed(q, count) && Ascending(q, count) && k == DueFront(q, count)
    ensures Promoted(q, count) == q[..k] && Waiting(q, count) == q[k..]
    ensures forall i | 0 <= i < |q| :: Due(count[q[i]]) <==> i < k
  {
    forall i | 0 <= i < |q| ensures Due(count[q[i]]) <==> i < k {
      assert k < i ==> count[q[k]] <= count[q[i]];
    }
    assert q == q[..k] + q[k..];
    AgingCuts(q[..k], q[k..], count);
  }

  /** On a queue sorted by waiting time, aging promotes a prefix and ages the rest. */
  lemma AgeSplits(s: State, k: nat)
    requires QueuesKnown(s) && Ascending(s.b, s.count) && k == DueFront(s.b, s.count)
    ensures Age(s).a == s.a + s.b[..k] && Age(s).b == s.b[k..]
    ensures forall i | 0 <= i < k :: Due(s.count[s.b[i]]) && Age(s).count[s.b[i]] == 0
    ensures forall i | k <= i < |s.b| ::
              !Due(s.count[s.b[i]]) && Age(s).count[s.b[i]] == s.count[s.b[i]] - 1
    ensures forall t | t in s.count && t !in s.b :: Age(s).count[t] == s.count[t]
  {
    DueIsPrefix(s.b, s.count, k);
    forall i | 0 <= i < |s.b| ensures Age(s).count[s.b[i]] == Aged(s.count[s.b[i]]) {
      assert s.b[i] in s.b;
    }
  }

  // ----- the order of queue B -----

  lemma AscendingPop(q: seq<Tid>, count: map<Tid, int>)
    requires q != [] && Keyed(q, count) && Ascending(q, count)
    ensures Keyed(q[1..], count) && Ascending(q[1..], count)
  {
  }

  lemma AscendingFrame(q: seq<Tid>, count: map<Tid, int>, count': map<Tid, int>)
    requires Keyed(q, count) && Ascending(q, count)
    requires forall i | 0 <= i < |q| :: q[i] in count' && count'[q[i]] == count[q[i]]
    ensures Keyed(q, count') && Ascending(q, count')
  {
  }

  lemma AscendingPush(q: seq<Tid>, x: Tid, count: map<Tid, int>)
    requires Keyed(q, count) && Ascending(q, count)
    requires x in count && forall i | 0 <= i < |q| :: count[q[i]] <= count[x]
    ensures Keyed(q + [x], count) && Ascending(q + [x], count)
  {
  }

  // ----- dispatching -----

  lemma PartitionKnown(s: State)
    requires Partition(s)
    ensures QueuesKnown(s)
  {
    forall i | 0 <= i < |s.a| ensures s.a[i] in s.count {
      OccAt(s.a, i);
      assert Placed(s, s.a[i]);
    }
    forall i | 0 <= i < |s.b| ensures s.b[i] in s.count {
      OccAt(s.b, i);
      assert Placed(s, s.b[i]);
    }
  }

  lemma DispatchPlaced(s: State, t: Tid)
    requires Partition(s) && QueuesKnown(s)
    ensures Placed(Dispatch(s), t)
  {
    assert Placed(s, t);
    if s.a != [] {
      OccPop(s.a, t);
      OccAt(s.a, 0);
      assert Placed(s, s.a[0]);
    } else if s.b != [] {
      OccPop(s.b, t);
      OccAt(s.b, 0);
      assert Placed(s, s.b[0]);
    }
  }

  lemma DispatchOrder(s: State)
    requires Partition(s) && QueuesKnown(s) && Ascending(s.b, s.count)
    ensures QueuesKnown(Dispatch(s)) && Ascending(Dispatch(s).b, Dispatch(s).count)
  {
    var r := Dispatch(s);
    forall i | 0 <= i < |r.b| ensures r.b[i] != r.cur {
      OccAt(r.b, i);
      DispatchPlaced(s, r.b[i]);
    }
    if s.a == [] && s.b != [] {
      AscendingPop(s.b, s.count);
    }
    AscendingFrame(r.b, s.count, r.count);
  }

  lemma DispatchInv(s: State)
    requires BetweenThreads(s)
    ensures Inv(Dispatch(s))
  {
    forall t ensures Placed(Dispatch(s), t) {
      DispatchPlaced(s, t);
    }
    DispatchOrder(s);
    PartitionKnown(Dispatch(s));
  }

  // ----- ticking -----

  lemma Distinct(s: State)
    requires Partition(s)
    ensures NoDup(s.a) && NoDup(s.b) && forall t | t in s.a :: t !in s.b
  {
    forall t ensures Occ(s.a, t) <= 1 && Occ(s.b, t) <= 1 && (t in s.a ==> t !in s.b) {
      assert Placed(s, t);
      OccFind(s.a, t);
      OccFind(s.b, t);
    }
    OccDistinct(s.a);
    OccDistinct(s.b);
  }

  lemma AgePlaced(s: State, t: Tid)
    requires Partition(s) && QueuesKnown(s)
    ensures Placed(Age(s), t)
  {
    assert Placed(s, t);
    AgedMembers(s.b, s.count, t);
    OccAppend(s.a, Promoted(s.b, s.count), t);
    OccFind(s.b, t);
  }

  lemma AgeAscending(s: State, k: nat)
    requires QueuesKnown(s) && Ascending(s.b, s.count) && k == DueFront(s.b, s.count)
    requires QueuesKnown(Age(s))
    ensures Ascending(Age(s).b, Age(s).count)
  {
    AgeSplits(s, k);
    var r := Age(s);
    forall i | 0 <= i < |r.b| ensures r.count[r.b[i]] == s.count[s.b[k + i]] - 1 {
      assert r.b[i] == s.b[k + i];
    }
  }

  lemma CurUnqueued(s: State)
    requires Steady(s)
    ensures s.cur !in s.a && s.cur !in s.b
  {
    assert Placed(s, s.cur);
    OccFind(s.a, s.cur);
    OccFind(s.b, s.cur);
  }

  lemma AgeSteady(s: State)
    requires Steady(s)
    ensures Steady(Age(s)) && Age(s).count[s.cur] == s.count[s.cur]
  {
    forall t ensures Placed(Age(s), t) {
      AgePlaced(s, t);
    }
    PartitionKnown(Age(s));
    AgeAscending(s, DueFront(s.b, s.count));
    CurUnqueued(s);
  }

  /** A tick may end the running thread's slice, and changes nothing else about it but its count. */
  lemma TickSteady(s: State)
    requires Inv(s)
    ensures Steady(TickState(s)) && TickState(s).cur == s.cur
    ensures !TickYields(s) ==> Inv(TickState(s)) && TickState(s).count[s.cur] == s.count[s.cur]
  {
    AgeSteady(s);
    var r, x := if s.count[s.cur] >= 0 then Age(s) else s, TickState(s);
    CurUnqueued(r);
    forall t ensures Placed(x, t) {
      assert Placed(r, t);
    }
    AscendingFrame(r.b, r.count, x.count);
    PartitionKnown(x);
  }

  // ----- queueing and leaving -----

  lemma EnqueuePlaced(s: State, x: Tid, t: Tid)
    requires Placed(s, t) && Placed(s, x) && x in s.count && x != s.idle && !Queued(s, x)
    requires s.count.Keys == s.status.Keys
    ensures Placed(Enqueue(s, x), t)
  {
    if s.count[x] < 0 {
      OccPush(s.b, x, t);
    } else {
      OccPush(s.a, x, t);
    }
  }

  lemma EnqueueOrder(s: State, x: Tid)
    requires Partition(s) && QueuesKnown(s) && Ascending(s.b, s.count)
    requires x in s.count && -1 <= s.count[x] < 0
    ensures Keyed(s.b + [x], s.count) && Ascending(s.b + [x], s.count)
  {
    forall i | 0 <= i < |s.b| ensures s.count[s.b[i]] <= s.count[x] {
      OccAt(s.b, i);
      assert Placed(s, s.b[i]);
    }
    AscendingPush(s.b, x, s.count);
  }

  /** Putting a thread that is in no queue at the back of the one its count names. */
  lemma EnqueueInv(s: State, x: Tid)
    requires Partition(s) && QueuesKnown(s) && Ascending(s.b, s.count)
    requires x in s.count && x != s.idle && !Queued(s, x)
    ensures var r := Enqueue(s, x); Partition(r) && QueuesKnown(r) && Ascending(r.b, r.count)
  {
    var r := Enqueue(s, x);
    assert Placed(s, x);
    forall t ensures Placed(r, t) {
      assert Placed(s, t);
      EnqueuePlaced(s, x, t);
    }
    if s.count[x] < 0 {
      EnqueueOrder(s, x);
    }
    PartitionKnown(r);
  }

  /** A thread that gives up the processor is in the queue its count names, or in none. */
  lemma LeavingInv(s: State, e: Event)
    requires Steady(s) && (e == Block || e == Yield || (e == Exit && s.cur != s.idle))
    ensures BetweenThreads(Leaving(s, e))
  {
    var r := Leaving(s, e);
    CurUnqueued(s);
    if e == Yield && s.cur != s.idle {
      EnqueueInv(s, s.cur);
    } else {
      forall t ensures Placed(r, t) {
        assert Placed(s, t);
      }
      PartitionKnown(r);
      AscendingFrame(s.b, s.count, r.count);
    }
  }

  lemma CreatePlaced(s: State, t: Tid, x: Tid)
    requires Partition(s) && t !in s.count
    ensures Placed(Enqueue(s.(count := s.count[t := 0]), t), x)
  {
    assert Placed(s, x) && Placed(s, t);
    OccPush(s.a, t, x);
  }

  lemma CreateInv(s: State, t: Tid)
    requires Inv(s) && t !in s.count
    ensures Inv(Enqueue(s.(count := s.count[t := 0]), t))
  {
    var r := Enqueue(s.(count := s.count[t := 0]), t);
    forall x ensures Placed(r, x) {
      CreatePlaced(s, t, x);
    }
    PartitionKnown(r);
    AscendingFrame(s.b, s.count, r.count);
  }

  // ----- steps -----

  /** idle only ever blocks; a thread is unblocked only while it is blocked. */
  ghost predicate Enabled(s: State, e: Event) {
    match e
    case Create(t) => t !in s.count && s.cur != s.idle
    case Unblock(t) => t in s.status && s.status[t] == Blocked && t != s.idle
    case Block => true
    case Yield => s.cur != s.idle
    case Exit => s.cur != s.idle
    case Tick => true
  }

  /** One event; a timer interrupt is thread_tick() and the yield it may have asked for. */
  ghost function Apply(s: State, e: Event): State
    requires Inv(s) && Enabled(s, e)
  {
    match e
    case Create(t) => Enqueue(s.(count := s.count[t := 0]), t)
    case Unblock(t) => Enqueue(s, t)
    case Tick =>
      TickSteady(s);
      var x := TickState(s);
      if TickYields(s) then (LeavingInv(x, Yield); Dispatch(Leaving(x, Yield))) else x
    case _ =>
      LeavingInv(s, e);
      Dispatch(Leaving(s, e))
  }

  /** One step, any step, keeps the invariant. */
  lemma StepInv(s: State, e: Event)
    requires Inv(s) && Enabled(s, e)
    ensures Inv(Apply(s, e))
  {
    match e
    case Create(t) => CreateInv(s, t);
    case Unblock(t) => EnqueueInv(s, t);
    case Tick =>
      TickSteady(s);
      if TickYields(s) {
        LeavingInv(TickState(s), Yield);
        DispatchInv(Leaving(TickState(s), Yield));
      }
    case _ =>
      LeavingInv(s, e);
      DispatchInv(Leaving(s, e));
  }

  /** Shortly after start-up: main runs, idle is blocked. */
  ghost function Init(main: Tid, idle: Tid): State {
    State(map[idle := 0, main := 0], map[idle := Blocked, main := Running], [], [], main, idle, 0)
  }

  lemma InitInv(main: Tid, idle: Tid)
    requires main != idle
    ensures Inv(Init(main, idle))
  {
    forall t ensures Placed(Init(main, idle), t) {
    }
  }
}
