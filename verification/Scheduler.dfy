/**
 The two-level feedback scheduler in the form of Pintos/Scheduler_changes/thread.c: thread
 structures and queues updated in place.  Every operation is proved to compute the function
 of SchedulerSpec with the same meaning.
 */
module Scheduler {
  import opened Queues
  import opened SchedulerSpec
  import opened SchedulerInvariant
  import opened SchedulerSwitch

  /** count is one signed byte; the verifier checks that no update of it wraps. */
  newtype int8 = x: int | -128 <= x < 128

  /** The part of `struct thread` the scheduler owns. */
  class Thread {
    const tid: Tid
    var status: Status
    var count: int8

    /** init_thread(): a blocked thread with everything else zero. */
    constructor (tid: Tid)
      ensures this.tid == tid && status == Blocked && count == 0
    {
      this.tid := tid;
      status := Blocked;
      count := 0;
    }
  }

  class Kernel {
    var allList: map<Tid, Thread>
    var readyList: seq<Tid>
    var readyListLow: seq<Tid>
    var current: Tid
    const idleThread: Tid
    var threadTicks: nat
    var nextTid: Tid

    /** Thread structures are distinct objects that know their own tid. */
    ghost predicate Valid()
      reads this`allList, this`nextTid
    {
      forall t | t in allList :: allList[t].tid == t && t < nextTid
    }

    /** The scheduler's state as a value. */
    ghost function View(): State
      reads this`allList, this`readyList, this`readyListLow, this`current, this`threadTicks, allList.Values
    {
      State(map t | t in allList :: allList[t].count as int,
            map t | t in allList :: allList[t].status,
            readyList, readyListLow, current, idleThread, threadTicks)
    }

    /** Just after start-up: the initial thread runs, idle has blocked. */
    constructor ()
      ensures Valid() && View() == Init(1, 2) && Inv(View())
      ensures fresh(allList.Values)
    {
      var main := new Thread(1);
      var idle := new Thread(2);
      main.status := Running;
      allList := map[2 := idle, 1 := main];
      readyList, readyListLow := [], [];
      current, idleThread := 1, 2;
      threadTicks, nextTid := 0, 3;
      new;
      InitInv(1, 2);
    }

    // ----- single updates -----

    /** t->count = c */
    method SetCount(tid: Tid, c: int8)
      requires Valid() && tid in allList
      modifies allList.Values`count
      ensures View() == old(View()).(count := old(View()).count[tid := c as int])
    {
      var t := allList[tid];
      t.count := c;
      assert forall i | i in allList :: allList[i] == t ==> i == tid;
      assert View().count == old(View()).count[tid := c as int];
    }

    /** t->status = st */
    method SetStatus(tid: Tid, st: Status)
      requires Valid() && tid in allList
      modifies allList.Values`status
      ensures View() == old(View()).(status := old(View()).status[tid := st])
    {
      var t := allList[tid];
      t.status := st;
      assert forall i | i in allList :: allList[i] == t ==> i == tid;
      assert View().status == old(View()).status[tid := st];
    }

    /** list_push_back (&ready_list, ...) */
    method PushBack(tid: Tid)
      modifies this`readyList
      ensures View() == old(View()).(a := old(View()).a + [tid])
    {
      readyList := readyList + [tid];
    }

    /** list_push_back (&ready_list_low, ...) */
    method PushBackLow(tid: Tid)
      modifies this`readyListLow
      ensures View() == old(View()).(b := old(View()).b + [tid])
    {
      readyListLow := readyListLow + [tid];
    }

    /** list_pop_front (&ready_list) */
    method PopFront() returns (tid: Tid)
      requires readyList != []
      modifies this`readyList
      ensures tid == old(View()).a[0] && View() == old(View()).(a := old(View()).a[1..])
    {
      tid := readyList[0];
      readyList := readyList[1..];
    }

    /** list_pop_front (&ready_list_low) */
    method PopFrontLow() returns (tid: Tid)
      requires readyListLow != []
      modifies this`readyListLow
      ensures tid == old(View()).b[0] && View() == old(View()).(b := old(View()).b[1..])
    {
      tid := readyListLow[0];
      readyListLow := readyListLow[1..];
    }

    /** list_remove() of the element at place `e` of ready_list_low */
    method RemoveLow(e: nat)
      requires e < |readyListLow|
      modifies this`readyListLow
      ensures View() == old(View()).(b := old(View()).b[..e] + old(View()).b[e + 1..])
    {
      readyListLow := readyListLow[..e] + readyListLow[e + 1..];
    }

    method SetCurrent(tid: Tid)
      modifies this`current
      ensures View() == old(View()).(cur := tid)
    {
      current := tid;
    }

    method SetTicks(n: nat)
      modifies this`threadTicks
      ensures View() == old(View()).(ticks := n)
    {
      threadTicks := n;
    }

    // ----- the operations -----

    /** thread_unblock() */
    method ThreadUnblock(tid: Tid)
      requires Valid() && tid in allList && allList[tid].status == Blocked
      modifies this`readyList, this`readyListLow, allList.Values`status
      ensures tid in old(View()).count && View() == Enqueue(old(View()), tid)
    {
      if allList[tid].count < 0 {
        PushBackLow(tid);
      } else {
        PushBack(tid);
      }
      SetStatus(tid, Ready);
    }

    /** next_thread_to_run() */
    method NextThreadToRun() returns (next: Tid)
      requires Valid() && QueuesKnown(View())
      modifies this`readyList, this`readyListLow
      ensures next == Next(old(View())) && View() == Popped(old(View()))
    {
      if readyList == [] {
        if readyListLow == [] {
          next := idleThread;
        } else {
          next := PopFrontLow();
        }
      } else {
        next := PopFront();
      }
    }

    /** thread_schedule_tail(): the new thread runs on a new slice. */
    method ThreadScheduleTail()
      requires Valid() && current in allList
      modifies this`threadTicks, allList.Values`status
      ensures View() == old(View()).(status := old(View()).status[current := Running], ticks := 0)
    {
      SetStatus(current, Running);
      SetTicks(0);
    }

    /** schedule() */
    method Schedule()
      requires Valid() && QueuesKnown(View())
      modifies this`readyList, this`readyListLow, this`current, this`threadTicks, allList.Values
      ensures View() == Dispatch(old(View()))
    {
      var next := NextThreadToRun();
      if allList[next].count < 0 {
        SetCount(next, -1);
      }
      SetCurrent(next);
      ThreadScheduleTail();
    }

    /** thread_block() */
    method ThreadBlock()
      requires Valid() && Inv(View())
      modifies this, allList.Values
      ensures Valid() && View() == Apply(old(View()), Block) && Inv(View())
    {
      LeavingInv(View(), Block);
      StepInv(View(), Block);
      SetStatus(current, Blocked);
      Schedule();
    }

    /** thread_yield(), called by a thread or at the end of a timer interrupt. */
    method ThreadYield()
      requires Valid() && Steady(View())
      modifies this`readyList, this`readyListLow, this`current, this`threadTicks, allList.Values
      ensures BetweenThreads(Leaving(old(View()), Yield)) && View() == Dispatch(Leaving(old(View()), Yield))
      ensures WentBehind(old(View()), View())
    {
      YieldedBehind(View());
      if current != idleThread {
        if allList[current].count >= 0 {
          PushBack(current);
        } else {
          PushBackLow(current);
        }
      }
      SetStatus(current, Ready);
      Schedule();
    }

    /** thread_exit(): the structure is dropped; the thread is in no queue. */
    method ThreadExit()
      requires Valid() && Inv(View()) && current != idleThread
      modifies this, allList.Values
      ensures Valid() && View() == Apply(old(View()), Exit) && Inv(View())
    {
      ghost var s := View();
      LeavingInv(s, Exit);
      StepInv(s, Exit);
      RemoveFromAllList();
      Schedule();
    }

    /** The part of thread_exit() before the call of schedule(). */
    method RemoveFromAllList()
      requires Valid() && current in allList
      modifies this`allList, allList.Values`status
      ensures Valid() && allList == old(allList) - {current}
      ensures View() == old(View()).(count := old(View()).count - {current}, status := old(View()).status - {current})
    {
      ghost var s := View();
      var t := allList[current];
      allList := allList - {current};
      t.status := Dying;
      assert forall i | i in allList :: allList[i] != t;
      assert View().count == s.count - {current} && View().status == s.status - {current};
    }

    /** thread_create(): a fresh tid, count 0, blocked and then unblocked at once. */
    method ThreadCreate() returns (tid: Tid)
      requires Valid() && Inv(View()) && current != idleThread
      modifies this, allList.Values
      ensures Valid() && tid == old(nextTid) && tid !in old(View()).count
      ensures View() == Apply(old(View()), Create(tid)) && Inv(View())
    {
      ghost var s := View();
      StepInv(s, Create(nextTid));
      tid := AllocateThread();
      assert View() == s.(count := s.count[tid := 0], status := s.status[tid := Blocked]);
      ThreadUnblock(tid);
      assert View() == Apply(s, Create(tid)) by {
        assert s.status[tid := Blocked][tid := Ready] == s.status[tid := Ready];
      }
    }

    /** The part of thread_create() before the new thread is unblocked. */
    method AllocateThread() returns (tid: Tid)
      requires Valid()
      modifies this`allList, this`nextTid
      ensures Valid() && tid == old(nextTid) && tid !in old(allList) && tid in allList
      ensures fresh(allList.Values - old(allList.Values)) && allList[tid].status == Blocked
      ensures View() == old(View()).(count := old(View()).count[tid := 0], status := old(View()).status[tid := Blocked])
    {
      ghost var s := View();
      tid := nextTid;
      nextTid := nextTid + 1;
      var t := new Thread(tid);
      allList := allList[tid := t];
      assert View().count == s.count[tid := 0] && View().status == s.status[tid := Blocked];
    }

    /** The body of the aging loop, at place `e` of ready_list_low; returns the place to go on from. */
    method AgeAt(e: nat) returns (next: nat)
      requires Valid() && e < |readyListLow| && readyListLow[e] in allList
      requires -WAITING_TIME <= View().count[readyListLow[e]]
      modifies this`readyList, this`readyListLow, allList.Values`count
      ensures View() == AgeOne(old(View()), e)
      ensures next == if Due(old(View()).count[old(readyListLow)[e]]) then e else e + 1
    {
      ghost var r := View();
      var tid := readyListLow[e];
      SetCount(tid, allList[tid].count - 1);
      if allList[tid].count as int < -WAITING_TIME {
        SetCount(tid, 0);
        assert View().count == r.count[tid := 0];
        RemoveLow(e);
        PushBack(tid);
        next := e;
      } else {
        next := e + 1;
      }
    }

    /** The aging loop of thread_tick(): it walks queue B and removes as it goes. */
    method AgeReadyListLow()
      requires Valid() && QueuesKnown(View()) && NoDup(readyListLow)
      requires forall i | 0 <= i < |readyListLow| :: -WAITING_TIME <= View().count[readyListLow[i]]
      modifies this`readyList, this`readyListLow, allList.Values`count
      ensures View() == Age(old(View()))
    {
      ghost var s, k := View(), 0;
      var e := 0;
      AgedStart(s);
      while e < |readyListLow|
        invariant 0 <= k <= |s.b| && View() == AgedTo(s, k) && e == |Waiting(s.b[..k], s.count)|
        decreases |s.b| - k
      {
        AgedStep(s, k);
        e := AgeAt(e);
        k := k + 1;
      }
      AgedEnd(s, k);
    }

    /** thread_tick(): age queue B, charge the running thread; the result is intr_yield_on_return(). */
    method ThreadTick() returns (yieldOnReturn: bool)
      requires Valid() && Inv(View())
      modifies this`readyList, this`readyListLow, this`threadTicks, allList.Values`count
      ensures Known(old(View())) && View() == TickState(old(View()))
      ensures yieldOnReturn == TickYields(old(View()))
      ensures yieldOnReturn <==> TurnOver(old(View()))
    {
      TurnOverYields(View());
      AgeSteady(View());
      AgeBounds(View());
      if allList[current].count >= 0 {
        AgeReadyListLow();
      }
      yieldOnReturn := Charge();
    }

    /** The second half of thread_tick(): slices and preemption. */
    method Charge() returns (yieldOnReturn: bool)
      requires Valid() && Known(View()) && -1 <= View().count[current] <= 1
      modifies this`threadTicks, allList.Values`count
      ensures View() == Charged(old(View())) && yieldOnReturn == TickYields(old(View()))
      ensures yieldOnReturn <==> TurnOver(old(View()))
    {
      SetTicks(threadTicks + 1);
      yieldOnReturn := false;
      if allList[current].count < 0 {
        if readyList == [] {
          if threadTicks >= TIME_SLICE_LOW {
            yieldOnReturn := true;
          }
        } else {
          yieldOnReturn := true;
        }
      } else if threadTicks >= TIME_SLICE {
        if allList[current].count >= 1 {
          SetCount(current, -1);
        } else {
          SetCount(current, allList[current].count + 1);
        }
        yieldOnReturn := true;
      }
    }

    /** The timer interrupt: thread_tick(), and on return the yield it asked for. */
    method TimerInterrupt()
      requires Valid() && Inv(View())
      modifies this, allList.Values
      ensures Valid() && View() == Apply(old(View()), Tick) && Inv(View())
      ensures TurnOver(old(View())) ==> threadTicks == 0
      ensures !TurnOver(old(View())) ==> current == old(current) && threadTicks == old(threadTicks) + 1
    {
      TurnOverYields(View());
      TickApplied(View());
      var yieldOnReturn := ThreadTick();
      if yieldOnReturn {
        ThreadYield();
      }
    }
  }

  /**
   The running thread has had its turn: four ticks in queue A; eight in queue B, or any while
   queue A is not empty.
   */
  ghost predicate TurnOver(s: State)
    requires Known(s)
  {
    if s.count[s.cur] >= 0 then s.ticks + 1 >= 4 else s.a != [] || s.ticks + 1 >= 8
  }

  lemma TurnOverYields(s: State)
    requires Known(s)
    ensures TurnOver(s) <==> TickYields(s)
  {
  }

  /** The running thread went behind the queue of its count, idle nowhere, and the front runs. */
  ghost predicate WentBehind(s: State, r: State) {
    var t := s.cur;
    && t in s.count && t in r.status && r.status[t] == (if r.cur == t then Running else Ready) && Fresh(r)
    && FrontRuns(if t != s.idle && s.count[t] >= 0 then s.a + [t] else s.a,
                 if t != s.idle && s.count[t] < 0 then s.b + [t] else s.b, r)
  }

  lemma YieldedBehind(s: State)
    requires Steady(s)
    ensures BetweenThreads(Leaving(s, Yield)) && WentBehind(s, Dispatch(Leaving(s, Yield)))
  {
    LeavingInv(s, Yield);
    SwitchFront(s, Yield);
    SwitchStatus(s, Yield, s.cur);
  }

  lemma TickApplied(s: State)
    requires Inv(s)
    ensures Steady(TickState(s)) && Inv(Apply(s, Tick))
    ensures TickYields(s) ==> BetweenThreads(Leaving(TickState(s), Yield))
    ensures TickYields(s) ==> Apply(s, Tick) == Dispatch(Leaving(TickState(s), Yield))
    ensures !TickYields(s) ==> Apply(s, Tick) == TickState(s)
  {
    StepInv(s, Tick);
    TickSteady(s);
    if TickYields(s) {
      LeavingInv(TickState(s), Yield);
    }
  }

  /** The aging loop after `k` threads of queue B. */
  ghost function AgedTo(s: State, k: nat): State
    requires QueuesKnown(s) && k <= |s.b|
  {
    s.(a := s.a + Promoted(s.b[..k], s.count),
       b := Waiting(s.b[..k], s.count) + s.b[k..],
       count := map t | t in s.count :: if t in s.b[..k] then Aged(s.count[t]) else s.count[t])
  }

  lemma AgedStart(s: State)
    requires QueuesKnown(s)
    ensures AgedTo(s, 0) == s
  {
    assert s.b[..0] == [] && s.b[0..] == s.b;
    assert AgedTo(s, 0).count == s.count;
  }

  lemma AgedEnd(s: State, k: nat)
    requires QueuesKnown(s) && k <= |s.b| && |Waiting(s.b[..k], s.count)| >= |AgedTo(s, k).b|
    ensures AgedTo(s, k) == Age(s)
  {
    assert s.b[..k] == s.b;
  }

  lemma AgedOneMore(q: seq<Tid>, count: map<Tid, int>, k: nat)
    requires Keyed(q, count) && k < |q|
    ensures Promoted(q[..k + 1], count) == Promoted(q[..k], count) + if Due(count[q[k]]) then [q[k]] else []
    ensures Waiting(q[..k + 1], count) == Waiting(q[..k], count) + if Due(count[q[k]]) then [] else [q[k]]
  {
    assert q[..k + 1][..k] == q[..k];
  }

  lemma AgeBounds(s: State)
    requires Inv(s)
    ensures NoDup(s.b) && forall i | 0 <= i < |s.b| :: -WAITING_TIME <= s.count[s.b[i]]
    ensures -1 <= s.count[s.cur] <= 1
  {
    Distinct(s);
    assert Placed(s, s.cur);
    forall i | 0 <= i < |s.b| ensures -WAITING_TIME <= s.count[s.b[i]] {
      assert Placed(s, s.b[i]);
    }
  }

  /** Aging the thread at place `e` of the walk: taken out when due, passed over otherwise. */
  ghost function AgeOne(r: State, e: nat): State
    requires e < |r.b| && r.b[e] in r.count
  {
    var t := r.b[e];
    if Due(r.count[t]) then r.(a := r.a + [t], b := r.b[..e] + r.b[e + 1..], count := r.count[t := 0])
    else r.(count := r.count[t := r.count[t] - 1])
  }

  lemma AgedStep(s: State, k: nat)
    requires QueuesKnown(s) && NoDup(s.b) && k < |s.b|
    ensures var r, e, t := AgedTo(s, k), |Waiting(s.b[..k], s.count)|, s.b[k];
            && e < |r.b| && r.b[e] == t && t in r.count && r.count[t] == s.count[t]
            && AgedTo(s, k + 1) == AgeOne(r, e)
            && |Waiting(s.b[..k + 1], s.count)| == if Due(s.count[t]) then e else e + 1
  {
    var t, r, w := s.b[k], AgedTo(s, k), Waiting(s.b[..k], s.count);
    AgedOneMore(s.b, s.count, k);
    assert s.b[k..] == [t] + s.b[k + 1..];
    AtCut(w, t, s.b[k + 1..]);
    AgedCounts(s, k);
    assert AgedTo(s, k + 1).a == AgeOne(r, |w|).a;
    assert AgedTo(s, k + 1).b == AgeOne(r, |w|).b;
  }

  /** The element after `w`: kept or removed. */
  lemma AtCut(w: seq<Tid>, t: Tid, rest: seq<Tid>)
    ensures var q := w + ([t] + rest);
            q[|w|] == t && q[..|w|] + q[|w| + 1..] == w + rest && q == (w + [t]) + rest
  {
  }

  lemma AgedCounts(s: State, k: nat)
    requires QueuesKnown(s) && NoDup(s.b) && k < |s.b|
    ensures AgedTo(s, k).count[s.b[k]] == s.count[s.b[k]]
    ensures AgedTo(s, k + 1).count == AgedTo(s, k).count[s.b[k] := Aged(s.count[s.b[k]])]
  {
    assert s.b[..k + 1] == s.b[..k] + [s.b[k]];
    assert s.b[k] !in s.b[..k];
  }
}
