/**
 What the ticket server promises over all interleavings: values arrive in order, the gate
 throttles as designed, nobody deadlocks or misses a wake-up, all work gets done, and the
 bookings are as if made one after the other.
 */
module TicketResults {
  import opened Basics
  import opened TicketServer
  import opened TicketInvariant

  // ----- end-to-end order -----

  /** The requests handed to workers, in the order in which the workers were created. */
  ghost function Handed(ws: seq<Worker>): seq<int> {
    seq(|ws|, i requires 0 <= i < |ws| => ws[i].x)
  }

  /** The `n` values in the ring from place `out` on, round the end. */
  ghost function RingFrom(slots: seq<int>, out: nat, n: nat): seq<int>
    requires |slots| == SLOTS
  {
    seq(n, d requires 0 <= d < n => slots[Slot(out + d)])
  }

  lemma RingHolds(s: State, n: nat)
    requires Ring(s) && n == Waiting(s)
    ensures s.produced[|s.workers|..] == RingFrom(s.slots, s.out, n) && s.produced[..|s.workers|] == Handed(s.workers)
  {
    forall d: nat | d < n ensures RingFrom(s.slots, s.out, n)[d] == s.produced[|s.workers|..][d] {
      SlotAfter(|s.workers|, d);
      assert s.slots[Slot(|s.workers| + d)] == s.produced[|s.workers| + d];
    }
  }

  /** Everything produced was handed over or stands in the ring, all in order; B holds the first of the ring. */
  lemma RingConserves(s: State)
    requires Inv(s)
    ensures var n := s.cs + One(s.a == APost) + One(Taken(s.b));
            && s.produced == Handed(s.workers) + RingFrom(s.slots, s.out, n)
            && (s.b.BCreate? ==> n > 0 && s.b.x == RingFrom(s.slots, s.out, n)[0])
  {
    RingHolds(s, Waiting(s));
    assert s.produced == s.produced[..|s.workers|] + s.produced[|s.workers|..];
  }

  /**
   The semaphores and the items in hand make up the ten slots; a write of A leaves every value
   not yet handed over in its place.
   */
  lemma NothingOverwritten(s: State, v: int)
    requires Inv(s)
    ensures s.ps + s.cs + One(s.a != AStart) + One(s.b != BTake) == 10
    ensures s.a == AWrite ==>
              forall j: nat | |s.workers| <= j < |s.produced| :: s.slots[s.inn := v][Slot(j)] == s.produced[j]
  {
    if s.a == AWrite {
      WriteKeeps(s, v);
    }
  }

  lemma WriteKeeps(s: State, v: int)
    requires Ring(s) && Waiting(s) < SLOTS
    ensures forall j: nat | |s.workers| <= j < |s.produced| :: s.slots[s.inn := v][Slot(j)] == s.produced[j]
  {
    forall j: nat | |s.workers| <= j < |s.produced| ensures s.slots[s.inn := v][Slot(j)] == s.produced[j] {
      SlotsDiffer(j, |s.produced|);
    }
  }

  /** In every run from the start, the requests handed out are a prefix of what A produced. */
  lemma EndToEndFifo(slots: seq<int>, es: seq<Event>, k: nat)
    requires |slots| == SLOTS && Legal(Init(slots), es) && k <= |es|
    ensures var r := Trace(Init(slots), es)[k]; Handed(r.workers) <= r.produced
  {
    InitInv(slots);
    RunInv(Init(slots), es, k);
    RingConserves(Trace(Init(slots), es)[k]);
  }

  // ----- the gate -----

  /** How often B has incremented the count. */
  ghost function Admissions(s: State): nat {
    |s.workers| + One(Admitted(s.b))
  }

  /** B has found the count at its limit and has not yet seen it low enough. */
  ghost predicate Throttled(s: State) {
    (s.b == BTest && s.count >= 10) || s.b == BLoop || s.b == BAsleep || s.b == BWoken
  }

  lemma StaysThrottled(s: State, e: Event)
    requires Inv(s) && Enabled(s, e) && Throttled(s) && s.count > RESUME
    ensures Throttled(Apply(s, e)) && Admissions(Apply(s, e)) == Admissions(s)
  {
    if e.StepW? {
      assert Excluded(s, e.i);
    }
  }

  /** In one of the first `m` states of the run at most five requests are in progress. */
  ghost predicate FellLow(s: State, es: seq<Event>, m: nat)
    requires Legal(s, es) && m <= |es|
  {
    exists k :: 0 <= k < m && Trace(s, es)[k].count <= 5
  }

  /** Once B has found ten requests in progress, it admits no other before there were at most five. */
  lemma {:induction false} Hysteresis(s: State, es: seq<Event>, m: nat)
    requires Inv(s) && Legal(s, es) && m <= |es| && Throttled(s)
    ensures FellLow(s, es, m) || (Throttled(Trace(s, es)[m]) && Admissions(Trace(s, es)[m]) == Admissions(s))
  {
    if m > 0 {
      Hysteresis(s, es, m - 1);
      var r := Trace(s, es)[m - 1];
      if !FellLow(s, es, m - 1) {
        if r.count <= RESUME {
          assert FellLow(s, es, m);
        } else {
          TraceStep(s, es, m - 1);
          RunInv(s, es, m - 1);
          StaysThrottled(r, es[m - 1]);
        }
      }
    }
  }

  /** How many workers have counted themselves out. */
  ghost function Departures(ws: seq<Worker>): nat {
    if ws == [] then 0 else Departures(ws[..|ws| - 1]) + One(!Active(ws[|ws| - 1].pc))
  }

  lemma {:induction false} ActiveOrDeparted(ws: seq<Worker>)
    ensures ActiveWorkers(ws) + Departures(ws) == |ws|
  {
    if ws != [] {
      ActiveOrDeparted(ws[..|ws| - 1]);
    }
  }

  /** In every run from the start the count is exact: admissions less departures, from 0 to 10. */
  lemma GateCounts(slots: seq<int>, es: seq<Event>, k: nat)
    requires |slots| == SLOTS && Legal(Init(slots), es) && k <= |es|
    ensures var r := Trace(Init(slots), es)[k];
            r.count == Admissions(r) - Departures(r.workers) && 0 <= r.count <= 10
  {
    InitInv(slots);
    RunInv(Init(slots), es, k);
    ActiveOrDeparted(Trace(Init(slots), es)[k].workers);
  }

  // ----- progress -----

  /** No lost wake-up: while B sleeps, more than five workers have yet to count down, or one is about to signal. */
  lemma NoLostWakeup(s: State)
    requires Inv(s) && s.b == BAsleep
    ensures s.countMutex == Free ==> s.count > 5
    ensures s.count > 5 ==> ActiveWorkers(s.workers) > 5
    ensures s.count <= 5 ==>
              && s.countMutex.ByWorker? && Enabled(s, StepW(s.countMutex.i))
              && Apply(s, StepW(s.countMutex.i)).b == BWoken
  {
  }

  lemma {:induction false} NobodyActive(ws: seq<Worker>)
    requires forall i: nat | i < |ws| :: ws[i].pc == WDone
    ensures ActiveWorkers(ws) == 0
  {
    if ws != [] {
      NobodyActive(ws[..|ws| - 1]);
    }
  }

  /** All that A produced is handed over and booked, and everybody is back at the start. */
  ghost predicate AllServed(s: State) {
    && (forall i: nat | i < |s.workers| :: s.workers[i].pc == WDone)
    && s.b == BTake && s.a == AStart && s.cs == 0 && s.ps == 10 && s.count == 0
    && Handed(s.workers) == s.produced
  }

  /** B or a worker can act, without a spurious wake-up, unless all is served or A is in the middle of an item. */
  lemma NoDeadlock(s: State) returns (e: Event)
    requires Inv(s)
    ensures Enabled(s, e) && !e.Spurious?
    ensures e.StepA? && s.a == AStart ==> AllServed(s)
  {
    if s.countMutex.ByWorker? {
      assert Excluded(s, s.countMutex.i);
      return StepW(s.countMutex.i);
    }
    if s.ticketMutex.ByWorker? {
      assert Excluded(s, s.ticketMutex.i);
      return StepW(s.ticketMutex.i);
    }
    if s.countMutex == ByB {
      return StepB;
    }
    if i: nat :| i < |s.workers| && s.workers[i].pc != WDone {
      assert Excluded(s, i);
      return StepW(i);
    }
    NobodyActive(s.workers);
    if s.b == BTake && s.cs == 0 {
      RingConserves(s);
      return StepA(0);
    }
    return StepB;
  }

  /** When nothing can happen but a new item from A (or a spurious wake-up), everything is served. */
  lemma QuietMeansServed(s: State)
    requires Inv(s) && forall e :: Enabled(s, e) ==> e.Spurious? || (e.StepA? && s.a == AStart)
    ensures AllServed(s)
  {
    var e := NoDeadlock(s);
  }

  // A measure that every action lowers, but for A's P(PS) and spurious wake-ups.

  const ITEM: int := 21

  ghost function RankA(a: APc): nat {
    match a case AStart => 0 case AWrite => ITEM + 2 case APost => 1
  }

  ghost function RankB(b: BPc): nat {
    match b
    case BPost => 13 case BTake => 12 case BLock => 11 case BTest => 10 case BWoken => 9 case BLoop => 8
    case BAsleep => 7 case BAdmit => 6 case BUnlock => 5 case BRead => 4 case BCreate(_) => 3
  }

  ghost function RankW(pc: WPc): nat {
    match pc
    case WLock => 10 case WBook => 9 case WUnlock => 8 case WLock2 => 7 case WCount => 6
    case WSignal => 5 case WUnlock2 => 1 case WDone => 0
  }

  ghost function RankWorkers(ws: seq<Worker>): nat {
    if ws == [] then 0 else RankWorkers(ws[..|ws| - 1]) + RankW(ws[|ws| - 1].pc)
  }

  ghost function Rank(s: State): int {
    ITEM * Waiting(s) + RankA(s.a) + RankB(s.b) + RankWorkers(s.workers)
  }

  lemma {:induction false} RankMoved(ws: seq<Worker>, i: nat, pc: WPc)
    requires i < |ws|
    ensures RankWorkers(ws[i := ws[i].(pc := pc)]) + RankW(ws[i].pc) == RankWorkers(ws) + RankW(pc)
  {
    var n := |ws| - 1;
    var vs := ws[i := ws[i].(pc := pc)];
    if i == n {
      assert vs[..n] == ws[..n];
    } else {
      assert vs[..n] == ws[..n][i := ws[i].(pc := pc)];
      RankMoved(ws[..n], i, pc);
    }
  }

  /** A takes a slot for a new item. */
  ghost predicate NewItem(s: State, e: Event) {
    e.StepA? && s.a == AStart
  }

  lemma RankFallsW(s: State, i: nat)
    requires Enabled(s, StepW(i))
    ensures Rank(ApplyW(s, i)) + 1 <= Rank(s)
  {
    var r := ApplyW(s, i);
    assert r.workers == s.workers[i := s.workers[i].(pc := r.workers[i].pc)];
    RankMoved(s.workers, i, r.workers[i].pc);
  }

  /** Every action lowers the measure, but for the beginning of an item and a spurious wake-up. */
  lemma RankFalls(s: State, e: Event)
    requires Enabled(s, e)
    ensures Rank(Apply(s, e)) + 1 <= Rank(s) + (if NewItem(s, e) then ITEM + 3 else 0) + if e.Spurious? then 3 else 0
  {
    match e
    case StepA(_) =>
    case Spurious =>
    case StepB =>
      if s.b.BCreate? {
        var w := Worker(s.b.x, WLock);
        assert (s.workers + [w])[..|s.workers|] == s.workers;
      }
    case StepW(i) =>
      RankFallsW(s, i);
  }

  /** How many items A has begun, and how often B woke for no reason, in the first `k` events. */
  ghost function NewItems(s: State, es: seq<Event>, k: nat): nat
    requires Legal(s, es) && k <= |es|
  {
    if k == 0 then 0 else NewItems(s, es, k - 1) + One(NewItem(Trace(s, es)[k - 1], es[k - 1]))
  }

  ghost function SpuriousWakeups(es: seq<Event>, k: nat): nat
    requires k <= |es|
  {
    if k == 0 then 0 else SpuriousWakeups(es, k - 1) + One(es[k - 1].Spurious?)
  }

  lemma {:induction false} RankOverRun(s: State, es: seq<Event>, k: nat)
    requires Legal(s, es) && k <= |es|
    ensures Rank(Trace(s, es)[k]) + k <= Rank(s) + (ITEM + 3) * NewItems(s, es, k) + 3 * SpuriousWakeups(es, k)
  {
    if k > 0 {
      RankOverRun(s, es, k - 1);
      TraceStep(s, es, k - 1);
      RankFalls(Trace(s, es)[k - 1], es[k - 1]);
    }
  }

  /**
   No livelock: in every run the number of actions is bounded by the work there was at first
   and 24 more for each item A begins, 3 more for each spurious wake-up.
   */
  lemma WorkIsBounded(s: State, es: seq<Event>, k: nat)
    requires Inv(s) && Legal(s, es) && k <= |es|
    ensures k <= Rank(s) + 24 * NewItems(s, es, k) + 3 * SpuriousWakeups(es, k)
  {
    RankOverRun(s, es, k);
    RunInv(s, es, k);
  }

  // ----- the bookings -----

  /**
   In every run from the start the tickets are the outcome of the bookings one after the other
   in lock order, each request booked at most once, and between 0 and 100.
   */
  lemma BookingsLinearizable(slots: seq<int>, es: seq<Event>, k: nat)
    requires |slots| == SLOTS && Legal(Init(slots), es) && k <= |es|
    ensures var r := Trace(Init(slots), es)[k];
            && (forall n | 0 <= n < |Done(r)| :: Done(r)[n] < |r.workers| <= |r.produced|)
            && r.ticket == Bookings(Done(r), r.produced) && 0 <= r.ticket <= 100
            && (forall m, n | 0 <= m < n < |Done(r)| :: Done(r)[m] != Done(r)[n])
  {
    InitInv(slots);
    RunInv(Init(slots), es, k);
  }

  /** Booked or not: exactly the workers past their booking are in the order of bookings. */
  lemma DoneExactly(s: State, i: nat)
    requires Inv(s)
    ensures i in Done(s) <==> i < |s.workers| && s.workers[i].pc != WLock && s.workers[i].pc != WBook
  {
    assert Logged(s, i) && Excluded(s, i);
    if Booking(s) {
      var n := |s.order| - 1;
      assert s.order == s.order[..n] + [s.order[n]];
      assert Excluded(s, s.ticketMutex.i);
    }
  }

  /** When all is served, every request has been booked exactly once. */
  lemma AllBookedOnce(s: State)
    requires Inv(s) && AllServed(s)
    ensures forall k | 0 <= k < |s.order| :: s.order[k] < |s.produced|
    ensures s.ticket == Bookings(s.order, s.produced)
    ensures forall i: nat | i < |s.produced| :: i in s.order
    ensures forall k, l | 0 <= k < l < |s.order| :: s.order[k] != s.order[l]
  {
    assert |Handed(s.workers)| == |s.produced|;
    forall i: nat | i < |s.produced| ensures i in s.order {
      assert Logged(s, i);
    }
  }
}
