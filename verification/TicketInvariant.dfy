/**
 What holds in every reachable state of the ticket server: the semaphores count the slots, the
 ring holds what B has not read, the mutexes exclude, the gate's count is exact, and the
 number of tickets is the outcome of the bookings in lock order.
 */
module TicketInvariant {
  import opened Basics
  import opened TicketServer

  // ----- the ring -----

  /** B has taken an item off CS and not yet handed it to a worker. */
  ghost predicate Taken(b: BPc) {
    b != BTake && b != BPost
  }

  /** Written and not yet handed to a worker. */
  ghost function Waiting(s: State): int {
    |s.produced| - |s.workers|
  }

  ghost predicate Tokens(s: State) {
    && s.cs + One(s.a == APost) + One(Taken(s.b)) == Waiting(s)
    && s.ps + One(s.a == AWrite) + One(s.b == BPost) == SLOTS - Waiting(s)
  }

  /** What is written and not handed over stands in the ring; what is handed over went to the workers in order. */
  ghost predicate Ring(s: State) {
    && |s.slots| == SLOTS && |s.workers| <= |s.produced|
    && s.inn == Slot(|s.produced|) && s.out == Slot(|s.workers|)
    && (forall j: nat | |s.workers| <= j < |s.produced| :: s.slots[Slot(j)] == s.produced[j])
    && (forall i: nat | i < |s.workers| :: s.workers[i].x == s.produced[i])
    && (s.b.BCreate? ==> |s.workers| < |s.produced| && s.b.x == s.produced[|s.workers|])
  }

  // ----- mutexes -----

  ghost predicate HoldsB(b: BPc) {
    b == BTest || b == BLoop || b == BAdmit || b == BUnlock
  }

  ghost predicate HoldsTicket(pc: WPc) {
    pc == WBook || pc == WUnlock
  }

  ghost predicate HoldsCount(pc: WPc) {
    pc == WCount || pc == WSignal || pc == WUnlock2
  }

  ghost predicate Excluded(s: State, i: nat) {
    && (s.ticketMutex == ByWorker(i) <==> i < |s.workers| && HoldsTicket(s.workers[i].pc))
    && (s.countMutex == ByWorker(i) <==> i < |s.workers| && HoldsCount(s.workers[i].pc))
  }

  ghost predicate Mutexes(s: State) {
    && s.ticketMutex != ByB && (s.countMutex == ByB <==> HoldsB(s.b))
    && forall i: nat {:trigger Excluded(s, i)} :: Excluded(s, i)
  }

  // ----- the gate -----

  /** Has not yet counted itself out. */
  ghost predicate Active(pc: WPc) {
    pc == WLock || pc == WBook || pc == WUnlock || pc == WLock2 || pc == WCount
  }

  ghost function ActiveWorkers(ws: seq<Worker>): nat {
    if ws == [] then 0 else ActiveWorkers(ws[..|ws| - 1]) + One(Active(ws[|ws| - 1].pc))
  }

  /** Admitted, but B has not yet created the worker. */
  ghost predicate Admitted(b: BPc) {
    b == BUnlock || b == BRead || b.BCreate?
  }

  /** The worker holding the count mutex will signal in its next step. */
  ghost predicate SignalDue(s: State) {
    && s.count <= RESUME && s.countMutex.ByWorker?
    && s.countMutex.i < |s.workers| && s.workers[s.countMutex.i].pc == WSignal
  }

  ghost predicate Gate(s: State) {
    && s.count == ActiveWorkers(s.workers) + One(Admitted(s.b))
    && s.count <= FULL && (s.b == BAdmit ==> s.count < FULL)
    && (s.b == BAsleep ==> s.count > RESUME || SignalDue(s))
  }

  // ----- the bookings -----

  /** The sequential outcome of the requests `order` over the requests `xs`. */
  ghost function Bookings(order: seq<nat>, xs: seq<int>): int
    requires forall k | 0 <= k < |order| :: order[k] < |xs|
  {
    if order == [] then TICKETS else Booked(Bookings(order[..|order| - 1], xs), xs[order[|order| - 1]])
  }

  /** The worker that has the ticket mutex and not yet booked. */
  ghost predicate Booking(s: State) {
    s.ticketMutex.ByWorker? && s.ticketMutex.i < |s.workers| && s.workers[s.ticketMutex.i].pc == WBook
  }

  /** The bookings made, in lock order: all of `order` but for one about to be made. */
  ghost function Done(s: State): seq<nat> {
    if Booking(s) && s.order != [] then s.order[..|s.order| - 1] else s.order
  }

  ghost predicate Logged(s: State, i: nat) {
    i in s.order <==> i < |s.workers| && s.workers[i].pc != WLock
  }

  /** Every worker that has got the ticket mutex, and no other, is in `order`, once. */
  ghost predicate Ordered(s: State) {
    && (forall k | 0 <= k < |s.order| :: s.order[k] < |s.workers|)
    && (forall i: nat {:trigger Logged(s, i)} :: Logged(s, i))
    && (forall k, l | 0 <= k < l < |s.order| :: s.order[k] != s.order[l])
    && (Booking(s) ==> s.order != [] && s.order[|s.order| - 1] == s.ticketMutex.i)
  }

  ghost predicate Sold(s: State) {
    && |s.workers| <= |s.produced| && Ordered(s)
    && s.ticket == Bookings(Done(s), s.produced) && 0 <= s.ticket <= TICKETS
  }

  ghost predicate Inv(s: State) {
    Tokens(s) && Ring(s) && Mutexes(s) && Gate(s) && Sold(s)
  }

  lemma InitInv(slots: seq<int>)
    requires |slots| == SLOTS
    ensures Inv(Init(slots))
  {
    var s := Init(slots);
    forall i: nat ensures Excluded(s, i) {
    }
  }

  // ----- A -----

  lemma SlotsDiffer(j: nat, n: nat)
    requires j < n < j + SLOTS
    ensures Slot(j) != Slot(n)
  {
  }

  lemma SlotAfter(n: nat, d: nat)
    ensures Slot(Slot(n) + d) == Slot(n + d)
  {
  }

  lemma WriteRing(s: State, v: int)
    requires Ring(s) && Tokens(s) && s.a == AWrite && Enabled(s, StepA(v))
    ensures Ring(ApplyA(s, v))
  {
    var r := ApplyA(s, v);
    forall j: nat | |r.workers| <= j < |r.produced| ensures r.slots[Slot(j)] == r.produced[j] {
      if j < |s.produced| {
        SlotsDiffer(j, |s.produced|);
      }
    }
    SlotAfter(|s.produced|, 1);
  }

  lemma {:induction false} BookingsFrame(order: seq<nat>, xs: seq<int>, ys: seq<int>)
    requires forall k | 0 <= k < |order| :: order[k] < |xs|
    requires xs <= ys
    ensures Bookings(order, ys) == Bookings(order, xs)
  {
    if order != [] {
      BookingsFrame(order[..|order| - 1], xs, ys);
    }
  }

  /** Nothing the bookings depend on has changed. */
  lemma SoldFrame(s: State, r: State)
    requires Sold(s) && r.workers == s.workers && r.order == s.order && r.ticket == s.ticket
    requires r.ticketMutex == s.ticketMutex && s.produced <= r.produced
    ensures Sold(r)
  {
    assert Done(r) == Done(s);
    forall i: nat ensures Logged(r, i) {
      assert Logged(s, i);
    }
    BookingsFrame(Done(s), s.produced, r.produced);
  }

  /** The mutexes of a state in which only B and A have moved. */
  lemma MutexesFrame(s: State, r: State)
    requires Mutexes(s) && r.workers == s.workers && r.ticketMutex == s.ticketMutex
    requires r.countMutex == s.countMutex || (!r.countMutex.ByWorker? && !s.countMutex.ByWorker?)
    requires r.countMutex == ByB <==> HoldsB(r.b)
    ensures Mutexes(r)
  {
    forall i: nat ensures Excluded(r, i) {
      assert Excluded(s, i);
    }
  }

  lemma StepARing(s: State, v: int)
    requires Tokens(s) && Ring(s) && Enabled(s, StepA(v))
    ensures Tokens(ApplyA(s, v)) && Ring(ApplyA(s, v))
  {
    if s.a == AWrite {
      WriteRing(s, v);
    }
  }

  lemma StepAInv(s: State, v: int)
    requires Inv(s) && Enabled(s, StepA(v))
    ensures Inv(ApplyA(s, v))
  {
    StepARing(s, v);
    MutexesFrame(s, ApplyA(s, v));
    SoldFrame(s, ApplyA(s, v));
  }

  // ----- B -----

  lemma CreateRing(s: State)
    requires Ring(s) && s.b.BCreate?
    ensures Ring(ApplyB(s))
  {
    SlotAfter(|s.workers|, 1);
  }

  lemma StepBRing(s: State)
    requires Ring(s) && Tokens(s) && Enabled(s, StepB)
    ensures Ring(ApplyB(s))
  {
    if s.b.BCreate? {
      CreateRing(s);
    } else if s.b == BRead {
      assert |s.workers| < |s.produced|;
    }
  }

  lemma StepBMutexes(s: State)
    requires Mutexes(s) && Enabled(s, StepB)
    ensures Mutexes(ApplyB(s))
  {
    var r := ApplyB(s);
    forall i: nat ensures Excluded(r, i) {
      assert Excluded(s, i);
    }
  }

  lemma StepBGate(s: State)
    requires Gate(s) && Mutexes(s) && Enabled(s, StepB)
    ensures Gate(ApplyB(s))
  {
    if s.b.BCreate? {
      var w := Worker(s.b.x, WLock);
      assert (s.workers + [w])[..|s.workers|] == s.workers;
    }
  }

  lemma CreateSold(s: State)
    requires Sold(s) && Mutexes(s) && |s.workers| < |s.produced| && s.b.BCreate?
    ensures Sold(ApplyB(s))
  {
    var r := ApplyB(s);
    forall i: nat ensures Logged(r, i) {
      assert Logged(s, i);
    }
    if s.ticketMutex.ByWorker? {
      assert Excluded(s, s.ticketMutex.i);
    }
    assert Done(r) == Done(s);
  }

  lemma StepBTokens(s: State)
    requires Tokens(s) && Enabled(s, StepB)
    ensures Tokens(ApplyB(s))
  {
  }

  lemma StepBInv(s: State)
    requires Inv(s) && Enabled(s, StepB)
    ensures Inv(ApplyB(s))
  {
    StepBTokens(s);
    StepBRing(s);
    StepBMutexes(s);
    StepBGate(s);
    if s.b.BCreate? {
      CreateSold(s);
    } else {
      SoldFrame(s, ApplyB(s));
    }
  }

  // ----- workers -----

  lemma {:induction false} ActiveMoved(ws: seq<Worker>, i: nat, pc: WPc)
    requires i < |ws|
    ensures ActiveWorkers(ws[i := ws[i].(pc := pc)]) + One(Active(ws[i].pc)) == ActiveWorkers(ws) + One(Active(pc))
  {
    var n := |ws| - 1;
    var vs := ws[i := ws[i].(pc := pc)];
    if i == n {
      assert vs[..n] == ws[..n];
    } else {
      assert vs[..n] == ws[..n][i := ws[i].(pc := pc)];
      ActiveMoved(ws[..n], i, pc);
    }
  }

  lemma StepWMutexes(s: State, i: nat)
    requires Mutexes(s) && Enabled(s, StepW(i))
    ensures Mutexes(ApplyW(s, i))
  {
    var r := ApplyW(s, i);
    assert Excluded(s, i);
    forall j: nat ensures Excluded(r, j) {
      assert Excluded(s, j);
    }
  }

  lemma StepWGate(s: State, i: nat)
    requires Gate(s) && Mutexes(s) && Enabled(s, StepW(i))
    ensures Gate(ApplyW(s, i))
  {
    var r := ApplyW(s, i);
    assert Excluded(s, i);
    ActiveMoved(s.workers, i, r.workers[i].pc);
  }

  lemma StepWOrdered(s: State, i: nat)
    requires Ordered(s) && Mutexes(s) && Enabled(s, StepW(i))
    ensures Ordered(ApplyW(s, i))
  {
    var r := ApplyW(s, i);
    assert Excluded(s, i);
    assert Logged(s, i);
    forall j: nat ensures Logged(r, j) {
      assert Logged(s, j);
    }
    if r.ticketMutex.ByWorker? {
      assert Excluded(s, r.ticketMutex.i);
    }
  }

  lemma DoneMoved(s: State, i: nat)
    requires Enabled(s, StepW(i)) && Excluded(s, i)
    requires s.ticketMutex.ByWorker? ==> Excluded(s, s.ticketMutex.i)
    requires Booking(s) ==> s.order != [] && s.order[|s.order| - 1] == s.ticketMutex.i
    ensures var r := ApplyW(s, i);
            Done(r) == if s.workers[i].pc == WBook then Done(s) + [i] else Done(s)
  {
    var r, pc := ApplyW(s, i), s.workers[i].pc;
    if pc == WLock {
      assert r.order[..|r.order| - 1] == s.order;
    } else if pc == WBook {
      assert s.order == s.order[..|s.order| - 1] + [i];
    }
  }

  lemma BookedRange(ticket: int, x: int)
    requires 0 <= ticket <= TICKETS
    ensures 0 <= Booked(ticket, x) <= TICKETS
  {
  }

  lemma StepWSold(s: State, i: nat)
    requires Sold(s) && Ring(s) && Mutexes(s) && Enabled(s, StepW(i))
    ensures Sold(ApplyW(s, i))
  {
    var r := ApplyW(s, i);
    assert Excluded(s, i);
    StepWOrdered(s, i);
    if s.ticketMutex.ByWorker? {
      assert Excluded(s, s.ticketMutex.i);
    }
    DoneMoved(s, i);
    BookedRange(s.ticket, s.workers[i].x);
    assert (Done(s) + [i])[..|Done(s)|] == Done(s);
  }

  /** Nothing the ring depends on has changed. */
  lemma RingFrame(s: State, r: State)
    requires Ring(s) && r.slots == s.slots && r.inn == s.inn && r.out == s.out && r.produced == s.produced
    requires |r.workers| == |s.workers| && forall i: nat | i < |s.workers| :: r.workers[i].x == s.workers[i].x
    requires r.b.BCreate? ==> r.b == s.b
    ensures Ring(r)
  {
  }

  lemma StepWRing(s: State, i: nat)
    requires Tokens(s) && Ring(s) && Enabled(s, StepW(i))
    ensures Tokens(ApplyW(s, i)) && Ring(ApplyW(s, i))
  {
    var r := ApplyW(s, i);
    assert r.workers == s.workers[i := s.workers[i].(pc := r.workers[i].pc)];
    RingFrame(s, r);
  }

  lemma StepWInv(s: State, i: nat)
    requires Inv(s) && Enabled(s, StepW(i))
    ensures Inv(ApplyW(s, i))
  {
    StepWRing(s, i);
    StepWMutexes(s, i);
    StepWGate(s, i);
    StepWSold(s, i);
  }

  lemma SpuriousInv(s: State)
    requires Inv(s) && s.b == BAsleep
    ensures Inv(s.(b := BWoken))
  {
    MutexesFrame(s, s.(b := BWoken));
    SoldFrame(s, s.(b := BWoken));
  }

  /** Every action of every process keeps the invariant ... */
  lemma StepInv(s: State, e: Event)
    requires Inv(s) && Enabled(s, e)
    ensures Inv(Apply(s, e))
  {
    match e
    case StepA(v) => StepAInv(s, v);
    case StepB => StepBInv(s);
    case StepW(i) => StepWInv(s, i);
    case Spurious => SpuriousInv(s);
  }

  /** ... so it holds throughout every run. */
  lemma {:induction false} RunInv(s: State, es: seq<Event>, k: nat)
    requires Inv(s) && Legal(s, es) && k <= |es|
    ensures Inv(Trace(s, es)[k])
    decreases |es|
  {
    if k > 0 {
      StepInv(s, es[0]);
      RunInv(Apply(s, es[0]), es[1..], k - 1);
    }
  }
}
