/**
 What the bookings of the ticket server come to: each request on its own, with the numbers of
 book_ticket(), and all requests of a run together.
 */
module TicketSales {
  import opened Basics
  import opened TicketServer
  import opened TicketInvariant
  import opened TicketResults

  // ----- single actions -----

  /** A request for no more than what is left is granted, up to a hundred left again; any other changes nothing. */
  ghost predicate Sells(before: int, x: int, after: int) {
    && (before >= x ==> after == if before - x > 100 then 100 else before - x)
    && (before < x ==> after == before)
  }

  ghost predicate BooksNow(s: State, e: Event) {
    e.StepW? && e.i < |s.workers| && s.workers[e.i].pc == WBook
  }

  /** Only the booking of a worker changes the tickets, and that by its own request. */
  lemma OnlyBookingsSell(s: State, e: Event)
    requires Enabled(s, e)
    ensures BooksNow(s, e) ==> Sells(s.ticket, s.workers[e.i].x, Apply(s, e).ticket)
    ensures !BooksNow(s, e) ==> Apply(s, e).ticket == s.ticket
  {
  }

  /** The gate in its numbers: it closes at ten and opens at five, where the worker that counts down wakes B. */
  lemma GateOpensAtFive(s: State, e: Event)
    requires Enabled(s, e)
    ensures e == StepB && s.b == BTest ==> Apply(s, e).b == if s.count >= 10 then BLoop else BAdmit
    ensures e == StepB && s.b == BLoop ==> Apply(s, e).b == if s.count > 5 then BAsleep else BAdmit
    ensures e.StepW? && s.workers[e.i].pc == WSignal ==>
              Apply(s, e).b == if s.b == BAsleep && s.count <= 5 then BWoken else s.b
    ensures s.b == BAsleep && Apply(s, e).b != BAsleep ==>
              e == Spurious || (e.StepW? && s.workers[e.i].pc == WSignal && s.count <= 5)
  {
  }

  /** Who can act when: the waits of the programs, and no others. */
  lemma WhoCanAct(s: State, v: int, i: nat)
    requires Inv(s)
    ensures Enabled(s, StepA(v)) <==> -5 <= v <= 5 && (s.a == AStart ==> s.ps > 0)
    ensures Enabled(s, StepB) <==>
              && s.b != BAsleep && (s.b == BTake ==> s.cs > 0)
              && (s.b == BLock || s.b == BWoken ==> s.countMutex == Free)
    ensures Enabled(s, StepW(i)) <==>
              && i < |s.workers| && s.workers[i].pc != WDone
              && (s.workers[i].pc == WLock ==> s.ticketMutex == Free)
              && (s.workers[i].pc == WLock2 ==> s.countMutex == Free)
  {
  }

  // ----- all requests together -----

  /**
   How many tickets the requests `order` are granted: each one that asks for no more than is
   then left of a hundred.
   */
  ghost function Granted(order: seq<nat>, xs: seq<int>): int
    requires forall k | 0 <= k < |order| :: order[k] < |xs|
  {
    if order == [] then 0
    else
      var before, x := Granted(order[..|order| - 1], xs), xs[order[|order| - 1]];
      before + if x <= 100 - before then x else 0
  }

  /** How many tickets they ask for. */
  ghost function Asked(order: seq<nat>, xs: seq<int>): int
    requires forall k | 0 <= k < |order| :: order[k] < |xs|
  {
    if order == [] then 0 else Asked(order[..|order| - 1], xs) + xs[order[|order| - 1]]
  }

  ghost function Total(xs: seq<int>): int {
    if xs == [] then 0 else Total(xs[..|xs| - 1]) + xs[|xs| - 1]
  }

  ghost predicate NobodyReturns(xs: seq<int>) {
    forall j | 0 <= j < |xs| :: xs[j] >= 0
  }

  /** If nobody gives tickets back, what is left is a hundred less what was granted. */
  lemma {:induction false} LeftIsUngranted(order: seq<nat>, xs: seq<int>)
    requires (forall k | 0 <= k < |order| :: order[k] < |xs|) && NobodyReturns(xs)
    ensures Bookings(order, xs) == 100 - Granted(order, xs) && 0 <= Granted(order, xs) <= 100
  {
    if order != [] {
      LeftIsUngranted(order[..|order| - 1], xs);
    }
  }

  lemma {:induction false} AskedNonNegative(order: seq<nat>, xs: seq<int>)
    requires (forall k | 0 <= k < |order| :: order[k] < |xs|) && NobodyReturns(xs)
    ensures Asked(order, xs) >= 0
  {
    if order != [] {
      AskedNonNegative(order[..|order| - 1], xs);
    }
  }

  /** Requests for at most a hundred together are all granted. */
  lemma {:induction false} EnoughForAll(order: seq<nat>, xs: seq<int>)
    requires (forall k | 0 <= k < |order| :: order[k] < |xs|) && NobodyReturns(xs) && Asked(order, xs) <= 100
    ensures Granted(order, xs) == Asked(order, xs)
  {
    if order != [] {
      EnoughForAll(order[..|order| - 1], xs);
    }
  }

  lemma {:induction false} AskedWithout(order: seq<nat>, xs: seq<int>, p: nat)
    requires (forall k | 0 <= k < |order| :: order[k] < |xs|) && p < |order|
    ensures Asked(order, xs) == Asked(order[..p] + order[p + 1..], xs) + xs[order[p]]
  {
    var n := |order| - 1;
    if p == n {
      assert order[..p] + order[p + 1..] == order[..n];
    } else {
      var rest := order[..p] + order[p + 1..];
      AskedWithout(order[..n], xs, p);
      assert rest[..|rest| - 1] == order[..n][..p] + order[..n][p + 1..];
    }
  }

  lemma {:induction false} AskedPrefix(order: seq<nat>, xs: seq<int>, n: nat)
    requires n <= |xs| && forall k | 0 <= k < |order| :: order[k] < n
    ensures Asked(order, xs[..n]) == Asked(order, xs)
  {
    if order != [] {
      AskedPrefix(order[..|order| - 1], xs, n);
    }
  }

  /**
   Each request counted once: together they ask for no more than all requests there are, and
   for just that if none is missing.
   */
  lemma {:induction false} AskedOfTotal(order: seq<nat>, xs: seq<int>)
    requires (forall k | 0 <= k < |order| :: order[k] < |xs|) && NobodyReturns(xs)
    requires forall k, l | 0 <= k < l < |order| :: order[k] != order[l]
    ensures Asked(order, xs) <= Total(xs)
    ensures (forall i: nat | i < |xs| :: i in order) ==> Asked(order, xs) == Total(xs)
    decreases |xs|
  {
    if xs == [] {
      assert order == [];
    } else {
      var n := |xs| - 1;
      if n in order {
        var p :| 0 <= p < |order| && order[p] == n;
        var rest := order[..p] + order[p + 1..];
        AskedWithout(order, xs, p);
        WithoutLast(order, p, n);
        AskedPrefix(rest, xs, n);
        AskedOfTotal(rest, xs[..n]);
      } else {
        forall k | 0 <= k < |order| ensures order[k] < n {
          assert order[k] in order;
        }
        AskedPrefix(order, xs, n);
        AskedOfTotal(order, xs[..n]);
      }
    }
  }

  lemma WithoutLast(order: seq<nat>, p: nat, n: nat)
    requires (forall k | 0 <= k < |order| :: order[k] <= n) && p < |order| && order[p] == n
    requires forall k, l | 0 <= k < l < |order| :: order[k] != order[l]
    ensures var rest := order[..p] + order[p + 1..];
            && (forall k | 0 <= k < |rest| :: rest[k] < n)
            && (forall k, l | 0 <= k < l < |rest| :: rest[k] != rest[l])
            && (forall i: nat | i < n && i in order :: i in rest)
  {
    var rest := order[..p] + order[p + 1..];
    assert forall k | 0 <= k < |rest| :: rest[k] == order[if k < p then k else k + 1];
    forall i: nat | i < n && i in order ensures i in rest {
      var q :| 0 <= q < |order| && order[q] == i;
      assert rest[if q < p then q else q - 1] == i;
    }
  }

  // ----- over runs -----

  /**
   In every run from the start in which nobody gives tickets back, a hundred less what was
   granted are left, and if all requests together ask for at most a hundred, all are granted.
   */
  lemma SoldOverRun(slots: seq<int>, es: seq<Event>, k: nat)
    requires |slots| == SLOTS && Legal(Init(slots), es) && k <= |es|
    requires NobodyReturns(Trace(Init(slots), es)[k].produced)
    ensures var r := Trace(Init(slots), es)[k];
            && (forall n | 0 <= n < |Done(r)| :: Done(r)[n] < |r.produced|)
            && r.ticket == 100 - Granted(Done(r), r.produced)
            && (Total(r.produced) <= 100 ==> r.ticket == 100 - Asked(Done(r), r.produced))
  {
    BookingsLinearizable(slots, es, k);
    var r := Trace(Init(slots), es)[k];
    LeftIsUngranted(Done(r), r.produced);
    AskedOfTotal(Done(r), r.produced);
    if Total(r.produced) <= 100 {
      EnoughForAll(Done(r), r.produced);
    }
  }

  /** When all is served and no more than a hundred tickets were asked for, exactly those are gone. */
  lemma AllSold(s: State)
    requires Inv(s) && AllServed(s) && NobodyReturns(s.produced) && Total(s.produced) <= 100
    ensures s.ticket == 100 - Total(s.produced)
  {
    AllBookedOnce(s);
    LeftIsUngranted(s.order, s.produced);
    AskedOfTotal(s.order, s.produced);
    EnoughForAll(s.order, s.produced);
  }
}
