/**
 The two programs of Multithread_server_client over their shared memory, with the ring an
 array written in place.  Each method is the next atomic action of one process and is proved
 to be the event of TicketServer with that meaning.
 */
module TicketProgram {
  import opened Basics
  import opened TicketServer
  import opened TicketInvariant
  import opened TicketSales

  class Server {
    var ps: nat              // the semaphores
    var cs: nat
    const ring: array<int>   // Aqueue and Bqueue: the same shared segment
    var inn: nat
    var out: nat
    var a: APc
    var b: BPc
    var workers: seq<Worker>
    var globalCount: int
    var ticket: int
    var cntMutex: Owner
    var cntMutex2: Owner
    ghost var produced: seq<int>
    ghost var order: seq<nat>

    ghost function View(): State
      reads this, ring
    {
      State(ps, cs, ring[..], inn, out, a, b, workers, globalCount, ticket, cntMutex, cntMutex2, produced, order)
    }

    constructor (ring: array<int>)
      requires ring.Length == SLOTS
      ensures this.ring == ring && View() == Init(ring[..]) && Inv(View())
    {
      this.ring := ring;
      ps, cs, inn, out := SLOTS, 0, 0, 0;
      a, b, workers := AStart, BTake, [];
      globalCount, ticket := 0, TICKETS;
      cntMutex, cntMutex2 := Free, Free;
      produced, order := [], [];
      new;
      InitInv(ring[..]);
    }

    /** The loop of A.c, one action: what has not been handed over stays in its place in the array. */
    method ProducerAction(v: int)
      requires Inv(View()) && Enabled(View(), StepA(v))
      modifies this`ps, this`cs, this`inn, this`a, this`produced, ring
      ensures View() == Apply(old(View()), StepA(v)) && Inv(View())
      ensures forall j: nat | |workers| <= j < |old(produced)| :: ring[Slot(j)] == old(produced)[j]
    {
      ProducedKeeps(View(), v);
      Produce(v);
    }

    method Produce(v: int)
      requires Enabled(View(), StepA(v))
      modifies this`ps, this`cs, this`inn, this`a, this`produced, ring
      ensures View() == Apply(old(View()), StepA(v))
    {
      match a {
        case AStart =>
          ps := ps - 1;
          a := AWrite;
        case AWrite =>
          ring[inn] := v;
          inn := Slot(inn + 1);
          a := APost;
          produced := produced + [v];
        case APost =>
          cs := cs + 1;
          a := AStart;
      }
    }

    /** The loop of main() in B.c, one action: a new worker gets the oldest request not handed over. */
    method ConsumerAction()
      requires Inv(View()) && Enabled(View(), StepB)
      modifies this`ps, this`cs, this`out, this`b, this`workers, this`globalCount, this`cntMutex2
      ensures View() == Apply(old(View()), StepB) && Inv(View())
      ensures 0 <= globalCount <= 10 && ticket == old(ticket)
      ensures forall n: nat | |old(workers)| == n < |workers| :: n < |produced| && workers[n].x == produced[n]
    {
      ConsumedKeeps(View());
      Consume();
    }

    method Consume()
      requires Enabled(View(), StepB)
      modifies this`ps, this`cs, this`out, this`b, this`workers, this`globalCount, this`cntMutex2
      ensures View() == Apply(old(View()), StepB)
    {
      match b {
        case BTake =>
          cs := cs - 1;
          b := BLock;
        case BLock =>
          cntMutex2 := ByB;
          b := BTest;
        case BTest =>
          if globalCount >= FULL {
            b := BLoop;
          } else {
            b := BAdmit;
          }
        case BLoop =>
          if globalCount > RESUME {
            cntMutex2 := Free;
            b := BAsleep;
          } else {
            b := BAdmit;
          }
        case BWoken =>
          cntMutex2 := ByB;
          b := BLoop;
        case BAdmit =>
          globalCount := globalCount + 1;
          b := BUnlock;
        case BUnlock =>
          cntMutex2 := Free;
          b := BRead;
        case BRead =>
          b := BCreate(ring[out]);
        case BCreate(x) =>
          workers := workers + [Worker(x, WLock)];
          out := Slot(out + 1);
          b := BPost;
        case BPost =>
          ps := ps + 1;
          b := BTake;
      }
    }

    /** pthread_cond_wait() returns although nobody signalled. */
    method SpuriousWakeup()
      requires Inv(View()) && Enabled(View(), Spurious)
      modifies this`b
      ensures View() == Apply(old(View()), Spurious) && Inv(View())
    {
      StepInv(View(), Spurious);
      b := BWoken;
    }

    method Move(i: nat, pc: WPc)
      requires i < |workers|
      modifies this`workers
      ensures View() == Moved(old(View()), i, pc)
    {
      workers := workers[i := workers[i].(pc := pc)];
    }

    /** book_ticket() in the `i`-th worker, one action: never fewer than no tickets or more than a hundred. */
    method WorkerAction(i: nat)
      requires Inv(View()) && Enabled(View(), StepW(i))
      modifies this`b, this`workers, this`globalCount, this`ticket, this`cntMutex, this`cntMutex2, this`order
      ensures View() == Apply(old(View()), StepW(i)) && Inv(View())
      ensures 0 <= ticket <= 100 && 0 <= globalCount <= 10
      ensures i < |old(workers)|
      ensures var x, books := old(workers)[i].x, old(workers)[i].pc == WBook;
              && (books && old(ticket) >= x ==> ticket == if old(ticket) - x > 100 then 100 else old(ticket) - x)
              && (books && old(ticket) < x ==> ticket == old(ticket))
              && (!books ==> ticket == old(ticket))
    {
      OnlyBookingsSell(View(), StepW(i));
      WorkedKeeps(View(), i);
      Work(i);
    }

    method Work(i: nat)
      requires Enabled(View(), StepW(i))
      modifies this`b, this`workers, this`globalCount, this`ticket, this`cntMutex, this`cntMutex2, this`order
      ensures View() == Apply(old(View()), StepW(i))
    {
      match workers[i].pc {
        case WLock =>
          cntMutex := ByWorker(i);
          order := order + [i];
          Move(i, WBook);
        case WBook =>
          var x := workers[i].x;
          if ticket - x >= 0 {
            ticket := Min(ticket - x, TICKETS);
          }
          Move(i, WUnlock);
        case WUnlock =>
          cntMutex := Free;
          Move(i, WLock2);
        case WLock2 =>
          cntMutex2 := ByWorker(i);
          Move(i, WCount);
        case WCount =>
          globalCount := globalCount - 1;
          Move(i, WSignal);
        case WSignal =>
          if globalCount <= RESUME {
            if b == BAsleep {
              b := BWoken;
            }
          }
          Move(i, WUnlock2);
        case WUnlock2 =>
          cntMutex2 := Free;
          Move(i, WDone);
      }
    }
  }

  lemma ProducedKeeps(s: State, v: int)
    requires Inv(s) && Enabled(s, StepA(v))
    ensures var r := Apply(s, StepA(v));
            && Inv(r) && |r.slots| == SLOTS
            && forall j: nat | |r.workers| <= j < |s.produced| :: r.slots[Slot(j)] == s.produced[j]
  {
    StepInv(s, StepA(v));
    var r := Apply(s, StepA(v));
    forall j: nat | |r.workers| <= j < |s.produced| ensures r.slots[Slot(j)] == s.produced[j] {
      assert r.produced[j] == s.produced[j];
    }
  }

  lemma ConsumedKeeps(s: State)
    requires Inv(s) && Enabled(s, StepB)
    ensures var r := Apply(s, StepB);
            && Inv(r) && 0 <= r.count <= FULL
            && forall n: nat | |s.workers| == n < |r.workers| :: n < |r.produced| && r.workers[n].x == r.produced[n]
  {
    StepInv(s, StepB);
  }

  lemma WorkedKeeps(s: State, i: nat)
    requires Inv(s) && Enabled(s, StepW(i))
    ensures var r := Apply(s, StepW(i)); Inv(r) && 0 <= r.ticket <= TICKETS && 0 <= r.count <= FULL
  {
    StepInv(s, StepW(i));
  }
}
