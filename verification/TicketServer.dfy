/**
 The ticket server of Multithread_server_client: producer A.c, consumer B.c and one worker
 thread per request, as a transition system.  A process is its program counter; one event is
 one atomic action of one process, so runs are all interleavings.

 `produced` and `order` are history: what A has written, and who got the ticket mutex when.
 */
module TicketServer {
  import opened Basics

  const SLOTS: int := 10
  const FULL: int := 10      // B stops admitting here ...
  const RESUME: int := 5     // ... until the count is down to this
  const TICKETS: int := 100

  /** A.c: before P(PS); before the write to the slot; before V(CS). */
  datatype APc = AStart | AWrite | APost

  /**
   B.c's main loop: before P(CS); before locking cnt_mutex2; at the test for FULL; at the loop
   test; inside pthread_cond_wait(), asleep or woken and without the mutex; before the
   increment; before unlocking; before reading the slot; before creating the worker with the
   value read; before V(PS).
   */
  datatype BPc =
    | BTake | BLock | BTest | BLoop | BAsleep | BWoken
    | BAdmit | BUnlock | BRead | BCreate(x: int) | BPost

  /**
   book_ticket(): before locking cnt_mutex; before the booking; before unlocking; before
   locking cnt_mutex2; before the decrement; before the signal; before unlocking; finished.
   */
  datatype WPc = WLock | WBook | WUnlock | WLock2 | WCount | WSignal | WUnlock2 | WDone

  datatype Worker = Worker(x: int, pc: WPc)

  datatype Owner = Free | ByB | ByWorker(i: nat)

  datatype State = State(
    ps: nat, cs: nat,
    slots: seq<int>, inn: nat, out: nat,
    a: APc, b: BPc, workers: seq<Worker>,
    count: int, ticket: int,
    ticketMutex: Owner, countMutex: Owner,
    produced: seq<int>, order: seq<nat>)

  /** One action of A (writing `v` if that is its action), of B, of worker `i`, or a spurious wake-up of B. */
  datatype Event = StepA(v: int) | StepB | StepW(i: nat) | Spurious

  ghost predicate Enabled(s: State, e: Event) {
    match e
    case StepA(v) => (s.a == AStart ==> s.ps > 0) && -5 <= v <= 5 && s.inn < |s.slots|
    case StepB =>
      (match s.b
       case BTake => s.cs > 0
       case BLock => s.countMutex == Free
       case BWoken => s.countMutex == Free
       case BAsleep => false
       case BRead => s.out < |s.slots|
       case _ => true)
    case StepW(i) =>
      i < |s.workers| &&
      (match s.workers[i].pc
       case WLock => s.ticketMutex == Free
       case WLock2 => s.countMutex == Free
       case WDone => false
       case _ => true)
    case Spurious => s.b == BAsleep
  }

  /** Where the `n`-th item goes: the ring wraps round after ten. */
  function Slot(n: nat): (k: nat)
    ensures k < SLOTS
  {
    n % SLOTS
  }

  /** What one request does to the number of tickets; a negative request gives tickets back. */
  function Booked(ticket: int, x: int): int {
    if ticket - x >= 0 then Min(ticket - x, TICKETS) else ticket
  }

  ghost function ApplyA(s: State, v: int): State
    requires Enabled(s, StepA(v))
  {
    match s.a
    case AStart => s.(ps := s.ps - 1, a := AWrite)
    case AWrite => s.(slots := s.slots[s.inn := v], inn := Slot(s.inn + 1), a := APost, produced := s.produced + [v])
    case APost => s.(cs := s.cs + 1, a := AStart)
  }

  ghost function ApplyB(s: State): State
    requires Enabled(s, StepB)
  {
    match s.b
    case BTake => s.(cs := s.cs - 1, b := BLock)
    case BLock => s.(countMutex := ByB, b := BTest)
    case BTest => s.(b := if s.count >= FULL then BLoop else BAdmit)
    case BLoop => if s.count > RESUME then s.(countMutex := Free, b := BAsleep) else s.(b := BAdmit)
    case BWoken => s.(countMutex := ByB, b := BLoop)
    case BAdmit => s.(count := s.count + 1, b := BUnlock)
    case BUnlock => s.(countMutex := Free, b := BRead)
    case BRead => s.(b := BCreate(s.slots[s.out]))
    case BCreate(x) => s.(workers := s.workers + [Worker(x, WLock)], out := Slot(s.out + 1), b := BPost)
    case BPost => s.(ps := s.ps + 1, b := BTake)
  }

  /** Worker `i` goes on to `pc`. */
  ghost function Moved(s: State, i: nat, pc: WPc): State
    requires i < |s.workers|
  {
    s.(workers := s.workers[i := s.workers[i].(pc := pc)])
  }

  ghost function ApplyW(s: State, i: nat): State
    requires Enabled(s, StepW(i))
  {
    match s.workers[i].pc
    case WLock => Moved(s, i, WBook).(ticketMutex := ByWorker(i), order := s.order + [i])
    case WBook => Moved(s, i, WUnlock).(ticket := Booked(s.ticket, s.workers[i].x))
    case WUnlock => Moved(s, i, WLock2).(ticketMutex := Free)
    case WLock2 => Moved(s, i, WCount).(countMutex := ByWorker(i))
    case WCount => Moved(s, i, WSignal).(count := s.count - 1)
    case WSignal => Moved(s, i, WUnlock2).(b := if s.count <= RESUME && s.b == BAsleep then BWoken else s.b)
    case WUnlock2 => Moved(s, i, WDone).(countMutex := Free)
  }

  ghost function Apply(s: State, e: Event): State
    requires Enabled(s, e)
  {
    match e
    case StepA(v) => ApplyA(s, v)
    case StepB => ApplyB(s)
    case StepW(i) => ApplyW(s, i)
    case Spurious => s.(b := BWoken)
  }

  /** Both programs have initialised; nobody has moved yet. */
  ghost function Init(slots: seq<int>): State {
    State(SLOTS, 0, slots, 0, 0, AStart, BTake, [], 0, TICKETS, Free, Free, [], [])
  }

  // ----- runs -----

  ghost predicate Legal(s: State, es: seq<Event>)
    decreases |es|
  {
    es == [] || (Enabled(s, es[0]) && Legal(Apply(s, es[0]), es[1..]))
  }

  /** The states a run goes through: entry k is the state after k events. */
  ghost function Trace(s: State, es: seq<Event>): (tr: seq<State>)
    requires Legal(s, es)
    ensures |tr| == |es| + 1 && tr[0] == s
    decreases |es|
  {
    if es == [] then [s] else [s] + Trace(Apply(s, es[0]), es[1..])
  }

  lemma {:induction false} TraceStep(s: State, es: seq<Event>, k: nat)
    requires Legal(s, es) && k < |es|
    ensures Enabled(Trace(s, es)[k], es[k]) && Trace(s, es)[k + 1] == Apply(Trace(s, es)[k], es[k])
    decreases |es|
  {
    var s1, rest := Apply(s, es[0]), es[1..];
    if k == 0 {
      assert Trace(s, es)[1] == Trace(s1, rest)[0];
    } else {
      TraceStep(s1, rest, k - 1);
    }
  }
}
