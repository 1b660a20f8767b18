/**
 The two-level feedback scheduler of Pintos/Scheduler_changes/thread.c, on values.

 A thread is a tid.  Queue A (`ready_list`) holds threads with count >= 0, queue B
 (`ready_list_low`) threads with count < 0.  Every operation is a function from state to
 state; the class in Scheduler.dfy is proved to compute these functions in place.
 */
module SchedulerSpec {
  import opened Queues

  const TIME_SLICE: int := 4
  const TIME_SLICE_LOW: int := 8
  const WAITING_TIME: int := 24

  datatype Status = Running | Ready | Blocked | Dying

  datatype State = State(
    count: map<Tid, int>,
    status: map<Tid, Status>,
    a: seq<Tid>,
    b: seq<Tid>,
    cur: Tid,
    idle: Tid,
    ticks: nat)

  /** What can happen between two instructions of the kernel's clients. */
  datatype Event = Create(t: Tid) | Unblock(t: Tid) | Block | Yield | Exit | Tick

  // ----- the operations -----

  /** All members of `q` are known threads. */
  ghost predicate Keyed(q: seq<Tid>, count: map<Tid, int>) {
    forall i | 0 <= i < |q| :: q[i] in count
  }

  ghost predicate QueuesKnown(s: State) {
    && s.count.Keys == s.status.Keys
    && s.idle in s.count
    && Keyed(s.a, s.count) && Keyed(s.b, s.count)
  }

  /** Mark `t` running on a new slice; a thread coming from queue B starts waiting afresh. */
  ghost function Start(s: State, t: Tid): State
    requires t in s.count
  {
    s.(count := if s.count[t] < 0 then s.count[t := -1] else s.count,
       status := s.status[t := Running],
       cur := t,
       ticks := 0)
  }

  /** next_thread_to_run(): the front of A, else the front of B, else idle ... */
  ghost function Next(s: State): (t: Tid)
    requires QueuesKnown(s)
    ensures t in s.count
  {
    if s.a != [] then s.a[0] else if s.b != [] then s.b[0] else s.idle
  }

  /** ... which leaves its queue. */
  ghost function Popped(s: State): State {
    if s.a != [] then s.(a := s.a[1..]) else if s.b != [] then s.(b := s.b[1..]) else s
  }

  /** schedule() */
  ghost function Dispatch(s: State): State
    requires QueuesKnown(s)
  {
    Start(Popped(s), Next(s))
  }

  /** Make `t` ready, at the back of the queue its count names. */
  ghost function Enqueue(s: State, t: Tid): State
    requires t in s.count
  {
    var r := s.(status := s.status[t := Ready]);
    if s.count[t] < 0 then r.(b := s.b + [t]) else r.(a := s.a + [t])
  }

  /** A thread that has waited the full time leaves queue B at this tick. */
  ghost predicate Due(c: int) {
    c - 1 < -WAITING_TIME
  }

  /** The members of `q` that are due, in order. */
  ghost function Promoted(q: seq<Tid>, count: map<Tid, int>): seq<Tid>
    requires Keyed(q, count)
  {
    if q == [] then []
    else
      var n := |q| - 1;
      Promoted(q[..n], count) + if Due(count[q[n]]) then [q[n]] else []
  }

  /** The members of `q` that are not yet due, in order. */
  ghost function Waiting(q: seq<Tid>, count: map<Tid, int>): seq<Tid>
    requires Keyed(q, count)
  {
    if q == [] then []
    else
      var n := |q| - 1;
      Waiting(q[..n], count) + if Due(count[q[n]]) then [] else [q[n]]
  }

  ghost function Aged(c: int): int {
    if Due(c) then 0 else c - 1
  }

  /** One tick of waiting for all of queue B. */
  ghost function Age(s: State): State
    requires QueuesKnown(s)
  {
    s.(a := s.a + Promoted(s.b, s.count),
       b := Waiting(s.b, s.count),
       count := map t | t in s.count :: if t in s.b then Aged(s.count[t]) else s.count[t])
  }

  ghost predicate Known(s: State) {
    QueuesKnown(s) && s.cur in s.count
  }

  /** The running thread is charged one tick; a used-up slice of queue A costs it its place there. */
  ghost function Charged(s: State): State
    requires s.cur in s.count
  {
    var c := s.count[s.cur];
    s.(ticks := s.ticks + 1,
       count := if c >= 0 && s.ticks + 1 >= TIME_SLICE then s.count[s.cur := if c >= 1 then -1 else c + 1]
                else s.count)
  }

  /** thread_tick() but for the request for a yield. */
  ghost function TickState(s: State): State
    requires Known(s)
  {
    Charged(if s.count[s.cur] >= 0 then Age(s) else s)
  }

  /** Did thread_tick() ask for a yield on return from the interrupt? */
  ghost predicate TickYields(s: State)
    requires Known(s)
  {
    if s.count[s.cur] < 0 then s.a != [] || s.ticks + 1 >= TIME_SLICE_LOW
    else s.ticks + 1 >= TIME_SLICE
  }

  /** How the running thread gives up the processor, up to the call of schedule(). */
  ghost function Leaving(s: State, e: Event): State
    requires Known(s) && (e == Block || e == Yield || e == Exit)
  {
    if e == Block then s.(status := s.status[s.cur := Blocked])
    else if e == Exit then s.(count := s.count - {s.cur}, status := s.status - {s.cur})
    // idle yields without entering a queue
    else if s.cur == s.idle then s.(status := s.status[s.cur := Ready])
    else Enqueue(s, s.cur)
  }

  // ----- the invariant -----

  /** Ready threads other than idle wait in a queue. */
  ghost predicate Queued(s: State, t: Tid) {
    t in s.count && t in s.status && s.status[t] == Ready && t != s.idle
  }

  /**
   A thread is in exactly one queue, exactly once, when it is queued, and in none otherwise;
   the sign of count names the queue; count stays where an int8_t cannot wrap.
   */
  ghost predicate Placed(s: State, t: Tid) {
    && Occ(s.a, t) == (if Queued(s, t) && s.count[t] >= 0 then 1 else 0)
    && Occ(s.b, t) == (if Queued(s, t) && s.count[t] < 0 then 1 else 0)
    && (t in s.count && s.count[t] < -1 ==> Queued(s, t))
    && (t in s.count ==> -WAITING_TIME <= s.count[t] <= 1)
    && (t in s.status ==> s.status[t] != Dying)
  }

  ghost predicate Partition(s: State) {
    && s.count.Keys == s.status.Keys
    && s.idle in s.count
    && forall t {:trigger Placed(s, t)} :: Placed(s, t)
  }

  /** Longest wait, that is lowest count, first. */
  ghost predicate Ascending(q: seq<Tid>, count: map<Tid, int>)
    requires Keyed(q, count)
  {
    forall i, j | 0 <= i < j < |q| :: count[q[i]] <= count[q[j]]
  }

  ghost predicate SliceNotOver(s: State)
    requires Known(s)
  {
    s.ticks < if s.count[s.cur] >= 0 then TIME_SLICE else TIME_SLICE_LOW
  }

  ghost predicate OneRunning(s: State) {
    forall t | t in s.status :: s.status[t] == Running <==> t == s.cur
  }

  /** The invariant but for the running thread's slice, which ends inside a tick. */
  ghost predicate Steady(s: State) {
    Partition(s) && Known(s) && Ascending(s.b, s.count) && OneRunning(s)
  }

  ghost predicate Inv(s: State) {
    Steady(s) && SliceNotOver(s)
  }

  /** What holds just before Dispatch: as Steady, but nobody is running. */
  ghost predicate BetweenThreads(s: State) {
    && Partition(s) && QueuesKnown(s) && Ascending(s.b, s.count)
    && (forall t | t in s.status :: s.status[t] != Running)
  }
}
