/**
 Signals and the parent/child relation of Pintos/Added_Signals, on values.

 Thread structures of exited threads stay in `tcb` with status Dying: identities are never
 reused.  `creator` and `log` are history that the kernel does not store; no decision
 depends on them.
 */
module SignalSpec {
  import opened Queues

  const SIG_KILL: int := 0
  const SIG_UBLOCK: int := 1
  const SIG_USR: int := 2
  const SIG_CHLD: int := 3
  const SIG_CPU: int := 4

  const SIG_IGN: int := 0
  const SIG_DFL: int := 1

  const SIG_BLOCK: int := 0
  const SIG_UNBLOCK: int := 1
  const SIG_SETMASK: int := 2

  const TIME_SLICE: int := 4
  const NO_PARENT: Tid := -1

  /** A sigset_t holds eight bits, of which the signals use five. */
  ghost const ALL_BITS: set<int> := {0, 1, 2, 3, 4, 5, 6, 7}

  datatype Status = Running | Ready | Blocked | Dying

  /** struct thread; `accept` is sigign, whose set bits are the signals that are NOT ignored. */
  datatype Tcb = Tcb(
    status: Status, parent: Tid,
    accept: set<int>, mask: set<int>,
    start: int, maxlife: nat,
    child: int, dchild: int)

  /** struct thread_signal */
  datatype Entry = Entry(sig: int, sender: Tid, receiver: Tid)

  /**
   What happened to the signals: sent; taken off the list, ignored or not; reported by a
   handler, for SIG_CHLD with the true number `living` of live children at that time.
   */
  datatype Obs =
    | Sent(x: Entry)
    | Removed(x: Entry, accepted: bool)
    | UsrReport(t: Tid, sender: Tid)
    | ChldReport(t: Tid, created: int, alive: int, living: nat)

  datatype State = State(
    tcb: map<Tid, Tcb>,
    live: seq<Tid>,        // all_list
    ready: seq<Tid>,       // ready_list
    pending: seq<Entry>,   // sig_list
    cur: Tid, idle: Tid,
    ticks: int, clock: int, nextTid: Tid,
    creator: map<Tid, Tid>,
    log: seq<Obs>)

  ghost predicate Live(s: State, t: Tid) {
    t in s.tcb && s.tcb[t].status != Dying
  }

  ghost predicate HasStatus(s: State, t: Tid, st: Status) {
    t in s.tcb && s.tcb[t].status == st
  }

  /** The live threads whose parent field is `p`. */
  ghost function LiveKids(s: State, p: Tid): set<Tid> {
    set t | t in s.tcb && Live(s, t) && s.tcb[t].parent == p
  }

  // ----- the pending list -----

  ghost predicate SameKey(x: Entry, y: Entry) {
    x.sig == y.sig && x.receiver == y.receiver
  }

  /** Sending: an entry for the same receiver and signal only gets the new sender. */
  ghost function Post(q: seq<Entry>, x: Entry): seq<Entry> {
    if q == [] then [x]
    else if SameKey(q[0], x) then [x] + q[1..]
    else [q[0]] + Post(q[1..], x)
  }

  ghost function Send(s: State, x: Entry): State {
    s.(pending := Post(s.pending, x), log := s.log + [Sent(x)])
  }

  // ----- delivery at a context switch -----

  /** Does the receiver not ignore the signal? */
  ghost predicate Admitted(s: State, x: Entry) {
    x.receiver in s.tcb && x.sig in s.tcb[x.receiver].accept
  }

  ghost function Removal(s: State, x: Entry): Obs {
    Removed(x, Admitted(s, x))
  }

  ghost function EntryRemoved(s: State, e: nat): State
    requires e < |s.pending|
  {
    s.(pending := s.pending[..e] + s.pending[e + 1..], log := s.log + [Removal(s, s.pending[e])])
  }

  /** All receivers are known thread structures. */
  ghost predicate Addressed(s: State) {
    s.cur in s.tcb && forall i | 0 <= i < |s.pending| :: s.pending[i].receiver in s.tcb
  }

  /** SIG_UBLOCK goes to any thread that lets it through; the others only to the running thread. */
  ghost predicate Deliverable(s: State, x: Entry)
    requires s.cur in s.tcb && x.receiver in s.tcb
  {
    if x.sig == SIG_UBLOCK then
      SIG_UBLOCK !in s.tcb[x.receiver].mask && SIG_UBLOCK in s.tcb[x.receiver].accept
    else
      x.receiver == s.cur && (x.sig == SIG_KILL || x.sig !in s.tcb[s.cur].mask)
  }

  /** Receivers of the entries of `q` are known. */
  ghost predicate Receivable(s: State, q: seq<Entry>) {
    s.cur in s.tcb && forall i | 0 <= i < |q| :: q[i].receiver in s.tcb
  }

  /** The entries of `q` that stay pending, in order. */
  ghost function Kept(s: State, q: seq<Entry>): seq<Entry>
    requires Receivable(s, q)
  {
    if q == [] then []
    else
      var n := |q| - 1;
      Kept(s, q[..n]) + if Deliverable(s, q[n]) then [] else [q[n]]
  }

  /** The entries of `q` that are delivered now, in order. */
  ghost function Taken(s: State, q: seq<Entry>): seq<Entry>
    requires Receivable(s, q)
  {
    if q == [] then []
    else
      var n := |q| - 1;
      Taken(s, q[..n]) + if Deliverable(s, q[n]) then [q[n]] else []
  }

  /** The blocked threads that delivered SIG_UBLOCKs of `q` wake, in order. */
  ghost function Woken(s: State, q: seq<Entry>): seq<Tid>
    requires Receivable(s, q)
  {
    if q == [] then []
    else
      var n, x := |q| - 1, q[|q| - 1];
      var w := Woken(s, q[..n]);
      w + if x.sig == SIG_UBLOCK && Deliverable(s, x) && s.tcb[x.receiver].status == Blocked && x.receiver !in w
          then [x.receiver] else []
  }

  /** The signals the running thread itself receives from `q`: the loop's part of `sigd`. */
  ghost function Caught(s: State, q: seq<Entry>): set<int>
    requires Receivable(s, q)
  {
    if q == [] then {}
    else
      var n, x := |q| - 1, q[|q| - 1];
      Caught(s, q[..n]) + if x.sig != SIG_UBLOCK && Deliverable(s, x) then {x.sig} else {}
  }

  /** The sender reported for SIG_USR. */
  ghost function UsrSender(s: State, q: seq<Entry>): Tid
    requires Receivable(s, q)
  {
    if q == [] then 0
    else
      var n, x := |q| - 1, q[|q| - 1];
      if x.sig == SIG_USR && Deliverable(s, x) then x.sender else UsrSender(s, q[..n])
  }

  ghost function RemovedAll(s: State, q: seq<Entry>): seq<Obs> {
    if q == [] then [] else RemovedAll(s, q[..|q| - 1]) + [Removal(s, q[|q| - 1])]
  }

  ghost function WakeAll(s: State, w: seq<Tid>): map<Tid, Tcb> {
    map t | t in s.tcb :: if t in w then s.tcb[t].(status := Ready) else s.tcb[t]
  }

  /** The loop of handleSignals() over the first entries `q` of the list, `rest` still ahead. */
  ghost function ScannedTo(s: State, q: seq<Entry>, rest: seq<Entry>): State
    requires Receivable(s, q)
  {
    s.(pending := Kept(s, q) + rest,
       ready := s.ready + Woken(s, q),
       tcb := WakeAll(s, Woken(s, q)),
       log := s.log + RemovedAll(s, Taken(s, q)))
  }

  ghost function Scanned(s: State): State
    requires Addressed(s)
  {
    ScannedTo(s, s.pending, [])
  }

  /** Has the thread outlived the lifetime set for it? */
  ghost predicate Expired(s: State, t: Tid)
    requires t in s.tcb
  {
    s.tcb[t].maxlife != 0 && s.clock - s.tcb[t].start > s.tcb[t].maxlife
  }

  /** `sigd`: what the running thread receives now. */
  ghost function Received(s: State): set<int>
    requires Addressed(s)
  {
    Caught(s, s.pending) + if Expired(s, s.cur) && SIG_CPU !in s.tcb[s.cur].mask then {SIG_CPU} else {}
  }

  /** `calls`: the signals whose handlers run. */
  ghost function Calls(s: State): set<int>
    requires Addressed(s)
  {
    Received(s) * s.tcb[s.cur].accept
  }

  /** Delivery ends the running thread. */
  ghost predicate Dies(s: State)
    requires Addressed(s)
  {
    SIG_CPU in Calls(s) || SIG_KILL in Received(s)
  }

  /** USR_handler() */
  ghost function UsrHandled(s: State, sender: Tid): State {
    s.(log := s.log + [UsrReport(s.cur, sender)])
  }

  /** CHILD_handler() */
  ghost function ChldHandled(s: State): State
    requires s.cur in s.tcb
  {
    var c := s.tcb[s.cur];
    s.(tcb := s.tcb[s.cur := c.(dchild := c.dchild + 1)],
       log := s.log + [ChldReport(s.cur, c.child, c.child - (c.dchild + 1), |LiveKids(s, s.cur)|)])
  }

  /** The handlers that let the thread live on. */
  ghost function HandlersRun(s: State, calls: set<int>, sender: Tid): State
    requires s.cur in s.tcb
  {
    var u := if SIG_USR in calls then UsrHandled(s, sender) else s;
    if SIG_CHLD in calls then ChldHandled(u) else u
  }

  /** handleSignals() but for the handlers that end the thread. */
  ghost function Handled(s: State): State
    requires Addressed(s)
  {
    HandlersRun(Scanned(s), Calls(s), UsrSender(s, s.pending))
  }

  // ----- threads -----

  function Without(q: seq<Tid>, t: Tid): seq<Tid> {
    if q == [] then []
    else if q[|q| - 1] == t then Without(q[..|q| - 1], t)
    else Without(q[..|q| - 1], t) + [q[|q| - 1]]
  }

  /** thread_exit(): the running thread dies and its children are orphaned ... */
  ghost function Orphaned(s: State): State {
    var t := s.cur;
    s.(tcb := map x | x in s.tcb ::
                if x == t then s.tcb[x].(status := Dying)
                else if s.tcb[x].status != Dying && s.tcb[x].parent == t then s.tcb[x].(parent := NO_PARENT)
                else s.tcb[x],
       live := Without(s.live, t))
  }

  /** ... and its parent, if it has one, is sent SIG_CHLD. */
  ghost function Terminated(s: State): State
    requires s.cur in s.tcb
  {
    var p := s.tcb[s.cur].parent;
    if Live(s, p) then Send(Orphaned(s), Entry(SIG_CHLD, NO_PARENT, p)) else Orphaned(s)
  }

  ghost function Next(s: State): Tid {
    if s.ready != [] then s.ready[0] else s.idle
  }

  /** schedule() and thread_schedule_tail() up to the delivery of signals. */
  ghost function Dispatch(s: State): State
    requires Next(s) in s.tcb
  {
    var t := Next(s);
    s.(ready := if s.ready != [] then s.ready[1..] else [],
       tcb := s.tcb[t := s.tcb[t].(status := Running)],
       cur := t,
       ticks := 0)
  }

  /** One thread structure rewritten. */
  ghost function Updated(s: State, t: Tid, c: Tcb): State {
    s.(tcb := s.tcb[t := c])
  }

  /** How the running thread gives up the processor, up to the call of schedule(). */
  ghost function Blocking(s: State): State
    requires s.cur in s.tcb
  {
    Updated(s, s.cur, s.tcb[s.cur].(status := Blocked))
  }

  ghost function Yielding(s: State): State
    requires s.cur in s.tcb
  {
    s.(tcb := s.tcb[s.cur := s.tcb[s.cur].(status := Ready)],
       ready := if s.cur == s.idle then s.ready else s.ready + [s.cur])
  }

  /** thread_unblock() */
  ghost function Unblocked(s: State, t: Tid): State
    requires t in s.tcb
  {
    s.(tcb := s.tcb[t := s.tcb[t].(status := Ready)], ready := s.ready + [t])
  }

  /** thread_create(): the new thread accepts every signal and masks none. */
  ghost function Created(s: State): State
    requires s.cur in s.tcb
  {
    var c := s.tcb[s.cur];
    s.(tcb := s.tcb[s.cur := c.(child := c.child + 1)]
                   [s.nextTid := Tcb(Ready, s.cur, ALL_BITS, {}, s.clock, 0, 0, 0)],
       live := s.live + [s.nextTid],
       ready := s.ready + [s.nextTid],
       nextTid := s.nextTid + 1,
       creator := s.creator[s.nextTid := s.cur])
  }

  // ----- the calls -----

  /** Does kill() accept the signal?  SIG_KILL is for direct children only. */
  ghost predicate Accepts(s: State, tid: Tid, sig: int) {
    && (sig == SIG_KILL || sig == SIG_UBLOCK || sig == SIG_USR)
    && Live(s, tid)
    && (sig == SIG_KILL ==> s.tcb[tid].parent == s.cur)
  }

  /** kill() */
  ghost function Killed(s: State, tid: Tid, sig: int): State {
    if Accepts(s, tid, sig) then Send(s, Entry(sig, s.cur, tid)) else s
  }

  /** Signal() on the set of accepted signals; numbers outside the byte change nothing. */
  ghost function Disposed(accept: set<int>, sig: int, action: int): set<int> {
    if sig !in ALL_BITS then accept
    else if action == SIG_DFL then accept + {sig}
    else if action == SIG_IGN then accept - {sig}
    else accept
  }

  /** sigprocmask() on the mask. */
  ghost function Masked(mask: set<int>, how: int, op: set<int>): set<int> {
    if how == SIG_BLOCK then mask + op
    else if how == SIG_UNBLOCK then mask - op
    else if how == SIG_SETMASK then op
    else mask
  }
}
