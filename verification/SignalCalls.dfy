/**
 What each call of the kernel with signals does, in the words of the C code and with its
 numbers: who may be sent what, what masks and dispositions become, who runs next and for how
 long, and when a lifetime ends.
 */
module SignalCalls {
  import opened Basics
  import opened Queues
  import opened SignalSpec
  import opened SignalPending
  import opened SignalInvariant
  import opened SignalSteps
  import opened SignalChain
  import opened SignalMasking

  // ----- sending -----

  /** SIG_UBLOCK and SIG_USR to any live thread, SIG_KILL to the caller's own children. */
  ghost predicate Permitted(s: State, tid: Tid, sig: int) {
    && tid in s.live && tid in s.tcb
    && (sig == 1 || sig == 2 || (sig == 0 && s.tcb[tid].parent == s.cur))
  }

  /** The caller's signal is pending for `tid`, and all others are as before. */
  ghost predicate SentOnly(s: State, r: State, tid: Tid, sig: int) {
    && Lookup(r.pending, sig, tid) == Some(s.cur)
    && (forall g, t {:trigger Lookup(r.pending, g, t)} ::
          g != sig || t != tid ==> Lookup(r.pending, g, t) == Lookup(s.pending, g, t))
    && r == s.(pending := r.pending, log := r.log)
  }

  lemma LiveListed(s: State, t: Tid)
    requires Inv(s)
    ensures Live(s, t) <==> t in s.live
  {
    assert Listed(s, t);
    OccFind(s.live, t);
  }

  /** kill(): a permitted signal is sent, any other changes nothing. */
  lemma KillSends(s: State, tid: Tid, sig: int)
    requires Inv(s) && s.cur != s.idle
    ensures var r := Apply(s, Kill(tid, sig)); if Permitted(s, tid, sig) then SentOnly(s, r, tid, sig) else r == s
    ensures Permitted(s, tid, sig) <==> Accepts(s, tid, sig)
  {
    LiveListed(s, tid);
    if Permitted(s, tid, sig) {
      var x := Entry(sig, s.cur, tid);
      forall g, t ensures Lookup(Post(s.pending, x), g, t) ==
                          if g == sig && t == tid then Some(s.cur) else Lookup(s.pending, g, t) {
        assert KeyOcc(s.pending, g, t) <= 1;
        PostLookup(s.pending, x, g, t);
      }
    }
  }

  /** A signal that is not pending goes to the end of the list ... */
  lemma {:induction false} NewGoesLast(q: seq<Entry>, x: Entry)
    requires forall i | 0 <= i < |q| :: !SameKey(q[i], x)
    ensures Post(q, x) == q + [x]
  {
    if q != [] {
      NewGoesLast(q[1..], x);
      assert q == [q[0]] + q[1..];
    }
  }

  /** ... and one that is keeps its place. */
  lemma {:induction false} OldKeepsPlace(q: seq<Entry>, x: Entry, i: nat)
    requires i < |q| && SameKey(q[i], x) && forall j | 0 <= j < i :: !SameKey(q[j], x)
    ensures Post(q, x) == q[i := x]
  {
    if i > 0 {
      OldKeepsPlace(q[1..], x, i - 1);
      assert q[i := x] == [q[0]] + q[1..][i - 1 := x];
    }
  }

  // ----- masks, dispositions, lifetimes -----

  /** Only the caller's own structure changes, to `c`. */
  ghost predicate OwnOnly(s: State, r: State, c: Tcb) {
    r == s.(tcb := s.tcb[s.cur := c])
  }

  /** sigprocmask(): blocking adds to the mask, unblocking takes away, setting replaces. */
  lemma ProcMaskSets(s: State, how: int, op: set<int>)
    requires Inv(s) && s.cur != s.idle
    ensures var r, c := Apply(s, ProcMask(how, op)), s.tcb[s.cur];
            && (how == 0 ==> OwnOnly(s, r, c.(mask := c.mask + op)))
            && (how == 1 ==> OwnOnly(s, r, c.(mask := c.mask - op)))
            && (how == 2 ==> OwnOnly(s, r, c.(mask := op)))
            && (how != 0 && how != 1 && how != 2 ==> r == s)
  {
    assert s.tcb[s.cur := s.tcb[s.cur]] == s.tcb;
  }

  /** Signal(): SIG_DFL makes exactly this signal accepted, SIG_IGN exactly not. */
  lemma SignalSets(s: State, sig: int, action: int)
    requires Inv(s) && s.cur != s.idle
    ensures var r, c := Apply(s, Event.Signal(sig, action)), s.tcb[s.cur];
            && (0 <= sig < 8 && action == 1 ==> OwnOnly(s, r, c.(accept := c.accept + {sig})))
            && (0 <= sig < 8 && action == 0 ==> OwnOnly(s, r, c.(accept := c.accept - {sig})))
            && (!(0 <= sig < 8) || (action != 0 && action != 1) ==> r == s)
  {
    assert s.tcb[s.cur := s.tcb[s.cur]] == s.tcb;
  }

  /** setlifetime() */
  lemma LifetimeSets(s: State, life: nat)
    requires Inv(s) && s.cur != s.idle
    ensures OwnOnly(s, Apply(s, SetLifetime(life)), s.tcb[s.cur].(maxlife := life))
  {
  }

  /** After blocking a set, whatever of it is pending for the caller is held back. */
  lemma BlockHoldsBack(s: State, op: set<int>, sig: int)
    requires Inv(s) && s.cur != s.idle && sig in op && Maskable(sig) && Lookup(s.pending, sig, s.cur).Some?
    ensures HeldBack(Apply(s, ProcMask(SIG_BLOCK, op)), sig, s.cur)
  {
    ProcMaskSets(s, SIG_BLOCK, op);
  }

  /** An ignored signal has no handler run, a received one that is not ignored has. */
  lemma DispositionDecides(s: State, sig: int)
    requires Inv(s) && (sig == SIG_USR || sig == SIG_CHLD)
    requires Lookup(s.pending, sig, s.cur).Some? && sig !in s.tcb[s.cur].mask
    ensures Addressed(s) && (sig in Calls(s) <==> sig in s.tcb[s.cur].accept)
  {
    UnmaskedIsDelivered(s, sig);
  }

  // ----- creating, waking -----

  /** thread_create(): the new thread in all its fields, last in both lists; its creator counts it. */
  lemma CreateMakes(s: State)
    requires Inv(s) && s.cur != s.idle
    ensures s.nextTid !in s.tcb
    ensures var r, t, c := Apply(s, Create), s.nextTid, s.tcb[s.cur];
            && r.tcb == s.tcb[s.cur := c.(child := c.child + 1)]
                            [t := Tcb(Ready, s.cur, {0, 1, 2, 3, 4, 5, 6, 7}, {}, s.clock, 0, 0, 0)]
            && r.live == s.live + [t] && r.ready == s.ready + [t] && r.nextTid == t + 1
            && r.pending == s.pending && r.cur == s.cur && r.ticks == s.ticks && r.clock == s.clock
  {
    assert Listed(s, s.nextTid);
  }

  /** thread_unblock(): ready, at the back of the ready list; nothing else changes. */
  lemma UnblockWakes(s: State, t: Tid)
    requires Inv(s) && t in s.tcb && s.tcb[t].status == Blocked && t != s.idle
    ensures Apply(s, Unblock(t)) ==
            s.(tcb := s.tcb[t := s.tcb[t].(status := Ready)], ready := s.ready + [t])
  {
  }

  // ----- who runs next -----

  /** Of this ready list the front runs, or idle if it is empty. */
  ghost predicate FrontRuns(ready: seq<Tid>, d: State) {
    if ready != [] then [d.cur] + d.ready == ready else d.ready == [] && d.cur == d.idle
  }

  /** Of the threads only two change, in status: the one that left to `st`, the next one to running. */
  ghost predicate OnlyStatus(s: State, d: State, st: Status) {
    d.tcb.Keys == s.tcb.Keys &&
    forall x | x in s.tcb ::
      d.tcb[x] == s.tcb[x].(status := if x == d.cur then Running else if x == s.cur then st else s.tcb[x].status)
  }

  /** A thread meets its signals at the start of a new slice; lists, signals and clock are as they were. */
  ghost predicate Handover(s: State, d: State) {
    && d.ticks == 0 && d.pending == s.pending && d.live == s.live && d.clock == s.clock
    && d.idle == s.idle && d.nextTid == s.nextTid && d.creator == s.creator && d.log == s.log
  }

  lemma YieldingParts(s: State)
    requires s.cur in s.tcb && Next(Yielding(s)) in s.tcb
    ensures var d := Dispatch(Yielding(s));
            && FrontRuns(if s.cur != s.idle then s.ready + [s.cur] else s.ready, d)
            && OnlyStatus(s, d, Ready) && Handover(s, d)
  {
  }

  /** A yield: ready at the back of the list, the front runs, and then signals are delivered. */
  lemma YieldGoesBehind(s: State) returns (d: State)
    requires Inv(s) && s.cur != s.idle
    ensures Inv(d) && Apply(s, Yield) == Settle(d)
    ensures FrontRuns(s.ready + [s.cur], d) && OnlyStatus(s, d, Ready) && Handover(s, d)
  {
    YieldingInv(s);
    DispatchInv(Yielding(s));
    YieldingParts(s);
    d := Dispatch(Yielding(s));
  }

  /** A block: blocked and in no list, unless it is idle and nobody else can run. */
  lemma BlockSleeps(s: State) returns (d: State)
    requires Inv(s)
    ensures Inv(d) && Apply(s, Block) == Settle(d)
    ensures FrontRuns(s.ready, d) && OnlyStatus(s, d, Blocked) && Handover(s, d)
    ensures d.cur == s.cur ==> s.cur == s.idle
  {
    BlockingInv(s);
    DispatchInv(Blocking(s));
    NextReady(Blocking(s));
    BlockingParts(s);
    d := Dispatch(Blocking(s));
  }

  lemma BlockingParts(s: State)
    requires s.cur in s.tcb && Next(Blocking(s)) in s.tcb
    ensures var d := Dispatch(Blocking(s)); FrontRuns(s.ready, d) && OnlyStatus(s, d, Blocked) && Handover(s, d)
  {
  }

  /** An exit: dying, off all_list, its live children orphaned, its live parent told; the front runs. */
  lemma ExitLeaves(s: State) returns (d: State)
    requires Inv(s) && s.cur != s.idle
    ensures Inv(d) && Apply(s, Exit) == Settle(d) && FrontRuns(s.ready, d) && d.ticks == 0 && d.clock == s.clock
    ensures d.cur != s.cur && d.tcb.Keys == s.tcb.Keys && d.tcb[s.cur] == s.tcb[s.cur].(status := Dying)
    ensures forall x | x in s.tcb && x != s.cur ::
              d.tcb[x] == s.tcb[x].(status := if x == d.cur then Running else s.tcb[x].status,
                                    parent := if Live(s, x) && s.tcb[x].parent == s.cur then NO_PARENT
                                              else s.tcb[x].parent)
    ensures var p := s.tcb[s.cur].parent;
            d.pending == if p in s.live then Post(s.pending, Entry(SIG_CHLD, NO_PARENT, p)) else s.pending
  {
    LiveListed(s, s.tcb[s.cur].parent);
    ExitHandsOver(s);
    ExitParts(s);
    d := Dispatch(Terminated(s));
  }

  lemma ExitHandsOver(s: State)
    requires Inv(s) && s.cur != s.idle
    ensures var x := Terminated(s);
            && Next(x) in s.tcb && Next(x) in x.tcb && Next(x) != s.cur
            && Inv(Dispatch(x)) && Apply(s, Exit) == Settle(Dispatch(x))
  {
    TerminatedInv(s);
    var x := Terminated(s);
    DispatchInv(x);
    NextReady(x);
    assert x.tcb.Keys == s.tcb.Keys;
    assert Apply(s, Exit) == Switch(x);
  }

  lemma ExitParts(s: State)
    requires s.cur in s.tcb && Next(Terminated(s)) in s.tcb && Next(Terminated(s)) != s.cur
    ensures var d, p := Dispatch(Terminated(s)), s.tcb[s.cur].parent;
            && FrontRuns(s.ready, d) && d.ticks == 0 && d.clock == s.clock
            && d.tcb.Keys == s.tcb.Keys && d.tcb[s.cur] == s.tcb[s.cur].(status := Dying)
            && d.pending == (if Live(s, p) then Post(s.pending, Entry(SIG_CHLD, NO_PARENT, p)) else s.pending)
            && forall x | x in s.tcb && x != s.cur ::
                 d.tcb[x] == s.tcb[x].(status := if x == d.cur then Running else s.tcb[x].status,
                                       parent := if Live(s, x) && s.tcb[x].parent == s.cur then NO_PARENT
                                                 else s.tcb[x].parent)
  {
  }

  /** Before the fourth tick only time passes. */
  lemma TickPasses(s: State)
    requires Inv(s) && s.ticks + 1 < 4
    ensures Apply(s, Tick) == s.(clock := s.clock + 1, ticks := s.ticks + 1)
  {
  }

  /** At the fourth tick the running thread goes behind the ready list; idle goes nowhere. */
  lemma FourthTickSwitches(s: State) returns (d: State)
    requires Inv(s) && s.ticks + 1 >= 4
    ensures Inv(d) && Apply(s, Tick) == Settle(d)
    ensures FrontRuns(if s.cur != s.idle then s.ready + [s.cur] else s.ready, d)
    ensures OnlyStatus(s, d, Ready) && Handover(s.(clock := s.clock + 1), d)
  {
    TickedInv(s);
    var r := Ticked(s);
    assert r.tcb == s.tcb && r.cur == s.cur && r.idle == s.idle && r.ready == s.ready;
    YieldingInv(r);
    DispatchInv(Yielding(r));
    YieldingParts(r);
    d := Dispatch(Yielding(r));
    assert Apply(s, Tick) == Switch(Yielding(r));
  }

  /** The chain of deliveries leaves the last thread on its new slice, and settings and clock alone. */
  lemma {:induction false} SettleKeeps(s: State)
    requires Inv(s)
    ensures SameThreads(s, Settle(s)) && (s.ticks == 0 ==> Settle(s).ticks == 0)
    decreases |s.live|
  {
    HandledInv(s);
    HandledKeeps(s);
    if Dies(s) {
      ChainKeeps(s);
      SettleKeeps(NextInChain(s));
    }
  }

  /** Every thread starts on a new slice, whatever event brings it to the processor. */
  lemma NewSlice(s: State, e: Event)
    requires Inv(s) && Enabled(s, e)
    ensures e == Block || e == Yield || e == Exit || (e == Tick && s.ticks + 1 >= 4) ==> Apply(s, e).ticks == 0
    ensures Apply(s, e).cur != s.cur ==> Apply(s, e).ticks == 0
  {
    match e
    case Block =>
      var d := BlockSleeps(s);
      SettleKeeps(d);
    case Yield =>
      var d := YieldGoesBehind(s);
      SettleKeeps(d);
    case Exit =>
      var d := ExitLeaves(s);
      SettleKeeps(d);
    case Tick =>
      if s.ticks + 1 >= 4 {
        var d := FourthTickSwitches(s);
        SettleKeeps(d);
      }
    case _ =>
  }

  // ----- lifetimes over runs -----

  /** Nobody's settings change but by its own calls; the clock counts the ticks. */
  lemma SettingsAfter(s: State, e: Event, t: Tid)
    requires Inv(s) && Enabled(s, e) && t in s.tcb
    ensures var r := Apply(s, e);
            && t in r.tcb && r.tcb[t].start == s.tcb[t].start && r.clock == s.clock + One(e == Tick)
            && (!(e.SetLifetime? && t == s.cur) ==> r.tcb[t].maxlife == s.tcb[t].maxlife)
            && (!(e.ProcMask? && t == s.cur) ==> r.tcb[t].mask == s.tcb[t].mask)
            && (!(e.Signal? && t == s.cur) ==> r.tcb[t].accept == s.tcb[t].accept)
  {
    match e
    case Create => CreateMakes(s);
    case Block => LeaveSettings(s, e, t);
    case Yield => LeaveSettings(s, e, t);
    case Exit => ExitSettings(s, t);
    case Tick => TickSettings(s, t);
    case _ =>
  }

  lemma ExitSettings(s: State, t: Tid)
    requires Inv(s) && s.cur != s.idle && t in s.tcb
    ensures var r := Apply(s, Exit); t in r.tcb && SameSettings(s.tcb[t], r.tcb[t]) && r.clock == s.clock
  {
    var d := ExitLeaves(s);
    assert SameSettings(s.tcb[t], d.tcb[t]);
    SettleKeeps(d);
    assert SameSettings(d.tcb[t], Settle(d).tcb[t]);
  }

  lemma TickSettings(s: State, t: Tid)
    requires Inv(s) && t in s.tcb
    ensures var r := Apply(s, Tick); t in r.tcb && SameSettings(s.tcb[t], r.tcb[t]) && r.clock == s.clock + 1
  {
    if s.ticks + 1 >= 4 {
      var d := FourthTickSwitches(s);
      assert SameSettings(s.tcb[t], d.tcb[t]);
      SettleKeeps(d);
      assert SameSettings(d.tcb[t], Settle(d).tcb[t]);
    } else {
      TickPasses(s);
    }
  }

  lemma LeaveSettings(s: State, e: Event, t: Tid)
    requires Inv(s) && Enabled(s, e) && t in s.tcb && (e == Block || e == Yield)
    ensures var r := Apply(s, e); t in r.tcb && SameSettings(s.tcb[t], r.tcb[t]) && r.clock == s.clock
  {
    var d;
    if e == Block {
      d := BlockSleeps(s);
    } else {
      d := YieldGoesBehind(s);
    }
    assert SameSettings(s.tcb[t], d.tcb[t]);
    SettleKeeps(d);
    assert SameSettings(d.tcb[t], Settle(d).tcb[t]);
  }

  ghost function TicksIn(es: seq<Event>): nat {
    if es == [] then 0 else One(es[0] == Tick) + TicksIn(es[1..])
  }

  lemma {:induction false} ClockCounts(s: State, es: seq<Event>, t: Tid)
    requires Inv(s) && Legal(s, es) && t in s.tcb
    ensures var r := Run(s, es);
            t in r.tcb && r.tcb[t].start == s.tcb[t].start && r.clock == s.clock + TicksIn(es)
    decreases |es|
  {
    if es != [] {
      SettingsAfter(s, es[0], t);
      ClockCounts(Apply(s, es[0]), es[1..], t);
    }
  }

  /** A thread has outlived its limit exactly if it has one and more ticks have passed since its creation. */
  lemma LifetimeIsTicksSinceCreation(s: State, es: seq<Event>)
    requires Inv(s) && s.cur != s.idle && Legal(Apply(s, Create), es)
    ensures var r, t := Run(Apply(s, Create), es), s.nextTid;
            t in r.tcb && (Expired(r, t) <==> r.tcb[t].maxlife > 0 && TicksIn(es) > r.tcb[t].maxlife)
  {
    CreateMakes(s);
    ClockCounts(Apply(s, Create), es, s.nextTid);
  }

  /** Without a SIG_KILL a dispatched thread dies exactly of its age, unless it masks or ignores SIG_CPU. */
  lemma DiesOfAge(s: State)
    requires Inv(s) && KeyOcc(s.pending, SIG_KILL, s.cur) == 0
    ensures var c := s.tcb[s.cur];
            !Live(Settle(s), s.cur) <==>
              c.maxlife > 0 && s.clock - c.start > c.maxlife && SIG_CPU !in c.mask && SIG_CPU in c.accept
  {
    DiesIffDoomed(s);
    ChainClosedForm(s);
    assert HasStatus(s, s.cur, Running);
    if Doomed(s, s.cur) {
      assert Line(s)[..Lead(s, Line(s))][0] == s.cur;
    }
  }

  // ----- unblocking a signal delivers it -----

  /** `t` is away from the processor in the run, and has it at the end. */
  ghost predicate AwayUntilEnd(s: State, es: seq<Event>, t: Tid)
    requires Inv(s) && Legal(s, es)
    decreases |es|
  {
    if es == [] then s.cur == t else s.cur != t && AwayUntilEnd(Apply(s, es[0]), es[1..], t)
  }

  /** Whenever an event puts a new thread on the processor, nothing is due for it. */
  lemma NewRunnerHasNothingDue(s: State, e: Event)
    requires Inv(s) && Enabled(s, e) && Apply(s, e).cur != s.cur
    ensures NothingDue(Apply(s, e))
  {
    match e
    case Block =>
      var d := BlockSleeps(s);
      SettledHasNothingDue(d);
    case Yield =>
      var d := YieldGoesBehind(s);
      SettledHasNothingDue(d);
    case Exit =>
      var d := ExitLeaves(s);
      SettledHasNothingDue(d);
    case Tick =>
      if s.ticks + 1 >= 4 {
        var d := FourthTickSwitches(s);
        SettledHasNothingDue(d);
      }
    case _ =>
  }

  /** A thread that does not mask a signal comes back to the processor with none of it pending. */
  lemma {:induction false} ReturnsWithout(s: State, es: seq<Event>, t: Tid, sig: int)
    requires Inv(s) && Legal(s, es) && es != [] && AwayUntilEnd(s, es, t)
    requires t in s.tcb && sig !in s.tcb[t].mask && (sig == SIG_USR || sig == SIG_CHLD)
    ensures KeyOcc(Run(s, es).pending, sig, t) == 0
    decreases |es|
  {
    var s1, rest := Apply(s, es[0]), es[1..];
    SettingsAfter(s, es[0], t);
    if rest == [] {
      NewRunnerHasNothingDue(s, es[0]);
      assert KeyOcc(s1.pending, sig, s1.cur) == 0;
    } else {
      ReturnsWithout(s1, rest, t, sig);
    }
  }

  /**
   After SIG_UNBLOCK of a set with SIG_USR or SIG_CHLD in it the caller's mask lets the signal
   in; once the caller has left the processor, it does not come back with one pending.
   */
  lemma UnblockDelivers(s: State, op: set<int>, sig: int, e: Event, es: seq<Event>)
    requires Inv(s) && s.cur != s.idle && sig in op && (sig == SIG_USR || sig == SIG_CHLD)
    requires var r := Apply(s, ProcMask(SIG_UNBLOCK, op));
             Enabled(r, e) && !e.ProcMask? && Legal(Apply(r, e), es) && AwayUntilEnd(Apply(r, e), es, s.cur) && es != []
    ensures var r := Apply(s, ProcMask(SIG_UNBLOCK, op));
            && sig !in r.tcb[s.cur].mask
            && KeyOcc(Run(Apply(r, e), es).pending, sig, s.cur) == 0
  {
    ProcMaskSets(s, SIG_UNBLOCK, op);
    var r := Apply(s, ProcMask(SIG_UNBLOCK, op));
    SettingsAfter(r, e, s.cur);
    ReturnsWithout(Apply(r, e), es, s.cur, sig);
  }

  /** If nobody else is ready, the caller's next yield delivers it at once. */
  lemma YieldDelivers(s: State, sig: int)
    requires Inv(s) && s.cur != s.idle && s.ready == [] && sig !in s.tcb[s.cur].mask
    requires (sig == SIG_USR || sig == SIG_CHLD) && Lookup(s.pending, sig, s.cur).Some?
    ensures Lookup(Apply(s, Yield).pending, sig, s.cur) == None
  {
    var d := YieldGoesBehind(s);
    assert d.cur == s.cur by {
      assert ([d.cur] + d.ready)[0] == (s.ready + [s.cur])[0];
    }
    UnmaskedIsDelivered(d, sig);
  }
}
