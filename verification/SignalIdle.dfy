/**
 The idle thread can be put on the ready list: exactly when, over every event and run, and a
 run in which it is.
 */
module SignalIdle {
  import opened Queues
  import opened SignalSpec
  import opened SignalPending
  import opened SignalInvariant
  import opened SignalChain
  import opened SignalSteps

  /** A SIG_UBLOCK that idle lets through is pending for it. */
  ghost predicate IdleCalled(s: State) {
    && s.idle in s.tcb && SIG_UBLOCK !in s.tcb[s.idle].mask && SIG_UBLOCK in s.tcb[s.idle].accept
    && KeyOcc(s.pending, SIG_UBLOCK, s.idle) > 0
  }

  /** A delivery puts idle on the ready list exactly if it is blocked and a SIG_UBLOCK it lets through is pending. */
  lemma IdleWakesWhen(s: State)
    requires Inv(s)
    ensures Addressed(s)
    ensures s.idle in Scanned(s).ready <==> s.idle in s.ready || (HasStatus(s, s.idle, Blocked) && IdleCalled(s))
  {
    InvAddressed(s);
    var w := Woken(s, s.pending);
    WokenOcc(s, s.pending, s.idle);
    OccAppend(s.ready, w, s.idle);
    OccFind(s.ready, s.idle);
    OccFind(s.ready + w, s.idle);
  }

  // ----- events -----

  lemma {:induction false} LeadStopsAt(s: State, q: seq<Tid>, i: nat)
    requires i < |q| && !Doomed(s, q[i])
    ensures Lead(s, q) <= i
  {
    if i > 0 {
      LeadStopsAt(s, q[1..], i - 1);
    }
  }

  /** After the chain idle is on the ready list exactly if it stood in line and does not run. */
  lemma IdleAfterChain(s: State)
    requires Inv(s)
    ensures Addressed(s) && (s.idle in Settle(s).ready <==> s.idle in Line(s) && Settle(s).cur != s.idle)
  {
    InvAddressed(s);
    ChainClosedForm(s);
    IdleNotDoomed(s);
    var q, k := Line(s), Lead(s, Line(s));
    NoDuplicates(s);
    if s.idle in q {
      var i :| 0 <= i < |q| && q[i] == s.idle;
      LeadStopsAt(s, q, i);
      BehindRunner(q, k, i);
    }
  }

  lemma BehindRunner(q: seq<Tid>, k: nat, i: nat)
    requires NoDup(q) && k <= i < |q|
    ensures q[i] in Rest(q, k) <==> Runner(q, k, q[i]) != q[i]
  {
    if i > k {
      assert q[k + 1..][i - k - 1] == q[i];
    }
  }

  /** Somebody who is not doomed stands in line, and idle not before. */
  ghost predicate OtherAhead(s: State)
    requires Addressed(s)
  {
    exists i :: 0 <= i < |Line(s)| && !Doomed(s, Line(s)[i]) && s.idle !in Line(s)[..i + 1]
  }

  /** Idle does not run after the chain exactly if somebody ahead of it in line is not doomed. */
  lemma OtherRunsWhen(s: State)
    requires Inv(s)
    ensures Addressed(s) && (Settle(s).cur != s.idle <==> OtherAhead(s))
  {
    InvAddressed(s);
    ChainClosedForm(s);
    IdleNotDoomed(s);
    NoDuplicates(s);
    var q, k := Line(s), Lead(s, Line(s));
    if k < |q| && q[k] != s.idle {
      var front := q[..k + 1];
      forall j | 0 <= j < |front| ensures front[j] != s.idle {
        assert j < k ==> Doomed(s, q[j]);
      }
      assert !Doomed(s, q[k]) && s.idle !in front;
    }
    if OtherAhead(s) {
      var i :| 0 <= i < |q| && !Doomed(s, q[i]) && s.idle !in q[..i + 1];
      LeadStopsAt(s, q, i);
      assert q[..i + 1][k] == q[k];
    }
  }

  /** Nobody stands in line twice. */
  lemma NoDuplicates(s: State)
    requires Inv(s)
    ensures Addressed(s) && NoDup(Line(s))
  {
    InvAddressed(s);
    var w := Woken(s, s.pending);
    forall t ensures Occ(Line(s), t) <= 1 {
      assert Listed(s, t) && (HasStatus(s, t, Running) <==> t == s.cur);
      WokenOcc(s, s.pending, t);
      OccAppend([s.cur] + s.ready, w, t);
      OccAppend([s.cur], s.ready, t);
      OccPush([], s.cur, t);
      assert [] + [s.cur] == [s.cur];
    }
    OccDistinct(Line(s));
  }

  lemma IdleInLine(s: State)
    requires Inv(s)
    ensures Addressed(s)
    ensures s.idle in Line(s) <==>
              s.cur == s.idle || s.idle in s.ready || (HasStatus(s, s.idle, Blocked) && IdleCalled(s))
  {
    IdleWakesWhen(s);
  }

  /** A switch, from the state in which the running thread has left. */
  lemma IdleAfterSwitch(s: State)
    requires BetweenThreads(s)
    ensures s.idle in Switch(s).ready <==>
              Switch(s).cur != s.idle && (s.idle in s.ready || (HasStatus(s, s.idle, Blocked) && IdleCalled(s)))
  {
    DispatchInv(s);
    var d := Dispatch(s);
    IdleAfterChain(d);
    IdleInLine(d);
    if d.cur == s.idle {
      IdleKeepsRunning(d);
    } else if s.ready != [] {
      assert s.ready == [s.ready[0]] + s.ready[1..];
    }
  }

  lemma IdleKeepsRunning(s: State)
    requires Inv(s) && s.cur == s.idle
    ensures Settle(s).cur == s.idle
  {
    IdleNotDoomed(s);
    ChainClosedForm(s);
  }

  /** Does the event lead to a switch? */
  ghost predicate Switches(s: State, e: Event) {
    e == Block || e == Yield || e == Exit || (e == Tick && s.ticks + 1 >= TIME_SLICE)
  }

  /** The event wakes idle: it switches, a SIG_UBLOCK reaches a blocked idle, and another thread gets to run. */
  ghost predicate WakesIdle(s: State, e: Event)
    requires Inv(s) && Enabled(s, e)
  {
    && Switches(s, e) && (HasStatus(s, s.idle, Blocked) || (s.cur == s.idle && e == Block)) && IdleCalled(s)
    && Apply(s, e).cur != s.idle
  }

  lemma TerminatedIdle(s: State)
    requires Inv(s) && s.cur != s.idle
    ensures var r := Terminated(s);
            && r.idle == s.idle && r.ready == s.ready && (IdleCalled(r) <==> IdleCalled(s))
            && (HasStatus(r, s.idle, Blocked) <==> HasStatus(s, s.idle, Blocked))
  {
    assert KeyOcc(s.pending, SIG_UBLOCK, s.idle) <= 1;
    PostLookup(s.pending, Entry(SIG_CHLD, NO_PARENT, s.tcb[s.cur].parent), SIG_UBLOCK, s.idle);
  }

  lemma YieldingIdle(s: State)
    requires Inv(s)
    ensures var r := Yielding(s);
            && (s.idle in r.ready <==> s.idle in s.ready) && (IdleCalled(r) <==> IdleCalled(s))
            && (HasStatus(r, s.idle, Blocked) <==> HasStatus(s, s.idle, Blocked))
  {
    assert HasStatus(s, s.cur, Running);
  }

  /**
   Every event: idle is on the ready list afterwards exactly if it was and does not run now, or
   the event woke it.  So nothing but a SIG_UBLOCK sent to idle can put it there.
   */
  lemma IdleReadyAfter(s: State, e: Event)
    requires Inv(s) && Enabled(s, e)
    ensures s.idle in Apply(s, e).ready <==>
              (s.idle in s.ready && (Switches(s, e) ==> Apply(s, e).cur != s.idle)) || WakesIdle(s, e)
  {
    match e
    case Block =>
      BlockingInv(s);
      IdleAfterSwitch(Blocking(s));
    case Yield => IdleAfterYield(s);
    case Exit => IdleAfterExit(s);
    case Tick => IdleAfterTick(s);
    case _ =>
  }

  lemma IdleAfterTick(s: State)
    requires Inv(s)
    ensures var r := Apply(s, Tick);
            s.idle in r.ready <==>
              (s.idle in s.ready && (s.ticks + 1 >= TIME_SLICE ==> r.cur != s.idle)) || WakesIdle(s, Tick)
  {
    TickedInv(s);
    if Ticked(s).ticks >= TIME_SLICE {
      IdleAfterYield(Ticked(s));
    }
  }

  lemma IdleAfterYield(s: State)
    requires Inv(s)
    ensures BetweenThreads(Yielding(s))
    ensures var r := Switch(Yielding(s));
            s.idle in r.ready <==>
              r.cur != s.idle && (s.idle in s.ready || (HasStatus(s, s.idle, Blocked) && IdleCalled(s)))
  {
    YieldingInv(s);
    YieldingIdle(s);
    IdleAfterSwitch(Yielding(s));
  }

  lemma IdleAfterExit(s: State)
    requires Inv(s) && s.cur != s.idle
    ensures BetweenThreads(Terminated(s))
    ensures var r := Switch(Terminated(s));
            s.idle in r.ready <==>
              r.cur != s.idle && (s.idle in s.ready || (HasStatus(s, s.idle, Blocked) && IdleCalled(s)))
  {
    TerminatedInv(s);
    TerminatedIdle(s);
    IdleAfterSwitch(Terminated(s));
  }

  // ----- runs -----

  /** In no state of the run idle is on the ready list. */
  ghost predicate IdleOff(s: State, es: seq<Event>)
    requires Inv(s) && Legal(s, es)
    decreases |es|
  {
    s.idle !in s.ready && (es == [] || IdleOff(Apply(s, es[0]), es[1..]))
  }

  /** No event of the run wakes idle. */
  ghost predicate IdleLetBe(s: State, es: seq<Event>)
    requires Inv(s) && Legal(s, es)
    decreases |es|
  {
    es == [] || (!WakesIdle(s, es[0]) && IdleLetBe(Apply(s, es[0]), es[1..]))
  }

  /** Idle stays off the ready list for a whole run exactly if no event of it wakes idle. */
  lemma {:induction false} IdleOffExactlyWhen(s: State, es: seq<Event>)
    requires Inv(s) && Legal(s, es) && s.idle !in s.ready
    ensures IdleOff(s, es) <==> IdleLetBe(s, es)
    decreases |es|
  {
    if es != [] {
      IdleReadyAfter(s, es[0]);
      StepKeepsIdle(s, es[0]);
      if !WakesIdle(s, es[0]) {
        IdleOffExactlyWhen(Apply(s, es[0]), es[1..]);
      }
    }
  }

  lemma StepKeepsIdle(s: State, e: Event)
    requires Inv(s) && Enabled(s, e)
    ensures Apply(s, e).idle == s.idle
  {
    match e
    case Block =>
      BlockingInv(s);
      SwitchIdle(Blocking(s));
    case Yield =>
      YieldingInv(s);
      SwitchIdle(Yielding(s));
    case Exit =>
      TerminatedInv(s);
      SwitchIdle(Terminated(s));
    case Tick =>
      TickedInv(s);
      if Ticked(s).ticks >= TIME_SLICE {
        YieldingInv(Ticked(s));
        SwitchIdle(Yielding(Ticked(s)));
      }
    case _ =>
  }

  lemma SwitchCallsNobody(s: State, t: Tid)
    requires BetweenThreads(s) && t in s.tcb && Lookup(s.pending, SIG_UBLOCK, t) == None
    ensures Lookup(Switch(s).pending, SIG_UBLOCK, t) == None
  {
    NextReady(s);
    DispatchInv(s);
    ChainDeliversUblock(Dispatch(s), t);
  }

  /** Only kill() makes a SIG_UBLOCK pending. */
  lemma StepCallsNobody(s: State, e: Event, t: Tid)
    requires Inv(s) && Enabled(s, e) && e != Kill(t, SIG_UBLOCK)
    requires t in s.tcb && Lookup(s.pending, SIG_UBLOCK, t) == None
    ensures Lookup(Apply(s, e).pending, SIG_UBLOCK, t) == None
  {
    match e
    case Block =>
      BlockingInv(s);
      SwitchCallsNobody(Blocking(s), t);
    case Yield =>
      YieldingInv(s);
      SwitchCallsNobody(Yielding(s), t);
    case Exit =>
      TerminatedInv(s);
      assert KeyOcc(s.pending, SIG_UBLOCK, t) <= 1;
      PostLookup(s.pending, Entry(SIG_CHLD, NO_PARENT, s.tcb[s.cur].parent), SIG_UBLOCK, t);
      SwitchCallsNobody(Terminated(s), t);
    case Tick =>
      TickedInv(s);
      if Ticked(s).ticks >= TIME_SLICE {
        YieldingInv(Ticked(s));
        SwitchCallsNobody(Yielding(Ticked(s)), t);
      }
    case Kill(tid, sig) =>
      assert KeyOcc(s.pending, SIG_UBLOCK, t) <= 1;
      PostLookup(s.pending, Entry(sig, s.cur, tid), SIG_UBLOCK, t);
    case _ =>
  }

  lemma {:induction false} UncalledStaysOff(s: State, es: seq<Event>)
    requires Inv(s) && Legal(s, es) && s.idle !in s.ready && Lookup(s.pending, SIG_UBLOCK, s.idle) == None
    requires forall i | 0 <= i < |es| :: es[i] != Kill(s.idle, SIG_UBLOCK)
    ensures IdleOff(s, es)
    decreases |es|
  {
    if es != [] {
      LookupFound(s.pending, SIG_UBLOCK, s.idle);
      IdleReadyAfter(s, es[0]);
      StepKeepsIdle(s, es[0]);
      StepCallsNobody(s, es[0], s.idle);
      UncalledStaysOff(Apply(s, es[0]), es[1..]);
    }
  }

  /** From start-up on, idle never appears in the ready list as long as nobody sends it a SIG_UBLOCK. */
  lemma IdleStaysOff(main: Tid, idle: Tid, es: seq<Event>)
    requires 0 < main < idle && Inv(Init(main, idle)) && Legal(Init(main, idle), es)
    requires forall i | 0 <= i < |es| :: es[i] != Kill(idle, SIG_UBLOCK)
    ensures IdleOff(Init(main, idle), es)
  {
    UncalledStaysOff(Init(main, idle), es);
  }

  // ----- a run in which it does appear -----

  /** main after sending idle a SIG_UBLOCK and giving up the processor, about to be dispatched again. */
  ghost function Notified(): State {
    var s := Init(1, 2);
    s.(tcb := s.tcb[1 := s.tcb[1].(status := Ready)], ready := [1], pending := [Entry(SIG_UBLOCK, 1, 2)],
       log := [Sent(Entry(SIG_UBLOCK, 1, 2))])
  }

  lemma NotifiedReached()
    ensures var s, k := Init(1, 2), Kill(2, SIG_UBLOCK);
            && Inv(s) && Enabled(s, k) && Enabled(Apply(s, k), Yield)
            && Yielding(Apply(s, k)) == Notified() && BetweenThreads(Notified())
  {
    var s, k := Init(1, 2), Kill(2, SIG_UBLOCK);
    InitInv(1, 2);
    KilledInv(s, 2, SIG_UBLOCK);
    YieldingInv(Killed(s, 2, SIG_UBLOCK));
    assert Killed(s, 2, SIG_UBLOCK).pending == [Entry(SIG_UBLOCK, 1, 2)];
    assert [] + [1] == [1] && Yielding(Killed(s, 2, SIG_UBLOCK)).tcb == Notified().tcb;
  }

  lemma IdleIsWoken(d: State)
    requires Inv(d) && d.cur == 1 && d.idle == 2 && d.pending == [Entry(SIG_UBLOCK, 1, 2)] && HasStatus(d, 2, Blocked)
    requires d.tcb[2].mask == {} && d.tcb[2].accept == ALL_BITS && d.tcb[1].maxlife == 0
    ensures 2 in Settle(d).ready
  {
    IdleWakesWhen(d);
    assert d.pending[..0] == [] && Caught(d, d.pending) == {};
    assert KeyOcc(d.pending, SIG_UBLOCK, 2) == 1;
  }

  /** The comment above idle() says it never appears in the ready list again; after these two events it does. */
  lemma IdleCanBeOnReadyList()
    ensures var es := [Kill(2, SIG_UBLOCK), Yield];
            && Inv(Init(1, 2)) && Legal(Init(1, 2), es)
            && Run(Init(1, 2), es).idle in Run(Init(1, 2), es).ready
  {
    NotifiedReached();
    var s, k, x := Init(1, 2), Kill(2, SIG_UBLOCK), Notified();
    DispatchInv(x);
    IdleIsWoken(Dispatch(x));
    assert [k, Yield][1..] == [Yield] && [Yield][1..] == [];
    assert Apply(Apply(s, k), Yield) == Switch(x);
    assert Legal(Apply(s, k), [Yield]) && Run(Apply(s, k), [Yield]) == Switch(x);
    SwitchIdle(x);
  }

  lemma {:induction false} SettleIdle(s: State)
    requires Inv(s)
    ensures Settle(s).idle == s.idle
    decreases |s.live|
  {
    HandledInv(s);
    if Dies(s) {
      IdleSurvives(s);
      TerminatedInv(Handled(s));
      DispatchInv(Terminated(Handled(s)));
      SettleIdle(Dispatch(Terminated(Handled(s))));
    }
  }

  lemma SwitchIdle(s: State)
    requires BetweenThreads(s)
    ensures Switch(s).idle == s.idle
  {
    DispatchInv(s);
    SettleIdle(Dispatch(s));
  }
}
