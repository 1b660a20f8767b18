/**
 The child counters of a thread against the SIG_CHLDs it was sent: how far child - dchild can
 be off the true number of live children, by which branches of the code, and exactly when it
 is right.
 */
module SignalReports {
  import opened Basics
  import opened Queues
  import opened SignalSpec
  import opened SignalPending
  import opened SignalInvariant
  import opened SignalHistory
  import opened SignalSteps
  import opened SignalChildren

  ghost predicate ChildSend(o: Obs, p: Tid) {
    o.Sent? && HasKey(o.x, SIG_CHLD, p)
  }

  ghost predicate ChildRemoval(o: Obs, p: Tid, accepted: bool) {
    o.Removed? && HasKey(o.x, SIG_CHLD, p) && o.accepted == accepted
  }

  ghost predicate ChildReport(o: Obs, p: Tid) {
    o.ChldReport? && o.t == p
  }

  /** How many SIG_CHLDs `p` was sent ... */
  ghost function Sends(log: seq<Obs>, p: Tid): nat {
    if log == [] then 0 else Sends(log[..|log| - 1], p) + One(ChildSend(log[|log| - 1], p))
  }

  /** ... how many of them found one pending already and were merged with it ... */
  ghost function Merged(log: seq<Obs>, p: Tid): nat {
    if log == [] then 0
    else
      var before, o := log[..|log| - 1], log[|log| - 1];
      Merged(before, p) + One(ChildSend(o, p) && LastSent(before, SIG_CHLD, p).Some?)
  }

  /** ... how many deliveries found SIG_CHLD ignored ... */
  ghost function Ignored(log: seq<Obs>, p: Tid): nat {
    if log == [] then 0 else Ignored(log[..|log| - 1], p) + One(ChildRemoval(log[|log| - 1], p, false))
  }

  /** ... how many did not ... */
  ghost function Heard(log: seq<Obs>, p: Tid): nat {
    if log == [] then 0 else Heard(log[..|log| - 1], p) + One(ChildRemoval(log[|log| - 1], p, true))
  }

  /** ... and how many reports its CHILD_handler() made. */
  ghost function Reports(log: seq<Obs>, p: Tid): nat {
    if log == [] then 0 else Reports(log[..|log| - 1], p) + One(ChildReport(log[|log| - 1], p))
  }

  lemma TallyPush(log: seq<Obs>, o: Obs, p: Tid)
    ensures Sends(log + [o], p) == Sends(log, p) + One(ChildSend(o, p))
    ensures Merged(log + [o], p) == Merged(log, p) + One(ChildSend(o, p) && LastSent(log, SIG_CHLD, p).Some?)
    ensures Ignored(log + [o], p) == Ignored(log, p) + One(ChildRemoval(o, p, false))
    ensures Heard(log + [o], p) == Heard(log, p) + One(ChildRemoval(o, p, true))
    ensures Reports(log + [o], p) == Reports(log, p) + One(ChildReport(o, p))
  {
    assert (log + [o])[..|log|] == log;
  }

  /** Every SIG_CHLD sent was merged, or was delivered to deaf ears, or was heard, or is pending. */
  lemma {:induction false} SendsSplit(log: seq<Obs>, p: Tid)
    requires RemovalsMatch(log)
    ensures Sends(log, p) == Merged(log, p) + Ignored(log, p) + Heard(log, p) + One(LastSent(log, SIG_CHLD, p).Some?)
  {
    if log != [] {
      var before, o := log[..|log| - 1], log[|log| - 1];
      assert log == before + [o];
      RemovalsMatchPrefix(log, |log| - 1);
      SendsSplit(before, p);
      LogPush(before, o, SIG_CHLD, p);
    }
  }

  lemma {:induction false} TallyRemovals(s: State, log: seq<Obs>, q: seq<Entry>, p: Tid)
    ensures var l := log + RemovedAll(s, q);
            && Sends(l, p) == Sends(log, p) && Reports(l, p) == Reports(log, p) && Merged(l, p) == Merged(log, p)
            && Heard(l, p) == Heard(log, p) + (if Hears(s, p) then KeyOcc(q, SIG_CHLD, p) else 0)
            && Ignored(l, p) == Ignored(log, p) + (if Hears(s, p) then 0 else KeyOcc(q, SIG_CHLD, p))
  {
    if q == [] {
      assert log + RemovedAll(s, q) == log;
    } else {
      var front, x := q[..|q| - 1], q[|q| - 1];
      TallyRemovals(s, log, front, p);
      TallyPush(log + RemovedAll(s, front), Removal(s, x), p);
      assert log + RemovedAll(s, q) == (log + RemovedAll(s, front)) + [Removal(s, x)];
    }
  }

  ghost predicate Hears(s: State, p: Tid) {
    p in s.tcb && SIG_CHLD in s.tcb[p].accept
  }

  /**
   Every death of a child is a send, every count of `dchild` a report, every SIG_CHLD heard a
   report; strangers have none of them.
   */
  ghost predicate Tallied(s: State, p: Tid) {
    && (Live(s, p) ==> |GoneKids(s, p)| == Sends(s.log, p) && s.tcb[p].dchild == Reports(s.log, p))
    && Reports(s.log, p) == Heard(s.log, p)
    && (p !in s.tcb ==> Sends(s.log, p) == 0 && Reports(s.log, p) == 0)
  }

  ghost predicate AllTallied(s: State) {
    forall p {:trigger Tallied(s, p)} :: Tallied(s, p)
  }

  /** The numbers of `p` are as before, or a death and a send, or a report and a count, have been added. */
  lemma TalliedFrame(s: State, r: State, p: Tid)
    requires Tallied(s, p) && r.creator == s.creator && r.tcb.Keys == s.tcb.Keys
    requires forall t | t in s.creator && s.creator[t] == p :: Live(r, t) <==> Live(s, t)
    requires Live(r, p) ==> Live(s, p)
    requires Sends(r.log, p) == Sends(s.log, p)
    requires p in s.tcb ==> r.tcb[p].dchild - s.tcb[p].dchild == Reports(r.log, p) - Reports(s.log, p)
    requires p !in s.tcb ==> Reports(r.log, p) == Reports(s.log, p)
    requires Reports(r.log, p) - Reports(s.log, p) == Heard(r.log, p) - Heard(s.log, p)
    ensures Tallied(r, p)
  {
    assert GoneKids(r, p) == GoneKids(s, p);
  }

  lemma HandlersTally(s: State, calls: set<int>, sender: Tid, p: Tid)
    requires s.cur in s.tcb
    ensures var r := HandlersRun(s, calls, sender);
            && Sends(r.log, p) == Sends(s.log, p) && Heard(r.log, p) == Heard(s.log, p)
            && Merged(r.log, p) == Merged(s.log, p) && Ignored(r.log, p) == Ignored(s.log, p)
            && Reports(r.log, p) == Reports(s.log, p) + One(SIG_CHLD in calls && p == s.cur)
  {
    var u := if SIG_USR in calls then UsrHandled(s, sender) else s;
    TallyPush(s.log, UsrReport(s.cur, sender), p);
    var c := u.tcb[u.cur];
    TallyPush(u.log, ChldReport(u.cur, c.child, c.child - (c.dchild + 1), |LiveKids(u, u.cur)|), p);
  }

  /** A delivery pass takes at most one SIG_CHLD, the running thread's own; it is heard unless ignored. */
  lemma ChildTaken(s: State, p: Tid)
    requires Inv(s)
    ensures Addressed(s) && KeyOcc(Taken(s, s.pending), SIG_CHLD, p) == One(p == s.cur && SIG_CHLD in Received(s))
    ensures SIG_CHLD in Calls(s) <==> SIG_CHLD in Received(s) && Hears(s, s.cur)
  {
    InvAddressed(s);
    KeptLookup(s, s.pending, SIG_CHLD, p);
    CaughtIs(s, s.pending, SIG_CHLD);
    assert KeyOcc(s.pending, SIG_CHLD, p) <= 1;
    if p !in s.tcb {
      NoEntryFor(s, s.pending, SIG_CHLD, p);
    }
  }

  /** One delivery in the log: at most the one SIG_CHLD of the running thread, reported if heard. */
  lemma HandledTally(s: State, p: Tid)
    requires Inv(s)
    ensures Addressed(s)
    ensures var l, got := Handled(s).log, p == s.cur && SIG_CHLD in Received(s);
            && Sends(l, p) == Sends(s.log, p) && Merged(l, p) == Merged(s.log, p)
            && Ignored(l, p) == Ignored(s.log, p) + One(got && !Hears(s, p))
            && Heard(l, p) == Heard(s.log, p) + One(got && Hears(s, p))
            && Reports(l, p) == Reports(s.log, p) + One(got && Hears(s, p))
  {
    ChildTaken(s, p);
    ChildTaken(s, s.cur);
    TallyRemovals(s, s.log, Taken(s, s.pending), p);
    HandlersTally(Scanned(s), Calls(s), UsrSender(s, s.pending), p);
  }

  lemma HandledTalliedFor(s: State, p: Tid)
    requires Inv(s) && Addressed(s) && Tallied(s, p)
    requires forall t :: Live(Handled(s), t) <==> Live(s, t)
    ensures Tallied(Handled(s), p)
  {
    HandledTally(s, p);
    if p in s.tcb {
      ScannedThread(s, p);
      ChildTaken(s, p);
      HandlersCounters(Scanned(s), Calls(s), UsrSender(s, s.pending), p);
    }
    HandledKeys(s);
    TalliedFrame(s, Handled(s), p);
  }

  lemma HandledKeys(s: State)
    requires Addressed(s)
    ensures Handled(s).tcb.Keys == s.tcb.Keys && Handled(s).creator == s.creator
  {
    assert Scanned(s).tcb.Keys == s.tcb.Keys;
  }

  lemma HandledTallied(s: State)
    requires Inv(s) && AllTallied(s)
    ensures Addressed(s) && AllTallied(Handled(s))
  {
    InvAddressed(s);
    forall t ensures Live(Handled(s), t) <==> Live(s, t) {
      HandledLive(s, t);
    }
    forall p ensures Tallied(Handled(s), p) {
      assert Tallied(s, p);
      HandledTalliedFor(s, p);
    }
  }

  lemma TerminatedLog(s: State, p: Tid)
    requires s.cur in s.tcb
    ensures var l, d := Terminated(s).log, s.tcb[s.cur].parent;
            && Sends(l, p) == Sends(s.log, p) + One(p == d && Live(s, d))
            && Reports(l, p) == Reports(s.log, p) && Heard(l, p) == Heard(s.log, p)
  {
    TallyPush(s.log, Sent(Entry(SIG_CHLD, NO_PARENT, s.tcb[s.cur].parent)), p);
  }

  lemma TerminatedGone(s: State, p: Tid)
    requires Inv(s) && Live(s, p) && p != s.cur
    ensures |GoneKids(Terminated(s), p)| == |GoneKids(s, p)| + One(s.tcb[s.cur].parent == p)
  {
    var r, c := Terminated(s), s.cur;
    TerminatedFacts(s, p);
    assert Parented(s, c) && Listed(s, c) && Listed(s, p) && HasStatus(s, c, Running);
    if s.tcb[c].parent == p {
      assert GoneKids(r, p) == GoneKids(s, p) + {c} && c !in GoneKids(s, p);
    } else {
      assert GoneKids(r, p) == GoneKids(s, p);
    }
  }

  /** A death is a send to the creator, if that is alive. */
  lemma TerminatedTalliedFor(s: State, p: Tid)
    requires Inv(s) && Tallied(s, p)
    ensures Tallied(Terminated(s), p)
  {
    TerminatedLog(s, p);
    if Live(s, p) && p != s.cur {
      TerminatedGone(s, p);
      TerminatedFacts(s, p);
    }
  }

  lemma TerminatedTallied(s: State)
    requires Inv(s) && AllTallied(s)
    ensures AllTallied(Terminated(s))
  {
    forall p ensures Tallied(Terminated(s), p) {
      assert Tallied(s, p);
      TerminatedTalliedFor(s, p);
    }
  }

  lemma CreatedTallied(s: State)
    requires Inv(s) && AllTallied(s)
    ensures AllTallied(Created(s))
  {
    OldCreations(s);
    forall p ensures Tallied(Created(s), p) {
      assert Tallied(s, p);
      CreatedKids(s, p);
      if p == s.nextTid {
        assert GoneKids(s, p) <= Kids(s, p);
      }
    }
  }

  /** Steps that leave deaths, counts and the log of sends and reports alone. */
  lemma AllTalliedFrame(s: State, r: State)
    requires AllTallied(s) && r.creator == s.creator && r.tcb.Keys == s.tcb.Keys && r.log == s.log
    requires forall t | t in s.tcb :: (Live(r, t) <==> Live(s, t)) && r.tcb[t].dchild == s.tcb[t].dchild
    ensures AllTallied(r)
  {
    forall p ensures Tallied(r, p) {
      assert Tallied(s, p);
      TalliedFrame(s, r, p);
    }
  }

  lemma DispatchTallied(s: State)
    requires BetweenThreads(s) && AllTallied(s)
    ensures Next(s) in s.tcb && AllTallied(Dispatch(s))
  {
    NextReady(s);
    AllTalliedFrame(s, Dispatch(s));
  }

  lemma {:induction false} SettleTallied(s: State)
    requires Inv(s) && AllTallied(s)
    ensures AllTallied(Settle(s))
    decreases |s.live|
  {
    HandledTallied(s);
    HandledInv(s);
    if Dies(s) {
      var h := Handled(s);
      IdleSurvives(s);
      TerminatedInv(h);
      TerminatedTallied(h);
      DispatchTallied(Terminated(h));
      DispatchInv(Terminated(h));
      SettleTallied(Dispatch(Terminated(h)));
    }
  }

  lemma SwitchTallied(s: State)
    requires BetweenThreads(s) && AllTallied(s)
    ensures AllTallied(Switch(s))
  {
    DispatchInv(s);
    DispatchTallied(s);
    SettleTallied(Dispatch(s));
  }

  lemma YieldingTallied(s: State)
    requires Inv(s) && AllTallied(s)
    ensures BetweenThreads(Yielding(s)) && AllTallied(Yielding(s))
  {
    YieldingInv(s);
    assert HasStatus(s, s.cur, Running);
    AllTalliedFrame(s, Yielding(s));
  }

  lemma KilledTallied(s: State, tid: Tid, sig: int)
    requires Inv(s) && AllTallied(s)
    ensures AllTallied(Killed(s, tid, sig))
  {
    forall p ensures Tallied(Killed(s, tid, sig), p) {
      assert Tallied(s, p);
      if Accepts(s, tid, sig) {
        SentTallied(s, Entry(sig, s.cur, tid), p);
      }
    }
  }

  lemma SentTallied(s: State, x: Entry, p: Tid)
    requires Tallied(s, p) && x.sig != SIG_CHLD
    ensures Tallied(Send(s, x), p)
  {
    TallyPush(s.log, Sent(x), p);
    assert GoneKids(Send(s, x), p) == GoneKids(s, p);
  }

  lemma StepTallied(s: State, e: Event)
    requires Inv(s) && Enabled(s, e) && AllTallied(s)
    ensures AllTallied(Apply(s, e))
  {
    assert HasStatus(s, s.cur, Running);
    match e
    case Create => CreatedTallied(s);
    case Block =>
      BlockingInv(s);
      AllTalliedFrame(s, Blocking(s));
      SwitchTallied(Blocking(s));
    case Yield =>
      YieldingTallied(s);
      SwitchTallied(Yielding(s));
    case Exit =>
      TerminatedInv(s);
      TerminatedTallied(s);
      SwitchTallied(Terminated(s));
    case Tick =>
      TickedInv(s);
      AllTalliedFrame(s, Ticked(s));
      if Ticked(s).ticks >= TIME_SLICE {
        YieldingTallied(Ticked(s));
        SwitchTallied(Yielding(Ticked(s)));
      }
    case Kill(tid, sig) => KilledTallied(s, tid, sig);
    case _ => AllTalliedFrame(s, Apply(s, e));
  }

  lemma {:induction false} RunTallied(s: State, es: seq<Event>)
    requires Inv(s) && Legal(s, es) && AllTallied(s)
    ensures AllTallied(Run(s, es))
    decreases |es|
  {
    if es != [] {
      StepTallied(s, es[0]);
      RunTallied(Apply(s, es[0]), es[1..]);
    }
  }

  // ----- the branches that make the counters wrong -----

  /** A send merges exactly if one is pending already: the `found` branch of thread_exit(). */
  lemma MergedWhen(s: State, x: Entry, p: Tid)
    requires Recorded(s)
    ensures Merged(Send(s, x).log, p) ==
            Merged(s.log, p) + One(HasKey(x, SIG_CHLD, p) && KeyOcc(s.pending, SIG_CHLD, p) > 0)
  {
    TallyPush(s.log, Sent(x), p);
    LookupFound(s.pending, SIG_CHLD, p);
    assert Lookup(s.pending, SIG_CHLD, p) == LastSent(s.log, SIG_CHLD, p);
  }

  /** A delivery is wasted exactly if the running thread receives SIG_CHLD and ignores it. */
  lemma IgnoredWhen(s: State, p: Tid)
    requires Inv(s)
    ensures Addressed(s)
    ensures Ignored(Handled(s).log, p) ==
            Ignored(s.log, p) + One(p == s.cur && SIG_CHLD in Received(s) && SIG_CHLD !in s.tcb[s.cur].accept)
  {
    HandledTally(s, p);
  }

  /** What the counters of a live thread exceed its live children by. */
  lemma CountersOffBy(s: State, p: Tid)
    requires Inv(s) && AllCounted(s) && AllTallied(s) && Recorded(s) && Live(s, p)
    ensures s.tcb[p].child - s.tcb[p].dchild - |LiveKids(s, p)| ==
            Merged(s.log, p) + Ignored(s.log, p) + Unreported(s, p)
  {
    ReportNeverUnderstates(s, p);
    assert Tallied(s, p);
    SendsSplit(s.log, p);
    LookupFound(s.pending, SIG_CHLD, p);
    assert Lookup(s.pending, SIG_CHLD, p) == LastSent(s.log, SIG_CHLD, p);
  }

  lemma InitTallied(main: Tid, idle: Tid)
    requires 0 < main < idle
    ensures AllTallied(Init(main, idle))
  {
    var s := Init(main, idle);
    forall p ensures Tallied(s, p) {
      assert GoneKids(s, p) == {};
    }
  }

  /**
   After every run: child - dchild exceeds the live children of a thread by the SIG_CHLDs that
   were merged with a pending one, the deliveries that found SIG_CHLD ignored, and the one
   that may be pending.  So it is right exactly if there are none of these three.
   */
  lemma ReportExactlyWhen(main: Tid, idle: Tid, es: seq<Event>, p: Tid)
    requires 0 < main < idle
    requires Inv(Init(main, idle)) && Legal(Init(main, idle), es) && Live(Run(Init(main, idle), es), p)
    ensures var r := Run(Init(main, idle), es); var c := r.tcb[p];
            && c.child - c.dchild - |LiveKids(r, p)| == Merged(r.log, p) + Ignored(r.log, p) + Unreported(r, p)
            && (c.child - c.dchild == |LiveKids(r, p)| <==>
                Merged(r.log, p) == 0 && Ignored(r.log, p) == 0 && KeyOcc(r.pending, SIG_CHLD, p) == 0)
  {
    var s := Init(main, idle);
    InitCounted(main, idle);
    RunCounted(s, es);
    InitRecorded(main, idle);
    RunRecorded(s, es);
    InitTallied(main, idle);
    RunTallied(s, es);
    CountersOffBy(Run(s, es), p);
  }
}
