/**
 The parent relation and the child counters: parents form a forest over the live threads, and
 what CHILD_handler() reports never understates the children still alive.
 */
module SignalChildren {
  import opened Queues
  import opened SignalSpec
  import opened SignalPending
  import opened SignalInvariant
  import opened SignalSteps

  /** The threads `p` has created, alive or not. */
  ghost function Kids(s: State, p: Tid): set<Tid> {
    set t | t in s.creator && s.creator[t] == p
  }

  ghost function GoneKids(s: State, p: Tid): set<Tid> {
    set t | t in s.creator && s.creator[t] == p && !Live(s, t)
  }

  ghost function Unreported(s: State, p: Tid): nat {
    if KeyOcc(s.pending, SIG_CHLD, p) > 0 then 1 else 0
  }

  /** `child` counts the created threads; `dchild` and a pending SIG_CHLD account for at most the dead ones. */
  ghost predicate Counted(s: State, p: Tid) {
    Live(s, p) ==>
      && s.tcb[p].child == |Kids(s, p)|
      && 0 <= s.tcb[p].dchild
      && s.tcb[p].dchild + Unreported(s, p) <= |GoneKids(s, p)|
  }

  ghost predicate AllCounted(s: State) {
    forall p {:trigger Counted(s, p)} :: Counted(s, p)
  }

  // ----- each piece keeps the counters -----

  lemma CountedFrame(s: State, r: State, p: Tid)
    requires Counted(s, p) && r.creator == s.creator
    requires forall t | t in s.creator && s.creator[t] == p :: Live(r, t) <==> Live(s, t)
    requires Live(r, p) ==> Live(s, p) && r.tcb[p].child == s.tcb[p].child
    requires Live(r, p) ==> s.tcb[p].dchild <= r.tcb[p].dchild
    requires Live(r, p) ==> r.tcb[p].dchild + Unreported(r, p) <= s.tcb[p].dchild + Unreported(s, p)
    ensures Counted(r, p)
  {
    assert Kids(r, p) == Kids(s, p) && GoneKids(r, p) == GoneKids(s, p);
  }

  lemma HandledLive(s: State, t: Tid)
    requires Inv(s)
    ensures Addressed(s) && (Live(Handled(s), t) <==> Live(s, t))
  {
    InvAddressed(s);
    if t in s.tcb {
      ScannedThread(s, t);
    }
  }

  lemma HandlersCounters(s: State, calls: set<int>, sender: Tid, p: Tid)
    requires s.cur in s.tcb && p in s.tcb
    ensures var r := HandlersRun(s, calls, sender);
            && p in r.tcb && r.tcb[p].child == s.tcb[p].child && r.pending == s.pending
            && r.tcb[p].dchild == s.tcb[p].dchild + if p == s.cur && SIG_CHLD in calls then 1 else 0
  {
  }

  /** Delivery raises dchild only by taking a SIG_CHLD off the list. */
  lemma HandledCounters(s: State, p: Tid)
    requires Inv(s) && p in s.tcb
    ensures Addressed(s) && p in Handled(s).tcb
    ensures var r := Handled(s);
            && r.tcb[p].child == s.tcb[p].child && r.tcb[p].dchild >= s.tcb[p].dchild
            && r.tcb[p].dchild + Unreported(r, p) <= s.tcb[p].dchild + Unreported(s, p)
  {
    InvAddressed(s);
    ScannedThread(s, p);
    HandlersCounters(Scanned(s), Calls(s), UsrSender(s, s.pending), p);
    assert Scanned(s).pending == Kept(s, s.pending);
    CaughtIs(s, s.pending, SIG_CHLD);
    KeptLookup(s, s.pending, SIG_CHLD, p);
  }

  lemma HandledCounted(s: State)
    requires Inv(s) && AllCounted(s)
    ensures Addressed(s) && AllCounted(Handled(s))
  {
    InvAddressed(s);
    var r := Handled(s);
    forall t ensures Live(r, t) <==> Live(s, t) {
      HandledLive(s, t);
    }
    forall p ensures Counted(r, p) {
      assert Counted(s, p);
      if p in s.tcb {
        HandledCounters(s, p);
      }
      CountedFrame(s, r, p);
    }
  }

  lemma TerminatedFacts(s: State, p: Tid)
    requires Inv(s) && Live(s, p)
    ensures var r := Terminated(s);
            && p in r.tcb && r.tcb[p].child == s.tcb[p].child && r.tcb[p].dchild == s.tcb[p].dchild
            && Unreported(r, p) == if s.tcb[s.cur].parent == p then 1 else Unreported(s, p)
    ensures forall t :: Live(Terminated(s), t) <==> Live(s, t) && t != s.cur
  {
    assert KeyOcc(s.pending, SIG_CHLD, p) <= 1;
    PostLookup(s.pending, Entry(SIG_CHLD, NO_PARENT, s.tcb[s.cur].parent), SIG_CHLD, p);
  }

  /** A death adds one to the parent's dead children, and at most one pending SIG_CHLD. */
  lemma TerminatedCountedFor(s: State, p: Tid)
    requires Inv(s) && Counted(s, p)
    ensures Counted(Terminated(s), p)
  {
    var r, c := Terminated(s), s.cur;
    if Live(r, p) && Live(s, p) {
      TerminatedFacts(s, p);
      assert Parented(s, c) && Listed(s, p) && HasStatus(s, c, Running);
      if c in s.creator && s.creator[c] == p {
        assert Kids(r, p) == Kids(s, p);
        assert GoneKids(r, p) == GoneKids(s, p) + {c} && c !in GoneKids(s, p);
      } else {
        CountedFrame(s, r, p);
      }
    }
  }

  lemma TerminatedCounted(s: State)
    requires Inv(s) && AllCounted(s)
    ensures AllCounted(Terminated(s))
  {
    forall p ensures Counted(Terminated(s), p) {
      assert Counted(s, p);
      TerminatedCountedFor(s, p);
    }
  }

  lemma OldCreations(s: State)
    requires Inv(s)
    ensures s.nextTid !in s.tcb && s.nextTid !in s.creator
    ensures forall t | t in s.creator ::
              t != s.nextTid && s.creator[t] != s.nextTid && (Live(Created(s), t) <==> Live(s, t))
  {
    var x := s.nextTid;
    assert Listed(s, x) && Parented(s, x);
    forall t | t in s.creator ensures t != x && s.creator[t] != x && (Live(Created(s), t) <==> Live(s, t)) {
      assert Parented(s, t) && Listed(s, t);
    }
  }

  lemma CreatedKids(s: State, p: Tid)
    requires Inv(s)
    ensures var r, x := Created(s), s.nextTid;
            && GoneKids(r, p) == GoneKids(s, p) && x !in Kids(s, p) && Kids(s, x) == {}
            && Kids(r, p) == if p == s.cur then Kids(s, p) + {x} else Kids(s, p)
  {
    OldCreations(s);
    forall t ensures t !in Kids(s, s.nextTid) {
      assert t in s.creator ==> s.creator[t] != s.nextTid;
    }
    assert GoneKids(Created(s), p) == GoneKids(s, p);
  }

  lemma CreatedCountedFor(s: State, p: Tid)
    requires Inv(s) && Counted(s, p)
    ensures Counted(Created(s), p)
  {
    OldCreations(s);
    CreatedKids(s, p);
    if p == s.nextTid {
      NoEntryFor(s, s.pending, SIG_CHLD, p);
    }
  }

  lemma CreatedCounted(s: State)
    requires Inv(s) && AllCounted(s)
    ensures AllCounted(Created(s))
  {
    forall p ensures Counted(Created(s), p) {
      assert Counted(s, p);
      CreatedCountedFor(s, p);
    }
  }

  lemma {:induction false} NoEntryFor(s: State, q: seq<Entry>, sig: int, r: Tid)
    requires EntriesOk(s, q) && r !in s.tcb
    ensures KeyOcc(q, sig, r) == 0
  {
    if q != [] {
      assert EntryOk(s, q[|q| - 1]);
      NoEntryFor(s, q[..|q| - 1], sig, r);
    }
  }

  /** Steps that touch neither deaths nor SIG_CHLD nor the counters. */
  lemma AllCountedFrame(s: State, r: State)
    requires AllCounted(s) && r.creator == s.creator && r.tcb.Keys == s.tcb.Keys
    requires forall t | t in s.tcb :: Live(r, t) <==> Live(s, t)
    requires forall t | t in s.tcb :: r.tcb[t].child == s.tcb[t].child && r.tcb[t].dchild == s.tcb[t].dchild
    requires forall t {:trigger KeyOcc(r.pending, SIG_CHLD, t)} ::
               KeyOcc(r.pending, SIG_CHLD, t) == KeyOcc(s.pending, SIG_CHLD, t)
    ensures AllCounted(r)
  {
    forall p ensures Counted(r, p) {
      assert Counted(s, p);
      assert KeyOcc(r.pending, SIG_CHLD, p) == KeyOcc(s.pending, SIG_CHLD, p);
      CountedFrame(s, r, p);
    }
  }

  lemma DispatchCounted(s: State)
    requires BetweenThreads(s) && AllCounted(s)
    ensures Next(s) in s.tcb && AllCounted(Dispatch(s))
  {
    NextReady(s);
    AllCountedFrame(s, Dispatch(s));
  }

  lemma {:induction false} SettleCounted(s: State)
    requires Inv(s) && AllCounted(s)
    ensures AllCounted(Settle(s))
    decreases |s.live|
  {
    HandledCounted(s);
    HandledInv(s);
    if Dies(s) {
      var h := Handled(s);
      IdleSurvives(s);
      TerminatedInv(h);
      TerminatedCounted(h);
      DispatchCounted(Terminated(h));
      DispatchInv(Terminated(h));
      SettleCounted(Dispatch(Terminated(h)));
    }
  }

  lemma SwitchCounted(s: State)
    requires BetweenThreads(s) && AllCounted(s)
    ensures AllCounted(Switch(s))
  {
    DispatchInv(s);
    DispatchCounted(s);
    SettleCounted(Dispatch(s));
  }

  lemma YieldingCounted(s: State)
    requires Inv(s) && AllCounted(s)
    ensures BetweenThreads(Yielding(s)) && AllCounted(Yielding(s))
  {
    YieldingInv(s);
    assert HasStatus(s, s.cur, Running);
    AllCountedFrame(s, Yielding(s));
  }

  lemma KilledCounted(s: State, tid: Tid, sig: int)
    requires Inv(s) && AllCounted(s)
    ensures AllCounted(Killed(s, tid, sig))
  {
    forall t ensures KeyOcc(Killed(s, tid, sig).pending, SIG_CHLD, t) == KeyOcc(s.pending, SIG_CHLD, t) {
      assert KeyOcc(s.pending, SIG_CHLD, t) <= 1;
      PostLookup(s.pending, Entry(sig, s.cur, tid), SIG_CHLD, t);
    }
    AllCountedFrame(s, Killed(s, tid, sig));
  }

  lemma StepCounted(s: State, e: Event)
    requires Inv(s) && Enabled(s, e) && AllCounted(s)
    ensures AllCounted(Apply(s, e))
  {
    assert HasStatus(s, s.cur, Running);
    match e
    case Create => CreatedCounted(s);
    case Block =>
      BlockingInv(s);
      AllCountedFrame(s, Blocking(s));
      SwitchCounted(Blocking(s));
    case Yield =>
      YieldingCounted(s);
      SwitchCounted(Yielding(s));
    case Exit =>
      TerminatedInv(s);
      TerminatedCounted(s);
      SwitchCounted(Terminated(s));
    case Tick =>
      TickedInv(s);
      AllCountedFrame(s, Ticked(s));
      if Ticked(s).ticks >= TIME_SLICE {
        YieldingCounted(Ticked(s));
        SwitchCounted(Yielding(Ticked(s)));
      }
    case Kill(tid, sig) => KilledCounted(s, tid, sig);
    case _ => AllCountedFrame(s, Apply(s, e));
  }

  lemma {:induction false} RunCounted(s: State, es: seq<Event>)
    requires Inv(s) && Legal(s, es) && AllCounted(s)
    ensures AllCounted(Run(s, es))
    decreases |es|
  {
    if es != [] {
      StepCounted(s, es[0]);
      RunCounted(Apply(s, es[0]), es[1..]);
    }
  }

  lemma InitCounted(main: Tid, idle: Tid)
    requires 0 < main < idle
    ensures AllCounted(Init(main, idle))
  {
    var s := Init(main, idle);
    forall p ensures Counted(s, p) {
      assert Kids(s, p) == {} && GoneKids(s, p) == {};
    }
  }

  // ----- what the counters mean -----

  /**
   For every live thread, child is its live children plus its dead ones, and child - dchild,
   which CHILD_handler() prints as the number alive, is at least the number really alive.
   */
  lemma ReportNeverUnderstates(s: State, p: Tid)
    requires Inv(s) && AllCounted(s) && Live(s, p)
    ensures s.tcb[p].child == |LiveKids(s, p)| + |GoneKids(s, p)|
    ensures s.tcb[p].child - s.tcb[p].dchild >= |LiveKids(s, p)| + Unreported(s, p)
  {
    assert Counted(s, p) && Listed(s, p);
    assert Kids(s, p) == LiveKids(s, p) + GoneKids(s, p) && LiveKids(s, p) !! GoneKids(s, p) by {
      forall t ensures t in Kids(s, p) <==> t in LiveKids(s, p) || t in GoneKids(s, p) {
        assert Parented(s, t);
      }
    }
  }

  /**
   The parent relation is a forest: following parents from a live thread goes through live,
   ever older threads.
   */
  lemma ParentsFormForest(s: State, t: Tid)
    requires Inv(s) && Live(s, t)
    ensures var p := s.tcb[t].parent; p == NO_PARENT || (Live(s, p) && p < t && p in s.live)
  {
    assert Parented(s, t);
    var p := s.tcb[t].parent;
    if p != NO_PARENT {
      assert Listed(s, p);
      OccFind(s.live, p);
    }
  }

  /** A pending SIG_KILL was sent by the receiver's creator, even if that has since exited. */
  lemma KillsComeFromCreator(s: State, i: nat)
    requires Inv(s) && i < |s.pending| && s.pending[i].sig == SIG_KILL
    ensures var x := s.pending[i]; x.receiver in s.creator && s.creator[x.receiver] == x.sender && x.receiver != s.idle
  {
    assert EntryOk(s, s.pending[i]);
  }
}
