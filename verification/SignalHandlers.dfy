/**
 What the handlers print, over every run: each number of children alive against the truth at
 that time, and each sender of SIG_USR against the sends.
 */
module SignalHandlers {
  import opened Basics
  import opened Queues
  import opened SignalSpec
  import opened SignalPending
  import opened SignalInvariant
  import opened SignalHistory
  import opened SignalSteps
  import opened SignalChildren
  import opened SignalReports

  /** The sender of a SIG_USR that was delivered to `t`, not ignored, and not yet reported. */
  ghost function Due(log: seq<Obs>, t: Tid): Option<Tid> {
    if log == [] then None
    else
      match log[|log| - 1]
      case Removed(x, accepted) =>
        if accepted && HasKey(x, SIG_USR, t) then Some(x.sender) else Due(log[..|log| - 1], t)
      case UsrReport(u, _) => if u == t then None else Due(log[..|log| - 1], t)
      case _ => Due(log[..|log| - 1], t)
  }

  /** The report at place `j` names the SIG_USR just delivered, with no other pending. */
  ghost predicate UsrTrue(log: seq<Obs>, j: nat)
    requires j < |log|
  {
    log[j].UsrReport? ==>
      && Due(log[..j], log[j].t) == Some(log[j].sender)
      && LastSent(log[..j], SIG_USR, log[j].t) == None
  }

  /** The report at place `j` is off by the SIG_CHLDs merged and ignored before. */
  ghost predicate ChldTrue(log: seq<Obs>, j: nat)
    requires j < |log|
  {
    log[j].ChldReport? ==>
      log[j].alive == log[j].living + Merged(log[..j], log[j].t) + Ignored(log[..j], log[j].t)
  }

  ghost predicate ReportsTrue(log: seq<Obs>) {
    forall j: nat | j < |log| :: UsrTrue(log, j) && ChldTrue(log, j)
  }

  /** All reports so far were true in this sense, and none is outstanding. */
  ghost predicate Truthful(s: State) {
    ReportsTrue(s.log) && forall t {:trigger Due(s.log, t)} :: Due(s.log, t) == None
  }

  lemma DuePush(log: seq<Obs>, o: Obs, t: Tid)
    ensures Due(log + [o], t) ==
            if o.Removed? && o.accepted && HasKey(o.x, SIG_USR, t) then Some(o.x.sender)
            else if o.UsrReport? && o.t == t then None
            else Due(log, t)
  {
    assert (log + [o])[..|log|] == log;
  }

  lemma ReportsTruePush(log: seq<Obs>, o: Obs)
    requires ReportsTrue(log)
    requires o.UsrReport? ==> Due(log, o.t) == Some(o.sender) && LastSent(log, SIG_USR, o.t) == None
    requires o.ChldReport? ==> o.alive == o.living + Merged(log, o.t) + Ignored(log, o.t)
    ensures ReportsTrue(log + [o])
  {
    var l := log + [o];
    forall j: nat | j < |l| ensures UsrTrue(l, j) && ChldTrue(l, j) {
      assert l[..j] == log[..j];
      if j < |log| {
        assert UsrTrue(log, j) && ChldTrue(log, j);
      } else {
        assert log[..j] == log;
      }
    }
  }

  /** Deliveries make the latest admitted SIG_USR due, and report nothing. */
  lemma {:induction false} DueRemovals(s: State, log: seq<Obs>, q: seq<Entry>, t: Tid)
    requires ReportsTrue(log)
    ensures ReportsTrue(log + RemovedAll(s, q))
    ensures Due(log + RemovedAll(s, q), t) ==
            if t in s.tcb && SIG_USR in s.tcb[t].accept && Lookup(q, SIG_USR, t).Some? then Lookup(q, SIG_USR, t)
            else Due(log, t)
  {
    if q == [] {
      assert log + RemovedAll(s, q) == log;
    } else {
      var front, x := q[..|q| - 1], q[|q| - 1];
      DueRemovals(s, log, front, t);
      DuePush(log + RemovedAll(s, front), Removal(s, x), t);
      ReportsTruePush(log + RemovedAll(s, front), Removal(s, x));
      assert log + RemovedAll(s, q) == (log + RemovedAll(s, front)) + [Removal(s, x)];
    }
  }

  /** After a delivery pass a SIG_USR is due exactly if USR_handler() will run, and from the sender it will get. */
  lemma DueAfterScan(s: State, t: Tid)
    requires Inv(s) && Truthful(s)
    ensures Addressed(s) && ReportsTrue(Scanned(s).log)
    ensures Due(Scanned(s).log, t) ==
            if t == s.cur && SIG_USR in Calls(s) then Some(UsrSender(s, s.pending)) else None
  {
    InvAddressed(s);
    var taken := Taken(s, s.pending);
    assert Due(s.log, t) == None;
    DueRemovals(s, s.log, taken, t);
    KeptLookup(s, s.pending, SIG_USR, t);
    LookupFound(s.pending, SIG_USR, t);
    CaughtIs(s, s.pending, SIG_USR);
    if SIG_USR in Caught(s, s.pending) {
      UsrSenderIs(s, s.pending);
    }
  }

  /** CHILD_handler() prints what is alive, and for each SIG_CHLD merged or ignored before one too many. */
  lemma ChldReportOff(s: State)
    requires Inv(s) && AllCounted(s) && AllTallied(s) && Recorded(s)
    ensures Addressed(s)
    ensures SIG_CHLD in Calls(s) ==>
              var c, l := s.tcb[s.cur], Scanned(s).log;
              c.child - (c.dchild + 1) == |LiveKids(s, s.cur)| + Merged(l, s.cur) + Ignored(l, s.cur)
  {
    var p, taken := s.cur, Taken(s, s.pending);
    assert HasStatus(s, p, Running);
    ChildTaken(s, p);
    CountersOffBy(s, p);
    TallyRemovals(s, s.log, taken, p);
    CaughtIs(s, s.pending, SIG_CHLD);
  }

  lemma ScannedKids(s: State, p: Tid)
    requires Inv(s)
    ensures Addressed(s) && LiveKids(Handled(s), p) == LiveKids(Scanned(s), p) == LiveKids(s, p)
  {
    InvAddressed(s);
    forall t | t in s.tcb ensures Live(Scanned(s), t) <==> Live(s, t) {
      ScannedThread(s, t);
    }
    assert LiveKids(Scanned(s), p) == LiveKids(s, p);
    assert LiveKids(Handled(s), p) == LiveKids(Scanned(s), p);
  }

  lemma UsrTruthful(s: State, sender: Tid, runs: bool)
    requires ReportsTrue(s.log) && forall t :: Due(s.log, t) == if t == s.cur && runs then Some(sender) else None
    requires runs ==> LastSent(s.log, SIG_USR, s.cur) == None
    ensures Truthful(if runs then UsrHandled(s, sender) else s)
  {
    if runs {
      ReportsTruePush(s.log, UsrReport(s.cur, sender));
      forall t ensures Due(UsrHandled(s, sender).log, t) == None {
        DuePush(s.log, UsrReport(s.cur, sender), t);
      }
    }
  }

  lemma ChldTruthful(s: State)
    requires Truthful(s) && s.cur in s.tcb
    requires s.tcb[s.cur].child - (s.tcb[s.cur].dchild + 1) ==
             |LiveKids(s, s.cur)| + Merged(s.log, s.cur) + Ignored(s.log, s.cur)
    ensures Truthful(ChldHandled(s))
  {
    var c := s.tcb[s.cur];
    var o := ChldReport(s.cur, c.child, c.child - (c.dchild + 1), |LiveKids(s, s.cur)|);
    ReportsTruePush(s.log, o);
    forall t ensures Due(ChldHandled(s).log, t) == None {
      assert Due(s.log, t) == None;
      DuePush(s.log, o, t);
    }
  }

  /** All that is accounted for. */
  ghost predicate Accounted(s: State) {
    AllCounted(s) && AllTallied(s) && Recorded(s) && Truthful(s)
  }

  lemma UsrPartTruthful(s: State)
    requires Inv(s) && Recorded(s) && Truthful(s)
    ensures Addressed(s)
    ensures var m, sender := Scanned(s), UsrSender(s, s.pending);
            Truthful(if SIG_USR in Calls(s) then UsrHandled(m, sender) else m)
  {
    InvAddressed(s);
    var m, sender := Scanned(s), UsrSender(s, s.pending);
    DueAfterScan(s, s.cur);
    forall t ensures Due(m.log, t) == if t == s.cur && SIG_USR in Calls(s) then Some(sender) else None {
      DueAfterScan(s, t);
    }
    NoneLeft(s);
    UsrTruthful(m, sender, SIG_USR in Calls(s));
  }

  /** After a delivery of SIG_USR no send of it is outstanding. */
  lemma NoneLeft(s: State)
    requires Inv(s) && Recorded(s)
    ensures Addressed(s) && (SIG_USR in Calls(s) ==> LastSent(Scanned(s).log, SIG_USR, s.cur) == None)
  {
    InvAddressed(s);
    ScannedRecorded(s);
    CaughtIs(s, s.pending, SIG_USR);
    KeptLookup(s, s.pending, SIG_USR, s.cur);
    assert Scanned(s).pending == Kept(s, s.pending);
    assert Lookup(Scanned(s).pending, SIG_USR, s.cur) == LastSent(Scanned(s).log, SIG_USR, s.cur);
  }

  lemma HandledTruthful(s: State)
    requires Inv(s) && Accounted(s)
    ensures Addressed(s) && Truthful(Handled(s))
  {
    UsrPartTruthful(s);
    if SIG_CHLD in Calls(s) {
      var m, sender := Scanned(s), UsrSender(s, s.pending);
      ChldReportOff(s);
      ScannedKids(s, s.cur);
      ScannedThread(s, s.cur);
      TallyPush(m.log, UsrReport(m.cur, sender), s.cur);
      var u := if SIG_USR in Calls(s) then UsrHandled(m, sender) else m;
      assert LiveKids(u, s.cur) == LiveKids(m, s.cur);
      assert HasStatus(s, s.cur, Running);
      ChldTruthful(u);
    }
  }

  // ----- over events and runs -----

  lemma SentTruthful(s: State, x: Entry)
    requires Truthful(s)
    ensures Truthful(Send(s, x))
  {
    ReportsTruePush(s.log, Sent(x));
    forall t ensures Due(Send(s, x).log, t) == None {
      assert Due(s.log, t) == None;
      DuePush(s.log, Sent(x), t);
    }
  }

  lemma TerminatedTruthful(s: State)
    requires Truthful(s) && s.cur in s.tcb
    ensures Truthful(Terminated(s))
  {
    SentTruthful(Orphaned(s), Entry(SIG_CHLD, NO_PARENT, s.tcb[s.cur].parent));
  }

  lemma TerminatedAccounted(s: State)
    requires Inv(s) && s.cur != s.idle && Accounted(s)
    ensures BetweenThreads(Terminated(s)) && Accounted(Terminated(s))
  {
    TerminatedInv(s);
    TerminatedCounted(s);
    TerminatedTallied(s);
    TerminatedRecorded(s);
    TerminatedTruthful(s);
  }

  lemma DispatchAccounted(s: State)
    requires BetweenThreads(s) && Accounted(s)
    ensures Next(s) in s.tcb && Inv(Dispatch(s)) && Accounted(Dispatch(s))
  {
    DispatchInv(s);
    DispatchCounted(s);
    DispatchTallied(s);
    assert Recorded(Dispatch(s));
  }

  lemma HandledAccounted(s: State)
    requires Inv(s) && Accounted(s)
    ensures Addressed(s) && Inv(Handled(s)) && Accounted(Handled(s)) && Handled(s).cur == s.cur
    ensures Handled(s).live == s.live && Handled(s).idle == s.idle
  {
    HandledInv(s);
    HandledCounted(s);
    HandledTallied(s);
    HandledRecorded(s);
    HandledTruthful(s);
  }

  lemma {:induction false} SettleAccounted(s: State)
    requires Inv(s) && Accounted(s)
    ensures Accounted(Settle(s))
    decreases |s.live|
  {
    HandledAccounted(s);
    if Dies(s) {
      var h := Handled(s);
      IdleSurvives(s);
      TerminatedInv(h);
      TerminatedAccounted(h);
      DispatchInv(Terminated(h));
      DispatchAccounted(Terminated(h));
      SettleAccounted(Dispatch(Terminated(h)));
    }
  }

  lemma SwitchTruthful(s: State)
    requires BetweenThreads(s) && Accounted(s)
    ensures Truthful(Switch(s))
  {
    DispatchAccounted(s);
    SettleAccounted(Dispatch(s));
  }

  lemma YieldingAccounted(s: State)
    requires Inv(s) && Accounted(s)
    ensures BetweenThreads(Yielding(s)) && Accounted(Yielding(s))
  {
    YieldingCounted(s);
    YieldingTallied(s);
    assert Recorded(Yielding(s));
  }

  lemma BlockingAccounted(s: State)
    requires Inv(s) && Accounted(s)
    ensures BetweenThreads(Blocking(s)) && Accounted(Blocking(s))
  {
    BlockingInv(s);
    assert HasStatus(s, s.cur, Running);
    AllCountedFrame(s, Blocking(s));
    AllTalliedFrame(s, Blocking(s));
    assert Recorded(Blocking(s));
  }

  lemma TickedAccounted(s: State)
    requires Inv(s) && Accounted(s)
    ensures Inv(Ticked(s)) && Accounted(Ticked(s))
  {
    TickedInv(s);
    AllCountedFrame(s, Ticked(s));
    AllTalliedFrame(s, Ticked(s));
    assert Recorded(Ticked(s));
  }

  lemma StepTruthful(s: State, e: Event)
    requires Inv(s) && Enabled(s, e) && Accounted(s)
    ensures Truthful(Apply(s, e))
  {
    match e
    case Block =>
      BlockingAccounted(s);
      SwitchTruthful(Blocking(s));
    case Yield =>
      YieldingAccounted(s);
      SwitchTruthful(Yielding(s));
    case Exit =>
      TerminatedAccounted(s);
      SwitchTruthful(Terminated(s));
    case Tick =>
      TickedAccounted(s);
      if Ticked(s).ticks >= TIME_SLICE {
        YieldingAccounted(Ticked(s));
        SwitchTruthful(Yielding(Ticked(s)));
      }
    case Kill(tid, sig) =>
      SentTruthful(s, Entry(sig, s.cur, tid));
    case _ =>
  }

  lemma {:induction false} RunAccounted(s: State, es: seq<Event>)
    requires Inv(s) && Legal(s, es) && Accounted(s)
    ensures Accounted(Run(s, es))
    decreases |es|
  {
    if es != [] {
      StepCounted(s, es[0]);
      StepTallied(s, es[0]);
      StepRecorded(s, es[0]);
      StepTruthful(s, es[0]);
      RunAccounted(Apply(s, es[0]), es[1..]);
    }
  }

  lemma FromStart(main: Tid, idle: Tid, es: seq<Event>)
    requires 0 < main < idle && Inv(Init(main, idle)) && Legal(Init(main, idle), es)
    ensures Accounted(Run(Init(main, idle), es))
  {
    InitCounted(main, idle);
    InitTallied(main, idle);
    InitRecorded(main, idle);
    RunAccounted(Init(main, idle), es);
  }

  // ----- what it means -----

  /**
   A delivery with SIG_CHLD in it ends with the report of CHILD_handler(): it never understates
   the live children, whether the thread lives on or dies in the same delivery.
   */
  lemma ReportAtDelivery(s: State)
    requires Inv(s) && AllCounted(s) && AllTallied(s) && Recorded(s)
    ensures Addressed(s)
    ensures SIG_CHLD in Calls(s) ==>
              var h := Handled(s);
              && |h.log| > 0
              && var o := h.log[|h.log| - 1];
              && o.ChldReport? && o.t == s.cur && o.created == s.tcb[s.cur].child
              && o.alive >= o.living == |LiveKids(h, s.cur)|
  {
    InvAddressed(s);
    if SIG_CHLD in Calls(s) {
      ChldReportOff(s);
      ScannedKids(s, s.cur);
      ScannedThread(s, s.cur);
      var u := if SIG_USR in Calls(s) then UsrHandled(Scanned(s), UsrSender(s, s.pending)) else Scanned(s);
      assert LiveKids(u, s.cur) == LiveKids(Scanned(s), s.cur);
    }
  }

  /**
   Every number of live children ever printed exceeds the true number at that time by the
   SIG_CHLDs merged and those ignored until then, so it is right exactly if there were none.
   */
  lemma EveryChldReport(main: Tid, idle: Tid, es: seq<Event>, j: nat)
    requires 0 < main < idle && Inv(Init(main, idle)) && Legal(Init(main, idle), es)
    requires j < |Run(Init(main, idle), es).log| && Run(Init(main, idle), es).log[j].ChldReport?
    ensures var log := Run(Init(main, idle), es).log; var o := log[j];
            && o.alive - o.living == Merged(log[..j], o.t) + Ignored(log[..j], o.t)
            && (o.alive == o.living <==> Merged(log[..j], o.t) == 0 && Ignored(log[..j], o.t) == 0)
  {
    FromStart(main, idle, es);
    assert ChldTrue(Run(Init(main, idle), es).log, j);
  }

  lemma {:induction false} DueSince(log: seq<Obs>, i: nat, j: nat, t: Tid, sender: Tid) returns (r: nat)
    requires i < j <= |log| && log[i].UsrReport? && log[i].t == t && Due(log[..j], t) == Some(sender)
    ensures i < r < j && log[r] == Removed(Entry(SIG_USR, sender, t), true)
  {
    var o := log[j - 1];
    assert log[..j] == log[..j - 1] + [o];
    DuePush(log[..j - 1], o, t);
    if o.Removed? && o.accepted && HasKey(o.x, SIG_USR, t) {
      r := j - 1;
    } else {
      r := DueSince(log, i, j - 1, t, sender);
    }
  }

  lemma {:induction false} SentBetween(log: seq<Obs>, i: nat, j: nat, sig: int, t: Tid, sender: Tid)
    requires i <= j <= |log| && LastSent(log[..i], sig, t) == None && LastSent(log[..j], sig, t) == Some(sender)
    ensures exists k :: i <= k < j && log[k] == Sent(Entry(sig, sender, t))
  {
    var o := log[j - 1];
    assert log[..j] == log[..j - 1] + [o];
    LogPush(log[..j - 1], o, sig, t);
    if o.Sent? && HasKey(o.x, sig, t) {
      assert log[j - 1] == Sent(Entry(sig, sender, t));
    } else {
      SentBetween(log, i, j - 1, sig, t, sender);
    }
  }

  /** Between two reports of SIG_USR by a thread, the sender that the second one names sent it again. */
  lemma OneReportPerSend(main: Tid, idle: Tid, es: seq<Event>, i: nat, j: nat)
    requires 0 < main < idle && Inv(Init(main, idle)) && Legal(Init(main, idle), es)
    requires var log := Run(Init(main, idle), es).log;
             i < j < |log| && log[i].UsrReport? && log[j].UsrReport? && log[i].t == log[j].t
    ensures var log := Run(Init(main, idle), es).log;
            exists k :: i < k < j && log[k] == Sent(Entry(SIG_USR, log[j].sender, log[j].t))
  {
    FromStart(main, idle, es);
    var log := Run(Init(main, idle), es).log;
    var t, b := log[j].t, log[j].sender;
    assert UsrTrue(log, i) && UsrTrue(log, j);
    var r := DueSince(log, i, j, t, b);
    assert LastSent(log[..r], log[r].x.sig, log[r].x.receiver) == Some(log[r].x.sender);
    SentBetween(log, i, r, SIG_USR, t, b);
  }
}
