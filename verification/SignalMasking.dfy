/**
 Masking only delays: a masked SIG_UBLOCK, SIG_USR or SIG_CHLD stays pending until it is
 unmasked, and is then delivered.
 */
module SignalMasking {
  import opened Queues
  import opened SignalSpec
  import opened SignalPending
  import opened SignalInvariant
  import opened SignalSteps
  import opened SignalChain

  /** The signals that can be pending and that a mask holds back: all but SIG_KILL. */
  ghost predicate Maskable(sig: int) {
    sig == SIG_UBLOCK || sig == SIG_USR || sig == SIG_CHLD
  }

  ghost predicate HeldBack(s: State, sig: int, t: Tid) {
    Maskable(sig) && t in s.tcb && sig in s.tcb[t].mask && Lookup(s.pending, sig, t).Some?
  }

  /** A pending SIG_CHLD names no sender. */
  lemma {:induction false} ChldSender(s: State, q: seq<Entry>, t: Tid)
    requires EntriesOk(s, q) && Lookup(q, SIG_CHLD, t).Some?
    ensures Lookup(q, SIG_CHLD, t) == Some(NO_PARENT)
  {
    assert EntryOk(s, q[|q| - 1]);
    if !HasKey(q[|q| - 1], SIG_CHLD, t) {
      ChldSender(s, q[..|q| - 1], t);
    }
  }

  /** An exit sends SIG_CHLD, which leaves what is pending as it was. */
  lemma TerminatedKeepsMasked(s: State, sig: int, t: Tid)
    requires Inv(s) && HeldBack(s, sig, t)
    ensures var r := Terminated(s); HeldBack(r, sig, t) && Lookup(r.pending, sig, t) == Lookup(s.pending, sig, t)
  {
    TerminatedKeeps(s);
    assert SameSettings(s.tcb[t], Terminated(s).tcb[t]);
    assert KeyOcc(s.pending, sig, t) <= 1;
    PostLookup(s.pending, Entry(SIG_CHLD, NO_PARENT, s.tcb[s.cur].parent), sig, t);
    if sig == SIG_CHLD {
      ChldSender(s, s.pending, t);
    }
  }

  lemma HandledKeepsMasked(s: State, sig: int, t: Tid)
    requires Inv(s) && HeldBack(s, sig, t)
    ensures Addressed(s)
    ensures var r := Handled(s); HeldBack(r, sig, t) && Lookup(r.pending, sig, t) == Lookup(s.pending, sig, t)
  {
    InvAddressed(s);
    HandledKeeps(s);
    assert SameSettings(s.tcb[t], Handled(s).tcb[t]);
    KeptLookup(s, s.pending, sig, t);
  }

  lemma DispatchKeepsMasked(s: State, sig: int, t: Tid)
    requires BetweenThreads(s) && HeldBack(s, sig, t)
    ensures Next(s) in s.tcb && Inv(Dispatch(s)) && HeldBack(Dispatch(s), sig, t)
    ensures Lookup(Dispatch(s).pending, sig, t) == Lookup(s.pending, sig, t)
  {
    NextReady(s);
    DispatchInv(s);
    DispatchKeeps(s);
    assert SameSettings(s.tcb[t], Dispatch(s).tcb[t]);
  }

  /** No delivery of the chain takes a masked signal off the list. */
  lemma {:induction false} SettleKeepsMasked(s: State, sig: int, t: Tid)
    requires Inv(s) && HeldBack(s, sig, t)
    ensures Lookup(Settle(s).pending, sig, t) == Lookup(s.pending, sig, t)
    decreases |s.live|
  {
    HandledKeepsMasked(s, sig, t);
    HandledInv(s);
    if Dies(s) {
      var h := Handled(s);
      IdleSurvives(s);
      TerminatedInv(h);
      TerminatedKeepsMasked(h, sig, t);
      DispatchKeepsMasked(Terminated(h), sig, t);
      SettleKeepsMasked(Dispatch(Terminated(h)), sig, t);
    }
  }

  lemma SwitchKeepsMasked(s: State, sig: int, t: Tid)
    requires BetweenThreads(s) && HeldBack(s, sig, t)
    ensures Lookup(Switch(s).pending, sig, t) == Lookup(s.pending, sig, t)
  {
    DispatchKeepsMasked(s, sig, t);
    SettleKeepsMasked(Dispatch(s), sig, t);
  }

  /** No event takes a masked signal off the list; only an accepted kill() changes its sender. */
  lemma StepKeepsMasked(s: State, e: Event, sig: int, t: Tid)
    requires Inv(s) && Enabled(s, e) && HeldBack(s, sig, t)
    ensures Lookup(Apply(s, e).pending, sig, t) ==
            if e == Kill(t, sig) && Accepts(s, t, sig) then Some(s.cur) else Lookup(s.pending, sig, t)
  {
    match e
    case Block =>
      BlockingInv(s);
      SwitchKeepsMasked(Blocking(s), sig, t);
    case Yield =>
      YieldingInv(s);
      SwitchKeepsMasked(Yielding(s), sig, t);
    case Exit =>
      TerminatedInv(s);
      TerminatedKeepsMasked(s, sig, t);
      SwitchKeepsMasked(Terminated(s), sig, t);
    case Tick =>
      TickedInv(s);
      if Ticked(s).ticks >= TIME_SLICE {
        YieldingInv(Ticked(s));
        SwitchKeepsMasked(Yielding(Ticked(s)), sig, t);
      }
    case Kill(tid, sent) =>
      assert KeyOcc(s.pending, sig, t) <= 1;
      PostLookup(s.pending, Entry(sent, s.cur, tid), sig, t);
    case _ =>
  }

  /** In every state of the run `t` masks `sig`. */
  ghost predicate MasksThroughout(s: State, es: seq<Event>, sig: int, t: Tid)
    requires Inv(s) && Legal(s, es)
    decreases |es|
  {
    && t in s.tcb && sig in s.tcb[t].mask
    && (es == [] || MasksThroughout(Apply(s, es[0]), es[1..], sig, t))
  }

  /** As long as `t` masks a signal, a pending one is neither lost nor delivered. */
  lemma {:induction false} MaskedStaysPending(s: State, es: seq<Event>, sig: int, t: Tid)
    requires Inv(s) && Legal(s, es) && MasksThroughout(s, es, sig, t) && HeldBack(s, sig, t)
    ensures HeldBack(Run(s, es), sig, t)
    decreases |es|
  {
    if es != [] {
      StepKeepsMasked(s, es[0], sig, t);
      MaskedStaysPending(Apply(s, es[0]), es[1..], sig, t);
    }
  }

  // ----- once unmasked -----

  /** CHILD_handler()'s report of one death more. */
  ghost predicate CountsDown(o: Obs, t: Tid, dchild: int) {
    o.ChldReport? && o.t == t && o.alive == o.created - (dchild + 1)
  }

  /**
   An unmasked SIG_USR or SIG_CHLD is delivered the next time its receiver is dispatched and is
   off the list for good; unless ignored, its handler's report follows, for SIG_USR with the
   last sender.
   */
  lemma UnmaskedIsDelivered(s: State, sig: int)
    requires Inv(s) && (sig == SIG_USR || sig == SIG_CHLD)
    requires Lookup(s.pending, sig, s.cur).Some? && sig !in s.tcb[s.cur].mask
    ensures Addressed(s) && sig in Received(s) && Lookup(Settle(s).pending, sig, s.cur) == None
    ensures sig == SIG_USR && sig in s.tcb[s.cur].accept ==>
              UsrReport(s.cur, Lookup(s.pending, SIG_USR, s.cur).value) in Handled(s).log
    ensures sig == SIG_CHLD && sig in s.tcb[s.cur].accept ==>
              && Handled(s).tcb[s.cur].dchild == s.tcb[s.cur].dchild + 1
              && exists o :: o in Handled(s).log && CountsDown(o, s.cur, s.tcb[s.cur].dchild)
  {
    InvAddressed(s);
    LookupFound(s.pending, sig, s.cur);
    CaughtIs(s, s.pending, sig);
    assert Dispatched(s)[0] == s.cur;
    ScannedThread(s, s.cur);
    ReportLogged(Scanned(s), Calls(s), UsrSender(s, s.pending));
    if sig == SIG_USR {
      UsrSenderIs(s, s.pending);
      ChainDelivers(s, SIG_USR, s.cur);
    } else {
      ChainDeliversChld(s, s.cur);
    }
  }

  lemma ReportLogged(s: State, calls: set<int>, sender: Tid)
    requires s.cur in s.tcb
    ensures var log := HandlersRun(s, calls, sender).log;
            && (SIG_USR in calls ==> UsrReport(s.cur, sender) in log)
            && (SIG_CHLD in calls ==>
                exists o :: o in log && CountsDown(o, s.cur, s.tcb[s.cur].dchild))
  {
    var log := HandlersRun(s, calls, sender).log;
    if SIG_USR in calls {
      assert log[|s.log|] == UsrReport(s.cur, sender);
    }
    if SIG_CHLD in calls {
      var o := log[|log| - 1];
      assert o in log && CountsDown(o, s.cur, s.tcb[s.cur].dchild);
    }
  }

  /**
   An unmasked and not ignored SIG_UBLOCK is delivered at the next dispatch of any thread: it
   is off the list, and a receiver that was blocked runs, is ready, or has died.
   */
  lemma UnmaskedUblockWakes(s: State, t: Tid)
    requires Inv(s) && t in s.tcb && Lookup(s.pending, SIG_UBLOCK, t).Some?
    requires SIG_UBLOCK !in s.tcb[t].mask && SIG_UBLOCK in s.tcb[t].accept
    ensures Lookup(Settle(s).pending, SIG_UBLOCK, t) == None
    ensures s.tcb[t].status == Blocked ==> t == Settle(s).cur || t in Settle(s).ready || !Live(Settle(s), t)
  {
    InvAddressed(s);
    ChainDeliversUblock(s, t);
    if s.tcb[t].status == Blocked {
      LookupFound(s.pending, SIG_UBLOCK, t);
      WokenOcc(s, s.pending, t);
      ChainClosedForm(s);
      var q, k := Line(s), Lead(s, Line(s));
      assert t in q;
      InLine(q, k, s.idle, t);
    }
  }

  /** Whoever is in line dies in front of the runner, runs, or stays behind it. */
  lemma InLine(q: seq<Tid>, k: nat, idle: Tid, t: Tid)
    requires k <= |q| && t in q
    ensures t in q[..k] || t == Runner(q, k, idle) || t in Rest(q, k)
  {
    var i :| 0 <= i < |q| && q[i] == t;
    if i < k {
      assert q[..k][i] == t;
    } else if i > k {
      assert q[k + 1..][i - k - 1] == t;
    }
  }
}
