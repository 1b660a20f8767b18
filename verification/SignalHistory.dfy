/**
 Exactly-once delivery: the pending list is always what the log of sends and removals says it
 should be, over every run.
 */
module SignalHistory {
  import opened Queues
  import opened SignalSpec
  import opened SignalPending
  import opened SignalInvariant
  import opened SignalSteps

  /** The sender of the latest send of `sig` to `r` that no removal has followed. */
  ghost function LastSent(log: seq<Obs>, sig: int, r: Tid): Option<Tid> {
    if log == [] then None
    else
      match log[|log| - 1]
      case Sent(x) => if HasKey(x, sig, r) then Some(x.sender) else LastSent(log[..|log| - 1], sig, r)
      case Removed(x, _) => if HasKey(x, sig, r) then None else LastSent(log[..|log| - 1], sig, r)
      case _ => LastSent(log[..|log| - 1], sig, r)
  }

  /** Every removal takes off what was last sent. */
  ghost predicate RemovalsMatch(log: seq<Obs>) {
    forall i | 0 <= i < |log| && log[i].Removed? ::
      LastSent(log[..i], log[i].x.sig, log[i].x.receiver) == Some(log[i].x.sender)
  }

  ghost predicate Recorded(s: State) {
    && RemovalsMatch(s.log)
    && forall sig, r {:trigger Lookup(s.pending, sig, r)} :: Lookup(s.pending, sig, r) == LastSent(s.log, sig, r)
  }

  lemma LogPush(log: seq<Obs>, o: Obs, sig: int, r: Tid)
    ensures LastSent(log + [o], sig, r) ==
            if o.Sent? && HasKey(o.x, sig, r) then Some(o.x.sender)
            else if o.Removed? && HasKey(o.x, sig, r) then None
            else LastSent(log, sig, r)
  {
    assert (log + [o])[..|log|] == log;
  }

  lemma RemovalsMatchPush(log: seq<Obs>, o: Obs)
    requires RemovalsMatch(log)
    requires o.Removed? ==> LastSent(log, o.x.sig, o.x.receiver) == Some(o.x.sender)
    ensures RemovalsMatch(log + [o])
  {
    var l := log + [o];
    forall i | 0 <= i < |l| && l[i].Removed?
      ensures LastSent(l[..i], l[i].x.sig, l[i].x.receiver) == Some(l[i].x.sender)
    {
      assert l[..i] == log[..i];
      assert log[..|log|] == log;
    }
  }

  lemma RemovalsMatchPrefix(log: seq<Obs>, k: nat)
    requires RemovalsMatch(log) && k <= |log|
    ensures RemovalsMatch(log[..k])
  {
    var l := log[..k];
    forall i | 0 <= i < |l| && l[i].Removed?
      ensures LastSent(l[..i], l[i].x.sig, l[i].x.receiver) == Some(l[i].x.sender)
    {
      assert l[..i] == log[..i];
    }
  }

  /** Taking the entries of `q`, each key once, off the list clears exactly their keys. */
  lemma {:induction false} LogRemovals(s: State, log: seq<Obs>, q: seq<Entry>, sig: int, r: Tid)
    ensures LastSent(log + RemovedAll(s, q), sig, r) == if KeyOcc(q, sig, r) > 0 then None else LastSent(log, sig, r)
  {
    if q == [] {
      assert log + RemovedAll(s, q) == log;
    } else {
      var front, x := q[..|q| - 1], q[|q| - 1];
      LogRemovals(s, log, front, sig, r);
      LogPush(log + RemovedAll(s, front), Removal(s, x), sig, r);
      assert log + RemovedAll(s, q) == (log + RemovedAll(s, front)) + [Removal(s, x)];
    }
  }

  lemma {:induction false} RemovalsMatchAll(s: State, log: seq<Obs>, q: seq<Entry>)
    requires RemovalsMatch(log) && OnePerKey(q)
    requires forall sig, r {:trigger Lookup(q, sig, r)} ::
               Lookup(q, sig, r).Some? ==> Lookup(q, sig, r) == LastSent(log, sig, r)
    ensures RemovalsMatch(log + RemovedAll(s, q))
  {
    if q == [] {
      assert log + RemovedAll(s, q) == log;
    } else {
      var front, x := q[..|q| - 1], q[|q| - 1];
      assert q == front + [x];
      forall sig, r ensures KeyOcc(front, sig, r) <= 1 {
        assert KeyOcc(q, sig, r) <= 1;
      }
      forall sig, r ensures Lookup(front, sig, r).Some? ==> Lookup(front, sig, r) == LastSent(log, sig, r) {
        LookupFound(front, sig, r);
        KeyPush(front, x, sig, r);
        assert KeyOcc(q, sig, r) <= 1;
        assert Lookup(q, sig, r).Some? ==> Lookup(q, sig, r) == LastSent(log, sig, r);
      }
      RemovalsMatchAll(s, log, front);
      assert KeyOcc(q, x.sig, x.receiver) <= 1 && Lookup(q, x.sig, x.receiver) == Some(x.sender);
      LogRemovals(s, log, front, x.sig, x.receiver);
      RemovalsMatchPush(log + RemovedAll(s, front), Removal(s, x));
      assert log + RemovedAll(s, q) == (log + RemovedAll(s, front)) + [Removal(s, x)];
    }
  }

  // ----- each piece keeps the record -----

  lemma SendRecorded(s: State, x: Entry)
    requires OnePerKey(s.pending) && Recorded(s)
    ensures Recorded(Send(s, x))
  {
    var r := Send(s, x);
    forall sig, t ensures Lookup(r.pending, sig, t) == LastSent(r.log, sig, t) {
      assert KeyOcc(s.pending, sig, t) <= 1 && Lookup(s.pending, sig, t) == LastSent(s.log, sig, t);
      PostLookup(s.pending, x, sig, t);
      LogPush(s.log, Sent(x), sig, t);
    }
    RemovalsMatchPush(s.log, Sent(x));
  }

  lemma ScannedRecorded(s: State)
    requires Inv(s) && Recorded(s)
    ensures Addressed(s) && Recorded(Scanned(s))
  {
    InvAddressed(s);
    var r, taken := Scanned(s), Taken(s, s.pending);
    assert r.pending == Kept(s, s.pending);
    forall sig, t ensures Lookup(r.pending, sig, t) == LastSent(r.log, sig, t)
      && KeyOcc(taken, sig, t) <= 1
      && (Lookup(taken, sig, t).Some? ==> Lookup(taken, sig, t) == LastSent(s.log, sig, t))
    {
      KeptLookup(s, s.pending, sig, t);
      LookupFound(s.pending, sig, t);
      assert KeyOcc(s.pending, sig, t) <= 1 && Lookup(s.pending, sig, t) == LastSent(s.log, sig, t);
      LogRemovals(s, s.log, taken, sig, t);
    }
    RemovalsMatchAll(s, s.log, taken);
  }

  /** Reports by handlers do not touch the record. */
  lemma ReportRecorded(s: State, r: State, o: Obs)
    requires Recorded(s) && !o.Sent? && !o.Removed? && r.pending == s.pending && r.log == s.log + [o]
    ensures Recorded(r)
  {
    forall sig, t ensures Lookup(r.pending, sig, t) == LastSent(r.log, sig, t) {
      LogPush(s.log, o, sig, t);
      assert Lookup(s.pending, sig, t) == LastSent(s.log, sig, t);
    }
    RemovalsMatchPush(s.log, o);
  }

  lemma HandledRecorded(s: State)
    requires Inv(s) && Recorded(s)
    ensures Addressed(s) && Recorded(Handled(s))
  {
    ScannedRecorded(s);
    var r, sender := Scanned(s), UsrSender(s, s.pending);
    ReportRecorded(r, UsrHandled(r, sender), UsrReport(r.cur, sender));
    var u := if SIG_USR in Calls(s) then UsrHandled(r, sender) else r;
    var c := u.tcb[u.cur];
    ReportRecorded(u, ChldHandled(u), ChldReport(u.cur, c.child, c.child - (c.dchild + 1), |LiveKids(u, u.cur)|));
  }

  lemma TerminatedRecorded(s: State)
    requires Inv(s) && Recorded(s)
    ensures Recorded(Terminated(s))
  {
    assert Recorded(Orphaned(s));
    SendRecorded(Orphaned(s), Entry(SIG_CHLD, NO_PARENT, s.tcb[s.cur].parent));
  }

  lemma {:induction false} SettleRecorded(s: State)
    requires Inv(s) && Recorded(s)
    ensures Recorded(Settle(s))
    decreases |s.live|
  {
    HandledRecorded(s);
    HandledInv(s);
    if Dies(s) {
      var h := Handled(s);
      IdleSurvives(s);
      TerminatedRecorded(h);
      TerminatedInv(h);
      DispatchInv(Terminated(h));
      SettleRecorded(Dispatch(Terminated(h)));
    }
  }

  lemma SwitchRecorded(s: State)
    requires BetweenThreads(s) && Recorded(s)
    ensures Recorded(Switch(s))
  {
    DispatchInv(s);
    assert Recorded(Dispatch(s));
    SettleRecorded(Dispatch(s));
  }

  lemma StepRecorded(s: State, e: Event)
    requires Inv(s) && Enabled(s, e) && Recorded(s)
    ensures Recorded(Apply(s, e))
  {
    match e
    case Block =>
      BlockingInv(s);
      SwitchRecorded(Blocking(s));
    case Yield =>
      YieldingInv(s);
      SwitchRecorded(Yielding(s));
    case Exit =>
      TerminatedInv(s);
      TerminatedRecorded(s);
      SwitchRecorded(Terminated(s));
    case Tick =>
      TickedInv(s);
      if Ticked(s).ticks >= TIME_SLICE {
        YieldingInv(Ticked(s));
        SwitchRecorded(Yielding(Ticked(s)));
      }
    case Kill(tid, sig) =>
      SendRecorded(s, Entry(sig, s.cur, tid));
    case _ =>
  }

  /**
   In every state of every run, at most one entry is pending for a receiver and signal; it is
   pending exactly when something was sent since the last removal, and names the last sender.
   */
  lemma {:induction false} RunRecorded(s: State, es: seq<Event>)
    requires Inv(s) && Legal(s, es) && Recorded(s)
    ensures Recorded(Run(s, es)) && OnePerKey(Run(s, es).pending)
    decreases |es|
  {
    if es != [] {
      StepRecorded(s, es[0]);
      RunRecorded(Apply(s, es[0]), es[1..]);
    }
  }

  lemma InitRecorded(main: Tid, idle: Tid)
    requires 0 < main < idle
    ensures Recorded(Init(main, idle))
  {
  }

  // ----- what the record means -----

  lemma {:induction false} SentSince(log: seq<Obs>, i: nat, j: nat, sig: int, r: Tid, sender: Tid)
    requires i < j <= |log| && log[i].Removed? && HasKey(log[i].x, sig, r)
    requires LastSent(log[..j], sig, r) == Some(sender)
    ensures exists k :: i < k < j && log[k] == Sent(Entry(sig, sender, r))
  {
    var o := log[j - 1];
    assert log[..j] == log[..j - 1] + [o];
    LogPush(log[..j - 1], o, sig, r);
    if o.Sent? && HasKey(o.x, sig, r) {
      assert log[j - 1] == Sent(Entry(sig, sender, r));
    } else {
      SentSince(log, i, j - 1, sig, r, sender);
    }
  }

  lemma {:induction false} SentBefore(log: seq<Obs>, j: nat, sig: int, r: Tid, sender: Tid)
    requires j <= |log| && LastSent(log[..j], sig, r) == Some(sender)
    ensures exists k :: 0 <= k < j && log[k] == Sent(Entry(sig, sender, r))
  {
    var o := log[j - 1];
    assert log[..j] == log[..j - 1] + [o];
    LogPush(log[..j - 1], o, sig, r);
    if o.Sent? && HasKey(o.x, sig, r) {
      assert log[j - 1] == Sent(Entry(sig, sender, r));
    } else {
      SentBefore(log, j - 1, sig, r, sender);
    }
  }

  /** Nothing is delivered that was not sent, by the sender it names. */
  lemma DeliveredOnlyIfSent(log: seq<Obs>, j: nat)
    requires RemovalsMatch(log) && j < |log| && log[j].Removed?
    ensures exists k :: 0 <= k < j && log[k] == Sent(log[j].x)
  {
    var x := log[j].x;
    SentBefore(log, j, x.sig, x.receiver, x.sender);
  }

  /** Between two deliveries of a signal to a thread it was sent again, by the sender the second one names. */
  lemma DeliveredOncePerSend(log: seq<Obs>, i: nat, j: nat)
    requires RemovalsMatch(log) && i < j < |log|
    requires log[i].Removed? && log[j].Removed? && SameKey(log[i].x, log[j].x)
    ensures exists k :: i < k < j && log[k] == Sent(log[j].x)
  {
    var x := log[j].x;
    SentSince(log, i, j, x.sig, x.receiver, x.sender);
  }

  /** USR_handler() reports the sender of the latest send. */
  lemma UsrReportsLastSender(s: State)
    requires Inv(s) && Recorded(s)
    ensures Addressed(s)
    ensures SIG_USR in Calls(s) ==> LastSent(s.log, SIG_USR, s.cur) == Some(UsrSender(s, s.pending))
  {
    InvAddressed(s);
    if SIG_USR in Calls(s) {
      UsrSenderIs(s, s.pending);
      assert Lookup(s.pending, SIG_USR, s.cur) == LastSent(s.log, SIG_USR, s.cur);
    }
  }

  /** The send that a pending signal comes from: nothing has happened to its key since. */
  lemma {:induction false} LastSentAt(log: seq<Obs>, j: nat, sig: int, r: Tid, sender: Tid) returns (k: nat)
    requires j <= |log| && LastSent(log[..j], sig, r) == Some(sender)
    ensures k < j && log[k] == Sent(Entry(sig, sender, r))
    ensures forall m | k < m < j && (log[m].Sent? || log[m].Removed?) :: !HasKey(log[m].x, sig, r)
  {
    var o := log[j - 1];
    assert log[..j] == log[..j - 1] + [o];
    LogPush(log[..j - 1], o, sig, r);
    if o.Sent? && HasKey(o.x, sig, r) {
      k := j - 1;
    } else {
      k := LastSentAt(log, j - 1, sig, r, sender);
    }
  }

  /** The delivery at place `j` has its own send: the latest for its key, later than any earlier delivery. */
  ghost predicate OwnSend(log: seq<Obs>, j: nat)
    requires j < |log| && log[j].Removed?
  {
    exists k ::
      && 0 <= k < j && log[k] == Sent(log[j].x)
      && forall m | k < m < j && (log[m].Sent? || log[m].Removed?) :: !SameKey(log[m].x, log[j].x)
  }

  /**
   From start-up on every delivery is of the latest send to its receiver, by the sender it
   names, and no other delivery is of the same send.
   */
  lemma DeliveredExactlyOnce(main: Tid, idle: Tid, es: seq<Event>, j: nat)
    requires 0 < main < idle && Inv(Init(main, idle)) && Legal(Init(main, idle), es)
    requires j < |Run(Init(main, idle), es).log| && Run(Init(main, idle), es).log[j].Removed?
    ensures OwnSend(Run(Init(main, idle), es).log, j)
  {
    InitRecorded(main, idle);
    RunRecorded(Init(main, idle), es);
    var log := Run(Init(main, idle), es).log;
    var x := log[j].x;
    var k := LastSentAt(log, j, x.sig, x.receiver, x.sender);
    assert log[k] == Sent(log[j].x);
  }
}
