/**
 What holds between any two kernel operations: all_list, the ready list, the parent forest
 and the pending list are consistent with the threads' states.
 */
module SignalInvariant {
  import opened Queues
  import opened SignalSpec
  import opened SignalPending

  /**
   A live thread is in all_list once.  Ready threads are in the ready list once and others are
   not; only the idle thread may be ready outside it.
   */
  ghost predicate Listed(s: State, t: Tid) {
    && Occ(s.live, t) == (if Live(s, t) then 1 else 0)
    && Occ(s.ready, t) <= 1
    && (Occ(s.ready, t) == 1 ==> HasStatus(s, t, Ready))
    && (HasStatus(s, t, Ready) && t != s.idle ==> Occ(s.ready, t) == 1)
    && (t in s.tcb ==> 0 < t < s.nextTid)
  }

  /** The parent is the creator while that lives, and nobody afterwards; creators are older. */
  ghost predicate Parented(s: State, t: Tid) {
    && (t in s.creator ==> t in s.tcb && s.creator[t] in s.tcb && s.creator[t] < t)
    && (Live(s, t) ==> s.tcb[t].parent == if t in s.creator && Live(s, s.creator[t]) then s.creator[t] else NO_PARENT)
  }

  /** CPU is never queued; a pending SIG_KILL comes from the receiver's creator. */
  ghost predicate EntryOk(s: State, x: Entry) {
    && x.receiver in s.tcb
    && (x.sig == SIG_KILL || x.sig == SIG_UBLOCK || x.sig == SIG_USR || x.sig == SIG_CHLD)
    && (x.sig == SIG_KILL ==> x.receiver in s.creator && s.creator[x.receiver] == x.sender)
    && (x.sig == SIG_CHLD ==> x.sender == NO_PARENT)
  }

  ghost predicate EntriesOk(s: State, q: seq<Entry>) {
    forall i | 0 <= i < |q| :: EntryOk(s, q[i])
  }

  /** No user thread created idle, and idle never limits its lifetime. */
  ghost predicate IdleOk(s: State) {
    Live(s, s.idle) && s.tcb[s.idle].maxlife == 0 && s.idle !in s.creator
  }

  ghost predicate Consistent(s: State) {
    && (forall t {:trigger Listed(s, t)} :: Listed(s, t))
    && (forall t {:trigger Parented(s, t)} :: Parented(s, t))
    && EntriesOk(s, s.pending) && OnePerKey(s.pending)
    && IdleOk(s)
  }

  ghost predicate Inv(s: State) {
    && Consistent(s) && s.cur in s.tcb
    && forall t {:trigger HasStatus(s, t, Running)} :: HasStatus(s, t, Running) <==> t == s.cur
  }

  /** What holds just before Dispatch: nobody is running. */
  ghost predicate BetweenThreads(s: State) {
    Consistent(s) && forall t {:trigger HasStatus(s, t, Running)} :: !HasStatus(s, t, Running)
  }

  // ----- facts about the pieces -----

  lemma InvAddressed(s: State)
    requires Inv(s)
    ensures Addressed(s) && Receivable(s, s.pending)
  {
    assert forall i | 0 <= i < |s.pending| :: EntryOk(s, s.pending[i]);
  }

  lemma {:induction false} KeptOk(s: State, q: seq<Entry>)
    requires Receivable(s, q) && EntriesOk(s, q)
    ensures EntriesOk(s, Kept(s, q))
  {
    if q != [] {
      KeptOk(s, q[..|q| - 1]);
    }
  }

  lemma {:induction false} PostOk(s: State, q: seq<Entry>, x: Entry)
    requires EntriesOk(s, q) && EntryOk(s, x)
    ensures EntriesOk(s, Post(q, x))
  {
    if q != [] && !SameKey(q[0], x) {
      PostOk(s, q[1..], x);
    }
  }

  /** Entries stay good while threads and creators are only added. */
  lemma EntriesFrame(s: State, r: State, q: seq<Entry>)
    requires EntriesOk(s, q) && s.tcb.Keys <= r.tcb.Keys
    requires forall t | t in s.creator :: t in r.creator && r.creator[t] == s.creator[t]
    ensures EntriesOk(r, q)
  {
    forall i | 0 <= i < |q| ensures EntryOk(r, q[i]) {
      assert EntryOk(s, q[i]);
    }
  }

  /** Exactly the blocked receivers of delivered SIG_UBLOCKs wake, each once. */
  lemma {:induction false} WokenOcc(s: State, q: seq<Entry>, t: Tid)
    requires Receivable(s, q)
    ensures Occ(Woken(s, q), t) ==
            if HasStatus(s, t, Blocked) && DeliverableKey(s, SIG_UBLOCK, t) && KeyOcc(q, SIG_UBLOCK, t) > 0 then 1
            else 0
    ensures t in Woken(s, q) <==> Occ(Woken(s, q), t) == 1
  {
    if q != [] {
      var front, x := q[..|q| - 1], q[|q| - 1];
      var w := Woken(s, front);
      WokenOcc(s, front, t);
      WokenOcc(s, front, x.receiver);
      OccPush(w, x.receiver, t);
      assert w + [] == w;
    }
  }

  lemma {:induction false} WithoutOcc(q: seq<Tid>, t: Tid, x: Tid)
    ensures Occ(Without(q, t), x) == if x == t then 0 else Occ(q, x)
  {
    if q != [] {
      var front, y := q[..|q| - 1], q[|q| - 1];
      WithoutOcc(front, t, x);
      if y != t {
        OccPush(Without(front, t), y, x);
      }
    }
  }

  lemma {:induction false} WithoutSize(q: seq<Tid>, t: Tid)
    ensures |Without(q, t)| == |q| - Occ(q, t)
  {
    if q != [] {
      WithoutSize(q[..|q| - 1], t);
    }
  }

  // ----- preservation, piece by piece -----

  /** Delivery changes no thread but to wake it. */
  lemma ScannedThread(s: State, t: Tid)
    requires Addressed(s) && t in s.tcb
    ensures var r := Scanned(s);
            t in r.tcb && r.tcb[t] == if t in Woken(s, s.pending) then s.tcb[t].(status := Ready) else s.tcb[t]
    ensures t in Woken(s, s.pending) ==> s.tcb[t].status == Blocked
  {
    WokenOcc(s, s.pending, t);
  }

  lemma ScannedListed(s: State, t: Tid)
    requires Addressed(s) && Listed(s, t) && (HasStatus(s, t, Running) <==> t == s.cur)
    ensures Listed(Scanned(s), t) && (HasStatus(Scanned(s), t, Running) <==> t == s.cur)
  {
    WokenOcc(s, s.pending, t);
    OccAppend(s.ready, Woken(s, s.pending), t);
    if t in s.tcb {
      ScannedThread(s, t);
    }
  }

  lemma ScannedInv(s: State)
    requires Inv(s)
    ensures Addressed(s) && Inv(Scanned(s)) && Scanned(s).cur == s.cur && Scanned(s).live == s.live
  {
    InvAddressed(s);
    var r := Scanned(s);
    forall t ensures Listed(r, t) && (HasStatus(r, t, Running) <==> t == s.cur) {
      assert Listed(s, t) && (HasStatus(s, t, Running) <==> t == s.cur);
      ScannedListed(s, t);
    }
    forall t ensures Parented(r, t) {
      assert Parented(s, t);
      if t in s.tcb {
        ScannedThread(s, t);
        if t in s.creator {
          ScannedThread(s, s.creator[t]);
        }
      }
    }
    ScannedThread(s, s.idle);
    KeptOk(s, s.pending);
    assert r.pending == Kept(s, s.pending);
    EntriesFrame(s, r, r.pending);
    forall sig, x ensures KeyOcc(r.pending, sig, x) <= 1 {
      KeptLookup(s, s.pending, sig, x);
      assert KeyOcc(s.pending, sig, x) <= 1;
    }
  }

  lemma SendInv(s: State, x: Entry)
    requires Consistent(s) && EntryOk(s, x)
    ensures Consistent(Send(s, x))
  {
    var r := Send(s, x);
    forall t ensures Listed(r, t) && Parented(r, t) {
      assert Listed(s, t) && Parented(s, t);
    }
    PostOk(s, s.pending, x);
    EntriesFrame(s, r, r.pending);
    forall sig, t ensures KeyOcc(r.pending, sig, t) <= 1 {
      assert KeyOcc(s.pending, sig, t) <= 1;
      PostLookup(s.pending, x, sig, t);
    }
  }

  lemma ChldHandledInv(s: State)
    requires Inv(s)
    ensures Inv(ChldHandled(s))
  {
    var r := ChldHandled(s);
    forall t ensures Listed(r, t) && Parented(r, t) && (HasStatus(r, t, Running) <==> t == s.cur) {
      assert Listed(s, t) && Parented(s, t);
      assert HasStatus(s, t, Running) <==> t == s.cur;
    }
    EntriesFrame(s, r, r.pending);
  }

  lemma UsrHandledInv(s: State, sender: Tid)
    requires Inv(s)
    ensures Inv(UsrHandled(s, sender))
  {
    var r := UsrHandled(s, sender);
    forall t ensures Listed(r, t) && Parented(r, t) && (HasStatus(r, t, Running) <==> t == s.cur) {
      assert Listed(s, t) && Parented(s, t);
      assert HasStatus(s, t, Running) <==> t == s.cur;
    }
    EntriesFrame(s, r, r.pending);
  }

  lemma HandledInv(s: State)
    requires Inv(s)
    ensures Addressed(s) && Inv(Handled(s)) && Handled(s).cur == s.cur && Handled(s).live == s.live
  {
    ScannedInv(s);
    var r := Scanned(s);
    UsrHandledInv(r, UsrSender(s, s.pending));
    var u := if SIG_USR in Calls(s) then UsrHandled(r, UsrSender(s, s.pending)) else r;
    ChldHandledInv(u);
  }

  /** The thread that dies leaves all_list; its children have no parent any more. */
  lemma TerminatedInv(s: State)
    requires Inv(s) && s.cur != s.idle
    ensures BetweenThreads(Terminated(s)) && |Terminated(s).live| == |s.live| - 1
    ensures !Live(Terminated(s), s.cur)
  {
    var r, p := Orphaned(s), s.tcb[s.cur].parent;
    assert Listed(s, s.cur) && HasStatus(s, s.cur, Running);
    WithoutSize(s.live, s.cur);
    forall t ensures Listed(r, t) && !HasStatus(r, t, Running) {
      assert Listed(s, t) && (HasStatus(s, t, Running) <==> t == s.cur);
      WithoutOcc(s.live, s.cur, t);
    }
    forall t ensures Parented(r, t) {
      assert Parented(s, t);
      if t in s.creator {
        assert Parented(s, s.creator[t]);
      }
    }
    EntriesFrame(s, r, s.pending);
    if Live(s, p) {
      SendInv(r, Entry(SIG_CHLD, NO_PARENT, p));
      forall t ensures !HasStatus(Terminated(s), t, Running) {
        assert !HasStatus(r, t, Running);
      }
    }
  }

  lemma NextReady(s: State)
    requires Consistent(s)
    ensures Live(s, Next(s)) && (s.ready != [] ==> HasStatus(s, s.ready[0], Ready))
  {
    if s.ready != [] {
      OccAt(s.ready, 0);
      assert Listed(s, s.ready[0]);
    }
  }

  /** Any next thread: the ready list without its front, that thread running. */
  lemma DispatchInv(s: State)
    requires BetweenThreads(s)
    ensures Next(s) in s.tcb && Inv(Dispatch(s)) && Dispatch(s).live == s.live
  {
    NextReady(s);
    var r := Dispatch(s);
    forall t ensures Listed(r, t) && (HasStatus(r, t, Running) <==> t == r.cur) {
      assert Listed(s, t) && !HasStatus(s, t, Running);
      if s.ready != [] {
        OccPop(s.ready, t);
      }
    }
    forall t ensures Parented(r, t) {
      assert Parented(s, t);
    }
    EntriesFrame(s, r, s.pending);
  }

  // ----- the chain of deliveries -----

  /** idle cannot die: nobody is its parent and its lifetime is unlimited. */
  lemma IdleSurvives(s: State)
    requires Inv(s)
    ensures Addressed(s) && (Dies(s) ==> s.cur != s.idle)
  {
    InvAddressed(s);
    CaughtIs(s, s.pending, SIG_KILL);
    CaughtIs(s, s.pending, SIG_CPU);
    NoEntry(s, SIG_KILL, s.idle);
    NoEntry(s, SIG_CPU, s.idle);
  }

  /** No SIG_KILL for a thread without creator, and no SIG_CPU for anybody, is ever pending. */
  lemma NoEntry(s: State, sig: int, r: Tid)
    requires Inv(s) && ((sig == SIG_KILL && r !in s.creator) || sig == SIG_CPU)
    ensures KeyOcc(s.pending, sig, r) == 0
  {
    NoEntryIn(s, s.pending, sig, r);
  }

  lemma {:induction false} NoEntryIn(s: State, q: seq<Entry>, sig: int, r: Tid)
    requires EntriesOk(s, q) && ((sig == SIG_KILL && r !in s.creator) || sig == SIG_CPU)
    ensures KeyOcc(q, sig, r) == 0
  {
    if q != [] {
      assert EntryOk(s, q[|q| - 1]);
      NoEntryIn(s, q[..|q| - 1], sig, r);
    }
  }

  /**
   handleSignals() for the thread just dispatched, with everything it leads to: a thread that
   dies is replaced by the next one, until one survives its signals.
   */
  ghost function Settle(s: State): (r: State)
    requires Inv(s)
    ensures Inv(r)
    decreases |s.live|
  {
    HandledInv(s);
    var h := Handled(s);
    if Dies(s) then
      IdleSurvives(s);
      TerminatedInv(h);
      DispatchInv(Terminated(h));
      Settle(Dispatch(Terminated(h)))
    else
      h
  }
}
