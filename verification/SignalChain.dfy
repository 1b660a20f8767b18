/**
 The chain schedule -> deliver -> exit -> schedule in closed form: who dies in it, who is left
 running, and which signals it uses up.
 */
module SignalChain {
  import opened Queues
  import opened SignalSpec
  import opened SignalPending
  import opened SignalInvariant

  /** A thread that will not survive its next dispatch. */
  ghost predicate Doomed(s: State, t: Tid) {
    t in s.tcb &&
    (KeyOcc(s.pending, SIG_KILL, t) > 0
     || (Expired(s, t) && SIG_CPU !in s.tcb[t].mask && SIG_CPU in s.tcb[t].accept))
  }

  lemma DiesIffDoomed(s: State)
    requires Inv(s)
    ensures Addressed(s) && (Dies(s) <==> Doomed(s, s.cur))
  {
    InvAddressed(s);
    CaughtIs(s, s.pending, SIG_KILL);
    CaughtIs(s, s.pending, SIG_CPU);
    NoEntry(s, SIG_CPU, s.cur);
  }

  lemma IdleNotDoomed(s: State)
    requires Inv(s)
    ensures !Doomed(s, s.idle)
  {
    NoEntry(s, SIG_KILL, s.idle);
  }

  /** The state in which the next thread of the chain meets its signals. */
  ghost function NextInChain(s: State): (r: State)
    requires Inv(s) && Addressed(s) && Dies(s)
    ensures Inv(r) && |r.live| < |s.live|
  {
    HandledInv(s);
    IdleSurvives(s);
    TerminatedInv(Handled(s));
    DispatchInv(Terminated(Handled(s)));
    Dispatch(Terminated(Handled(s)))
  }

  /** What a thread set for itself: nothing the kernel does at a switch changes it. */
  ghost predicate SameSettings(c: Tcb, c': Tcb) {
    c'.mask == c.mask && c'.accept == c.accept && c'.start == c.start && c'.maxlife == c.maxlife
  }

  ghost predicate SameThreads(s: State, r: State) {
    r.tcb.Keys == s.tcb.Keys && r.clock == s.clock && r.idle == s.idle
    && forall t | t in s.tcb :: SameSettings(s.tcb[t], r.tcb[t])
  }

  lemma HandledKeeps(s: State)
    requires Addressed(s)
    ensures var r := Handled(s);
            && SameThreads(s, r) && r.cur == s.cur
            && r.ready == s.ready + Woken(s, s.pending) && r.pending == Kept(s, s.pending)
    ensures forall t | t in s.tcb :: Live(Handled(s), t) <==> Live(Scanned(s), t)
  {
    var r := Scanned(s);
    assert Kept(s, s.pending) + [] == Kept(s, s.pending);
    assert SameThreads(s, r) && s.cur in r.tcb;
    HandlersKeep(r, Calls(s), UsrSender(s, s.pending));
  }

  lemma HandlersKeep(s: State, calls: set<int>, sender: Tid)
    requires s.cur in s.tcb
    ensures var r := HandlersRun(s, calls, sender);
            SameThreads(s, r) && r.cur == s.cur && r.ready == s.ready && r.pending == s.pending
    ensures forall t | t in s.tcb :: Live(HandlersRun(s, calls, sender), t) <==> Live(s, t)
  {
  }

  lemma TerminatedKeeps(s: State)
    requires s.cur in s.tcb
    ensures var r := Terminated(s);
            SameThreads(s, r) && r.ready == s.ready && forall t :: Live(r, t) <==> Live(s, t) && t != s.cur
  {
    assert SameThreads(s, Orphaned(s));
  }

  lemma DispatchKeeps(s: State)
    requires Live(s, Next(s))
    ensures var r := Dispatch(s); SameThreads(s, r) && r.pending == s.pending && forall t :: Live(r, t) <==> Live(s, t)
  {
  }

  /** One step of the chain: the dead thread is gone, all else about threads is as before. */
  lemma ChainKeeps(s: State)
    requires Inv(s) && Addressed(s) && Dies(s)
    ensures SameThreads(s, NextInChain(s))
    ensures forall t :: Live(NextInChain(s), t) <==> Live(s, t) && t != s.cur
  {
    var h := Handled(s);
    HandledInv(s);
    HandledKeeps(s);
    IdleSurvives(s);
    TerminatedInv(h);
    TerminatedKeeps(h);
    NextReady(Terminated(h));
    DispatchKeeps(Terminated(h));
    forall t ensures Live(h, t) <==> Live(s, t) {
      if t in s.tcb {
        ScannedThread(s, t);
      }
    }
  }

  /** The pending list along the chain: the filter, and perhaps one SIG_CHLD more. */
  lemma ChainPending(s: State, sig: int, t: Tid)
    requires Inv(s) && Addressed(s) && Dies(s) && t in s.tcb && sig != SIG_CHLD
    ensures var r := NextInChain(s);
            && Lookup(r.pending, sig, t) == (if DeliverableKey(s, sig, t) then None else Lookup(s.pending, sig, t))
            && KeyOcc(r.pending, sig, t) == (if DeliverableKey(s, sig, t) then 0 else KeyOcc(s.pending, sig, t))
  {
    var h := Handled(s);
    HandledInv(s);
    HandledKeeps(s);
    KeptLookup(s, s.pending, sig, t);
    assert KeyOcc(h.pending, sig, t) <= 1;
    PostLookup(h.pending, Entry(SIG_CHLD, NO_PARENT, h.tcb[h.cur].parent), sig, t);
  }

  lemma DoomKept(s: State, t: Tid)
    requires Inv(s) && Addressed(s) && Dies(s) && t != s.cur
    ensures Doomed(NextInChain(s), t) <==> Doomed(s, t)
  {
    ChainKeeps(s);
    if t in s.tcb {
      ChainPending(s, SIG_KILL, t);
      assert SameSettings(s.tcb[t], NextInChain(s).tcb[t]);
    }
  }

  // ----- the closed form -----

  /** The order in which threads can come to run: the running one, the ready ones, those that wake now. */
  ghost function Line(s: State): seq<Tid>
    requires Addressed(s)
  {
    [s.cur] + s.ready + Woken(s, s.pending)
  }

  /** How many threads at the front of `q` are doomed. */
  ghost function Lead(s: State, q: seq<Tid>): (k: nat)
    ensures k <= |q| && (forall i | 0 <= i < k :: Doomed(s, q[i])) && (k < |q| ==> !Doomed(s, q[k]))
  {
    if q == [] || !Doomed(s, q[0]) then 0 else 1 + Lead(s, q[1..])
  }

  lemma {:induction false} LeadSame(s: State, r: State, q: seq<Tid>)
    requires forall i | 0 <= i < |q| :: Doomed(s, q[i]) <==> Doomed(r, q[i])
    ensures Lead(s, q) == Lead(r, q)
  {
    if q != [] {
      LeadSame(s, r, q[1..]);
    }
  }

  /** After one delivery no SIG_UBLOCK is left that could wake anybody. */
  lemma NobodyLeftToWake(s: State)
    requires Inv(s) && Addressed(s) && Dies(s)
    ensures Addressed(NextInChain(s)) && Woken(NextInChain(s), NextInChain(s).pending) == []
  {
    var r := NextInChain(s);
    InvAddressed(r);
    ChainKeeps(s);
    var w := Woken(r, r.pending);
    forall t ensures Occ(w, t) == 0 {
      WokenOcc(r, r.pending, t);
      if t in s.tcb {
        ChainPending(s, SIG_UBLOCK, t);
        assert SameSettings(s.tcb[t], r.tcb[t]);
      }
    }
    if w != [] {
      OccAt(w, 0);
    }
  }

  lemma ReadyMovesUp(s: State)
    requires Inv(s) && Addressed(s) && Dies(s)
    ensures var r, ready := NextInChain(s), s.ready + Woken(s, s.pending);
            r.cur == (if ready != [] then ready[0] else s.idle) && r.ready == if ready != [] then ready[1..] else []
  {
    HandledKeeps(s);
    HandledInv(s);
    TerminatedKeeps(Handled(s));
  }

  /** The line moves up by one; when it is used up, idle is next. */
  lemma LineMovesUp(s: State)
    requires Inv(s) && Addressed(s) && Dies(s)
    ensures Addressed(NextInChain(s))
    ensures Line(NextInChain(s)) == if |Line(s)| > 1 then Line(s)[1..] else [s.idle]
  {
    NobodyLeftToWake(s);
    ReadyMovesUp(s);
    var r := NextInChain(s);
    MovedUp(s.cur, s.ready, Woken(s, s.pending), s.idle, r.cur, r.ready);
  }

  lemma MovedUp(cur: Tid, ready: seq<Tid>, woken: seq<Tid>, idle: Tid, cur': Tid, ready': seq<Tid>)
    requires var q := ready + woken;
             cur' == (if q != [] then q[0] else idle) && ready' == if q != [] then q[1..] else []
    ensures var line := [cur] + ready + woken; [cur'] + ready' + [] == if |line| > 1 then line[1..] else [idle]
  {
    var q := ready + woken;
    assert ([cur] + ready + woken)[1..] == q;
    if q != [] {
      assert q == [q[0]] + q[1..];
    }
  }

  lemma NotReady(s: State)
    requires Inv(s)
    ensures Addressed(s) && s.cur !in s.ready + Woken(s, s.pending)
  {
    InvAddressed(s);
    var w := Woken(s, s.pending);
    assert Listed(s, s.cur) && HasStatus(s, s.cur, Running);
    WokenOcc(s, s.pending, s.cur);
    OccAppend(s.ready, w, s.cur);
    OccFind(s.ready + w, s.cur);
  }

  /** The running thread is not also waiting in line. */
  lemma NotInLineTwice(s: State)
    requires Inv(s)
    ensures Addressed(s) && s.cur !in Line(s)[1..]
  {
    NotReady(s);
    assert Line(s)[1..] == s.ready + Woken(s, s.pending);
  }

  /** The doomed front of the line shrinks by the thread that died. */
  lemma LeadMovesUp(s: State)
    requires Inv(s) && Addressed(s) && Dies(s)
    ensures Addressed(NextInChain(s)) && NextInChain(s).idle == s.idle
    ensures Lead(s, Line(s)) == 1 + Lead(NextInChain(s), Line(NextInChain(s)))
  {
    var s1, q := NextInChain(s), Line(s);
    DiesIffDoomed(s);
    LineMovesUp(s);
    ChainKeeps(s);
    IdleNotDoomed(s1);
    if |q| > 1 {
      NotInLineTwice(s);
      forall i | 0 <= i < |q[1..]| ensures Doomed(s, q[1..][i]) <==> Doomed(s1, q[1..][i]) {
        assert q[1..][i] in q[1..];
        DoomKept(s, q[1..][i]);
      }
      LeadSame(s, s1, q[1..]);
    }
  }

  // The outcome when the first `k` threads of the line `q` are doomed.

  ghost function Runner(q: seq<Tid>, k: nat, idle: Tid): Tid {
    if k < |q| then q[k] else idle
  }

  ghost function Rest(q: seq<Tid>, k: nat): seq<Tid> {
    if k < |q| then q[k + 1..] else []
  }

  ghost function Tried(q: seq<Tid>, k: nat, idle: Tid): seq<Tid> {
    if k < |q| then q[..k + 1] else q + [idle]
  }

  lemma OutcomeMovesUp(q: seq<Tid>, k: nat, idle: Tid, q1: seq<Tid>, k1: nat)
    requires q != [] && k == 1 + k1 <= |q| && q1 == if |q| > 1 then q[1..] else [idle]
    ensures Runner(q, k, idle) == Runner(q1, k1, idle) && Rest(q, k) == Rest(q1, k1)
    ensures Tried(q, k, idle) == [q[0]] + Tried(q1, k1, idle)
    ensures k1 <= |q1| && q[..k] == [q[0]] + q1[..k1]
  {
    if |q| > 1 {
      assert q == [q[0]] + q1;
      assert k < |q| ==> q[..k + 1] == [q[0]] + q1[..k1 + 1];
    } else {
      assert q == [q[0]] && q1[..k1] == [];
    }
  }

  /**
   The chain in closed form.  Exactly the doomed threads at the front of the line die; the
   first one behind them that is not doomed is left running, or idle if there is none; the
   rest of the line is the new ready list.
   */
  lemma {:induction false} ChainClosedForm(s: State)
    requires Inv(s)
    ensures Addressed(s)
    ensures Settle(s).cur == Runner(Line(s), Lead(s, Line(s)), s.idle)
    ensures Settle(s).ready == Rest(Line(s), Lead(s, Line(s)))
    ensures forall t :: Live(Settle(s), t) <==> Live(s, t) && t !in Line(s)[..Lead(s, Line(s))]
    decreases |s.live|
  {
    InvAddressed(s);
    DiesIffDoomed(s);
    if Dies(s) {
      var s1 := NextInChain(s);
      ChainKeeps(s);
      ChainClosedForm(s1);
      ChainUnrolls(s);
    } else {
      ChainEnds(s);
    }
  }

  lemma ChainUnrolls(s: State)
    requires Inv(s) && Addressed(s) && Dies(s)
    ensures Addressed(NextInChain(s)) && NextInChain(s).idle == s.idle
    ensures var q, q1 := Line(s), Line(NextInChain(s)); var k, k1 := Lead(s, q), Lead(NextInChain(s), q1);
            && Runner(q, k, s.idle) == Runner(q1, k1, s.idle) && Rest(q, k) == Rest(q1, k1)
            && Tried(q, k, s.idle) == [s.cur] + Tried(q1, k1, s.idle) && q[..k] == [s.cur] + q1[..k1]
  {
    LineMovesUp(s);
    LeadMovesUp(s);
    var s1 := NextInChain(s);
    OutcomeMovesUp(Line(s), Lead(s, Line(s)), s.idle, Line(s1), Lead(s1, Line(s1)));
  }

  lemma ChainEnds(s: State)
    requires Inv(s) && Addressed(s) && !Dies(s)
    ensures Settle(s) == Handled(s) && Lead(s, Line(s)) == 0
    ensures Handled(s).cur == s.cur && Handled(s).ready == Line(s)[1..]
    ensures forall t :: Live(Handled(s), t) <==> Live(s, t)
  {
    DiesIffDoomed(s);
    HandledKeeps(s);
    assert Line(s)[1..] == s.ready + Woken(s, s.pending);
    forall t ensures Live(Handled(s), t) <==> Live(s, t) {
      if t in s.tcb {
        ScannedThread(s, t);
      }
    }
  }

  // ----- what the chain leaves behind -----

  /** A SIG_KILL pending at dispatch ends the receiver, whatever it masks or ignores. */
  lemma KillAtDispatchEnds(s: State)
    requires Inv(s) && KeyOcc(s.pending, SIG_KILL, s.cur) > 0
    ensures !Live(Settle(s), s.cur)
  {
    ChainClosedForm(s);
    var q, k := Line(s), Lead(s, Line(s));
    assert q[..k][0] == s.cur;
  }

  /** Nothing is left for the thread that ends up running but signals it masks and SIG_UBLOCK. */
  ghost predicate NothingDue(s: State) {
    Live(s, s.cur) &&
    forall sig {:trigger KeyOcc(s.pending, sig, s.cur)} :: KeyOcc(s.pending, sig, s.cur) > 0 ==>
      sig == SIG_UBLOCK || (sig != SIG_KILL && sig in s.tcb[s.cur].mask)
  }

  lemma {:induction false} SettledHasNothingDue(s: State)
    requires Inv(s)
    ensures NothingDue(Settle(s))
    decreases |s.live|
  {
    InvAddressed(s);
    HandledInv(s);
    if Dies(s) {
      SettledHasNothingDue(NextInChain(s));
    } else {
      var h := Handled(s);
      HandledKeeps(s);
      assert SameSettings(s.tcb[s.cur], h.tcb[s.cur]);
      assert HasStatus(h, h.cur, Running);
      forall sig ensures KeyOcc(h.pending, sig, h.cur) > 0 ==>
                           sig == SIG_UBLOCK || (sig != SIG_KILL && sig in h.tcb[h.cur].mask) {
        KeptLookup(s, s.pending, sig, s.cur);
      }
    }
  }

  /** The threads the chain dispatches, in order; the last one is left running. */
  ghost function Dispatched(s: State): seq<Tid>
    requires Addressed(s)
  {
    Tried(Line(s), Lead(s, Line(s)), s.idle)
  }

  /**
   Delivery is neither lost nor early: of the signals a thread must receive itself, the chain
   takes SIG_USR from exactly the dispatched threads that do not mask it, and SIG_KILL from
   exactly the dispatched ones; everybody else's stay, with their senders.
   */
  lemma {:induction false} ChainDelivers(s: State, sig: int, t: Tid)
    requires Inv(s) && t in s.tcb && (sig == SIG_KILL || sig == SIG_USR)
    ensures Addressed(s)
    ensures Lookup(Settle(s).pending, sig, t) ==
            if t in Dispatched(s) && (sig == SIG_KILL || sig !in s.tcb[t].mask) then None else Lookup(s.pending, sig, t)
    decreases |s.live|
  {
    InvAddressed(s);
    HandledInv(s);
    HandledKeeps(s);
    DiesIffDoomed(s);
    if Dies(s) {
      var s1 := NextInChain(s);
      ChainKeeps(s);
      ChainPending(s, sig, t);
      ChainUnrolls(s);
      assert SameSettings(s.tcb[t], s1.tcb[t]);
      ChainDelivers(s1, sig, t);
    } else {
      ChainEnds(s);
      assert Dispatched(s) == [s.cur];
      KeptLookup(s, s.pending, sig, t);
    }
  }

  /** SIG_UBLOCK is delivered whoever runs: the chain takes it from exactly the threads that let it through. */
  lemma {:induction false} ChainDeliversUblock(s: State, t: Tid)
    requires Inv(s) && t in s.tcb
    ensures Lookup(Settle(s).pending, SIG_UBLOCK, t) ==
            if DeliverableKey(s, SIG_UBLOCK, t) then None else Lookup(s.pending, SIG_UBLOCK, t)
    decreases |s.live|
  {
    InvAddressed(s);
    if Dies(s) {
      var s1 := NextInChain(s);
      ChainKeeps(s);
      ChainPending(s, SIG_UBLOCK, t);
      assert SameSettings(s.tcb[t], s1.tcb[t]);
      ChainDeliversUblock(s1, t);
    } else {
      ChainEnds(s);
      HandledKeeps(s);
      KeptLookup(s, s.pending, SIG_UBLOCK, t);
    }
  }

  // SIG_CHLD is also what the chain itself sends.

  /** The threads that die in the chain, in order. */
  ghost function Died(s: State): seq<Tid>
    requires Addressed(s)
  {
    Line(s)[..Lead(s, Line(s))]
  }

  /** Does a child of `t` die, `t` itself not having died before? */
  ghost predicate Bereaved(s: State, died: seq<Tid>, t: Tid) {
    exists i :: 0 <= i < |died| && died[i] in s.tcb && s.tcb[died[i]].parent == t && t !in died[..i]
  }

  lemma LineLive(s: State, i: nat)
    requires Inv(s) && Addressed(s) && i < |Line(s)|
    ensures Live(s, Line(s)[i])
  {
    var t, w := Line(s)[i], Woken(s, s.pending);
    assert Listed(s, t) && (HasStatus(s, t, Running) <==> t == s.cur);
    if 0 < i <= |s.ready| {
      assert t == s.ready[i - 1];
      OccAt(s.ready, i - 1);
    } else if i > |s.ready| {
      assert t == w[i - 1 - |s.ready|];
      WokenOcc(s, s.pending, t);
    } else {
      assert t == s.cur;
    }
  }

  /** After its death nobody who can still die has the running thread as parent. */
  lemma NoLaterOrphan(s: State)
    requires Inv(s) && Addressed(s) && Dies(s)
    ensures Addressed(NextInChain(s)) && !Bereaved(NextInChain(s), Died(NextInChain(s)), s.cur)
  {
    var r := NextInChain(s);
    InvAddressed(r);
    ChainKeeps(s);
    var q := Line(r);
    forall i: nat | i < |q| ensures q[i] in r.tcb && r.tcb[q[i]].parent != s.cur {
      LineLive(r, i);
      assert Parented(r, q[i]);
      assert Listed(s, s.cur) && HasStatus(s, s.cur, Running);
    }
  }

  lemma TerminatedParent(s: State, x: Tid, t: Tid)
    requires s.cur in s.tcb && t != s.cur && t != NO_PARENT
    ensures var r := Terminated(s);
            x in r.tcb && r.tcb[x].parent == t <==> x in s.tcb && s.tcb[x].parent == t
  {
  }

  lemma ParentsKept(s: State, x: Tid, t: Tid)
    requires Inv(s) && Addressed(s) && Dies(s) && t in s.tcb && t != s.cur
    ensures var r := NextInChain(s); x in r.tcb && r.tcb[x].parent == t <==> x in s.tcb && s.tcb[x].parent == t
  {
    var h := Handled(s);
    assert t != NO_PARENT by {
      assert Listed(s, t);
    }
    HandledKeeps(s);
    HandledParent(s, x);
    TerminatedParent(h, x, t);
    HandledInv(s);
    IdleSurvives(s);
    TerminatedInv(h);
    NextReady(Terminated(h));
    DispatchParent(Terminated(h), x, t);
  }

  lemma DispatchParent(s: State, x: Tid, t: Tid)
    requires Live(s, Next(s))
    ensures var r := Dispatch(s); x in r.tcb && r.tcb[x].parent == t <==> x in s.tcb && s.tcb[x].parent == t
  {
  }

  lemma HandledParent(s: State, x: Tid)
    requires Addressed(s)
    ensures x in Handled(s).tcb <==> x in s.tcb
    ensures x in s.tcb ==> Handled(s).tcb[x].parent == s.tcb[x].parent
  {
    if x in s.tcb {
      ScannedThread(s, x);
    }
  }

  lemma BereavedStep(s: State, r: State, died: seq<Tid>, t: Tid)
    requires s.cur in s.tcb && s.tcb[s.cur].parent != s.cur
    requires t != s.cur ==> forall x :: x in r.tcb && r.tcb[x].parent == t <==> x in s.tcb && s.tcb[x].parent == t
    ensures Bereaved(s, [s.cur] + died, t) <==> s.tcb[s.cur].parent == t || (t != s.cur && Bereaved(r, died, t))
  {
    var q := [s.cur] + died;
    if s.tcb[s.cur].parent == t {
      assert q[0] == s.cur && t !in q[..0];
    }
    if t != s.cur && Bereaved(r, died, t) {
      var i :| 0 <= i < |died| && died[i] in r.tcb && r.tcb[died[i]].parent == t && t !in died[..i];
      assert q[i + 1] == died[i] && q[..i + 1] == [s.cur] + died[..i];
    }
    if Bereaved(s, q, t) && s.tcb[s.cur].parent != t {
      var i :| 0 <= i < |q| && q[i] in s.tcb && s.tcb[q[i]].parent == t && t !in q[..i];
      assert q[i] == died[i - 1] && q[..i] == [s.cur] + died[..i - 1];
    }
  }

  /** One step of the chain for SIG_CHLD: the dead thread's parent is sent one, its own is gone unless masked. */
  lemma ChainPendingChld(s: State, t: Tid)
    requires Inv(s) && Addressed(s) && Dies(s) && t in s.tcb
    ensures Lookup(NextInChain(s).pending, SIG_CHLD, t).Some? <==>
              s.tcb[s.cur].parent == t
              || (Lookup(s.pending, SIG_CHLD, t).Some? && !(t == s.cur && SIG_CHLD !in s.tcb[t].mask))
  {
    HandledInv(s);
    IdleSurvives(s);
    HandledKeeps(s);
    HandledParent(s, s.cur);
    KeptLookup(s, s.pending, SIG_CHLD, t);
    TerminatedChld(Handled(s), t);
  }

  lemma TerminatedChld(s: State, t: Tid)
    requires Inv(s) && t in s.tcb
    ensures Lookup(Terminated(s).pending, SIG_CHLD, t).Some? <==>
              s.tcb[s.cur].parent == t || Lookup(s.pending, SIG_CHLD, t).Some?
  {
    assert KeyOcc(s.pending, SIG_CHLD, t) <= 1;
    PostLookup(s.pending, Entry(SIG_CHLD, NO_PARENT, s.tcb[s.cur].parent), SIG_CHLD, t);
    assert Parented(s, s.cur) && Listed(s, t) && HasStatus(s, s.cur, Running);
  }

  /**
   After the chain a SIG_CHLD is pending for `t` exactly if `t` was not dispatched in it, or
   masks the signal, and one was pending before or a child of `t` has died while `t` lived.
   */
  lemma {:induction false} ChainDeliversChld(s: State, t: Tid)
    requires Inv(s) && t in s.tcb
    ensures Addressed(s)
    ensures Lookup(Settle(s).pending, SIG_CHLD, t).Some? <==>
              !(t in Dispatched(s) && SIG_CHLD !in s.tcb[t].mask)
              && (Lookup(s.pending, SIG_CHLD, t).Some? || Bereaved(s, Died(s), t))
    decreases |s.live|
  {
    InvAddressed(s);
    HandledKeeps(s);
    DiesIffDoomed(s);
    if Dies(s) {
      ChainChldUnrolls(s, t);
      ChainDeliversChld(NextInChain(s), t);
    } else {
      ChainEnds(s);
      assert Dispatched(s) == [s.cur] && Died(s) == [];
      KeptLookup(s, s.pending, SIG_CHLD, t);
    }
  }

  lemma ChainChldUnrolls(s: State, t: Tid)
    requires Inv(s) && Addressed(s) && Dies(s) && t in s.tcb
    ensures var r := NextInChain(s);
            && Addressed(r) && t in r.tcb && r.tcb[t].mask == s.tcb[t].mask
            && (Lookup(r.pending, SIG_CHLD, t).Some? <==>
                s.tcb[s.cur].parent == t
                || (Lookup(s.pending, SIG_CHLD, t).Some? && !(t == s.cur && SIG_CHLD !in s.tcb[t].mask)))
            && Dispatched(s) == [s.cur] + Dispatched(r)
            && (Bereaved(s, Died(s), t) <==> s.tcb[s.cur].parent == t || (t != s.cur && Bereaved(r, Died(r), t)))
            && s.tcb[s.cur].parent != s.cur && (t == s.cur ==> !Bereaved(r, Died(r), t))
  {
    var r := NextInChain(s);
    ChainKeeps(s);
    ChainPendingChld(s, t);
    ChainUnrolls(s);
    NoLaterOrphan(s);
    assert SameSettings(s.tcb[t], r.tcb[t]);
    assert Parented(s, s.cur) && Listed(s, s.cur) && HasStatus(s, s.cur, Running);
    if t != s.cur {
      forall x ensures x in r.tcb && r.tcb[x].parent == t <==> x in s.tcb && s.tcb[x].parent == t {
        ParentsKept(s, x, t);
      }
    }
    BereavedStep(s, r, Died(r), t);
  }
}
