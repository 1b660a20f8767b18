/** The kernel's operations as events, and runs of them. */
module SignalSteps {
  import opened Queues
  import opened SignalSpec
  import opened SignalPending
  import opened SignalInvariant

  datatype Event =
    | Create
    | Unblock(t: Tid)
    | Block
    | Yield
    | Exit
    | Tick
    | Kill(tid: Tid, sig: int)
    | Signal(sig: int, action: int)
    | ProcMask(how: int, op: set<int>)
    | SetLifetime(life: nat)

  /** idle only ever blocks; timer interrupts and unblocking from them can hit any thread. */
  ghost predicate Enabled(s: State, e: Event) {
    match e
    case Unblock(t) => HasStatus(s, t, Blocked) && t != s.idle
    case Block => true
    case Tick => true
    case _ => s.cur != s.idle
  }

  /** A change of the running thread's own fields other than its status and parent. */
  ghost function WithOwn(s: State, c: Tcb): State
    requires s.cur in s.tcb && c.status == s.tcb[s.cur].status && c.parent == s.tcb[s.cur].parent
  {
    s.(tcb := s.tcb[s.cur := c])
  }

  lemma WithOwnInv(s: State, c: Tcb)
    requires Inv(s) && c.status == s.tcb[s.cur].status && c.parent == s.tcb[s.cur].parent
    requires s.cur == s.idle ==> c.maxlife == 0
    ensures Inv(WithOwn(s, c))
  {
    var r := WithOwn(s, c);
    forall t ensures Listed(r, t) && Parented(r, t) && (HasStatus(r, t, Running) <==> t == s.cur) {
      assert Listed(s, t) && Parented(s, t);
      assert HasStatus(s, t, Running) <==> t == s.cur;
    }
    EntriesFrame(s, r, r.pending);
  }

  lemma BlockingInv(s: State)
    requires Inv(s)
    ensures BetweenThreads(Blocking(s))
  {
    var r := Blocking(s);
    assert Listed(s, s.cur) && HasStatus(s, s.cur, Running);
    forall t ensures Listed(r, t) && Parented(r, t) && !HasStatus(r, t, Running) {
      assert Listed(s, t) && Parented(s, t);
      assert HasStatus(s, t, Running) <==> t == s.cur;
    }
    EntriesFrame(s, r, r.pending);
  }

  lemma YieldingInv(s: State)
    requires Inv(s)
    ensures BetweenThreads(Yielding(s))
  {
    var r := Yielding(s);
    assert Listed(s, s.cur) && HasStatus(s, s.cur, Running);
    forall t ensures Listed(r, t) && !HasStatus(r, t, Running) {
      assert Listed(s, t);
      assert HasStatus(s, t, Running) <==> t == s.cur;
      OccPush(s.ready, s.cur, t);
    }
    forall t ensures Parented(r, t) {
      assert Parented(s, t);
    }
    EntriesFrame(s, r, r.pending);
  }

  lemma UnblockedInv(s: State, x: Tid)
    requires Inv(s) && HasStatus(s, x, Blocked)
    ensures Inv(Unblocked(s, x))
  {
    var r := Unblocked(s, x);
    assert Listed(s, x);
    forall t ensures Listed(r, t) && Parented(r, t) && (HasStatus(r, t, Running) <==> t == s.cur) {
      assert Listed(s, t) && Parented(s, t);
      assert HasStatus(s, t, Running) <==> t == s.cur;
      OccPush(s.ready, x, t);
    }
    EntriesFrame(s, r, r.pending);
  }

  lemma CreatedListed(s: State, t: Tid)
    requires s.nextTid !in s.tcb && Listed(s, t) && Listed(s, s.nextTid) && Listed(s, s.cur)
    requires HasStatus(s, s.cur, Running) && (HasStatus(s, t, Running) <==> t == s.cur)
    ensures Listed(Created(s), t) && (HasStatus(Created(s), t, Running) <==> t == s.cur)
  {
    CreatedStatus(s, t);
    OccPush(s.live, s.nextTid, t);
    OccPush(s.ready, s.nextTid, t);
  }

  lemma CreatedStatus(s: State, t: Tid)
    requires s.cur in s.tcb
    ensures var r := Created(s);
            && (t in r.tcb <==> t == s.nextTid || t in s.tcb)
            && (t in r.tcb ==> r.tcb[t].status == if t == s.nextTid then Ready else s.tcb[t].status)
  {
  }

  lemma CreatedInv(s: State)
    requires Inv(s) && s.cur != s.idle
    ensures Inv(Created(s))
  {
    var r, x := Created(s), s.nextTid;
    assert Listed(s, x) && Listed(s, s.cur) && HasStatus(s, s.cur, Running);
    forall t ensures Listed(r, t) && (HasStatus(r, t, Running) <==> t == s.cur) {
      assert Listed(s, t) && (HasStatus(s, t, Running) <==> t == s.cur);
      CreatedListed(s, t);
    }
    assert Parented(s, x);
    forall t ensures Parented(r, t) {
      assert Parented(s, t);
    }
    EntriesFrame(s, r, r.pending);
  }

  lemma KilledInv(s: State, tid: Tid, sig: int)
    requires Inv(s)
    ensures Inv(Killed(s, tid, sig))
  {
    if Accepts(s, tid, sig) {
      assert Parented(s, tid) && Listed(s, s.cur);
      SendInv(s, Entry(sig, s.cur, tid));
      var r := Killed(s, tid, sig);
      forall t ensures HasStatus(r, t, Running) <==> t == s.cur {
        assert HasStatus(s, t, Running) <==> t == s.cur;
      }
    }
  }

  /** schedule() once the running thread has left: the next thread, and the chain its signals start. */
  ghost function Switch(s: State): (r: State)
    requires BetweenThreads(s)
    ensures Inv(r)
  {
    DispatchInv(s);
    Settle(Dispatch(s))
  }

  ghost function Ticked(s: State): State {
    s.(clock := s.clock + 1, ticks := s.ticks + 1)
  }

  lemma TickedInv(s: State)
    requires Inv(s)
    ensures Inv(Ticked(s))
  {
    var r := Ticked(s);
    forall t ensures Listed(r, t) && Parented(r, t) && (HasStatus(r, t, Running) <==> t == s.cur) {
      assert Listed(s, t) && Parented(s, t);
      assert HasStatus(s, t, Running) <==> t == s.cur;
    }
    EntriesFrame(s, r, r.pending);
  }

  /** One event.  Every one of them keeps the invariant. */
  ghost function Apply(s: State, e: Event): (r: State)
    requires Inv(s) && Enabled(s, e)
    ensures Inv(r)
  {
    var c := s.tcb[s.cur];
    match e
    case Create => CreatedInv(s); Created(s)
    case Unblock(t) => UnblockedInv(s, t); Unblocked(s, t)
    case Block => BlockingInv(s); Switch(Blocking(s))
    case Yield => YieldingInv(s); Switch(Yielding(s))
    case Exit => TerminatedInv(s); Switch(Terminated(s))
    case Tick =>
      TickedInv(s);
      if Ticked(s).ticks >= TIME_SLICE then
        YieldingInv(Ticked(s));
        Switch(Yielding(Ticked(s)))
      else Ticked(s)
    case Kill(tid, sig) => KilledInv(s, tid, sig); Killed(s, tid, sig)
    case Signal(sig, action) =>
      WithOwnInv(s, c.(accept := Disposed(c.accept, sig, action)));
      WithOwn(s, c.(accept := Disposed(c.accept, sig, action)))
    case ProcMask(how, op) =>
      WithOwnInv(s, c.(mask := Masked(c.mask, how, op)));
      WithOwn(s, c.(mask := Masked(c.mask, how, op)))
    case SetLifetime(life) =>
      WithOwnInv(s, c.(maxlife := life));
      WithOwn(s, c.(maxlife := life))
  }

  /** After start-up: main runs, idle is blocked and nobody's child. */
  ghost function Init(main: Tid, idle: Tid): State
    requires 0 < main < idle
  {
    State(map[main := Tcb(Running, NO_PARENT, ALL_BITS, {}, 0, 0, 0, 0),
              idle := Tcb(Blocked, NO_PARENT, ALL_BITS, {}, 0, 0, 0, 0)],
          [main, idle], [], [], main, idle, 0, 0, idle + 1, map[], [])
  }

  lemma InitInv(main: Tid, idle: Tid)
    requires 0 < main < idle
    ensures Inv(Init(main, idle))
  {
    var s := Init(main, idle);
    forall t ensures Listed(s, t) && Parented(s, t) && (HasStatus(s, t, Running) <==> t == s.cur) {
      OccPush([main], idle, t);
      OccPush([], main, t);
      assert [] + [main] == [main] && [main] + [idle] == [main, idle];
    }
  }

  // ----- runs -----

  ghost predicate Legal(s: State, es: seq<Event>)
    requires Inv(s)
    decreases |es|
  {
    es == [] || (Enabled(s, es[0]) && Legal(Apply(s, es[0]), es[1..]))
  }

  /** The state after all of `es`. */
  ghost function Run(s: State, es: seq<Event>): (r: State)
    requires Inv(s) && Legal(s, es)
    ensures Inv(r)
    decreases |es|
  {
    if es == [] then s else Run(Apply(s, es[0]), es[1..])
  }
}
