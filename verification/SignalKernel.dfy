/**
 Threads with signals in the form of Pintos/Added_Signals: thread structures, lists and
 signal bytes updated in place.  Every operation is proved to compute the function of
 SignalSpec, SignalInvariant or SignalSteps with the same meaning.
 */
module SignalKernel {
  import opened Basics
  import opened Queues
  import opened SignalSpec
  import opened SignalPending
  import opened SignalInvariant
  import opened SignalSteps
  import opened SignalBits
  import opened SignalCalls

  /** struct thread */
  class Thread {
    const tid: Tid
    var status: Status
    var parent: Tid
    var sigign: Byte
    var sigmask: Byte
    var starttime: int
    var maxlifetime: nat
    var child: int
    var dchild: int

    /** A new blocked thread that accepts every signal and masks none. */
    constructor (tid: Tid, parent: Tid, starttime: int)
      ensures this.tid == tid
      ensures Value() == Tcb(Blocked, parent, ALL_BITS, {}, starttime, 0, 0, 0)
    {
      this.tid := tid;
      status := Blocked;
      this.parent := parent;
      sigign := !0;
      sigmask := 0;
      this.starttime := starttime;
      maxlifetime, child, dchild := 0, 0, 0;
      EmptyAndFull();
    }

    ghost function Value(): Tcb
      reads this
    {
      Tcb(status, parent, Bits(sigign), Bits(sigmask), starttime, maxlifetime, child, dchild)
    }
  }

  /** A sigset_t variable of a caller. */
  class SigSet {
    var bits: Byte

    constructor (bits: Byte)
      ensures this.bits == bits
    {
      this.bits := bits;
    }
  }

  class Kernel {
    var threads: map<Tid, Thread>  // every structure ever allocated
    var allList: seq<Tid>
    var readyList: seq<Tid>
    var sigList: seq<Entry>
    var current: Tid
    const idleThread: Tid
    var threadTicks: int
    var clockCount: int
    var nextTid: Tid
    ghost var creator: map<Tid, Tid>
    ghost var log: seq<Obs>

    /** Thread structures are distinct objects that know their own tid. */
    ghost predicate Valid()
      reads this`threads
    {
      forall t | t in threads :: threads[t].tid == t
    }

    ghost function View(): State
      reads this, threads.Values
    {
      State(map t | t in threads :: threads[t].Value(), allList, readyList, sigList, current, idleThread,
            threadTicks, clockCount, nextTid, creator, log)
    }

    /** After start-up: main runs, idle has blocked. */
    constructor ()
      ensures Valid() && View() == Init(1, 2) && Inv(View())
      ensures fresh(threads.Values)
    {
      var main := new Thread(1, NO_PARENT, 0);
      var idle := new Thread(2, NO_PARENT, 0);
      main.status := Running;
      threads := map[1 := main, 2 := idle];
      allList, readyList, sigList := [1, 2], [], [];
      current, idleThread := 1, 2;
      threadTicks, clockCount, nextTid := 0, 0, 3;
      creator, log := map[], [];
      new;
      InitInv(1, 2);
      assert View().tcb == Init(1, 2).tcb;
    }

    // ----- single updates -----

    method SetStatus(tid: Tid, st: Status)
      requires Valid() && tid in threads
      modifies threads.Values`status
      ensures View() == Updated(old(View()), tid, old(View()).tcb[tid].(status := st))
    {
      var t := threads[tid];
      t.status := st;
      assert forall i | i in threads :: threads[i] == t ==> i == tid;
      assert View().tcb == old(View()).tcb[tid := old(View()).tcb[tid].(status := st)];
    }

    method SetParent(tid: Tid, parent: Tid)
      requires Valid() && tid in threads
      modifies threads.Values`parent
      ensures View() == Updated(old(View()), tid, old(View()).tcb[tid].(parent := parent))
    {
      var t := threads[tid];
      t.parent := parent;
      assert forall i | i in threads :: threads[i] == t ==> i == tid;
      assert View().tcb == old(View()).tcb[tid := old(View()).tcb[tid].(parent := parent)];
    }

    method SetIgnore(b: Byte)
      requires Valid() && current in threads
      modifies threads.Values`sigign
      ensures View() == Updated(old(View()), current, old(View()).tcb[current].(accept := Bits(b)))
      ensures threads[current].sigign == b
    {
      var t := threads[current];
      t.sigign := b;
      assert forall i | i in threads :: threads[i] == t ==> i == current;
      assert View().tcb == old(View()).tcb[current := old(View()).tcb[current].(accept := Bits(b))];
    }

    method SetMask(b: Byte)
      requires Valid() && current in threads
      modifies threads.Values`sigmask
      ensures View() == Updated(old(View()), current, old(View()).tcb[current].(mask := Bits(b)))
      ensures threads[current].sigmask == b
    {
      var t := threads[current];
      t.sigmask := b;
      assert forall i | i in threads :: threads[i] == t ==> i == current;
      assert View().tcb == old(View()).tcb[current := old(View()).tcb[current].(mask := Bits(b))];
    }

    /** setlifetime() */
    method SetLifetime(x: nat)
      requires Valid() && current in threads
      modifies threads.Values`maxlifetime
      ensures View() == Updated(old(View()), current, old(View()).tcb[current].(maxlife := x))
    {
      var t := threads[current];
      t.maxlifetime := x;
      assert forall i | i in threads :: threads[i] == t ==> i == current;
      assert View().tcb == old(View()).tcb[current := old(View()).tcb[current].(maxlife := x)];
    }

    method CountChild()
      requires Valid() && current in threads
      modifies threads.Values`child
      ensures var v := old(View());
              View() == Updated(v, current, v.tcb[current].(child := v.tcb[current].child + 1))
    {
      var t := threads[current];
      t.child := t.child + 1;
      assert forall i | i in threads :: threads[i] == t ==> i == current;
      ghost var c := old(View()).tcb[current];
      assert View().tcb == old(View()).tcb[current := c.(child := c.child + 1)];
    }

    method CountDeadChild()
      requires Valid() && current in threads
      modifies threads.Values`dchild
      ensures var v := old(View());
              View() == Updated(v, current, v.tcb[current].(dchild := v.tcb[current].dchild + 1))
    {
      var t := threads[current];
      t.dchild := t.dchild + 1;
      assert forall i | i in threads :: threads[i] == t ==> i == current;
      ghost var c := old(View()).tcb[current];
      assert View().tcb == old(View()).tcb[current := c.(dchild := c.dchild + 1)];
    }

    method PushReady(tid: Tid)
      modifies this`readyList
      ensures View() == old(View()).(ready := old(View()).ready + [tid])
    {
      readyList := readyList + [tid];
    }

    method PopReady() returns (tid: Tid)
      requires readyList != []
      modifies this`readyList
      ensures tid == old(View()).ready[0] && View() == old(View()).(ready := old(View()).ready[1..])
    {
      tid := readyList[0];
      readyList := readyList[1..];
    }

    method RemoveFromAllList(tid: Tid)
      modifies this`allList
      ensures View() == old(View()).(live := Without(old(View()).live, tid))
    {
      allList := Without(allList, tid);
    }

    method SetCurrent(tid: Tid)
      modifies this`current
      ensures View() == old(View()).(cur := tid)
    {
      current := tid;
    }

    method SetTicks(n: int)
      modifies this`threadTicks
      ensures View() == old(View()).(ticks := n)
    {
      threadTicks := n;
    }

    method CountTick()
      modifies this`clockCount, this`threadTicks
      ensures View() == Ticked(old(View()))
    {
      clockCount := clockCount + 1;
      threadTicks := threadTicks + 1;
    }

    /** list_remove() of the entry at place `e` of the pending list: it is delivered. */
    method RemoveSignal(e: nat)
      requires e < |sigList|
      modifies this`sigList, this`log
      ensures View() == EntryRemoved(old(View()), e)
    {
      log := log + [Removal(View(), sigList[e])];
      sigList := sigList[..e] + sigList[e + 1..];
    }

    ghost method Log(o: Obs)
      modifies this`log
      ensures View() == old(View()).(log := old(View()).log + [o])
    {
      log := log + [o];
    }

    // ----- sending -----

    /** Coalescing send: the loop of kill() and thread_exit() over the pending list. */
    method SendSignal(x: Entry)
      modifies this`sigList, this`log
      ensures View() == Send(old(View()), x)
    {
      ghost var q := sigList;
      var e, found := 0, false;
      while e < |sigList| && !found
        invariant 0 <= e <= |q| && |sigList| == |q| && log == old(log)
        invariant !found ==> sigList == q && Post(q, x) == q[..e] + Post(q[e..], x)
        invariant found ==> sigList == Post(q, x)
        decreases !found, |sigList| - e
      {
        PostStep(q, x, e);
        if sigList[e].receiver == x.receiver && sigList[e].sig == x.sig {
          sigList := sigList[e := sigList[e].(sender := x.sender)];
          found := true;
        } else {
          e := e + 1;
        }
      }
      if !found {
        assert q[e..] == [] && q[..e] == q && Post(q[e..], x) == [x];
        sigList := sigList + [x];
      }
      log := log + [Sent(x)];
    }

    /** get_thread(): is there a live thread with this tid? */
    method GetThread(tid: Tid) returns (found: bool)
      ensures found <==> tid in allList
    {
      var e := 0;
      while e < |allList|
        invariant 0 <= e <= |allList| && tid !in allList[..e]
      {
        if allList[e] == tid {
          return true;
        }
        e := e + 1;
      }
      return false;
    }

    /** kill(): 0 when the signal is accepted, else -1 and no effect. */
    method Kill(tid: Tid, s: int) returns (code: int)
      requires Valid() && Inv(View()) && current != idleThread
      modifies this`sigList, this`log
      ensures View() == Apply(old(View()), Event.Kill(tid, s))
      ensures code == 0 || code == -1
      ensures code == 0 <==>
                tid in allList && tid in threads && (s == 1 || s == 2 || (s == 0 && threads[tid].parent == current))
      ensures code == 0 ==> SentOnly(old(View()), View(), tid, s)
      ensures code == -1 ==> View() == old(View())
    {
      KillApplied(View(), tid, s);
      code := SendIfPermitted(tid, s);
    }

    /** The body of kill(), without the assumption of a consistent kernel. */
    method SendIfPermitted(tid: Tid, s: int) returns (code: int)
      requires Valid() && (tid in allList ==> tid in threads)
      modifies this`sigList, this`log
      ensures code == if Permitted(old(View()), tid, s) then 0 else -1
      ensures View() ==
              if Permitted(old(View()), tid, s) then Send(old(View()), Entry(s, old(View()).cur, tid)) else old(View())
    {
      if s == SIG_KILL || s == SIG_UBLOCK || s == SIG_USR {
        var dt := GetThread(tid);
        if !dt {
          return -1;
        }
        if s == SIG_KILL && threads[tid].parent != current {
          return -1;
        }
        SendSignal(Entry(s, current, tid));
        return 0;
      }
      return -1;
    }

    // ----- exiting -----

    /** One turn of the loop of thread_exit() over all_list. */
    method Bereave(tl: Tid)
      requires Valid() && current in threads && tl in threads
      modifies this`sigList, this`log, threads.Values`parent
      ensures View() == ExitOne(old(View()), tl)
    {
      if threads[tl].parent == current {
        SetParent(tl, NO_PARENT);
      }
      if threads[current].parent == tl {
        SendSignal(Entry(SIG_CHLD, NO_PARENT, tl));
      }
    }

    /** The loop of thread_exit() over all_list. */
    method BereaveAll()
      requires Valid() && current in threads && ExitSteps(View())
      modifies this`sigList, this`log, threads.Values`parent
      ensures View() == ExitTo(old(View()), |old(View()).live|)
    {
      ghost var s := View();
      var e := 0;
      ExitStart(s);
      while e < |allList|
        invariant 0 <= e <= |s.live| && View() == ExitTo(s, e)
        decreases |s.live| - e
      {
        assert ExitStepAt(s, e);
        Bereave(allList[e]);
        e := e + 1;
      }
      assert e == |s.live|;
    }

    /** thread_exit() up to the call of schedule(). */
    method Terminate()
      requires Valid() && Inv(View())
      modifies this`sigList, this`log, this`allList, threads.Values`parent, threads.Values`status
      ensures View() == Terminated(old(View()))
    {
      ghost var s := View();
      ExitLoop(s);
      ExitEnd(s);
      BereaveAll();
      ghost var x := View();
      assert x == ExitTo(s, |s.live|);
      RemoveFromAllList(current);
      SetStatus(current, Dying);
    }

    // ----- delivery -----

    /** thread_unblock() */
    method ThreadUnblock(tid: Tid)
      requires Valid() && tid in threads && threads[tid].status == Blocked
      modifies this`readyList, threads.Values`status
      ensures View() == Unblocked(old(View()), tid)
    {
      PushReady(tid);
      SetStatus(tid, Ready);
    }

    /** SIG_UBLOCK at place `e`: wake the receiver if it lets the signal through and is blocked. */
    method DeliverUblockAt(e: nat) returns (delivered: bool)
      requires Valid() && e < |sigList| && current in threads && sigList[e].receiver in threads
      requires sigList[e].sig == SIG_UBLOCK
      modifies this`sigList, this`log, this`readyList, threads.Values`status
      ensures View() == ScanOne(old(View()), e)
      ensures delivered == Deliverable(old(View()), old(View()).pending[e])
    {
      var r := sigList[e].receiver;
      CheckBitIsMember(threads[r].sigmask, SIG_UBLOCK);
      CheckBitIsMember(threads[r].sigign, SIG_UBLOCK);
      delivered := false;
      if !CheckBit(threads[r].sigmask, SIG_UBLOCK) {
        if CheckBit(threads[r].sigign, SIG_UBLOCK) {
          if threads[r].status == Blocked {
            ThreadUnblock(r);
          }
          RemoveSignal(e);
          delivered := true;
        }
      }
    }

    /** Any other signal at place `e`: the running thread receives its own, unless it masks them. */
    method DeliverOwnAt(e: nat, sigd: Byte, sender: Tid) returns (delivered: bool, sigd': Byte, sender': Tid)
      requires Valid() && e < |sigList| && current in threads && sigList[e].receiver in threads
      requires sigList[e].sig != SIG_UBLOCK
      modifies this`sigList, this`log
      ensures View() == ScanOne(old(View()), e)
      ensures delivered == Deliverable(old(View()), old(View()).pending[e])
      ensures sigd' == if delivered then SetBit(sigd, old(View()).pending[e].sig) else sigd
      ensures var x := old(View()).pending[e];
              sender' == if delivered && x.sig == SIG_USR then x.sender else sender
    {
      var x := sigList[e];
      CheckBitIsMember(threads[current].sigmask, x.sig);
      delivered, sigd', sender' := false, sigd, sender;
      if x.receiver == current {
        if x.sig == SIG_KILL {
          sigd' := SetBit(sigd, x.sig);
          RemoveSignal(e);
          delivered := true;
        } else if !CheckBit(threads[current].sigmask, x.sig) {
          sigd' := SetBit(sigd, x.sig);
          if x.sig == SIG_USR {
            sender' := x.sender;
          }
          RemoveSignal(e);
          delivered := true;
        }
      }
    }

    /** One turn of the loop of handleSignals(), at place `e` of the pending list. */
    method DeliverAt(e: nat, sigd: Byte, sender: Tid) returns (next: nat, sigd': Byte, sender': Tid)
      requires Valid() && e < |sigList| && current in threads && sigList[e].receiver in threads
      modifies this`sigList, this`log, this`readyList, threads.Values`status
      ensures TurnTaken(old(View()), e, Bits(sigd), sender, View(), next, Bits(sigd'), sender')
    {
      var delivered;
      sigd', sender' := sigd, sender;
      SetBitInserts(sigd, sigList[e].sig);
      if sigList[e].sig == SIG_UBLOCK {
        delivered := DeliverUblockAt(e);
      } else {
        delivered, sigd', sender' := DeliverOwnAt(e, sigd, sender);
      }
      next := if delivered then e else e + 1;
    }

    /** The loop of handleSignals(). */
    method DeliverAll() returns (sigd: Byte, sender: Tid)
      requires Valid() && Scannable(View())
      modifies this`sigList, this`log, this`readyList, threads.Values`status
      ensures View() == Scanned(old(View()))
      ensures Bits(sigd) == Caught(old(View()), old(View()).pending)
      ensures sender == UsrSender(old(View()), old(View()).pending)
    {
      ghost var s, k: nat := View(), 0;
      var e: nat := 0;
      sigd, sender := 0, 0;
      LoopStart(s);
      EmptyAndFull();
      while e < |sigList|
        invariant LoopAt(s, k, View(), e, Bits(sigd), sender)
        decreases |s.pending| - k
      {
        LoopPlace(s, k, View(), e, Bits(sigd), sender);
        ghost var r, d, u, at := View(), Bits(sigd), sender, e;
        e, sigd, sender := DeliverAt(e, sigd, sender);
        LoopStep(s, k, r, at, d, u, View(), e, Bits(sigd), sender);
        k := k + 1;
      }
      LoopEnd(s, k, View(), e, Bits(sigd), sender);
    }

    /** USR_handler() */
    method UsrHandler(sender: Tid)
      modifies this`log
      ensures View() == UsrHandled(old(View()), sender)
    {
      Log(UsrReport(current, sender));
    }

    /** CHILD_handler() */
    method ChildHandler()
      requires Valid() && current in threads
      modifies this`log, threads.Values`dchild
      ensures View() == ChldHandled(old(View()))
    {
      ghost var s := View();
      ghost var c := s.tcb[current];
      CountDeadChild();
      Log(ChldReport(current, c.child, c.child - (c.dchild + 1), |LiveKids(s, current)|));
    }

    /** The lifetime signal, and the intersection with the signals not ignored. */
    static method SelectCalls(scpu: bool, caught: Byte, sigmask: Byte, sigign: Byte) returns (sigd: Byte, calls: Byte)
      ensures Bits(sigd) == Bits(caught) + if scpu && SIG_CPU !in Bits(sigmask) then {SIG_CPU} else {}
      ensures Bits(calls) == Bits(sigd) * Bits(sigign)
    {
      sigd := caught;
      CheckBitIsMember(sigmask, SIG_CPU);
      if !CheckBit(sigmask, SIG_CPU) {
        if scpu {
          SetBitInserts(sigd, SIG_CPU);
          sigd := SetBit(sigd, SIG_CPU);
        }
      }
      calls := sigd & sigign;
      AndIsIntersection(sigd, sigign);
    }

    /** The handlers that let the thread live on. */
    method RunHandlers(calls: Byte, sender: Tid)
      requires Valid() && current in threads
      modifies this`log, threads.Values`dchild
      ensures View() == HandlersRun(old(View()), Bits(calls), sender)
    {
      CheckBitIsMember(calls, SIG_USR);
      if CheckBit(calls, SIG_USR) {
        UsrHandler(sender);
      }
      CheckBitIsMember(calls, SIG_CHLD);
      if CheckBit(calls, SIG_CHLD) {
        ChildHandler();
      }
    }

    /** handleSignals() up to the handlers that end the thread. */
    method Deliver(scpu: bool) returns (sigd: Byte, calls: Byte)
      requires Valid() && Scannable(View()) && scpu == Expired(View(), current)
      modifies this`sigList, this`log, this`readyList, threads.Values`status, threads.Values`dchild
      ensures View() == Handled(old(View()))
      ensures Bits(sigd) == Received(old(View())) && Bits(calls) == Calls(old(View()))
    {
      ghost var s := View();
      var caught, sender := DeliverAll();
      assert View().tcb[current].mask == s.tcb[current].mask && View().tcb[current].accept == s.tcb[current].accept;
      sigd, calls := SelectCalls(scpu, caught, threads[current].sigmask, threads[current].sigign);
      RunHandlers(calls, sender);
    }

    /** handleSignals(): when a handler ends the thread, control is in the thread that follows it. */
    method HandleSignals(scpu: bool)
      requires Valid() && Inv(View()) && scpu == Expired(View(), current)
      modifies this, threads.Values
      ensures Valid() && threads == old(threads) && View() == Settle(old(View()))
      decreases |allList|, 1
    {
      ghost var s := View();
      InvScannable(s);
      HandledInv(s);
      IdleSurvives(s);
      var sigd, calls := Deliver(scpu);
      CheckBitIsMember(calls, SIG_CPU);
      CheckBitIsMember(sigd, SIG_KILL);
      if CheckBit(calls, SIG_CPU) {
        ThreadExit();
      } else if CheckBit(sigd, SIG_KILL) {
        ThreadExit();
      }
    }

    /** thread_exit() */
    method ThreadExit()
      requires Valid() && Inv(View()) && current != idleThread
      modifies this, threads.Values
      ensures Valid() && threads == old(threads)
      ensures BetweenThreads(Terminated(old(View()))) && View() == Switch(Terminated(old(View())))
      decreases |allList|, 0
    {
      TerminatedInv(View());
      Terminate();
      Schedule();
    }

    /** next_thread_to_run() */
    method NextThreadToRun() returns (next: Tid)
      modifies this`readyList
      ensures next == Next(old(View()))
      ensures View() == old(View()).(ready := if old(View()).ready != [] then old(View()).ready[1..] else [])
    {
      if readyList == [] {
        next := idleThread;
      } else {
        next := PopReady();
      }
    }

    /** schedule(): the running thread becomes the next one. */
    method Schedule()
      requires Valid() && BetweenThreads(View())
      modifies this, threads.Values
      ensures Valid() && threads == old(threads) && View() == Switch(old(View()))
      decreases |allList|, 3
    {
      DispatchInv(View());
      var next := NextThreadToRun();
      SetCurrent(next);
      ThreadScheduleTail();
    }

    /** thread_schedule_tail(): a new slice, the lifetime check, and the signals. */
    method ThreadScheduleTail()
      requires Valid() && current in threads && Inv(TailStarted(View()))
      modifies this, threads.Values
      ensures Valid() && threads == old(threads) && View() == Settle(TailStarted(old(View())))
      decreases |allList|, 2
    {
      SetStatus(current, Running);
      SetTicks(0);
      var cur := threads[current];
      var scpu := clockCount - cur.starttime > cur.maxlifetime && cur.maxlifetime != 0;
      HandleSignals(scpu);
    }

    // ----- the operations of threads -----

    /** thread_block() */
    method ThreadBlock()
      requires Valid() && Inv(View())
      modifies this, threads.Values
      ensures Valid() && View() == Apply(old(View()), Block)
    {
      BlockingInv(View());
      SetStatus(current, Blocked);
      Schedule();
    }

    /** thread_yield(), called by a thread or at the end of a timer interrupt. */
    method ThreadYield()
      requires Valid() && Inv(View())
      modifies this, threads.Values
      ensures Valid() && BetweenThreads(Yielding(old(View()))) && View() == Switch(Yielding(old(View())))
      ensures old(current) != idleThread ==> View() == Apply(old(View()), Yield)
    {
      ghost var v := View();
      YieldApplied(v);
      GiveUp();
      Schedule();
    }

    /** thread_yield() up to the call of schedule(). */
    method GiveUp()
      requires Valid() && current in threads
      modifies this`readyList, threads.Values`status
      ensures View() == Yielding(old(View()))
    {
      if current != idleThread {
        PushReady(current);
      }
      SetStatus(current, Ready);
    }

    /** The timer interrupt: thread_tick(), and on return the yield it asked for. */
    method TimerInterrupt()
      requires Valid() && Inv(View())
      modifies this, threads.Values
      ensures Valid() && View() == Apply(old(View()), Tick)
    {
      ghost var s := View();
      TickApplied(s);
      CountTick();
      assert View() == Ticked(s);
      if threadTicks >= TIME_SLICE {
        ThreadYield();
      }
    }

    /** thread_create(): a fresh tid, the creator as parent, and into both lists. */
    method ThreadCreate() returns (tid: Tid)
      requires Valid() && Inv(View()) && current != idleThread
      modifies this, threads.Values
      ensures Valid() && View() == Apply(old(View()), Create)
      ensures tid == old(nextTid) && tid !in old(threads)
    {
      NewTidFree(View());
      CreateApplied(View());
      tid := PrepareThread();
      ThreadUnblock(tid);
    }

    /** thread_create() up to the call of thread_unblock(). */
    method PrepareThread() returns (tid: Tid)
      requires Valid() && nextTid !in threads && current in threads
      modifies this`threads, this`allList, this`nextTid, this`creator, threads.Values`child
      ensures Valid() && tid == old(nextTid) && tid in threads && threads[tid].status == Blocked
      ensures fresh(threads.Values - old(threads.Values))
      ensures View() == Prepared(old(View()))
    {
      ghost var s := View();
      CountChild();
      ghost var m := View();
      assert m == Updated(s, s.cur, s.tcb[s.cur].(child := s.tcb[s.cur].child + 1));
      tid := AllocateThread();
      assert View() == Allocated(m);
      PreparedSteps(s);
    }

    /** allocate_tid() */
    method AllocateTid() returns (tid: Tid)
      modifies this`nextTid
      ensures tid == old(nextTid) && View() == old(View()).(nextTid := tid + 1)
    {
      tid := nextTid;
      nextTid := nextTid + 1;
    }

    /** all_list's new last member, with the history of who created it. */
    method PushAllList(tid: Tid)
      modifies this`allList, this`creator
      ensures var v := old(View()); View() == v.(live := v.live + [tid], creator := v.creator[tid := v.cur])
    {
      allList := allList + [tid];
      creator := creator[tid := current];
    }

    /** The part of thread_create() before the new thread is unblocked. */
    method AllocateThread() returns (tid: Tid)
      requires Valid() && nextTid !in threads
      modifies this`threads, this`allList, this`nextTid, this`creator
      ensures Valid() && tid == old(nextTid)
      ensures threads.Keys == old(threads).Keys + {tid} && threads[tid].status == Blocked
      ensures fresh(threads.Values - old(threads.Values))
      ensures View() == Allocated(old(View()))
    {
      tid := AllocateTid();
      PushAllList(tid);
      ghost var r := View();
      var t := new Thread(tid, current, clockCount);
      assert View() == r;
      AddThread(t);
    }

    method AddThread(t: Thread)
      requires Valid() && t.tid !in threads
      modifies this`threads
      ensures Valid() && threads == old(threads)[t.tid := t]
      ensures View() == old(View()).(tcb := old(View()).tcb[t.tid := t.Value()])
    {
      threads := threads[t.tid := t];
      assert View().tcb == old(View()).tcb[t.tid := t.Value()];
    }

    // ----- signal dispositions and masks -----

    /** Signal(): SIG_DFL stops ignoring `s`, SIG_IGN ignores it; other actions are errors. */
    method Signal(s: int, a: int) returns (code: int)
      requires Valid() && Inv(View()) && current != idleThread
      modifies threads.Values`sigign
      ensures View() == Apply(old(View()), Event.Signal(s, a))
      ensures code == if a == 0 || a == 1 then 0 else -1
      ensures DispositionChanged(old(threads[current].sigign), s, a, threads[current].sigign)
    {
      DispositionApplied(View(), s, a);
      code := ChangeDisposition(s, a);
    }

    /** The body of Signal(), without the assumption of a consistent kernel. */
    method ChangeDisposition(s: int, a: int) returns (code: int)
      requires Valid() && current in threads
      modifies threads.Values`sigign
      ensures View() == WithDisposition(old(View()), s, a)
      ensures code == if a == SIG_DFL || a == SIG_IGN then 0 else -1
      ensures DispositionChanged(old(threads[current].sigign), s, a, threads[current].sigign)
    {
      ghost var v := View();
      var b := threads[current].sigign;
      if a == SIG_DFL {
        DispositionSteps(b, s);
        SetIgnore(SetBit(b, s));
      } else if a == SIG_IGN {
        DispositionSteps(b, s);
        SetIgnore(UnsetBit(b, s));
      } else {
        assert v == Updated(v, v.cur, v.tcb[v.cur].(accept := Bits(b)));
        return -1;
      }
      return 0;
    }

    /** The second half of sigprocmask(): `how` applied with the operand `op`. */
    method ChangeMask(how: int, op: Byte) returns (code: int)
      requires Valid() && current in threads
      modifies threads.Values`sigmask
      ensures View() == WithMask(old(View()), how, Bits(op))
      ensures code == if how == SIG_BLOCK || how == SIG_UNBLOCK || how == SIG_SETMASK then 0 else -1
      ensures MaskChanged(old(threads[current].sigmask), how, op, threads[current].sigmask)
    {
      ghost var v := View();
      var mask := threads[current].sigmask;
      OrIsUnion(mask, op);
      AndNotIsDifference(mask, op);
      ghost var wanted := Masked(Bits(mask), how, Bits(op));
      if how == SIG_BLOCK {
        SetMask(mask | op);
      } else if how == SIG_UNBLOCK {
        SetMask(mask & !op);
      } else if how == SIG_SETMASK {
        SetMask(op);
      } else {
        assert v == Updated(v, v.cur, v.tcb[v.cur]);
        return -1;
      }
      assert View() == Updated(v, v.cur, v.tcb[v.cur].(mask := wanted));
      return 0;
    }

    /** sigprocmask(): `oldset` is written first, which matters when it is the same variable as `set`. */
    method SigProcMask(how: int, set': SigSet?, oldset: SigSet?) returns (code: int)
      requires Valid() && Inv(View()) && current != idleThread
      modifies threads.Values`sigmask, oldset
      ensures oldset != null ==> oldset.bits == old(threads[current].sigmask)
      ensures set' == null ==>
                code == 0 && View() == old(View()) && threads[current].sigmask == old(threads[current].sigmask)
      ensures set' != null ==>
                var op := if set' == oldset then old(threads[current].sigmask) else old(set'.bits);
                && View() == Apply(old(View()), ProcMask(how, Bits(op)))
                && code == (if how == 0 || how == 1 || how == 2 then 0 else -1)
                && MaskChanged(old(threads[current].sigmask), how, op, threads[current].sigmask)
    {
      ghost var v := View();
      if oldset != null {
        oldset.bits := threads[current].sigmask;
      }
      assert View() == v;
      if set' == null {
        return 0;
      }
      MaskApplied(v, how, Bits(set'.bits));
      code := ChangeMask(how, set'.bits);
    }

    /**
     Saving the mask while changing it, and setting the saved one again, changes nothing:
     whatever the mode, and even if the two variables are one.
     */
    method SaveAndRestore(how: int, set': SigSet?, saved: SigSet)
      requires Valid() && Inv(View()) && current != idleThread
      modifies threads.Values`sigmask, saved
      ensures View() == old(View()) && threads[current].sigmask == old(threads[current].sigmask)
    {
      ghost var v := View();
      ghost var op := if set' == null || set' == saved then threads[current].sigmask else set'.bits;
      MaskRestored(v, how, Bits(op));
      var _ := SigProcMask(how, set', saved);
      var _ := SigProcMask(SIG_SETMASK, saved, null);
    }
  }

  /** Setting the old mask again undoes any change of the mask, and without one changes nothing. */
  lemma MaskRestored(s: State, how: int, op: set<int>)
    requires Inv(s) && s.cur != s.idle
    ensures var back := ProcMask(SIG_SETMASK, s.tcb[s.cur].mask); var r := Apply(s, ProcMask(how, op));
            r.cur != r.idle && Apply(r, back) == s && Apply(s, back) == s
  {
    var c := s.tcb[s.cur];
    assert s.tcb[s.cur := c.(mask := Masked(c.mask, how, op))][s.cur := c] == s.tcb;
  }

  /** The mask byte `m'` after the modes of sigprocmask() on `m` with the operand `op`. */
  ghost predicate MaskChanged(m: Byte, how: int, op: Byte, m': Byte) {
    && (how == 0 ==> Bits(m') == Bits(m) + Bits(op))
    && (how == 1 ==> Bits(m') == Bits(m) - Bits(op))
    && (how == 2 ==> m' == op)
    && (how != 0 && how != 1 && how != 2 ==> m' == m)
  }

  /** The byte `b'` of accepted signals after Signal() with the action `a`; the number `s` is of a bit or of none. */
  ghost predicate DispositionChanged(b: Byte, s: int, a: int, b': Byte) {
    && (0 <= s < 8 && a == 1 ==> Bits(b') == Bits(b) + {s})
    && (0 <= s < 8 && a == 0 ==> Bits(b') == Bits(b) - {s})
    && (!(0 <= s < 8) || (a != 0 && a != 1) ==> b' == b)
  }

  lemma DispositionSteps(b: Byte, s: int)
    ensures DispositionChanged(b, s, SIG_DFL, SetBit(b, s)) && DispositionChanged(b, s, SIG_IGN, UnsetBit(b, s))
    ensures Disposed(Bits(b), s, SIG_DFL) == Bits(SetBit(b, s)) && Disposed(Bits(b), s, SIG_IGN) == Bits(UnsetBit(b, s))
  {
    SetBitInserts(b, s);
    UnsetBitRemoves(b, s);
  }

  lemma NewTidFree(s: State)
    requires Inv(s)
    ensures s.nextTid !in s.tcb
  {
    assert Listed(s, s.nextTid);
  }

  ghost function WithDisposition(s: State, sig: int, action: int): State
    requires s.cur in s.tcb
  {
    var c := s.tcb[s.cur];
    Updated(s, s.cur, c.(accept := Disposed(c.accept, sig, action)))
  }

  ghost function WithMask(s: State, how: int, op: set<int>): State
    requires s.cur in s.tcb
  {
    var c := s.tcb[s.cur];
    Updated(s, s.cur, c.(mask := Masked(c.mask, how, op)))
  }

  lemma DispositionApplied(s: State, sig: int, action: int)
    requires Inv(s) && s.cur != s.idle
    ensures Apply(s, Event.Signal(sig, action)) == WithDisposition(s, sig, action)
  {
  }

  lemma MaskApplied(s: State, how: int, op: set<int>)
    requires Inv(s) && s.cur != s.idle
    ensures Apply(s, ProcMask(how, op)) == WithMask(s, how, op)
  {
  }

  lemma KillApplied(s: State, tid: Tid, sig: int)
    requires Inv(s) && s.cur != s.idle
    ensures tid in s.live ==> tid in s.tcb
    ensures Apply(s, Event.Kill(tid, sig)) ==
            if Permitted(s, tid, sig) then Send(s, Entry(sig, s.cur, tid)) else s
    ensures Permitted(s, tid, sig) ==> SentOnly(s, Send(s, Entry(sig, s.cur, tid)), tid, sig)
  {
    LiveListed(s, tid);
    KillSends(s, tid, sig);
  }

  lemma YieldApplied(s: State)
    requires Inv(s)
    ensures BetweenThreads(Yielding(s))
    ensures s.cur != s.idle ==> Apply(s, Yield) == Switch(Yielding(s))
  {
    YieldingInv(s);
  }

  /** A timer interrupt counts the tick and, at the end of the slice, yields. */
  lemma TickApplied(s: State)
    requires Inv(s)
    ensures Inv(Ticked(s))
    ensures Ticked(s).ticks < TIME_SLICE ==> Apply(s, Tick) == Ticked(s)
    ensures Ticked(s).ticks >= TIME_SLICE ==>
              BetweenThreads(Yielding(Ticked(s))) && Apply(s, Tick) == Switch(Yielding(Ticked(s)))
  {
    TickedInv(s);
    var r := Ticked(s);
    YieldingInv(r);
    if r.ticks >= TIME_SLICE {
      assert Apply(s, Tick) == Switch(Yielding(r));
    }
  }

  /** A new thread structure and its creator's count of it. */
  ghost function Prepared(s: State): (r: State)
    requires s.cur in s.tcb && s.nextTid !in s.tcb
    ensures s.nextTid in r.tcb
  {
    var c := s.tcb[s.cur];
    Updated(Allocated(s), s.cur, c.(child := c.child + 1))
  }

  lemma PreparedSteps(s: State)
    requires s.cur in s.tcb && s.nextTid !in s.tcb
    ensures Allocated(Updated(s, s.cur, s.tcb[s.cur].(child := s.tcb[s.cur].child + 1))) == Prepared(s)
  {
    var c := s.tcb[s.cur];
    assert Allocated(Updated(s, s.cur, c.(child := c.child + 1))).tcb == Prepared(s).tcb;
  }

  lemma CreateApplied(s: State)
    requires Inv(s) && s.cur != s.idle && s.nextTid !in s.tcb
    ensures Apply(s, Create) == Unblocked(Prepared(s), s.nextTid)
  {
    assert Unblocked(Prepared(s), s.nextTid).tcb == Created(s).tcb;
  }

  /** The new thread structure, blocked and in all_list. */
  ghost function Allocated(s: State): (r: State)
    ensures s.nextTid in r.tcb
  {
    s.(tcb := s.tcb[s.nextTid := Tcb(Blocked, s.cur, ALL_BITS, {}, s.clock, 0, 0, 0)],
       live := s.live + [s.nextTid], nextTid := s.nextTid + 1, creator := s.creator[s.nextTid := s.cur])
  }

  // ----- sets of callers -----

  method SigEmptySet(set': SigSet?) returns (code: int)
    modifies set'
    ensures code == 0 && (set' != null ==> Bits(set'.bits) == {})
  {
    EmptyAndFull();
    if set' != null {
      set'.bits := 0;
    }
    return 0;
  }

  method SigFillSet(set': SigSet?) returns (code: int)
    modifies set'
    ensures code == 0 && (set' != null ==> Bits(set'.bits) == ALL_BITS)
  {
    EmptyAndFull();
    if set' != null {
      set'.bits := 0;
      set'.bits := !set'.bits;
    }
    return 0;
  }

  method SigAddSet(set': SigSet?, s: int) returns (code: int)
    modifies set'
    ensures code == if 0 <= s <= 4 then 0 else -1
    ensures set' != null ==> Bits(set'.bits) == if 0 <= s <= 4 then old(Bits(set'.bits)) + {s} else old(Bits(set'.bits))
  {
    if s < 0 || s > 4 {
      return -1;
    }
    if set' != null {
      SetBitInserts(set'.bits, s);
      set'.bits := SetBit(set'.bits, s);
    }
    return 0;
  }

  method SigDelSet(set': SigSet?, s: int) returns (code: int)
    modifies set'
    ensures code == if 0 <= s <= 4 then 0 else -1
    ensures set' != null ==> Bits(set'.bits) == if 0 <= s <= 4 then old(Bits(set'.bits)) - {s} else old(Bits(set'.bits))
  {
    if s < 0 || s > 4 {
      return -1;
    }
    if set' != null {
      UnsetBitRemoves(set'.bits, s);
      set'.bits := UnsetBit(set'.bits, s);
    }
    return 0;
  }

  ghost function TailStarted(s: State): State
    requires s.cur in s.tcb
  {
    Updated(s, s.cur, s.tcb[s.cur].(status := Running)).(ticks := 0)
  }

  /** What one turn of the delivery loop does to the state, the place in the list, `sigd` and `sender`. */
  ghost predicate TurnTaken(s: State, e: nat, d: set<int>, u: Tid, r: State, e': nat, d': set<int>, u': Tid) {
    && e < |s.pending| && s.cur in s.tcb && s.pending[e].receiver in s.tcb
    && r == ScanOne(s, e)
    && var x := s.pending[e]; var own := x.sig != SIG_UBLOCK && Deliverable(s, x);
    && e' == (if Deliverable(s, x) then e else e + 1)
    && d' == (if own && x.sig in ALL_BITS then d + {x.sig} else d)
    && u' == if own && x.sig == SIG_USR then x.sender else u
  }

  /** The delivery loop has done the first `k` entries. */
  ghost predicate LoopAt(s: State, k: nat, r: State, e: nat, d: set<int>, u: Tid) {
    && Scannable(s) && k <= |s.pending| && r == ScanTo(s, k) && e == |Kept(s, s.pending[..k])|
    && d == Caught(s, s.pending[..k]) && u == UsrSender(s, s.pending[..k])
  }

  lemma LoopStart(s: State)
    requires Scannable(s)
    ensures LoopAt(s, 0, s, 0, {}, 0)
  {
    ScanStart(s);
  }

  lemma LoopPlace(s: State, k: nat, r: State, e: nat, d: set<int>, u: Tid)
    requires LoopAt(s, k, r, e, d, u) && e < |r.pending|
    ensures k < |s.pending| && r.pending[e] == s.pending[k] && r.cur in r.tcb && r.pending[e].receiver in r.tcb
  {
  }

  lemma LoopStep(s: State, k: nat, r: State, e: nat, d: set<int>, u: Tid, r': State, e': nat, d': set<int>, u': Tid)
    requires LoopAt(s, k, r, e, d, u) && k < |s.pending| && TurnTaken(r, e, d, u, r', e', d', u')
    ensures LoopAt(s, k + 1, r', e', d', u')
  {
    ScanStep(s, k);
  }

  lemma LoopEnd(s: State, k: nat, r: State, e: nat, d: set<int>, u: Tid)
    requires LoopAt(s, k, r, e, d, u) && e >= |r.pending|
    ensures r == Scanned(s) && d == Caught(s, s.pending) && u == UsrSender(s, s.pending)
  {
    assert s.pending[..k] == s.pending && s.pending[k..] == [];
  }

  /** Known receivers and proper signal numbers. */
  ghost predicate Scannable(s: State) {
    Addressed(s) && Receivable(s, s.pending) && forall i | 0 <= i < |s.pending| :: s.pending[i].sig in ALL_BITS
  }

  lemma InvScannable(s: State)
    requires Inv(s)
    ensures Scannable(s)
  {
    InvAddressed(s);
    forall i | 0 <= i < |s.pending| ensures s.pending[i].sig in ALL_BITS {
      assert EntryOk(s, s.pending[i]);
    }
  }

  /** The delivery loop after `k` entries. */
  ghost function ScanTo(s: State, k: nat): State
    requires Receivable(s, s.pending) && k <= |s.pending|
  {
    ScannedTo(s, s.pending[..k], s.pending[k..])
  }

  lemma ScanStart(s: State)
    requires Scannable(s)
    ensures ScanTo(s, 0) == s && s.pending[..0] == []
  {
    assert s.pending[..0] == [] && s.pending[0..] == s.pending;
    assert s.ready + [] == s.ready && s.log + [] == s.log && [] + s.pending == s.pending;
    assert WakeAll(s, []) == s.tcb;
  }

  /** Does `x`, coming after `q`, wake its receiver? */
  ghost predicate Wakes(s: State, q: seq<Entry>, x: Entry)
    requires Receivable(s, q) && x.receiver in s.tcb
  {
    x.sig == SIG_UBLOCK && Deliverable(s, x) && s.tcb[x.receiver].status == Blocked && x.receiver !in Woken(s, q)
  }

  /** What one more entry adds to the five results of the loop. */
  lemma ScanFilters(s: State, q: seq<Entry>, x: Entry)
    requires Receivable(s, q + [x]) && Receivable(s, q) && x.receiver in s.tcb
    ensures Kept(s, q + [x]) == if Deliverable(s, x) then Kept(s, q) else Kept(s, q) + [x]
    ensures RemovedAll(s, Taken(s, q + [x])) ==
            if Deliverable(s, x) then RemovedAll(s, Taken(s, q)) + [Removal(s, x)] else RemovedAll(s, Taken(s, q))
    ensures Woken(s, q + [x]) == if Wakes(s, q, x) then Woken(s, q) + [x.receiver] else Woken(s, q)
    ensures Caught(s, q + [x]) == Caught(s, q) + if x.sig != SIG_UBLOCK && Deliverable(s, x) then {x.sig} else {}
    ensures UsrSender(s, q + [x]) == if x.sig == SIG_USR && Deliverable(s, x) then x.sender else UsrSender(s, q)
  {
    assert (q + [x])[..|q|] == q;
    if Deliverable(s, x) {
      assert (Taken(s, q) + [x])[..|Taken(s, q)|] == Taken(s, q);
      assert Kept(s, q) + [] == Kept(s, q);
    } else {
      assert Taken(s, q) + [] == Taken(s, q);
    }
    assert Woken(s, q) + [] == Woken(s, q);
  }

  /** A state of the loop from its parts: entries kept and still ahead, log of removals, woken threads. */
  ghost function Parts(s: State, pending: seq<Entry>, removed: seq<Obs>, w: seq<Tid>): State {
    s.(pending := pending, ready := s.ready + w, tcb := WakeAll(s, w), log := s.log + removed)
  }

  /** One turn of the loop, on the parts. */
  lemma TurnOnParts(s: State, kept: seq<Entry>, removed: seq<Obs>, w: seq<Tid>, x: Entry, rest: seq<Entry>)
    requires s.cur in s.tcb && x.receiver in s.tcb
    ensures var r, e := Parts(s, kept + ([x] + rest), removed, w), |kept|;
            && r.pending[e] == x && r.cur in r.tcb && x.receiver in r.tcb
            && (Deliverable(r, x) <==> Deliverable(s, x))
            && ScanOne(r, e) ==
               if !Deliverable(s, x) then Parts(s, (kept + [x]) + rest, removed, w)
               else Parts(s, kept + rest, removed + [Removal(s, x)],
                          if x.sig == SIG_UBLOCK && s.tcb[x.receiver].status == Blocked && x.receiver !in w
                          then w + [x.receiver] else w)
  {
    var r, e := Parts(s, kept + ([x] + rest), removed, w), |kept|;
    if !Deliverable(s, x) {
      assert kept + ([x] + rest) == (kept + [x]) + rest;
    } else {
      assert r.pending[..e] + r.pending[e + 1..] == kept + rest;
      assert s.log + (removed + [Removal(s, x)]) == (s.log + removed) + [Removal(s, x)];
      if x.sig == SIG_UBLOCK && s.tcb[x.receiver].status == Blocked && x.receiver !in w {
        assert s.ready + (w + [x.receiver]) == (s.ready + w) + [x.receiver];
        WakeOneMore(s, w, x.receiver);
      }
    }
  }

  lemma WakeOneMore(s: State, w: seq<Tid>, t: Tid)
    requires t in s.tcb
    ensures WakeAll(s, w + [t]) == WakeAll(s, w)[t := s.tcb[t].(status := Ready)]
  {
  }

  lemma ScanStep(s: State, k: nat)
    requires Scannable(s) && k < |s.pending|
    ensures var r, e, x := ScanTo(s, k), |Kept(s, s.pending[..k])|, s.pending[k];
            && e < |r.pending| && r.pending[e] == x && r.cur in r.tcb && x.receiver in r.tcb
            && (Deliverable(r, x) <==> Deliverable(s, x))
            && ScanTo(s, k + 1) == ScanOne(r, e)
    ensures var q, q', x := s.pending[..k], s.pending[..k + 1], s.pending[k];
            && x.sig in ALL_BITS
            && |Kept(s, q')| == (if Deliverable(s, x) then |Kept(s, q)| else |Kept(s, q)| + 1)
            && Caught(s, q') == Caught(s, q) + (if x.sig != SIG_UBLOCK && Deliverable(s, x) then {x.sig} else {})
            && UsrSender(s, q') == if x.sig == SIG_USR && Deliverable(s, x) then x.sender else UsrSender(s, q)
  {
    var q, x, rest := s.pending[..k], s.pending[k], s.pending[k + 1..];
    assert s.pending[..k + 1] == q + [x] && s.pending[k..] == [x] + rest;
    ScanFilters(s, q, x);
    TurnOnParts(s, Kept(s, q), RemovedAll(s, Taken(s, q)), Woken(s, q), x, rest);
    assert ScanTo(s, k) == Parts(s, Kept(s, q) + ([x] + rest), RemovedAll(s, Taken(s, q)), Woken(s, q));
    assert ScanTo(s, k + 1) == Parts(s, Kept(s, q + [x]) + rest, RemovedAll(s, Taken(s, q + [x])), Woken(s, q + [x]));
  }

  /** One turn of the delivery loop: the entry is delivered and goes, or stays. */
  ghost function ScanOne(s: State, e: nat): State
    requires e < |s.pending| && s.cur in s.tcb && s.pending[e].receiver in s.tcb
  {
    var x := s.pending[e];
    if !Deliverable(s, x) then s
    else if x.sig == SIG_UBLOCK && s.tcb[x.receiver].status == Blocked then EntryRemoved(Unblocked(s, x.receiver), e)
    else EntryRemoved(s, e)
  }

  ghost predicate ExitStepAt(s: State, k: nat)
    requires s.cur in s.tcb && k < |s.live|
  {
    var r, tl := ExitTo(s, k), s.live[k];
    tl in r.tcb && r.cur in r.tcb && ExitTo(s, k + 1) == ExitOne(r, tl)
  }

  ghost predicate ExitSteps(s: State)
    requires s.cur in s.tcb
  {
    forall k | 0 <= k < |s.live| :: ExitStepAt(s, k)
  }

  lemma ExitLoop(s: State)
    requires Inv(s)
    ensures ExitSteps(s)
  {
    forall k | 0 <= k < |s.live| ensures ExitStepAt(s, k) {
      ExitStep(s, k);
    }
  }

  /** One turn of the loop of thread_exit(): orphan a child, tell a parent. */
  ghost function ExitOne(s: State, tl: Tid): State
    requires s.cur in s.tcb && tl in s.tcb
  {
    var r := if s.tcb[tl].parent == s.cur then Updated(s, tl, s.tcb[tl].(parent := NO_PARENT)) else s;
    if r.tcb[r.cur].parent == tl then Send(r, Entry(SIG_CHLD, NO_PARENT, tl)) else r
  }

  /** The loop after `k` threads of all_list. */
  ghost function ExitTo(s: State, k: nat): State
    requires s.cur in s.tcb && k <= |s.live|
  {
    var p := s.tcb[s.cur].parent;
    var r := s.(tcb := map x | x in s.tcb ::
                  if x in s.live[..k] && s.tcb[x].parent == s.cur then s.tcb[x].(parent := NO_PARENT) else s.tcb[x]);
    if p in s.live[..k] then Send(r, Entry(SIG_CHLD, NO_PARENT, p)) else r
  }

  lemma ExitStart(s: State)
    requires s.cur in s.tcb
    ensures ExitTo(s, 0) == s
  {
    assert ExitTo(s, 0).tcb == s.tcb;
  }

  lemma CurOwnParent(s: State)
    requires Inv(s)
    ensures s.tcb[s.cur].parent != s.cur && s.cur != NO_PARENT
  {
    assert Parented(s, s.cur) && Listed(s, s.cur) && HasStatus(s, s.cur, Running);
  }

  lemma LiveDistinct(s: State)
    requires Inv(s)
    ensures NoDup(s.live)
  {
    forall t ensures Occ(s.live, t) <= 1 {
      assert Listed(s, t);
    }
    OccDistinct(s.live);
  }

  lemma ExitStep(s: State, k: nat)
    requires Inv(s) && k < |s.live|
    ensures ExitStepAt(s, k)
  {
    OccAt(s.live, k);
    assert Listed(s, s.live[k]);
    CurOwnParent(s);
    LiveDistinct(s);
    ExitStepPlain(s, k);
  }

  lemma ExitStepPlain(s: State, k: nat)
    requires k < |s.live| && NoDup(s.live) && s.cur in s.tcb && s.live[k] in s.tcb && s.tcb[s.cur].parent != s.cur
    ensures ExitStepAt(s, k)
  {
    var r, tl := ExitTo(s, k), s.live[k];
    assert s.live[..k + 1] == s.live[..k] + [tl];
    assert tl !in s.live[..k];
    assert ExitTo(s, k + 1).tcb == ExitOne(r, tl).tcb;
  }

  lemma ExitEnd(s: State)
    requires Inv(s)
    ensures var r, n := Terminated(s), |s.live|; var x := ExitTo(s, n);
            s.cur in x.tcb && r == Updated(x.(live := Without(s.live, s.cur)), s.cur, x.tcb[s.cur].(status := Dying))
  {
    var r, n := Terminated(s), |s.live|;
    var x := ExitTo(s, n);
    assert s.live[..n] == s.live;
    CurOwnParent(s);
    LiveListed(s, s.tcb[s.cur].parent);
    forall t | t in s.tcb ensures r.tcb[t] == x.tcb[s.cur := x.tcb[s.cur].(status := Dying)][t] {
      LiveListed(s, t);
    }
    assert r.tcb == x.tcb[s.cur := x.tcb[s.cur].(status := Dying)];
  }

  lemma PostStep(q: seq<Entry>, x: Entry, e: nat)
    requires e < |q| && Post(q, x) == q[..e] + Post(q[e..], x)
    ensures SameKey(q[e], x) ==> q[e := x] == Post(q, x)
    ensures !SameKey(q[e], x) ==> Post(q, x) == q[..e + 1] + Post(q[e + 1..], x)
  {
    assert q[e..][0] == q[e] && q[e..][1..] == q[e + 1..];
    if SameKey(q[e], x) {
      assert q[e := x] == q[..e] + ([x] + q[e + 1..]);
    } else {
      assert q[..e + 1] == q[..e] + [q[e]];
    }
  }
}
