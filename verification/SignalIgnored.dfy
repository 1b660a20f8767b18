/**
 An ignored SIG_UBLOCK is not discarded but stays pending: exactly when one is delivered at a
 switch, and a run in which an ignored one outlives a switch.
 */
module SignalIgnored {
  import opened Queues
  import opened SignalSpec
  import opened SignalPending
  import opened SignalInvariant
  import opened SignalChain
  import opened SignalSteps

  /** A switch takes a SIG_UBLOCK off the list exactly if the receiver neither masks nor ignores it. */
  lemma UblockGoneWhen(s: State, t: Tid)
    requires BetweenThreads(s) && t in s.tcb && Lookup(s.pending, SIG_UBLOCK, t).Some?
    ensures Lookup(Switch(s).pending, SIG_UBLOCK, t) == None <==>
              SIG_UBLOCK !in s.tcb[t].mask && SIG_UBLOCK in s.tcb[t].accept
  {
    NextReady(s);
    DispatchInv(s);
    DispatchKeeps(s);
    assert SameSettings(s.tcb[t], Dispatch(s).tcb[t]);
    ChainDeliversUblock(Dispatch(s), t);
  }

  lemma RunPush(s: State, e: Event, es: seq<Event>)
    requires Inv(s) && Enabled(s, e) && Legal(Apply(s, e), es)
    ensures Legal(s, [e] + es) && Run(s, [e] + es) == Run(Apply(s, e), es)
  {
    assert ([e] + es)[1..] == es;
  }

  lemma IgnoredAndSent() returns (s1: State, s2: State)
    ensures Inv(Init(1, 2)) && s1 == Apply(Init(1, 2), Event.Signal(SIG_UBLOCK, SIG_IGN))
    ensures s1.cur == 1 && s1.idle == 2 && s2 == Apply(s1, Kill(1, SIG_UBLOCK))
    ensures s2.cur == 1 && s2.idle == 2 && 1 in s2.tcb && SIG_UBLOCK !in s2.tcb[1].accept
    ensures s2.pending == [Entry(SIG_UBLOCK, 1, 1)]
  {
    InitInv(1, 2);
    s1 := Apply(Init(1, 2), Event.Signal(SIG_UBLOCK, SIG_IGN));
    assert s1.pending == [];
    s2 := Apply(s1, Kill(1, SIG_UBLOCK));
  }

  lemma StaysOverYield(s: State)
    requires Inv(s) && s.cur == 1 && s.idle == 2 && SIG_UBLOCK !in s.tcb[1].accept
    requires s.pending == [Entry(SIG_UBLOCK, 1, 1)]
    ensures Lookup(Apply(s, Yield).pending, SIG_UBLOCK, 1).Some?
  {
    YieldingInv(s);
    KeyOne(s.pending[0], SIG_UBLOCK, 1);
    var x := Yielding(s);
    assert x.pending == s.pending && x.tcb[1].accept == s.tcb[1].accept;
    UblockGoneWhen(x, 1);
    assert Apply(s, Yield) == Switch(x);
  }

  /** main ignores SIG_UBLOCK, sends itself one, and yields: it is dispatched again, and the signal is still pending. */
  lemma IgnoredUblockStays()
    ensures var es := [Event.Signal(SIG_UBLOCK, SIG_IGN), Kill(1, SIG_UBLOCK), Yield];
            && Inv(Init(1, 2)) && Legal(Init(1, 2), es)
            && Lookup(Run(Init(1, 2), es).pending, SIG_UBLOCK, 1).Some?
  {
    var s := Init(1, 2);
    var s1, s2 := IgnoredAndSent();
    StaysOverYield(s2);
    RunPush(s2, Yield, []);
    RunPush(s1, Kill(1, SIG_UBLOCK), [Yield]);
    RunPush(s, Event.Signal(SIG_UBLOCK, SIG_IGN), [Kill(1, SIG_UBLOCK), Yield]);
  }
}
