/**
 Children that die unreported: a run in which two deaths lead to one report, so that main's
 counters say a child is alive when none is.
 */
module SignalReportExample {
  import opened Queues
  import opened SignalSpec
  import opened SignalPending
  import opened SignalInvariant
  import opened SignalSteps
  import opened SignalChildren

  /** A dispatched thread for which nothing is deliverable just runs. */
  lemma QuietSettle(s: State)
    requires Inv(s) && !Expired(s, s.cur)
    requires forall i | 0 <= i < |s.pending| :: s.pending[i].sig == SIG_CHLD && s.pending[i].receiver != s.cur
    ensures Settle(s) == s
  {
    InvAddressed(s);
    QuietHandled(s);
  }

  lemma QuietHandled(s: State)
    requires Addressed(s) && !Expired(s, s.cur)
    requires forall i | 0 <= i < |s.pending| :: s.pending[i].sig == SIG_CHLD && s.pending[i].receiver != s.cur
    ensures Handled(s) == s && !Dies(s)
  {
    QuietScan(s, s.pending);
    assert Scanned(s).tcb == s.tcb;
  }

  lemma {:induction false} QuietScan(s: State, q: seq<Entry>)
    requires Receivable(s, q) && forall i | 0 <= i < |q| :: q[i].sig == SIG_CHLD && q[i].receiver != s.cur
    ensures Kept(s, q) == q && Taken(s, q) == [] && Woken(s, q) == [] && Caught(s, q) == {}
  {
    if q != [] {
      QuietScan(s, q[..|q| - 1]);
    }
  }

  /** main after creating two children, 3 and 4, and yielding to the first. */
  ghost function TwoChildren(): State {
    var child := Tcb(Ready, 1, ALL_BITS, {}, 0, 0, 0, 0);
    var s := Init(1, 2);
    s.(tcb := s.tcb[1 := s.tcb[1].(status := Ready, child := 2)][3 := child.(status := Running)][4 := child],
       live := [1, 2, 3, 4], ready := [4, 1], cur := 3, nextTid := 5, creator := map[3 := 1, 4 := 1])
  }

  lemma TwoChildrenReached() returns (s1: State, s2: State)
    ensures Inv(Init(1, 2)) && s1 == Apply(Init(1, 2), Create)
    ensures s1.cur == 1 && s1.idle == 2 && s2 == Apply(s1, Create)
    ensures s2.cur == 1 && s2.idle == 2 && Apply(s2, Yield) == TwoChildren()
  {
    InitInv(1, 2);
    s1 := Apply(Init(1, 2), Create);
    s2 := Apply(s1, Create);
    assert s2 == BeforeYield();
    FirstChildRuns();
  }

  /** main, still running, after creating them. */
  ghost function BeforeYield(): State {
    var child := Tcb(Ready, 1, ALL_BITS, {}, 0, 0, 0, 0);
    var s := Init(1, 2);
    s.(tcb := s.tcb[1 := s.tcb[1].(child := 2)][3 := child][4 := child],
       live := [1, 2, 3, 4], ready := [3, 4], nextTid := 5, creator := map[3 := 1, 4 := 1])
  }

  lemma FirstChildRuns()
    requires Inv(BeforeYield())
    ensures Apply(BeforeYield(), Yield) == TwoChildren()
  {
    YieldingInv(BeforeYield());
    var x := Yielding(BeforeYield());
    assert x.ready == [3, 4, 1];
    DispatchInv(x);
    assert Dispatch(x).ready == [4, 1] && Dispatch(x).tcb == TwoChildren().tcb;
    QuietSettle(Dispatch(x));
  }

  /** The first child exits: SIG_CHLD is pending for main, and the second child runs. */
  lemma FirstExit() returns (r: State)
    requires Inv(TwoChildren())
    ensures Enabled(TwoChildren(), Exit) && r == Apply(TwoChildren(), Exit)
    ensures r.cur == 4 && r.idle == 2 && r.ready == [1]
    ensures r.pending == [Entry(SIG_CHLD, NO_PARENT, 1)] && r.creator == map[3 := 1, 4 := 1]
    ensures r.tcb.Keys == {1, 2, 3, 4} && r.tcb[3].status == Dying && r.tcb[1] == TwoChildren().tcb[1]
    ensures r.tcb[4].parent == 1 && r.clock == 0
  {
    var s := TwoChildren();
    TerminatedInv(s);
    var x := Terminated(s);
    assert Live(s, 1) && x.pending == [Entry(SIG_CHLD, NO_PARENT, 1)] && x.ready == [4, 1];
    DispatchInv(x);
    r := Dispatch(x);
    assert r.ready == [1];
    QuietSettle(r);
  }

  /** The second child exits: its SIG_CHLD merges with the pending one, and main handles both as one. */
  lemma SecondExit(s: State) returns (r: State)
    requires Inv(s) && s.cur == 4 && s.idle == 2 && s.ready == [1]
    requires s.pending == [Entry(SIG_CHLD, NO_PARENT, 1)] && s.creator == map[3 := 1, 4 := 1]
    requires s.tcb.Keys == {1, 2, 3, 4} && s.tcb[3].status == Dying && s.tcb[1] == TwoChildren().tcb[1]
    requires s.tcb[4].parent == 1 && s.clock == 0
    ensures Enabled(s, Exit) && r == Apply(s, Exit)
    ensures r.tcb.Keys == {1, 2, 3, 4} && r.tcb[3].status == Dying && r.tcb[4].status == Dying && r.creator == s.creator
    ensures Live(r, 1) && r.tcb[1].child == 2 && r.tcb[1].dchild == 1 && ChldReport(1, 2, 1, 0) in r.log
  {
    var d := MainIsNext(s);
    MergedDelivery(d);
    r := Handled(d);
  }

  lemma MainIsNext(s: State) returns (d: State)
    requires Inv(s) && s.cur == 4 && s.idle == 2 && s.ready == [1]
    requires s.pending == [Entry(SIG_CHLD, NO_PARENT, 1)] && s.creator == map[3 := 1, 4 := 1]
    requires s.tcb.Keys == {1, 2, 3, 4} && s.tcb[3].status == Dying && s.tcb[1] == TwoChildren().tcb[1]
    requires s.tcb[4].parent == 1 && s.clock == 0
    ensures Enabled(s, Exit) && Inv(d) && Apply(s, Exit) == Settle(d)
    ensures d.cur == 1 && d.pending == [Entry(SIG_CHLD, NO_PARENT, 1)] && d.creator == s.creator
    ensures d.tcb.Keys == {1, 2, 3, 4} && d.tcb[3].status == Dying && d.tcb[4].status == Dying
    ensures d.tcb[1] == s.tcb[1].(status := Running)
  {
    TerminatedInv(s);
    var x := Terminated(s);
    assert Live(s, 1) && x.pending == [Entry(SIG_CHLD, NO_PARENT, 1)] && x.ready == [1];
    DispatchInv(x);
    d := Dispatch(x);
  }

  lemma MergedDelivery(d: State)
    requires Inv(d) && d.cur == 1 && d.pending == [Entry(SIG_CHLD, NO_PARENT, 1)]
    requires d.tcb[1].mask == {} && d.tcb[1].accept == ALL_BITS && d.tcb[1].maxlife == 0
    requires d.tcb.Keys == {1, 2, 3, 4} && d.tcb[3].status == Dying && d.tcb[4].status == Dying
    requires d.creator == map[3 := 1, 4 := 1]
    ensures Settle(d) == Handled(d)
    ensures var r, c := Handled(d), d.tcb[1];
            && r.creator == d.creator && r.tcb == d.tcb[1 := c.(dchild := c.dchild + 1)]
            && ChldReport(1, c.child, c.child - (c.dchild + 1), 0) in r.log
  {
    InvAddressed(d);
    MergedHandled(d);
    NoLiveKids(d);
  }

  lemma MergedHandled(d: State)
    requires Addressed(d) && d.cur == 1 && d.pending == [Entry(SIG_CHLD, NO_PARENT, 1)]
    requires d.tcb[1].mask == {} && d.tcb[1].accept == ALL_BITS && d.tcb[1].maxlife == 0
    ensures !Dies(d)
    ensures var r, c := Handled(d), d.tcb[1];
            && r.creator == d.creator && r.tcb == d.tcb[1 := c.(dchild := c.dchild + 1)]
            && ChldReport(1, c.child, c.child - (c.dchild + 1), |LiveKids(d, 1)|) in r.log
  {
    MergedScan(d);
    var m := Scanned(d);
    assert m.tcb == d.tcb;
    assert LiveKids(m, 1) == LiveKids(d, 1);
    assert Handled(d) == ChldHandled(m);
    assert Handled(d).log[|m.log|].ChldReport?;
  }

  lemma MergedScan(d: State)
    requires Addressed(d) && d.cur == 1 && d.pending == [Entry(SIG_CHLD, NO_PARENT, 1)]
    requires d.tcb[1].mask == {} && d.tcb[1].accept == ALL_BITS && d.tcb[1].maxlife == 0
    ensures Woken(d, d.pending) == [] && Caught(d, d.pending) == {SIG_CHLD} && Calls(d) == {SIG_CHLD} && !Dies(d)
  {
    assert d.pending[..0] == [] && Woken(d, d.pending[..0]) == [];
    assert Caught(d, d.pending) == {SIG_CHLD};
  }

  /**
   Two children die and one report is made, saying that one of the two children created is
   alive when none is; main's counters say so afterwards, too.
   */
  lemma ReportCanOverstate()
    ensures var es := [Create, Create, Yield, Exit, Exit];
            && Inv(Init(1, 2)) && Legal(Init(1, 2), es)
            && var r := Run(Init(1, 2), es);
            && ChldReport(1, 2, 1, 0) in r.log
            && Live(r, 1) && r.tcb[1].child - r.tcb[1].dchild == 1 && LiveKids(r, 1) == {}
  {
    var s1, s2 := TwoChildrenReached();
    var r2 := BothExit();
    RunPush(s2, Yield, [Exit, Exit]);
    RunPush(s1, Create, [Yield, Exit, Exit]);
    RunPush(Init(1, 2), Create, [Create, Yield, Exit, Exit]);
    NoLiveKids(r2);
  }

  lemma BothExit() returns (r: State)
    requires Inv(TwoChildren())
    ensures Legal(TwoChildren(), [Exit, Exit]) && r == Run(TwoChildren(), [Exit, Exit])
    ensures r.tcb.Keys == {1, 2, 3, 4} && r.tcb[3].status == Dying && r.tcb[4].status == Dying
    ensures r.creator == map[3 := 1, 4 := 1]
    ensures Live(r, 1) && r.tcb[1].child == 2 && r.tcb[1].dchild == 1 && ChldReport(1, 2, 1, 0) in r.log
  {
    var r1 := FirstExit();
    r := SecondExit(r1);
    RunPush(r1, Exit, []);
    RunPush(TwoChildren(), Exit, [Exit]);
  }

  lemma NoLiveKids(s: State)
    requires Inv(s) && s.tcb.Keys == {1, 2, 3, 4} && s.tcb[3].status == Dying && s.tcb[4].status == Dying
    requires s.creator == map[3 := 1, 4 := 1]
    ensures LiveKids(s, 1) == {}
  {
    forall t ensures t !in LiveKids(s, 1) {
      assert Parented(s, t);
    }
  }

  lemma RunPush(s: State, e: Event, es: seq<Event>)
    requires Inv(s) && Enabled(s, e) && Legal(Apply(s, e), es)
    ensures Legal(s, [e] + es) && Run(s, [e] + es) == Run(Apply(s, e), es)
  {
    assert ([e] + es)[1..] == es;
  }
}
