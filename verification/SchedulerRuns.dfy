/** Runs of the scheduler: any finite interleaving of enabled events. */
module SchedulerRuns {
  import opened Queues
  import opened SchedulerSpec
  import opened SchedulerInvariant

  /** Every event of `es` is enabled when its turn comes. */
  ghost predicate Legal(s: State, es: seq<Event>)
    requires Inv(s)
    decreases |es|
  {
    es == [] || (Enabled(s, es[0]) && (StepInv(s, es[0]); Legal(Apply(s, es[0]), es[1..])))
  }

  /** The states a run goes through: entry k is the state after k events. */
  ghost function Trace(s: State, es: seq<Event>): (tr: seq<State>)
    requires Inv(s) && Legal(s, es)
    ensures |tr| == |es| + 1 && tr[0] == s
    decreases |es|
  {
    if es == [] then [s]
    else
      StepInv(s, es[0]);
      [s] + Trace(Apply(s, es[0]), es[1..])
  }

  /** How many of the first `k` events are timer ticks. */
  ghost function Ticks(es: seq<Event>, k: nat): nat
    requires k <= |es|
  {
    if k == 0 then 0 else (if es[0] == Tick then 1 else 0) + Ticks(es[1..], k - 1)
  }

  /** The invariant holds in every state of every run. */
  lemma {:induction false} RunInv(s: State, es: seq<Event>, k: nat)
    requires Inv(s) && Legal(s, es) && k <= |es|
    ensures Inv(Trace(s, es)[k])
    decreases |es|
  {
    if k > 0 {
      StepInv(s, es[0]);
      RunInv(Apply(s, es[0]), es[1..], k - 1);
    }
  }

  /** Consecutive states of a run are one event apart. */
  lemma {:induction false} TraceStep(s: State, es: seq<Event>, k: nat)
    requires Inv(s) && Legal(s, es) && k < |es|
    ensures var r := Trace(s, es)[k];
            Inv(r) && Enabled(r, es[k]) && Trace(s, es)[k + 1] == Apply(r, es[k])
    decreases |es|
  {
    StepInv(s, es[0]);
    var s1, rest := Apply(s, es[0]), es[1..];
    if k == 0 {
      assert Trace(s, es)[1] == Trace(s1, rest)[0];
    } else {
      TraceStep(s1, rest, k - 1);
    }
  }

  /** A run is a run from each of its states on. */
  lemma {:induction false} RunFrom(s: State, es: seq<Event>, k: nat)
    requires Inv(s) && Legal(s, es) && k <= |es|
    ensures Inv(Trace(s, es)[k]) && Legal(Trace(s, es)[k], es[k..])
    ensures Trace(Trace(s, es)[k], es[k..]) == Trace(s, es)[k..]
    decreases |es|
  {
    if k == 0 {
      assert es[0..] == es;
    } else {
      StepInv(s, es[0]);
      var s1, rest := Apply(s, es[0]), es[1..];
      RunFrom(s1, rest, k - 1);
      assert rest[k - 1..] == es[k..];
      assert Trace(s1, rest)[k - 1..] == Trace(s, es)[k..];
    }
  }
}
