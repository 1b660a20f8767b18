/**
 The gate of B.c against its description, which has B wait when more than ten requests are in
 progress: B waits when it finds ten, and there are never more.
 */
module TicketGate {
  import opened Basics
  import opened TicketServer
  import opened TicketInvariant

  /** At its test B is held up exactly if ten requests are in progress; the described test never holds. */
  lemma GateClosesAtTen(s: State)
    requires Inv(s) && s.b == BTest
    ensures Apply(s, StepB).b == (if s.count == 10 then BLoop else BAdmit)
    ensures !(s.count > 10)
  {
  }

  // ----- a run in which ten requests hold up the eleventh -----

  ghost predicate Reaches(s: State, r: State) {
    exists es :: Legal(s, es) && Trace(s, es)[|es|] == r
  }

  lemma {:induction false} RunThenStep(s: State, es: seq<Event>, e: Event)
    requires Legal(s, es) && Enabled(Trace(s, es)[|es|], e)
    ensures Legal(s, es + [e]) && Trace(s, es + [e])[|es| + 1] == Apply(Trace(s, es)[|es|], e)
    decreases |es|
  {
    if es == [] {
      assert es + [e] == [e];
      assert Trace(s, [e])[1] == Trace(Apply(s, e), [])[0];
    } else {
      var s1, rest := Apply(s, es[0]), es[1..];
      assert (es + [e])[1..] == rest + [e] && (es + [e])[0] == es[0];
      RunThenStep(s1, rest, e);
    }
  }

  lemma StepOn(s: State, r: State, e: Event)
    requires Reaches(s, r) && Enabled(r, e)
    ensures Reaches(s, Apply(r, e))
  {
    var es :| Legal(s, es) && Trace(s, es)[|es|] == r;
    RunThenStep(s, es, e);
    assert Legal(s, es + [e]) && Trace(s, es + [e])[|es + [e]|] == Apply(r, e);
  }

  ghost function Zeros(n: nat): seq<int> {
    seq(n, i => 0)
  }

  /** `n` requests for no tickets have been handed to workers, none of which has moved. */
  ghost function Admissions(n: nat): State {
    State(SLOTS, 0, Zeros(SLOTS), Slot(n), Slot(n), AStart, BTake, seq(n, i => Worker(0, WLock)),
          n, TICKETS, Free, Free, Zeros(n), [])
  }

  /** A writes another one. */
  lemma OneWritten(n: nat)
    requires Reaches(Admissions(0), Admissions(n))
    ensures Reaches(Admissions(0),
                    Admissions(n).(ps := SLOTS - 1, cs := 1, inn := Slot(n + 1), produced := Zeros(n + 1)))
  {
    var s := Admissions(n);
    StepOn(Admissions(0), s, StepA(0));
    StepOn(Admissions(0), s.(ps := SLOTS - 1, a := AWrite), StepA(0));
    ZeroWritten(n);
    StepOn(Admissions(0), s.(ps := SLOTS - 1, a := APost, inn := Slot(n + 1), produced := Zeros(n + 1)), StepA(0));
  }

  lemma ZeroWritten(n: nat)
    ensures var s := Admissions(n).(ps := SLOTS - 1);
            Apply(s.(a := AWrite), StepA(0)) == s.(a := APost, inn := Slot(n + 1), produced := Zeros(n + 1))
  {
    SlotAfter(n, 1);
    assert Zeros(SLOTS)[Slot(n) := 0] == Zeros(SLOTS) && Zeros(n) + [0] == Zeros(n + 1);
  }

  /** B takes it and comes to the gate. */
  lemma AtTheGate(n: nat)
    requires Reaches(Admissions(0), Admissions(n))
    ensures Reaches(Admissions(0),
                    Admissions(n).(ps := SLOTS - 1, inn := Slot(n + 1), produced := Zeros(n + 1),
                                   countMutex := ByB, b := BTest))
  {
    OneWritten(n);
    var s := Admissions(n).(ps := SLOTS - 1, cs := 1, inn := Slot(n + 1), produced := Zeros(n + 1));
    StepOn(Admissions(0), s, StepB);
    StepOn(Admissions(0), s.(cs := 0, b := BLock), StepB);
  }

  /** Found fewer than ten, B admits it ... */
  lemma PastTheGate(n: nat)
    requires n < FULL && Reaches(Admissions(0), Admissions(n))
    ensures Reaches(Admissions(0),
                    Admissions(n).(ps := SLOTS - 1, inn := Slot(n + 1), produced := Zeros(n + 1),
                                   b := BRead, count := n + 1))
  {
    AtTheGate(n);
    var s := Admissions(n).(ps := SLOTS - 1, inn := Slot(n + 1), produced := Zeros(n + 1));
    StepOn(Admissions(0), s.(countMutex := ByB, b := BTest), StepB);
    StepOn(Admissions(0), s.(countMutex := ByB, b := BAdmit), StepB);
    StepOn(Admissions(0), s.(countMutex := ByB, b := BUnlock, count := n + 1), StepB);
  }

  /** ... and hands it over. */
  lemma OneAdmitted(n: nat)
    requires n < FULL && Reaches(Admissions(0), Admissions(n))
    ensures Reaches(Admissions(0), Admissions(n + 1))
  {
    PastTheGate(n);
    var s := Admissions(n).(ps := SLOTS - 1, inn := Slot(n + 1), produced := Zeros(n + 1), count := n + 1);
    StepOn(Admissions(0), s.(b := BRead), StepB);
    assert s.slots[s.out] == 0;
    StepOn(Admissions(0), s.(b := BCreate(0)), StepB);
    HandedOver(n);
    var p := Admissions(n + 1).(ps := SLOTS - 1, b := BPost);
    StepOn(Admissions(0), p, StepB);
    assert Apply(p, StepB) == Admissions(n + 1);
  }

  lemma HandedOver(n: nat)
    ensures var s := Admissions(n).(ps := SLOTS - 1, inn := Slot(n + 1), produced := Zeros(n + 1), count := n + 1);
            Apply(s.(b := BCreate(0)), StepB) == Admissions(n + 1).(ps := SLOTS - 1, b := BPost)
  {
    SlotAfter(n, 1);
    assert seq(n, i => Worker(0, WLock)) + [Worker(0, WLock)] == seq(n + 1, i => Worker(0, WLock));
  }

  lemma {:induction false} AllAdmitted(n: nat)
    requires n <= FULL
    ensures Reaches(Admissions(0), Admissions(n))
  {
    if n == 0 {
      assert Legal(Admissions(0), []) && Trace(Admissions(0), [])[0] == Admissions(0);
    } else {
      AllAdmitted(n - 1);
      OneAdmitted(n - 1);
    }
  }

  /** With ten in progress, not more, B holds up the next request: a run from the start. */
  lemma TenHoldUpTheNext() returns (r: State)
    ensures Reaches(Init(Zeros(SLOTS)), r) && r.b == BTest && r.count == 10
    ensures Apply(r, StepB).b == BLoop && Apply(Apply(r, StepB), StepB).b == BAsleep
  {
    AllAdmitted(FULL);
    AtTheGate(FULL);
    assert Admissions(0) == Init(Zeros(SLOTS));
    r := Admissions(FULL).(ps := SLOTS - 1, inn := Slot(FULL + 1), produced := Zeros(FULL + 1),
                           countMutex := ByB, b := BTest);
  }
}
