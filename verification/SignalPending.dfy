/** The pending list as a table keyed by signal and receiver. */
module SignalPending {
  import opened Queues
  import opened SignalSpec

  datatype Option<+T> = None | Some(value: T)

  ghost predicate HasKey(x: Entry, sig: int, r: Tid) {
    x.sig == sig && x.receiver == r
  }

  /** How many entries of `q` are for this signal and receiver. */
  ghost function KeyOcc(q: seq<Entry>, sig: int, r: Tid): nat {
    if q == [] then 0
    else KeyOcc(q[..|q| - 1], sig, r) + if HasKey(q[|q| - 1], sig, r) then 1 else 0
  }

  /** The sender of the pending signal, if there is one. */
  ghost function Lookup(q: seq<Entry>, sig: int, r: Tid): Option<Tid> {
    if q == [] then None
    else if HasKey(q[|q| - 1], sig, r) then Some(q[|q| - 1].sender)
    else Lookup(q[..|q| - 1], sig, r)
  }

  ghost predicate OnePerKey(q: seq<Entry>) {
    forall sig, r {:trigger KeyOcc(q, sig, r)} :: KeyOcc(q, sig, r) <= 1
  }

  lemma KeyPush(q: seq<Entry>, x: Entry, sig: int, r: Tid)
    ensures KeyOcc(q + [x], sig, r) == KeyOcc(q, sig, r) + if HasKey(x, sig, r) then 1 else 0
    ensures Lookup(q + [x], sig, r) == if HasKey(x, sig, r) then Some(x.sender) else Lookup(q, sig, r)
  {
    assert (q + [x])[..|q|] == q;
  }

  lemma {:induction false} KeyAppend(p: seq<Entry>, q: seq<Entry>, sig: int, r: Tid)
    ensures KeyOcc(p + q, sig, r) == KeyOcc(p, sig, r) + KeyOcc(q, sig, r)
    ensures Lookup(p + q, sig, r) == if KeyOcc(q, sig, r) > 0 then Lookup(q, sig, r) else Lookup(p, sig, r)
  {
    if q == [] {
      assert p + q == p;
    } else {
      var front, x := q[..|q| - 1], q[|q| - 1];
      assert p + q == (p + front) + [x];
      KeyAppend(p, front, sig, r);
      KeyPush(p + front, x, sig, r);
    }
  }

  lemma {:induction false} LookupFound(q: seq<Entry>, sig: int, r: Tid)
    ensures Lookup(q, sig, r).Some? <==> KeyOcc(q, sig, r) > 0
  {
    if q != [] {
      LookupFound(q[..|q| - 1], sig, r);
    }
  }

  lemma KeyOne(x: Entry, sig: int, r: Tid)
    ensures KeyOcc([x], sig, r) == (if HasKey(x, sig, r) then 1 else 0)
    ensures Lookup([x], sig, r) == if HasKey(x, sig, r) then Some(x.sender) else None
  {
    KeyPush([], x, sig, r);
    assert [] + [x] == [x];
  }

  /** Sending sets the sender for that key and leaves the rest alone. */
  lemma {:induction false} PostLookup(q: seq<Entry>, x: Entry, sig: int, r: Tid)
    requires KeyOcc(q, sig, r) <= 1
    ensures KeyOcc(Post(q, x), sig, r) == if HasKey(x, sig, r) then 1 else KeyOcc(q, sig, r)
    ensures Lookup(Post(q, x), sig, r) == if HasKey(x, sig, r) then Some(x.sender) else Lookup(q, sig, r)
  {
    KeyOne(x, sig, r);
    if q != [] {
      var y, rest := q[0], q[1..];
      assert q == [y] + rest;
      KeyAppend([y], rest, sig, r);
      KeyOne(y, sig, r);
      LookupFound(rest, sig, r);
      if SameKey(y, x) {
        KeyAppend([x], rest, sig, r);
      } else {
        PostLookup(rest, x, sig, r);
        KeyAppend([y], Post(rest, x), sig, r);
      }
    }
  }

  ghost predicate DeliverableKey(s: State, sig: int, r: Tid)
    requires s.cur in s.tcb && r in s.tcb
  {
    Deliverable(s, Entry(sig, NO_PARENT, r))
  }

  /**
   One delivery pass is a filter: exactly the deliverable keys leave the list, the others keep
   their senders.
   */
  lemma {:induction false} KeptLookup(s: State, q: seq<Entry>, sig: int, r: Tid)
    requires Receivable(s, q)
    ensures KeyOcc(Kept(s, q), sig, r) == if r in s.tcb && DeliverableKey(s, sig, r) then 0 else KeyOcc(q, sig, r)
    ensures Lookup(Kept(s, q), sig, r) == if r in s.tcb && DeliverableKey(s, sig, r) then None else Lookup(q, sig, r)
    ensures KeyOcc(Taken(s, q), sig, r) == if r in s.tcb && DeliverableKey(s, sig, r) then KeyOcc(q, sig, r) else 0
    ensures Lookup(Taken(s, q), sig, r) == if r in s.tcb && DeliverableKey(s, sig, r) then Lookup(q, sig, r) else None
  {
    if q != [] {
      var front, x := q[..|q| - 1], q[|q| - 1];
      KeptLookup(s, front, sig, r);
      if Deliverable(s, x) {
        KeyPush(Taken(s, front), x, sig, r);
        assert Kept(s, q) == Kept(s, front);
      } else {
        KeyPush(Kept(s, front), x, sig, r);
        assert Taken(s, q) == Taken(s, front);
      }
    }
  }

  /** `sigd` is the set of pending signals the running thread lets in. */
  lemma {:induction false} CaughtIs(s: State, q: seq<Entry>, sig: int)
    requires Receivable(s, q)
    ensures sig in Caught(s, q) <==> sig != SIG_UBLOCK && DeliverableKey(s, sig, s.cur) && KeyOcc(q, sig, s.cur) > 0
  {
    if q != [] {
      CaughtIs(s, q[..|q| - 1], sig);
    }
  }

  lemma {:induction false} UsrSenderIs(s: State, q: seq<Entry>)
    requires Receivable(s, q) && SIG_USR in Caught(s, q)
    ensures Lookup(q, SIG_USR, s.cur) == Some(UsrSender(s, q))
  {
    var front, x := q[..|q| - 1], q[|q| - 1];
    CaughtIs(s, q, SIG_USR);
    if !HasKey(x, SIG_USR, s.cur) {
      CaughtIs(s, front, SIG_USR);
      UsrSenderIs(s, front);
    }
  }

  // ----- the pass as a filter -----

  /** Where the entries that stay stood in the list. */
  ghost function KeptAt(s: State, q: seq<Entry>): seq<int>
    requires Receivable(s, q)
  {
    if q == [] then []
    else if Deliverable(s, q[|q| - 1]) then KeptAt(s, q[..|q| - 1])
    else KeptAt(s, q[..|q| - 1]) + [|q| - 1]
  }

  lemma {:induction false} KeptAtIs(s: State, q: seq<Entry>, j: int)
    requires Receivable(s, q)
    ensures j in KeptAt(s, q) <==> 0 <= j < |q| && !Deliverable(s, q[j])
  {
    if q != [] {
      KeptAtIs(s, q[..|q| - 1], j);
    }
  }

  /** The survivors are exactly the entries not deliverable now (KeptAtIs), in their old order. */
  lemma {:induction false} KeptInOrder(s: State, q: seq<Entry>)
    requires Receivable(s, q)
    ensures |KeptAt(s, q)| == |Kept(s, q)|
    ensures forall i | 0 <= i < |Kept(s, q)| :: 0 <= KeptAt(s, q)[i] < |q| && Kept(s, q)[i] == q[KeptAt(s, q)[i]]
    ensures forall i, j | 0 <= i < j < |Kept(s, q)| :: KeptAt(s, q)[i] < KeptAt(s, q)[j]
  {
    if q != [] {
      KeptInOrder(s, q[..|q| - 1]);
    }
  }

  /** Who wakes does not depend on which thread was chosen to run. */
  lemma {:induction false} WokenWhoeverRuns(s: State, t: Tid, q: seq<Entry>)
    requires Receivable(s, q) && t in s.tcb
    ensures Woken(s.(cur := t), q) == Woken(s, q)
  {
    if q != [] {
      WokenWhoeverRuns(s, t, q[..|q| - 1]);
    }
  }
}
