/** Facts about queues of thread identifiers, shared by both kernels. */
module Queues {

  /** Thread identifiers; tid_t is a C int. */
  type Tid = int

  /** How often `t` occurs in `q`. */
  ghost function Occ(q: seq<Tid>, t: Tid): nat {
    if q == [] then 0 else Occ(q[..|q| - 1], t) + if q[|q| - 1] == t then 1 else 0
  }

  ghost predicate NoDup(q: seq<Tid>) {
    forall i, j | 0 <= i < j < |q| :: q[i] != q[j]
  }

  lemma OccPush(q: seq<Tid>, x: Tid, t: Tid)
    ensures Occ(q + [x], t) == Occ(q, t) + if x == t then 1 else 0
  {
    assert (q + [x])[..|q|] == q;
  }

  lemma {:induction false} OccAppend(p: seq<Tid>, q: seq<Tid>, t: Tid)
    ensures Occ(p + q, t) == Occ(p, t) + Occ(q, t)
  {
    if q == [] {
      assert p + q == p;
    } else {
      var front, x := q[..|q| - 1], q[|q| - 1];
      assert p + q == (p + front) + [x];
      OccAppend(p, front, t);
      OccPush(p + front, x, t);
    }
  }

  lemma OccPop(q: seq<Tid>, t: Tid)
    requires q != []
    ensures Occ(q[1..], t) == Occ(q, t) - if q[0] == t then 1 else 0
  {
    OccAppend([q[0]], q[1..], t);
    assert q == [q[0]] + q[1..];
    assert Occ([q[0]], t) == Occ([], t) + if q[0] == t then 1 else 0 by {
      OccPush([], q[0], t);
      assert [] + [q[0]] == [q[0]];
    }
  }

  lemma {:induction false} OccAt(q: seq<Tid>, i: nat)
    requires i < |q|
    ensures Occ(q, q[i]) >= 1
  {
    if i < |q| - 1 {
      OccAt(q[..|q| - 1], i);
    }
  }

  lemma {:induction false} OccFind(q: seq<Tid>, t: Tid)
    ensures Occ(q, t) >= 1 <==> t in q
  {
    if q != [] {
      OccFind(q[..|q| - 1], t);
      assert q == q[..|q| - 1] + [q[|q| - 1]];
    }
  }

  /** A queue in which nobody occurs twice has no duplicates. */
  lemma {:induction false} OccDistinct(q: seq<Tid>)
    requires forall t :: Occ(q, t) <= 1
    ensures NoDup(q)
  {
    if q != [] {
      var front, x := q[..|q| - 1], q[|q| - 1];
      forall t ensures Occ(front, t) <= 1 {
        assert Occ(q, t) <= 1;
      }
      OccDistinct(front);
      assert Occ(q, x) <= 1;
      OccFind(front, x);
      forall i, j | 0 <= i < j < |q| ensures q[i] != q[j] {
        if j == |q| - 1 {
          assert front[i] == q[i];
        } else {
          assert front[i] == q[i] && front[j] == q[j];
        }
      }
    }
  }

  /** Where `t` first stands in `q`. */
  ghost function Pos(q: seq<Tid>, t: Tid): (p: nat)
    requires t in q
    ensures p < |q| && q[p] == t
  {
    if q[0] == t then 0 else 1 + Pos(q[1..], t)
  }

  lemma PosUnique(q: seq<Tid>, i: nat)
    requires NoDup(q) && i < |q|
    ensures Pos(q, q[i]) == i
  {
  }

  lemma {:induction false} PosFirst(q: seq<Tid>, i: nat)
    requires i < |q|
    ensures Pos(q, q[i]) <= i
  {
    if i > 0 {
      PosFirst(q[1..], i - 1);
    }
  }

  lemma {:induction false} PosPrefix(p: seq<Tid>, q: seq<Tid>, t: Tid)
    requires p <= q && t in p
    ensures t in q && Pos(q, t) == Pos(p, t)
  {
    if p[0] != t {
      PosPrefix(p[1..], q[1..], t);
    }
  }

  /** Newcomers join behind. */
  lemma PosAppend(q: seq<Tid>, r: seq<Tid>, t: Tid)
    requires NoDup(q + r) && t in q
    ensures t in q + r && Pos(q + r, t) == Pos(q, t)
  {
    PosUnique(q + r, Pos(q, t));
  }

  /** When the first `k` leave, everyone else moves up by `k`. */
  lemma PosDrop(q: seq<Tid>, k: nat, t: Tid)
    requires NoDup(q) && k <= |q| && t in q && t !in q[..k]
    ensures t in q[k..] && Pos(q[k..], t) + k == Pos(q, t)
  {
    var p := Pos(q, t);
    assert forall i | 0 <= i < k :: q[..k][i] == q[i] && q[i] in q[..k];
    assert q[k..][p - k] == t;
    PosUnique(q[k..], p - k);
  }
}
