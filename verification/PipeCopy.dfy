/**
 The file copy of `Copy_using _pipes/fcopy.c` after fork(): the parent sends the file through
 one pipe a chunk at a time and awaits a token on the other pipe after each.  An event is one
 system call of one process, so runs are all interleavings.
 */
module PipeCopy {

  import opened Basics

  const BUF_SIZE: int := 100

  /** Before read(), before write() to the pipe, before the read() of the token, exited. */
  datatype Parent = PRead | PWrite | PAwait | PExited

  /** Before read() from the pipe, before write() to the file, before the write() of the token, exited. */
  datatype Child = CRead | CWrite | CToken | CExited

  datatype State = State(
    unread: seq<Byte>,    // the rest of the source file
    parent: Parent, parentBuffer: seq<Byte>,
    pipe1: seq<Byte>, capacity: nat,
    child: Child, childBuffer: seq<Byte>,
    tokens: nat,          // in pipe 2
    copied: seq<Byte>)    // the target file

  /** A call of the parent, where its read() of the file returns `n` bytes if it is one; a call of the child. */
  datatype Event = OfParent(n: nat) | OfChild

  /** A read() of the file returns something unless the file is at its end. */
  ghost predicate ReadReturns(s: State, n: nat) {
    n <= BUF_SIZE && n <= |s.unread| && (n == 0 ==> s.unread == [])
  }

  /** Calls that would block are not enabled; reading an empty pipe ends when nobody can write to it. */
  ghost predicate Enabled(s: State, e: Event) {
    match e
    case OfParent(n) =>
      (match s.parent
       case PRead => ReadReturns(s, n)
       case PWrite => |s.pipe1| + |s.parentBuffer| <= s.capacity
       case PAwait => s.tokens > 0 || s.child == CExited
       case PExited => false)
    case OfChild =>
      (match s.child
       case CRead => s.pipe1 != [] || s.parent == PExited
       case CWrite => true
       case CToken => true
       case CExited => false)
  }

  ghost function Apply(s: State, e: Event): State
    requires Enabled(s, e)
  {
    match e
    case OfParent(n) =>
      (match s.parent
       case PRead =>
         if n > 0 then s.(parentBuffer := s.unread[..n], unread := s.unread[n..], parent := PWrite)
         else s.(parent := PExited)
       case PWrite => s.(pipe1 := s.pipe1 + s.parentBuffer, parentBuffer := [], parent := PAwait)
       case PAwait => s.(tokens := if s.tokens > 0 then s.tokens - 1 else 0, parent := PRead))
    case OfChild =>
      (match s.child
       case CRead =>
         var n := Min(|s.pipe1|, BUF_SIZE);
         if n > 0 then s.(childBuffer := s.pipe1[..n], pipe1 := s.pipe1[n..], child := CWrite)
         else s.(child := CExited)
       case CWrite => s.(copied := s.copied + s.childBuffer, childBuffer := [], child := CToken)
       case CToken => s.(tokens := s.tokens + 1, child := CRead))
  }

  ghost function Init(file: seq<Byte>, capacity: nat): State {
    State(file, PRead, [], [], capacity, CRead, [], 0, [])
  }

  ghost predicate Final(s: State) {
    s.parent == PExited && s.child == CExited
  }

  // ----- what holds in every reachable state -----

  /** Every byte is in one place, and the places are in the order of the file. */
  ghost predicate Conserved(s: State, file: seq<Byte>) {
    s.copied + s.childBuffer + s.pipe1 + s.parentBuffer + s.unread == file
  }

  /** One chunk at a time: whoever has it, everywhere else is empty. */
  ghost predicate StopAndWait(s: State) {
    && |s.parentBuffer| <= BUF_SIZE && |s.pipe1| <= BUF_SIZE && |s.childBuffer| <= BUF_SIZE <= s.capacity
    && (s.parentBuffer != [] <==> s.parent == PWrite)
    && (s.childBuffer != [] <==> s.child == CWrite)
    && One(s.parent == PAwait) == One(s.pipe1 != []) + One(s.child == CWrite || s.child == CToken) + s.tokens
    && (s.parent == PExited ==> s.unread == [])
    && (s.child == CExited ==> s.parent == PExited)
  }

  ghost predicate Inv(s: State, file: seq<Byte>) {
    Conserved(s, file) && StopAndWait(s)
  }

  lemma StepConserves(s: State, e: Event, file: seq<Byte>)
    requires Conserved(s, file) && StopAndWait(s) && Enabled(s, e)
    ensures Conserved(Apply(s, e), file)
  {
    var r := Apply(s, e);
    if e.OfParent? && s.parent == PRead && e.n > 0 {
      assert s.unread == s.unread[..e.n] + s.unread[e.n..];
      assert r.parentBuffer + r.unread == s.parentBuffer + s.unread;
      Regroup(s.copied + s.childBuffer + s.pipe1, s.parentBuffer, s.unread, r.parentBuffer, r.unread);
    } else if e.OfParent? && s.parent == PWrite {
      Regroup(s.copied + s.childBuffer, s.pipe1, s.parentBuffer, r.pipe1, r.parentBuffer);
    } else if e.OfChild? && s.child == CRead && s.pipe1 != [] {
      assert r.childBuffer + r.pipe1 == s.childBuffer + s.pipe1;
      Regroup(s.copied, s.childBuffer, s.pipe1, r.childBuffer, r.pipe1);
    } else if e.OfChild? && s.child == CWrite {
      Regroup([], s.copied, s.childBuffer, r.copied, r.childBuffer);
      assert [] + s.copied == s.copied && [] + r.copied == r.copied;
    }
  }

  /** Moving bytes between neighbours keeps their order. */
  lemma Regroup(front: seq<Byte>, p: seq<Byte>, q: seq<Byte>, p': seq<Byte>, q': seq<Byte>)
    requires p + q == p' + q'
    ensures front + p + q == front + p' + q'
  {
    assert front + p + q == front + (p + q);
    assert front + p' + q' == front + (p' + q');
  }

  lemma StepStopAndWait(s: State, e: Event)
    requires StopAndWait(s) && Enabled(s, e)
    ensures StopAndWait(Apply(s, e))
  {
  }

  /**
   The parent's write finds the child alive and never blocks; the child's token finds the parent
   waiting for it.
   */
  lemma NeverBroken(s: State, file: seq<Byte>)
    requires Inv(s, file)
    ensures s.parent == PWrite ==> s.child != CExited && s.pipe1 == [] && Enabled(s, OfParent(0))
    ensures s.parent == PAwait ==> s.child != CExited
    ensures s.child == CToken ==> s.parent == PAwait && s.tokens == 0
    ensures |s.pipe1| <= 100 && s.tokens <= 1
  {
  }

  // ----- runs -----

  ghost predicate Legal(s: State, es: seq<Event>)
    decreases |es|
  {
    es == [] || (Enabled(s, es[0]) && Legal(Apply(s, es[0]), es[1..]))
  }

  ghost function Run(s: State, es: seq<Event>): State
    requires Legal(s, es)
    decreases |es|
  {
    if es == [] then s else Run(Apply(s, es[0]), es[1..])
  }

  /** Until both have exited, some process can go on. */
  lemma NeverStuck(s: State, file: seq<Byte>) returns (e: Event)
    requires Inv(s, file) && !Final(s)
    ensures Enabled(s, e)
  {
    if s.parent == PRead {
      return OfParent(Min(|s.unread|, BUF_SIZE));
    }
    if s.parent == PWrite || (s.parent == PAwait && s.tokens > 0) {
      return OfParent(0);
    }
    return OfChild;
  }

  /**
   A read() of the parent can return any amount up to a hundred bytes of what is left, and
   nothing only at the end.
   */
  lemma ReadsAnyAmount(s: State, n: nat)
    requires s.parent == PRead
    ensures Enabled(s, OfParent(n)) <==> n <= 100 && n <= |s.unread| && (n > 0 || s.unread == [])
    ensures 0 < n <= 100 && n <= |s.unread| ==>
              var r := Apply(s, OfParent(n)); r.parentBuffer == s.unread[..n] && r.unread == s.unread[n..]
  {
  }

  /** The processes take turns: while one can go on, the other cannot. */
  lemma TakesTurns(s: State, file: seq<Byte>, n: nat)
    requires Inv(s, file) && Enabled(s, OfChild)
    ensures !Enabled(s, OfParent(n))
  {
  }

  /** At the end the target file is the source file. */
  lemma FinalIsCopy(s: State, file: seq<Byte>)
    requires Inv(s, file) && Final(s)
    ensures s.copied == file
  {
    assert s.copied + [] + [] + [] + [] == s.copied;
  }

  /** System calls still to come, at most. */
  ghost function Rank(s: State): nat {
    6 * |s.unread|
    + (match s.parent
       case PRead => 2
       case PWrite => 7
       case PAwait => if s.pipe1 != [] then 6 else if s.child == CWrite then 5 else if s.child == CToken then 4 else 3
       case PExited => if s.child == CExited then 0 else 1)
  }

  lemma RankFalls(s: State, e: Event)
    requires StopAndWait(s) && Enabled(s, e)
    ensures Rank(Apply(s, e)) < Rank(s)
  {
  }

  lemma {:induction false} RunKeeps(s: State, es: seq<Event>, file: seq<Byte>)
    requires Inv(s, file) && Legal(s, es)
    ensures Inv(Run(s, es), file) && |es| + Rank(Run(s, es)) <= Rank(s)
    decreases |es|
  {
    if es != [] {
      StepConserves(s, es[0], file);
      StepStopAndWait(s, es[0]);
      RankFalls(s, es[0]);
      RunKeeps(Apply(s, es[0]), es[1..], file);
    }
  }

  /**
   Every interleaving of every copy keeps all bytes in order, ends after at most 6n + 2 system
   calls, and when nobody can go on both have exited and the target equals the source.
   */
  lemma CopiesEverything(file: seq<Byte>, capacity: nat, es: seq<Event>)
    requires capacity >= BUF_SIZE && Legal(Init(file, capacity), es)
    ensures var r := Run(Init(file, capacity), es);
            && Conserved(r, file) && |r.pipe1| <= 100
            && |es| <= 6 * |file| + 2
            && ((forall e :: !Enabled(r, e)) ==> Final(r) && r.copied == file)
  {
    var s := Init(file, capacity);
    assert s.copied + s.childBuffer + s.pipe1 + s.parentBuffer + s.unread == file;
    RunKeeps(s, es, file);
    var r := Run(s, es);
    if forall e :: !Enabled(r, e) {
      if !Final(r) {
        var e := NeverStuck(r, file);
      }
      FinalIsCopy(r, file);
    }
  }
}
