/**
 The two processes of `Copy_using _pipes/fcopy.c` with their buffers as arrays overwritten in
 place.  Each method is one system call of one process and is proved to be the event of
 PipeCopy with that meaning.
 */
module PipeCopyProgram {
  import opened Basics
  import opened PipeCopy

  class Copy {
    const source: seq<Byte>
    var offset: nat                  // of the source file
    var parent: Parent
    const parentBuffer: array<Byte>
    var retp: nat                    // bytes of the parent's buffer still to be sent
    var pipe1: seq<Byte>
    const capacity: nat
    var child: Child
    const childBuffer: array<Byte>
    var retc: nat                    // bytes of the child's buffer still to be written
    var tokens: nat
    var target: seq<Byte>

    ghost predicate Valid()
      reads this`offset, this`retp, this`retc
    {
      && parentBuffer.Length == BUF_SIZE == childBuffer.Length && parentBuffer != childBuffer
      && offset <= |source| && retp <= BUF_SIZE && retc <= BUF_SIZE
    }

    ghost function View(): State
      requires Valid()
      reads this, parentBuffer, childBuffer
    {
      State(source[offset..], parent, parentBuffer[..retp], pipe1, capacity, child, childBuffer[..retc], tokens, target)
    }

    constructor (source: seq<Byte>, capacity: nat)
      ensures Valid() && View() == Init(source, capacity)
      ensures this.source == source && fresh(parentBuffer) && fresh(childBuffer)
    {
      this.source := source;
      this.capacity := capacity;
      offset, retp, retc, tokens := 0, 0, 0, 0;
      parent, child := PRead, CRead;
      parentBuffer := new Byte[BUF_SIZE];
      childBuffer := new Byte[BUF_SIZE];
      pipe1, target := [], [];
      new;
    }

    /** memcpy of the bytes a read() delivers to the front of a buffer. */
    static method Fill(buffer: array<Byte>, bytes: seq<Byte>)
      requires |bytes| <= buffer.Length
      modifies buffer
      ensures buffer[..|bytes|] == bytes
      ensures buffer[|bytes|..] == old(buffer[|bytes|..])
    {
      var i := 0;
      while i < |bytes|
        invariant 0 <= i <= |bytes| && buffer[..i] == bytes[..i]
        invariant buffer[|bytes|..] == old(buffer[|bytes|..])
      {
        buffer[i] := bytes[i];
        i := i + 1;
      }
    }

    /** The next call of the parent's loop; `n` is what its read() of the file returns, if it is one. */
    method ParentCall(n: nat)
      requires Valid() && Enabled(View(), OfParent(n))
      modifies this`offset, this`parent, this`retp, this`pipe1, this`tokens, parentBuffer
      ensures Valid() && View() == Apply(old(View()), OfParent(n))
    {
      match parent {
        case PRead =>
          if n > 0 {
            Fill(parentBuffer, source[offset..offset + n]);
            offset := offset + n;
            retp := n;
            parent := PWrite;
          } else {
            parent := PExited;
          }
        case PWrite =>
          pipe1 := pipe1 + parentBuffer[..retp];
          retp := 0;
          parent := PAwait;
        case PAwait =>
          if tokens > 0 {
            tokens := tokens - 1;
          }
          parent := PRead;
      }
    }

    /** The next call of the child's loop. */
    method ChildCall()
      requires Valid() && Enabled(View(), OfChild)
      modifies this`child, this`retc, this`pipe1, this`tokens, this`target, childBuffer
      ensures Valid() && View() == Apply(old(View()), OfChild)
    {
      match child {
        case CRead =>
          var n := Min(|pipe1|, BUF_SIZE);
          if n > 0 {
            Fill(childBuffer, pipe1[..n]);
            pipe1 := pipe1[n..];
            retc := n;
            child := CWrite;
          } else {
            child := CExited;
          }
        case CWrite =>
          target := target + childBuffer[..retc];
          retc := 0;
          child := CToken;
        case CToken =>
          tokens := tokens + 1;
          child := CRead;
      }
    }

    /** Both processes from fork() on; when the parent cannot go on, the child can. */
    method CopyFile()
      requires Valid() && capacity >= BUF_SIZE && offset == retp == retc == tokens == 0
      requires parent == PRead && child == CRead && pipe1 == [] && target == []
      modifies this, parentBuffer, childBuffer
      ensures target == source
    {
      ghost var file := source;
      assert View().copied + View().childBuffer + View().pipe1 + View().parentBuffer + View().unread == file;
      while parent != PExited || child != CExited
        invariant Valid() && Inv(View(), file)
        decreases Rank(View())
      {
        ghost var s := View();
        ghost var _ := NeverStuck(s, file);
        if parent == PRead || parent == PWrite || (parent == PAwait && tokens > 0) {
          var n := Min(|source| - offset, BUF_SIZE);
          StepConserves(s, OfParent(n), file);
          RankFalls(s, OfParent(n));
          ParentCall(n);
        } else {
          StepConserves(s, OfChild, file);
          RankFalls(s, OfChild);
          ChildCall();
        }
      }
      FinalIsCopy(View(), file);
    }
  }
}
