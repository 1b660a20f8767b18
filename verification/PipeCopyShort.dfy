/**
 The child of fcopy.c against its description, which has it exit after a chunk of less than 100
 bytes: it exits at the end of the pipe and not before.
 */
module PipeCopyShort {
  import opened Basics
  import opened PipeCopy

  /** The child exits exactly if it finds the pipe empty and the parent gone, whatever it has read before. */
  lemma ChildExitsWhen(s: State, file: seq<Byte>)
    requires Inv(s, file) && Enabled(s, OfChild)
    ensures Apply(s, OfChild).child == CExited <==> s.child == CRead && s.pipe1 == [] && s.parent == PExited
    ensures s.child == CToken ==> Apply(s, OfChild).child == CRead
  {
  }

  lemma RunPush(s: State, e: Event, es: seq<Event>)
    requires Enabled(s, e) && Legal(Apply(s, e), es)
    ensures Legal(s, [e] + es) && Run(s, [e] + es) == Run(Apply(s, e), es)
  {
    assert ([e] + es)[1..] == es;
  }

  /** Two bytes of which the first read() returns one: */
  ghost function ShortChunk(): seq<Event> {
    [OfParent(1), OfParent(0), OfChild, OfChild, OfChild]
  }

  /** and the second read() the other. */
  ghost function NextChunk(): seq<Event> {
    [OfParent(0), OfParent(1), OfParent(0), OfChild, OfChild]
  }

  lemma ShortChunkRun(x: Byte, y: Byte)
    ensures Legal(Init([x, y], BUF_SIZE), ShortChunk())
    ensures var r := Run(Init([x, y], BUF_SIZE), ShortChunk());
            r == State([y], PAwait, [], [], BUF_SIZE, CRead, [], 1, [x])
  {
    var s := Init([x, y], BUF_SIZE);
    var s1 := Apply(s, OfParent(1));
    assert s1 == s.(unread := [y], parentBuffer := [x], parent := PWrite);
    var s2 := Apply(s1, OfParent(0));
    assert s2 == s.(unread := [y], pipe1 := [x], parent := PAwait);
    var s3 := Apply(s2, OfChild);
    assert s3 == s2.(pipe1 := [], childBuffer := [x], child := CWrite);
    var s4 := Apply(s3, OfChild);
    assert s4 == s2.(pipe1 := [], copied := [x], child := CToken);
    RunPush(s4, OfChild, []);
    RunPush(s3, OfChild, [OfChild]);
    RunPush(s2, OfChild, [OfChild, OfChild]);
    RunPush(s1, OfParent(0), [OfChild, OfChild, OfChild]);
    RunPush(s, OfParent(1), [OfParent(0), OfChild, OfChild, OfChild]);
  }

  /** After reading and writing a single byte, the child reads on and copies another. */
  lemma GoesOnAfterShortChunk(x: Byte, y: Byte)
    ensures Legal(Init([x, y], BUF_SIZE), ShortChunk())
    ensures var r := Run(Init([x, y], BUF_SIZE), ShortChunk());
            r.copied == [x] && r.child == CRead && Legal(r, NextChunk()) && Run(r, NextChunk()).copied == [x, y]
  {
    ShortChunkRun(x, y);
    var s := State([y], PAwait, [], [], BUF_SIZE, CRead, [], 1, [x]);
    var s1 := Apply(s, OfParent(0));
    assert s1 == s.(tokens := 0, parent := PRead);
    var s2 := Apply(s1, OfParent(1));
    assert s2 == s1.(unread := [], parentBuffer := [y], parent := PWrite);
    var s3 := Apply(s2, OfParent(0));
    assert s3 == s1.(unread := [], pipe1 := [y], parent := PAwait);
    var s4 := Apply(s3, OfChild);
    assert s4 == s3.(pipe1 := [], childBuffer := [y], child := CWrite);
    RunPush(s4, OfChild, []);
    RunPush(s3, OfChild, [OfChild]);
    RunPush(s2, OfParent(0), [OfChild, OfChild]);
    RunPush(s1, OfParent(1), [OfParent(0), OfChild, OfChild]);
    RunPush(s, OfParent(0), [OfParent(1), OfParent(0), OfChild, OfChild]);
  }
}
