/** Small runs worked out in full: how the three strategies differ on the
    same three items. */
module Scenarios {
  import opened Outcomes
  import opened Partitioner
  import opened Runnables
  import opened RunStrategies

  const Pass: Runnable := Runnable(args => Ok(Verdict(true)))
  const Fail: Runnable := Runnable(args => Ok(Verdict(false)))
  const Broken: Runnable := Runnable(args => Raised(ExecutionError("boom")))

  /** Sequence over one item that returns a result. */
  lemma SequenceOfOne(a: Runnable, args: seq<string>)
    requires a.run(args).Ok?
    ensures SequenceTrace([a], args) == Trace([a], [a.run(args).value], None)
  {
    var o := [a];
    assert o[..|o| - 1] == [];
    assert SequenceTrace(o, args) == Step(NoTrace, a, args);
    assert [] + [a] == [a] && [] + [a.run(args).value] == [a.run(args).value];
  }

  /** Sequence over two items that both return a result. */
  lemma SequenceOfTwo(a: Runnable, b: Runnable, args: seq<string>)
    requires a.run(args).Ok? && b.run(args).Ok?
    ensures SequenceTrace([a, b], args) == Trace([a, b], [a.run(args).value, b.run(args).value], None)
  {
    var o := [a, b];
    assert o[..1] == [a];
    SequenceOfOne(a, args);
    SequenceTraceNext(o, args, 1);
    assert o[..2] == o;
  }

  /** Sequence over three items that all return a result. */
  lemma SequenceOfThree(a: Runnable, b: Runnable, c: Runnable, args: seq<string>)
    requires a.run(args).Ok? && b.run(args).Ok? && c.run(args).Ok?
    ensures SequenceTrace([a, b, c], args) ==
      Trace([a, b, c], [a.run(args).value, b.run(args).value, c.run(args).value], None)
  {
    var o := [a, b, c];
    assert o[..2] == [a, b];
    SequenceOfTwo(a, b, args);
    SequenceTraceNext(o, args, 2);
    assert o[..3] == o;
  }

  /** Sequence over three items whose second raises stops there. */
  lemma SecondOfThreeRaises(a: Runnable, b: Runnable, c: Runnable, args: seq<string>)
    requires a.run(args).Ok? && b.run(args).Raised?
    ensures SequenceTrace([a, b, c], args) == Trace([a, b], [a.run(args).value], Some(b.run(args).error))
  {
    var o := [a, b, c];
    assert o[..1] == [a];
    SequenceOfOne(a, args);
    SequenceTraceNext(o, args, 1);
    SequenceTraceHalted(o, args, 2);
  }

  /** Sequence runs every item and accepts because one result passed. */
  lemma SequenceRunsEveryItem(args: seq<string>)
    ensures var t := RunSpec(Sequence, [Pass, Fail, Pass], args, InOrder());
      t == Trace([Pass, Fail, Pass], [Verdict(true), Verdict(false), Verdict(true)], None) &&
      IsRunOk(Sequence, t.results)
  {
    SequenceOfThree(Pass, Fail, Pass, args);
    assert [Verdict(true), Verdict(false), Verdict(true)][0].isOk;
  }

  /** Sequence rejects when every item failed, after running all of them. */
  lemma SequenceAllFail(args: seq<string>)
    ensures var t := RunSpec(Sequence, [Fail, Fail], args, InOrder());
      t == Trace([Fail, Fail], [Verdict(false), Verdict(false)], None) &&
      !IsRunOk(Sequence, t.results)
  {
    SequenceOfTwo(Fail, Fail, args);
  }

  /** Chain stops after the failing item and rejects. */
  lemma ChainStopsAtFailure(args: seq<string>)
    ensures var t := RunSpec(Chain, [Pass, Fail, Pass], args, InOrder());
      t == Trace([Pass, Fail], [Verdict(true), Verdict(false)], None) &&
      !IsRunOk(Chain, t.results)
  {
    var items := [Pass, Fail, Pass];
    assert items[..0] == [];
    ChainTraceNext(items, args, 0);
    ChainTraceNext(items, args, 1);
    ChainTraceHalted(items, args, 2);
    assert ![Verdict(true), Verdict(false)][1].isOk;
  }

  /** Parallel over two parts runs [Pass, Fail] and then [Pass], and
      rejects because one result failed. */
  lemma ParallelTwoParts(args: seq<string>)
    ensures var t := RunSpec(Parallel(2), [Pass, Fail, Pass], args, InOrder());
      t == Trace([Pass, Fail, Pass], [Verdict(true), Verdict(false), Verdict(true)], None) &&
      !IsRunOk(Parallel(2), t.results)
  {
    var items := [Pass, Fail, Pass];
    var chunks := [[Pass, Fail], [Pass]];
    ThreeInTwo();
    FirstChunk(args);
    SecondChunk(args);
    assert chunks[..0] == [];
    ParallelTraceNext(chunks, InOrder(), args, 0);
    ParallelTraceNext(chunks, InOrder(), args, 1);
    assert chunks[..2] == chunks;
    assert ![Verdict(true), Verdict(false), Verdict(true)][1].isOk;
  }

  lemma ThreeInTwo()
    ensures Divide(2, [Pass, Fail, Pass]) == Ok([[Pass, Fail], [Pass]])
  {
    var items := [Pass, Fail, Pass];
    assert ChunkStart(1, 1, 0) == 0 && ChunkStart(1, 1, 1) == 2 && ChunkStart(1, 1, 2) == 3;
    assert Chunk(items, 2, 0) == [Pass, Fail] && Chunk(items, 2, 1) == [Pass];
    assert Divide(2, items).value == [[Pass, Fail], [Pass]];
  }

  lemma FirstChunk(args: seq<string>)
    ensures ChunkTrace([Pass, Fail], 0, InOrder(), args) == Trace([Pass, Fail], [Verdict(true), Verdict(false)], None)
  {
    InOrderCompletion([Pass, Fail], 0);
    SequenceOfTwo(Pass, Fail, args);
  }

  lemma SecondChunk(args: seq<string>)
    ensures ChunkTrace([Pass], 1, InOrder(), args) == Trace([Pass], [Verdict(true)], None)
  {
    InOrderCompletion([Pass], 1);
    SequenceOfOne(Pass, args);
  }

  /** An item that raises ends a Sequence run: the items after it are not
      called and the error is what the directive raises. */
  lemma SequenceStopsAtRaise(args: seq<string>)
    ensures RunSpec(Sequence, [Pass, Broken, Pass], args, InOrder()) ==
      Trace([Pass, Broken], [Verdict(true)], Some(ExecutionError("boom")))
  {
    SecondOfThreeRaises(Pass, Broken, Pass, args);
  }

  /** With the default chunk count, a Parallel run over items that all pass
      calls every item exactly once, whatever the completion order, and
      accepts. */
  lemma DefaultParallelAccepts(items: seq<Runnable>, args: seq<string>, sched: Scheduler)
    requires ValidScheduler(sched)
    requires forall i :: 0 <= i < |items| ==> Passes(items[i], args)
    ensures var t := RunSpec(DefaultParallel, items, args, sched);
      t.raised.None? && multiset(t.called) == multiset(items) &&
      |t.results| == |items| && IsRunOk(DefaultParallel, t.results)
  {
    RunSpecAllPass(DefaultParallel, items, args, sched);
    ParallelRunsEachItemOnce(DefaultParallelProcesses, items, sched, args);
  }

  /** Parallel with one part runs the whole input as its only chunk. */
  lemma ParallelOnePart(items: seq<Runnable>, sched: Scheduler, args: seq<string>)
    requires ValidScheduler(sched)
    ensures RunSpec(Parallel(1), items, args, sched) == ChunkTrace(items, 0, sched, args)
  {
    DivideOnePart(items);
    var chunks := [items];
    assert chunks[..0] == [];
    ParallelTraceNext(chunks, sched, args, 0);
    assert chunks[..1] == chunks;
    var b := ChunkTrace(items, 0, sched, args);
    assert [] + b.called == b.called && [] + b.results == b.results;
  }

  /** A Sequence over two items whose first raises stops there. */
  lemma FirstOfTwoRaises(a: Runnable, b: Runnable, args: seq<string>)
    requires a.run(args).Raised?
    ensures SequenceTrace([a, b], args) == Trace([a], [], Some(a.run(args).error))
  {
    var o := [a, b];
    assert o[..0] == [];
    SequenceTraceNext(o, args, 0);
    SequenceTraceHalted(o, args, 1);
  }
}
