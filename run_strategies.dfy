/** The three run strategies: which items a strategy runs, in what order,
    and the acceptance predicate it applies to the collected results. The
    run loops themselves drive the directive's per-item callback and live
    with the directive (module Directives); this module states, as pure
    traces, what those loops are proved to do. */
module RunStrategies {
  import opened Outcomes
  import opened Seqs
  import opened Partitioner
  import opened Runnables

  datatype Strategy = Sequence | Chain | Parallel(processes: int)

  /** The parallel strategy's chunk count when the environment does not set one. */
  const DefaultParallelProcesses: int := 4

  /** The parallel strategy with the default chunk count. */
  const DefaultParallel: Strategy := Parallel(DefaultParallelProcesses)

  // ---------------------------------------------------------------------
  // Acceptance predicates

  /** `any(r.is_ok for r in results)`. */
  function AnyOk(rs: seq<RunResult>): (b: bool)
    ensures b <==> exists i :: 0 <= i < |rs| && rs[i].isOk
    decreases |rs|
  {
    if rs == [] then false
    else
      assert forall i :: 0 < i < |rs| ==> rs[i] == rs[1..][i - 1];
      rs[0].isOk || AnyOk(rs[1..])
  }

  /** `all(r.is_ok for r in results)`. */
  function AllOk(rs: seq<RunResult>): (b: bool)
    ensures b <==> forall i :: 0 <= i < |rs| ==> rs[i].isOk
    decreases |rs|
  {
    if rs == [] then true
    else
      assert forall i :: 0 < i < |rs| ==> rs[i] == rs[1..][i - 1];
      rs[0].isOk && AllOk(rs[1..])
  }

  /** `is_run_ok`: Sequence accepts when some result passed, Chain and
      Parallel only when every result passed. */
  function IsRunOk(s: Strategy, rs: seq<RunResult>): (b: bool)
    ensures s.Sequence? ==> (b <==> exists i :: 0 <= i < |rs| && rs[i].isOk)
    ensures !s.Sequence? ==> (b <==> forall i :: 0 <= i < |rs| ==> rs[i].isOk)
  {
    match s
    case Sequence => AnyOk(rs)
    case Chain => AllOk(rs)
    case Parallel(_) => AllOk(rs)
  }

  /** Nothing collected: Sequence rejects, Chain and Parallel accept. */
  lemma IsRunOkEmpty(s: Strategy)
    ensures IsRunOk(s, []) == !s.Sequence?
  {
  }

  // ---------------------------------------------------------------------
  // Acceptance as written: the predicates read an attribute `is_run_ok`
  // that a result record does not have.

  /** Reading one of the two attributes the acceptance predicates read:
      `is_ok` gives the verdict, and `is_run_ok`, which a result record
      lacks, raises AttributeError. */
  function BoolAttribute(r: RunResult, name: string): (v: Outcome<bool>)
    requires name == "is_ok" || name == "is_run_ok"
    ensures v.Ok? <==> name == "is_ok"
    ensures v.Ok? ==> v.value == r.isOk
    ensures v.Raised? ==> v.error == AttributeError(name)
  {
    if name == "is_ok" then Ok(r.isOk) else Raised(AttributeError(name))
  }

  /** `any(map(lambda r: r.<name>, rs))`, stopping at the first raise or true. */
  function AnyAttribute(rs: seq<RunResult>, name: string): Outcome<bool>
    requires name == "is_ok" || name == "is_run_ok"
    decreases |rs|
  {
    if rs == [] then Ok(false)
    else match BoolAttribute(rs[0], name)
      case Raised(e) => Raised(e)
      case Ok(b) => if b then Ok(true) else AnyAttribute(rs[1..], name)
  }

  /** `all(map(lambda r: r.<name>, rs))`, stopping at the first raise or false. */
  function AllAttribute(rs: seq<RunResult>, name: string): Outcome<bool>
    requires name == "is_ok" || name == "is_run_ok"
    decreases |rs|
  {
    if rs == [] then Ok(true)
    else match BoolAttribute(rs[0], name)
      case Raised(e) => Raised(e)
      case Ok(b) => if b then AllAttribute(rs[1..], name) else Ok(false)
  }

  /** The acceptance predicate reading attribute `name` of every result. */
  function AcceptReading(s: Strategy, rs: seq<RunResult>, name: string): Outcome<bool>
    requires name == "is_ok" || name == "is_run_ok"
  {
    if s.Sequence? then AnyAttribute(rs, name) else AllAttribute(rs, name)
  }

  /** The three `is_run_ok` methods exactly as written. */
  function AcceptAsWritten(s: Strategy, rs: seq<RunResult>): (r: Outcome<bool>)
    ensures rs == [] ==> r == Ok(!s.Sequence?)
    ensures rs != [] ==> r == Raised(AttributeError("is_run_ok"))
  {
    AcceptReading(s, rs, "is_run_ok")
  }

  /** As written, one passing result already makes acceptance raise. */
  lemma AcceptAsWrittenCounterexample()
    ensures AcceptAsWritten(Sequence, [Verdict(true)]) == Raised(AttributeError("is_run_ok"))
    ensures IsRunOk(Sequence, [Verdict(true)])
  {
    assert [Verdict(true)][0].isOk;
  }

  /** Reading `is_ok` instead gives exactly the corrected predicate. */
  lemma {:induction false} AcceptReadingIsOk(s: Strategy, rs: seq<RunResult>)
    ensures AcceptReading(s, rs, "is_ok") == Ok(IsRunOk(s, rs))
    decreases |rs|
  {
    if rs != [] {
      AcceptReadingIsOk(s, rs[1..]);
      assert AnyOk(rs) == (rs[0].isOk || AnyOk(rs[1..]));
      assert AllOk(rs) == (rs[0].isOk && AllOk(rs[1..]));
    }
  }

  // ---------------------------------------------------------------------
  // Traces: what a strategy's run does through the per-item callback

  /** The items the callback was called on, the results it appended, and
      the error that ended the run, if any. Calls are in input order, except
      within a Parallel chunk, where they are in completion order and stop
      at the first raise. */
  datatype Trace = Trace(called: seq<Runnable>, results: seq<RunResult>, raised: Option<Error>)

  const NoTrace: Trace := Trace([], [], None)

  /** An item passes when running it with `args` returns a passing result. */
  predicate Passes(item: Runnable, args: seq<string>) {
    item.run(args).Ok? && item.run(args).value.isOk
  }

  /** Every call returned the result recorded for it, except that when the
      run raised, the last call is the one that raised. */
  ghost predicate Consistent(t: Trace, args: seq<string>) {
    |t.results| + (if t.raised.Some? then 1 else 0) == |t.called| &&
    (forall j :: 0 <= j < |t.results| ==> t.called[j].run(args) == Ok(t.results[j])) &&
    (t.raised.Some? ==> t.called[|t.called| - 1].run(args) == Raised(t.raised.value))
  }

  /** One more callback invocation: run the item, append its result, or
      record what it raised. */
  function Step(t: Trace, item: Runnable, args: seq<string>): (u: Trace)
    requires t.raised.None?
    ensures u.called == t.called + [item]
    ensures item.run(args).Ok? ==> u == Trace(t.called + [item], t.results + [item.run(args).value], None)
    ensures item.run(args).Raised? ==> u == Trace(t.called + [item], t.results, Some(item.run(args).error))
  {
    match item.run(args)
    case Raised(e) => Trace(t.called + [item], t.results, Some(e))
    case Ok(res) => Trace(t.called + [item], t.results + [res], None)
  }

  lemma StepConsistent(t: Trace, item: Runnable, args: seq<string>)
    requires t.raised.None? && Consistent(t, args)
    ensures Consistent(Step(t, item, args), args)
  {
  }

  /** Sequence: every item in input order, whatever its outcome; only a
      raise stops the loop. */
  function SequenceTrace(items: seq<Runnable>, args: seq<string>): Trace
    decreases |items|
  {
    if items == [] then NoTrace
    else
      var prev := SequenceTrace(items[..|items| - 1], args);
      if prev.raised.Some? then prev else Step(prev, items[|items| - 1], args)
  }

  /** Sequence calls every item exactly once, in input order, unless an
      item raises; then it has called exactly the items up to that one. */
  lemma {:induction false} SequenceTraceSpec(items: seq<Runnable>, args: seq<string>)
    ensures var t := SequenceTrace(items, args);
      Consistent(t, args) &&
      |t.called| <= |items| && t.called == items[..|t.called|] &&
      (t.raised.None? ==> t.called == items && |t.results| == |items|)
    decreases |items|
  {
    if items != [] {
      var last := |items| - 1;
      SequenceTraceSpec(items[..last], args);
      var prev := SequenceTrace(items[..last], args);
      assert items[..last][..|prev.called|] == items[..|prev.called|];
      if prev.raised.None? {
        StepConsistent(prev, items[last], args);
        assert items[..last] + [items[last]] == items;
      }
    }
  }

  /** The run over one more item extends the run over the prefix. */
  lemma SequenceTraceNext(items: seq<Runnable>, args: seq<string>, i: nat)
    requires i < |items| && SequenceTrace(items[..i], args).raised.None?
    ensures SequenceTrace(items[..i + 1], args) == Step(SequenceTrace(items[..i], args), items[i], args)
  {
    assert items[..i + 1][..i] == items[..i];
  }

  /** Once a prefix raised, the longer runs are that prefix's run. */
  lemma {:induction false} SequenceTraceHalted(items: seq<Runnable>, args: seq<string>, i: nat)
    requires i <= |items| && SequenceTrace(items[..i], args).raised.Some?
    ensures SequenceTrace(items, args) == SequenceTrace(items[..i], args)
    decreases |items| - i
  {
    if i < |items| {
      var last := |items| - 1;
      assert items[..last][..i] == items[..i];
      SequenceTraceHalted(items[..last], args, i);
    } else {
      assert items[..i] == items;
    }
  }

  /** The chain stops after an item that raised or did not pass. */
  predicate ChainHalted(t: Trace) {
    t.raised.Some? || (t.results != [] && !t.results[|t.results| - 1].isOk)
  }

  /** Chain: items in input order; after each result, a failing one ends the
      run and the later items are never called. */
  function ChainTrace(items: seq<Runnable>, args: seq<string>): Trace
    decreases |items|
  {
    if items == [] then NoTrace
    else
      var prev := ChainTrace(items[..|items| - 1], args);
      if ChainHalted(prev) then prev else Step(prev, items[|items| - 1], args)
  }

  /** Every result a chain records is what its call returned. */
  lemma {:induction false} ChainTraceConsistent(items: seq<Runnable>, args: seq<string>)
    ensures Consistent(ChainTrace(items, args), args)
    decreases |items|
  {
    if items != [] {
      var last := |items| - 1;
      ChainTraceConsistent(items[..last], args);
      var prev := ChainTrace(items[..last], args);
      if !ChainHalted(prev) {
        StepConsistent(prev, items[last], args);
      }
    }
  }

  /** Chain calls an input-order prefix of the items, all of them unless
      it stopped. */
  lemma {:induction false} ChainTracePrefix(items: seq<Runnable>, args: seq<string>)
    ensures var t := ChainTrace(items, args);
      |t.called| <= |items| && t.called == items[..|t.called|] &&
      (!ChainHalted(t) ==> t.called == items)
    decreases |items|
  {
    if items != [] {
      var last := |items| - 1;
      var init := items[..last];
      ChainTracePrefix(init, args);
      var prev := ChainTrace(init, args);
      assert init[..|prev.called|] == items[..|prev.called|];
      if !ChainHalted(prev) {
        assert prev.called + [items[last]] == items;
      }
    }
  }

  /** Every call of a chain but the last passed; the chain has stopped
      exactly when its last call did not pass. */
  lemma {:induction false} ChainTraceStops(items: seq<Runnable>, args: seq<string>)
    ensures var t := ChainTrace(items, args);
      (forall j :: 0 <= j < |t.called| - 1 ==> Passes(t.called[j], args)) &&
      (t.called != [] ==> (ChainHalted(t) <==> !Passes(t.called[|t.called| - 1], args)))
    decreases |items|
  {
    if items != [] {
      var last := |items| - 1;
      ChainTraceStops(items[..last], args);
      ChainTraceConsistent(items[..last], args);
    }
  }

  /** A chain that called fewer than all its items stopped after a call
      that did not pass. */
  lemma ChainTraceEarly(items: seq<Runnable>, args: seq<string>)
    ensures var t := ChainTrace(items, args);
      |t.called| < |items| ==> |t.called| > 0 && !Passes(t.called[|t.called| - 1], args)
  {
    ChainTraceStops(items, args);
    ChainTraceConsistent(items, args);
    ChainTracePrefix(items, args);
  }

  lemma ChainTraceNext(items: seq<Runnable>, args: seq<string>, i: nat)
    requires i < |items| && !ChainHalted(ChainTrace(items[..i], args))
    ensures ChainTrace(items[..i + 1], args) == Step(ChainTrace(items[..i], args), items[i], args)
  {
    assert items[..i + 1][..i] == items[..i];
  }

  lemma {:induction false} ChainTraceHalted(items: seq<Runnable>, args: seq<string>, i: nat)
    requires i <= |items| && ChainHalted(ChainTrace(items[..i], args))
    ensures ChainTrace(items, args) == ChainTrace(items[..i], args)
    decreases |items| - i
  {
    if i < |items| {
      var last := |items| - 1;
      assert items[..last][..i] == items[..i];
      ChainTraceHalted(items[..last], args, i);
    } else {
      assert items[..i] == items;
    }
  }

  /** The position of the first item that does not pass, or |items|. */
  function FirstFailure(items: seq<Runnable>, args: seq<string>): (k: nat)
    ensures k <= |items|
    ensures forall j :: 0 <= j < k ==> Passes(items[j], args)
    ensures k < |items| ==> !Passes(items[k], args)
    decreases |items|
  {
    if items == [] then 0
    else if !Passes(items[0], args) then 0
    else
      var k := FirstFailure(items[1..], args);
      assert forall j :: 1 <= j < k + 1 ==> items[j] == items[1..][j - 1];
      k + 1
  }

  /** Chain executes the shortest prefix that ends with the first failing
      item, or every item when none fails. */
  lemma ChainRunsUpToFirstFailure(items: seq<Runnable>, args: seq<string>)
    ensures var f := FirstFailure(items, args);
      ChainTrace(items, args).called == items[..if f < |items| then f + 1 else |items|]
  {
    ChainTracePrefix(items, args);
    ChainTraceStops(items, args);
    ChainTraceEarly(items, args);
    var t := ChainTrace(items, args);
    var f := FirstFailure(items, args);
    var m := |t.called|;
    assert forall j :: 0 <= j < m - 1 ==> Passes(items[j], args) by {
      assert forall j :: 0 <= j < m ==> t.called[j] == items[j];
    }
    if m < |items| {
      assert !Passes(items[m - 1], args);
    }
  }

  // ---------------------------------------------------------------------
  // Parallel

  /** Completion order inside a chunk: for chunk number c holding n items,
      sched(c, n) lists the positions 0 .. n - 1 in the order in which the
      concurrently running items finish. */
  type Scheduler = (nat, nat) -> seq<nat>

  ghost predicate ValidScheduler(sched: Scheduler) {
    forall c: nat, n: nat :: IsOrder(sched(c, n), n)
  }

  /** The scheduler that lets every chunk finish in input order. */
  function InOrder(): (sched: Scheduler)
    ensures ValidScheduler(sched)
  {
    (c: nat, n: nat) => Indices(n)
  }

  /** The items of chunk number c in the order in which they complete. */
  function CompletionOrder(chunk: seq<Runnable>, c: nat, sched: Scheduler): (r: seq<Runnable>)
    requires ValidScheduler(sched)
    ensures multiset(r) == multiset(chunk)
  {
    PermuteMultiset(chunk, sched(c, |chunk|));
    Permute(chunk, sched(c, |chunk|))
  }

  /** With the in-order scheduler every chunk completes in input order. */
  lemma InOrderCompletion(chunk: seq<Runnable>, c: nat)
    ensures CompletionOrder(chunk, c, InOrder()) == chunk
  {
    assert forall j :: 0 <= j < |chunk| ==> Indices(|chunk|)[j] == j;
  }

  /** Chunk after chunk, each in its completion order. */
  function ChunkedOrder(chunks: seq<seq<Runnable>>, sched: Scheduler): (r: seq<Runnable>)
    requires ValidScheduler(sched)
    decreases |chunks|
  {
    if chunks == [] then []
    else ChunkedOrder(chunks[..|chunks| - 1], sched) + CompletionOrder(chunks[|chunks| - 1], |chunks| - 1, sched)
  }

  /** Chunk after chunk, every item of every chunk runs exactly once. */
  lemma {:induction false} ChunkedOrderMultiset(chunks: seq<seq<Runnable>>, sched: Scheduler)
    requires ValidScheduler(sched)
    ensures multiset(ChunkedOrder(chunks, sched)) == multiset(Flatten(chunks))
    decreases |chunks|
  {
    if chunks != [] {
      ChunkedOrderMultiset(chunks[..|chunks| - 1], sched);
    }
  }

  /** `_run_chunk`: an empty chunk does nothing; otherwise every item of the
      chunk runs and its results are appended as the items complete. */
  function ChunkTrace(chunk: seq<Runnable>, c: nat, sched: Scheduler, args: seq<string>): (t: Trace)
    requires ValidScheduler(sched)
    ensures chunk == [] ==> t == NoTrace
  {
    if chunk == [] then NoTrace else SequenceTrace(CompletionOrder(chunk, c, sched), args)
  }

  /** A chunk that does not raise calls each of its items once, in
      completion order. */
  lemma ChunkTraceSpec(chunk: seq<Runnable>, c: nat, sched: Scheduler, args: seq<string>)
    requires ValidScheduler(sched)
    ensures var t := ChunkTrace(chunk, c, sched, args);
      Consistent(t, args) &&
      (t.raised.None? ==> t.called == CompletionOrder(chunk, c, sched))
  {
    SequenceTraceSpec(CompletionOrder(chunk, c, sched), args);
    if chunk == [] {
      assert CompletionOrder(chunk, c, sched) == [];
    }
  }

  lemma JoinConsistent(a: Trace, b: Trace, args: seq<string>)
    requires a.raised.None? && Consistent(a, args) && Consistent(b, args)
    ensures Consistent(Join(a, b), args)
  {
    var t := Join(a, b);
    forall j | 0 <= j < |t.results| ensures t.called[j].run(args) == Ok(t.results[j]) {
      if j >= |a.results| {
        assert t.called[j] == b.called[j - |a.called|];
        assert t.results[j] == b.results[j - |a.results|];
      }
    }
  }

  /** A run that goes on with a second stage after a first that did not raise. */
  function Join(a: Trace, b: Trace): Trace {
    Trace(a.called + b.called, a.results + b.results, b.raised)
  }

  /** Parallel over the chunks: chunk k + 1 starts only after every item of
      chunk k has completed; a raise ends the run. */
  function ParallelTrace(chunks: seq<seq<Runnable>>, sched: Scheduler, args: seq<string>): Trace
    requires ValidScheduler(sched)
    decreases |chunks|
  {
    if chunks == [] then NoTrace
    else
      var c := |chunks| - 1;
      var prev := ParallelTrace(chunks[..c], sched, args);
      if prev.raised.Some? then prev else Join(prev, ChunkTrace(chunks[c], c, sched, args))
  }

  /** Without a raise, Parallel calls the chunks one after another, each in
      its completion order, and records one result per call. */
  lemma {:induction false} ParallelTraceSpec(chunks: seq<seq<Runnable>>, sched: Scheduler, args: seq<string>)
    requires ValidScheduler(sched)
    ensures var t := ParallelTrace(chunks, sched, args);
      Consistent(t, args) &&
      (t.raised.None? ==> t.called == ChunkedOrder(chunks, sched))
    decreases |chunks|
  {
    if chunks != [] {
      var c := |chunks| - 1;
      ParallelTraceSpec(chunks[..c], sched, args);
      var prev := ParallelTrace(chunks[..c], sched, args);
      if prev.raised.None? {
        ChunkTraceSpec(chunks[c], c, sched, args);
        JoinConsistent(prev, ChunkTrace(chunks[c], c, sched, args), args);
      }
    }
  }

  lemma ParallelTraceNext(chunks: seq<seq<Runnable>>, sched: Scheduler, args: seq<string>, i: nat)
    requires ValidScheduler(sched)
    requires i < |chunks| && ParallelTrace(chunks[..i], sched, args).raised.None?
    ensures ParallelTrace(chunks[..i + 1], sched, args) ==
      Join(ParallelTrace(chunks[..i], sched, args), ChunkTrace(chunks[i], i, sched, args))
  {
    assert chunks[..i + 1][..i] == chunks[..i];
  }

  lemma {:induction false} ParallelTraceHalted(chunks: seq<seq<Runnable>>, sched: Scheduler, args: seq<string>, i: nat)
    requires ValidScheduler(sched)
    requires i <= |chunks| && ParallelTrace(chunks[..i], sched, args).raised.Some?
    ensures ParallelTrace(chunks, sched, args) == ParallelTrace(chunks[..i], sched, args)
    decreases |chunks| - i
  {
    if i < |chunks| {
      var last := |chunks| - 1;
      assert chunks[..last][..i] == chunks[..i];
      ParallelTraceHalted(chunks[..last], sched, args, i);
    } else {
      assert chunks[..i] == chunks;
    }
  }

  /** What one strategy run does over `items` with the accumulated `args`.
      For Parallel, the partitioner's error is raised before any item runs. */
  function RunSpec(s: Strategy, items: seq<Runnable>, args: seq<string>, sched: Scheduler): (t: Trace)
    requires ValidScheduler(sched)
    ensures s.Parallel? && s.processes < 1 ==> t == Trace([], [], Some(ValueError(CountPartsMessage)))
  {
    match s
    case Sequence => SequenceTrace(items, args)
    case Chain => ChainTrace(items, args)
    case Parallel(p) =>
      match Divide(p, items)
      case Raised(e) => Trace([], [], Some(e))
      case Ok(chunks) => ParallelTrace(chunks, sched, args)
  }

  /** Unless the partitioner refused the part count, every recorded result
      is what its call returned. */
  lemma RunSpecConsistent(s: Strategy, items: seq<Runnable>, args: seq<string>, sched: Scheduler)
    requires ValidScheduler(sched)
    ensures !(s.Parallel? && s.processes < 1) ==> Consistent(RunSpec(s, items, args, sched), args)
  {
    match s {
      case Sequence => SequenceTraceSpec(items, args);
      case Chain => ChainTraceConsistent(items, args);
      case Parallel(p) =>
        if p >= 1 { ParallelTraceSpec(Divide(p, items).value, sched, args); }
    }
  }

  /** Parallel runs every item exactly once when nothing raises. */
  lemma ParallelRunsEachItemOnce(p: int, items: seq<Runnable>, sched: Scheduler, args: seq<string>)
    requires p >= 1 && ValidScheduler(sched)
    ensures var t := RunSpec(Parallel(p), items, args, sched);
      t.raised.None? ==> multiset(t.called) == multiset(items) && |t.results| == |items|
  {
    var chunks := Divide(p, items).value;
    var t := RunSpec(Parallel(p), items, args, sched);
    if t.raised.None? {
      assert t == ParallelTrace(chunks, sched, args);
      ParallelTraceSpec(chunks, sched, args);
      ChunkedOrderMultiset(chunks, sched);
      DivideFlatten(p, items);
      var called := ChunkedOrder(chunks, sched);
      assert t.called == called;
      assert multiset(called) == multiset(items);
      assert |t.results| == |called|;
      assert |called| == |multiset(called)| == |multiset(items)| == |items|;
    }
  }

  lemma {:induction false} ParallelTraceEmptyChunks(chunks: seq<seq<Runnable>>, sched: Scheduler, args: seq<string>)
    requires ValidScheduler(sched)
    requires forall c :: 0 <= c < |chunks| ==> chunks[c] == []
    ensures ParallelTrace(chunks, sched, args) == NoTrace
    decreases |chunks|
  {
    if chunks != [] {
      ParallelTraceEmptyChunks(chunks[..|chunks| - 1], sched, args);
    }
  }

  /** With no items, no strategy calls anything: the predicate then sees
      only what was collected before. Parallel with a part count below one
      still raises. */
  lemma RunSpecNoItems(s: Strategy, args: seq<string>, sched: Scheduler)
    requires ValidScheduler(sched)
    ensures RunSpec(s, [], args, sched) ==
      if s.Parallel? && s.processes < 1 then Trace([], [], Some(ValueError(CountPartsMessage))) else NoTrace
  {
    if s.Parallel? && s.processes >= 1 {
      DivideNothing<Runnable>(s.processes);
      ParallelTraceEmptyChunks(Divide<Runnable>(s.processes, []).value, sched, args);
    }
  }

  // ---------------------------------------------------------------------
  // Properties shared by the three strategies

  lemma ChunkTraceCalls(chunk: seq<Runnable>, c: nat, sched: Scheduler, args: seq<string>)
    requires ValidScheduler(sched)
    ensures multiset(ChunkTrace(chunk, c, sched, args).called) <= multiset(chunk)
  {
    if chunk != [] {
      var order := CompletionOrder(chunk, c, sched);
      SequenceTraceSpec(order, args);
      PrefixMultiset(order, |SequenceTrace(order, args).called|);
    }
  }

  lemma {:induction false} ParallelTraceCalls(chunks: seq<seq<Runnable>>, sched: Scheduler, args: seq<string>)
    requires ValidScheduler(sched)
    ensures multiset(ParallelTrace(chunks, sched, args).called) <= multiset(Flatten(chunks))
    decreases |chunks|
  {
    if chunks != [] {
      var c := |chunks| - 1;
      ParallelTraceCalls(chunks[..c], sched, args);
      ChunkTraceCalls(chunks[c], c, sched, args);
    }
  }

  /** No strategy calls anything but its items, nor an item more often than
      it occurs among them. */
  lemma RunSpecCallsItems(s: Strategy, items: seq<Runnable>, args: seq<string>, sched: Scheduler)
    requires ValidScheduler(sched)
    ensures multiset(RunSpec(s, items, args, sched).called) <= multiset(items)
  {
    match s {
      case Sequence =>
        SequenceTraceSpec(items, args);
        PrefixMultiset(items, |SequenceTrace(items, args).called|);
      case Chain =>
        ChainTracePrefix(items, args);
        PrefixMultiset(items, |ChainTrace(items, args).called|);
      case Parallel(p) =>
        if p >= 1 {
          ParallelTraceCalls(Divide(p, items).value, sched, args);
          DivideFlatten(p, items);
        }
    }
  }

  /** When every item passes, no strategy (with a valid part count) raises:
      each item runs once and every recorded result passes, so the strategy
      accepts, except Sequence, which has nothing to accept when there are
      no items. */
  lemma RunSpecAllPass(s: Strategy, items: seq<Runnable>, args: seq<string>, sched: Scheduler)
    requires ValidScheduler(sched) && !(s.Parallel? && s.processes < 1)
    requires forall i :: 0 <= i < |items| ==> Passes(items[i], args)
    ensures var t := RunSpec(s, items, args, sched);
      t.raised.None? && |t.results| == |items| && multiset(t.called) == multiset(items) &&
      (forall j :: 0 <= j < |t.results| ==> t.results[j].isOk) &&
      IsRunOk(s, t.results) == (items != [] || !s.Sequence?)
  {
    var t := RunSpec(s, items, args, sched);
    RunSpecConsistent(s, items, args, sched);
    RunSpecCallsItems(s, items, args, sched);
    assert forall j :: 0 <= j < |t.called| ==> Passes(t.called[j], args) by {
      forall j | 0 <= j < |t.called| ensures Passes(t.called[j], args) {
        assert t.called[j] in multiset(items);
      }
    }
    match s {
      case Sequence => SequenceTraceSpec(items, args);
      case Chain =>
        ChainTracePrefix(items, args);
        ChainTraceEarly(items, args);
      case Parallel(p) => ParallelRunsEachItemOnce(p, items, sched, args);
    }
    assert forall j :: 0 <= j < |t.results| ==> t.results[j].isOk by {
      forall j | 0 <= j < |t.results| ensures t.results[j].isOk {
        assert t.called[j].run(args) == Ok(t.results[j]);
        assert Passes(t.called[j], args);
      }
    }
    if items != [] {
      assert t.results[0].isOk;
    }
  }
}
