/** `ABCDirective`: a directive owns its resolved items, the arguments it
    has accumulated so far and every result collected over its lifetime.
    Each strategy's run loop drives the per-item callback `RunItem`; the
    loops are methods of the directive because the callback they are
    handed is always the directive's own `_run_item`. */
module Directives {
  import opened Outcomes
  import opened Partitioner
  import opened Runnables
  import opened RunStrategies

  /** One invocation of a child runnable and the arguments it received. */
  datatype Call = Call(item: Runnable, args: seq<string>)

  /** The calls made on `items`, all with the same arguments. */
  function CallsWith(items: seq<Runnable>, args: seq<string>): seq<Call> {
    seq(|items|, j requires 0 <= j < |items| => Call(items[j], args))
  }

  lemma CallsWithAppend(a: seq<Runnable>, b: seq<Runnable>, args: seq<string>)
    ensures CallsWith(a + b, args) == CallsWith(a, args) + CallsWith(b, args)
  {
  }

  /** Logging a first stage and then a second logs the joined run. */
  lemma JoinLogged(results0: seq<RunResult>, calls0: seq<Call>, a: Trace, b: Trace, args: seq<string>)
    ensures results0 + a.results + b.results == results0 + Join(a, b).results
    ensures calls0 + CallsWith(a.called, args) + CallsWith(b.called, args) == calls0 + CallsWith(Join(a, b).called, args)
  {
    CallsWithAppend(a.called, b.called, args);
  }

  /** Logging a run and then one more call logs the extended run. */
  lemma StepLogged(results0: seq<RunResult>, calls0: seq<Call>, t: Trace, item: Runnable, args: seq<string>)
    requires t.raised.None?
    ensures var u := Step(t, item, args);
      results0 + u.results ==
        if item.run(args).Ok? then results0 + t.results + [item.run(args).value] else results0 + t.results
    ensures calls0 + CallsWith(Step(t, item, args).called, args) == calls0 + CallsWith(t.called, args) + [Call(item, args)]
  {
    CallsWithAppend(t.called, [item], args);
  }

  class Directive {
    const items: seq<Runnable>
    const strategy: Strategy
    var runArgs: seq<string>
    var results: seq<RunResult>
    /** Every call made on a child so far, including those that raised; in
        completion order within a Parallel chunk. */
    ghost var calls: seq<Call>

    /** `__init__` once its raw items are resolved (see NewDirective). */
    constructor (items: seq<Runnable>, strategy: Strategy, runArgs: seq<string>)
      ensures this.items == items && this.strategy == strategy
      ensures this.runArgs == runArgs && results == [] && calls == []
    {
      this.items := items;
      this.strategy := strategy;
      this.runArgs := runArgs;
      results := [];
      calls := [];
    }

    /** `_run_item`: run the child with the accumulated arguments, append its
        result and return it. When the child raises, the error propagates
        and nothing is appended. */
    method RunItem(item: Runnable) returns (r: Outcome<RunResult>)
      modifies this`results, this`calls
      ensures r == item.run(runArgs)
      ensures results == if r.Ok? then old(results) + [r.value] else old(results)
      ensures calls == old(calls) + [Call(item, runArgs)]
    {
      r := item.run(runArgs);
      calls := calls + [Call(item, runArgs)];
      if r.Ok? {
        results := results + [r.value];
      }
    }

    /** `SequenceRunStrategy.run`: `for item in items: await callback(item)`;
        an exception raised by an item propagates out of the loop. */
    method RunSequence(todo: seq<Runnable>) returns (raised: Option<Error>)
      modifies this`results, this`calls
      ensures var t := SequenceTrace(todo, runArgs);
        results == old(results) + t.results && calls == old(calls) + CallsWith(t.called, runArgs) &&
        raised == t.raised
    {
      ghost var t := NoTrace;
      raised := None;
      var i := 0;
      while i < |todo| && raised.None?
        invariant 0 <= i <= |todo|
        invariant t == SequenceTrace(todo[..i], runArgs) && raised == t.raised
        invariant results == old(results) + t.results
        invariant calls == old(calls) + CallsWith(t.called, runArgs)
      {
        SequenceTraceNext(todo, runArgs, i);
        var r := RunItem(todo[i]);
        StepLogged(old(results), old(calls), t, todo[i], runArgs);
        t := Step(t, todo[i], runArgs);
        if r.Raised? {
          raised := Some(r.error);
        }
        i := i + 1;
      }
      if raised.Some? {
        SequenceTraceHalted(todo, runArgs, i);
      } else {
        assert todo[..i] == todo;
      }
    }

    /** `ChainRunStrategy.run`: the same loop, left with `break` after the
        first result that did not pass. */
    method RunChain() returns (raised: Option<Error>)
      modifies this`results, this`calls
      ensures var t := ChainTrace(items, runArgs);
        results == old(results) + t.results && calls == old(calls) + CallsWith(t.called, runArgs) &&
        raised == t.raised
    {
      ghost var t := NoTrace;
      var stop := false;
      raised := None;
      var i := 0;
      while i < |items| && !stop
        invariant 0 <= i <= |items|
        invariant t == ChainTrace(items[..i], runArgs) && stop == ChainHalted(t) && raised == t.raised
        invariant results == old(results) + t.results
        invariant calls == old(calls) + CallsWith(t.called, runArgs)
      {
        ChainTraceNext(items, runArgs, i);
        var r := RunItem(items[i]);
        StepLogged(old(results), old(calls), t, items[i], runArgs);
        t := Step(t, items[i], runArgs);
        if r.Raised? {
          raised := Some(r.error);
          stop := true;
        } else if !r.value.isOk {
          stop := true;
        }
        i := i + 1;
      }
      if stop {
        ChainTraceHalted(items, runArgs, i);
      } else {
        assert items[..i] == items;
      }
    }

    /** `ParallelRunStrategy._run_chunk`: nothing for an empty chunk;
        otherwise the chunk's items run concurrently and their results are
        appended in the order in which they complete. */
    method RunChunk(chunk: seq<Runnable>, c: nat, sched: Scheduler) returns (raised: Option<Error>)
      requires ValidScheduler(sched)
      modifies this`results, this`calls
      ensures var t := ChunkTrace(chunk, c, sched, runArgs);
        results == old(results) + t.results && calls == old(calls) + CallsWith(t.called, runArgs) &&
        raised == t.raised
    {
      if chunk == [] {
        return None;
      }
      raised := RunSequence(CompletionOrder(chunk, c, sched));
    }

    /** The chunk loop of `ParallelRunStrategy.run`: the chunks run one
        after another. */
    method RunChunks(chunks: seq<seq<Runnable>>, sched: Scheduler) returns (raised: Option<Error>)
      requires ValidScheduler(sched)
      modifies this`results, this`calls
      ensures var t := ParallelTrace(chunks, sched, runArgs);
        results == old(results) + t.results && calls == old(calls) + CallsWith(t.called, runArgs) &&
        raised == t.raised
    {
      ghost var t := NoTrace;
      raised := None;
      var c := 0;
      while c < |chunks| && raised.None?
        invariant 0 <= c <= |chunks|
        invariant t == ParallelTrace(chunks[..c], sched, runArgs) && raised == t.raised
        invariant results == old(results) + t.results
        invariant calls == old(calls) + CallsWith(t.called, runArgs)
      {
        ParallelTraceNext(chunks, sched, runArgs, c);
        ghost var part := ChunkTrace(chunks[c], c, sched, runArgs);
        raised := RunChunk(chunks[c], c, sched);
        JoinLogged(old(results), old(calls), t, part, runArgs);
        t := Join(t, part);
        c := c + 1;
      }
      if raised.Some? {
        ParallelTraceHalted(chunks, sched, runArgs, c);
      } else {
        assert chunks[..c] == chunks;
      }
    }

    /** `ParallelRunStrategy.run`: split the items into `processes` chunks,
        then run the chunks; a part count below one raises before any item
        runs. */
    method RunParallel(processes: int, sched: Scheduler) returns (raised: Option<Error>)
      requires ValidScheduler(sched)
      modifies this`results, this`calls
      ensures var t := RunSpec(Parallel(processes), items, runArgs, sched);
        results == old(results) + t.results && calls == old(calls) + CallsWith(t.called, runArgs) &&
        raised == t.raised
    {
      var divided := Divide(processes, items);
      if divided.Raised? {
        return Some(divided.error);
      }
      raised := RunChunks(divided.value, sched);
    }

    /** `run(*run_args)`: append the extra arguments to the accumulated ones,
        let the strategy run the items, and return a result that carries
        only the strategy's verdict over every result collected so far. */
    method Run(extra: seq<string>, sched: Scheduler) returns (r: Outcome<RunResult>)
      requires ValidScheduler(sched)
      modifies this`runArgs, this`results, this`calls
      ensures runArgs == old(runArgs) + extra
      ensures var t := RunSpec(strategy, items, runArgs, sched);
        results == old(results) + t.results &&
        calls == old(calls) + CallsWith(t.called, runArgs) &&
        r == if t.raised.Some? then Raised(t.raised.value) else Ok(Verdict(IsRunOk(strategy, results)))
    {
      runArgs := runArgs + extra;
      var raised: Option<Error>;
      match strategy {
        case Sequence => raised := RunSequence(items);
        case Chain => raised := RunChain();
        case Parallel(p) => raised := RunParallel(p, sched);
      }
      if raised.Some? {
        return Raised(raised.value);
      }
      return Ok(Verdict(IsRunOk(strategy, results)));
    }
  }

  /** `ABCDirective(*raw_items, ...)`: resolve every raw item, in order; a
      lookup failure propagates and no directive is made. */
  method NewDirective<T>(raws: seq<RawItem<T>>, strategy: Strategy, resolve: Resolver<T>, runArgs: seq<string>)
    returns (r: Outcome<Directive>)
    ensures var res := ResolveAll(resolve, raws).result;
      (res.Raised? ==> r == Raised(res.error)) &&
      (res.Ok? ==>
        r.Ok? && fresh(r.value) && r.value.items == res.value &&
        r.value.strategy == strategy && r.value.runArgs == runArgs &&
        r.value.results == [] && r.value.calls == [])
  {
    var res := ResolveAll(resolve, raws).result;
    if res.Raised? {
      return Raised(res.error);
    }
    var d := new Directive(res.value, strategy, runArgs);
    return Ok(d);
  }

  /** Two runs in a row: the arguments of both accumulate, the results of
      the first run are kept, and the second run's items see every argument
      given so far. */
  method RunTwice(d: Directive, first: seq<string>, second: seq<string>, sched: Scheduler)
    returns (r1: Outcome<RunResult>, r2: Outcome<RunResult>)
    requires ValidScheduler(sched)
    modifies d
    ensures d.runArgs == old(d.runArgs) + first + second
    ensures var t1 := RunSpec(d.strategy, d.items, old(d.runArgs) + first, sched);
      var t2 := RunSpec(d.strategy, d.items, old(d.runArgs) + first + second, sched);
      d.results == old(d.results) + t1.results + t2.results &&
      d.calls == old(d.calls) + CallsWith(t1.called, old(d.runArgs) + first) +
        CallsWith(t2.called, old(d.runArgs) + first + second)
  {
    r1 := d.Run(first, sched);
    r2 := d.Run(second, sched);
  }
}
