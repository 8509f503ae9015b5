/** The result record, the runnable capability and target resolution
    (`RunResult`, `ABCRunnable`, `ABCTargetResolver.to_runnable` and the
    resolution of a directive's raw items at construction). */
module Runnables {
  import opened Outcomes

  /** The outcome of one execution of one runnable. */
  datatype RunResult = RunResult(isOk: bool, stdout: seq<string>, stderr: seq<string>)

  /** `RunResult(is_ok)`: the streams default to empty lists. */
  function Verdict(isOk: bool): (r: RunResult)
    ensures r.isOk == isOk && r.stdout == [] && r.stderr == []
  {
    RunResult(isOk, [], [])
  }

  /** Anything that can be run with extra arguments: it either returns a
      result or raises. Its behaviour is given as a function of the
      arguments it is called with. */
  datatype Runnable = Runnable(run: seq<string> -> Outcome<RunResult>)

  /** A raw directive item: a value that is already runnable, or a target
      that the resolver must turn into one. */
  datatype RawItem<T> = AlreadyRunnable(runnable: Runnable) | RawTarget(target: T)

  /** The resolver's own `_resolve_target`: it may fail with a lookup error. */
  type Resolver<!T> = T -> Outcome<Runnable>

  /** What a resolution returns, and the targets handed to `_resolve_target`
      on the way, in call order. */
  datatype Resolution<T, R> = Resolution(result: Outcome<R>, resolverCalls: seq<T>)

  /** `to_runnable`: a runnable passes through unchanged without a resolver
      call; anything else is resolved by exactly one call. */
  function ToRunnable<T>(resolve: Resolver<T>, raw: RawItem<T>): (r: Resolution<T, Runnable>)
    ensures raw.AlreadyRunnable? ==> r.result == Ok(raw.runnable) && r.resolverCalls == []
    ensures raw.RawTarget? ==> r.result == resolve(raw.target) && r.resolverCalls == [raw.target]
  {
    match raw
    case AlreadyRunnable(x) => Resolution(Ok(x), [])
    case RawTarget(t) => Resolution(resolve(t), [t])
  }

  /** Resolving what a resolution returned changes nothing, whatever the resolver. */
  lemma ToRunnableIdempotent<T>(resolve: Resolver<T>, other: Resolver<T>, raw: RawItem<T>)
    requires ToRunnable(resolve, raw).result.Ok?
    ensures var x := ToRunnable(resolve, raw).result.value;
      ToRunnable(other, AlreadyRunnable(x)) == Resolution(Ok(x), [])
  {
  }

  /** The targets among `raws`, in order. */
  function TargetsOf<T>(raws: seq<RawItem<T>>): seq<T>
    decreases |raws|
  {
    if raws == [] then []
    else TargetsOf(raws[..|raws| - 1]) + (if raws[|raws| - 1].RawTarget? then [raws[|raws| - 1].target] else [])
  }

  /** `list(map(to_runnable, raw_items))`: the raw items resolved one by one,
      in order; the first lookup failure propagates and ends the resolution. */
  function ResolveAll<T>(resolve: Resolver<T>, raws: seq<RawItem<T>>): Resolution<T, seq<Runnable>>
    decreases |raws|
  {
    if raws == [] then Resolution(Ok([]), [])
    else
      var prev := ResolveAll(resolve, raws[..|raws| - 1]);
      if prev.result.Raised? then prev
      else
        var step := ToRunnable(resolve, raws[|raws| - 1]);
        match step.result
        case Raised(e) => Resolution(Raised(e), prev.resolverCalls + step.resolverCalls)
        case Ok(x) => Resolution(Ok(prev.result.value + [x]), prev.resolverCalls + step.resolverCalls)
  }

  /** A successful resolution resolves every raw item, in order, and calls
      the resolver once per target. */
  lemma {:induction false} ResolveAllOk<T>(resolve: Resolver<T>, raws: seq<RawItem<T>>)
    ensures var r := ResolveAll(resolve, raws);
      r.result.Ok? ==>
        |r.result.value| == |raws| &&
        (forall i :: 0 <= i < |raws| ==> ToRunnable(resolve, raws[i]).result == Ok(r.result.value[i])) &&
        r.resolverCalls == TargetsOf(raws)
    decreases |raws|
  {
    if raws != [] {
      var last := |raws| - 1;
      ResolveAllOk(resolve, raws[..last]);
      assert forall i :: 0 <= i < last ==> raws[..last][i] == raws[i];
    }
  }

  /** Resolution `r` failed at raw item i: every earlier item resolved, the
      resolver was called on the targets up to item i and on no later one,
      and the error is the one that resolving item i raised. */
  ghost predicate FailedAt<T>(resolve: Resolver<T>, raws: seq<RawItem<T>>, i: nat, r: Resolution<T, seq<Runnable>>) {
    r.result.Raised? && i < |raws| &&
    ToRunnable(resolve, raws[i]).result == Raised(r.result.error) &&
    (forall j :: 0 <= j < i ==> ToRunnable(resolve, raws[j]).result.Ok?) &&
    r.resolverCalls == TargetsOf(raws[..i + 1])
  }

  lemma FailedAtExtend<T>(resolve: Resolver<T>, raws: seq<RawItem<T>>, n: nat, i: nat, r: Resolution<T, seq<Runnable>>)
    requires n <= |raws| && FailedAt(resolve, raws[..n], i, r)
    ensures FailedAt(resolve, raws, i, r)
  {
    assert raws[..n][..i + 1] == raws[..i + 1];
    assert forall j :: 0 <= j <= i ==> raws[..n][j] == raws[j];
  }

  /** A failed resolution failed at some raw item. */
  lemma {:induction false} ResolveAllRaised<T>(resolve: Resolver<T>, raws: seq<RawItem<T>>)
    ensures var r := ResolveAll(resolve, raws);
      r.result.Raised? ==> exists i :: FailedAt(resolve, raws, i, r)
    decreases |raws|
  {
    var r := ResolveAll(resolve, raws);
    if raws != [] {
      var last := |raws| - 1;
      var prev := ResolveAll(resolve, raws[..last]);
      if prev.result.Raised? {
        ResolveAllRaised(resolve, raws[..last]);
        var i :| FailedAt(resolve, raws[..last], i, prev);
        FailedAtExtend(resolve, raws, last, i, r);
      } else if r.result.Raised? {
        ResolveAllOk(resolve, raws[..last]);
        assert raws[..last + 1] == raws;
        assert forall j :: 0 <= j < last ==> raws[..last][j] == raws[j];
        assert FailedAt(resolve, raws, last, r);
      }
    }
  }

  /** Resolution fails exactly when some raw item's resolution fails. */
  lemma ResolveAllFails<T>(resolve: Resolver<T>, raws: seq<RawItem<T>>)
    ensures ResolveAll(resolve, raws).result.Raised? <==>
      exists i :: 0 <= i < |raws| && ToRunnable(resolve, raws[i]).result.Raised?
  {
    ResolveAllOk(resolve, raws);
    ResolveAllRaised(resolve, raws);
    var r := ResolveAll(resolve, raws);
    if r.result.Ok? {
      forall i | 0 <= i < |raws| ensures ToRunnable(resolve, raws[i]).result.Ok? {
      }
    }
  }

  /** Items that are all runnable already resolve to themselves, with no resolver call. */
  lemma {:induction false} ResolveAllRunnables<T>(resolve: Resolver<T>, items: seq<Runnable>)
    ensures ResolveAll(resolve, seq(|items|, i requires 0 <= i < |items| => AlreadyRunnable(items[i])))
         == Resolution(Ok(items), [])
    decreases |items|
  {
    var raws: seq<RawItem<T>> := seq(|items|, i requires 0 <= i < |items| => AlreadyRunnable(items[i]));
    if items != [] {
      var last := |items| - 1;
      ResolveAllRunnables(resolve, items[..last]);
      assert raws[..last] == seq(last, i requires 0 <= i < last => AlreadyRunnable(items[..last][i]));
      assert items[..last] + [items[last]] == items;
    }
  }
}
