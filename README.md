# pytest-directives: the directive execution engine, in Dafny

pytest-directives groups test targets into *directives*. A directive owns a
list of runnable items (tests, or other directives), a run strategy and the
run arguments it has accumulated. Running it hands each item to the
strategy through a per-item callback. The callback runs the item with the
accumulated arguments and appends the item's result to the directive's result
list. The directive then returns a result that carries only the strategy's verdict
over that list. There are three strategies:

- **Sequence** runs every item in order and accepts when some result passed.
- **Chain** runs the items in order, stops after the first result that did
  not pass, and accepts only when every result passed.
- **Parallel** splits the items into `DIRECTIVE_PARALLEL_PROCESSES` chunks
  with the partitioner `divide`. It runs the chunks one after another and
  the items of a chunk concurrently. It accepts only when every result
  passed.

The project is organised as follows:

- `outcomes.dfy` (`Outcomes`) models raised exceptions as values.
- `seqs.dfy` (`Seqs`) holds sequence helpers: flattening, and permutation by
  a list of positions.
- `divide.dfy` (`Partitioner`) models `divide(count_parts, items)`.
- `runnables.dfy` (`Runnables`) models `RunResult`, runnables and target
  resolution (`to_runnable`, and the resolution of a directive's raw items).
- `run_strategies.dfy` (`RunStrategies`) holds the three strategies as pure
  specifications:
  - the acceptance predicates;
  - the traces `SequenceTrace`, `ChainTrace` and `ParallelTrace`, each giving
    the calls a run makes, the results it records and the error that ended
    it;
  - `RunSpec`, which selects the trace for a strategy.
- `directive.dfy` (`Directives`) holds the directive as a class. Its fields
  are `items`, `strategy`, `runArgs`, `results` and the ghost call log
  `calls`. `RunItem` is `_run_item`. The strategy loops are its methods,
  each proved against the trace of its strategy. `Run` is `run`.
- `nesting.dfy` (`Nesting`) models directives nested as items of
  directives.
- `scenarios.dfy` (`Scenarios`) works through small runs in full.
- `nested_scenarios.dfy` (`NestedScenarios`) works through a nested run in
  which the inner and outer directives complete their chunks in different
  orders.

Runnables are values: `Runnable(run: seq<string> -> Outcome<RunResult>)`, where
the outcome is the returned result or the raised error. The completion order
of concurrent items in a chunk is a parameter, `sched`. `sched(c, n)` lists
chunk c's positions 0 .. n - 1 in the order the items finish.
`ValidScheduler` demands that this list is a permutation. In a tree of nested
directives each node has its own scheduler, chosen by the node's path.

The partitioner's own source (`pytest_directives/core/utils/devide.py`) is
not part of this model. `Divide` agrees with every row of its test table,
and for the sizes the table leaves open it assumes the balanced rule:
contiguous chunks, chunk i holding n / k items plus one for the first n % k
chunks. The table is consistent with this rule but does not force it; a
splitter that fills chunks of ceil(n / k) items matches every tested row too.

Import paths mention both `core` and `_core` for the same modules. The
model treats them as one.

## Model

| member | source | states |
|---|---|---|
| `Runnables.Verdict` | pytest_directives/core/abc_directive.py:20-24 | `RunResult(is_ok)`: the verdict is kept and stdout and stderr default to empty |
| `Runnables.ToRunnable` | pytest_directives/core/abc_directive.py:11-14 | a runnable passes through unchanged with no resolver call; any other target is resolved by exactly one resolver call, whose result or error is returned |
| `Runnables.ToRunnableIdempotent` | pytest_directives/core/abc_directive.py:11-14 | resolving what a resolution returned gives it back, with no resolver call, whatever the resolver |
| `Runnables.TargetsOf` | pytest_directives/core/abc_directive.py:12-14 | the raw items that reach `_resolve_target`, in order; used by `ResolveAllOk` and `ResolveAllRaised` |
| `Runnables.ResolveAll` | pytest_directives/core/abc_directive.py:68-70 | `list(map(to_runnable, raw_items))`, item by item, stopping at the first error; its contract is stated by `ResolveAllOk`, `ResolveAllRaised` and `ResolveAllFails` |
| `Runnables.ResolveAllOk` | pytest_directives/core/abc_directive.py:68-70 | a successful resolution has one runnable per raw item, each the resolution of that item, and the resolver is called exactly on the targets, in order |
| `Runnables.ResolveAllRaised` | pytest_directives/core/abc_directive.py:68-70 | a failed resolution failed at some item i: earlier items resolved, the error is item i's, and the resolver saw only the targets up to item i |
| `Runnables.ResolveAllFails` | pytest_directives/core/abc_directive.py:68-70 | resolution fails if and only if some raw item's resolution fails |
| `Runnables.ResolveAllRunnables` | pytest_directives/core/abc_directive.py:68-70 | items that are already runnable resolve to themselves with no resolver call |
| `Runnables.FailedAtExtend` | pytest_directives/core/abc_directive.py:68-70 | a failure at item i of a prefix is a failure at item i of the whole list |
| `Partitioner.Divide` | tests/utils/test_devide.py:22-28 | a part count below one raises ValueError with the tested message; otherwise exactly `count_parts` chunks, chunk i holding n / k items plus one when i < n % k (the assumed balanced rule) |
| `Partitioner.Chunk` | tests/utils/test_devide.py:9-15 | under the assumed balanced rule, chunk i holds n / k items, plus one for the first n % k chunks; every tested row agrees |
| `Partitioner.DivideFlatten` | tests/utils/test_devide.py:9-19 | concatenating the chunks in order gives back the input |
| `Partitioner.FlattenChunks` | tests/utils/test_devide.py:9-19 | the first j chunks concatenated are the input up to where chunk j starts |
| `Partitioner.DivideBalanced` | tests/utils/test_devide.py:9-15 | under the assumed balanced rule, chunk sizes differ by at most one and never grow from left to right |
| `Partitioner.DivideMorePartsThanItems` | tests/utils/test_devide.py:12-15 | with at least as many parts as items, the leading chunks hold one item each and the rest are empty |
| `Partitioner.SingletonChunks` | tests/utils/test_devide.py:12 | chunks that start at their own index hold exactly their item |
| `Partitioner.DivideOnePart` | tests/utils/test_devide.py:11 | one part is the whole input |
| `Partitioner.DivideNothing` | tests/utils/test_devide.py:13 | no items gives `count_parts` empty chunks |
| `Partitioner.DivideEvenSplit` | tests/utils/test_devide.py:9 | the even_split row |
| `Partitioner.DivideWithRemainder` | tests/utils/test_devide.py:10 | the with_remainder row |
| `Partitioner.DivideSinglePart` | tests/utils/test_devide.py:11 | the single_part row |
| `Partitioner.DivideEachElementAsPart` | tests/utils/test_devide.py:12 | the each_element_as_part row |
| `Partitioner.DivideEmptyInput` | tests/utils/test_devide.py:13 | the empty_iterable row |
| `Partitioner.DivideGeneratorInput` | tests/utils/test_devide.py:14 | the generator_input row, with the generator's values as a sequence |
| `Partitioner.DivideMorePartsThanElements` | tests/utils/test_devide.py:15 | the more_parts_than_elements row |
| `Partitioner.DivideInvalidCountParts` | tests/utils/test_devide.py:22-28 | part counts 0 and -1 raise ValueError "'count_parts' must be at least 1" |
| `Partitioner.ChunkStart` | tests/utils/test_devide.py:9-15 | where chunk i starts under the assumed balanced rule; see `ChunkStartStep`, `ChunkStartMono` and `ChunkStartEnd` |
| `Partitioner.ChunkStartStep` | tests/utils/test_devide.py:9-15 | each chunk starts where the previous one ends: base items later, plus one for the first rem chunks |
| `Partitioner.ChunkStartMono` | tests/utils/test_devide.py:9-15 | chunk start positions never decrease |
| `Partitioner.ChunkStartEnd` | tests/utils/test_devide.py:9-15 | the chunk after the last starts at the end of the input |
| `RunStrategies.AnyOk` | pytest_directives/_core/run_strategies.py:24-25 | the result is true if and only if some result passed |
| `RunStrategies.AllOk` | pytest_directives/_core/run_strategies.py:45-46 | the result is true if and only if every result passed |
| `RunStrategies.IsRunOk` | pytest_directives/_core/run_strategies.py:24-83 | Sequence accepts if and only if some result passed; Chain and Parallel accept if and only if every result passed (reading `is_ok`) |
| `RunStrategies.IsRunOkEmpty` | pytest_directives/_core/run_strategies.py:45-46 | with nothing collected, Sequence rejects and Chain and Parallel accept |
| `RunStrategies.BoolAttribute` | pytest_directives/core/abc_directive.py:20-24 | of the two names the acceptance predicates read, `is_ok` reads the verdict, and `is_run_ok`, which `RunResult` lacks, raises AttributeError("is_run_ok") |
| `RunStrategies.AnyAttribute` | pytest_directives/_core/run_strategies.py:25 | the as-written `any(map(lambda r: r.<name>, ...))`, stopping at the first raise or true; its contract is stated by `AcceptAsWritten` and `AcceptReadingIsOk` |
| `RunStrategies.AllAttribute` | pytest_directives/_core/run_strategies.py:46 | the as-written `all(map(lambda r: r.<name>, ...))`, stopping at the first raise or false; its contract is stated by `AcceptAsWritten` and `AcceptReadingIsOk` |
| `RunStrategies.AcceptReading` | pytest_directives/_core/run_strategies.py:82-83 | a strategy's acceptance predicate reading a given attribute (`any` for Sequence, `all` otherwise); see `AcceptAsWritten` and `AcceptReadingIsOk` |
| `RunStrategies.AcceptAsWritten` | pytest_directives/_core/run_strategies.py:24-83 | as written: with no results the predicates return the empty any/all; with any result they raise AttributeError("is_run_ok") |
| `RunStrategies.AcceptAsWrittenCounterexample` | pytest_directives/_core/run_strategies.py:25 | one passing result makes the as-written Sequence predicate raise, where the intended one accepts |
| `RunStrategies.AcceptReadingIsOk` | pytest_directives/_core/run_strategies.py:82-83 | reading `is_ok` in place of `is_run_ok` gives exactly `IsRunOk` |
| `RunStrategies.Step` | pytest_directives/core/abc_directive.py:78-81 | one callback call: the item is called, and its result is appended, or what it raised ends the run |
| `RunStrategies.StepConsistent` | pytest_directives/core/abc_directive.py:78-81 | a step keeps every recorded result equal to what its call returned |
| `RunStrategies.Passes` | pytest_directives/_core/run_strategies.py:41-42 | an item passes when its run returns a result whose `is_ok` holds |
| `RunStrategies.SequenceTrace` | pytest_directives/_core/run_strategies.py:21-22 | the Sequence loop as a trace; its contract is stated by `SequenceTraceSpec`, `SequenceTraceNext` and `SequenceTraceHalted`, and `Directives.Directive.RunSequence` is proved against it |
| `RunStrategies.SequenceTraceSpec` | pytest_directives/_core/run_strategies.py:21-22 | Sequence calls an input-order prefix of the items, each call's result recorded; without a raise it has called every item once |
| `RunStrategies.SequenceTraceNext` | pytest_directives/_core/run_strategies.py:21-22 | one more loop round is one more step |
| `RunStrategies.SequenceTraceHalted` | pytest_directives/_core/run_strategies.py:21-22 | after a raise no later item is called |
| `RunStrategies.ChainTrace` | pytest_directives/_core/run_strategies.py:40-43 | the Chain loop with its `break` as a trace; its contract is stated by the `ChainTrace` lemmas and `ChainRunsUpToFirstFailure`, and `Directives.Directive.RunChain` is proved against it |
| `RunStrategies.ChainHalted` | pytest_directives/_core/run_strategies.py:42-43 | the loop has ended: the last call raised, or the last result recorded did not pass |
| `RunStrategies.ChainTraceConsistent` | pytest_directives/_core/run_strategies.py:40-43 | each result Chain records is what its call returned |
| `RunStrategies.ChainTracePrefix` | pytest_directives/_core/run_strategies.py:40-43 | Chain calls an input-order prefix of the items, all of them unless it stopped |
| `RunStrategies.ChainTraceStops` | pytest_directives/_core/run_strategies.py:41-43 | every call but the last passed; the chain has stopped exactly when its last call did not pass |
| `RunStrategies.ChainTraceEarly` | pytest_directives/_core/run_strategies.py:42-43 | a chain that did not call every item stopped right after a call that did not pass |
| `RunStrategies.ChainTraceNext` | pytest_directives/_core/run_strategies.py:40-43 | one more loop round is one more step |
| `RunStrategies.ChainTraceHalted` | pytest_directives/_core/run_strategies.py:42-43 | after the `break` no later item is called |
| `RunStrategies.FirstFailure` | pytest_directives/_core/run_strategies.py:42 | the position of the first item that does not pass: every earlier item passes |
| `RunStrategies.ChainRunsUpToFirstFailure` | pytest_directives/_core/run_strategies.py:40-43 | Chain calls exactly the items up to and including the first one that does not pass |
| `RunStrategies.InOrder` | pytest_directives/_core/run_strategies.py:77-80 | the scheduler that completes each chunk in input order is a valid scheduler |
| `RunStrategies.CompletionOrder` | pytest_directives/_core/run_strategies.py:79-80 | a chunk's completion order holds each of its items exactly as often as the chunk does |
| `RunStrategies.InOrderCompletion` | pytest_directives/_core/run_strategies.py:79-80 | with the in-order scheduler the completion order is the chunk itself |
| `RunStrategies.ChunkedOrder` | pytest_directives/_core/run_strategies.py:66-70 | the chunks one after another, each in its completion order; see `ChunkedOrderMultiset` and `ParallelTraceSpec` |
| `RunStrategies.ChunkedOrderMultiset` | pytest_directives/_core/run_strategies.py:66-70 | chunk after chunk, each item of the input appears exactly once in the call order |
| `RunStrategies.ChunkTrace` | pytest_directives/_core/run_strategies.py:77-78 | an empty chunk returns at once and calls nothing |
| `RunStrategies.ChunkTraceSpec` | pytest_directives/_core/run_strategies.py:77-80 | a chunk records the result of each call, and without a raise calls each of its items once, in completion order |
| `RunStrategies.ChunkTraceCalls` | pytest_directives/_core/run_strategies.py:79-80 | a chunk calls only its own items, none more often than it occurs |
| `RunStrategies.Join` | pytest_directives/_core/run_strategies.py:69-70 | one more chunk's calls and results after those of the chunks before it; see `JoinConsistent` and `ParallelTraceNext` |
| `RunStrategies.JoinConsistent` | pytest_directives/_core/run_strategies.py:69-70 | running a chunk after chunks that did not raise keeps every recorded result equal to what its call returned |
| `RunStrategies.ParallelTrace` | pytest_directives/_core/run_strategies.py:69-70 | the chunk loop as a trace; its contract is stated by `ParallelTraceSpec`, `ParallelTraceNext` and `ParallelTraceHalted`, and `Directives.Directive.RunChunks` is proved against it |
| `RunStrategies.ParallelTraceSpec` | pytest_directives/_core/run_strategies.py:65-70 | Parallel records each call's result; without a raise it calls the chunks one after another, each in its completion order |
| `RunStrategies.ParallelTraceNext` | pytest_directives/_core/run_strategies.py:69-70 | one more loop round runs one more chunk after the others |
| `RunStrategies.ParallelTraceHalted` | pytest_directives/_core/run_strategies.py:69-70 | after a raise no later chunk runs |
| `RunStrategies.ParallelTraceEmptyChunks` | pytest_directives/_core/run_strategies.py:77-78 | chunks that are all empty call nothing |
| `RunStrategies.ParallelTraceCalls` | pytest_directives/_core/run_strategies.py:65-70 | Parallel calls only items of its chunks, none more often than it occurs |
| `RunStrategies.RunSpec` | pytest_directives/_core/run_strategies.py:65-66 | Parallel with a part count below one raises the partitioner's ValueError before any item runs |
| `RunStrategies.RunSpecConsistent` | pytest_directives/core/abc_directive.py:78-81 | unless the partitioner refused, every recorded result is what its call returned |
| `RunStrategies.ParallelRunsEachItemOnce` | pytest_directives/_core/run_strategies.py:65-80 | without a raise Parallel calls every item exactly once (a permutation of the items) and records one result per item |
| `RunStrategies.RunSpecNoItems` | tests/core/test_abc_directive.py:111-123 | with no items no strategy calls anything; Parallel with a bad part count still raises |
| `RunStrategies.RunSpecCallsItems` | pytest_directives/_core/run_strategies.py:21-80 | no strategy calls anything but its items, nor an item more often than it occurs |
| `RunStrategies.RunSpecAllPass` | pytest_directives/_core/run_strategies.py:9-83 | when every item passes no strategy raises: each item runs exactly once (the calls are a permutation of the items), every result passes, and the strategy accepts, except an empty Sequence |
| `Directives.CallsWith` | pytest_directives/core/abc_directive.py:79 | the calls a trace makes, each with the directive's arguments; see `CallsWithAppend` |
| `Directives.CallsWithAppend` | pytest_directives/core/abc_directive.py:79 | the call log of two runs with the same arguments is the two logs in order |
| `Directives.JoinLogged` | pytest_directives/core/abc_directive.py:80 | logging one run and then another logs the joined run |
| `Directives.StepLogged` | pytest_directives/core/abc_directive.py:79-80 | logging a run and then one call logs the extended run |
| `Directives.Directive.constructor` | pytest_directives/core/abc_directive.py:56-71 | the directive keeps its items, strategy and initial arguments, and starts with no results |
| `Directives.Directive.RunItem` | pytest_directives/core/abc_directive.py:78-81 | the item runs with the accumulated arguments; its result is appended and returned; a raise propagates and appends nothing |
| `Directives.Directive.RunSequence` | pytest_directives/_core/run_strategies.py:16-22 | the loop appends exactly `SequenceTrace`'s results and calls and returns its error |
| `Directives.Directive.RunChain` | pytest_directives/_core/run_strategies.py:35-43 | the loop appends exactly `ChainTrace`'s results and calls and returns its error |
| `Directives.Directive.RunChunk` | pytest_directives/_core/run_strategies.py:72-80 | `_run_chunk` appends exactly `ChunkTrace`'s results and calls |
| `Directives.Directive.RunChunks` | pytest_directives/_core/run_strategies.py:69-70 | the chunk loop appends exactly `ParallelTrace`'s results and calls |
| `Directives.Directive.RunParallel` | pytest_directives/_core/run_strategies.py:60-70 | Parallel's run: the partitioner's error or the chunk loop's effects, as `RunSpec` states |
| `Directives.Directive.Run` | pytest_directives/core/abc_directive.py:73-76 | the arguments are extended, the results and calls of `RunSpec` are appended to the earlier ones, and the result is the raised error or a verdict over all collected results (with the corrected predicate, see ## Findings) |
| `Directives.NewDirective` | pytest_directives/core/abc_directive.py:56-71 | a resolution failure propagates and no directive is made; otherwise a fresh directive over the resolved items with no results |
| `Directives.RunTwice` | tests/core/test_abc_directive.py:89-107 | two runs in a row: the arguments accumulate, the first run's results are kept, and the second run's calls see every argument |
| `Nesting.RunTree` | pytest_directives/core/abc_directive.py:73-76 | a leaf is its runnable's run; the node at a path runs its directive with that node's own scheduler and returns a result with empty streams (with the corrected predicate, see ## Findings) |
| `Nesting.AsRunnable` | pytest_directives/core/abc_directive.py:52 | a directive used as an item runs as its tree does |
| `Nesting.Children` | pytest_directives/core/abc_directive.py:68-70 | a node's items are its sub-trees as runnables, in order, child i being the node at the node's path extended by i |
| `Nesting.RunAsDirective` | pytest_directives/core/abc_directive.py:56-81 | making a node's directive and running it once with that node's scheduler gives `RunTree`, and its results are those of `RunSpec` |
| `Nesting.HealthyTreePasses` | pytest_directives/_core/run_strategies.py:9-83 | a tree whose leaves always pass, and whose nodes contain no empty Sequence and no Parallel with a part count below one, passes with any arguments and any completion orders, chosen independently for each node (with the corrected predicate, see ## Findings) |
| `Nesting.EmptyNode` | tests/core/test_abc_directive.py:111-123 | an empty Sequence directive fails, an empty Chain or Parallel directive passes |
| `Scenarios.DefaultParallelAccepts` | pytest_directives/_core/run_strategies.py:50-70 | with the default chunk count of 4, Parallel over items that all pass calls each item exactly once, whatever the completion order, and accepts |
| `Scenarios.SequenceOfOne` | pytest_directives/_core/run_strategies.py:21-22 | Sequence over one item that returns a result calls it and records the result |
| `Scenarios.SequenceOfTwo` | pytest_directives/_core/run_strategies.py:21-22 | Sequence over two items that return results calls both in order and records both results |
| `Scenarios.SequenceOfThree` | pytest_directives/_core/run_strategies.py:21-22 | Sequence over three items that return results calls all three in order and records their results |
| `Scenarios.SecondOfThreeRaises` | pytest_directives/_core/run_strategies.py:21-22 | when the second of three items raises, Sequence has called the first two, recorded the first result and ends with that error |
| `Scenarios.FirstOfTwoRaises` | pytest_directives/_core/run_strategies.py:21-22 | when the first of two items raises, Sequence has called only it and ends with its error |
| `Scenarios.ParallelOnePart` | pytest_directives/_core/run_strategies.py:65-80 | Parallel with one part runs the whole input as its only chunk |
| `Scenarios.SequenceRunsEveryItem` | tests/_core/test_sequence.py:10-25 | Sequence over pass, fail, pass calls all three and accepts |
| `Scenarios.SequenceAllFail` | tests/_core/test_sequence.py:28-41 | Sequence over two failing items calls both and rejects |
| `Scenarios.ChainStopsAtFailure` | pytest_directives/_core/run_strategies.py:40-43 | Chain over pass, fail, pass calls the first two and rejects |
| `Scenarios.ThreeInTwo` | pytest_directives/_core/run_strategies.py:66 | three items in two parts split as two and one |
| `Scenarios.FirstChunk` | pytest_directives/_core/run_strategies.py:79-80 | a chunk of pass, fail in input order records both results |
| `Scenarios.SecondChunk` | pytest_directives/_core/run_strategies.py:79-80 | a chunk of one passing item records its result |
| `Scenarios.ParallelTwoParts` | pytest_directives/_core/run_strategies.py:65-83 | Parallel(2) over pass, fail, pass runs [pass, fail], then [pass], and rejects |
| `Scenarios.SequenceStopsAtRaise` | pytest_directives/_core/run_strategies.py:21-22 | an item whose run raises (the `await` at pytest_directives/core/abc_directive.py:79 propagates it) ends a Sequence run, and no later item is called |
| `NestedScenarios.SwapTwo` | pytest_directives/_core/run_strategies.py:79-80 | a completion order for a chunk of any size: a chunk of two finishes in reverse order |
| `NestedScenarios.SwapTwoValid` | pytest_directives/_core/run_strategies.py:79-80 | `SwapTwo` gives every chunk an order listing each of its items exactly once |
| `NestedScenarios.RootInOrderValid` | pytest_directives/_core/run_strategies.py:79-80 | the root completing in input order and every other node swapping is a valid choice of per-node orders |
| `NestedScenarios.SwapTwoChunk` | pytest_directives/_core/run_strategies.py:79-80 | under `SwapTwo` a chunk of two completes as its second item, then its first |
| `NestedScenarios.OnePartFirstRaises` | pytest_directives/_core/run_strategies.py:65-80 | a one-part Parallel directive over two sub-trees raises the error of the first of its items to complete, when that item raises |
| `NestedScenarios.InnerRaisesSecond` | pytest_directives/_core/run_strategies.py:79-80 | the inner directive, whose chunk completes second item first, raises that item's error |
| `NestedScenarios.NodesCompleteIndependently` | pytest_directives/core/abc_directive.py:52-76 | a directive nested in a one-part Parallel directive can complete its own chunk in a different order from its parent's, so its second item's error is what the parent raises |
| `Seqs.Flatten` | tests/utils/test_devide.py:17-19 | the parts joined in order; see `Partitioner.DivideFlatten` |
| `Seqs.PrefixMultiset` | pytest_directives/_core/run_strategies.py:21-22 | a prefix holds each element at most as often as the whole |
| `Seqs.Indices` | pytest_directives/_core/run_strategies.py:79 | the positions 0 .. n - 1 in order |
| `Seqs.OrderInBounds` | pytest_directives/_core/run_strategies.py:79-80 | every position of an order is in range |
| `Seqs.Pick` | pytest_directives/_core/run_strategies.py:79-80 | picking by a list of positions gives one element per position |
| `Seqs.PickAt` | pytest_directives/_core/run_strategies.py:79-80 | the j-th picked element is the element at the j-th position |
| `Seqs.PickConcat` | pytest_directives/_core/run_strategies.py:79-80 | picking by two position lists in a row is picking by each in turn |
| `Seqs.PickCons` | pytest_directives/_core/run_strategies.py:79-80 | picking starts with the element at the first position |
| `Seqs.PickSplit` | pytest_directives/_core/run_strategies.py:79-80 | picking splits around any position |
| `Seqs.RemoveAt` | pytest_directives/_core/run_strategies.py:79-80 | removing one element removes one occurrence from the multiset |
| `Seqs.DropMatched` | pytest_directives/_core/run_strategies.py:79-80 | dropping a matched element from two equal multisets leaves equal multisets |
| `Seqs.PickMultiset` | pytest_directives/_core/run_strategies.py:79-80 | two position lists with the same positions pick the same elements |
| `Seqs.PickMatched` | pytest_directives/_core/run_strategies.py:79-80 | the induction step of `PickMultiset` |
| `Seqs.Permute` | pytest_directives/_core/run_strategies.py:79-80 | position j of the rearranged chunk holds element order[j] |
| `Seqs.PermuteMultiset` | pytest_directives/_core/run_strategies.py:79-80 | a rearrangement never adds, drops or duplicates an element |

A note on the Parallel strategy's docstring: it says the result is ok "if at
least one item passes", but the code uses `all`
(pytest_directives/_core/run_strategies.py:57 against 82-83). The model
follows the code.

## Left out

- Concurrency inside a chunk (`asyncio.gather`) is not modelled as interleaving. The completion order is the parameter `sched`. When an item of a chunk raises, the model ends the chunk there. No later-completing item of that chunk is called and no result is appended after the raise. In the source, the chunk's other coroutines have already been started and may still append results.
- `DIRECTIVE_PARALLEL_PROCESSES` comes from the environment. It is modelled as the integer carried by `Parallel(processes)`, with default `DefaultParallelProcesses` = 4 (the strategy `DefaultParallel`). A value taken from the environment is a string, and the arithmetic `divide` would do on it is not modelled.
- `RunResult.__repr__` (pretty-printed streams) is output formatting and is not modelled.
- `Partitioner.Chunk`, `Partitioner.DivideBalanced` and `Partitioner.Divide`'s size clause state the assumed balanced rule, since `divide`'s own source is not part of this model. A different splitter that matches every tested row, such as one filling chunks of ceil(n / k) items (6 items in 4 parts: sizes 2, 2, 2, 0 where `Divide` gives 2, 2, 1, 1), would break those claims. Lemmas that rely only on `DivideFlatten` or `DivideNothing` would still hold.
- `RunStrategies.BoolAttribute` models attribute reads only for the two names the acceptance predicates read, `is_run_ok` as written and `is_ok` as corrected. Other attributes of a result record (its streams, `__repr__`, the dataclass methods) are not modelled.
- `divide` on an input that is not iterable raises TypeError (tests/utils/test_devide.py:31-37). Inputs are sequences here, so that case cannot arise.
- The generator versus list distinction in `divide` is dropped: the input is a sequence.
- `PytestRunnable.run`, `PytestResolver._get_path` and the Pytest*Directive constructors (pytest_directives/pytest_directives.py) are not modelled. They start pytest subprocesses and map file paths. A concrete resolver or runnable is any function of the right type.
- The identity of objects (`result is runnable`) is value equality here.
- `Nesting.RunTree` models a nested directive on its first run. A nested directive object keeps its accumulated arguments and results across repeated runs of its parent, and the tree model does not carry that state. The class `Directives.Directive` does carry it, for one directive.
- `Nesting.RunTree` fixes the completion orders of each node by its path in the tree (`Schedulers`). That covers every combination of orders across the nodes of one run. Within a parent's chunk, a sub-directive's whole run counts as one item that finishes at its place in the parent's completion order, so the model does not interleave the steps of sibling sub-directives.
- `Nesting.Healthy` asks for every leaf to pass on all arguments. The source has no such notion; it is the hypothesis of `Nesting.HealthyTreePasses`.
- `tasks.py` and the pytest fixtures (`conftest.py`) are build and test plumbing.

## Findings

| source | as written | input that shows it | evidently intended | confidence | as-written member | corrected member |
|---|---|---|---|---|---|---|
| pytest_directives/_core/run_strategies.py:25,46,83 | the three `is_run_ok` predicates read `item_result.is_run_ok`, an attribute `RunResult` does not have (pytest_directives/core/abc_directive.py:20-24) | `SequenceRunStrategy().is_run_ok([RunResult(is_ok=True)])` raises AttributeError; so does any directive run that collected a result | read `is_ok` | not executed | `RunStrategies.AcceptAsWritten` | `RunStrategies.IsRunOk` |
