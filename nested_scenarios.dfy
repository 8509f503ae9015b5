/** Nested directives run with completion orders of their own: a worked
    run in which the inner directive's chunk completes differently from
    the outer one's. */
module NestedScenarios {
  import opened Outcomes
  import opened Seqs
  import opened Runnables
  import opened RunStrategies
  import opened Nesting
  import opened Scenarios

  /** Completes a chunk of two in reverse order, any other in input order. */
  function SwapTwo(c: nat, n: nat): (order: seq<nat>)
    ensures IsOrder(order, n)
  {
    assert Indices(2) == [0, 1];
    if n == 2 then [1, 0] else Indices(n)
  }

  /** SwapTwo is a valid scheduler. */
  lemma SwapTwoValid()
    ensures ValidScheduler(SwapTwo)
  {
    forall c: nat, n: nat ensures IsOrder(SwapTwo(c, n), n) {
      assert |SwapTwo(c, n)| == n;
    }
  }

  /** The root completes in input order and every other node swaps. */
  function RootInOrder(path: Path): Scheduler {
    if path == [] then InOrder() else SwapTwo
  }

  lemma RootInOrderValid()
    ensures ValidSchedulers(RootInOrder)
  {
    forall path ensures ValidScheduler(RootInOrder(path)) {
      if path != [] {
        SwapTwoValid();
      }
    }
  }

  const RaiseA: Runnable := Runnable(args => Raised(ExecutionError("a")))
  const RaiseB: Runnable := Runnable(args => Raised(ExecutionError("b")))
  const RaiseZ: Runnable := Runnable(args => Raised(ExecutionError("z")))

  const Inner: Tree := Node(Parallel(1), [], [Leaf(RaiseA), Leaf(RaiseB)])
  const Outer: Tree := Node(Parallel(1), [], [Inner, Leaf(RaiseZ)])

  /** A chunk of two completes in reverse order under SwapTwo. */
  lemma SwapTwoChunk(a: Runnable, b: Runnable)
    ensures CompletionOrder([a, b], 0, SwapTwo) == [b, a]
  {
    SwapTwoValid();
    var order := SwapTwo(0, |[a, b]|);
    assert order == [1, 0];
    var o := Permute([a, b], order);
    assert CompletionOrder([a, b], 0, SwapTwo) == o;
    assert o[0] == b && o[1] == a;
  }

  /** A one-part Parallel node over two sub-trees whose first item to
      complete raises raises that error. */
  lemma OnePartFirstRaises(children: seq<Tree>, path: Path, extra: seq<string>, ss: Schedulers)
    requires ValidSchedulers(ss) && |children| == 2
    requires CompletionOrder(Children(children, path, ss), 0, ss(path))[0].run(extra).Raised?
    ensures RunTree(Node(Parallel(1), [], children), path, extra, ss) ==
      Raised(CompletionOrder(Children(children, path, ss), 0, ss(path))[0].run(extra).error)
  {
    var items := Children(children, path, ss);
    var o := CompletionOrder(items, 0, ss(path));
    assert [] + extra == extra;
    ParallelOnePart(items, ss(path), extra);
    assert o == [o[0], o[1]];
    FirstOfTwoRaises(o[0], o[1], extra);
  }

  /** The inner directive's second item finishes first and its error ends
      the inner run. */
  lemma InnerRaisesSecond()
    ensures ValidSchedulers(RootInOrder) && RunTree(Inner, [0], [], RootInOrder) == Raised(ExecutionError("b"))
  {
    RootInOrderValid();
    var ss := RootInOrder;
    var x := AsRunnable(Leaf(RaiseA), [0, 0], ss);
    var y := AsRunnable(Leaf(RaiseB), [0, 1], ss);
    var inner := Children([Leaf(RaiseA), Leaf(RaiseB)], [0], ss);
    assert inner == [x, y] by {
      assert [0] + [0] == [0, 0] && [0] + [1] == [0, 1];
    }
    assert ss([0]) == SwapTwo;
    SwapTwoChunk(x, y);
    OnePartFirstRaises([Leaf(RaiseA), Leaf(RaiseB)], [0], [], ss);
  }

  /** Nested directives complete their chunks independently: the inner
      directive's second item can finish first while the outer directive's
      chunk completes in input order, so the error of that second item is
      what the outer directive raises. */
  lemma NodesCompleteIndependently()
    ensures ValidSchedulers(RootInOrder) && RunTree(Outer, [], [], RootInOrder) == Raised(ExecutionError("b"))
  {
    InnerRaisesSecond();
    var ss := RootInOrder;
    var outer := Children([Inner, Leaf(RaiseZ)], [], ss);
    assert ss([]) == InOrder();
    InOrderCompletion(outer, 0);
    assert outer[0] == AsRunnable(Inner, [0], ss) by {
      assert [] + [0] == [0];
    }
    OnePartFirstRaises([Inner, Leaf(RaiseZ)], [], [], ss);
  }
}
