/** Directives nest: `ABCDirective` is itself a runnable, so a directive can
    be an item of another one. A tree of freshly made directives is run
    as a value here; `RunAsDirective` shows that the class does the same. */
module Nesting {
  import opened Outcomes
  import opened Runnables
  import opened RunStrategies
  import opened Directives

  /** A leaf is a runnable that is not a directive; a node is a directive
      made with a strategy, some initial arguments and its sub-trees. */
  datatype Tree = Leaf(runnable: Runnable) | Node(strategy: Strategy, runArgs: seq<string>, children: seq<Tree>)

  /** A node is named by its path from the root: the positions of the
      children taken on the way down; the root's path is []. */
  type Path = seq<nat>

  /** Each node's directive has its own completion orders: `ss(path)` is the
      scheduler of the node at `path`. */
  type Schedulers = Path -> Scheduler

  ghost predicate ValidSchedulers(ss: Schedulers) {
    forall path :: ValidScheduler(ss(path))
  }

  /** The first run of the directive of the node at `path` with `extra`
      arguments. */
  function RunTree(t: Tree, path: Path, extra: seq<string>, ss: Schedulers): (r: Outcome<RunResult>)
    requires ValidSchedulers(ss)
    ensures t.Leaf? ==> r == t.runnable.run(extra)
    ensures t.Node? && r.Ok? ==> r.value.stdout == [] && r.value.stderr == []
    decreases t, 0
  {
    match t
    case Leaf(runnable) => runnable.run(extra)
    case Node(s, args, children) =>
      var trace := RunSpec(s, Children(children, path, ss), args + extra, ss(path));
      if trace.raised.Some? then Raised(trace.raised.value) else Ok(Verdict(IsRunOk(s, trace.results)))
  }

  /** A tree used as an item of its parent directive. */
  function AsRunnable(t: Tree, path: Path, ss: Schedulers): (r: Runnable)
    requires ValidSchedulers(ss)
    ensures forall args :: r.run(args) == RunTree(t, path, args, ss)
    decreases t, 1
  {
    Runnable(args => RunTree(t, path, args, ss))
  }

  /** The items of the node at `path`: child i is the node at `path + [i]`. */
  function Children(ts: seq<Tree>, path: Path, ss: Schedulers): (rs: seq<Runnable>)
    requires ValidSchedulers(ss)
    ensures |rs| == |ts| && forall i :: 0 <= i < |ts| ==> rs[i] == AsRunnable(ts[i], path + [i], ss)
    decreases ts, 2
  {
    seq(|ts|, i requires 0 <= i < |ts| => AsRunnable(ts[i], path + [i], ss))
  }

  /** Making the node's directive and running it once gives `RunTree`; the
      directive then holds the results its strategy collected. */
  method RunAsDirective(s: Strategy, args: seq<string>, children: seq<Tree>, path: Path, extra: seq<string>, ss: Schedulers)
    returns (r: Outcome<RunResult>, d: Directive)
    requires ValidSchedulers(ss)
    ensures fresh(d) && r == RunTree(Node(s, args, children), path, extra, ss)
    ensures d.items == Children(children, path, ss) && d.runArgs == args + extra
    ensures d.results == RunSpec(s, d.items, d.runArgs, ss(path)).results
  {
    d := new Directive(Children(children, path, ss), s, args);
    r := d.Run(extra, ss(path));
    assert [] + RunSpec(s, d.items, d.runArgs, ss(path)).results == RunSpec(s, d.items, d.runArgs, ss(path)).results;
  }

  /** Every leaf always passes, no Sequence node is empty and no Parallel
      node has a part count below one. */
  ghost predicate Healthy(t: Tree)
    decreases t
  {
    match t
    case Leaf(runnable) => forall args :: Passes(runnable, args)
    case Node(s, _, children) =>
      (s.Sequence? ==> children != []) && !(s.Parallel? && s.processes < 1) &&
      forall i :: 0 <= i < |children| ==> Healthy(children[i])
  }

  /** A healthy tree passes, whatever the arguments and whatever the
      completion orders of each of its nodes. */
  lemma {:induction false} HealthyTreePasses(t: Tree, path: Path, extra: seq<string>, ss: Schedulers)
    requires ValidSchedulers(ss) && Healthy(t)
    ensures RunTree(t, path, extra, ss).Ok? && RunTree(t, path, extra, ss).value.isOk
    decreases t
  {
    match t
    case Leaf(runnable) =>
      assert Passes(runnable, extra);
    case Node(s, args, children) =>
      var items := Children(children, path, ss);
      forall i | 0 <= i < |items| ensures Passes(items[i], args + extra) {
        HealthyTreePasses(children[i], path + [i], args + extra, ss);
      }
      RunSpecAllPass(s, items, args + extra, ss(path));
  }

  /** An empty Sequence directive fails and an empty Chain or Parallel
      directive (with a valid part count) passes: the Sequence predicate
      needs some passing result, the others only the absence of a failing
      one. */
  lemma EmptyNode(s: Strategy, args: seq<string>, path: Path, extra: seq<string>, ss: Schedulers)
    requires ValidSchedulers(ss) && !(s.Parallel? && s.processes < 1)
    ensures RunTree(Node(s, args, []), path, extra, ss) == Ok(Verdict(!s.Sequence?))
  {
    RunSpecNoItems(s, args + extra, ss(path));
    IsRunOkEmpty(s);
  }
}
