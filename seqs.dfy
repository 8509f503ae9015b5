/** Sequence helpers: concatenation of a sequence of sequences, and
    completion orders (rearrangements of the positions of a sequence). */
module Seqs {

  /** The sequences of `ss` joined in order. */
  function Flatten<T>(ss: seq<seq<T>>): seq<T>
    decreases |ss|
  {
    if ss == [] then [] else Flatten(ss[..|ss| - 1]) + ss[|ss| - 1]
  }

  /** A prefix holds each element at most as often as the whole. */
  lemma PrefixMultiset<T>(xs: seq<T>, k: nat)
    requires k <= |xs|
    ensures multiset(xs[..k]) <= multiset(xs)
  {
    assert xs == xs[..k] + xs[k..];
  }

  /** The positions 0, 1, ..., n - 1 in increasing order. */
  function Indices(n: nat): (r: seq<nat>)
    ensures |r| == n && forall i :: 0 <= i < n ==> r[i] == i
  {
    seq(n, i => i)
  }

  /** `order` lists every position below `n` exactly once. */
  ghost predicate IsOrder(order: seq<nat>, n: nat) {
    |order| == n && multiset(order) == multiset(Indices(n))
  }

  lemma OrderInBounds(order: seq<nat>, n: nat, j: nat)
    requires IsOrder(order, n) && j < |order|
    ensures order[j] < n
  {
    assert order[j] in multiset(order);
    assert order[j] in multiset(Indices(n));
  }

  /** Every position in `idx` is below `n`. */
  ghost predicate InBounds(idx: seq<nat>, n: nat) {
    forall j :: 0 <= j < |idx| ==> idx[j] < n
  }

  /** The elements of `xs` at the positions `idx`, in the order of `idx`. */
  function Pick<T>(xs: seq<T>, idx: seq<nat>): (r: seq<T>)
    requires InBounds(idx, |xs|)
    ensures |r| == |idx|
    decreases |idx|
  {
    if idx == [] then [] else [xs[idx[0]]] + Pick(xs, idx[1..])
  }

  lemma {:induction false} PickAt<T>(xs: seq<T>, idx: seq<nat>, j: nat)
    requires InBounds(idx, |xs|) && j < |idx|
    ensures Pick(xs, idx)[j] == xs[idx[j]]
    decreases |idx|
  {
    if j > 0 {
      PickAt(xs, idx[1..], j - 1);
    }
  }

  lemma {:induction false} PickConcat<T>(xs: seq<T>, u: seq<nat>, v: seq<nat>)
    requires InBounds(u, |xs|) && InBounds(v, |xs|)
    ensures InBounds(u + v, |xs|)
    ensures Pick(xs, u + v) == Pick(xs, u) + Pick(xs, v)
    decreases |u|
  {
    if u != [] {
      assert (u + v)[1..] == u[1..] + v;
      PickConcat(xs, u[1..], v);
    } else {
      assert u + v == v;
    }
  }

  lemma PickCons<T>(xs: seq<T>, b: seq<nat>)
    requires InBounds(b, |xs|) && b != []
    ensures InBounds(b[1..], |xs|) && Pick(xs, b) == [xs[b[0]]] + Pick(xs, b[1..])
  {
  }

  lemma PickSplit<T>(xs: seq<T>, b: seq<nat>, p: nat)
    requires InBounds(b, |xs|) && p < |b|
    ensures InBounds(b[..p], |xs|) && InBounds(b[p + 1..], |xs|)
    ensures Pick(xs, b) == Pick(xs, b[..p]) + ([xs[b[p]]] + Pick(xs, b[p + 1..]))
  {
    var b1, b2 := b[..p], b[p..];
    assert b1 + b2 == b;
    assert InBounds(b1, |xs|) && InBounds(b2, |xs|);
    PickConcat(xs, b1, b2);
    PickCons(xs, b2);
    assert b2[1..] == b[p + 1..];
  }

  lemma RemoveAt<T>(b: seq<T>, p: nat)
    requires p < |b|
    ensures multiset(b[..p] + b[p + 1..]) == multiset(b) - multiset{b[p]}
  {
    assert b == b[..p] + [b[p]] + b[p + 1..];
  }

  lemma DropMatched<T>(a: seq<T>, b: seq<T>, p: nat)
    requires a != [] && p < |b| && b[p] == a[0]
    requires multiset(a) == multiset(b)
    ensures multiset(a[1..]) == multiset(b[..p] + b[p + 1..])
  {
    RemoveAt(b, p);
    RemoveAt(a, 0);
    assert a[..0] + a[1..] == a[1..];
  }

  /** Picking by two position lists with the same positions picks the same elements. */
  lemma {:induction false} PickMultiset<T>(xs: seq<T>, a: seq<nat>, b: seq<nat>)
    requires InBounds(a, |xs|) && InBounds(b, |xs|)
    requires multiset(a) == multiset(b)
    ensures multiset(Pick(xs, a)) == multiset(Pick(xs, b))
    decreases |a|
  {
    if a == [] {
      assert |multiset(b)| == |b|;
    } else {
      assert a[0] in multiset(b);
      var p :| 0 <= p < |b| && b[p] == a[0];
      PickSplit(xs, b, p);
      PickConcat(xs, b[..p], b[p + 1..]);
      DropMatched(a, b, p);
      PickMultiset(xs, a[1..], b[..p] + b[p + 1..]);
      PickMatched(xs, a, b, p);
    }
  }

  /** The step of PickMultiset: the first position of `a` is matched at
      position p of `b`, and the rest pick the same elements. */
  lemma PickMatched<T>(xs: seq<T>, a: seq<nat>, b: seq<nat>, p: nat)
    requires InBounds(a, |xs|) && InBounds(b, |xs|) && a != [] && p < |b| && b[p] == a[0]
    requires InBounds(b[..p] + b[p + 1..], |xs|) && InBounds(a[1..], |xs|)
    requires multiset(Pick(xs, a[1..])) == multiset(Pick(xs, b[..p] + b[p + 1..]))
    ensures multiset(Pick(xs, a)) == multiset(Pick(xs, b))
  {
    PickCons(xs, a);
    PickSplit(xs, b, p);
    PickConcat(xs, b[..p], b[p + 1..]);
    var x, rest := [xs[a[0]]], Pick(xs, a[1..]);
    var p1, p2 := Pick(xs, b[..p]), Pick(xs, b[p + 1..]);
    assert multiset(rest) == multiset(p1) + multiset(p2) by {
      assert multiset(p1 + p2) == multiset(p1) + multiset(p2);
    }
    assert multiset(Pick(xs, a)) == multiset(x) + multiset(rest) by {
      assert multiset(x + rest) == multiset(x) + multiset(rest);
    }
    assert multiset(Pick(xs, b)) == multiset(p1) + (multiset(x) + multiset(p2)) by {
      assert multiset(p1 + (x + p2)) == multiset(p1) + multiset(x + p2);
    }
  }

  /** `xs` rearranged into the order `order`: position j holds xs[order[j]]. */
  function Permute<T>(xs: seq<T>, order: seq<nat>): (r: seq<T>)
    requires IsOrder(order, |xs|)
    ensures |r| == |xs| && forall j :: 0 <= j < |xs| ==> order[j] < |xs| && r[j] == xs[order[j]]
  {
    forall j | 0 <= j < |order| ensures order[j] < |xs| {
      OrderInBounds(order, |xs|, j);
    }
    seq(|order|, j requires 0 <= j < |order| => xs[order[j]])
  }

  /** Rearranging never adds, drops or duplicates an element. */
  lemma PermuteMultiset<T>(xs: seq<T>, order: seq<nat>)
    requires IsOrder(order, |xs|)
    ensures multiset(Permute(xs, order)) == multiset(xs)
  {
    var r := Permute(xs, order);
    var id := Indices(|xs|);
    assert InBounds(order, |xs|) && InBounds(id, |xs|);
    PickMultiset(xs, order, id);
    forall j | 0 <= j < |xs| ensures Pick(xs, order)[j] == r[j] && Pick(xs, id)[j] == xs[j] {
      PickAt(xs, order, j);
      PickAt(xs, id, j);
    }
    assert Pick(xs, order) == r;
    assert Pick(xs, id) == xs;
  }
}
