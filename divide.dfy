/** The partitioner `divide(count_parts, items)` used by the parallel run
    strategy: `count_parts` contiguous chunks, in order, whose sizes differ by
    at most one, the larger chunks first. */
module Partitioner {
  import opened Outcomes
  import opened Seqs

  const CountPartsMessage: string := "'count_parts' must be at least 1"

  /** Where chunk i starts when the first `rem` chunks hold base + 1 items
      and the others hold base items. */
  function ChunkStart(base: nat, rem: nat, i: nat): nat {
    i * base + (if i < rem then i else rem)
  }

  lemma ChunkStartStep(base: nat, rem: nat, i: nat)
    ensures ChunkStart(base, rem, i + 1) == ChunkStart(base, rem, i) + base + (if i < rem then 1 else 0)
  {
    assert (i + 1) * base == i * base + base;
  }

  lemma {:induction false} ChunkStartMono(base: nat, rem: nat, i: nat, j: nat)
    requires i <= j
    ensures ChunkStart(base, rem, i) <= ChunkStart(base, rem, j)
    decreases j - i
  {
    if i < j {
      ChunkStartStep(base, rem, i);
      ChunkStartMono(base, rem, i + 1, j);
    }
  }

  lemma ChunkStartEnd(n: nat, k: nat)
    requires k >= 1
    ensures ChunkStart(n / k, n % k, k) == n
  {
    assert k * (n / k) + n % k == n;
  }

  /** Chunk i of `items` split into k parts. */
  function Chunk<T>(items: seq<T>, k: nat, i: nat): (c: seq<T>)
    requires 1 <= k && i < k
    ensures |c| == |items| / k + (if i < |items| % k then 1 else 0)
  {
    var n := |items|;
    ChunkStartStep(n / k, n % k, i);
    ChunkStartMono(n / k, n % k, i + 1, k);
    ChunkStartEnd(n, k);
    items[ChunkStart(n / k, n % k, i)..ChunkStart(n / k, n % k, i + 1)]
  }

  /** `divide(count_parts, items)`; a part count below one raises ValueError. */
  function Divide<T>(countParts: int, items: seq<T>): (r: Outcome<seq<seq<T>>>)
    ensures r.Raised? <==> countParts < 1
    ensures r.Raised? ==> r.error == ValueError(CountPartsMessage)
    ensures r.Ok? ==> |r.value| == countParts
    ensures r.Ok? ==> forall i :: 0 <= i < countParts ==>
      |r.value[i]| == |items| / countParts + (if i < |items| % countParts then 1 else 0)
  {
    if countParts < 1 then Raised(ValueError(CountPartsMessage))
    else Ok(seq(countParts, i requires 0 <= i < countParts => Chunk(items, countParts, i)))
  }

  lemma {:induction false} FlattenChunks<T>(items: seq<T>, k: nat, j: nat)
    requires 1 <= k && j <= k
    ensures ChunkStart(|items| / k, |items| % k, j) <= |items|
    ensures Flatten(Divide(k, items).value[..j]) == items[..ChunkStart(|items| / k, |items| % k, j)]
  {
    var n := |items|;
    var chunks := Divide(k, items).value;
    ChunkStartMono(n / k, n % k, j, k);
    ChunkStartEnd(n, k);
    if j > 0 {
      FlattenChunks(items, k, j - 1);
      ChunkStartStep(n / k, n % k, j - 1);
      assert chunks[..j][..j - 1] == chunks[..j - 1];
      assert chunks[j - 1] == items[ChunkStart(n / k, n % k, j - 1)..ChunkStart(n / k, n % k, j)];
      assert items[..ChunkStart(n / k, n % k, j)]
          == items[..ChunkStart(n / k, n % k, j - 1)] + chunks[j - 1];
    }
  }

  /** Concatenating the chunks in order gives back the input. */
  lemma DivideFlatten<T>(countParts: int, items: seq<T>)
    requires countParts >= 1
    ensures Flatten(Divide(countParts, items).value) == items
  {
    FlattenChunks(items, countParts, countParts);
    ChunkStartEnd(|items|, countParts);
    assert Divide(countParts, items).value[..countParts] == Divide(countParts, items).value;
  }

  /** Chunk sizes differ by at most one and never grow from left to right. */
  lemma DivideBalanced<T>(countParts: int, items: seq<T>, i: nat, j: nat)
    requires 1 <= countParts && i <= j < countParts
    ensures var c := Divide(countParts, items).value;
      |c[j]| <= |c[i]| <= |c[j]| + 1
  {
  }

  /** Chunks that start at their own index hold one item each. */
  lemma SingletonChunks<T>(items: seq<T>, k: nat)
    requires 1 <= k && |items| <= k
    requires forall i :: 0 <= i <= |items| ==> ChunkStart(|items| / k, |items| % k, i) == i
    ensures forall i :: 0 <= i < |items| ==> Chunk(items, k, i) == [items[i]]
  {
    forall i | 0 <= i < |items| ensures Chunk(items, k, i) == [items[i]] {
      assert ChunkStart(|items| / k, |items| % k, i + 1) == i + 1;
    }
  }

  /** At least as many parts as items: one item per leading chunk, then
      empty chunks. */
  lemma DivideMorePartsThanItems<T>(countParts: int, items: seq<T>)
    requires countParts >= |items| && countParts >= 1
    ensures var c := Divide(countParts, items).value;
      (forall i :: 0 <= i < |items| ==> c[i] == [items[i]]) &&
      (forall i :: |items| <= i < countParts ==> c[i] == [])
  {
    var n := |items|;
    if n == countParts {
      assert n / countParts == 1 && n % countParts == 0;
      assert forall i: nat :: ChunkStart(1, 0, i) == i;
    } else {
      assert n / countParts == 0 && n % countParts == n;
      assert forall i: nat :: i <= n ==> ChunkStart(0, n, i) == i;
    }
    SingletonChunks(items, countParts);
  }

  /** One part is the whole input. */
  lemma DivideOnePart<T>(items: seq<T>)
    ensures Divide(1, items) == Ok([items])
  {
    var c := Divide(1, items).value;
    assert |items| / 1 == |items| && |items| % 1 == 0;
    assert c[0] == items;
    assert c == [items];
  }

  /** No items: every one of the parts is empty. */
  lemma DivideNothing<T>(countParts: int)
    requires countParts >= 1
    ensures Divide<T>(countParts, []) == Ok(seq(countParts, _ => []))
  {
    var c := Divide<T>(countParts, []).value;
    assert forall i :: 0 <= i < countParts ==> c[i] == [];
    assert c == seq(countParts, _ => []);
  }

  // The cases of the partitioner's test table, one lemma per row.

  lemma DivideEvenSplit()
    ensures Divide(2, [1, 2, 3, 4]) == Ok([[1, 2], [3, 4]])
  {
    var c := Divide(2, [1, 2, 3, 4]).value;
    assert ChunkStart(2, 0, 1) == 2 && ChunkStart(2, 0, 2) == 4;
    assert c[0] == [1, 2] && c[1] == [3, 4];
    assert c == [[1, 2], [3, 4]];
  }

  lemma DivideWithRemainder()
    ensures Divide(3, [1, 2, 3, 4, 5]) == Ok([[1, 2], [3, 4], [5]])
  {
    var c := Divide(3, [1, 2, 3, 4, 5]).value;
    assert ChunkStart(1, 2, 1) == 2 && ChunkStart(1, 2, 2) == 4 && ChunkStart(1, 2, 3) == 5;
    assert c[0] == [1, 2] && c[1] == [3, 4] && c[2] == [5];
    assert c == [[1, 2], [3, 4], [5]];
  }

  lemma DivideSinglePart()
    ensures Divide(1, [1, 2, 3]) == Ok([[1, 2, 3]])
  {
    DivideOnePart([1, 2, 3]);
  }

  lemma DivideEachElementAsPart()
    ensures Divide(3, [1, 2, 3]) == Ok([[1], [2], [3]])
  {
    DivideMorePartsThanItems(3, [1, 2, 3]);
    var c := Divide(3, [1, 2, 3]).value;
    assert c[0] == [1] && c[1] == [2] && c[2] == [3];
    assert c == [[1], [2], [3]];
  }

  lemma DivideEmptyInput()
    ensures Divide<int>(2, []) == Ok([[], []])
  {
    DivideNothing<int>(2);
    var none: seq<int> := [];
    assert seq(2, _ => none) == [[], []];
  }

  lemma DivideGeneratorInput()
    ensures Divide(3, [0, 1, 2, 3, 4, 5]) == Ok([[0, 1], [2, 3], [4, 5]])
  {
    var c := Divide(3, [0, 1, 2, 3, 4, 5]).value;
    assert ChunkStart(2, 0, 1) == 2 && ChunkStart(2, 0, 2) == 4 && ChunkStart(2, 0, 3) == 6;
    assert c[0] == [0, 1] && c[1] == [2, 3] && c[2] == [4, 5];
    assert c == [[0, 1], [2, 3], [4, 5]];
  }

  lemma DivideMorePartsThanElements()
    ensures Divide(5, [1, 2, 3]) == Ok([[1], [2], [3], [], []])
  {
    DivideMorePartsThanItems(5, [1, 2, 3]);
    var c := Divide(5, [1, 2, 3]).value;
    assert c[0] == [1] && c[1] == [2] && c[2] == [3] && c[3] == [] && c[4] == [];
    assert c == [[1], [2], [3], [], []];
  }

  /** The invalid part counts of the second table. */
  lemma DivideInvalidCountParts()
    ensures Divide(0, [1, 2, 3]) == Raised(ValueError(CountPartsMessage))
    ensures Divide(-1, [1, 2, 3]) == Raised(ValueError(CountPartsMessage))
    ensures CountPartsMessage == "'count_parts' must be at least 1"
  {
  }
}
