/** Batch splitting and wrap-around indexing (LangUtils.kt). */
module LangUtils {

  /** Concatenation of all batches, in order. */
  function Flatten<T>(batches: seq<seq<T>>): seq<T> {
    if |batches| == 0 then [] else batches[0] + Flatten(batches[1..])
  }

  /**
   * The batches `split` produces: consecutive chunks of `batchSize` items and a
   * shorter non-empty remainder. A batch size below 1 never completes a chunk,
   * so the whole (non-empty) input becomes one batch.
   */
  function Batches<T>(items: seq<T>, batchSize: int): (r: seq<seq<T>>)
    decreases |items|
  {
    if |items| == 0 then []
    else if 1 <= batchSize <= |items| then [items[..batchSize]] + Batches(items[batchSize..], batchSize)
    else [items]
  }

  /** `split(batchSize)`: fills a current batch item by item and flushes it when full. */
  method Split<T>(items: seq<T>, batchSize: int) returns (result: seq<seq<T>>)
    ensures result == Batches(items, batchSize)
  {
    result := [];
    var current: seq<T> := [];
    var start, i := 0, 0;
    while i < |items|
      invariant 0 <= start <= i <= |items|
      invariant current == items[start..i]
      invariant 1 <= batchSize ==> i - start < batchSize
      invariant result + Batches(items[start..], batchSize) == Batches(items, batchSize)
    {
      assert items[start..i + 1] == items[start..i] + [items[i]];
      current := current + [items[i]];
      i := i + 1;
      if |current| == batchSize {
        SplitFlush(items, result, start, batchSize);
        result := result + [current];
        current := [];
        start := i;
      }
    }
    SplitFinish(items, result, start, batchSize);
    if |current| != 0 {
      result := result + [current];
    }
  }

  /** Flushing a full batch keeps the loop's account of the remaining batches. */
  lemma SplitFlush<T>(items: seq<T>, result: seq<seq<T>>, start: nat, batchSize: int)
    requires 1 <= batchSize && start + batchSize <= |items|
    requires result + Batches(items[start..], batchSize) == Batches(items, batchSize)
    ensures (result + [items[start..start + batchSize]]) + Batches(items[start + batchSize..], batchSize)
         == Batches(items, batchSize)
  {
    assert items[start..][..batchSize] == items[start..start + batchSize];
    assert items[start..][batchSize..] == items[start + batchSize..];
  }

  /** After the loop the remaining items form at most one (short) batch. */
  lemma SplitFinish<T>(items: seq<T>, result: seq<seq<T>>, start: nat, batchSize: int)
    requires start <= |items| && (1 <= batchSize ==> |items| - start < batchSize)
    requires result + Batches(items[start..], batchSize) == Batches(items, batchSize)
    ensures start < |items| ==> result + [items[start..|items|]] == Batches(items, batchSize)
    ensures start == |items| ==> result == Batches(items, batchSize)
  {
    assert items[start..] == items[start..|items|];
  }

  lemma {:induction false} FlattenAppend<T>(a: seq<seq<T>>, b: seq<seq<T>>)
    ensures Flatten(a + b) == Flatten(a) + Flatten(b)
  {
    if |a| == 0 {
      assert a + b == b;
    } else {
      assert (a + b)[0] == a[0];
      assert (a + b)[1..] == a[1..] + b;
      FlattenAppend(a[1..], b);
    }
  }

  /** Concatenating the batches yields the input, in order. */
  lemma {:induction false} FlattenBatches<T>(items: seq<T>, batchSize: int)
    ensures Flatten(Batches(items, batchSize)) == items
    decreases |items|
  {
    if |items| != 0 && 1 <= batchSize <= |items| {
      var rest := Batches(items[batchSize..], batchSize);
      assert ([items[..batchSize]] + rest)[1..] == rest;
      FlattenBatches(items[batchSize..], batchSize);
    }
  }

  /**
   * There are no batches exactly when the input is empty; no batch is empty, no batch is longer than `batchSize`, and every batch
   * but the last has exactly `batchSize` items (when `batchSize` is at least 1).
   */
  lemma {:induction false} BatchSizes<T>(items: seq<T>, batchSize: int)
    ensures |Batches(items, batchSize)| == 0 <==> |items| == 0
    ensures forall k :: 0 <= k < |Batches(items, batchSize)| ==> |Batches(items, batchSize)[k]| > 0
    ensures 1 <= batchSize ==> forall k :: 0 <= k < |Batches(items, batchSize)| ==> |Batches(items, batchSize)[k]| <= batchSize
    ensures 1 <= batchSize ==> forall k :: 0 <= k < |Batches(items, batchSize)| - 1 ==> |Batches(items, batchSize)[k]| == batchSize
    decreases |items|
  {
    if |items| != 0 && 1 <= batchSize <= |items| {
      BatchSizes(items[batchSize..], batchSize);
    }
  }

  /** A batch size below 1 puts a non-empty input into a single batch. */
  lemma NonPositiveBatchSize<T>(items: seq<T>, batchSize: int)
    requires batchSize < 1 && |items| > 0
    ensures Batches(items, batchSize) == [items]
  {
  }

  /**
   * The number of batches is the ceiling of |items| / batchSize: the least count
   * whose batches of `batchSize` items can hold the input.
   */
  lemma {:induction false} BatchCount<T>(items: seq<T>, batchSize: int)
    requires 1 <= batchSize
    ensures (|Batches(items, batchSize)| - 1) * batchSize < |items| <= |Batches(items, batchSize)| * batchSize
    ensures |Batches(items, batchSize)| == (|items| + batchSize - 1) / batchSize
    decreases |items|
  {
    var c := |Batches(items, batchSize)|;
    if |items| != 0 && batchSize <= |items| {
      BatchCount(items[batchSize..], batchSize);
      assert c == |Batches(items[batchSize..], batchSize)| + 1;
    }
    CeilingDivision(|items|, batchSize, c);
  }

  /** The count characterised by the two inequalities is the rounded-up quotient. */
  lemma CeilingDivision(n: nat, k: int, c: int)
    requires 1 <= k && (c - 1) * k < n <= c * k
    ensures c == (n + k - 1) / k
  {
    var q := (n + k - 1) / k;
    assert q * k <= n + k - 1 < (q + 1) * k;
    assert c * k < (q + 1) * k by {
      assert (c - 1) * k == c * k - k;
    }
    MultiplicationCancels(c, q + 1, k);
    assert q * k < (c + 1) * k by {
      assert (c + 1) * k == c * k + k;
    }
    MultiplicationCancels(q, c + 1, k);
  }

  lemma MultiplicationCancels(a: int, b: int, k: int)
    requires 1 <= k && a * k < b * k
    ensures a < b
  {
    assert (b - a) * k == b * k - a * k;
  }

  /** Ten items split by three: four batches, the first [1, 2, 3] and the last [10]. */
  lemma SplitTenByThree()
    ensures |Batches([1, 2, 3, 4, 5, 6, 7, 8, 9, 10], 3)| == 4
    ensures Batches([1, 2, 3, 4, 5, 6, 7, 8, 9, 10], 3)[0] == [1, 2, 3]
    ensures Batches([1, 2, 3, 4, 5, 6, 7, 8, 9, 10], 3)[3] == [10]
  {
    var s := [1, 2, 3, 4, 5, 6, 7, 8, 9, 10];
    assert s[3..][3..][3..] == [10];
    assert s[3..][3..] == [7, 8, 9, 10];
    assert s[3..] == [4, 5, 6, 7, 8, 9, 10];
  }

  /**
   * Index translation behind the negative-index helpers: a negative index counts
   * from the end, so the result is `index` itself or `index` shifted up by one
   * whole length.
   */
  function XIndex(index: int, size: nat): (r: nat)
    requires -(size as int) <= index < size
    ensures r < size
    ensures r == index || r == index + size
  {
    if index < 0 then size + index else index
  }

  /** The translated position is congruent to `index` modulo `size`. */
  lemma XIndexCongruent(index: int, size: nat)
    requires -(size as int) <= index < size
    ensures (XIndex(index, size) - index) % size == 0
  {
    var r := XIndex(index, size);
    if r != index {
      assert r - index == size;
    }
  }

  /** `getx`: element access with negative indices counting from the end. */
  function Getx<T>(s: seq<T>, index: int): (x: T)
    requires -|s| <= index < |s|
    ensures 0 <= index ==> x == s[index]
    ensures index < 0 ==> x == s[|s| + index]
  {
    s[XIndex(index, |s|)]
  }

  /** A negative index addresses the same element as the index |s| positions later. */
  lemma GetxWrapsAround<T>(s: seq<T>, index: int)
    requires -|s| <= index < 0
    ensures Getx(s, index) == Getx(s, index + |s|)
    ensures Getx(s, -1) == s[|s| - 1]
  {
  }

  /** The behaviour pinned by the test: last, first (twice) and second element. */
  lemma GetxOnOneToTen()
    ensures Getx([1, 2, 3, 4, 5, 6, 7, 8, 9, 10], -1) == 10
    ensures Getx([1, 2, 3, 4, 5, 6, 7, 8, 9, 10], -10) == 1
    ensures Getx([1, 2, 3, 4, 5, 6, 7, 8, 9, 10], 0) == 1
    ensures Getx([1, 2, 3, 4, 5, 6, 7, 8, 9, 10], -10 + 1) == 2
  {
  }
}
