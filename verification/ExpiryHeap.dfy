/** Binary min-heap order over a sequence, and what the sift steps of Go's
    `container/heap` do to it. */
module ExpiryHeap {

  function Parent(j: int): int { (j - 1) / 2 }

  /** The first `n` elements form a min-heap. */
  predicate Ordered(e: seq<int>, n: nat)
    requires n <= |e|
  {
    forall j {:trigger e[j]} :: 0 < j < n ==> e[Parent(j)] <= e[j]
  }

  /** As `Ordered`, except that `i` may be larger than its children, and that
      `top` may be smaller than its parent as long as the hole is still there. */
  predicate SinkingAt(e: seq<int>, n: nat, i: nat, top: nat)
    requires n <= |e| && i < |e|
  {
    && (forall j {:trigger e[j]} :: 0 < j < n && Parent(j) != i && !(j == top && i == top) ==> e[Parent(j)] <= e[j])
    && (forall j {:trigger e[j]} :: 0 < j < n && Parent(j) == i && 0 < i ==> e[Parent(i)] <= e[j])
  }

  /** As `Ordered`, except that `i` may be smaller than its parent. */
  predicate RisingAt(e: seq<int>, n: nat, i: nat)
    requires n <= |e| && i < |e|
  {
    && (forall j {:trigger e[j]} :: 0 < j < n && j != i ==> e[Parent(j)] <= e[j])
    && (forall j {:trigger e[j]} :: 0 < j < n && Parent(j) == i && 0 < i ==> e[Parent(i)] <= e[j])
  }

  function Swapped<T>(s: seq<T>, i: nat, j: nat): seq<T>
    requires i < |s| && j < |s|
  {
    s[i := s[j]][j := s[i]]
  }

  /** Element `i` of a heap was replaced: it may sink or rise. */
  lemma ReplaceInHeap(e: seq<int>, n: nat, i: nat, x: int)
    requires n <= |e| && i < n && Ordered(e, n)
    ensures SinkingAt(e[i := x], n, i, i)
  {
    var f := e[i := x];
    forall j {:trigger f[j]} | 0 < j < n && Parent(j) == i && 0 < i ensures f[Parent(i)] <= f[j] {
      assert e[Parent(i)] <= e[i] <= e[j];
    }
  }

  /** Sink one level: swap with the smaller child. */
  lemma SinkStep(e: seq<int>, n: nat, i: nat, top: nat, c: nat)
    requires n <= |e| && i < |e| && SinkingAt(e, n, i, top)
    requires c < n && 0 < c && Parent(c) == i && e[c] < e[i]
    requires forall j {:trigger e[j]} :: 0 < j < n && Parent(j) == i ==> e[c] <= e[j]
    ensures SinkingAt(Swapped(e, i, c), n, c, top)
  {
    var f := Swapped(e, i, c);
    forall j {:trigger f[j]} | 0 < j < n && Parent(j) != c && !(j == top && c == top) ensures f[Parent(j)] <= f[j] {
      if j == i {
        assert e[Parent(i)] <= e[c];
      }
    }
    forall j {:trigger f[j]} | 0 < j < n && Parent(j) == c && 0 < c ensures f[Parent(c)] <= f[j] {
      assert f[Parent(c)] == e[c] && f[j] == e[j];
    }
  }

  /** Where the element stops sinking. Had it moved, the heap is in order; had
      it not, it may still have to rise. */
  lemma SinkEnd(e: seq<int>, n: nat, i: nat, top: nat)
    requires n <= |e| && i < n && SinkingAt(e, n, i, top)
    requires forall j {:trigger e[j]} :: 0 < j < n && Parent(j) == i ==> e[i] <= e[j]
    ensures i != top ==> Ordered(e, n)
    ensures i == top ==> RisingAt(e, n, i)
  {
  }

  lemma RiseStep(e: seq<int>, n: nat, j: nat)
    requires n <= |e| && j < n && 0 < j && RisingAt(e, n, j) && e[j] < e[Parent(j)]
    ensures RisingAt(Swapped(e, Parent(j), j), n, Parent(j))
  {
    var i := Parent(j);
    var f := Swapped(e, i, j);
    forall k {:trigger f[k]} | 0 < k < n && k != i ensures f[Parent(k)] <= f[k] {
      if k != j && Parent(k) == i {
        assert e[i] <= e[k];
      }
    }
    forall k {:trigger f[k]} | 0 < k < n && Parent(k) == i && 0 < i ensures f[Parent(i)] <= f[k] {
      assert e[Parent(i)] <= e[i];
      if k != j { assert e[i] <= e[k]; }
    }
  }

  lemma RiseEnd(e: seq<int>, n: nat, j: nat)
    requires n <= |e| && j < n && RisingAt(e, n, j) && (j == 0 || e[Parent(j)] <= e[j])
    ensures Ordered(e, n)
  {
  }

  lemma {:induction false} RootIsLeast(e: seq<int>, n: nat, j: nat)
    requires n <= |e| && j < n && Ordered(e, n)
    ensures e[0] <= e[j]
    decreases j
  {
    if j > 0 {
      RootIsLeast(e, n, Parent(j));
    }
  }
}
