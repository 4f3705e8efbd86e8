/**
  tq_sift and tq_heapsort_desc of core/src/tq_sample.c: the parallel
  (probability, token) arrays are sorted in place, most probable first.
 */
module HeapSort {

  datatype Entry = Entry(prob: real, idx: int)

  // ------------------------------------------------- the sort on sequences

  function Swap(s: seq<Entry>, i: nat, j: nat): (r: seq<Entry>)
    requires i < |s| && j < |s|
    ensures |r| == |s|
  {
    s[i := s[j]][j := s[i]]
  }

  /** The larger of a node and its children among the first `n`; the node wins ties, then the left child. */
  function Bigger(s: seq<Entry>, root: nat, n: nat): (r: nat)
    requires root < n <= |s|
    ensures r < n && (r == root || r == 2 * root + 1 || r == 2 * root + 2)
  {
    var child := 2 * root + 1;
    var big := if child < n && s[child].prob > s[root].prob then child else root;
    if child + 1 < n && s[child + 1].prob > s[big].prob then child + 1 else big
  }

  function Sift(s: seq<Entry>, root: nat, n: nat): (r: seq<Entry>)
    requires root < n <= |s|
    ensures |r| == |s|
    decreases n - root
  {
    var big := Bigger(s, root, n);
    if big == root then s else Sift(Swap(s, root, big), big, n)
  }

  /** Nodes below `i` still to be sifted. */
  function Heapify(s: seq<Entry>, i: nat): (r: seq<Entry>)
    requires i <= |s|
    ensures |r| == |s|
    decreases i
  {
    if i == 0 then s else Heapify(Sift(s, i - 1, |s|), i - 1)
  }

  /** The first `i + 1` entries are a heap still to be popped to the back. */
  function Drain(s: seq<Entry>, i: nat): (r: seq<Entry>)
    requires i < |s| || i == 0
    ensures |r| == |s|
    decreases i
  {
    if i == 0 then s else Drain(Sift(Swap(s, 0, i), 0, i), i - 1)
  }

  function Reverse(s: seq<Entry>): (r: seq<Entry>)
    ensures |r| == |s|
  {
    seq(|s|, i requires 0 <= i < |s| => s[|s| - 1 - i])
  }

  function SortDesc(s: seq<Entry>): (r: seq<Entry>)
    ensures |r| == |s|
  {
    if s == [] then [] else Reverse(Drain(Heapify(s, |s| / 2), |s| - 1))
  }

  // ------------------------------------------------------------ permutation

  lemma SwapPermutes(s: seq<Entry>, i: nat, j: nat)
    requires i < |s| && j < |s|
    ensures multiset(Swap(s, i, j)) == multiset(s)
  {
  }

  /** A sift rearranges the first `n` entries and leaves the rest. */
  lemma {:induction false} SiftPermutes(s: seq<Entry>, root: nat, n: nat)
    requires root < n <= |s|
    ensures multiset(Sift(s, root, n)[..n]) == multiset(s[..n]) && Sift(s, root, n)[n..] == s[n..]
    decreases n - root
  {
    var big := Bigger(s, root, n);
    if big != root {
      var t := Swap(s, root, big);
      assert t[..n] == Swap(s[..n], root, big);
      SwapPermutes(s[..n], root, big);
      SiftPermutes(t, big, n);
    }
  }

  lemma SiftPermutesAll(s: seq<Entry>, root: nat, n: nat)
    requires root < n <= |s|
    ensures multiset(Sift(s, root, n)) == multiset(s)
  {
    var t := Sift(s, root, n);
    SiftPermutes(s, root, n);
    assert s == s[..n] + s[n..] && t == t[..n] + t[n..];
  }

  lemma {:induction false} HeapifyPermutes(s: seq<Entry>, i: nat)
    requires i <= |s|
    ensures multiset(Heapify(s, i)) == multiset(s)
    decreases i
  {
    if i > 0 {
      SiftPermutesAll(s, i - 1, |s|);
      HeapifyPermutes(Sift(s, i - 1, |s|), i - 1);
    }
  }

  lemma {:induction false} DrainPermutes(s: seq<Entry>, i: nat)
    requires i < |s| || i == 0
    ensures multiset(Drain(s, i)) == multiset(s)
    decreases i
  {
    if i > 0 {
      SwapPermutes(s, 0, i);
      SiftPermutesAll(Swap(s, 0, i), 0, i);
      DrainPermutes(Sift(Swap(s, 0, i), 0, i), i - 1);
    }
  }

  lemma {:induction false} ReversePermutes(s: seq<Entry>)
    ensures multiset(Reverse(s)) == multiset(s)
  {
    if s == [] {
    } else {
      var t := s[1..];
      ReversePermutes(t);
      assert Reverse(s) == Reverse(t) + [s[0]];
      assert s == [s[0]] + t;
    }
  }

  // --------------------------------------------------------------- the heap

  function Parent(j: nat): (r: nat)
    requires j > 0
    ensures r < j && (j == 2 * r + 1 || j == 2 * r + 2)
  {
    (j - 1) / 2
  }

  /** Every node from `lo` on, `hole` excepted, is at least its children among the first `n`. */
  ghost predicate HeapBut(s: seq<Entry>, lo: nat, n: nat, hole: nat)
    requires n <= |s|
  {
    forall j :: 0 < j < n && Parent(j) >= lo && Parent(j) != hole ==> s[Parent(j)].prob >= s[j].prob
  }

  ghost predicate Heap(s: seq<Entry>, lo: nat, n: nat)
    requires n <= |s|
  {
    forall j :: 0 < j < n && Parent(j) >= lo ==> s[Parent(j)].prob >= s[j].prob
  }

  /** The children of `hole` are at most its parent, when that is in the heap. */
  ghost predicate Roomy(s: seq<Entry>, lo: nat, n: nat, hole: nat)
    requires n <= |s|
  {
    hole > 0 && Parent(hole) >= lo ==>
      forall j :: 0 < j < n && Parent(j) == hole ==> s[Parent(hole)].prob >= s[j].prob
  }

  lemma SwapKeepsHeap(s: seq<Entry>, lo: nat, root: nat, n: nat)
    requires lo <= root < n <= |s| && HeapBut(s, lo, n, root) && Roomy(s, lo, n, root)
    requires Bigger(s, root, n) != root
    ensures var big := Bigger(s, root, n);
      HeapBut(Swap(s, root, big), lo, n, big) && Roomy(Swap(s, root, big), lo, n, big)
  {
    var big := Bigger(s, root, n);
    var t := Swap(s, root, big);
    assert Parent(big) == root;
    forall j | 0 < j < n && Parent(j) >= lo && Parent(j) != big
      ensures t[Parent(j)].prob >= t[j].prob
    {
      if Parent(j) == root {
        assert j == 2 * root + 1 || j == 2 * root + 2;
      } else if j == root {
        assert s[Parent(root)].prob >= s[big].prob;
      }
    }
    forall j | 0 < j < n && Parent(j) == big
      ensures t[root].prob >= t[j].prob
    {
      assert s[Parent(j)].prob >= s[j].prob;
    }
  }

  /** Sifting the hole closes it. */
  lemma {:induction false} SiftHeap(s: seq<Entry>, lo: nat, root: nat, n: nat)
    requires lo <= root < n <= |s| && HeapBut(s, lo, n, root) && Roomy(s, lo, n, root)
    ensures Heap(Sift(s, root, n), lo, n)
    decreases n - root
  {
    var big := Bigger(s, root, n);
    if big == root {
      forall j | 0 < j < n && Parent(j) >= lo
        ensures s[Parent(j)].prob >= s[j].prob
      {
        assert Parent(j) == root ==> j == 2 * root + 1 || j == 2 * root + 2;
      }
    } else {
      SwapKeepsHeap(s, lo, root, n);
      SiftHeap(Swap(s, root, big), lo, big, n);
    }
  }

  lemma {:induction false} HeapifyHeap(s: seq<Entry>, i: nat)
    requires i <= |s| && Heap(s, i, |s|)
    ensures Heap(Heapify(s, i), 0, |s|)
    decreases i
  {
    if i > 0 {
      SiftHeap(s, i - 1, i - 1, |s|);
      HeapifyHeap(Sift(s, i - 1, |s|), i - 1);
    }
  }

  /** The root of a heap is its largest entry. */
  lemma {:induction false} RootIsLargest(s: seq<Entry>, n: nat, j: nat)
    requires j < n <= |s| && Heap(s, 0, n)
    ensures s[0].prob >= s[j].prob
  {
    if j > 0 {
      RootIsLargest(s, n, Parent(j));
    }
  }

  /** Entries from `i` on are in place: ascending, and at least everything before them. */
  ghost predicate Placed(s: seq<Entry>, i: nat)
    requires i <= |s|
  {
    forall a, b :: 0 <= a < b < |s| && b >= i ==> s[a].prob <= s[b].prob
  }

  lemma PermutedBound(s: seq<Entry>, t: seq<Entry>, bound: real)
    requires multiset(s) == multiset(t)
    requires forall a :: 0 <= a < |s| ==> s[a].prob <= bound
    ensures forall a :: 0 <= a < |t| ==> t[a].prob <= bound
  {
    forall a | 0 <= a < |t|
      ensures t[a].prob <= bound
    {
      assert t[a] in multiset(t);
      assert t[a] in s;
    }
  }

  /** Popping the largest entry to the back places it and keeps the heap. */
  lemma PopPlaces(s: seq<Entry>, i: nat)
    requires 0 < i < |s| && Heap(s, 0, i + 1) && Placed(s, i + 1)
    ensures var t := Sift(Swap(s, 0, i), 0, i); Heap(t, 0, i) && Placed(t, i)
  {
    var u := Swap(s, 0, i);
    var t := Sift(u, 0, i);
    SiftPermutes(u, 0, i);
    assert HeapBut(u, 0, i, 0) by {
      forall j | 0 < j < i && Parent(j) != 0
        ensures u[Parent(j)].prob >= u[j].prob
      {
        assert s[Parent(j)].prob >= s[j].prob;
      }
    }
    SiftHeap(u, 0, 0, i);
    forall a | 0 <= a < i
      ensures u[a].prob <= s[0].prob
    {
      RootIsLargest(s, i + 1, if a == 0 then i else a);
    }
    PermutedBound(u[..i], t[..i], s[0].prob);
    forall a, b | 0 <= a < b < |s| && b >= i
      ensures t[a].prob <= t[b].prob
    {
      PlacedPair(s, i, u, t, a, b);
    }
  }

  lemma PlacedPair(s: seq<Entry>, i: nat, u: seq<Entry>, t: seq<Entry>, a: nat, b: nat)
    requires 0 < i < |s| == |t| && u == Swap(s, 0, i) && Placed(s, i + 1) && t[i..] == u[i..]
    requires forall c :: 0 <= c < i ==> t[..i][c].prob <= s[0].prob
    requires a < b < |s| && b >= i
    ensures t[a].prob <= t[b].prob
  {
    assert t[b] == t[i..][b - i] == u[b];
    if a < i {
      assert t[a] == t[..i][a];
      assert b == i || s[0].prob <= s[b].prob;
    } else {
      assert t[a] == t[i..][a - i] == u[a];
      assert s[0].prob <= s[b].prob;
    }
  }

  lemma {:induction false} DrainPlaces(s: seq<Entry>, i: nat)
    requires i < |s| && Heap(s, 0, i + 1) && Placed(s, i + 1)
    ensures Placed(Drain(s, i), 0)
    decreases i
  {
    if i == 0 {
      assert Placed(s, 0);
    } else {
      PopPlaces(s, i);
      DrainPlaces(Sift(Swap(s, 0, i), 0, i), i - 1);
    }
  }

  ghost predicate Descending(s: seq<Entry>) {
    forall a, b :: 0 <= a < b < |s| ==> s[a].prob >= s[b].prob
  }

  lemma LowerHalfHasNoChildren(s: seq<Entry>)
    ensures Heap(s, |s| / 2, |s|)
  {
    assert forall j :: 0 < j < |s| ==> Parent(j) < |s| / 2;
  }

  lemma ReversePlaced(s: seq<Entry>)
    requires Placed(s, 0)
    ensures Descending(Reverse(s))
  {
  }

  lemma SortDescPermutes(s: seq<Entry>)
    ensures multiset(SortDesc(s)) == multiset(s)
  {
    if s != [] {
      var h := Heapify(s, |s| / 2);
      HeapifyPermutes(s, |s| / 2);
      DrainPermutes(h, |s| - 1);
      ReversePermutes(Drain(h, |s| - 1));
      hide Heapify, Drain, Reverse;
    }
  }

  /** The heapsort gives a descending permutation of the pairs. */
  lemma SortDescSorts(s: seq<Entry>)
    ensures Descending(SortDesc(s)) && multiset(SortDesc(s)) == multiset(s)
  {
    SortDescPermutes(s);
    hide Heapify, Drain, Reverse, Heap;
    if s != [] {
      var h := Heapify(s, |s| / 2);
      LowerHalfHasNoChildren(s);
      HeapifyHeap(s, |s| / 2);
      DrainPlaces(h, |s| - 1);
      ReversePlaced(Drain(h, |s| - 1));
    }
  }

  // ---------------------------------------------------------------- in place

  /** The first `k` pairs of the parallel arrays. */
  ghost function Entries(prob: array<real>, idx: array<int>, k: nat): (r: seq<Entry>)
    requires k <= prob.Length && k <= idx.Length
    reads prob, idx
    ensures |r| == k
  {
    seq(k, i requires 0 <= i < k reads prob, idx requires k <= prob.Length && k <= idx.Length => Entry(prob[i], idx[i]))
  }

  method SwapAt(prob: array<real>, idx: array<int>, i: nat, j: nat, ghost k: nat)
    requires k <= prob.Length && k <= idx.Length && i < k && j < k
    modifies prob, idx
    ensures Entries(prob, idx, k) == Swap(old(Entries(prob, idx, k)), i, j)
    ensures prob[k..] == old(prob[k..]) && idx[k..] == old(idx[k..])
  {
    prob[i], prob[j] := prob[j], prob[i];
    idx[i], idx[j] := idx[j], idx[i];
  }

  lemma SiftStep(s: seq<Entry>, root: nat, n: nat)
    requires root < n <= |s|
    ensures var big := Bigger(s, root, n);
      if big == root then Sift(s, root, n) == s else big > root && Sift(s, root, n) == Sift(Swap(s, root, big), big, n)
  {
  }

  /** The two comparisons of tq_sift. */
  lemma BiggerIs(prob: array<real>, idx: array<int>, root: nat, n: nat, k: nat)
    requires root < n <= k <= prob.Length && k <= idx.Length
    ensures var child := 2 * root + 1;
      var big := if child < n && prob[child] > prob[root] then child else root;
      Bigger(Entries(prob, idx, k), root, n) == if child + 1 < n && prob[child + 1] > prob[big] then child + 1 else big
  {
  }

  /** tq_sift: among the first `n` of `k` pairs. */
  method TqSift(prob: array<real>, idx: array<int>, from: nat, n: nat, ghost k: nat)
    requires from < n <= k <= prob.Length && k <= idx.Length
    modifies prob, idx
    ensures Entries(prob, idx, k) == Sift(old(Entries(prob, idx, k)), from, n)
    ensures prob[k..] == old(prob[k..]) && idx[k..] == old(idx[k..])
  {
    hide Sift, Bigger, Swap, Entries;
    var root := from;
    while true
      invariant root < n
      invariant Sift(Entries(prob, idx, k), root, n) == Sift(old(Entries(prob, idx, k)), from, n)
      invariant prob[k..] == old(prob[k..]) && idx[k..] == old(idx[k..])
      decreases n - root
    {
      var child := 2 * root + 1;
      var big := root;
      if child < n && prob[child] > prob[big] {
        big := child;
      }
      if child + 1 < n && prob[child + 1] > prob[big] {
        big := child + 1;
      }
      BiggerIs(prob, idx, root, n, k);
      SiftStep(Entries(prob, idx, k), root, n);
      if big == root {
        return;
      }
      SwapAt(prob, idx, root, big, k);
      root := big;
    }
  }

  method HeapifyInPlace(prob: array<real>, idx: array<int>, n: nat)
    requires n <= prob.Length && n <= idx.Length
    modifies prob, idx
    ensures Entries(prob, idx, n) == Heapify(old(Entries(prob, idx, n)), n / 2)
    ensures prob[n..] == old(prob[n..]) && idx[n..] == old(idx[n..])
  {
    hide Sift, Entries;
    var i := n / 2;
    while i > 0
      invariant 0 <= i <= n
      invariant Heapify(Entries(prob, idx, n), i) == Heapify(old(Entries(prob, idx, n)), n / 2)
      invariant prob[n..] == old(prob[n..]) && idx[n..] == old(idx[n..])
    {
      i := i - 1;
      TqSift(prob, idx, i, n, n);
    }
  }

  method DrainInPlace(prob: array<real>, idx: array<int>, n: nat)
    requires 0 < n <= prob.Length && n <= idx.Length
    modifies prob, idx
    ensures Entries(prob, idx, n) == Drain(old(Entries(prob, idx, n)), n - 1)
    ensures prob[n..] == old(prob[n..]) && idx[n..] == old(idx[n..])
  {
    hide Sift, Entries, Swap;
    var i := n - 1;
    while i > 0
      invariant 0 <= i < n
      invariant Drain(Entries(prob, idx, n), i) == Drain(old(Entries(prob, idx, n)), n - 1)
      invariant prob[n..] == old(prob[n..]) && idx[n..] == old(idx[n..])
    {
      SwapAt(prob, idx, 0, i, n);
      TqSift(prob, idx, 0, i, n);
      i := i - 1;
    }
  }

  /** tq_heapsort_desc. */
  method TqHeapSortDesc(prob: array<real>, idx: array<int>, n: nat)
    requires n <= prob.Length && n <= idx.Length
    modifies prob, idx
    ensures Entries(prob, idx, n) == SortDesc(old(Entries(prob, idx, n)))
    ensures prob[n..] == old(prob[n..]) && idx[n..] == old(idx[n..])
  {
    if n > 0 {
      hide Heapify, Drain, Reverse, Entries;
      HeapifyInPlace(prob, idx, n);
      DrainInPlace(prob, idx, n);
      ReverseInPlace(prob, idx, n);
    }
  }

  /** Where position `k` of `n` came from when the outer `i` on each side are exchanged. */
  function MirrorIn(n: nat, i: nat, k: nat): nat
    requires k < n
  {
    if k < i || k >= n - i then n - 1 - k else k
  }

  /** The outer `i` entries on each side have changed places. */
  ghost predicate EndsReversed(was: seq<Entry>, now: seq<Entry>, i: nat) {
    |now| == |was| && forall k :: 0 <= k < |was| ==> now[k] == was[MirrorIn(|was|, i, k)]
  }

  lemma EndsReversedStep(was: seq<Entry>, now: seq<Entry>, i: nat)
    requires EndsReversed(was, now, i) && i < |was| / 2
    ensures EndsReversed(was, Swap(now, i, |was| - 1 - i), i + 1)
  {
    var j := |was| - 1 - i;
    var next := Swap(now, i, j);
    assert MirrorIn(|was|, i, i) == i && MirrorIn(|was|, i, j) == j;
    forall k | 0 <= k < |was|
      ensures next[k] == was[MirrorIn(|was|, i + 1, k)]
    {
      assert next[k] == if k == i then now[j] else if k == j then now[i] else now[k];
      assert now[k] == was[MirrorIn(|was|, i, k)];
    }
  }

  method ReverseInPlace(prob: array<real>, idx: array<int>, n: nat)
    requires n <= prob.Length && n <= idx.Length
    modifies prob, idx
    ensures Entries(prob, idx, n) == Reverse(old(Entries(prob, idx, n)))
    ensures prob[n..] == old(prob[n..]) && idx[n..] == old(idx[n..])
  {
    ghost var was := Entries(prob, idx, n);
    var i := 0;
    while i < n / 2
      invariant i <= n / 2
      invariant EndsReversed(was, Entries(prob, idx, n), i)
      invariant prob[n..] == old(prob[n..]) && idx[n..] == old(idx[n..])
    {
      EndsReversedStep(was, Entries(prob, idx, n), i);
      SwapAt(prob, idx, i, n - 1 - i, n);
      i := i + 1;
    }
  }
}
