/**
  The integer probability tables of core/src/tq_ac.c: weights in, counts of at
  least one that sum to exactly 2^16 out, and the search that inverts them.
 */
module CountTables {
  import opened Intervals
  import opened Words

  const MAX_COUNTS: nat := 512

  /** A bucket sums up to 128 weights of at most 2^24. */
  const MAX_WEIGHT: nat := 0x8000_0000

  function Sum(s: seq<nat>): nat {
    if s == [] then 0 else Sum(s[..|s| - 1]) + s[|s| - 1]
  }

  /** The first of the heaviest entries. */
  function Heaviest(w: seq<nat>): (t: nat)
    requires w != []
    ensures t < |w|
    ensures forall i :: 0 <= i < |w| ==> w[i] <= w[t]
    ensures forall i :: 0 <= i < t ==> w[i] < w[t]
  {
    if |w| == 1 then 0
    else var t := Heaviest(w[..|w| - 1]); if w[|w| - 1] > w[t] then |w| - 1 else t
  }

  /** The count of weight `x` before the leftover is given away. */
  function Share(x: nat, spread: nat, sum: nat): nat {
    if sum == 0 then 1 else 1 + x * spread / sum
  }

  function Shares(w: seq<nat>, spread: nat, sum: nat): (c: seq<nat>)
    ensures |c| == |w| && forall i :: 0 <= i < |w| ==> c[i] == Share(w[i], spread, sum) >= 1
  {
    seq(|w|, i requires 0 <= i < |w| => Share(w[i], spread, sum))
  }

  ghost predicate Weights(w: seq<nat>) {
    1 <= |w| <= MAX_COUNTS && forall i :: 0 <= i < |w| ==> w[i] <= MAX_WEIGHT
  }

  /** What tq_ac_normalize leaves in `cnt`. */
  function Normalize(w: seq<nat>): (c: seq<nat>)
    requires 1 <= |w| <= MAX_COUNTS
    ensures |c| == |w|
  {
    var base := Shares(w, TOT - |w|, Sum(w));
    SharesFit(w, TOT - |w|);
    base[Heaviest(w) := base[Heaviest(w)] + (TOT - Sum(base))]
  }

  /** A table the coder can use: every symbol codeable, the slices tile [0, 2^16). */
  ghost predicate Table(c: seq<nat>) {
    c != [] && Sum(c) == TOT && forall i :: 0 <= i < |c| ==> c[i] >= 1
  }

  function SymOf(c: seq<nat>, i: nat): Sym
    requires i < |c|
  {
    Sym(Sum(c[..i]), c[i], TOT)
  }

  lemma {:induction false} SumUpdate(s: seq<nat>, i: nat, x: nat)
    requires i < |s|
    ensures Sum(s[i := x]) == Sum(s) - s[i] + x
  {
    var n := |s| - 1;
    if i < n {
      SumUpdate(s[..n], i, x);
      assert s[i := x][..n] == s[..n][i := x];
    } else {
      assert s[i := x][..n] == s[..n];
    }
  }

  lemma {:induction false} SumMono(s: seq<nat>, i: nat)
    requires i <= |s|
    ensures Sum(s[..i]) <= Sum(s)
    ensures i < |s| ==> Sum(s[..i]) + s[i] == Sum(s[..i + 1]) <= Sum(s)
    decreases |s| - i
  {
    if i == |s| {
      assert s[..i] == s;
    } else {
      assert s[..i + 1][..i] == s[..i];
      SumMono(s, i + 1);
    }
  }

  lemma {:induction false} SumMember(s: seq<nat>, i: nat)
    requires i < |s|
    ensures s[i] <= Sum(s)
  {
    SumMono(s, i);
  }

  lemma {:induction false} SumBound(s: seq<nat>, b: nat)
    requires forall i :: 0 <= i < |s| ==> s[i] <= b
    ensures Sum(s) <= |s| * b
  {
    if s != [] {
      SumBound(s[..|s| - 1], b);
      assert |s| * b == (|s| - 1) * b + b;
    }
  }

  /** The shares of a prefix, rounded down, against the exact proportion. */
  lemma {:induction false} SharesAgainstExact(w: seq<nat>, spread: nat, sum: nat)
    requires sum > 0
    ensures (Sum(Shares(w, spread, sum)) - |w|) * sum <= Sum(w) * spread
    ensures Sum(w) * spread <= (Sum(Shares(w, spread, sum)) - |w|) * sum + |w| * (sum - 1)
  {
    var c := Shares(w, spread, sum);
    if w != [] {
      var n := |w| - 1;
      var c' := Shares(w[..n], spread, sum);
      assert c[..n] == c';
      SharesAgainstExact(w[..n], spread, sum);
      var x, q := w[n], w[n] * spread / sum;
      assert q * sum <= x * spread <= q * sum + (sum - 1) by { QuotientSpan(x * spread, sum); }
      AddTerm(Sum(c') - n, q, sum);
      AddTerm(Sum(w[..n]), x, spread);
      AddTerm(n, 1, sum - 1);
    }
  }

  lemma QuotientSpan(a: nat, b: nat)
    requires b > 0
    ensures a / b * b <= a <= a / b * b + (b - 1)
  {
  }

  lemma AddTerm(a: int, b: int, k: int)
    ensures (a + b) * k == a * k + b * k
  {
  }

  /** The floors never hand out more than the spread, and fall short by less than one per symbol. */
  lemma SharesFit(w: seq<nat>, spread: nat)
    requires w != []
    ensures Sum(Shares(w, spread, Sum(w))) <= |w| + spread
    ensures Sum(w) > 0 ==> |w| + spread - Sum(Shares(w, spread, Sum(w))) < |w|
    ensures Sum(w) == 0 ==> Sum(Shares(w, spread, 0)) == |w|
  {
    var sum, c := Sum(w), Shares(w, spread, Sum(w));
    if sum > 0 {
      hide Shares, Sum, Share;
      SharesAgainstExact(w, spread, sum);
      CancelBounds(Sum(c) - |w|, spread, sum, |w|);
    } else {
      hide Sum;
      SumOnes(c);
    }
  }

  lemma CancelBounds(x: int, spread: nat, sum: nat, n: nat)
    requires sum > 0 && n > 0
    requires x * sum <= sum * spread <= x * sum + n * (sum - 1)
    ensures x <= spread < x + n
  {
    assert sum * (x + n) == x * sum + n * sum;
    assert n * (sum - 1) == n * sum - n;
    if x > spread {
      MulMono(sum, spread + 1, x);
      assert false;
    }
    if spread >= x + n {
      MulMono(sum, x + n, spread);
      assert false;
    }
  }

  lemma {:induction false} SumOnes(c: seq<nat>)
    requires forall i :: 0 <= i < |c| ==> c[i] == 1
    ensures Sum(c) == |c|
  {
    if c != [] {
      SumOnes(c[..|c| - 1]);
    }
  }

  /** For all weights, all-zero ones included, the result is a usable table. */
  lemma NormalizeTable(w: seq<nat>)
    requires 1 <= |w| <= MAX_COUNTS
    ensures Table(Normalize(w))
  {
    var c, t := Shares(w, TOT - |w|, Sum(w)), Heaviest(w);
    SharesFit(w, TOT - |w|);
    SumUpdate(c, t, c[t] + (TOT - Sum(c)));
  }

  /**
    Every symbol but the first heaviest gets its floor; that one also gets the
    leftover, less than one count per symbol unless every weight is zero.
   */
  lemma NormalizeLeftover(w: seq<nat>, i: nat)
    requires 1 <= |w| <= MAX_COUNTS && i < |w|
    ensures var extra := Normalize(w)[i] - Share(w[i], TOT - |w|, Sum(w));
      if i != Heaviest(w) then extra == 0
      else if Sum(w) == 0 then extra == TOT - |w|
      else 0 <= extra < |w|
  {
    NormalizeIs(w, Shares(w, TOT - |w|, Sum(w)), Heaviest(w));
    hide Normalize, Heaviest, Sum, Share;
    SharesFit(w, TOT - |w|);
  }

  /** A strictly heavier symbol never gets fewer counts. */
  lemma NormalizeOrder(w: seq<nat>, i: nat, j: nat)
    requires 1 <= |w| <= MAX_COUNTS && i < |w| && j < |w| && w[i] < w[j]
    ensures Normalize(w)[i] <= Normalize(w)[j]
  {
    ShareMono(w[i], w[j], TOT - |w|, Sum(w));
    NormalizeLeftover(w, i);
    NormalizeLeftover(w, j);
  }

  /**
    Counts are proportional to weights: what a symbol gets beyond its one count
    is its exact part of the spread, rounded down; only the first heaviest may
    get up to one count per other symbol more.
   */
  lemma NormalizeProportion(w: seq<nat>, i: nat)
    requires 1 <= |w| <= MAX_COUNTS && i < |w| && Sum(w) > 0
    ensures var c, exact := Normalize(w)[i], w[i] * (TOT - |w|);
      && exact < c * Sum(w)
      && (c - 1) * Sum(w) <= exact + if i == Heaviest(w) then (|w| - 1) * Sum(w) else 0
  {
    hide Normalize, Heaviest, Sum, Share, Shares;
    NormalizeLeftover(w, i);
    if i == Heaviest(w) {
      ShareBounds(w[i], TOT - |w|, Sum(w), Normalize(w)[i], |w| - 1);
    } else {
      ShareBounds(w[i], TOT - |w|, Sum(w), Normalize(w)[i], 0);
    }
  }

  lemma ShareBounds(x: nat, spread: nat, sum: nat, c: nat, most: nat)
    requires sum > 0 && Share(x, spread, sum) <= c <= Share(x, spread, sum) + most
    ensures x * spread < c * sum && (c - 1) * sum <= x * spread + most * sum && (most == 0 ==> (c - 1) * sum <= x * spread)
  {
    QuotientPlus(x * spread, sum, c, most);
  }

  lemma QuotientPlus(a: nat, b: nat, c: nat, most: nat)
    requires b > 0 && 1 + a / b <= c <= 1 + a / b + most
    ensures a < c * b && (c - 1) * b <= a + most * b && (most == 0 ==> (c - 1) * b <= a)
  {
    var extra := c - 1 - a / b;
    QuotientSpan(a, b);
    AddTerm(a / b, extra, b);
    AddTerm(a / b + extra, 1, b);
    MulMono(b, 0, extra);
    MulMono(b, extra, most);
  }

  lemma ShareMono(x: nat, y: nat, spread: nat, sum: nat)
    requires x <= y
    ensures Share(x, spread, sum) <= Share(y, spread, sum)
  {
    if sum > 0 {
      MulMono(spread, x, y);
      DivAtMost(x * spread, sum);
      DivAtLeast(y * spread, sum, x * spread / sum);
    }
  }

  lemma SymOfCodeable(c: seq<nat>, i: nat)
    requires Table(c) && i < |c|
    ensures SymOf(c, i).Codeable()
  {
    SumMono(c, i);
  }

  /** The symbol whose slice holds `target`; past the end, the last one. */
  function Find(c: seq<nat>, target: nat): (i: nat)
    requires c != []
    ensures i < |c|
  {
    FindFrom(c, target, 0)
  }

  function FindFrom(c: seq<nat>, target: nat, k: nat): (i: nat)
    requires k <= |c| && c != []
    ensures i < |c|
    decreases |c| - k
  {
    if k == |c| then |c| - 1
    else if target < Sum(c[..k + 1]) then k
    else FindFrom(c, target, k + 1)
  }

  /** The search inverts the cumulative count: it finds `i` exactly on the slice of `i`. */
  lemma FindInverse(c: seq<nat>, target: nat, i: nat)
    requires Table(c) && target < TOT && i < |c|
    ensures Find(c, target) == i <==> SymOf(c, i).Owns(target)
  {
    FindOwns(c, target, 0);
    if SymOf(c, i).Owns(target) {
      SlicesDisjoint(c, i, Find(c, target), target);
    }
  }

  lemma {:induction false} FindOwns(c: seq<nat>, target: nat, k: nat)
    requires Table(c) && k < |c| && Sum(c[..k]) <= target < TOT
    ensures SymOf(c, FindFrom(c, target, k)).Owns(target)
    decreases |c| - k
  {
    SumMono(c, k);
    assert c[..|c|] == c;
    if target >= Sum(c[..k + 1]) {
      FindOwns(c, target, k + 1);
    }
  }

  lemma SlicesDisjoint(c: seq<nat>, i: nat, j: nat, target: nat)
    requires i < |c| && j < |c|
    requires SymOf(c, i).Owns(target) && SymOf(c, j).Owns(target)
    ensures i == j
  {
    if i < j {
      PrefixSums(c, i, j);
    } else if j < i {
      PrefixSums(c, j, i);
    }
  }

  lemma PrefixSums(c: seq<nat>, i: nat, j: nat)
    requires i < j < |c|
    ensures Sum(c[..i]) + c[i] <= Sum(c[..j])
  {
    SumMono(c[..j], i);
    assert c[..j][..i] == c[..i] && c[..j][..i + 1] == c[..i + 1];
  }

  // ------------------------------------------------------------- the loops

  lemma HeaviestNext(w: seq<nat>, i: nat)
    requires i < |w|
    ensures Sum(w[..i + 1]) == Sum(w[..i]) + w[i]
    ensures Heaviest(w[..i + 1]) == if i == 0 || w[i] > w[Heaviest(w[..i])] then i else Heaviest(w[..i])
  {
    assert w[..i + 1][..i] == w[..i];
  }

  method SumAndHeaviest(w: array<u64>, n: nat) returns (sum: u64, top: nat)
    requires 1 <= n <= w.Length && Weights(w[..n])
    ensures sum == Sum(w[..n]) && top == Heaviest(w[..n])
  {
    ghost var ws: seq<nat> := w[..n];
    sum, top := 0, 0;
    for i := 0 to n
      invariant sum == Sum(ws[..i])
      invariant top == (if i == 0 then 0 else Heaviest(ws[..i]))
    {
      hide Heaviest, Sum;
      HeaviestNext(ws, i);
      SumBound(ws[..i], MAX_WEIGHT);
      sum := sum + w[i];
      if w[i] > w[top] {
        top := i;
      }
    }
    assert ws[..n] == ws;
  }

  method FillShares(cnt: array<u32>, w: array<u64>, n: nat, spread: u32, sum: u64) returns (used: u32)
    requires 1 <= n <= MAX_COUNTS && n <= cnt.Length && n <= w.Length
    requires spread == TOT - n && sum == Sum(w[..n]) > 0 && Weights(w[..n])
    modifies cnt
    ensures w[..n] == old(w[..n])
    ensures cnt[..n] == Shares(old(w[..n]), spread, sum) && used == Sum(cnt[..n]) <= TOT
  {
    ghost var ws: seq<nat> := w[..n];
    ghost var c := Shares(ws, spread, sum);
    SharesFit(ws, spread);
    used := 0;
    for i := 0 to n
      invariant w[..n] == ws && cnt[..i] == c[..i] && used == Sum(c[..i])
    {
      SumMono(c, i);
      SumMember(ws, i);
      assert w[i] == ws[i];
      ProductFits(w[i], spread);
      ShareSize(w[i], spread, sum);
      var scaled: u64 := w[i] * spread;
      cnt[i] := 1 + scaled / sum;
      used := used + cnt[i];
    }
    assert c[..n] == c;
  }

  lemma ProductFits(x: nat, spread: nat)
    requires x <= MAX_WEIGHT && spread <= TOT
    ensures 0 <= x * spread <= MAX_WEIGHT * TOT
  {
    MulMono(spread, x, MAX_WEIGHT);
    MulMono(MAX_WEIGHT, spread, TOT);
  }

  lemma ShareSize(x: nat, spread: nat, sum: nat)
    requires x <= sum && 0 < sum
    ensures 0 <= x * spread / sum <= spread
  {
    MulMono(spread, x, sum);
    QuotientAtMost(x * spread, sum, spread);
  }

  lemma QuotientAtMost(a: nat, b: nat, q: nat)
    requires 0 < b && a <= q * b
    ensures 0 <= a / b <= q
  {
    DivAtMost(a, b);
    if a / b > q {
      MulMono(b, q + 1, a / b);
      assert false;
    }
  }

  /** The degenerate table: every count one. */
  method FillOnes(cnt: array<u32>, ghost w: seq<nat>, n: nat)
    requires n == |w| <= cnt.Length && n <= MAX_COUNTS && Sum(w) == 0
    modifies cnt
    ensures cnt[..n] == Shares(w, TOT - n, 0)
  {
    for i := 0 to n
      invariant forall k :: 0 <= k < i ==> cnt[k] == 1
    {
      cnt[i] := 1;
    }
  }

  method AddTo(cnt: array<u32>, n: nat, i: nat, extra: u32)
    requires i < n <= cnt.Length && cnt[i] + extra < U32
    modifies cnt
    ensures cnt[..n] == old(cnt[..n])[i := old(cnt[i]) + extra]
  {
    cnt[i] := cnt[i] + extra;
  }

  lemma OnesAre(w: seq<nat>, spread: nat)
    ensures forall i :: 0 <= i < |w| ==> Shares(w, spread, 0)[i] == 1
  {
  }

  lemma NormalizeIs(w: seq<nat>, base: seq<nat>, top: nat)
    requires 1 <= |w| <= MAX_COUNTS && top == Heaviest(w) && base == Shares(w, TOT - |w|, Sum(w))
    ensures top < |base| && Sum(base) <= TOT && Normalize(w) == base[top := base[top] + (TOT - Sum(base))]
  {
    hide Shares, Sum, Heaviest;
    SharesFit(w, TOT - |w|);
  }

  /** The degenerate branch. */
  method Uniform(cnt: array<u32>, ghost w: seq<nat>, n: nat, top: nat)
    requires n == |w| <= cnt.Length && 1 <= n <= MAX_COUNTS && Sum(w) == 0 && top == Heaviest(w) < n
    modifies cnt
    ensures cnt[..n] == Normalize(w)
  {
    SharesFit(w, TOT - n);
    NormalizeIs(w, Shares(w, TOT - n, 0), top);
    OnesAre(w, TOT - n);
    hide Sum, Shares, Heaviest, Normalize;
    FillOnes(cnt, w, n);
    assert cnt[top] == cnt[..n][top] == 1;
    AddTo(cnt, n, top, TOT - n);
  }

  /** The proportional branch. */
  method Proportional(cnt: array<u32>, w: array<u64>, n: nat, sum: u64, top: nat)
    requires 1 <= n <= MAX_COUNTS && n <= cnt.Length && n <= w.Length && Weights(w[..n])
    requires sum == Sum(w[..n]) > 0 && top == Heaviest(w[..n]) < n
    modifies cnt
    ensures cnt[..n] == Normalize(old(w[..n]))
  {
    hide Sum, Shares, Heaviest, Normalize, Weights;
    ghost var ws: seq<nat> := w[..n];
    NormalizeIs(ws, Shares(ws, TOT - n, sum), top);
    var used := FillShares(cnt, w, n, TOT - n, sum);
    SumMember(cnt[..n], top);
    assert cnt[top] == cnt[..n][top];
    AddTo(cnt, n, top, TOT - used);
  }

  /** tq_ac_normalize. */
  method NormalizeCounts(cnt: array<u32>, w: array<u64>, n: nat)
    requires 1 <= n <= MAX_COUNTS && n <= cnt.Length && n <= w.Length
    requires Weights(w[..n])
    modifies cnt
    ensures cnt[..n] == Normalize(old(w[..n]))
  {
    hide Sum, Heaviest, Normalize, Weights;
    ghost var ws: seq<nat> := w[..n];
    var sum, top := SumAndHeaviest(w, n);
    if sum == 0 {
      Uniform(cnt, ws, n, top);
    } else {
      Proportional(cnt, w, n, sum, top);
    }
  }

  /** Cumulative count below index `i`. */
  method Cum(cnt: array<u32>, i: nat) returns (c: u32)
    requires i <= cnt.Length && Sum(cnt[..i]) <= TOT
    ensures c == Sum(cnt[..i])
  {
    c := 0;
    for k := 0 to i
      invariant c == Sum(cnt[..k])
    {
      SumMono(cnt[..i], k);
      assert cnt[..i][..k] == cnt[..k] && cnt[..i][..k + 1] == cnt[..k + 1];
      c := c + cnt[k];
    }
  }

  method FindSymbol(cnt: array<u32>, n: nat, target: u32) returns (i: nat, cum: u32)
    requires 1 <= n <= cnt.Length && Sum(cnt[..n]) <= TOT
    ensures i == Find(cnt[..n], target) < n
    ensures cum == Sum(cnt[..i])
  {
    ghost var cs: seq<nat> := cnt[..n];
    var c: u32 := 0;
    for k := 0 to n
      invariant c == Sum(cs[..k])
      invariant Find(cs, target) == FindFrom(cs, target, k)
    {
      SumMono(cs, k);
      assert cs[..k] == cnt[..k];
      if target < c + cnt[k] {
        return k, c;
      }
      c := c + cnt[k];
    }
    SumMono(cs, n - 1);
    assert cs[..n - 1] == cnt[..n - 1] && cs[..n] == cs;
    return n - 1, c - cnt[n - 1];
  }
}
