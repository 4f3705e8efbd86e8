/**
  Two-level coding of one token (core/src/tq_ac.c): which bucket of 128, then
  which symbol inside it, against counts rebuilt from the logits on both sides.

  Logits are values of an arbitrary type F. The comparison and the conversion
  of a logit difference to Q16 units are parameters, so everything here holds
  whatever the floats do, NaN included, as long as both sides do the same.
 */
module TokenCodec {
  import opened ByteStrings
  import opened CountTables
  import opened FixedExp2
  import opened Intervals
  import opened RangeDecoder
  import opened RangeEncoder
  import opened Words

  const BUCKET: nat := 128
  const MAX_VOCAB: nat := 65536

  /** `gt` is the C comparison a > b; `delta` is tq_ac_delta_q16(logit, max). */
  datatype LogitOps<!F> = LogitOps(gt: (F, F) -> bool, delta: (F, F) -> int32)

  function Buckets(vocab: nat): nat {
    (vocab + BUCKET - 1) / BUCKET
  }

  /** How many symbols bucket `b` has. */
  function BucketSize(vocab: nat, b: nat): (n: nat)
    requires b < Buckets(vocab)
    ensures 1 <= n <= BUCKET && b * BUCKET + n <= vocab
  {
    Min(vocab - b * BUCKET, BUCKET)
  }

  function BucketOf<F>(logits: seq<F>, b: nat): (s: seq<F>)
    requires b < Buckets(|logits|)
    ensures |s| == BucketSize(|logits|, b)
  {
    logits[b * BUCKET..b * BUCKET + BucketSize(|logits|, b)]
  }

  /** The running maximum of the scan: later values replace it only when greater. */
  function MaxOf<F>(ops: LogitOps<F>, s: seq<F>): F
    requires s != []
  {
    if |s| == 1 then s[0]
    else var m := MaxOf(ops, s[..|s| - 1]); if ops.gt(s[|s| - 1], m) then s[|s| - 1] else m
  }

  /** What C's > is on floats, NaN included: irreflexive and transitive. */
  ghost predicate Strict<F(!new)>(ops: LogitOps<F>) {
    && (forall a :: !ops.gt(a, a))
    && (forall a, b, c :: ops.gt(a, b) && ops.gt(b, c) ==> ops.gt(a, c))
  }

  /** The reference logit is one of the logits, and none is greater. */
  lemma {:induction false} MaxIsGreatest<F(!new)>(ops: LogitOps<F>, s: seq<F>) returns (k: nat)
    requires Strict(ops) && s != []
    ensures k < |s| && s[k] == MaxOf(ops, s)
    ensures forall i :: 0 <= i < |s| ==> !ops.gt(s[i], MaxOf(ops, s))
  {
    k := 0;
    if |s| > 1 {
      var t := s[..|s| - 1];
      k := MaxIsGreatest(ops, t);
      assert forall i :: 0 <= i < |t| ==> t[i] == s[i];
      if ops.gt(s[|t|], MaxOf(ops, t)) {
        k := |t|;
      }
    }
  }

  function Weigh<F>(ops: LogitOps<F>, x: F, max: F): (w: nat)
    ensures w <= ONE
  {
    var d := ops.delta(x, max);
    Exp2Bound(if d > 0 then 0 else d);
    Exp2(d)
  }

  function WeighAll<F>(ops: LogitOps<F>, s: seq<F>, max: F): (w: seq<nat>)
    ensures |w| == |s| && forall i :: 0 <= i < |s| ==> w[i] == Weigh(ops, s[i], max)
  {
    seq(|s|, i requires 0 <= i < |s| => Weigh(ops, s[i], max))
  }

  /** The mass of each bucket is the sum of its symbols' weights. */
  function BucketWeights<F>(ops: LogitOps<F>, logits: seq<F>): (w: seq<nat>)
    requires logits != []
    ensures |w| == Buckets(|logits|)
  {
    seq(Buckets(|logits|), b requires 0 <= b < Buckets(|logits|) =>
      Sum(WeighAll(ops, BucketOf(logits, b), MaxOf(ops, logits))))
  }

  function BucketCounts<F>(ops: LogitOps<F>, logits: seq<F>): (c: seq<nat>)
    requires 1 <= |logits| <= MAX_VOCAB
    ensures |c| == Buckets(|logits|)
  {
    Normalize(BucketWeights(ops, logits))
  }

  function SymbolCounts<F>(ops: LogitOps<F>, logits: seq<F>, b: nat): (c: seq<nat>)
    requires b < Buckets(|logits|)
    ensures |c| == BucketSize(|logits|, b)
  {
    var s := BucketOf(logits, b);
    Normalize(WeighAll(ops, s, MaxOf(ops, s)))
  }

  /** The two symbols that carry `token`. */
  function TokenSyms<F>(ops: LogitOps<F>, logits: seq<F>, token: nat): (s: seq<Sym>)
    requires |logits| <= MAX_VOCAB && token < |logits|
    ensures |s| == 2 && s[0].tot == s[1].tot == TOT
  {
    [SymOf(BucketCounts(ops, logits), token / BUCKET),
     SymOf(SymbolCounts(ops, logits, token / BUCKET), token % BUCKET)]
  }

  lemma TablesUsable<F>(ops: LogitOps<F>, logits: seq<F>, b: nat)
    requires 1 <= |logits| <= MAX_VOCAB && b < Buckets(|logits|)
    ensures Table(BucketCounts(ops, logits)) && Table(SymbolCounts(ops, logits, b))
  {
    NormalizeTable(BucketWeights(ops, logits));
    var s := BucketOf(logits, b);
    NormalizeTable(WeighAll(ops, s, MaxOf(ops, s)));
  }

  /** With the largest logit as reference some symbol weighs exactly one. */
  lemma ModeWeighsOne<F(!new)>(ops: LogitOps<F>, s: seq<F>) returns (k: nat)
    requires Strict(ops) && s != [] && ops.delta(MaxOf(ops, s), MaxOf(ops, s)) == 0
    ensures k < |s| && s[k] == MaxOf(ops, s) && WeighAll(ops, s, MaxOf(ops, s))[k] == ONE
    ensures forall i :: 0 <= i < |s| ==> !ops.gt(s[i], s[k])
  {
    k := MaxIsGreatest(ops, s);
    Exp2Bound(0);
  }

  /** The bucket of the likeliest token has at least that mass. */
  lemma ModeBucket<F(!new)>(ops: LogitOps<F>, logits: seq<F>) returns (k: nat)
    requires Strict(ops) && logits != [] && ops.delta(MaxOf(ops, logits), MaxOf(ops, logits)) == 0
    ensures k < |logits| && logits[k] == MaxOf(ops, logits)
    ensures forall i :: 0 <= i < |logits| ==> !ops.gt(logits[i], logits[k])
    ensures BucketWeights(ops, logits)[k / BUCKET] >= ONE
  {
    k := ModeWeighsOne(ops, logits);
    var b := k / BUCKET;
    var w := WeighAll(ops, BucketOf(logits, b), MaxOf(ops, logits));
    assert BucketOf(logits, b)[k % BUCKET] == logits[k];
    hide MaxOf, Weigh;
    assert w[k % BUCKET] == Weigh(ops, logits[k], MaxOf(ops, logits)) == ONE;
    SumMember(w, k % BUCKET);
  }

  /** The likeliest symbol of a bucket never gets less than an even share of the counts. */
  lemma ModeShare<F(!new)>(ops: LogitOps<F>, logits: seq<F>, b: nat) returns (k: nat)
    requires Strict(ops) && 1 <= |logits| <= MAX_VOCAB && b < Buckets(|logits|)
    requires var s := BucketOf(logits, b); ops.delta(MaxOf(ops, s), MaxOf(ops, s)) == 0
    ensures var s, c := BucketOf(logits, b), SymbolCounts(ops, logits, b);
      k < |s| && (forall i :: 0 <= i < |s| ==> !ops.gt(s[i], s[k])) && (c[k] + 1) * |s| > TOT
  {
    hide MaxOf, Weigh, WeighAll, Strict, SymbolCounts, BucketOf, Normalize;
    var s := BucketOf(logits, b);
    k := ModeWeighsOne(ops, s);
    var w := WeighAll(ops, s, MaxOf(ops, s));
    SymbolCountsAre(ops, logits, b);
    EvenCounts(w, k);
  }

  lemma SymbolCountsAre<F>(ops: LogitOps<F>, logits: seq<F>, b: nat)
    requires b < Buckets(|logits|)
    ensures var s := BucketOf(logits, b);
      1 <= |s| <= BUCKET && SymbolCounts(ops, logits, b) == Normalize(WeighAll(ops, s, MaxOf(ops, s)))
  {
  }

  lemma EvenCounts(w: seq<nat>, k: nat)
    requires 1 <= |w| <= BUCKET && k < |w| && w[k] == ONE && forall i :: 0 <= i < |w| ==> w[i] <= ONE
    ensures (Normalize(w)[k] + 1) * |w| > TOT
  {
    SumMember(w, k);
    SumBound(w, ONE);
    NormalizeProportion(w, k);
    hide Normalize, Sum;
    EvenShare(Sum(w), |w|, Normalize(w)[k]);
  }

  lemma EvenShare(sum: nat, n: nat, c: nat)
    requires sum <= n * ONE && ONE * (TOT - n) < c * sum
    ensures (c + 1) * n > TOT
  {
    MulMono(c, sum, n * ONE);
    assert c * (n * ONE) == ONE * (c * n);
    assert (c + 1) * n == c * n + n;
  }

  /** A symbol that lies closer to the reference weighs no less, and with more weight gets no fewer counts. */
  lemma CountsFollowLogits<F>(ops: LogitOps<F>, logits: seq<F>, b: nat, i: nat, j: nat)
    requires b < Buckets(|logits|) && i < BucketSize(|logits|, b) && j < BucketSize(|logits|, b)
    requires var s := BucketOf(logits, b); ops.delta(s[i], MaxOf(ops, s)) <= ops.delta(s[j], MaxOf(ops, s))
    ensures var s, c := BucketOf(logits, b), SymbolCounts(ops, logits, b);
      var w := WeighAll(ops, s, MaxOf(ops, s));
      w[i] <= w[j] && (w[i] < w[j] ==> c[i] <= c[j])
  {
    var s := BucketOf(logits, b);
    var w := WeighAll(ops, s, MaxOf(ops, s));
    var x, y := ops.delta(s[i], MaxOf(ops, s)), ops.delta(s[j], MaxOf(ops, s));
    hide *;
    WeighIs(ops, s[i], MaxOf(ops, s));
    WeighIs(ops, s[j], MaxOf(ops, s));
    Exp2Monotone(if x > 0 then 0 else x, if y > 0 then 0 else y);
    if w[i] < w[j] {
      NormalizeOrder(w, i, j);
    }
  }

  lemma WeighIs<F>(ops: LogitOps<F>, x: F, max: F)
    ensures var d := ops.delta(x, max); Weigh(ops, x, max) == Exp2(if d > 0 then 0 else d)
  {
  }

  lemma TokenSymsCodeable<F>(ops: LogitOps<F>, logits: seq<F>, token: nat)
    requires |logits| <= MAX_VOCAB && token < |logits|
    ensures AllCodeable(TokenSyms(ops, logits, token))
  {
    hide BucketCounts, SymbolCounts, SymOf;
    TablesUsable(ops, logits, token / BUCKET);
    SymOfCodeable(BucketCounts(ops, logits), token / BUCKET);
    SymOfCodeable(SymbolCounts(ops, logits, token / BUCKET), token % BUCKET);
  }

  /** Decode one token: two targets, each looked up in the table it was coded against. */
  function DecodeToken<F>(ops: LogitOps<F>, logits: seq<F>, bytes: seq<byte>, d: Dec): (r: (nat, Dec))
    requires 1 <= |logits| <= MAX_VOCAB && d.Normal()
    ensures r.0 < |logits| && r.1.Normal()
  {
    var b := DecodeIndex(BucketCounts(ops, logits), d);
    TablesUsable(ops, logits, b);
    DecodeIndexUsable(BucketCounts(ops, logits), d);
    var d1 := Update(bytes, d, SymOf(BucketCounts(ops, logits), b));
    var s := DecodeIndex(SymbolCounts(ops, logits, b), d1);
    DecodeIndexUsable(SymbolCounts(ops, logits, b), d1);
    (b * BUCKET + s, Update(bytes, d1, SymOf(SymbolCounts(ops, logits, b), s)))
  }

  function DecodeIndex(c: seq<nat>, d: Dec): (i: nat)
    requires c != [] && d.Normal()
    ensures i < |c|
  {
    Find(c, Target(d, TOT))
  }

  lemma DecodeIndexUsable(c: seq<nat>, d: Dec)
    requires Table(c) && d.Normal()
    ensures SymOf(c, DecodeIndex(c, d)).Codeable()
    ensures SymOf(c, DecodeIndex(c, d)).Owns(Target(d, TOT))
  {
    SymOfCodeable(c, DecodeIndex(c, d));
    FindInverse(c, Target(d, TOT), DecodeIndex(c, d));
  }

  /** If the targets fall in the slices of `token`, that is the token decoded. */
  lemma DecodeTokenInverts<F>(ops: LogitOps<F>, logits: seq<F>, bytes: seq<byte>, d: Dec, token: nat)
    requires |logits| <= MAX_VOCAB && token < |logits| && d.Normal()
    requires var s := TokenSyms(ops, logits, token);
      && s[0].Codeable() && s[0].Owns(Target(d, TOT))
      && s[1].Owns(Target(Update(bytes, d, s[0]), TOT))
    ensures AllCodeable(TokenSyms(ops, logits, token))
    ensures var s := TokenSyms(ops, logits, token);
      DecodeToken(ops, logits, bytes, d) == (token, Update(bytes, Update(bytes, d, s[0]), s[1]))
  {
    hide BucketCounts, SymbolCounts, Target, Update, Find;
    var b, k := token / BUCKET, token % BUCKET;
    var bc, sc := BucketCounts(ops, logits), SymbolCounts(ops, logits, b);
    TokenSymsCodeable(ops, logits, token);
    TablesUsable(ops, logits, b);
    FindInverse(bc, Target(d, TOT), b);
    FindInverse(sc, Target(Update(bytes, d, SymOf(bc, b)), TOT), k);
  }

  /** The part of bucket `b`'s mass that the first `i` tokens contribute. */
  function Mass<F>(ops: LogitOps<F>, logits: seq<F>, max: F, b: nat, i: nat): nat
    requires b < Buckets(|logits|)
  {
    var w := WeighAll(ops, BucketOf(logits, b), max);
    Sum(w[..if i <= b * BUCKET then 0 else Min(i - b * BUCKET, |w|)])
  }

  lemma MassStep<F>(ops: LogitOps<F>, logits: seq<F>, max: F, b: nat, i: nat)
    requires b < Buckets(|logits|) && i < |logits|
    ensures Mass(ops, logits, max, b, i + 1)
         == Mass(ops, logits, max, b, i) + if b == i / BUCKET then Weigh(ops, logits[i], max) else 0
  {
    hide Sum, Weigh;
    var w := WeighAll(ops, BucketOf(logits, b), max);
    if b == i / BUCKET {
      var k := i - b * BUCKET;
      assert w[k] == Weigh(ops, logits[i], max);
      hide *;
      SumMono(w, k);
    }
  }

  lemma MassBound<F>(ops: LogitOps<F>, logits: seq<F>, max: F, b: nat, i: nat)
    requires b < Buckets(|logits|)
    ensures Mass(ops, logits, max, b, i) <= MAX_WEIGHT
  {
    var w := WeighAll(ops, BucketOf(logits, b), max);
    var k := if i <= b * BUCKET then 0 else Min(i - b * BUCKET, |w|);
    SumBound(w[..k], ONE);
    MulMono(ONE, k, BUCKET);
  }

  /** All of bucket `b`'s tokens are among the first |logits|. */
  lemma MassWhole<F>(ops: LogitOps<F>, logits: seq<F>, max: F, b: nat)
    requires b < Buckets(|logits|)
    ensures Mass(ops, logits, max, b, |logits|) == Sum(WeighAll(ops, BucketOf(logits, b), max))
  {
    var w := WeighAll(ops, BucketOf(logits, b), max);
    assert w[..|w|] == w;
  }

  lemma {:induction false} SumConcat(a: seq<nat>, b: seq<nat>)
    ensures Sum(a + b) == Sum(a) + Sum(b)
  {
    if b == [] {
      assert a + b == a;
    } else {
      SumConcat(a, b[..|b| - 1]);
      assert (a + b)[..|a + b| - 1] == a + b[..|b| - 1];
    }
  }

  lemma {:induction false} MassUpTo<F>(ops: LogitOps<F>, logits: seq<F>, n: nat)
    requires logits != [] && n <= Buckets(|logits|)
    ensures Sum(BucketWeights(ops, logits)[..n])
         == Sum(WeighAll(ops, logits, MaxOf(ops, logits))[..Min(n * BUCKET, |logits|)])
  {
    hide MaxOf, Weigh, WeighAll, BucketWeights, BucketOf;
    var w, m := BucketWeights(ops, logits), WeighAll(ops, logits, MaxOf(ops, logits));
    if n > 0 {
      hide Sum;
      MassUpTo(ops, logits, n - 1);
      MassOfBucket(ops, logits, n - 1);
      var at := (n - 1) * BUCKET;
      SumConcat(m[..at], WeighAll(ops, BucketOf(logits, n - 1), MaxOf(ops, logits)));
      SumLast(w[..n]);
      assert w[..n][..n - 1] == w[..n - 1];
    }
  }

  lemma MassOfBucket<F>(ops: LogitOps<F>, logits: seq<F>, b: nat)
    requires logits != [] && b < Buckets(|logits|)
    ensures b * BUCKET <= |logits|
    ensures var part := WeighAll(ops, BucketOf(logits, b), MaxOf(ops, logits));
      && BucketWeights(ops, logits)[b] == Sum(part)
      && WeighAll(ops, logits, MaxOf(ops, logits))[..Min((b + 1) * BUCKET, |logits|)]
         == WeighAll(ops, logits, MaxOf(ops, logits))[..b * BUCKET] + part
  {
    hide MaxOf, Weigh, Sum;
  }

  lemma SumLast(s: seq<nat>)
    requires s != []
    ensures Sum(s) == Sum(s[..|s| - 1]) + s[|s| - 1]
  {
  }

  /** No token's weight is lost and none counted twice: the buckets add up to the whole. */
  lemma MassConserved<F>(ops: LogitOps<F>, logits: seq<F>)
    requires logits != []
    ensures Sum(BucketWeights(ops, logits)) == Sum(WeighAll(ops, logits, MaxOf(ops, logits)))
  {
    var w, m := BucketWeights(ops, logits), WeighAll(ops, logits, MaxOf(ops, logits));
    MassUpTo(ops, logits, Buckets(|logits|));
    assert w[..|w|] == w && m[..|m|] == m;
  }

  lemma MassesAt0<F>(ops: LogitOps<F>, logits: seq<F>, max: F)
    ensures forall b :: 0 <= b < Buckets(|logits|) ==> Mass(ops, logits, max, b, 0) == 0
  {
  }

  lemma MassesStep<F>(ops: LogitOps<F>, logits: seq<F>, max: F, i: nat)
    requires i < |logits|
    ensures forall b :: 0 <= b < Buckets(|logits|) ==>
      Mass(ops, logits, max, b, i + 1)
      == Mass(ops, logits, max, b, i) + if b == i / BUCKET then Weigh(ops, logits[i], max) else 0
  {
    forall b | 0 <= b < Buckets(|logits|)
      ensures Mass(ops, logits, max, b, i + 1)
           == Mass(ops, logits, max, b, i) + if b == i / BUCKET then Weigh(ops, logits[i], max) else 0
    {
      MassStep(ops, logits, max, b, i);
    }
  }

  lemma MassesWhole<F>(ops: LogitOps<F>, logits: seq<F>, max: F)
    requires logits != [] && max == MaxOf(ops, logits)
    ensures forall b :: 0 <= b < Buckets(|logits|) ==>
      Mass(ops, logits, max, b, |logits|) == BucketWeights(ops, logits)[b] <= MAX_WEIGHT
  {
    forall b | 0 <= b < Buckets(|logits|)
      ensures Mass(ops, logits, max, b, |logits|) == BucketWeights(ops, logits)[b] <= MAX_WEIGHT
    {
      MassWhole(ops, logits, max, b);
      MassBound(ops, logits, max, b, |logits|);
    }
  }

  method ScanMax<F>(ops: LogitOps<F>, s: seq<F>) returns (max: F)
    requires s != []
    ensures max == MaxOf(ops, s)
  {
    max := s[0];
    for i := 1 to |s|
      invariant max == MaxOf(ops, s[..i])
    {
      assert s[..i + 1][..i] == s[..i];
      if ops.gt(s[i], max) {
        max := s[i];
      }
    }
    assert s[..|s|] == s;
  }

  /** The table object. Its arrays may hold anything on entry to any method. */
  class AcModel<F> {
    const vocab: nat
    const nbuckets: nat
    var bucket: int
    const bcnt: array<u32>
    const scnt: array<u32>
    const w: array<u64>

    ghost predicate Valid() {
      && 1 <= vocab <= MAX_VOCAB && nbuckets == Buckets(vocab)
      && bcnt.Length == MAX_COUNTS && scnt.Length == BUCKET && w.Length == MAX_COUNTS
      && bcnt != scnt
    }

    ghost function Footprint(): set<object> {
      {this as object, bcnt as object, scnt as object, w as object}
    }

    constructor (vocab: nat)
      requires 1 <= vocab <= MAX_VOCAB
      ensures Valid() && this.vocab == vocab && bucket == -1
      ensures fresh(bcnt) && fresh(scnt) && fresh(w)
    {
      this.vocab, nbuckets, bucket := vocab, Buckets(vocab), -1;
      bcnt, scnt, w := new u32[MAX_COUNTS](_ => 0), new u32[BUCKET](_ => 0), new u64[MAX_COUNTS](_ => 0);
    }

    /** tq_ac_model_init: null stands for the range error. */
    static method Init(vocab: int) returns (pm: AcModel?<F>)
      ensures pm == null <==> vocab < 1 || vocab > MAX_VOCAB
      ensures pm != null ==> fresh(pm) && pm.Valid() && pm.vocab == vocab && pm.bucket == -1
    {
      if vocab < 1 || vocab > MAX_VOCAB {
        return null;
      }
      pm := new AcModel(vocab);
    }

    method ClearWeights()
      requires Valid()
      modifies w
      ensures forall b :: 0 <= b < nbuckets ==> w[b] == 0
    {
      for b := 0 to nbuckets
        invariant forall k :: 0 <= k < b ==> w[k] == 0
      {
        w[b] := 0;
      }
    }

    /** Token `i` adds its weight to its own bucket and no other. */
    method AddWeight(ops: LogitOps<F>, logits: seq<F>, max: F, i: nat)
      requires Valid() && |logits| == vocab && i < vocab
      requires forall b :: 0 <= b < nbuckets ==> w[b] == Mass(ops, logits, max, b, i)
      modifies w
      ensures forall b :: 0 <= b < nbuckets ==> w[b] == Mass(ops, logits, max, b, i + 1)
    {
      MassBound(ops, logits, max, i / BUCKET, i);
      MassesStep(ops, logits, max, i);
      hide Mass;
      var x := Exp2Q24(ops.delta(logits[i], max));
      assert x == Weigh(ops, logits[i], max);
      hide Weigh;
      w[i / BUCKET] := w[i / BUCKET] + x;
    }

    method SumBuckets(ops: LogitOps<F>, logits: seq<F>, max: F)
      requires Valid() && |logits| == vocab && max == MaxOf(ops, logits)
      modifies w
      ensures w[..nbuckets] == BucketWeights(ops, logits) && Weights(w[..nbuckets])
    {
      ClearWeights();
      MassesAt0(ops, logits, max);
      hide Mass, BucketWeights;
      for i := 0 to vocab
        invariant forall b :: 0 <= b < nbuckets ==> w[b] == Mass(ops, logits, max, b, i)
      {
        AddWeight(ops, logits, max, i);
      }
      MassesWhole(ops, logits, max);
    }

    method CountBuckets(ops: LogitOps<F>, logits: seq<F>)
      requires Valid() && |logits| == vocab
      modifies bcnt, w
      ensures bcnt[..nbuckets] == BucketCounts(ops, logits)
    {
      var max := ScanMax(ops, logits);
      SumBuckets(ops, logits, max);
      hide Normalize, BucketWeights;
      NormalizeCounts(bcnt, w, nbuckets);
    }

    method WeighBucket(ops: LogitOps<F>, s: seq<F>, max: F)
      requires Valid() && 1 <= |s| <= BUCKET
      modifies w
      ensures w[..|s|] == WeighAll(ops, s, max) && Weights(w[..|s|])
    {
      for i := 0 to |s|
        invariant forall k :: 0 <= k < i ==> w[k] == Weigh(ops, s[k], max)
      {
        var x := Exp2Q24(ops.delta(s[i], max));
        w[i] := x;
      }
    }

    method CountSymbols(ops: LogitOps<F>, logits: seq<F>, b: nat)
      requires Valid() && |logits| == vocab && b < nbuckets
      modifies this`bucket, scnt, w
      ensures bucket == b && scnt[..BucketSize(vocab, b)] == SymbolCounts(ops, logits, b)
    {
      var base := b * BUCKET;
      var n := vocab - base;
      if n > BUCKET {
        n := BUCKET;
      }
      var s := logits[base..base + n];
      assert n == BucketSize(vocab, b) && s == BucketOf(logits, b);
      hide Normalize, WeighAll, MaxOf, BucketSize, BucketOf;
      var max := ScanMax(ops, s);
      WeighBucket(ops, s, max);
      NormalizeCounts(scnt, w, n);
      bucket := b;
    }

    /** The bucket's symbol against the table of buckets ... */
    method EncBucket(e: Encoder, ops: LogitOps<F>, logits: seq<F>, b: nat)
      requires Valid() && e.Valid() && |logits| == vocab && b < nbuckets
      modifies bcnt, w, e, e.buf
      ensures e.Valid() && b < |BucketCounts(ops, logits)| && SymOf(BucketCounts(ops, logits), b).Codeable()
      ensures e.iv == Narrow(old(e.iv), SymOf(BucketCounts(ops, logits), b))
    {
      hide Narrow, BucketCounts, SymbolCounts, Table, SymOf, Sum, Normalize, Encoder.Valid;
      TablesUsable(ops, logits, b);
      CountBuckets(ops, logits);
      EncSymbol(e, bcnt, nbuckets, b);
    }

    /** ... and the token's own against the table of its bucket. */
    method EncWithin(e: Encoder, ops: LogitOps<F>, logits: seq<F>, b: nat, s: nat)
      requires Valid() && e.Valid() && |logits| == vocab && b < nbuckets && s < BucketSize(vocab, b)
      modifies this`bucket, scnt, w, e, e.buf
      ensures e.Valid() && s < |SymbolCounts(ops, logits, b)| && SymOf(SymbolCounts(ops, logits, b), s).Codeable()
      ensures e.iv == Narrow(old(e.iv), SymOf(SymbolCounts(ops, logits, b), s))
    {
      hide Narrow, BucketCounts, SymbolCounts, Table, SymOf, Sum, Normalize, Encoder.Valid;
      TablesUsable(ops, logits, b);
      CountSymbols(ops, logits, b);
      EncSymbol(e, scnt, BucketSize(vocab, b), s);
    }

    /** Coding a token narrows the exact interval by its two symbols, or is refused. */
    method EncToken(e: Encoder, ops: LogitOps<F>, logits: seq<F>, token: int) returns (ok: bool)
      requires Valid() && e.Valid() && |logits| == vocab
      modifies this`bucket, bcnt, scnt, w, e, e.buf
      ensures e.Valid() && ok == (0 <= token < vocab)
      ensures !ok ==> e.iv == old(e.iv)
      ensures ok ==> AllCodeable(TokenSyms(ops, logits, token))
      ensures ok ==> e.iv == NarrowAll(old(e.iv), TokenSyms(ops, logits, token))
    {
      if token < 0 || token >= vocab {
        return false;
      }
      ok := true;
      var b, s := token / BUCKET, token % BUCKET;
      hide NarrowAll, Narrow, BucketCounts, SymbolCounts, SymOf, Encoder.Valid;
      TokenSymsCodeable(ops, logits, token);
      EncBucket(e, ops, logits, b);
      EncWithin(e, ops, logits, b, s);
      NarrowTwo(old(e.iv), TokenSyms(ops, logits, token));
    }

    /** The range check on the way out never fires: every decoded token is in the vocabulary. */
    method DecToken(d: Decoder, ops: LogitOps<F>, logits: seq<F>) returns (token: int)
      requires Valid() && d.Valid() && |logits| == vocab
      modifies this`bucket, bcnt, scnt, w, d
      ensures d.Valid() && d.Bytes() == old(d.Bytes()) && 0 <= token < vocab
      ensures (token, d.State()) == DecodeToken(ops, logits, d.Bytes(), old(d.State()))
    {
      hide Normalize, BucketCounts, SymbolCounts, DecodeIndex, Update, Target, DecodeToken;
      hide Table, SymOf, Sum;
      TablesUsable(ops, logits, 0);
      ghost var d0, bytes := d.State(), d.Bytes();
      CountBuckets(ops, logits);
      var b := DecSymbol(d, bcnt, nbuckets);
      ghost var d1 := d.State();
      TablesUsable(ops, logits, b);
      CountSymbols(ops, logits, b);
      var n := vocab - b * BUCKET;
      if n > BUCKET {
        n := BUCKET;
      }
      assert n == BucketSize(vocab, b);
      hide BucketSize;
      var s := DecSymbol(d, scnt, n);
      DecodeTokenIs(ops, logits, bytes, d0, b, d1, s);
      token := b * BUCKET + s;
      token := if token < vocab then token else ERR_TRUNCATED;
    }
  }

  lemma DecodeTokenIs<F>(ops: LogitOps<F>, logits: seq<F>, bytes: seq<byte>, d: Dec, b: nat, d1: Dec, s: nat)
    requires 1 <= |logits| <= MAX_VOCAB && d.Normal() && d1.Normal()
    requires b == DecodeIndex(BucketCounts(ops, logits), d)
    requires SymOf(BucketCounts(ops, logits), b).Codeable() && SymOf(BucketCounts(ops, logits), b).Owns(Target(d, TOT))
    requires d1 == Update(bytes, d, SymOf(BucketCounts(ops, logits), b))
    requires s == DecodeIndex(SymbolCounts(ops, logits, b), d1)
    requires SymOf(SymbolCounts(ops, logits, b), s).Codeable() && SymOf(SymbolCounts(ops, logits, b), s).Owns(Target(d1, TOT))
    ensures DecodeToken(ops, logits, bytes, d)
         == (b * BUCKET + s, Update(bytes, d1, SymOf(SymbolCounts(ops, logits, b), s)))
  {
    hide Update, Target, BucketCounts, SymbolCounts, DecodeIndex, SymOf, Buckets;
  }

  /** Target, search, update against one table. */
  method DecSymbol(d: Decoder, cnt: array<u32>, n: nat) returns (i: nat)
    requires d.Valid() && n <= cnt.Length && Table(cnt[..n])
    modifies d
    ensures d.Valid() && d.Bytes() == old(d.Bytes())
    ensures i == DecodeIndex(cnt[..n], old(d.State())) < n
    ensures SymOf(cnt[..n], i).Codeable() && SymOf(cnt[..n], i).Owns(Target(old(d.State()), TOT))
    ensures d.State() == Update(d.Bytes(), old(d.State()), SymOf(cnt[..n], i))
  {
    ghost var c: seq<nat> := cnt[..n];
    DecodeIndexUsable(c, d.State());
    var target := d.DecTarget(TOT);
    var cum;
    i, cum := FindSymbol(cnt, n, target);
    assert cnt[..i] == c[..i];
    d.DecUpdate(cum, cnt[i], TOT);
  }

  /** Cumulative count, then code, against one table. */
  method EncSymbol(e: Encoder, cnt: array<u32>, n: nat, i: nat)
    requires e.Valid() && i < n <= cnt.Length && Table(cnt[..n])
    modifies e, e.buf
    ensures e.Valid() && SymOf(cnt[..n], i).Codeable()
    ensures cnt[..n] == old(cnt[..n])
    ensures e.iv == Narrow(old(e.iv), SymOf(cnt[..n], i))
  {
    ghost var c: seq<nat> := cnt[..n];
    SymOfCodeable(c, i);
    SumMono(c, i);
    assert cnt[..i] == c[..i];
    var cum := Cum(cnt, i);
    e.EncSym(cum, cnt[i], TOT);
  }

  lemma NarrowTwo(iv: Interval, s: seq<Sym>)
    requires iv.Normal() && |s| == 2 && AllCodeable(s)
    ensures Narrow(iv, s[0]).Normal()
    ensures NarrowAll(iv, s) == Narrow(Narrow(iv, s[0]), s[1])
  {
    NarrowNormal(iv, s[0]);
    NarrowNormal(Narrow(iv, s[0]), s[1]);
    var m := Narrow(iv, s[0]);
    assert NarrowAll(m, s[1..]) == NarrowAll(Narrow(m, s[1..][0]), s[1..][1..]);
  }
}
