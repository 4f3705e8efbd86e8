/**
  The block dot products of core/src/tq_kernels.c: the portable loops and the
  Cortex-M7 loops (SSUB8, SXTB16, SMLAD: section A7.7 of the ARMv7-M
  Architecture Reference Manual) against one sum over the unpacked values.

  Float operations and the half-precision conversion are parameters.
 */
module DotKernels {
  import opened Words
  import Intervals

  type half = x: int | 0 <= x < 0x1_0000

  const GROUP: nat := 32

  datatype FloatOps<!F> = FloatOps(zero: F, add: (F, F) -> F, mul: (F, F) -> F, ofInt: int -> F, ofHalf: half -> F)

  /** Q8_0: a scale and 32 int8 values, as their bytes. */
  datatype Q80 = Q80(d: half, qs: seq<byte>) {
    predicate Valid() { |qs| == GROUP }
  }

  /** Q4_0: a scale and 32 nibbles, split: element j low in byte j, element j + 16 high. */
  datatype Q40 = Q40(d: half, qs: seq<byte>) {
    predicate Valid() { |qs| == GROUP / 2 }
  }

  /** A block unpacked. */
  datatype Block = Block(d: half, vals: seq<int>)

  function Signed(b: byte): (r: int)
    ensures -128 <= r < 128
  {
    if b < 128 then b else b - 256
  }

  function Unpack80(w: Q80): (r: Block)
    requires w.Valid()
    ensures Usable(r)
  {
    Block(w.d, seq(GROUP, j requires 0 <= j < GROUP => Signed(w.qs[j])))
  }

  function Low(b: byte): (r: int)
    ensures -8 <= r < 8
  {
    b as int % 16 - 8
  }

  function High(b: byte): (r: int)
    ensures -8 <= r < 8
  {
    b as int / 16 - 8
  }

  function Unpack40(w: Q40): (r: Block)
    requires w.Valid()
    ensures Usable(r)
  {
    Block(w.d, seq(GROUP, j requires 0 <= j < GROUP => if j < 16 then Low(w.qs[j]) else High(w.qs[j - 16])))
  }

  ghost predicate Usable(b: Block) {
    |b.vals| == GROUP && forall j :: 0 <= j < GROUP ==> -128 <= b.vals[j] < 128
  }

  function Mul(a: int, b: int): int {
    a * b
  }

  /** sum of a[i] * b[i] for lo <= i < hi. */
  function IntDot(a: seq<int>, b: seq<int>, lo: nat, hi: nat): int
    requires lo <= hi <= |a| && hi <= |b|
    decreases hi - lo
  {
    if hi == lo then 0 else IntDot(a, b, lo, hi - 1) + Mul(a[hi - 1], b[hi - 1])
  }

  /** What both backends return: one scaled int32 sum per block, in block order. */
  function Dot<F>(ops: FloatOps<F>, w: seq<Block>, x: seq<Block>): F
    requires |w| == |x|
    requires forall b :: 0 <= b < |w| ==> |w[b].vals| == |x[b].vals| == GROUP
  {
    if w == [] then ops.zero
    else
      var n := |w| - 1;
      ops.add(Dot(ops, w[..n], x[..n]), Term(ops, w[n], x[n]))
  }

  function Term<F>(ops: FloatOps<F>, w: Block, x: Block): F
    requires |w.vals| == |x.vals| == GROUP
  {
    ops.mul(ops.mul(ops.ofInt(IntDot(w.vals, x.vals, 0, GROUP)), ops.ofHalf(w.d)), ops.ofHalf(x.d))
  }

  lemma NatMulBound(a: nat, b: nat)
    requires a <= 128 && b <= 128
    ensures 0 <= a * b <= 16384
  {
    Intervals.MulMono(b, a, 128);
    Intervals.MulMono(128, b, 128);
  }

  lemma MulBound(a: int, b: int)
    requires -128 <= a <= 128 && -128 <= b <= 128
    ensures -16384 <= Mul(a, b) <= 16384
  {
    var p, q := if a < 0 then -a else a, if b < 0 then -b else b;
    NatMulBound(p, q);
    assert a * b == p * q || a * b == -(p * q);
  }

  /** The int32 accumulator has room to spare. */
  lemma {:induction false} IntDotBound(w: Block, x: Block, lo: nat, hi: nat)
    requires Usable(w) && Usable(x) && lo <= hi <= GROUP
    ensures -16384 * (hi - lo) <= IntDot(w.vals, x.vals, lo, hi) <= 16384 * (hi - lo)
    decreases hi - lo
  {
    if lo < hi {
      IntDotBound(w, x, lo, hi - 1);
      MulBound(w.vals[hi - 1], x.vals[hi - 1]);
    }
  }

  lemma {:induction false} IntDotSplit(a: seq<int>, b: seq<int>, lo: nat, mid: nat, hi: nat)
    requires lo <= mid <= hi <= |a| && hi <= |b|
    ensures IntDot(a, b, lo, hi) == IntDot(a, b, lo, mid) + IntDot(a, b, mid, hi)
    decreases hi - mid
  {
    if mid < hi {
      IntDotSplit(a, b, lo, mid, hi - 1);
    }
  }

  // ------------------------------------------------------- 32-bit registers

  /** A register as its four bytes, least significant first. */
  datatype Word = Word(b0: byte, b1: byte, b2: byte, b3: byte)

  function Load(s: seq<byte>, k: nat): Word
    requires k + 4 <= |s|
  {
    Word(s[k], s[k + 1], s[k + 2], s[k + 3])
  }

  function Value(w: Word): nat {
    w.b0 + 256 * (w.b1 + 256 * (w.b2 + 256 * w.b3))
  }

  function ShiftRight8(w: Word): Word {
    Word(w.b1, w.b2, w.b3, 0)
  }

  /** A byte after the shift: its own high nibble, below the low nibble of the next byte. */
  function ShiftedByte(b: byte, next: byte): byte {
    b as int / 16 + next as int % 16 * 16
  }

  function ShiftRight4(w: Word): Word {
    Word(ShiftedByte(w.b0, w.b1), ShiftedByte(w.b1, w.b2), ShiftedByte(w.b2, w.b3), ShiftedByte(w.b3, 0))
  }

  /** The byte view of a shift is the shift. */
  lemma ShiftsAreDivisions(w: Word)
    ensures Value(ShiftRight8(w)) == Value(w) / 256
    ensures Value(ShiftRight4(w)) == Value(w) / 16
  {
    Nibble(w.b0);
    Nibble(w.b1);
    Nibble(w.b2);
    Nibble(w.b3);
  }

  lemma Nibble(b: byte)
    ensures b == b / 16 * 16 + b % 16
  {
  }

  /** w & 0x0F0F0F0F. */
  function LowNibbles(w: Word): Word {
    Word(LowNibble(w.b0), LowNibble(w.b1), LowNibble(w.b2), LowNibble(w.b3))
  }

  function LowNibble(b: byte): byte {
    b as int % 16
  }

  const EIGHTS := Word(8, 8, 8, 8)

  function SubByte(a: byte, b: byte): byte {
    (a as int + 256 - b as int) % 256
  }

  function Ssub8(a: Word, b: Word): Word {
    Word(SubByte(a.b0, b.b0), SubByte(a.b1, b.b1), SubByte(a.b2, b.b2), SubByte(a.b3, b.b3))
  }

  /** Sign-extends bytes 0 and 2 to halfwords. */
  function Sxtb16(w: Word): Word {
    Word(w.b0, if w.b0 < 128 then 0 else 255, w.b2, if w.b2 < 128 then 0 else 255)
  }

  function SignedHalf(lo: byte, hi: byte): int {
    lo + 256 * Signed(hi)
  }

  function Wrap(x: int): (r: int32)
  {
    (x + 0x8000_0000) % 0x1_0000_0000 - 0x8000_0000
  }

  function Smlad(a: Word, b: Word, acc: int32): int32 {
    Wrap(Mul(SignedHalf(a.b0, a.b1), SignedHalf(b.b0, b.b1)) + Mul(SignedHalf(a.b2, a.b3), SignedHalf(b.b2, b.b3)) + acc)
  }

  /** With sign-extended bytes and a small accumulator SMLAD adds two exact products. */
  lemma SmladExact(a: Word, b: Word, acc: int32)
    requires -0x100_0000 <= acc <= 0x100_0000
    ensures Smlad(Sxtb16(a), Sxtb16(b), acc) == acc + Mul(Signed(a.b0), Signed(b.b0)) + Mul(Signed(a.b2), Signed(b.b2))
  {
    hide Mul;
    assert SignedHalf(Sxtb16(a).b0, Sxtb16(a).b1) == Signed(a.b0) && SignedHalf(Sxtb16(a).b2, Sxtb16(a).b3) == Signed(a.b2);
    assert SignedHalf(Sxtb16(b).b0, Sxtb16(b).b1) == Signed(b.b0) && SignedHalf(Sxtb16(b).b2, Sxtb16(b).b3) == Signed(b.b2);
    MulBound(Signed(a.b0), Signed(b.b0));
    MulBound(Signed(a.b2), Signed(b.b2));
  }

  lemma NibbleMinusEight(n: byte)
    requires n < 16
    ensures 0 <= (n as int + 256 - 8) % 256 < 256 && Signed((n as int + 256 - 8) % 256) == n as int - 8
  {
  }

  /** Four elements of a dot product, from the start of the four. */
  lemma FourMore(a: seq<int>, b: seq<int>, lo: nat, j: nat)
    requires lo <= j && j + 4 <= |a| && j + 4 <= |b|
    ensures IntDot(a, b, lo, j + 4)
         == IntDot(a, b, lo, j) + Mul(a[j], b[j]) + Mul(a[j + 1], b[j + 1]) + Mul(a[j + 2], b[j + 2]) + Mul(a[j + 3], b[j + 3])
  {
    hide Mul;
    assert IntDot(a, b, lo, j + 1) == IntDot(a, b, lo, j) + Mul(a[j], b[j]);
    assert IntDot(a, b, lo, j + 2) == IntDot(a, b, lo, j + 1) + Mul(a[j + 1], b[j + 1]);
    assert IntDot(a, b, lo, j + 3) == IntDot(a, b, lo, j + 2) + Mul(a[j + 2], b[j + 2]);
  }

  /** Two SMLADs on the even and the odd bytes of two registers. */
  function SmladPair(a: Word, b: Word, acc: int32): int32 {
    Smlad(Sxtb16(ShiftRight8(a)), Sxtb16(ShiftRight8(b)), Smlad(Sxtb16(a), Sxtb16(b), acc))
  }

  lemma SmladPairExact(a: Word, b: Word, acc: int32)
    requires -0xF0_0000 <= acc <= 0xF0_0000
    ensures SmladPair(a, b, acc)
         == acc + Mul(Signed(a.b0), Signed(b.b0)) + Mul(Signed(a.b1), Signed(b.b1)) + Mul(Signed(a.b2), Signed(b.b2)) + Mul(Signed(a.b3), Signed(b.b3))
  {
    hide Mul, Smlad, Sxtb16, Signed;
    SmladExact(a, b, acc);
    MulBound(Signed(a.b0), Signed(b.b0));
    MulBound(Signed(a.b2), Signed(b.b2));
    SmladExact(ShiftRight8(a), ShiftRight8(b), Smlad(Sxtb16(a), Sxtb16(b), acc));
  }

  // ------------------------------------------------------------ block loops

  /** The first `j` elements of both halves. */
  ghost function Halves(w: Block, x: Block, j: nat): int
    requires Usable(w) && Usable(x) && j <= 16
  {
    IntDot(w.vals, x.vals, 0, j) + IntDot(w.vals, x.vals, 16, 16 + j)
  }

  lemma EmptyDot(w: Block, x: Block)
    requires Usable(w) && Usable(x)
    ensures IntDot(w.vals, x.vals, 0, 0) == 0 && IntDot(w.vals, x.vals, 16, 16) == 0
  {
    hide Mul;
  }

  lemma HalvesEnds(w: Block, x: Block)
    requires Usable(w) && Usable(x)
    ensures Halves(w, x, 0) == 0 && Halves(w, x, 16) == IntDot(w.vals, x.vals, 0, GROUP)
  {
    EmptyDot(w, x);
    assert |w.vals| == |x.vals| == GROUP;
    hide IntDot, Usable, Mul;
    IntDotSplit(w.vals, x.vals, 0, 16, GROUP);
  }

  lemma HalvesBound(w: Block, x: Block, j: nat)
    requires Usable(w) && Usable(x) && j <= 16
    ensures -0x8_0000 <= Halves(w, x, j) <= 0x8_0000
  {
    hide IntDot, Mul;
    IntDotBound(w, x, 0, j);
    IntDotBound(w, x, 16, 16 + j);
  }

  /** One more byte of weights: two more elements, and still no overflow. */
  lemma ScalarStep40(w: Q40, x: Q80, j: nat)
    requires w.Valid() && x.Valid() && j < 16
    ensures var u, v := Unpack40(w), Unpack80(x);
      && Usable(u) && Usable(v)
      && Halves(u, v, j + 1)
         == Halves(u, v, j) + (Mul(Low(w.qs[j]), Signed(x.qs[j])) + Mul(High(w.qs[j]), Signed(x.qs[j + 16])))
      && -0x8_0000 <= Halves(u, v, j) <= 0x8_0000 && -0x8_0000 <= Halves(u, v, j + 1) <= 0x8_0000
  {
    var u, v := Unpack40(w), Unpack80(x);
    HalvesBound(u, v, j);
    HalvesBound(u, v, j + 1);
    assert u.vals[j] == Low(w.qs[j]) && u.vals[j + 16] == High(w.qs[j]);
    hide Mul, Unpack40, Low, High;
  }

  method BlockScalar40(w: Q40, x: Q80) returns (acc: int32)
    requires w.Valid() && x.Valid()
    ensures acc == IntDot(Unpack40(w).vals, Unpack80(x).vals, 0, GROUP)
  {
    ghost var u, v := Unpack40(w), Unpack80(x);
    HalvesEnds(u, v);
    hide Halves, IntDot, Mul, Low, High, Signed, Unpack40, Unpack80, Usable;
    acc := 0;
    var j := 0;
    while j < GROUP / 2
      invariant 0 <= j <= 16
      invariant acc == Halves(u, v, j)
    {
      var v0, v1 := Low(w.qs[j]), High(w.qs[j]);
      ScalarStep40(w, x, j);
      acc := acc + (Mul(v0, Signed(x.qs[j])) + Mul(v1, Signed(x.qs[j + 16])));
      j := j + 1;
    }
  }

  /** After the shift by four the mask leaves the high nibble, not what came from the next byte. */
  lemma NibbleLane(b: byte, next: byte)
    ensures Signed(SubByte(LowNibble(b), 8)) == Low(b)
    ensures Signed(SubByte(LowNibble(ShiftedByte(b, next)), 8)) == High(b)
  {
    NibbleMinusEight(b as int % 16);
    assert (b as int / 16 + next as int % 16 * 16) % 16 == b as int / 16;
    NibbleMinusEight(b as int / 16);
  }

  /** Both nibbles of four bytes, as the DSP loop holds them. */
  lemma NibbleLanes(w: Word)
    ensures var lo, hi := Ssub8(LowNibbles(w), EIGHTS), Ssub8(LowNibbles(ShiftRight4(w)), EIGHTS);
      && Signed(lo.b0) == Low(w.b0) && Signed(lo.b1) == Low(w.b1) && Signed(lo.b2) == Low(w.b2) && Signed(lo.b3) == Low(w.b3)
      && Signed(hi.b0) == High(w.b0) && Signed(hi.b1) == High(w.b1) && Signed(hi.b2) == High(w.b2) && Signed(hi.b3) == High(w.b3)
  {
    hide Signed, SubByte, Low, High, LowNibble, ShiftedByte;
    NibbleLane(w.b0, w.b1);
    NibbleLane(w.b1, w.b2);
    NibbleLane(w.b2, w.b3);
    NibbleLane(w.b3, 0);
  }

  method BlockDsp40(w: Q40, x: Q80) returns (acc: int32)
    requires w.Valid() && x.Valid()
    ensures acc == IntDot(Unpack40(w).vals, Unpack80(x).vals, 0, GROUP)
  {
    ghost var u, v := Unpack40(w), Unpack80(x);
    hide *;
    acc := 0;
    HalvesEnds(u, v);
    var j := 0;
    while j < GROUP / 2
      invariant j == 0 || j == 4 || j == 8 || j == 12 || j == 16
      invariant acc == Halves(u, v, j)
    {
      acc := DspStep40(w, x, j, acc);
      j := j + 4;
    }
    HalvesEnds(u, v);
  }

  /** Four bytes of nibbles against eight activations. */
  method DspStep40(w: Q40, x: Q80, j: nat, before: int32) returns (acc: int32)
    requires w.Valid() && x.Valid() && j + 4 <= 16 && before == Halves(Unpack40(w), Unpack80(x), j)
    ensures acc == Halves(Unpack40(w), Unpack80(x), j + 4)
  {
    ghost var u, v := Unpack40(w), Unpack80(x);
    var r := Load(w.qs, j);
    var lo := Ssub8(LowNibbles(r), EIGHTS);
    var hi := Ssub8(LowNibbles(ShiftRight4(r)), EIGHTS);
    NibbleLanes(r);
    HalvesBound(u, v, j);
    FourMore(u.vals, v.vals, 0, j);
    FourMore(u.vals, v.vals, 16, j + 16);
    IntDotBound(u, v, j, j + 4);
    IntDotSplit(u.vals, v.vals, 0, j, j + 4);
    hide Mul, Signed, SmladPair, Ssub8, LowNibbles, ShiftRight4, Low, High;
    SmladPairExact(lo, Load(x.qs, j), before);
    acc := SmladPair(lo, Load(x.qs, j), before);
    SmladPairExact(hi, Load(x.qs, j + 16), acc);
    acc := SmladPair(hi, Load(x.qs, j + 16), acc);
  }

  method BlockScalar80(w: Q80, x: Q80) returns (acc: int32)
    requires w.Valid() && x.Valid()
    ensures acc == IntDot(Unpack80(w).vals, Unpack80(x).vals, 0, GROUP)
  {
    ghost var u, v := Unpack80(w), Unpack80(x);
    acc := 0;
    for j := 0 to GROUP
      invariant acc == IntDot(u.vals, v.vals, 0, j)
    {
      IntDotBound(u, v, 0, j + 1);
      hide Mul;
      acc := acc + Mul(Signed(w.qs[j]), Signed(x.qs[j]));
    }
  }

  method BlockDsp80(w: Q80, x: Q80) returns (acc: int32)
    requires w.Valid() && x.Valid()
    ensures acc == IntDot(Unpack80(w).vals, Unpack80(x).vals, 0, GROUP)
  {
    ghost var u, v := Unpack80(w), Unpack80(x);
    acc := 0;
    assert acc == IntDot(u.vals, v.vals, 0, 0);
    hide Mul, SmladPair, IntDot, Unpack80;
    var j := 0;
    while j < GROUP
      invariant j == 0 || j == 4 || j == 8 || j == 12 || j == 16 || j == 20 || j == 24 || j == 28 || j == 32
      invariant acc == IntDot(u.vals, v.vals, 0, j)
    {
      acc := DspStep80(w, x, j, acc);
      j := j + 4;
    }
  }

  /** Four weights against four activations. */
  method DspStep80(w: Q80, x: Q80, j: nat, before: int32) returns (acc: int32)
    requires w.Valid() && x.Valid() && j + 4 <= GROUP
    requires before == IntDot(Unpack80(w).vals, Unpack80(x).vals, 0, j)
    ensures acc == IntDot(Unpack80(w).vals, Unpack80(x).vals, 0, j + 4)
  {
    ghost var u, v := Unpack80(w), Unpack80(x);
    IntDotBound(u, v, 0, j);
    FourMore(u.vals, v.vals, 0, j);
    hide Mul, Signed, SmladPair;
    SmladPairExact(Load(w.qs, j), Load(x.qs, j), before);
    acc := SmladPair(Load(w.qs, j), Load(x.qs, j), before);
  }

  // ----------------------------------------------------------- whole vectors

  function Blocks40(w: seq<Q40>): (r: seq<Block>)
    requires forall b :: 0 <= b < |w| ==> w[b].Valid()
    ensures |r| == |w| && forall b :: 0 <= b < |r| ==> Usable(r[b])
  {
    seq(|w|, b requires 0 <= b < |w| => Unpack40(w[b]))
  }

  function Blocks80(w: seq<Q80>): (r: seq<Block>)
    requires forall b :: 0 <= b < |w| ==> w[b].Valid()
    ensures |r| == |w| && forall b :: 0 <= b < |r| ==> Usable(r[b])
  {
    seq(|w|, b requires 0 <= b < |w| => Unpack80(w[b]))
  }

  /** One more block folded into the float sum. */
  lemma DotNext<F>(ops: FloatOps<F>, w: seq<Block>, x: seq<Block>, b: nat)
    requires |w| == |x| && b < |w|
    requires forall i :: 0 <= i < |w| ==> |w[i].vals| == |x[i].vals| == GROUP
    ensures Dot(ops, w[..b + 1], x[..b + 1]) == ops.add(Dot(ops, w[..b], x[..b]), Term(ops, w[b], x[b]))
  {
    assert w[..b + 1][..b] == w[..b] && x[..b + 1][..b] == x[..b];
    hide Term;
  }

  lemma Step40<F>(ops: FloatOps<F>, w: seq<Q40>, x: seq<Q80>, b: nat, acc: int)
    requires |w| == |x| && (forall i :: 0 <= i < |w| ==> w[i].Valid()) && (forall i :: 0 <= i < |x| ==> x[i].Valid()) && b < |w|
    requires acc == IntDot(Unpack40(w[b]).vals, Unpack80(x[b]).vals, 0, GROUP)
    ensures var u, v := Blocks40(w), Blocks80(x);
      Dot(ops, u[..b + 1], v[..b + 1])
      == ops.add(Dot(ops, u[..b], v[..b]), ops.mul(ops.mul(ops.ofInt(acc), ops.ofHalf(w[b].d)), ops.ofHalf(x[b].d)))
  {
    DotNext(ops, Blocks40(w), Blocks80(x), b);
    hide Dot, IntDot;
  }

  lemma Step80<F>(ops: FloatOps<F>, w: seq<Q80>, x: seq<Q80>, b: nat, acc: int)
    requires |w| == |x| && (forall i :: 0 <= i < |w| ==> w[i].Valid()) && (forall i :: 0 <= i < |x| ==> x[i].Valid()) && b < |w|
    requires acc == IntDot(Unpack80(w[b]).vals, Unpack80(x[b]).vals, 0, GROUP)
    ensures var u, v := Blocks80(w), Blocks80(x);
      Dot(ops, u[..b + 1], v[..b + 1])
      == ops.add(Dot(ops, u[..b], v[..b]), ops.mul(ops.mul(ops.ofInt(acc), ops.ofHalf(w[b].d)), ops.ofHalf(x[b].d)))
  {
    DotNext(ops, Blocks80(w), Blocks80(x), b);
    hide Dot, IntDot;
  }

  lemma DotNothing<F>(ops: FloatOps<F>, u: seq<Block>, v: seq<Block>)
    requires |u| == |v| && forall b :: 0 <= b < |u| ==> |u[b].vals| == |v[b].vals| == GROUP
    ensures Dot(ops, u[..0], v[..0]) == ops.zero
  {
  }

  /** tq_dot_q40_q80 with either block loop: `dsp` is the build's choice. */
  method DotQ40Q80<F>(ops: FloatOps<F>, dsp: bool, w: seq<Q40>, x: seq<Q80>) returns (sum: F)
    requires |w| == |x| && (forall b :: 0 <= b < |w| ==> w[b].Valid()) && (forall b :: 0 <= b < |x| ==> x[b].Valid())
    ensures sum == Dot(ops, Blocks40(w), Blocks80(x))
  {
    ghost var u, v := Blocks40(w), Blocks80(x);
    DotNothing(ops, u, v);
    hide IntDot, Dot, Blocks40, Blocks80, Unpack40, Unpack80, Q80.Valid, Q40.Valid, Usable;
    sum := ops.zero;
    for b := 0 to |w|
      invariant sum == Dot(ops, u[..b], v[..b])
    {
      var acc: int32;
      if dsp {
        acc := BlockDsp40(w[b], x[b]);
      } else {
        acc := BlockScalar40(w[b], x[b]);
      }
      Step40(ops, w, x, b, acc);
      sum := ops.add(sum, ops.mul(ops.mul(ops.ofInt(acc), ops.ofHalf(w[b].d)), ops.ofHalf(x[b].d)));
    }
    assert u[..|w|] == u && v[..|w|] == v;
  }

  /** tq_dot_q80_q80. */
  method DotQ80Q80<F>(ops: FloatOps<F>, dsp: bool, w: seq<Q80>, x: seq<Q80>) returns (sum: F)
    requires |w| == |x| && (forall b :: 0 <= b < |w| ==> w[b].Valid()) && (forall b :: 0 <= b < |x| ==> x[b].Valid())
    ensures sum == Dot(ops, Blocks80(w), Blocks80(x))
  {
    ghost var u, v := Blocks80(w), Blocks80(x);
    DotNothing(ops, u, v);
    hide IntDot, Dot, Blocks40, Blocks80, Unpack40, Unpack80, Q80.Valid, Q40.Valid, Usable;
    sum := ops.zero;
    for b := 0 to |w|
      invariant sum == Dot(ops, u[..b], v[..b])
    {
      var acc: int32;
      if dsp {
        acc := BlockDsp80(w[b], x[b]);
      } else {
        acc := BlockScalar80(w[b], x[b]);
      }
      Step80(ops, w, x, b, acc);
      sum := ops.add(sum, ops.mul(ops.mul(ops.ofInt(acc), ops.ofHalf(w[b].d)), ops.ofHalf(x[b].d)));
    }
    assert u[..|w|] == u && v[..|w|] == v;
  }
}
