/**
  Byte strings read as base-256 numbers, most significant byte first, and as
  the infinite streams a decoder sees once it reads zeroes past the end.
 */
module ByteStrings {
  import opened Words

  function Pow256(n: nat): (p: nat)
    ensures p >= 1
  {
    if n == 0 then 1 else 256 * Pow256(n - 1)
  }

  /** The number a byte string spells. */
  function Val(b: seq<byte>): nat {
    if b == [] then 0 else Val(b[..|b| - 1]) * 256 + b[|b| - 1]
  }

  /** The low `n` base-256 digits of `v`. */
  function Digits(v: nat, n: nat): (b: seq<byte>)
    ensures |b| == n
  {
    if n == 0 then [] else Digits(v / 256, n - 1) + [v % 256]
  }

  function Repeat(x: byte, n: nat): (b: seq<byte>)
    ensures |b| == n
    ensures forall i :: 0 <= i < n ==> b[i] == x
  {
    if n == 0 then [] else Repeat(x, n - 1) + [x]
  }

  lemma RepeatNothing(x: byte)
    ensures Repeat(x, 0) == []
  {
  }

  lemma RepeatNext(head: seq<byte>, x: byte, n: nat)
    ensures head + Repeat(x, n) + [x] == head + Repeat(x, n + 1)
  {
  }

  /** Byte `i` of the stream `b` 0 0 0 ... */
  function At(b: seq<byte>, i: nat): byte {
    if i < |b| then b[i] else 0
  }

  /** The number spelled by the first `n` bytes of the stream `b` 0 0 0 ... */
  function Window(b: seq<byte>, n: nat): nat {
    if n == 0 then 0 else Window(b, n - 1) * 256 + At(b, n - 1)
  }

  /** `b` without its trailing zero bytes. */
  function TrimZeros(b: seq<byte>): (t: seq<byte>)
    ensures |t| <= |b| && t == b[..|t|]
    ensures t != [] ==> t[|t| - 1] != 0
    ensures forall i :: |t| <= i < |b| ==> b[i] == 0
  {
    if b != [] && b[|b| - 1] == 0 then TrimZeros(b[..|b| - 1]) else b
  }

  lemma ValSnoc(b: seq<byte>, x: byte)
    ensures Val(b + [x]) == Val(b) * 256 + x
  {
    assert (b + [x])[..|b|] == b;
  }

  lemma {:induction false} DigitsVal(b: seq<byte>)
    ensures Digits(Val(b), |b|) == b
  {
    if b != [] {
      DigitsVal(b[..|b| - 1]);
      assert Val(b) / 256 == Val(b[..|b| - 1]);
    }
  }

  lemma {:induction false} WindowPrefix(b: seq<byte>, n: nat)
    requires n <= |b|
    ensures Window(b, n) == Val(b[..n])
  {
    if n > 0 {
      WindowPrefix(b, n - 1);
      assert b[..n][..n - 1] == b[..n - 1];
    }
  }

  lemma {:induction false} WindowBound(b: seq<byte>, n: nat)
    ensures Window(b, n) < Pow256(n)
  {
    if n > 0 {
      WindowBound(b, n - 1);
    }
  }

  lemma Pow256Values()
    ensures Pow256(0) == 1 && Pow256(1) == 0x100 && Pow256(2) == 0x1_0000
    ensures Pow256(3) == 0x100_0000 && Pow256(4) == 0x1_0000_0000
  {
    assert Pow256(2) == 0x1_0000;
  }

  /** Dropping trailing zeroes is invisible to a decoder that reads zeroes past the end. */
  lemma {:induction false} WindowTrim(b: seq<byte>, n: nat)
    ensures Window(TrimZeros(b), n) == Window(b, n)
  {
    if n > 0 {
      WindowTrim(b, n - 1);
      assert At(TrimZeros(b), n - 1) == At(b, n - 1);
    }
  }

  /** A carry into a byte below 0xFF turns the run of 0xFFs after it into zeroes. */
  lemma {:induction false} CarryRipples(s: seq<byte>, c: byte, n: nat)
    requires c < 255
    ensures Val(s + [c] + Repeat(255, n)) + 1 == Val(s + [c + 1] + Repeat(0, n))
  {
    if n == 0 {
      assert s + [c] + Repeat(255, 0) == s + [c];
      assert s + [c + 1] + Repeat(0, 0) == s + [c + 1];
      ValSnoc(s, c);
      ValSnoc(s, c + 1);
    } else {
      CarryRipples(s, c, n - 1);
      var a, b := s + [c] + Repeat(255, n - 1), s + [c + 1] + Repeat(0, n - 1);
      assert s + [c] + Repeat(255, n) == a + [255];
      assert s + [c + 1] + Repeat(0, n) == b + [0];
      ValSnoc(a, 255);
      ValSnoc(b, 0);
    }
  }
}
