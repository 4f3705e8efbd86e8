/**
  The message codec of host/tq_sem.c: an 8-bit token count, then every token
  after the first, each coded against the model's own prediction.
 */
module Semaphore {
  import opened ByteStrings
  import opened CoderTheorems
  import opened CountTables
  import opened Forward
  import opened Intervals
  import opened RangeDecoder
  import opened RangeEncoder
  import opened TokenCodec
  import opened Words

  const MAX_MSG_TOKENS: nat := 512
  const MAX_WIRE: nat := 4096
  const LEN_SYMBOLS: nat := 256
  const LEN_FREQ: nat := TOT / LEN_SYMBOLS

  /** What both ends share: the model and the logit arithmetic. */
  datatype Link<!F> = Link(net: Net<F>, ops: LogitOps<F>)

  ghost predicate Usable<F(!new)>(link: Link<F>) {
    Sized(link.net) && link.net.vocab <= MAX_VOCAB
  }

  predicate InVocab<F>(link: Link<F>, toks: seq<int>) {
    forall i :: 0 <= i < |toks| ==> 0 <= toks[i] < link.net.vocab
  }

  function Header(n: nat): Sym
    requires 1 <= n
  {
    Sym((n - 1) * LEN_FREQ, LEN_FREQ, TOT)
  }

  /** The two symbols that carry token number `k`, predicted from the tokens before it. */
  function TokenStep<F(!new)>(link: Link<F>, toks: seq<int>, k: nat): (s: seq<Sym>)
    requires Usable(link) && InVocab(link, toks) && 1 <= k < |toks|
    ensures |s| == 2 && s[0].tot == s[1].tot == TOT && AllCodeable(s)
  {
    TokenSymsCodeable(link.ops, Logits(link.net, toks[..k]), toks[k]);
    TokenSyms(link.ops, Logits(link.net, toks[..k]), toks[k])
  }

  /** The symbols of the tokens from number `k` on, each predicted from the tokens before it. */
  function SymsFrom<F(!new)>(link: Link<F>, toks: seq<int>, k: nat): (s: seq<Sym>)
    requires Usable(link) && 1 <= k && (k < |toks| ==> InVocab(link, toks))
    ensures |s| == (if k < |toks| then 2 * (|toks| - k) else 0) && AllCodeable(s)
    decreases |toks| - k
  {
    hide TokenStep;
    if k >= |toks| then [] else TokenStep(link, toks, k) + SymsFrom(link, toks, k + 1)
  }

  /** What sem_encode accepts. A message of one token says nothing but its length. */
  predicate Sendable<F(!new)>(link: Link<F>, toks: seq<int>) {
    && 1 <= |toks| <= LEN_SYMBOLS
    && (1 < |toks| ==> InVocab(link, toks) && |toks| - 1 <= link.net.sh.maxSeq)
  }

  function MessageSyms<F(!new)>(link: Link<F>, toks: seq<int>): (s: seq<Sym>)
    requires Usable(link) && Sendable(link, toks)
    ensures AllCodeable(s) && |s| == 2 * |toks| - 1
  {
    hide SymsFrom;
    HeaderCodeable(|toks|);
    [Header(|toks|)] + SymsFrom(link, toks, 1)
  }

  lemma {:induction false} SymsFromAt<F(!new)>(link: Link<F>, toks: seq<int>, k: nat, j: nat)
    requires Usable(link) && InVocab(link, toks) && 1 <= k <= j < |toks|
    ensures SymsFrom(link, toks, k)[2 * (j - k)] == TokenStep(link, toks, j)[0]
    ensures SymsFrom(link, toks, k)[2 * (j - k) + 1] == TokenStep(link, toks, j)[1]
    decreases |toks| - k
  {
    hide TokenStep;
    if k < j {
      SymsFromAt(link, toks, k + 1, j);
    }
  }

  /** On the wire are the length, then two slices for every token, cut from what the model makes of just the tokens before it. */
  lemma MessageSymbols<F(!new)>(link: Link<F>, toks: seq<nat>, k: nat)
    requires Usable(link) && Sendable(link, toks) && 1 <= k < |toks|
    ensures MessageSyms(link, toks)[0] == Sym((|toks| - 1) * 256, 256, TOT)
    ensures MessageSyms(link, toks)[2 * k - 1..2 * k + 1] == TokenSyms(link.ops, Logits(link.net, toks[..k]), toks[k])
  {
    hide SymsFrom, TokenSyms, Logits, Sized;
    SymsFromAt(link, toks, 1, k);
    MessageSymsAre(link, toks);
    assert TokenStep(link, toks, k) == TokenSyms(link.ops, Logits(link.net, toks[..k]), toks[k]);
    hide TokenStep, MessageSyms;
    PairIs(MessageSyms(link, toks), SymsFrom(link, toks, 1), TokenStep(link, toks, k), k);
  }

  lemma MessageSymsAre<F(!new)>(link: Link<F>, toks: seq<int>)
    requires Usable(link) && Sendable(link, toks)
    ensures MessageSyms(link, toks) == [Sym((|toks| - 1) * 256, 256, TOT)] + SymsFrom(link, toks, 1)
  {
    hide SymsFrom, Sized;
  }

  lemma PairIs(syms: seq<Sym>, rest: seq<Sym>, pair: seq<Sym>, k: nat)
    requires 1 <= k && |syms| == |rest| + 1 && 2 * k <= |rest| && syms[1..] == rest
    requires |pair| == 2 && rest[2 * (k - 1)] == pair[0] && rest[2 * (k - 1) + 1] == pair[1]
    ensures syms[2 * k - 1..2 * k + 1] == pair
  {
    assert syms[2 * k - 1] == rest[2 * k - 2] && syms[2 * k] == rest[2 * k - 1];
  }

  /** Where the whole message takes the coder. */
  function Final<F(!new)>(link: Link<F>, toks: seq<int>): (iv: Interval)
    requires Usable(link) && Sendable(link, toks)
    ensures iv.Normal()
  {
    NarrowAll(WHOLE, MessageSyms(link, toks))
  }

  /** The bytes that go on the air. */
  function Wire<F(!new)>(link: Link<F>, toks: seq<int>): seq<byte>
    requires Usable(link) && Sendable(link, toks)
  {
    Message(Final(link, toks))
  }

  lemma HeaderCodeable(n: nat)
    requires 1 <= n <= LEN_SYMBOLS
    ensures Header(n).Codeable()
  {
  }

  lemma HeaderIs(n: nat)
    requires 1 <= n <= LEN_SYMBOLS
    ensures 0 <= (n - 1) * LEN_FREQ < U32 && Header(n) == Sym((n - 1) * LEN_FREQ, LEN_FREQ, TOT) && Header(n).Codeable()
  {
  }

  // ------------------------------------------------------------- decoding

  /** Status and tokens: the loop of sem_decode with `left` tokens still to come. */
  function DecodeRest<F(!new)>(link: Link<F>, bytes: seq<byte>, d: Dec, toks: seq<nat>, left: nat): (r: (int, seq<nat>))
    requires Usable(link) && d.Normal() && toks != []
    ensures r.0 == OK ==> |r.1| == |toks| + left
    ensures r.0 in {OK, ERR_RANGE}
    decreases left
  {
    if left == 0 then (OK, toks)
    else if toks[|toks| - 1] >= link.net.vocab || |toks| > link.net.sh.maxSeq then (ERR_RANGE, toks)
    else
      var r := DecodeToken(link.ops, Logits(link.net, toks), bytes, d);
      DecodeRest(link, bytes, r.1, toks + [r.0], left - 1)
  }

  /** sem_decode, for any bytes at all: total, and every decoded token is in the vocabulary. */
  function Decode<F(!new)>(link: Link<F>, bytes: seq<byte>, bos: nat, max: nat): (r: (int, seq<nat>))
    requires Usable(link)
    ensures r.0 in {OK, ERR_RANGE, ERR_NOMEM}
  {
    var d := DecStart(bytes);
    var want := Target(d, TOT) / LEN_FREQ;
    HeaderOwns(Target(d, TOT));
    if want + 1 > max then (ERR_NOMEM, [bos])
    else DecodeRest(link, bytes, Update(bytes, d, Header(want + 1)), [bos], want)
  }

  lemma HeaderOwns(target: nat)
    requires target < TOT
    ensures Header(target / LEN_FREQ + 1).Codeable() && Header(target / LEN_FREQ + 1).Owns(target)
  {
  }

  lemma {:induction false} DecodeRestInVocab<F(!new)>(link: Link<F>, bytes: seq<byte>, d: Dec, toks: seq<nat>, left: nat)
    requires Usable(link) && d.Normal() && toks != []
    ensures var r := DecodeRest(link, bytes, d, toks, left).1;
      |toks| <= |r| <= |toks| + left && r[..|toks|] == toks
      && forall i :: |toks| <= i < |r| ==> r[i] < link.net.vocab
    decreases left
  {
    hide Sized, Logits, DecodeToken;
    if left != 0 && toks[|toks| - 1] < link.net.vocab && |toks| <= link.net.sh.maxSeq {
      var t := DecodeToken(link.ops, Logits(link.net, toks), bytes, d);
      DecodeRestInVocab(link, bytes, t.1, toks + [t.0], left - 1);
      var r := DecodeRest(link, bytes, t.1, toks + [t.0], left - 1).1;
      assert r[..|toks|] == r[..|toks| + 1][..|toks|];
      assert r[|toks|] == r[..|toks| + 1][|toks|];
    }
  }

  lemma {:induction false} RestRecovered<F(!new)>(link: Link<F>, bytes: seq<byte>, d: Dec, toks: seq<nat>, k: nat)
    requires Usable(link) && Sendable(link, toks) && d.Normal() && 1 <= k <= |toks|
    requires Recovers(bytes, d, SymsFrom(link, toks, k))
    ensures DecodeRest(link, bytes, d, toks[..k], |toks| - k) == (OK, toks)
    decreases |toks| - k
  {
    hide Sized, Logits, TokenSyms, DecodeToken, Update, Target;
    if k == |toks| {
      assert toks[..k] == toks;
    } else {
      var lg := Logits(link.net, toks[..k]);
      var s, rest := TokenStep(link, toks, k), SymsFrom(link, toks, k + 1);
      RecoversTwo(bytes, d, s, rest);
      DecodeTokenInverts(link.ops, lg, bytes, d, toks[k]);
      assert toks[..k + 1] == toks[..k] + [toks[k]];
      RestRecovered(link, bytes, Update(bytes, Update(bytes, d, s[0]), s[1]), toks, k + 1);
    }
  }

  lemma RecoversTwo(bytes: seq<byte>, d: Dec, s: seq<Sym>, rest: seq<Sym>)
    requires |s| == 2 && AllCodeable(s) && AllCodeable(rest) && AllCodeable(s + rest) && d.Normal()
    requires Recovers(bytes, d, s + rest)
    ensures s[0].Owns(Target(d, s[0].tot))
    ensures s[1].Owns(Target(Update(bytes, d, s[0]), s[1].tot))
    ensures Recovers(bytes, Update(bytes, Update(bytes, d, s[0]), s[1]), rest)
  {
    assert (s + rest)[1..] == [s[1]] + rest;
    assert (s + rest)[1..][1..] == rest;
  }

  /** Whatever the bytes, the first token is the one the decoder starts from. */
  lemma DecodedFirst<F(!new)>(link: Link<F>, bytes: seq<byte>, bos: nat, max: nat)
    requires Usable(link)
    ensures |Decode(link, bytes, bos, max).1| >= 1 && Decode(link, bytes, bos, max).1[0] == bos
  {
    hide Sized, Target, Update, DecodeRest;
    var d := DecStart(bytes);
    var want := Target(d, TOT) / LEN_FREQ;
    HeaderOwns(Target(d, TOT));
    var r := DecodeRest(link, bytes, Update(bytes, d, Header(want + 1)), [bos], want).1;
    DecodeRestInVocab(link, bytes, Update(bytes, d, Header(want + 1)), [bos], want);
    assert r[0] == r[..1][0];
  }

  /** Every message comes back exactly: length header and both coding levels included. */
  lemma MessageRoundTrip<F(!new)>(link: Link<F>, toks: seq<nat>, max: nat)
    requires Usable(link) && Sendable(link, toks) && |toks| <= max
    ensures Decode(link, Wire(link, toks), toks[0], max) == (OK, toks)
  {
    hide Sized, Logits, SymsFrom, DecodeRest, Update, Target, NarrowAll, Message;
    var syms, b := MessageSyms(link, toks), Wire(link, toks);
    RoundTrip(syms);
    var d, t := DecStart(b), Target(DecStart(b), TOT);
    assert syms[0] == Header(|toks|) && syms[1..] == SymsFrom(link, toks, 1);
    assert t / LEN_FREQ == |toks| - 1 by { assert Header(|toks|).Owns(t); }
    assert [toks[0]] == toks[..1];
    RestRecovered(link, b, Update(b, d, syms[0]), toks, 1);
  }

  /** No message of at most 256 tokens needs more than 1026 bytes before its zeroes are dropped. */
  lemma MessageFits<F(!new)>(link: Link<F>, toks: seq<int>)
    requires Usable(link) && Sendable(link, toks)
    ensures Final(link, toks).shifts + 4 <= 1026
    ensures |Wire(link, toks)| <= 1023
  {
    LengthBound(MessageSyms(link, toks));
  }

  // ------------------------------------------------------- the host program

  /** The globals of the host program: one runtime and one table object, shared by both directions. */
  class Host<F(!new)> {
    const link: Link<F>
    const rt: Runtime<F>
    const pm: AcModel<F>

    ghost predicate Valid() {
      && Usable(link) && rt.Valid() && rt.net == link.net
      && pm.Valid() && pm.vocab == link.net.vocab
      && rt.Footprint() !! pm.Footprint()
    }

    ghost function Footprint(): set<object> {
      rt.Footprint() + pm.Footprint()
    }

    constructor (link: Link<F>, rt: Runtime<F>, pm: AcModel<F>)
      requires Usable(link) && rt.Valid() && rt.net == link.net
      requires pm.Valid() && pm.vocab == link.net.vocab && rt.Footprint() !! pm.Footprint()
      ensures Valid() && this.link == link && this.rt == rt && this.pm == pm
    {
      this.link, this.rt, this.pm := link, rt, pm;
    }

    /** The cache holds exactly the tokens coded so far, as far as it matters. */
    ghost predicate Remembers(toks: seq<nat>)
      requires Valid()
      reads Footprint()
    {
      Cached(link.net, rt.k.Cells(), rt.v.Cells(), toks)
    }

    lemma RemembersNothing()
      requires Valid()
      ensures Remembers([])
    {
      hide Sized, Inputs, PairKept;
    }

    /** Predict from token `i`, then code token `i + 1`. */
    method EncodeNext(e: Encoder, toks: seq<int>, i: nat) returns (rc: int32)
      requires Valid() && e.Valid() && i + 1 < |toks|
      requires {e as object, e.buf as object} !! Footprint()
      requires InVocab(link, toks[..i]) && i <= link.net.sh.maxSeq && Remembers(toks[..i])
      modifies Footprint(), e, e.buf
      ensures e.Valid()
      ensures rc == (if InVocab(link, toks[i..i + 2]) && i < link.net.sh.maxSeq then OK else ERR_RANGE)
      ensures rc == OK ==> InVocab(link, toks[..i + 1]) && Remembers(toks[..i + 1])
      ensures rc == OK && InVocab(link, toks) ==> e.iv == NarrowAll(old(e.iv), TokenStep(link, toks, i + 1))
    {
      hide Sized, Cached, Logits, TokenSyms, NarrowAll, Encoder.Valid, ReadsRc, Mapped;
      ghost var before: seq<nat> := toks[..i];
      MappedRc(link.net.sh.nLayers);
      rc := rt.Step(toks[i], i, Mapped, before);
      if rc != OK {
        assert toks[i..i + 2][0] == toks[i];
        return;
      }
      assert toks[..i + 1] == before + [toks[i]];
      var ok := pm.EncToken(e, link.ops, rt.logits, toks[i + 1]);
      if !ok {
        assert toks[i..i + 2][1] == toks[i + 1];
        rc := ERR_RANGE;
      }
    }

    /** Tokens 0..i are fed to the model, tokens up to `i` are coded, and the coder is on its way. */
    ghost predicate Sending(e: Encoder, toks: seq<int>, i: nat)
      requires Valid() && i < |toks|
      reads Footprint(), e, e.buf
    {
      && e.Valid() && i <= link.net.sh.maxSeq
      && InVocab(link, if i == 0 then [] else toks[..i + 1]) && Remembers(toks[..i])
      && (Sendable(link, toks) ==> OnTheWay(link, e.iv, toks, i + 1))
    }

    method SendNext(e: Encoder, toks: seq<int>, i: nat) returns (rc: int32)
      requires Valid() && i + 1 < |toks| <= LEN_SYMBOLS && Sending(e, toks, i)
      requires {e as object, e.buf as object} !! Footprint()
      modifies Footprint(), e, e.buf
      ensures rc == OK || (rc == ERR_RANGE && e.Valid() && !Sendable(link, toks))
      ensures rc == OK ==> Sending(e, toks, i + 1)
    {
      hide Sized, Cached, NarrowAll, TokenStep, SymsFrom, Final, Spells, OnTheWay, Remembers;
      ghost var iv := e.iv;
      rc := EncodeNext(e, toks, i);
      assert toks[i..i + 2][1] == toks[i + 1];
      if rc == OK && Sendable(link, toks) {
        OnTheWayStep(link, iv, toks, i + 1);
      }
    }

    /** The token loop of sem_encode. */
    method EncodeTokens(e: Encoder, toks: seq<int>) returns (rc: int32)
      requires Valid() && 1 <= |toks| <= LEN_SYMBOLS && Sending(e, toks, 0)
      requires {e as object, e.buf as object} !! Footprint()
      modifies Footprint(), e, e.buf
      ensures rc == OK || (rc == ERR_RANGE && !Sendable(link, toks))
      ensures rc == OK ==> Sending(e, toks, |toks| - 1)
    {
      hide Sending;
      rc := OK;
      for i := 0 to |toks| - 1
        invariant Sending(e, toks, i) && rc == OK
      {
        rc := SendNext(e, toks, i);
        if rc != OK {
          return;
        }
      }
    }

    /** sem_encode: refuses what it cannot send, otherwise puts out the wire bytes if they fit. */
    method SemEncode(toks: seq<int>, out: array<byte>) returns (rc: int32, len: nat)
      requires Valid() && out as object !in Footprint()
      modifies Footprint(), out
      ensures rc == EncodeStatus(link, toks, out.Length)
      ensures rc == OK ==> len <= out.Length && out[..len] == Wire(link, toks)
    {
      if |toks| < 1 || |toks| - 1 >= LEN_SYMBOLS {
        return ERR_RANGE, 0;
      }
      len := 0;
      var e := EncodeHeader(toks, out);
      hide Sized, Final, Message, Spells, OnTheWay, Remembers;
      rc := EncodeTokens(e, toks);
      if rc != OK {
        return;
      }
      assert toks[..|toks|] == toks;
      OnTheWayEnd(link, e.iv, toks);
      len := e.Finish();
      rc := if e.overflow then ERR_NOMEM else OK;
    }

    /** Predict from the last token and decode the next. */
    method DecodeNext(d: Decoder, pos: nat, ghost toks: seq<nat>, last: int, ghost left: nat, ghost r: (int, seq<nat>))
      returns (rc: int32, next: int)
      requires Valid() && d.Valid() && |toks| == pos + 1 && toks[pos] == last && 0 < left
      requires {d as object, d.buf as object} !! Footprint()
      requires pos <= link.net.sh.maxSeq && Remembers(toks[..pos])
      requires Reaches(link, d.Bytes(), d.State(), toks, left, r)
      modifies Footprint(), d
      ensures d.Valid() && d.Bytes() == old(d.Bytes())
      ensures rc != OK ==> rc == ERR_RANGE && r == (ERR_RANGE, toks)
      ensures rc == OK ==> 0 <= next && pos + 1 <= link.net.sh.maxSeq && Remembers(toks)
      ensures rc == OK ==> Reaches(link, d.Bytes(), d.State(), toks + [next], left - 1, r)
    {
      hide Sized, Cached, DecodeToken, Logits, Reaches, ReadsRc, Mapped;
      ghost var before := toks[..pos];
      assert toks == before + [last];
      ReachesNext(link, d.Bytes(), d.State(), toks, left, r);
      MappedRc(link.net.sh.nLayers);
      rc := rt.Step(last, pos, Mapped, before);
      next := 0;
      if rc == OK {
        assert d.State().Normal();
        next := pm.DecToken(d, link.ops, rt.logits);
      }
    }

    /** sem_decode, on any bytes: the tokens written, or a negative status. */
    method SemDecode(input: array<byte>, len: nat, toks: array<int>, max: nat, bos: nat) returns (n: int)
      requires Valid() && len <= input.Length && 1 <= max <= toks.Length
      requires {input as object, toks as object} !! Footprint()
      modifies Footprint(), toks
      ensures input[..len] == old(input[..len])
      ensures var r := Decode(link, old(input[..len]), bos, max);
        if r.0 == OK then n == |r.1| && n <= toks.Length && toks[..n] == r.1 else n == r.0
    {
      hide Sized, Cached, Decode, Reaches, Remembers;
      ghost var bytes, r := input[..len], Decode(link, input[..len], bos, max);
      toks[0] := bos;
      var d, want := DecodeHeader(input, len);
      DecodeStart(link, bytes, bos, max);
      if want + 1 > max {
        return ERR_NOMEM;
      }
      assert toks[..1] == [bos];
      n := DecodeTokens(d, toks, want, r);
    }

    /** Where the loop of sem_decode stands with `n` tokens written. */
    ghost predicate Receiving(d: Decoder, toks: array<int>, n: nat, want: nat, r: (int, seq<nat>))
      requires Valid()
      reads Footprint(), d, d.buf, toks
    {
      hide Sized, Reaches, Remembers, Runtime.Valid, AcModel.Valid, Dec.Normal;
      && 1 <= n <= want + 1 <= toks.Length && (forall i :: 0 <= i < n ==> toks[i] >= 0)
      && d.Valid() && n - 1 <= link.net.sh.maxSeq
      && Reaches(link, d.Bytes(), d.State(), toks[..n], want + 1 - n, r)
      && Remembers(toks[..n - 1])
    }

    method ReceiveNext(d: Decoder, toks: array<int>, n: nat, ghost want: nat, ghost r: (int, seq<nat>)) returns (rc: int32)
      requires Valid() && {d as object, d.buf as object, toks as object} !! Footprint()
      requires n < want + 1 && Receiving(d, toks, n, want, r)
      modifies Footprint(), toks, d
      ensures d.buf[..] == old(d.buf[..])
      ensures rc == OK ==> Receiving(d, toks, n + 1, want, r)
      ensures rc != OK ==> r.0 == rc
    {
      hide Sized, Reaches, Remembers, Runtime.Valid, AcModel.Valid, Dec.Normal, Runtime.Footprint, AcModel.Footprint;
      ghost var before := toks[..n];
      ReachesNat(link, d.Bytes(), d.State(), before, want + 1 - n, r);
      assert before[..n - 1] == toks[..n - 1];
      var next;
      rc, next := DecodeNext(d, n - 1, before, toks[n - 1], want + 1 - n, r);
      if rc == OK {
        toks[n] := next;
        assert toks[..n + 1] == before + [next] && toks[..n] == before;
      }
    }

    /** The token loop of sem_decode. */
    method DecodeTokens(d: Decoder, toks: array<int>, want: nat, ghost r: (int, seq<nat>)) returns (n: int)
      requires Valid() && {d as object, d.buf as object, toks as object} !! Footprint()
      requires want + 1 <= toks.Length && d.Valid() && Reaches(link, d.Bytes(), d.State(), toks[..1], want, r)
      modifies Footprint(), toks, d
      ensures d.buf[..] == old(d.buf[..])
      ensures if r.0 == OK then n == |r.1| && n <= toks.Length && toks[..n] == r.1 else n == r.0
    {
      hide Sized, Reaches;
      RemembersNothing();
      assert toks[..0] == [];
      ReachesNat(link, d.Bytes(), d.State(), toks[..1], want, r);
      assert toks[0] == toks[..1][0];
      hide Receiving, Remembers;
      n := 1;
      while n < want + 1
        invariant 1 <= n <= want + 1 && Receiving(d, toks, n, want, r) && d.buf[..] == old(d.buf[..])
      {
        var rc := ReceiveNext(d, toks, n, want, r);
        if rc != OK {
          return rc;
        }
        n := n + 1;
      }
      ReceivedAll(d, toks, want, r);
    }

    lemma ReceivedAll(d: Decoder, toks: array<int>, want: nat, r: (int, seq<nat>))
      requires Valid() && Receiving(d, toks, want + 1, want, r)
      ensures r.0 == OK && |r.1| == want + 1 <= toks.Length && toks[..want + 1] == r.1
    {
      ReachesEnd(link, d.Bytes(), d.State(), toks[..want + 1], r);
    }

    /**
      The host's own check of a message: encode, decode with the same runtime
      and tables, compare. It passes for every message that can be sent at all.
     */
    method DoMessage(toks: seq<int>, bos: nat, wire: array<byte>, back: array<int>) returns (rc: int32, ok: bool)
      requires Valid() && {wire as object, back as object} !! Footprint()
      requires wire.Length == MAX_WIRE && back.Length == MAX_MSG_TOKENS
      modifies Footprint(), wire, back
      ensures rc == (if Sendable(link, toks) then OK else ERR_RANGE)
      ensures rc == OK ==> ok == (toks[0] == bos)
    {
      hide Sized, Final, Wire, Decode;
      if Sendable(link, toks) {
        MessageFits(link, toks);
      }
      var len;
      rc, len := SemEncode(toks, wire);
      ok := false;
      if rc != OK {
        return;
      }
      var m := SemDecode(wire, len, back, MAX_MSG_TOKENS, bos);
      ghost var r := Decode(link, Wire(link, toks), bos, MAX_MSG_TOKENS);
      DecodedFirst(link, Wire(link, toks), bos, MAX_MSG_TOKENS);
      if toks[0] == bos {
        MessageRoundTrip(link, toks, MAX_MSG_TOKENS);
        assert r == (OK as int, toks);
      }
      assert m == |toks| ==> back[..m] == r.1 && back[0] == back[..m][0] == bos;
      assert m == |toks| ==> forall k :: 0 <= k < m ==> back[k] == r.1[k];
      ok := m == |toks|;
      var i := 0;
      while ok && i < |toks|
        invariant 0 <= i <= |toks|
        invariant ok == (m == |toks| && forall k :: 0 <= k < i ==> back[k] == toks[k])
      {
        ok := back[i] == toks[i];
        i := i + 1;
      }
    }

    method DecodeHeader(input: array<byte>, len: nat) returns (d: Decoder, want: nat)
      requires len <= input.Length
      ensures fresh(d) && d.buf == input && d.len == len && d.Valid() && want < LEN_SYMBOLS
      ensures var d0 := DecStart(input[..len]);
        want == Target(d0, TOT) / LEN_FREQ && Header(want + 1).Codeable() && Header(want + 1).Owns(Target(d0, TOT))
        && d.State() == Update(input[..len], d0, Header(want + 1))
    {
      d := new Decoder(input, len);
      var target := d.DecTarget(TOT);
      want := target / LEN_FREQ;
      HeaderOwns(target);
      d.DecUpdate(want * LEN_FREQ, LEN_FREQ, TOT);
    }

    /** Set up the coder and code the token count. */
    method EncodeHeader(toks: seq<int>, out: array<byte>) returns (e: Encoder)
      requires Valid() && out as object !in Footprint() && 1 <= |toks| <= LEN_SYMBOLS
      modifies out
      ensures fresh(e) && e.buf == out && Sending(e, toks, 0)
    {
      hide Sized, Final, OnTheWay, NarrowAll, Narrow, Spells, Cached, Remembers, Encoder.Valid, Header, Sym.Codeable;
      HeaderIs(|toks|);
      e := new Encoder(out);
      e.EncSym((|toks| - 1) * LEN_FREQ, LEN_FREQ, TOT);
      if Sendable(link, toks) {
        OnTheWayStart(link, toks);
      }
      assert toks[..0] == [];
      RemembersNothing();
    }
  }

  /** The loop of `Decode` is at tokens `toks`, with `left` to come. */
  ghost predicate Reaches<F(!new)>(link: Link<F>, bytes: seq<byte>, d: Dec, toks: seq<int>, left: nat, r: (int, seq<nat>))
    requires Usable(link)
  {
    && d.Normal() && toks != [] && (forall i :: 0 <= i < |toks| ==> toks[i] >= 0)
    && DecodeRest(link, bytes, d, toks, left) == r
  }

  lemma ReachesNat<F(!new)>(link: Link<F>, bytes: seq<byte>, d: Dec, toks: seq<int>, left: nat, r: (int, seq<nat>))
    requires Usable(link) && Reaches(link, bytes, d, toks, left, r)
    ensures toks != [] && forall i :: 0 <= i < |toks| ==> toks[i] >= 0
  {
  }

  lemma ReachesEnd<F(!new)>(link: Link<F>, bytes: seq<byte>, d: Dec, toks: seq<int>, r: (int, seq<nat>))
    requires Usable(link) && Reaches(link, bytes, d, toks, 0, r)
    ensures r.0 == OK && r.1 == toks
  {
  }

  lemma DecodeStart<F(!new)>(link: Link<F>, bytes: seq<byte>, bos: nat, max: nat)
    requires Usable(link)
    ensures var want := Target(DecStart(bytes), TOT) / LEN_FREQ;
      && Header(want + 1).Codeable() && Header(want + 1).Owns(Target(DecStart(bytes), TOT))
      && (want + 1 > max ==> Decode(link, bytes, bos, max) == (ERR_NOMEM, [bos]))
      && (want + 1 <= max ==> Reaches(link, bytes, Update(bytes, DecStart(bytes), Header(want + 1)), [bos], want,
                                      Decode(link, bytes, bos, max)))
  {
    hide Sized, Target, Update, DecodeRest;
    HeaderOwns(Target(DecStart(bytes), TOT));
  }

  /** One turn of that loop: refused by the model, or one token further. */
  lemma ReachesNext<F(!new)>(link: Link<F>, bytes: seq<byte>, d: Dec, toks: seq<nat>, left: nat, r: (int, seq<nat>))
    requires Usable(link) && 0 < left && Reaches(link, bytes, d, toks, left, r)
    ensures var ok := toks[|toks| - 1] < link.net.vocab && |toks| <= link.net.sh.maxSeq;
      && (!ok ==> r == (ERR_RANGE, toks))
      && (ok ==> var t := DecodeToken(link.ops, Logits(link.net, toks), bytes, d);
        Reaches(link, bytes, t.1, toks + [t.0], left - 1, r))
  {
    hide Sized, DecodeToken, Logits;
  }

  ghost function EncodeStatus<F(!new)>(link: Link<F>, toks: seq<int>, cap: nat): int32
    requires Usable(link)
  {
    if !Sendable(link, toks) then ERR_RANGE
    else if Final(link, toks).shifts + 4 > cap then ERR_NOMEM
    else OK
  }

  /** The symbols from number `k` on take `iv` to where the whole message ends. */
  ghost predicate OnTheWay<F(!new)>(link: Link<F>, iv: Interval, toks: seq<int>, k: nat)
    requires Usable(link) && Sendable(link, toks) && iv.Normal() && 1 <= k
  {
    NarrowAll(iv, SymsFrom(link, toks, k)) == Final(link, toks)
  }

  lemma OnTheWayStart<F(!new)>(link: Link<F>, toks: seq<int>)
    requires Usable(link) && Sendable(link, toks)
    ensures Header(|toks|).Codeable() && Narrow(WHOLE, Header(|toks|)).Normal()
    ensures OnTheWay(link, Narrow(WHOLE, Header(|toks|)), toks, 1)
  {
    hide Sized, SymsFrom, Narrow;
    HeaderCodeable(|toks|);
    NarrowNormal(WHOLE, Header(|toks|));
    assert MessageSyms(link, toks)[1..] == SymsFrom(link, toks, 1);
  }

  lemma OnTheWayStep<F(!new)>(link: Link<F>, iv: Interval, toks: seq<int>, k: nat)
    requires Usable(link) && Sendable(link, toks) && iv.Normal() && 1 <= k < |toks| && OnTheWay(link, iv, toks, k)
    ensures OnTheWay(link, NarrowAll(iv, TokenStep(link, toks, k)), toks, k + 1)
  {
    hide Sized, TokenStep, NarrowAll;
    NarrowAllConcat(iv, TokenStep(link, toks, k), SymsFrom(link, toks, k + 1));
  }

  lemma OnTheWayEnd<F(!new)>(link: Link<F>, iv: Interval, toks: seq<int>)
    requires Usable(link) && Sendable(link, toks) && iv.Normal() && OnTheWay(link, iv, toks, |toks|)
    ensures iv == Final(link, toks)
  {
    hide Sized, Final;
  }
}
