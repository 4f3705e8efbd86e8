/**
  Text over Semaphore, as do_message and print_text of host/tq_sem.c send and
  show it: characters to tokens, tokens to wire bytes, and back.
 */
module TextMessages {
  import opened Forward
  import opened Semaphore
  import opened TokenizerCode
  import opened TokenizerRoundTrip
  import opened Vocabulary
  import opened Words
  import EtqFormat
  import Tokenizer

  /** The buffer of print_text. */
  const OUT_BYTES: nat := 64

  /** What print_text shows. */
  function Printout(v: Vocab, toks: seq<int>): Bytes
    requires v.Valid()
  {
    if |toks| < 2 then []
    else Printout(v, toks[..|toks| - 1]) + EtqFormat.UpToNul(Vocabulary.Decode(v, toks[|toks| - 2], toks[|toks| - 1], OUT_BYTES).1)
  }

  lemma {:induction false} UpToNulWhole(s: Bytes)
    requires 0 !in s
    ensures EtqFormat.UpToNul(s) == s
  {
    if s != [] {
      UpToNulWhole(s[1..]);
      assert s == [s[0]] + s[1..];
    }
  }

  /** Without a NUL everything decoded is shown; never more. */
  lemma {:induction false} PrintoutIs(v: Vocab, toks: seq<int>)
    requires v.Valid()
    ensures |Printout(v, toks)| <= |DecodeAll(v, toks, OUT_BYTES)|
    ensures 0 !in DecodeAll(v, toks, OUT_BYTES) ==> Printout(v, toks) == DecodeAll(v, toks, OUT_BYTES)
  {
    hide Vocabulary.Decode, EtqFormat.UpToNul, Vocab.Valid;
    if |toks| >= 2 {
      var d := Vocabulary.Decode(v, toks[|toks| - 2], toks[|toks| - 1], OUT_BYTES).1;
      PrintoutIs(v, toks[..|toks| - 1]);
      if 0 !in DecodeAll(v, toks, OUT_BYTES) {
        UpToNulWhole(d);
      }
    }
  }

  /** The tokens of a vocabulary are those of the model that predicts them. */
  ghost predicate SameVocab<F(!new)>(link: Link<F>, v: Vocab) {
    Usable(link) && v.Valid() && v.Size() == link.net.vocab
  }

  /** A text short enough for one message and for the model's context. */
  ghost predicate Short<F(!new)>(link: Link<F>, v: Vocab, cap: nat, text: Bytes)
    requires SameVocab(link, v)
  {
    && |Tokenizer.Initial(v, text, true)| <= MAX_MSG_TOKENS
    && |Tokens(v, cap, text)| <= LEN_SYMBOLS && |Tokens(v, cap, text)| - 1 <= link.net.sh.maxSeq
  }

  lemma {:induction false} MergedFirst(v: Vocab, cap: nat, outBytes: nat, text: Bytes)
    requires Ready(v, outBytes) && PlainText(v, cap, text)
    ensures Tokens(v, cap, text) != [] && Tokens(v, cap, text)[0] == v.bos
  {
    ReadySorted(v, outBytes);
    hide Ready, Tokenizer.Initial, Tokenizer.MergeAll, PlainRun, Wanted, Tells, Vocab.Sorted, Vocab.Valid, Vocab.Piece;
    InitialShape(v, outBytes, text);
    MergeAllKeepsShape(v, cap, Tokenizer.Initial(v, text, true), Wanted(text));
  }

  lemma ShortIsSendable<F(!new)>(link: Link<F>, v: Vocab, cap: nat, text: Bytes)
    requires SameVocab(link, v) && Short(link, v, cap, text) && Tokens(v, cap, text) != []
    ensures Sendable(link, Tokens(v, cap, text))
  {
    hide Sized, Tokens, Vocab.Valid;
  }

  /**
    From text to text: a short enough text, tokenised, coded, decoded and shown,
    comes out as it was, exactly unless its first token is " <0xHH>".
   */
  lemma TextRoundTrip<F(!new)>(link: Link<F>, v: Vocab, cap: nat, text: Bytes)
    requires SameVocab(link, v) && Ready(v, OUT_BYTES) && PlainText(v, cap, text) && 0 !in text && Short(link, v, cap, text)
    ensures var toks := Tokens(v, cap, text);
      && Sendable(link, toks)
      && Semaphore.Decode(link, Wire(link, toks), v.bos, MAX_MSG_TOKENS) == (OK as int, toks)
      && (Printout(v, toks) == text <==> !Trapped(v, toks))
  {
    var toks := Tokens(v, cap, text);
    MergedFirst(v, cap, OUT_BYTES, text);
    ShortIsSendable(link, v, cap, text);
    assert forall i :: 0 <= i < |toks| ==> toks[i] >= 0;
    hide Sized, Tokens, Ready, PlainText, Wire, Semaphore.Decode, Printout, DecodeAll, Trapped, Vocab.Valid;
    MessageRoundTrip(link, toks, MAX_MSG_TOKENS);
    RoundTrip(v, cap, OUT_BYTES, text);
    PrintoutIs(v, toks);
  }

  /** print_text: every token decoded into the buffer and shown up to its NUL. */
  method PrintText(t: TqTokenizer, toks: seq<int>) returns (shown: Bytes)
    requires t.v.Valid()
    ensures shown == Printout(t.v, toks)
  {
    hide Vocabulary.Decode, Vocab.Valid;
    var out := new byte[OUT_BYTES];
    shown := [];
    var i := 1;
    while i < |toks|
      invariant i >= 1 && (i == 1 || i <= |toks|)
      invariant if i <= |toks| then shown == Printout(t.v, toks[..i]) else shown == []
    {
      ghost var d := Vocabulary.Decode(t.v, toks[i - 1], toks[i], OUT_BYTES);
      PrintoutNext(t.v, toks, i);
      var rc := t.Decode(toks[i - 1], toks[i], out);
      if rc >= 0 {
        var more := Shown(out, rc);
        shown := shown + more;
      } else {
        NothingDecoded(t.v, toks[i - 1], toks[i], OUT_BYTES);
      }
      i := i + 1;
    }
    assert toks[..|toks|] == toks;
  }

  /** fputs of the buffer. */
  method Shown(out: array<byte>, ghost n: nat) returns (s: Bytes)
    requires n < out.Length && out[n] == 0
    ensures s == EtqFormat.UpToNul(out[..n])
  {
    var k := 0;
    s := [];
    while out[k] != 0
      invariant 0 <= k <= n && s + EtqFormat.UpToNul(out[k..n]) == EtqFormat.UpToNul(out[..n])
      decreases n - k
    {
      assert out[k..n][1..] == out[k + 1..n];
      s := s + [out[k]];
      k := k + 1;
    }
  }

  lemma PrintoutNext(v: Vocab, toks: seq<int>, i: nat)
    requires v.Valid() && 1 <= i < |toks|
    ensures Printout(v, toks[..i + 1])
         == Printout(v, toks[..i]) + EtqFormat.UpToNul(Vocabulary.Decode(v, toks[i - 1], toks[i], OUT_BYTES).1)
  {
    hide Vocabulary.Decode, EtqFormat.UpToNul;
    assert toks[..i + 1][..i] == toks[..i];
  }

  lemma NothingDecoded(v: Vocab, prev: int, token: int, outBytes: nat)
    requires v.Valid() && Vocabulary.Decode(v, prev, token, outBytes).0 < 0
    ensures Vocabulary.Decode(v, prev, token, outBytes).1 == []
  {
  }

  lemma SendableIsShort<F(!new)>(link: Link<F>, v: Vocab, cap: nat, text: Bytes)
    requires SameVocab(link, v) && |Tokenizer.Initial(v, text, true)| <= MAX_MSG_TOKENS && Tokens(v, cap, text) != []
    ensures Sendable(link, Tokens(v, cap, text)) <==> Short(link, v, cap, text)
  {
    hide Sized, Tokens, Vocab.Valid;
  }

  /** The tokens of a text, in the caller's array. */
  method Tokenise(t: TqTokenizer, text: Bytes, toks: array<int>) returns (n: int)
    requires t.v.Valid() && toks as object != t.buf
    modifies toks, t.buf
    ensures n < 0 <==> |Tokenizer.Initial(t.v, text, true)| > toks.Length
    ensures n >= 0 ==> n <= toks.Length && toks[..n] == Tokens(t.v, t.buf.Length, text)
  {
    EncodedIs(t.v, t.buf.Length, text, toks.Length);
    hide Tokens, Tokenizer.Initial, Tokenizer.Encode, Vocab.Valid;
    n := t.Encode(text, true, false, toks);
  }

  /** Coded and decoded by one host: a status, or the tokens that arrive. */
  method Carry<F(!new)>(host: Host<F>, toks: seq<int>, bos: nat, wire: array<byte>, back: array<int>) returns (rc: int, n: nat)
    requires host.Valid() && {wire as object, back as object} !! host.Footprint()
    requires back.Length == MAX_MSG_TOKENS && wire.Length == MAX_WIRE && toks != [] && toks[0] == bos
    modifies host.Footprint(), wire, back
    ensures rc == if Sendable(host.link, toks) then OK else ERR_RANGE
    ensures rc == OK as int ==> n == |toks| <= back.Length && back[..n] == toks
  {
    hide Sized, Final, Wire, Semaphore.Decode, Usable;
    n := 0;
    if Sendable(host.link, toks) {
      MessageFits(host.link, toks);
    }
    var len;
    rc, len := host.SemEncode(toks, wire);
    if rc != OK as int {
      return;
    }
    MessageRoundTrip(host.link, toks, MAX_MSG_TOKENS);
    var m := host.SemDecode(wire, len, back, MAX_MSG_TOKENS, bos);
    n := m;
  }

  /** One host, text in, text out over the wire. */
  method SendText<F(!new)>(host: Host<F>, t: TqTokenizer, text: Bytes, toks: array<int>, wire: array<byte>, back: array<int>)
    returns (rc: int, shown: Bytes)
    requires host.Valid() && SameVocab(host.link, t.v) && Ready(t.v, OUT_BYTES) && PlainText(t.v, t.buf.Length, text)
    requires {toks as object, wire as object, back as object, t.buf as object} !! host.Footprint() && toks as object != t.buf
    requires toks.Length == back.Length == MAX_MSG_TOKENS && wire.Length == MAX_WIRE
    modifies host.Footprint(), toks, wire, back, t.buf
    ensures rc >= 0 <==> Short(host.link, t.v, t.buf.Length, text)
    ensures rc >= 0 && 0 !in text ==> (shown == text <==> !Trapped(t.v, Tokens(t.v, t.buf.Length, text)))
  {
    ghost var v, cap := t.v, t.buf.Length;
    MergedFirst(v, cap, OUT_BYTES, text);
    assert v.Valid() && Usable(host.link);
    if 0 !in text && Short(host.link, v, cap, text) {
      TextRoundTrip(host.link, v, cap, text);
    }
    hide *;
    shown := [];
    rc := Tokenise(t, text, toks);
    if rc < 0 {
      NotShort(host.link, v, cap, text);
      return;
    }
    SendableIsShort(host.link, v, cap, text);
    var sent := toks[..rc];
    var n;
    rc, n := Carry(host, sent, t.v.bos, wire, back);
    Statuses();
    if rc >= 0 {
      shown := PrintText(t, back[..n]);
    }
  }

  lemma Statuses()
    ensures OK as int == 0 && (ERR_RANGE as int) < 0
  {
  }

  lemma NotShort<F(!new)>(link: Link<F>, v: Vocab, cap: nat, text: Bytes)
    requires SameVocab(link, v) && |Tokenizer.Initial(v, text, true)| > MAX_MSG_TOKENS
    ensures !Short(link, v, cap, text)
  {
  }

  lemma EncodedIs(v: Vocab, cap: nat, text: Bytes, maxTokens: nat)
    requires v.Valid()
    ensures var e := Tokenizer.Encode(v, cap, text, true, false, maxTokens);
      if |Tokenizer.Initial(v, text, true)| <= maxTokens then e == (|Tokens(v, cap, text)|, Tokens(v, cap, text))
      else e == (ERR_NOMEM as int, [])
  {
    hide Tokenizer.Initial, Tokenizer.MergeAll;
  }
}
