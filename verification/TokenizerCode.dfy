/**
  The loops of core/src/tq_tokenizer.c, run in place on the caller's token
  array, the scratch buffer and the output buffer.
 */
module TokenizerCode {
  import opened Sequences
  import opened Words
  import opened Vocabulary
  import opened Tokenizer

  class TqTokenizer {
    const v: Vocab
    const buf: array<byte>

    constructor (v: Vocab, buf: array<byte>)
      ensures this.v == v && this.buf == buf
    {
      this.v := v;
      this.buf := buf;
    }

    method LookUp(s: Bytes) returns (id: int)
      requires v.Valid()
      ensures id == Lookup(v, s)
    {
      assert |v.sorted| == v.Size();
      hide Cmp, Vocab.Key, Vocab.Valid;
      var lo, hi := 0, v.Size() - 1;
      while lo <= hi
        invariant 0 <= lo && hi < v.Size()
        invariant Search(v, s, lo, hi) == Lookup(v, s)
        decreases hi - lo + 1
      {
        var mid := lo + (hi - lo) / 2;
        assert mid < |v.sorted|;
        var c := Cmp(s, v.Key(mid));
        if c == 0 {
          return v.sorted[mid];
        }
        if c < 0 {
          hi := mid - 1;
        } else {
          lo := mid + 1;
        }
      }
      return -1;
    }

    /** Both pieces copied into the scratch buffer and looked up there. */
    method PairToken(a: int, b: int) returns (id: int)
      requires v.Valid() && 0 <= a < v.Size() && 0 <= b < v.Size()
      modifies buf
      ensures id == PairId(v, buf.Length, a, b)
    {
      var p, q := v.Piece(a), v.Piece(b);
      if |p| + |q| > buf.Length {
        return -1;
      }
      hide Vocab.Valid, Lookup;
      CopyIn(p, 0);
      CopyIn(q, |p|);
      assert buf[..|p| + |q|] == p + q;
      id := LookUp(buf[..|p| + |q|]);
    }

    method CopyIn(s: Bytes, at: nat)
      requires at + |s| <= buf.Length
      modifies buf
      ensures buf[at..at + |s|] == s && buf[..at] == old(buf[..at])
    {
      for j := 0 to |s|
        invariant buf[at..at + j] == s[..j] && buf[..at] == old(buf[..at])
      {
        buf[at + j] := s[j];
      }
    }

    /** TQ_PUSH: nothing is written past the end. */
    method Push(tokens: array<int>, n: nat, x: int) returns (ok: bool)
      requires n <= tokens.Length
      modifies tokens
      ensures ok == (n < tokens.Length)
      ensures tokens[..n] == old(tokens[..n])
      ensures ok ==> tokens[..n + 1] == old(tokens[..n]) + [x]
    {
      if n >= tokens.Length {
        return false;
      }
      tokens[n] := x;
      return true;
    }

    /** One character no token spells: its byte tokens, as far as there is room. */
    method PushBytes(s: Bytes, tokens: array<int>, from: nat) returns (ok: bool, n: nat)
      requires v.Valid() && from <= tokens.Length
      modifies tokens
      ensures ok == (from + |ByteTokens(v, s)| <= tokens.Length)
      ensures ok ==> n == from + |ByteTokens(v, s)| && tokens[..n] == old(tokens[..from]) + ByteTokens(v, s)
    {
      ghost var was := tokens[..from];
      ok, n := true, from;
      var j := 0;
      while j < |s|
        invariant j <= |s| && from <= n <= tokens.Length
        invariant tokens[..n] + ByteTokens(v, s[j..]) == was + ByteTokens(v, s)
      {
        hide Vocab.Valid, ByteToken, ValidIds;
        var b := LookUp(ByteSpelling(s[j]));
        assert b == ByteToken(v, s[j]) by {
          SpelledLookup(v, s[j]);
        }
        ghost var rest := ByteTokens(v, s[j + 1..]);
        assert s[j..][1..] == s[j + 1..];
        if b >= 0 {
          assert tokens[..n] + ([b] + rest) == tokens[..n] + [b] + rest;
          ok := Push(tokens, n, b);
          if !ok {
            return;
          }
          n := n + 1;
        }
        j := j + 1;
      }
    }

    /** One character: its own token, or its bytes. */
    method PushChunk(chunk: Bytes, tokens: array<int>, from: nat) returns (ok: bool, n: nat)
      requires v.Valid() && from <= tokens.Length
      modifies tokens
      ensures ok == (from + |ChunkTokens(v, chunk)| <= tokens.Length)
      ensures ok ==> n == from + |ChunkTokens(v, chunk)| && tokens[..n] == old(tokens[..from]) + ChunkTokens(v, chunk)
    {
      hide Vocab.Valid, Lookup, ByteTokens, ValidIds;
      var id := LookUp(chunk);
      if id >= 0 {
        ok := Push(tokens, from, id);
        n := from + 1;
      } else {
        ok, n := PushBytes(chunk, tokens, from);
      }
    }

    method PushText(text: Bytes, tokens: array<int>, from: nat) returns (ok: bool, n: nat)
      requires v.Valid() && from <= tokens.Length
      modifies tokens
      ensures ok == (from + |Split(v, text)| <= tokens.Length)
      ensures ok ==> n == from + |Split(v, text)| && tokens[..n] == old(tokens[..from]) + Split(v, text)
    {
      hide Vocab.Valid, ChunkTokens, ValidIds;
      ghost var was := tokens[..from];
      ok, n := true, from;
      var i := 0;
      while i < |text|
        invariant i <= |text| && from <= n <= tokens.Length
        invariant tokens[..n] + Split(v, text[i..]) == was + Split(v, text)
      {
        var c := text[i];
        var len := LeadLen(c);
        if i + len > |text| {
          len := 1;
        }
        SplitAt(v, text, i, tokens[..n]);
        hide Split, LeadLen;
        ok, n := PushChunk(text[i..i + len], tokens, n);
        if !ok {
          return;
        }
        i := i + len;
      }
      assert text[i..] == [];
    }

    /** The scan for the best pair; nothing but the scratch buffer is written. */
    method BestPair(tokens: array<int>, n: nat) returns (bestAt: int, bestId: int)
      requires v.Valid() && n <= tokens.Length && ValidIds(v, tokens[..n])
      requires tokens as object != buf
      modifies buf
      ensures bestAt == BestOf(v, buf.Length, tokens[..n])
      ensures bestAt >= 0 ==> bestId == IdAt(v, buf.Length, tokens[..n], bestAt)
    {
      var bestScore := 0.0;
      bestId, bestAt := -1, -1;
      ghost var toks, cap := tokens[..n], buf.Length;
      var k := 0;
      assert n < 2 || k < n;
      while k < n - 1
        invariant 0 <= k && (k == 0 || k < n)
        invariant tokens[..n] == toks
        invariant bestAt == Best(v, cap, toks, k) && (bestAt < 0 ==> bestId < 0)
        invariant bestAt >= 0 ==> bestId == IdAt(v, cap, toks, bestAt) && bestScore == ScoreAt(v, cap, toks, bestAt)
      {
        assert toks[k] == tokens[k] && toks[k + 1] == tokens[k + 1];
        var id := PairToken(tokens[k], tokens[k + 1]);
        assert id == IdAt(v, cap, toks, k);
        hide IdAt, Vocab.Piece;
        if id >= 0 && (bestId < 0 || v.scores[id] > bestScore) {
          bestScore, bestId, bestAt := v.scores[id], id, k;
        }
        k := k + 1;
      }
    }

    lemma ReplacedIs(was: seq<int>, at: nat, id: int, now: seq<int>)
      requires at + 1 < |was| == |now| + 1
      requires (forall j :: 0 <= j < at ==> now[j] == was[j]) && now[at] == id && forall j :: at < j < |now| ==> now[j] == was[j + 1]
      ensures now == Replace(was, at, id)
    {
      assert now[..at] == was[..at];
      assert now == now[..at] + [now[at]] + now[at + 1..];
      assert now[at + 1..] == was[at + 2..];
    }

    /** Overwrite the left token and close the gap, as memmove does. */
    method MergeAt(tokens: array<int>, n: nat, at: nat, id: int)
      requires at + 1 < n <= tokens.Length
      modifies tokens
      ensures tokens[..n - 1] == Replace(old(tokens[..n]), at, id)
    {
      tokens[at] := id;
      for k := at + 1 to n - 1
        invariant forall j :: 0 <= j < at ==> tokens[j] == old(tokens[j])
        invariant tokens[at] == id
        invariant forall j :: at < j < k ==> tokens[j] == old(tokens[j + 1])
        invariant forall j :: k < j < n ==> tokens[j] == old(tokens[j])
      {
        tokens[k] := tokens[k + 1];
      }
      ReplacedIs(old(tokens[..n]), at, id, tokens[..n - 1]);
    }

    /** tq_encode: the token count or TQ_ERR_NOMEM, and the tokens in place. */
    method Encode(text: Bytes, addBos: bool, addEos: bool, tokens: array<int>) returns (rc: int)
      requires v.Valid() && tokens as object != buf
      modifies tokens, buf
      ensures rc == Tokenizer.Encode(v, buf.Length, text, addBos, addEos, tokens.Length).0
      ensures rc >= 0 ==> rc <= tokens.Length
      ensures rc >= 0 ==> tokens[..rc] == Tokenizer.Encode(v, buf.Length, text, addBos, addEos, tokens.Length).1
    {
      var ok, n := EncodeInitial(text, addBos, tokens);
      if !ok {
        return ERR_NOMEM;
      }
      n := MergeLoop(tokens, n);
      if addEos {
        ok := Push(tokens, n, v.eos);
        if !ok {
          return ERR_NOMEM;
        }
        n := n + 1;
      }
      return n;
    }

    method EncodeInitial(text: Bytes, addBos: bool, tokens: array<int>) returns (ok: bool, n: nat)
      requires v.Valid()
      modifies tokens
      ensures ok == (|Initial(v, text, addBos)| <= tokens.Length)
      ensures ok ==> n <= tokens.Length && tokens[..n] == Initial(v, text, addBos)
    {
      n := 0;
      if addBos {
        ok := Push(tokens, n, v.bos);
        if !ok {
          return;
        }
        n := n + 1;
      }
      if |text| > 0 {
        var d := LookUp([SPACE]);
        if d >= 0 {
          ok := Push(tokens, n, d);
          if !ok {
            return;
          }
          n := n + 1;
        }
      }
      hide Split, Lookup, Vocab.Valid;
      assert tokens[..n] == (if addBos then [v.bos] else []) + SpaceToken(v, text);
      ok, n := PushText(text, tokens, n);
    }

    method MergeLoop(tokens: array<int>, count: nat) returns (n: nat)
      requires v.Valid() && count <= tokens.Length && ValidIds(v, tokens[..count])
      requires tokens as object != buf
      modifies tokens, buf
      ensures n <= count && tokens[..n] == MergeAll(v, buf.Length, old(tokens[..count]))
    {
      hide BestOf, IdAt, Vocab.Valid, MergeAll, Replace, ValidIds;
      n := count;
      while true
        invariant n <= count && ValidIds(v, tokens[..n])
        invariant MergeAll(v, buf.Length, tokens[..n]) == MergeAll(v, buf.Length, old(tokens[..count]))
        decreases n
      {
        ghost var toks := tokens[..n];
        var bestAt, bestId := BestPair(tokens, n);
        MergeAllStep(v, buf.Length, toks);
        if bestAt < 0 {
          break;
        }
        MergeAt(tokens, n, bestAt, bestId);
        n := n - 1;
      }
    }

    /** tq_decode: the piece and a NUL into `out`, never past its end. */
    method Decode(prev: int, token: int, out: array<byte>) returns (rc: int)
      requires v.Valid()
      modifies out
      ensures rc == Vocabulary.Decode(v, prev, token, out.Length).0
      ensures rc >= 0 ==> rc < out.Length && out[..rc] == Vocabulary.Decode(v, prev, token, out.Length).1 && out[rc] == 0
      ensures forall k :: (if rc < 0 then 0 else rc + 1) <= k < out.Length ==> out[k] == old(out[k])
    {
      if token < 0 || token >= v.Size() || out.Length < 2 {
        return ERR_RANGE;
      }
      var p := v.Piece(token);
      if prev == v.bos && |p| > 0 && p[0] == SPACE {
        p := p[1..];
      }
      assert p == Printed(v, prev, token);
      hide Vocab.Valid, Printed;
      if |p| == 6 && p[0] == 60 && p[1] == 48 && p[2] == 120 && p[5] == 62 {
        var hi, lo := HexVal(p[3]), HexVal(p[4]);
        if hi >= 0 && lo >= 0 {
          out[0], out[1] := hi * 16 + lo, 0;
          return 1;
        }
      }
      var len := |p|;
      if len + 1 > out.Length {
        len := out.Length - 1;
      }
      for j := 0 to len
        invariant out[..j] == p[..j] && forall k :: j <= k < out.Length ==> out[k] == old(out[k])
      {
        out[j] := p[j];
      }
      out[len] := 0;
      return len;
    }
  }

  lemma MergeAllStep(v: Vocab, cap: nat, toks: seq<int>)
    requires v.Valid() && ValidIds(v, toks)
    ensures var k := BestOf(v, cap, toks);
      if k < 0 then MergeAll(v, cap, toks) == toks
      else var next := Replace(toks, k, IdAt(v, cap, toks, k)); ValidIds(v, next) && MergeAll(v, cap, toks) == MergeAll(v, cap, next)
  {
  }

  lemma DropDrop(text: Bytes, i: nat, len: nat)
    requires i + len <= |text|
    ensures text[i..][..len] == text[i..i + len] && text[i..][len..] == text[i + len..]
  {
  }

  lemma SplitHead(v: Vocab, text: Bytes)
    requires v.Valid() && text != []
    ensures Split(v, text) == ChunkTokens(v, text[..ChunkLen(text)]) + Split(v, text[ChunkLen(text)..])
  {
    hide ChunkTokens, ChunkLen, Vocab.Valid;
  }

  lemma ChunkLenAt(text: Bytes, i: nat)
    requires i < |text|
    ensures ChunkLen(text[i..]) == if i + LeadLen(text[i]) > |text| then 1 else LeadLen(text[i])
  {
    hide LeadLen;
  }

  lemma SplitAt(v: Vocab, text: Bytes, i: nat, done: seq<int>)
    requires v.Valid() && i < |text|
    ensures var len := if i + LeadLen(text[i]) > |text| then 1 else LeadLen(text[i]);
      done + Split(v, text[i..]) == done + ChunkTokens(v, text[i..i + len]) + Split(v, text[i + len..])
  {
    hide *;
    var len := ChunkLen(text[i..]);
    ChunkLenAt(text, i);
    SplitHead(v, text[i..]);
    DropDrop(text, i, len);
    AppendAssoc(done, ChunkTokens(v, text[i..i + len]), Split(v, text[i + len..]));
  }

  lemma SpelledLookup(v: Vocab, b: byte)
    requires v.Valid()
    ensures ByteToken(v, b) == Lookup(v, ByteSpelling(b))
  {
  }
}
