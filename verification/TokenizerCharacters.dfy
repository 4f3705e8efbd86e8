/**
  What the tokenizer starts from: every character of the text that is a piece
  becomes that one token, every other exactly the tokens of its bytes.
 */
module TokenizerCharacters {
  import opened Tokenizer
  import opened TokenizerRoundTrip
  import opened Unicode
  import opened Vocabulary
  import opened Words

  /** The split takes off a whole well-formed character. */
  lemma ChunkIsCharacter(text: Bytes)
    requires text != [] && CharBytes(text) > 0
    ensures ChunkLen(text) == CharBytes(text)
  {
  }

  /** The lead byte's classes as the code's masks have them, for every byte. */
  lemma LeadMasks(c: byte)
    ensures var b := c as bv8;
      LeadLen(c) == if b & 0xE0 == 0xC0 then 2 else if b & 0xF0 == 0xE0 then 3 else if b & 0xF8 == 0xF0 then 4 else 1
  {
  }

  /** Every byte of `s` as its own token, in order. */
  ghost predicate SpellsBytes(v: Vocab, toks: seq<int>, s: Bytes)
    requires v.Valid() && ValidIds(v, toks)
  {
    |toks| == |s| && forall i :: 0 <= i < |s| ==> v.Piece(toks[i]) == ByteSpelling(s[i])
  }

  lemma {:induction false} ByteTokensSpell(v: Vocab, outBytes: nat, s: Bytes)
    requires Ready(v, outBytes)
    ensures SpellsBytes(v, ByteTokens(v, s), s)
  {
    if s != [] {
      ByteTokensSpell(v, outBytes, s[1..]);
      HeldIsFound(v, ByteSpelling(s[0]));
      hide Ready, ByteSpelling, Vocab.Piece, Lookup;
      assert ByteTokens(v, s) == [ByteToken(v, s[0])] + ByteTokens(v, s[1..]);
    }
  }

  /** What one character becomes. */
  ghost predicate IsCharacterTokens(v: Vocab, toks: seq<int>, c: Bytes)
    requires v.Valid() && ValidIds(v, toks)
  {
    if Has(v, c) then |toks| == 1 && v.Piece(toks[0]) == c else SpellsBytes(v, toks, c)
  }

  lemma ChunkTokensOf(v: Vocab, outBytes: nat, c: Bytes)
    requires Ready(v, outBytes)
    ensures IsCharacterTokens(v, ChunkTokens(v, c), c)
  {
    LookupExact(v, c);
    ByteTokensSpell(v, outBytes, c);
  }

  /** The tokens of the split, character by character. */
  ghost predicate ByCharacters(v: Vocab, toks: seq<int>, cs: seq<Bytes>)
    requires v.Valid() && ValidIds(v, toks)
    decreases |cs|
  {
    if cs == [] then toks == []
    else
      exists n :: 0 <= n <= |toks| && ValidIds(v, toks[..n]) && ValidIds(v, toks[n..])
                  && IsCharacterTokens(v, toks[..n], cs[0]) && ByCharacters(v, toks[n..], cs[1..])
  }

  lemma ByCharactersStep(v: Vocab, a: seq<int>, b: seq<int>, c: Bytes, cs: seq<Bytes>)
    requires v.Valid() && ValidIds(v, a) && ValidIds(v, b) && IsCharacterTokens(v, a, c) && ByCharacters(v, b, cs)
    ensures ValidIds(v, a + b) && ByCharacters(v, a + b, [c] + cs)
  {
    var toks, all := a + b, [c] + cs;
    assert toks[..|a|] == a && toks[|a|..] == b && all[0] == c && all[1..] == cs;
    hide IsCharacterTokens, Vocab.Valid, Vocab.Piece;
    assert 0 <= |a| <= |toks| && ValidIds(v, toks[..|a|]) && ValidIds(v, toks[|a|..]);
    assert IsCharacterTokens(v, toks[..|a|], all[0]) && ByCharacters(v, toks[|a|..], all[1..]);
  }

  /** A well-formed text is split into its characters. */
  lemma {:induction false} SplitByCharacters(v: Vocab, outBytes: nat, text: Bytes)
    requires Ready(v, outBytes) && Utf8(text)
    ensures ByCharacters(v, Split(v, text), Characters(text))
    decreases |text|
  {
    assert v.Valid();
    hide Ready, ChunkLen, CharBytes, ChunkTokens, IsCharacterTokens, ByCharacters, Vocab.Valid, ValidIds;
    if text == [] {
      SplitNothing(v);
    } else {
      var n := ChunkLen(text);
      ChunkIsCharacter(text);
      ChunkTokensOf(v, outBytes, text[..n]);
      SplitByCharacters(v, outBytes, text[n..]);
      ByCharactersStep(v, ChunkTokens(v, text[..n]), Split(v, text[n..]), text[..n], Characters(text[n..]));
    }
  }

  lemma SplitNothing(v: Vocab)
    requires v.Valid()
    ensures ByCharacters(v, Split(v, []), Characters([]))
  {
  }
}
