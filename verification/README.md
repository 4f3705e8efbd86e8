# Verified model of the tinyllm core

A Dafny model of the parts of this repository whose correctness rests on an
argument rather than on a constant, with proofs of what they promise:

- **Semaphore**, the message codec: a 32-bit range coder with deferred carries
  (`core/src/tq_ac.c`), its integer probability tables, and the message loop of
  `host/tq_sem.c`. An encoder and a decoder that rebuild the same tables from
  the same predictions agree on every message.
- The **decode step** with its KV cache (`core/src/tq_forward.c`) as an
  incremental form of recomputing the whole prefix.
- The **shell framer** of `tools/chat.py`, an incremental parser.
- The **tokenizer**, the **sampler**, the **kernels**, the **arena** and the
  **.etq container** with its exporter and loader, and the **RoPE** layout.

Code that works by changing things step by step is a class or a method over
arrays, proved against a function; what the source promises is then proved of
that function. Arithmetic of the coder is integer and exact, with every 32-bit
word a range type, so that an assignment to one is a proof that nothing
wrapped. Float operations are parameters where only data flow matters (the
decode step, the dot products, the logit weights), and exact reals where the
argument is algebra (sampling, RoPE) or where the question is what the
parameterised code computes (attention, the cache, quantised rows, weights).

| file | what it holds |
|---|---|
| `Words`, `Sequences`, `ByteStrings`, `Products` | integer ranges and status codes, sequences, byte strings as big numbers, products of reals by name |
| `Intervals`, `RangeEncoder`, `RangeDecoder`, `CoderTheorems` | the coder as exact interval narrowing, the machine, the round trip and the length bound |
| `FixedExp2`, `Exp2Accuracy`, `CountTables`, `TokenCodec`, `LogitWeights`, `Semaphore` | 2^x in fixed point and how near it comes, count tables, two-level token coding, weights of real logits, whole messages |
| `KvCache`, `CacheAccuracy`, `Forward`, `GroupedAttention` | the cache and what a cell is worth, the decode step, and the textbook it agrees with |
| `Ansi`, `Framer`, `FramerLines`, `FramerEcho`, `FramerText` | terminal codes, the shell framer, single lines, the echo, and what its events say of the lines of a stream |
| `Unicode`, `Vocabulary`, `Tokenizer`, `TokenizerCharacters`, `TokenizerRoundTrip`, `TokenizerTrap`, `TokenizerCode` | UTF-8, lookup, splitting and merging, characters, the round trip, where it fails, the in-place loops |
| `TextMessages` | text over Semaphore and back |
| `HeapSort`, `Nucleus`, `Generator`, `Sampler` | the sort, the prefiltered nucleus, the generator, the sampler |
| `DotKernels`, `Matvec`, `QuantizedRows` | block dot products on both backends, mapped and streamed products, rows from the exporter to the kernels |
| `Rope`, `RopeAngles` | the exported row order against the rotation, and what the rotation does |
| `Arena`, `EtqFormat`, `EtqBytes`, `ModelOpen`, `ModelBinding`, `ModelOpenCode`, `OpenedModel`, `RuntimeShape` | buffer layout, the container, the loader, what an opened model is worth, the memory of a decode step |
| `TokenTensors`, `ModelWriter` | the exporter: the tokenizer's tensors, the model's tensors, and what the loader makes of them |

## Model

| member | source | states |
|---|---|---|
| Intervals.SliceBounds | core/src/tq_ac.c:266-276 | with a normal range the divided range is at least 256, so no slice is empty, and every slice lies inside the interval |
| Intervals.NarrowNormal | core/src/tq_ac.c:277-286 | one symbol costs at most two renormalisation shifts and leaves the range normal again |
| Intervals.NarrowInside | core/src/tq_ac.c:261-286 | narrowing never admits a byte stream that the interval before did not |
| Intervals.RoundUpInside | core/src/tq_ac.c:289-304 | rounding up to one significant byte always stays inside the interval, so the flush never needs a second |
| ByteStrings.CarryRipples | core/src/tq_ac.c:223-259 | adding one to a byte string that ends in a run of 0xFF bytes turns the run to zeroes and bumps the byte before it |
| RangeEncoder.ShiftDecided | core/src/tq_ac.c:241-259 | the carry is 0 or 1, arrives only once a cache byte exists and never at a cache byte of 0xFF, and releasing cache and pending run with it keeps bytes ++ low equal to the exact low end |
| RangeEncoder.ShiftUndecided | core/src/tq_ac.c:241-259 | deferring a top byte of 0xFF as one more pending byte keeps the same equality |
| RangeEncoder.FlushedDigits | core/src/tq_ac.c:289-315 | after the five flush shifts of a rounded low end the bytes put out are exactly its base-256 digits, so suppressing the leading byte loses nothing |
| RangeEncoder.Encoder.Put | core/src/tq_ac.c:223-231 | a byte goes to the buffer while there is room; overflow is remembered and nothing is written past the end |
| RangeEncoder.Encoder.Release | core/src/tq_ac.c:241-259 | the cache byte and the pending run go out in order with the carry added |
| RangeEncoder.Encoder.ShiftLow | core/src/tq_ac.c:241-259 | one shift multiplies the exact value by 256 and keeps emitted bytes, cache, pending run and low denoting it |
| RangeEncoder.Encoder.EncSym | core/src/tq_ac.c:261-286 | coding a symbol narrows the exact unbounded-precision interval by exactly that symbol |
| RangeEncoder.Encoder.RoundLow | core/src/tq_ac.c:289-304 | the search for the fewest significant bytes ends at one and leaves low rounded up inside the interval |
| RangeEncoder.Encoder.FlushShifts | core/src/tq_ac.c:304-309 | the five flush shifts put out all significant digits, and overflow says exactly whether they fitted |
| RangeEncoder.Encoder.TrimTail | core/src/tq_ac.c:309-315 | exactly the trailing zero bytes are dropped |
| RangeEncoder.Encoder.Finish | core/src/tq_ac.c:289-315 | without overflow the buffer holds the message of the exact interval; overflow happens exactly when shifts + 4 bytes do not fit; a second call changes nothing |
| RangeDecoder.NoUnderflow | core/src/tq_ac.c:348-370 | for any input the divisor is at least 256 and the code subtraction never goes below zero |
| RangeDecoder.RefillAtMostTwo | core/src/tq_ac.c:357-370 | for any bytes and tables a symbol takes at most two refills |
| RangeDecoder.Decoder.constructor | core/src/tq_ac.c:319-331 | the decoder starts on the first four stream bytes, zeroes past the end |
| RangeDecoder.Decoder.Get | core/src/tq_ac.c:333-345 | reads the next stream byte, zero past the end, never outside the buffer, and remembers having run out |
| RangeDecoder.Decoder.DecTarget | core/src/tq_ac.c:348-355 | the target of the current state, below the total |
| RangeDecoder.Decoder.DecUpdate | core/src/tq_ac.c:357-370 | removes the symbol's slice and refills, exactly as the decoder's state function |
| CoderTheorems.TracksStep | core/src/tq_ac.c:348-370 | if the stream lies in the narrowed interval, the decoder's target falls in the coded symbol's slice and its code stays the distance from the exact low end |
| CoderTheorems.TracksRecovers | core/src/tq_ac.c:348-370 | so every symbol of a sequence is recovered in order |
| CoderTheorems.MessageInside | core/src/tq_ac.c:289-315 | the flushed bytes, trailing zeroes dropped and read as zeroes again, denote a point of the final interval |
| CoderTheorems.RoundTrip | core/src/tq_ac.c:215-370 | for every sequence of codeable symbols the finished, trimmed message decodes to every symbol in order |
| CoderTheorems.NarrowWidth | core/src/tq_ac.c:261-286 | a symbol keeps at least freq/tot times 256/257 of the interval's width |
| CoderTheorems.ShiftsAtMostTwoEach | core/src/tq_ac.c:277-286 | n symbols cost at most 2n shifts |
| CoderTheorems.MessageLength | core/src/tq_ac.c:289-315 | a message is at most one byte longer than its shifts |
| CoderTheorems.LengthBound | core/src/tq_ac.c:261-315 | the length is at most S + 1 where 256^S times the charged probability (freq/tot times 256/257 per symbol) is at most one |
| FixedExp2.Exp2Q24 | core/src/tq_ac.c:51-76 | the loop computes the fixed-point 2^x, at most 1.0, without wrapping a word |
| FixedExp2.HornerBound | core/src/tq_ac.c:41-72 | the polynomial accumulator stays below 2.0 at every step and ends at 1.0 or above, for every fraction |
| FixedExp2.Exp2Monotone | core/src/tq_ac.c:51-76 | monotone over every x <= 0, octave seams included |
| FixedExp2.Exp2Halves | core/src/tq_ac.c:51-76 | one octave down is exactly half, integer division |
| FixedExp2.Exp2Bound | core/src/tq_ac.c:51-76 | exactly 2^24 at 0 and nowhere more |
| Exp2Accuracy.SixteenthsAccurate | core/src/tq_ac.c:22-76 | at every multiple of a sixteenth of an octave the value is within 5 units of the real 2^x, which fixes the coefficients |
| Exp2Accuracy.Exp2Near | core/src/tq_ac.c:22-76 | for every x <= 0 it lies between the real powers a sixteenth of an octave below and above, up to 5 units |
| CountTables.SharesFit | core/src/tq_ac.c:127-156 | the floored shares never exceed the total and fall short of it by less than one per symbol |
| CountTables.NormalizeTable | core/src/tq_ac.c:117-156 | for all weights, all zero included, counts are at least 1 and sum to exactly 2^16 |
| CountTables.NormalizeLeftover | core/src/tq_ac.c:127-156 | only the first heaviest symbol gets more than its floor, by less than n unless every weight is zero |
| CountTables.NormalizeOrder | core/src/tq_ac.c:127-156 | a strictly heavier symbol never gets fewer counts |
| CountTables.NormalizeProportion | core/src/tq_ac.c:127-156 | counts are proportional to weights: beyond its one count a symbol has its exact part of the spread rounded down, the first heaviest up to one per other symbol more |
| CountTables.FindInverse | core/src/tq_ac.c:372-397 | the search returns i exactly on the targets of i's slice |
| CountTables.SumAndHeaviest | core/src/tq_ac.c:127-137 | the sum without overflow and the first heaviest index |
| CountTables.FillShares | core/src/tq_ac.c:138-152 | every count is one plus its floored share, without 64-bit overflow |
| CountTables.NormalizeCounts | core/src/tq_ac.c:127-156 | the count array, in place, is the normalised table |
| CountTables.Cum | core/src/tq_ac.c:372-381 | the cumulative count below an index |
| CountTables.FindSymbol | core/src/tq_ac.c:383-397 | the symbol of a target and the count below it |
| TokenCodec.TablesUsable | core/src/tq_ac.c:158-211 | for any logits, both tables are full tables of counts |
| TokenCodec.MaxIsGreatest | core/src/tq_ac.c:158-166 | the reference logit is one of the logits and none is greater, for any irreflexive and transitive comparison, so with NaN too |
| TokenCodec.ModeBucket | core/src/tq_ac.c:158-180 | the bucket of a largest logit has a mass of at least 1.0 |
| TokenCodec.ModeShare | core/src/tq_ac.c:182-211 | a largest logit of a bucket gets no less than an even share of its 2^16 counts |
| TokenCodec.CountsFollowLogits | core/src/tq_ac.c:182-211 | nearer to the reference weighs no less, and with more weight gets no fewer counts |
| TokenCodec.MassConserved | core/src/tq_ac.c:172-178 | the buckets' masses add up to the weights of all tokens: none lost, none counted twice |
| LogitWeights.DeltaTracks | core/src/tq_ac.c:87-101 | over exact reals the logit difference within the clamp is the real one in units of 2^-16 octaves, less than one off |
| LogitWeights.WeightNear | core/src/tq_ac.c:51-101 | so every token weighs 2^24 times e^(logit - max), within a sixteenth of an octave and 5 units |
| LogitWeights.ClampedWeighsNothing | core/src/tq_ac.c:78-101 | 18 below the reference and beyond a weight is 0, so clamping changes no output |
| LogitWeights.WeightsFollowLogits | core/src/tq_ac.c:182-211 | a larger logit never weighs less and the largest of a bucket weighs exactly 1.0 |
| TokenCodec.DecodeTokenInverts | core/src/tq_ac.c:399-442 | targets in the two slices of a token decode to that token |
| TokenCodec.AcModel.Init | core/src/tq_ac.c:105-115 | refused exactly when the vocabulary is empty or over 65536 |
| TokenCodec.AcModel.SumBuckets | core/src/tq_ac.c:158-178 | each bucket's weight is the sum over its own tokens, nothing left over from before |
| TokenCodec.AcModel.CountBuckets | core/src/tq_ac.c:158-180 | the bucket table is a function of the logits alone, whatever the table object held |
| TokenCodec.AcModel.CountSymbols | core/src/tq_ac.c:182-211 | so is the symbol table of a bucket |
| TokenCodec.AcModel.EncToken | core/src/tq_ac.c:399-419 | a token narrows the exact interval by its bucket and symbol, or is refused when out of range |
| TokenCodec.AcModel.DecToken | core/src/tq_ac.c:421-442 | the decoded token is always in the vocabulary, so the error at its end is unreachable |
| Semaphore.DecodeRestInVocab | host/tq_sem.c:191-222 | for any bytes, every token decoded after the first is in the vocabulary and earlier ones are kept |
| Semaphore.DecodedFirst | host/tq_sem.c:191-200 | for any bytes, the first token is BOS |
| Semaphore.MessageRoundTrip | host/tq_sem.c:136-222 | every list of 1 to 256 in-vocabulary tokens comes back exactly from its wire bytes, for any model |
| Semaphore.MessageSymbols | host/tq_sem.c:136-189 | what is coded: the length among 256, then for every token its bucket and its symbol in the tables made of the tokens before it |
| Semaphore.MessageFits | host/tq_sem.c:133-189 | a message needs at most 1026 bytes while encoding and 1023 on the air, so the 4096-byte buffer never overflows |
| Semaphore.Host.SemEncode | host/tq_sem.c:136-189 | the exact status, and on success the wire bytes, whatever the runtime and the tables held before |
| Semaphore.Host.SemDecode | host/tq_sem.c:191-222 | on any bytes exactly the decoding function's tokens or status, whatever the runtime and the tables held before |
| Semaphore.Host.DoMessage | host/tq_sem.c:300-329 | encode then decode with the same dirty cache and tables: a sendable message comes back equal exactly when it starts with BOS |
| KvCache.SlotInBounds | core/src/tq_forward.c:65-126 | every (layer, position, head, i) has a slot inside the cache |
| KvCache.SlotInjective | core/src/tq_forward.c:65-126 | no two of them share a slot |
| KvCache.KvHeadInRange | core/src/tq_forward.c:290-300 | the KV head of every query head exists |
| GroupedAttention.KvHeadServes | core/src/tq_forward.c:290-300 | KV head g serves exactly the query heads from g * m to (g + 1) * m, m being their number per KV head |
| KvCache.CellOffset | core/src/tq_forward.c:65-126 | the flat offset computed is the cell number times the head size |
| KvCache.Plane.StoreRow | core/src/tq_forward.c:65-126 | a stored vector is what its row holds, exactly or quantised head by head, and no other cell changes |
| KvCache.Plane.QuantCell | core/src/tq_forward.c:80-122 | one head is quantised against its own scale into its own cell only |
| KvCache.Plane.DotK | core/src/tq_forward.c:128-155 | the score of a cell is a function of what the cell holds, for both cache types |
| KvCache.Plane.AccV | core/src/tq_forward.c:157-182 | a cell's values are added into one slice of the output and nothing else |
| CacheAccuracy.EncodeAccuracy | core/src/tq_forward.c:65-122 | over exact reals a head is stored exactly in a float cache, and in an int8 cache within a 254th of its largest magnitude at every value |
| CacheAccuracy.ScoreReads | core/src/tq_forward.c:128-155 | a score read from a cell of either kind is the product with the stored vector |
| CacheAccuracy.SumReads | core/src/tq_forward.c:157-182 | adding from a cell of either kind adds the stored vector |
| Forward.Causal | core/src/tq_forward.c:231-377 | a later token changes nothing at an earlier position, in any layer |
| Forward.CacheExtends | core/src/tq_forward.c:268-292 | storing one position extends the cached prefix by it and disturbs nothing cached before |
| Forward.CachedPrefix | core/src/tq_forward.c:231-292 | a cache of the tokens before is what the next step starts from |
| Forward.Runtime.AttendHeads | core/src/tq_forward.c:293-330 | attention over the cache is attention over the recomputed keys and values of positions 0..pos |
| Forward.Runtime.LayerStep | core/src/tq_forward.c:258-362 | one layer turns inputs of the prefix into inputs of the next layer and extends the cache by one position; a failed read leaves the positions before cached |
| Forward.Runtime.Step | core/src/tq_forward.c:231-377 | the logits are those of recomputing the whole prefix, whatever else cache and scratch hold; the exact status, and after a failed read the step can be tried again |
| Forward.FirstFailureDecides | core/src/tq_forward.c:231-377 | its status is that of the first stage, in order, whose read fails, or OK |
| GroupedAttention.GroupsAreSeparate | core/src/tq_forward.c:293-330 | changing the keys and values of one KV head changes the output of no query head outside its group |
| GroupedAttention.AttentionIsTextbook | core/src/tq_forward.c:293-330 | over exact reals every value of every head is the softmax of the scaled scores of positions 0..t, times the stored values, of KV head h * nKvHeads / nHeads |
| GroupedAttention.LogitsAreTextbook | core/src/tq_forward.c:231-377 | the logits are those of the definition written out value by value: embed, in every layer attend and mix, classify the last position |
| Ansi.CleanChunks | tools/chat.py:130-133 | stripping terminal codes in two reads is stripping in one, wherever the cut falls |
| FramerLines.CodeVanishes | tools/chat.py:130-133 | escape, bracket, digits or semicolons, letter: such a code leaves no trace wherever it stands |
| FramerLines.CodeOnly | tools/chat.py:130-133 | and nothing else is taken for one |
| FramerLines.ReturnVanishes | tools/chat.py:214-221 | no carriage return comes out, and one leaves no trace |
| FramerLines.PlainPasses | tools/chat.py:214-221 | text without escapes and returns comes through as it is |
| Framer.MustHoldMonotone | tools/chat.py:181-191 | once a partial line is known to be text it stays text |
| Framer.ControlHeld | tools/chat.py:165-191 | no start of a log, footer, error or prompt line is let go as text |
| FramerLines.HeldExactly | tools/chat.py:165-191 | a partial line is held exactly when something could still follow that makes it a log line, the footer's dashes, an error line or the prompt |
| FramerLines.LogLineIs | tools/chat.py:162-178 | a log line is one that begins [dd:dd:dd.ddd,ddd] < |
| Framer.RunSplit | tools/chat.py:214-249 | running on a prefix and then on the rest is running on both |
| Framer.ChunkInvariance | tools/chat.py:214-273 | every way of cutting a quiet stream gives the same joined events, held-back tail and state as one read |
| Framer.InvariantExactlyWhenQuiet | tools/chat.py:214-273 | for a framer that has read nothing, in or past the echo: cutting makes no difference if and only if no complete line of the text after the echo begins with the prompt |
| Framer.QuietMeans | tools/chat.py:214-249 | the recursion that the proofs go by says just that of the text after the echo |
| Framer.PromptAndNewlineDisagree | tools/chat.py:201-243 | a framer just made, whatever its echo: the prompt as a line of its own is read differently in one piece and in two |
| FramerEcho.EchoEnds | tools/chat.py:222-232 | the text after the echo is what follows the first line at which the lines so far, joined, are not a proper prefix of what was typed |
| FramerEcho.EchoGoesOn | tools/chat.py:222-232 | while every line leaves it unfinished there is no text |
| FramerEcho.WholeEcho | tools/chat.py:201-232 | so what was typed, echoed on one line or wrapped in any way, is dropped exactly and all that follows is text |
| FramerEcho.EchoOnOneLine | tools/chat.py:201-232 | in particular on one line, as a wide terminal shows it |
| FramerEcho.EchoThenTranscript | tools/chat.py:214-273 | and however such a stream is cut, what comes out is the transcript of what follows the echo |
| FramerText.FooterRun | tools/chat.py:251-273 | in the footer only the first two lines that are not log lines count, and only prompts after them |
| FramerText.StreamRun | tools/chat.py:225-273 | one read of a text gives its transcript: text and error lines up to the footer marker, the statistics, the prompts, the unfinished line once it is known to be text |
| FramerText.EveryCut | tools/chat.py:214-273 | every way of cutting a stream, echo included, gives the joined events of that transcript |
| FramerText.TextOfEveryCut | tools/chat.py:214-273 | and as text exactly the lines before the marker that are not control lines, then the unfinished line or none of it |
| FramerText.ControlNeverText | tools/chat.py:165-273 | a log, footer or error line anywhere in a stream, cut anywhere: the text is that of the stream without it |
| FramerText.LogNeverSeen | tools/chat.py:165-273 | a log line anywhere after the echo leaves no trace in the events |
| FramerText.PromptEnds | tools/chat.py:239-243 | a prompt at a line start at the end of the stream is announced last and is not text |
| Framer.ShellFramer.MatchLog | tools/chat.py:165-174 | the loop returns the matched length of the log prefix or -1 |
| Framer.ShellFramer.FinishLine | tools/chat.py:251-273 | a complete line becomes the events and state of its function |
| Framer.ShellFramer.Feed | tools/chat.py:214-249 | the loop performs exactly one read of the specification |
| Vocabulary.CmpAntisymmetric | core/src/tq_tokenizer.c:34-46 | the comparison is zero exactly on equal strings and antisymmetric |
| Vocabulary.CmpTransitive | core/src/tq_tokenizer.c:34-46 | and transitive, strictly where a step is strict |
| Vocabulary.LookupExact | core/src/tq_tokenizer.c:49-73 | over the exporter's order, a string is found exactly when it is in the vocabulary |
| Vocabulary.SpellingIsByteForm | core/src/tq_tokenizer.c:103-115 | the spelling of a byte decodes to that byte |
| Tokenizer.BestIsLeftmostHighest | core/src/tq_tokenizer.c:181-209 | the scan picks the leftmost of the highest-scoring pairs that fit and spell a token |
| Tokenizer.MergeKeepsRaw | core/src/tq_tokenizer.c:207-214 | a merge keeps the concatenation of the raw pieces |
| Tokenizer.MergeRun | core/src/tq_tokenizer.c:181-214 | a whole run: fewer rounds than tokens, each merging the leftmost highest-scoring pair and keeping the raw text |
| Tokenizer.MergesExhausted | core/src/tq_tokenizer.c:181-209 | on exit no adjacent pair that fits the scratch buffer spells a token |
| Tokenizer.NextMerge | core/src/tq_tokenizer.c:181-209 | said of pieces alone: the next merge is the leftmost of the pairs whose joined token scores highest, and there is none exactly when no neighbours join |
| Tokenizer.EncodeStatus | core/src/tq_tokenizer.c:117-221 | TQ_ERR_NOMEM exactly when the split, or the EOS behind the merges, does not fit; EOS comes last and changes nothing before it |
| TokenizerCharacters.LeadMasks | core/src/tq_tokenizer.c:145-158 | the lead byte's classes are those of the code's masks, for every byte |
| TokenizerCharacters.ChunkIsCharacter | core/src/tq_tokenizer.c:145-162 | a well-formed character (section 4 of RFC 3629) is taken off whole |
| TokenizerCharacters.SplitByCharacters | core/src/tq_tokenizer.c:145-178 | every character of a well-formed text that is a piece becomes that one token, every other exactly the tokens of its bytes |
| TokenizerRoundTrip.SplitShows | core/src/tq_tokenizer.c:145-178 | the split into characters and byte tokens shows exactly the text, malformed or truncated UTF-8 included |
| TokenizerRoundTrip.MergeAllKeepsShape | core/src/tq_tokenizer.c:181-214 | merges that neither consume nor produce BOS or a byte token keep BOS first and alone and what the tokens show |
| TokenizerRoundTrip.RoundTrip | core/src/tq_tokenizer.c:117-271 | decoding the tokens of any byte string encoded by such merges gives it back if and only if its first token is not spelled " <0xHH>"; otherwise five bytes are lost |
| TokenizerRoundTrip.RoundTripAll | core/src/tq_tokenizer.c:117-271 | with no such piece in the vocabulary every such byte string comes back |
| TokenizerRoundTrip.PartFromLeft | core/src/tq_tokenizer.c:181-214 | merging is local: the first n tokens of a result are what some part of the input from the left merges into on its own |
| TokenizerRoundTrip.FailsOnlyOnSpelled | core/src/tq_tokenizer.c:117-271 | a byte string that does not come back starts with a spelled byte "<0xHH>" that is one token on its own |
| TokenizerRoundTrip.VocabularyRoundTrip | core/src/tq_tokenizer.c:117-271 | so a vocabulary gives every byte string back if and only if none of the 484 strings "<0xHH>" is one token |
| TokenizerTrap.SpelledByteFails | core/src/tq_tokenizer.c:181-271 | for each of those strings there is a vocabulary on which it comes back as the single byte |
| TokenizerTrap.PlainVocabularyFails | core/src/tq_tokenizer.c:181-271 | also one whose every merge is plain: " <0x4a>" a token, "<0x4a>" comes back as "J" |
| TokenizerCode.TqTokenizer.LookUp | core/src/tq_tokenizer.c:49-73 | the binary-search loop computes the lookup |
| TokenizerCode.TqTokenizer.BestPair | core/src/tq_tokenizer.c:182-209 | the scan over the token array finds the best pair and writes only the scratch buffer |
| TokenizerCode.TqTokenizer.MergeAt | core/src/tq_tokenizer.c:210-213 | overwriting and closing the gap replaces the pair |
| TokenizerCode.TqTokenizer.Encode | core/src/tq_tokenizer.c:117-221 | in place, the exact count or TQ_ERR_NOMEM, and the exact tokens |
| TokenizerCode.TqTokenizer.Decode | core/src/tq_tokenizer.c:237-271 | the exact status and bytes with their NUL, nothing past it written |
| TextMessages.PrintText | host/tq_sem.c:224-237 | the loop shows every token decoded into a 64-byte buffer, up to its NUL |
| TextMessages.TextRoundTrip | host/tq_sem.c:191-237 | a short enough text, tokenised, coded, decoded and shown, comes out as it was, exactly unless its first token is " <0xHH>" |
| TextMessages.SendText | host/tq_sem.c:300-329 | one host does that with the caller's arrays: sent exactly when short enough, shown exactly as the theorem says |
| HeapSort.SortDescSorts | core/src/tq_sample.c:89-113 | the heapsort gives a descending permutation of the (probability, token) pairs |
| HeapSort.SiftHeap | core/src/tq_sample.c:65-86 | sifting a hole restores the heap |
| HeapSort.TqSift | core/src/tq_sample.c:65-86 | the loop sifts both arrays alike and leaves the rest |
| HeapSort.TqHeapSortDesc | core/src/tq_sample.c:89-113 | the three loops sort both arrays in place |
| Nucleus.EndAboveCutoff | core/src/tq_sample.c:157-184 | a nucleus that goes past the first entry holds nothing below (1-p)/(n-1) |
| Nucleus.CutoffShares | core/src/tq_sample.c:157-165 | the cutoff is what the nucleus leaves, shared among all tokens but one |
| Nucleus.PrefilterKeepsNucleus | core/src/tq_sample.c:157-184 | however all tokens are ranked, the prefiltered candidates stop at the same place with the same probabilities; with none left the nucleus is the top token alone |
| Nucleus.PrefilterDrawsTheSame | core/src/tq_sample.c:157-195 | the sampled token has the probability that sorting everything would have drawn |
| Nucleus.DistinctDrawsTheSame | core/src/tq_sample.c:157-195 | with all probabilities different it is the same token |
| Nucleus.DrawnSlice | core/src/tq_sample.c:186-194 | the drawn entry's slice of the nucleus holds the draw |
| Generator.NeverStuck | core/src/tq_sample.c:23-48 | no seed ever leads the generator to zero, where it would stay |
| Sampler.SoftmaxIsDistribution | core/src/tq_sample.c:126-142 | the in-place softmax is positive and sums to one |
| Sampler.SoftmaxKeepsOrder | core/src/tq_sample.c:126-142 | and keeps the order of the logits |
| Sampler.SoftmaxRatio | core/src/tq_sample.c:126-142 | two probabilities stand to each other as the exponentials of the logits divided by the temperature |
| Sampler.CoolerIsSharper | core/src/tq_sample.c:126-142 | a lower temperature never lowers the share of the likeliest token |
| Sampler.TqSampler.Sample | core/src/tq_sample.c:115-196 | every branch returns exactly the specified token for the next draw of the generator, which moves on exactly when a number is drawn; the logits are replaced by the softmax |
| Sampler.TqSampler.Prefilter | core/src/tq_sample.c:165-171 | exactly the entries that reach the cutoff, in order |
| Sampler.SampledIsToken | core/src/tq_sample.c:115-196 | whatever the settings, the result is a token |
| Sampler.MultinomialSlice | core/src/tq_sample.c:144-155 | plain sampling returns the token whose slice of [0, 1) holds the draw |
| Sampler.NucleusSlice | core/src/tq_sample.c:157-195 | nucleus sampling returns a nucleus token whose slice, scaled by the nucleus mass, holds the draw |
| DotKernels.NibbleLanes | core/src/tq_kernels.c:294-303 | masking, shifting and SSUB8 turn four packed bytes into the eight signed nibbles |
| DotKernels.SmladPairExact | core/src/tq_kernels.c:305-308 | two SMLADs on sign-extended even and odd bytes add the four exact products |
| DotKernels.ShiftsAreDivisions | core/src/tq_kernels.c:300-308 | the byte-wise view of the register shifts is the shift |
| DotKernels.IntDotBound | core/src/tq_kernels.c:284-353 | the int32 accumulator cannot overflow |
| DotKernels.BlockScalar40 | core/src/tq_kernels.c:310-319 | the portable Q4 loop is the sum over the unpacked values |
| DotKernels.BlockDsp40 | core/src/tq_kernels.c:294-309 | the DSP Q4 loop is the same sum |
| DotKernels.BlockScalar80 | core/src/tq_kernels.c:346-349 | the portable Q8 loop is the sum over the unpacked values |
| DotKernels.BlockDsp80 | core/src/tq_kernels.c:337-344 | the DSP Q8 loop is the same sum |
| DotKernels.DotQ40Q80 | core/src/tq_kernels.c:284-324 | either backend returns the same float sum over any number of blocks |
| DotKernels.DotQ80Q80 | core/src/tq_kernels.c:326-354 | either backend returns the same float sum over any number of blocks |
| Matvec.Store.View | core/src/tq_kernels.c:378-393 | the bytes asked for, or a refusal exactly when out of the file, too big for the tile, or the read fails |
| Matvec.Kernel.Mapped | core/src/tq_kernels.c:413-433 | the mapped sweep writes every row's product, with its exact status |
| Matvec.Kernel.Streamed | core/src/tq_kernels.c:435-467 | the tiled sweep writes the same rows and reads each row once, in whole rows |
| Matvec.Kernel.Matvec | core/src/tq_kernels.c:397-468 | both paths compute the rows of the matrix; the byte counter grows by the matrix |
| Matvec.SweepsAgree | core/src/tq_kernels.c:397-468 | two outputs that are both the rows of the matrix, as every successful run of `Kernel.Matvec` leaves them, are the same |
| QuantizedRows.Row40Reads | tools/etq/quantize.py:52-83 | the blocks quantize_q4_0 packs, scale bytes and split nibbles, read back as the levels packed less 8 |
| QuantizedRows.Row80Reads | tools/etq/quantize.py:35-49 | the blocks quantize_q8_0 packs read back as the levels packed |
| QuantizedRows.DotIsDequantized | core/src/tq_kernels.c:248-354 | over exact reals what both backends return is the product of the dequantised vectors |
| QuantizedRows.RowProduct40 | core/src/tq_kernels.c:397-433 | so an output over an exported Q4 row is the dequantised row times the dequantised input |
| QuantizedRows.RowProduct80 | core/src/tq_kernels.c:397-433 | and the same for Q8 |
| Rope.InterleavedRow | tools/etq/convert.py:43-47 | rows 2i and 2i+1 of an exported head are rows i and half+i of the checkpoint's |
| Rope.FromInvertsTo | tools/etq/convert.py:43-47 | no row is lost or repeated |
| Rope.RotationsAgree | core/src/tq_forward.c:203-227 | rotating neighbours of the interleaved vector is interleaving the rotated halves |
| Rope.MatVecInterleaved | tools/etq/convert.py:246-249 | permuting the rows of a projection permutes what it projects to |
| Rope.HeadDot | core/src/tq_forward.c:128-155 | interleaving both sides of a head does not change their product |
| Rope.ScoresUnchanged | tools/etq/convert.py:246-249 | the export changes no attention score: any head, any two positions, grouped KV heads or not |
| Rope.RopeApply | core/src/tq_forward.c:203-227 | the loops rotate every head in place and leave the rest |
| RopeAngles.AxesTurn | core/src/tq_forward.c:203-227 | the first axis of a pair goes to (cos, sin), the second to (-sin, cos) |
| RopeAngles.AnglesAdd | core/src/tq_forward.c:203-227 | rotating twice is rotating once by the sum of the angles |
| RopeAngles.BackUndoes | core/src/tq_forward.c:203-227 | the opposite rotation undoes it |
| RopeAngles.RotationKeepsDot | core/src/tq_forward.c:203-227 | vectors rotated alike keep their product, and so their length |
| RopeAngles.ScoreDependsOnDistance | core/src/tq_forward.c:186-227 | the score of a query and a key depends on their positions by the difference alone |
| Arena.PlacesDisjoint | core/src/tq_model.c:34-44 | carved pieces lie at 16-aligned addresses, inside the buffer, without overlap |
| Arena.Arena.Carve | core/src/tq_model.c:34-44 | a piece at the next aligned address, or NULL exactly when it does not fit |
| Arena.RuntimeBytesSuffice | core/src/tq_model.c:368-384 | the bytes tq_runtime_bytes asks for are enough at any base address |
| Arena.Int8BytesSufficeIff | core/src/tq_model.c:354-364 | for an int8 cache tq_kv_bytes is enough if and only if the base's skew and the planes' padding fit its slack |
| Arena.Int8BytesSuffice | core/src/tq_model.c:354-364 | so it is at a 16-aligned base, and at any base when a plane is whole 16-byte units |
| Arena.UnalignedInt8CacheRunsOut | core/src/tq_model.c:354-364 | with one-value heads at an odd base 72 bytes are asked for and 79 needed |
| Arena.FloatBytesSuffice | core/src/tq_model.c:365 | a float cache always fits |
| Arena.SizedBuffersFit | core/src/tq_model.c:354-384 | a caller who asks the sizing functions and aligns an int8 cache gets every piece |
| Arena.LaidIsSound | core/src/tq_model.c:386-457 | the pointers handed out are aligned, in bounds and disjoint |
| Arena.TqRuntime.Init | core/src/tq_model.c:386-457 | the exact status, and on success every pointer where its piece goes |
| RuntimeShape.FastPiecesFit | core/src/tq_model.c:386-433 | the pieces carved from fast memory are as long as the arrays and vectors of the decode step they are for |
| RuntimeShape.SmallPiecesFit | core/src/tq_model.c:386-433 | and so are the rotation tables and the quantised activations |
| RuntimeShape.CachePiecesFit | core/src/tq_model.c:434-457 | and the cache pieces, for both kinds of cache |
| RuntimeShape.SizesAgree | core/src/tq_kernels.c:186-202 | writer and kernels reckon the same payload sizes |
| EtqFormat.PackRoundTrip | tools/etq/format.py:32-37 | little-endian records read back what was packed |
| EtqFormat.PayloadsDisjoint | tools/etq/format.py:109-121 | payload offsets are 64-aligned, past the directory, and do not overlap |
| EtqFormat.Writer.Add | tools/etq/format.py:98-107 | a tensor is accepted exactly when its name, rank and payload size are right |
| EtqFormat.Writer.Write | tools/etq/format.py:109-143 | the file is exactly header, directory and payloads at the promised offsets, or an error exactly when a number does not fit its field, the dimensions signed |
| EtqFormat.Read | tools/etq/format.py:164-186 | the reader's loop is its function, errors included: a bad magic or version, a record past the end, a name that is not UTF-8 or too long, a rank over 4 |
| EtqFormat.EntryRoundTrip | tools/etq/format.py:179-186 | a written directory entry reads back as its tensor |
| EtqFormat.FileRoundTrip | tools/etq/format.py:98-186 | every written file reads back: configuration, order, names, dtypes, shapes, payloads |
| EtqFormat.ByNameFinds | tools/etq/format.py:177-186 | with distinct names the dictionary holds every tensor under its own |
| EtqBytes.HeaderWords | core/include/tq/tq_format.h:86-119 | for any file, which bytes the loader takes every number of the header from, little-endian |
| EtqBytes.EntryWords | core/include/tq/tq_format.h:121-130 | and every field of a directory entry |
| EtqBytes.WrittenWords | tools/etq/format.py:124-135 | a written file has every number of the configuration at those bytes |
| ModelBinding.LayerNameParses | core/src/tq_model.c:258-266 | a layer name with three digits is recognised as exactly its layer and suffix |
| ModelBinding.WalkBinds | core/src/tq_model.c:224-324 | the directory walk binds each global to the first and each layer slot to the last tensor of its name |
| ModelBinding.WrittenFileOpens | core/src/tq_model.c:110-350 | a written file of well-typed tensors opens if and only if none is missing, and every slot is then the offset of its tensor |
| ModelBinding.MistypedFileRefused | core/src/tq_model.c:79-108 | a written file with a tensor the loader knows, of another dtype or shape, is refused with TQ_ERR_SHAPE |
| ModelBinding.UnrunnableFileRefused | core/src/tq_model.c:128-165 | a configuration the loader cannot run is refused with the status of its header checks |
| RuntimeShape.WrittenVerdict | core/src/tq_model.c:128-165 | namely TQ_ERR_UNSUPPORTED for a quantisation that is not Q8_0 or Q4_0, and otherwise TQ_ERR_SHAPE |
| RuntimeShape.AcceptedExactly | core/src/tq_model.c:128-165 | a header passes exactly when it spells ETQ1, version 1, fits the store, and has positive dimensions that divide as they must |
| RuntimeShape.AcceptedShape | core/src/tq_model.c:128-176 | and then the shape is one the decode step can work with, its KV dimension that of the cache |
| OpenedModel.OpenedIsBacked | core/src/tq_model.c:110-350 | for any bytes: in an opened model every needed slot is the offset of a directory entry of its name, type and shape that starts aligned and ends in the file, unless its end overflows 64 bits |
| TokenTensors.CmpIsBefore | tools/etq/convert.py:50-57 | the order sorted() gives byte strings is the order of tq_cmp |
| TokenTensors.SortIdsSorts | tools/etq/convert.py:50-57 | the exported permutation lists every id once, in the order of its piece, equals by id |
| TokenTensors.VocabReads | core/src/tq_tokenizer.c:24-73 | the blob, offsets and permutation read back as the vocabulary of the pieces written, sorted as the lookup needs it |
| ModelWriter.NamesAgree | tools/etq/convert.py:60-100 | every name the exporter spells is the one the loader looks for |
| ModelWriter.GlobalFits | tools/etq/convert.py:60-95 | a global tensor is exported with the dtype the loader wants, and its shape fits exactly when it is the configuration's |
| ModelWriter.PartFits | tools/etq/convert.py:72-100 | and so is every tensor of a layer |
| ModelWriter.WrittenDistinct | tools/etq/convert.py:85-108 | no tensor name is exported twice |
| ModelWriter.WriteModel | tools/etq/convert.py:60-108 | the exporter's loops write exactly the tensors of the model, in order, or raise exactly when a weight is missing, a payload has the wrong size or a number does not fit |
| ModelWriter.WrittenModelOpens | tools/etq/convert.py:85-108 | what the exporter wrote the loader accepts if and only if the weights have the configuration's shapes and there are at most 1000 layers; otherwise it reports the shape, or else a missing tensor |
| ModelWriter.LlamaShapesRight | tools/etq/convert.py:129-186 | the arrays load_llama2c cuts out always have those shapes |
| ModelWriter.ExportedVocabulary | tools/etq/convert.py:50-71 | a tokenizer on the exported and opened model starts, and its vocabulary is the pieces that went in, sorted; without pieces it reports it missing |
| ModelOpenCode.NameEq | core/src/tq_model.c:47-63 | the fixed-width comparison is equality of the C strings |
| ModelOpenCode.TqModel.Match | core/src/tq_model.c:79-108 | the list of wanted tensors is updated as specified |
| ModelOpenCode.TqModel.BindDirectory | core/src/tq_model.c:224-324 | reading the directory 32 entries at a time walks every entry, or gives the status of the first bad entry or of the first chunk outside the file |
| ModelOpenCode.TqModel.TqOpen | core/src/tq_model.c:110-350 | mapped or streamed, the exact status of the specification when views succeed, and on success the slots |

## Left out

- The encoder's pending counter is an unbounded count; its 64-bit field cannot be filled by any message.
- Numerical accuracy: rounding of floats, the error of the quantised weights and activations, the transcendental functions of `tq_math.c` and half-precision conversion. Float operations are parameters, or exact reals in sampling and RoPE.
- In the sampler a one-token vocabulary makes the float cutoff infinite; over reals that case is its own branch. NaN scores and logits are not part of the sampler and of the merge scores.
- Forward.Runtime.Step: the dense parts (norms, projections, SwiGLU, softmax, the angles of a position) are functions from values to values, and the reads of one stage (embedding, a layer before and after attention, output head) are one status; `Matvec` inside `Forward` is not connected.
- Semaphore.Host.SemEncode: the measured `ideal` and `charged` lengths are not computed; the source reads the logit of the next token for them before its range check.
- Semaphore.Host.DoMessage: takes the tokens; text, timing and the compression baselines around it are left out.
- TokenCodec.AcModel.Init: the header comment promises an argument error where the code returns TQ_ERR_RANGE; the model follows the code. The remark in `tq_ac.h` that the product of the two levels is exactly P(symbol) is not stated: both levels are rounded.
- CoderTheorems.LengthBound: says nothing about the firmware's 640-byte buffer.
- Framer.ShellFramer.Feed: works on characters; `str.isdigit` and the statistics parser are parameters, and UTF-8 decoding per chunk, serial timeouts and the control-character scrub on display are left out.
- TokenizerCode.TqTokenizer.Encode: the text is its bytes up to the NUL; a BOS id outside the vocabulary, which the loader does not reject, is excluded. Masks on lead bytes are written as divisions.
- TokenizerRoundTrip.RoundTrip: the vocabulary is sorted, holds " " and all byte tokens, BOS is not spelled like one character, pieces fit the output buffer, and the merges made on the text never touch BOS or a byte token.
- TextMessages.SendText: UTF-8 is not asked for; the text is its bytes up to the NUL, and one array serves each of tokens, wire and answer.
- Arena.Arena.Carve: sizes are unbounded integers, not `size_t`; so are the offsets in `ModelOpen` other than the entry's own sum.
- Rope.RopeApply: heads of even size; the loader accepts odd ones, whose last value the loop leaves alone.
- QuantizedRows.Row40Reads: starts from the levels; choosing scale and levels from floats is left out.
- EtqFormat.FileRoundTrip: names are UTF-8 without NUL; numbers are natural, so a negative dimension or token id is not modelled; the float fields are their 32-bit patterns, so rounding a Python float to one happens before.
- ModelWriter.WriteModel: arrays are their shape and float32 bytes; what the quantiser makes of them is a parameter. load_hf passes shapes through unchecked, which is what WrittenModelOpens is about.
- Sampler.TqSampler.Sample: the draw is the exact multiple of 2^-24, as in float.
- ModelOpenCode.TqModel.TqOpen: which error a bad file gets is exact only when the store's views succeed wherever the file reaches.
- ModelBinding.WrittenFileOpens: layer names are assumed to carry decimal digits; the loader itself does not check them.
- `tq_quantize_q8`, `tq_dequantize`, the checkpoint readers, SD card, PSRAM, USB and shell commands of the firmware: input, output and hardware.
