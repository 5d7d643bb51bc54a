# Verified models of the hash, cypher, JSON, mail and pipe libraries

A Dafny project that models the self-contained algorithmic libraries of the repository and proves
what they are for. `dafny verify dfyconfig.toml` checks all of it.

- **Hash pipeline** (`Words`, `Pack`, `MerkleDamgard`, `StreamPreprocessor`, `Padding`,
  `PaddingOctets`). Words are bit sequences and widths are parameters, under the static assertions
  of the headers. The buffering, counting and bulk path of the preprocessor are a class over an
  array; its invariant ties the blocks already hashed, the buffer and the wrapped counter to the
  message so far, and says nothing about stale buffer contents. `PaddingOctets` has the results in
  octets and numbers. The compressor is a function parameter.
- **Block cyphers** (`BasicFunctions`, `BasicFunctions32`, `Threefish`, `ThreefishSchedule`,
  `ThreefishCypher`, `MdSteps`, `MdReference`, `MdCyphers`, `Shacal`, `Shacal2`, `ShaReference`) and
  **CubeHash** (`CubeHash`, `CubeHashSteps`, `CubeHashReference`, `CubeHashUnrolled`,
  `CubeHashSse`). Each has a specification one round or step at a time with an inverse written
  separately, and methods with the loops, registers, unrolling and lanes of the source. Round
  constants, keys and schedules are arbitrary. `ThreefishSchedule`, `MdReference`, `ShaReference`
  and `CubeHashSteps` state the specifications as the standards do: bits, indices, tables and
  amounts.
- **Adler** (`Adler`, with `Arithmetic` and `Bytes` shared by the others). All even widths from 8 to
  64 bits, with the primes of `primes.hpp` and the batch limit the header computes.
- **JSON** (`Json`, `JsonWriter`, `JsonGrammar`, `JsonReader`, `JsonRoundTrip`, `JsonText`,
  `JsonUnicode`, `JsonRefusals`). The grammar is a set of recursive functions on the remaining text,
  with the scanner's white space and comments; the reader is a class whose stack holds paths into
  the tree being built. What the round trip does not reach, escapes nobody writes, numbers, comments
  and refused texts, has theorems of its own.
- **Mail** (`QuotedPrintable`, `QuotedPrintableLines`, `QuotedPrintableShape`,
  `QuotedPrintableBounds`, `QuotedPrintableRoundTrip`, `Multipart`, `MultipartRoundTrip`, `Smtp`,
  `SmtpSession`, `SmtpRuns`, `SmtpReplies`, `SmtpClient`). `Smtp` is the protocol as flat
  transitions with a log of everything said and heard, with what every run keeps (`SmtpSession`) and
  where the runs that go well end (`SmtpRuns`); `SmtpClient` is the class with its re-entrant state
  changes and its iterators, and each entry point is one step of the protocol.
- **Coroutine structures** (`CoroHistory`, `CoroQueue`, `CoroLedger`, `Pipe`). Operations are atomic
  steps of classes; posting to the `io_service` appends to a log.

Where the code and its documentation disagree the code is modelled:

- The comment in `adler.hpp` lists a limit of 16 for 16 bits; the code computes 15
  (`Adler.LimitTable`).
- The reader turns the two code units of a surrogate pair into four bytes each, which are no UTF-8
  (`JsonUnicode.Utf8Decodes`), although the comment there promises UTF-8.
- `write_json_helper` writes the indentation before a closing `]` in compact form too.
- `SmtpClient::reset` never leads to `isReset` being set, so that `waitForReset` cannot report
  success.
- `DisconnectingState` clears `isReadyConnected` but not `isAuthenticated`; the unconnected event
  clears both.
- `SmtpClient::socketReadyRead` looks at the last available line only, so that of two replies that
  arrive together the first is not seen, and a reply before a continuation line is not seen either.
  `SmtpReplies.EveryReplySeenExactly` has the exact condition, `SmtpReplies.GreetingMissed` an
  input.
- `MimeQPFormatter` does not count a `=` it carries to a new line, so that a line may be 77
  characters long at the default length; rule 5 of section 6.7 of RFC 2045 allows 76. Which texts
  meet the rule: `QuotedPrintableBounds.BoundMetExactly`. At line length 2 it tears escapes apart.
- `QuotedPrintable::decode` does not remove soft line breaks, so that it undoes encoding and folding
  exactly when no break was put in (`QuotedPrintableRoundTrip.DecodeFoldExactly`); removing them is
  a function of the model's own (`QuotedPrintableLines.EndToEnd`).
- `async_coro_queue::cancele` leaves waiting `async_wait`s alone when no `async_pop` waits.
- `interthread_stream::shutdown` of the receiving side leaves a writer asleep while more than 512
  bytes are buffered; `async_write_some` accepts data after the sending side is closed
  (`Pipe.EofMeansAll`).

## Model

| member | source | states |
|---|---|---|
| Words.UnboundedShl | avboost/include/boost/hash/detail/unbounded_shift.hpp:18-32 | bit i of the result is bit i - n of the argument, for every shift count, also past the width where the language leaves shifts undefined |
| Words.UnboundedShr | avboost/include/boost/hash/detail/unbounded_shift.hpp:18-36 | bit i of the result is bit i + n of the argument, for every shift count |
| Words.LowBits | avboost/include/boost/hash/detail/unbounded_shift.hpp:38-42 | exactly the bits below n are kept, for every n, although the mask is made by shifting all ones |
| Words.Extract | avboost/include/boost/hash/detail/exploder.hpp:47-53 | the step takes b consecutive bits of the value from the shift on, and the result has nothing set above them |
| Words.Deposit | avboost/include/boost/hash/detail/imploder.hpp:34-39 | the step sets b consecutive bits to the narrow value and leaves every other bit alone |
| Pack.BitPosBijective | avboost/include/boost/hash/detail/exploder.hpp:44-100 | each of the four stream orders is a bijection between stream positions and bit numbers of a word, with its inverse given |
| Pack.ShiftAligns | avboost/include/boost/hash/detail/exploder.hpp:49-95 | in every order and for every admissible pair of widths, the shift of step k lines stream positions k onward up with one contiguous run of bits, in the order of a narrow word, inside the wide word |
| Pack.ExploderStepBits | avboost/include/boost/hash/detail/exploder.hpp:44-100 | the narrow value of step k carries exactly stream bits k to k + narrow of the wide value |
| Pack.ExplodeBits | avboost/include/boost/hash/detail/exploder.hpp:124-149 | the compile-time recursion emits all remaining stream bits of the value, in order |
| Pack.ImploderStepBits | avboost/include/boost/hash/detail/imploder.hpp:31-83 | ORing the narrow value in appends its stream bits to those already there |
| Pack.ImplodeBits | avboost/include/boost/hash/detail/imploder.hpp:104-129 | the recursion over the narrow values builds the value whose stream is their concatenated stream |
| Pack.ExplodeInto | avboost/include/boost/hash/detail/exploder.hpp:137-148 | the recursion that writes through the output iterator appends exactly the exploded values |
| Pack.ImplodeFrom | avboost/include/boost/hash/detail/imploder.hpp:117-128 | reads as many inputs as complete one value, no more, and computes the imploded value |
| Pack.CopyN | avboost/include/boost/hash/pack.hpp:106-110 | the loop of the equal-width packer converts each value in turn |
| Pack.ExplodeN | avboost/include/boost/hash/pack.hpp:128-137 | the loop of the exploding packer equals its specification over whole sequences |
| Pack.ImplodeN | avboost/include/boost/hash/pack.hpp:160-172 | the loop of the imploding packer, which counts outputs by division, equals its specification over whole sequences |
| Pack.PackN | avboost/include/boost/hash/pack.hpp:94-187 | the choice among the three packers equals the specification of packing; equal widths need no relation to the unit |
| Pack.PackKeepsBits | avboost/include/boost/hash/pack.hpp:94-187 | packing re-slices one bit stream: for every order, widths and input the output has the same stream bits |
| Pack.PackCanonical | avboost/include/boost/hash/pack.hpp:94-187 | no output value has a bit set above its width |
| Pack.PackIsUnique | avboost/include/boost/hash/pack.hpp:94-187 | the result is the only canonical one with the input's bits |
| Pack.PackRoundTrip | avboost/include/boost/hash/pack.hpp:120-187 | explode then implode, and implode then explode, give the input back, in all four orders and at all widths the static assertions allow |
| Pack.PackComposes | avboost/include/boost/hash/pack.hpp:94-187 | packing A to B to C equals packing A to C |
| Pack.MemoryOrder | avboost/include/boost/hash/pack.hpp:57-72 | on a little-endian host, where a unit-based little-endian stream bit lies in memory |
| Pack.MemcpyIsPack | avboost/include/boost/hash/pack.hpp:28-72 | wherever host_can_memcpy selects the shortcut, values with the same bytes are exactly the values packing gives |
| Pack.SameSizeCopy | avboost/include/boost/hash/pack.hpp:40-47 | equal widths in types of equal size: copying is the conversion |
| MerkleDamgard.BlockHash.Update | avboost/include/boost/hash/merkle_damgard_block_hash.hpp:57-61 | the state stays the iteration of the compressor over the blocks since the last reset |
| MerkleDamgard.BlockHash.EndMessage | avboost/include/boost/hash/merkle_damgard_block_hash.hpp:62-72 | the digest is the finished iteration over all blocks, and the hash is reset |
| MerkleDamgard.BlockHash.Digest | avboost/include/boost/hash/merkle_damgard_block_hash.hpp:73-75 | a digest in mid-stream is what end_message would give and changes nothing |
| MerkleDamgard.BlockHash.Reset | avboost/include/boost/hash/merkle_damgard_block_hash.hpp:79-83 | back to the initial value, with no block seen |
| StreamPreprocessor.Preprocessor.ProcessBlock | avboost/include/boost/hash/stream_preprocessor.hpp:68-79 | the whole buffer, packed, goes to the block hash; without a length field the counter restarts |
| StreamPreprocessor.Preprocessor.UpdateOne | avboost/include/boost/hash/stream_preprocessor.hpp:104-115 | one value is appended to the message: blocks handed over, buffered values and a counter that may wrap stay those of the message |
| StreamPreprocessor.Preprocessor.UpdateBlock | avboost/include/boost/hash/stream_preprocessor.hpp:123-135 | a block packed straight from the input equals the same values sent one by one |
| StreamPreprocessor.Preprocessor.UpdateN | avboost/include/boost/hash/stream_preprocessor.hpp:116-141 | the bulk path appends exactly its values: any mix of calls whose values concatenate to M leaves the same message |
| StreamPreprocessor.Preprocessor.Update | avboost/include/boost/hash/stream_preprocessor.hpp:147-152 | the path for other iterators does the same |
| StreamPreprocessor.NoOvershoot | avboost/include/boost/hash/stream_preprocessor.hpp:106-110 | a counter whose range is a whole number of blocks wraps only at a block boundary |
| StreamPreprocessor.CountMore | avboost/include/boost/hash/stream_preprocessor.hpp:106-113 | the wrapped bit counter keeps telling the position in the block, value by value |
| StreamPreprocessor.BulkMore | avboost/include/boost/hash/stream_preprocessor.hpp:123-135 | the same for a whole block in the bulk loop |
| StreamPreprocessor.LoopTest | avboost/include/boost/hash/stream_preprocessor.hpp:181-183 | the test of the padding loop on the wrapped counter says exactly whether the length field would end a block |
| StreamPreprocessor.CounterRightExactly | avboost/include/boost/hash/stream_preprocessor.hpp:57-64 | the position taken from a counter of bits that wraps is right for every message if and only if the block size divides the range of the counter; for messages below that range it is right in any case |
| StreamPreprocessor.ZeroCount | avboost/include/boost/hash/stream_preprocessor.hpp:181-183 | the padding loop ends after exactly the number of zero values the specification names, so it terminates |
| StreamPreprocessor.Preprocessor.Pad | avboost/include/boost/hash/stream_preprocessor.hpp:168-183 | pad value and zeros bring the message to its padded form |
| StreamPreprocessor.Overwrite | avboost/include/boost/hash/stream_preprocessor.hpp:92-94 | the backward loop replaces exactly the last words of the block by the length words |
| StreamPreprocessor.Preprocessor.AppendLength | avboost/include/boost/hash/stream_preprocessor.hpp:80-102 | the last block is the values left over followed by the length, whatever stale values the buffer holds |
| StreamPreprocessor.Preprocessor.EndMessage | avboost/include/boost/hash/stream_preprocessor.hpp:164-193 | the digest is that of the padded message's blocks, for every history of updates, and the object is ready for the next message as a fresh one is |
| StreamPreprocessor.Preprocessor.Digest | avboost/include/boost/hash/stream_preprocessor.hpp:194-196 | a digest in mid-stream equals what ending the message would give and changes no later result |
| StreamPreprocessor.Preprocessor.Reset | avboost/include/boost/hash/stream_preprocessor.hpp:200-204 | an empty message, whatever is left in the buffer |
| StreamPreprocessor.Preprocessor.Copy | avboost/include/boost/hash/stream_preprocessor.hpp:194-196 | a copy has the same message and shares no storage |
| Padding.FormatValid | avboost/include/boost/hash/stream_preprocessor.hpp:33-65 | every instantiation the static assertions accept, with a block size that divides the range of a tracked length's counter, meets what the preprocessor needs |
| Padding.FewestZeros | avboost/include/boost/hash/stream_preprocessor.hpp:180-183 | the number of 0 bits is the least that leaves exactly the length field to complete a block |
| Padding.PaddedValuesBits | avboost/include/boost/hash/stream_preprocessor.hpp:164-183 | as bits, the padded values are the message, a 1, and the fewest zeros |
| Padding.LengthWordsBits | avboost/include/boost/hash/stream_preprocessor.hpp:87-94 | the length words carry the length field, capped at 64 significant bits, in the stream's order |
| Padding.PaddedBlocksBits | avboost/include/boost/hash/stream_preprocessor.hpp:164-193 | what the block hash receives is, bit for bit, the message, a 1 bit, the fewest 0 bits and the length (section 5.1 of FIPS 180-2, sections 3.1 and 3.2 of RFC 1321) |
| Padding.UnpadPad | avboost/include/boost/hash/stream_preprocessor.hpp:164-186 | padding can be undone |
| Padding.PadInjective | avboost/include/boost/hash/stream_preprocessor.hpp:164-186 | two messages have the same padded form if and only if they are equal, with or without a length field and at any length |
| Padding.BlocksInjective | avboost/include/boost/hash/stream_preprocessor.hpp:164-193 | different messages are never hashed as the same block sequence |
| Padding.WithLengthValid | avboost/include/boost/hash/stream_preprocessor.hpp:52-65 | the instantiations with a length field (MD4, MD5, SHA families) meet all conditions |
| Padding.WithoutLengthValid | avboost/include/boost/hash/stream_preprocessor.hpp:52-65 | so do the ones without (CubeHash), for every block size in octets it allows |
| PaddingOctets.OctetBit | avboost/include/boost/hash/detail/exploder.hpp:44-100 | of units of eight bits, stream bit k of an octet is bit 7 - k under an order with the big bit first and bit k under one with the little bit first |
| PaddingOctets.OctetsPack | avboost/include/boost/hash/pack.hpp:94-187 | octets pack into the words whose bits are the octets' bits put together, first octet highest or first octet lowest, and unpack into themselves; stated without bit positions |
| PaddingOctets.FourOctets | avboost/include/boost/hash/pack.hpp:94-187 | as numbers: four octets make b0 2^24 + b1 2^16 + b2 2^8 + b3 with the big unit first (section 3.1 of FIPS 180-2) and the reverse with the little unit first (section 2 of RFC 1321), and come back |
| PaddingOctets.OctetsNumber | avboost/include/boost/hash/pack.hpp:94-187 | so do any number of octets: the word is the octets' number to the base 256, from either end |
| PaddingOctets.PadOctet | avboost/include/boost/hash/stream_preprocessor.hpp:164-183 | the pad octet is 0x80 with the big bit first and 0x01 with the little bit first |
| PaddingOctets.PadIs80 | avboost/include/boost/hash/sha2.hpp:30-44 | the pad octet of MD4, MD5, the SHA families and CubeHash is 0x80 |
| PaddingOctets.PaddedOctets | avboost/include/boost/hash/stream_preprocessor.hpp:164-183 | the padded octets are the message, 0x80 and zeros up to 56 modulo 64, or 112 modulo 128 (section 5.1 of FIPS 180-2, section 3.1 of RFC 1321) |
| PaddingOctets.LengthInNumbers | avboost/include/boost/hash/stream_preprocessor.hpp:87-94 | the two length words are the quotient and remainder of the bit count by 2^32, high word first with the big unit first; of 64-bit words the high one is zero |
| BasicFunctions.RotateBack | avboost/include/boost/hash/block_cyphers/detail/basic_functions.hpp:42-51 | ROTR undoes ROTL and the reverse, for all 63 amounts of a 64-bit word |
| BasicFunctions32.RotateBack | avboost/include/boost/hash/block_cyphers/detail/basic_functions.hpp:42-55 | the same for the 31 amounts of a 32-bit word |
| Threefish.Policy256Valid | avboost/include/boost/hash/block_cyphers/detail/threefish_policy.hpp:46-84 | the 256-bit permutation is a bijection and the tables fit the block |
| Threefish.Policy512Valid | avboost/include/boost/hash/block_cyphers/detail/threefish_policy.hpp:86-124 | the same at 512 bits |
| Threefish.Policy1024Valid | avboost/include/boost/hash/block_cyphers/detail/threefish_policy.hpp:126-164 | the same at 1024 bits |
| Threefish.ParityOfExtendedKey | avboost/include/boost/hash/block_cyphers/threefish.hpp:73-89 | the words of an extended key xor to the constant, whatever the key |
| Threefish.AddedSubkeyGone | avboost/include/boost/hash/block_cyphers/threefish.hpp:196-205 | removing a subkey undoes adding it, in both orders |
| Threefish.UnmixMix | avboost/include/boost/hash/block_cyphers/threefish.hpp:141-156 | UNMIX undoes MIX on every pair of every block, for any rotation amounts |
| Threefish.MixUnmix | avboost/include/boost/hash/block_cyphers/threefish.hpp:225-243 | MIX undoes UNMIX |
| Threefish.Unpermuted | avboost/include/boost/hash/block_cyphers/threefish.hpp:157-223 | the scatter of decyphering inverts the gather of encyphering |
| Threefish.RoundUndone | avboost/include/boost/hash/block_cyphers/threefish.hpp:126-253 | each round, with its subkey every fourth, is inverted by its decyphering counterpart, in both directions |
| Threefish.RoundsUndone | avboost/include/boost/hash/block_cyphers/threefish.hpp:126-253 | any number of rounds is undone by running them backwards |
| Threefish.DecypherInvertsEncypher | avboost/include/boost/hash/block_cyphers/threefish.hpp:107-258 | for every valid policy, key, tweak and block, decypher undoes encypher and encypher undoes decypher (section 3.3 of the Skein specification 1.2) |
| ThreefishCypher.Cypher.constructor | avboost/include/boost/hash/block_cyphers/threefish.hpp:55-58 | the schedules are the extensions of the key and the tweak |
| ThreefishCypher.Cypher.SetKey | avboost/include/boost/hash/block_cyphers/threefish.hpp:73-89 | the loop leaves the key followed by the parity word |
| ThreefishCypher.Cypher.AddKey | avboost/include/boost/hash/block_cyphers/threefish.hpp:129-135 | the in-place loop adds subkey s to every word and touches nothing else |
| ThreefishCypher.Cypher.SubKey | avboost/include/boost/hash/block_cyphers/threefish.hpp:247-253 | the in-place loop subtracts it |
| ThreefishCypher.Cypher.MixInto | avboost/include/boost/hash/block_cyphers/threefish.hpp:142-156 | the pairwise loop computes MIX of v in f |
| ThreefishCypher.Cypher.PermuteInto | avboost/include/boost/hash/block_cyphers/threefish.hpp:158-165 | the loop permutes f into v |
| ThreefishCypher.Cypher.UnpermuteInto | avboost/include/boost/hash/block_cyphers/threefish.hpp:216-223 | writing f at permuted indices gives the inverse permutation |
| ThreefishCypher.Cypher.UnmixInto | avboost/include/boost/hash/block_cyphers/threefish.hpp:226-243 | the pairwise loop computes UNMIX of f in v |
| ThreefishCypher.Cypher.FourRounds | avboost/include/boost/hash/block_cyphers/threefish.hpp:127-166 | one turn of the unrolled loop is four rounds of the specification, the subkey falling on the first |
| ThreefishCypher.Cypher.FourUnrounds | avboost/include/boost/hash/block_cyphers/threefish.hpp:208-253 | one turn backwards undoes four rounds, the subkey coming off last |
| ThreefishCypher.Cypher.Encypher | avboost/include/boost/hash/block_cyphers/threefish.hpp:113-179 | the nested loops compute the specified cypher |
| ThreefishCypher.Cypher.Decypher | avboost/include/boost/hash/block_cyphers/threefish.hpp:187-258 | the reversed loops compute its inverse |
| ThreefishSchedule.SubkeyIsAdded | avboost/include/boost/hash/block_cyphers/threefish.hpp:129-135 | what a round adds is the block that adding a subkey leaves on zeros, word by word |
| ThreefishSchedule.FirstWord | avboost/include/boost/hash/block_cyphers/threefish.hpp:91-105 | word 0 of subkey s is extended key word s mod (words + 1) |
| ThreefishSchedule.WordsSlide | avboost/include/boost/hash/block_cyphers/threefish.hpp:91-105 | word i + 1 of subkey s is word i of subkey s + 1, as far as no tweak is added |
| ThreefishSchedule.TweakWords | avboost/include/boost/hash/block_cyphers/threefish.hpp:91-105 | words - 3 and words - 2 less their value without a tweak are the extended tweak words s mod 3 and s + 1 mod 3, on top of key words that slide like the others; no other word has a tweak in it |
| ThreefishSchedule.LastWord | avboost/include/boost/hash/block_cyphers/threefish.hpp:91-105 | the last word less s is the key word words - 1 subkeys further on |
| ThreefishSchedule.RoundWords | avboost/include/boost/hash/block_cyphers/threefish.hpp:126-166 | a round in words: the subkey on every fourth round, each pair to its sum and the rotated second word xor the sum, then the permutation (section 3.3.1 of the Skein specification 1.2) |
| ThreefishSchedule.EncypheredWords | avboost/include/boost/hash/block_cyphers/threefish.hpp:107-180 | the rounds in order, then the last subkey |
| ThreefishSchedule.Permuted1024 | avboost/include/boost/hash/block_cyphers/detail/threefish_policy.hpp:126-164 | where the permutation of 16 words takes each of them |
| ThreefishSchedule.Cycle1024 | avboost/include/boost/hash/block_cyphers/detail/threefish_policy.hpp:126-164 | after four rounds every word of 16 is back in its place, which the unrolled loop relies on |
| ThreefishSchedule.Cycle512 | avboost/include/boost/hash/block_cyphers/detail/threefish_policy.hpp:86-124 | the same for eight words |
| ThreefishSchedule.Cycle256 | avboost/include/boost/hash/block_cyphers/detail/threefish_policy.hpp:46-84 | four words are back after two rounds |
| ThreefishSchedule.Columns256 | avboost/include/boost/hash/block_cyphers/detail/threefish_policy.hpp:46-84 | the rotation amounts at 256 bits, pair by pair |
| ThreefishSchedule.Columns512 | avboost/include/boost/hash/block_cyphers/detail/threefish_policy.hpp:86-124 | those at 512 bits |
| ThreefishSchedule.Columns1024 | avboost/include/boost/hash/block_cyphers/detail/threefish_policy.hpp:126-164 | those at 1024 bits |
| CubeHash.FlipTwice | avboost/include/boost/hash/detail/cubehash_policy.hpp:78-87 | the index flips i^8, i^4, i^2 and i^1 are involutions without fixed points inside the half state |
| CubeHash.UnhalfHalf | avboost/include/boost/hash/detail/cubehash_policy.hpp:77-88 | a half round (add, flip and rotate, xor, flip) is undone by its inverse, for any amounts and flips |
| CubeHash.HalfUnhalf | avboost/include/boost/hash/detail/cubehash_policy.hpp:77-88 | and the other way round |
| CubeHash.RoundUndone | avboost/include/boost/hash/detail/cubehash_policy.hpp:75-89 | a round is a bijection |
| CubeHash.TransformBijective | avboost/include/boost/hash/detail/cubehash_policy.hpp:62-89 | for every state and every number of rounds the transform is a bijection, with its inverse given |
| CubeHashReference.Transform | avboost/include/boost/hash/detail/cubehash_policy.hpp:70-89 | the reference loop computes the specified transform, for every n |
| CubeHashReference.HalfRound | avboost/include/boost/hash/detail/cubehash_policy.hpp:77-88 | six loops through the scratch block are one half round |
| CubeHashReference.FlipInto | avboost/include/boost/hash/detail/cubehash_policy.hpp:78-87 | writing at flipped indices places every word once |
| CubeHashUnrolled.FirstHalf | avboost/include/boost/hash/detail/cubehash_policy.hpp:206-278 | the first half round with its index flips carried out, word by word |
| CubeHashUnrolled.SecondHalf | avboost/include/boost/hash/detail/cubehash_policy.hpp:280-352 | the second half round, word by word |
| CubeHashUnrolled.Rounds | avboost/include/boost/hash/detail/cubehash_policy.hpp:205-353 | the assignments to 32 variables, which rotate before they swap, follow the specification for every n |
| CubeHashUnrolled.Transform | avboost/include/boost/hash/detail/cubehash_policy.hpp:171-386 | the unrolled transform equals the reference one on every state |
| CubeHashSse.RotateByXor7 | avboost/include/boost/hash/detail/cubehash_policy.hpp:113-116 | joining the two shifts by xor is the rotation by 7 |
| CubeHashSse.RotateByXor11 | avboost/include/boost/hash/detail/cubehash_policy.hpp:137-140 | and by 11 |
| CubeHashSse.FirstHalf | avboost/include/boost/hash/detail/cubehash_policy.hpp:105-127 | a half round on eight vectors: flips of the low index bits are lane shuffles, of the high ones vector exchanges |
| CubeHashSse.SecondHalf | avboost/include/boost/hash/detail/cubehash_policy.hpp:129-150 | the second half round on vectors |
| CubeHashSse.Rounds | avboost/include/boost/hash/detail/cubehash_policy.hpp:103-152 | the vector code, which swaps before it rotates, follows the specification for every n |
| CubeHashSse.Transform | avboost/include/boost/hash/detail/cubehash_policy.hpp:94-161 | the SSE2 transform equals the reference one on every state |
| CubeHashSteps.TenSteps | avboost/include/boost/hash/detail/cubehash_policy.hpp:70-89 | a round is the ten steps of the CubeHash specification in its order, each given by what it does to the word at every index: adds into the high half, rotations by 7 and by 11, swaps at distance 8, 4, 2 and 1, xors into the low half |
| MdReference.FirstKeys | avboost/include/boost/hash/block_cyphers/detail/md5_policy.hpp:75-98 | the first rounds take the key words in order |
| MdReference.SecondKeys5 | avboost/include/boost/hash/block_cyphers/detail/md5_policy.hpp:75-98 | the key words of the second round of MD5, step by step (section 3.4 of RFC 1321) |
| MdReference.ThirdKeys5 | avboost/include/boost/hash/block_cyphers/detail/md5_policy.hpp:75-98 | those of the third |
| MdReference.FourthKeys5 | avboost/include/boost/hash/block_cyphers/detail/md5_policy.hpp:75-98 | those of the fourth |
| MdReference.SecondKeys4 | avboost/include/boost/hash/block_cyphers/detail/md4_policy.hpp:45-63 | those of the second round of MD4 (section 3.4 of RFC 1320) |
| MdReference.ThirdKeys4 | avboost/include/boost/hash/block_cyphers/detail/md4_policy.hpp:45-63 | those of the third |
| MdReference.ShiftTables | avboost/include/boost/hash/block_cyphers/md5.hpp:87-142 | the rotation of every step of MD5 and MD4 |
| MdReference.Md5Step | avboost/include/boost/hash/block_cyphers/md5.hpp:87-94 | a step is a = b + ((a + f(b, c, d) + X[k] + T[i]) <<< s), with F, G, H and I written out in bits, then the registers turn |
| MdReference.Md4Step | avboost/include/boost/hash/block_cyphers/md4.hpp:87-94 | a step is a = (a + f(b, c, d) + X[k] + constant) <<< s, with its three functions and two constants |
| MdSteps.ValueUndone | avboost/include/boost/hash/block_cyphers/md5.hpp:87-94 | the decypher step undoes the encypher step on a register, and the reverse, for MD5 and MD4 and whatever key words and constants; the subtractions come in the order of the additions |
| MdSteps.KeyWordOnce | avboost/include/boost/hash/block_cyphers/detail/md5_policy.hpp:75-98 | in every round of MD5 and MD4 the index table names every key word exactly once |
| MdSteps.StepUndone | avboost/include/boost/hash/block_cyphers/md5.hpp:87-94 | one step with its change of registers is a bijection |
| MdSteps.StepsUndone | avboost/include/boost/hash/block_cyphers/md5.hpp:72-226 | all steps are undone in reverse order, in both directions |
| MdSteps.FourSteps | avboost/include/boost/hash/block_cyphers/md5.hpp:95-100 | four in-place steps with renamed registers are four steps of RFC 1321 and RFC 1320, after which every register is back in its place |
| MdSteps.FourUnsteps | avboost/include/boost/hash/block_cyphers/md5.hpp:178-183 | the four reversed in-place steps undo four steps |
| MdCyphers.MdCypher.DecypherStep | avboost/include/boost/hash/block_cyphers/md4.hpp:159-166 | the macro computes the inverse step |
| MdCyphers.MdCypher.EncypherRound | avboost/include/boost/hash/block_cyphers/md5.hpp:95-105 | a loop of sixteen steps, four to a turn, with the shifts named in the code |
| MdCyphers.MdCypher.DecypherRound | avboost/include/boost/hash/block_cyphers/md4.hpp:167-199 | the reversed loop undoes the round; it ends at t >= start, or in the last round, where that always holds, at the wrap-around of the unsigned counter |
| MdCyphers.MdCypher.Encypher | avboost/include/boost/hash/block_cyphers/md5.hpp:71-142 | the rounds in place compute the specified cypher, for MD5 and MD4 |
| MdCyphers.MdCypher.Decypher | avboost/include/boost/hash/block_cyphers/md5.hpp:154-225 | the reversed rounds compute its inverse |
| MdCyphers.DecypherInvertsEncypher | avboost/include/boost/hash/block_cyphers/md4.hpp:71-203 | for every key and block the two directions are inverse |
| Shacal.RoundUndone | avboost/include/boost/hash/block_cyphers/basic_shacal.hpp:202-213 | a round is undone by the decypher round and the reverse, for every schedule word and constant |
| Shacal.RoundsUndone | avboost/include/boost/hash/block_cyphers/basic_shacal.hpp:95-224 | any number of rounds is undone in reverse order |
| Shacal.BasicShacal.Transform | avboost/include/boost/hash/block_cyphers/basic_shacal.hpp:131-141 | the five shifting registers are the round of section 6.1.2 of FIPS 180-2 |
| Shacal.BasicShacal.EncypherReference | avboost/include/boost/hash/block_cyphers/basic_shacal.hpp:96-117 | the plain loop runs the eighty rounds |
| Shacal.BasicShacal.Twenty | avboost/include/boost/hash/block_cyphers/basic_shacal.hpp:146-150 | a loop in batches of five, which does not test t inside a batch, is twenty rounds |
| Shacal.BasicShacal.Encypher | avboost/include/boost/hash/block_cyphers/basic_shacal.hpp:144-165 | the batched loops equal the plain eighty-round loop |
| Shacal.BasicShacal.Decypher | avboost/include/boost/hash/block_cyphers/basic_shacal.hpp:184-224 | the reverse loop computes the inverse |
| Shacal.PrepareSchedule | avboost/include/boost/hash/block_cyphers/shacal1.hpp:46-64 | the in-place loop keeps the key and fills in words that satisfy the recurrence of SHA-1, or that of SHA-0 |
| Shacal.BuildSchedule | avboost/include/boost/hash/block_cyphers/shacal1.hpp:36-45 | the schedule begins with the key and satisfies the recurrence |
| Shacal.ScheduleDetermined | avboost/include/boost/hash/block_cyphers/shacal.hpp:49-66 | the recurrence leaves no choice: the key fixes the schedule |
| ShaReference.ChooseMeans32 | avboost/include/boost/hash/block_cyphers/detail/shacal_functions.hpp:28-44 | Ch takes the bits of y where x has ones and those of z elsewhere |
| ShaReference.MajorityMeans32 | avboost/include/boost/hash/block_cyphers/detail/shacal_functions.hpp:28-44 | Maj has the bits that two of three words have |
| ShaReference.SigmasOfBits32 | avboost/include/boost/hash/block_cyphers/detail/shacal_functions.hpp:57-72 | the lowest and the highest bit go where section 4.1.2 of FIPS 180-2 sends them, rotated and shifted |
| ShaReference.SigmasOfBits64 | avboost/include/boost/hash/block_cyphers/detail/shacal_functions.hpp:73-88 | the same for section 4.1.3 |
| ShaReference.Sha1Round | avboost/include/boost/hash/block_cyphers/basic_shacal.hpp:131-141 | the temporary word, the function of each twenty rounds and the turn of the registers (section 6.1.2 of FIPS 180-2) |
| ShaReference.Sha1Schedule | avboost/include/boost/hash/block_cyphers/shacal1.hpp:46-64 | every word from the 16th on is the xor of the words 3, 8, 14 and 16 before, rotated by one in SHA-1 and not in SHA-0 |
| ShaReference.Sha256Round | avboost/include/boost/hash/block_cyphers/shacal2.hpp:158-173 | T1 and T2 and where they go (section 6.2.2 of FIPS 180-2) |
| ShaReference.Sha512Round | avboost/include/boost/hash/block_cyphers/shacal2.hpp:158-173 | the same for 64-bit words (section 6.3.2) |
| ShaReference.Sha256Schedule | avboost/include/boost/hash/block_cyphers/shacal2.hpp:72-89 | every word from the 16th on from the words 2, 7, 15 and 16 before |
| ShaReference.Sha512Schedule | avboost/include/boost/hash/block_cyphers/shacal2.hpp:72-89 | the same for 64-bit words, of which there are 80 |
| Shacal2.Lawful32 | avboost/include/boost/hash/block_cyphers/detail/shacal_functions.hpp:57-72 | the 32-bit operations meet the laws the inversion needs |
| Shacal2.Lawful64 | avboost/include/boost/hash/block_cyphers/detail/shacal_functions.hpp:73-88 | so do the 64-bit ones |
| Shacal2.RoundUndone | avboost/include/boost/hash/block_cyphers/shacal2.hpp:223-239 | a round of SHA-2 is undone by the decypher round and the reverse, at both word sizes |
| Shacal2.RoundsUndone | avboost/include/boost/hash/block_cyphers/shacal2.hpp:102-254 | any number of rounds is undone in reverse order |
| Shacal2.Shacal2Cypher.Transform | avboost/include/boost/hash/block_cyphers/shacal2.hpp:158-173 | the eight shifting registers are the round of section 6.2.2 of FIPS 180-2 |
| Shacal2.Shacal2Cypher.EncypherReference | avboost/include/boost/hash/block_cyphers/shacal2.hpp:124-151 | the plain loop |
| Shacal2.Shacal2Cypher.Encypher | avboost/include/boost/hash/block_cyphers/shacal2.hpp:155-185 | the loop in batches of eight equals the plain one |
| Shacal2.Shacal2Cypher.Decypher | avboost/include/boost/hash/block_cyphers/shacal2.hpp:203-254 | the reverse loop computes the inverse |
| Shacal2.PrepareSchedule | avboost/include/boost/hash/block_cyphers/shacal2.hpp:72-89 | the in-place loop keeps the key and satisfies the recurrence |
| Shacal2.ScheduleDetermined | avboost/include/boost/hash/block_cyphers/shacal2.hpp:83-88 | the key fixes the schedule |
| Adler.ModuloRange | avboost/include/boost/hash/detail/primes.hpp:18-71 | for every even width the modulus is above 10 and below 2^(Bits/2) |
| Adler.ModuloTable | avboost/include/boost/hash/detail/primes.hpp:18-71 | the modulus for every width of whole octets: 13, 251, 4093, 65521 and on to 4294967291 |
| Adler.FoldedIsReduced | avboost/include/boost/hash/adler.hpp:89-98 | taking the modulo at the end of any input gives what update_one gives step by step |
| Adler.ChecksumClosedForm | avboost/include/boost/hash/adler.hpp:67-79 | the state is 1 plus the sum of the bytes, and the weighted sum of the bytes, both modulo the prime (sections 2.2 and 8.2 of RFC 1950), at every width |
| Adler.WorstIsWorst | avboost/include/boost/hash/adler.hpp:90-99 | the bounds of the header's comment hold for every input and starting state |
| Adler.WorstClosedForm | avboost/include/boost/hash/adler.hpp:96-99 | the sum in the comment, in closed form |
| Adler.WideFits | avboost/include/boost/hash/adler.hpp:101-114 | with a modulus below 256q, 15q inputs stay below 65536q squared |
| Adler.NarrowFits | avboost/include/boost/hash/adler.hpp:129-131 | below 16 bits, 16 inputs stay within 16 bits |
| Adler.LimitPreventsOverflow | avboost/include/boost/hash/adler.hpp:129-131 | at every even width from 8 to 64, no sum exceeds 2^fast_word_bits - 1 within the limit the code computes |
| Adler.LimitTable | avboost/include/boost/hash/adler.hpp:116-131 | the limit at every width, 15 times 2^(Bits/2 - 8) from 16 bits on and 16 below, and with it the whole table of the comment; for 16 bits the comment says 16 and the code computes 15 |
| Adler.OneFits | avboost/include/boost/hash/adler.hpp:68-74 | neither addition of update_one overflows a word of Bits bits; below 16 bits the reduction of the input is used for that |
| Adler.BasicAdler.UpdateOne | avboost/include/boost/hash/adler.hpp:67-79 | appends one byte to the message the state is the checksum of |
| Adler.Step | avboost/include/boost/hash/adler.hpp:133-134 | one delayed step, with every intermediate sum below 2^fast_word_bits |
| Adler.Batch | avboost/include/boost/hash/adler.hpp:147-154 | the unrolled loop and its remainder add up exactly the given inputs |
| Adler.BasicAdler.UpdateN | avboost/include/boost/hash/adler.hpp:81-174 | batches with delayed modulo leave the state that folding update_one over the input leaves, for every input length |
| Adler.BasicAdler.UpdateEach | avboost/include/boost/hash/adler.hpp:181-186 | the path for other iterators gives the same state |
| Adler.CombinedFits | avboost/include/boost/hash/adler.hpp:48-57 | the digest holds s0 and s1 in its two halves, and both can be read back |
| Adler.OctetsAreBigEndian | avboost/include/boost/hash/adler.hpp:48-57 | the octets of a digest, each from its highest bit on, are the digest word from its highest bit on (section 2.2 of RFC 1950), and the word is the combined state |
| Adler.BasicAdler.Digest | avboost/include/boost/hash/adler.hpp:48-57 | the octets are those of the combined folded state |
| Adler.BasicAdler.EndMessage | avboost/include/boost/hash/adler.hpp:59-63 | the same digest, then an empty message |
| JsonWriter.CreateEscapes | avboost/include/boost/json_parser_write.hpp:30-70 | the loop escapes byte by byte |
| JsonWriter.WriteJsonHelper | avboost/include/boost/json_parser_write.hpp:72-131 | appends the rendering of the node and nothing else to the stream, pretty or compact; in compact form the code still indents the closing bracket of an array |
| JsonWriter.WriteItems | avboost/include/boost/json_parser_write.hpp:92-103 | the array loop, with a comma exactly between items |
| JsonWriter.WriteMembers | avboost/include/boost/json_parser_write.hpp:109-129 | the object loop |
| JsonWriter.VerifyMeans | avboost/include/boost/json_parser_write.hpp:134-158 | verify_json accepts exactly the trees in which no node has both data and children and the root has no data |
| JsonWriter.WriteJson | avboost/include/boost/json_parser_write.hpp:160-173 | writes the rendering and a newline, or refuses |
| JsonRoundTrip.EscapeReads | avboost/include/boost/json_parser_read.hpp:294-305 | the reader takes each escaped byte for the byte that was written, control characters included |
| JsonRoundTrip.CharactersRead | avboost/include/boost/json_parser_read.hpp:290-298 | an escaped string is read back up to its closing quote (section 7 of RFC 8259) |
| JsonRoundTrip.StringsRead | avboost/include/boost/json_parser_read.hpp:290-292 | as a run of quoted strings, provided none follows |
| JsonRoundTrip.ValueReads | avboost/include/boost/json_parser_read.hpp:274-279 | any rendered value below the root is read back, whatever follows it |
| JsonRoundTrip.ObjectReads | avboost/include/boost/json_parser_read.hpp:246-268 | so is any rendered object or array with children |
| JsonRoundTrip.ListReads | avboost/include/boost/json_parser_read.hpp:246-272 | so are their members or items, with every kind of white space the writer puts between them |
| JsonRoundTrip.RoundTrip | avboost/include/boost/json_parser_write.hpp:160-173 | for every tree verify_json accepts, reading the pretty or compact output rebuilds the identical ordered tree: keys, arrays as nodes of empty keys, empty leaves, a root always written as an object |
| JsonRoundTrip.RoundTripExactly | avboost/include/boost/json_parser_write.hpp:133-173 | writing and reading back is the identity if and only if verify_json accepts the tree |
| JsonRoundTrip.ValueIsWritable | avboost/include/boost/json_parser_read.hpp:274-279 | every value the grammar reads could be written again |
| JsonRoundTrip.RewriteKeepsMeaning | avboost/include/boost/json_parser_read.hpp:241-305 | rewriting any accepted text gives a text with the same tree |
| JsonUnicode.Utf8Decodes | avboost/include/boost/json_parser_read.hpp:149-195 | what a code unit is turned into decodes to it by the table of section 3 of RFC 3629 if and only if it is no surrogate; a surrogate gets four bytes that begin with 0xF0, carry its code value and are no UTF-8 |
| JsonUnicode.UnicodeEscape | avboost/include/boost/json_parser_read.hpp:303-305 | for every code unit but the surrogates, four hexadecimal digits after \u, in either case, add one character to the string, which decodes to it; the rest of the string is read as without it |
| JsonUnicode.EAcute | avboost/include/boost/json_parser_read.hpp:166-172 | a concrete string: \u00e9 is read as the bytes C3 A9 |
| JsonUnicode.OnlyDigits | avboost/include/boost/json_parser_read.hpp:303-305 | which bytes are hexadecimal digits |
| JsonUnicode.LetterEscape | avboost/include/boost/json_parser_read.hpp:301-302 | each of the eight one-letter escapes and the byte it stands for |
| JsonUnicode.OtherEscape | avboost/include/boost/json_parser_read.hpp:297-298 | any other byte after a backslash is refused, and so is a backslash at the end |
| JsonText.PrintableEscapes | avboost/include/boost/json_parser_write.hpp:30-70 | which bytes are written as they are |
| JsonText.ControlEscapes | avboost/include/boost/json_parser_write.hpp:30-70 | how control characters without a letter are written |
| JsonText.NoControls | avboost/include/boost/json_parser_write.hpp:30-70 | no control character is left in a string, as section 7 of RFC 8259 asks |
| JsonText.LineCommentSkipped | avboost/include/boost/json_parser_read.hpp:355-359 | a line comment is skipped |
| JsonText.BlockCommentSkipped | avboost/include/boost/json_parser_read.hpp:355-359 | a block comment is skipped up to its first end |
| JsonText.LiteralRead | avboost/include/boost/json_parser_read.hpp:274-279 | true, false and null are read as leaves with their own text |
| JsonText.NumberIsLeaf | avboost/include/boost/json_parser_read.hpp:281-288 | every number of section 6 of RFC 8259 is read as a leaf with its own text, up to where the number ends |
| JsonText.StringsJoined | avboost/include/boost/json_parser_read.hpp:290-292 | two quoted strings in a row are one string |
| JsonText.ObjectWritten | avboost/include/boost/json_parser_write.hpp:105-131 | the text of an object with one member, in both forms, byte by byte |
| JsonText.ArrayWritten | avboost/include/boost/json_parser_write.hpp:85-104 | the text of an array of two items below the root, in both forms |
| JsonRefusals.TrailingComma | avboost/include/boost/json_parser_read.hpp:246-268 | a comma before the closing bracket is refused |
| JsonRefusals.MissingComma | avboost/include/boost/json_parser_read.hpp:246-268 | whatever follows a value, if not a comma, the closing bracket or another string, is refused |
| JsonRefusals.NameAndColon | avboost/include/boost/json_parser_read.hpp:255-259 | a member whose name is no string, or has no colon after it, is refused |
| JsonRefusals.MissingValue | avboost/include/boost/json_parser_read.hpp:270-279 | a byte no value begins with is refused where a value is due |
| JsonRefusals.RootOnly | avboost/include/boost/json_parser_read.hpp:241-244 | a root that is neither object nor array is refused, and so is an empty text |
| JsonRefusals.TextAfterRoot | avboost/include/boost/json_parser_read.hpp:241-244 | text after the root is refused |
| JsonRefusals.LeadingZero | avboost/include/boost/json_parser_read.hpp:281-288 | a number with a leading zero is refused |
| JsonReader.PushedChild | avboost/include/boost/json_parser_read.hpp:61-63 | the pointer kept to a child that was pushed stays valid, and pushing through it changes exactly that child |
| JsonReader.PushFilled | avboost/include/boost/json_parser_read.hpp:61-112 | filling a node after it was pushed is pushing the filled node |
| JsonReader.Context.ObjectStart | avboost/include/boost/json_parser_read.hpp:51-67 | the root on an empty stack, otherwise a new child under the current name |
| JsonReader.Context.ObjectEnd | avboost/include/boost/json_parser_read.hpp:69-78 | pops a stack that is not empty |
| JsonReader.Context.NameEnd | avboost/include/boost/json_parser_read.hpp:80-89 | the string becomes the name |
| JsonReader.Context.LeafValue | avboost/include/boost/json_parser_read.hpp:91-116 | pushes a leaf under the current name; the stack is not empty |
| JsonReader.Context.ParseEscape | avboost/include/boost/json_parser_read.hpp:128-195 | the escape actions append what the escape means, a code unit as UTF-8 |
| JsonReader.Context.ParseQuoted | avboost/include/boost/json_parser_read.hpp:290-298 | the characters of a quoted string are collected |
| JsonReader.Context.ParseStrings | avboost/include/boost/json_parser_read.hpp:290-292 | one or more quoted strings; what a failed further one leaves behind cannot be taken for a value |
| JsonReader.Context.ParseValue | avboost/include/boost/json_parser_read.hpp:274-279 | a value ends up under the current name, with the stack as it was |
| JsonReader.Context.ParseNode | avboost/include/boost/json_parser_read.hpp:246-268 | an object or array is built in place in the tree |
| JsonReader.Context.ParseChildren | avboost/include/boost/json_parser_read.hpp:248-267 | children up to the closing bracket, which pops the stack |
| JsonReader.Context.ParseList | avboost/include/boost/json_parser_read.hpp:249-272 | the list of children, filled in through the pointer on the stack |
| JsonReader.Context.ParseRoot | avboost/include/boost/json_parser_read.hpp:241-244 | accepts exactly the texts of the grammar; then the tree is the grammar's and the stack is empty |
| JsonReader.ReadJson | avboost/include/boost/json_parser_read.hpp:199-305 | for every text, the mutable context builds the tree of the recursive reading of the grammar, or both refuse |
| Smtp.ProgressIsPrefix | src/mime/src/smtpclient.cpp:381-435 | in whatever state, the mail commands and accepted replies since sendMail begin the transcript: MAIL FROM, then To, Cc, Bcc in order, once each, DATA only after every 250 |
| Smtp.EnteredCalm | src/mime/src/smtpclient.cpp:257-440 | entering any state outside the mail states sends no mail command |
| Smtp.NextRecipientKeeps | src/mime/src/smtpclient.cpp:385-415 | the next recipient, or DATA when none is left, continues the transcript, also with no recipient at all |
| Smtp.MailReply | src/mime/src/smtpclient.cpp:537-568 | each accepted reply moves the transcript on by one; any other leaves it and the state |
| Smtp.ReplyKeepsMail | src/mime/src/smtpclient.cpp:442-573 | every reply in every state keeps the mail invariant |
| Smtp.StepKeepsMail | src/mime/src/smtpclient.cpp:123-172 | so does every call and every socket event |
| SmtpSession.EnteredLink | src/mime/src/smtpclient.cpp:329-350 | a state is entered only when the part of the connection plan it needs has happened, and says only what is due |
| SmtpSession.ReadyLink | src/mime/src/smtpclient.cpp:323-350 | isReadyConnected is set only with the whole plan done |
| SmtpSession.ReplyKeepsLink | src/mime/src/smtpclient.cpp:442-501 | every reply keeps the connection invariant |
| SmtpSession.StepKeepsLink | src/mime/src/smtpclient.cpp:613-691 | so does every call and event |
| SmtpSession.HandshakeDone | src/mime/src/smtpclient.cpp:687-691 | the encrypted event counts only after the 220 to STARTTLS |
| SmtpSession.ReplyKeepsAuth | src/mime/src/smtpclient.cpp:503-535 | every reply keeps the login invariant |
| SmtpSession.StepKeepsAuth | src/mime/src/smtpclient.cpp:133-145 | so does every call and event |
| SmtpSession.StepKeepsInvariant | src/mime/src/smtpclient.cpp:257-691 | one step keeps all three invariants |
| SmtpSession.RunKeepsInvariant | src/mime/src/smtpclient.cpp:257-691 | all three hold in every reachable state, for every sequence of calls, replies and socket events |
| SmtpSession.MailIsTranscript | src/mime/src/smtpclient.cpp:147-157 | in every reachable state the mail log is a prefix of the transcript of the mail, and isMailSent implies all of it, with 354 and the final 250 (section 3.3 of RFC 5321) |
| SmtpSession.ReadyMeansEncrypted | src/mime/src/smtpclient.cpp:464-501 | on a TLS connection isReadyConnected implies, in this session and order, 220, EHLO, 250, STARTTLS, 220, the encrypted event, EHLO, 250; before that no mail, reset or login command went out (section 4 of RFC 3207) |
| SmtpSession.AuthenticatedMeansLoggedIn | src/mime/src/smtpclient.cpp:503-535 | isAuthenticated implies a complete login of this session that ended in 235 (section 4 of RFC 4954) |
| SmtpSession.DisconnectForgets | src/mime/src/smtpclient.cpp:300-312 | losing the connection clears both flags; the 221 to QUIT alone clears only isReadyConnected |
| SmtpSession.AcceptedMailIsSent | src/mime/src/smtpclient.cpp:147-157 | from a ready connection sendMail does complete when the server accepts, for any number of recipients, also none |
| SmtpRuns.BecomesReady | src/mime/src/smtpclient.cpp:464-501 | from a new client, connecting and the accepting replies end in ReadyState with isReadyConnected set, over TCP, SSL and TLS; the log is given word for word |
| SmtpRuns.LoginSucceeds | src/mime/src/smtpclient.cpp:503-535 | from any ready client not yet authenticated, AUTH PLAIN with 235, and AUTH LOGIN with 334, 334, 235, end in ReadyState with isAuthenticated set |
| SmtpRuns.ResetAndQuit | src/mime/src/smtpclient.cpp:159-172 | 250 to RSET returns to ReadyState; 221 to QUIT, in whatever state it was said, leads to DisconnectingState and hangs up |
| SmtpRuns.MailGoesWell | src/mime/src/smtpclient.cpp:147-157 | from any ready client a mail to any number of recipients, also none, that the server accepts ends in ReadyState with isMailSent set and the whole transcript as its log |
| SmtpRuns.OneOfEach | src/mime/src/smtpclient.cpp:381-435 | the transcript of a mail with one recipient of each kind, written out |
| SmtpRuns.OtherReplies | src/mime/src/smtpclient.cpp:442-573 | in a state that waits for a reply, any other reply leaves the state and reports the error of that state; 4xx and 5xx have errors of their own |
| SmtpRuns.UnawaitedReplies | src/mime/src/smtpclient.cpp:442-573 | in any other state a reply changes nothing |
| SmtpRuns.CallsIgnored | src/mime/src/smtpclient.cpp:125-172 | calls and socket events that come in the wrong state leave it |
| SmtpRuns.ConnectionLost | src/mime/src/smtpclient.cpp:300-312 | losing the connection in any state ends the session |
| SmtpClient.Connection.ChangeState | src/mime/src/smtpclient.cpp:257-440 | the re-entrant state change terminates and amounts to one flat transition |
| SmtpClient.Connection.Begin | src/mime/src/smtpclient.cpp:286-378 | the states that begin a login, a mail or a handshake clear their flag and enter its first state |
| SmtpClient.Connection.Finish | src/mime/src/smtpclient.cpp:286-378 | the states that end something set their flag and come to rest in ReadyState |
| SmtpClient.Connection.NextList | src/mime/src/smtpclient.cpp:385-406 | the recursion through empty lists ends, at DATA after the third |
| SmtpClient.Connection.NextAddress | src/mime/src/smtpclient.cpp:408-415 | sends the address under the iterator or goes to the next list |
| SmtpClient.ListDone | src/mime/src/smtpclient.cpp:386-404 | the end of one list is the beginning of the next in the order To, Cc, Bcc |
| SmtpClient.LastListDone | src/mime/src/smtpclient.cpp:386-404 | the end of the last list is the end of all recipients |
| SmtpClient.AddressIsNext | src/mime/src/smtpclient.cpp:408-412 | the address under the iterator is the next one of all recipients |
| SmtpClient.Connection.ProcessResponse | src/mime/src/smtpclient.cpp:442-573 | for each state the expected code, the next state, and the error on any other code |
| SmtpClient.Connection.Respond | src/mime/src/smtpclient.cpp:668-683 | 4xx and 5xx are errors in every state and change none |
| SmtpReplies.RepliedHeard | src/mime/src/smtpclient.cpp:668-683 | every reply acted on leaves exactly one trace in the log, whatever it leads to |
| SmtpReplies.EveryReplySeenExactly | src/mime/src/smtpclient.cpp:651-669 | for every client state and batch of lines: judging by the last line has the effect of acting on every complete reply in the batch if and only if no line before the last ends a reply |
| SmtpReplies.GreetingMissed | src/mime/src/smtpclient.cpp:651-669 | a concrete batch: greeting and answer to EHLO together leave the client waiting for the greeting, where acting on both would make it ready |
| SmtpReplies.ReplyBeforeContinuation | src/mime/src/smtpclient.cpp:651-669 | a complete reply followed by a continuation line in the same batch is not acted on at all |
| SmtpReplies.LineRead | src/mime/src/smtpclient.cpp:663-685 | three digits and a space are a reply with that code; with a hyphen after the digits more lines follow |
| SmtpClient.Connection.SocketReadyRead | src/mime/src/smtpclient.cpp:642-685 | takes all available lines and judges by the last; the new state is that of a client that acts on every reply if and only if no earlier line ends one |
| SmtpClient.Connection.ConnectToHost | src/mime/src/smtpclient.cpp:125-131 | one step of the protocol, and only when unconnected |
| SmtpClient.Connection.Login | src/mime/src/smtpclient.cpp:133-145 | one step; ignored unless ready and not authenticated |
| SmtpClient.Connection.SendMail | src/mime/src/smtpclient.cpp:147-157 | one step; ignored unless ready |
| SmtpClient.Connection.QuitServer | src/mime/src/smtpclient.cpp:159-162 | one step, in any state |
| SmtpClient.Connection.Reset | src/mime/src/smtpclient.cpp:164-172 | one step; isReset is never set, also not by the 250 |
| SmtpClient.Connection.SocketStateChanged | src/mime/src/smtpclient.cpp:613-631 | connected and unconnected events as steps |
| SmtpClient.Connection.SocketErrorOccurred | src/mime/src/smtpclient.cpp:633-640 | a step that only reports |
| SmtpClient.Connection.SocketEncryptedNow | src/mime/src/smtpclient.cpp:687-691 | a step that matters in one state only |
| QuotedPrintable.Encode | src/mime/src/quotedprintable.cpp:21-40 | the loop encodes byte by byte |
| QuotedPrintable.Decode | src/mime/src/quotedprintable.cpp:43-79 | the index loop, which skips two after an escape and copies a short tail, computes the recursive decoding |
| QuotedPrintable.DecodeEncode | src/mime/src/quotedprintable.cpp:21-79 | decoding an encoded byte string gives it back, for all byte strings |
| QuotedPrintable.ByteEncoded | src/mime/src/quotedprintable.cpp:21-40 | the bytes 32 to 60 and 62 to 126 stay, every other becomes an equals sign and two upper-case digits |
| QuotedPrintable.EncodedIsPrintable | src/mime/src/quotedprintable.cpp:21-40 | every byte of encoded text lies in 32 to 126 (section 6.7 of RFC 2045) |
| QuotedPrintable.EncodedIsItself | src/mime/src/quotedprintable.cpp:31-36 | encoding changes nothing if and only if every byte lies in 32 to 60 or 62 to 126 |
| QuotedPrintable.EscapeDecoded | src/mime/src/quotedprintable.cpp:43-79 | an equals sign and two digits, in upper case, decode to their value |
| QuotedPrintable.NoEscape | src/mime/src/quotedprintable.cpp:58-63 | an equals sign with anything else behind it stays, and so do the two bytes |
| QuotedPrintable.EAcute | src/mime/src/quotedprintable.cpp:31-36 | a concrete text: C3 A9 becomes =C3=A9 |
| QuotedPrintableLines.WriteData | src/mime/src/mimeqpformatter.cpp:6-29 | the formatter's loop over start and chars writes exactly the folded text |
| QuotedPrintableLines.UnfoldFold | src/mime/src/mimeqpformatter.cpp:6-29 | deleting the soft breaks restores any text without CR, at every line length |
| QuotedPrintableLines.EndToEnd | src/mime/src/mimeqpformatter.cpp:6-29 | encode, fold, delete every soft break, decode: the original bytes, at every line length (section 6.7 of RFC 2045) |
| QuotedPrintableShape.FoldEscape | src/mime/src/mimeqpformatter.cpp:15-24 | an escape is written whole, on this line or carried to the next, unless the line length is 2 |
| QuotedPrintableShape.EscapesKeptWhole | src/mime/src/mimeqpformatter.cpp:6-29 | no escape is split if and only if the line length is not 2 or there is no escape |
| QuotedPrintableBounds.LinesBounded | src/mime/src/mimeqpformatter.cpp:15-24 | every line is at most lineLength long, or one longer and then begins with '=' |
| QuotedPrintableBounds.BoundedExactly | src/mime/src/mimeqpformatter.cpp:20-24 | that bound holds for every text if and only if the line length is at least 2 |
| QuotedPrintableBounds.BoundMetExactly | src/mime/src/mimeqpformatter.cpp:6-29 | for every text and every line length from 2 on, all lines are at most lineLength long (76 by default, rule 5 of section 6.7 of RFC 2045) if and only if the formatter never completes a line that a carried '=' began |
| QuotedPrintableBounds.BoundReached | src/mime/src/mimeqpformatter.cpp:15-19 | a text that fails the bound at every line length from 4 on: the carried '=' is not counted |
| QuotedPrintableBounds.NoBreakBelowTwo | src/mime/src/mimeqpformatter.cpp:20-24 | below 2 plain text is never broken |
| QuotedPrintableRoundTrip.BreaksExactly | src/mime/src/mimeqpformatter.cpp:15-24 | the formatter puts in no break if and only if the text leaves two characters of the line and no '=' stands in the last three places |
| QuotedPrintableRoundTrip.DecodedLonger | src/mime/src/quotedprintable.cpp:43-79 | what decode makes of encoded and folded bytes is never shorter than the bytes, and longer if there is a break |
| QuotedPrintableRoundTrip.DecodeFoldExactly | src/mime/src/quotedprintable.cpp:43-79 | decode returns the bytes that were encoded and folded if and only if the encoded text fits on one line in that sense, at every line length |
| QuotedPrintableRoundTrip.BreakComesBack | src/mime/src/quotedprintable.cpp:58-63 | a failing input at every line length from 2 on: a line of letters one short of it comes back with the soft break behind it |
| Multipart.WriteContent | src/mime/src/mimemultipart.cpp:67-80 | the loop writes a boundary line before every part and a closing one at the end |
| Multipart.InputStream.GetLine | src/smtpclient/internet_mail_format.hpp:239-240 | a line up to the next line feed; end of file is noticed only with the last piece |
| Multipart.ReadStream | src/smtpclient/internet_mail_format.hpp:232-265 | the two loops compute the split of the text |
| Multipart.ReadParts | src/smtpclient/internet_mail_format.hpp:246-262 | every delimiter line ends a part, the closing one too, and the rest is dropped |
| MultipartRoundTrip.SplitClean | src/smtpclient/internet_mail_format.hpp:232-265 | the splitter passes on exactly the parts that were written, in order, also none |
| MultipartRoundTrip.SplitUndoesWrite | src/mime/src/mimemultipart.cpp:67-80 | for parts that end a line, splitting undoes writing if and only if no line of a part trims to a delimiter (section 5.1.1 of RFC 2046) |
| MultipartRoundTrip.PreambleSkipped | src/smtpclient/internet_mail_format.hpp:232-245 | lines before the first delimiter leave the split unchanged |
| MultipartRoundTrip.EpilogueDropped | src/smtpclient/internet_mail_format.hpp:246-265 | lines after the last delimiter do too |
| MultipartRoundTrip.SurroundingsIgnored | src/smtpclient/internet_mail_format.hpp:232-265 | text before and after what was written, in whole lines with no delimiter among them, does not change what the splitter passes on |
| MultipartRoundTrip.OnePartWritten | src/mime/src/mimemultipart.cpp:67-80 | the text of one part, written out |
| MultipartRoundTrip.DelimiterWithSpace | src/smtpclient/internet_mail_format.hpp:242-250 | which characters may stand before and after a delimiter on its line |
| MultipartRoundTrip.BlankBoundaryLost | src/smtpclient/internet_mail_format.hpp:242-250 | a boundary that ends in white space is never found again |
| CoroHistory.GiveFirst | avboost/include/boost/async_coro_queue.hpp:145-153 | delivering the front of the list keeps the ledgers in agreement |
| CoroHistory.PushAndGive | avboost/include/boost/async_coro_queue.hpp:328-337 | so does handing a pushed value straight to a waiter |
| CoroHistory.DropAll | avboost/include/boost/async_coro_queue.hpp:387-391 | so does dropping the list |
| CoroHistory.ServedInOrder | avboost/include/boost/async_coro_queue.hpp:303-348 | requests are served in the order they were made |
| CoroHistory.DeliveriesInOrder | avboost/include/boost/async_coro_queue.hpp:133-391 | deliveries come in request order; without clear, the values pushed are the values delivered followed by the list |
| CoroLedger.PushServes | avboost/include/boost/async_coro_queue.hpp:303-348 | a push that finds a live waiter posts, in this order, to every async_wait in the order they came and then to that waiter; those passed over hear nothing |
| CoroLedger.PushKeeps | avboost/include/boost/async_coro_queue.hpp:303-348 | a push that finds none posts to the async_waits and keeps the value |
| CoroLedger.CancelsInFull | avboost/include/boost/async_coro_queue.hpp:353-382 | a cancellation settles every waiter, and the live ones hear of it in order |
| CoroLedger.AnswersInFull | avboost/include/boost/async_coro_queue.hpp:353-366 | every pending async_wait is told, in the order they came |
| CoroQueue.FirstLive | avboost/include/boost/async_coro_queue.hpp:322-343 | the waiters passed over are exactly the flagged ones before the first live one |
| CoroQueue.Queue.AsyncPop | avboost/include/boost/async_coro_queue.hpp:133-154 | waits if the list is empty, otherwise gets its front |
| CoroQueue.Queue.AsyncWait | avboost/include/boost/async_coro_queue.hpp:183-199 | waits if the list is empty, otherwise is told at once |
| CoroQueue.Queue.Push | avboost/include/boost/async_coro_queue.hpp:303-348 | both assertions hold; all waits are told; the value goes to the first live waiter, passing over only flagged ones, or to the list; the recursion terminates |
| CoroQueue.Queue.Offer | avboost/include/boost/async_coro_queue.hpp:322-347 | the part of push after the waits are told |
| CoroQueue.Queue.Cancele | avboost/include/boost/async_coro_queue.hpp:353-382 | tells every live waiter; pending async_waits only if some async_pop waits, otherwise they stay |
| CoroQueue.Queue.Clear | avboost/include/boost/async_coro_queue.hpp:387-391 | cancels in that sense and drops the list |
| Pipe.NotBothAsleep | avboost/include/boost/interthread_stream.hpp:28-165 | reader and writer are never both asleep |
| Pipe.EofMeansAll | avboost/include/boost/interthread_stream.hpp:92-103 | whoever stops at the end of file has got everything ever written if and only if nothing was written after it, which holds whenever nothing is written once the sending side is closed |
| Pipe.LateIsMissed | avboost/include/boost/interthread_stream.hpp:28-49 | async_write_some does not look at the closed sending side: what it accepts after an end of file is lost to the reader that stopped there |
| Pipe.DataArrives | avboost/include/boost/interthread_stream.hpp:44-49 | what is written joins the end of the buffer, also when the sending side is closed, and the books stay in agreement |
| Pipe.ReaderAnswered | avboost/include/boost/interthread_stream.hpp:51-68 | what a reader gets leaves the front of the buffer |
| Pipe.Stream.AsyncWriteSome | avboost/include/boost/interthread_stream.hpp:28-85 | refused when the reading side is closed; otherwise wakes the reader and sleeps exactly if 512 bytes or more are left |
| Pipe.Stream.AsyncReadSome | avboost/include/boost/interthread_stream.hpp:87-132 | gets what fits, or end of file, or sleeps; a sleeping writer is woken exactly if at most 512 bytes are left |
| Pipe.Stream.Shutdown | avboost/include/boost/interthread_stream.hpp:135-165 | a sleeping reader gets end of file when the sending side is closed; a writer stays asleep above 512 bytes, also when the reading side is closed |
| Pipe.Stream.CondWakeWriter | avboost/include/boost/interthread_stream.hpp:253-264 | wakes the writer at 512 bytes or less |

## Left out

- Stream orders based on `host_unit`, and the memcpy shortcut on big-endian hosts.
- MerkleDamgard.BlockHash.EndMessage: the octet packing and truncation of the state (`digest_endian`) is the finish parameter; packing itself is covered by the theorems about it.
- Padding.FormatValid: a tracked length whose counter range the block size does not divide, which no instantiation of the library has (StreamPreprocessor.CounterRightExactly says what then goes wrong), and a length field longer than a block, which the code would write outside the block.
- `merkle_damgard_block_hash::reset(state)`, which starts from a state of the caller's choice.
- The tables of round constants and initial values, and the compressors built from the cyphers (Davies-Meyer, Matyas-Meyer-Oseas): the inversion theorems hold for any constants.
- MdCyphers.MdCypher.EncypherRound: the four loops of `md5.hpp` and the three of `md4.hpp` are one method with the shifts as arguments; the auxiliary function is chosen by t.
- MdSteps.KeyWordOnce: the index tables are given by the formulas of RFC 1321 and RFC 1320; `MdReference` has their values one by one.
- ThreefishCypher.Cypher.FourRounds: the body of the outer loop is a method of its own; so are the inner loops.
- CubeHashUnrolled.Rounds: independent assignments stand in one parallel assignment.
- The older rotation constants of Threefish, behind a macro: the theorems hold for any amounts from 1 to 63.
- JSON with wide characters; positions and texts of parse errors; reading and writing files and locales.
- Padding.BlocksInjective: says nothing about collisions of the compressor.
- Adler.BasicAdler.Digest: widths that are no whole number of octets, which the packer rejects; the shift and the or are a multiplication and an addition, which is the same for halves that do not overlap.
- SmtpClient.Connection.ChangeState: handlers of emitted signals that call back into the client.
- Credentials and their base64 form, host names, EHLO parameters and the text of replies in SMTP; the `waitFor` event loops; `QString::toInt` on anything but three digits, which is no reply code in use.
- `MimeMessage::writeToDevice` as far as the SMTP model goes: the message is one text.
- QuotedPrintableLines.WriteData: the output device is the text written to it; each call starts counting a line anew, as in the source.
- Multipart.ReadStream: what `imf_read_stream` makes of a part; the parser gets the part's text.
- MultipartRoundTrip.SplitUndoesWrite: boundaries with a line feed; the writer's boundary is 32 hexadecimal digits.
- CoroQueue.Queue.AsyncPop: the variant with a timeout, except for the flag that its timer sets.
- List types of bounded capacity in `async_coro_queue`, which drop values when full.
- Pipe.Stream.AsyncWriteSome: the blocking `write_some` and `read_some` of the same class, and several writes or reads at a time.
- Character set conversion, base64, CRC, header parsing, sockets, TLS itself, DNS, proxies and user interface.
