# The DEFLATE codec and the lock-free queue of the client, in Dafny

The client compresses its traffic with the zlib in `dep/zlib` and passes every message between its threads through the
lock-free queue of `client/Utils/ConcurrentQueue.h`. This project models both and proves what they are for.

**The codec.** `deflate.c`, `trees.c`, `inftrees.c`, `inflate.c`, `inffast.c`, `crc32.c` and `adler32.c` are modelled in the
form they have: classes whose methods change fields and arrays, and loops over arrays, each proved against a specification.
The specifications are about sequences of bits and bytes, so they can be put end to end. The last theorem,
`RoundTrip.RoundTrip`, says that whatever input, space for output and kind of flush each call of `deflate` is given, with
whichever strategy, if the calls come to the end of the stream, then the bytes delivered, cut up in any way and given to
`inflate` one part after another with any space for output, come out as the input. They do come to the end when the last
call is to finish and has more space than the stream can take.

- *Compressing.* `DeflateWindow.Matcher` is the window with its hash chains (`HashKey`, `HashChains`), `MatchFinder` is
  `longest_match`, `StrategyFast`, `StrategySlow` and `StrategyRuns` are the four strategies, `Deflate.Deflater` is `deflate`.
  The symbols go to `SymbolSink` and `TokenCoder`, which collect them (`Tally`) and send blocks (`FlushBlock`) in whichever of
  three forms is shortest; `BlockBound` says how long a block can be.
- *Huffman trees.* `NodeHeap`, `HuffmanTree`, `MergeLoop` and `BuildTree` are `build_tree`; `HuffmanOptimal` and `TreeDepth` say
  when its code is the best there is; `LengthLimit` is the loop that limits lengths; `CanonicalCode` and `GenCodes` are the code
  words; `RunLengths`, `TreeWriter`, `BlockHeader`, `BlockWriter` and `DynamicBlock` send them.
- *Decompressing.* `InflateStep` is a machine that takes one step at a time on the whole of a stream. `Inflate.Inflate` is
  `inflate`: with the bits and the space there are in one call it takes some of those steps, slowly or by `InflateFast`.
  `InflateTable` builds the two-level tables that `BitReader` decodes with, for which `TableEnough` shows that there is always
  space, `Window` is the sliding window. `InflateRead` and `StreamRead` say what the steps make of the blocks that the encoder
  sends.
- *Check values.* `Crc32`, `CrcTables` and `CrcCombine`; `Adler32`.

**The queue.** `FreeList` and `ImplicitQueue` are step relations over single atomic accesses, in sequentially consistent memory,
by any number of threads: every lemma about a reachable state is about every interleaving. `QueueTickets`, `QueueBlocks` and
`QueueTheorems` hold the invariant of the implicit producer and what follows from it. `QueueSystem` puts any number of
producers on one free list, access by access: what is proved of each of them alone then holds of all together.

## Where the code differs from what is written about it

- `dep/zlib/trees.c:651` says that a forced node is 0 or 1. It can be 2, when the one symbol in use is 1: then 0 is not in use,
  `max_code` is 1, and the next forced node is 2: `BuildTree.ForcedTwo`. No tree has extra bits for it either, so the model
  follows the code.
- `dep/zlib/inffast.c:29` asks for fewer than 8 bits held on entry. State LEN is resumed with more after a call whose input ended
  within a long code word. Such bits say nothing yet, so the first symbol uses them up, and the bytes given back at the end never
  come from before the input of the call: `InflateFast.InflateFast` is proved under this weaker condition. Eight ones, at which
  the fixed code has no symbol yet, are such bits: `FixedCodes.EightHeld`.
- `dep/zlib/deflate.c:1513` can take `match_start` below zero. A match found one byte before `strstart` may start at `w_size - 1` when
  the window slides, and its start wraps to the largest unsigned value. The distance computed from it at `deflate.c:1992` is right
  all the same, modulo the size of a word; only the debugging aid `check_match` would look before the window.
  `StrategySlow.StartBelowZero` gives an input for every window size. The model keeps `match_start` as an integer, which may
  be -1.
- `adler32_z` of a single byte (`dep/zlib/adler32.c:76-84`) subtracts the modulus once. For a checksum whose parts are not reduced
  this is not enough: `Adler32.AdlerOf` says exactly when, and `Adler32.OneByteDoesFail` gives such a checksum.
- `longest_match` counts its chain down from a quarter of `max_chain_length` (`dep/zlib/deflate.c:1273-1275`). If that is 0, the unsigned
  counter wraps and the search is as good as unlimited, as modelled by `MatchFinder.Less`.

## Model

| member | source | states |
|---|---|---|
| RoundTrip.RoundTrip | dep/zlib/deflate.c:763-1073 | for every strategy, window size, memory level, sequence of inputs, spaces for output and flushes: if the calls of deflate end the stream, the bytes delivered, cut at any places and inflated call by call, give back exactly the input, end in state DONE, and leave the right check value; they do end it if the last of them, and only that, is to finish and has more space than any stream for so much input and so many calls takes |
| RoundTrip.Squeeze | dep/zlib/deflate.c:763-1073 | the bytes delivered by all calls up to the one that returns STREAM_END are a stream of which inflate makes all input of these calls; one returns it, if the last is to finish and has more space than 1153/127 bits for each byte of input, nine bytes for each call, and the trailer |
| RoundTrip.SinglePass | dep/zlib/deflate.c:652-700 | the conservative bound of deflateBound: for every strategy, window size, memory level and input, a first call to finish that has the input and so much space returns STREAM_END, with a stream of the input |
| RoundTrip.There | dep/zlib/inflate.c:622-1275 | a stream that stands for some bytes gives just these bytes when it is inflated in parts, whatever the parts and the space for each, with more than enough space for the last |
| Deflate.Deflater.Call | dep/zlib/deflate.c:763-1073 | each call takes its input and delivers in order no more than there is space for; STREAM_ERROR exactly for anything but a finish after the end; otherwise BUF_ERROR exactly when there is no space, or nothing to do (nothing pending, no input, and a flush that is not to finish and ranks no higher than the last), or input after the end with space left for it; what has been delivered is never longer than 1153/127 bits for each byte given and at most nine bytes for each call; STREAM_END only when all that was delivered is a whole stream of all the input; a finishing call that returns OK has used up its space |
| Deflate.Mark | dep/zlib/deflate.c:1021-1043 | the markers of the partial, sync, full and block flushes leave all input sent and the state ready to go on, even when a full flush forgets the hash table and starts the window again |
| StrategySlow.DeflateSlow | dep/zlib/deflate.c:1926-2049 | lazy matching: what has been tallied always expands to the input before strstart, less one byte still to be decided on; at the end all input has been sent, and input and output are taken and delivered in order |
| StrategySlow.TakePrevious | dep/zlib/deflate.c:1986-2009 | the match of the previous position, found before possible slides of the window, is still a match in the input within reach, and is tallied as such; the hash table and the running key are right for the next string |
| StrategySlow.StartBelowZero | dep/zlib/deflate.c:1510-1518 | for every window size there is a match whose start goes one below zero when the window slides, and whose distance in words of 32 bits is right all the same |
| StrategyFast.DeflateFast | dep/zlib/deflate.c:1824-1918 | greedy matching: the same with every match taken at once |
| StrategyFast.AfterMatch | dep/zlib/deflate.c:1876-1900 | after a match either all of its strings are entered or the key is started anew; in both cases the table and the key are right for the next string |
| StrategyRuns.DeflateRle | dep/zlib/deflate.c:2057-2124 | runs of one byte as matches at distance one: the same |
| StrategyRuns.RunLength | dep/zlib/deflate.c:2080-2096 | the unrolled comparison finds the whole run, up to 258 bytes, as a match at distance one, unless it is shorter than 3 |
| StrategyRuns.RunAhead | dep/zlib/deflate.c:2080-2097 | so what is taken is the longest match at distance one within the input at hand |
| StrategyRuns.DeflateHuff | dep/zlib/deflate.c:2130-2163 | literals only: the same |
| MatchFinder.LongestMatch | dep/zlib/deflate.c:1236-1377 | a length above prev_length is that of a true match in the input, not beyond the lookahead, at most 258 long, and no further back than MAX_DIST, though chains lead through strings written over, the bytes ahead of the input are compared too, and the third byte is never compared; it is of one of the strings visited in the order of the chain, within its limit, none of which is longer within the lookahead, unless nice_match is reached |
| MatchFinder.ThreeSame | dep/zlib/deflate.c:1330-1342 | on a chain, two equal bytes make three |
| HashKey.KeyThird | dep/zlib/deflate.c:163-186 | with 8 or more hash bits, equal keys and two equal bytes mean an equal third byte |
| HashKey.KeyRolls | dep/zlib/deflate.c:157-163 | the running key of UPDATE_HASH depends on the last three bytes alone, whatever came before |
| HashChains.Chains.Insert | dep/zlib/deflate.c:182-186 | the table stays a table of chains of strings with equal keys, each older than the one before, for strings less than a window back, although prev is written over; the head found has the key of the string |
| HashChains.Chains.Slide | dep/zlib/deflate.c:201-225 | sliding every index by a window keeps the chains |
| HashChains.Chains.Follow | dep/zlib/deflate.c:1372-1373 | the next string of a chain is older and has the same key |
| DeflateWindow.Matcher.FillWindow | dep/zlib/deflate.c:1482-1599 | input is read in order; the window goes on showing the end of it across slides; there is lookahead enough, or no more input; there is room for a search; the strings left over are entered and the running key is right; places do not move in the input |
| DeflateWindow.Matcher.SlideWindow | dep/zlib/deflate.c:1510-1518 | the upper half moved down, with the hash table: the window shows the same input, without its first half |
| DeflateSteps.TallyMatch | dep/zlib/deflate.c:1867-1868 | a match in the input tallied with its length and distance extends what is tallied by just the bytes of the match |
| DeflateSteps.FlushBlock | dep/zlib/deflate.c:1605-1614 | the input since the last block is sent, in a stored block only if the window still has it; what can be delivered is |
| SymbolSink.Sink.Tally | dep/zlib/trees.c:1014-1059 | for any literal or match whose distance lies within the output and the window: what the symbols stand for grows by what this one stands for |
| SymbolSink.Sink.SendBlock | dep/zlib/trees.c:911-1008 | after the block, what the blocks sent mean to inflate is what all symbols tallied stand for |
| SymbolSink.Sink.Bounded | dep/zlib/trees.c:944-998 | the stream sent takes no more than 1153/127 bits for each byte that it stands for (nine, and ten for each block of 127 bytes or more), and what flushes add |
| SymbolSink.Sink.Deliver | dep/zlib/deflate.c:730-749 | what is delivered is always the beginning of the stream; something is left only when the space is used up |
| SymbolSink.Sink.AllDelivered | dep/zlib/deflate.c:1038-1072 | when all bytes are delivered after the last block and the trailer, they are a stream of which inflate makes all that was tallied |
| Trailer.TrailerReads | dep/zlib/deflate.c:716-722 | the check value written most significant byte first is what state CHECK reads |
| TokenCoder.Coder.FlushTokens | dep/zlib/trees.c:911-1008 | one block of any symbols: the stream grows by it, its meaning by what they stand for, and the counts are cleared |
| TokenCoder.Coder.Align | dep/zlib/trees.c:896-905 | an empty block with the static trees means nothing to inflate |
| TokenCoder.Coder.EmptyStored | dep/zlib/trees.c:863-881 | neither does an empty stored block |
| FlushBlock.Flush | dep/zlib/trees.c:911-1008 | _tr_flush_block: from any state of the output in which the bits sent mean `out`, the block sent means `out` followed by what the symbols stand for; a last block ends at a byte |
| FlushBlock.Send | dep/zlib/trees.c:944-998 | the form chosen follows from the two predicted sizes and the length of the input; a static block takes exactly static_len bits and a dynamic one opt_len, with three for the header; in whichever form, the block takes no more than nine bits for each byte it stands for, and ten, or 27 when it stands for fewer than 32 bytes |
| FlushBlock.StoredBlock | dep/zlib/trees.c:863-881 | zeros up to a byte, the length, its complement, and the bytes as they are |
| BlockBound.BodyCost | dep/zlib/trees.c:1064-1109 | sent with the static trees, symbols take no more than nine bits for each byte they stand for, and seven for the end |
| DynamicBlock.SendDynamic | dep/zlib/trees.c:834-858 | send_all_trees and compress_block: what is sent, with anything after it, reads back as exactly the symbols tallied and the two codes, and stops at the end of the block; the number of bits is exact |
| DynamicBlock.BuildTrees | dep/zlib/trees.c:927-942 | for every sequence of literals and matches, the three trees are codes with which the block can be sent, and opt_len and static_len have grown by exactly the bits of the block in either form, whatever was forced or moved by overflow |
| StaticBlock.FixedRoundTrip | dep/zlib/trees.c:1064-1109 | every sequence of literals and matches sent with the static trees reads back with the fixed codes of inflate |
| StaticBlock.FixedSize | dep/zlib/trees.c:1064-1109 | in exactly the bits that static_len counts |
| BlockHeader.BlockRoundTrip | dep/zlib/inflate.c:920-1196 | a block sent with any three complete codes, read by the rules of TABLE to LIT, gives its tokens and leaves what follows |
| BlockCode.BodyRoundTrip | dep/zlib/trees.c:1064-1109 | the body of a block sent with any two uniquely decodable codes reads back token by token |
| BlockSize.TokensSize | dep/zlib/trees.c:517-524 | the bits of a body are the frequencies times the lengths and extra bits, summed over both trees |
| BlockSize.HeaderSize | dep/zlib/trees.c:799-827 | the bits of a header are 14, three for each code length sent, and the frequencies of the code length symbols times their lengths and extra bits |
| RunLengths.RunsRoundTrip | dep/zlib/trees.c:748-793 | expanding the repeats that send_tree emits by the rules of CODELENS gives back every array of lengths, and every repeat count fits its extra bits |
| RunLengths.CountsFlush | dep/zlib/trees.c:719-742 | for each run scan_tree counts a code length symbol as often as send_tree sends it |
| TreeWriter.ScanTree | dep/zlib/trees.c:703-742 | the counts grow by the occurrences of each symbol among the runs that are sent |
| TreeWriter.SendTree | dep/zlib/trees.c:748-793 | the loop sends just these runs |
| StaticTables.LengthInit | dep/zlib/trees.c:255-268 | the tables of length codes and bases agree with what inflate reads |
| StaticTables.DistInit | dep/zlib/trees.c:270-286 | the two-part table of distance codes agrees with what inflate reads |
| Tally.TrTally | dep/zlib/trees.c:1014-1059 | one more token is collected and counted in both trees, and the answer says whether the block is full |
| BitWriter.Writer.SendBits | dep/zlib/trees.c:186-208 | the stream grows by the bits of the value, least significant first, across the 16-bit buffer |
| BitWriter.Writer.WindUp | dep/zlib/trees.c:1190-1203 | fewer than 8 zero bits are added, up to the next byte |
| BuildTree.Build | dep/zlib/trees.c:615-697 | for frequencies that fit 16 bits: a full canonical code no longer than the maximum, stored as sent, less frequent symbols never with shorter words; the heap keeps the Huffman tree, and unless one of its leaves is deeper than the maximum, so in particular when the total is below the Fibonacci number for the maximum plus 3, no prefix code takes fewer bits; opt_len and static_len are exact |
| BuildTree.ForcedTwo | dep/zlib/trees.c:646-652 | the forced node can be 2: when symbol 1 alone is in use |
| TreeCode.BuildCode | dep/zlib/trees.c:615-697 | the same in terms of the frequencies given: with two or more symbols and a small total no prefix-free code over them costs less |
| HuffmanTree.GenBitLen | dep/zlib/trees.c:486-561 | the Kraft sum of the lengths is one, none is above the maximum, less frequent symbols have no shorter words; if no leaf of the tree is deeper than the maximum, no lengths that satisfy Kraft's inequality cost less |
| LengthLimit.MoveOverflow | dep/zlib/trees.c:526-542 | the loop ends, always finds a shorter length in use, and leaves as many codes with a Kraft sum of exactly one |
| HuffmanOptimal.BoundIsOptimal | dep/zlib/trees.c:608-614 | lengths that cost no more than any that satisfy Kraft's inequality cost no more than any prefix-free code |
| HuffmanOptimal.MergesBound | dep/zlib/trees.c:666-689 | merging two least nodes at a time: the weights of the nodes made are a lower bound for every code of the leaves |
| TreeDepth.OverflowIsDeeper | dep/zlib/trees.c:505-525 | the first pass counts an overflow exactly when some leaf of the tree is deeper than the maximum |
| TreeDepth.DepthNeeds | dep/zlib/trees.c:505-513 | a leaf at depth d needs a total frequency of at least the Fibonacci number of d + 2, however ties were resolved |
| HuffmanTree.PqDownHeap | dep/zlib/trees.c:451-474 | the loop is the sifting of the node from its place |
| NodeHeap.ReplaceRestores | dep/zlib/trees.c:666-689 | sifting from the root makes a heap again |
| NodeHeap.LeastFirst | dep/zlib/trees.c:451-474 | the root of a heap is a node of least frequency and depth |
| GenCodes.Generate | dep/zlib/trees.c:572-606 | every symbol in use is stored with its canonical code word, as it is to be sent |
| GenCodes.BiReverse | dep/zlib/trees.c:1158-1168 | the bits of a value, reversed |
| CanonicalCode.PrefixesDiffer | dep/zlib/trees.c:572-606 | no canonical code word of lengths that are not over-subscribed is a prefix of another |
| CanonicalCode.DecodesOnce | dep/zlib/inftrees.c:106-303 | at most one symbol's word begins a stream |
| InflateTable.Build | dep/zlib/inftrees.c:32-304 | -1 exactly for lengths that are over-subscribed or incomplete where that is not allowed; 1 exactly when the root table and the sub-tables that the code needs take more than ENOUGH; otherwise a complete two-level table of the code, and nothing written before it |
| TableEnough.EnoughIsEnough | dep/zlib/inftrees.h:38-53 | for every code of at most 286 lengths or 30 distances that inflate_table takes, with root tables of 9 and 6 bits, the tables take no more than 852 and 592 entries: the bounds found there by a search through all codes, proved |
| TableEnough.Walk | dep/zlib/inftrees.c:213-288 | for a complete code with sub-tables: it has at least as many symbols as the root table enters, and one, and the entries of all sub-tables but the last, and the depth of the last; the entries are even in number, and each prefix left by the root table costs at least two |
| DecodeTable.TableDecodes | dep/zlib/inflate.c:1054-1071 | a lookup through both levels finds, for any bits at hand, the one symbol whose word begins them and its length, asks for more bits when there are too few, and finds the mark of an invalid code only for an incomplete code |
| BitReader.Reader.DecodeSymbol | dep/zlib/inflate.c:1054-1071 | pulling bytes only until the symbol is known: the symbol that comes first in the stream, or all input is used up |
| Inflate.Inflate.Call | dep/zlib/inflate.c:622-1275 | from any state between calls: the state after the call is one that the steps from the start of the stream come to; it has stopped because the stream is over, the space is used up, or the input is used up and says nothing more; every result code exactly when it should be |
| InflateStep.OneResult | dep/zlib/inflate.c:622-1275 | two states in which the run of a stream cannot go on are the same |
| Resumable.SameResult | dep/zlib/inflate.c:622-1275 | two inflaters that have come to the end of the same stream, or of its input with space left, have given the same output and agree on the state, the check value and the input left |
| Resumable.Splits | dep/zlib/inflate.c:622-1275 | whole sessions from the first call, with any splits of input and space, agree; windows below 32K only for streams without distances beyond them |
| InflateFast.InflateFast | dep/zlib/inffast.c:50-306 | from input for the longest match and space for it: the state reached is one that the steps from LEN reach, with the same output, and input is never taken beyond its end nor given back from before its start |
| FixedCodes.EightHeld | dep/zlib/inffast.c:25-31 | eight bits that say nothing yet can be held in state LEN: with the fixed code, eight ones |
| InflateFast.CopyMatch | dep/zlib/inffast.c:169-265 | the direct, wrapped and contiguous copies, in threes and singly, all give byte by byte what lies at the distance; or the distance is too far back and nothing is copied |
| BitReader.Reader.FastSymbol | dep/zlib/inffast.c:103-115 | with 15 bits at hand and no checks, both levels give the symbol that comes first |
| BitReader.Reader.GiveBack | dep/zlib/inffast.c:292-296 | whole bytes go back to the input without any change to what is still to be read |
| InflateRead.BlockRuns | dep/zlib/inflate.c:920-1196 | the steps from TABLE of a block that reads back as some tokens lead to the next header, with the output grown by what they stand for |
| InflateRead.BodyRuns | dep/zlib/inflate.c:1044-1196 | the same from LEN, for any two codes |
| StreamRead.StoredMeans | dep/zlib/inflate.c:887-919 | a stored block adds its bytes |
| StreamRead.MeansMore | dep/zlib/inflate.c:849-886 | blocks one after another mean what they mean one by one |
| Window.Window.Update | dep/zlib/inflate.c:396-444 | the window holds the last bytes supplied, as many as it has room for, after any updates; it fails only for lack of memory |
| Window.Window.GetDictionary | dep/zlib/inflate.c:1291-1312 | the bytes come out in order and are the last ones supplied; without a place for them just their number |
| CrcTables.MakeCrcTable | dep/zlib/crc32.c:88-161 | table k holds the CRC of each byte followed by k zero bytes, and its byte-swapped twin |
| CrcTables.CrcLittle | dep/zlib/crc32.c:266-299 | for every buffer and alignment the sliced form gives the CRC one bit at a time of section 8 of RFC 1952 |
| CrcTables.CrcBig | dep/zlib/crc32.c:306-337 | so does the big-endian form |
| CrcTables.CrcOf | dep/zlib/crc32.c:202-234 | and whichever is taken |
| CrcCombine.Combine | dep/zlib/crc32.c:372-425 | from the CRCs of two byte strings and the length of the second, the CRC of both together |
| CrcCombine.Gf2MatrixSquare | dep/zlib/crc32.c:361-369 | squaring the matrix of k zero bits gives that of 2k |
| Adler32.AdlerOf | dep/zlib/adler32.c:63-131 | equal to the sums of section 2.2 of RFC 1950, for every length and whichever way the modulus is compiled, if and only if it is not the one-byte case with sums that are too large |
| Adler32.OneByteDoesFail | dep/zlib/adler32.c:76-84 | a checksum with a sum that is not reduced, and a byte after which the result differs from the sums of RFC 1950 |
| Adler32.CombineConcat | dep/zlib/adler32.c:143-169 | from the checksums of two strings and the length of the second, the checksum of both together, fully reduced |
| FreeList.EveryNodeInOnePlace | client/Utils/ConcurrentQueue.h:1366-1466 | in every reachable state each node is in just one place: in use, on the list, owed to it, or being linked or taken by one thread |
| FreeList.NoDoubleHandout | client/Utils/ConcurrentQueue.h:1389-1430 | a node taken by one getter is nobody else's, is off the list, and has a clear should-be-on-list bit |
| FreeList.NextPinnedByReference | client/Utils/ConcurrentQueue.h:1403-1405 | while any thread holds a counted reference to a node its next pointer does not change |
| FreeList.SuccessfulTakePops | client/Utils/ConcurrentQueue.h:1405-1413 | a successful take removes exactly the first node, so there is no ABA |
| FreeList.SuccessfulLinkPushes | client/Utils/ConcurrentQueue.h:1432-1454 | a successful link puts a node that was not on the list in front of it |
| FreeList.BitMeansOwed | client/Utils/ConcurrentQueue.h:1434-1441 | the should-be-on-list bit is set only while some thread owes the list the node |
| FreeList.QuiescentListIsComplete | client/Utils/ConcurrentQueue.h:1366-1466 | when no call is under way the list has exactly the nodes not in use, each once |
| QueueTheorems.NeverOvertakes | client/Utils/ConcurrentQueue.h:2474-2542 | in every reachable state the head is at most the tail, and the optimistic count is the head, the overcommit and the claims in flight together |
| QueueTheorems.RefinesFifo | client/Utils/ConcurrentQueue.h:2410-2542 | in every reachable state publishing appends one value to the queue, granting removes a prefix that becomes the claim of the dequeuer, and no other access changes it |
| QueueTheorems.TakesWhatWasEnqueued | client/Utils/ConcurrentQueue.h:2695-2794 | the value taken at an index is the one enqueued there; no dequeuer meets an invalid entry or a missing block; claims are disjoint |
| QueueTheorems.TakesOnce | client/Utils/ConcurrentQueue.h:2484-2530 | reading takes one value that nobody has taken |
| QueueTheorems.ReturnedOnce | client/Utils/ConcurrentQueue.h:1513-1527 | a block returns to the free list at most once, after all its elements are taken, while it is the producer's |
| QueueTheorems.QuiescentConserves | client/Utils/ConcurrentQueue.h:2410-2542 | when no call is under way nothing is lost: the values below the head are taken, the others are not, full blocks are back, and the producer has the blocks it needs |
| QueueSystem.EachAlone | client/Utils/ConcurrentQueue.h:2977-3017 | any number of producers on one free list, in any interleaving of single accesses: each producer, and the free list, is in a state that it reaches alone, though no step asks whether a block is in use |
| QueueSystem.OthersUndisturbed | client/Utils/ConcurrentQueue.h:2410-2542 | each step of the system is an access of one producer whose guard holds, and to the others changes no block that they own, and nothing else |
| QueueSystem.HandsOutFree | client/Utils/ConcurrentQueue.h:1389-1430 | the block that try_get hands out belongs to no producer, and then to the one that asked for it |
| QueueSystem.ReturnedOnce | client/Utils/ConcurrentQueue.h:2977-2983 | what a producer gives to the free list is its own and no other's, add may take it, all its elements are taken, it is given once for all of them, and then belongs to no producer |
| QueueSystem.EveryBlockInOnePlace | client/Utils/ConcurrentQueue.h:2977-3017 | in every reachable state each block is with just one producer, or in just one place on its way to, on or from the free list |
| QueueSystem.StillConserves | client/Utils/ConcurrentQueue.h:2977-3017 | when no call is under way the free list has exactly the blocks in which no producer has elements or room, each once |

## Left out

- Resumable.Splits: for a window below 32K a distance beyond it may or may not be refused, depending on the space for output of the call, as in the code; the theorem excludes such streams.
- BuildTree.Build: frequencies are the 16-bit counters of the source, so their total is bounded; `opt_len` and `static_len` are unbounded integers.
- Deflate.Deflater.Call: the header before the first block, preset dictionaries, `deflateParams`, `deflateTune` in mid-stream and level 0 (`deflate_stored`) are not modelled; the pending buffer is an unbounded sequence, without its overlay by the symbol buffers.
- RoundTrip.SinglePass: the closer bound that `deflateBound` returns for the default window size and memory level is not proved; it depends on how many symbols each block holds. The two bytes of the header are not counted.
- Inflate.Inflate.Call: the states before TYPE, the gzip trailer, preset dictionaries, `inflateSync`, `inflateCopy`, `inflateUndermine` with its distances too far back, and stops between blocks (`Z_BLOCK`, `Z_TREES`, `back`, `data_type`) are not modelled; the length, offset, extra bits and code lengths that a state remembers are one value with the state, copied to `lens` for inflate_table.
- InflateFast.InflateFast: works on the fields of the stream, where the source copies them to locals and back.
- CrcTables.CrcOf: the flags by which threads wait for the tables are not modelled; neither are the literal tables of `crc32.h` and `inffixed.h`, which the generating code stands for.
- FreeList.EveryNodeInOnePlace: memory is sequentially consistent, and there are fewer than 2^31 - 2 threads, so that the count of references does not reach the bit above it.
- QueueTheorems.RefinesFifo: each producer with any number of consumers, one value enqueued at a time; the order of elements of different producers, and how `try_dequeue` chooses a producer, are not modelled; indices are unbounded integers; `enqueue_bulk`, explicit producers, tokens, throwing constructors, and destruction are not modelled, and allocation succeeds or fails as it likes.
- QueueSystem.EachAlone: which of the initial pool, the free list and allocation gives a block is left open, which allows more runs than the order in `requisition_block`; all producers are there from the start.
- `detect_data_type`, which only sets a hint, and `infback.c`, which repeats `inflate.c`.
- The rest of the client: sockets, console, configuration, timers, scripting, and the drivers of zlib (`gz*.c`, `compress.c`, `uncompr.c`).
