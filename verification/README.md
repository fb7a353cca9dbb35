# A verified model of the spider's compression library and stream readers

The crawler fetches pages over HTTP, takes chunked bodies apart, decompresses them with
its bundled copy of zlib, names documents by their MD5 digest and logs through two
buffers. This project models those parts in Dafny, each in its own form - arrays, hash
chains, bit buffers and mode switches that are updated in place - and proves what they
are for.

* **Huffman coding.** `build_tree` and `gen_bitlen` make a complete, length-limited
  canonical code for every frequency table; `inflate_table` rejects exactly the code
  length sets it should and otherwise builds tables from which every bit string is
  decoded by at most two lookups; the two ends agree, symbol by symbol. The code
  lengths are as short as those of any prefix code exactly when a code within the length
  limit can be: the tree is optimal, and by its tie-breaking the least deep of all optimal
  ones. The sizes that choose a block's encoding are the numbers of bits really sent, and
  unless only the fixed trees may be used no encoding is smaller than the one chosen.
* **Matching.** The hash chains survive insertion and window slides, so that the third
  byte of a candidate need not be compared; whatever `longest_match` returns is a match
  in the whole input; every strategy covers the input with tokens, byte for byte.
* **Whole streams.** Everything `deflate` has sent decodes to the input it has consumed,
  after any sequence of calls; a flush is refused exactly when it can do nothing, decoding can
  start afresh after a full flush, and calls with FINISH reach the end of the stream; `inflate`
  gives the same output and verdict however its input and output are cut into calls, with
  its fast loop included; put together, what is deflated is inflated to the same bytes.
  That no complete code of at most 286 or 30 symbols needs more table entries than the
  ENOUGH constants provide, which zlib takes from an exhaustive search, is proved.
* **Checksums and digests.** CRC-32, Adler-32 and MD5 in their fast or incremental forms
  equal their one-line definitions, and the combine functions give the checksum of a
  concatenation. The definitions are tied down by what the standards say of them: the CRC
  residue and check value, the digests of RFC 1321, the bit-by-bit meaning of its functions.
  In the same way the code tables of RFC 1951, a dynamic block byte for byte, and stored
  blocks tie down the decoder's specification.
* **Streams of chunks and messages.** A chunked body is read back as its data, however it
  is fragmented; accepted log messages reach their files in order, however the threads
  interleave, and exactly when none is lost at the end is stated.

Bits are sequences of booleans, first transmitted bit first. The decoder is specified
twice: as a small transition system on whole bit strings (`InflateSpec`, after sections
3.2.3 to 3.2.7 of RFC 1951), and as the resumable machine of inflate.c, which is proved
to stay, between any two calls, exactly where the transition system leads. Deflate keeps
the whole input and the position in it in ghost state next to its window indices.

The code disagrees with its own comments or with what a caller may expect in some places;
the model follows the code.

* A forced code can be 2, not only 0 or 1 as the comment at trees.c:653 says.
* The lengths that `gen_bitlen` sets are not always optimal, as the comments at trees.c:483
  and trees.c:613 have it: they are if and only if some code within the limit is as short
  as any (`BuildTrees.BuildTree`), which with seven bits the frequencies 1, 1, 2, 4, 8, ...
  128 do not allow (`ShortestCodes.LimitCosts`).
* `inflate` can be resumed in LEN with eight or more bits held; what holds is that the
  last byte taken was needed (`InflateStates.State.Tight`). Seven bytes get it there
  (`HeldBits.LenHoldsEight`).
* `match_start` may wrap below zero when the window slides; the distance to it does not
  change (`MatchFinder.Matcher.Slide`).
* The MD5 `digest` is recomputed on every call, as the update inside `final` clears the
  flag set before, and a message tail of 56 bytes or more is overwritten by the padding.
* The loop of an MD5 `update` that starts with bytes buffered never ends if these and the
  input are 2^32 bytes or more, as its 32-bit counter wraps around (`Md5.LoopEnds`).
* `is_hex_digit` accepts the letters after F, and spaces are skipped: a size line is read
  as if they were not there, so that 1g2 is 18 (`ChunkedReader.LaterDigitsCount`), and the
  size is taken modulo 2^32. `ChunkedReader.SizeOfDigits` says exactly which lines are
  read as section 3.6.1 of RFC 2616 means them.
* With the strategy FIXED a stored block smaller than the fixed one is passed over exactly
  when dynamic trees, which are not sent then, would be smaller still
  (`BlockTrees.FixedChoice`).
* `recv_and_discard` refuses descriptor 0, which the other readers accept.
* Messages accepted by the logger are lost if the writer is too slow for either wait of
  the destructor: for the first, when those in the first buffer are never swapped, or for
  the second, when the writer is cancelled before it has written the second buffer.

## Model

| member | source | states |
|---|---|---|
| Canonical.PrefixFree | deps/zlib/trees.c:575-607 | canonical codes with Kraft sum at most 1: no code is a prefix of another |
| Canonical.Complete | deps/zlib/trees.c:591-596 | with Kraft sum exactly 1, every long enough bit string starts with a code |
| TreeHeap.PqDownHeap | deps/zlib/trees.c:453-476 | moving a node down makes a heap (by frequency, then depth) from k on, permutes only heap[1..len], and changes nothing else |
| TreeHeap.RootSmallest | deps/zlib/trees.c:424-445 | the node at SMALLEST precedes every node of the heap, by frequency and then by depth |
| BuildTrees.PqRemove | deps/zlib/trees.c:432-437 | the removed node is least frequent, and least high among those; the other nodes stay, and the heap is one again |
| BuildTrees.ForceTwo | deps/zlib/trees.c:643-655 | at least two leaves afterwards; the forced codes were unused, get frequency 1, and opt_len and static_len are lowered by what they will add |
| BuildTrees.CombineOne | deps/zlib/trees.c:666-686 | a merge keeps heap and forest: frequencies are sums of the leaves below and fit 16 bits, heights fit their byte, nodes leave the heap in non-decreasing frequency and then height, fathers come later |
| BuildTrees.CombineAll | deps/zlib/trees.c:662-690 | one root remains over exactly the used leaves, heap[heap_max..] lists the tree from the root down, and every step merged the two least frequent nodes |
| OptimalTrees.Exchange | deps/zlib/trees.c:662-688 | in any prefix code the two rarest symbols can be given the two longest codes at no cost, and where that saves nothing it makes no subtree deeper |
| OptimalTrees.MinimalPath | deps/zlib/trees.c:612-613 | the weighted path length of the tree, before limiting, is minimal among all code lengths that satisfy Kraft's inequality |
| OptimalTrees.MinimalTree | deps/zlib/trees.c:612-613 | in particular, no full binary tree over the same symbols has a smaller one |
| OptimalTrees.LeastDepth | deps/zlib/trees.c:440-447 | with depth as tie breaker the tree is the least deep of the optimal ones: any code as short has a length as great as the depth of the tree |
| OptimalTrees.Grows | deps/zlib/trees.c:676-677 | a grandfather is at least twice as frequent as his grandson, so that the height of a node is below 32 and fits its byte |
| ShortestCodes.TreeFills | deps/zlib/trees.c:662-688 | the depths of the leaves use up the code space exactly |
| ShortestCodes.CutOnlyIfNeeded | deps/zlib/trees.c:512-517 | if some code within the limit is as short as any code can be, no node is deeper than the limit, and nothing is cut |
| ShortestCodes.DepthsShortest | deps/zlib/trees.c:612-613 | lengths equal to the depths are as short as those of any prefix code, and no rarer symbol has the shorter one |
| Forests.ForestIsTree | deps/zlib/trees.c:666-690 | that list is a tree: every node but the root has its father before it, every inner node two sons, and its leaves are the used symbols |
| TreeShape.Levels | deps/zlib/trees.c:512-519 | nodes at a depth are twice the inner nodes above, also where depths are cut at max_length |
| BitLengths.OverflowMeans | deps/zlib/trees.c:503-528 | overflow is always twice the Kraft excess of the limited depths |
| BitLengths.CutIs | deps/zlib/trees.c:512-517 | the first pass leaves every depth cut at the limit, and overflow is the number of nodes deeper than it |
| BitLengths.ShorterExists | deps/zlib/trees.c:534-536 | while the code is over-subscribed, a leaf shorter than max_length exists, so the backwards scan stops |
| BitLengths.Repair | deps/zlib/trees.c:533-544 | the repair ends, with Kraft sum exactly 1 and as many leaves as before; each step splits the deepest leaf above the limit |
| BitLengths.HuffState.GenBitlen | deps/zlib/trees.c:486-565 | for every Huffman tree with at most 2^max_length leaves: lengths within the limit, nonzero exactly on the leaves, Kraft sum 1, bl_count right, and opt_len and static_len grown by the exact cost; the lengths are the depths if none is beyond the limit, and else the repaired counts given out in the order of the list, the longest to the rarest |
| GenCodes.BiReverse | deps/zlib/trees.c:1154-1164 | reversing a code puts its first transmitted bit lowest |
| GenCodes.GenCodes | deps/zlib/trees.c:575-607 | every used symbol gets its canonical code of RFC 1951 section 3.2.2, reversed; nothing else changes |
| BuildTrees.BuildTree | deps/zlib/trees.c:617-699 | for every frequency table: a complete limited code covering the used symbols (no others if two are used), its codes, and exact opt_len and static_len in terms of the caller's frequencies; the lengths are as short as those of any prefix code if and only if the frequencies let a code within the limit be so, and rarer symbols never have shorter codes |
| ShortestCodes.CompleteCodes | deps/zlib/trees.c:591-596 | lengths with Kraft sum one that the used symbols have are those of a code in the sense of BuildTree's claim |
| ShortestCodes.LimitCosts | deps/zlib/trees.c:533-544 | for the frequencies 1, 1, 2, 4, 8, ... 128 no code within seven bits is as short as codes can be: it takes 511 bits, and not 510 |
| BuildTrees.TwoSymbols | deps/zlib/trees.c:648-654 | two symbols get one bit each: what a forced code adds to opt_len is what was subtracted before |
| CodeLengths.RoundTrip | deps/zlib/trees.c:750-795 | the run-length tokens of any lengths expand to those lengths, and every repeat count fits its extra bits |
| CodeLengths.BothTrees | deps/zlib/inflate.c:936-982 | the tokens of both trees, read as one sequence, expand to both sets of lengths |
| CodeLengths.ScanTree | deps/zlib/trees.c:705-744 | each code-length symbol is counted as often as it occurs in the tokens, and the guard is left behind the lengths |
| CodeLengths.SendTree | deps/zlib/trees.c:750-795 | sends exactly the code bits and extra bits of the tokens that scan_tree counted |
| BitOutput.OrDisjoint | deps/zlib/trees.c:213-225 | or-ing a value above the valid bits is adding it |
| BitOutput.BitWriter.SendBits | deps/zlib/trees.c:213-225 | bits sent so far, in pending bytes and bi_buf, grow by exactly the value's bits; bi_buf is zero above bi_valid |
| BitOutput.BitWriter.BiFlush | deps/zlib/trees.c:1169-1181 | loses no bit and leaves at most seven in the buffer |
| BitOutput.BitWriter.BiWindup | deps/zlib/trees.c:1186-1199 | pads with zero bits to a byte boundary and empties the buffer |
| Tokens.InitLengths | deps/zlib/trees.c:257-270 | the length tables give the code whose range holds the length, and 285 for 258 |
| Tokens.InitDists | deps/zlib/trees.c:272-288 | d_code looks up the code whose range holds the distance, for all 32768 distances |
| Tokens.LengthBase | deps/zlib/inftrees.c:58-63 | the decoder's length bases and extra bits are those the encoder computes |
| Tokens.DistBase | deps/zlib/inftrees.c:64-71 | the same for distances |
| Tokens.ReplayConcat | deps/zlib/inflate.c:1123-1173 | replaying tokens one list after the other is replaying their concatenation |
| StaticTrees.TrStaticInit | deps/zlib/trees.c:234-315 | all static tables: ranges, lengths and canonical codes |
| BlockBits.DataCost | deps/zlib/trees.c:519-527 | the bits of a block's data are the cost of its symbol frequencies |
| BlockData.CompressBlock | deps/zlib/trees.c:1060-1105 | sends the codes and extra bits of all buffered tokens in order, then the end of block |
| BlockTrees.TreeCoder.TallyLit | deps/zlib/deflate.h:323-329 | the literal is appended to the block and its frequency counted; full exactly at the last slot |
| BlockTrees.TreeCoder.TallyDist | deps/zlib/deflate.h:330-339 | the match is appended and both its symbols counted |
| BlockTrees.TreeCoder.BuildBlTree | deps/zlib/trees.c:801-829 | a code for the code-length symbols used, the last of them in transmission order, and the exact growth of opt_len |
| BlockTrees.TreeCoder.SendAllTrees | deps/zlib/trees.c:836-860 | sends the three counts, the reordered code-length lengths and both run-length coded trees |
| BlockTrees.TreeCoder.StoredBlock | deps/zlib/trees.c:865-877 | sends the type, the padding, the length, its complement and the bytes |
| BlockTrees.TreeCoder.BuildTrees | deps/zlib/trees.c:923-938 | opt_len and static_len become the numbers of bits the block would take with dynamic and with fixed trees |
| BlockTrees.OptimalLength | deps/zlib/trees.c:812-825 | the bits of a dynamic block are the costs of both trees, the tokens, three bits a length and the counts |
| BlockTrees.StaticLength | deps/zlib/trees.c:526 | the bits of a fixed block are its cost by the static lengths |
| BlockTrees.TreeCoder.FlushBlock | deps/zlib/trees.c:907-1004 | the encoding chosen from the exact sizes, all its bits after those sent before, padding after the last block, and an empty block left behind |
| BlockTrees.ChoiceSmallest | deps/zlib/trees.c:923-985 | no encoding that could have been sent is smaller, in bytes as they are compared, than the one chosen |
| BlockTrees.FixedChoice | deps/zlib/trees.c:932-975 | with the strategy FIXED a smaller stored block is passed over exactly if dynamic trees would be smaller still |
| BlockTrees.SizeOfBits | deps/zlib/trees.c:923-938 | the size compared is the number of bytes that the bits sent fill, for a stored block without its type and padding |
| DecodingTables.SubTableBits | deps/zlib/inftrees.c:270-278 | the look-ahead makes a sub-table as large as the codes that share its root bits need |
| HuffBits.Increment | deps/zlib/inftrees.c:248-257 | the backwards increment is the successor of the code read most significant bit first |
| HuffBits.NextCode | deps/zlib/inftrees.c:248-261 | the successor of a symbol's code, padded, is the next symbol's code |
| HuffBits.LastHuff | deps/zlib/inftrees.c:293-301 | the increment after the last code is zero exactly for a complete set |
| DecodingTables.InflateTable | deps/zlib/inftrees.c:32-306 | -1 exactly for over-subscribed and disallowed incomplete sets, 1 exactly when the table would be too large, else a table that decodes every code, with links inside it and the unused half of a lone code filled |
| DecodingTables.DecodesEverything | deps/zlib/inflate.c:1031-1042 | a complete code's table decodes every bit buffer in at most two lookups to the symbol it starts with |
| SymbolDecoding.LookupAgrees | deps/zlib/inflate.c:1031-1042 | with only some of the bits present, the entry found is short enough exactly when a whole code is there |
| Agreement.SentCode | deps/zlib/trees.c:602 | the reversed code sent lowest bit first is the canonical code |
| Agreement.EncoderDecoderAgree | deps/zlib/trees.c:602-606 | for every frequency table: the bits sent for a symbol, whatever follows, are looked up as that symbol and its own length |
| Agreement.NeverRejected | deps/zlib/inftrees.c:130-138 | inflate_table never rejects lengths that build_tree has made |
| Agreement.PartialCodeWaits | deps/zlib/inflate.c:1031-1035 | a proper prefix of a code is never taken for a symbol |
| InflateSpec.MoveLocal | deps/zlib/inflate.c:826-1173 | a decoding step depends on the bits it uses and on nothing behind them |
| InflateSpec.OneEnd | deps/zlib/inflate.c:826-1173 | decoding a bit string can end in one way only |
| KnownStreams.OrderOutwards | deps/zlib/inflate.c:625-626 | code-length codes come as 16, 17, 18, 0 and then outwards from 8, as in section 3.2.7 of RFC 1951; both ends use that order |
| KnownTables.LengthTable | deps/zlib/inftrees.c:58-63 | the length codes of section 3.2.5, by arithmetic on the code |
| KnownTables.DistanceTable | deps/zlib/inftrees.c:64-71 | the distance codes of section 3.2.5 |
| KnownTables.FixedLitCode | deps/zlib/inflate.c:261-302 | the fixed literal and length codes are those that section 3.2.6 lists |
| KnownTables.FixedDistCode | deps/zlib/inflate.c:261-302 | fixed distance codes are five-bit numbers |
| RoundTrips.TokenLeads | deps/zlib/trees.c:1074-1096 | the bits sent for a token decode to its bytes |
| RoundTrips.HeaderLeads | deps/zlib/inflate.c:897-1018 | the header of a dynamic block decodes to its two codes |
| EnoughEntries.LensFit | deps/zlib/inftrees.h:38-48 | a complete code of at most 286 symbols never needs more than ENOUGH_LENS entries, with 9 root bits |
| EnoughEntries.DistsFit | deps/zlib/inftrees.h:38-48 | nor a complete code of at most 30 symbols more than ENOUGH_DISTS entries, with 6 root bits |
| RoundTrips.AlwaysAccepted | deps/zlib/inflate.c:997-1015 | inflate_table returns 0 for both codes of every dynamic block that can be sent |
| RoundTrips.BlockRoundTrip | deps/zlib/trees.c:957-1000 | every block FlushBlock can send decodes to the replay of its tokens, or its stored bytes, and decoding stands at the next block |
| RollingHash.Hashing.KeyOfLastThree | deps/zlib/deflate.c:161-167 | after three updates nothing older is left in ins_h |
| RollingHash.Hashing.ThirdByte | deps/zlib/deflate.c:1246-1252 | with at least 8 hash bits, equal keys and equal first two bytes make the third bytes equal |
| RollingHash.SevenBitsFail | deps/zlib/deflate.c:1246-1252 | with 7 bits they need not be |
| HashChains.ChainsInsert | deps/zlib/deflate.c:186-190 | insertion keeps every chain reachable, decreasing and of one key |
| HashChains.ChainsSlide | deps/zlib/deflate.c:1424-1451 | so does moving all links down by the window size |
| HashChains.FollowLink | deps/zlib/deflate.c:1284-1285 | a link leads to an older string of the same key |
| MatchFinder.Matcher.InsertString | deps/zlib/deflate.c:186-190 | the string becomes the head of its chain; the old head is an older string with its key |
| MatchFinder.Matcher.Slide | deps/zlib/deflate.c:1416-1453 | a slide moves no position in the whole input, and the distance of a match kept from before |
| MatchFinder.Matcher.FillWindow | deps/zlib/deflate.c:1390-1532 | enough lookahead or no input left; all input is kept, the window holds the latest, and chains, hash key and a held match stay right |
| MatchFinder.Matcher.LongestMatch | deps/zlib/deflate.c:1148-1289 | a result longer than prev_length is a match in the input within lookahead and MAX_DIST; candidates are tried in chain order, and none tried is longer |
| Matching.MatchCopies | deps/zlib/inflate.c:1134-1166 | copying a match back byte by byte gives the input's bytes, also when it overlaps itself |
| MatchFinder.Matcher.FastStep | deps/zlib/deflate.c:1653-1709 | one turn of deflate_fast gives a token that covers the next bytes |
| MatchFinder.Matcher.SlowFind | deps/zlib/deflate.c:1757-1793 | the previous match is kept, and a new one counts only if it is longer |
| MatchFinder.Matcher.TakeHeld | deps/zlib/deflate.c:1797-1820 | the match of the previous position is output, even if its start has left the window, and covers the bytes from there |
| MatchFinder.Matcher.Advance | deps/zlib/deflate.c:1826-1845 | exactly one byte, and a true match for it, is held back |
| MatchFinder.Matcher.RleStep | deps/zlib/deflate.c:1881-1920 | runs become matches of distance one |
| MatchFinder.Matcher.HuffStep | deps/zlib/deflate.c:1951-1955 | one literal a turn |
| MatchFinder.Matcher.Forget | deps/zlib/deflate.c:948-955 | a full flush forgets the chains, and where nothing lies ahead the window too, which then starts again at position zero |
| Deflating.DecodesNext | deps/zlib/deflate.c:1538-1547 | if what was sent decodes to the input before a block, then with the block it decodes to the input up to its end |
| Deflating.Resumed | deps/zlib/deflate.c:948-955 | what decodes by itself, put after whole bytes that end between two blocks, decodes there in the same way |
| Deflate.Deflater.DeflateFast | deps/zlib/deflate.c:1628-1722 | tokens emitted so far replay to the input up to strstart, over any slides and flushes; how the call can end |
| Deflate.Deflater.DeflateSlow | deps/zlib/deflate.c:1730-1853 | the same, up to the byte held by match_available |
| Deflate.Deflater.DeflateRle | deps/zlib/deflate.c:1861-1928 | the same for runs |
| Deflate.Deflater.DeflateHuff | deps/zlib/deflate.c:1934-1967 | the same for literals, one byte a token, so that no block is too long |
| Deflate.Deflater.DeflateStored | deps/zlib/deflate.c:1564-1619 | stored blocks are sent before their start can leave the window |
| Deflate.Deflater.FlushBlockOnly | deps/zlib/deflate.c:1538-1547 | a flushed block extends what decodes to the input up to strstart; output space or pending output is used up |
| Deflate.FlushOrder | deps/zlib/deflate.c:159 | NO, BLOCK, PARTIAL, SYNC, FULL and FINISH ask for more and more, and all for more than a call that ran out of room |
| Deflate.Deflater.Deflate | deps/zlib/deflate.c:665-976 | every call keeps: what was sent decodes to what was consumed; BUF_ERROR if and only if the call can do nothing, as last_flush and the order of the flush values say; what each status means for input, output and flushing; the bits that end a flush; what is forgotten at a full flush |
| SlidingWindow.Window.UpdateWindow | deps/zlib/inflate.c:379-427 | the circular window, from its oldest byte, is the last min(total, wsize) bytes of output |
| SlidingWindow.Window.GetDictionary | deps/zlib/inflate.c:1268-1289 | returns those bytes in order |
| InflateStates.State.NeedBits | deps/zlib/inflate.c:489-504 | pulls no byte more than needed, and fails only when the input is used up |
| InflateStates.State.LookupSym | deps/zlib/inflate.c:1031-1048 | finds the symbol whose code comes next, pulling only bytes its code needs |
| InflateHeaders.DoType | deps/zlib/inflate.c:826-863 | a block header, or the end after the last block, moves as specified |
| InflateHeaders.DoStored | deps/zlib/inflate.c:864-877 | a stored length is taken only with its complement |
| InflateHeaders.DoCopy | deps/zlib/inflate.c:877-896 | stored bytes go from input to output, as many as both sides allow |
| InflateHeaders.FixedTables | deps/zlib/inflate.c:261-302 | the fixed codes get tables that decode them |
| InflateCodes.DoTable | deps/zlib/inflate.c:897-914 | the counts, or an error for too many symbols |
| InflateCodes.DoLenLens | deps/zlib/inflate.c:915-935 | the code-length code, or an error if it is rejected |
| InflateCodes.DoCodeLens | deps/zlib/inflate.c:936-1018 | the lengths, repeats within bounds, an end-of-block code, and both tables, or an error |
| InflateData.DoLen | deps/zlib/inflate.c:1019-1069 | literal, length, end of block or error, as the code says |
| InflateData.DoExt | deps/zlib/inflate.c:1070-1113 | the extra bits of lengths and distances |
| InflateData.DoDist | deps/zlib/inflate.c:1080-1106 | the distance symbol |
| InflateData.DoMatch | deps/zlib/inflate.c:1123-1167 | copies through the circular window and the current output what the distance names; too far back is an error exactly when it reaches before the first byte |
| InflateData.DoLit | deps/zlib/inflate.c:1168-1173 | a literal when there is room |
| FastInflate.FastTurn | deps/zlib/inffast.c:120-311 | one iteration pulls at most 6 bytes and writes at most 258, and ends where the slow steps would |
| FastInflate.FastMatch | deps/zlib/inffast.c:150-290 | window and output copies together are the match |
| FastInflate.InflateFast | deps/zlib/inffast.c:67-324 | refines the slow steps, hands back whole unused bytes and ends with fewer than 8 bits held |
| InflateMain.InflateCall | deps/zlib/inflate.c:605-1252 | each call goes on exactly where the bytes taken lead, stops only for lack of input or room or at an end, and returns the right status |
| InflateMain.ScheduleIndependence | deps/zlib/inflate.c:605-1252 | two readings of a stream to its end, with any calls, give the same output and the same verdict, and unless it is invalid have taken the same bytes |
| InflateMain.EndBytes | deps/zlib/inflate.c:605-1252 | a finished stream has taken just the bytes that hold it, an unfinished one all there are |
| HeldBits.LenHoldsEight | deps/zlib/inflate.c:1031-1035 | after seven given bytes, in any calls, inflate stands in LEN with eight bits held |
| HeldBits.HoldEight | deps/zlib/inflate.c:605-1252 | one call with these bytes gets there |
| InflateStates.State.PullByte | deps/zlib/inflate.c:489-495 | a byte is only taken with at most 24 bits held, so hold fits 32 bits |
| InflateMain.OutputIsPrefix | deps/zlib/inflate.c:605-1252 | at any time the output is the beginning of that output |
| KnownStreams.DynamicBlock | deps/zlib/inflate.c:605-1252 | the 23 bytes of a dynamic block, as zlib writes it for a text of 29 letters, are read as that text, in any calls |
| KnownStreams.InflateText | deps/zlib/inflate.c:605-1252 | one call with these bytes gives the text |
| KnownTables.StoredStream | deps/zlib/inflate.c:864-896 | a last stored block, written out as bytes for any data, is read as that data, in any calls |
| InflateMain.InflateAll | deps/zlib/inflate.c:605-1252 | any sequence of offers keeps the invariant; a final status means the end was reached |
| RawStreams.DeflateThenInflate | deps/zlib/deflate.c:665-976 | a finished stream is inflated to the input, whatever level, strategy, flushes and cuts made it and however it is read |
| RawStreams.SyncPoint | deps/zlib/deflate.c:936-963 | after a flush to a byte boundary everything consumed can be read |
| RawStreams.FullFlushRestarts | deps/zlib/deflate.c:948-955 | decoding can start afresh at the last full flush: the bytes since then, by themselves, are read as the input since then |
| RawStreams.MarkInside | deps/zlib/deflate.c:948-955 | the point of that flush is between two of the bytes that have been sent |
| RawStreams.FlushLater | deps/zlib/deflate.c:887-890 | a flush asked for after the input, without more of it, is not refused, and with room everything goes out, up to the flush's empty block |
| RawStreams.DeflateAll | deps/zlib/deflate.c:665-976 | after any sequence of offers and flushes, what has been compressed and what still waits are exactly what was offered |
| RawStreams.FinishAll | deps/zlib/deflate.c:665-976 | calls with FINISH and any room for output, repeated, reach the end of the stream with all input in it |
| Crc32.RegisterConcat | deps/zlib/crc32.c:111-130 | the bit-at-a-time register of section 8 of RFC 1952 composes over concatenation |
| Crc32.MakeTables | deps/zlib/crc32.c:90-164 | the four tables hold a byte's remainder and its continuation by one to three zero bytes |
| Crc32.WordByTables | deps/zlib/crc32.c:241-244 | four table lookups are 32 steps of the register |
| Crc32.CrcLittle | deps/zlib/crc32.c:247-278 | bytes, words and bytes from any alignment give the bit-at-a-time remainder |
| Crc32.ComputeCrc32 | deps/zlib/crc32.c:204-236 | extends the checksum of any earlier bytes to the checksum of all |
| Crc32.Residue | deps/zlib/crc32.c:227-276 | any bytes followed by their checksum, lowest byte first, leave 0xdebb20e3 in the register |
| Crc32.CheckValue | deps/zlib/crc32.c:204-236 | the checksum of the digits 1 to 9 is 0xcbf43926 |
| CrcCombine.MatrixTimes | deps/zlib/crc32.c:327-341 | multiplying by an operator's matrix feeds its number of zero bits |
| CrcCombine.MatrixSquare | deps/zlib/crc32.c:344-352 | the square feeds twice as many |
| CrcCombine.Combine | deps/zlib/crc32.c:355-408 | the checksum of a concatenation from those of its parts, for every length |
| Adler32.FoldIs | deps/zlib/adler32.c:73-98 | reducing per byte gives the residues of the unreduced sums |
| Adler32.BlockLargest | deps/zlib/adler32.c:15-16 | with 5553 bytes between reductions 32 bits can overflow |
| Adler32.Mod63 | deps/zlib/adler32.c:45-57 | the division-free reductions are the residue |
| Adler32.ComputeAdler32 | deps/zlib/adler32.c:65-133 | the deferred form equals section 8.2 of RFC 1950 for every buffer and valid start, without overflow |
| Adler32.CheckValue | deps/zlib/adler32.c:65-133 | the checksum of the letters of Wikipedia is 0x11e60398 |
| Adler32.ReducedValue | deps/zlib/adler32.c:65-133 | the checksum of 258 bytes 255, where both sums are reduced, is 0x091d010e |
| Adler32.Combine | deps/zlib/adler32.c:136-162 | the checksum of a concatenation for every non-negative 63-bit length |
| Md5.Calculator.Reset | src/md5.cc:120-131 | an empty message again |
| Md5.Calculator.Update | src/md5.cc:173-214 | state, 64-bit count and buffer stand for the message extended by the input, whenever the loop ends |
| Md5.LoopEnds | src/md5.cc:201-203 | the loop over whole blocks ends if and only if nothing was buffered before or the buffered bytes and the input are fewer than 2^32 |
| Md5.Calculator.Final | src/md5.cc:218-248 | the digest of the message padded as in sections 3.1 and 3.2 of RFC 1321; what later updates continue |
| Md5.ResumesSame | src/md5.cc:218-248 | that is the same message exactly when its tail was under 56 bytes or equalled the padding that replaced it |
| Md5.LostTail | src/md5.cc:218-248 | a message of 56 letters is lost |
| Md5.Calculator.GetDigest | src/md5.cc:110-117 | every call digests the message so far |
| Md5.Calculator.UpdateFile | src/md5.cc:144-169 | a file read in blocks is one update |
| Md5.DigestOfPieces | src/md5.cc:173-214 | the digest does not depend on how a message is split into updates |
| KnownDigests.MixBits | src/md5.cc:42-45 | bit by bit: F chooses y or z by x, G chooses x or y by z, H is parity, I turns y over where x is set or z is not |
| KnownDigests.EachWordOnce | src/md5.cc:260-330 | every round adds each word of the block exactly once |
| KnownDigests.DigestEmpty | src/md5.cc:110-117 | the digest of the empty message, as in section A.5 of RFC 1321 |
| KnownDigests.DigestAbc | src/md5.cc:110-117 | the digest of abc, as in section A.5 of RFC 1321 |
| ChunkedReader.ToCrlfIsFirst | src/downloader_task.cc:649-671 | the scan for an end of line stops at the first one |
| ChunkedReader.RecvN | src/downloader_task.cc:673-691 | exactly n bytes in order, for every fragmentation |
| ChunkedReader.RecvChunkSize | src/downloader_task.cc:598-647 | the size and end of a size line |
| ChunkedReader.JunkIgnored | src/downloader_task.cc:608-627 | every size line is read as the line without the spaces and letters past F of its leading run: same size, same end |
| ChunkedReader.SizeIs | src/downloader_task.cc:614-621 | the size of every line is the value of the remaining digits, modulo 2^32 |
| ChunkedReader.DigitIs | src/downloader_task.cc:614-621 | a byte has a digit's value if and only if it is that character of 0123456789abcdef or 0123456789ABCDEF |
| ChunkedReader.SizeSpelled | src/downloader_task.cc:614-621 | the size of every line is the number that its digits, taken as these characters, spell to base 16, modulo 2^32 |
| ChunkedReader.SpelledSize | src/downloader_task.cc:598-647 | every number below 2^32 is read as spelled, in either case, with leading zeros and an extension |
| ChunkedReader.UsualSize | src/downloader_task.cc:598-647 | in particular in its usual spelling |
| ChunkedReader.SizeOfDigits | src/downloader_task.cc:608-627 | it is the number section 3.6.1 of RFC 2616 means, spelled by the leading digits, if and only if that fits 32 bits and its last eight places are those of all digits in the run |
| ChunkedReader.LaterDigitsCount | src/downloader_task.cc:614-623 | 1g2 is read as 18, not as 1 |
| ChunkedReader.RecvAndDiscard | src/downloader_task.cc:649-671 | reads through the end of a line, on descriptors above 0 |
| ChunkedReader.RecvByChunk | src/downloader_task.cc:524-577 | on every stream whose sizes fit, the page and the bytes used are those of the parser's definition |
| ChunkedReader.BodyOfEncoding | src/downloader_task.cc:524-577 | every well-formed body parses to its data, using exactly its bytes |
| ChunkedReader.ReadBody | src/downloader_task.cc:524-577 | both together: every chunking, extension and fragmentation of a body is read as its data |
| ChunkedReader.TenBytes | src/downloader_task.cc:524-577 | a body given byte for byte: the chunk of size a is its ten bytes |
| ChunkedReader.RecvHeader | src/downloader_task.cc:450-496 | reads up to the first empty line and keeps all but carriage returns |
| TwoBufferLogger.GuardedNext | src/logger.cc:194-214 | every step of a caller or the writer keeps: at most one wake-up is under way, exactly one while the second buffer holds messages |
| TwoBufferLogger.AlwaysInOrder | src/logger.cc:194-214 | in every interleaving: written, then second buffer, then first buffer are the accepted messages in lock order, each in its own file |
| TwoBufferLogger.LinesOf | src/logger_task.cc:30-44 | which file each kind of message goes to, with which prefix |
| TwoBufferLogger.CallKeeps | src/logger.cc:194-214 | up to the threshold a call only keeps its message |
| TwoBufferLogger.CallSwaps | src/logger.cc:194-214 | with more than threshold messages and the second buffer empty it swaps the buffers and wakes the writer |
| TwoBufferLogger.CallWaits | src/logger.cc:194-214 | with the second buffer in use it says so and keeps the message |
| TwoBufferLogger.NoSwapWhileWriting | src/logger_task.cc:27-53 | the buffers are never swapped while the writer walks the second one |
| TwoBufferLogger.WriterIsWoken | src/logger_task.cc:27-53 | while the second buffer holds messages, the writer or whoever is about to wake it can go on, until it is stopped |
| TwoBufferLogger.ClosedIsComplete | src/logger.cc:39-93 | after destruction the files hold all accepted messages if and only if, as the first wait ended, one of the buffers was empty, and, as the writer stopped, it had written the whole second buffer |
| TwoBufferLogger.BothWaitsSuffice | src/logger.cc:67-80 | in particular if both waits end because the second buffer is seen empty |
| TwoBufferLogger.ClosedByEmpty | src/logger.cc:61-65 | the swap of the destructor leaves the first buffer empty for good |
| TwoBufferLogger.GivingUpLoses | src/logger.cc:43-65 | a schedule in which the first wait runs out: whatever follows, an accepted message is never written |
| TwoBufferLogger.StoppingLoses | src/logger.cc:67-80 | a schedule in which the second wait runs out: the writer is cancelled and an accepted message, swapped in time, is never written |

## Left out

- deflate's gzip and zlib headers and trailers, deflateParams, deflateCopy, deflatePrime, deflateTune and preset dictionaries: more cases, no harder property.
- inflate's headers, trailers, Z_BLOCK, Z_TREES, inflateSync, inflateCopy and inflateBack, and windows smaller than 15 bits, where the distance check depends on how much output the caller still holds.
- DecodingTables.InflateTable: for the type CODES it takes only lengths up to 7 and 7 root bits, which is what its one caller passes (deps/zlib/inflate.c:922-927).
- InflateMain.ScheduleIndependence: how many bytes have been taken of a stream found invalid is not compared; it depends on how far the call had read.
- BuildTrees.BuildTree: when no code within the limit is as short as codes can be, how much longer the repaired one is is only known from the exact counts in GenBitlen's contract; zlib does not look for the shortest code within the limit.
- The tuning values of deflate's levels: how far the search for matches goes is a table that any values would satisfy.
- The overlay of pending_buf with d_buf and l_buf: these are separate arrays, and pending output is a sequence that cannot be full.
- MatchFinder.Matcher.LongestMatch: the caller's check that the candidate may be longer than the lookahead permits, and reads up to 258 bytes past it, is modelled; the unrolled comparisons are a loop that looks at the limit every eighth byte. Window indices are natural numbers; that they fit the 16-bit Pos follows from strstart < 65536 and is not carried as a type.
- Bit operations on C integers are arithmetic on natural numbers, with lemmas where they are used; CRC-32 and MD5 use 32-bit vectors.
- The static trees are those that tr_static_init computes, not the constants printed in trees.h and inffixed.h.
- detect_data_type, memory allocation and failure, the FASTEST, UNALIGNED_OK, ASMINF and TRUNCATE_BLOCK variants, the big-endian CRC loop.
- crc32 and MD5 of files that cannot be read, and hexadecimal digests.
- Sockets are a sequence of bytes still to come: a read delivers any non-empty prefix, or fails; other error codes, timeouts and retries are not part of this model.
- Md5.Calculator.Update: an input for which the loop does not end is excluded; LoopEnds says which.
- Md5.DigestOfPieces: the same, for each piece.
- ChunkedReader.RecvByChunk: a chunk size of 2^32 - 2 or more, whose buffer size wraps around, and a page of 2^32 bytes or more are excluded.
- ChunkedReader.ReadBody: trailer fields are not skipped by the code and are not allowed here; a chunk size of 2^32 - 2 or more, and a page that cannot grow, are left out.
- TwoBufferLogger.AlwaysInOrder: the logger is a set of atomic steps and not a class; that size and clear of a vector are atomic is assumed, and messages sent straight to the console, when a file cannot be opened, are left out.
- src/hash.h, the DNS cache, the thread pool, configuration, URL parsing and the event loop: no harder property, or calls into code that cannot be seen.
