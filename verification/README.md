# Verified models of bzip2smp, canneal's atomic swap and their neighbours

The main part models the bzip2 codec of `bzip2smp-1.0` layer by layer. Each layer has a specification on plain
sequences, an imperative version over the same in-place arrays and fields as the C code, proved against it, and a law
that says the layer's decoder undoes its encoder. The layers are then composed into one statement about whole
compression and decompression sessions on those arrays. Beside it stand the multi-threaded driver of bzip2smp, the
compress path of pbzip2 and the lock-free pointer swap of canneal, as state machines over the atomic steps of any number
of threads, and memcached's hash table, which grows while it is in use.

How the files fit together:

- `Bits`, `BitIO`, `Crc`, `CrcDivision`: numbers as bits, the 32-bit buffers of compressor and decompressor, checksums
  and the division that they are.
- `RunLength`, `BlockInput` (modules `Collecting` and `BlockInput`): runs of equal bytes, and the block being collected.
- `Counting`, `Rotations`, `FallbackQSort`, `Buckets`, `RadixSort`, `FallbackSort`: the block sort.
- `InverseBwt`, `UndoBwt`, `Output`: the inverse transform, its FAST and SMALL builds, and the resumable output routines.
- `Mtf`, `MtfEncoder`, `MtfLines`: move-to-front and run coding, in place in the encoder, in sixteen lines in the decoder.
- `HuffmanHeap`, `HuffmanForest`, `HuffmanOptimal`, `HuffmanLengths`, `HuffmanCodes`, `CodingTables`: code lengths and
  why no others are better, codes, decode tables, and the choice of tables.
- `Resumable`, `Decoder`: the decoder as a machine on values whose states are the resumption labels, over bits.
- `Fragments`, `SelectorCells`: when the division into calls matters, and when the cells for selectors suffice.
- `Accepted`: what a run of that machine that ends in success has read.
- `Format`, `FormatReads`, `TableReads`, `DataReads`, `RoundTrip`: the stream as bits, and that machine reading it.
- `BlockTables`, `BlockHead`, `SymbolTables`, `BlockColumn`, `BlockReader`, `Decompressor`: the decoder on the C arrays
  (selectors and code lengths, the fields before the block data, the decode tables, the column in `tt` or `ll16`, the
  block data, the whole of `DState` in both builds), each step proved to be the machine's.
- `BlockWriter`, `BlockCompressor`, `Division`, `Compressor`: the compressor, and how the input falls into blocks.
- `EndToEnd`: compressor and decompressor together.
- `Handover`, `Rings`, `Pipeline`, `PipelineSafety`, `PipelineRuns`, `PipelineEnds`, `Parallel`: bzip2smp.
- `PbzipQueue`, `PbzipPipeline`, `PbzipSafety`, `PbzipRuns`, `PbzipEnds`: pbzip2.
- `AtomicPtr`: canneal. `Assoc`: memcached.

Bytes are numbers below 256 and machine words numbers below 2^32; shifts and masks are the functions `Shl`, `Shr` and
`Low` on numbers, and or-ing into bits known to be zero is addition. Arrays are as long as the code uses them.

Conventions in the proofs: a predicate with many parts that is only to be passed along is stated part by part through a
recursive predicate (`PassesFirst`, `HoldFirst`, `Sound`), and a lemma opens it where it is needed; `hide` keeps
definitions out of proofs that do not need them.

Four results about the source that a reader might not expect. The FAST output routine returns from a block that breaks
off without saving where it is, and so reports nothing of that call; calls before it that ended inside the block have
reported their bytes. Decoding then depends on how the output space is divided, and in no other case
(`Fragments.FragmentsAgree`, `Fragments.FourAsDiffer`). The number of selectors is read from the stream and not compared
with the number of cells for them; exactly from 18003 on the decoder can be made to write past the last
(`SelectorCells.WritesInside`), which streams of the compressor never do (`EndToEnd.CompressedInside`). Bytes handed over
together with BZ_FINISH that end just where a block is full take their last run into that block, where the same bytes
given by BZ_RUN would carry it over to the next: the blocks differ and both streams decode to the input
(`Compressor.Compress`). The single check before a wait in bzip2smp is enough only as long as a wait ends by a signal
(`PipelineRuns.SpuriousWake`).

`dafny verify dfyconfig.toml` checks everything.

## Model

| member | source | states |
|---|---|---|
| RoundTrip.StreamDecodes | concurrency-bugs/bzip2smp-1.0/compress.c:545-742 | for every sequence of well-made blocks, the decoder reads header, blocks and trailer, outputs exactly the bytes they stand for, accepts both checksums and stops at the last bit, leaving what follows |
| EndToEnd.CompressDecompress | concurrency-bugs/bzip2smp-1.0/bzlib.c:427-483 | whole-codec round trip on the arrays of both sides: any bytes in any chunks, compressed and then decompressed by the FAST or the SMALL build, come out as they went in; the stream is accepted to its end and only padding is left |
| EndToEnd.DecompressSession | concurrency-bugs/bzip2smp-1.0/bzlib.c:984-1034 | for either build and however the compressed bytes and the output space are cut into calls: a session whose last call leaves space, and so any whose last call has more space than there is data, has given back the data and accepted the stream |
| EndToEnd.DecompressFragments | concurrency-bugs/bzip2smp-1.0/bzlib.c:984-1034 | for either build, any bytes and any calls: a session at rest has done what one call does, exactly if no call ended inside a block that breaks off, in FAST, and reported bytes of it; so always in SMALL, and in FAST for every stream whose blocks expand completely |
| EndToEnd.CompressedInside | concurrency-bugs/bzip2smp-1.0/bzlib_private.h:453-454 | the compressor's streams never make the decoder claim more selectors than it has cells for |
| EndToEnd.DecompressAll | concurrency-bugs/bzip2smp-1.0/bzlib.c:984-1034 | any sequence of calls on the decoder's arrays up to the first error, FAST or SMALL, for any bytes whatever, gives the output reported, the state, the unread bits and the space left of the machine on values |
| EndToEnd.OneCall | concurrency-bugs/bzip2smp-1.0/bzlib.c:984-1034 | one call with all the bytes and more space than the data takes ends the stream |
| Compressor.Compress | concurrency-bugs/bzip2smp-1.0/bzlib.c:427-483 | for every input in any chunks, BZ_RUN for each and BZ_FINISH with the last give a stream of well-made blocks for the whole input, padded to a byte; its blocks are the ones into which the whole input falls, if and only if the bytes given to BZ_FINISH are none or do not end just where a block is full |
| Compressor.CompressDecodes | concurrency-bugs/bzip2smp-1.0/bzlib.c:984-1034 | the bytes of a whole session take the machine on values to the bytes taken in, with nothing left but fewer than eight padding bits |
| Compressor.SessionsDecode | concurrency-bugs/bzip2smp-1.0/decompress.c:633-660 | compressed bytes give the machine on values the same data and verdict however they and the output space are cut into calls |
| Compressor.Run | concurrency-bugs/bzip2smp-1.0/bzlib.c:427-483 | one call with BZ_RUN or BZ_FINISH: blocks written plus bytes held grow by exactly the chunk, blocks already begun by other calls included |
| Compressor.EndBlock | concurrency-bugs/bzip2smp-1.0/bzlib.c:462-473 | a full block is compressed and written and the run being collected carries over: no byte is lost or repeated |
| Compressor.EndStream | concurrency-bugs/bzip2smp-1.0/bzlib.c:449-460 | the end of BZ_FINISH: flushing, a last block if there are bytes, the trailer and its padding complete a stream for everything taken in; the blocks are those of the whole input exactly if the last one was not yet full |
| Division.CutMore | concurrency-bugs/bzip2smp-1.0/bzlib.c:341-382 | how bytes fall into blocks does not depend on the chunks they come in |
| Division.CutPast | concurrency-bugs/bzip2smp-1.0/bzlib.c:163-173 | the block begun has come at least as far as the run that was carried over to it |
| Compressor.EStateOutput.SaveBlock | concurrency-bugs/bzip2smp-1.0/compress.c:692-728 | one more block: header if first, block bits, block number and combined checksum all agree with the blocks written; what the combined checksum is, bit by bit, is Crc.CombinedBit |
| Compressor.EStateOutput.SaveTrailer | concurrency-bugs/bzip2smp-1.0/compress.c:731-741 | end magic, combined checksum, and fewer than eight zero bits to the byte boundary |
| RoundTrip.BlockReads | concurrency-bugs/bzip2smp-1.0/decompress.c:261-596 | one block: its bits take the decoder to the next block with its bytes output and its checksum combined |
| RoundTrip.EndOfBlock | concurrency-bugs/bzip2smp-1.0/bzlib.c:1000-1012 | at the end of a well-made block with any word stored for its checksum, the block's bytes are output, and decoding goes on to the next block if the word is their checksum and fails if it is not |
| RoundTrip.StoredReads | concurrency-bugs/bzip2smp-1.0/bzlib.c:1000-1012 | the bits of a well-made block with any word stored: its bytes are output, and the decoder is at the next block exactly if the word is their checksum, and otherwise refuses the stream |
| RoundTrip.StreamRefused | concurrency-bugs/bzip2smp-1.0/bzlib.c:1006-1007 | a stream of well-made blocks in which one has another word than its checksum stored: everything up to the end of that block is output, and the run ends in failure there |
| RoundTrip.StreamTrailer | concurrency-bugs/bzip2smp-1.0/compress.c:731-741 | the last 32 bits of every stream: bit i is the parity of the number of blocks whose checksum has a bit set in place i plus the number of blocks after it, around the word; before them stands the end magic |
| Accepted.AcceptedIsSound | concurrency-bugs/bzip2smp-1.0/bzlib.c:984-1034 | for any bits, FAST or SMALL: if a run ends in success, the bits read are the header with a level of 1 to 9, blocks, and the trailer with the combination of their checksums; every block starts with the magic bytes, its stored word is the checksum of the bytes it output, its map has a byte in use and bytes only in marked groups, it has 2 to 6 tables and selectors for these in unary, and its bytes are the expansion of the walk, from an origin inside it, through a last column no longer than the level allows; the output is the blocks' bytes |
| Accepted.HeaderTaken | concurrency-bugs/bzip2smp-1.0/decompress.c:237-256 | an accepted run has read the four header bytes with a level of 1 to 9 |
| Accepted.BlockTaken | concurrency-bugs/bzip2smp-1.0/decompress.c:261-524 | what an accepted run has read of a block before its output: magic, stored checksum, the clear bit, origin, map in two levels, counts, unary selectors, tables and data |
| Accepted.BlockEnds | concurrency-bugs/bzip2smp-1.0/bzlib.c:1000-1012 | an accepted run goes on from the end of a block only with its bytes output and their checksum stored |
| Accepted.CrcTaken | concurrency-bugs/bzip2smp-1.0/decompress.c:281-288 | the four bytes of a checksum stand for the word kept, and those of the stream's for the combined one |
| Accepted.SelectorsTaken | concurrency-bugs/bzip2smp-1.0/decompress.c:331-340 | an accepted run has read as many unary numbers as were claimed, each below the number of tables, and no more than there are cells |
| RoundTrip.UnmappedRanks | concurrency-bugs/bzip2smp-1.0/compress.c:151-162 | makeMaps_e and makeMaps_d are inverse on every byte in use |
| BlockCompressor.CompressBlockCompute | concurrency-bugs/bzip2smp-1.0/compress.c:671-690 | from the collected block to a coded one: sorted, move-to-front coded, tables chosen, and all of it decodable |
| BlockCompressor.SortBlock | concurrency-bugs/bzip2smp-1.0/blocksort.c:1078-1136 | the block is unchanged and the pointer array sorts its rotations; origPtr is the row of rotation 0 |
| BlockCompressor.CodeSymbols | concurrency-bugs/bzip2smp-1.0/compress.c:166-277 | symbols of the last column with tables that can code every one of them |
| Resumable.CallPreserves | concurrency-bugs/bzip2smp-1.0/decompress.c:83-105 | one call of any lawful machine takes nothing away: what it wrote, but for bytes of output that is dropped, and where it stopped lead to the result of the unbounded call, for any further input |
| Resumable.SessionIsOneCall | concurrency-bugs/bzip2smp-1.0/decompress.c:207-231 | a session at rest has done what one call with everything does, if and only if no call of it ended inside output that is dropped; where none is dropped, always |
| Resumable.SessionStrays | concurrency-bugs/bzip2smp-1.0/decompress.c:207-231 | what a session at rest has reported is what one call reports followed by the bytes that its calls reported of dropped output |
| Decoder.DecodingFragments | concurrency-bugs/bzip2smp-1.0/bzlib.c:712-858 | for the decoder: decoding depends on how bytes and space are divided exactly if a call ended inside a block that breaks off, in FAST, and reported bytes of it |
| Fragments.FragmentsAgree | concurrency-bugs/bzip2smp-1.0/bzlib.c:712-858 | for any bits, FAST or SMALL: all divisions over calls decode alike if and only if no block breaks off in FAST |
| Fragments.SmallFragments | concurrency-bugs/bzip2smp-1.0/bzlib.c:881-979 | SMALL: every division over calls decodes alike |
| Fragments.FastDepends | concurrency-bugs/bzip2smp-1.0/bzlib.c:808-857 | for every stream with a block that breaks off in FAST there are two calls that together report more than one call does |
| Fragments.FourAsDiffer | concurrency-bugs/bzip2smp-1.0/bzlib.c:808-857 | the block `aaaa` without its count: in FAST one call with 200 bytes of space reports none and two with 100 report 100; in SMALL both report 101 |
| Fragments.BreakingFails | concurrency-bugs/bzip2smp-1.0/bzlib.c:1000 | a stream with a block that breaks off in FAST is refused |
| Resumable.RoomEnough | concurrency-bugs/bzip2smp-1.0/bzlib.c:984-1034 | with more space than a run outputs, one call is the whole run |
| Decoder.EmitSplit | concurrency-bugs/bzip2smp-1.0/bzlib.c:712-858 | outputting a block in two goes, checksum included, is outputting it in one, except that of a block that breaks off FAST reports what calls got before the one that finds it out |
| Decompressor.DState.Decompress | concurrency-bugs/bzip2smp-1.0/bzlib.c:984-1034 | one call on the byte-fed 32-bit buffer, the sliding lines, the decode tables and the vector of either build equals one call of the machine on values, with unread bits kept for the next call |
| Decompressor.DState.Advance | concurrency-bugs/bzip2smp-1.0/decompress.c:83-105 | one field is read exactly when its bits are there, and then the arrays stand for the machine's next state; otherwise state and unread bits stay as they were |
| Decompressor.DState.Take | concurrency-bugs/bzip2smp-1.0/decompress.c:235-631 | what the arrays hold after a field is what the machine holds after its step, whatever the label |
| Decompressor.DState.Output | concurrency-bugs/bzip2smp-1.0/bzlib.c:984-1020 | the output routine of either build on its vector and registers is Emit of the machine: as many bytes of the block's expansion as there is space for, the same verdict at the end of the block, and nothing reported of the call in which FAST finds it broken off |
| Decompressor.DState.ServeBlock | concurrency-bugs/bzip2smp-1.0/bzlib.c:995-1012 | one serving: the bytes reported, what is still to come and the running checksum; corruption as the build reports it, in FAST with registers, position and output as before the call |
| BlockReader.Reader.Take | concurrency-bugs/bzip2smp-1.0/decompress.c:114-142 | one probe of the tables and what it leads to (longer, bad, run digit, byte, end) leave the column and the lines standing for the machine's next state |
| BlockReader.Reader.Finish | concurrency-bugs/bzip2smp-1.0/decompress.c:524-596 | the end of the data: range check, column to vector by the method of either build, and the block served from it is the expansion of the block decoded |
| BlockReader.Reader.Invert | concurrency-bugs/bzip2smp-1.0/decompress.c:544-594 | the vector built walks through the rows of the inverse transform of the column, in words for FAST and nibble-packed for SMALL |
| SymbolTables.SymbolReader.Read | concurrency-bugs/bzip2smp-1.0/decompress.c:129-141 | one probe of limit, base and perm gives, for every bit that comes, what the row of lengths says: go on, a symbol or an error; what makes the next probe trustworthy is kept |
| SymbolTables.SymbolReader.Select | concurrency-bugs/bzip2smp-1.0/decompress.c:116-126 | every fifty symbols the table of the next selector; past the last selector an error |
| SymbolTables.Table.constructor | concurrency-bugs/bzip2smp-1.0/decompress.c:372-387 | limit, base and perm of one row of lengths, with its shortest and longest length |
| BlockColumn.Column.Take | concurrency-bugs/bzip2smp-1.0/decompress.c:415-519 | one symbol on the arrays (run digit, or run closed and byte accessed) is one symbol of the move-to-front decoder, and bytes go through seqToUnseq to tt or ll16 |
| BlockColumn.Column.FlushRun | concurrency-bugs/bzip2smp-1.0/decompress.c:431-448 | closing a run writes that many copies of the front byte, counts them in unzftab, or fails exactly if the block would pass its limit |
| BlockColumn.Column.PutPosition | concurrency-bugs/bzip2smp-1.0/decompress.c:454-514 | one list position: limit check first, then access through the lines, count and store |
| BlockTables.ByteMap.MakeMaps | concurrency-bugs/bzip2smp-1.0/decompress.c:66-76 | seqToUnseq lists the bytes in use in order |
| BlockTables.ByteMap.TakeInUse | concurrency-bugs/bzip2smp-1.0/decompress.c:316-321 | one bit of the second level of the map, and on to the next group in use |
| BlockTables.Selectors.Undo | concurrency-bugs/bzip2smp-1.0/decompress.c:343-354 | the move-to-front coding of the selectors undone in place of pos |
| SelectorCells.WritesInside | concurrency-bugs/bzip2smp-1.0/bzlib_private.h:453-454 | no sequence of bits makes the decoder write past the 18002 cells for selectors if and only if at most 18002 are claimed |
| SelectorCells.TooMany | concurrency-bugs/bzip2smp-1.0/decompress.c:329-340 | 18003 selectors or more claimed and 18003 zero bits: the write past the last cell |
| SelectorCells.StreamInside | concurrency-bugs/bzip2smp-1.0/decompress.c:329-340 | a stream of which no block claims more than 18002 selectors never leads to a write outside the cells |
| SelectorCells.AcceptedInside | concurrency-bugs/bzip2smp-1.0/decompress.c:329-340 | a stream that is accepted claims more than 18002 selectors nowhere |
| BlockTables.Lengths.Keep | concurrency-bugs/bzip2smp-1.0/decompress.c:367-368 | the length found is kept and the others stay |
| BlockHead.HeadReader.Take | concurrency-bugs/bzip2smp-1.0/decompress.c:237-387 | for every label before the block data: the fields read so far in the C variables stand for the machine's state after the step |
| BlockHead.HeadReader.TakeSelectorBit | concurrency-bugs/bzip2smp-1.0/decompress.c:331-340 | one bit of a unary selector; as many ones as there are tables is an error, and a position is written only where there is a cell |
| BlockHead.HeadReader.NextBlock | concurrency-bugs/bzip2smp-1.0/bzlib.c:1003-1012 | after a block: checksums compared, the combined one rotated and xored, and back to the block header |
| Decompressor.NeedFits | concurrency-bugs/bzip2smp-1.0/decompress.c:354-372 | no field asked for in a reachable state is wider than 24 bits, so the 32-bit buffer never overflows |
| Decompressor.StepSane | concurrency-bugs/bzip2smp-1.0/decompress.c:354-372 | whatever bits come, every code length held by the decoder is in 1..20 |
| FormatReads.HeaderReads | concurrency-bugs/bzip2smp-1.0/decompress.c:237-256 | the four header bytes are accepted for every level |
| FormatReads.BlockCrcReads | concurrency-bugs/bzip2smp-1.0/decompress.c:281-288 | four bytes of a checksum are read back as the word that was written |
| FormatReads.TrailerReads | concurrency-bugs/bzip2smp-1.0/decompress.c:602-626 | end magic and a stored word end the stream if that word is the combined checksum, and lead to failure if it is any other |
| TableReads.OrigReads | concurrency-bugs/bzip2smp-1.0/decompress.c:293-303 | the origin pointer survives three bytes and the range check |
| TableReads.MapReads | concurrency-bugs/bzip2smp-1.0/decompress.c:305-324 | the two-level map of bytes in use is read back, unused groups included |
| TableReads.SelectorsRead | concurrency-bugs/bzip2smp-1.0/decompress.c:331-341 | up to 18002 unary selectors below the number of tables are read back |
| TableReads.SelectorTooFar | concurrency-bugs/bzip2smp-1.0/decompress.c:331-341 | a selector not below the number of tables is an error: it never comes out as a selector |
| TableReads.SelectorsName | concurrency-bugs/bzip2smp-1.0/decompress.c:331-354 | positions below the number of tables, undone, give selectors that name tables that are there |
| TableReads.SelectorsUndone | concurrency-bugs/bzip2smp-1.0/compress.c:507-524 | move-to-front coding of the selectors and its undoing in the decoder are inverse |
| TableReads.RowReads | concurrency-bugs/bzip2smp-1.0/decompress.c:356-372 | delta-coded code lengths are read back without leaving 1..20 on the way |
| TableReads.CodingReads | concurrency-bugs/bzip2smp-1.0/decompress.c:326-393 | selectors and all tables together are read back |
| DataReads.SymbolReads | concurrency-bugs/bzip2smp-1.0/decompress.c:114-142 | the bits of one symbol's code, read one by one past the shortest length, are taken for that symbol and no earlier |
| DataReads.SymbolsRead | concurrency-bugs/bzip2smp-1.0/decompress.c:412-519 | all symbols of a block, with a new selector every fifty |
| DataReads.DataRead | concurrency-bugs/bzip2smp-1.0/decompress.c:412-541 | the data of a block ends in the output state with the decoded block |
| BitIO.BitWriter.Write | concurrency-bugs/bzip2smp-1.0/compress.c:104-124 | bsW appends exactly the n bits of v to the bits written so far, for every buffer state |
| BitIO.BitWriter.Finish | concurrency-bugs/bzip2smp-1.0/compress.c:92-100 | bsFinishWrite pads with zero bits to the next byte, and no further |
| BitIO.BitWriter.EmitByte | concurrency-bugs/bzip2smp-1.0/compress.c:104-113 | one round of bsNEEDW moves eight bits from the buffer to the output and changes no bit of the stream |
| BitIO.BitReader.GetBits | concurrency-bugs/bzip2smp-1.0/decompress.c:83-105 | GET_BITS fails exactly when the input ends first, and then loses nothing; otherwise it takes the next n bits |
| BitIO.OrInto | concurrency-bugs/bzip2smp-1.0/compress.c:119-124 | or-ing a value into the unused low end of the buffer writes its bits after the live ones |
| BitIO.TakeField | concurrency-bugs/bzip2smp-1.0/decompress.c:83-94 | shifting and masking the buffer takes the oldest n live bits |
| Crc.UpdatesConcat | concurrency-bugs/bzip2smp-1.0/bzlib_private.h:203-208 | the checksum over two stretches is that over both, so blocks and output fragments may be split anywhere |
| CrcDivision.BlockCrcDivides | concurrency-bugs/bzip2smp-1.0/bzlib_private.h:193-208 | the checksum of any bytes is, complemented, what a register of 32 ones holds after all their bits, most significant first, have been fed in one by one, the generator x^32+x^26+x^23+x^22+x^16+x^12+x^11+x^10+x^8+x^7+x^5+x^4+x^2+x+1 being taken away whenever a one is moved out |
| CrcDivision.UpdateFeeds | concurrency-bugs/bzip2smp-1.0/bzlib_private.h:203-208 | one step with the table is eight steps of the division by the generator |
| CrcDivision.FeedAllLinear | concurrency-bugs/bzip2smp-1.0/bzlib_private.h:203-208 | the division is linear in register and message |
| Crc.CombinedBit | concurrency-bugs/bzip2smp-1.0/compress.c:676-677 | for every sequence of block checksums, bit i of the combined checksum is the parity of the number of k for which bit i+n-1-k, modulo 32, of the k-th of the n checksums is set |
| Collecting.FillKept | concurrency-bugs/bzip2smp-1.0/bzlib.c:313-382 | filling a block keeps every byte: what the runs and the open run stand for grows by exactly the bytes used, and blockCRC and inUse agree with the block |
| Collecting.FlushKept | concurrency-bugs/bzip2smp-1.0/bzlib.c:304-309 | flushing closes the open run and keeps every byte |
| Collecting.PairKept | concurrency-bugs/bzip2smp-1.0/bzlib.c:268-300 | add_pair_to_block: coded bytes, marks in use and checksum of one run of 1 to 255 bytes |
| Collecting.NewBlockOpen | concurrency-bugs/bzip2smp-1.0/bzlib.c:163-173 | the run being collected carries over into the new block |
| BlockInput.EStateInput.CopyInput | concurrency-bugs/bzip2smp-1.0/bzlib.c:341-382 | copy_input_until_stop does on the arrays what the specification does on values, stops exactly when the block is full or the input used up, and never passes nblockMAX+4 |
| BlockInput.EStateInput.AddCharToBlock | concurrency-bugs/bzip2smp-1.0/bzlib.c:313-337 | ADD_CHAR_TO_BLOCK with its fast track for single bytes equals the one rule |
| BlockInput.EStateInput.AddPairToBlock | concurrency-bugs/bzip2smp-1.0/bzlib.c:268-300 | the five writes at most stay inside nblockMAX+9 |
| BlockInput.EStateInput.FlushRL | concurrency-bugs/bzip2smp-1.0/bzlib.c:304-309 | flush_RL on the arrays |
| RunLength.ExpandFlatten | concurrency-bugs/bzip2smp-1.0/bzlib.c:766-837 | expanding the run-length coded block gives back the runs, whatever follows the block, and every count byte is in place |
| FallbackSort.FallbackSort | concurrency-bugs/bzip2smp-1.0/blocksort.c:258-376 | the block bytes are restored and fmap is a permutation whose cyclic rotations are in non-decreasing order, for every block; the doubling loop terminates |
| FallbackSort.DoublingLoop | concurrency-bugs/bzip2smp-1.0/blocksort.c:309-358 | from the sorted first bytes to sorted rotations, doubling the depth |
| FallbackSort.RefinePass | concurrency-bugs/bzip2smp-1.0/blocksort.c:316-352 | one pass at depth H: afterwards the header bits delimit exactly the classes of rotations equal on their first 2H bytes; no unsorted bucket left means sorted at every depth |
| FallbackSort.NextBucket | concurrency-bugs/bzip2smp-1.0/blocksort.c:325-340 | the word-skipping scan finds the next bucket of at least two, past singletons only |
| FallbackSort.BucketSort | concurrency-bugs/bzip2smp-1.0/blocksort.c:284-300 | the radix sort on the first byte, with header bits at its buckets and sentinels past the end |
| FallbackSort.RestoreBlock | concurrency-bugs/bzip2smp-1.0/blocksort.c:361-374 | the block bytes, overwritten by classes, are rebuilt from the sorted order and the counts |
| FallbackSort.FindOrigPtr | concurrency-bugs/bzip2smp-1.0/blocksort.c:1130-1135 | the row of rotation 0 is found |
| Buckets.BucketRefined | concurrency-bugs/bzip2smp-1.0/blocksort.c:342-350 | sorting a bucket by the class of the rotation H further on refines it to depth 2H and keeps every other bucket |
| Buckets.AllSingletons | concurrency-bugs/bzip2smp-1.0/blocksort.c:354-357 | when every class is a singleton the order is total at every depth |
| FallbackQSort.QSort3 | concurrency-bugs/bzip2smp-1.0/blocksort.c:140-227 | fmap[lo..hi] is rearranged and sorted by class, nothing outside is touched, and it terminates |
| FallbackQSort.SortRound | concurrency-bugs/bzip2smp-1.0/blocksort.c:160-226 | the stack of ranges stays below its 100 entries because the larger part is pushed first: assertion 1004 cannot fire |
| FallbackQSort.PartitionStep | concurrency-bugs/bzip2smp-1.0/blocksort.c:172-215 | three-way partition: smaller, equal, larger classes in place, and a part of each side left to sort |
| FallbackQSort.SimpleSort | concurrency-bugs/bzip2smp-1.0/blocksort.c:79-106 | insertion sort with steps of four, then one, sorts and only rearranges the range |
| Rotations.CmpSplit | concurrency-bugs/bzip2smp-1.0/blocksort.c:316-325 | comparing 2H bytes is comparing H bytes and then H bytes further on |
| InverseBwt.InverseOfForward | concurrency-bugs/bzip2smp-1.0/decompress.c:577-594 | for every block, periodic ones included, the vector walked from origPtr gives back the block |
| InverseBwt.WalkRecovers | concurrency-bugs/bzip2smp-1.0/decompress.c:527-536 | each step of the walk from the row of rotation 0 stays on rows equal to the rotation wanted |
| UndoBwt.BuildFast | concurrency-bugs/bzip2smp-1.0/decompress.c:577-587 | the FAST build puts byte and successor of every row into one word each |
| UndoBwt.BuildSmall | concurrency-bugs/bzip2smp-1.0/decompress.c:544-556 | the nibble-packed vector holds the forward mapping of every row |
| UndoBwt.ReverseCycle | concurrency-bugs/bzip2smp-1.0/decompress.c:558-571 | pointer reversal inverts the cycle through origPtr in place |
| UndoBwt.IndexIntoF | concurrency-bugs/bzip2smp-1.0/bzlib.c:863-874 | the binary search returns the byte whose range of rows holds the index |
| UndoBwt.FastRows.Get | concurrency-bugs/bzip2smp-1.0/bzlib_private.h:495-503 | BZ_GET_FAST: the next row and its byte |
| UndoBwt.SmallRows.Get | concurrency-bugs/bzip2smp-1.0/bzlib_private.h:522-524 | BZ_GET_SMALL: the same row and the same byte as the FAST build, for every last column and origin |
| UndoBwt.SetLL | concurrency-bugs/bzip2smp-1.0/bzlib_private.h:505-520 | writing one 20-bit entry changes no other entry |
| Output.BlockOutput.OutputFast | concurrency-bugs/bzip2smp-1.0/bzlib.c:712-858 | for every amount of space: as many bytes of the expansion as fit and the state to go on from; corruption exactly when the block breaks off and its bytes fit, and then registers, position in the vector and output are as before the call |
| Output.BrokenLong | concurrency-bugs/bzip2smp-1.0/bzlib.c:766-837 | a block that breaks off has at least four bytes of output |
| Output.BlockOutput.OutputSmall | concurrency-bugs/bzip2smp-1.0/bzlib.c:881-979 | the same for SMALL, which reports corruption only with space to spare |
| Output.ServedTwice | concurrency-bugs/bzip2smp-1.0/bzlib.c:735-757 | being served in two calls is being served in one with the space of both |
| Output.RestExpands | concurrency-bugs/bzip2smp-1.0/bzlib.c:766-837 | the look-ahead state machine outputs the run-length expansion of the block |
| Mtf.SymbolsDecode | concurrency-bugs/bzip2smp-1.0/decompress.c:412-519 | decoding RUNA/RUNB digits and list positions recovers the list of positions for every block; the last symbol is the end symbol and no other is |
| Mtf.EncodeDecode | concurrency-bugs/bzip2smp-1.0/compress.c:195-260 | encoder and decoder lists stay equal, pending zeros included |
| Mtf.DecodeZeroRun | concurrency-bugs/bzip2smp-1.0/decompress.c:420-447 | the bijective base-2 digits of a run of zeros decode to that many zeros |
| MtfEncoder.GenerateMTFValues | concurrency-bugs/bzip2smp-1.0/compress.c:166-277 | symbols overwrite the pointers in place without destroying one still to be read; their number is at most nblock+1; counts are those of the symbols |
| MtfEncoder.ReadElement | concurrency-bugs/bzip2smp-1.0/compress.c:206-210 | a pointer still to be read has not been overwritten, so that its preceding byte is read |
| MtfEncoder.MoveToFront | concurrency-bugs/bzip2smp-1.0/compress.c:228-246 | the search by shifting returns the position and moves the byte to the front |
| MtfLines.Lines.Access | concurrency-bugs/bzip2smp-1.0/decompress.c:456-508 | an access through the sixteen sliding lines is move-to-front on one list of 256 |
| MtfLines.Lines.AccessFar | concurrency-bugs/bzip2smp-1.0/decompress.c:473-508 | the same beyond the first line, with the slide of all lines before it and the rebuild |
| MtfLines.Lines.Rebuild | concurrency-bugs/bzip2smp-1.0/decompress.c:494-506 | rebuilding the lines at the top of the array loses nothing |
| MtfLines.Lines.constructor | concurrency-bugs/bzip2smp-1.0/decompress.c:398-410 | the lines start as the identity list |
| MtfLines.SlideNext | concurrency-bugs/bzip2smp-1.0/decompress.c:482-491 | one line slides down by one, taking the last byte of the line before; no two lines overlap |
| HuffmanLengths.MakeCodeLengths | concurrency-bugs/bzip2smp-1.0/huffman.c:103-188 | for 2 to 258 symbols and a limit of at least 12 it terminates with every length in 1..limit and a Kraft sum of exactly 1; no lengths with a Kraft sum of at most 1 spend fewer bits on the frequencies (zero counting as one) after k halvings, where k is how often the best code was longer than the limit, which is never if the frequencies add up to less than Fib(limit+3) |
| HuffmanLengths.TryLengths | concurrency-bugs/bzip2smp-1.0/huffman.c:118-187 | one round: lengths that no others with a Kraft sum of at most 1 beat for the weights on entry; if they are within the limit they fill the code space, and if one is not every weight is halved to a smaller total |
| HuffmanLengths.BuildTree | concurrency-bugs/bzip2smp-1.0/huffman.c:118-154 | the tree built is one over all symbols, every node of which was made of the two lightest trees there were, and Fib(height+2) is at most the total weight |
| HuffmanLengths.Rescale | concurrency-bugs/bzip2smp-1.0/huffman.c:180-187 | every weight becomes one plus half of itself |
| HuffmanLengths.WeightierShorter | concurrency-bugs/bzip2smp-1.0/huffman.c:118-169 | in the code made, a symbol that weighs more than another has no longer a code |
| HuffmanOptimal.TreeOptimal | concurrency-bugs/bzip2smp-1.0/huffman.c:133-169 | the leaf depths of a tree made by always merging two lightest trees spend no more bits than any lengths with a Kraft sum of at most 1 |
| HuffmanOptimal.CutOptimal | concurrency-bugs/bzip2smp-1.0/huffman.c:133-153 | at every moment of the merging: whatever lengths with a Kraft sum of at most 1 are given to the trees there are, their depths in the finished tree cost no more |
| HuffmanOptimal.Merging | concurrency-bugs/bzip2smp-1.0/huffman.c:134-144 | if two trees share the greatest length, the two lightest can have it at no greater cost, and then be merged into one that is one step higher |
| HuffmanOptimal.Raise | concurrency-bugs/bzip2smp-1.0/huffman.c:133-153 | a tree that alone has the greatest length can be raised by one: the Kraft sum stays at most 1 |
| HuffmanOptimal.HeavierShorter | concurrency-bugs/bzip2smp-1.0/huffman.c:158-169 | in any code that no other beats, a symbol of greater weight has no longer a code |
| HuffmanForest.MergeGrown | concurrency-bugs/bzip2smp-1.0/huffman.c:133-153 | merging the two lightest trees keeps every tree at least as heavy as the Fibonacci number of its height, with the depth as tie-breaker |
| HuffmanForest.KraftExact | concurrency-bugs/bzip2smp-1.0/huffman.c:158-169 | leaf depths of one tree have Kraft sum exactly 1 |
| HuffmanHeap.UpHeap | concurrency-bugs/bzip2smp-1.0/huffman.c:73-82 | UPHEAP restores the heap order and only rearranges |
| HuffmanHeap.DownHeap | concurrency-bugs/bzip2smp-1.0/huffman.c:84-99 | DOWNHEAP restores the heap order and only rearranges |
| HuffmanHeap.Pop | concurrency-bugs/bzip2smp-1.0/huffman.c:134-136 | the node taken is a lightest one |
| HuffmanCodes.AssignCodes | concurrency-bugs/bzip2smp-1.0/huffman.c:192-207 | every symbol gets the canonical code of its length |
| HuffmanCodes.CodeFits | concurrency-bugs/bzip2smp-1.0/huffman.c:192-207 | with code space not exceeded, each code fits its length |
| HuffmanCodes.PrefixFree | concurrency-bugs/bzip2smp-1.0/huffman.c:192-207 | no code is a prefix of another |
| HuffmanCodes.CreateDecodeTables | concurrency-bugs/bzip2smp-1.0/huffman.c:210-240 | limit, base and perm hold what the decode loop relies on, stale entries included |
| HuffmanCodes.Probing | concurrency-bugs/bzip2smp-1.0/decompress.c:130-141 | one probe of the decode loop, for every value read: go on, fail or a symbol |
| HuffmanCodes.CheckCode | concurrency-bugs/bzip2smp-1.0/decompress.c:130-141 | on the bits of an assigned code the probe goes on until the last bit and then finds that symbol |
| HuffmanCodes.ReadAssigned | concurrency-bugs/bzip2smp-1.0/decompress.c:114-142 | the decode loop reads exactly length[s] bits of code[s] and returns s |
| HuffmanCodes.NoStaleEntry | concurrency-bugs/bzip2smp-1.0/huffman.c:225-239 | entries past the longest length never match before the loop ends |
| HuffmanCodes.PastEnd | concurrency-bugs/bzip2smp-1.0/decompress.c:130-134 | a value rejected at the longest length stays above 0 whatever bit follows, and so the zero limits past that length never accept it |
| CodingTables.ComputeTables | concurrency-bugs/bzip2smp-1.0/compress.c:285-543 | there is a selector for each fifty symbols, fewer than 18002 in all, so that assertion 3003 holds, and every table is a complete code of lengths 1 to 17; they are what exactly four rounds make of the initial tables: in each, every group selects the first cheapest table, and every table is then the best code for how often the symbols occur in the groups that selected it |
| CodingTables.SelectTables | concurrency-bugs/bzip2smp-1.0/compress.c:381-481 | every group of fifty selects the first cheapest table, and row t counts, for each symbol, its occurrences in the groups that selected table t |
| CodingTables.CountGroup | concurrency-bugs/bzip2smp-1.0/compress.c:456-478 | the symbols of a group are counted in the row of the table it selected, and nothing else is |
| CodingTables.Recompute | concurrency-bugs/bzip2smp-1.0/compress.c:490-498 | each table is made anew as the best code for its own row of counts, halved as often as the best code was too long |
| CodingTables.FastCosts | concurrency-bugs/bzip2smp-1.0/compress.c:404-431 | the unrolled costs of six tables packed two to a word equal the plain sums; no half overflows into the other |
| CodingTables.PickTable | concurrency-bugs/bzip2smp-1.0/compress.c:445-451 | the first table of least cost |
| CodingTables.InitialTables | concurrency-bugs/bzip2smp-1.0/compress.c:325-363 | the alphabet falls into stretches one after another, one for each table from the last to the first, and each table holds the lesser cost on its own stretch and the greater elsewhere |
| CodingTables.Stretch | concurrency-bugs/bzip2smp-1.0/compress.c:329-345 | one stretch: the shortest that reaches its share of the frequency still to be given out, or all symbols left; every other one gives its last symbol back |
| BlockWriter.PutBlock | concurrency-bugs/bzip2smp-1.0/compress.c:692-728 | the bits of one block, after whatever was written before |
| BlockWriter.PutMap | concurrency-bugs/bzip2smp-1.0/compress.c:555-576 | the two-level map of bytes in use |
| BlockWriter.PutRow | concurrency-bugs/bzip2smp-1.0/compress.c:592-601 | one delta-coded table |
| BlockWriter.PutData | concurrency-bugs/bzip2smp-1.0/compress.c:605-659 | every symbol in the code of its group's table; assertions 3006 and 3007 hold |
| BlockWriter.ComputeSelectorMtf | concurrency-bugs/bzip2smp-1.0/compress.c:502-524 | the selectors' move-to-front positions, in the cells there are for them |
| Handover.HandoverIsOne | concurrency-bugs/bzip2smp-1.0/bzlib.c:565-641 | compressors started from the saved run, block number and combined checksum write together what one compressor writes that keeps them in its own fields |
| Handover.FeedIsFill | concurrency-bugs/bzip2smp-1.0/bzip2smp.c:445-498 | the reader's loop over fread results and stop-before-blocksort makes the same block as all the bytes at once, and leaves the same rest |
| Handover.OneCompressorStream | concurrency-bugs/bzip2smp-1.0/bzlib.c:427-483 | the one compressor's bits are the stream of the blocks that Compress makes of the input, for every code that gives the bits recorded of those blocks, and these blocks hold the whole input |
| Handover.OneCompressorDecodes | concurrency-bugs/bzip2smp-1.0/bzlib.c:427-483 | bytes that complete the one compressor's bits decode to the input, for every code that gives the recorded blocks |
| Handover.RecordedRecords | concurrency-bugs/bzip2smp-1.0/bzlib.c:427-483 | such a code there is for every input: the one that the blocks of Compress record |
| Handover.ContentFrom | concurrency-bugs/bzip2smp-1.0/bzlib.c:341-382 | the recorded blocks hold every byte, in order, with the run being collected carried from one to the next |
| PipelineSafety.ShowInv | concurrency-bugs/bzip2smp-1.0/bzip2smp.c:527-542 | presenting a chunk: ring positions, free count and the woken worker stay consistent |
| PipelineSafety.TakeInv | concurrency-bugs/bzip2smp-1.0/bzip2smp.c:93-111 | taking a chunk, after one check or after a wait |
| PipelineSafety.AllotInv | concurrency-bugs/bzip2smp-1.0/bzip2smp.c:115-136 | an output slot is given to chunks in the order in which they were taken, and is empty |
| PipelineSafety.SortInv | concurrency-bugs/bzip2smp-1.0/bzip2smp.c:140-151 | sorting touches only the worker's own chunk and frees one input slot |
| PipelineSafety.StoreInv | concurrency-bugs/bzip2smp-1.0/bzip2smp.c:153-162 | a finished chunk goes to its own slot, and the writer is woken exactly if it waits for it |
| PipelineSafety.WriteInv | concurrency-bugs/bzip2smp-1.0/bzip2smp.c:184-206 | the writer always takes the oldest chunk not yet written, finished, and empties its slot |
| PipelineSafety.AdvanceInv | concurrency-bugs/bzip2smp-1.0/bzip2smp.c:208-222 | moving the tail wakes whoever waits for room or for the end |
| PipelineRuns.RunSafe | concurrency-bugs/bzip2smp-1.0/bzip2smp.c:81-223 | in every state of every run, for any number of workers and any schedule, no thread uses slot -1 or an empty slot |
| PipelineRuns.RunInOrder | concurrency-bugs/bzip2smp-1.0/bzip2smp.c:167-223 | at any time the output is that of chunks 0, 1, 2, ... in order, each once |
| PipelineRuns.RunComplete | concurrency-bugs/bzip2smp-1.0/bzip2smp.c:548-561 | when the program ends, every chunk up to the last is written |
| PipelineRuns.RunNotStuck | concurrency-bugs/bzip2smp-1.0/bzip2smp.c:403-561 | short of the end some thread can always go on: no deadlock, although waits check once |
| PipelineEnds.StepLess | concurrency-bugs/bzip2smp-1.0/bzip2smp.c:81-223 | every step of every thread, signals included, leaves less to do |
| PipelineEnds.RunShort | concurrency-bugs/bzip2smp-1.0/bzip2smp.c:403-561 | the number of steps of any run is bounded by the number of blocks and of workers |
| PipelineEnds.RunEnds | concurrency-bugs/bzip2smp-1.0/bzip2smp.c:403-561 | a run that no thread can prolong has exited with the output of all the streams |
| PipelineRuns.SpuriousWake | concurrency-bugs/bzip2smp-1.0/bzip2smp.c:95-101 | the single check is enough only because a wait ends by a signal: a worker woken without one would use slot -1 |
| Parallel.SameAsOne | concurrency-bugs/bzip2smp-1.0/bzip2smp.c:403-561 | for every input, worker count and schedule, the bytes that bzip2smp has written at exit are the bits of one compressor, completed with zero bits; the bit buffer handed from stream to stream is in every state of the run |
| Parallel.ParallelDecodes | concurrency-bugs/bzip2smp-1.0/bzip2smp.c:403-561 | if the workers code each block to the bits that the sequential compressor gives it, those bytes are the very bytes that it writes for the same input, and they decode to it |
| Parallel.WrittenDecodes | concurrency-bugs/bzip2smp-1.0/bzip2smp.c:403-561 | whatever well-made blocks the workers make of what the reader hands them, for every schedule, the bytes written decode to the input |
| Parallel.Sequential | concurrency-bugs/bzip2smp-1.0/bzlib.c:427-483 | what the sequential compressor writes for the input, in any chunks, with its blocks recorded |
| Parallel.StoreStream | concurrency-bugs/bzip2smp-1.0/bzlib.c:596-641 | the writer's turn on the bit writer: restored, one stream written, bytes appended and up to 31 bits kept back, equals the turn in the runs |
| Parallel.StoreHolds | concurrency-bugs/bzip2smp-1.0/bzlib.c:596-641 | bytes written and bits kept back are, after each turn, exactly the bits of the streams so far |
| Parallel.StoreEnds | concurrency-bugs/bzip2smp-1.0/bzlib.c:626-641 | the last turn leaves no bit in the buffer |
| Parallel.Terminates | concurrency-bugs/bzip2smp-1.0/bzip2smp.c:403-561 | every schedule ends: a run has at most 17 steps for each block, one for each worker and 8 more, and a run that no thread can prolong has exited |
| Parallel.StoreBlocksort | concurrency-bugs/bzip2smp-1.0/bzlib.c:596-641 | the writer's turn: restoring the bit buffer of the stream before and saving its own continues the bits without a seam |
| Parallel.StoreLast | concurrency-bugs/bzip2smp-1.0/bzlib.c:626-641 | the last turn: trailer and padding |
| AtomicPtr.StepRefines | concurrency-bugs/canneal/src/AtomicPtr.h:202-219 | every atomic step of any thread changes no value but one: the successful compare-and-set on the later cell, which is one transposition of the two cells' pointers |
| AtomicPtr.RunRefines | concurrency-bugs/canneal/src/AtomicPtr.h:202-219 | every run is a sequence of atomic transpositions, and every call takes effect exactly once, before it returns; of which cells is AtomicPtr.CallAnswered |
| AtomicPtr.CallAnswered | concurrency-bugs/canneal/src/AtomicPtr.h:175-219 | in every run, from a thread's call to its return: Swap of two cells, in either order of their addresses, has added exactly one transposition of that thread, of just these two cells, and no reading; Get of a cell has added exactly one reading, of that cell, and no transposition |
| AtomicPtr.ServingStep | concurrency-bugs/canneal/src/AtomicPtr.h:202-219 | no step of any thread makes a call under way forget its cells or take effect twice |
| AtomicPtr.RunConserves | concurrency-bugs/canneal/src/AtomicPtr.h:119-127 | pointers in cells and hands are neither lost nor duplicated |
| AtomicPtr.Quiescent | concurrency-bugs/canneal/src/AtomicPtr.h:255-270 | with all threads idle no cell is null and the cells are the abstract array |
| AtomicPtr.RunReads | concurrency-bugs/canneal/src/AtomicPtr.h:175-183 | in every run, each Get returns what the cell holds in the abstract array at the moment of its successful load, however often it had to try again |
| AtomicPtr.GetKeeps | concurrency-bugs/canneal/src/AtomicPtr.h:175-183 | no step of a Get changes a cell or the abstract array |
| AtomicPtr.SomeoneFinishes | concurrency-bugs/canneal/src/AtomicPtr.h:204-218 | because cells are taken in address order, while calls are pending one of them can finish in six steps of its own |
| PbzipRuns.StepKeeps | concurrency-bugs/pbzip2-1.1.12/pbzip2.cpp:1639-1808 | every step of producer, consumers and writer keeps the invariant and uses no wrong slot |
| PbzipRuns.RunSafe | concurrency-bugs/pbzip2-1.1.12/pbzip2.cpp:2903-2950 | in every state of every run no thread uses a slot outside the buffer, stores into a full one or writes an empty one |
| PbzipRuns.RunStores | concurrency-bugs/pbzip2-1.1.12/pbzip2.cpp:2829-2950 | a block inside the window goes to the slot of its number, which is empty |
| PbzipRuns.RunInOrder | concurrency-bugs/pbzip2-1.1.12/pbzip2.cpp:1639-1808 | at any time the file holds the first blocks, compressed, in order, each once |
| PbzipRuns.RunComplete | concurrency-bugs/pbzip2-1.1.12/pbzip2.cpp:1639-1808 | when the writer ends, every block is written |
| PbzipRuns.RunNotStuck | concurrency-bugs/pbzip2-1.1.12/pbzip2.cpp:2404-2640 | short of the end the producer or a consumer can go on, or the writer has work other than polling |
| PbzipRuns.WriterWorks | concurrency-bugs/pbzip2-1.1.12/pbzip2.cpp:1639-1808 | with work to do, the writer alone writes a block, makes room or ends within three steps |
| PbzipEnds.StepLess | concurrency-bugs/pbzip2-1.1.12/pbzip2.cpp:1639-1808 | every step of every thread, wakings included, leaves less to do, but for the writer's looking again, which leaves as much |
| PbzipEnds.RunShort | concurrency-bugs/pbzip2-1.1.12/pbzip2.cpp:2404-2640 | in every run the steps other than looking again are bounded by the number of blocks and of consumers |
| PbzipEnds.Terminates | concurrency-bugs/pbzip2-1.1.12/pbzip2.cpp:1639-1808 | every schedule that gives each thread its turns often enough ends with every block written, in order, each once |
| PbzipSafety.ProducerKeeps | concurrency-bugs/pbzip2-1.1.12/pbzip2.cpp:2404-2531 | reading, adding, waiting for room, and the end with its broadcast |
| PbzipSafety.ConsumerKeeps | concurrency-bugs/pbzip2-1.1.12/pbzip2.cpp:2536-2640 | taking a block, waiting for one, compressing, storing or waiting for room |
| PbzipSafety.WriterKeeps | concurrency-bugs/pbzip2-1.1.12/pbzip2.cpp:1639-1808 | looking, writing, and moving the window with its broadcast |
| PbzipSafety.PosIsSlot | concurrency-bugs/pbzip2-1.1.12/pbzip2.cpp:2829-2840 | the position computed from posToWrite is the block number modulo the buffer's length, for every number in the window |
| PbzipQueue.Queue.Clear | concurrency-bugs/pbzip2-1.1.12/pbzip2.h:154-164 | the queue is empty again |
| PbzipQueue.Queue.Add | concurrency-bugs/pbzip2-1.1.12/pbzip2.h:166-208 | the ring, its counters and its four flags stand for the queue with the element at its end |
| PbzipQueue.Queue.Remove | concurrency-bugs/pbzip2-1.1.12/pbzip2.h:217-283 | the oldest element leaves, or nothing if the queue is empty |
| PbzipQueue.Meet | concurrency-bugs/pbzip2-1.1.12/pbzip2.h:166-283 | head and tail meet exactly when the ring is empty or full, which the flags tell apart |
| Assoc.HashTable.Find | concurrency-bugs/memcached-127/memcached-1.4.4/assoc.c:69-94 | for every key, in every state of an expansion: the item that the table maps it to, or none exactly if it maps it to nothing |
| Assoc.HashTable.Before | concurrency-bugs/memcached-127/memcached-1.4.4/assoc.c:99-116 | for every key, present or not: the bucket or item that holds the link to its item, or else the end of its chain |
| Assoc.HashTable.Expand | concurrency-bugs/memcached-127/memcached-1.4.4/assoc.c:119-134 | doubling starts an expansion from the first bucket and changes no entry; without memory nothing changes |
| Assoc.HashTable.Insert | concurrency-bugs/memcached-127/memcached-1.4.4/assoc.c:137-161 | one entry more, into the old bucket or the new one as the expansion has come; growth starts exactly when there are more than one and a half items for each bucket, no expansion is under way and there is memory; one under way stays where it was |
| Assoc.HashTable.Delete | concurrency-bugs/memcached-127/memcached-1.4.4/assoc.c:163-181 | exactly that entry goes |
| Assoc.HashTable.MoveBucket | concurrency-bugs/memcached-127/memcached-1.4.4/assoc.c:196-209 | the items of one old bucket, relinked one by one, end in the two new buckets of their hashes; no entry changes |
| Assoc.HashTable.Maintain | concurrency-bugs/memcached-127/memcached-1.4.4/assoc.c:189-229 | one turn moves exactly the bulk of buckets, or all that are left if they are no more, and the expansion is over exactly in that case; no entry changes at any time |
| Assoc.HashTable.Maintenance | concurrency-bugs/memcached-127/memcached-1.4.4/assoc.c:187-229 | from any state, with a bulk of at least one, as many turns as there are buckets to move end the expansion |

## Left out

- HuffmanLengths.MakeCodeLengths: its limit is at least 12 because below that rescaling need not end; the source calls it with 17. Which of several best codes is made for equal weights is not stated.
- CodingTables.InitialTables: how evenly the initial tables share the frequencies is stated for each stretch (CodingTables.Stretch), not for all of them together; that choice only affects compression.
- BlockCompressor.SortBlock: always the fallbackSort branch; mainSort, its quicksort and its work budget compute the same kind of order by another route.
- BlockCompressor.CodeSymbols: the halfwords that `mtfv` overlays on `ptr` are filled from the pointers first; the overlay itself is modelled inside GenerateMTFValues.
- Compressor.Run: copying finished bytes to the caller's buffer (copy_output_until_stop) is left out: the bytes written so far are the result. BZ_FLUSH and wrong sequences of actions are left out.
- Parallel.ParallelDecodes: that workers and the sequential compressor code equal blocks to equal bits is a hypothesis there; the C code is deterministic, but its block sort is proved to give a sorted order and not which of several. Parallel.WrittenDecodes does without it.
- PipelineEnds.RunEnds: bounds the steps of every schedule; fairness is not modelled and not needed. Waits return only on a signal.
- AtomicPtr.StepRefines: atomic steps are sequentially consistent; memory barriers, TrySwap, Set and the copy constructor are left out. Swapping a cell with itself is excluded, as its callers do.
- Randomised blocks: the encoder never sets the bit; the decoder model stops in a state of its own when it is set.
- The 256 numbers of the checksum table (crctable.c): the model computes the division by the generator that they tabulate.
- Stream headers repeated in one file, the stdio wrappers, memory allocation and its failures, verbosity and statistics.
- 32-bit overflow of byte counters (`total_in`), which nothing else depends on.
- Decompressor.DState.Decompress: the vectors are allocated for each block with arbitrary contents instead of once for each stream; the locals saved and restored are fields of the objects.
- EndToEnd.DecompressAll: calls up to the first error. The model's failed state stays failed; in the C code `state` keeps the label at which reading failed, and a further call reads on there.
- BlockColumn.Column.TakeDigit: the length of a run is unbounded; in the C code 32 RUNA in a row wrap it to -1, so that no byte is added, the count of the byte drops by one and decoding goes on, where the model fails at once. No well-made block has such a run.
- BlockTables.Selectors.TakeZero: where the C code writes past the last cell, the model stops in a state of its own of which nothing is promised; what the C code does after that is not modelled.
- PbzipRuns.RunComplete: the compress path only; decompression (BZ2StreamScanner, consumer_decompress), signals, memory limits and exits on errors are left out. The steps of a thread between two locks are one step. Waits of consumers and producer return only on a signal, the writer's timed wait at any time. For a file of no blocks the writer finally writes a fixed empty stream (`Bz2HeaderZero`), which is not part of what is written here.
- PbzipQueue.Queue.Add: elements that are only parts of a block, which compression does not use, are left out.
- Assoc.HashTable.Expand: when there is no memory, the C code leaves `old_hashtable` pointing at the primary table, which nothing reads then; the model leaves the field as it was.
- Assoc.HashTable.Maintain: one turn with the lock held; the thread's wait and shutdown are left out.
- memcached's items and LRU lists (items.c), slabs and protocol: not part of this model.
- Accepted.AcceptedIsSound: how the bits of tables and data lead to the last column is stated for what the compressor writes (DataReads.DataRead), not for every stream that is accepted: the code allows detours in the code lengths and incomplete codes.
