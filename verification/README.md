# Verified models of ZapadaOS kernel code

Dafny models of the parts of ZapadaOS where most of the state and arithmetic is, with proofs of
what they keep over every input and every run. `dafny verify dfyconfig.toml` checks everything.

What is modelled, and the main result of each part:

- **Decompression** (`tinflate.c`). `Deflate.dfy` is RFC 1951 as a function on bits, written
  independently of the C code: canonical codes by their arithmetic, blocks by recursion, only real
  bits readable. `BitReading`, `HuffmanTree`, `TreeBuilding`, `Inflating`, `Crc32` and `Gzip` are
  the C code with its buffer, tables and loops. `Inflating.Uncompress` and `Gzip.Decompress` tie the
  two together with an exact status on every input, which includes termination.
  `DeflateStreams.InflateInverts` and `GzipStreams.DecompressInverts` measure the format against an
  encoder: any mix of stored, fixed and dynamic blocks, any acceptable codes, any runs and matches,
  any optional header fields. `DeflateCodes`, `DeflateItems` and `DeflateSamples` say in numbers what
  the symbols stand for and go through a few streams byte by byte.
- **Kernel heap** (`heap.c`). `HeapLayout` and `HeapMachine` say what a heap is as a tiling of
  blocks with 65 free lists and a counter, and prove tiling, separation and conservation over every
  run (`HeapMachine.EveryRun`); `HeapReuse` says which block an allocation takes. `KernelHeap` is the C code over raw memory words, with headers and
  links stored in the blocks, and does exactly what the machine does.
- **Scheduler and blocking IPC** (`sched.c`, `ipc.c`, the yielding system calls). `Scheduling`, `Ipc`
  and `IpcRuns` are a transition system with one step per kernel call up to its context switch;
  `IpcRuns.EveryRun` is its safety theorem, for any number of calls, retries, interrupts and ticks,
  and `IpcProgress.BlocksAtMostOnce` says that a woken call does not have to wait again.
  `RunQueues` and `ChannelPool` are the C data structures (intrusive lists, ring buffers, waiter
  pointers), each call proved equal to its step.
- **Handles and interrupt routing** (`ipc.c`, `irq_router.c`). When a handle can come back, and, from
  boot over every run of kernel and router, what the numbers on interrupt notices say
  (`IrqHub.BootedDelivers`).
- **Named request/reply channel** (`zaclr_native_Zapada_System_Ipc_NativeCalls.cpp`). All
  interleavings of one client and one service, one shared access per step
  (`NamedChannel.EveryInterleaving`), and what a reply timeout does to those that follow
  (`NamedTimeout.TimeoutPairsIff`).
- **Frames and DMA buffers** (`pmm.c`, `DriverHal.cpp`). Conservation and single ownership of frames
  from either way of booting.
- **Archives and the ramdisk** (`cpio.c`, `ramdisk.c`). A printer as the inverse of the iterator, and
  when the ramdisk's index agrees with a scan of the archive. `Cpio` is the format, `Cpio32` the
  iterator in its 32-bit arithmetic.

## Properties that hold only under a condition

Where the code does not meet a natural property on all inputs, the condition is proved exactly:

- A blocking call keeps the waiter-slot invariant if and only if its slot is free and some thread is
  READY (`IpcSafety.WaitKeepsIff`); the two ways to fail are `SecondSenderLosesFirst` and
  `NobodyReadyQueuesCaller`. One blocking sender and one blocking receiver per channel, and one
  thread that never blocks, imply the condition in every reachable state (`IpcRuns.EveryRun`).
- Asking the scheduler for the next thread and switching keeps one RUNNING thread if and only if
  preemption was requested or nobody is READY (`IpcRuns.PreemptKeepsIff`).
- A destroyed handle stays refused up to 2^24 creations and not beyond (`Handles.NeverAcceptedAgain`,
  `Handles.FirstHandleReturns`).
- A subscription listens and can be unsubscribed if and only if bit 23 of its generation is clear
  (`IrqHub.WorksIff`); otherwise its entry is lost for good (`IrqHub.StuckForever`). Fewer than 2^23
  subscriptions never get there (`IrqHub.EveryHandleWorks`), and 2^23 can (`IrqHub.BootedStuck`).
- A reply timeout leaves requests and replies paired in everything that follows if and only if nobody
  was waiting for a reply (`NamedTimeout.TimeoutPairsIff`); otherwise the next send, whatever it asks,
  can get the late answer (`NamedTimeout.LateAnswerCrosses`, `FreshCrosses`). The same condition
  decides whether the buffers stay apart (`NamedTimeout.TimeoutSeparatesIff`, `LateAnswerClashes`).
  No other event breaks either (`NamedChannel.StepKeeps`).
- The heap's 32-bit total covers a request if and only if it is at most 2^32 - 32 bytes
  (`HeapMachine.TotalSizeCovers`), and so does the block carved for it (`HeapMachine.CarvedCovers`);
  a little further on two allocations get the same pointer (`HeapMachine.WrappedTwice`).
- Registering frames leaves the kernel, its heap and the reserved memory alone if and only if the end
  of the reserved memory does not wrap 64 bits and leaves a frame, or leaves nothing to register
  (`FrameAllocator.RespectsIff`).
- The archive iterator reads what the format says if and only if no header stands there, a bound test
  fails on the header's numbers, or none of their sums wraps 32 bits (`Cpio32.ExactIff`); an archive
  on which the search never ends is `Cpio32.FarNameNeverEnds`.
- The ramdisk index and the archive search agree on a name if and only if there is no such entry, or
  the first one is not empty and among the first 128 that are not (`Cpio32.LoopsAgreeIff`, from
  `Lookup.AgreeIff`); one empty file is enough to fail (`Cpio32.EmptyFileLost`).

## How to read the model

- Calls that the source makes on shared state are methods of a class whose `View()` is a value; the
  contract of each method says which function of the old view the new view is. The functions are
  small, and what they mean is proved separately, as invariants, orders and inverses.
- The modules whose names end in `Answers` say of each call which answer it gives and what it
  changes, over blocks, threads, messages and frames, in numbers.
- A C array of structs is an array of records; writing a field replaces the record. Pointers to
  read-only memory are sequences and positions.
- Integers are unbounded. Where the source truncates or wraps, the model writes it out: 32-bit sizes
  in the heap and the archive iterator, generations and handles, 64-bit frame addresses and sequence
  numbers, header fields.
- Where the code and its comments differ, the code is modelled: the heap does not merge neighbouring
  free blocks although its header mentions it, and only recycled payloads are claimed to be zero,
  because after a rewind the bump path can hand out old bytes.

## Model

| member | source | states |
|---|---|---|
| `BitStream.WindowTake` | src/kernel/initramfs/tinflate.c:178-186 | masking and shifting a buffer of c stream bits gives the next n bits and leaves the c - n after them |
| `BitReading.BitReader.Refill` | src/kernel/initramfs/tinflate.c:166-176 | refilling appends whole bytes of the source to the buffer without losing or reordering a bit, and notes a read past the end |
| `BitReading.BitReader.GetBitsNoRefill` | src/kernel/initramfs/tinflate.c:178-186 | reading from the buffer returns the next bits of the stream and moves the position by exactly that many |
| `BitReading.BitReader.GetBits` | src/kernel/initramfs/tinflate.c:188-192 | the value is the next num bits of the LSB-first stream, zeros past its end; afterwards at most 7 bits are buffered and the tag has no others |
| `BitReading.BitReader.GetBitsBase` | src/kernel/initramfs/tinflate.c:194-197 | base plus the next num bits; nothing is read for zero bits |
| `BitReading.BitReader.Align` | src/kernel/initramfs/tinflate.c:453-455 | zeroing tag and bit count lands exactly on the next byte boundary of the stream |
| `BitReading.BitReader.SkipBytes` | src/kernel/initramfs/tinflate.c:409-424 | moving the source pointer moves the bit position by whole bytes and keeps the reader valid |
| `BitReading.BitReader.OverflowMeansPastEnd` | src/kernel/initramfs/tinflate.c:166-176 | the overflow flag is set only when the position is past the real bits of the source |
| `Huffman.FirstCodeIsKraft` | src/kernel/initramfs/tinflate.c:133-145 | the code value after the last level is the Kraft sum, so a level test on left-over codes is a test of the whole code |
| `Huffman.SlotInRange` | src/kernel/initramfs/tinflate.c:152-156 | every used symbol has a place in the symbol table below the number of codes |
| `Huffman.SlotInjective` | src/kernel/initramfs/tinflate.c:152-156 | two used symbols never share a place in the table |
| `Huffman.PrefixFree` | src/kernel/initramfs/tinflate.c:199-221 | no stream position starts with the canonical codes of two symbols |
| `Huffman.DecodeSymbolIs` | src/kernel/initramfs/tinflate.c:199-221 | a symbol whose canonical code (section 3.2.2 of RFC 1951) stands at a position is the one decoded there, and exactly its bits are consumed |
| `Huffman.LevelFits` | src/kernel/initramfs/tinflate.c:135-145 | with Kraft sum at most one no level runs out of codes |
| `Huffman.CompleteDecodes` | src/kernel/initramfs/tinflate.c:199-221 | with a complete code every bit string, even past the end, starts with some code of at most 15 bits |
| `HuffmanTree.WalkInRange` | src/kernel/initramfs/tinflate.c:199-221 | the walk over the counts ends at -1 or at an index below the number of codes the table counts |
| `HuffmanTree.ReadSymbol` | src/kernel/initramfs/tinflate.c:199-221 | the decoding loop consumes what the walk over the counts consumes and returns the symbol found there, or -1 |
| `HuffmanTree.WalkInvertsCode` | src/kernel/initramfs/tinflate.c:199-221 | fed the canonical code of s followed by any bits, the tables give s and consume exactly lengths[s] bits |
| `HuffmanTree.WalkComplete` | src/kernel/initramfs/tinflate.c:199-221 | for the tables of a complete code the walk always finds a symbol whose code stands there |
| `TreeBuilding.KraftBounds` | src/kernel/initramfs/tinflate.c:133-150 | bounds of the Kraft sum that the two acceptance tests rest on |
| `TreeBuilding.OverfullLevel` | src/kernel/initramfs/tinflate.c:135-140 | a level with more codes than are left makes the length vector invalid |
| `TreeBuilding.AcceptanceTest` | src/kernel/initramfs/tinflate.c:147-150 | once all levels fit, the final tests accept exactly the valid codes: empty, one one-bit code, or complete |
| `TreeBuilding.SingleCode` | src/kernel/initramfs/tinflate.c:158-161 | with one code of one bit the largest used symbol is the only used one |
| `TreeBuilding.CompletedIsComplete` | src/kernel/initramfs/tinflate.c:133-161 | every accepted non-empty code, with its dummy sibling if it has one code, has Kraft sum exactly one |
| `TreeBuilding.CompletedDecodes` | src/kernel/initramfs/tinflate.c:158-161 | adding the dummy changes no decoding except that it appears as a symbol above max_sym |
| `TreeBuilding.TablesDecode` | src/kernel/initramfs/tinflate.c:199-221 | for every accepted non-empty code the walk yields a symbol in range, and the format decodes exactly that symbol unless it is above max_sym (the dummy) or its bits run past the end |
| `TreeBuilding.CountLengths` | src/kernel/initramfs/tinflate.c:116-131 | counts per length and largest used symbol; lengths over 15 are refused |
| `TreeBuilding.CheckLevels` | src/kernel/initramfs/tinflate.c:133-150 | the loop over levels returns OK exactly for the valid codes, with the first table slot of each length |
| `TreeBuilding.PlaceSymbols` | src/kernel/initramfs/tinflate.c:152-156 | every used symbol ends up in its slot: ordered by length, then by symbol |
| `TreeBuilding.AddDummy` | src/kernel/initramfs/tinflate.c:158-161 | a one-code tree becomes the tables of the two-code completion |
| `TreeBuilding.BuildTree` | src/kernel/initramfs/tinflate.c:109-164 | OK exactly for the valid length vectors, and then the tables represent the completed code and max_sym its largest real symbol |
| `TreeBuilding.BuildFixedLiterals` | src/kernel/initramfs/tinflate.c:69-107 | the written-out tables are those of the fixed literal code of section 3.2.6 |
| `TreeBuilding.BuildFixedDistances` | src/kernel/initramfs/tinflate.c:69-107 | the written-out tables are those of the fixed distance code |
| `Inflating.LengthTable` | src/kernel/initramfs/tinflate.c:319-328 | the length tables hold the bases and extra bits of section 3.2.5 |
| `Inflating.DistanceTable` | src/kernel/initramfs/tinflate.c:329-338 | the distance tables hold the bases and extra bits of section 3.2.5 |
| `Inflating.NextSymbol` | src/kernel/initramfs/tinflate.c:341-347 | with an accepted, non-empty tree the symbol is never negative; it is the format's symbol unless it is the dummy or runs past the end, which is why no sign test is needed before a literal is written |
| `Inflating.Inflater.ReadLengthAndDistance` | src/kernel/initramfs/tinflate.c:362-378 | length and distance of a match as the format reads them, or an error exactly where the format has none |
| `Inflating.Inflater.CopyMatch` | src/kernel/initramfs/tinflate.c:384-388 | the overlapping copy: out[n + i] = out[n + i - offs], and nothing beyond is touched |
| `Inflating.Inflater.InflateMatch` | src/kernel/initramfs/tinflate.c:362-388 | one match: exact result, error or overflow |
| `Inflating.Inflater.InflateSymbol` | src/kernel/initramfs/tinflate.c:340-390 | one turn of the symbol loop refines one step of the format and consumes real input |
| `Inflating.Inflater.InflateBlockData` | src/kernel/initramfs/tinflate.c:317-391 | a compressed block ends with the format's output and position, an error exactly where the format has no meaning, or an overflow |
| `Inflating.Inflater.ReadCodeLengthLengths` | src/kernel/initramfs/tinflate.c:246-252 | the three-bit lengths land at their symbols in the transmitted order |
| `Inflating.Inflater.ReadRun` | src/kernel/initramfs/tinflate.c:263-292 | one code length symbol, with the repeats of 16, 17 and 18, as in section 3.2.7 |
| `Inflating.Inflater.ReadLengths` | src/kernel/initramfs/tinflate.c:263-298 | all code lengths of a dynamic block, refusing a run past the end |
| `Inflating.Inflater.ReadAllLengths` | src/kernel/initramfs/tinflate.c:238-298 | header counts and code lengths of a dynamic block, equal to the format's or refused where the format refuses |
| `Inflating.Inflater.DecodeTrees` | src/kernel/initramfs/tinflate.c:223-315 | both trees of a dynamic block represent the format's two codes; refused exactly where the format has none |
| `Inflating.Inflater.InflateStored` | src/kernel/initramfs/tinflate.c:393-426 | a stored block: length, its complement, room and bytes exactly as in section 3.2.4 |
| `Inflating.Inflater.InflateFixed` | src/kernel/initramfs/tinflate.c:458-461 | a fixed block as the format defines it |
| `Inflating.Inflater.InflateDynamic` | src/kernel/initramfs/tinflate.c:462-467 | a dynamic block as the format defines it |
| `Inflating.Inflater.InflateBlock` | src/kernel/initramfs/tinflate.c:452-470 | a block of any type; type 3 is an error |
| `Deflate.Blocks` | src/kernel/initramfs/tinflate.c:448-475 | an accepted stream only extends the output and every block of it consumed at least three real input bits, so an exhausted source is never another block |
| `Inflating.Uncompress` | src/kernel/initramfs/tinflate.c:428-479 | for every input and destination the call ends; OK means the output is exactly what an independent bit-level RFC 1951 inflater makes of the real input bits, INVALID_DATA that it makes nothing, OUTPUT_OVERFLOW that nothing fitting exists |
| `Crc32.ShiftLinear` | src/kernel/initramfs/tinflate.c:50-67 | one CRC shift is linear in the register |
| `Crc32.NibbleTable` | src/kernel/initramfs/tinflate.c:43-48 | each of the sixteen table words is four shifts of its index |
| `Crc32.LookupIsFourShifts` | src/kernel/initramfs/tinflate.c:62-63 | one table lookup equals four bit-at-a-time shifts, for every register value |
| `Crc32.ComputeCrc` | src/kernel/initramfs/tinflate.c:50-67 | the nibble-table loop computes the bit-at-a-time reflected CRC-32 of section 8 of RFC 1952, for every byte string |
| `Crc32.CheckValue` | src/kernel/initramfs/tinflate.c:43-67 | the CRC of the nine digits is 0xCBF43926 |
| `Crc32.OneLetterCrc` | src/kernel/initramfs/tinflate.c:43-67 | the CRC of nothing is 0 and of an `a` 0xE8B7BE43 |
| `Gzip.FlagMasks` | src/kernel/initramfs/tinflate.c:510-544 | testing a header flag with a mask is testing its bit |
| `Gzip.ReservedMask` | src/kernel/initramfs/tinflate.c:503-506 | the reserved-bits test looks at the top three bits |
| `Gzip.SkipString` | src/kernel/initramfs/tinflate.c:518-532 | skipping a zero-terminated field ends after its zero byte or fails at the end of the source |
| `Gzip.FindBody` | src/kernel/initramfs/tinflate.c:491-544 | the body starts after the optional fields in the order of RFC 1952, or the header is refused, exactly as the format says |
| `Gzip.CheckHeaderCrc` | src/kernel/initramfs/tinflate.c:534-544 | a header CRC is accepted exactly when it is the low half of the CRC of the header bytes |
| `Gzip.GzipUncompress` | src/kernel/initramfs/tinflate.c:481-571 | OK implies the output is the inflated body and matches both the stored length and the stored CRC; errors mean there is no such output, or none that fits |
| `Gzip.Decompress` | src/kernel/initramfs/tinflate.c:573-595 | OK if and only if the input, as gzip member or bare stream, stands for something that fits the destination, which then holds it |
| `DeflateEncoding.SymbolReads` | src/kernel/initramfs/tinflate.c:199-221 | the digits of a symbol's canonical code are decoded as that symbol, for every code that is not over-full |
| `DeflateEncoding.DataReads` | src/kernel/initramfs/tinflate.c:317-391 | any tokens written with any pair of codes decode to what the tokens mean |
| `DeflateEncoding.RunsRead` | src/kernel/initramfs/tinflate.c:263-298 | any code length runs, repeats included, decode to the lengths they spell |
| `DeflateStreams.RawReads` | src/kernel/initramfs/tinflate.c:393-426 | a stored block written at any bit position decodes to its bytes |
| `DeflateStreams.HeaderReads` | src/kernel/initramfs/tinflate.c:223-315 | a dynamic header written for any two acceptable codes decodes to those codes |
| `DeflateStreams.InflateInverts` | src/kernel/initramfs/tinflate.c:428-479 | round trip: every mix of stored, fixed and dynamic blocks, encoded and packed into bytes, inflates to what was encoded |
| `DeflateCodes.LengthCodes` | src/kernel/initramfs/tinflate.c:319-328 | every length from 3 to 258 and no other is written by a length code and its extra bits: 258 by exactly two, each other by exactly one, given in numbers |
| `DeflateCodes.DistanceCodes` | src/kernel/initramfs/tinflate.c:329-340 | every distance from 1 to 32768 and no other is written by exactly one distance code and its extra bits, given in numbers |
| `DeflateCodes.RunCodes` | src/kernel/initramfs/tinflate.c:271-289 | code length symbols 16, 17 and 18 stand for exactly 3 to 6, 3 to 10 and 11 to 138 code lengths, the others for one |
| `DeflateItems.SpellingIff` | src/kernel/initramfs/tinflate.c:319-340 | a match can be written if and only if its length is 3 to 258 and its distance 1 to 32768 |
| `DeflateItems.SpelledMeans` | src/kernel/initramfs/tinflate.c:361-389 | however bytes and matches are written, the tokens mean the same bytes |
| `DeflateItems.ItemsInvert` | src/kernel/initramfs/tinflate.c:428-479 | bytes and matches given by length and distance, written in any way in a fixed block, inflate to what they mean |
| `DeflateSamples.FixedLiteralCodes` | src/kernel/initramfs/tinflate.c:69-107 | the lengths and bit patterns of the fixed literal code, in numbers |
| `DeflateSamples.FixedDistanceCodes` | src/kernel/initramfs/tinflate.c:69-107 | the fixed distance codes are the five-bit numbers |
| `DeflateSamples.CodeLengthOrder` | src/kernel/initramfs/tinflate.c:226-252 | which symbol each of the transmitted code length lengths belongs to, in numbers |
| `DeflateSamples.HeaderCounts` | src/kernel/initramfs/tinflate.c:238-314 | the three counts of a dynamic header, their limits, and that symbol 256 and valid codes are demanded |
| `DeflateSamples.ValidCodeIff` | src/kernel/initramfs/tinflate.c:133-160 | a set of lengths is accepted if and only if no symbol is used, or one with one bit, or the lengths fill the code space exactly |
| `DeflateSamples.RunMeans` | src/kernel/initramfs/tinflate.c:268-301 | what a code length symbol adds: itself, copies of the previous length, or zeros, as many as it says |
| `DeflateSamples.SymbolsEnd` | src/kernel/initramfs/tinflate.c:350-391 | symbol 256 ends a block; symbols 286 and 287 and a distance beyond the output spoil it |
| `DeflateSamples.DistanceCodesEnd` | src/kernel/initramfs/tinflate.c:369-373 | distance codes 30 and 31 spoil a block |
| `DeflateSamples.BlocksRefused` | src/kernel/initramfs/tinflate.c:393-426 | type 3 and stored blocks that are cut short or whose complement does not match stand for nothing |
| `DeflateSamples.LengthsRefused` | src/kernel/initramfs/tinflate.c:268-301 | code lengths that begin with a repetition or run over their number stand for nothing |
| `DeflateSamples.StoredStream` | src/kernel/initramfs/tinflate.c:393-426 | any bytes in one stored block, byte by byte |
| `DeflateSamples.OneLetter` | src/kernel/initramfs/tinflate.c:428-479 | the three bytes of a compressed `a` |
| `DeflateSamples.LongestMatch` | src/kernel/initramfs/tinflate.c:319-391 | four bytes with length symbol 285 inflate to 259 letters |
| `GzipStreams.DecompressInverts` | src/kernel/initramfs/tinflate.c:573-595 | round trip through a gzip member with any text flag, extra field, name, comment and header CRC, its CRC and length, and through a bare stream |
| `GzipStreams.HeaderEnds` | src/kernel/initramfs/tinflate.c:491-544 | for every combination of text flag, extra field, name, comment and header CRC the compressed data is found where the written header ends |
| `GzipStreams.WrongCrcRefused` | src/kernel/initramfs/tinflate.c:534-544 | a member whose header CRC is another number is refused |
| `GzipStreams.MemberIff` | src/kernel/initramfs/tinflate.c:481-571 | a member with any header stands for what its stream inflates to if and only if CRC and length in its trailer are right |
| `GzipStreams.HeaderRefused` | src/kernel/initramfs/tinflate.c:491-507 | too short a member, another method or an upper flag is refused |
| `GzipStreams.FieldLayouts` | src/kernel/initramfs/tinflate.c:503-544 | the headers with one optional field, byte by byte |
| `GzipStreams.OneLetterMember` | src/kernel/initramfs/tinflate.c:481-571 | the gzip members of an `a`, with and without a name, byte by byte |
| `HeapLayout.PushKeepsValid` | src/kernel/mm/heap.c:156-170 | freeing onto a list keeps the tiling and puts the block on exactly the list of its size |
| `HeapLayout.TakeKeepsValid` | src/kernel/mm/heap.c:174-192 | taking a block off a list keeps the tiling and the lists |
| `HeapLayout.CarveKeepsValid` | src/kernel/mm/heap.c:387-400 | a carved block extends the tiling |
| `HeapLayout.DropKeepsValid` | src/kernel/mm/heap.c:428-431 | rewinding over the last block keeps the tiling |
| `HeapLayout.SplitKeepsValid` | src/kernel/mm/heap.c:260-278 | splitting a block keeps the tiling; the tail has a header of its own |
| `HeapLayout.Accounted` | src/kernel/mm/heap.c:437-447 | free and live bytes plus headers add up to the tiled range |
| `HeapLayout.PushCounts` | src/kernel/mm/heap.c:156-170 | the running free-byte counter stays the sum over the lists |
| `HeapLayout.TakeCounts` | src/kernel/mm/heap.c:174-192 | the running free-byte counter stays the sum over the lists |
| `HeapLayout.SplitCounts` | src/kernel/mm/heap.c:260-278 | the split leaves the counter right |
| `HeapMachine.TotalSizeCovers` | src/kernel/mm/heap.c:356-357 | the 32-bit total covers the request if and only if the size is at most 2^32 - 32 |
| `HeapMachine.CarvedCovers` | src/kernel/mm/heap.c:356-397 | a block carved from the bump pointer reaches as far as was asked for if and only if that is at most 2^32 - 32 bytes |
| `HeapMachine.WrappedTwice` | src/kernel/mm/heap.c:343-401 | in every state with room at the bump pointer, two requests in a row of 2^32 - 31 to 2^32 - 16 bytes get the same pointer |
| `HeapMachine.UnitsCover` | src/kernel/mm/heap.c:145-152 | within that bound the units cover the request with less than one unit to spare, and the total does not wrap |
| `HeapMachine.LimitIs` | src/kernel/mm/heap.c:222-231 | while 20 n fits 32 bits the acceptance limit is floor(20 n / 16) |
| `HeapMachine.BestIsUnique` | src/kernel/mm/heap.c:211-235 | the first smallest fitting block is unique |
| `HeapMachine.NothingFits` | src/kernel/mm/heap.c:211-239 | the search fails exactly when no block fits |
| `HeapMachine.OverflowPop` | src/kernel/mm/heap.c:197-281 | NULL exactly when no size lies in [n, floor(20 n / 16)], otherwise a smallest one; the other blocks keep their order, and block, tail and tail header make up the old block |
| `HeapMachine.AllocPinnedKeepsUse` | src/kernel/mm/heap.c:343-403 | exact list, best overflow block, bump or NULL: each keeps the invariant and returns a pointer that was not live |
| `HeapMachine.AllocKeepsGood` | src/kernel/mm/heap.c:343-403 | an allocation keeps the invariant and adds exactly one live pointer, or none for NULL |
| `HeapMachine.FreeKeepsGood` | src/kernel/mm/heap.c:405-435 | a free of a live pointer keeps the invariant and removes exactly that pointer |
| `HeapMachine.LivePayloads` | src/kernel/mm/heap.c:343-435 | live payloads are 16-aligned, inside the heap, as large as requested and pairwise separated by at least a header |
| `HeapMachine.Conservation` | src/kernel/mm/heap.c:437-447 | the counter is the sum of the lists, and reported free bytes, 16 per free block and live blocks are the whole heap |
| `HeapMachine.EveryRun` | src/kernel/mm/heap.c:287-447 | all of the above after every run of allocations and frees of live pointers |
| `HeapReuse.AllocChooses` | src/kernel/mm/heap.c:343-401 | an allocation takes a smallest free block that serves, if there is one, and returns the tail it can spare; otherwise it carves at the bump pointer; it fails if and only if no free block serves and there is no room |
| `HeapReuse.ReleaseAnswers` | src/kernel/mm/heap.c:403-433 | releasing the block at the bump pointer winds the pointer back, any other becomes a free block of its size, and nothing else is touched |
| `HeapReuse.ReleasedIsReused` | src/kernel/mm/heap.c:403-433 | a released block of up to 64 units is what the next request for as many units gets |
| `KernelHeap.KernelHeap.BucketPush` | src/kernel/mm/heap.c:156-170 | header and link writes implement the push; nothing else in memory changes |
| `KernelHeap.KernelHeap.BucketPopFast` | src/kernel/mm/heap.c:174-192 | the exact-size list gives its first block or NULL |
| `KernelHeap.KernelHeap.FindBest` | src/kernel/mm/heap.c:207-239 | walking the linked overflow list finds the first smallest fitting block and its predecessor |
| `KernelHeap.KernelHeap.UnlinkBest` | src/kernel/mm/heap.c:241-243 | unlinking keeps all other links in order |
| `KernelHeap.KernelHeap.SplitTail` | src/kernel/mm/heap.c:260-278 | the tail gets a header and goes to the list of its size |
| `KernelHeap.KernelHeap.BucketPopOverflow` | src/kernel/mm/heap.c:197-281 | the list walk, unlink and split in memory are the best-fit recycling of the layout |
| `KernelHeap.KernelHeap.ZeroUser` | src/kernel/mm/heap.c:109-118 | every word of the payload is zero and no other word changed |
| `KernelHeap.KernelHeap.AllocRecycled` | src/kernel/mm/heap.c:365-385 | a recycled block comes from the right list and is zeroed |
| `KernelHeap.KernelHeap.AllocBump` | src/kernel/mm/heap.c:387-402 | the bump path carves exactly when the total fits below the end |
| `KernelHeap.KernelHeap.constructor` | src/kernel/mm/heap.c:287-308 | an initialised heap with nothing allocated satisfies the invariant |
| `KernelHeap.KernelHeap.ReserveUntil` | src/kernel/mm/heap.c:310-341 | before the first allocation the bump pointer moves up to the aligned address and no further than the end, later it is ignored |
| `KernelHeap.KernelHeap.Allocate` | src/kernel/mm/heap.c:343-403 | the allocator over raw memory does exactly what the state machine does, and every word of a recycled payload is zero |
| `KernelHeap.KernelHeap.Release` | src/kernel/mm/heap.c:405-435 | freeing over raw memory does exactly what the state machine does |
| `KernelHeap.KernelHeap.GetFreeBytes` | src/kernel/mm/heap.c:437-447 | the reported number is the counter plus the room above the bump pointer |
| `KernelHeap.KernelHeap.CallerWrites` | src/kernel/mm/heap.c:78-98 | callers writing inside payloads they hold disturb no list, header or counter |
| `Scheduling.RoomToQueue` | src/kernel/sched/sched.c:161-164 | with at most 32 threads a thread that is not queued always finds room |
| `Scheduling.MakeReady` | src/kernel/sched/sched.c:354-369 | a thread made READY is queued once, in the band of its priority, and the call cannot fail |
| `Scheduling.TakeNext` | src/kernel/sched/sched.c:197-227 | dequeuing gives a READY thread, or nothing exactly when none is READY |
| `Scheduling.SwitchFromBlocked` | src/kernel/sched/sched.c:320-348 | a running thread that blocks hands over to a READY thread and the invariant holds again |
| `Scheduling.SwitchFromReady` | src/kernel/sched/sched.c:233-249 | a running thread that yields is queued and some thread takes over |
| `SchedOrder.DrainIsConcat` | src/kernel/sched/sched.c:197-227 | dequeuing until empty gives the bands one after the other |
| `SchedOrder.BandsAreSelections` | src/kernel/sched/sched.c:141-191 | each band holds the threads of its priority in the order they were queued, and none was refused |
| `SchedOrder.DrainIsStableSort` | src/kernel/sched/sched.c:141-227 | queueing any threads and draining is a stable sort by priority: a permutation, sorted, equal priorities in order |
| `SchedOrder.RemoveDeletes` | src/kernel/sched/sched.c:64-109 | removal deletes exactly its target, succeeds exactly when it was queued, and keeps all other order |
| `SchedOrder.QuantumRunsOut` | src/kernel/sched/sched.c:255-271 | preemption is requested exactly when the remaining ticks are used up |
| `SchedAnswers.EnqueueAnswers` | src/kernel/sched/sched.c:141-195 | when a thread joins its band, exactly, and that nothing else changes |
| `SchedAnswers.DequeueAnswers` | src/kernel/sched/sched.c:197-231 | the first thread of the most urgent band is taken, none exactly if all are empty |
| `SchedAnswers.YieldAnswers` | src/kernel/sched/sched.c:233-253 | a running thread that yields goes to the end of its band with ten ticks and clears the request to preempt |
| `SchedAnswers.TickAnswers` | src/kernel/sched/sched.c:255-275 | a tick takes one and asks for preemption exactly when nothing is left |
| `SchedAnswers.BlockAnswers` | src/kernel/sched/sched.c:320-352 | which threads can be blocked and what becomes of them |
| `SchedAnswers.UnblockAnswers` | src/kernel/sched/sched.c:354-373 | exactly a BLOCKED thread is woken, to the end of its band |
| `SchedAnswers.NextPicks` | src/kernel/sched/sched.c:277-318 | without a request to preempt the foremost thread is picked, or the running caller if nobody is queued |
| `SchedAnswers.NextPreempts` | src/kernel/sched/sched.c:277-318 | with one the running caller first goes to the end of its band |
| `RunQueues.ListRemove` | src/kernel/sched/sched.c:80-105 | unlinking at any place leaves a list of the others with right head, tail and count |
| `RunQueues.ListAppend` | src/kernel/sched/sched.c:175-186 | appending at the tail leaves a list with right head, tail and count |
| `RunQueues.Scheduler.constructor` | src/kernel/sched/sched.c:115-135 | an initialised scheduler has empty lists that satisfy the invariant |
| `RunQueues.Scheduler.QueueContains` | src/kernel/sched/sched.c:45-62 | found if and only if the thread is on the list |
| `RunQueues.Scheduler.QueueRemove` | src/kernel/sched/sched.c:64-109 | over intrusive links, tail, counts and total, removes exactly what the value-level function removes |
| `RunQueues.Scheduler.Enqueue` | src/kernel/sched/sched.c:141-191 | refuses exactly a NULL, non-READY, out-of-range, 33rd or already queued thread; otherwise the linked lists gain it at the end of its band |
| `RunQueues.Scheduler.Dequeue` | src/kernel/sched/sched.c:197-227 | takes the head of the first non-empty band; lists and counters agree again |
| `RunQueues.Scheduler.Yield` | src/kernel/sched/sched.c:233-249 | RUNNING to READY with a fresh quantum, preemption cleared, queued |
| `RunQueues.Scheduler.Tick` | src/kernel/sched/sched.c:255-271 | total counts modulo 2^64; the remaining ticks go down to zero, which requests preemption |
| `RunQueues.Scheduler.Next` | src/kernel/sched/sched.c:277-314 | requeues a running thread that is to be preempted, then picks; idles only if nothing can run |
| `RunQueues.Scheduler.Block` | src/kernel/sched/sched.c:320-348 | READY threads leave the lists, RUNNING ones just change, others are refused |
| `RunQueues.Scheduler.Unblock` | src/kernel/sched/sched.c:354-369 | only BLOCKED threads, which are queued |
| `RunQueues.Scheduler.Undo` | src/kernel/ipc/ipc.c:384-391 | the give-up branch: queued as READY, then marked RUNNING |
| `RunQueues.Scheduler.ContextSwitch` | src/kernel/sched/sched.c:471-484 | the state part of a switch; nothing happens for NULL |
| `RunQueues.Scheduler.GetReadyCount` | src/kernel/sched/sched.c:384-387 | the counter is the number of threads on the lists |
| `Ipc.Find` | src/kernel/ipc/ipc.c:65-85 | a handle names the slot of its low byte only if the whole handle matches |
| `IpcSafety.OneSlot` | src/kernel/ipc/ipc.c:49-55 | every BLOCKED thread is in exactly one of the 32 waiter slots: a full channel's sender or an empty channel's receiver |
| `IpcSafety.TrySendKeeps` | src/kernel/ipc/ipc.c:236-275 | an accepted send wakes exactly the waiting receiver and keeps the invariant; a refused one changes nothing |
| `IpcSafety.TryRecvKeeps` | src/kernel/ipc/ipc.c:281-327 | a receive wakes exactly the waiting sender and keeps the invariant; EMPTY and TYPE change nothing |
| `IpcSafety.WaitKeepsIff` | src/kernel/ipc/ipc.c:363-398 | a call that has to wait keeps the invariant if and only if its waiter slot is free and some thread is READY |
| `IpcSafety.UndoQueues` | src/kernel/ipc/ipc.c:384-392 | with nobody READY the call returns AGAIN and leaves its caller RUNNING and queued |
| `IpcSafety.SecondSenderLosesFirst` | src/kernel/ipc/ipc.c:374-380 | concrete state: a second sender on a full channel takes the slot, and the first stays BLOCKED in no slot |
| `IpcSafety.NobodyReadyQueuesCaller` | src/kernel/ipc/ipc.c:384-392 | concrete state: the give-up branch breaks the invariant |
| `IpcRuns.YieldKeeps` | src/kernel/syscall/syscall.c:76-111 | yielding or sleeping keeps the invariant and touches only the two threads involved |
| `IpcRuns.PriorityKeeps` | src/kernel/syscall/syscall.c:185-210 | changing the running thread's priority keeps the invariant; out-of-range priorities change nothing |
| `IpcRuns.TickKeeps` | src/kernel/sched/sched.c:255-271 | a timer tick keeps the invariant |
| `IpcRuns.PreemptKeepsIff` | src/kernel/sched/sched.c:277-314 | picking the next thread and switching keeps one RUNNING thread if and only if preemption was requested or nobody is READY |
| `IpcRuns.LogSend` | src/kernel/ipc/ipc.c:254-261 | accepted messages stay the delivered ones followed by the buffered ones after a send |
| `IpcRuns.LogRecv` | src/kernel/ipc/ipc.c:301-315 | the same after a receive, whatever the filter |
| `IpcRuns.SendGood` | src/kernel/ipc/ipc.c:355-398 | one round of a blocking send by the thread with that role keeps everything |
| `IpcRuns.RecvGood` | src/kernel/ipc/ipc.c:428-466 | one round of a blocking receive by the thread with that role keeps everything |
| `IpcRuns.CreateGood` | src/kernel/ipc/ipc.c:149-182 | creating a channel keeps everything and starts its history empty |
| `IpcRuns.DestroyGood` | src/kernel/ipc/ipc.c:188-214 | destroying a channel without waiters keeps everything |
| `IpcRuns.StepGood` | src/kernel/ipc/ipc.c:149-467 | every legal step of the whole system keeps everything |
| `IpcRuns.EveryRun` | src/kernel/ipc/ipc.c:236-467 | in every state of every legal run: one RUNNING thread, queued exactly the READY ones, every BLOCKED thread in exactly one right waiter slot, and for each open channel accepted sends equal deliveries followed by the buffer |
| `IpcAnswers.FindIff` | src/kernel/ipc/ipc.c:65-85 | a handle names a slot if and only if its low byte counts it and the slot carries the handle |
| `IpcAnswers.TrySendAnswers` | src/kernel/ipc/ipc.c:235-275 | INVAL, CLOSED, FULL with eight messages, or OK, each exactly when; the message is appended and nothing else changes |
| `IpcAnswers.TryRecvAnswers` | src/kernel/ipc/ipc.c:277-329 | INVAL, CLOSED, EMPTY, TYPE if a type is asked for and the first message has another, or OK with the first message, each exactly when |
| `IpcAnswers.EveryDelivery` | src/kernel/ipc/ipc.c:308-316 | in every legal run a message given to a receive that asks for a type has that type |
| `IpcAnswers.RoundAnswers` | src/kernel/ipc/ipc.c:331-470 | a blocking call answers what the call that does not wait answers, and waits exactly on FULL or EMPTY |
| `IpcAnswers.WaitAnswers` | src/kernel/ipc/ipc.c:331-470 | a call that waits leaves the caller BLOCKED in its slot and lets the foremost READY thread run |
| `IpcAnswers.CreateAnswers` | src/kernel/ipc/ipc.c:149-183 | which slot and handle a new channel gets, or 0 exactly if none is free |
| `IpcAnswers.DestroyAnswers` | src/kernel/ipc/ipc.c:188-215 | which handles can be destroyed and what is left |
| `IpcAnswers.YieldStepAnswers` | src/kernel/syscall/syscall.c:76-111 | after a yield or sleep the foremost thread runs, with the caller at the end of its band with ten ticks |
| `IpcAnswers.PriorityStepAnswers` | src/kernel/syscall/syscall.c:185-210 | a priority below 8 becomes the caller's; nothing else changes |
| `IpcProgress.WakeServes` | src/kernel/ipc/ipc.c:263-272 | a channel that gained or lost a message serves the thread it wakes and everybody it could serve before |
| `IpcProgress.StepServes` | src/kernel/ipc/ipc.c:236-467 | every step keeps it true that each pending call whose thread is not BLOCKED can be served |
| `IpcProgress.RetryReturns` | src/kernel/ipc/ipc.c:394-398 | a woken call returns in its next round instead of blocking again |
| `IpcProgress.BlocksAtMostOnce` | src/kernel/ipc/ipc.c:355-466 | over every run in which nobody else uses a channel with a pending call of the same kind, each blocking call leaves the processor at most once |
| `ChannelPool.PushAppends` | src/kernel/ipc/ipc.c:258-261 | writing at the tail appends to the ring's contents, wherever it wraps |
| `ChannelPool.PopDrops` | src/kernel/ipc/ipc.c:305-315 | moving the head drops the oldest message, wherever the ring wraps |
| `ChannelPool.Pool.constructor` | src/kernel/ipc/ipc.c:120-143 | an initialised pool is all free slots |
| `ChannelPool.Pool.FromHandle` | src/kernel/ipc/ipc.c:65-85 | the slot of a handle, or none |
| `ChannelPool.Pool.IsOpen` | src/kernel/ipc/ipc.c:220-230 | open exactly when the handle is usable |
| `ChannelPool.Pool.Len` | src/kernel/ipc/ipc.c:473-487 | the number of buffered messages of an open channel, else zero |
| `ChannelPool.Pool.TrySend` | src/kernel/ipc/ipc.c:236-275 | over ring, indices, waiter pointers and run queues, exactly the value-level send |
| `ChannelPool.Pool.TryRecv` | src/kernel/ipc/ipc.c:281-327 | over ring, indices, waiter pointers and run queues, exactly the value-level receive |
| `ChannelPool.Pool.Suspend` | src/kernel/ipc/ipc.c:363-398 | registering, blocking, picking and switching, with both give-up branches, exactly the value-level step |
| `ChannelPool.Pool.SendRound` | src/kernel/ipc/ipc.c:333-399 | one round of the blocking send loop |
| `ChannelPool.Pool.RecvRound` | src/kernel/ipc/ipc.c:405-467 | one round of the blocking receive loop |
| `ChannelPool.Pool.Create` | src/kernel/ipc/ipc.c:149-182 | the first free slot, the next generation with its wrap, an empty open channel |
| `ChannelPool.Pool.Destroy` | src/kernel/ipc/ipc.c:188-214 | the slot becomes free with no handle, or the handle is refused |
| `Handles.SameHandle` | src/kernel/ipc/ipc.c:163-166 | two handles are equal if and only if slots and low 24 generation bits are |
| `Handles.StepNames` | src/kernel/ipc/ipc.c:236-467 | only creating and destroying changes which handles are in use |
| `Handles.FreshHandle` | src/kernel/ipc/ipc.c:157-166 | a new handle differs from those of the last 2^24 creations |
| `Handles.NeverAcceptedAgain` | src/kernel/ipc/ipc.c:65-85 | in every run with at most 2^24 creations no handle is made twice and a destroyed handle is refused ever after |
| `Handles.FirstHandleReturns` | src/kernel/ipc/ipc.c:157-166 | the bound is sharp: after 2^24 creations the first handle is made and accepted again |
| `IrqRouting.PositiveIff` | src/kernel/irq/irq_router.c:57-65 | a subscription handle is positive if and only if bit 23 of its generation is clear, and its low byte names the entry |
| `IrqRouting.SubscribeAnswers` | src/kernel/irq/irq_router.c:57-92 | which entry and handle a subscription gets, or -1 exactly if the channel is not open or the table is full |
| `IrqRouting.UnsubscribeAnswers` | src/kernel/irq/irq_router.c:94-117 | exactly a positive handle in use is unsubscribed |
| `IrqRouting.PublishGood` | src/kernel/irq/irq_router.c:119-137 | publishing keeps the kernel invariant, numbers exactly the listeners and tries each once |
| `IrqRouting.PublishFeeds` | src/kernel/irq/irq_router.c:119-137 | what one publication adds to a channel that one subscription feeds |
| `IrqRouting.OrdinalsAre` | src/kernel/irq/irq_router.c:129-133 | the numbers on the notices are the positions of the publications taken |
| `IrqRouting.SubscriptionDelivers` | src/kernel/irq/irq_router.c:119-137 | over every run, a subscription that alone feeds its channel delivers messages of type 0x10100 with the interrupt and strictly increasing numbers, and a number is missing exactly when that send failed |
| `IrqRouting.SubscribeFeeds` | src/kernel/irq/irq_router.c:67-92 | a new subscription with a usable handle starts at number zero |
| `IrqHub.EveryHandleWorks` | src/kernel/irq/irq_router.c:57-137 | every run from boot, with kernel calls, subscribing, unsubscribing and interrupts and fewer than 2^23 subscriptions, keeps the kernel invariant, counts the subscriptions in the generation, and gives every entry in use a positive handle that names it |
| `IrqHub.WorksIff` | src/kernel/irq/irq_router.c:57-117 | a new subscription listens to its interrupt, and its handle unsubscribes exactly it, if and only if bit 23 of the generation is clear |
| `IrqHub.StuckForever` | src/kernel/irq/irq_router.c:94-137 | an entry with a negative handle is lost: in every run that follows it listens to no interrupt and no call unsubscribes it |
| `IrqHub.BootedStuck` | src/kernel/irq/irq_router.c:57-137 | 2^23 subscriptions are too many: a run from boot that creates a channel and subscribes 2^23 times, each but the last given up before the next, leaves an entry that hears nothing and cannot be unsubscribed in anything that follows |
| `IrqHub.BootedDelivers` | src/kernel/irq/irq_router.c:67-137 | boot, any run, a subscription, any run that leaves its channel to it: the channel delivers what it had accepted before and then notices whose numbers increase strictly and skip exactly the sends that failed |
| `IrqRouter.Router.constructor` | src/kernel/irq/irq_router.c:18-21 | an empty table and generation one |
| `IrqRouter.Router.Subscribe` | src/kernel/irq/irq_router.c:67-92 | first vacant entry, handle and generation, or refusal for a closed channel or full table |
| `IrqRouter.Router.Unsubscribe` | src/kernel/irq/irq_router.c:94-117 | clears exactly the entry with that positive handle, or refuses |
| `IrqRouter.Router.Publish` | src/kernel/irq/irq_router.c:119-137 | the loop over the table does exactly the value-level publication, through the channel pool |
| `IrqRouter.Router.SubscriptionCount` | src/kernel/irq/irq_router.c:139-154 | the number of listening entries |
| `NamedChannel.ClientKeeps` | src/libraries/Zapada.System/zaclr_native_Zapada_System_Ipc_NativeCalls.cpp:313-365 | every single access of the client keeps the hand-over right |
| `NamedChannel.ServiceKeeps` | src/libraries/Zapada.System/zaclr_native_Zapada_System_Ipc_NativeCalls.cpp:410-498 | every single access of the service keeps the hand-over right |
| `NamedChannel.StepKeeps` | src/libraries/Zapada.System/zaclr_native_Zapada_System_Ipc_NativeCalls.cpp:313-498 | so does every event except a reply timeout, the other two timeouts included |
| `NamedChannel.EveryInterleaving` | src/libraries/Zapada.System/zaclr_native_Zapada_System_Ipc_NativeCalls.cpp:313-498 | in every interleaving without reply timeouts each send returns its own answer cut to the request length, each request is received once, and neither buffer is written while the other side reads it |
| `NamedTimeout.LateAnswerCrosses` | src/libraries/Zapada.System/zaclr_native_Zapada_System_Ipc_NativeCalls.cpp:336-362 | from every reachable state in which a client waits for its reply: after it gives up, its next request, whatever it is, returns the answer to the request given up on, before the service has received it |
| `NamedTimeout.TimeoutPairsIff` | src/libraries/Zapada.System/zaclr_native_Zapada_System_Ipc_NativeCalls.cpp:336-348 | in every continuation without another reply timeout each send returns the answer to its own request if and only if nobody was waiting for a reply |
| `NamedTimeout.LateAnswerClashes` | src/libraries/Zapada.System/zaclr_native_Zapada_System_Ipc_NativeCalls.cpp:336-498 | from every reachable state in which a client waits for its reply: after it gives up, the service can write the answer to its next request while the client reads the reply |
| `NamedTimeout.TimeoutSeparatesIff` | src/libraries/Zapada.System/zaclr_native_Zapada_System_Ipc_NativeCalls.cpp:336-348 | in every continuation without another reply timeout neither buffer is written while the other side reads it if and only if nobody was waiting for a reply |
| `NamedTimeout.FreshCrosses` | src/libraries/Zapada.System/zaclr_native_Zapada_System_Ipc_NativeCalls.cpp:313-362 | the crossing from a fresh channel, for any two requests and any answer |
| `NamedTimeout.EveryRequestKept` | src/libraries/Zapada.System/zaclr_native_Zapada_System_Ipc_NativeCalls.cpp:313-336 | in every interleaving with any timeouts the client writes only while no request is pending, so a posted request stays as it is until it is released |
| `Frames.FailsIff` | src/kernel/mm/pmm.c:106-138 | contiguous allocation fails if and only if nothing is asked for or no ascending run is that long |
| `Frames.RunIsSpan` | src/kernel/mm/pmm.c:119-124 | an ascending run of registered frames never wraps around 64 bits |
| `Frames.TakeRunMoves` | src/kernel/mm/pmm.c:126-134 | taking a run removes exactly its frames from the stack |
| `Frames.PutRunAppends` | src/libraries/Zapada.Drivers/zaclr_native_Zapada_Drivers_Hal_DriverHal.cpp:1083-1086 | giving back a buffer with room puts every frame back, none dropped |
| `Frames.AllocFrameKeeps` | src/kernel/mm/pmm.c:96-104 | a single frame moves from the stack to its holder |
| `Frames.FreeFrameKeeps` | src/kernel/mm/pmm.c:140-147 | a held frame goes back and is never dropped at the cap |
| `Frames.AllocBufferKeeps` | src/libraries/Zapada.Drivers/zaclr_native_Zapada_Drivers_Hal_DriverHal.cpp:1046-1066 | allocating a DMA buffer conserves every frame, also when the slot table is full |
| `Frames.FreeBufferKeeps` | src/libraries/Zapada.Drivers/zaclr_native_Zapada_Drivers_Hal_DriverHal.cpp:1075-1092 | freeing a DMA buffer conserves every frame |
| `Frames.BuffersApart` | src/libraries/Zapada.Drivers/zaclr_native_Zapada_Drivers_Hal_DriverHal.cpp:158-178 | no frame is in two DMA buffers |
| `Frames.EveryRun` | src/kernel/mm/pmm.c:96-147 | over every run the stack, the DMA buffers and the single holders share out exactly the registered frames |
| `FrameAnswers.TakeRunAnswers` | src/kernel/mm/pmm.c:106-138 | contiguous allocation takes exactly the first ascending run of that many frames and keeps the order of the rest |
| `FrameAnswers.AllocBufferAnswers` | src/libraries/Zapada.Drivers/zaclr_native_Zapada_Drivers_Hal_DriverHal.cpp:1037-1067 | when a DMA buffer is refused, exactly; otherwise the handle names the first empty slot, which holds the first run of the least number of frames that covers the size |
| `FrameAnswers.FreeBufferAnswers` | src/libraries/Zapada.Drivers/zaclr_native_Zapada_Drivers_Hal_DriverHal.cpp:1071-1093 | exactly a handle that names a slot in use is freed, and the slot is empty |
| `FrameAnswers.FreedRightAfter` | src/libraries/Zapada.Drivers/zaclr_native_Zapada_Drivers_Hal_DriverHal.cpp:1037-1093 | a buffer freed right after it was allocated leaves the slot empty and the same frames free |
| `FrameAllocator.RegisterAllAdds` | src/kernel/mm/pmm.c:71-93 | from disjoint regions distinct, aligned frames inside the regions and above the reserved area are registered |
| `FrameAllocator.RegisterMisses` | src/kernel/mm/pmm.c:84-89 | no whole frame of a range is left out unless the stack filled up |
| `FrameAllocator.RegisterAllMisses` | src/kernel/mm/pmm.c:71-93 | unless the stack filled up, every whole frame of an available region from 1 MiB and the reserved end on is registered |
| `FrameAllocator.BootMisses` | src/kernel/mm/pmm.c:40-94 | so is every frame that belongs neither to the first megabyte, nor to the kernel and its heap, nor to the reserved memory |
| `FrameAllocator.RangeMisses` | src/kernel/mm/pmm.c:168-200 | the same for a single range |
| `FrameAllocator.RespectsIff` | src/kernel/mm/pmm.c:62-90 | on every set of disjoint regions only frames of theirs and none of the kernel image, its heap and the reserved memory are registered, if and only if the end of the reserved memory does not wrap 64 bits and leaves a frame, or leaves nothing to register |
| `FrameAllocator.BootedRun` | src/kernel/mm/pmm.c:40-147 | the ownership law from boot on disjoint regions through any later run |
| `FrameAllocator.RangeAdds` | src/kernel/mm/pmm.c:168-200 | a single range registers distinct, aligned frames inside it and outside the kernel image, its heap and the reserved memory |
| `FrameAllocator.BootedRange` | src/kernel/mm/pmm.c:96-200 | the ownership law from boot on a single range through any later run |
| `FrameAllocator.Stack.ReserveUntil` | src/kernel/mm/pmm.c:33-38 | the reservation only grows |
| `FrameAllocator.Stack.PushRange` | src/kernel/mm/pmm.c:84-89 | the registration loop, with the 64-bit wrap of the frame address, on every range |
| `FrameAllocator.Stack.Init` | src/kernel/mm/pmm.c:40-94 | the stack holds exactly what the regions register, in 64-bit arithmetic |
| `FrameAllocator.Stack.InitRange` | src/kernel/mm/pmm.c:168-200 | the same for a single range |
| `FrameAllocator.Stack.AllocFrame` | src/kernel/mm/pmm.c:96-104 | pops the last frame, or nothing from an empty stack |
| `FrameAllocator.Stack.IsRun` | src/kernel/mm/pmm.c:116-124 | true if and only if the frames ascend |
| `FrameAllocator.Stack.AllocContiguous` | src/kernel/mm/pmm.c:106-138 | the search and the shift loop take the first run and keep the order of the rest |
| `FrameAllocator.Stack.Close` | src/kernel/mm/pmm.c:129-132 | the shift loop removes exactly the run |
| `FrameAllocator.Stack.FreeFrame` | src/kernel/mm/pmm.c:140-147 | pushes unless NULL or full |
| `FrameAllocator.Stack.GetFreeFrameCount` | src/kernel/mm/pmm.c:149-152 | the number of frames on the stack |
| `FrameAllocator.DmaTable.AllocBuffer` | src/libraries/Zapada.Drivers/zaclr_native_Zapada_Drivers_Hal_DriverHal.cpp:1037-1067 | size check, frames, first free slot or give-back, exactly the value-level step |
| `FrameAllocator.DmaTable.FreeBuffer` | src/libraries/Zapada.Drivers/zaclr_native_Zapada_Drivers_Hal_DriverHal.cpp:1071-1093 | gives back every frame and clears the slot, or refuses the handle |
| `Cpio.HexParses` | src/kernel/initramfs/cpio.c:33-59 | printing and parsing a number of up to eight hexadecimal digits, in either case, is the identity |
| `Cpio.NextReads` | src/kernel/initramfs/cpio.c:101-195 | reading where an entry was printed gives the entry and the place after it, or the end for the trailer |
| `Cpio.RoundTrip` | src/kernel/initramfs/cpio.c:101-195 | printing any files as a newc archive and iterating gives back the same entries in order, then the end |
| `CpioAnswers.DigitIff` | src/kernel/initramfs/cpio.c:33-59 | the sixteen digits, in either case |
| `CpioAnswers.ParseStep` | src/kernel/initramfs/cpio.c:33-59 | a number of digits is read digit by digit in 32 bits |
| `CpioAnswers.NextAnswers` | src/kernel/initramfs/cpio.c:101-195 | where name size, file size, name and contents of an entry stand, in numbers, and when an entry is the end or refused, exactly |
| `Lookup.ScanIs` | src/kernel/initramfs/cpio.c:197-238 | extraction finds the first entry of that name |
| `Lookup.CollectIs` | src/kernel/initramfs/ramdisk.c:34-94 | the table is the first 128 entries that are not empty |
| `Lookup.AgreeIff` | src/kernel/initramfs/ramdisk.c:66-88 | for the format: the first 128 non-empty entries and the scan agree on a name if and only if there is no such entry, or the first one is not empty and is among those 128 |
| `Lookup.FewFilesAgree` | src/kernel/initramfs/ramdisk.c:34-135 | for the format: with at most 128 non-empty files and no empty one of that name they agree on presence and bytes |
| `Lookup.ExtractPrinted` | src/kernel/initramfs/cpio.c:197-238 | extracting from a printed archive gives the contents of the first file of that name, or the right error |
| `Cpio32.ExactIff` | src/kernel/initramfs/cpio.c:101-195 | with sums modulo 2^32 the iterator reads what the format says if and only if no header stands there, one of the two bound tests fails on the sums of its numbers, or none of these sums wraps |
| `Cpio32.WellFormedSteady` | src/kernel/initramfs/cpio.c:101-195 | on a well-formed archive of at most 2^32 - 4 bytes it is exact all the way |
| `Cpio32.SearchIsScan` | src/kernel/initramfs/cpio.c:197-238 | where the iterator is exact, the search loop ends within one step for every 110 bytes and finds what the scan of the format finds |
| `Cpio32.LoadIsCollect` | src/kernel/initramfs/ramdisk.c:57-88 | the same for the indexing loop |
| `Cpio32.SearchPrinted` | src/kernel/initramfs/cpio.c:197-238 | searching a printed archive of that size gives the contents of the first file of that name, or the right error |
| `Cpio32.SearchSettles` | src/kernel/initramfs/cpio.c:212-237 | a search that ends does so with the same result whatever larger number of steps it is allowed |
| `Cpio32.LoadSettles` | src/kernel/initramfs/ramdisk.c:57-88 | the same for indexing |
| `Cpio32.LoopsAgreeIff` | src/kernel/initramfs/ramdisk.c:57-135 | the two loops of the code on a well-formed archive of at most 2^32 - 4 bytes: indexing succeeds, and table and search agree on a name if and only if there is no such entry, or the first one is not empty and is among the first 128 that are not |
| `Cpio32.LoopsAgree` | src/kernel/initramfs/ramdisk.c:57-135 | with at most 128 non-empty files and no empty one of that name, table and search of the code agree on presence and bytes |
| `Cpio32.EmptyFileMissing` | src/kernel/initramfs/ramdisk.c:72-74 | an archive of one empty file: the search returns it and the table does not have it |
| `Cpio32.EmptyFileLost` | src/kernel/initramfs/ramdisk.c:72-74 | one such archive, of 236 bytes |
| `Cpio32.WrapsBack` | src/kernel/initramfs/cpio.c:173-191 | a name that ends at 2^32 passes the bound test and sends the iterator back to the start, where the format refuses it |
| `Cpio32.FarNameNeverEnds` | src/kernel/initramfs/cpio.c:216-237 | one such archive on which the search loop runs forever |
| `ArchiveReader.ParseField` | src/kernel/initramfs/cpio.c:33-59 | the digit loop parses the field, or fails on any other character |
| `ArchiveReader.StrEqual` | src/kernel/initramfs/cpio.c:62-71 | zero exactly when the string at the pointer is the given one |
| `ArchiveReader.Iterator.Header` | src/kernel/initramfs/cpio.c:128-168 | the thirteen fields, or failure if one is no number |
| `ArchiveReader.Iterator.Next` | src/kernel/initramfs/cpio.c:101-195 | the entry at the position with the bound tests in 32-bit arithmetic, the position and the count |
| `ArchiveReader.ExtractFile` | src/kernel/initramfs/cpio.c:197-238 | status and destination bytes exactly as the search says, on every archive; nothing else is written |
| `ArchiveReader.SameName` | src/kernel/initramfs/ramdisk.c:112-124 | true exactly when the two strings are equal |
| `ArchiveReader.Ramdisk.InitFromArchive` | src/kernel/initramfs/ramdisk.c:34-94 | the table after indexing any archive, and that a corrupt archive or a second call leaves it alone |
| `ArchiveReader.Ramdisk.Lookup` | src/kernel/initramfs/ramdisk.c:97-135 | the first table entry of that name, or the error |
| `ArchiveReader.Ramdisk.GetFile` | src/kernel/initramfs/ramdisk.c:144-167 | the table entry of that index, or the error |

## Left out

- Inflating.Uncompress: destinations of 2^31 bytes and more, because the source casts remaining room to `int`.
- Gzip.GzipUncompress: destinations of 2^31 bytes and more, as for the stream inside.
- Gzip.Decompress: destinations of 2^31 bytes and more, as for the stream inside.
- HeapMachine.EveryRun: requests above 2^32 - 32 bytes and frees of pointers that are not live; what the first do is `HeapMachine.CarvedCovers` and `HeapMachine.WrappedTwice`.
- HeapMachine.AllocKeepsGood: requests above 2^32 - 32 bytes, as for every run.
- HeapMachine.AllocPinnedKeepsUse: unit counts whose 32-bit total wraps, as for every run.
- HeapMachine.CarvedCovers: requests that are served from a free list; from 2^36 bytes on the unit count itself wraps, as `HeapMachine.Units` says.
- HeapMachine.FreeKeepsGood: pointers that are not live, as for every run.
- HeapMachine.OverflowPop: requests so large that 20 n wraps 32 bits; for those the limit of the code is the wrapped one, as `HeapMachine.Limit` says.
- KernelHeap.KernelHeap.constructor: addresses from 2^63 on.
- KernelHeap.KernelHeap.ReserveUntil: addresses from 2^63 on, and calls before initialisation, which the source allows.
- KernelHeap.KernelHeap.AllocBump: unit counts whose 32-bit total wraps, as for every run.
- KernelHeap.KernelHeap.Allocate: requests above 2^32 - 32 bytes, as for every run.
- KernelHeap.KernelHeap.Release: pointers that are not live, as for every run.
- RunQueues.Scheduler.Enqueue: a thread whose priority was changed while it was queued; the source would then link it twice.
- ChannelPool.Pool.Suspend: register contents; the method ends where the switch happens, and the thread's next round is a step of its own.
- IpcRuns.EveryRun: destroying a channel that has waiters, and blocking outside IPC (`SYSCALL_SCHED_BLOCK`).
- IpcRuns.PreemptKeepsIff: no kernel path composes `sched_next` with a switch; `IpcRuns.PreemptStep` puts the two calls together, and the lemma is about that composition.
- HeapReuse.AllocChooses: requests above 2^32 - 32 bytes, as for every run.
- Scheduling: yield, sleep and set-priority are steps on values and have no method over `RunQueues`.
- IrqRouting.SubscriptionDelivers: 2^64 publications and more.
- IrqHub.BootedDelivers: other senders and subscriptions on the channel, 2^23 subscriptions and more, and 2^64 publications and more.
- NamedChannel.EveryInterleaving: several clients of one channel, a service that receives twice before it replies, and offsets beyond the array in a receive. Memory is sequentially consistent; in the source only the flags are volatile.
- NamedTimeout.TimeoutPairsIff: the same clients, services and memory.
- FrameAllocator.Stack.Init: parsing of the Multiboot2 tags that deliver the regions.
- FrameAllocator.RegisterAllAdds: regions that start less than 8192 or end less than 4097 bytes below 2^64; there the end test of the loop can wrap, as `FrameAllocator.Register` says.
- FrameAllocator.RegisterMisses: the same ranges.
- FrameAllocator.RegisterAllMisses: the same regions, and reserved memory that ends in the last frame.
- FrameAllocator.BootMisses: the same regions, and reserved memory whose end wraps.
- FrameAllocator.RangeMisses: the same ranges, and reserved memory whose end wraps.
- FrameAllocator.RespectsIff: the same regions.
- FrameAllocator.BootedRun: the same regions, and reserved memory that ends in the last frame.
- FrameAllocator.RangeAdds: the same ranges, and reserved memory whose end wraps.
- FrameAllocator.BootedRange: the same ranges, and reserved memory whose end wraps.
- ArchiveReader.StrEqual: a name without a zero byte that runs past the archive is taken to end there.
- ArchiveReader.Iterator.Next: file contents that would run past the archive are taken to end there; this needs a wrapped sum.
- ArchiveReader.ExtractFile: null pointers. The parameter `steps` bounds the entries read; the loop of the source has no bound and, by `Cpio32.FarNameNeverEnds`, need not end. A search that ends does not depend on `steps` (`Cpio32.SearchSettles`).
- ArchiveReader.Ramdisk.InitFromArchive: the same bound on the entries read (`Cpio32.LoadSettles`), and null pointers.
- Hardware access: consoles, timers, interrupt masking, the assembly context switch, PCI and MMIO, kernel stacks.
- Process table, system call dispatch, the CLR bindings other than the named channel and the DMA table, boot options.
- Named channel creation, opening and closing, which are table lookups by name.
- The RFC 1950 (zlib) wrapper named in the decompressor's header: the code has no such path.
- DMA reads and writes, which are bounds checks on a slot.
