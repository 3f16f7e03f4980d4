# System V commands: proofs about their algorithms

Several of the System V commands in this repository hold an algorithm of their
own, with an invariant that no line of the code states. This project models
them in Dafny, in the form the C code has (arrays, counters and loops are fields,
variables and loops here), and proves what they are for.

| files | command | subject |
|---|---|---|
| `BitStrings` `Kraft` `PrefixCodes` `Huffman` `Heap` `Forest` `Lengths` `Canon` `EndDeepest` `PackFormat` `Packer` `PackSize` | pack | the Huffman packer: heap, tree, optimal lengths, canonical code, header, bit packing |
| `Unpacker` `RoundTrip` `TooDeep` | unpack | the decoder, pack followed by unpack, and the shortest text that is refused |
| `Cylinders` `NewFreeList` | dcopy | the allocator that works from both ends, and the free list made of what it leaves |
| `FreeList` `Interleave` `BlockMap` | mkfs, df, du | the chunked free list, its interleaved order, block maps written by mkfs and read by dcopy |
| `InitTable` `Init` | init | the process table through signals, deaths, run levels and respawns |
| `Join` | join | the merge with seek-back against the nested loop |
| `FgrepQueue` `Fgrep` `Overflows` `Matching` `Selection` | fgrep | trie, failure links and their queue, matching; when it misses nothing |
| `Crypt` | crypt | the rotor machine |
| `Factor` | factor | the wheel |
| `Ncheck` | ncheck | the hash table |
| `Cpio` | cpio | ASCII headers, records, an archive there and back |
| `Permutations` | | numbers below n, each once |

`dafny verify dfyconfig.toml` checks everything.

## Findings

Properties that the code or its comments suggest and that do not hold as they
stand. Each is proved with the exact condition under which it does.

- pack, empty file: with -f an empty file is packed into 8 bytes that unpack
  takes for damaged. Every other file comes back (`RoundTrip.PackAndUnpack`).
- pack.c:260 says that more than 24 levels take 2^24 bytes. They take 196417,
  that is Fib(27) - 1, because END counts once and every byte twice
  (`Packing.Packer.Packfile`, `Huffman.OddWeight`), and there is a text of just
  that size which is refused, with -f as well (`TooDeep.RefuseDeep`). Whenever there are
  too many levels, and only then, pack has counted depths outside the 25 places
  of `levcount[]` before it looks (`Packing.Packer.AssignLengths`).
- pack.c:266 forgets END's codeword and a byte of the header, so the size that
  decides about `no saving` is one to four bytes too small (`PackSize.EstimateShort`),
  and a file may be stored that is up to three bytes longer packed (`PackSize.Saving`).
- dcopy.c:341-347 works if and only if the data area begins inside a cylinder
  and ends in another one. Where it begins with a cylinder, the first young file
  sends `alloc` round a cylinder with no block in range, for ever
  (`Cylinders.StartSound`, `Cylinders.StartFails`).
- dcopy.c:1143-1160, last chunk: the chunk that has been moved down leaves its
  pointer on a block number, so that one empty chunk more is written to the
  first block of it. The list is not harmed (`NewFreeList.ListDone`).
- mkfs.c:757-763 frees the last block of the file system if and only if the
  cylinder size does not divide its number (`Interleave.FreshList`).
- dcopy.c:819-893 returns -1 past the end of a file, not 0 (`BlockMap.MapReads`).
- init.c:1614-1633: efork() makes the child that sends SIGTERM before it looks
  for a slot, and killproc() calls it again when there was none. So a process
  is sent SIGTERM once if and only if the table has room
  (`Init.Init.Killproc`, `Init.FullTable`, `Init.SecondTerm`).
- fgrep.c:338-345, the queue: when a state is put while nobody waits and front
  and rear are at the last place of the array, rear gets behind the array, and
  what is put next is written there. It happens if and only if, for some m that
  leaves 399 when divided by 400, the first m + 1 states in breadth-first order
  are all that are known when the last of them is taken, and it has a letter,
  and the queue has not overflowed before (`Fgrep.Automaton.Cfail`, `Fgrep.Strays`): for a single keyword if and only if
  it has 400 letters or more (`Overflows.OneWord`, `Matching.Strayed`). With fewer
  than 400 states all is well (`Overflows.FewStates`).
- fgrep.c:347-354 tries one failure step only, so that a line with a keyword in
  it may be missed (`Matching.Missed`). With no empty keyword, none is if and only if none of the lines
  made of the beginning of a keyword and a keyword is (`Selection.MissesNone`);
  for keywords none of which lies inside another, if and only if every letter,
  short of a keyword, leads to the longest end that begins a keyword
  (`Selection.ApartMissesNone`). Both can be worked out from the keywords.
- cpio: a file named TRAILER!!! ends the archive for its reader (`Cpio.OutAndIn`).

## Model

| member | source | states |
|---|---|---|
| Kraft.MergeStep | att.rel.2/cmd/pack.c:230-242 | a lower bound on the cost of all codes for the weights with the two lightest merged is, with the merged weight added, a lower bound for the weights before: the step of Huffman's argument, over every code that fits the Kraft sum |
| Kraft.PairTops | att.rel.2/cmd/pack.c:230-242 | any code that fits can be changed, at no cost, to one with two codewords of one greatest length |
| Kraft.LightestDeepest | att.rel.2/cmd/pack.c:230-242 | ... and the two lightest weights may be the ones that have them |
| PrefixCodes.KraftInequality | att.rel.2/cmd/pack.c:273-285 | the codewords of every prefix code take up no more than the whole code space |
| PrefixCodes.PrefixCodeFits | att.rel.2/cmd/pack.c:273-285 | so every prefix code, whatever its words, is among the codes that `Optimal` compares with |
| Huffman.ItemsCost | att.rel.2/cmd/pack.c:230-258 | the bits a tree's code spends are the sum of all weights that were merged |
| Huffman.ItemsKraft | att.rel.2/cmd/pack.c:230-258 | a tree's code fills the code space exactly |
| Huffman.DepthsAreTreeDepths | att.rel.2/cmd/pack.c:250-252 | following `parent[]` up from a symbol counts its depth in the tree |
| Huffman.FibonacciWeight | att.rel.2/cmd/pack.c:226-258 | a tree of height h built by taking the two lightest weighs at least Fib(h + 2) |
| Huffman.OddWeight | att.rel.2/cmd/pack.c:211-258 | and where one leaf counts odd, as END does, and all others even, at least 2 * Fib(d + 2) - 1 with that leaf at depth d |
| Huffman.OddLeaf | att.rel.2/cmd/pack.c:211-258 | ... a leaf that is found by going down the odd weights |
| Heap.HoleFills | att.rel.2/cmd/pack.c:180-197 | filling the hole that sifting leaves restores the heap order |
| Heap.RootIsLightest | att.rel.2/cmd/pack.c:180-197 | no entry of a heap is lighter than the first |
| Forest.Merge | att.rel.2/cmd/pack.c:232-242 | merging the two lightest roots keeps the forest that `parent[]` and the heap describe: links lead up, roots are distinct, inner edges are those of the trees, nothing below a root is heavier than any root |
| Forest.MergeSums | att.rel.2/cmd/pack.c:232-242 | ... and keeps the bound on all codes for the weights of the symbols |
| Lengths.TreeLengthsOptimal | att.rel.2/cmd/pack.c:226-258 | the depths read off `parent[]` are optimal lengths, and meet the Kraft equality |
| Lengths.OptimalBeatsPrefixCodes | att.rel.2/cmd/pack.c:226-258 | no prefix code for the symbols that occur, END included, spends fewer bits than optimal lengths |
| Lengths.DepthCosts | att.rel.2/cmd/pack.c:231-257 | whatever the input, a symbol with a codeword of L bits forces a total count of Fib(L + 2) at least |
| Lengths.OddDepthCosts | att.rel.2/cmd/pack.c:211-257 | END with a codeword of L bits forces a total count of 2 * Fib(L + 2) - 1 at least |
| EndDeepest.LighterIsDeeper | att.rel.2/cmd/pack.c:211-258 | with optimal lengths a lighter symbol never has the shorter codeword |
| EndDeepest.EndDominates | att.rel.2/cmd/pack.c:211-257 | END, counted once where bytes are counted in twos, has a codeword of the greatest length: what the header silently relies on |
| EndDeepest.OptimalIsCanonical | att.rel.2/cmd/pack.c:211-257 | the lengths pack computes are the lengths of a canonical code, with a codeword for just the symbols that occur |
| Canon.TakenBound | att.rel.2/cmd/pack.c:273-285 | on no level is more of the code space taken than there is |
| Canon.DeepestPair | att.rel.2/cmd/pack.c:126-128 | on the deepest level there are two codewords at least, so that two can be taken off the count that is written |
| Canon.MaskNext | att.rel.2/cmd/pack.c:280-284 | `mask &= ~inc` never changes mask, and where one level ends the next one starts |
| Canon.RootIsInner | att.rel.2/cmd/pack.c:273-285 | all levels together use up the 24-bit code space without a gap |
| Canon.CodesPrefixFree | att.rel.2/cmd/pack.c:273-285 | no codeword begins another symbol's codeword |
| Canon.CanonicalOrder | att.rel.2/cmd/pack.c:273-285 | read as binary fractions the codewords are in the order of their lengths, the longest first, and those of one length in the order of the symbols |
| Canon.InnerStep | att.rel.2/cmd/unpack.c:127-132 | the inner nodes unpack counts level by level are those of the code |
| Canon.DescendWhole | att.rel.2/cmd/unpack.c:157-189 | reading a codeword bit by bit, from any stream, ends on the level and at the place of its symbol and uses up just the codeword |
| PackFormat.LevelBytesFit | att.rel.2/cmd/pack.c:124-128 | every level count written, two less on the last level, is from 0 to 255 |
| PackFormat.HeaderSize | att.rel.2/cmd/pack.c:115-135 | the header is 7 bytes, one for each level and one for each byte value that occurs |
| PackFormat.PackedSize | att.rel.2/cmd/pack.c:107-177 | a packed file is the header and, rounded up to bytes, the codewords of the text and of END |
| PackFormat.PackedBegins | att.rel.2/cmd/pack.c:115-124 | a packed file begins with the bytes 037 036 and the size of the text, most significant byte first |
| PackFormat.StreamFlush | att.rel.2/cmd/pack.c:160-168 | writing out a full block and moving the four bytes behind it to the front loses no bit of the stream, wherever in a byte it stands |
| PackFormat.StreamFirst | att.rel.2/cmd/pack.c:149-154 | or-ing the first byte of the shifted codeword into the unused bits of a byte appends its bits to the stream |
| Packing.Packer.Input | att.rel.2/cmd/pack.c:91-103 | every byte of the file is counted in twos; END's count is left alone |
| Packing.Packer.Heapify | att.rel.2/cmd/pack.c:180-197 | slots i to n are a heap if those behind i were, with the same entries |
| Packing.Packer.MakeHeap | att.rel.2/cmd/pack.c:227-228 | all slots are a heap, with the same entries |
| Packing.Packer.Gather | att.rel.2/cmd/pack.c:209-221 | the heap's slots list the occurring symbols; `diffbytes` and `insize` are their number less one and 2 * size + 1 |
| Packing.Packer.TakeLightest | att.rel.2/cmd/pack.c:233-237 | a lightest root leaves the heap, linked to the new node, and the rest is a heap |
| Packing.Packer.PutMerged | att.rel.2/cmd/pack.c:238-241 | the next lightest is linked too, and replaced by the tree that joins both |
| Packing.Packer.MergeTwo | att.rel.2/cmd/pack.c:232-242 | one round: one tree less, the same leaves, and all that holds of forest, heap and lower bound |
| Packing.Packer.BuildTree | att.rel.2/cmd/pack.c:230-243 | one tree is left, over all the symbols, whose links `parent[]` holds, and whose cost bounds that of every code |
| Packing.Packer.ReadDepth | att.rel.2/cmd/pack.c:250-252 | the number of links up to the root, which are fewer than 513 |
| Packing.Packer.AssignLengths | att.rel.2/cmd/pack.c:245-258 | `length[]` holds the depths, `levcount[]` how many there are of each up to 24, `maxlev` the greatest, and the result is the bits of the text; something is counted outside the 25 places of `levcount[]` if and only if `maxlev` is above 24 |
| Packing.Packer.AssignCodes | att.rel.2/cmd/pack.c:273-285 | `bits[]` holds the canonical codewords, left-aligned in 24 bits |
| Packing.Packer.PutMask | att.rel.2/cmd/pack.c:149-159 | the codeword is appended to the bits in `outbuff`, and nothing before it is disturbed |
| Packing.Packer.PutHeader | att.rel.2/cmd/pack.c:115-135 | the buffer starts with the header for size, lengths and levels, which fits into it |
| Packing.Packer.NextSymbol | att.rel.2/cmd/pack.c:141-148 | the symbols of the file one by one, across the blocks read, then END |
| Packing.Packer.Flush | att.rel.2/cmd/pack.c:160-168 | written and buffered bytes together are what they were |
| Packing.Packer.PutText | att.rel.2/cmd/pack.c:136-175 | header, codewords of the text, END's codeword and fewer than 8 zero bits are what is written, for texts of every length |
| Packing.Packer.Output | att.rel.2/cmd/pack.c:107-177 | the file written is the packed form of the input, and `outsize` its length |
| Packing.Packer.Packfile | att.rel.2/cmd/pack.c:200-288 | all outcomes: trivial; too many levels if and only if the greatest of the optimal lengths is above 24, which takes Fib(27) - 1 = 196417 bytes at least and always comes after counting outside `levcount[]`; no saving, never with -f and never when the packed file would be 512 bytes shorter than the file; or the packed file, without -f less than four bytes longer than the file at most |
| PackSize.TextLength | att.rel.2/cmd/pack.c:257 | the bits reckoned for the text are those it takes |
| PackSize.EstimateShort | att.rel.2/cmd/pack.c:266 | the size that is reckoned is one to four bytes less than the length of the packed file |
| PackSize.InBlocks | att.rel.2/cmd/pack.c:266-267 | n bytes go into k blocks if and only if n <= 512 * k |
| PackSize.LengthIs | att.rel.2/cmd/pack.c:107-177 | the length of a packed file |
| PackSize.Saving | att.rel.2/cmd/pack.c:266-271 | a file is worth storing without -f if and only if a multiple of 512 is less than its size and not less than the size reckoned; it is when the packed file is 512 bytes shorter, and only when the packed file is less than four bytes longer |
| Unpacking.DecodedSymbol | att.rel.2/cmd/unpack.c:157-189 | from tables of the code, the bits of one codeword yield its byte, or the end for END |
| Unpacking.DecodedText | att.rel.2/cmd/unpack.c:138-191 | the codewords of a text and of END yield the text, whatever bits follow |
| Unpacking.HeaderBytes | att.rel.2/cmd/unpack.c:78-116 | where in a packed file the decoder finds size, levels, counts and characters |
| Unpacking.TablesMade | att.rel.2/cmd/unpack.c:106-132 | what is rebuilt from the header alone are the tables of the code |
| Unpacking.Unpacker.Fill | att.rel.2/cmd/unpack.c:78-80 | a block of the file, short only at its end |
| Unpacking.Unpacker.GetDict | att.rel.2/cmd/unpack.c:68-133 | packed files get tables of their code; others are told apart by their first two bytes |
| Unpacking.Unpacker.DecodeOne | att.rel.2/cmd/unpack.c:161-188 | one bit: down one level, or a character, or the end, as the text that is still to come says |
| Unpacking.Unpacker.PutChar | att.rel.2/cmd/unpack.c:178-184 | the character joins what is written or buffered, and the size still expected goes down by one, modulo 2^32 |
| Unpacking.Unpacker.Decode | att.rel.2/cmd/unpack.c:138-191 | what is written is the text that the remaining bytes stand for, and is reported good only if it has the size the header gave |
| Unpacking.Unpacker.Unpack | att.rel.2/cmd/unpack.c:66-192 | a packed file gives back its text, of every size; the 8 bytes of an empty one give an error |
| RoundTrip.TrivialMeans | att.rel.2/cmd/pack.c:222-225 | what is refused as trivial are just the files of one byte value repeated |
| RoundTrip.PackAndUnpack | att.rel.2/cmd/pack.c:200-288 | what pack writes, which begins with its two bytes and the size, unpack turns back into the file if and only if the file is not empty; with -f every file under 196417 bytes is packed, except one byte repeated; without it nothing is stored that is four bytes longer |
| TooDeep.DeepPair | att.rel.2/cmd/pack.c:230-257 | in every optimal code the two lightest symbols have the greatest length |
| TooDeep.MergedOptimal | att.rel.2/cmd/pack.c:230-257 | merging them leaves an optimal code for the merged weights |
| TooDeep.MergedDeep | att.rel.2/cmd/pack.c:230-264 | in every optimal code for Fibonacci counts, k of them merged, the merged symbol has 25 - k bits |
| TooDeep.EveryCodeDeep | att.rel.2/cmd/pack.c:260-264 | for the text in which byte k occurs Fib(k + 1) times, k up to 24, every optimal code gives END 25 bits |
| TooDeep.RefuseDeep | att.rel.2/cmd/pack.c:200-264 | that text has 196417 bytes and is refused for too many levels, with -f or without |
| Cylinders.NextExists | att.rel.2/cmd/dcopy.c:738-744 | the search for a free slot in range ends if the cylinder has room |
| Cylinders.NextIsFirst | att.rel.2/cmd/dcopy.c:738-744 | ... and going round the cylinder from where it starts it passes over no free slot in range |
| Cylinders.MovedSound | att.rel.2/cmd/dcopy.c:704-728 | moving a full view to the neighbouring cylinder keeps what holds of both views |
| Cylinders.MovedKeeps | att.rel.2/cmd/dcopy.c:704-728 | ... and the set of blocks not yet handed out |
| Cylinders.TookSound | att.rel.2/cmd/dcopy.c:738-744 | handing out a slot keeps what holds of both views |
| Cylinders.TookKeeps | att.rel.2/cmd/dcopy.c:738-744 | ... and takes just this block, which was there, out of those not handed out |
| Cylinders.StartSound | att.rel.2/cmd/dcopy.c:341-347 | where the data area begins inside a cylinder and ends in another one, dcopy starts with all of it to hand out, young files on its first cylinder and old ones on its last |
| Cylinders.StartFails | att.rel.2/cmd/dcopy.c:341-347 | in all other cases `alloc` fails at once: its search never ends, or young and old files get the same block |
| Cylinders.Allocator.Search | att.rel.2/cmd/dcopy.c:737-744 | both loops end, at the slot found |
| Cylinders.Allocator.Advance | att.rel.2/cmd/dcopy.c:711-727 | a full view goes to the neighbouring cylinder, or gives way to the other |
| Cylinders.Allocator.NextCylinder | att.rel.2/cmd/dcopy.c:704-728 | the loop ends: with room on a cylinder, or when no block is left anywhere |
| Cylinders.Allocator.Alloc | att.rel.2/cmd/dcopy.c:692-762 | 0 if and only if no block is left, else a block that was left and now is not: young files get theirs at the low end and old ones at the high end; on a cylinder with room it is the first free one in range, going round, from the place behind the last block (contiguous files, and up to the block size) or `stepsize` places on; a new cylinder is the neighbouring one, and when that is the cylinder of the others its first free block |
| Cylinders.KeptMore | att.rel.2/cmd/dcopy.c:692-762 | while two blocks a cylinder apart are left, every block of a young file is below every one of an old file: so it is after one more call |
| Cylinders.MetNarrow | att.rel.2/cmd/dcopy.c:711-727 | the two ends have met only when what is left lies within one cylinder |
| Cylinders.AllocateAll | att.rel.2/cmd/dcopy.c:692-762 | over any sequence of calls for young and old, contiguous and other files, each data block is handed out once before 0 is, and at any moment when two blocks a cylinder apart are left all blocks of young files are below all those of old ones |
| FreeList.ChainFrame | att.rel.2/cmd/mkfs.c:578-590 | writing blocks that are not on the list leaves the list as it is |
| FreeList.ChainUnique | att.rel.2/cmd/mkfs.c:593-611 | superblock and chunks hold one list only |
| FreeList.Pushed | att.rel.2/cmd/mkfs.c:646-665 | one block more in front of the list, also where the full superblock goes out to a chunk |
| FreeList.FileSystem.Alloc | att.rel.2/cmd/mkfs.c:593-611 | the first block leaves the list; the program ends if and only if the list is empty |
| FreeList.FileSystem.Bfree | att.rel.2/cmd/mkfs.c:646-665 | the block is in front of the list; `s_tfree` counts it |
| FreeList.FileSystem.Write | att.rel.2/cmd/mkfs.c:578-590 | writing a block that has been taken keeps the list |
| FreeList.Reader.Alloc | att.rel.2/cmd/df.c:186-213 | df takes the list's first block, or none at its end or when it is out of range |
| FreeList.Reader.Count | att.rel.2/cmd/df.c:173-175 | `df -f` counts the blocks of the list |
| NewFreeList.CloseList | att.rel.2/cmd/dcopy.c:1142-1160 | a chunk that ends the list, written to the last block so far, ends it with its own blocks |
| NewFreeList.ChunkDone | att.rel.2/cmd/dcopy.c:1142-1163 | a full chunk goes on in the block it gives last |
| NewFreeList.ListDone | att.rel.2/cmd/dcopy.c:1142-1160 | the chunk that is moved down ends the list, for every number of blocks left; and what is written to its first block afterwards does no harm |
| NewFreeList.NewFileSystem.MoveDown | att.rel.2/cmd/dcopy.c:1147-1150 | the entries at the top are those at 1 and up, in place |
| NewFreeList.NewFileSystem.PutChunk | att.rel.2/cmd/dcopy.c:1142-1158 | the chunk is in the superblock or its block |
| NewFreeList.NewFileSystem.Freelist | att.rel.2/cmd/dcopy.c:1107-1166 | the list yields all the blocks that were left, in the order in which `alloc` gave them as to a young file, and `s_tfree` is its length |
| NewFreeList.CopyAndCount | att.rel.2/cmd/dcopy.c:1107-1166 | after a whole copy every data block is used or free and none is both; df sees the free ones in the order in which `alloc` gave them after those of the files, and as many as the superblock says; used by young files or free, they are below those of the old files until the two ends meet |
| Interleave.SlotsPermutation | att.rel.2/cmd/mkfs.c:730-739 | for every gap and cylinder size the order has each slot once |
| Interleave.ProbeFinds | att.rel.2/cmd/mkfs.c:734-735 | the search for a free slot ends |
| Interleave.OrderGap | att.rel.2/cmd/mkfs.c:730-739 | `adr[]` begins with 1, and each next one is `f_m` further round the cylinder, or the first behind that which had no turn yet |
| Interleave.OrderIsPermutation | att.rel.2/cmd/mkfs.c:730-739 | `adr[]` is a permutation of 1 to `f_n` |
| Interleave.MakeOrder | att.rel.2/cmd/mkfs.c:730-739 | the loops fill `adr[]` with this order |
| Interleave.LaidHolds | att.rel.2/cmd/mkfs.c:757-775 | every block of the range on the cylinders up to the top is freed once |
| Interleave.Bflist | att.rel.2/cmd/mkfs.c:755-775 | the list of an empty file system is laid cylinder by cylinder, and `s_tfree` is its length |
| Interleave.FreshList | att.rel.2/cmd/mkfs.c:755-775 | it has each block from `s_isize` on once, and lacks the very last one if and only if the cylinder size divides that block's number |
| Interleave.FreshOrder | att.rel.2/cmd/mkfs.c:764-775 | blocks are taken cylinder by cylinder from the lowest up, and on a cylinder in the order of `adr[]`, its last entry first |
| BlockMap.Bmap | att.rel.2/cmd/dcopy.c:819-893 | the block at this place of the direct, single, double or triple indirect map, -1 where there is none |
| BlockMap.MapReads | att.rel.2/cmd/mkfs.c:814-853 | in the map that mkfs makes block k is the k-th block of the file, and there is none after the last |
| BlockMap.MapOfReads | att.rel.2/cmd/dcopy.c:819-893 | in a map of any size, up to a full triple indirect block and with holes, it is the block of the file with this number, and -1 for a hole, past the end and beyond that size |
| BlockMap.PutChunks | att.rel.2/cmd/mkfs.c:834-842 | each indirect block holds the next 128 blocks, though all are moved down in one buffer |
| BlockMap.Iput | att.rel.2/cmd/mkfs.c:814-853 | the inode maps the blocks that were in `ib`; it takes its indirect blocks off the free list, and ends the program if and only if there are too few |
| BlockMap.DuAgrees | att.rel.2/cmd/du.c:191-204 | du's formula gives the file's blocks and the indirect blocks that mkfs takes for them, up to a full double indirect block |
| BlockMap.PutAndGet | att.rel.2/cmd/mkfs.c:814-853 | what mkfs puts into a map, dcopy's `bmap` finds there, block by block, and nothing else |
| InitTable.OneProcessPerId | att.rel.2/cmd/init.c:1234-1267 | two processes alive do not run the same inittab entry |
| InitTable.OneTerm | att.rel.2/cmd/init.c:1614-1633 | a process is sent SIGTERM once, unless killproc() has found the table full |
| InitTable.SeriesLimit | att.rel.2/cmd/init.c:1126-1166 | between two resets of a slot its command is started 11 times at most |
| InitTable.ReapSound | att.rel.2/cmd/init.c:1873-1913 | waiting for a dead child keeps all this |
| InitTable.ForkSound | att.rel.2/cmd/init.c:2084-2170 | so does a new process |
| InitTable.PlaceSound | att.rel.2/cmd/init.c:2131-2151 | so does entering it in a slot of no living process |
| InitTable.NameSound | att.rel.2/cmd/init.c:1217-1222 | so does giving the slot an id that no other slot has |
| InitTable.TermSound | att.rel.2/cmd/init.c:888-900 | so does sending SIGTERM to a process that is not marked as killed |
| InitTable.FreeSound | att.rel.2/cmd/init.c:964-970 | so does freeing the slot of a dead process |
| Init.Init.ChildDeath | att.rel.2/cmd/init.c:1873-1913 | a signal handler run at any moment: only the dead child's slot changes, and all that always holds still does |
| Init.Init.LevelSignal | att.rel.2/cmd/init.c:1825-1854 | the same for a change of level: all times and counts start anew |
| Init.Init.Efork | att.rel.2/cmd/init.c:2084-2170 | the new process is in the slot, or no slot is free and this is reported although the process has been made |
| Init.Init.Killproc | att.rel.2/cmd/init.c:1614-1633 | the process is sent one SIGTERM and one more for each time there was no room, also while init is waiting still; when it is done that is just one if and only if the table had room for the child that does it |
| Init.LaunchesRun | att.rel.2/cmd/init.c:1175-1223 | the table and the processes after n ONCE entries have been started one by one from where init begins: all that always holds, n slots taken, no SIGTERM sent |
| Init.FullTable | att.rel.2/cmd/init.c:2102-2141 | a hundred of them are a table without room, of living processes of inittab that have not been killed |
| Init.Init.KillTwice | att.rel.2/cmd/init.c:1614-1633 | with a table without room the second child of killproc() makes two SIGTERMs for one process |
| Init.SecondTerm | att.rel.2/cmd/init.c:1614-1633 | so it is for each of the hundred |
| Init.Init.Condemn | att.rel.2/cmd/init.c:870-902 | SIGTERM goes to a process that has had none, and its slot is marked |
| Init.Init.CheckEntry | att.rel.2/cmd/init.c:850-915 | one entry more has been held against the table |
| Init.Init.Remove | att.rel.2/cmd/init.c:826-973 | every living process of an entry is touched or killed afterwards; it is killed unless all entries of its id let it live, and none of those is sent a signal |
| Init.LivesOn | att.rel.2/cmd/init.c:850-915 | who may live: a process whose id has entries, none of them `off`, all of its level or else started on demand, and not in single user |
| Init.Init.FindSlot | att.rel.2/cmd/init.c:1234-1267 | the slot that has the id already, else an empty one that is cleared, else none; slots in use are left alone |
| Init.Init.Throttle | att.rel.2/cmd/init.c:1126-1166 | a command is held back just when it was started 11 times in its series and is asked for within 120 seconds of the time of the series, or within 420 when it has been held back already; a series begins with the first start and after 11 |
| Init.Init.Respawn | att.rel.2/cmd/init.c:1091-1225 | a process is started under the id, in a slot no other has, with the marks its entry and level call for; only a `respawn` entry is held back, and just when it has had 11 starts and the 120 or 420 seconds are not over |
| Init.WhatIsCalledFor | att.rel.2/cmd/init.c:1017-1066 | which action is called for in which mode and at which level, action by action |
| Init.WhatIsDue | att.rel.2/cmd/init.c:1017-1066 | an entry is due if and only if it is called for and its process is in a slot and dead, or has no slot and one is free |
| Init.FirstStart | att.rel.2/cmd/init.c:1017-1081 | a due `respawn` entry without a slot is started when there is room, and so is one that died with fewer than 11 starts |
| Init.Init.SpawnEntry | att.rel.2/cmd/init.c:1017-1081 | an entry is started if and only if it is due by level, mode and what the table says of its process, and a slot is free; only a `respawn` entry may be held back, after 11 starts; a `wait` entry has died when the next one is looked at |
| Init.Init.Spawn | att.rel.2/cmd/init.c:983-1082 | so it is for every entry of inittab in turn; nothing else is started, and no SIGTERM is sent |
| Init.BackAgain | att.rel.2/cmd/init.c:607-713 | after its one pass at level a, b or c, and after one for a power failure or for booting, init is back at the level it was, and its `once` and `wait` entries do not start again; after a change to a level from 0 to 6 the level before is another one |
| Init.Init.NewLevel | att.rel.2/cmd/init.c:676-713 | the new level and those to come back to |
| Init.Init.NextWork | att.rel.2/cmd/init.c:607-722 | which pass comes next; init pauses only when none is due, and then goes to the last level that was asked for and to power failure mode if the power has failed, if and only if there was such a signal |
| Init.Init.Single | att.rel.2/cmd/init.c:730-816 | single user ends at a level from 0 to 6, with the old one as the level before; no entry is started and no SIGTERM sent |
| Init.Init.Waitproc | att.rel.2/cmd/init.c:2182-2199 | the slot is free when the process is reported dead |
| Init.Init.OnePass | att.rel.2/cmd/init.c:577-592 | one pass: outside levels a, b and c, in normal mode, whom inittab does not let live has been killed; then every entry has been looked at, or init is waiting |
| Init.Init.Run | att.rel.2/cmd/init.c:574-724 | over whole runs, with signals, deaths, levels and inittabs as they come: an id has one slot and one living process at most, and no process is sent SIGTERM twice unless the table was full; each pass has killed whom inittab does not let live and has looked at every entry, or init waits: for a process, a slot, single user or the next signal |
| Join.StrcmpEqual | att.rel.2/cmd/join.c:229-233 | strcmp() tells keys apart, and is negative if and only if, where they first differ, the first key has ended or has the smaller character |
| Join.File.Input | att.rel.2/cmd/join.c:155-182 | the lines of a file one by one; 0 at the end leaves the position there |
| Join.FirstRow | att.rel.2/cmd/join.c:127-131 | the first line of a group is paired with all lines of file 2 that have its key |
| Join.OtherRows | att.rel.2/cmd/join.c:132-149 | each other line of the group is, by seeking back, paired with the same lines, and then the group is left |
| Join.JoinGroup | att.rel.2/cmd/join.c:126-150 | many lines to many: all pairs of a group |
| Join.Merge | att.rel.2/cmd/join.c:118-151 | the loops end for all files; for sorted ones the output is the nested-loop join in the order of file 1, and with -a each unpairable line is there once, in order |
| Join.JoinedPairs | att.rel.2/cmd/join.c:118-151 | two lines are paired as often as they occur, each with each, if and only if their keys are equal |
| Join.JoinedAlone | att.rel.2/cmd/join.c:118-151 | with -a a line is printed alone as often as it occurs if and only if the other file has no line with its key |
| Join.JoinedOrder | att.rel.2/cmd/join.c:118-151 | the pairs are in the order of file 1 and, for one line of it, of file 2; the keys printed ascend |
| Fgrep.SpellsExactly | att.rel.2/cmd/fgrep.c:249-310 | the trie accepts a string if and only if it is one of the words |
| Fgrep.WordIsMatch | att.rel.2/cmd/fgrep.c:162-186 | a line that begins with a word of the trie is selected |
| Fgrep.GotoName | att.rel.2/cmd/fgrep.c:162-186 | the state reached has read an end of what the line had so far |
| Fgrep.MatchIsWord | att.rel.2/cmd/fgrep.c:162-186 | a line that is selected holds a word |
| Fgrep.SelectedLines | att.rel.2/cmd/fgrep.c:150-230 | the lines selected are lines of the text, in order, and just those the automaton matches |
| Fgrep.SelectedCount | att.rel.2/cmd/fgrep.c:150-230 | ... each as often as it occurs |
| Fgrep.LinesJoin | att.rel.2/cmd/fgrep.c:162-230 | the lines of a text are the text, cut behind every newline |
| Fgrep.WordsJoin | att.rel.2/cmd/fgrep.c:249-314 | the keywords are the pattern, cut at every newline |
| Fgrep.Automaton.Search | att.rel.2/cmd/fgrep.c:278-290 | the node for the letter, or where it is to be put |
| Fgrep.Automaton.Cgotofn | att.rel.2/cmd/fgrep.c:249-310 | the words go into the trie unless they need more nodes than it has; the accepting states spell exactly the keywords of the text: all that end in a newline, and a last one that does not, unless it begins another |
| Fgrep.HeadIs | att.rel.2/cmd/fgrep.c:278-300 | the nodes of a state have one first node, and one string |
| Fgrep.LinkOrder | att.rel.2/cmd/fgrep.c:278-290 | following the links from a node of a state passes over no other of its nodes |
| Fgrep.GoingOn | att.rel.2/cmd/fgrep.c:337-357 | dealing with one letter keeps the links of all states met before, and their marks |
| FgrepQueue.Pop | att.rel.2/cmd/fgrep.c:333-336 | the first of those waiting in the circular array, with front on the next place |
| FgrepQueue.Push | att.rel.2/cmd/fgrep.c:338-345 | one more waits behind the others; there is no place for the 400th; and a place taken at the end of the array when nobody waits leaves rear behind the array, where the next push writes |
| Fgrep.LevelsOpen | att.rel.2/cmd/fgrep.c:332-336 | what waits goes through the states in the order of their depth |
| Fgrep.LinksDone | att.rel.2/cmd/fgrep.c:332-358 | when nobody waits every state has been dealt with |
| Fgrep.TurnPushes | att.rel.2/cmd/fgrep.c:338-345 | with the states in breadth-first order, when the push finds a place, when none, and when it writes behind the array |
| Fgrep.FaresOnce | att.rel.2/cmd/fgrep.c:317-345 | for each trie just one of the three ends of cfail() is the right one |
| Fgrep.Automaton.RunOut | att.rel.2/cmd/fgrep.c:332-345 | with rear behind the array the loop takes states it has taken before until one of them has a letter, and then writes there |
| Fgrep.Automaton.SetFails | att.rel.2/cmd/fgrep.c:349-351 | all nodes of the state, and no others, fail there, and accept if that state does |
| Fgrep.Automaton.FailTo | att.rel.2/cmd/fgrep.c:346-354 | the state behind a letter fails where that letter leads from its state's own failure state, by one step; it is left alone if it leads nowhere |
| Fgrep.Automaton.Cfail | att.rel.2/cmd/fgrep.c:316-359 | how it ends is decided by the trie: too large, outside its queue, or done; and then every state fails where one step leads, at the root if nowhere; it accepts if it did or its failure state does; each link leads to a proper end of the string; the trie itself is not changed |
| Overflows.OrderSize | att.rel.2/cmd/fgrep.c:317-345 | breadth-first no state comes twice |
| Overflows.FewStates | att.rel.2/cmd/fgrep.c:317-345 | with fewer than 400 states the queue has room |
| Overflows.WordOrder | att.rel.2/cmd/fgrep.c:317-345 | the states of a single keyword come one by one, as its letters do |
| Overflows.OneWord | att.rel.2/cmd/fgrep.c:317-345 | for a single keyword the queue has room if and only if it is shorter than 400 letters; otherwise cfail() writes behind it |
| Fgrep.Automaton.NextState | att.rel.2/cmd/fgrep.c:162-185 | the search over links and failure links ends, in the automaton's next state |
| Fgrep.Automaton.Execute | att.rel.2/cmd/fgrep.c:150-230 | the lines selected are those the automaton matches |
| Matching.LongestStep | att.rel.2/cmd/fgrep.c:162-185 | the longest end of a text that begins a keyword depends on such an end of the text before, and the last letter |
| Matching.FailIs | att.rel.2/cmd/fgrep.c:316-359 | for regular keywords (`Matching.Regular`) every state fails at the longest proper end of its string that is a state |
| Matching.GotoAt | att.rel.2/cmd/fgrep.c:162-185 | ... and the state reached is that of the longest end of what has been read |
| Matching.OutAt | att.rel.2/cmd/fgrep.c:349-351 | ... and accepts if an end of its string is a keyword |
| Matching.MatchAll | att.rel.2/cmd/fgrep.c:162-186 | ... so that a line with a keyword anywhere in it is recognised |
| Matching.RoomToFail | att.rel.2/cmd/fgrep.c:249-359 | by the pattern: fewer than 399 characters, or a single keyword of fewer than 400, have room |
| Matching.Build | att.rel.2/cmd/fgrep.c:249-359 | all that holds of trie and links together, and when they cannot be made |
| Matching.Missed | att.rel.2/cmd/fgrep.c:347-354 | for the keyword aabaaax the line aabaaabaaax is not selected |
| Matching.Strayed | att.rel.2/cmd/fgrep.c:338-345 | for a keyword of 400 letters cfail() writes behind its queue |
| Selection.FallsAt | att.rel.2/cmd/fgrep.c:346-354 | where each state fails, for all keywords, told by the keywords |
| Selection.GoesAt | att.rel.2/cmd/fgrep.c:162-185 | ... where each letter leads |
| Selection.OutsAt | att.rel.2/cmd/fgrep.c:349-351 | ... which states accept |
| Selection.HearsAt | att.rel.2/cmd/fgrep.c:150-186 | ... and which lines are recognised |
| Selection.MissesNone | att.rel.2/cmd/fgrep.c:150-359 | for every set of keywords: no line that holds one is missed if and only if each keyword is recognised behind each beginning of a keyword, which are finitely many lines |
| Selection.OneLine | att.rel.2/cmd/fgrep.c:150-186 | these are texts of one line |
| Selection.Missing | att.rel.2/cmd/fgrep.c:346-354 | where a letter leads astray, short of a keyword, there is a line that is missed |
| Selection.ApartMissesNone | att.rel.2/cmd/fgrep.c:150-359 | for keywords none of which lies inside another: no line is missed if and only if, short of a keyword, every letter leads to the longest end that begins one |
| Selection.FgrepLines | att.rel.2/cmd/fgrep.c:150-359 | what is selected are the lines that the keywords say, in order, each with a keyword in it; lines that begin with a keyword are; for regular keywords a line is if and only if it holds one; all that for fewer than 399 characters, and for a single keyword if and only if it has fewer than 400 letters |
| Crypt.SwapPermutation | att.rel.2/cmd/crypt.c:48-50 | exchanging two entries keeps t1 a permutation |
| Crypt.InverseMade | att.rel.2/cmd/crypt.c:57-58 | t2 undoes t1, and t1 undoes t2 |
| Crypt.Another | att.rel.2/cmd/crypt.c:51-53 | whoever has no partner finds one below: the search ends, and k is not 0 when it divides |
| Crypt.PairOff | att.rel.2/cmd/crypt.c:54-55 | a pair more, and those without a partner are still an even number |
| Crypt.TurnTwice | att.rel.2/cmd/crypt.c:138 | the machine undoes itself letter by letter, and changes every letter |
| Crypt.MachineTwice | att.rel.2/cmd/crypt.c:134-145 | any text encrypted twice is itself again, and no byte of it stays what it was |
| Crypt.BlockIsStream | att.rel.2/cmd/crypt.c:109-127 | a block encrypted from its offset on is the same part of the encrypted stream |
| Crypt.TopByte | att.rel.2/cmd/crypt.c:45-50 | the first random byte is where t1 takes 255 to |
| Crypt.Crypt.Setup | att.rel.2/cmd/crypt.c:38-58 | for all random bytes: t1 a permutation, the product of the exchanges that the random bytes name; t2 its inverse; t3 an exchange of all bytes in pairs, in which who has a partner below got the first one free from the place on that its random byte names |
| Crypt.MachineIs | att.rel.2/cmd/crypt.c:134-145 | byte i goes through t1, t3 and back through t2, with the rotors at i mod 256 and at i / 256 mod 256 |
| Crypt.Crypt.Encrypt | att.rel.2/cmd/crypt.c:107-146 | the loop with its two counters computes the machine's text at every offset |
| Crypt.EncryptTwice | att.rel.2/cmd/crypt.c:38-146 | built from any random bytes, the machine restores a text it has encrypted |
| Factor.WheelTurns | att.rel.2/cmd/factor.c:21-28 | the 48 steps go from 1 to 211 over all numbers coprime to 210 and no others |
| Factor.WheelNext | att.rel.2/cmd/factor.c:73-74 | so in every round: nothing between two numbers tried is coprime to 210 |
| Factor.Divided | att.rel.2/cmd/factor.c:77-79 | a number without smaller divisors that divides is a prime factor |
| Factor.RestIsPrime | att.rel.2/cmd/factor.c:72-87 | what is left above the square root is prime |
| Factor.Factor.Try | att.rel.2/cmd/factor.c:92-105 | the number is divided out |
| Factor.Factor.Factorize | att.rel.2/cmd/factor.c:66-87 | for every n from 1 on the factors printed are prime, in order, and multiply to n |
| Ncheck.Absent | att.rel.2/cmd/ncheck.c:367-374 | an empty slot met by the search proves that the i-number is nowhere |
| Ncheck.Inserted | att.rel.2/cmd/ncheck.c:375-381 | an entry in that slot keeps all searches sound |
| Ncheck.Table.Lookup | att.rel.2/cmd/ncheck.c:361-381 | the probe ends; the entry is found if and only if it was entered, or is entered now if that is asked for; no other entry moves; the program ends when all slots but one are taken |
| Ncheck.Session | att.rel.2/cmd/ncheck.c:361-381 | over any sequence of lookups on a zeroed table, with names written into the entries found, each answers as a finite set would |
| Cpio.ScanPrint | att.rel.2/cmd/cpio.c:548-565 | what the ASCII header's format prints, its scan reads |
| Cpio.HeaderBack | att.rel.2/cmd/cpio.c:548-565 | a header of 16- and 32-bit fields is 76 characters and comes back from them |
| Cpio.OctalDigit | att.rel.2/cmd/cpio.c:548-555 | each column of a number holds the octal digit of its place |
| Cpio.MemberColumns | att.rel.2/cmd/cpio.c:548-555 | the header has the magic number 070707 and each field in its columns |
| Cpio.MemberText | att.rel.2/cmd/cpio.c:310-325 | behind it come the name, a null character and the data |
| Cpio.ExtractMember | att.rel.2/cmd/cpio.c:346-378 | a file as written is read back: header, name and data; if it has the trailer's name reading ends instead |
| Cpio.ExtractArchive | att.rel.2/cmd/cpio.c:346-378 | an archive gives back its files up to the first with the trailer's name, whatever follows it |
| Cpio.BeforeFirst | att.rel.2/cmd/cpio.c:587-588 | those in front of that one, in order |
| Cpio.BeforeAll | att.rel.2/cmd/cpio.c:587-588 | that is all of them if and only if none is named TRAILER!!! |
| Cpio.Writer.Put | att.rel.2/cmd/cpio.c:897-910 | a record goes out only when the next character has no room |
| Cpio.Writer.Writehdr | att.rel.2/cmd/cpio.c:891-912 | the characters are appended to the stream across records |
| Cpio.Writer.Pad | att.rel.2/cmd/cpio.c:343 | a record's worth of characters, taken from the buffer being filled, sends out all that was in it and less than one record more |
| Cpio.Writer.CopyOut | att.rel.2/cmd/cpio.c:280-344 | the tape holds the whole archive and less than one record after it |
| Cpio.Reader.Fill | att.rel.2/cmd/cpio.c:847-860 | a record is read in however many pieces; there is none if and only if less than one is left |
| Cpio.Reader.Readhdr | att.rel.2/cmd/cpio.c:836-865 | the next characters of the tape, across records |
| Cpio.Reader.Gethdr | att.rel.2/cmd/cpio.c:567-588 | a header and name, the trailer, or why there is neither |
| Cpio.Reader.CopyIn | att.rel.2/cmd/cpio.c:346-378 | the files of the stream, and how it ended |
| Cpio.OutAndIn | att.rel.2/cmd/cpio.c:280-378 | with any record size the files come back as they went out and reading ends at the trailer, if and only if none has its name |

## Left out

- `comm.c`, `dd.c`, `cal.c`, `pg.c`: a three-way merge, record reblocking, calendar arithmetic and a line index, which are easier than what is here.
- Packing.Packer.AssignLengths: what C overwrites when it counts a depth outside `levcount[]`.
- Packing.Packer.Packfile: counts and sizes are unbounded; in C a file of 2^30 bytes or more overruns `long`. Errors of reading and writing are not modelled.
- Unpacking.Unpacker.Unpack: the older format is recognised and then left to expand(), which is not modelled; a header of no full code, which leads C outside its tables, ends in a result of its own (`Wild`). BUFSIZ is 512 at least.
- Cylinders.Allocator.Alloc: `a_nalloc` is unbounded. The debugging print-outs are left out.
- Cylinders.AllocateAll: requires the condition of `Cylinders.StartSound`; `Cylinders.StartFails` says what happens otherwise.
- NewFreeList.NewFileSystem.Freelist: the superblock fields that are copied or cleared and have nothing to do with the list (dcopy.c:1115-1131).
- FreeList.FileSystem.Bfree: requires that the block is not free yet, as the callers see to.
- Interleave.Bflist: badblk() finds no bad block, as in mkfs.c; `f_n` is not 0.
- BlockMap.Bmap: the reading side only, and getindir()'s buffers are not modelled: an indirect block is looked up on the disk, and a block that holds no addresses counts as one of zeros.
- BlockMap.Iput: as in the code, of a file beyond double indirect blocks the rest is lost; blocks have 512 bytes, so that 128 addresses fit in one. The other fields of the inode are not modelled.
- Init.Init.Run: signals come at pauses, at forks and between any two looks at the table; reading of /etc/ioctl.syscon, initialize(), accounting and what happens on the terminal are left out, and so is the memory of earlier levels in the table. A wait that never ends cuts the run short. Actions taken by a child after fork() are SIGTERM or the command, nothing else.
- Init.Init.Killproc: the child sends SIGTERM at the moment of the fork, to the process in the slot; in C it does so some time later, by process id, and sends SIGKILL after TWARN seconds. Setting bits of p_flags is one step, with no signal inside.
- InitTable.SeriesLimit: speaks of one slot between two resets; a slot that is freed or given away starts anew, as it does in the code.
- Init.Init.Efork: the search for an empty slot looks at proc_table[NPROC] before it tests the bound; the model tests first.
- Join.Merge: splitting lines into fields, -o, -e, -t and the form of the output; lines that are too long.
- Selection.FgrepLines: -x, -v, -i and the other options, the two-part input buffer, and null characters in either file. An empty keyword is not among those whose lines are all selected.
- Fgrep.Automaton.Cfail: what C does once it has written behind its queue.
- Crypt.Crypt.Setup: the key and the seed arithmetic that makes the random bytes; they are arbitrary here. Characters are numbers from 0 to 255, where C's may be signed.
- Factor.Factor.Factorize: exact integers for C's doubles, which are exact up to the limit of 1e14 that factor.c sets; the messages for other input.
- Ncheck.Table.Lookup: pname() and the reading of i-nodes and directories.
- Cpio.Writer.CopyOut: the binary headers, files that cannot be opened or read, the question for another tape, links, -p; the copies of a size or time in two shorts.
- Cpio.Reader.CopyIn: every file is wanted; headers that are not octal digits, or whose name has no end within 256 characters, are not followed (`Wild`).
