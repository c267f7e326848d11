# A verified model of the bundled LuaJIT core and MD5

This project models the parts of the repository with the most intricate state: the memory allocator, the DynASM
assembler, the register shuffle at the head of a side trace, the Lua pattern matcher, the bytecode writer and reader,
`table.sort`, the reference table of the auxiliary library, and the MD5 digest.

| files | subject |
|---|---|
| `Alloc*.dfy` | `lj_alloc.c`: `AllocSizes` and `AllocBits` sizes and bins, `AllocRing` and `AllocTrie` the tree bins, `AllocSearch` the best-fit search, `AllocSmall` the small bins, `AllocTile`, `AllocState`, `AllocRegion`, `AllocSegment`, `AllocFree`, `AllocRelease` what each operation does to the heap invariant, `AllocView` the whole state, `AllocClient` what its users may rely on, `AllocFrame` which words it leaves alone, `AllocDirect` chunks with a region of their own, `AllocHeap` the allocator as a class |
| `Dasm*.dfy` | `dasm_x86.h`: `DasmOps` actions and steps, `DasmLayout` sizes and relaxation, `DasmLabels` and `DasmRecord` label chains, `DasmCheck` the range and label checks, `DasmPass`, `DasmGlobals` and `DasmWalk` the passes, `DasmState` the assembler as a class |
| `RegShuffle.dfy` | the shuffle loop of `asm_head_side` in `lj_asm.c` |
| `Pattern*.dfy` | `lib_string.c`: `PatternSpec` what a pattern means, `PatternError` which patterns raise an error, `PatternMatch` the matcher, `PatternFind` searching |
| `Bc*.dfy` | `lj_bcwrite.c`, `lj_bcread.c`: `BcFormat` and `BcProto` the format, `BcStack` how a tree is rebuilt, `BcWrite` and `BcRead` writer and reader, `BcDump` both together |
| `TableSort.dfy` | `auxsort` in `lib_table.c` |
| `RefTable.dfy` | `luaL_ref` and `luaL_unref` in `lib_aux.c` |
| `Md5Spec.dfy`, `Md5.dfy` | RFC 1321 and `md5.c` |

## Main results

- **Allocator.** One invariant, `MState.Valid`, covers the tiling of every segment, boundary tags, feet, the small bins,
  the tries of the tree bins, dv, top, the segments and the chunks that are mapped directly. Creation establishes it and
  malloc, free and realloc keep it, on every path, trimming and the release of segments included, and for every answer of
  the system (`MState.Malloc`, `MState.Free`, `MState.Realloc`). It implies that live blocks are aligned, large enough and
  disjoint (`AllocView.BlocksSafe`, `AllocDirect.AllSafe`) and that no client write can break it
  (`AllocClient.ClientWritesOk`, `AllocDirect.DirectsAfterClients`). The other way round, no operation writes a word of
  its own, be it head, foot or link, that overlaps the payload of a block that stays live (`AllocFrame.KeptWrites`,
  `AllocFrame.KeptLinks`), and from this realloc keeps all bytes that it has to (`MState.Realloc`). Memory goes back to
  the system only where no block is (`AllocRelease.OnlyPinned`). The search of `tmalloc_large` finds what a naive scan finds
  (`MState.BestFit`).
- **DynASM.** A put is accepted exactly if each of its actions is, and every label reference then gets the label it means
  (`State.Put`). The passes agree on every size, for any number of sections: the final phase check cannot fail
  (`State.Encode`), shortened branches are in range (`DasmLayout.RelaxationSound`), and every branch in the finished code
  holds the distance to its label (`DasmPass.BranchBytes`).
- **Register shuffle.** The loop does every shuffle that can be done, and fails exactly on the others
  (`Assembler.Shuffle`).
- **Patterns.** The matcher with its mutable captures refines an ordered declarative semantics, and raises an error
  exactly when its attempts in that order come to a fault (`MatchState.Match`).
- **Bytecode.** What was dumped is loaded again, at any nesting depth and in blocks of any sizes
  (`BcRead.LexState.Read`, `BcDump.DumpAndLoad`).
- **Sorting, references, MD5.** `auxsort` permutes under any comparison and sorts under any strict weak order, in
  logarithmic depth; references are fresh as long as no free one is given back (`RefTable.UnrefFresh`); the digest is
  that of RFC 1321 for every way of feeding a message.

## What does not hold

- A size of 2^40 or more need not lie in the range of its tree bin, since it is cut to 32 bits when the bin is computed:
  `AllocSizes.BinRange` says exactly when it does, and `AllocSizes.BinRangeExample` gives a request that gets there.
- Bytes behind a dump are an error only if they have been fetched along with its end: `BcRead.LexState.Read` says
  exactly when they go unnoticed, and `BcDump.JunkAlone` gives such an input.
- Giving back a reference that is free already makes two values share a reference later on: `RefTable.UnrefFresh` says
  that these are exactly the cases, and `RefTable.FreedTwiceExample` gives the shortest run.
- A backward reference to a local label for which a forward reference is pending is a range error in `dasm_put`, even
  if the label has been defined before: `DasmCheck.LocalRefused` says exactly when such a reference is refused, and
  `DasmCheck.CrossingFails` gives a list of actions where it is.

## Model

| member | source | states |
|---|---|---|
| `AllocSizes.RequestFits` | luajit/src/lj_alloc.c:346-351 | the chunk for a request is aligned, holds the request and its overhead with less than one granule to spare, is small exactly for small requests, and does not wrap around below the request limit |
| `AllocSizes.SystemRequestFits` | luajit/src/lj_alloc.c:907-910 | the size asked of the system, computed modulo the word size, exceeds the chunk size if and only if nothing wrapped around, and then has room for chunk and segment footer |
| `AllocSizes.BinRange` | luajit/src/lj_alloc.c:527-553 | a size of at least 256 lies in the size range of the bin that is computed for it if and only if it is below 2^40 or its truncated 32-bit word still selects the last bin (the cast to 32 bits loses bits of larger sizes) |
| `AllocSizes.BinRangeExample` | luajit/src/lj_alloc.c:527-553 | a request of 2^40 - 8 bytes has a chunk size of 2^40, for which the lowest tree bin is computed although it does not lie in its range |
| `AllocBits.BinsOrdered` | luajit/src/lj_alloc.c:527-553 | a chunk of a lower tree bin is smaller than any chunk of a higher one |
| `AllocBits.FullPath` | luajit/src/lj_alloc.c:641-678 | two sizes of one bin with the same full bit path are the same size, so a same-size ring sits at each trie node |
| `AllocBits.LeftIsSmaller` | luajit/src/lj_alloc.c:545-548 | where the bit paths of two sizes of a bin part, the one to the left is smaller |
| `AllocHeap.MState.InsertLargeChunk` | luajit/src/lj_alloc.c:641-678 | exactly the one chunk is added, each tree bin stays a bitwise trie on size bits with consistent parents, children, rings and bin bits; ring links and tree links are written at that chunk and at chunks of the tree bins only |
| `AllocHeap.MState.UnlinkLargeChunk` | luajit/src/lj_alloc.c:680-724 | exactly the one chunk is removed and all tree bins stay valid, whether it is a ring member, a ring head, a leaf, or an inner node that a deep leaf replaces; links are written at that chunk and at chunks of the tree bins only |
| `AllocTrie.InsertLeaf` | luajit/src/lj_alloc.c:648-667 | hanging a new leaf at the first free place of its path keeps the trie and adds just that chunk |
| `AllocTrie.InsertBehind` | luajit/src/lj_alloc.c:668-675 | joining the ring of the node of equal size keeps the trie and adds just that chunk |
| `AllocTrie.UnlinkTail` | luajit/src/lj_alloc.c:683-687 | taking a chunk from behind its tree node keeps the trie and removes just that chunk |
| `AllocTrie.UnlinkHead` | luajit/src/lj_alloc.c:680-724 | taking a tree node with a ring lets the previous ring member succeed it in its place, with its parent and children |
| `AllocTrie.UnlinkLeaf` | luajit/src/lj_alloc.c:680-724 | taking a lone leaf clears the link from its parent, and the bin bit if it was the root |
| `AllocTrie.UnlinkInner` | luajit/src/lj_alloc.c:680-724 | taking a lone inner node lets any leaf below it move up with its ring, and all size paths stay right |
| `AllocTrie.FindMember` | luajit/src/lj_alloc.c:680-682 | a binned chunk has a parent link (or is marked as the root) exactly if it is the tree node of its ring |
| `AllocHeap.MState.BestFit` | luajit/src/lj_alloc.c:1042-1087 | the walk down the own bin, the deepest untaken right subtree and the next non-empty bin together find what a naive scan over all chunks finds: the least size that fits, or nothing if none fits |
| `AllocSearch.SettledIsLeast` | luajit/src/lj_alloc.c:1080-1087 | once the leftmost walk ends, the candidate is the least binned size that serves the request |
| `AllocSearch.BestFitOrDv` | luajit/src/lj_alloc.c:1089-1090 | the unsigned comparison with what dv would leave over is right even where the difference wraps around |
| `AllocHeap.MState.TmallocLarge` | luajit/src/lj_alloc.c:1042-1103 | null if and only if no chunk fits or dv fits at least as tightly; otherwise the chunk used is a best fit and the result a new block, with the heap invariant kept |
| `AllocHeap.MState.TmallocSmall` | luajit/src/lj_alloc.c:1106-1134 | the chunk that is split is the smallest of the tree bins, the result is a new block, the invariant is kept |
| `AllocHeap.MState.InsertSmallChunk` | luajit/src/lj_alloc.c:587-600 | exactly the one chunk is added to the bin of its size, with the bin bit agreeing |
| `AllocHeap.MState.UnlinkSmallChunk` | luajit/src/lj_alloc.c:602-613 | exactly the one chunk is removed from its small bin, and the bin bit is cleared just if the bin becomes empty |
| `AllocHeap.MState.Append` | luajit/src/lj_alloc.c:909-926 | a region right behind the current segment extends it and top; live blocks stay |
| `AllocHeap.MState.Prepend` | luajit/src/lj_alloc.c:814-844 | a region right in front of a segment supplies the block, and its rest joins the first chunk of the segment, be it top, dv, free or in use |
| `AllocHeap.MState.AddSegment` | luajit/src/lj_alloc.c:847-892 | a region elsewhere becomes a new segment, the old top is binned in front of fencepost chunks that hold the segment record, and live blocks stay |
| `AllocSegment.AddSegmentOk` | luajit/src/lj_alloc.c:847-892 | retiring top behind fenceposts keeps tiling, tags, free chunks, live blocks and segments, whatever the size of the old top |
| `AllocRegion.AppendOk` | luajit/src/lj_alloc.c:909-926 | extending top over an adjacent region keeps the whole heap invariant |
| `AllocRegion.PrependOk` | luajit/src/lj_alloc.c:814-821 | a region in front of a segment joins it as one more block |
| `AllocRegion.PrependTop` | luajit/src/lj_alloc.c:824-827 | the rest of a prepended region and the old top become one top |
| `AllocRegion.PrependDv` | luajit/src/lj_alloc.c:828-831 | the rest of a prepended region and the old dv become one dv |
| `AllocRegion.PrependRest` | luajit/src/lj_alloc.c:832-841 | the rest of a prepended region and a free first chunk become one free chunk |
| `AllocDirect.DirectRequestFits` | luajit/src/lj_alloc.c:738-741 | the size asked of the system for a direct chunk, computed modulo the word size, exceeds the chunk size if and only if nothing wrapped around, and then has room for the chunk, its marks and its fenceposts |
| `AllocHeap.MState.DirectAlloc` | luajit/src/lj_alloc.c:738-755 | a direct chunk in a region of its own, wherever the system puts it, is a new block; segments, bins and all payloads stay as they were; null only if the size wraps around or the system refuses |
| `AllocDirect.TellsDirect` | luajit/src/lj_alloc.c:393-394 | for live blocks of both kinds the test is_direct, which reads a flag and the word in front, is true exactly for the direct ones |
| `AllocDirect.AllSafe` | luajit/src/lj_alloc.c:738-755 | live blocks in segments and direct ones are aligned and pairwise disjoint |
| `AllocDirect.DirectsAfterClients` | luajit/src/lj_alloc.c:738-755 | whatever clients write into the payloads of direct chunks and of blocks, the marks of direct chunks and the heap invariant stay |
| `AllocHeap.MState.AllocSys` | luajit/src/lj_alloc.c:895-953 | a large request gets a region of its own, or if the system refuses that it goes to the segments like any other; new regions, at any address, keep the invariant; null only if the system has refused all that it was asked for, in this order, or nothing could be asked because the size wraps around |
| `AllocHeap.MState.constructor` | luajit/src/lj_alloc.c:1138-1160 | the first region starts out as a valid heap without live blocks |
| `AllocHeap.MState.Malloc` | luajit/src/lj_alloc.c:1174-1255 | the heap invariant is kept; a result is an aligned new block for the size requested, in a segment or mapped directly; no word that overlaps the payload of a live block is written; null writes nothing and means that the system refused or the request was too large for it; the system is asked only if neither dv nor top nor any bin has room |
| `AllocFree.NoRoomLarge` | luajit/src/lj_alloc.c:1174-1255 | when the tree search fails and dv and top are too small, no free chunk of the heap fits |
| `AllocFree.NoRoomSmall` | luajit/src/lj_alloc.c:1174-1255 | when the small and tree bin maps show nothing and dv and top are too small, no free chunk of the heap fits |
| `AllocHeap.MState.Free` | luajit/src/lj_alloc.c:1257-1326 | the heap invariant is kept, with coalescing, trimming and the release of segments; exactly the freed block, of either kind, is no longer live; no word that overlaps the payload of another live block is written; no segment reaches beyond those before |
| `AllocHeap.MState.FreeDirect` | luajit/src/lj_alloc.c:1264-1270 | a direct chunk is no longer live, and exactly its region has been offered to the system, which may take it or not |
| `AllocHeap.MState.MergeIntoTop` | luajit/src/lj_alloc.c:1285-1296 | the freed run and top become one top; top is trimmed if and only if it exceeds its limit |
| `AllocHeap.MState.Settle` | luajit/src/lj_alloc.c:1308-1325 | the freed chunk becomes dv or is binned; old segments are looked through just when the counter of large chunks runs out |
| `AllocHeap.MState.TrimTop` | luajit/src/lj_alloc.c:999-1026 | top gives back all whole pieces but one, unless a segment record is in the way or the system refuses; the invariant is kept |
| `AllocHeap.MState.Trim` | luajit/src/lj_alloc.c:999-1036 | it tells whether anything went back; old segments without blocks are left only where the system refused them; trimming is turned off if nothing could be done |
| `AllocHeap.MState.ReleaseSegment` | luajit/src/lj_alloc.c:964-988 | an old segment is offered to the system if and only if its first chunk is free and takes up all but its tail; if it is refused all is as before but for the place of that chunk |
| `AllocHeap.MState.ReleaseUnused` | luajit/src/lj_alloc.c:957-997 | each old segment that is left holds a block or was refused, and each that is gone was free and was taken back |
| `AllocRelease.OnlyPinned` | luajit/src/lj_alloc.c:971-972 | if the first chunk of an old segment reaches to its tail, what is left of the segment is the record and the fenceposts, so no block goes with it |
| `AllocRelease.ReleaseOk` | luajit/src/lj_alloc.c:968-984 | without such a segment the whole heap invariant holds |
| `AllocRelease.TrimOk` | luajit/src/lj_alloc.c:1023-1026 | with a shorter current segment and top the whole heap invariant holds |
| `AllocState.FreeRunOk` | luajit/src/lj_alloc.c:1264-1326 | freed space between two chunks in use becomes one free chunk with its foot and the following pinuse bit set |
| `AllocState.FreeTopOk` | luajit/src/lj_alloc.c:1285-1296 | freed space in front of top becomes part of top |
| `AllocState.DvLoose` | luajit/src/lj_alloc.c:626-636 | dv can be taken in hand as a free chunk that is in no bin |
| `AllocHeap.MState.Shrink` | luajit/src/lj_alloc.c:1343-1351 | shrinking keeps the invariant, hands the surplus to free, and writes no word that overlaps another payload or the bytes of this block that remain |
| `AllocHeap.MState.GrowIntoTop` | luajit/src/lj_alloc.c:1352-1362 | growing into top keeps the invariant and writes no word that overlaps the payload of any live block, the growing one included |
| `AllocFree.CutBothOk` | luajit/src/lj_alloc.c:1346-1350 | cutting a block in two leaves two valid blocks |
| `AllocHeap.MState.DirectResize` | luajit/src/lj_alloc.c:757-782 | a direct chunk is refused if it is to be small, stays if it is large enough and not much too large, and gets a region of another size if the system agrees; its bytes stay, as many as fit, and so do all other payloads |
| `AllocHeap.MState.InPlace` | luajit/src/lj_alloc.c:1340-1365 | the block stays where it is, with the bytes that fit and all other payloads as they were, or nothing is written |
| `AllocHeap.MState.CopyAndFree` | luajit/src/lj_alloc.c:1369-1371 | the copy carries the payload over before the old block is freed; no byte of another live block changes |
| `AllocHeap.MState.MallocCopyFree` | luajit/src/lj_alloc.c:1366-1374 | all bytes that the old block has room for are kept up to the copy, although allocator words and payloads share the memory; no byte of another live block changes; null leaves everything as it was |
| `AllocHeap.MState.Realloc` | luajit/src/lj_alloc.c:1328-1376 | keeps the first min(old payload, new size) bytes of a block of either kind; null leaves the old block live and all memory unchanged; a block of a segment that is large enough stays in place; no byte of any other live block changes, which follows from which words are written |
| `AllocHeap.MState.AllocF` | luajit/src/lj_alloc.c:1378-1388 | the three uses of the allocator function: free, malloc and realloc, each with its effect on the live blocks and their bytes |
| `AllocFrame.KeptWrites` | luajit/src/lj_alloc.c:353-412 | a step that writes the heads of chunks, and a foot behind a free chunk, leaves each word that overlaps a protected payload byte as it was, be it a head, a foot or a link |
| `AllocFrame.KeptLinks` | luajit/src/lj_alloc.c:587-724 | linking a free chunk into a bin or unlinking it leaves each word that overlaps a protected payload byte as it was |
| `AllocFrame.AddSegmentKept` | luajit/src/lj_alloc.c:847-892 | retiring top writes its fenceposts, record and foot into no payload |
| `AllocFrame.CutBothKept` | luajit/src/lj_alloc.c:1346-1350 | cutting a block in two writes into no payload, nor into the bytes of the block that are to remain |
| `AllocTrie.InnerWrites` | luajit/src/lj_alloc.c:680-724 | replacing an inner node by a leaf below it writes tree links at these and at other chunks of the tree bins only |
| `AllocHeap.BytesKept` | luajit/src/lj_alloc.c:1328-1376 | no byte of a protected payload is part of a word that differs, so these bytes are as before |
| `AllocHeap.LiveBytesKept` | luajit/src/lj_alloc.c:1328-1376 | the same for the payloads of all live blocks, direct ones included |
| `AllocHeap.MovedBytes` | luajit/src/lj_alloc.c:1366-1374 | allocating, copying and freeing leave the copied bytes in the new block and those of all other blocks in place, whatever else the allocator has written |
| `AllocHeap.Ram.Copy` | luajit/src/lj_alloc.c:1369-1370 | copying between disjoint ranges carries the bytes over and writes nothing else |
| `AllocView.BlocksSafe` | luajit/src/lj_alloc.c:1174-1376 | in every state that malloc, free and realloc lead to, live blocks are 8-byte aligned, at least as large as requested, pairwise disjoint and inside one segment |
| `AllocView.FirstOk` | luajit/src/lj_alloc.c:1138-1160 | the state that lj_alloc_create builds satisfies the invariant |
| `AllocClient.ChunksTileSegment` | luajit/src/lj_alloc.c:484-494 | each byte of a segment is in exactly one chunk |
| `AllocClient.TagsOf` | luajit/src/lj_alloc.c:353-412 | each pinuse bit agrees with the chunk before, free chunks have feet and are never adjacent, and a chunk is free exactly if it is top, dv or binned, only one of which it is |
| `AllocClient.ClientWritesOk` | luajit/src/lj_alloc.c:353-412 | whatever a client writes into its payloads, the allocator state stays valid, although free chunks keep their links there |
| `AllocHeap.MState.ClientStore` | luajit/src/lj_alloc.c:353-412 | writes of clients into their payloads keep the heap invariant, so the next call may follow |
| `DasmLayout.AlignShrinks` | luajit/dynasm/dasm_x86.h:331 | the padding of an aligned position never exceeds what pass 1 allowed for, and the adjusted position is aligned |
| `DasmLayout.DistanceShrinks` | luajit/dynasm/dasm_x86.h:266-345 | between any two places, the final distance is at most the pass 1 estimate |
| `DasmLayout.RelaxationSound` | luajit/dynasm/dasm_x86.h:303-324 | a shortened branch has a displacement in [-128, 127], forward or backward, across sections too; a backward branch is shortened whenever the displacement would fit |
| `DasmLabels.MeansUnique` | luajit/dynasm/dasm_x86.h:214-244 | what a label reference means is unique: the latest definition looking back, the next one looking forward |
| `DasmLabels.RefKnown` | luajit/dynasm/dasm_x86.h:223-226 | a reference to a label that exists stores its position |
| `DasmLabels.RefLinked` | luajit/dynasm/dasm_x86.h:227-231 | a reference to a label that does not exist yet is hung on the chain of its slot, which stays acyclic |
| `DasmLabels.DefOk` | luajit/dynasm/dasm_x86.h:239-243 | a definition gives its position to all references on the chain and to no other |
| `DasmLabels.ResetOk` | luajit/dynasm/dasm_x86.h:455-471 | forgetting local labels between two steps leaves all references meaning what they meant |
| `DasmLabels.ThreadDistinct` | luajit/dynasm/dasm_x86.h:239-243 | a chain visits no position twice, so the collapse loop ends |
| `DasmState.State.Collapse` | luajit/dynasm/dasm_x86.h:239-243 | the collapse loop writes the label to exactly the references on the chain |
| `DasmState.State.constructor` | luajit/dynasm/dasm_x86.h:84-152 | a new state has no labels and empty sections |
| `DasmState.State.GrowPc` | luajit/dynasm/dasm_x86.h:129-135 | more PC labels leave the recorded code as it is |
| `DasmState.State.Put` | luajit/dynasm/dasm_x86.h:167-262 | succeeds if and only if every action is accepted after those before it: immediates in range, label and section numbers below their limits, and for each backward reference to a local label that the last event of its slot, backward references aside, is a definition; otherwise the error is that of the first action that is not. On success it records one step for each action, with worst-case offsets, in the section that was active, and every reference holds or waits for the label it means |
| `DasmState.State.PutAction` | luajit/dynasm/dasm_x86.h:187-251 | an action is accepted, or reported with the error of its operand kind, exactly as its range and label checks say; if accepted its words, its estimate and its label event are recorded |
| `DasmState.State.StoreRef` | luajit/dynasm/dasm_x86.h:213-236 | a reference is accepted exactly if its slot exists and, for a backward reference to a local label, a definition stands; it is stored as resolved or linked |
| `DasmState.State.StoreLabel` | luajit/dynasm/dasm_x86.h:237-244 | a label is accepted exactly if its slot exists; it answers all references that wait |
| `DasmCheck.TellsAfter` | luajit/dynasm/dasm_x86.h:213-243 | a label word is negative exactly as long as the last event of its slot, backward references aside, is a definition |
| `DasmCheck.LocalRefused` | luajit/dynasm/dasm_x86.h:216-217 | a backward reference to a local label that was defined is refused if and only if a forward reference to that number, or the end of a step, came after its last definition |
| `DasmCheck.CrossingFails` | luajit/dynasm/dasm_x86.h:213-220 | a label, a forward reference and a backward reference of the same number make a put fail at the third action, although behind the label each reference alone is accepted |
| `DasmState.State.CheckStep` | luajit/dynasm/dasm_x86.h:455-471 | reports an undefined local label if and only if a reference waits for one, and otherwise forgets the local labels; a section mismatch is reported only if a section was asked for |
| `DasmState.State.LinkBranch` | luajit/dynasm/dasm_x86.h:303-324 | decides on a branch as the layout rule says |
| `DasmPass.LinkStep` | luajit/dynasm/dasm_x86.h:298-341 | one action of pass 2 fixes its label offset or branch size consistently with all before |
| `DasmState.State.Link` | luajit/dynasm/dasm_x86.h:266-345 | fails exactly if a PC label is referred to but not defined; otherwise all label offsets are final, all references resolved, and the size is that of the final layout |
| `DasmPass.EncAppend` | luajit/dynasm/dasm_x86.h:360-436 | an action appends the bytes that the final layout has room for |
| `DasmState.State.Encode` | luajit/dynasm/dasm_x86.h:360-439 | emits as many bytes as linking computed, each action where the final layout puts it, so the phase check never fails |
| `DasmPass.BranchValue` | luajit/dynasm/dasm_x86.h:398-405 | every branch to a label is given final label offset minus final end of the branch |
| `DasmPass.BranchBytes` | luajit/dynasm/dasm_x86.h:398-405 | the bytes of a branch in the finished code: four bytes of displacement, or a short opcode and one byte that holds it |
| `DasmState.State.GetPcLabel` | luajit/dynasm/dasm_x86.h:442-452 | gives the final offset where the code of a PC label starts, and the two error codes for labels without one |
| `RegShuffle.Assembler.Shuffle` | luajit/src/lj_asm.c:1472-1506 | read in execution order, the moves perform the simultaneous assignment and touch nothing but targets and temporaries; it fails if and only if some values move in a circle and no temporary register of their class is left |
| `RegShuffle.Assembler.Rename` | luajit/src/lj_asm.c:616-629 | the target moves to another register and the inverse move is put in front of the code |
| `RegShuffle.Assembler.Coalesce` | luajit/src/lj_asm.c:1476-1485 | moves every live register that is free, and keeps that what is left of the shuffle, together with the code, is the whole shuffle |
| `RegShuffle.Assembler.BreakCycle` | luajit/src/lj_asm.c:1491-1503 | renames one target to a temporary, or reports that there is none |
| `RegShuffle.ExchangeNeedsSpare` | luajit/src/lj_asm.c:1491-1503 | exchanging two values gets stuck without a temporary, and does not with one |
| `RegShuffle.Standstill` | luajit/src/lj_asm.c:1476-1489 | when no live register is free, the values left over move in circles |
| `PatternMatch.MatchState.Match` | luajit/src/lib_string.c:368-451 | the result is the first of all ways of matching in priority order, with its end and captures; null exactly if there is none, with the live captures and the depth restored; an error is raised if and only if the attempts made in priority order come to a fault, and it is the error of that fault; it occurs only for a faulty pattern or too deep nesting |
| `PatternMatch.MatchState.PatternItem` | luajit/src/lib_string.c:419-447 | a quantified or plain item either settles the match or leads on to the rest of the pattern |
| `PatternMatch.MatchState.Escape` | luajit/src/lib_string.c:383-411 | balanced strings, frontiers and back references lead on to the rest of the pattern, or settle that there is no match |
| `PatternMatch.MatchState.MaxExpand` | luajit/src/lib_string.c:302-315 | more repetitions are tried before fewer, and none is left out |
| `PatternMatch.MatchState.MinExpand` | luajit/src/lib_string.c:317-329 | fewer repetitions are tried before more, and none is left out |
| `PatternMatch.MatchState.StartCapture` | luajit/src/lib_string.c:331-343 | an opened capture is taken back if the rest does not match; too many captures are an error |
| `PatternMatch.MatchState.EndCapture` | luajit/src/lib_string.c:345-354 | the innermost open capture is closed, and reopened if the rest does not match; no open capture is an error |
| `PatternMatch.MatchState.MatchCapture` | luajit/src/lib_string.c:188-194 | a back reference matches exactly the captured text once more; an unfinished or missing capture is an error, a position capture never matches |
| `PatternMatch.MatchState.CaptureToClose` | luajit/src/lib_string.c:196-203 | the innermost unfinished capture |
| `PatternMatch.ClassEnd` | luajit/src/lib_string.c:205-224 | where an item of the pattern ends, or that it is malformed |
| `PatternMatch.MatchBracketClass` | luajit/src/lib_string.c:246-267 | a character is in a bracket set if an element has it, complemented by a caret |
| `PatternMatch.SingleMatch` | luajit/src/lib_string.c:269-277 | a character matches a single item |
| `PatternMatch.MatchBalance` | luajit/src/lib_string.c:281-300 | the first place where the nesting of opener and closer returns to zero, or none |
| `PatternMatch.QuantFirst` | luajit/src/lib_string.c:302-329 | with k repetitions working and all that come before failing, the first match is with k repetitions |
| `PatternMatch.QuantFails` | luajit/src/lib_string.c:302-329 | if every number of repetitions fails there is no match |
| `PatternMatch.OptionLeft` | luajit/src/lib_string.c:423-431 | an optional item that cannot be taken is left out, without losing a match |
| `PatternSpec.Ordered` | luajit/src/lib_string.c:302-451 | of two different ways of matching, one comes first |
| `PatternSpec.FirstUnique` | luajit/src/lib_string.c:302-451 | there is only one first match, and none if nothing matches |
| `PatternSpec.LevelsBound` | luajit/src/lib_string.c:368-371 | a pattern nests no deeper than it has characters |
| `PatternFind.Search` | luajit/src/lib_string.c:536-555 | finds the leftmost start that matches, with the first match there, or shows that no start does; an anchored pattern is tried at one start only; an error is that of the first start whose attempt comes to a fault, all starts before it failing |
| `PatternFind.LeftmostUnique` | luajit/src/lib_string.c:536-555 | what a search is to find is unique |
| `PatternFind.GmatchNext` | luajit/src/lib_string.c:571-593 | each step finds the leftmost match from the position on and moves that position forward, even for an empty match |
| `PatternFind.RunForward` | luajit/src/lib_string.c:368-451 | no way of matching ends before it starts |
| `PatternFind.ShortSoundSafe` | luajit/src/lib_string.c:368-371 | a pattern without faults that is shorter than the nesting limit never raises an error |
| `PatternFind.FirstItemFault` | luajit/src/lib_string.c:205-224 | a pattern whose first item is malformed raises the error for malformed patterns, and one that begins with a back reference the one for invalid captures |
| `PatternFind.ManyOpens` | luajit/src/lib_string.c:331-343 | one opening parenthesis more than the limit of captures raises the error for too many captures |
| `PatternFind.ManyStars` | luajit/src/lib_string.c:302-315 | as many repetitions in a row as calls may nest raise the error for too complex patterns, on every subject |
| `PatternFind.PlainFind` | luajit/src/lib_string.c:453-475 | the first occurrence of a plain string, or that there is none |
| `BcFormat.UlebPrefixFree` | luajit/src/lj_bcwrite.c:58-66 | encoded numbers can be told apart from what follows |
| `BcFormat.LengthPrefix` | luajit/src/lj_bcwrite.c:326-330 | the size formula for the length prefix is right for all 32-bit lengths but zero |
| `BcFormat.Patched` | luajit/src/lj_bcwrite.c:206-239 | doubling in 32 bits and patching the last byte writes the ULEB128 form of the 33-bit number |
| `BcProto.LoadKeeps` | luajit/src/lj_bcwrite.c:111-148 | a template table, written with its array part trimmed and its hash part backwards, is loaded with the same content for every key; a number that equals an integer is the same key as the integer |
| `BcProto.CanonIs` | luajit/src/lj_tab.c:511-515 | a double is stored under an integer key of 32 bits if and only if it equals that integer, both zeros included |
| `BcProto.PiecesDump` | luajit/src/lj_bcwrite.c:335-376 | the parts that the callback is given, one after the other, are the dump |
| `BcStack.TakenBack` | luajit/src/lj_bcread.c:244-279 | children that were stacked in reverse constant order land in their own slots |
| `BcStack.OrderRebuilds` | luajit/src/lj_bcwrite.c:272-333 | at every depth, reading the records of a tree one by one leaves the loaded tree on the stack and nothing else |
| `BcWrite.BCWriteCtx.Need` | luajit/src/lj_bcwrite.c:35-48 | makes room without losing what is in the buffer |
| `BcWrite.BCWriteCtx.PutUleb128` | luajit/src/lj_bcwrite.c:66-73 | writes the number in at most five bytes and nothing behind it |
| `BcWrite.BCWriteCtx.PutTable` | luajit/src/lj_bcwrite.c:111-148 | writes a template table in the room that was reserved |
| `BcWrite.BCWriteCtx.PutConsts` | luajit/src/lj_bcwrite.c:150-203 | writes the constants in order, each in the room that was reserved for it |
| `BcWrite.BCWriteCtx.PutNumber` | luajit/src/lj_bcwrite.c:206-239 | writes a number constant within ten bytes |
| `BcWrite.BCWriteCtx.SendProto` | luajit/src/lj_bcwrite.c:324-332 | puts the length right before the record, in the room left for it |
| `BcWrite.BCWriteCtx.PutProto` | luajit/src/lj_bcwrite.c:272-333 | writes the children from the last constant down, at every depth, and then the prototype |
| `BcWrite.BCWriteCtx.Write` | luajit/src/lj_bcwrite.c:335-376 | whatever the writer callback answers, it is given the parts of the dump in order, each as a whole, up to the first that it refuses; the status is its last answer, and with status zero it has been given the whole dump |
| `BcRead.LexState.KeepRest` | luajit/src/lj_bcread.c:64-75 | what is left moves to the own buffer before the callback may overwrite its block |
| `BcRead.LexState.Fill` | luajit/src/lj_bcread.c:57-94 | cursor window and blocks not fetched yet together stay the unread input; it fails exactly on too long a demand, a second demand past the end, or missing bytes that are needed |
| `BcRead.LexState.ReadUleb128` | luajit/src/lj_bcread.c:135-151 | reads back the number and consumes exactly its bytes |
| `BcRead.LexState.ReadUleb128Top` | luajit/src/lj_bcread.c:153-169 | reads back a 33-bit number without its type bit |
| `BcRead.LexState.ReadTable` | luajit/src/lj_bcread.c:219-241 | reads back the content of a template table |
| `BcRead.LexState.ReadConsts` | luajit/src/lj_bcread.c:243-279 | reads back the constants with the children from the stack, and fails if and only if there are too few of them |
| `BcRead.LexState.ReadNumbers` | luajit/src/lj_bcread.c:282-297 | reads back all number constants |
| `BcRead.LexState.ReadData` | luajit/src/lj_bcread.c:345-419 | reads back one record and consumes exactly its bytes |
| `BcRead.LexState.ReadProto` | luajit/src/lj_bcread.c:328-420 | reads the next prototype from however many blocks, or finds the end; a missing child is an error |
| `BcRead.LexState.ReadHeader` | luajit/src/lj_bcread.c:422-452 | accepts a header if and only if signature and version are right and no unknown flag is set |
| `BcRead.LexState.Read` | luajit/src/lj_bcread.c:454-475 | however the input is split, the dumped tree is loaded; bytes behind the dump are noticed unless a block ends right behind the dump and none right before its last byte |
| `BcDump.LoadsSame` | luajit/src/lj_bcread.c:328-420 | the loaded tree has the same instructions, upvalues, numbers, strings, table contents and children as the dumped one, and its debug blocks unless stripped |
| `BcDump.DumpAndLoad` | luajit/src/lj_bcwrite.c:336-396 | dumping and loading in blocks of any sizes gives the tree back, unless the writer callback refused a part of the dump; the status is zero if and only if it refused none |
| `BcDump.JunkAlone` | luajit/src/lj_bcread.c:470-471 | bytes behind a dump go unnoticed in a block of their own, but not in the same block |
| `TableSort.Sorter.AuxSort` | luajit/src/lib_table.c:195-256 | any comparison, even an inconsistent or failing one, leaves a permutation of the part and touches nothing else; a strict weak order sorts it without the error; the recursion is at most log2(n) + 1 deep |
| `TableSort.Sorter.Partition` | luajit/src/lib_table.c:221-246 | the pivot ends up with nothing after it on its left and nothing before it on its right; the scans never leave the part |
| `TableSort.Sorter.MedianOfThree` | luajit/src/lib_table.c:198-220 | first, middle and last element are put in order |
| `TableSort.Sorter.Sort` | luajit/src/lib_table.c:258-267 | table.sort on the elements 1 to n |
| `TableSort.AroundSplit` | luajit/src/lib_table.c:247-254 | split at the pivot and with one part sorted, only pairs within the other part can be out of order |
| `TableSort.BoundHalf` | luajit/src/lib_table.c:248-254 | the smaller part needs one level less |
| `RefTable.Registry.Ref` | luajit/src/lib_aux.c:258-278 | a new reference for a non-nil value is positive and not live, and live ones keep their values; nil has the fixed reference; the length of the table is needed only when no reference is free |
| `RefTable.Registry.Unref` | luajit/src/lib_aux.c:280-289 | whatever number is given back, it is no longer live; unless it is in the list of free references, the list stays acyclic and apart from the live ones |
| `RefTable.UnrefFresh` | luajit/src/lib_aux.c:258-289 | after giving back any number, all later runs that give back live references only get fresh references and keep all live values, if and only if the number is not in the list of free references |
| `RefTable.FreeGivenBack` | luajit/src/lib_aux.c:258-289 | a free reference that is given back again is given out twice: next, and once more after those that were in front of it in the list |
| `RefTable.FreedTwice` | luajit/src/lib_aux.c:258-289 | after giving a live reference back twice, the next two values share it and the second replaces the first; the list then starts with whatever integer the first value is |
| `RefTable.FreedTwiceExample` | luajit/src/lib_aux.c:258-289 | in an empty table, giving reference 1 back twice makes two values share it |
| `RefTable.BorderIs` | luajit/src/lib_aux.c:272-275 | with no free reference, and only live ones given back, any border the length operator may return is the number of references given out |
| `RefTable.TakeFree` | luajit/src/lib_aux.c:269-271 | taking the first free reference keeps the list acyclic and apart from the live ones |
| `RefTable.TakeNew` | luajit/src/lib_aux.c:272-275 | with no free reference, the slot behind any border is not live |
| `RefTable.GiveBack` | luajit/src/lib_aux.c:280-289 | giving back a reference that is not in the list keeps the list acyclic and apart from the live ones |
| `Md5.Transform` | md5.c:208-306 | the unrolled rounds compute the compression of section 3.4 of RFC 1321 |
| `Md5.MD5_CTX.constructor` | md5.c:100-111 | a new context has been fed nothing |
| `Md5.MD5_CTX.Count` | md5.c:129-136 | the two counter words hold the number of bits modulo 2^64, with the carry found by comparison |
| `Md5.MD5_CTX.Update` | md5.c:117-160 | the context is that of the longer message, with or without the aligned fast path |
| `Md5.MD5_CTX.Final` | md5.c:165-202 | the digest is that of sections 3.1 to 3.5 of RFC 1321 for all that has been fed |
| `Md5.DigestOf` | md5.c:117-202 | the digest does not depend on how a message is split |
| `Md5Spec.BlockMore` | md5.c:141-159 | one more block is one more compression |

## Left out

- The end of the allocator, `lj_alloc_destroy`, which gives all segments back.
- System calls of the allocator (`AllocHeap.System`): the region handed out, or none, is arbitrary; it is aligned, disjoint from all segments and from what is mapped directly, and ends below 2^32, as in the 64-bit builds that allocate in the low address range. A direct chunk is resized in place, as those builds ask for; where `mremap` is missing it always fails, which the system here may choose to do.
- Chunk heads are records and bin maps are sets instead of bit words; heads, feet and links are maps from addresses, each word at its place in the memory that payloads share: `AllocClient.ClientWritesOk` is about client writes to that memory, and the frames of `AllocFrame` and `AllocHeap.BytesKept` are about those of the allocator. The fake trailing chunk behind top is not part of this model.
- DasmState.State.Put: for a list of actions that fits the section's position range of 24 bits, whose arguments are at hand, and where raw `e9` or `0f 8x` bytes precede a branch that may be shortened; after an error only the section positions, which the code does not advance then, are said to be as before.
- DynASM: displacement and register patching (`DISP`, `VREG`, `MARK`, `SETLABEL`), the choice between byte and wider immediates (`IMM_DB`, `IMM_WB`); `DASM_EXTERN` returns 0; the action list is given decoded; `DASM_CHECKS` is on, and alignment is written as a remainder.
- The register shuffle leaves out spill reloads and passes before the loop, the rename instructions that are added to the IR, and the sets of modified and weak registers.
- RegShuffle.Assembler.Shuffle: for distinct parents and distinct targets of the same register class, where targets are allocated and not allowed as temporaries, as the passes before the loop arrange it.
- String functions: gsub replacement, pushing of captures, the conversion of start positions and the test for special characters.
- Bytecode: unpatching of loops that the JIT compiler has changed, swapping between byte orders, narrowing of floats (dual-number mode is modelled), layout of a prototype in memory and the pointers into its debug block.
- BcRead.LexState.Read: for input that begins with a dump; records that no writer produces are not covered, apart from wrong headers, missing children and bytes behind the end.
- Where a key is stored in a table (array or hash part, and the slot) once a dump is loaded. No key of a template table is NaN, as no table has such a key.
- Buffer sizes of the bytecode writer do not wrap around: a record is at most as long as the largest allocation.
- A comparison in `auxsort` that changes the table which is being sorted; the values on the Lua stack are local variables.
- The table behind `luaL_ref` starts out empty and is used for references only; keys that are not integers do not matter.
- MD5 for little-endian machines; the assembler version is not part of this model.
- Win32 file, process and console functions of the make tool, the code generators of the JIT compiler, and the garbage collector: they depend on the system or on parts that this model does not have.
