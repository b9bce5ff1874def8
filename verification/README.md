# Verified model of the host algorithms of AITER

This project models, in Dafny, the self-contained host algorithms of the AITER kernel library and proves
what they are for. GPU kernels behind launches are not modelled; the Triton reducers that live in the same
Python files are. Run `dafny verify dfyconfig.toml` in this directory.

| part | modules | source |
|---|---|---|
| split-KV attention merge | `ExtendedReals`, `TileDealing`, `SplitKvMerge`, `Stage2Kernel` | `aiter/mla.py` |
| two-pass prefill reduction | `PrefillReduce`, `PrefillKernel` | `aiter/mla.py` |
| page-table CSR builder | `PageCsr` | `aiter/mla.py` |
| head folding | `HeadFold` (with `MixedRadix`) | `aiter/mla.py` |
| IQ2R weight packing | `Iq2rLayout`, `Iq2rBits`, `Iq2rRecords`, `Iq2rPack`, `Iq2rQuad` | `aiter/iq2r_glm53.py` |
| IQ2R tensor-parallel shards | `Iq2rFormat`, `Iq2rShard`, `Iq2rDown` | `aiter/iq2r_glm53.py`, `aiter/ops/iq2r_format.py` |
| IQ2R workspace and launches | `Iq2rWorkspace` | `aiter/iq2r_glm53.py` |
| comment stripper | `CommentStrip` | `hsa/codegen.py` |
| multimodal rotary positions | `MropeGrids`, `Mrope`, `MropeLaws` | `aiter/rotary_embedding.py` |
| reference MoE, expert parallelism | `MoeReference` | `aiter/fused_moe.py` |
| sort buffer capacities | `SortCapacity` (with `Buckets`) | `aiter/fused_moe.py` |
| token buckets and support checks | `TokenBuckets` | `aiter/fused_moe.py`, `aiter/fhmoe.py` |
| chunk schedule | `ChunkSchedule` | `aiter/ops/causal_conv1d_fwd_split_qkv.py` |
| batch packing and padding | `BertIndex`, `BertPadding` | `aiter/bert_padding.py` |
| memory warnings, worker budgets | `MemoryDiagnostics` | `aiter_worker_limits.py` |
| mount path decoding | `MountinfoPath` | `aiter_worker_limits.py` |

`Numbers`, `Sums`, `RowMajor`, `MixedRadix`, `Buckets` and `Results` hold what the parts share.

Conventions. Floating point is exact: a `Float` is a real, an infinity or NaN, and `exp` and `log` are known
only by `exp(x) > 0`, `exp(x + y) = exp(x) exp(y)` and being inverse to each other. Tensors are flat arrays with row-major
positions. An exception is an `Err`, `Failed` or `Stopped` value. Code that updates in place is a method over
arrays or a class, proved against a function; the laws are lemmas about that function.

## Where the code falls short of its promise

Each of these is proved with the exact condition under which the code does meet its promise, and with a concrete
input on which it does not.

- A chunked IQ2R MoE call checks its routing chunk by chunk. With fewer routing rows than tokens it raises after the
  chunks before the first short one are already in the output, and with more it succeeds, although a single launch
  refuses any other row count than the token count (`Iq2rWorkspace.MoeOut`; `Iq2rWorkspace.ShortRoutingIsHalfWritten`,
  `Iq2rWorkspace.LongRoutingPassesInChunks`).
- The prefill reduction is meant to ignore a partial result whose log-sum-exp is NaN. It does exactly if some other
  partial result remains and no infinite value lies behind the NaN (or what remains gives NaN anyway). A row whose
  log-sum-exps are all NaN gets NaN stored, where a row without partial results is left alone
  (`PrefillReduce.NaNSplitsAreAbsentExactlyWhen`, `PrefillKernel.ProgramWithoutNaN`; `PrefillKernel.AllNaNRowStoresNaN`,
  `PrefillReduce.InfiniteValueBehindNaN`).
- Stage 2 takes the value buffer for final outputs when there are as many splits in all as batches. That is right
  exactly if every batch has one split. A caller's split pointer [0, 0, 2] makes it copy a batch that has two splits to
  merge; the uniform pointer the code builds is safe (`Stage2Kernel.CopyIsRightExactlyForOneSplitEach`,
  `Stage2Kernel.UniformPointerCopiesOneSplit`; `Stage2Kernel.UnevenPointerCopiesUnmerged`).
- Head folding with two or more groups names the right rows only if every sequence is empty or has the
  uniform query length (`HeadFold.FoldIsNamedExactlyWhen`; `HeadFold.RaggedFoldMisnames`).
- The comment stripper is idempotent on texts whose only line break is the newline, and on no larger set of
  breaks: a comment cut from a line that ends in, say, a form feed takes the break with it. A text on which no such
  cut happens before its last kept line is safe whatever its breaks (`CommentStrip.IdempotentExactlyForNewlines`,
  `CommentStrip.StripTwice`; `CommentStrip.OtherBreaksBreakIt`).
- `unpad_input` with overlapping integer masks returns `cu_seqlens` that count more tokens than were packed
  (`BertPadding.CuSeqlensMatchExactly`; `BertPadding.CountedTwice`), and so does the concatenated form when a row's
  lengths exceed the sequence length (`BertPadding.SegmentsCoverExactlyWhenRowsFit`; `BertPadding.RowOverflows`).
- The backward of the plain gather overwrites, so it is the adjoint only for distinct indices
  (`BertIndex.AdjointExactlyWhenDistinct`; `BertIndex.SameRowTwice`).
- The expert-parallel sum is the unmasked output for every routing only if each expert is kept by exactly one rank or
  answers zero (`MoeReference.ConservesExactly`; `MoeReference.SharedExpertCountsTwice`).

## What the code relies on

- Stage 2 merges the splits that stage 1 left. Which keys each split got does not matter: consecutive pieces of the
  cache, tiles dealt to the splits in turn, or any other dealing (`SplitKvMerge.SplitPlacementIsIrrelevant`,
  `Stage2Kernel.DealtProgramLeavesAttention`). But the first split must hold a key if any does, as it will when it gets
  the first piece or the first tile. The online merge needs this, exactly: with some key in the cache it is right if and
  only if the first split holds one (`SplitKvMerge.MergeNeedsAKeyInTheFirstSplit`; `SplitKvMerge.EmptySplitFirst`
  against `SplitKvMerge.EmptySplitLast`). The two-pass prefill reduction does not need it
  (`PrefillReduce.TwoPassIsNumberExactlyWhen`).
- Of the folded local key pointer of a context-parallel call only the begins can be used: for all but the last group of
  a batch the next entry is the same begin (`HeadFold.FoldLocalIndptrAt`).
- The sort buffer sized by all experts is large enough for every routing, also when an expert without routes takes a
  block, exactly if a block is larger than topk; with k experts in use, exactly if topk is at most k plus the block size
  minus one (`SortCapacity.EveryRoutingFitsExactly`, `SortCapacity.FitsInUseExactly`).
- A shared table of chunk schedules serves one step, in which all calls have the same sequence starts. A call with other
  starts gets the stored schedule (`ChunkSchedule.NumsDict.Get`).

## Model

| member | source | states |
|---|---|---|
| SplitKvMerge.MergeExact | aiter/mla.py:257-289 | if the first split has a number and the rest a number or minus infinity, the loop yields the average weighted by exp(lse) and the log of the total weight |
| SplitKvMerge.MergeIsNumberExactlyWhen | aiter/mla.py:257-289 | for every list of splits: the merged log-sum-exp is a number iff no log-sum-exp is NaN or plus infinity and the first one is a number; the other cases are pinned down |
| SplitKvMerge.SplitMergeIsAttention | aiter/mla.py:224-289 | merging per-split softmax results gives softmax attention over the whole cache, and its log-sum-exp, however the keys are dealt to the splits |
| SplitKvMerge.SplitPlacementIsIrrelevant | aiter/mla.py:224-289 | two ways of dealing the same keys, in any order, to any number of splits give the same output and log-sum-exp |
| SplitKvMerge.DealtMergeIsAttention | aiter/mla.py:1269-1287 | with tiles dealt to n splits in turn, merging the splits that got one gives softmax attention over the keys in cache order |
| TileDealing.DealKeepsKeys | aiter/mla.py:1269-1287 | dealing tiles in turn gives every key to exactly one split |
| TileDealing.FirstSplitsHoldKeys | aiter/mla.py:1269-1287 | the splits that hold a key are exactly the first ceil(length / tile), the number stage 2 visits |
| TileDealing.VisitedSplitsHoldAll | aiter/mla.py:224-230 | the splits stage 2 visits hold all keys, and the first of them holds one |
| SplitKvMerge.MergeNeedsAKeyInTheFirstSplit | aiter/mla.py:257-289 | what the merge demands of stage 1: with a nonempty cache it is right iff the first split holds a key |
| SplitKvMerge.EmptySplitFirst | aiter/mla.py:257-289 | an empty split before a split with one key: output zero, log-sum-exp NaN |
| SplitKvMerge.EmptySplitLast | aiter/mla.py:257-289 | the same splits in the other order keep the key |
| Stage2Kernel.MergeSplit | aiter/mla.py:268-276 | one turn of the split loop is one merge step in every lane |
| Stage2Kernel.LoadSplit | aiter/mla.py:262-267 | the moving offsets load the split's log-sum-exp and its row of values |
| Stage2Kernel.MergeRow | aiter/mla.py:258-276 | the split loop leaves the merge of the row's valid splits in every lane |
| Stage2Kernel.StoreRow | aiter/mla.py:279-289 | the two stores write the row's outputs and log-sum-exp and nothing else |
| Stage2Kernel.MergeRows | aiter/mla.py:224-289 | the query loop leaves every row of the batch merged, over strided buffers and moving offsets |
| Stage2Kernel.CopyRows | aiter/mla.py:245-257 | with final outputs from stage 1 the query loop copies every row and touches nothing else |
| Stage2Kernel.Stage2Program | aiter/mla.py:203-289 | one program merges every query row of its batch, or copies it when stage 1 left final outputs, and changes no cell outside those rows |
| Stage2Kernel.ProgramLeavesAttention | aiter/mla.py:203-289 | when the splits of a row summarise chunks of its keys, every lane of the row ends up with softmax attention over the cache, in whatever way its keys were dealt to the splits, and the row with its log-sum-exp; without keys zero and minus infinity |
| Stage2Kernel.PagesHoldTheLength | aiter/mla.py:211-221 | the key count is the number of keys in the batch's pages, for both forms of the key pointer |
| Stage2Kernel.KeyIsVisibleExactlyWhen | aiter/mla.py:238-239 | under causal alignment the last query sees every key and each query before it one key fewer |
| Stage2Kernel.SplitIsVisitedExactlyWhen | aiter/mla.py:226-242 | a row visits exactly the splits that the batch has, whose first tile starts before the row's last key, and that lie below a valid count in use |
| Stage2Kernel.VisitsTheSplitsWithATile | aiter/mla.py:226-242 | the row's split count is the number of splits that got a tile of the keys it may see, out of the batch's whole cache |
| Stage2Kernel.DealtProgramLeavesAttention | aiter/mla.py:203-289 | for a stage 1 that deals tiles of mgc keys in turn, over the batch's whole paged cache: row qo ends up with softmax attention over all keys, or in a causal launch over all but the last qo_end - 1 - qo of them |
| Stage2Kernel.CopyIsMergeExactlyForOneSplit | aiter/mla.py:245-276 | the first of n splits always holds their merge iff n is one |
| Stage2Kernel.CopyIsRightExactlyForOneSplitEach | aiter/mla.py:233-257 | with as many splits as batches the copy is right iff every batch has one split, iff none has none, iff none has two |
| Stage2Kernel.UniformPointerCopiesOneSplit | aiter/mla.py:414-416 | the uniform pointer takes the copy branch exactly for one split per batch |
| Stage2Kernel.UnevenPointerIsNotOneEach | aiter/mla.py:233 | the split pointer [0, 0, 2] counts as many splits as batches without one each |
| Stage2Kernel.UnevenPointerCopiesUnmerged | aiter/mla.py:233-257 | on that pointer two splits of values one and three, to be merged to two, are copied as one |
| Stage2Kernel.FinalRowKeepsItsPlace | aiter/mla.py:246-257 | with one split per row and contiguous buffers the copied row keeps its address |
| Stage2Kernel.OffsetsNameTheCell | aiter/mla.py:224-225 | for contiguous buffers the offsets are logits[q, split, head, :] and lse[q, split, head] |
| Stage2Kernel.ProgramsStoreApart | aiter/mla.py:280-289 | programs never store to the same output cell |
| PrefillReduce.TwoPassExact | aiter/mla.py:2041-2119 | maximum, sum and scaled accumulation compute the weighted average; NaN and minus infinity weigh nothing |
| PrefillReduce.OnePassEqualsTwoPass | aiter/mla.py:2041-2119 | the two passes equal the online merge, output and log-sum-exp |
| PrefillReduce.TwoPassIsNumberExactlyWhen | aiter/mla.py:2041-2119 | for every nonempty list: the result is a number iff some log-sum-exp is one, none is plus infinity and no value is infinite; without infinite values it is otherwise NaN |
| PrefillReduce.TwoPassIsNaNExactlyWhen | aiter/mla.py:2041-2119 | for every list of splits, infinite values included: the exact inputs on which the reduction gives NaN |
| PrefillReduce.NaNSplitsAreAbsentExactlyWhen | aiter/mla.py:2052-2119 | for every list of splits: those with a NaN log-sum-exp contribute as if absent iff there is no split, or some other split remains and no infinite value lies behind them or the rest gives NaN anyway |
| PrefillReduce.TameNaNSplitsAreAbsentExactlyWhen | aiter/mla.py:2052-2119 | where no value is infinite: as if absent iff there is no split or some other split remains |
| PrefillReduce.InfiniteValueBehindNaN | aiter/mla.py:2052-2119 | an infinite value behind a NaN log-sum-exp turns the output one into NaN |
| PrefillReduce.KernelEqualsReference | aiter/mla.py:2261-2294 | the kernel's reduction and the tensor reference agree on all inputs, special values included |
| PrefillKernel.CollectLse | aiter/mla.py:2041-2060 | the scan yields the cleaned log-sum-exps and their maximum |
| PrefillKernel.SumExponentials | aiter/mla.py:2062-2069 | the guarded sum over the static range is the sum over the live splits |
| PrefillKernel.AccumulateChunk | aiter/mla.py:2077-2108 | each lane of a dimension chunk holds its scaled sum |
| PrefillKernel.StoreChunk | aiter/mla.py:2110-2119 | a masked store writes its chunk of the row and no other cell |
| PrefillKernel.ReduceProgram | aiter/mla.py:2017-2119 | a live program leaves the two-pass reduction in every dimension of its row; others change nothing |
| PrefillKernel.AddressesNameTheCells | aiter/mla.py:2049-2119 | for contiguous tensors the three addresses are row, head and dimension in flat row-major positions, the row with the token offset |
| PrefillKernel.ProgramReducesItsRow | aiter/mla.py:2017-2119 | in flat positions: a live program leaves in its output row the two-pass reduction of rows location + token of the partial results; any other leaves the output alone |
| PrefillKernel.ProgramsStoreApart | aiter/mla.py:2110-2119 | programs of different tokens or heads never store to the same cell |
| PrefillKernel.ProgramWithoutNaN | aiter/mla.py:2017-2119 | a program against itself without the partial results whose log-sum-exp is NaN: when both store the same, and that with none left it stores NaN where the other returns at once |
| PrefillKernel.AllNaNRowStoresNaN | aiter/mla.py:2017-2119 | one partial result with NaN log-sum-exp and value one: NaN is stored, without it nothing is |
| PageCsr.BuildIndptr | aiter/mla.py:905-913 | the first kernel stores the prefix sums of page counts and the last-page lengths |
| PageCsr.RowsTile | aiter/mla.py:905-926 | the rows tile the index array: a cell belongs to exactly one row |
| PageCsr.IndicesProgram | aiter/mla.py:917-926 | one program copies its live columns and no other cell |
| PageCsr.RunGrid | aiter/mla.py:916-926 | any order that contains every program leaves the wanted index array |
| PageCsr.RowIsLivePrefix | aiter/mla.py:916-987 | each row is the live prefix of its page table |
| PageCsr.StageTwoRecoversTheLength | aiter/mla.py:211-221 | (pages - 1) * page_size + last is the original length, zero included, with 1 to 64 keys on the last page |
| PageCsr.NoProblemIsAcceptable | aiter/mla.py:944-968 | the checks let through exactly int32 tensors of one GPU with the documented shapes, strides and room |
| PageCsr.PreparePageCsr | aiter/mla.py:929-987 | a call is refused exactly for unacceptable arguments and then writes nothing; otherwise every row is complete, in any order of the grid |
| HeadFold.PositionsWrittenOut | aiter/mla.py:1477-1506 | the two layouts as row-major polynomials |
| HeadFold.OneQueryFoldIsAReshape | aiter/mla.py:1482-1483 | with one query per batch the fold is the plain view the code takes |
| HeadFold.FoldPlacesEveryCell | aiter/mla.py:1477-1506 | query q of batch b, head g*h+k lands in row q of pseudo-batch b*r+g, head k |
| HeadFold.FoldedRowIsTheRow | aiter/mla.py:1477-1506 | the row that the pointer is compared with is the one that the fold puts the token's heads into |
| HeadFold.FoldRoundTrips | aiter/mla.py:1680-1716 | folding and un-permuting are inverse in both orders |
| HeadFold.FoldIndptrAt | aiter/mla.py:561-567 | the folded pointer of pseudo-batch b*fold+g |
| HeadFold.FoldLocalIndptrAt | aiter/mla.py:1501-1507 | pseudo-batch b*fold+g begins at kv_indptr[b]; the next entry is that begin again, or the end of b for the last group |
| HeadFold.FoldIsNamedExactlyWhen | aiter/mla.py:561-567 | with two or more groups, the folded pointer names every token's row iff every sequence is empty or uniform |
| HeadFold.RaggedFoldMisnames | aiter/mla.py:561-567 | two one-token sequences folded as a block of two: the folded row starts point at a row of the other token |
| Iq2rLayout.AtomsApart | aiter/iq2r_glm53.py:77-96 | no byte belongs to two atoms |
| Iq2rBits.FoldedSignBit | aiter/iq2r_glm53.py:110-112 | bit j of the gathered signs is the sign of codebook byte j |
| Iq2rBits.FoldingKeepsWeight | aiter/iq2r_glm53.py:103-120 | clearing the codebook sign and flipping the record sign keeps the weight |
| Iq2rBits.PackingKeepsIndices | aiter/iq2r_glm53.py:123-135 | the four 9-bit indices decode after packing and the upper metadata nibble stays |
| Iq2rBits.PackedBytesWrittenOut | aiter/iq2r_glm53.py:123-135 | the packed bytes bit by bit: each 9-bit index continues where the one before ends, the last four bits in the metadata |
| Iq2rBits.DestinationIsPlane | aiter/iq2r_glm53.py:143-144 | weight j goes to plane j mod 4, and word w takes bits 2w and 2w+1 of it |
| Iq2rBits.TransposeKeepsSigns | aiter/iq2r_glm53.py:138-146 | the planes hold exactly the record's 32 signs |
| Iq2rBits.PlanesWrittenOut | aiter/iq2r_glm53.py:138-146 | sign j of word w is bit 2w + j / 4 of plane byte j mod 4 |
| Iq2rRecords.FoldAtom | aiter/iq2r_glm53.py:113-118 | the in-place sign fold of one atom through aliased views |
| Iq2rRecords.PackAtom | aiter/iq2r_glm53.py:125-135 | the in-place index packing of one atom through aliased views |
| Iq2rRecords.TransposeAtom | aiter/iq2r_glm53.py:140-146 | the in-place sign transpose of one atom |
| Iq2rRecords.RewriteAtoms | aiter/iq2r_glm53.py:77-146 | one pass rewrites every atom once from its old bytes and leaves all other bytes alone |
| Iq2rPack.GatherSigns | aiter/iq2r_glm53.py:109-112 | the signs of every codebook entry |
| Iq2rPack.ClearBooks | aiter/iq2r_glm53.py:108-120 | the auxiliary copy with codebook signs cleared and the rest unchanged |
| Iq2rPack.ClearedBook | aiter/iq2r_glm53.py:108-120 | each expert's codebook in the copy is its codebook with the signs cleared |
| Iq2rPack.FormKeepsWeights | aiter/iq2r_glm53.py:103-146 | both packed forms decode, through the cleared codebook, to the canonical weights |
| Iq2rPack.CanonicalWeightOfBytes | aiter/iq2r_glm53.py:103-120 | the canonical weight from the bytes themselves: index byte plus 256 for its metadata bit, that codebook byte, and the sign bit |
| Iq2rPack.PackRecords | aiter/iq2r_glm53.py:69-146 | the in-place passes of one matrix, for any column count; refused exactly when there are no experts, no codebooks, no whole k tile, or columns that are not whole records of every tile |
| Iq2rPack.PackingPreservesWeights | aiter/iq2r_glm53.py:77-146 | every weight of every expert, record, lane, atom, word and byte, and every upper metadata nibble, survives |
| Iq2rQuad.TargetsApart | aiter/iq2r_glm53.py:160-180 | the regroup is injective on (cell, byte) |
| Iq2rQuad.TargetCovered | aiter/iq2r_glm53.py:157-181 | every byte of the uninitialised target is written |
| Iq2rQuad.RegroupDetermined | aiter/iq2r_glm53.py:149-181 | the regrouped bytes are determined by the source |
| Iq2rQuad.SourceByParts | aiter/iq2r_glm53.py:160-180 | block 6k + 3m + a is read from group k, triplet m, atom a |
| Iq2rQuad.RegroupedBytes | aiter/iq2r_glm53.py:149-181 | where every byte moves, in flat positions on both sides |
| Iq2rQuad.QuadGate | aiter/iq2r_glm53.py:149-213 | the regroup succeeds exactly for matching layouts, is complete, and has gate_bytes bytes per expert |
| Iq2rShard.SliceIsRegroupedShard | aiter/iq2r_glm53.py:149-227 | slicing a regrouped matrix is regrouping the shard |
| Iq2rShard.SlicedQuad | aiter/iq2r_glm53.py:216-227 | quad q of every expert of the slice is quad start / 64 + q of the full matrix |
| Iq2rShard.PackedGateDecodes | aiter/iq2r_glm53.py:77-181 | every weight of block 6k + 3m + a decoded from the packed quads is the canonical weight decoded from the bytes at its flat place in the data |
| Iq2rFormat.SliceAux | aiter/ops/iq2r_format.py:145-187 | the sliced auxiliary: its size, and exactly when the slice is refused |
| Iq2rFormat.SliceInput | aiter/ops/iq2r_format.py:190-222 | the sliced data: its size, and exactly when the slice is refused |
| Iq2rFormat.SizesAreLeast | aiter/ops/iq2r_format.py:46-98 | storage takes the least whole groups of six blocks and whole tiles of 128 inputs |
| Iq2rFormat.SlicedExponent | aiter/ops/iq2r_format.py:159-187 | exponent t of the slice is that of block start / 16 + t, and 127 behind the last block |
| Iq2rFormat.SlicedTile | aiter/ops/iq2r_format.py:207-222 | tile t of a group of the slice is tile start / 128 + t of the same group |
| Iq2rFormat.SliceKeepsBooks | aiter/ops/iq2r_format.py:173 | every expert of the sliced auxiliary has its old codebook |
| Iq2rFormat.SliceOfClearedIsClearedSlice | aiter/ops/iq2r_format.py:159-187 | slicing the auxiliary commutes with any change of the codebook bytes, fill bytes included |
| Iq2rShard.SliceOfPackedAux | aiter/iq2r_glm53.py:14-16 | slicing the packed auxiliary is packing the sliced auxiliary |
| Iq2rShard.SliceOfPackedGate | aiter/iq2r_glm53.py:185-227 | a 64-column-aligned slice of the packed quads is, byte for byte, the shard packed with any auxiliary that has the same codebooks |
| Iq2rShard.SliceOfPackedIsPackedShard | aiter/iq2r_glm53.py:14-16 | pack then slice is slice then pack: quads and auxiliary, the shard carrying its own sliced auxiliary |
| Iq2rDown.TilesOfPackedArePackedTiles | aiter/ops/iq2r_format.py:212-222 | taking whole k tiles commutes with both packed forms, byte for byte |
| Iq2rDown.DownSliceOfPackedIsPackedShard | aiter/iq2r_glm53.py:14-16 | pack then slice the inputs is slice then pack, for the down matrix and its auxiliary |
| Iq2rShard.PackGateUp | aiter/iq2r_glm53.py:185-206 | packing works on a copy and refuses exactly the mismatched layouts |
| Iq2rShard.PackDown | aiter/iq2r_glm53.py:185-206 | the down matrix is packed on a copy, and refused exactly for the shapes the passes refuse |
| Iq2rWorkspace.SelectedConfigRuns | aiter/iq2r_glm53.py:244-341 | whatever the tuned table holds, the selected configuration can run the tokens |
| Iq2rWorkspace.SelectsLeastUsableRow | aiter/iq2r_glm53.py:318-341 | the configuration is that of the first row at or above the tokens that can run them, the least one in a sorted table, and the default if there is none |
| Iq2rWorkspace.RunsExactlyWhen | aiter/iq2r_glm53.py:251-282 | the configurations that can run a token count |
| Iq2rWorkspace.DefaultConfigAtItsBounds | aiter/iq2r_glm53.py:244-248 | the default on both sides of each of its bounds |
| Iq2rWorkspace.AllocationAtItsBounds | aiter/iq2r_glm53.py:349-412 | the buffer lengths of the smallest and the largest workspace |
| Iq2rWorkspace.TasksFit | aiter/iq2r_glm53.py:349-350 | for any split of the routes over at most 258 buckets the task count is within the capacity |
| Iq2rWorkspace.CapacityMonotone | aiter/iq2r_glm53.py:349-350 | the capacity never shrinks with more routes |
| Iq2rWorkspace.NeverTruncates | aiter/iq2r_glm53.py:376-540 | no slice of an accepted launch is shortened |
| Iq2rWorkspace.AcceptedLaunchFits | aiter/iq2r_glm53.py:251-540 | an accepted launch has room for the tasks of every routing, and its kernels exist |
| Iq2rWorkspace.LaunchOnce | aiter/iq2r_glm53.py:462-540 | a call that fits the workspace writes its rows once or, refused, none |
| Iq2rWorkspace.RunChunks | aiter/iq2r_glm53.py:441-461 | the chunk loop writes exactly the chunks before the first one whose routing is short |
| Iq2rWorkspace.ChunkVerdict | aiter/iq2r_glm53.py:452-465 | a chunk goes through exactly when the shapes are right and its slice does not run out of rows |
| Iq2rWorkspace.StopsShort | aiter/iq2r_glm53.py:441-466 | at the first refused chunk the whole call is one that fails, with exactly the chunks before it written |
| Iq2rWorkspace.MoeOut | aiter/iq2r_glm53.py:414-540 | the call succeeds exactly when it is a gfx950 call whose routing has one row per token (at least one, in chunks) and whose configuration runs; the rows it writes, in success and failure, are stated exactly, each once; launches lie end to end, all but the last of full size, each with the caller's configuration or the one selected for its own tokens |
| Iq2rWorkspace.LaunchAt | aiter/iq2r_glm53.py:441-472 | launch k of a call that succeeds: where it begins, how many tokens it takes, and which configuration it runs |
| Iq2rWorkspace.LaunchHasRoom | aiter/iq2r_glm53.py:473-540 | each launch has one entry a route in its buffers and room for the tasks of every routing |
| Iq2rWorkspace.OneLaunchTakes | aiter/iq2r_glm53.py:462-465 | a single launch without a given configuration takes exactly routings of its tokens, nine routes each, weights float32 and without gaps |
| Iq2rWorkspace.ShortRoutingIsHalfWritten | aiter/iq2r_glm53.py:441-466 | 5000 routing rows for 8192 tokens: the call fails with 4096 rows written |
| Iq2rWorkspace.LongRoutingPassesInChunks | aiter/iq2r_glm53.py:441-466 | 3000 routing rows for 2048 tokens: accepted in chunks, refused in one launch |
| CommentStrip.BlocksLeaveNoOpener | hsa/codegen.py:47-56 | no block comment opener survives, not even one a deletion joins |
| CommentStrip.BlockIsCut | hsa/codegen.py:47-56 | a text up to its first opener, a comment up to its first closer, and a rest: the comment goes, text and rest are stripped as one |
| CommentStrip.OpenBlockIsCut | hsa/codegen.py:53-55 | a comment that is never closed takes everything behind its opener |
| CommentStrip.StripLineTwice | hsa/codegen.py:17-42 | stripping a line only shortens it at its end, and twice is once |
| CommentStrip.ScanIsTheFirstComment | hsa/codegen.py:17-42 | the scan finds the first `#`, `;` behind a blank, or `//` without a slash of a scheme that has an even number of quote characters before it; none if there is none |
| CommentStrip.CommentIsCut | hsa/codegen.py:17-42 | a line with a comment becomes what stands before the first one, without the blanks at its end |
| CommentStrip.StripLineEndComments | hsa/codegen.py:17-42 | the quote-aware index loop is the recursive scan |
| CommentStrip.StripBlockComments | hsa/codegen.py:47-56 | the rescan loop ends and computes the block deletion |
| CommentStrip.StripCsvComments | hsa/codegen.py:45-68 | the whole function against its specification |
| CommentStrip.IsCommentLineExactlyWhen | hsa/codegen.py:65 | a line is dropped exactly if its first character that is no blank begins a mark |
| CommentStrip.BreaksAreBlanks | hsa/codegen.py:57-65 | the characters that break lines and the further ones that count as blank |
| CommentStrip.LineByLine | hsa/codegen.py:57-67 | a line and its newline: dropped if it is a comment line, else stripped with the newline kept; then the rest |
| CommentStrip.OtherLineByLine | hsa/codegen.py:57-67 | a line that ends in any other break is stripped together with the break |
| CommentStrip.CsvWithBlock | hsa/codegen.py:45-68 | the whole stripper treats a block comment as if it were not there |
| CommentStrip.CsvLineByLine | hsa/codegen.py:45-68 | the whole stripper on a text without block comments, line by line |
| CommentStrip.LinePassTwice | hsa/codegen.py:57-68 | the line pass is idempotent on every text whose cut lines keep their breaks |
| CommentStrip.LinePassNoOpener | hsa/codegen.py:57-68 | on such texts the line pass creates no block comment opener |
| CommentStrip.StripTwice | hsa/codegen.py:45-68 | stripping is idempotent on a text if no comment is cut together with a break that something kept follows, whatever breaks it uses |
| CommentStrip.NewlineFilesTwice | hsa/codegen.py:45-68 | stripping is idempotent on newline-only files |
| CommentStrip.IdempotentExactlyForNewlines | hsa/codegen.py:45-68 | idempotent on all texts over a set of line breaks iff the newline is the only one |
| CommentStrip.OtherBreaksBreakIt | hsa/codegen.py:45-68 | `/#`, another break, `/b`: the second run deletes what the first one kept |
| MropeGrids.VisionAt | aiter/rotary_embedding.py:1140-1159 | the three expanded index tensors are three nested loops |
| MropeGrids.VisionEndsAtTop | aiter/rotary_embedding.py:1140-1159 | a vision segment ends at its largest position |
| MropeGrids.MaxOfIsTheLargest | aiter/rotary_embedding.py:1135-1138 | the maximum of the columns is the largest number in all three rows |
| Mrope.RunSegments | aiter/rotary_embedding.py:1097-1161 | the segment loop with its counters and growing list, errors included |
| Mrope.GetInputPositions | aiter/rotary_embedding.py:1070-1174 | the whole function, from grids to positions and delta, against its specification |
| MropeLaws.PairsCountItems | aiter/rotary_embedding.py:1088-1094 | start tokens followed by a placeholder count the images and the videos |
| MropeLaws.LoopTakesAllItems | aiter/rotary_embedding.py:1097-1161 | on a well-formed prompt the loop never fails and takes exactly the prompt's items in order |
| MropeLaws.ColumnsOfThePrompt | aiter/rotary_embedding.py:1097-1170 | exactly one column per token, and they are the reference columns |
| MropeLaws.SegmentsStartPastTheMaximum | aiter/rotary_embedding.py:1135-1168 | every segment starts one past the maximum of everything before it |
| MropeLaws.ColumnsEndAtTop | aiter/rotary_embedding.py:1135-1170 | the last column attains the maximum |
| MropeLaws.PositionsAreTheColumns | aiter/rotary_embedding.py:1170-1174 | every context that leaves a column yields the columns from there and the same delta, that of the whole prompt |
| MropeLaws.PositionsFrom | aiter/rotary_embedding.py:1170-1174 | what a context leaves, from its column on or counted from the end, and that exactly a context past the last column fails |
| MropeLaws.DecodingResumes | aiter/rotary_embedding.py:1171-1189 | the position after the prompt is one past the largest, whatever context the delta came from |
| MropeLaws.NextPositionsAt | aiter/rotary_embedding.py:1177-1189 | decoded positions count up by one in all three rows |
| MropeLaws.GridItemIsGood | aiter/rotary_embedding.py:1128-1161 | every nonempty merged grid makes a segment with one placeholder per merged cell |
| MropeLaws.GridPromptIsWellFormed | aiter/rotary_embedding.py:1070-1161 | texts with one placeholder per merged cell of each grid make a prompt to which all these laws apply |
| MropeLaws.TooFewGridsFail | aiter/rotary_embedding.py:1101-1127 | a prompt with fewer image grids than images, or fewer video grids than videos, fails, whatever else it holds |
| MropeLaws.CellColumn | aiter/rotary_embedding.py:1128-1161 | cell (a, b, c) of an image or video whose placeholders begin at token k has the column (s + a, s + b, s + c), s one past the maximum of the k columns before; the prompt is given as texts and grids |
| MropeLaws.TextTokenColumn | aiter/rotary_embedding.py:1134-1168 | token j of a text has all three positions j past the maximum of the columns before the text, plus one |
| MoeReference.LocalHash | aiter/fused_moe.py:5961-5964 | the in-place hash is the running count minus one, and minus one where masked out |
| MoeReference.HashFindsWeights | aiter/fused_moe.py:5961-5964 | every kept expert's local id holds that expert's weights |
| MoeReference.HashIncreases | aiter/fused_moe.py:5961-5964 | the renumbering keeps the order, so it is injective |
| MoeReference.HashReachesAll | aiter/fused_moe.py:5961-5964 | every local id belongs to a kept expert |
| MoeReference.FillExpert | aiter/fused_moe.py:5987-5998 | one turn of the expert loop fills exactly that expert's routes |
| MoeReference.TorchMoe | aiter/fused_moe.py:5939-6000 | the expert loop and the final sum compute the weighted sum over a token's local routes |
| MoeReference.CombinedOfBoth | aiter/fused_moe.py:5999-6000 | the sum over two lists of routes is the sum of their sums |
| MoeReference.CombinedOfOne | aiter/fused_moe.py:5987-6000 | one route: its weight times the answer of the expert with that id, zero if there is none |
| MoeReference.RankMoe | aiter/fused_moe.py:5939-6000 | the same on one rank, with renumbered ids |
| MoeReference.AllRanksScale | aiter/fused_moe.py:5939-6000 | the ranks' outputs sum to every route counted once per rank that keeps its expert |
| MoeReference.RanksSumToWhole | aiter/fused_moe.py:5939-6000 | for masks that partition the experts the ranks sum to the unmasked output |
| MoeReference.ConservesExactly | aiter/fused_moe.py:5939-6000 | whatever the experts answer: conservation over every routing holds iff each expert is kept by exactly one rank or answers zero |
| MoeReference.SharedExpertCountsTwice | aiter/fused_moe.py:5939-6000 | an expert kept by two ranks counts twice |
| SortCapacity.CountsSum | aiter/fused_moe.py:225-232 | every route is counted once |
| SortCapacity.CountsFitActive | aiter/fused_moe.py:226-232 | counts that sum to at most the routes fit ids and blocks, and the block count is exact |
| SortCapacity.ActiveSortFits | aiter/fused_moe.py:346-350 | for every routing the block-padded experts fit the allocation by active experts |
| SortCapacity.TightCountsFillTheSort | aiter/fused_moe.py:346-350 | counts with one route more than whole blocks for each used expert fill that allocation |
| SortCapacity.FullSortFits | aiter/fused_moe.py:641-648 | with one token of distinct experts the allocation by all experts fits, even when empty experts take blocks |
| SortCapacity.PlainSortFits | aiter/fused_moe.py:641-648 | when only used experts take blocks, topk up to the expert count is enough |
| SortCapacity.CountsFitAll | aiter/fused_moe.py:641-648 | with blocks for empty experts the allocation is enough once topk is at most the experts in use plus the block size minus one |
| SortCapacity.TightCountsFitExactly | aiter/fused_moe.py:641-648 | when every used expert has one route more than whole blocks, that condition is exact |
| SortCapacity.FitsInUseExactly | aiter/fused_moe.py:641-648 | for every block size: all counts with k experts in use fit iff topk is at most k plus the block size minus one |
| SortCapacity.EveryRoutingFitsExactly | aiter/fused_moe.py:641-648 | every routing fits iff the block is larger than topk |
| SortCapacity.TokensFitExactly | aiter/fused_moe.py:641-648 | every routing with a token fits iff topk is at most the block size |
| SortCapacity.RepeatedExpertOverflows | aiter/fused_moe.py:641-648 | one token that repeats an expert more often than a block holds does not fit |
| TokenBuckets.NextPow2IsLeast | aiter/fused_moe.py:2561-2564 | nextPow2 is the least power of two not below n |
| TokenBuckets.PaddedMInEachTier | aiter/fused_moe.py:2567-2582 | the least power of two below 32768 tokens, then 32768, and 131072 from there on |
| TokenBuckets.BucketIsRequired | aiter/fhmoe.py:559-563 | every count up to the maximum falls into a required bucket |
| TokenBuckets.RequiredExactly | aiter/fhmoe.py:559-563 | the required set is exactly the buckets of all counts up to the maximum |
| TokenBuckets.SupportsConfig | aiter/fhmoe.py:547-597 | the check accepts iff the lookup is valid for every count up to the maximum |
| TokenBuckets.SupportsMxfp8Config | aiter/fhmoe.py:627-720 | the same with the extra test on the largest bucket, whose metadata the loop always meets |
| ChunkSchedule.RepeatAt | aiter/ops/causal_conv1d_fwd_split_qkv.py:82-86 | position p repeats the value of the run it falls into |
| ChunkSchedule.BuildIsNestedLoop | aiter/ops/causal_conv1d_fwd_split_qkv.py:60-87 | the vectorised schedule is the nested loop's list of pairs |
| ChunkSchedule.BuildRefusesExactlyWhen | aiter/ops/causal_conv1d_fwd_split_qkv.py:60-87 | the schedule is refused exactly if some start falls back by a whole block or more and the chunk counts do not cancel |
| ChunkSchedule.PairPosition | aiter/ops/causal_conv1d_fwd_split_qkv.py:60-87 | every needed chunk is listed, at its place |
| ChunkSchedule.PairIsNeeded | aiter/ops/causal_conv1d_fwd_split_qkv.py:60-87 | every listed pair is a needed chunk |
| ChunkSchedule.TileHasToken | aiter/ops/causal_conv1d_fwd_split_qkv.py:60-87 | every listed pair's tile holds a token |
| ChunkSchedule.TokenHasTile | aiter/ops/causal_conv1d_fwd_split_qkv.py:60-87 | every token lies in a tile |
| ChunkSchedule.TilesApart | aiter/ops/causal_conv1d_fwd_split_qkv.py:60-87 | no token lies in two tiles and no tile leaves the token range |
| ChunkSchedule.Tile | aiter/ops/causal_conv1d_fwd_split_qkv.py:125-131 | the tile is one of the four supported sizes, and a supported choice of the caller is kept |
| ChunkSchedule.TileByAverage | aiter/ops/causal_conv1d_fwd_split_qkv.py:125-131 | without a supported choice the tile grows with the tokens per sequence: at most 12, 24, 48, more |
| ChunkSchedule.NumsDict.Get | aiter/ops/causal_conv1d_fwd_split_qkv.py:153-180 | a stored schedule is returned whatever starts it was built from, a missing one is built and stored; a table of the call's starts answers with their schedule |
| BertIndex.Gather | aiter/bert_padding.py:8-21 | the forward gather |
| BertIndex.Scatter | aiter/bert_padding.py:45-57 | zeros overwritten at the indices |
| BertIndex.ScatterAdd | aiter/bert_padding.py:86-96 | the residual backward adds in place |
| BertIndex.GatherAfterScatter | aiter/bert_padding.py:45-66 | gathering after scattering is the identity for distinct indices |
| BertIndex.ScatterAddAdjoint | aiter/bert_padding.py:71-96 | the residual backward is the adjoint of its forward for all indices |
| BertIndex.ScatterAdjoint | aiter/bert_padding.py:8-66 | scatter and gather are adjoint, either one as the forward, for distinct indices |
| BertIndex.AdjointExactlyWhenDistinct | aiter/bert_padding.py:24-39 | they are adjoint on all inputs iff no index is repeated |
| BertIndex.SameRowTwice | aiter/bert_padding.py:24-39 | the same row gathered twice breaks it |
| BertPadding.NonZeroIsTheSelection | aiter/bert_padding.py:120 | the indices name every selected position once |
| BertPadding.PadAfterUnpad | aiter/bert_padding.py:102-228 | pad after unpad keeps masked entries and zeroes the rest |
| BertPadding.UnpadAfterPad | aiter/bert_padding.py:102-228 | unpad after pad is the identity |
| BertPadding.CuSeqlensDelimitRows | aiter/bert_padding.py:118-122 | row b's positions are the indices from cu_seqlens[b] up to cu_seqlens[b+1] |
| BertPadding.UnpadKeepsToken | aiter/bert_padding.py:102-134 | every selected token is packed inside its row's stretch |
| BertPadding.LongestRow | aiter/bert_padding.py:118-134 | max_seqlen is the longest stretch that cu_seqlens delimits |
| BertPadding.UsedLength | aiter/bert_padding.py:118-134 | the used lengths count the attended positions of a row alone |
| BertPadding.CuSeqlensMatchExactly | aiter/bert_padding.py:115-122 | cu_seqlens ends at the number of indices iff no mask entry exceeds one |
| BertPadding.CountedTwice | aiter/bert_padding.py:115-122 | one position both attended and unused: one index, cu_seqlens ends at two |
| BertPadding.SegmentStaysInRow | aiter/bert_padding.py:189-200 | for rows that fit, segment k maps to consecutive positions of one row |
| BertPadding.SegmentIsAStretchOfTheInput | aiter/bert_padding.py:189-211 | the packed tokens of segment k are a stretch of one input row |
| BertPadding.ConcatenatedLengths | aiter/bert_padding.py:189-211 | for concatenated sequences max_seqlen is the longest segment |
| BertPadding.SegmentsCoverExactlyWhenRowsFit | aiter/bert_padding.py:189-200 | cu_seqlens ends at the number of indices iff every row's lengths fit |
| BertPadding.RowOverflows | aiter/bert_padding.py:189-200 | a row of two positions with length three: two indices, cu_seqlens ends at three |
| MemoryDiagnostics.Diagnostic.MaybeLog | aiter_worker_limits.py:289-320 | the method on the globals is the state machine's step |
| MemoryDiagnostics.FirstCallWarnsExactlyWhen | aiter_worker_limits.py:289-320 | the first call warns iff memory allows fewer workers than the processors and any set ceiling, a bound was seen, and it leaves at most three workers or a quarter |
| MemoryDiagnostics.RecoveryForgetsTheBudget | aiter_worker_limits.py:295-320 | after a recovery the next shortfall warns again, whatever was warned before, once the minute is over |
| MemoryDiagnostics.WarningsApart | aiter_worker_limits.py:289-320 | over any run, the i-th and j-th warnings are at least (j - i) minutes apart, recoveries or not |
| MemoryDiagnostics.BudgetsHalve | aiter_worker_limits.py:300-320 | between recoveries every warned budget is at most half the one before |
| MemoryDiagnostics.EpisodeWarnsFewTimes | aiter_worker_limits.py:289-320 | an episode first warned at budget b warns at most floor(log2 b) + 1 times |
| MemoryDiagnostics.BoundIsMet | aiter_worker_limits.py:289-320 | for every b some episode warns exactly that often |
| MemoryDiagnostics.SplitUsesTheBudget | aiter_worker_limits.py:489-504 | outer times inner never exceeds a positive budget and leaves less than outer unused |
| MemoryDiagnostics.OuterIsTheGreatest | aiter_worker_limits.py:489-504 | as many modules at once as the budget, the module count and the ceiling all allow, and at least one |
| MountinfoPath.DecodeMountinfoPath | aiter_worker_limits.py:89-98 | the four replacements decode the path |
| MountinfoPath.ReplaceAddsEscape | aiter_worker_limits.py:89-98 | for every string, replacing one more escape equals a one-pass decoder with one more escape |
| MountinfoPath.DecodeEncoded | aiter_worker_limits.py:89-98 | decoding an encoded path gives the path back |
| MountinfoPath.DecodedHead | aiter_worker_limits.py:89-98 | the four escapes by their texts |
| MountinfoPath.OtherHeadStays | aiter_worker_limits.py:89-98 | any other character stays |

## Left out

- Rounding, dtypes and 32-bit index overflow: arithmetic is exact and unbounded, except for the byte code, which works on 8-, 32- and 36-bit vectors.
- Device kernels behind launches (attention stage 1, sorting, IQ2R decode and MoE kernels, the convolution): only the contract the host code relies on appears; the IQ2R decoder is defined from the packing code.
- Stage2Kernel.Stage2Program: the value buffer seen at the output's element type is an array of its own; how its bytes overlap the value buffer is not modelled.
- Iq2rRecords.RewriteAtoms: tensor operations over all records and lanes at once are a loop over records and lanes; the order within one tensor operation is therefore fixed.
- Iq2rDown.DownSliceOfPackedIsPackedShard: a shard is the slice of the canonical matrix by `iq2r_slice_input_data`; type checks on tensors and metadata objects are not modelled.
- Iq2rWorkspace.MoeOut: the hidden states have one row per token; the sort scratch buffer and the contents of outputs are not modelled, only which rows each launch writes and which buffer lengths it sees.
- Mrope.GetInputPositions: grid extents are natural numbers and the spatial merge size is positive; every grid is expanded before the loop instead of when its turn comes; positions are a list of columns instead of three rows.
- PageCsr.PreparePageCsr: contents behind the tensors are given beside their shapes; the lengths obey the documented guarantee, which the code does not check.
- Mrope.TakeSegment: the order of evaluation among several simultaneous errors follows the code, but messages are an enumeration.
- MoeReference.TorchMoe: expert ids lie within the expert range, an expert is an arbitrary function of its weights, and scales are part of the weights.
- ChunkSchedule.Build: device moves, and the precomputed metadata object that bypasses the table, are not part of this model.
- BertIndex.Scatter: a row is one value; the trailing dimensions behave alike.
- MemoryDiagnostics.Diagnostic.MaybeLog: the message text, the reset after a fork and reading the cgroup files; a run is a sequence of calls because the lock makes each call atomic.
- MountinfoPath.Encoded: the kernel's encoder, defined from the four escapes of the decoder.
- CommentStrip.StripCsvComments: reading the file and parsing the CSV.
- Tuned configuration tables, backend selection (`get_2stage_cfgs`, `_fused_moe_impl`), environment variables, caches, logging, process pools and heuristic cost models.
