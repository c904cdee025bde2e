# Verification of Helion's example kernels and library state

Helion compiles Python kernels written over tiles. This project models the repository's most
involved example kernels, each beside the plain reference in its own file, and the two pieces of
library code with state of their own, and proves that the tiled, masked, concurrent or cached
form means what the simple form means, over all shapes, block sizes and schedules. Flex attention,
segmented reduction, two-pass softmax, atomic split-K and FP4 requantisation do so under conditions,
which are proved exact; they are listed under "What does not hold as written".

`dafny verify dfyconfig.toml` checks the whole project.

| file | what it holds |
|---|---|
| `Options.dfy`, `FiniteSets.dfy`, `Sums.dfy`, `Tiling.dfy` | missing values; set sizes; finite sums; `cdiv`, powers of two, the ranges of `hl.tile` |
| `OnlineSoftmax.dfy` | scores with infinities and NaN, the running-maximum row and one iteration on it |
| `FlexAttention.dfy`, `FlexAttentionLaws.dfy`, `Attention.dfy`, `TwoPassSoftmax.dfy` | block-sparse attention and what its rows mean; dense and causal attention; two-pass softmax |
| `AtomicAdds.dfy` | a memory with atomic additions landing in any order |
| `SplitKBarrier.dfy`, `SplitKAtomic.dfy`, `GroupedGemm.dfy` | the concurrent matrix products |
| `SegmentReduction.dfy`, `AttentionBackward.dfy` | segmented scan and attention gradients with atomic adds |
| `ForwardBackward.dfy`, `AttentionGradients.dfy` | forward and backward attention together: the backward pass as the derivative of the forward pass |
| `ScaleLayout.dfy`, `Fp4.dfy`, `BlockScaled.dfy`, `Int4Gemm.dfy` | scale layout, 4-bit codecs and the products on them |
| `JaggedAttention.dfy`, `Welford.dfy`, `FusedJsd.dfy` | jagged HSTU attention, layer norm, chunked loss |
| `ChunkScan.dfy`, `ChunkState.dfy`, `ChunkRecurrence.dfy` | the Mamba-2 chunk kernels and the recurrence they compute |
| `ArgumentDevice.dfy` | the argument-device search and its path cache |
| `TimerLog.dfy`, `TimingReport.dfy`, `CompileTime.dfy` | the compile-time tracker |

## How to read it

Tensor elements are exact reals. Attention scores are `NegInf`, `Fin(x)`, `PosInf` or `NaN`, so that
"no step computes -inf - -inf" is something the proofs can state.
`exp`, `exp2`, `log`, `silu` and `rsqrt` are parameters; of the exponentials only positivity and
e(x + y) = e(x) e(y) are used, and of the logarithm only that it undoes them.

A sequential kernel is a method with the source's loops. Where elements of a tile do not interact,
the tile is taken element by element or row by row and the reduction loop is the source's. The
programs of the attention grids only read their inputs and store disjoint rows, which
`FlexAttention.Program` and `Attention.StoreRow` state, so any order of programs stands for any
interleaving. Kernels whose programs do interact are step machines: workers with a program counter,
shared memory, and one step of one worker at a time in any order (`SplitKBarrier`, `GroupedGemm`),
or atomic additions landing in any order (`AtomicAdds`). The resolver and the tracker are classes.

## What does not hold as written

- Flex attention reads the block table row of a tile's first query row. For a `block_m` that does not
  divide `block_mask_m`, with more rows than one mask block, some rows read another row's table:
  `SparseRowIsSharedIffAligned` gives the exact condition, and `MisalignedRun` runs the loops on a failing
  mask for all other sizes. Such sizes are allowed: the bound on `block_m` is rounded up to a power of
  two (helion/language/tunable_ops.py:101), so a mask block of 96 rows admits 64 and 128.
- For a row with a plus-infinity score the log-sum-exp of flex attention is NaN where the dense one is
  plus infinity (`Overflows` in `IsStored`); its output is the dense softmax, NaN, all the same.
- Segmented reduction loses the last run when the masked-off load of the next index, which yields 0
  (helion/language/memory_ops.py:7393-7395), equals the last index inside a partial tile.
  `KernelIsScatterAddIff` is the exact condition, for any value of that load. Sortedness is more than
  the scan needs: `TileScanIsDefinedIff`.
- Two-pass softmax yields NaN for a row whose first tile is all minus infinity although a later entry is
  finite, so its result depends on the block size: `TwoPass`.
- Split-K with atomic adds launches no program when k is 0 and then never applies its epilogue:
  `OutputIsMatMulPlusBiasIff`.
- The chunk of logits of the fused loss exceeds the input whenever the batch has fewer rows than
  `inc_factor`, although a chunk is then a single row: `ChunkFitsIff`.
- FP4 code 8 (negative zero) decodes to 0.0 and quantises to code 0: `QuantizeInvertsDecode`.

## Model

| member | source | states |
|---|---|---|
| `Tiling.NextPowerOf2IsLeast` | helion/_utils.py:20-24 | the result is a power of two at or above n, and no power of two at or above n is smaller |
| `Tiling.PrevPowerOf2IsGreatest` | helion/_utils.py:27-32 | the result is a power of two, at most n for n >= 1 and 1 below that, and no power of two within n is larger |
| `Tiling.CdivCovers` | helion/_utils.py:15-17 | b blocks of the quotient's count cover a, one block fewer does not |
| `Tiling.TilesPartition` | README.md:96-108 | every index of a range lies in exactly one tile, the one of its own quotient, and tiles hold no other index, for any begin, end and block size |
| `Tiling.SumOverTiles` | README.md:96-108 | summing tile by tile is summing the range, for every block size |
| `OnlineSoftmax.SafeStepExtends` | examples/flex_attention.py:140-154 | one guarded iteration turns a row that represents the keys seen so far into one that represents those and the tile's keys: true running maximum, normaliser and value sums relative to it, zeros and minus infinity while nothing is visible, NaN sums once a score is NaN or plus infinity and never otherwise; the initial l = 1.0 is erased by the first rescale |
| `OnlineSoftmax.PlainStepExtendsIff` | examples/attention.py:248-258 | the iteration without the m_safe guard keeps the row's meaning exactly when some score seen so far is not minus infinity |
| `OnlineSoftmax.UpdateShifts` | examples/flex_attention.py:145-154 | for any finite shift the update yields the masses of old and new keys together relative to that shift |
| `OnlineSoftmax.RowIsSoftmax` | examples/flex_attention.py:194-197 | a row that has visited every visible key once, in any order: its maximum is finite exactly when some key is visible and no score is NaN or plus infinity, and then l >= 1, acc / l is the unshifted softmax average and exp(m + log l) the unshifted normaliser; with a NaN or plus-infinity score the normaliser, the quotients and the log-sum-exp are NaN |
| `OnlineSoftmax.MassIsSum` | examples/flex_attention.py:119-154 | visiting a duplicate-free list of keys that omits only hidden ones sums what the dense range sums |
| `OnlineSoftmax.MassRescale` | examples/flex_attention.py:148-151 | changing the shift of a mass multiplies it by the exponential of the difference |
| `FlexAttention.SparseRowIsSharedIffAligned` | examples/flex_attention.py:98 | reading the table row of a tile's first query row serves every row of every tile exactly when the rows fit one mask block or block_m divides block_mask_m |
| `FlexAttention.MisalignedTileFails` | examples/flex_attention.py:92-98 | for any other sizes, a row that has seen the walk of its tile's table row on the stepped mask is not the softmax of row block_mask_m |
| `FlexAttention.MisalignedRun` | examples/flex_attention.py:87-199 | for every misaligned choice of sizes and every block_n, the kernel's own loops and epilogue, from the initial state on a valid block mask, store a row that is not its softmax and an lse that is not its log-sum-exp |
| `FlexAttention.WalkCovers` | examples/flex_attention.py:113-168 | walking the full then the partial list visits every visible key of the row exactly once, given disjoint duplicate-free lists, full blocks that are all visible and no visible key in an unlisted block |
| `FlexAttention.WalkKeys` | examples/flex_attention.py:129-154 | the inner key loop, for any block_n, adds exactly the keys start_n..end_n to every row of the tile; the unmasked form needs them all visible |
| `FlexAttention.WalkBlock` | examples/flex_attention.py:120-129 | a listed block contributes its keys clipped to the number of keys |
| `FlexAttention.WalkList` | examples/flex_attention.py:157-192 | a list contributes the keys of its blocks in order, on top of what earlier lists contributed |
| `FlexAttention.WalkLists` | examples/flex_attention.py:93-192 | both loops of a program leave rows that represent the whole walk of the table row they read, given only that its full blocks are visible to the tile; with both lists empty l stays at its initial 1.0 |
| `FlexAttention.FinalRowIsDense` | examples/flex_attention.py:194-197 | the epilogue yields the dense masked softmax (zeros without a visible key, NaN with a visible NaN or plus infinity) and its natural log-sum-exp, the latter exactly when the row does not overflow |
| `FlexAttention.Program` | examples/flex_attention.py:92-199 | a program stores that in every row of its tile and changes no other element of out or lse |
| `FlexAttention.Kernel` | examples/flex_attention.py:92-200 | for every block size with aligned tables, every mask, score modifier (NaN and infinities included), grouped-query setting and order of programs: every row of out is its dense masked softmax, and its lse is the dense log-sum-exp exactly when no visible score is plus infinity with none NaN, where the kernel stores NaN |
| `FlexAttentionLaws.GroupsAreRepeats` | examples/flex_attention.py:74-104 | a row is what the kernel stores exactly when it is that of the problem whose key and value heads are each repeated H // Hk times in a row: each serves that many consecutive query heads |
| `FlexAttentionLaws.TablesRepeat` | examples/flex_attention.py:84-103 | batch and head entries of a block table repeat at all multiples of its sizes, and its blocks are the table's own, in order |
| `FlexAttentionLaws.MaskIsScoreMod` | examples/flex_attention.py:170-181 | a mask and a score_mod that answers minus infinity at the same indices store the same rows |
| `FlexAttentionLaws.PlainIsAttention` | examples/flex_attention.py:129-200 | without score_mod, unmasked or with the causal mask, the row is that of the kernels in examples/attention.py, with lse in natural instead of base-2 units |
| `Attention.RowStepExtends` | examples/attention.py:241-258 | one iteration of the dense or causal loop keeps the row's meaning for every row and tile, because key 0 is visible to every row |
| `Attention.RowLoop` | examples/attention.py:294-322 | the key loop leaves the statistics of all keys whatever the block size |
| `Attention.FinishedRowIsSoftmax` | examples/attention.py:259-261 | the finished row is the whole-row softmax and its base-2 log-sum-exp; with no keys at all, zeros and minus infinity |
| `Attention.StoreRow` | examples/attention.py:323-325 | the epilogue stores one row and leaves every other row alone |
| `Attention.Kernel` | examples/attention.py:236-262 | dense and causal kernels: every row of out and lse is its softmax, rows taken in any order |
| `Attention.CausalIsPrefix` | examples/attention.py:302-308 | a causal row is the row of the unmasked problem over the keys up to its own position, or over all keys when there are no more |
| `TwoPassSoftmax.FirstPassStep` | examples/softmax.py:87-94 | one tile moves maximum and normaliser from the initial values or a prefix's statistics to those of the longer prefix, minus infinity and NaN entries included |
| `TwoPassSoftmax.FirstPass` | examples/softmax.py:85-94 | the row's maximum, and its normaliser exactly when the maximum is finite and the first tile has an entry above minus infinity; otherwise the normaliser is NaN |
| `TwoPassSoftmax.EntryIsSoftmaxIff` | examples/softmax.py:95-97 | an entry computed from those statistics is the row's softmax exactly under that condition or when the softmax is NaN itself |
| `TwoPassSoftmax.TwoPass` | examples/softmax.py:84-98 | for every row and block size the result is the row softmax exactly when the first tile has an entry above minus infinity or the softmax is NaN anyway; otherwise every entry is NaN |
| `SplitKBarrier.SliceFits` | examples/split_k_barrier.py:52-64 | the outer tile index always fits tmp's last dimension although block_k is rounded up to a power of two |
| `SplitKBarrier.StepInv` | examples/split_k_barrier.py:57-69 | every step of every worker keeps the invariant: slices are zero or final, accumulators hold prefix sums, the arrival count is the number of workers at the barrier, stored outputs are products |
| `SplitKBarrier.RunInv` | examples/split_k_barrier.py:57-69 | the invariant holds in every state of every interleaving |
| `SplitKBarrier.BarrierSeparatesPhases` | examples/split_k_barrier.py:66 | once all workers have arrived every slice is final and unused slices are zero |
| `SplitKBarrier.NoEarlyRead` | examples/split_k_barrier.py:64-69 | in any state of any run, a worker past the barrier sees final slices only |
| `SplitKBarrier.SlicesSumToProduct` | examples/split_k_barrier.py:69 | adding up all split_k slices, unused ones included, is the whole dot product |
| `SplitKBarrier.OutIsNeverWrong` | examples/split_k_barrier.py:68-71 | in any state of any run, whatever out holds is the matrix product |
| `SplitKBarrier.CompleteRunIsMatMul` | examples/split_k_barrier.py:50-71 | every complete run ends with out = a . b at every cell, for any tiling, worker count, assignment of tiles and interleaving |
| `SplitKBarrier.OutAppliesFactors` | examples/split_k_barrier.py:61-69 | out of every complete run, applied to any vector, first applies b and then a |
| `SplitKBarrier.NoDeadlock` | examples/split_k_barrier.py:66 | a run that is not complete has a next step: the barrier cannot block |
| `SplitKBarrier.RunsAreBounded` | examples/split_k_barrier.py:57-69 | no run is longer than the rank of its first state |
| `SplitKBarrier.ExtendsToComplete` | examples/split_k_barrier.py:57-71 | from any state of any run some continuation reaches a complete one, so the results about complete runs are about something |
| `AtomicAdds.CompleteRunSums` | examples/matmul_split_k.py:72 | when all additions have landed, in any order, a cell holds the sum of what was issued to it, each addition once |
| `AtomicAdds.NoDeadlock` | examples/matmul_split_k.py:72 | while an issued addition is missing, one can land |
| `AtomicAdds.RunsAreBounded` | examples/matmul_split_k.py:72 | after k steps k additions have landed, never more than were issued |
| `AtomicAdds.ExtendsToComplete` | examples/matmul_split_k.py:72 | every run with finitely many issued additions can be continued until all have landed |
| `SplitKAtomic.InnerLoop` | examples/matmul_split_k.py:66-68 | the inner loop accumulates its split's part of the product for any inner block size |
| `SplitKAtomic.RunProgram` | examples/matmul_split_k.py:66-72 | the loop over a program's own k range and the guarded epilogue compute exactly what the plan says the program adds |
| `SplitKAtomic.OneProgramPerSplit` | examples/matmul_split_k.py:65 | each outer split adds to each output cell from exactly one program |
| `SplitKAtomic.GridIssues` | examples/matmul_split_k.py:65-72 | of all (m, n, outer_k) programs of the grid exactly those of the cell's own output tile, one for each split, add to it |
| `SplitKAtomic.GridSum` | examples/matmul_split_k.py:65-72 | over the whole grid a cell is issued one contribution of each split, for any block sizes |
| `SplitKAtomic.FirstSplit` | examples/matmul_split_k.py:70 | exactly one split begins at 0, so the epilogue runs once |
| `SplitKAtomic.ContributionsSum` | examples/matmul_split_k.py:65-72 | all splits together give the product and, unless k is 0, the bias once |
| `SplitKAtomic.OutputIsMatMulPlusBiasIff` | examples/matmul_split_k.py:57-73 | for any tiling of the grid and any order of its programs' adds, a complete run leaves x . y plus one application of an additive epilogue exactly when k > 0 or the bias at the cell is zero |
| `SplitKAtomic.OutputAppliesFactors` | examples/matmul_split_k.py:65-72 | the result of every complete run less its bias, applied to any vector, first applies y and then x |
| `SplitKAtomic.SomeRunCompletes` | examples/matmul_split_k.py:65-73 | some order of the adds completes |
| `SegmentReduction.CombineAssociativeIff` | examples/segment_reduction.py:52-55 | the exact triples on which the combine function is associative |
| `SegmentReduction.ScanIsRunTotal` | examples/segment_reduction.py:87-88 | when the range's last index forms one run, every bracketing of the scan gives that run's total |
| `SegmentReduction.BracketingsAgreeIff` | examples/segment_reduction.py:87-88 | all bracketings of a range agree on all data exactly when its last index forms one run |
| `SegmentReduction.TileScanIsDefinedIff` | examples/segment_reduction.py:87-88 | no element of a tile's scan depends on the bracketing exactly when equal indices of the tile are contiguous |
| `SegmentReduction.SortedIsValid` | examples/segment_reduction.py:61-64 | sorted indices have contiguous runs in every tile of every block size |
| `SegmentReduction.FlushedPlusOpen` | examples/segment_reduction.py:81-93 | after any prefix, what was flushed for a node plus its open run is the node's total so far: nothing is lost or added twice |
| `SegmentReduction.KernelMissesOpenRun` | examples/segment_reduction.py:84-93 | the exact difference between kernel and scatter-add is the run left open at the end |
| `SegmentReduction.KernelIsScatterAddIff` | examples/segment_reduction.py:81-94 | with contiguous runs per tile the kernel equals scatter-add on all data exactly when the last index differs from the masked-off load or the length is a multiple of the block |
| `SegmentReduction.RunIsScatterAdd` | examples/segment_reduction.py:240-248 | any order of the atomic adds, any bracketing and block size: the output is the scatter-add reference |
| `SegmentReduction.SomeRunCompletes` | examples/segment_reduction.py:93 | some order of the adds completes |
| `AttentionBackward.TilesOfBatch` | examples/attention.py:743-751 | key tiles do not straddle batches: a program belongs to batch b exactly when it lies in b's run of tiles |
| `AttentionBackward.RowVisitedOnce` | examples/attention.py:749-752 | a program meets each query row of its own batch in exactly one query tile and no row of another batch |
| `AttentionBackward.PairMeetsOnce` | examples/attention.py:744-752 | each same-batch (query, key) pair meets in exactly one program and query tile, no cross-batch pair in any |
| `AttentionBackward.PlanIsVisits` | examples/attention.py:752-763 | a program issues an addition to a dq row exactly when one of its query tiles holds the row |
| `AttentionBackward.ContributionsSum` | examples/attention.py:762-763 | the programs' additions to a dq cell add up to the sum over the keys of the row's own batch |
| `AttentionBackward.RunIsDq` | examples/attention.py:738-767 | any order of the atomic adds leaves the per-batch gradient in dq |
| `AttentionBackward.SomeRunCompletes` | examples/attention.py:763 | some order of the adds completes |
| `AttentionBackward.KeyRow` | examples/attention.py:744-766 | the query loop leaves dk and dv of a key row equal to the sums over all query rows of its batch |
| `AttentionBackward.AddToDq` | examples/attention.py:752-763 | query tile by query tile a program adds its contribution to each row of its batch and nothing to other rows |
| `AttentionBackward.StoreKeyTile` | examples/attention.py:745-766 | a program stores dk and dv of the key rows of its own tile and changes no other row |
| `AttentionBackward.Kernel` | examples/attention.py:738-767 | all programs together leave dq, dk and dv of every batch equal to their sums over the batch's rows |
| `ForwardBackward.ProbabilitiesSumToOne` | examples/attention.py:757-758 | with the forward pass's lse the recomputed probabilities of a row add up to one |
| `ForwardBackward.DeltaIsMean` | examples/attention.py:696-705 | the preprocessed delta is the mean of v . do under those probabilities |
| `ForwardBackward.DsSumsToZero` | examples/attention.py:757-761 | the score gradients of a query row add up to zero over its batch's keys |
| `ForwardBackward.ForwardIsSaved` | examples/attention.py:778-801 | what the forward kernel stores, with k scaled and flattened as the autograd function does, is the lse and output that the results above need |
| `ForwardBackward.RowGradientsSumToZero` | examples/attention.py:770-801 | forward kernel, preprocess, backward kernel: probabilities add up to one and score gradients to zero in every row |
| `AttentionGradients.DvSumsToGradient` | examples/attention.py:756-765 | for what the kernel leaves, with the forward pass's lse, output and delta: dv adds up over the keys of a batch to the incoming gradient added up over its queries |
| `AttentionGradients.DkSumsToZero` | examples/attention.py:756-766 | likewise dk adds up to zero over the keys of a batch |
| `AttentionGradients.DkMeetsDq` | examples/attention.py:761-766 | in every batch, for any lse and delta, ln2 times k against dk is sm_scale times q against dq |
| `AttentionGradients.GradientsAreDerivative` | examples/attention.py:770-812 | the backward pass is the transpose of the derivative of the forward pass: along every direction of q, k and v the slope of the output weighed with the incoming gradient is dq, dk and dv against that direction, dk up to the factor ln2 * log2(e) |
| `AttentionGradients.QuotientsMove` | examples/attention.py:294-325 | such slopes of the output always exist: the quotient rule gives them |
| `AttentionGradients.ForwardIsReceived` | examples/attention.py:778-801 | the rows that the forward kernel stores for a batch and their preprocessing are what these laws assume |
| `GroupedGemm.PackGroupInputs` | examples/grouped_gemm.py:255-262 | starts are the running sizes and A_packed the concatenation, empty groups included |
| `GroupedGemm.ConcatRow` | examples/grouped_gemm.py:256-261 | row i of group g sits at starts[g] + i |
| `GroupedGemm.GroupOfUnique` | examples/grouped_gemm.py:156-161 | a packed row lies in exactly one group's range |
| `GroupedGemm.StoresStayInside` | examples/grouped_gemm.py:179-223 | an unmasked lane stores inside its own group's rows and the matrix's columns |
| `GroupedGemm.StoredExactlyOnce` | examples/grouped_gemm.py:163-223 | a lane stores (row, col) exactly when worker, group, local tile and lane are the ones decoded from the cell, so one iteration of one worker owns each cell |
| `GroupedGemm.StepInv` | examples/grouped_gemm.py:152-223 | every step of every worker keeps: each cell stored once if its owner has passed, never otherwise, and right when stored |
| `GroupedGemm.RunInv` | examples/grouped_gemm.py:152-223 | that invariant holds in every state of every interleaving |
| `GroupedGemm.NeverStoredTwice` | examples/grouped_gemm.py:218-223 | at every moment of every run a cell has at most one store and no cell outside the matrix has any |
| `GroupedGemm.CompleteRunIsReference` | examples/grouped_gemm.py:313-318 | every complete run stores each cell once and leaves the concatenation of A_i . B |
| `GroupedGemm.NoDeadlock` | examples/grouped_gemm.py:152-169 | a run that is not complete has a next step |
| `GroupedGemm.RunsAreBounded` | examples/grouped_gemm.py:152-223 | no run is longer than the rank of its first state |
| `GroupedGemm.ExtendsToComplete` | examples/grouped_gemm.py:152-225 | from any state of any run some continuation reaches a complete one |
| `GroupedGemm.StoreJaggedTile` | examples/grouped_gemm.py:93-102 | one tile of the basic kernel stores its dot products and changes nothing else |
| `GroupedGemm.JaggedKernel` | examples/grouped_gemm.py:73-104 | the basic kernel leaves the same concatenation for every block size and jagged group sizes |
| `ArgumentDevice.HasDeviceIffSome` | helion/_argument_device.py:32-42 | true exactly when the depth-first list of devices is not empty |
| `ArgumentDevice.VisitFindsFirst` | helion/_argument_device.py:53-90 | the search returns the first device of the depth-first list, and nothing exactly when the list is empty |
| `ArgumentDevice.FindArgumentDeviceIsFirst` | helion/_argument_device.py:93-101 | the shortcut for a leading leaf agrees with the search |
| `ArgumentDevice.DeviceAtPath` | helion/_argument_device.py:116-145 | the loop over steps, with its early exits and position scan, computes the path recursion DeviceAt |
| `ArgumentDevice.CachedPathIsFresh` | helion/_argument_device.py:116-145 | a path that validates on new arguments leads to the device a full search would find, and agrees with that search's path: same containers and positions, matching keys |
| `ArgumentDevice.ValidatesIffAgrees` | helion/_argument_device.py:104-145 | a cached path validates on new arguments exactly when it agrees with the path that a full search finds in them |
| `ArgumentDevice.FreshPathValidates` | helion/_argument_device.py:58-90 | the path a search returns validates on the same arguments, gives the same device, and never passes through a ConstExpr or a leaf |
| `ArgumentDevice.ConstExprPathWouldBeWrong` | helion/_argument_device.py:64-65 | without that invariant a path into a ConstExpr would return a device no search finds |
| `ArgumentDevice.Resolver.FromValues` | helion/_argument_device.py:195-200 | fails exactly when there is no device, otherwise starts with the searched path |
| `ArgumentDevice.Resolver.Resolve` | helion/_argument_device.py:202-210 | from every reachable state and for all arguments: the canonical form of the first device, None exactly when there is none; the stored path re-validates and agrees with that of a fresh search, and a path that validated is kept |
| `ScaleLayout.OffsetIsInjective` | examples/nvfp4_gemm.py:76-79 | offsets of the padded grid are in range and determine their row and column |
| `ScaleLayout.OffsetIsSurjective` | examples/nvfp4_gemm.py:72-79 | every offset below swizzled_scale_numel belongs to a cell of the padded grid |
| `ScaleLayout.Swizzle` | examples/nvfp4_gemm.py:82-100 | the scatter leaves each logical scale at its offset and zero in every padding slot |
| `ScaleLayout.UnswizzleInvertsSwizzle` | examples/nvfp4_gemm.py:103-106 | unswizzling a swizzled matrix gives it back, for all shapes |
| `ScaleLayout.SwizzleInvertsUnswizzleIff` | examples/nvfp4_gemm.py:82-106 | the other round trip holds exactly for layouts whose padding is zero |
| `Fp4.BucketizeSeven` | examples/nvfp4_gemm.py:377-380 | the magnitude index between which boundaries a value falls, boundaries included below |
| `Fp4.QuantizeIsNearest` | examples/nvfp4_gemm.py:368-381 | no E2M1 code decodes nearer to x, for every real x, and a tie goes to the smaller magnitude |
| `Fp4.QuantizeInvertsDecode` | examples/nvfp4_gemm.py:40-61 | quantising a decoded code gives the code back, except that negative zero becomes zero |
| `Fp4.DequantIsLut` | examples/nvfp4_gemv.py:530-538 | the arithmetic decoder equals the table on all 16 codes |
| `Fp4.BytesRoundTrip` | examples/nvfp4_gemm.py:393-416 | two nibbles survive a byte and every byte is the packing of its nibbles |
| `Fp4.UnpackInvertsPack` | examples/nvfp4_gemm.py:384-393 | matrices of codes survive packing along dim 0 |
| `Fp4.PackInvertsUnpack` | examples/nvfp4_gemm.py:411-425 | every packed matrix unpacks to codes that pack to it |
| `Fp4.UnpackLastInvertsPackLast` | examples/nvfp4_gemm.py:396-408 | matrices of codes survive packing along the last dim |
| `Fp4.PackLastInvertsUnpackLast` | examples/nvfp4_gemm.py:411-422 | the converse along the last dim |
| `BlockScaled.BytesAreFlat` | examples/nvfp4_gemv.py:558-559 | the sum over bytes with scale index i // 8 is the sum over k with scale index k // 16 |
| `BlockScaled.GroupsAreFlat` | examples/nvfp4_gemm.py:231-254 | the sum over groups and bytes with one scale a group is the sum over k with scale index k // 16 |
| `BlockScaled.GemmElement` | examples/nvfp4_gemm.py:230-254 | group tiles, bytes, and sums over the groups of a tile accumulate the flat scaled product, for every tiling |
| `BlockScaled.GroupContribution` | examples/nvfp4_gemv.py:290-296 | accumulating a group's products first and scaling once is scaling each product |
| `BlockScaled.LaneContribution` | examples/nvfp4_gemv.py:218-222 | the same for the bodies that load 16 values at a time |
| `BlockScaled.GemvElement` | examples/nvfp4_gemv.py:286-319 | both GEMV loop forms accumulate the flat scaled product, for every tiling |
| `BlockScaled.ScaledIsValue` | examples/nvfp4_gemm.py:411-425 | an operand of the references, unpacked as a whole, decoded and scaled, is the kernel's decoded nibble times the looked-up scale, for either packing and for plain values |
| `BlockScaled.FlatIsReferenceGemm` | examples/nvfp4_gemm.py:428-475 | the flat sum over nibbles is the W4A4 or W4A16 reference over the unpacked, decoded and scaled matrices |
| `BlockScaled.Gemm` | examples/nvfp4_gemm.py:138-256 | every output of the W4A4 and W4A16 kernels equals its reference: unpack, scale, multiply |
| `BlockScaled.NibblesOfByte` | examples/nvfp4_gemv.py:530-538 | both halves of a byte decode alike by table and by arithmetic |
| `BlockScaled.FlatIsReferenceGemv` | examples/nvfp4_gemv.py:541-592 | the flat sum by table is the byte sum of the reference, which decodes by arithmetic |
| `BlockScaled.Gemv` | examples/nvfp4_gemv.py:179-369 | all four bodies, BF16 or FP4 input, CuTe or Triton loops, equal their references |
| `BlockScaled.LookupIsLogical` | examples/nvfp4_gemm.py:232-243 | a swizzled lookup returns the logical scale of the row and group, in range for all shapes |
| `BlockScaled.GemmUsesLogicalScales` | examples/nvfp4_gemm.py:428-475 | swizzling the scale matrices first leaves both products with the logical scales unchanged |
| `BlockScaled.GemvUsesLogicalScales` | examples/nvfp4_gemv.py:541-592 | the same for both GEMVs, the vector's scales being one row |
| `Int4Gemm.LowDecodersAgree` | examples/int4_gemm.py:78-80 | the kernel's mask-and-subtract decode equals the reference's shift left and back in int8 |
| `Int4Gemm.RoundTripIff` | examples/int4_gemm.py:141-170 | a pair survives packing exactly when both values lie in [-8, 7] |
| `Int4Gemm.PackInvertsUnpackByte` | examples/int4_gemm.py:154-168 | every int8 byte is the packing of its two halves |
| `Int4Gemm.UnpackInvertsPack` | examples/int4_gemm.py:141-170 | 4-bit matrices with an even first dimension survive packing |
| `Int4Gemm.Kernel` | examples/int4_gemm.py:52-100 | the interleaved product equals the reference over the unpacked weights, for every packed block size |
| `Int4Gemm.PackedProduct` | examples/int4_gemm.py:173-185 | with packed weights the reference is the product with the weights themselves |
| `JaggedAttention.RowHasOneOwner` | examples/jagged_hstu_attn_2.py:154-158 | every row lies in exactly one sequence and one query tile, so it is stored once |
| `JaggedAttention.JaggedToPadded` | examples/jagged_hstu_attn_2.py:41-54 | each sequence's first max_len rows, zeros after |
| `JaggedAttention.PaddedToJagged` | examples/jagged_hstu_attn_2.py:57-69 | each row comes from its own sequence and place |
| `JaggedAttention.UnpadInvertsPad` | examples/jagged_hstu_attn_2.py:41-69 | unpadding gives back every row that padding did not cut off, which is every row when the lengths fit |
| `JaggedAttention.RangeIsPadded` | examples/jagged_hstu_attn_2.py:104-113 | the causal sum over absolute rows [start, end) is the reference's sum over the padded axis |
| `JaggedAttention.Element` | examples/jagged_hstu_attn_2.py:163-177 | the key loop sums the masked scores of its range for any block size |
| `JaggedAttention.Kernel` | examples/jagged_hstu_attn_2.py:154-181 | for all monotone offsets with fitting lengths, empty sequences included, the output is the pad, attend, unpad reference |
| `JaggedAttention.ScalesFold` | examples/jagged_hstu_attn_2.py:168-177 | alpha can be applied to q and attn_scale to v instead: the output is the same |
| `ChunkScan.RepeatInterleaveAt` | examples/mamba2_chunk_scan.py:174-175 | entry i of the repeated tensor is entry i // times of the original |
| `ChunkScan.GroupedIndexAgrees` | examples/mamba2_chunk_scan.py:84-89 | the kernel's group index is the one the repeated tensors show to the head |
| `ChunkScan.TruncatedSum` | examples/mamba2_chunk_scan.py:96-127 | stopping the inner loop at (id + 1) * block_m drops only terms the causal mask zeroes, even when the bound passes the chunk |
| `ChunkScan.Element` | examples/mamba2_chunk_scan.py:81-137 | one position of the kernel, for every block_m and block_k, equals the full lower-triangular reference |
| `ChunkScan.Kernel` | examples/mamba2_chunk_scan.py:75-141 | every position of every chunk equals the reference |
| `ChunkState.Element` | examples/mamba2_chunk_state.py:66-95 | one entry of a chunk's state, for every block_k, equals the reference |
| `ChunkState.Kernel` | examples/mamba2_chunk_state.py:62-96 | every entry of every chunk's state equals the reference |
| `ChunkRecurrence.StateInChunk` | examples/mamba2_chunk_scan.py:177-212 | inside a chunk the recurrence's state is the state before the chunk decayed by the sum of its decays plus what the chunk has added so far |
| `ChunkRecurrence.PrevIsState` | examples/mamba2_chunk_state.py:127-138 | when each chunk decays the state it gets and adds its own chunk state, prev_states holds the recurrence's state before every chunk |
| `ChunkRecurrence.TriangleIsReadOut` | examples/mamba2_chunk_scan.py:179-200 | with cb = C . B the decayed lower triangle against dt and x is C against what the chunk has added to the state |
| `ChunkRecurrence.ScanIsRecurrence` | examples/mamba2_chunk_scan.py:144-218 | the chunk scan is the recurrence h(t) = exp(decay) h(t - 1) + dt x B read out by C, plus x D, at every position of every chunk |
| `Welford.MergeKeepsMoments` | examples/welford.py:52-63 | merging a non-empty tile keeps count, mean and sum of squared deviations exact; the divisor is positive |
| `Welford.RowMoments` | examples/welford.py:45-65 | for any tile width the pass returns the row's count, mean and sum of squared deviations |
| `Welford.VarianceIsNonNegative` | examples/welford.py:67 | the value under rsqrt is at least eps |
| `Welford.Kernel` | examples/welford.py:44-81 | every element is the layer norm by population mean and variance, for any two tile widths |
| `Welford.ShiftsDoNotShow` | examples/welford.py:44-81 | a shift of whole rows, each by its own amount, changes no element of the layer norm |
| `FusedJsd.ChunkSize` | examples/fused_linear_jsd.py:196-204 | the doubling loop terminates with the largest power of two within batch // inc_factor, or 1 |
| `FusedJsd.ChunkFitsIff` | examples/fused_linear_jsd.py:196-204 | a chunk of logits is no larger than the input exactly when the batch has at least inc_factor rows |
| `FusedJsd.AddChunk` | examples/fused_linear_jsd.py:239-242 | a chunk's product moves the accumulated weight gradient to the longer prefix of rows |
| `FusedJsd.Forward` | examples/fused_linear_jsd.py:206-245 | chunk by chunk, loss and both gradients equal the unchunked ones |
| `FusedJsd.GradientsOfLogits` | examples/fused_linear_jsd.py:232-240 | against any direction of input and weight the two gradients give the change of the logits weighed with grad_logits |
| `TimerLog.OpenIsRunning` | helion/_compile_time.py:64-81 | a thread's stack holds exactly its starts that no stop has closed, oldest first |
| `TimerLog.ClosesIff` | helion/_compile_time.py:74-82 | a stop ends a start exactly when the start is the latest running one of its thread and the names agree |
| `TimerLog.StopMeasuresItsSection` | helion/_compile_time.py:76-86 | a stop measures the time since the start it ends, and measures nothing exactly when it ends none |
| `TimerLog.StackIsLocal` | helion/_compile_time.py:63-81 | a thread's stack depends on its own calls only |
| `TimerLog.ThreadTimeIsLocal` | helion/_compile_time.py:83-85 | in every interleaving a thread adds the time and the calls it would add alone |
| `TimerLog.TotalIsSumOfThreads` | helion/_compile_time.py:59-103 | time and call count of a section are the sums of what the threads would record alone |
| `TimerLog.EveryBlockIsMeasured` | helion/_compile_time.py:88-95 | nested measure() blocks are each counted once for their whole duration, at any depth, and leave the stack as it was |
| `CompileTime.AgreesAfter` | helion/_compile_time.py:83-85 | adding a measurement to timings and counts keeps them equal to the totals of the calls |
| `CompileTime.Tracker.constructor` | helion/_compile_time.py:35-40 | an empty tracker |
| `CompileTime.Tracker.StartTimer` | helion/_compile_time.py:59-67 | pushes on the caller's stack only; nothing when disabled |
| `CompileTime.Tracker.StopTimer` | helion/_compile_time.py:69-86 | a matching stop adds its elapsed time and one call; a mismatched, unmatched or disabled one returns 0.0 and changes nothing |
| `CompileTime.Tracker.RecordTime` | helion/_compile_time.py:97-103 | adds the given time and one call |
| `CompileTime.Tracker.Reset` | helion/_compile_time.py:218-224 | forgets everything, running sections included, and allows a new report |
| `CompileTime.Tracker.PrintSection` | helion/_compile_time.py:187-201 | the recursion terminates on any hierarchy, cyclic ones too, and equals its functional form |
| `CompileTime.Tracker.PrintReport` | helion/_compile_time.py:137-177 | every recorded section has exactly one line with its time and count; other sections come slowest first; a second report prints nothing |
| `CompileTime.PrintOthers` | helion/_compile_time.py:167-177 | exactly the sections the tree left out, times never increasing |
| `TimingReport.TreeIsLeastClosed` | helion/_compile_time.py:162-165 | the tree shows exactly the least set that holds the recorded top-level names and the recorded children of its members |
| `TimingReport.TreeIsPlaced` | helion/_compile_time.py:162-201 | every line is top-level at the margin or stands one step inside an earlier line of one of its parents, and comes after the lines of all its recorded earlier siblings |
| `TimingReport.TreePrintsOnce` | helion/_compile_time.py:191-196 | no section is printed twice in the tree |

## Left out

- Floating-point rounding, dtype casts, fast-math forms, FP8 and TF32: every result is about exact arithmetic; the cast of segment indices to float in the scan is taken as exact.
- E4M3 decoding of scale bytes: scales are the decoded reals.
- Update in place for the concurrent kernels: `SplitKBarrier`, `GroupedGemm`'s persistent kernel and `AtomicAdds` are step machines over values, not over heap arrays.
- The reduction inside one iteration (`torch.sum`, `hl.dot` over a tile): it is a finite sum, its own order is not modelled.
- FlexAttention.Program: the number of query rows of a tile is the clipped one; lanes past the last row, which the kernel masks off, are not carried.
- BlockScaled.Gemv: the shape checks of the wrappers (examples/nvfp4_gemv.py:434-527) appear as preconditions, not as errors raised.
- Int4Gemm.Kernel: an odd K, for which the reference's shapes do not match, is not covered.
- ChunkScan.TruncatedSum: tensors are total functions, so it does not say that the reads at columns past the chunk, and past seqlen in the last chunk, which happen when (id + 1) * block_m exceeds chunk_size, stay inside their tensors; their values are masked.
- ChunkScan.Kernel: states one batch entry, head and column at a time; the constant 1.44269504 is taken as the exact base change between exp2 and exp.
- AttentionGradients.GradientsAreDerivative: slopes are defined by the rules of differentiation (exp2 has slope ln2 * exp2), not as limits; the causal forward kernel has no backward kernel in the file.
- ChunkRecurrence.ScanIsRecurrence: the cumulative sums, cb and the passing of states between chunks are conditions; the code that makes them is not in the repository.
- ChunkState.Kernel: a last chunk that is only partly filled, for which the reference pads x and B with zeros, is taken as already padded.
- FusedJsd.Forward: the loss and its gradient with respect to the logits are arbitrary functions of the row; that they are derivatives of each other is not stated.
- AttentionBackward.Kernel: takes the programs one after the other; other orders of the additions are `RunIsDq`.
- Argument containers that contain themselves: arguments are finite trees.
- Device canonicalisation (helion/_argument_device.py:148-186) and equality of dictionary keys: uninterpreted functions, fixed over a resolver's life.
- CompileTime.Tracker.PrintReport: percentages, totals and column widths are not modelled, and among equal times outside the tree any order is allowed.
- Tracker calls concurrent with a report: the report takes no lock in the source; here it is one call among others.
- The singleton and exit hook of the tracker, and the environment variable that enables it: a constructor argument.
- `nvfp4_scaled_matmul` and `reference_nvfp4_scaled_matmul`: they call a PyTorch operator that is not part of this model.
- The output-only, ReLU and biased forms in `examples/attention.py` and `examples/blackwell_attention.py`: the same loop with another score or a dropped output.
- Autograd classes, benchmark wrappers, autotuning, elementwise and single-loop examples: they would add only easy members.
- `examples/moe_matmul_ogs.py` and `examples/jagged_hstu_attn.py`: the result of the first depends on store order that its file does not fix; the second kernel and its reference mask the diagonal differently.
