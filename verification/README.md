# Verification of the D64 flash-attention forward kernel

The repository holds one fused attention kernel for head dimension 64 and bf16 tensors, plus plain references for
it. This project models the kernel from its LDS barrier protocol up to a whole launch, and proves what comes out:
exact attention in exact arithmetic, the same bits as the reference launch, a bound on what bf16 truncation of
probabilities and outputs can change in the stored numbers, and exactly which rows the seed of the running maximum
costs.

Verify it with `dafny verify dfyconfig.toml`.

## How the model is built

**Numbers.** Sums, products, exponentials and logarithms are over reals. The exponential is any function with
`f(0) = 1`, `f(a + b) = f(a) f(b)` and positive values; base 2 with the folded scale and base e with the plain scale
are linked by `SameBase`. A score register is minus infinity or a real. Tensors are total maps from element index to
bf16, so rows past a sequence hold arbitrary values. Byte addresses, strides and tile offsets are unbounded integers.

**Truncation.** GEMM1 packs the binary32 images of two probabilities with v_perm, selector included, and multiplies
with what the halves stand for; a switch (`exact`) leaves the probabilities whole, which is the exact arithmetic of the
refinement results. A number of the model is a real, so its binary32 image (`bits`) is the number next to it towards
zero, and the number itself if it is one (`Bf16.RoundsDown`; `Bf16Rounding` builds such a `bits`). What bits stand for
follows from the fields of section 3.4 of IEEE 754-2019, signs and subnormals included; `Bf16Numbers.EveryBf16` gives
the number of each bf16. Truncation keeps the sign, loses less than 2^-7 of a number from 2^-126 on, and takes it to
zero exactly below 2^-133 (`Bf16.TruncationError`). The bounds also need an exponential that does not grow to the left
of 0 (`Decays`), a softmax scale that is not negative, and values no larger than the largest finite binary32. No
output is larger than the largest value its row sees (`OutputSize.FusedSize`), so the conversion of outputs adds at
most another 2^-7 of that.

**The seed.** The running maximum starts at -5000. In exact arithmetic that never shows. With truncation it does: as
long as no score exceeds the seed, probabilities are relative to the seed and not to the row's maximum. The bound of
2^-7 + n * 2^-126 holds for a row with a visible raw score of at least -5000; with a weight of at least w against the
seed the second summand becomes n * 2^-126 / w; and a row's output is zero whatever V holds exactly when all its
visible scores have exp2(scale * (score + 5000)) < 2^-133 (`KernelBound.RowLostExactlyBelowSeed`). Finite bf16 inputs
reach that: `SeedExample.SeedCostsTheRow` has a query of 128s and a key of -1s, for which the three-pass reference is
right. In hardware the weights of such a row underflow in the exponential already.

**Registers and LDS.** A wave's accumulators are 64 x 16 arrays that the steps overwrite; per-lane scalars are
sequences of 64. LDS is one array of bf16 elements. MFMA is defined by its meaning, with the operand and accumulator
layout stated at src/components/qk_gemm.hpp:41-46.

**Concurrency.** `LdsProtocol` is a transition system for one block: four warps at their own program points, copies
and loads that land at any time after their issue, a vmcnt queue that retires in issue order, LDS writes that land
before the lgkmcnt drain, and barriers. `LdsSafety` and `StagedReads` prove that every GEMM sub-tile reads the
intended elements in every interleaving. On that ground `Pipeline` follows one wave, and stages all four warps'
shares of a sub-tile at the point where the program stages its own; `StagedReads.SubtilesAreStaged` states that this
is what the sub-tiles find in every run.

**The launch.** The attention problem of a (batch, head) is written in the launch's own fields: lengths, mask, shared
head and element addresses (`LaunchSpec.ProblemOf`, spelled out by `LaunchSpec.ProblemIs`). The waves' jobs and the
reference's reads are each proved to pose that problem (`LaunchSpec.JobIsProblem`, `RefLaunch.RefPosesProblem`); what
a launch computes is stated over it.

**Layouts.** Every tensor has its own row, head and sequence strides. A launch asks of O that its rows of 64 elements
lie apart; `TensorLayouts` shows it of tensors with heads apart (head-major) and interleaved (row-major), dense and
packed, all of which their rows fill without a gap.

| module | what it holds |
|---|---|
| Sums, Exponential, Floats | finite sums, laws of exp and log, register values |
| SoftmaxRow, Attention | one softmax row and its exact output; matrices, mask, scores |
| OnlineSoftmax, OnlineConsequences, TileStep | the online recurrence of a row, its invariant, exactness, log-sum-exp, non-interference, one tile's step |
| TruncationBound, OutputSize, LostRows | what truncation can cost a row, how large its output can be, and when truncation costs all of it |
| Bf16, Bf16Numbers, Bf16Rounding | the numbers behind the bits, what the conversion to bf16 loses, a rounding that fits |
| GpuRef, RefLaunch | the three-pass reference, one row and a whole launch |
| LdsProtocol, LdsSafety, LdsTrace, StagedReads | the triple-buffer protocol, its safety, what a run executes, its data |
| Layout, Staging, Mfma, Gemm | index maps, K and V staging, MFMA, both GEMM sub-tiles |
| SoftmaxOps, Epilogue | mask, maximum, exponential, sum, rescale; normalise, pack, store |
| WaveSpec, Pipeline, CausalBound | what a wave carries, the KV loop and the whole device function, the loop bound |
| EndToEnd, KernelBound, SeedExample | the wave against exact attention and against the reference: exactly, under truncation, and an input below the seed |
| Grid, TensorLayouts, Buffers, LaunchGrid | addresses and write-once, layouts, host sizes and offsets, a whole launch |
| Agreement, LaunchSpec, LaunchResults | problems with the same elements, the problem a launch poses, what it computes |
| StagingOracles, GemmOracles, ComponentKernels | the stand-alone staging and GEMM kernels and their plain references |

## Where comments and code differ

The model follows the code.

- The running maximum is over raw scores; the scale enters at the exponential (src/fused/pipeline.hpp:41 against 349 and 358).
- On a square problem causal tile i walks 2(i + 1) KV tiles, not i + 1 (src/fused/kernel.cpp:35); see `CausalBound.SquareCausalTiles`.
- Buffer 1 is shared by K half 0 and V half 0, not by the two K halves (src/fused/pipeline.hpp:84-88).
- The free-dimension formula at src/fused/op_gemm.hpp:25 holds for S; O has the `swz` of it; see `Layout.AccRowSwizzled`.
- The largest K offset is 4471; the 6775 at src/components_ref/ref_k_lds.hpp:26 counts a base of 2304 twice.
- Lanes of one half hold the same columns of different rows, so each lane sees 32 of its row's 64 columns; the running
  maximum is seeded with -5000, not minus infinity as the parameter comment at src/fused/op_softmax.hpp:146 says.
- The seed is not "well below any real score" (src/fused/pipeline.hpp:248-250): see `SeedExample.SeedCostsTheRow`.
- The reference's log-sum-exp index (src/runner/gpu_ref.cpp:118-123) is a row's own only for head-major strides; with
  interleaved heads two heads share a cell. The kernel's does not depend on strides in dense launches, but collides in
  the same way in packed ones. See `TensorLayouts.LseIndexAgrees`, `TensorLayouts.InterleavedRefCollides` and
  `TensorLayouts.PackedInterleavedCollides`.

## Model

| member | source | states |
|---|---|---|
| LaunchResults.LaunchComputesAttention | src/fused/pipeline.hpp:98-424 | the number that O stores, for every batch, head, row and headdim and any strides that keep rows apart, is within (2^-6 + n * 2^-126) max abs(V) + 2^-126 of exact attention, truncation being the code's own, once a visible raw score is at least -5000; exactly zero when the row sees no key |
| LaunchResults.LaunchIsExact | src/fused/pipeline.hpp:98-424 | in exact arithmetic every element of O is the bf16 of exact attention |
| LaunchResults.LaunchRefinesReference | src/runner/gpu_ref.cpp:12-126 | in exact arithmetic kernel and reference store the bf16 of the same number in every batch, head, row and headdim |
| LaunchResults.LaunchNearReference | src/runner/gpu_ref.cpp:12-126 | with the code's truncation the numbers that kernel and reference store differ by at most twice that bound |
| LaunchResults.LaunchLseIsReference | src/runner/gpu_ref.cpp:115-125 | every log-sum-exp of the launch is the reference's |
| RefLaunch.RunBoth | src/runner/gpu_ref.cpp:12-126 | both launches on the same tensors, in exact arithmetic: O holds the same bits throughout, dense, interleaved or packed, and the log-sum-exps are the same where the reference's index is the kernel's |
| RefLaunch.RunReference | src/runner/gpu_ref.cpp:12-126 | the reference's flat grid, early returns included, leaves each row's output and log-sum-exp at the addresses it computes |
| LaunchResults.LaunchComputesLse | src/fused/pipeline.hpp:408-423 | every log-sum-exp is the log of the sum of exponentials over all visible keys; -inf exactly for a row that sees none |
| LaunchSpec.ProblemIs | src/fused/pipeline.hpp:112-174 | in the launch's own fields: a query sees key k exactly if 0 <= k < the key length (the gap of offsets_k when packed, kv_seq_len when dense) and, when causal, k <= row + key length - query length; the Q, K and V elements lie at the packed or dense address of their row, K and V under head h / (heads / kv_heads) |
| LaunchSpec.JobIsProblem | src/fused/pipeline.hpp:104-174 | whatever its tile and warp, a wave reads exactly that problem: lengths, mask and every element of Q, K and V; and it owns the row it computes |
| RefLaunch.RefPosesProblem | src/runner/gpu_ref.cpp:17-49 | so does a thread of the reference, which addresses K and V by its own strides and gqa ratio, packed tensors having batch stride zero |
| LaunchGrid.RunLaunch | src/fused/kernel.cpp:55-99 | after all waves of all blocks every row of O and every log-sum-exp holds its value, for any strides that keep rows apart, and nothing between the rows has changed |
| LaunchGrid.NothingIsLeft | src/fused/kernel.cpp:26-99 | where the rows fill O no element is left unwritten |
| LaunchGrid.RunWave | src/fused/kernel.cpp:56-99 | one wave adds exactly its rows to what is done; varlen tiles past a short sequence return early |
| LaunchGrid.WaveStores | src/fused/op_epilog.hpp:126-150 | a wave's valid rows are the rows of its (batch, head) that its lanes store, at the addresses they compute |
| LaunchGrid.WaveOfElement | src/fused/op_epilog.hpp:130-150 | an element of O is written by the wave of its writer with the value of its row and headdim, and by no other wave |
| LaunchGrid.WaveOfRow | src/fused/op_epilog.hpp:92-97 | a row's log-sum-exp is written by the wave that owns the row and by no other |
| LaunchGrid.WaveFits | src/fused/op_epilog.hpp:130-150 | everything a wave stores lies inside O |
| LaunchGrid.EarlyReturnStoresNothing | src/fused/pipeline.hpp:121-128 | a varlen tile that starts past the end of its sequence has no row to store |
| TensorLayouts.LseIndexAgrees | src/runner/gpu_ref.cpp:115-125 | reference and kernel index every log-sum-exp alike if and only if the launch is packed or Q's head and batch strides are seqlen_q and heads * seqlen_q rows (unless there is only one of them) |
| TensorLayouts.InterleavedRefCollides | src/runner/gpu_ref.cpp:118-123 | with interleaved heads two heads share a log-sum-exp cell of the reference, not of the kernel |
| TensorLayouts.PackedInterleavedCollides | src/fused/pipeline.hpp:408-412 | in packed launches with interleaved heads the kernel gives all heads of a row one log-sum-exp cell |
| TensorLayouts.LseRowsApart | src/fused/pipeline.hpp:408-418 | different rows have different log-sum-exp cells, one for each row of the tensor: in every dense launch whatever its strides, and in packed ones whose Q has its heads apart |
| LaunchGrid.KvHeadInRange | src/fused/pipeline.hpp:112-113 | every query head maps to an existing K/V head, shared by the heads of one group and no others |
| KernelBound.KernelNearExact | src/fused/pipeline.hpp:176-423 | for every length, mask mode and input, a row with a key of weight w against the seed is within eps of its average absolute value and tiny / w of the absolute values it sees; zero for a row with no visible key |
| KernelBound.KernelWithinBf16Bound | src/fused/op_gemm.hpp:251-292 | with the code's truncation a row with a visible score of at least -5000 is within (2^-7 + n * 2^-126) max abs(V) of exact attention and within twice that of the reference |
| KernelBound.StoredNear | src/fused/op_epilog.hpp:112-124 | the final conversion to bf16 keeps a number within the stored bound: 2^-7 of the largest value and 2^-126 on top |
| OutputSize.FusedSize | src/fused/op_epilog.hpp:73-77 | no output is larger than the largest value its row sees, with truncation, for any seed and number of tiles |
| OutputSize.RefSize | src/runner/gpu_ref.cpp:82-113 | nor is the reference's |
| KernelBound.RowLostExactlyBelowSeed | src/fused/pipeline.hpp:248-252 | a row's output is zero whatever V holds if and only if all its visible scores have exp2(scale * (score + 5000)) < 2^-133 |
| SeedExample.SeedCostsTheRow | src/fused/pipeline.hpp:248-252 | a bf16 input whose output is zero over a positive row sum, while exact attention is one and the reference is within a hundredth of it |
| EndToEnd.KernelIsExact | src/fused/pipeline.hpp:176-423 | with truncation as identity the kernel computes exact attention for every length, mask mode and input; zero for a row with no visible key |
| KernelBound.KernelNearReference | src/runner/gpu_ref.cpp:52-113 | though they truncate before and after normalising, kernel and reference differ by at most the sum of their two bounds; both are zero for a row with no visible key |
| EndToEnd.KernelRefinesReference | src/runner/gpu_ref.cpp:52-113 | in exact arithmetic kernel and three-pass reference give the same output |
| EndToEnd.KernelLse | src/fused/op_epilog.hpp:92-97 | the kernel's log-sum-exp is that of all visible scaled scores |
| EndToEnd.KernelLseIsReference | src/runner/gpu_ref.cpp:115-125 | kernel (base 2, running maximum) and reference (base e, row maximum) compute the same log-sum-exp |
| EndToEnd.UnseenRowsDoNotMatter | src/fused/op_softmax.hpp:112-130 | K and V rows past the sequence, or in a query's causal future, do not change its output or its log-sum-exp |
| EndToEnd.TilesCoverRow | src/fused/pipeline.hpp:172-196 | the walked tiles cover every key that any row of the wave sees |
| Pipeline.FmhaWave | src/fused/pipeline.hpp:98-424 | each valid row of the wave gets its fused output in natural headdim order and its log-sum-exp; every other cell of O and LSE is unchanged; also the degenerate case with no tile |
| Pipeline.KvLoop | src/fused/pipeline.hpp:251-401 | after n tiles every lane holds its row's running maximum and sum, the maximum begun at -5000, and the accumulators its running numerators |
| Pipeline.KvTile | src/fused/pipeline.hpp:286-399 | one iteration takes the carried state of t tiles to that of t + 1, and leaves the next K half staged unless it is the last |
| Pipeline.ScorePhase | src/fused/pipeline.hpp:288-314 | two sub-tiles leave the raw 64-term scores of the tile in the accumulators, V half 0 in registers |
| Pipeline.MaskAndMax | src/fused/pipeline.hpp:324-327 | mask and maximum leave -inf exactly at keys the row does not see, and the row's new maximum in both its lanes |
| Pipeline.ExpAndRescale | src/fused/pipeline.hpp:349-361 | probabilities under the new shift, the next running sum, and the numerators rescaled to the new maximum |
| Pipeline.ValuePhase | src/fused/pipeline.hpp:371-396 | two GEMM1 sub-tiles leave the next numerators; K half 0 of the next tile is prefetched unless this tile is the last |
| Pipeline.BytesStep | src/fused/pipeline.hpp:381-385 | the running byte offsets of K and V are the closed-form addresses of the next tile |
| Pipeline.SecondHalfByte | src/fused/pipeline.hpp:337 | the offset of V half 1 is the address of row 32 of the tile |
| Pipeline.KStagedSame | src/fused/pipeline.hpp:76-88 | staging into another buffer leaves a staged K half as it is |
| Pipeline.StoreWave | src/fused/pipeline.hpp:403-423 | the epilogue on the carried state stores the fused outputs and log-sum-exps |
| Pipeline.DegenerateState | src/fused/pipeline.hpp:207-222 | with no tile to walk the stored state is zero sum and zero numerators |
| WaveSpec.HalvesAreScore | src/fused/op_gemm.hpp:117-131 | two halves of the head dimension add up to the whole dot product, each headdim once |
| WaveSpec.ScoresComplete | src/fused/op_gemm.hpp:146-193 | lane L, register r of N-tile h ends with the score of its row and key 32h + (r/8)*16 + (L/32)*8 + r%8 |
| WaveSpec.QElem | src/fused/pipeline.hpp:224-246 | a lane's query registers hold headdims kstep*16 + (lane/32)*8 + 0..7 of its row, zeros past the sequence |
| WaveSpec.MaskedIsSeen | src/fused/op_softmax.hpp:73-131 | the mask on absolute row and column is visibility of the key |
| WaveSpec.TileMaxIsRunMax | src/fused/pipeline.hpp:327 | folding a tile's masked scores into the maximum gives the running maximum over all keys so far |
| WaveSpec.ProbIsWeight | src/fused/op_softmax.hpp:186-195 | exp2 of the fused argument is the softmax weight under the new shift; masked keys weigh nothing |
| WaveSpec.RowSumIsShare | src/fused/op_softmax.hpp:208-224 | a tile's row sum is its share of the denominator |
| WaveSpec.AccStepIsRunAcc | src/fused/pipeline.hpp:353-375 | rescaling and both GEMM1 halves are one step of the numerator recurrence |
| WaveSpec.ValuesComplete | src/fused/pipeline.hpp:371-396 | after both GEMM1 sub-tiles the accumulators hold the next numerators at headdim AccRow of each register |
| WaveSpec.StatsAgree | src/fused/op_softmax.hpp:148-224 | the two lanes of a row carry identical maximum and sum after any number of tiles |
| WaveSpec.StatsStep | src/fused/pipeline.hpp:353-361 | rescale * rsum + l_new is the next running sum, in every lane |
| OnlineSoftmax.MaxOverUnique | src/fused/pipeline.hpp:251-252 | the running maximum is the only value that bounds the seed and all visible scores and is reached |
| OnlineSoftmax.RunSumIsDen | src/fused/pipeline.hpp:349-361 | after any number of tiles the running sum is the softmax denominator of all keys so far under the current shift |
| OnlineSoftmax.RunAccIsNum | src/fused/pipeline.hpp:353-375 | in exact arithmetic the running numerators are those of all keys so far under the current shift |
| TruncationBound.TileKeepsNear | src/fused/pipeline.hpp:353-375 | one tile keeps an accumulator as near to its numerator as one truncation per key allows |
| TruncationBound.RunAccNear | src/fused/pipeline.hpp:353-375 | so it stays whatever the sequence of rescales |
| TruncationBound.WeightAtMostOne | src/fused/op_softmax.hpp:186-195 | no probability under the running shift exceeds one |
| TruncationBound.FusedNear | src/fused/op_epilog.hpp:73-77 | the normalised output is near exact attention for any seed and any number of tiles covering the visible keys, given a key of weight w against the seed |
| TruncationBound.SumReaches | src/fused/pipeline.hpp:248-252 | a key of weight w against the seed makes the final row sum at least w, also when another key lifts the maximum |
| LostRows.LostExactlyBelowSeed | src/fused/pipeline.hpp:248-252 | for any base, scale and seed: the output is zero for all values if and only if no visible key has a weight against the seed that survives truncation |
| OnlineSoftmax.FusedExact | src/fused/op_epilog.hpp:73-77 | without truncation it is exact attention |
| OnlineSoftmax.SeedAndTilingDoNotShow | src/fused/pipeline.hpp:248-252 | in exact arithmetic the output depends neither on the -5000 seed nor on the tiling |
| OnlineSoftmax.NothingSeen | src/fused/op_epilog.hpp:75-77 | a row that sees no key keeps sum and numerators at zero, whatever truncation leaves zero at zero |
| TruncationBound.NearPerUnit | src/runner/gpu_ref.cpp:98-108 | a bound by average and sum of abs(V) is one by its maximum over visible keys, the sum counting each of n keys |
| OnlineConsequences.FusedLseIsLse | src/fused/op_epilog.hpp:79-97 | (log2(rsum) + scale*rmax)*ln2 is the log-sum-exp for any seed and tile count; -inf exactly for an empty row |
| OnlineConsequences.UnseenDoNotMatter | src/fused/op_softmax.hpp:112-130 | what a row does not see leaves its running shift, sum and numerators unchanged, tile by tile |
| SoftmaxRow.ExactAnyShift | src/fused/pipeline.hpp:353-361 | softmax attention does not depend on the shift subtracted before the exponential |
| SoftmaxRow.DenShift | src/fused/pipeline.hpp:353-361 | changing the shift rescales the denominator by one factor |
| SoftmaxRow.NumShift | src/fused/pipeline.hpp:353-361 | and every numerator by the same factor |
| SoftmaxRow.DenPositive | src/fused/op_epilog.hpp:75-77 | the denominator is positive exactly when the row sees a key |
| TileStep.NextMax | src/fused/pipeline.hpp:327 | a maximum of the start and the tile's visible scores is the next running maximum |
| TileStep.NextSum | src/fused/pipeline.hpp:358-360 | rescaled sum plus the tile's share is the next running sum |
| TileStep.NextAcc | src/fused/pipeline.hpp:358-375 | rescaled numerator plus the tile's truncated share is the next numerator |
| Attention.ExactSameBase | src/bench_fmha_fwd.cpp:124-141 | base 2 with log2e folded into the scale and base e with the plain scale define the same attention |
| GpuRef.ReferenceRow | src/runner/gpu_ref.cpp:52-126 | the three passes store the truncated normalise-then-truncate sums and log(sum) + max, relative to the row maximum |
| GpuRef.RowMaxPass | src/runner/gpu_ref.cpp:52-64 | pass 1 finds the maximum: it bounds every visible scaled score and one of them attains it; minus infinity exactly when there is none |
| GpuRef.RowSumPass | src/runner/gpu_ref.cpp:66-80 | pass 2 computes the softmax denominator |
| GpuRef.OutputPass | src/runner/gpu_ref.cpp:84-109 | pass 3 accumulates truncated normalised probabilities times V |
| GpuRef.RefNear | src/runner/gpu_ref.cpp:82-113 | the reference is within one truncation's bound of exact attention, with no condition on the scores |
| GpuRef.RefExact | src/runner/gpu_ref.cpp:82-113 | in exact arithmetic it is exact attention, whatever it subtracts before the exponential |
| LdsProtocol.StepKeeps | src/fused/pipeline.hpp:278-401 | every step of every warp, copy, write, retirement or barrier release keeps the protocol invariant |
| LdsProtocol.RunInv | src/fused/pipeline.hpp:278-401 | the invariant holds in every state of every run, for any number of tiles |
| LdsProtocol.LandKeeps | src/fused/op_lds.hpp:151-186 | a copy may land at any time between its issue and the drain that covers it |
| LdsProtocol.ReleaseKeeps | src/fused/op_lds.hpp:103-113 | a barrier releases all warps into the same next segment |
| LdsSafety.KReadIsIntact | src/fused/pipeline.hpp:299-314 | while a warp is in a GEMM0 sub-tile every cell of its K half holds the current tile, whichever warp copied it |
| LdsSafety.VReadIsIntact | src/fused/pipeline.hpp:372-395 | the same for the V half of a GEMM1 sub-tile |
| LdsSafety.NoRace | src/fused/pipeline.hpp:286-401 | nothing on its way to LDS targets a buffer that any warp still reads in its barrier segment |
| LdsSafety.ReadsAreTracked | src/fused/pipeline.hpp:286-401 | a buffer counts as read from the sub-tile that reads it until the warp is past its next barrier: buffer 1 for scores 0 and values 0, 2 for scores 1, 0 for values 1 |
| LdsSafety.BarriersMatch | src/fused/pipeline.hpp:381-394 | all warps are in the same barrier segment and wait at the same barrier, the conditional one included |
| LdsSafety.NoDeadlock | src/fused/pipeline.hpp:286-401 | every state that is not finished has an enabled step |
| LdsSafety.StepShortens | src/fused/pipeline.hpp:286-401 | every step decreases a non-negative measure |
| LdsSafety.RunLength | src/fused/pipeline.hpp:286-401 | so a run has at most 1200 steps per tile, plus 32 |
| LdsSafety.RunsEndFinished | src/fused/pipeline.hpp:286-401 | a run that cannot go on has finished in all four warps |
| LdsTrace.RunsMultiplyAll | src/fused/pipeline.hpp:286-401 | in a run that has come to its end every warp has executed exactly the sub-tiles scores 0, scores 1, values 0, values 1 of tile 0, then of tile 1, up to the last, each once and in this order |
| LdsTrace.WhatHoldsAWarp | src/fused/op_lds.hpp:67-113 | the fence of four opens exactly when at most the four copies issued last are outstanding, the other fences exactly when nothing is, the lgkmcnt drains when no LDS write is, and nothing else holds a warp but a barrier |
| LdsTrace.AnythingMayHappen | src/fused/op_lds.hpp:151-186 | the runs leave nothing out: any copy, load or LDS write under way may land next |
| LdsTrace.StartsAnywhere | src/fused/pipeline.hpp:224-282 | and a run may begin with any of the Q loads outstanding and anything in LDS and registers |
| StagedReads.ReadsAreRight | src/fused/pipeline.hpp:278-401 | in every state of every run, both GEMM0 and both GEMM1 sub-tiles read at their computed offsets exactly the current tile's K and V elements |
| StagedReads.SubtilesAreStaged | src/fused/pipeline.hpp:286-399 | in every state of every run the block's LDS satisfies what the four sub-tiles ask for: the current tile's K half before a GEMM0 sub-tile, its V half before a GEMM1 sub-tile |
| StagedReads.RunFills | src/fused/op_lds.hpp:188-354 | in every state each tagged cell holds the element its tag stands for |
| StagedReads.GeometryMatches | src/fused/op_lds.hpp:163-183 | the cells a copy issue or LDS write fills are those of the staging functions |
| Layout.SwzInverse | src/fused/op_gemm.hpp:64-68 | the swizzle is an involution on 0..31 |
| Layout.AccRowSwizzled | src/fused/op_gemm.hpp:20-41 | the swizzle exchanges accumulator row and free dimension of every lane and register |
| Layout.FreeCoversOnce | src/fused/op_gemm.hpp:32-36 | each of 32 columns is held by exactly one register of one lane half |
| Layout.KOffsetInverse | src/fused/op_gemm.hpp:77-80 | lds_elem_offset is injective: warp, issue, row and headdim can be read back from the cell |
| Layout.KCellDecomposes | src/fused/op_lds.hpp:170-183 | every data cell of a K buffer is the target of exactly one lane of one issue of one warp |
| Layout.VOffsetInverse | src/fused/op_gemm.hpp:88-91 | v_lds_elem_offset is injective: row and headdim can be read back from the cell |
| Layout.VCellDecomposes | src/fused/op_gemm.hpp:88-91 | every data cell of a V buffer is the offset of its row and headdim |
| Layout.OctetContiguous | src/fused/op_gemm.hpp:166-171 | the eight elements of a 16-byte operand read lie side by side |
| Staging.AsyncCopyKSubtile | src/fused/op_lds.hpp:188-235 | four issues with a running byte offset put the right K element into each cell of the warp's share and touch nothing else |
| Staging.BufferLoadLds | src/fused/op_lds.hpp:163-169 | one buffer_load to LDS writes m0 + 4*lane for each lane |
| Staging.LoadVFromDram | src/fused/op_lds.hpp:259-285 | each lane loads four columns of its two rows |
| Staging.StoreVToLds | src/fused/op_lds.hpp:314-354 | permutes and two ds_write2 put each loaded element into its transposed cell and touch nothing else |
| Staging.PermPairs | src/fused/op_lds.hpp:322-337 | the two selectors pair low with low and high with high halves |
| Staging.PermTruncates | src/fused/op_gemm.hpp:203-206 | the packing selector keeps the high halves of two floats, the second above the first |
| Staging.VRegCellInverse | src/fused/op_lds.hpp:305-308 | the cell of a lane's output dword determines lane, dword, row and column |
| Staging.StageK | src/fused/op_lds.hpp:188-235 | four warps together stage a whole K half at the reader's offsets, for every stride and tile offset, inside its buffer |
| Staging.StoreV | src/fused/op_lds.hpp:314-354 | four warps together stage a whole V half at the reader's offsets, inside its buffer |
| Mfma.TwoPassesAdd | src/fused/op_gemm.hpp:138-139 | two MFMA passes add exactly the 16 terms of a k-step, each once |
| Mfma.KStep | src/fused/op_gemm.hpp:161-192 | the four MFMA of a k-step advance both accumulators by 16 terms |
| Mfma.PassDot | src/components/qk_gemm.hpp:41-46 | one 32x32x8 pass multiplies four headdims of the low lanes and four of the high lanes |
| Gemm.Gemm0Subtile | src/fused/op_gemm.hpp:146-193 | a half of the head dimension is added to the score of key first + Free(lane, r), for both N-tiles |
| Gemm.Gemm1Subtile | src/fused/op_gemm.hpp:245-294 | P packed by v_perm from the registers' bits, times V over half a tile, is added at headdim first + AccRow(lane, r) |
| Gemm.KOperandSupplies | src/fused/op_gemm.hpp:155-171 | the swizzled reads supply the K slice of the k-step to the MFMA |
| Gemm.VOperandSupplies | src/fused/op_gemm.hpp:260-267 | the straight reads supply the V slice |
| Gemm.PackedPSupplies | src/fused/op_gemm.hpp:269-291 | packing four registers per pass supplies what the high halves of the probabilities of the same keys stand for |
| Gemm.PackPairNarrows | src/fused/op_gemm.hpp:203-206 | the packing selector on two binary32 images leaves the two bf16 truncations in order |
| Gemm.SwizzledScores | src/fused/op_gemm.hpp:59-63 | the swizzled read turns accumulator rows into groups of eight columns |
| SoftmaxOps.SoftmaxMask | src/fused/op_softmax.hpp:73-131 | an entry becomes -inf if and only if its column is past seqlen_k or, when causal, past the row's diagonal; both fast paths included |
| SoftmaxOps.LimitIsMask | src/fused/op_softmax.hpp:53-62 | one compare against the folded limit is both mask conditions |
| SoftmaxOps.FastPathKeepsAll | src/fused/op_softmax.hpp:93-110 | a tile on a fast path has nothing to mask |
| SoftmaxOps.SoftmaxRowMax | src/fused/op_softmax.hpp:148-166 | both lanes of a row get the maximum of all 64 columns and the carried maximum |
| SoftmaxOps.ColumnOwner | src/fused/op_softmax.hpp:138-143 | every column of a row is in a register of the lane or of its partner |
| SoftmaxOps.SoftmaxExp2 | src/fused/op_softmax.hpp:186-195 | scores become exp2(scale*s - scale_m), masked ones 0, in place |
| SoftmaxOps.SoftmaxRowSum | src/fused/op_softmax.hpp:208-224 | both lanes of a row get the sum of all 64 columns |
| SoftmaxOps.PairSum | src/fused/op_softmax.hpp:197-204 | two lanes of 32 columns each add every column exactly once |
| SoftmaxOps.RescaleOAcc | src/fused/op_softmax.hpp:238-247 | every register of both accumulators is multiplied by its lane's factor |
| Epilogue.EpilogStore | src/fused/op_epilog.hpp:50-155 | each valid row gets its 64 normalised, truncated outputs in natural order, its log-sum-exp if asked for; nothing else changes |
| Epilogue.StoreOutput | src/fused/op_epilog.hpp:126-150 | eight stores per lane write each column of each valid row once with the value of that headdim |
| Epilogue.StoreLse | src/fused/op_epilog.hpp:92-97 | the lower half of the lanes writes one log-sum-exp per valid row |
| Epilogue.PackOutput | src/fused/op_epilog.hpp:99-124 | 32 outputs are normalised, truncated and packed in register order |
| Epilogue.OutRegisterHolds | src/fused/op_epilog.hpp:126-131 | register q of a lane holds headdim 8*(q/4) + 4*(lane/32) + q%4 |
| Epilogue.StoreCell | src/fused/op_epilog.hpp:130-148 | base swz(k_sub*8) and 16 bytes per store address the columns the store carries |
| CausalBound.VisibleKeysAreWalked | src/fused/pipeline.hpp:172-196 | every key visible to a row of the tile lies in a walked tile, for every sign and size of the mask shift |
| CausalBound.LastTileIsNeeded | src/fused/pipeline.hpp:172-222 | the last walked tile holds a key some row sees; nothing is walked exactly when no row sees a key |
| CausalBound.LoopCoversEnd | src/fused/pipeline.hpp:186-196 | under truncating division the tile count is the visible end rounded up |
| CausalBound.SquareCausalTiles | src/fused/kernel.cpp:33-36 | a square causal problem walks 2(i + 1) tiles for query tile i, and the tiles of the whole sequence if tile i is a last one that is not full |
| CausalBound.TruncDiv | src/fused/pipeline.hpp:190-196 | C++ division rounds towards zero |
| Grid.WrittenExactlyOnce | src/fused/kernel.cpp:26-99 | over all blocks, waves, lanes and stores, element d of a row of O has exactly one writer, dense or packed, reversed or not, for any strides that keep rows apart |
| Grid.StoresStayInside | src/fused/op_epilog.hpp:130-150 | every store lies in the window of an existing row, inside O, and its writer can be read back from row and column |
| Grid.EveryElementIsStored | src/fused/kernel.cpp:26-99 | every element of every row is stored |
| TensorLayouts.RowsAreNumberedOnce | src/fused/pipeline.hpp:134-160 | (batch, head, row) and row numbers of a head-major tensor are in bijection, dense and packed |
| TensorLayouts.SequenceIsUnique | src/runner/buffers.cpp:69-75 | a packed row lies in exactly one sequence, empty ones included |
| TensorLayouts.HeadMajorIsLaunch | src/bench_fmha_fwd.cpp:143-171 | [batch, head, row, 64] and packed tensors keep rows apart and are filled by them |
| TensorLayouts.RowMajorIsLaunch | tests/test_fmha_fwd_d64.cpp:261-273 | so do tensors whose heads are interleaved, [batch, row, head, 64] and [packed row, head, 64] |
| Grid.AddressIsRowAndColumn | src/fused/op_epilog.hpp:130-131 | a lane's address is that of its row and column under the launch's row, head and batch strides |
| TensorLayouts.RefThreadOwnsRow | src/runner/gpu_ref.cpp:13-45 | each row has exactly one reference thread that does not return early, dense and varlen |
| TensorLayouts.RefRowAgrees | src/runner/gpu_ref.cpp:47-50 | reference and kernel address the same row, packed tensors having batch stride zero |
| Buffers.FmhaBuffers.constructor | src/runner/buffers.cpp:22-84 | sizes of Q, K, V, O and LSE, byte strides of Q and K, and packed offsets, dense and varlen |
| Buffers.PrefixOffsets | src/runner/buffers.cpp:69-75 | offsets are the running sums of the sequence lengths |
| Buffers.BuildLaunch | src/runner/buffers.cpp:22-84 | what the constructor builds is a launch: rows of O lie apart and fill sz_O, sz_LSE has one cell per row, where kernel and reference index it alike, K has room for its rows, packed tensors have batch stride zero, and packed sequences get their lengths |
| Buffers.OffsetsMakeLengths | src/runner/buffers.cpp:69-75 | the offset table gives each packed sequence its length |
| Buffers.StridesAgree | src/runner/buffers.cpp:45-55 | byte strides like the constructor's, halved, are those of head-major tensors |
| Bf16.TruncationError | src/runner/bf16_utils.hpp:17-30 | truncation of a number of either sign keeps it between zero and itself, loses less than 2^-7 of it from the smallest normal number on, and takes it to zero exactly below the smallest bf16, subnormals included |
| Bf16.TruncationIsBounded | src/fused/op_gemm.hpp:251-292 | so cutting binary32 probabilities to their high halves is a truncation of the kind the bounds are about |
| Bf16.ConversionError | src/runner/bf16_utils.hpp:17-30 | a finite result of either sign is stored as a number no further from zero, within 2^-7 of it and 2^-126 |
| Bf16.FiniteWithinLargest | src/runner/bf16_utils.hpp:25-30 | every finite bf16 is within the largest finite binary32, as the bounds on stored numbers ask of V |
| Bf16.FlipNegates | src/runner/bf16_utils.hpp:25-30 | a number and its image with the other sign bit add up to zero |
| Bf16Numbers.EveryBf16 | src/runner/bf16_utils.hpp:25-30 | every bf16 stands for the number of its sign, its exponent and its seven mantissa bits |
| Bf16Numbers.FieldsGiveNumber | src/runner/bf16_utils.hpp:25-30 | and every combination of these three fields has a bf16 that stands for their number |
| Bf16Rounding.RoundsDownHolds | src/runner/bf16_utils.hpp:17-30 | there is a rounding of reals to binary32 bits that all this applies to |
| Bf16.RoundTrips | src/runner/bf16_utils.hpp:17-30 | widening then truncating is the identity; truncating then widening clears the low half |
| Bf16.ClearedBits | src/runner/bf16_utils.hpp:17-22 | clearing the low k bits loses less than 2^k and leaves zero or at least 2^k |
| StagingOracles.TestKLds | src/components/k_lds.hpp:70-121 | guarded K staging into zeroed memory leaves the oracle's whole 8192-element image, padding and out-of-range rows included |
| StagingOracles.RefKLds | src/components_ref/ref_k_lds.cpp:4-21 | the K oracle's loops build that image |
| StagingOracles.TestVLds | src/components/v_lds.hpp:58-135 | guarded V load, transpose and store leave the oracle's whole image |
| StagingOracles.RefVLds | src/components_ref/ref_v_lds.cpp:4-23 | the V oracle's loops build that image |
| StagingOracles.KPlaceOf | src/components_ref/ref_k_lds.hpp:33-39 | cell and tile element determine each other over both headdim halves |
| StagingOracles.SameImage | src/components/k_lds.hpp:119-120 | kernel and oracle images are equal cell by cell |
| GemmOracles.RefQkGemm | src/components_ref/ref_qk_gemm.cpp:8-26 | the score reference: 64-term dot products in thread-buffer order, zero past either sequence |
| GemmOracles.RefPvGemm | src/components_ref/ref_pv_gemm.cpp:22-38 | the output reference: 64-term products in swizzled thread-buffer order |
| GemmOracles.GetPInverts | src/components_ref/ref_pv_gemm.cpp:8-20 | get_p finds row m and key n in exactly the thread and register that hold them |
| GemmOracles.ScoresMatchReference | src/components_ref/ref_qk_gemm.cpp:8-26 | the fused GEMM0 accumulators are the reference's thread buffer for every key of the sequence |
| GemmOracles.ValuesMatchReference | src/components_ref/ref_pv_gemm.cpp:22-38 | what both fused GEMM1 sub-tiles leave in a register is the reference's entry |
| ComponentKernels.TestQkGemm | src/components/qk_gemm.hpp:114-196 | staging, 16 MFMA and dump produce the score reference in every slot, padding rows and keys included |
| ComponentKernels.TestPvGemm | src/components/pv_gemm.hpp:84-288 | both V slices, 16 MFMA and dump produce the output reference in every slot, for P that is bf16 in binary32 |

## Left out

- Rounding of sums and products, NaN and infinity arithmetic, denormal flushing, and the accuracy of the hardware exp2 and log: the model is over reals, with the truncation of probabilities and outputs to bf16 as the only rounding; bit patterns of infinities and NaN are read as ordinary numbers.
- 32-bit overflow of byte offsets and 64-bit base pointers: indices are unbounded.
- KernelBound.KernelWithinBf16Bound: the converse is not stated, because a row below the seed can still be near exact attention, for V near zero or scores not far below; KernelBound.KernelNearExact bounds every row with a key of weight w, and KernelBound.RowLostExactlyBelowSeed says exactly which rows nothing is left of.
- Pipeline.FmhaWave: follows one wave and writes the other warps' shares of LDS in program order, because StagedReads.SubtilesAreStaged shows that every interleaving leaves the same in front of each sub-tile; it does not interleave waves itself.
- LaunchGrid.RunLaunch: goes through blocks and waves one after another; that their order does not matter rests on Grid.WrittenExactlyOnce.
- LdsProtocol.StepKeeps: does not model the lgkmcnt drains inside ds_bpermute, because they only restrict the interleavings that are allowed here; a sub-tile's LDS reads count as finished when its step finishes, and barriers release all warps in one step.
- Epilogue.EpilogStore: does not model the num_records bounds check of the O descriptor, because the row guard already keeps every store in range.
- TensorLayouts.LseRowsApart: packed launches need the head stride of Q to be the packed length in rows, because otherwise the cells need not be apart; TensorLayouts.PackedInterleavedCollides shows it for interleaved heads. Outputs need no such condition.
- ComponentKernels.TestPvGemm: takes P that truncation leaves unchanged, as the kernel's input is bf16 already.
- sched_barrier calls, launch bounds, bank conflicts, occupancy and all performance claims: no effect on results.
- Functions marked for removal (gemm0, gemm1_bpermute, k_lds_offset, the synchronous K copies, array-valued softmax overloads, pack_p_subtile): not on the live path.
- The stand-alone row_max, softmax and epilog components and their references: the fused functions carry the same obligations.
- Device allocation, copies, kernel launch, timing, option parsing, printing, the CPU verification's tolerances and golden-file loading: input and output.
