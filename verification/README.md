# Verified model of the RVANNS kernels, graph layouts and index utilities

This project models the parts of the RVANNS vector-search library (a Knowhere fork with RISC-V
"V" kernels, bundling its own Faiss) whose correctness is easiest to lose: vector kernels that must
agree with a scalar loop on every machine and every length, the mixed-precision row format, the
post-build HNSW layouts, and the small stateful utilities around them. Every file is Dafny 4.11;
`dafny verify dfyconfig.toml` checks the whole project.

## What is modelled

**RISC-V kernels** (`Metrics`, `Rvv`, `RvvKernels`, `RvvInt8`, `RvvTransposed`). A machine is a VLMAX and *any*
answer function for `vsetvl` that obeys section 6.3 of the RISC-V "V" Vector Extension 1.0. Tail
lanes follow section 3.4.3: the `_tu` intrinsics keep them; the tail-agnostic ones either keep what
their destination register held or fill it with ones. Intrinsics without a policy suffix name no
pass-through operand, so what that register held is the compiler's choice, and the model reads the
lanes from an arbitrary oracle. Theorems quantify over all machines, all oracles and all lengths. Two
families of kernels accumulate with a
tail-agnostic instruction and afterwards reduce lanes that the last strip may not have covered. For
those the project proves exactly for which lengths the scalar result is guaranteed.

**x86 kernels** (`MaskedSum`, `Rabitq`, `AvxNy`, `BinarySearch`, `Jaccard`). Registers are lane
sequences, masks are bit sequences, bytes are bit-vectors; 32-bit counters wrap explicitly.

**MPMI** (`Mpmi`, `MpmiRvv`). The mixed-precision row: one byte per dimension, a packed pool of
16-bit residuals and a packed pool of 32-bit residuals, addressed by bitmap ranks. A row is an array
of symbolic cells, so reading a half or a word is only defined where one was written; overlap or
misplacement of pools cannot verify. The RVV tile path is proved equal to the portable one on every
row the encoder can write.

**HNSW layouts and search** (`HnswLayout`, `HnswGreedy`, `MinimaxHeap`, `HeapResults`, `HnswSearch`,
`HnswResults`, `HnswROrder`, `HnswAnswers`, `HnswCoverage`, `HnswTies`, `UnitHeap`, `Gorder`,
`HnswPass`). Renumbering of the flat graph, the greedy upper-level search, the bounded level-0
search with its two heaps, ROrder's sorting of level-0 lists, and GOrder itself: a bucketed doubly
linked list with deferred decrements, a five-node window, and marks that let a common neighbour keep
its bumps. GOrder is proved to terminate, to stay inside its tables and to return a permutation for
every level-0 graph, repeated links included, and to draw at every step a node near the best one
left as long as its shortcut is exact. A search is proved to end, to hold the nearest of the nodes
it visited, to stop only for the reason the code gives, and to be exact where few nodes can be
reached. After GOrder and after ROrder a query is proved to return the same list under the new names
exactly when no two nodes are equally far from it.

**Utilities** (`EmbListScore`, `EmbListOffset`, `MaxMinHeap`, `SparseRow`, `Bitset`, `MemoryIO`).

Conventions: floating point is exact `real` arithmetic, so results that differ only by rounding or
by summation order are equal here; integers that wrap in the source wrap in the model (`Int32`).
`std::sort`, `push_heap`/`pop_heap` and `binary_search` stand for what the C++ library does:
`Sorting.Sort` for a sorted permutation, the sift-up/sift-down steps of libstdc++ for the heap,
membership for the search. Where ties make `std::sort` free to choose, the order is a parameter.

## Properties that hold only under a condition

- `fvec_L1_rvv` and `fvec_Linf_rvv` equal their scalar references for every tail oracle exactly when
  VLMAX divides the dimension (`RvvKernels.UnrolledDropsTails`).
- The fp16 and bf16 RVV kernels are guaranteed on one machine exactly when the dimension is non-zero
  and a multiple of the first `vl` (`RvvKernels.StrippedDropsTails`), and on every machine of a given
  VLMAX exactly when it is non-zero and at most VLMAX or a multiple of it
  (`RvvKernels.StrippedOnEveryMachine`). Two machines of the same VLMAX can differ
  (`RvvKernels.GuaranteeDependsOnStrips`). For dimension 0 the reduction runs with `vl` 0.
- The int8 kernels are exact for all inputs up to dimension 33025 (L2) and 131071 (inner product) and
  for no larger dimension (`RvvInt8.OverflowBound`); with wrap-around they agree with the scalar
  reference always.
- The AVX nearest-row function starts from the largest finite float. It returns the first minimum
  exactly when some distance is below it or row 0 is already minimal (`Nearest.NearestFromLimit`,
  `AvxNy.NearestRow`). The scalar and RVV ones start from infinity and always do.
- The AVX-512 Jaccard numerators count every unused lane of the last register as a match, so they
  agree with the reference exactly when the lane count divides the signature length and the count
  itself is below 2^32 (`Jaccard.AgreesWithReference`).
- `BitsetView::get_filtered_out_num_` and `get_first_valid_index` read whole bytes, so bits past
  `num_bits` matter (`Bitset.CountExact`, `Bitset.FirstValidExact`).
- `Index::Search` rebuilds a view whose stored count is zero, without its offset and its id mapping.
  Without a mapping the rebuilt view filters the same ids exactly when the offset was zero or every
  bit is set (`Bitset.RebuildUnmapped`; `Bitset.RebuildIgnoresOffset` is an input where it does not).
  With a mapping that lets every id through it does exactly when no bit below the number of ids is
  set, and over an empty bitset, which filters everything but counts nothing, exactly when all of
  them are (`Bitset.RebuildMapped`, `Bitset.RebuildIgnoresMapping`). It reads inside the buffer
  exactly when the buffer covers the number of ids (`Bitset.ReadsInBounds`). All of this is in the
  contract of `Bitset.BitsetView.ForSearch`.
- The RVV base of an MPMI dimension is the portable one exactly when vdiff is not negative or the code
  is zero (`MpmiRvv.SameScale`). The encoder writes code zero wherever vdiff is not positive, so the
  paths agree on every encoded row of every quantizer (`MpmiRvv.EncodedRowsAgree`).
- `MaxMinHeap` pops equal values by ascending id as long as it has never been full and pushed to
  again, or holds one item; for every other capacity and number of pushes some run does not
  (`MaxMinHeap.PushAll`, `MaxMinHeap.TieBroken`).
- GOrder and ROrder keep the answers of all queries exactly when no two nodes are equally far from the
  query, the limit of the empty places being above every distance (`HnswTies.KeptExactly`). For any
  two equally far nodes below the limit there is a graph and a renumbering that change an answer
  (`HnswTies.TieChangesAnswer`), and one on which sorting a list alone does
  (`HnswTies.SortingChangesAnswer`). Distinct distances below the limit would not be enough: ties at
  or above it change answers too (`HnswTies.FarTieChangesAnswer`).
- GOrder's marks account exactly for the rounds of the window as long as no list names both the node
  that enters and, at least twice, the node that leaves; from such a step on they leave rounds too many
  (`Gorder.Exchanged`, `Gorder.RepeatLeavesSurplus`). The result is a permutation either way.
- `u64_binary_search_eq_avx512` returns the first of several equal keys, as the reference does, for all
  arrays of n keys exactly when n is at most 32 (`BinarySearch.AgreesExactly`), and always for a key
  that occurs once (`BinarySearch.AgreesOnSingleKeys`).
- `EmbListOffset(lims, rows)` drops trailing empty lists (`EmbLists.ListsKept`).
- `get_sum_max_sim` rejects inputs whose row index does not fit in 32 bits, and takes a distance
  beyond the largest finite float for that float (`EmbListScore.UnorderedScore`).
- The comment on `DocIdFilterByVector` asks for every id exactly once and in order; non-decreasing
  queries, with repetitions or gaps, are enough (`SparseRows.TestAll`).

## Model

| member | source | states |
|---|---|---|
| `RvvMachine.Widest` | src/simd/distances_rvv.cc:94-95 | a legal machine of every VLMAX, so the theorems over machines are about something |
| `RvvMachine.Evening` | src/simd/distances_rvv.cc:94-95 | another legal one, which between VLMAX and twice VLMAX takes half of what is left, rounded up |
| `RvvMachine.StripBounds` | src/simd/distances_rvv.cc:94-104 | every legal `vsetvl` answer for a non-empty remainder is at least 1, at most VLMAX and at most the remainder, so strip loops advance and stay in bounds |
| `RvvMachine.StripsKeepTails` | src/simd/distances_rvv.cc:94-106 | a strip loop whose accumulation keeps tails conserves the reduction: folding the final register combines the fold of the start register with the fold of all terms, for every legal split |
| `RvvMachine.StripsSpike` | src/simd/distances_rvv.cc:189-199 | with a tail-agnostic accumulation, an oracle value planted in a lane the last strip does not reach survives to the end unchanged while the lanes below are unaffected |
| `RvvMachine.StripsEven` | src/simd/distances_rvv.cc:713-737 | every strip has the width of the first one if and only if that width divides the length |
| `RvvKernels.MainLoopConserves` | src/simd/distances_rvv.cc:54-92 | the four-accumulator loop and its merge conserve the total: merged accumulator combined with the leftover terms equals the start combined with all terms, and divisibility of the leftover by VLMAX is that of the whole |
| `RvvKernels.UnrolledKeepsTails` | src/simd/distances_rvv.cc:53-109 | the unrolled kernels with tail-undisturbed accumulation equal the scalar fold for every dimension, machine and junk |
| `RvvKernels.UnrolledDropsTails` | src/simd/distances_rvv.cc:157-247 | with tail-agnostic accumulation the kernel equals the scalar fold for all junk if and only if VLMAX divides the dimension |
| `RvvKernels.SpikeBreaks` | src/simd/distances_rvv.cc:189-201 | whenever the last strip leaves a reduced lane uncovered, for any target value some junk makes the reduction miss it |
| `RvvKernels.UnrolledKernel` | src/simd/distances_rvv.cc:53-109 | the loop-by-loop kernel computes the specification function, whatever lies in register tails |
| `RvvKernels.InnerProduct` | src/simd/distances_rvv.cc:53-109 | equals the sum of the products of the coordinates, and so the scalar loop, on every machine |
| `RvvKernels.L2Sqr` | src/simd/distances_rvv.cc:111-155 | equals the sum of the squared differences of the coordinates, and so the scalar loop, on every machine |
| `RvvKernels.NormL2Sqr` | src/simd/distances_rvv.cc:249-283 | equals the inner product of the vector with itself on every machine |
| `RvvKernels.L1` | src/simd/distances_rvv.cc:157-201 | whenever VLMAX divides the dimension, for every junk: the scalar loop and the Manhattan distance, never negative, zero exactly for equal vectors, at least every coordinate difference either way |
| `RvvKernels.Linf` | src/simd/distances_rvv.cc:203-247 | whenever VLMAX divides the dimension, for every junk: the scalar loop and the least bound on all coordinate differences in both directions |
| `RvvKernels.ScalarReference` | src/simd/distances_ref.cc:21-66 | the reference loops compute the fold of the lane terms |
| `Metrics.SquaredDistanceExpands` | src/simd/distances_ref.cc:30-37 | the squared distance is the two squared norms less twice the inner product |
| `Metrics.ManhattanLaws` | src/simd/distances_ref.cc:39-47 | the Manhattan distance is symmetric, never negative, zero exactly for equal vectors, and at least the difference of every coordinate |
| `Metrics.ManhattanTriangle` | src/simd/distances_ref.cc:39-47 | no detour is shorter |
| `Metrics.ChebyshevUnique` | src/simd/distances_ref.cc:49-56 | only one number is the least bound on all coordinate differences |
| `Folds.FoldMaxIsBound` | src/simd/distances_ref.cc:50-57 | the maximum fold bounds every term and is zero or one of them |
| `RvvKernels.StripKernel` | src/simd/distances_rvv.cc:713-784 | the fp16/bf16 strip loop computes its specification, including the stale result of a zero-length reduction |
| `RvvKernels.StrippedKeepsTails` | src/simd/distances_rvv.cc:883-974 | the same loop with kept tails would be exact for every non-zero dimension |
| `RvvKernels.StrippedDropsTails` | src/simd/distances_rvv.cc:713-784 | as written it equals the scalar fold for all junk and stale values if and only if the dimension is non-zero and a multiple of the first `vl` |
| `RvvKernels.StrippedOnEveryMachine` | src/simd/distances_rvv.cc:883-974 | it does so on all machines of a VLMAX if and only if the dimension is non-zero and at most VLMAX or a multiple of it |
| `RvvKernels.GuaranteeDependsOnStrips` | src/simd/distances_rvv.cc:713-784 | between VLMAX and twice VLMAX the machine that halves its strips guarantees exactly the even dimensions, the one that fills its registers none |
| `RvvInt8.StripMined` | src/simd/distances_rvv.cc:534-636 | for every legal split the widening int8 kernels return the exact sum reduced to 32 bits |
| `RvvInt8.ScalarReference` | src/simd/distances_ref.cc:386-412 | the reference loop returns the same wrapped sum |
| `RvvInt8.SquaresExpand` | src/simd/distances_ref.cc:386-412 | a squared distance is the two squared norms less twice the inner product |
| `RvvInt8.OverflowBound` | src/simd/distances_rvv.cc:588-636 | no input of a dimension overflows if and only if the dimension is at most 33025 for L2 or 131071 for inner product |
| `RvvInt8.SumInRange` | src/simd/distances_rvv.cc:588-621 | up to that bound the mathematical sum fits in 32 bits |
| `RvvInt8.OverflowWitness` | src/simd/distances_rvv.cc:588-621 | beyond it some vectors overflow |
| `RvvTransposed.GatheredDot` | src/simd/distances_rvv.cc:1401-1476 | gathering a strided column strip by strip plus a scalar tail gives the row's inner product |
| `RvvTransposed.ExpandedIsDistance` | src/simd/distances_ref.cc:84-105 | the expanded form (norms minus twice the product) is the squared distance when the stored norm is the true one |
| `RvvTransposed.TransposedDistances` | src/simd/distances_rvv.cc:1401-1476 | fills exactly the first ny slots with the expanded distances and nothing else |
| `RvvTransposed.TransposedAgrees` | src/simd/distances_ref.cc:84-105 | with true norms the transposed layout yields the row-major distances |
| `RvvTransposed.NearestTransposed` | src/simd/distances_rvv.cc:1492-1505 | with true norms and at least one row, returns the first row of minimal distance |
| `Nearest.NearestScan` | src/simd/distances_ref.cc:107-123 | the scan loop computes the specified index |
| `Nearest.ScanMeaning` | src/simd/distances_ref.cc:107-123 | the scan yields the first minimum of the prefix and its value if something is below the start value, else index 0 and the start value |
| `Nearest.NearestFromInfinity` | src/simd/distances_ref.cc:107-123 | starting from infinity the result is always the first minimum |
| `Nearest.NearestFromLimit` | src/simd/distances_avx.cc:440-455 | starting from a finite limit it is the first minimum if and only if something is below the limit or element 0 is minimal |
| `MaskedSum.ScalarReference` | src/simd/distances_ref.cc:523-537 | sums the coordinates whose bit is set |
| `MaskedSum.MaskLanes` | src/simd/distances_avx.cc:1047-1051 | lane j of the shifted broadcast has its sign bit set exactly when bit j of the byte is |
| `MaskedSum.HorizontalSumIsFold` | src/simd/distances_avx.cc:1053-1066 | the shuffle-and-add reduction is the sum of the lanes |
| `MaskedSum.MaskedSumAvx` | src/simd/distances_avx.cc:1070-1110 | equals the bit-selected sum for every dimension, through the blocks of 32, of 8 and the masked rest |
| `MaskedSum.TailMask` | src/simd/distances_avx512.cc:865-877 | the tail mask, from one byte or two, never loads past the vector and loads exactly the remaining selected terms |
| `MaskedSum.MaskedSumAvx512` | src/simd/distances_avx512.cc:854-880 | equals the bit-selected sum for every dimension |
| `Rabitq.ValueIsDot` | src/simd/distances_ref.cc:539-568 | the weighted sum of plane popcounts is the inner product of the bit vector with the integers the planes encode |
| `Rabitq.CoordinateDigits` | src/simd/distances_ref.cc:539-568 | the planes hold the binary digits of the query coordinates, lowest first |
| `Rabitq.QueryBit` | src/simd/distances_ref.cc:539-568 | bit i of plane j is bit 8 n j + i of the query |
| `Rabitq.ScalarReference` | src/simd/distances_ref.cc:539-568 | computes that value, reduced to 32 bits, for any number of planes |
| `Rabitq.PopLanesSum` | src/simd/distances_avx512icx.cc:36-44 | per-lane popcounts add up to the popcount of the register |
| `Rabitq.SlliSum` | src/simd/distances_avx512icx.cc:36-44 | shifting every 32-bit lane shifts the sum, modulo 2^32 |
| `Rabitq.MaskzCommon` | src/simd/distances_avx512icx.cc:70-81 | the zero-masked tail load counts exactly the common bits of the remaining bytes |
| `Rabitq.CascadeOffsets` | src/simd/distances_avx512icx.cc:28-81 | the 512/256/128-bit offsets are ordered, each step fits its register, and the masked tail is skipped only when nothing is left |
| `Rabitq.Chunk` | src/simd/distances_avx512icx.cc:36-81 | processing a byte range adds exactly its weighted value to the lane sum, modulo 2^32 |
| `Rabitq.Cascade` | src/simd/distances_avx512icx.cc:25-90 | the cascade returns the whole weighted value, reduced to 32 bits |
| `Rabitq.DotPopcount` | src/simd/distances_avx512icx.cc:94-116 | the inner product modulo 2^32 for up to 8 planes, and 0 for more |
| `AvxNy.DimensionTwo` | src/simd/distances_avx.cc:310-356 | lane shuffles and shrinking remainders still write every row's distance at its own place and touch nothing else |
| `AvxNy.DimensionFour` | src/simd/distances_avx.cc:358-425 | the same for dimension four, through blocks of 8, 4, 2 and 1 rows |
| `AvxNy.Batch4` | src/simd/distances_avx.cc:230-251 | one pass yields the four row distances in order |
| `AvxNy.AnyDimension` | src/simd/distances_avx.cc:292-307 | the same for every other dimension |
| `AvxNy.L2SqrNy` | src/simd/distances_avx.cc:428-438 | for every dimension the first ny slots are the reference distances and the rest is unchanged |
| `AvxNy.NearestRow` | src/simd/distances_avx.cc:440-455 | is the first nearest row if and only if some distance is below the largest float or row 0 is nearest |
| `BinarySearch.GeReference` | src/simd/distances_ref.cc:644-660 | index of the first element not below the target, or -1 |
| `BinarySearch.LowerBoundUnique` | src/simd/distances_ref.cc:644-660 | that index is unique, so any two correct searches agree |
| `BinarySearch.GeAvx512` | src/simd/distances_avx512.cc:990-1044 | the chunked search meets the same specification; its scalar fall-back is proved unreachable |
| `BinarySearch.ChunkFits` | src/simd/distances_avx512.cc:1002-1012 | the clamped chunk lies inside the array and ends before the right end |
| `BinarySearch.EqReference` | src/simd/distances_ref.cc:625-643 | the first index holding the target, or -1 if absent |
| `BinarySearch.FirstUnique` | src/simd/distances_ref.cc:625-643 | that index is unique |
| `BinarySearch.ChunkRulesOut` | src/simd/distances_avx512.cc:940-975 | a chunk without the key lets its middle element discard everything on one side |
| `BinarySearch.EqLinear` | src/simd/distances_avx512.cc:922-938 | the short-array scan, chunks then rest, finds the first index holding the key, or -1 if absent |
| `BinarySearch.EqChunked` | src/simd/distances_avx512.cc:940-975 | either finds the key or narrows to a range outside which it cannot be |
| `BinarySearch.EqAvx512` | src/simd/distances_avx512.cc:915-989 | finds an index holding the key if and only if the key is present: the first for up to 32 keys, otherwise the one (chunked) bisection lands on |
| `BinarySearch.AgreesOnSingleKeys` | src/simd/distances_avx512.cc:915-989 | for a key that occurs at most once that is the first |
| `BinarySearch.MissesFirst` | src/simd/distances_avx512.cc:940-989 | over more than 32 equal keys it never is: up to 128 the middle one is returned, beyond that the first of the aligned block of eight around the fourth before it |
| `BinarySearch.AgreesExactly` | src/simd/distances_avx512.cc:915-989 | it is the first for all sorted arrays of n keys if and only if n is at most 32 |
| `Jaccard.ScalarReference` | src/simd/distances_ref.cc:667-676 | counts the positions where the signatures agree |
| `Jaccard.Numerator` | src/simd/distances_avx512.cc:1051-1075 | the vector count is the true count plus the unused lanes of the last register, modulo 2^32 (16 lanes here, 8 in the 64-bit version) |
| `Jaccard.AgreesWithReference` | src/simd/distances_avx512.cc:1131-1156 | equals the true count if and only if the lane count divides the length and the count fits 32 bits |
| `EmbListScore.UpdateRow` | include/knowhere/emb_list_utils.h:154-169 | the in-place row update advances every cell from the optimum over i queries to the one over i + 1 |
| `EmbListScore.BestAttained` | include/knowhere/emb_list_utils.h:148-171 | some assignment that never moves left attains the recurrence's value |
| `EmbListScore.BestOptimal` | include/knowhere/emb_list_utils.h:148-171 | no such assignment has a larger total, or a smaller one for distances |
| `EmbListScore.OrderedScore` | include/knowhere/emb_list_utils.h:148-171 | no score exactly for an empty side; otherwise a total that some non-crossing assignment has and none exceeds, or falls below for distances |
| `EmbListScore.FindInRange` | include/knowhere/emb_list_utils.h:93-121 | no value exactly for a negative start or an empty range; otherwise the largest, or for distances the smallest, element of the range, entries beyond the start value counting as that value |
| `EmbListScore.UnorderedScore` | include/knowhere/emb_list_utils.h:123-146 | a score exactly when every row has non-empty 32-bit bounds, which for list lengths up to INT_MAX means non-empty rows whose last index fits; for those lengths a total that some assignment has and none exceeds, or falls below for distances |
| `EmbListScore.OrderedNeverBeatsUnordered` | include/knowhere/emb_list_utils.h:123-171 | the ordered score is at most the unordered one, for distances at least |
| `EmbLists.EmbListOffset.FromLims` | include/knowhere/emb_list_utils.h:25-35 | keeps the prefix of the limits up to the first that reaches the row count |
| `EmbLists.EmbListOffset.ElId` | include/knowhere/emb_list_utils.h:55-60 | the one list that contains a vector id |
| `EmbLists.EmbListOffset.Vids` | include/knowhere/emb_list_utils.h:62-68 | the ids of that list in ascending order, all of them |
| `EmbLists.VidsConcatenate` | include/knowhere/emb_list_utils.h:62-68 | the lists in order enumerate every id once, ascending |
| `EmbLists.ListsKept` | include/knowhere/emb_list_utils.h:25-35 | no list is lost if and only if the last one is not empty |
| `MaxMinHeap.SiftUp` | include/knowhere/sparse_utils.h:263-272 | the push_heap climb restores heap order and keeps the items |
| `MaxMinHeap.AdjustHeap` | include/knowhere/sparse_utils.h:273-278 | the hole-to-leaf descent and climb of pop_heap restore heap order and keep the items |
| `MaxMinHeap.PopHeap` | include/knowhere/sparse_utils.h:273-278 | moves the minimum behind a heap of the other items |
| `MaxMinHeap.SiftDown` | include/knowhere/sparse_utils.h:296-316 | replaces the root by a larger item and restores heap order |
| `MaxMinHeap.MaxMinHeap.Push` | include/knowhere/sparse_utils.h:263-272 | adds the item while there is room, keeping order by value and id; when full, exchanges it for the minimum exactly if its value is larger |
| `MaxMinHeap.MaxMinHeap.Pop` | include/knowhere/sparse_utils.h:273-278 | removes and returns an item of least value, and the one of least id among those if the heap was ordered by value and id, which it then still is |
| `MaxMinHeap.PushKeeping` | include/knowhere/sparse_utils.h:256-272 | one more push keeps the heap on the largest of everything pushed |
| `MaxMinHeap.PushAll` | include/knowhere/sparse_utils.h:256-272 | after any pushes the heap holds `capacity` largest items, or all of them; it is ordered by value and id if it never overflowed or has room for one |
| `MaxMinHeap.Drain` | include/knowhere/sparse_utils.h:273-278 | popping until empty returns exactly the contents in ascending order of value, and of id among equal values if the heap was ordered so |
| `MaxMinHeap.TieBroken` | include/knowhere/sparse_utils.h:263-316 | for every capacity above one and every larger number of pushes, a run of that many pushes after which the item popped next has the value of another item with a smaller id |
| `SparseRows.Dot` | include/knowhere/sparse_utils.h:203-225 | the merge of two sorted rows is the left-to-right sum, over the left row, of the terms of the columns both have, for any addition and term |
| `SparseRows.LookupFinds` | include/knowhere/sparse_utils.h:203-225 | looking a column up finds exactly the value stored there, or nothing |
| `SparseRows.DotContinues` | include/knowhere/sparse_utils.h:211-223 | the product over a left row in two parts continues that of the first part over the second |
| `SparseRows.DotOfCommon` | include/knowhere/sparse_utils.h:211-223 | rows with one common column give the term of its two values, left value first |
| `SparseRows.DropHead` | include/knowhere/sparse_utils.h:214-218 | skipping an unmatched right element changes nothing |
| `SparseRows.DocIdFilter.Test` | include/knowhere/sparse_utils.h:76-83 | passes exactly when the id is not among the ids not yet passed over; the cursor only moves forward past smaller ids |
| `SparseRows.TestAll` | include/knowhere/sparse_utils.h:68-83 | for non-decreasing queries every answer is exact membership in the original list, with at most one move per listed id overall |
| `Bitset.Popcount8Counts` | include/knowhere/bitsetview.h:131-136 | the folding trick counts the set bits of a byte |
| `Bitset.CountBits` | include/knowhere/bitsetview.h:126-151 | words then bytes count every set bit of the buffer |
| `Bitset.ScanFirstClear` | include/knowhere/bitsetview.h:166-194 | words then bytes find the first clear bit, or return the bit count |
| `Bitset.BitsetView.FilteredOutNum` | include/knowhere/bitsetview.h:111-152 | with a mapping the number of filtered ids; without one the popcount of the covered bytes; zero when empty |
| `Bitset.BitsetView.FirstValidIndex` | include/knowhere/bitsetview.h:154-195 | with a mapping the first id that passes, or their number |
| `Bitset.BitsetView.SetOutIds` | include/knowhere/bitsetview.h:71-81 | installs the mapping and counts filtered ids itself when no count is given |
| `Bitset.BitsetView.ForSearch` | src/index/index.cc:142-150 | what the search uses: the view itself if the stored count of its kind is positive, else a rebuilt one; when the rebuilt one stays inside the buffer, and exactly when it filters the same ids, with a mapping and without |
| `Bitset.TestCountIsPopcount` | include/knowhere/bitsetview.h:96-104 | without mapping, counting by test is the popcount of the first bits |
| `Bitset.CountExact` | include/knowhere/bitsetview.h:111-152 | the byte-wise count is the number of filtered ids if and only if the padding bits are clear |
| `Bitset.FirstValidExact` | include/knowhere/bitsetview.h:154-195 | the result is the first valid index, or the bit count, if and only if some bit is clear, or the first padding bit is, or all padding is set |
| `Bitset.RebuildUnmapped` | src/index/index.cc:142-150 | without a mapping the rebuilt view agrees on every id if and only if the offset is zero or all bits are set |
| `Bitset.RebuildMapped` | src/index/index.cc:142-150 | with a mapping and no filtered id it agrees if and only if no bit below the number of ids is set; with an empty bitset if and only if all are |
| `Bitset.ReadsInBounds` | include/knowhere/bitsetview.h:96-104 | every id is read inside the buffer if and only if the buffer covers that many bits |
| `Bitset.RebuildIgnoresOffset` | src/index/index.cc:142-150 | an unmapped view with offset 1 whose rebuilt form lets a filtered id through |
| `Bitset.RebuildIgnoresMapping` | src/index/index.cc:142-150 | a mapped view with no filtered id whose rebuilt form filters id 0 |
| `MemoryIO.MemoryIOWriter.Write` | src/io/memory_io.cc:21-48 | appends the items to the contents, growing the buffer when needed |
| `MemoryIO.AmortisedMoves` | src/io/memory_io.cc:33-41 | all copies made by growing add up to at most twice the bytes written |
| `MemoryIO.MemoryIOReader.Read` | src/io/memory_io.cc:50-62 | reads as many whole items as remain, advances by them, and nothing at the end |
| `MemoryIO.MemoryIOReader.Advance` | src/io/memory_io.h:139-147 | moves the cursor but not past the end |
| `MemoryIO.WriteAll` | src/io/memory_io.cc:21-48 | writing a list of items of any size yields their concatenation at linear total cost |
| `MemoryIO.RoundTrip` | src/io/memory_io.cc:21-62 | reading back with the written sizes returns exactly the items written |
| `Mpmi.Open` | thirdparty/faiss/faiss/impl/ScalarQuantizerCodec.h:231-292 | accepts exactly metadata whose two word counts are the required number, which is long enough and whose bitmaps are disjoint; then holds the parameters and bitmaps found there with correct prefix counts |
| `Mpmi.Words` | thirdparty/faiss/faiss/impl/ScalarQuantizerCodec.h:247-247 | the least number of 32-bit words with a bit for every dimension |
| `Mpmi.BitPlace` | thirdparty/faiss/faiss/impl/ScalarQuantizerCodec.h:275-281 | bit j of word k of either bitmap selects dimension 32 k + j; the words of the 16-bit pool follow the affine parameters, those of the 32-bit pool follow them |
| `Mpmi.SelectAt` | thirdparty/faiss/faiss/impl/ScalarQuantizerCodec.h:284-287 | a dimension's residual sits in its pool at the dimension's rank |
| `Mpmi.BaseError` | thirdparty/faiss/faiss/impl/ScalarQuantizerCodec.h:294-310 | inside the trained range value and one-byte base differ by at most vdiff/510, in either direction |
| `Mpmi.BaseClamped` | thirdparty/faiss/faiss/impl/ScalarQuantizerCodec.h:294-310 | at or below the range, or without one, the base decodes to vmin; at or above it to vmin + vdiff |
| `Mpmi.EncodeDimension` | thirdparty/faiss/faiss/impl/ScalarQuantizerCodec.h:338-351 | encoding dimension i writes its cells and leaves everything already encoded intact |
| `Mpmi.Encode` | thirdparty/faiss/faiss/impl/ScalarQuantizerCodec.h:337-352 | the finished code stores exactly the row: all bases, both pools, no overlap, no gap |
| `Mpmi.ResidualComponent` | thirdparty/faiss/faiss/impl/ScalarQuantizerCodec.h:312-329 | reads back the residual stored for a dimension, or zero |
| `Mpmi.Decode` | thirdparty/faiss/faiss/impl/ScalarQuantizerCodec.h:354-358 | decoding a stored row gives its reconstruction |
| `Mpmi.RowMeaning` | thirdparty/faiss/faiss/impl/ScalarQuantizerCodec.h:331-352 | reconstruction is the input in 32-bit dimensions, off by the residual's 16-bit rounding in 16-bit ones, and off by the residual elsewhere |
| `Mpmi.RoundTrip` | thirdparty/faiss/faiss/impl/ScalarQuantizerCodec.h:337-358 | encode then decode is exact in 32-bit dimensions, off by the 16-bit rounding in 16-bit ones, and in the rest at most vdiff/510 above or below inside the trained range and the nearer end of the range outside it |
| `MpmiRvv.BaseTile` | thirdparty/faiss/faiss/impl/ScalarQuantizerCodec_rvv.h:592-611 | the strips of a tile yield its fused bases in order on every machine, for every quantizer |
| `MpmiRvv.SameScale` | thirdparty/faiss/faiss/impl/ScalarQuantizerCodec_rvv.h:592-611 | the fused base is the portable one if and only if vdiff is not negative or the code is zero |
| `MpmiRvv.WidenPool` | thirdparty/faiss/faiss/impl/ScalarQuantizerCodec_rvv.h:440-471 | widening a packed run strip by strip yields the pool's values in order |
| `MpmiRvv.Scatter` | thirdparty/faiss/faiss/impl/ScalarQuantizerCodec_rvv.h:407-520 | each marked lane receives the residual at its rank and unmarked lanes keep their base |
| `MpmiRvv.DecodeTile` | thirdparty/faiss/faiss/impl/ScalarQuantizerCodec_rvv.h:522-615 | succeeds exactly for tiles of at most 256 dimensions; the result is the portable reconstruction if and only if every code is zero where vdiff is negative |
| `MpmiRvv.EncodedRowsAgree` | thirdparty/faiss/faiss/impl/ScalarQuantizerCodec.h:294-352 | on every row the encoder writes both recoveries are the same, for every valid quantizer |
| `MpmiRvv.AccumulateTile` | thirdparty/faiss/faiss/impl/ScalarQuantizerCodec_rvv.h:1313-1385 | the per-strip reductions of a tile add up to the fold of its terms |
| `MpmiRvv.TiledDistance` | thirdparty/faiss/faiss/impl/ScalarQuantizerCodec_rvv.h:1387-1395 | the tiled distance to an encoded row is the distance to its portable reconstruction, for every quantizer, dimension and machine |
| `MpmiRvv.PortableDistance` | thirdparty/faiss/faiss/impl/ScalarQuantizerCodec.h:706-712 | the portable path computes the same distance |
| `Permutation.Invert` | thirdparty/faiss/faiss/impl/HNSW.cpp:1131-1138 | the inverse table of a permutation |
| `HnswLayout.Permute` | thirdparty/faiss/faiss/impl/HNSW.cpp:1129-1160 | the new graph is well formed and node i has the level and the renamed slots of node map[i]; the entry point is renamed |
| `HnswLayout.Hnsw.PermuteEntries` | thirdparty/faiss/faiss/impl/HNSW.cpp:1129-1160 | the same on the object's own fields |
| `HnswLayout.RoomForNext` | thirdparty/faiss/faiss/impl/HNSW.cpp:1144-1155 | the permuted widths always fit the table and end exactly at its end |
| `HnswGreedy.NeighborRange` | thirdparty/faiss/faiss/impl/HNSW.cpp:51-56 | the computed range holds the node's links on that level |
| `HnswGreedy.BufferedScan` | thirdparty/faiss/faiss/impl/HNSW.cpp:496-541 | buffering four candidates at a time and flushing the rest equals the one-at-a-time scan |
| `HnswGreedy.GreedyUpdateNearest` | thirdparty/faiss/faiss/impl/HNSW.cpp:468-551 | terminates on every graph and for all distances, at the end of a walk that always takes a link nearer than the node it is at, no other link of that node being nearer still, and stops where no link is nearer |
| `HnswGreedy.GreedyIsLocalMinimum` | thirdparty/faiss/faiss/impl/HNSW.cpp:468-551 | the walk ends no farther than it began, at a node none of whose links is closer |
| `HnswGreedy.GreedyReaches` | thirdparty/faiss/faiss/impl/HNSW.cpp:468-551 | the specified walk hops from link to best nearer link and stops where none is nearer, said by distances alone |
| `HnswGreedy.UpperLevels` | thirdparty/faiss/faiss/impl/HNSW.cpp:972-981 | one stop per level from the top down to 1, each reached from the one above by such a walk over the links of that level |
| `HnswGreedy.DescendStops` | thirdparty/faiss/faiss/impl/HNSW.cpp:972-981 | the specified descent has such a stop on every level |
| `HnswGreedy.DescendImproves` | thirdparty/faiss/faiss/impl/HNSW.cpp:972-981 | the descent ends no farther from the query than the entry point |
| `HnswGreedy.RenumberedLinks` | thirdparty/faiss/faiss/impl/HNSW.cpp:1146-1154 | after renumbering every node meets its old links, renamed, in the old order |
| `HnswGreedy.GreedyCommutes` | thirdparty/faiss/faiss/impl/HNSW.cpp:468-551 | the greedy walk on the renumbered graph ends at the renamed node |
| `HnswGreedy.DescendCommutes` | thirdparty/faiss/faiss/impl/HNSW.cpp:972-981 | so does the whole descent |
| `MinimaxHeaps.HeapPush` | thirdparty/faiss/faiss/utils/Heap.h:83-104 | the climbing loop adds exactly the new entry and keeps heap order, by distance and by distance and id |
| `MinimaxHeaps.ClimbPermutes` | thirdparty/faiss/faiss/utils/Heap.h:83-104 | which holds exactly the old entries and the new one |
| `MinimaxHeaps.HeapSink` | thirdparty/faiss/faiss/utils/Heap.h:47-150 | the shared loop of pop and replace-top replaces exactly the top and keeps both heap orders |
| `MinimaxHeaps.SinkHeaped` | thirdparty/faiss/faiss/utils/Heap.h:112-150 | sinking from any hole restores heap order |
| `MinimaxHeaps.TopIsFarthest` | thirdparty/faiss/faiss/utils/Heap.h:47-77 | in a heap no entry is above the top |
| `MinimaxHeaps.WithoutTopPermutes` | thirdparty/faiss/faiss/utils/Heap.h:47-77 | popping removes exactly the top entry |
| `MinimaxHeaps.Push` | thirdparty/faiss/faiss/impl/HNSW.cpp:1166-1177 | the bounded push, keeping the count of entries not taken out exact |
| `MinimaxHeaps.PushedContents` | thirdparty/faiss/faiss/impl/HNSW.cpp:1166-1177 | nothing is lost but the top of a full heap, and that only for something nearer; ties or not, the top is the farthest entry and the heap stays ordered by distance |
| `MinimaxHeaps.FindMin` | thirdparty/faiss/faiss/impl/HNSW.cpp:1369-1400 | finds the rightmost nearest entry not taken out |
| `MinimaxHeaps.CountCloser` | thirdparty/faiss/faiss/impl/HNSW.cpp:1403-1412 | counts the entries below a distance, taken out or not |
| `MinimaxHeaps.PushedRenamed` | thirdparty/faiss/faiss/impl/HNSW.cpp:1166-1177 | without ties, pushing onto a renamed heap is renaming the pushed heap, position by position |
| `HeapResults.NearestUnique` | thirdparty/faiss/faiss/impl/HNSW.cpp:1166-1177 | of entries no two of which are equally far there is one choice of the k nearest |
| `HeapResults.PushKeepsNearest` | thirdparty/faiss/faiss/impl/HNSW.cpp:1166-1177 | the candidates are as many of the nearest entries ever pushed as there is room for |
| `HeapResults.OfferKeepsNearest` | thirdparty/faiss/faiss/impl/ResultHandler.h:233-241 | the results are k of the nearest entries ever offered |
| `HeapResults.HeapReorder` | thirdparty/faiss/faiss/utils/Heap.h:421-450 | popping into the end of the same array yields the valid entries by distance and id, then empty places, and their number |
| `HeapResults.RankedSorts` | thirdparty/faiss/faiss/utils/Heap.h:421-450 | that list is sorted and holds every valid entry as often as the heap |
| `HeapResults.RankedPermuted` | thirdparty/faiss/faiss/utils/Heap.h:421-450 | it depends on the entries only, not on their places in the heap |
| `HeapResults.ReturnedRenamed` | thirdparty/faiss/faiss/utils/Heap.h:421-450 | without ties, renaming the ids commutes with it |
| `HnswSearch.VisitLinks` | thirdparty/faiss/faiss/impl/HNSW.cpp:736-799 | marking at once and adding in fours equals adding every unvisited link in order |
| `HnswSearch.SearchFromCandidates` | thirdparty/faiss/faiss/impl/HNSW.cpp:661-818 | terminates for every graph and all distances, ties included, in the state after some number of steps from which no further one follows; what such a state has visited is `HnswCoverage.TakenOutIsVisited` |
| `HnswSearch.SteppedShaped` | thirdparty/faiss/faiss/impl/HNSW.cpp:697-806 | a step keeps the tables in shape and every candidate on the level, ties or not |
| `HnswSearch.SteppedGood` | thirdparty/faiss/faiss/impl/HNSW.cpp:697-806 | without equally far nodes a step keeps both heaps true to the distances and the candidates free of ties |
| `HnswSearch.StepShrinks` | thirdparty/faiss/faiss/impl/HNSW.cpp:697-806 | every step lowers the number of unvisited nodes plus candidates not taken out |
| `HnswSearch.SearchCommutes` | thirdparty/faiss/faiss/impl/HNSW.cpp:661-818 | after any number of steps the search on the renumbered graph has the same entries in the same places of both heaps, renamed, if no two nodes are equally far |
| `HnswSearch.QueryCommutes` | thirdparty/faiss/faiss/impl/HNSW.cpp:960-991 | a whole query, from the entry point down and through level 0, has in every place of its result heap the same node under its new name |
| `HnswResults.RunBest` | thirdparty/faiss/faiss/impl/HNSW.cpp:661-818 | after any number of steps the result heap is ordered and holds the k nearest of the selected nodes visited below the limit |
| `HnswResults.ResultsAreNearest` | thirdparty/faiss/faiss/impl/HNSW.cpp:661-818 | node by node: every result is an empty place or a selected visited node, once, with its distance, and a visited node that is missing is no nearer than any result |
| `HnswResults.CountIsFilled` | thirdparty/faiss/faiss/impl/HNSW.cpp:754-760 | the count of accepted nodes, plus one if the entry was accepted, is the number of places filled, up to all of them |
| `HnswResults.AddedAllNearest` | thirdparty/faiss/faiss/impl/HNSW.cpp:738-799 | the candidates after a batch of links are the nearest of the old ones and the new nodes |
| `HnswResults.SteppedAlike` | thirdparty/faiss/faiss/impl/HNSW.cpp:697-806 | without ties a step that meets the same links in another order visits the same nodes and leaves the same candidates |
| `HnswResults.SameResults` | thirdparty/faiss/faiss/impl/HNSW.cpp:697-806 | two searches that visited the same nodes hold the same results |
| `HnswCoverage.CloserCounts` | thirdparty/faiss/faiss/impl/HNSW.cpp:701-710 | the count the search compares with ef is the number of places of the candidate heap nearer than the node taken out |
| `HnswCoverage.NextRightly` | thirdparty/faiss/faiss/impl/HNSW.cpp:697-806 | with the distance check an iteration ends the search exactly if at least ef places hold something nearer than the nearest candidate; otherwise it visits all links of that candidate |
| `HnswCoverage.TakenOutIsVisited` | thirdparty/faiss/faiss/impl/HNSW.cpp:697-806 | in a run of any length, every link of every node taken out is visited, except those of a last one to which at least ef places were nearer |
| `HnswAnswers.Search` | thirdparty/faiss/faiss/impl/HNSW.cpp:961-1014 | the descent, the bounded level-0 search to its end and the sorting of the results compute the specified answer; what that lists is `HnswCoverage.AnswerIsListed` |
| `HnswCoverage.AnswerIsListed` | thirdparty/faiss/faiss/impl/HNSW.cpp:961-1014 | after any number of steps the answer lists by distance, once each, k of the nearest selected nodes visited below the limit, then empty places |
| `HnswCoverage.SmallLevelsAreExact` | thirdparty/faiss/faiss/impl/HNSW.cpp:961-1014 | if at most ef nodes, and no more than the candidates hold, can be reached from the entrance, a finished search has visited exactly those, and lists the k nearest selected ones below the limit |
| `HnswAnswers.SortingKeepsAnswer` | thirdparty/faiss/faiss/IndexHNSW.cpp:1041-1085 | sorting the level-0 lists changes no answer if no two nodes are equally far |
| `HnswAnswers.RenumberingKeepsAnswer` | thirdparty/faiss/faiss/impl/HNSW.cpp:961-1014 | nor does renumbering, but for the names |
| `HnswAnswers.LayoutKeepsAnswer` | thirdparty/faiss/faiss/IndexHNSW.cpp:1301-1311 | so neither GOrder nor ROrder does |
| `HnswTies.TieChangesAnswer` | thirdparty/faiss/faiss/utils/Heap.h:421-450 | for any two equally far nodes below the limit, a graph, a renumbering and a query run to its end whose answer is another list |
| `HnswTies.KeptExactly` | thirdparty/faiss/faiss/IndexHNSW.cpp:1301-1311 | each layout keeps the answers of all queries on all graphs if, and with the limit above every distance only if, no two nodes are equally far |
| `HnswTies.SortingChangesAnswer` | thirdparty/faiss/faiss/IndexHNSW.cpp:1041-1085 | for any two equally far nodes and a third, sorting a list alone changes which of the two is returned |
| `HnswTies.FarTieChangesAnswer` | thirdparty/faiss/faiss/impl/HNSW.cpp:697-806 | for two nodes equally far at any distance, a node no farther and one below the limit, a renumbering that hides the last from the query |
| `HnswROrder.NormalizeNode` | thirdparty/faiss/faiss/IndexHNSW.cpp:1056-1079 | the level-0 range holds the same links ascending, then -1; nothing outside it changes |
| `HnswROrder.OptimizeNeighborsById` | thirdparty/faiss/faiss/IndexHNSW.cpp:1041-1085 | every node's level-0 range is so normalised and every other slot is unchanged |
| `HnswROrder.SortedLinks` | thirdparty/faiss/faiss/IndexHNSW.cpp:1041-1085 | links on level 0 are the same multiset in ascending order; links on other levels are identical |
| `HnswROrder.ROrderKeepsEdges` | thirdparty/faiss/faiss/IndexHNSW.cpp:1301-1311 | after renumbering and sorting, v is a link of i on a level if and only if their old names were linked there, with multiplicity |
| `HnswROrder.ROrderKeepsEntry` | thirdparty/faiss/faiss/IndexHNSW.cpp:1301-1311 | every query reaches level 0 at the same node as before, renamed |
| `UnitHeaps.UnitHeap.constructor` | thirdparty/faiss/faiss/IndexHNSW.cpp:1658-1674 | the initial list is well formed when there is a node |
| `UnitHeaps.Delete` | thirdparty/faiss/faiss/IndexHNSW.cpp:1676-1698 | links, buckets and top stay consistent; the list is the old one without the given node, in the old order |
| `UnitHeaps.UnitHeap.DeleteElement` | thirdparty/faiss/faiss/IndexHNSW.cpp:1676-1698 | the same on the heap's own fields |
| `UnitHeaps.Increment` | thirdparty/faiss/faiss/IndexHNSW.cpp:1796-1832 | raises one key by one; every other node keeps its place among the others, and the raised one stands last of its new key; every bucket header is exact |
| `UnitHeaps.RequeuedUnique` | thirdparty/faiss/faiss/IndexHNSW.cpp:1796-1832 | keeping the others in order and standing last of its key leaves a node one place in the list |
| `UnitHeaps.UnitHeap.IncrementKey` | thirdparty/faiss/faiss/IndexHNSW.cpp:1796-1832 | the same on the heap's own fields |
| `UnitHeaps.LastAtLeast` | thirdparty/faiss/faiss/IndexHNSW.cpp:1726-1733 | hopping bucket by bucket ends at the last node whose key reaches the target |
| `UnitHeaps.Demote` | thirdparty/faiss/faiss/IndexHNSW.cpp:1725-1751 | moves the top to the last place of its new key, the others keep their order; the structure stays exact and the next node becomes the top |
| `UnitHeaps.UnitHeap.DecreaseTop` | thirdparty/faiss/faiss/IndexHNSW.cpp:1715-1752 | moves exactly if twice the key plus the pending decrease is less than twice the follower's key; then half of the decrease, rounded toward the larger key, is applied, the rest stays pending, the top becomes last of its new key, and no score changes; otherwise nothing changes |
| `UnitHeaps.UnitHeap.ExtractMax` | thirdparty/faiss/faiss/IndexHNSW.cpp:1700-1709 | terminates after some such demotions and removes the node then on top, the rest staying as it was; no score changes; twice every remaining key is at most twice the removed key plus its pending decrease |
| `UnitHeaps.ByKeyExists` | thirdparty/faiss/faiss/IndexHNSW.cpp:1754-1761 | for non-negative keys an order such as the sort delivers always exists |
| `UnitHeaps.Rebuild` | thirdparty/faiss/faiss/IndexHNSW.cpp:1754-1794 | from any order by non-increasing key, rebuilds exactly the links and headers of that order |
| `UnitHeaps.UnitHeap.ReConstruct` | thirdparty/faiss/faiss/IndexHNSW.cpp:1754-1794 | the same on the heap's own fields |
| `Gorder.Transpose` | thirdparty/faiss/faiss/IndexHNSW.cpp:1846-1868 | for all lists of nodes, out-lists keep their members with multiplicity, in-lists are their transpose, and in-list lengths are the in-degrees |
| `Gorder.SetAsideIsolated` | thirdparty/faiss/faiss/IndexHNSW.cpp:1884-1894 | finds a node of highest in-degree; sets aside, in order, exactly the isolated nodes other than node 0; every other node stays in the heap |
| `Gorder.Bump` | thirdparty/faiss/faiss/IndexHNSW.cpp:1902-1905 | adds one to a node's score; removed nodes never take the branch that would touch the list |
| `Gorder.LeaveWindow` | thirdparty/faiss/faiss/IndexHNSW.cpp:1932-1956 | takes back exactly the bumps of the node that leaves, once per link, except the shared rounds of common fans, which it marks |
| `Gorder.EnterWindow` | thirdparty/faiss/faiss/IndexHNSW.cpp:1958-1985 | adds exactly the bumps of the node that enters, once per link, skipping one round per mark |
| `Gorder.Exchanged` | thirdparty/faiss/faiss/IndexHNSW.cpp:1932-1985 | after both, no mark is left, at least the rounds of the new window are out, and exactly those if and only if it was so before and no common fan names the leaving node twice |
| `Gorder.RepeatLeavesSurplus` | thirdparty/faiss/faiss/IndexHNSW.cpp:1932-1985 | any list of low degree that names p several times and v leaves rounds too many when v enters as p leaves |
| `Gorder.ScoredPush` | thirdparty/faiss/faiss/IndexHNSW.cpp:1932-1985 | the score by which draws are judged: a node of the window adds its links to w, w's links to it, and the pairs of links of their common fans, each only where the out-degree is within the threshold, for fans also above one |
| `Gorder.ScoreBound` | thirdparty/faiss/faiss/IndexHNSW.cpp:1926-1986 | a score never exceeds 10 plus five times the in-degree, or a bound by degrees and threshold if lists repeat nodes |
| `Gorder.Draw` | thirdparty/faiss/faiss/IndexHNSW.cpp:1926-1931 | removes the node that the demotions leave on top; if the rounds are exact, twice the score of every node left is at most the score of the drawn one plus the highest score that one can have |
| `Gorder.Step` | thirdparty/faiss/faiss/IndexHNSW.cpp:1926-1986 | one iteration keeps all accounts and the partition of the nodes and moves one node from the heap to the order, one near the best if the rounds are exact; they stay so if and only if the exchange doubles none |
| `Gorder.Order` | thirdparty/faiss/faiss/IndexHNSW.cpp:1925-1986 | the loop empties the heap; the order and the isolated nodes are all nodes, once each; if no exchange doubled a round, every node of the order was near the best of those after it, by the scores of the five before it |
| `Gorder.GeneratePermutation` | thirdparty/faiss/faiss/IndexHNSW.cpp:1837-1996 | for all lists of nodes, repeats included, any degree threshold and any tie-breaking of the sort, the result is a permutation of all nodes, from a node of highest in-degree with the isolated nodes before its last; a near-greedy one if no list names a node twice |
| `HnswPass.ReorderAfterBuild` | thirdparty/faiss/faiss/IndexHNSW.cpp:1284-1316 | refuses exactly a second pass, a level other than 0 and an unknown method; changes nothing then or without nodes or entry point; otherwise the graph is the old one renumbered by a permutation, and for ROrder sorted on level 0 |
| `HnswPass.BuildLabels` | src/index/hnsw/faiss_hnsw.cc:2452-2474 | succeeds exactly for bijections of a 32-bit count and then builds both directions of the mapping |
| `HnswPass.PublicEntryKept` | src/index/hnsw/faiss_hnsw.cc:2433-2476 | for both layouts the node where a query enters level 0 carries the same public id as before |
| `HnswPass.PublicAnswerKept` | src/index/hnsw/faiss_hnsw.cc:2433-2476 | for both layouts a query returns the same public ids in the same order if no two nodes are equally far from it |

## Left out

- IEEE-754 rounding, NaN, infinities and the order of floating-point summation; fp16/bf16 conversion (`round16` is an arbitrary function in `Mpmi`).
- The `_batch_4` RVV, AVX and AVX-512 kernels, the bf16-patched ones, NEON and PowerPC kernels: the same patterns with more accumulators.
- The AVX-512 VPOPCNT fall-backs of `rabitq_dp_popcnt` and `minhash_lsh_hit`; XXH3 hashing.
- HNSW construction, the unbounded search queue, upper beams wider than one, and the BFS, RCM and RabbitOrder permutations.
- MPMI training: ranking of dimensions and the residual budgets.
- The parallel loop of `optimize_neighbors_by_id` is a sequential one here; its iterations are shown to write disjoint ranges.
- Index factories, configuration, file and mmap plumbing, threads, logging and metrics: no arithmetic or invariant of their own.
- The reader's `reset` and `seekg`, which only set the cursor.
- Big-endian byte swapping in `MemoryIOWriter::write` and allocation failure.
- Gorder.GeneratePermutation: requires that no score can reach the mark INT_MAX / 2 of removed nodes: in-degrees of at most 214748362 if no list names a node twice, otherwise (5 + threshold) times the in-degree plus five times the out-degree below the mark. What happens beyond is not decided.
- UnitHeaps.UnitHeap.constructor: claims nothing for zero nodes, where the source leaves `top` at 0 and the layout never gets that far.
- HnswGreedy.GreedyUpdateNearest: distances are a fixed real per node and links on a level are required to lead to nodes of that level, since the source reads their slots on that level unchecked; construction is not modelled.
- EmbListScore.UnorderedScore: for list lengths above INT_MAX it says when there is a score but not which; the wrapped bounds then cut the table elsewhere than between rows.
- BinarySearch.EqAvx512: sizes are at most INT_MAX, as the source's `int` indices need.
- Mpmi.Open: the affine parameters are finite; the source also takes infinities and NaNs there.
- RvvInt8.StripMined: the final conversion of the 32-bit sum to `float`, and the norm kernel's widening of one operand.
- HnswSearch.SearchFromCandidates: starts after the loop that offers the initial candidates, which `Started` does for the single candidate of `HNSW::search`; one vector pass of `pop_min` is modelled by its scalar form, and the statistics are not kept.
- HnswTies.KeptExactly: with a limit that is not above every distance it gives a sufficient and a necessary condition, which differ when nodes at or above the limit are equally far.
- HnswAnswers.SortingKeepsAnswer: speaks of the list returned; the number of accepted offers, which a query with a beam of one does not use, may differ.
- HnswPass.ReorderAfterBuild: the other three methods differ in the permutation they apply.
- RvvTransposed.NearestTransposed: the first-minimum claim needs true squared norms, which the caller supplies.
