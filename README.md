# CodecUtils core: a Dafny model

This project models five pieces of the CodecUtils library of a video codec and proves
what each of them promises:

- **BitStreamReader**: a cursor over a byte buffer. It reads one bit, or up to 31 bits
  assembled least significant bit first, and can peek at any bit position without moving.
  The value of a read is specified as a bit sum (`BitStream.BitsValue`). Two reads in a row
  compose into one longer read.
- **TotalZeros4x4H264VlcEncoder**: the total_zeros code of Tables 9-7 and 9-8 of ITU-T
  Recommendation H.264, subclause 9.2.3, indexed by (totalZeros, totalCoeffs). The model
  proves which pairs have a code and that every totalCoeffs column is a prefix code.
- **VectorQuantiserDim16Impl3**: a 256-entry code book of 16-element vectors. Quantise
  searches for the nearest code vector using two shortcuts: an inequality on the element
  sums, and abandoning a partial distance early. The model proves that the answer is
  exactly that of the exhaustive first-nearest search.
- **MotionEstimatorH263ImplStd**: the H.263 block motion estimator. For every 16x16 block,
  in raster order, it runs a full-pel window search, then a half-pel refinement chosen from
  sixteen neighbour catalogues, then a weighted decision against the zero vector. The
  vectors go into a simple vector list. The model defines each block's outcome as a
  function (`MotionSearch.BlockOutcome`) and proves the loops compute it. It also proves
  which offsets the catalogues allow, and that the total energy never exceeds the
  zero-vector energy.
- **VectorStructList**: a list of simple (one 2-D short vector) or complex (pattern,
  count, vector array) entries, with resizing and element access.

The pixels themselves are not modelled. The motion estimator sees its images only
through four block-distance measures (`MotionSearch.PixelDistance`). The "less than"
variants of those measures may stop early at a limit.

Layout: `bit_arith.dfy` (powers of two, short truncation), `wrappers.dfy` (Option),
`bit_stream_reader.dfy`, `total_zeros_vlc.dfy`, `vector_quantiser.dfy`,
`vector_struct_list.dfy`, `motion_search.dfy` (the per-block search rules) and
`motion_estimator.dfy` (the estimator class and its loops).

## Model

| member | source | states |
|---|---|---|
| BitStream.BitStreamReader.constructor | src/CodecUtils/BitStreamReader.cpp:55-57 | A reader attached to a buffer starts at bit 0 of byte 0 |
| BitStream.BitStreamReader.ReadBit | src/CodecUtils/BitStreamReader.cpp:68-83 | Returns the bit at the cursor (0 or 1); the cursor moves on by one bit, wrapping from bit 7 to bit 0 of the next byte |
| BitStream.BitStreamReader.Read | src/CodecUtils/BitStreamReader.cpp:91-119 | Returns the value of the next numBits bits, least significant first; the cursor advances by exactly that many bits; a count of 0 or less reads nothing and returns 0; the value is below 2^numBits and so fits a non-negative C int |
| BitStream.BitStreamReader.Peek | src/CodecUtils/BitStreamReader.cpp:129-155 | Returns the value Read would give from any absolute bit position, without a cursor; 0 for a count of 0 or less; the value is below 2^numBits and fits a non-negative C int |
| BitStream.BitsValueBound | src/CodecUtils/BitStreamReader.cpp:91-119 | An n-bit read is always below 2^n |
| BitStream.BitsValueSplit | src/CodecUtils/BitStreamReader.cpp:91-119 | Reading n bits and then m bits gives the low and high parts of one (n+m)-bit read |
| BitStream.OneBitValue | src/CodecUtils/BitStreamReader.cpp:68-119 | A one-bit Read gives the same bit as Read() |
| TotalZerosVlc.EntryFacts | src/CodecUtils/TotalZeros4x4H264VlcEncoder.cpp:100-118 | An entry has a code exactly when the pair has at least one coefficient and at most 16 coefficients and zeros together; other entries are (0, 0); every code is at most 9 bits and fits in its length |
| TotalZerosVlc.CodeOf | src/CodecUtils/TotalZeros4x4H264VlcEncoder.cpp:100-118 | The code of a symbol pair is 1 to 9 bits long exactly for the pairs a 4x4 block can produce, and empty otherwise |
| TotalZerosVlc.TotalZerosColumnsArePrefixFree | src/CodecUtils/TotalZeros4x4H264VlcEncoder.cpp:100-118 | In every totalCoeffs column no code is a prefix of another, so the decoder can recover totalZeros |
| TotalZerosVlc.KnownCodes | src/CodecUtils/TotalZeros4x4H264VlcEncoder.cpp:102-117 | The first and last codes of the totalCoeffs = 1 column are 1 and 000000001, as in Table 9-7 |
| TotalZerosVlc.TotalZeros4x4VlcEncoder.constructor | src/CodecUtils/TotalZeros4x4H264VlcEncoder.cpp:60-64 | A new encoder holds an empty code of length 0 |
| TotalZerosVlc.TotalZeros4x4VlcEncoder.Encode2 | src/CodecUtils/TotalZeros4x4H264VlcEncoder.cpp:83-92 | Stores the table code and length of (totalZeros, totalCoeffs) and returns the length, independently of earlier calls |
| VectorQuantiser.VectorQuantiserDim16.constructor | src/CodecUtils/VectorQuantiserDim16Impl3.cpp:53-57 | A new quantiser has neither the code book starts nor the code vector sums |
| VectorQuantiser.VectorQuantiserDim16.Create | src/CodecUtils/VectorQuantiserDim16Impl3.cpp:70-171 | After Create, entry i of the code book starts at element 16*i, and the sum table holds every code vector's element sum; an existing table is kept |
| VectorQuantiser.VectorQuantiserDim16.Destroy | src/CodecUtils/VectorQuantiserDim16Impl3.cpp:173-182 | Both derived tables are released |
| VectorQuantiser.VectorQuantiserDim16.GetDimension | src/CodecUtils/VectorQuantiserDim16Impl3.cpp:188-191 | Every code vector has exactly the reported number of elements |
| VectorQuantiser.VectorQuantiserDim16.GetCodeBookLength | src/CodecUtils/VectorQuantiserDim16Impl3.cpp:197-200 | The table holds exactly the reported number of code vectors of the reported dimension |
| VectorQuantiser.VectorQuantiserDim16.InverseQuantise | src/CodecUtils/VectorQuantiserDim16Impl3.cpp:208-213 | An index inside the code book names its code vector; an index past it gives no vector (NULL) |
| VectorQuantiser.VectorQuantiserDim16.Quantise | src/CodecUtils/VectorQuantiserDim16Impl3.cpp:222-352 | Returns the nearest code vector in squared distance, the first one on a tie, with its distance. The sum inequality and early termination never change the result of the exhaustive search, and InverseQuantise of the index is the vector at that distance |
| VectorQuantiser.ScanIsNearest | src/CodecUtils/VectorQuantiserDim16Impl3.cpp:222-352 | The exhaustive search ends at a row at least as near as every row and strictly nearer than every earlier row |
| VectorQuantiser.InequalityPrunes | src/CodecUtils/VectorQuantiserDim16Impl3.cpp:236-241 | A code vector the sum inequality rejects is no nearer than the best so far (Cauchy-Schwarz over 16 elements) |
| VectorQuantiser.PartialDistMonotone | src/CodecUtils/VectorQuantiserDim16Impl3.cpp:243-340 | A partial distance never decreases as elements are added, so a partial distance already at the best distance rules the vector out |
| VectorQuantiser.CauchySchwarz | src/CodecUtils/VectorQuantiserDim16Impl3.cpp:236-241 | The squared sum of n differences is at most n times the sum of their squares |
| VectorQuantiser.DistBelowNoDistance | src/CodecUtils/VectorQuantiserDim16Impl3.cpp:225 | Every distance of an accepted input lies below the starting best distance 0x0FFFFFFF, so code vector 0 is always measured |
| VectorQuantiser.CodeVectorIsExact | src/CodecUtils/VectorQuantiserDim16Impl3.cpp:208-352 | Quantising a code vector gives distortion 0 |
| VectorQuantiser.ZeroDistanceIsEqual | src/CodecUtils/VectorQuantiserDim16Impl3.cpp:222-352 | Distortion 0 means the input equals the code vector |
| VectorQuantiser.SelfDistanceZero | src/CodecUtils/VectorQuantiserDim16Impl3.cpp:222-352 | A vector is at distance 0 from itself |
| VectorStructs.ElementRoundTrip | src/CodecUtils/VectorStructList.cpp:189-207 | Reading back a stored component gives the value truncated to a short, the value itself when it fits, and the other component unchanged |
| VectorStructs.VectorStructList.constructor | src/CodecUtils/VectorStructList.cpp:74-81 | A new list records kind, dimension and vectors per entry, has no storage and length 0 |
| VectorStructs.VectorStructList.Delete | src/CodecUtils/VectorStructList.cpp:88-108 | All storage is dropped and the length is 0 |
| VectorStructs.VectorStructList.SetLength | src/CodecUtils/VectorStructList.cpp:120-156 | A negative length gives 0 and no change; an unknown kind gives 0 and no storage; otherwise the result is 1, the length is as asked, and the dimension is 2. A simple list has one vector per entry. Each complex entry has pattern 0, no vectors in use and its own new vector array |
| VectorStructs.VectorStructList.GetLength | src/CodecUtils/MotionEstimatorH263ImplStd.cpp:275 | The `_length` SetLength sets (VectorStructList.cpp:140), as the estimator reads it: the number of entries in the storage, 0 without storage |
| VectorStructs.VectorStructList.GetStructPtr | src/CodecUtils/VectorStructList.cpp:162-181 | A position names an entry exactly when storage exists and the position is below the length; otherwise NULL |
| VectorStructs.VectorStructList.SetSimpleElement | src/CodecUtils/VectorStructList.cpp:189-196 | Component 0 or 1 of the vector at pos becomes the value truncated to a short; nothing else in the list changes; other components write nothing |
| VectorStructs.VectorStructList.GetSimpleElement | src/CodecUtils/VectorStructList.cpp:198-207 | The stored component as a short, 0 for a component other than 0 or 1 |
| VectorStructs.VectorStructList.SetComplexElement | src/CodecUtils/VectorStructList.cpp:216-223 | As SetSimpleElement, on vector vecIndex of the entry at pos; only that entry's vector array changes |
| VectorStructs.VectorStructList.GetComplexElement | src/CodecUtils/VectorStructList.cpp:225-234 | The stored component of vector vecIndex of the entry at pos, 0 for any other component |
| MotionSearch.GetMotionRange | src/CodecUtils/MotionEstimatorH263ImplStd.cpp:566-588 | Each side of the window is the full range (-16 left/up, 15 right/down) exactly when the image extends a motion range beyond the block on that side, and 0 otherwise |
| MotionSearch.WindowMembers | src/CodecUtils/MotionEstimatorH263ImplStd.cpp:308-324 | The full-pel loops visit exactly the vectors within the window's four bounds |
| MotionSearch.FullPelCandidatesInside | src/CodecUtils/MotionEstimatorH263ImplStd.cpp:308-324 | For image sides that are multiples of 16, every candidate reference block lies wholly inside the image |
| MotionSearch.HalfPelFlags | src/CodecUtils/MotionEstimatorH263ImplStd.cpp:450-471 | A half-pel direction is closed exactly when it would step out of the image, or further left or up from a vector at -16 |
| MotionSearch.GetHalfPelSearchStruct | src/CodecUtils/MotionEstimatorH263ImplStd.cpp:446-552 | The catalogue chosen holds exactly the non-zero half-pel offsets the flags allow, each once, and their number is the product of the open choices per axis minus one |
| MotionSearch.CatalogueIsAdmissibleOffsets | src/CodecUtils/MotionEstimatorH263ImplStd.cpp:44-135 | Each of the sixteen catalogues lists exactly the admissible offsets for its flags, without repeats |
| MotionSearch.HalfPelSearchNeverEmpty | src/CodecUtils/MotionEstimatorH263ImplStd.cpp:329-345 | Inside the estimator the refinement always has at least one offset to try |
| MotionSearch.ScanMinIsFirstMinimum | src/CodecUtils/MotionEstimatorH263ImplStd.cpp:308-345 | A search loop ends at the least energy among its start and all candidates, and leaves the start only for the first candidate of strictly least energy |
| MotionSearch.FullPelBest | src/CodecUtils/MotionEstimatorH263ImplStd.cpp:308-324 | The full-pel winner's energy is non-negative, at most the zero-vector energy and at most every window vector's energy |
| MotionSearch.HalfPelBest | src/CodecUtils/MotionEstimatorH263ImplStd.cpp:334-345 | The half-pel winner's energy is at most the full-pel energy and every catalogue offset's energy |
| MotionSearch.Clamp | src/CodecUtils/MotionEstimatorH263ImplStd.cpp:352-359 | Vector components are clamped into [-32, 31] half pels and unchanged inside it |
| MotionSearch.ComposeVector | src/CodecUtils/MotionEstimatorH263ImplStd.cpp:348-359 | The half-pel vector is twice the full-pel vector plus the half-pel offset whenever that is in range, and always in range |
| MotionSearch.Weight | src/CodecUtils/MotionEstimatorH263ImplStd.cpp:361-374 | The weight counts the three doubts (gain shifted right by 2 below the squared vector length; zero-vector energy below the noise floor 512; ten times the gain below the remaining energy): it is 0 exactly when none holds, 3 exactly when all hold, and at least 2 exactly when two of them hold |
| MotionSearch.Decide | src/CodecUtils/MotionEstimatorH263ImplStd.cpp:377-386 | The block keeps the candidate at its energy exactly when it beats the zero vector and the weight is below 2; in every other case it gets the zero vector at the zero-vector energy, so its energy never exceeds that |
| MotionSearch.BlockOutcomeBounds | src/CodecUtils/MotionEstimatorH263ImplStd.cpp:297-394 | A block adds between 0 and its zero-vector energy, its vector is in range, and a block matching at the zero vector keeps the zero vector |
| MotionEstimation.CeilBlocks | src/CodecUtils/MotionEstimatorH263ImplStd.cpp:283-284 | The number of block origins below a size is the size divided by 16, rounded up |
| MotionEstimation.BlocksInsideImage | src/CodecUtils/MotionEstimatorH263ImplStd.cpp:283-284 | Every visited origin is a multiple of 16 inside the image, and the blocks are visited in raster order |
| MotionEstimation.NumVectorsAtMostBlocks | src/CodecUtils/MotionEstimatorH263ImplStd.cpp:237 | The list Create sizes never exceeds the blocks visited, and matches them when both sides are multiples of 16 |
| MotionEstimation.StoredVectors | src/CodecUtils/MotionEstimatorH263ImplStd.cpp:389-394 | Each stored vector is the block's vector, truncated to shorts, in block order |
| MotionEstimation.OutcomesByModel | src/CodecUtils/MotionEstimatorH263ImplStd.cpp:271-400 | Any function agreeing with the per-block outcome yields the estimator's outcome sequence |
| MotionEstimation.TotalEnergyBounds | src/CodecUtils/MotionEstimatorH263ImplStd.cpp:271-400 | The total energy lies between 0 and the all-zero-vector energy; an image matching its reference at every zero vector gets only zero vectors and no energy |
| MotionEstimation.MotionEstimator.constructor | src/CodecUtils/MotionEstimatorH263ImplStd.cpp:143-173 | A new estimator records the images and their size, is not ready and has no vector list |
| MotionEstimation.MotionEstimator.Create | src/CodecUtils/MotionEstimatorH263ImplStd.cpp:186-252 | The estimator becomes ready with a new simple vector list of one entry per whole 16x16 block |
| MotionEstimation.MotionEstimator.Destroy | src/CodecUtils/MotionEstimatorH263ImplStd.cpp:408-432 | The vector list is dropped and the estimator is not ready |
| MotionEstimation.MotionEstimator.FullPelSearch | src/CodecUtils/MotionEstimatorH263ImplStd.cpp:304-324 | The full-pel loops, with early-stopping distance measures, find the window's first least-energy vector |
| MotionEstimation.MotionEstimator.FullPelScan | src/CodecUtils/MotionEstimatorH263ImplStd.cpp:308-324 | The two window loops compute the strict-minimum scan of the window in raster order |
| MotionEstimation.MotionEstimator.FullPelRow | src/CodecUtils/MotionEstimatorH263ImplStd.cpp:310-323 | One pass of the inner x loop extends the strict-minimum scan by the whole row y, left to right, replacing the best only on a strictly smaller energy |
| MotionEstimation.MotionEstimator.HalfPelSearch | src/CodecUtils/MotionEstimatorH263ImplStd.cpp:331-345 | The half-pel loop, over the catalogue for the winner, finds its first least-energy offset |
| MotionEstimation.MotionEstimator.HalfPelScan | src/CodecUtils/MotionEstimatorH263ImplStd.cpp:334-345 | The catalogue loop computes the strict-minimum scan of the catalogue's offsets |
| MotionEstimation.MotionEstimator.EstimateBlock | src/CodecUtils/MotionEstimatorH263ImplStd.cpp:297-386 | The body of the block loop computes the block's specified outcome |
| MotionEstimation.MotionEstimator.DecideVector | src/CodecUtils/MotionEstimatorH263ImplStd.cpp:348-386 | Clamping, weighting and deciding give the specified decision for the composed vector |
| MotionEstimation.MotionEstimator.EstimateModelled | src/CodecUtils/MotionEstimatorH263ImplStd.cpp:286-386 | The outcome computed for the block at (n, m) is the one any function modelling the estimator gives that block |
| MotionEstimation.MotionEstimator.EstimateAndStore | src/CodecUtils/MotionEstimatorH263ImplStd.cpp:285-396 | One pass of the inner block loop: the block's energy joins the total and its vector goes to the next list position while one remains, the rest of the list unchanged |
| MotionEstimation.MotionEstimator.EstimateRow | src/CodecUtils/MotionEstimatorH263ImplStd.cpp:284-396 | One pass of the outer loop records the blocks of block row j, left to right |
| MotionEstimation.MotionEstimator.EstimateAllBlocks | src/CodecUtils/MotionEstimatorH263ImplStd.cpp:283-396 | The two block loops record every block in raster order: energies summed, vectors stored while list positions remain |
| MotionEstimation.MotionEstimator.Estimate | src/CodecUtils/MotionEstimatorH263ImplStd.cpp:271-400 | Block k's vector goes to list position k while positions remain, and the rest of the list is unchanged. The result is the total energy of all blocks divided by the list length |

## Left out

- BitStream.BitStreamReader.Read: requires numBits <= 31. At numBits = 32 the loop shifts `1 << 31`, which overflows a C int; the source does not check the count.
- BitStream.BitStreamReader.Read: requires the bits read to lie inside the buffer; the source reads past the end unchecked.
- BitStream.BitStreamReader.Peek: requires bitLoc >= 0 and the bits to lie inside the buffer, which the source leaves to its caller; numBits <= 31 for the same overflow as Read.
- BitStream.BitStreamReader.constructor: stands in for the setup of the buffer and cursor in the stream base class, which is not part of this model; the other cursor operations of that class are left out too.
- TotalZerosVlc.TotalZeros4x4VlcEncoder.Encode2: requires both symbols in 0..15; the source indexes its table without checking.
- VectorQuantiser.VectorQuantiserDim16.constructor: the contents of VQ_TABLE are left abstract. The model assumes only 4096 entries strictly between -64 and 64; the source's entries lie within that.
- VectorQuantiser.VectorQuantiserDim16.Create: allocation failure (the 0 result) is not modelled; the code book is represented by element offsets instead of pointers.
- VectorQuantiser.VectorQuantiserDim16.InverseQuantise: requires index >= 0 and a created code book; the source checks only the upper bound.
- VectorQuantiser.VectorQuantiserDim16.Quantise: requires input elements strictly between -2048 and 2048. Within that range the 16-element short sum and all int arithmetic cannot wrap. Larger inputs can wrap the short sum, and the wrapped inequality is not modelled.
- VectorStructs.VectorStructList.SetLength: requires a non-negative vectors-per-entry count for a complex list, since an array cannot have negative size; allocation failure is not modelled.
- VectorStructs.VectorStructList.GetStructPtr: requires pos >= 0, which the source does not check; the entry is returned as its index instead of a pointer.
- VectorStructs.VectorStructList.SetSimpleElement: requires an in-range position on a simple list, which the source leaves to its caller; so do GetSimpleElement, SetComplexElement and GetComplexElement.
- VectorStructs.VectorStructList.constructor: the default arguments live in the class header, which is not part of this model.
- `Dump` of VectorStructList and the destructors' memory release are not modelled; the contents of freshly allocated arrays are not specified.
- MotionEstimation.MotionEstimator.Estimate: requires a non-empty vector list. The source divides by the list length, which is 0 for an image narrower or shorter than 16 pels. Energies, `magSqr` and `diff * 10` are unbounded integers here, so int overflow is not modelled.
- MotionEstimation.MotionEstimator.Estimate: the pixel overlays and their distance functions are abstract (`PixelDistance`), including out-of-image reads. With a width or height of at most 16 pels, a half-pel step right or down from the block origin reads past the image. The model does not capture that.
- MotionEstimation.MotionEstimator.Create: the construction of the image overlays, their failure paths, `Reset` and `SetMode` are not modelled; the vector list is always created.
- MotionEstimation.MotionEstimator.constructor: the image buffers are parameters; what the images contain is reached only through `PixelDistance`.
- MotionEstimation.MotionEstimator.Estimate: its loop body is split into helper methods (EstimateAllBlocks, EstimateRow, EstimateAndStore, EstimateModelled, EstimateBlock, FullPelSearch, FullPelScan, FullPelRow, HalfPelSearch, HalfPelScan, DecideVector), in the same order as the source.
