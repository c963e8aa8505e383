# Citra software GPU, vertex shader and DSP service: a Dafny model

This project models four pieces of the early Citra 3DS emulator in Dafny and proves properties about them:

- **`Rasterizer`** (`rasterizer.dfy`) is the integer core of the software triangle rasterizer. Given three vertices in 12.4 fixed point, it computes:
  - the pixel-aligned bounding box;
  - the fill-rule edge biases and the `orient2d` coverage test over the samples of the box;
  - for each covered sample, the texture coordinate wrap and the 8x8 tile swizzle of the three texture units;
  - the six-stage texture environment (TEV) combiner;
  - the colour and depth buffer writes.
- **`VertexShader`** (`vertex_shader.dfy`) is the PICA vertex shader interpreter. It covers the shader memory, swizzle table and float uniforms the command processor writes, and the `VertexShaderState` machine. The machine has a program counter, an eight-entry call stack with an empty-entry sentinel, sixteen temporaries and masked per-lane writes. `RunShader` sets up the input and output register tables, and `ProcessShaderCode` runs the program. How lane i of output register `index` finds its output-vertex slot is part of the environment. `RunShader` uses the code's rule, the table entry of the register's first lane plus i. The per-lane table entry the set-up fills is the corrected rule (see Findings).
- **`Gpu`** (`gpu.dfy`) is the GPU register front end. It has:
  - the bounds-guarded `Read` and `Write` at physical address 0x1EF00000;
  - the memory fill and the RGBA8-to-RGB8 display transfer that a register write triggers;
  - the command-list trigger;
  - the line and frame counter of `Update`;
  - the framebuffer set-up of `Init`.
- **`DspDsp`** (`dsp_dsp.dfy`) is the DSP service stub. Its handlers answer through the command buffer, and `ReadPipeIfPossible` hands out a fixed table of sixteen canned responses through a persistent cursor.

State the source updates in place is modelled as classes and arrays:

- `Gpu.Gpu`: registers, counters and memory.
- `DspDsp.Interface`: the service statics.
- `VertexShader.ShaderStore`: the three global banks.
- `VertexShader.ShaderState`: the interpreter state.
- The colour and depth buffers.

Each imperative method is proved against a function that specifies it. The properties are proved about those functions. For example:

- `Rasterizer.ProcessTriangle` equals `Rasterize`, and `RasterizeWrites` and `RasterizeKeeps` say what `Rasterize` does to each pixel.
- `VertexShader.ShaderState.ProcessShaderCode` equals `Run`, and the lemmas about `Step` and `Run` give its semantics.

Floating-point values are not computed. A `float24` is the term of uninterpreted operations that produced it (`VertexShader.Float24`), and the rasterizer's perspective interpolation is a parameter. Calls into the kernel, the renderer and the command processor are recorded as events in order.

## Model

| member | source | states |
|---|---|---|
| DspDsp.DspDramAddress | src/core/hle/service/dsp_dsp.cpp:33 | the converted address is `2*addr + 0x1FF40000` modulo 2^32, and exactly `0x1FF40000 + 2*addr` when that does not wrap |
| DspDsp.ConvertProcessAddressFromDspDram | src/core/hle/service/dsp_dsp.cpp:27-36 | word 1 becomes 0 and word 2 the converted address of the old word 1; every other word is unchanged |
| DspDsp.LoadComponent | src/core/hle/service/dsp_dsp.cpp:50-59 | word 1 becomes 0 and word 2 becomes 1 (claims a loaded component); nothing else changes |
| DspDsp.Interface.GetSemaphoreEventHandle | src/core/hle/service/dsp_dsp.cpp:67-74 | word 1 becomes 0 and word 3 the semaphore event handle; nothing else changes |
| DspDsp.Interface.RegisterInterruptEvents | src/core/hle/service/dsp_dsp.cpp:85-93 | the interrupt event becomes the old word 4, word 1 becomes 0, nothing else changes |
| DspDsp.Interface.WriteReg0x10 | src/core/hle/service/dsp_dsp.cpp:102-110 | signals the registered interrupt event (one event appended) and sets word 1 to 0 |
| DspDsp.Interface.constructor | src/core/hle/service/dsp_dsp.cpp:184-190 | the semaphore handle is the created event, the interrupt event and the pipe cursor are 0 |
| DspDsp.PipeIterations | src/core/hle/service/dsp_dsp.cpp:138 | the loop over `size` bytes in u16 steps runs ceil(size/2) times: `size <= 2n < size + 2` |
| DspDsp.Interface.ReadPipeIfPossible | src/core/hle/service/dsp_dsp.cpp:123-151 | only the low 16 bits of word 3 are the size; the cursor advances by ceil(size/2) modulo 2^32; word 2 reports twice that count, word 1 is 0, other words unchanged; the memory writes are those of `PipeWrites` |
| DspDsp.Interface.ReadPipe | src/core/hle/service/dsp_dsp.cpp:136-145 | the loop leaves the cursor advanced by the iteration count and appends exactly the writes `PipeWrites` lists from the old cursor |
| DspDsp.Interface.ReadSlot | src/core/hle/service/dsp_dsp.cpp:139-144 | one slot: the table entry under the cursor is written at `addr + offset` only while the cursor is below 16; the cursor advances either way |
| DspDsp.BytesRead | src/core/hle/service/dsp_dsp.cpp:148 | `(read_pipe_count - initial_size) * 2` in u32 arithmetic is twice the number of slots, even when the cursor wrapped |
| DspDsp.CursorStep | src/core/hle/service/dsp_dsp.cpp:144 | one more `++` on a cursor that wrapped k steps from its start is the wrap of k + 1 steps |
| DspDsp.PipeWritesFrom | src/core/hle/service/dsp_dsp.cpp:138-145 | the slots from any offset write exactly the table entries from the cursor up to the cursor plus the remaining slots, cut off at entry 16 |
| DspDsp.PipeWritesLength | src/core/hle/service/dsp_dsp.cpp:136-145 | without cursor wrap, the slots from an offset make one write per table entry they reach |
| DspDsp.PipeWritesAt | src/core/hle/service/dsp_dsp.cpp:136-145 | without cursor wrap, write i from an offset puts entry `count + i` (below 16) at `addr + offset + 2i` |
| DspDsp.PipeWriteAddresses | src/core/hle/service/dsp_dsp.cpp:136-145 | without cursor wrap, one call's write i stores `canned_read_pipe[count + i]` at `addr + 2i` (u32), one write per entry reached before the table runs out |
| DspDsp.PipeValuesConsecutive | src/core/hle/service/dsp_dsp.cpp:131-145 | one call writes the canned entries from the cursor on, one per slot, until the table runs out |
| DspDsp.SuccessiveReadsContinue | src/core/hle/service/dsp_dsp.cpp:136-145 | two successive calls write consecutive table entries: the second continues where the first stopped |
| DspDsp.WrittenValuesAppend | src/core/hle/service/dsp_dsp.cpp:138-145 | the values written by two runs of slots are the values of the first followed by those of the second |
| Gpu.RegisterIndexInRange | src/core/hw/gpu.cpp:30-34 | the rebased index `(addr - 0x1EF00000)/4` is below `NumIds()` exactly when the address lies in the register window |
| Gpu.Gpu.Read | src/core/hw/gpu.cpp:28-40 | a value is returned iff the access is 32-bit and inside the window, and then it is the register word at the rebased index |
| Gpu.Gpu.Write | src/core/hw/gpu.cpp:42-169 | outside the window or not 32-bit nothing changes; otherwise the word is stored first and memory and events are those of the trigger dispatch on the stored registers |
| Gpu.PlainRegisterWrite | src/core/hw/gpu.cpp:53-167 | a write to a register that is not a trigger leaves memory unchanged and makes no call |
| Gpu.UntriggeredWrite | src/core/hw/gpu.cpp:87-157 | a display-transfer or command-list trigger word with bit 0 clear only stores the word |
| Gpu.Gpu.MemoryFill | src/core/hw/gpu.cpp:59-76 | memory becomes `FillResult` of the selected filler's configuration |
| Gpu.Gpu.FillWords | src/core/hw/gpu.cpp:70-71 | the pointer loop sets the first `FillWordCount(start, end)` words from `start` to the value |
| Gpu.FillWordCount | src/core/hw/gpu.cpp:70 | word k is visited iff `start + 4k < end` |
| Gpu.FillEffect | src/core/hw/gpu.cpp:66-71 | when `address_start` is nonzero every word in [start, end) holds `bswap32(value)`; nothing outside the range changes, and a disabled fill changes nothing; `size` plays no part |
| Gpu.FilledWords | src/core/hw/gpu.cpp:70-71 | each of the first n words after the loop reads back as the stored value |
| Gpu.FilledFrame | src/core/hw/gpu.cpp:70-71 | bytes outside the filled words are unchanged |
| Gpu.BSwap32Bytes | src/core/hw/gpu.cpp:71 | byte k of `bswap32(w)` is byte 3 - k of w |
| Gpu.BSwap32Involution | src/core/hw/gpu.cpp:71 | swapping twice gives back the word |
| Gpu.StoreWordThenLoad | src/core/hw/gpu.cpp:71 | a little-endian word store reads back as the stored word |
| Gpu.StoreWordFrame | src/core/hw/gpu.cpp:71 | a word store leaves the other bytes alone |
| Gpu.Gpu.DisplayTransfer | src/core/hw/gpu.cpp:84-151 | memory becomes `Transferred` of the transfer configuration, whose row offsets `y*width*4/2` and `y*width*3/2` wrap in u32 before the halving, as the source computes them |
| Gpu.Gpu.CopyPixel | src/core/hw/gpu.cpp:94-140 | one inner iteration reads the source colour, then stores three bytes, as `TransferPixel` |
| Gpu.TransferCopiesPixels | src/core/hw/gpu.cpp:91-135 | RGBA8 to RGB8 with disjoint areas and offsets below 2^32: byte k < 3 of output pixel (x, y) at `x*3 + y*output_width*3/2` is source byte `x*4 + y*input_width*4/2 + k`; alpha is dropped |
| Gpu.TransferStores | src/core/hw/gpu.cpp:99-135 | byte k of output pixel (x, y) holds source byte k as memory held it when the pixel was reached |
| Gpu.TransferUnknownInput | src/core/hw/gpu.cpp:96-112 | an unknown input format makes every written byte 0 |
| Gpu.TransferUnknownOutput | src/core/hw/gpu.cpp:137-139 | an unknown output format leaves memory unchanged |
| Gpu.TransferFrame | src/core/hw/gpu.cpp:91-142 | bytes outside the output rows are never written |
| Gpu.TransferKeeps | src/core/hw/gpu.cpp:91-142 | a byte before the output or past the current row position keeps its value |
| Gpu.RowsDoNotOverlap | src/core/hw/gpu.cpp:130 | when the offsets fit, output row y ends before any later row starts |
| Gpu.RowStartFits | src/core/hw/gpu.cpp:130 | when the offsets fit, the wrapped row start is `y*output_width*3/2` |
| Gpu.DestOffsetFits | src/core/hw/gpu.cpp:130 | when the offsets fit, output pixel x of row y is `3x` past the row start |
| Gpu.SourceOffsetFits | src/core/hw/gpu.cpp:102 | when the offsets fit, input pixel (x, y) is at `x*4 + y*input_width*2` |
| Gpu.RowStartWraps | src/core/hw/gpu.cpp:130 | the u32 wrap is real: with an output width of 2^31, row 1 starts at 2^30, not 3*2^30 |
| Gpu.SourceWithinSpan | src/core/hw/gpu.cpp:102 | when the offsets fit, every source pixel read lies within the span of input rows |
| Gpu.Gpu.Update | src/core/hw/gpu.cpp:184-203 | the line advances and the tick mark moves iff `current - last >= kFrameTicks/height` (64-bit wrap); reaching `height` resets the line to 0 and raises PDC1, swaps and reschedules |
| Gpu.NextLine | src/core/hw/gpu.cpp:189-197 | the line after `Update` is below the height |
| Gpu.LineCounterCycles | src/core/hw/gpu.cpp:189-202 | from a line inside the frame the counter advances modulo the height, and the frame ends iff a line elapsed on the last line |
| Gpu.Gpu.Init | src/core/hw/gpu.cpp:206-240 | the line is 0, the tick mark is the current tick, and the registers are `InitRegisters` of the old ones |
| Gpu.InitRegistersEffect | src/core/hw/gpu.cpp:217-237 | both framebuffers are 480 wide, 400 high, stride 480*3, RGB8, buffer 0 active, at the six default addresses; all other words keep their values |
| Gpu.StoresEffect | src/core/hw/gpu.cpp:217-237 | stores to distinct words leave each word with its stored value and all others unchanged |
| Gpu.Gpu.constructor | src/core/hw/gpu.cpp:23-26 | registers are zero, line and tick mark 0, no events |
| Rasterizer.Min3 | src/video_core/rasterizer.cpp:78-79 | `std::min` of three: at most each and equal to one |
| Rasterizer.Max3 | src/video_core/rasterizer.cpp:80-81 | `std::max` of three: at least each and equal to one |
| Rasterizer.MaskInt | src/video_core/rasterizer.cpp:83-86 | `& 0xFFF0` gives a multiple of 16 at most 0xFFF0 within 16 below the value, modulo 2^16 |
| Rasterizer.BoundingBoxEncloses | src/video_core/rasterizer.cpp:78-86 | all four box edges are multiples of 16; the minima are within a pixel below the smallest coordinate; without u16 overflow the maxima enclose every vertex and exceed the largest coordinate by less than 16, and with overflow they wrap to 0 |
| Rasterizer.SamplesExactly | src/video_core/rasterizer.cpp:110-111 | a coordinate is visited iff it is `min + 16k` and below `max` |
| Rasterizer.SamplesAscend | src/video_core/rasterizer.cpp:110-111 | the i-th visited coordinate is `min + 16i`, each one pixel after the last |
| Rasterizer.RasterRowVisitsSamples | src/video_core/rasterizer.cpp:111 | the inner loop `RasterRow` applies exactly the coordinates `Samples` lists, in order, all inside the box |
| Rasterizer.EdgeBias | src/video_core/rasterizer.cpp:105-107 | a bias is -1 or 0 |
| Rasterizer.EdgeBiasGeometry | src/video_core/rasterizer.cpp:92-104 | for a slanted edge the bias is -1 when the opposite vertex lies at least 1/16 pixel to the edge's left (in the direction of its height) and 0 when on or right of it; truncating division decides in between |
| Rasterizer.CDivTimesDivisor | src/video_core/rasterizer.cpp:102 | C's division truncates toward zero: quotient times divisor is the dividend less its remainder, signed like the dividend |
| Rasterizer.CDivRemainder | src/video_core/rasterizer.cpp:102 | the remainder of C's division is smaller than the divisor and has the dividend's sign |
| Rasterizer.CoverageByEdges | src/video_core/rasterizer.cpp:88-130 | a sample is drawn iff every edge accepts it; a sample on an edge (unbiased weight 0) is rejected iff that edge's bias is -1 |
| Rasterizer.WeightsSumToArea | src/video_core/rasterizer.cpp:114-126 | the three unbiased weights add up to twice the signed triangle area |
| Rasterizer.WrappedTexCoord | src/video_core/rasterizer.cpp:209-223 | an unknown wrap mode yields 0 |
| Rasterizer.ClampToEdgeRange | src/video_core/rasterizer.cpp:211-214 | for sizes below 2^31, clamping lands in [0, size-1] and keeps a coordinate already inside; size 0 yields -1; a size of 2^31 or more, which `(int)size` makes negative, yields `(int)size - 1` whatever the coordinate |
| Rasterizer.RepeatRange | src/video_core/rasterizer.cpp:216-217 | repeating is `(unsigned)val % size`: within [0, size), `val % size` for nonnegative values, and taken modulo 2^32 first for negative ones |
| Rasterizer.RepeatExamples | src/video_core/rasterizer.cpp:216-217 | 13 repeats to 5 on size 8; -1 repeats to 7 on size 8 and to 0 (not 2) on size 3 |
| Rasterizer.TexelIndexWithinTile | src/video_core/rasterizer.cpp:228-236 | the index within a tile lies in [0, 63] |
| Rasterizer.TileIndex | src/video_core/rasterizer.cpp:228-236 | the three-level accumulation loop computes `TexelIndexWithinTile` |
| Rasterizer.AndBitLow | src/video_core/rasterizer.cpp:233-234 | `v & (1 << k)` for k < 3 is bit k of v kept in place |
| Rasterizer.SwizzleOfBits | src/video_core/rasterizer.cpp:186-236 | bit k of s goes to bit 2k and bit k of t to bit 2k+1 |
| Rasterizer.TileIndexInvertible | src/video_core/rasterizer.cpp:186-236 | the swizzle depends only on (s mod 8, t mod 8) and `TileCoords` undoes it |
| Rasterizer.TileCoordsInvertible | src/video_core/rasterizer.cpp:186-202 | every index 0..63 is the swizzle of exactly the coordinates `TileCoords` gives: the swizzle is a bijection on the tile |
| Rasterizer.InterleaveInverse | src/video_core/rasterizer.cpp:186-202 | de-interleaving six bits gives back the two three-bit coordinates |
| Rasterizer.TileLayoutFirstRow | src/video_core/rasterizer.cpp:202 | row 0 of the tile is 0 1 4 5 16 17 20 21; (2,0) is 4 and (0,2) is 8 |
| Rasterizer.TileLayoutLastRow | src/video_core/rasterizer.cpp:195 | row 7 of the tile is 42 43 46 47 58 59 62 63 |
| Rasterizer.TexelOffsetForm | src/video_core/rasterizer.cpp:238-248 | the byte offset is 3 times (tile row start + 64 * tile column + index within tile) |
| Rasterizer.TexelOffsetAligned | src/video_core/rasterizer.cpp:247-248 | offsets are nonnegative multiples of 3 |
| Rasterizer.TexelOffsetInjective | src/video_core/rasterizer.cpp:238-248 | in a texture a whole number of tiles wide, distinct texels have distinct offsets |
| Rasterizer.FetchTexture | src/video_core/rasterizer.cpp:207-252 | the fetch through the tile-index loop gives `TextureColor` |
| Rasterizer.TextureColorReadsTexel | src/video_core/rasterizer.cpp:179-252 | an enabled unit contributes zeros; with clamping and coordinates inside sizes below 2^31, unit 0 reads red, green, blue from bytes 2, 1, 0 of texel (s, t) with alpha 0xFF, and so does a unit that differs from `texture0` only in wrap modes and height; after the UV scaling (which uses the unit's own height), the unit's own wrap modes and height play no part in the lookup |
| Rasterizer.ModulateChannel | src/video_core/rasterizer.cpp:359-379 | `a*b/255` is at most either factor |
| Rasterizer.LerpChannel | src/video_core/rasterizer.cpp:365-385 | `(a*c + b*(255-c))/255` lies between a and b |
| Rasterizer.ChannelArithmetic | src/video_core/rasterizer.cpp:339-391 | modulate is symmetric with identity 255 and zero 0; lerp by 255 or 0 picks an end; Add wraps modulo 256; one-minus-alpha twice is the identity |
| Rasterizer.ChannelExamples | src/video_core/rasterizer.cpp:359-385 | 200 modulated by 100 is 78, 200 + 100 wraps to 44, lerp(200, 100, 128) is 150 |
| Rasterizer.CombineStages | src/video_core/rasterizer.cpp:264-414 | the TEV loop, starting from the uninitialised value, ends with `CombinerChain` of the stages |
| Rasterizer.CombinerChainAppend | src/video_core/rasterizer.cpp:265-414 | stages run in order: two stage lists in a row are their concatenation |
| Rasterizer.SourceIgnoresPrevious | src/video_core/rasterizer.cpp:271-321 | sources other than `Previous` do not depend on the prior output |
| Rasterizer.FirstStageHidesInitial | src/video_core/rasterizer.cpp:264-413 | when stage 0 reads no `Previous` source, the uninitialised start value cannot affect the result |
| Rasterizer.PassThroughStage | src/video_core/rasterizer.cpp:353-413 | a stage replacing colour and alpha by the unmodified previous output passes it through: both are read before `combiner_output` is replaced |
| Rasterizer.PackColorBytes | src/video_core/rasterizer.cpp:22 | the packed word holds b, g, r, a in bytes 0 to 3 |
| Rasterizer.PixelIndexUnique | src/video_core/rasterizer.cpp:25-39 | within a row width, `x + y*width` identifies the pixel |
| Rasterizer.DrawPixel | src/video_core/rasterizer.cpp:20-26 | exactly one word changes: index `x + y*width` becomes the packed colour |
| Rasterizer.SetDepth | src/video_core/rasterizer.cpp:35-40 | exactly one u16 changes, at the same index, with no depth test; `GetDepth` reads it back |
| Rasterizer.ShadeFragment | src/video_core/rasterizer.cpp:163-420 | the texture fetches and the TEV loop give `Shade` of the sample's weights |
| Rasterizer.SampleFragment | src/video_core/rasterizer.cpp:123-130 | the coverage test and shading give the sample's fragment, none when not covered |
| Rasterizer.ProcessSample | src/video_core/rasterizer.cpp:113-423 | one inner iteration updates the buffers so that finishing the row from here equals finishing it from the next sample |
| Rasterizer.ProcessRow | src/video_core/rasterizer.cpp:111-424 | the inner loop leaves the buffers as `RasterRow` of the row |
| Rasterizer.ProcessTriangle | src/video_core/rasterizer.cpp:42-426 | the buffers end as `Rasterize` of the old buffers and the triangle |
| Rasterizer.SampleInBox | src/video_core/rasterizer.cpp:110-423 | a sample of the box falls into a pixel of the box, inside a buffer that holds the box |
| Rasterizer.RasterizeWrites | src/video_core/rasterizer.cpp:110-423 | every sample writes pixel (x >> 4, y >> 4): it ends with the sample's colour and depth if covered, its old value otherwise |
| Rasterizer.RasterizeKeeps | src/video_core/rasterizer.cpp:110-423 | a buffer entry that is the pixel of no sample of the box keeps its value |
| Rasterizer.RasterRowWrites | src/video_core/rasterizer.cpp:111-124 | within a row, each sample's pixel ends holding what its fragment made of it |
| Rasterizer.RasterRowKeeps | src/video_core/rasterizer.cpp:111-124 | pixels no remaining sample of the row hits keep their values |
| Rasterizer.RasterRowsWrites | src/video_core/rasterizer.cpp:110-125 | across rows, each sample's pixel ends holding what its fragment made of it |
| Rasterizer.RasterRowsKeeps | src/video_core/rasterizer.cpp:110-125 | pixels no remaining sample hits keep their values |
| VertexShader.ShaderStore.constructor | src/video_core/vertex_shader.cpp:27-35 | shader memory, swizzle data and every uniform start zeroed |
| VertexShader.ShaderStore.SubmitShaderMemoryChange | src/video_core/vertex_shader.cpp:37-40 | exactly one shader-memory word changes; swizzle data untouched |
| VertexShader.ShaderStore.SubmitSwizzleDataChange | src/video_core/vertex_shader.cpp:42-45 | exactly one swizzle word changes; shader memory untouched |
| VertexShader.ShaderStore.SetFloatUniform | src/video_core/vertex_shader.cpp:47-50 | a store through the returned reference changes one lane of one uniform only |
| VertexShader.Source2IsUnnegatedSelection | src/video_core/vertex_shader.cpp:115-120 | lane i of source 2 is its register's lane `selector2(i)`, never negated |
| VertexShader.NegationIsLanewise | src/video_core/vertex_shader.cpp:101-114 | with `negate_src1` every lane of source 1 is the negation of the lane selected without it |
| VertexShader.DecodeDest | src/video_core/vertex_shader.cpp:95-98 | codes below 0x08 are output registers, 0x10-0x1F temporaries `code - 0x10`, all others null (both directions) |
| VertexShader.ArithmeticMasksLanes | src/video_core/vertex_shader.cpp:126-207 | ADD, MUL, MOV, RCP, RSQ into a temporary: enabled lanes get the lane result, other lanes and registers, stack and output are unchanged, pc advances by one |
| VertexShader.DotProductLanes | src/video_core/vertex_shader.cpp:149-165 | DP3/DP4 write one dot product over the first 3/4 lanes to the enabled lanes among them; DP3 leaves lane 3 |
| VertexShader.NullDestinationFaults | src/video_core/vertex_shader.cpp:95-131 | through a null destination the step fails iff a visited lane is enabled; otherwise nothing but pc and maxima changes |
| VertexShader.ShaderState.FirstWrittenLane | src/video_core/vertex_shader.cpp:126-131 | the lane loop finds an enabled visited lane iff one exists |
| VertexShader.ShaderState.WriteTemporary | src/video_core/vertex_shader.cpp:126-131 | the lane loop changes only the destination temporary, to the masked merge |
| VertexShader.ShaderState.WriteOutput | src/video_core/vertex_shader.cpp:126-131 | the lane loop into an output register stores as `StoreLanes` under the environment's lane mapping |
| VertexShader.StoreLanesEffect | src/video_core/vertex_shader.cpp:95-131 | under either lane mapping, when the register's four slots are distinct, each written lane's slot holds the lane's value and other slots are unchanged |
| VertexShader.OutputLanes | src/video_core/vertex_shader.cpp:95-131 | under either lane mapping with distinct slots, an arithmetic write to an output register stores each written lane at its slot and leaves every other slot and all temporaries unchanged |
| VertexShader.FirstEntrySlotsDistinct | src/video_core/vertex_shader.cpp:95 | under the code's mapping the four lanes of a register always get four distinct slots |
| VertexShader.OutputLanesAsWritten | src/video_core/vertex_shader.cpp:95-131 | as the code writes it, lane i of output register `index` lands at slot `table[4*index] + i` with the lane's value, whatever the table holds; every slot no written lane names is unchanged, and so are the temporaries |
| VertexShader.StoreLanesStaysNone | src/video_core/vertex_shader.cpp:126-131 | once a lane's slot is missing the loop fails |
| VertexShader.StoreLanesPastCount | src/video_core/vertex_shader.cpp:155-163 | lanes at or past the loop's count are never written |
| VertexShader.Max32 | src/video_core/vertex_shader.cpp:78-125 | `std::max<u32>` is an upper bound equal to one argument |
| VertexShader.Push | src/video_core/vertex_shader.cpp:64-227 | the corrected push succeeds iff the next slot is inside the eight entries |
| VertexShader.Step | src/video_core/vertex_shader.cpp:74-245 | a step that does not fail keeps the state well formed |
| VertexShader.Dispatch | src/video_core/vertex_shader.cpp:122-241 | a dispatched instruction that does not fail keeps the state well formed |
| VertexShader.NopAdvances | src/video_core/vertex_shader.cpp:231-241 | NOP and unhandled opcodes change only pc (by one) and the offset maximum |
| VertexShader.CallThenEndReturns | src/video_core/vertex_shader.cpp:211-241 | CALL pushes its own index and jumps without advancing; the END finding it returns to call site + 1, empties the slot and pops |
| VertexShader.EndLeavesIffStackEmpty | src/video_core/vertex_shader.cpp:211-218 | under the stack discipline END never fails, and leaves iff the stack pointer is at slot 0 |
| VertexShader.StepKeepsStackDiscipline | src/video_core/vertex_shader.cpp:64-229 | a successful step keeps slot 0 empty, slots up to sp inside memory and slots above sp empty |
| VertexShader.EndKeepsStackDiscipline | src/video_core/vertex_shader.cpp:211-218 | END keeps the stack discipline |
| VertexShader.CallKeepsStackDiscipline | src/video_core/vertex_shader.cpp:222-229 | CALL keeps the stack discipline |
| VertexShader.Initial | src/video_core/vertex_shader.cpp:252-295 | the set-up state satisfies the stack discipline |
| VertexShader.RunEndsWithEmptyStack | src/video_core/vertex_shader.cpp:73-295 | a run from the discipline keeps it and finishes only with the stack empty |
| VertexShader.DebugMaximaGrow | src/video_core/vertex_shader.cpp:78-125 | a step's offset maximum exceeds the pc, and neither maximum decreases |
| VertexShader.RunKeepsMaxima | src/video_core/vertex_shader.cpp:73-246 | over a whole run neither maximum decreases |
| VertexShader.RunUnfolds | src/video_core/vertex_shader.cpp:74-245 | a run with fuel is one step then the rest of the run, or ends on exit or fault |
| VertexShader.ShaderState.constructor | src/video_core/vertex_shader.cpp:250-295 | the new state is `Initial`: pc at the main offset, maxima 0, stack empty at slot 0, both status flags cleared |
| VertexShader.ShaderState.Snapshot | src/video_core/vertex_shader.cpp:52-71 | a valid state is a well-formed machine |
| VertexShader.ShaderState.RunInstruction | src/video_core/vertex_shader.cpp:75-244 | one pass of the loop changes the state as `Step` and reports its outcome |
| VertexShader.ShaderState.Execute | src/video_core/vertex_shader.cpp:122-241 | the opcode switch changes the state as `Dispatch` |
| VertexShader.ShaderState.ReturnFromCall | src/video_core/vertex_shader.cpp:211-241 | END changes the state as `ExecEnd` |
| VertexShader.ShaderState.Call | src/video_core/vertex_shader.cpp:222-229 | CALL changes the state as `ExecCall` |
| VertexShader.ShaderState.Arithmetic | src/video_core/vertex_shader.cpp:92-209 | an arithmetic instruction changes the state as `ExecArithmetic` |
| VertexShader.ShaderState.RunStep | src/video_core/vertex_shader.cpp:74-245 | one pass relates the run from the new state to the run from the old one |
| VertexShader.ShaderState.ProcessShaderCode | src/video_core/vertex_shader.cpp:73-246 | the loop ends as `Run` of the starting state, with its outcome and final state |
| VertexShader.BindInputs | src/video_core/vertex_shader.cpp:259-276 | the table always has sixteen entries |
| VertexShader.InputBindingIsLastMapped | src/video_core/vertex_shader.cpp:259-276 | an input register is the dummy iff no attribute below `num_attributes` maps to it, and otherwise the last such attribute |
| VertexShader.Flatten | src/video_core/vertex_shader.cpp:280-290 | a table of four-slot rows has four entries per register |
| VertexShader.FlattenIndex | src/video_core/vertex_shader.cpp:288-289 | entry `4*i + comp` is `semantics[i][comp]` |
| VertexShader.BuildOutputTable | src/video_core/vertex_shader.cpp:278-290 | the nested loop builds `Flatten` of the semantic maps |
| VertexShader.OutputLaneFollowsSemantics | src/video_core/vertex_shader.cpp:283-289 | with the corrected slot, lane c of register i goes to the slot its semantic map names |
| VertexShader.CallGuardAdmitsOverflow | src/video_core/vertex_shader.cpp:64-227 | with the top at slot 7 the debug check passes and the CALL stores to slot 8, past the stack; the corrected push refuses |
| VertexShader.OutputLaneFromFirstSemantic | src/video_core/vertex_shader.cpp:95-289 | as the code computes it, lane i of register `index` goes to that register's `map_x` plus i |
| VertexShader.OutputLaneAsWrittenIgnoresSemantics | src/video_core/vertex_shader.cpp:95-289 | with map (3, 2, 1, 0) lane 1 is written to slot 4 as the code stands, not slot 2 as the map names |
| VertexShader.RunShader | src/video_core/vertex_shader.cpp:248-308 | binds the inputs, builds the output table, sets up the state and runs with the code's lane mapping (`table[4*index] + i`); status and output vertex are those of `Run` from `Initial` |

## Left out

- Floating point is not computed. `float24` values are free terms: `FromFloat32`, sum, product, reciprocal and reciprocal square root (`VertexShader.Float24`). The model therefore never equates results that real arithmetic would equate.
- The rasterizer's floating-point work is one parameter, `interp`, from the sample's weights to the interpolated attributes. This covers `FloatToFix`, the perspective-correct interpolation, the scaling of texture coordinates to texels and the depth formula. Vertex positions arrive already converted to 12.4 fixed point.
- The nihstro instruction and swizzle decoding (`Instruction`, `SwizzlePattern`, `GetSrc1`/`GetSrc2`, `SrcInversed`) is a `Decoder` parameter that maps each word to decoded fields. Operand inversion is therefore part of the decoded operands, and destination register indices come straight from the code.
- Undefined behaviour of the vertex shader becomes an explicit `Fault`:
  - the program counter leaving shader memory;
  - a write through the null destination;
  - output register 7, whose table entry lies past the 28-entry output register table;
  - END on the permanent empty entry below the stack, which `RunShader`'s discipline never reaches;
  - a CALL with the stack full (see Findings).
- `VertexShader.Run`: the `while (true)` loop of `ProcessShaderCode` is bounded by a fuel count. The model does not capture a shader that never ends.
- The dummy input register is a whole `Vec4`. The source takes the address of one `float24` and reads four lanes from it.
- Uninitialised temporaries and the initial `combiner_output` are parameters (`initialTemps`, `uninitialised`).
- The output vertex is a map from float slots to values; the `OutputVertex` struct layout is not modelled.
- The shader environment (program, swizzles, uniforms, register tables) is a read-only snapshot taken when a run starts. Nothing writes the banks during a run.
- The status registers are set up but never read.
- `DumpShader`, `DumpTexture`, all logging, and the `_dbg_assert_` checks are not modelled. The CALL assertion is modelled only to exhibit the finding.
- The `Regs` bitfield layout and the `GPU_REG_INDEX` macros are not modelled. A `Layout` value gives the word of each field, and each field occupies its whole word.
- Address translation (`Memory::GetPointer`, `PhysicalToVirtualAddress`, `Memory::Write16`) is not modelled. GPU memory is one byte array indexed by physical address, where out-of-range reads give 0 and stores are dropped. The DSP pipe's `Write16` calls are recorded as events. Texture memory is a total function from addresses to bytes.
- Calls into the renderer, kernel, GSP and command processor are recorded as events. Tick counts are parameters.
- `Gpu.Gpu.Update` requires a nonzero framebuffer height, because the source divides by it.
- `Rasterizer.ProcessTriangle` requires the box's pixels to lie inside both buffers, because the source writes outside them otherwise. It also requires every sampled unit's `Repeat` size to be nonzero, because `%` by 0 is undefined.
- `Rasterizer.RasterizeWrites` assumes a row of the box fits in the framebuffer width (`maxX/16 <= width`). Otherwise two samples can alias one buffer index, and the lemma does not say which write wins.
- `Rasterizer.TexelOffsetForm` computes the texel offset on unbounded integers. The source computes `coarse_s * 8 * 3 + coarse_t * row_stride + index * 3` in 32-bit signed `int`, and `row_stride` is `width * 3`. The product `coarse_t * row_stride` overflows, which is undefined behaviour, once it reaches 2^31, for example at a width and height of 0x8000. The model does not capture this, and neither `Rasterizer.FetchTexture` nor `Rasterizer.TextureColor` does.
- `Rasterizer.WrappedTexCoord` computes `(int)size - 1` on unbounded integers. For a size of exactly 2^31 the source's subtraction overflows, which is undefined behaviour, and the model yields -2^31 - 1.
- The colour buffer, the depth buffer and texture memory are three independent stores in the model. The source reaches all three through `Memory::GetPointer`, so they can overlap, for example when a triangle samples the framebuffer it is drawn into. Overlapping buffers are not captured.
- `Rasterizer.Orient2d` and `Rasterizer.EdgeBias` compute the `orient2d` products and the edge interpolation of `IsRightSideOrFlatBottomEdge` on unbounded integers. The source computes them in 32-bit signed `int`. There the differences reach ±65535 and each product about 4.29e9. For coordinate spans of about 0x8000 (2048 pixels) or more, the source's arithmetic overflows, which is undefined behaviour. The model does not capture this, and nothing in the source clips such vertices.
- `Gpu.TransferCopiesPixels` is proved only when the transfer's offsets stay below 2^32 (`OffsetsFit`). Beyond that the source's u32 offsets wrap and rows can overlap, and the lemma does not describe the result. `Gpu.Gpu.DisplayTransfer` itself follows the wrapped offsets.
- `Gpu.TransferStores` assumes `OffsetsFit`, for the same reason.
- `Gpu.TransferKeeps` assumes `OffsetsFit`, for the same reason.
- `Gpu.TransferFrame` assumes `OffsetsFit`, for the same reason.
- `Gpu.TransferUnknownInput` assumes `OffsetsFit`, for the same reason.
- `Gpu.RowsDoNotOverlap` assumes `OffsetsFit`. With wrapped offsets a later row can start before an earlier one.
- `Gpu.SourceWithinSpan` assumes `OffsetsFit`. With wrapped offsets a later input row can start before an earlier one.
- `VertexShader.OutputLanes` assumes the register's four slots are distinct. Under the code's mapping they always are (`FirstEntrySlotsDistinct`, `OutputLanesAsWritten`). Under the corrected mapping two lanes can name one slot, and the lemma does not say which write wins.
- `VertexShader.StoreLanesEffect` assumes distinct slots in the same way.
- The `FunctionTable` registration of the DSP service and the handlers it leaves as null are not modelled. The created semaphore event is a constructor parameter.
- The Qt debugger widgets are not part of this model.

## Findings

| source | as written | input that shows it | evidently intended | confidence | as-written member | corrected member |
|---|---|---|---|---|---|---|
| src/video_core/vertex_shader.cpp:64-227 | the CALL check compares the stack pointer's slot distance with `sizeof(call_stack)`, which is 32 bytes, not 8 entries; `*++call_stack_pointer` then stores to the next slot | seven nested CALLs leave the pointer at slot 7; the check `7 < 32` passes and the eighth CALL writes `call_stack[8]`, past the array | refuse a push beyond slot 7 (compare with the entry count) | not executed | VertexShader.CallGuardAdmitsOverflow | VertexShader.Push |
| src/video_core/vertex_shader.cpp:95-289 | an output destination is `output_register_table[4*index]` and lane i writes `dest[i]`, i.e. the x slot plus i, so `map_y`, `map_z` and `map_w` are never used | a register whose semantic map is (3, 2, 1, 0): lane 1 goes to slot 3 + 1 = 4 instead of slot 2 | lane i of register `index` goes to `output_register_table[4*index + i]` | not executed | VertexShader.OutputLaneAsWrittenIgnoresSemantics | VertexShader.OutputLaneFollowsSemantics |
