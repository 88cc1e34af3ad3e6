# s2pro-native: a verified model

This project models five parts of the s2pro-native speech server and proves that the fast,
incremental or concurrent form of each agrees with a simple one.  `Basics` holds the few types and
values all of them use.

**Streaming audio decoder** (`Kernels`, `Codec`, `CodecMeaning`, `Whole`, `Scratch`, `Incremental`, `Ops`,
`OpsSound`, `Tables`, `BatchWalk`, `Batch`, `BatchAgree`, `Front`, `FrontBatch`, `Stream`, `StreamBatch`,
`StreamRuns`, `StreamFull`). `Codec` says what the whole-buffer decode computes, stage by stage: code
clamping, the residual quantizer, the windowed-attention transformer, two up-samplers with ConvNeXt blocks,
the decoder convolutions and blocks, the final convolution.  Convolutions are zero-padded tap sums over
integers and transposed convolutions scatter sums; every kernel that acts on one column or row is an
arbitrary function of it, and attention is an arbitrary function of the query and the ordered list of
visible key and value rows.  `Whole` runs the four-buffer code, `Incremental` the per-stream engine with its
histories, context columns and key/value tails.  `CodecMeaning` says what both compute in codes,
sums and numbers: the nearest code of each codebook, sums over taps, residuals channel by channel, the rows a
query sees, the chain of stages in numbers.

The cross-session batched push runs in device memory.  `Scratch` gives every stream its allocation,
carved into the regions of the code, with buffers that destroy whatever they are written over.  `Ops` is
the push as a list of operations and what each does to one stream; `OpsSound` proves that the list takes
a stream to the state and samples of a single push.  `BatchWalk` is the interleaved stage-walk: kernels
that look their buffers up in the uploaded pointer table of `Tables`, between loops over the sessions'
own buffers, layer by layer; it does that list to every stream of a roster whose allocations are apart.
`BatchAgree` compares a batched push with separate ones for any roster.

`Front` and `FrontBatch` are the front end as functions on stream values, `Stream` and `StreamBatch` the
objects.  For every partition of a code sequence into pushes of 1..8 frames the collected samples
concatenate to the whole-buffer decode (`Stream.DecodePieces`), and so do the samples handed out for
every stream of a run of single and batched pushes, collects and finishes (`StreamRuns.Play`).  `StreamFull`
holds the calls that leave a gather buffer full.

**Long-form chunk chain** (`Gap`, `JoinMeaning`, `GapFilter`, `Chain`, `ChainRuns`, `ChainTakes`,
`ChainWritten`, `ChainBenign`, `ChainRest`, `HttpHead`, `Wire`, `WireText`, `ChainConn`). The gap filter is
a per-sample automaton in `Gap`; the block-wise code with its fixed window refines it in `GapFilter`.
`Chain` is the transition system of submissions and scheduler callbacks; `ChainRuns` proves statements over
all its runs; `ChainTakes` tells the takes that a response joins from the blocks its callbacks were given,
and `JoinMeaning` what the join keeps of them; `Wire` models chunked and buffered responses byte by byte,
against the receivers of RFC 9112 (`HttpHead` has the one that reads Content-Length, `WireText` the texts
and sizes); `ChainConn` is the connection object whose callback and submit pass are proved to take exactly
those transitions. Two submission steps are kept side by side, `AsWritten` (the code) and `AsMeant` (the
submission frontier never moves back, a refused regeneration stays armed).  The callback is the same in
both.  A run of the code is benign when every regeneration it submits is accepted and is the newest
submitted chunk; `ChainWritten` carries the statements over to benign runs and shows what other runs can do,
`ChainBenign` says which requests have them, `ChainRest` where any run of the code can come to rest.

**JSON parser** (`JsonGrammar`, `JsonParse`, `JsonSound`, `JsonAccept`, `JsonScan`, `JsonMachine`,
`JsonText`). The goto machine over three stacks is proved against a recursive reading, and that against
concrete syntax trees for sections 2 to 7 of RFC 8259: a text is accepted exactly when some tree within the
caps prints as it, and the result is the value that tree denotes.  `JsonText` ties the bytes of the grammar
to characters, escapes to UTF-16, and the whole to a writer whose texts are read back as the values written.

**Reference vocoder** (`RefFade`, `RefStream`): overlapping windows, crossfade and held tail.  What a whole
run emits is its parts at their places, joined by linear fades, with conservation of samples.

**Indexes, hashes and caches** (`HashIndex`, `Sha256`, `Sha256Known`, `QCache`, `QCacheLayout`,
`CacheStore`): open addressing against a linear scan, streaming SHA-256 against the one-shot computation of
FIPS 180-4 and a known digest, and the weight cache file written and read back, with every load of every
accepted file.

## Where the code differs from its intent or its documentation

- `src/http/http.c:656` sets the frontier from the chunk just accepted, also when that is a
  regeneration; `src/http/http.c:650` disarms a regeneration before a submit that may be refused, and
  `src/http/http.c:678` then returns success.  `ChainRuns.AsWrittenExactly` proves that the code's step keeps
  the chain invariant if and only if a regeneration is accepted and is of the newest submitted chunk;
  `ChainWritten.FrontierMovesBack` and `ChainWritten.RefusalForgotten` give concrete interleavings where it
  does not, and `ChainWritten.FinishesTooSoon` one where the response closes while a session of a chunk is
  still alive, after which the poll loop resets the connection that session calls back into.
  `ChainRuns.AsWrittenRunExactly` is the same equivalence for whole runs.  A request has a run that breaks the
  invariant if and only if one of its chunks can be regenerated (`ChainBenign.RefusalPossible`), and one without
  a refused regeneration if and only if a later chunk can be out by then (`ChainBenign.OvertakingPossible`); with
  one chunk at a time and no refused regeneration none of this happens (`ChainWritten.SerialRunsAreBenign`).
- A parallel chain waits for chunk 0's first audio before it submits the rest
  (`src/http/http.c:681-682`).  If chunk 0 completes without a single sample the rest is never submitted and the
  response never ends.  That is the only way an unfinished sound chain can come to rest
  (`ChainRuns.StuckExactly`), and a request can get there if and only if it is parallel and has at least two
  chunks (`ChainWritten.StallPossible`).  Runs that lose a refused regeneration have another rest: the client
  waits for ever for the chunk that was forgotten (`ChainRest.ForgottenForEver`).  `ChainRest.RestExactly` says for
  every run of the code when nothing can happen any more, `ChainRest.RestPossible` which requests have such a run.
- After a refused submit a streamed response is closed with the terminal chunk
  (`src/http/http.c:1258-1271`), so a truncated answer is indistinguishable from a complete one
  (`Wire.Response.GiveUp`).
- The batched push accepts 1..8 frames per stream where the comments speak of one
  (`src/dac/dac_internal.h:181-184`, `src/dac/stream_inc.c:438`), and it checks neither the position limit nor
  that the sessions are distinct, as the single push does (`src/dac/stream_inc.c:306`).
  `BatchAgree.PushBoth` proves for any roster when the two agree: all pushes are accepted if and only if the
  sessions are distinct, idle, of one codec and in room.  `BatchAgree.RepeatedSession` and
  `BatchAgree.PastLimit` are rosters where they do not.
- The comment at `src/dac/stream_inc.c:221` bounds the hidden rows of a ConvNeXt block by 16k floats, which
  holds for one frame; with eight frames they take 128k behind `bext + 32768`, and the extended columns
  reach 6k past that address.  `OpsSound.CnxRun` proves that the columns are dead by then and that the rows fit.
- The front end means a gather buffer to be below its target between calls, and its rows to suffice.  A push
  appends the frame first and keeps it when the engine then refuses the flush (`src/dac/stream.c:105-122`), so a
  stream with a push in flight, or at the position limit, that fills its batch stays at its target;
  `Front.PushExactly` says when, for any stream below its target.  A batched push adds four cases: a finished
  stream in the roster (`src/dac/stream.c:138-149`), the 65th stream that completes its batch at one size
  (`src/dac/stream.c:156`), a group that the engine refuses for its codecs or for a push in flight, and every group
  of a larger size behind a refused one (`src/dac/stream.c:168`).  `FrontBatch.SteadyAfter` and
  `FrontBatch.AllSteadyExactly` say exactly when, for any roster.  In `StreamFull.Overfull` and
  `StreamFull.InFlightOverfull` the buffer holds eight frames of eight, and the next push to that stream would
  write a ninth (`src/dac/stream.c:112`).
- The cache reader promises that every failure is a miss (`src/sched/qcache.c:19-20`), but it divides by an
  entry's group unchecked and its bounds check adds without regard to wrapping.
  `CacheStore.NoFaultExactly` proves when no load of an accepted file faults; `CacheStore.ZeroGroupFaults` and
  `CacheStore.WrappedOffsetFaults` are accepted files that do.
- The cache writer stores entries with an empty name or one over 512 bytes; its reader then rejects the
  whole file.  `QCache.FileReadBack` proves that a written file is usable if and only if no name is such.
- The parser checks escapes but not that raw bytes from 0x80 up are well-formed UTF-8, and it rejects
  escaped surrogates that are not paired, which section 8.2 of RFC 8259 leaves open.

## Model

| member | source | states |
|---|---|---|
| Kernels.HistStep | src/dac/stream_inc.c:197-205 | the last (k-1)*dil columns of [history, new] are the zero-padded history of the longer signal |
| Kernels.ConvStep | src/dac/stream_inc.c:207-216 | an unpadded convolution of [history, new] yields exactly the whole-buffer causal columns of the new input |
| Kernels.ConvPrefix | src/dac/dac_internal.h:199-202 | causality: output columns never change when the input grows |
| Kernels.TapSumPadded | src/dac/dac_internal.h:199-202 | a tap sum depends only on the zero-padded columns its taps meet |
| Kernels.ScatterFar | src/dac/dac_internal.h:206-209 | with k <= 2*stride an input two or more columns behind an output's own column contributes nothing |
| Kernels.ContextSum | src/dac/stream_inc.c:366-380 | one new output sums the same over [context, new] as over the whole signal |
| Kernels.UpsampleStep | src/dac/stream_inc.c:368-380 | dropping the context column's first stride outputs leaves exactly the whole-buffer columns of the new input |
| Kernels.UpsampleLocal | src/dac/stream_inc.c:349-356 | with k <= stride the up-sampler needs no context |
| Kernels.UpsamplePrefix | src/dac/dac_internal.h:206-209 | up-sampled columns of a longer signal start with those of a shorter one |
| Kernels.TConvIsGather | src/dac/dac_internal.h:206-209 | the scatter sum equals the per-output gather over every stride-th tap of one phase |
| Codec.VisiblePrefix | src/dac/dac_internal.h:282-288 | the rows visible to a query do not depend on later rows |
| Codec.LayerPrefix | src/dac/dac.c:384-406 | the rows of a transformer layer are unchanged when the sequence grows |
| Codec.PostPrefix | src/dac/dac.c:384-406 | so are the rows of the whole transformer |
| Codec.DecodePrefix | src/dac/dac.c:446-525 | the samples of a longer code sequence start with those of a shorter one |
| Codec.DecodeLength | src/dac/dac.c:410-438 | all strides together give exactly 2048 samples a frame |
| CodecMeaning.NearestIs | src/dac/dac.c:457-469 | every frame has exactly one nearest frame whose codes lie in their codebooks, 0..4095 for the first and 0..1023 for the other nine; a frame in range is its own |
| CodecMeaning.ClampIsNearest | src/dac/dac.c:457-469 | what the clamping makes of a frame is that nearest frame |
| CodecMeaning.LooksUpNearest | src/dac/dac.c:457-469 | any frames are looked up, and decode, as their nearest frames do |
| CodecMeaning.LooksUpCodes | src/dac/dac.c:457-469 | a semantic code in 0..4095 and residual codes in 0..1023 are looked up unchanged |
| CodecMeaning.LayoutsAgree | src/dac/stream_inc.c:315-324 | frame-major and codebook-major codes are the same frames if and only if code q of frame t is at 10 t + q in the one and at q tn + t in the other |
| CodecMeaning.CausalIs | src/dac/dac.c:353-380 | output t of a causal convolution, channel by channel: the bias and the sum over the taps of the weighted column (k - 1 - tap) dil back |
| CodecMeaning.UpsampleIs | src/dac/dac.c:424-428 | output j of an up-sampler: the bias and the sum over the inputs u of tap j - s u applied to u |
| CodecMeaning.UnitIsResidual | src/dac/dac.c:353-364 | the output of a residual unit is its input with the branch added, sample by sample and channel by channel |
| CodecMeaning.CnxIsResidual | src/dac/dac.c:366-382 | so is that of a ConvNeXt block, whose branch is convolution, norm, product, activation, product and scale |
| CodecMeaning.VisibleAre | src/dac/dac.c:394-397 | a query sees its own row and the 127 before it, in order, and no later one |
| CodecMeaning.LayerRow | src/dac/dac.c:388-409 | one row of one layer: attention over the rotated keys and values it sees, both residuals and the gated feed-forward part |
| CodecMeaning.BlockIs | src/dac/dac.c:421-432 | block i: activation, an up-sampler of 16, 16, 8, 4 taps and stride 8, 8, 4, 2, and residual units dilated by 1, 3 and 9 |
| CodecMeaning.DecodeIs | src/dac/dac.c:412-441 | the whole decode as one chain from latents to samples |
| Whole.Dac.RopeEnsure | src/dac/dac.c:73-99 | the table covers the rows asked for, never shrinks, and for streaming positions stays within 32 bits |
| Whole.ClampCodebookMajor | src/dac/dac.c:457-469 | the codes of every frame, clamped each to its codebook; which codes those are is ClampIsNearest |
| Whole.ClampRow | src/dac/dac.c:463-467 | one row is clamped, earlier rows stay |
| Whole.RvqClamped | src/dac/dac.c:481-491 | looking up the clamped codes gives the latents of the frames |
| Whole.RunRu | src/dac/dac.c:353-363 | the three-buffer code computes x plus the branch of x |
| Whole.RunCnx | src/dac/dac.c:367-380 | the four-buffer code computes x plus the ConvNeXt branch of x |
| Whole.RunAttention | src/dac/dac.c:384-406 | each row attends to rows max(0,t-127)..t only |
| Whole.RunMix | src/dac/dac.c:384-406 | residual, feed-forward and scales of a layer, row by row |
| Whole.RunTf | src/dac/dac.c:384-406 | the layers in place and the final norm give the transformer of the input |
| Whole.RunBlockUp | src/dac/dac.c:410-438 | activation and up-sampler of a block land in the next buffer of the rotation |
| Whole.RunBlock | src/dac/dac.c:410-438 | one decoder block under the buffer rotation |
| Whole.RunDecoderStack | src/dac/dac.c:410-438 | whatever buffer the input starts in, the buffer returned holds the samples of it |
| Whole.RunUpsample | src/dac/dac.c:498-504 | both up-samplers and ConvNeXt blocks, from the first buffer back into it |
| Whole.DecodeAll | src/dac/dac.c:446-525 | an empty request is INVALID; otherwise the result is the decode of the codes, 2048 samples a frame; codes out of range decode as the nearest ones (LooksUpNearest) |
| Incremental.KvExt | src/dac/stream_inc.c:253-272 | [retained, new] is a suffix of the full row sequence |
| Incremental.VisibleExt | src/dac/stream_inc.c:253-272 | a new row at absolute position t sees exactly rows max(0,t-127)..t |
| Incremental.KvRetain | src/dac/stream_inc.c:286-295 | what is kept of [retained, new] is the last min(127, rows) of the full sequence |
| Incremental.NewKv | src/dac/stream_inc.c:246-269 | rotated at their absolute position, the new rows alone give the new queries, keys and values |
| Incremental.SdpaExt | src/dac/stream_inc.c:253-272 | attention over the retained tail equals attention over the full sequence |
| Incremental.ExtendKv | src/dac/stream_inc.c:246-269 | the extended key and value rows and rotated queries of a layer |
| Incremental.PostLayer | src/dac/stream_inc.c:238-298 | one layer on the new rows gives the new rows of the full layer and leaves the last min(127,pos) rows retained |
| Incremental.PostLayers | src/dac/stream_inc.c:238-298 | by induction over layers, all new rows equal those of the full transformer |
| Incremental.ConvHist | src/dac/stream_inc.c:207-216 | new history and output columns of a convolution, against the whole signal |
| Incremental.IncCnx | src/dac/stream_inc.c:219-235 | the ConvNeXt block on new columns, against the whole signal |
| Incremental.IncUp | src/dac/stream_inc.c:366-380 | a block's up-sampler with one context column, against the whole signal |
| Incremental.IncRu | src/dac/stream_inc.c:382-394 | a residual unit with its dilated history, against the whole signal |
| Incremental.IncBlock | src/dac/stream_inc.c:362-396 | a decoder block: up-sampler, three residual units, all four histories advanced |
| Incremental.IncFinal | src/dac/stream_inc.c:397-406 | the samples of the new columns extend the samples of the old ones |
| Incremental.IncUpStage | src/dac/stream_inc.c:349-356 | up-sampler and ConvNeXt block on new columns |
| Incremental.ClampFrameMajor | src/dac/stream_inc.c:314-324 | the same frames, clamped, from the other layout; which codes those are is ClampIsNearest |
| Incremental.IndexApart | src/dac/stream_inc.c:316-323 | different frame and codebook pairs never share a place |
| Incremental.RvqLoaded | src/dac/stream_inc.c:330-343 | the lookup of the staged codes gives the latents of the pushed frames |
| Incremental.FlightStarts | src/dac/stream_inc.c:312-343 | the latents of the new frames put a stream before the first stage |
| Incremental.LoadCodes | src/dac/stream_inc.c:312-343 | upload, clamp and lookup start a push with the latents of its frames |
| Incremental.StagePost | src/dac/stream_inc.c:345-347 | the transformer stage takes a push from latents to transformer rows |
| Incremental.StageUp | src/dac/stream_inc.c:349-356 | the two up-sampling stages |
| Incremental.StageConv | src/dac/stream_inc.c:358-360 | the first decoder convolution |
| Incremental.StageBlock | src/dac/stream_inc.c:362-396 | block i, reading and writing the two roles that are due after i swaps |
| Incremental.RolesSwap | src/dac/stream_inc.c:395 | two blocks restore the roles |
| Incremental.StageFinal | src/dac/stream_inc.c:397-406 | the last stage |
| Incremental.FreshState | src/dac/stream_inc.c:97-125 | zeroed histories are the histories of the empty signal |
| Incremental.FlightDone | src/dac/stream_inc.c:397-412 | after all stages every history is that of the longer sequence and the samples are its new samples |
| CodecMeaning.PushAnswers | src/dac/stream_inc.c:300-306 | a push is accepted if and only if it has 1 to 8 frames, nothing is in flight and at most 536870911 frames are then in; in flight is WrongState, the rest Invalid |
| CodecMeaning.NewHistories | src/dac/stream_inc.c:89-119 | a new stream starts from zeros of the right shape: six columns ahead of every convolution of seven taps, times the dilation, and one ahead of every up-sampler of a block |
| CodecMeaning.KeptRows | src/dac/stream_inc.c:286-295 | what a layer keeps between pushes is the last 127 of its rows, or all |
| Incremental.Inc.constructor | src/dac/stream_inc.c:97-158 | a new stream is in the state of having been fed nothing |
| Incremental.Inc.RunStages | src/dac/stream_inc.c:312-406 | the pipeline of one push with its role swaps |
| Incremental.Inc.Commit | src/dac/stream_inc.c:408-411 | position, retained rows and frames in flight account for the push; a stream whose stages are all done is valid again |
| Incremental.Inc.PushAsync | src/dac/stream_inc.c:300-412 | the status by frame count, flight and position limit; on success the frames are appended and every invariant of the state holds, otherwise nothing changes |
| Incremental.Inc.Collect | src/dac/stream_inc.c:415-426 | the samples handed out are exactly those by which the decode of all frames exceeds the decode of the earlier ones |
| Scratch.RegionsDisjoint | src/dac/stream_inc.c:144-156 | two regions of a stream share no float, except bext and its own back |
| Scratch.LocalOwn | src/dac/stream_inc.c:125-157 | a write inside a stream's allocation is a write at its offset |
| Scratch.LocalOther | src/dac/stream_inc.c:125-157 | it changes nothing in the allocation of another stream |
| Scratch.WriteRead | src/dac/stream_inc.c:125-157 | a region written within its size reads back, regions apart from it hold what they held |
| OpsSound.AttendSound | src/dac/stream_inc.c:550-582 | a layer's projections, rotation at the stream's own position and attention over its own retained rows give the rows attention of the whole sequence |
| OpsSound.MixRun | src/dac/stream_inc.c:583-598 | the eight kernels behind attention compute residual, feed-forward and scales without touching what retention still needs |
| OpsSound.RetainSound | src/dac/stream_inc.c:599-612 | what is retained is the last min(127, rows) key and value rows of the longer sequence |
| OpsSound.LayersSound | src/dac/stream_inc.c:548-613 | by induction over layers, the new rows are those of the full transformer and every layer's retained rows have advanced |
| OpsSound.PostSound | src/dac/stream_inc.c:548-617 | the transformer takes a stream from its latents to the rows entering the up-samplers |
| OpsSound.ConvRun | src/dac/stream_inc.c:687-693 | extend, convolve, retain: the convolution sees [history, new] and the history keeps its end |
| OpsSound.CnxRun | src/dac/stream_inc.c:623-652 | a ConvNeXt block is right although its hidden rows overwrite the back of the extension buffer |
| OpsSound.UpSound | src/dac/stream_inc.c:619-684 | both up-sampling stages |
| OpsSound.ConvSound | src/dac/stream_inc.c:686-693 | the first decoder convolution |
| OpsSound.BlockFits | src/dac/stream_inc.c:695-758 | what a push of 1..8 frames writes fits every buffer of the decoder |
| OpsSound.BlockUpSound | src/dac/stream_inc.c:700-724 | activation and up-sampler of a block, the context column's outputs dropped |
| OpsSound.RuSound | src/dac/stream_inc.c:726-756 | a residual unit in place, its dilated history advanced |
| OpsSound.BlocksSound | src/dac/stream_inc.c:695-761 | four blocks with the two roles swapped after each |
| OpsSound.FinalSound | src/dac/stream_inc.c:762-776 | the last convolution; the samples in bt1 extend those of the shorter sequence |
| OpsSound.ProgramSound | src/dac/stream_inc.c:514-783 | the whole list of operations takes a stream to the state and samples of a single push |
| Tables.PointerTable.Ensure | src/dac/stream_inc.c:448-460 | the table has room; reallocation forgets the cached roster |
| Tables.PointerTable.Ready | src/dac/stream_inc.c:484-512 | comparing the count and the bx row suffices: afterwards all twelve rows on the device describe this roster |
| Tables.FillTable | src/dac/stream_inc.c:493-512 | every role of every session is at its fixed offset from bx |
| Tables.FillSession | src/dac/stream_inc.c:494-508 | one session's column, the others untouched |
| BatchWalk.PutOne | src/dac/stream_inc.c:125-157 | writing one session's region changes no other session of a roster whose scratch is apart |
| BatchWalk.Walk.LaunchOne | src/dac/stream_inc.c:551-554 | one session's share of a batched kernel: through the uploaded table it reads and writes that session's own buffers |
| BatchWalk.Walk.Launch | src/dac/stream_inc.c:551-554 | after a batched kernel every stream has seen that one operation, and nothing else |
| BatchWalk.Walk.Launch2 | src/dac/stream_inc.c:585-587 | the same for kernels of two inputs |
| BatchWalk.Walk.ExtBuild | src/dac/stream_inc.c:627-629 | the session loop that extends histories is one operation of every stream |
| BatchWalk.Walk.HistUpdate | src/dac/stream_inc.c:634-635 | so is the one that retains them |
| BatchWalk.Walk.DropUp | src/dac/stream_inc.c:716-724 | so is the one that drops the context column's outputs |
| BatchWalk.Walk.Attend | src/dac/stream_inc.c:555-582 | rotation, key and value rows and attention, session by session at their own positions |
| BatchWalk.Walk.Retain | src/dac/stream_inc.c:599-612 | retention, session by session |
| BatchWalk.Walk.Samples | src/dac/stream_inc.c:770-776 | the last history and the samples, session by session |
| BatchWalk.Walk.LoadCodes | src/dac/stream_inc.c:524-544 | every session's codes are clamped and looked up into its own bx and brow |
| BatchWalk.Walk.WalkAttend | src/dac/stream_inc.c:550-582 | normalised rows, the joint projection and attention, over all sessions |
| BatchWalk.Walk.WalkMix | src/dac/stream_inc.c:583-598 | the eight kernels behind attention, over all sessions |
| BatchWalk.Walk.WalkLayer | src/dac/stream_inc.c:548-613 | one layer over all sessions is one layer's operations for every stream |
| BatchWalk.Walk.WalkPost | src/dac/stream_inc.c:546-617 | layers outside, sessions inside |
| BatchWalk.Walk.WalkCnx | src/dac/stream_inc.c:623-652 | a ConvNeXt block over all sessions |
| BatchWalk.Walk.WalkUp | src/dac/stream_inc.c:619-684 | both up-sampling stages over all sessions |
| BatchWalk.Walk.WalkConv | src/dac/stream_inc.c:686-693 | the first decoder convolution over all sessions |
| BatchWalk.Walk.WalkBlockUp | src/dac/stream_inc.c:699-724 | parity selects the roles a single push would have swapped to |
| BatchWalk.Walk.WalkRu | src/dac/stream_inc.c:726-756 | a residual unit over all sessions |
| BatchWalk.Walk.WalkBlocks | src/dac/stream_inc.c:695-758 | the parity follows four swaps |
| BatchWalk.Walk.WalkFinal | src/dac/stream_inc.c:759-776 | the last stage over all sessions |
| BatchWalk.Walk.WalkAll | src/dac/stream_inc.c:546-776 | the interleaved walk does to every stream exactly the program of a push |
| Batch.CheckRoster | src/dac/stream_inc.c:474-479 | the first offender in roster order decides: another codec is Invalid, a push in flight is WrongState; accepted exactly when there is none |
| Batch.ShareIs | src/dac/stream_inc.c:524-535 | session i is given code q of its frame t from place 10 (i tn + t) + q of the packed codes |
| Batch.FirstOffence | src/dac/stream_inc.c:474-479 | the answer is that of the first session of another codec or with a push in flight, and OK if and only if there is none |
| Batch.SessionLands | src/dac/stream_inc.c:524-783 | the program leaves a valid stream with the histories of the longer sequence and its new samples |
| Batch.WalkRoster | src/dac/stream_inc.c:514-776 | streams whose scratch is apart all end with their samples computed, given a table that describes the roster |
| Batch.CommitAll | src/dac/stream_inc.c:777-781 | a session moves on by the frames once for every time it is named; distinct sessions are all valid again |
| Batch.PushBatch | src/dac/stream_inc.c:465-783 | for any roster: which answer; a refusal changes nothing; positions move on once per naming; distinct sessions each gain exactly their own frames and stay valid, and the table on the device describes the roster |
| BatchAgree.StateDetermined | src/dac/stream_inc.c:300-412 | the fed frames determine every history and retained row |
| BatchAgree.SameFramesSameState | src/dac/stream_inc.c:465-783 | two streams of one codec that have taken the same frames, in whatever batches, agree in every history, retained row, position and sample |
| BatchAgree.PushEach | src/dac/stream_inc.c:300-412 | pushing a roster one after another: every answer, and what each session ends with |
| BatchAgree.SamePositions | src/dac/stream_inc.c:465-783 | batched and single pushes leave the same positions if and only if the roster is distinct and in room, or was refused with no session acceptable alone |
| BatchAgree.PushBoth | src/dac/stream_inc.c:300-783 | all are accepted if and only if the sessions are distinct, idle, of one codec and in room, and then each ends in the state of its separately pushed twin |
| BatchAgree.RepeatedSession | src/dac/stream_inc.c:474-479 | a session named twice: accepted and moved on twice, while the second single push is refused |
| BatchAgree.PastLimit | src/dac/stream_inc.c:306 | two sessions at the position limit: both single pushes are refused, the batch goes through |
| Front.PushSteady | src/dac/stream.c:105-122 | a push into an idle stream between calls is accepted, goes out exactly at the target and leaves the stream between calls: the sufficient case of PushExactly |
| Front.PushExactly | src/dac/stream.c:105-122 | whatever is in flight: a stream below its target is below it after a push if and only if its frame did not fill the batch or the engine took the flush |
| Front.InFlightFills | src/dac/stream.c:105-122 | a batch that fills while a push is in flight is refused, kept whole, and leaves the stream at its target |
| Front.SentSound | src/dac/stream.c:105-122 | a flush keeps every frame in order and accounts for its size |
| Front.SteadyLeft | src/dac/stream.c:114-121 | how many frames a stream has gathered depends on how many were pushed and on the batch size alone |
| Front.FinishDone | src/dac/stream.c:351-370 | after a finish that was collected before, everything has been handed out: the whole-buffer decode, 2048 samples a frame |
| Stream.Stream.constructor | src/dac/stream.c:78-92 | a new front end has gathered, pushed and collected nothing |
| Stream.Stream.Flush | src/dac/stream.c:105-122 | the gathered frames reach the engine once and in order, its size is recorded; on failure none is sent or lost |
| Stream.Stream.PushAsync | src/dac/stream.c:105-122 | the stream and the answer after a push, from any state its eight-row buffer allows |
| Stream.Stream.Collect | src/dac/stream.c:178-202 | the samples in flight, 2048 a frame, extend what was handed out |
| Stream.Stream.Finish | src/dac/stream.c:351-370 | the remainder is flushed; what was handed out over the run is exactly the whole-buffer decode of its frames |
| Stream.Stream.Push | src/dac/stream.c:314-349 | push and collect in one |
| Stream.DecodePieces | src/dac/stream_inc.c:300-426 | for every partition into pushes of 1..8 frames the collected samples concatenate to the whole-buffer decode |
| Stream.DecodeStreaming | src/dac/stream.c:105-369 | the front end over a whole run, for every batch size |
| FrontBatch.CutAt64 | src/dac/stream.c:154-165 | the group that is flushed at a size is the first 64 of all streams due at it |
| FrontBatch.BatchKeeps | src/dac/stream.c:135-176 | whatever the answer, no frame is lost or moved and nothing is handed out |
| FrontBatch.RefusedGathers | src/dac/stream.c:138-149 | when refused for a finished stream, the streams before it have gathered and flushed nothing, and each is still below its target if and only if it was at least two frames short of it |
| FrontBatch.ServedStops | src/dac/stream.c:168 | a refused group ends the call; earlier groups stay flushed |
| FrontBatch.TakesExactly | src/dac/stream.c:166-174 | a group is accepted if and only if it is one stream with nothing in flight and room below the position limit, or several with nothing in flight and one codec |
| FrontBatch.ServedIs | src/dac/stream.c:151-174 | for any roster: a stream is flushed exactly when it is among the first 64 due at its size and the groups of that and every smaller size are accepted |
| FrontBatch.SteadyAfter | src/dac/stream.c:135-176 | for any roster and any stream below its target: it is below it after the call if and only if its frame did not fill the batch, or it came behind a finished stream, or it was flushed |
| FrontBatch.AllSteadyExactly | src/dac/stream.c:135-176 | for any roster of streams below their targets: all are below again if and only if no more than 64 complete their batch at any one size and the engine accepts every group |
| FrontBatch.BatchOutcome | src/dac/stream.c:135-176 | any number of idle streams of one codec: one that completes its batch is flushed if it is among the first 64 of its size, every other gathers and keeps its frame |
| FrontBatch.SteadyExactly | src/dac/stream.c:135-176 | the corollary for idle streams of one codec in room: all are below their targets again if and only if no more than 64 complete their batch at any one size |
| FrontBatch.BatchIsEach | src/dac/stream.c:135-176 | for at most 64 idle streams of one codec the batched push is a push to each |
| StreamBatch.Select | src/dac/stream.c:154-165 | the first 64 due streams in roster order, with their packed frames |
| StreamBatch.FlushGroup | src/dac/stream.c:151-174 | one group: flushed and reset, or refused with every stream as it was |
| StreamBatch.AppendAll | src/dac/stream.c:138-149 | the streams before the first finished one gain their frame, the others are untouched |
| StreamBatch.PushStreams | src/dac/stream.c:135-176 | every stream and the answer after a batched push, whatever engine, finished stream or roster length does |
| StreamFull.Overfull | src/dac/stream.c:105-149 | a refused batched push can leave eight frames in a buffer of eight rows, which the next push would overrun |
| StreamFull.RefusedPush | src/dac/stream.c:138-149 | that call: refused, the batch complete, nothing flushed |
| StreamFull.InFlightOverfull | src/dac/stream.c:105-122 | with eight frames in flight the eighth gathered frame is refused and kept, by a single and by a batched push: the buffer is full between calls and no stream is finished |
| StreamFull.TwoCodecsFull | src/dac/stream.c:151-174 | two new streams of different codecs in one roster: refused, each left at its target of one frame |
| StreamRuns.StepBatch | src/dac/stream.c:135-176 | a batched push keeps the whole run's account for named and unnamed streams |
| StreamRuns.Play | src/dac/stream.c:105-370 | any number of streams, any polite sequence of pushes, batched pushes, collects and finishes: a finished stream's samples are the whole-buffer decode of its frames, a collected one's all but those still gathered |
| Gap.LeadMaximal | src/http/http.c:387-397 | the silent prefix length is the unique maximal one |
| Gap.TailMaximal | src/http/http.c:399-409 | the silent suffix length is the unique maximal one |
| Gap.SilLead | src/http/http.c:387-397 | the frame-wise scan returns the exact silent prefix length |
| Gap.SilTail | src/http/http.c:399-409 | the frame-wise scan returns the exact silent suffix length |
| Gap.FeedConcat | src/http/http.c:419-451 | feeding block by block is feeding all of it: independent of block boundaries |
| Gap.FeedLead | src/http/http.c:421-431 | the trim takes min(leading silence, what is left of the budget), then passes all that follows |
| Gap.FeedForward | src/http/http.c:433-443 | a full window forwards its oldest half before more arrives |
| Gap.FeedConserve | src/http/http.c:432-449 | past the trim no sample is lost or moved, and the window length depends on counts only |
| Gap.FeedTake | src/http/http.c:419-451 | between joins, emitted and held samples are the take without min(leading silence, LEAD_MAX) |
| Gap.CloseTake | src/http/http.c:456-473 | a join drops exactly the silence that ends the held window and adds exactly the gap |
| Gap.BaseIs | src/http/http.c:456-473 | the filter at the start of chunk k holds nothing and has emitted the join of the takes before |
| Gap.JoinIs | src/http/http.c:541-562 | the flushed output is the join of the takes, whatever the blocks were |
| Gap.SoFar | src/http/http.c:419-473 | mid-response, emitted and held audio is the join so far and the trimmed part of the current take |
| JoinMeaning.LeadIs | src/http/http.c:387-396 | silence is every sample within 400 of zero: the silent beginning is all of it up to the first louder one |
| JoinMeaning.TailIs | src/http/http.c:398-408 | and the silent end all of it behind the last louder one |
| JoinMeaning.HeldIs | src/http/http.c:434-442 | of up to 132300 kept samples all are held back; of more, between 66150 and 132300, and what went out is a multiple of 66150 |
| JoinMeaning.PieceIs | src/http/http.c:419-480 | a take of silence, sound, silence: the first keeps its beginning, a later one loses up to 88200 samples of it; followed by another in a buffered response it loses its silent end, as far as that is still held |
| JoinMeaning.TwoTakes | src/http/http.c:453-480 | two takes: the first piece, the gap, the second; without the filter, their concatenation |
| JoinMeaning.OneTakeMore | src/http/http.c:543-553 | one take more adds one gap and one piece and changes nothing before |
| GapFilter.Filter.constructor | src/http/http.c:1028-1035 | the filter is on exactly for a positive gap with a window buffer; the gap is gap_ms*44100/1000 samples |
| GapFilter.Filter.Forward | src/http/http.c:435-443 | the oldest half leaves, the newest half moves to the front |
| GapFilter.Filter.Trim | src/http/http.c:421-431 | what is left of a block behaves as the whole block |
| GapFilter.Filter.Fill | src/http/http.c:433-449 | the window loop takes the automaton exactly where feeding the block takes it |
| GapFilter.Filter.Feed | src/http/http.c:419-451 | one block equals feeding its samples; a failed send emits a prefix of that |
| GapFilter.Filter.Close | src/http/http.c:458-462 | the window leaves without its silent end |
| GapFilter.Filter.EmitGap | src/http/http.c:463-469 | exactly gap zeros, in blocks of at most 4410 |
| GapFilter.Filter.Boundary | src/http/http.c:456-473 | the join, as the automaton takes it |
| GapFilter.Filter.Flush | src/http/http.c:543-549 | the held tail leaves untrimmed at the end |
| Chain.InitInv | src/http/http.c:1009-1035 | a fresh request satisfies the chain invariant |
| Chain.SubmitKeeps | src/http/http.c:622-661 | as meant: a submission, whatever the answer, keeps the invariant or ends the run |
| Chain.AbsorbKeeps | src/http/http.c:595-601 | accepting audio keeps the invariant |
| Chain.RegenerateKeeps | src/http/http.c:566-576 | a regeneration keeps the invariant |
| Chain.EmptyIsSilent | src/http/http.c:603-611 | an empty take on the wire has put nothing there |
| Chain.HandOverKeeps | src/http/http.c:541-562 | passing the wire on flushes the next chunk's buffer and keeps the invariant |
| Chain.AdvanceKeeps | src/http/http.c:541-562 | the hand-over loop stops at the first chunk that is not done, or closes the response |
| Chain.AudioKeeps | src/http/http.c:579-617 | every callback keeps the invariant: order, buffers, caps, sessions and what is on the wire |
| ChainRuns.RunKeeps | src/http/http.c:579-690 | as meant: the invariant holds after every interleaving of submissions and callbacks and every cut of the audio |
| ChainRuns.AsWrittenExactly | src/http/http.c:649-659 | the code's step keeps the invariant, and equals the step as meant, if and only if a regeneration is accepted and is the newest submitted chunk |
| ChainRuns.AsWrittenRunKeeps | src/http/http.c:622-690 | the code keeps the invariant over every run of such steps |
| ChainRuns.AsWrittenRunExactly | src/http/http.c:622-690 | a run of the code that no refused submit ends keeps the invariant in every state if and only if it is benign |
| ChainRuns.Accounting | src/http/http.c:663-690 | a submitted chunk is done, armed, or in exactly one session; in_flight counts sessions; in_flight and armed chunks together never exceed parallel |
| ChainRuns.FinishedIsJoin | src/http/http.c:541-562 | as meant: a finished response is the join of the accepted takes; what these are is TakesAre and FinishedIsTakes |
| ChainRuns.WireSoFar | src/http/http.c:541-617 | mid-run, emitted and held is the join of the accepted takes so far; over the events it is WireIsTakes |
| ChainRuns.EmittedStays | src/http/http.c:541-617 | no event, in either mode, takes back emitted audio |
| ChainTakes.TakesAre | src/http/http.c:579-617 | in every state of every run of either mode, sound or not: the accepted take of a chunk is the concatenation of the blocks delivered for it since its last regeneration, cut to its cap |
| ChainTakes.OverranExactly | src/http/http.c:584-601 | a block overruns if and only if more has then been delivered than the cap |
| ChainTakes.DropsExactly | src/http/http.c:586-613 | an attempt is dropped if and only if regenerations are left and it overran while waiting for the wire, or ended under 13230 samples with a text of 12 bytes or more and nothing of it on the wire |
| ChainTakes.TakesSince | src/http/http.c:579-690 | in a sound chain the takes are told from the event list alone: the blocks since a chunk was last submitted, cut to its cap |
| ChainTakes.FinishedIsTakes | src/http/http.c:543-617 | as meant: a finished response is the join of what the events delivered for every chunk since its last submission, in order, cut to its cap |
| ChainTakes.WireIsTakes | src/http/http.c:543-617 | mid-run: emitted and held is the join of those takes before the chunk on the wire and the trimmed part of its own |
| ChainTakes.BenignIsTakes | src/http/http.c:543-617 | a finished response of a benign run of the code is that join |
| ChainRuns.RegenerationIsSilent | src/http/http.c:566-576 | a regeneration changes nothing on the wire and on the wire's own chunk drops nothing |
| ChainRuns.CallbackCost | src/http/http.c:579-617 | a callback that brings audio or ends a session lowers the measure over undone chunks, retries and room below the caps |
| ChainRuns.RegenerateCost | src/http/http.c:566-576 | so does a regeneration |
| ChainRuns.CallbackSlot | src/http/http.c:579-617 | what a callback leaves of any slot's cap, retries and arming |
| ChainRuns.FrontierAdvances | src/http/http.c:656 | as meant, the submission frontier never moves back over any run |
| ChainRuns.RunsAreBounded | src/http/http.c:541-690 | as meant: with the guard on every run makes boundedly many progress steps |
| ChainRuns.StuckExactly | src/http/http.c:672-690 | an unfinished sound chain can take no step if and only if chunk 0 is done without audio in a parallel chain |
| ChainRuns.MaximalRun | src/http/http.c:541-690 | as meant: a run that cannot go on has finished with the join, was refused, or is that stall |
| ChainRuns.RequestEnds | src/http/http.c:1009-1035 | as meant: a guarded request from its first state: bounded progress, and only those ends; the stall needs parallel > 1 |
| ChainRuns.GuardCap | src/http/http.c:154-165 | a chunk's cap is at least eight seconds |
| JoinMeaning.GuardIs | src/http/http.c:92-105 | the cap of a guarded chunk: twice its text at 15 bytes a second and 3 seconds more, at least 8 seconds, at 44100 samples a second; two regenerations; no cap without the guard |
| ChainRuns.SpentIsStarts | src/http/http.c:566-576 | as meant: sessions started for a chunk are one and its regenerations |
| ChainRuns.AttemptsBounded | src/http/http.c:566-576 | as meant: no chunk gets more than 1 + retries sessions |
| ChainWritten.BenignIsMeant | src/http/http.c:622-690 | a benign run of the code is a run of the step as meant, with the same end |
| ChainWritten.BenignRequestEnds | src/http/http.c:1009-1035 | a benign run of the code makes bounded progress, starts at most one session more than its regenerations for every chunk, and rests only complete, refused or stalled |
| ChainWritten.SerialRunsAreBenign | src/http/http.c:672-690 | one chunk at a time, every run of the code without a refused regeneration is benign |
| ChainBenign.BadRun | src/http/http.c:622-690 | a run of the code that is not benign arms a chunk that can be regenerated; if none of its regenerations is refused, one that a later chunk can overtake |
| ChainBenign.RefusalPossible | src/http/http.c:650-678 | a request has a run of the code that is not benign if and only if one of its chunks can be regenerated: it may come back empty, or overrun its cap while another chunk has the wire |
| ChainBenign.OvertakingPossible | src/http/http.c:656 | it has one in which no regeneration is refused if and only if one of its chunks can be regenerated after a later one was submitted |
| ChainWritten.FrontierMovesBack | src/http/http.c:656 | a concrete interleaving of the steps as written in which one chunk has two live sessions |
| ChainWritten.FinishesTooSoon | src/http/http.c:543-562 | a concrete run of the code that closes the response while a session of a chunk is still alive |
| ChainWritten.RefusalForgotten | src/http/http.c:650-678 | a concrete interleaving of the steps as written in which a submitted, unfinished chunk has neither a session nor an armed retry |
| ChainWritten.StallReached | src/http/http.c:672-690 | every parallel request of two or more chunks has a run that stalls: all takes of chunk 0 may come back empty |
| ChainWritten.StallPossible | src/http/http.c:681-682 | a request can stall if and only if it is parallel and has at least two chunks |
| ChainRest.RunLoose | src/http/http.c:622-690 | what every run of the code keeps, benign or not: session count, caps, the wire at the first chunk that is not done, and before the first audio only chunk 0 under way |
| ChainRest.RestExactly | src/http/http.c:672-690 | every run of the code, neither finished nor refused: nothing can happen any more if and only if no session runs, no regeneration is armed, and either the chunk whose turn it is was lost with the window shut, or chunk 0 of a parallel chain ended unheard |
| ChainRest.SoundIsNotLost | src/http/http.c:672-690 | a sound chain never loses a chunk, so its only rest is the stall |
| ChainRest.ForgottenForEver | src/http/http.c:650-678 | a concrete run of the code whose response is audible, neither finished nor refused, and for which nothing can happen any more |
| ChainRest.RestPossible | src/http/http.c:672-690 | a request can come to rest unfinished if and only if it is parallel with at least two chunks, or one of its chunks can be regenerated |
| Wire.HexRoundTrip | src/http/http.c:326-332 | a hexadecimal size is read back |
| Wire.DecodeChunk | src/http/http.c:326-332 | one non-empty chunk is read back, whatever follows |
| Wire.DecodeBody | src/http/http.c:476-503 | chunks of non-zero size and the terminal chunk decode to exactly what was sent |
| Wire.PrefixFree | src/http/http.c:476-503 | a complete body is never the beginning of another |
| Wire.OpenBody | src/http/http.c:326-332 | a body short of its terminal chunk never looks complete |
| Wire.PcmRoundTrip | src/http/http.c:354-384 | samples are read back from their little-endian bytes |
| Wire.WavHeaderRead | src/core/wav.c:22-44 | a player reads from the 44 bytes: 16-bit mono PCM at 44100 samples a second, a byte rate and a block size that agree with it, the data size, and the size of all that follows, saturated |
| WireText.FileSizes | src/http/http.c:491-496 | a buffered file announces the bytes behind its header, modulo 2^32 |
| WireText.StreamedSizes | src/http/http.c:368-376 | a streamed file announces the largest size of 32 bits |
| HttpHead.DecRoundTrip | src/http/http.c:482-490 | a decimal reader inverts the numbers that are written, which have no leading zero |
| HttpHead.MessageRead | src/http/http.c:334-347 | a receiver that passes over other header lines takes the Content-Length field as the length of the body |
| HttpHead.Short | src/http/http.c:334-347 | no beginning of a message that fills its Content-Length is read as a message |
| Wire.FileRead | src/http/http.c:479-500 | a buffered response is read as exactly its file, with nothing left over |
| Wire.SimpleRead | src/http/http.c:334-347 | a short answer is read as its body |
| WireText.HeadText | src/http/http.c:482-490 | the head of a buffered response, piece by piece |
| WireText.RefusedText | src/http/http.c:1263-1268 | the answer to a refused submit: 503, application/json, 25 bytes |
| WireText.NoRoomText | src/http/http.c:362-366 | the answer when the accumulator cannot grow: 500, application/json, 15 bytes |
| Wire.File | src/http/http.c:476-503 | header and samples have exactly the announced length |
| Wire.Response.constructor | src/http/http.c:166-215 | a new response is open and has emitted nothing |
| Wire.Response.SendAll | src/http/http.c:301-324 | everything is sent, or a strict prefix and the peer is gone |
| Wire.Response.SendChunk | src/http/http.c:326-332 | a chunk goes out whole, or a strict prefix of it does and the peer is gone |
| Wire.Response.StreamHeader | src/http/http.c:375-381 | the 44-byte header goes out once, before any audio |
| Wire.Response.Accumulate | src/http/http.c:355-374 | the samples are appended, or there is no room and the peer has as much of the 500 answer as it took |
| Wire.Response.Emit | src/http/http.c:354-384 | audio is appended to what the peer holds, or the response is cut for good and looks incomplete |
| Wire.Response.Finish | src/http/http.c:476-503 | the peer decodes the optional header once and exactly the emitted audio, or can tell the body is cut |
| Wire.Response.FinishBuffered | src/http/http.c:476-496 | a receiver that finds Content-Length in the head and takes that many bytes has exactly the file, header and samples, and nothing is left; one of a response cut short has no message |
| Wire.Response.GiveUp | src/http/http.c:1258-1271 | after a refused submit a streamed body is closed with the terminal chunk, so a truncated answer decodes as complete; a buffered one is read as the 503 body; cut short, neither is read as anything |
| ChainConn.InvBasic | src/http/http.c:541-690 | the chain invariant implies the accounting every run of the code keeps |
| ChainConn.StepBasic | src/http/http.c:541-690 | in_flight counts live sessions and caps hold on every run of the code, benign or not |
| ChainConn.CallbackSound | src/http/http.c:579-617 | a sound chain is still sound after any callback of the code, and if it finished, the wire holds the join |
| ChainConn.StillHeard | src/http/http.c:579-617 | a callback adds its block to what its chunk was delivered, or drops all of it, and every accepted take remains that, cut to its cap |
| ChainConn.CallbackJoin | src/http/http.c:579-617 | so a sound callback that finishes the response leaves the join of what was delivered |
| ChainConn.Connection.constructor | src/http/http.c:1009-1035 | a new connection is the initial state of the transition system |
| ChainConn.Connection.ChainAdvance | src/http/http.c:541-562 | the hand-over loop is the specification's, and a response it closes is delivered |
| ChainConn.Connection.ChunkRegenerate | src/http/http.c:566-576 | the attempt is dropped and armed again |
| ChainConn.Connection.Deliver | src/http/http.c:595-601 | audio goes to the wire or to the chunk's own buffer |
| ChainConn.Connection.Conclude | src/http/http.c:602-617 | an empty take is generated again, any other completes its chunk |
| ChainConn.Connection.Receive | src/http/http.c:579-617 | the fields after one callback are those of the transition, and it asks to cancel exactly when the block overran; what the transition keeps of the block is TakesAre |
| ChainConn.Connection.TtsChunkCb | src/http/http.c:579-617 | one callback is exactly one audio step; every accepted take stays what was delivered for its chunk since its last regeneration, cut to its cap; a sound chain stays sound, and the response that closes is delivered and holds the join of those takes |
| ChainConn.Connection.SubmitChunk | src/http/http.c:622-661 | a submission is exactly one step as written |
| ChainConn.Connection.ChainSubmitReady | src/http/http.c:672-690 | the pass is a run of enabled submissions, regenerations first; it stops only when refused or when nothing is left to submit, and a benign pass keeps the chain sound |
| ChainConn.Connection.SubmitRetries | src/http/http.c:673-680 | all armed chunks are resubmitted unless refused |
| ChainConn.Connection.SubmitWindow | src/http/http.c:681-689 | new chunks start while the window is open |
| JsonGrammar.Utf8RoundTrip | src/core/json.c:194-212 | the decoder of section 3 of RFC 3629 inverts the encoder for every scalar value |
| JsonGrammar.PairValue | src/core/json.c:282-288 | a surrogate pair denotes the code point from 0x10000 up whose UTF-16 pair it is |
| JsonText.PairInverts | src/core/json.c:281-289 | the UTF-16 pair of every code point from 0x10000 to 0x10FFFF is read as that code point |
| JsonText.HexDigits | src/core/json.c:178-192 | the sixteen digits in either case, and nothing else |
| JsonText.FourRead | src/core/json.c:178-192 | four hexadecimal digits are read as the 16-bit number written in them |
| JsonText.Escapes | src/core/json.c:262-274 | the eight two-character escapes and what each stands for |
| JsonText.Alphabet | src/core/json.c:392-470 | structure characters and the three literals as text |
| JsonText.UnitRead | src/core/json.c:275-293 | the text of one escaped unit that is no surrogate parses to the UTF-8 bytes of that code point |
| JsonText.SurrogatesRead | src/core/json.c:281-289 | the text of the two escapes of any code point from 0x10000 up parses to its UTF-8 bytes |
| JsonText.KnownPair | src/core/json.c:281-289 | for one, an escaped D83D DE00 parses to F0 9F 98 80 |
| JsonMachine.Parser.SkipWhite | src/core/json.c:167-174 | whitespace is skipped, all of it and nothing else |
| JsonScan.ScanInteger | src/core/json.c:321-331 | the overflow flag is raised exactly when the digits pass 64 bits; otherwise the magnitude is exact, with no wrap |
| JsonScan.ParseNumber | src/core/json.c:312-373 | the token is read whole; an integer within int64 is exact, everything else keeps its token |
| JsonScan.FindQuote | src/core/json.c:225-241 | the first pass finds the closing quote, or none, and whether an escape was seen |
| JsonScan.ReadHex4 | src/core/json.c:178-192 | four digits give the sixteen-bit value, anything else fails |
| JsonScan.Utf8Put | src/core/json.c:194-212 | exactly the UTF-8 bytes of the code point are appended |
| JsonScan.ReadCodePoint | src/core/json.c:277-294 | one escape or a pair of surrogates; lone surrogates fail |
| JsonScan.QuotePastUnicode | src/core/json.c:225-298 | the closing quote the first pass found is still the right one past an escape |
| JsonScan.DecodeOne | src/core/json.c:260-298 | one character of the second pass, within the buffer |
| JsonScan.DecodeEscapes | src/core/json.c:256-304 | a buffer one byte longer than the raw text always suffices, and the result is the decoded string |
| JsonScan.ParseString | src/core/json.c:216-305 | a literal's bytes and where it ends, or failure |
| JsonSound.StringComplete | src/core/json.c:216-305 | every grammatical string is read back as the bytes it denotes |
| JsonSound.StringLitSound | src/core/json.c:216-305 | whatever string is read was grammatical |
| JsonSound.NumberComplete | src/core/json.c:312-373 | every grammatical number is read whole |
| JsonSound.NumberSound | src/core/json.c:312-373 | whatever number is read was grammatical |
| JsonAccept.ValueComplete | src/core/json.c:403-463 | a printed value at any depth below the cap is read back, whatever follows it |
| JsonAccept.ElemsComplete | src/core/json.c:403-549 | printed elements are read back in order |
| JsonAccept.MembersComplete | src/core/json.c:467-549 | printed members are read back in order |
| JsonAccept.ValueSound | src/core/json.c:403-463 | whatever value is read is the print of a grammatical one denoting it |
| JsonAccept.ElemsSound | src/core/json.c:403-549 | the same for elements |
| JsonAccept.MembersSound | src/core/json.c:467-549 | the same for members |
| JsonAccept.DocComplete | src/core/json.c:377-571 | parsing any printed text, with any whitespace and an optional byte order mark, returns its value |
| JsonAccept.DocSound | src/core/json.c:377-571 | an accepted text is grammatical and denotes the result |
| JsonAccept.AcceptsExactly | src/core/json.c:377-571 | a text has a result if and only if it is grammatical and denotes that result |
| JsonText.WrittenIsRead | src/core/json.c:200-470 | a writer with its own numerals, escapes and punctuation: what it writes for any value within the caps is accepted and denotes that value |
| JsonText.AcceptedIsWithin | src/core/json.c:137-148 | no accepted text denotes more than 2^20 containers within each other, 2^31 - 1 items in one, a string of 2^32 bytes or an integer beyond 64 bits, and no 64-bit integer is left as text |
| JsonMachine.HaveUnfold | src/core/json.c:530-549 | a completed value inside a container continues that container's reading |
| JsonMachine.ElemDue | src/core/json.c:403-463 | a value due inside an array continues its reading |
| JsonMachine.MemberDue | src/core/json.c:467-486 | a key read inside an object continues its reading |
| JsonMachine.PushOpens | src/core/json.c:140-155 | opening a container hides the stacks below it |
| JsonMachine.Parser.constructor | src/core/json.c:377-401 | the machine starts due for the whole text's value, past a byte order mark |
| JsonMachine.Parser.Open | src/core/json.c:407-421 | an opening bracket, and the depth cap |
| JsonMachine.Parser.StepValue | src/core/json.c:403-463 | one turn at a value keeps the text's answer |
| JsonMachine.Parser.StepKey | src/core/json.c:467-486 | one turn at a key keeps the text's answer |
| JsonMachine.Parser.StepClose | src/core/json.c:488-528 | a container's items leave the stacks and it takes their place; the key and value counts never differ |
| JsonMachine.Parser.StepHave | src/core/json.c:530-549 | one turn after a value keeps the text's answer |
| JsonMachine.Parser.StepDone | src/core/json.c:551-564 | only whitespace may follow; the value stack always holds the root alone |
| JsonMachine.Parser.Parse | src/core/json.c:377-571 | the machine ends with exactly the recursive reading's answer, never with an internal error |
| JsonMachine.ParseText | src/core/json.c:377-571 | the parser accepts exactly the grammar's texts and returns the value each denotes |
| RefStream.MergedLength | src/dac/stream.c:261-311 | w merged windows have 2048 samples a frame less one crossfade for each after the first |
| RefStream.CompleteLength | src/dac/stream.c:371-383 | so has the finished run |
| RefStream.MergedLocal | src/dac/stream.c:216-312 | earlier windows do not depend on later frames |
| RefStream.InOneWindow | src/dac/stream.c:232-259 | every frame is in the new part of exactly one window |
| RefFade.CrossIs | src/dac/stream.c:264-275 | any two signals: ahead of the overlap the old one, behind it the new one, within it sample i stands i/(n-1) of the way from old to new, so it begins at the old and ends at the new |
| RefFade.ChainJoined | src/dac/stream.c:264-275 | a chain of such fades is its parts, each at its place 512 samples before the end of the one before, whole except in the two overlaps |
| RefStream.MergedIsChain | src/dac/stream.c:204-300 | what the windows merge to is the chain of their parts, frames decoded with up to 20 before them |
| RefStream.PartStarts | src/dac/stream.c:204-300 | part j begins at sample 2048 (90 j - 80) - 512 j, part 0 at 0 |
| RefStream.CompleteIsRun | src/dac/stream.c:204-300 | a complete run is its parts at their places, joined by these fades |
| RefStream.Crossfade | src/dac/stream.c:261-275 | in place, the held tail faded into the new part; what that fade is, is CrossIs |
| RefStream.CrossHeld | src/dac/stream.c:261-296 | fading over the held tail is fading over the whole stream it ends |
| RefStream.RefStream.TrimCodes | src/dac/stream.c:204-212 | the newest frames stay, at their absolute positions |
| RefStream.RefStream.Window | src/dac/stream.c:232-259 | the decoded window is the retained frames and its new part 2048 samples a new frame |
| RefStream.RefStream.Merge | src/dac/stream.c:216-282 | emitted audio and the merged window are the merge of one window more |
| RefStream.RefStream.BuildChunk | src/dac/stream.c:216-312 | a regular window emits all but the new tail and keeps at most 20 frames |
| RefStream.RefStream.Push | src/dac/stream.c:314-349 | a frame is appended, a due window emitted, at most 110 frames retained |
| RefStream.RefStream.Drain | src/dac/stream.c:371-383 | the last window or the held tail completes the run |
| RefStream.RefStream.Finish | src/dac/stream.c:351-383 | everything emitted over the run is its windows' parts at their places, joined by linear fades from old to new; 2048 samples a frame less 512 for every join; a second finish is refused |
| HashIndex.EmptyAhead | src/core/safetensors.c:288-309 | capacity beyond the entries leaves an empty cell on every probe path |
| HashIndex.Absent | src/core/safetensors.c:423-437 | an empty cell ends the probe only for names that are not there |
| HashIndex.Place | src/core/safetensors.c:296-306 | filling the empty cell keeps every entry reachable |
| HashIndex.Probe | src/core/safetensors.c:423-437 | every probe ends at the name or at an empty cell |
| HashIndex.Index.Build | src/core/safetensors.c:288-309 | building succeeds if and only if no two names are equal, for every hash function |
| HashIndex.Index.Find | src/core/safetensors.c:423-437 | the index answers as the linear scan does |
| HashIndex.ScanUnique | src/core/safetensors.c:423-437 | among distinct names the scan finds the one entry |
| Sha256.Transform | src/core/sha256.c:22-67 | the working-variable loop is the compression of section 6.2.2 of FIPS 180-4 |
| Sha256.Expand | src/core/sha256.c:41-49 | the message schedule |
| Sha256.OneRound | src/core/sha256.c:53-62 | one turn of the round loop is one round of the standard |
| Sha256.HashSnoc | src/core/sha256.c:79-94 | hashing one block more is one compression more |
| Sha256.Context.constructor | src/core/sha256.c:69-77 | the initial state, nothing hashed |
| Sha256.Context.Update | src/core/sha256.c:79-94 | however a message is split, state and partial block are those of the message so far |
| Sha256.Context.Final | src/core/sha256.c:96-110 | in both padding cases the output is the digest of the message |
| Sha256.PadShort | src/core/sha256.c:96-110 | end mark and length behind at most 55 bytes are the padding of section 5.1.1 |
| Sha256.PadLong | src/core/sha256.c:96-110 | behind 56 to 63 bytes they take one block more |
| Sha256.HashPieces | src/core/sha256.c:69-110 | a message hashed in any pieces has its one-shot digest |
| Sha256Known.KnownDigest | src/core/sha256.c:20-76 | the digest of the three bytes abc is the one of FIPS 180-4, through all 64 rounds, constants and functions |
| QCache.HeaderReadBack | src/sched/qcache.c:115-173 | an entry header is read back if and only if its name has 1 to 512 bytes |
| QCacheLayout.PrefixLayout | src/sched/qcache.c:352-356 | magic, fingerprint, count and reserve stand at bytes 0, 8, 16 and 20, little-endian |
| QCacheLayout.HeaderLayout | src/sched/qcache.c:357-371 | every field of an entry header at its own offset, and the name behind byte 56 |
| QCacheLayout.NextBoundary | src/sched/qcache.c:313-316 | a payload begins at the next multiple of 256 |
| QCacheLayout.Storage | src/sched/qcache.c:284-306 | how many bytes weights and scales take, and which kind is recorded for which |
| QCacheLayout.UsableExactly | src/sched/qcache.c:130-160 | a written file is usable if and only if it has 1 to 512 entries, all under names of 1 to 512 bytes |
| QCache.FileReadBack | src/sched/qcache.c:318-400 | a written file is usable if and only if every name has 1 to 512 bytes, and then its table is the one written |
| QCache.StaleIsMiss | src/sched/qcache.c:115-173 | another fingerprint is a miss |
| QCache.PayloadsApart | src/sched/qcache.c:329-340 | payload offsets are 256-aligned, in order and pairwise disjoint |
| QCache.PayloadAt | src/sched/qcache.c:372-390 | from any file position on, an entry's bytes stand at its offsets |
| QCache.FilePayload | src/sched/qcache.c:318-400 | in the file, each payload stands at its offset behind the headers |
| QCache.ReadTable | src/sched/qcache.c:115-173 | the cursor reader computes the table of the file, or a miss |
| QCache.CopyHeader | src/sched/qcache.c:140-168 | one table entry at the cursor, accepted exactly when well-formed |
| CacheStore.LoadedIsPut | src/sched/qcache.c:210-276 | loading by name gives back the linear that was put: bytes, group and packing, for all three kinds |
| CacheStore.NoFaultExactly | src/sched/qcache.c:210-276 | no load of an accepted file faults if and only if every entry that can be found first has a non-zero group where it is divided by, and no offset sum that wraps |
| CacheStore.PlainTableIsSafe | src/sched/qcache.c:210-276 | a table whose groups and sums a reader could check beforehand never faults |
| CacheStore.ZeroGroupFaults | src/sched/qcache.c:234-248 | an accepted file of one entry whose load divides by zero |
| CacheStore.WrappedOffsetFaults | src/sched/qcache.c:163-167 | an accepted file of one entry whose load reads outside the file |
| CacheStore.Cache.Load | src/sched/qcache.c:210-276 | a load by name is a miss, a linear or a fault, as the code does it |
| CacheStore.Cache.constructor | src/sched/qcache.c:175-200 | a cache in write mode holds nothing |
| CacheStore.Cache.PutLinear | src/sched/qcache.c:278-312 | a ready linear with data is appended while writing; any other, and any past the 512th, is silently skipped |
| CacheStore.Cache.Assign | src/sched/qcache.c:329-340 | the offset loop gives the layout |
| CacheStore.Cache.WritePayloads | src/sched/qcache.c:372-390 | the payload loop writes each entry at its offset with zero padding between |
| CacheStore.Cache.Finish | src/sched/qcache.c:318-400 | the file on disk becomes the file of the entries exactly when there are any and the temporary file was created, written and renamed; otherwise it is as it was |

## Left out

- Floating point: signals are integers, kernels exact; rounding, f16 and bf16 conversion and the summation order inside a kernel are not modelled.
- Kernel bodies, cuBLAS and FP8 paths: convolutions and attention are contracts, the rest arbitrary functions of a column or row.
- Channels-first and channels-last layouts: a signal is a list of columns, so the transposes are copies here.
- Scratch.WriteRead: a region holds one buffer; what a shorter buffer leaves behind its end reads as nothing, which no proof relies on.
- Incremental.Inc.RunStages: the single push keeps its buffers as distinct values; sharing of `bext` and its back is shown for the batched push, which runs the same operations.
- Codec.DecodeLength: the number of transformer layers is arbitrary; the engine allocates tails for eight.
- CUDA errors and allocation failure, except a window buffer that cannot be had and an accumulator that cannot grow.
- Asynchrony of device copies: a copy takes effect when it is enqueued.
- BatchWalk.Walk.Launch: the blocks of a batched kernel run in roster order.
- BatchWalk.Walk.LoadCodes: the staging buffer of the codes is local to a session's turn.
- Batch.PushBatch: the samples and histories of a session named twice are not described; positions are unbounded, so a wrapped cast of a position past 2^31 is not modelled.
- StreamBatch.PushStreams: a roster names no stream twice, which the code does not check.
- StreamRuns.Play: the number of events stays below the engine's position limit.
- Stream.DecodeStreaming: the total stays below the engine's position limit.
- Incremental.Inc.PushAsync: a null pointer is not modelled.
- ChainRuns.RequestEnds: fairness is left to the reader of the two statements, bounded progress and no other resting state; infinite runs are not objects of the model, and refusals and empty callbacks are not counted as progress.
- ChainRuns.GuardCap: computed over reals; the rounding of the double product is not modelled.
- ChainRuns.AsWrittenRunExactly: the condition is on each step of the run, and one bad step need not show in what the client receives.
- ChainConn.Connection.TtsChunkCb: callbacks that come after the response has been closed by a failed send are not modelled.
- ChainConn.Connection.ChainSubmitReady: the submit pass and each callback are atomic; the scheduler lock and the order of its atomics are not modelled.
- Wire.Response.SendAll: a peer takes a fixed number of bytes more and is then gone; a slow client that recovers, poll and time budgets are not modelled.
- Wire.Response.FinishBuffered: samples are 16-bit by their encoding only, and the size field of a file of 2^32 bytes or more wraps.
- The single-request callback, request routing, header and option parsing, authentication, the wav reader, base64 and voice storage.
- The scheduler, text chunker, tokenizer and both autoregressive models; takes are whatever their callbacks deliver.
- Seeds of regenerated attempts: the attempt number is counted, the seed is not computed.
- JsonScan.ParseNumber: the floating value of a token that is no int64 is not computed; the token itself is kept.
- JsonMachine.ParseText: all parse errors are one status; messages and byte offsets, stack growth and the arena are not modelled.
- Sha256.Context.Update: the byte count is unbounded and is reduced to 64 bits of length when it is written out.
- HashIndex.Index.Build: the masked slot is a remainder by the capacity; doubling the capacity past 2^32 is not modelled.
- CacheStore.Cache.Load: the file's size stays below 2^64; the fingerprint is a parameter, device allocation succeeds, and device uploads are the bytes themselves.
- RefStream.RefStream.Push: samples are reals and the decoder is any function giving 2048 samples a frame.
- The encode path, weight loading, configuration, status pages and the Python tools.
