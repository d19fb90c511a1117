# Resource and history bookkeeping of the inference engine

This project models, in Dafny 4.11, the parts of the engine that keep resources and
token histories exact across rollback, sharing, replay and sharding, and proves what
they promise. `dafny verify dfyconfig.toml` checks all of it.

- `DeviceHeap`, `HeapLaws`, `HeapSignature`: the device heap, a sorted and coalesced free list
  with aligned allocation from either end, exact claims, atomic drains and a layout signature.
  Operations are specified by the set of free bytes; since a canonical list is determined
  by that set, determinism, undo, drain order and relocation follow. `HeapSignature` says
  what a signature tells of the run behind it.
- `TokenChunks`, `PagePool`, `PageLaws`, `PageGrowth`, `PageStock`, `PageTally`,
  `PagedSequence`, `PageRuns`, `PageOrder`: sequences of reference-counted pages. `PagedSequence` has the
  classes and loops, each proved against a function on the whole cache (`PagePool`); the
  laws of these functions, and of whole runs of them, are in the other files.
- `SequenceRows`, `GreedyStream`, `DecodeRuns`, `MtpDecode`, `PrefillBudget`,
  `ChunkedPrefill`, `PageShortage`: a batch of sequences seen as rows (history, reserved
  length, pending target), plain and speculative decoding over it, and chunked prefill. The
  target model is an arbitrary function from a token history to a token, and the drafts are
  arbitrary.
- `CsfCodec`, `CsfShards`, `CsfFormat`, `CsfLaws`: the compressed scale planes, their
  expansion, slicing, fusion and sharding, byte for byte. `CsfFormat` describes the planes as
  they are written and proves that exactly this is read.
- `CaptureManager`: when a computation runs eagerly, is captured as a graph, or is
  replayed, with length dependence learned on the way.
- `StreamPool`: the 63 stream ids between free lists, running streams, live handles and
  joined lists.
- `IncrementalText`, `ByteLevelText`, `OutputParser`: text deltas from a growing token
  history, and the parser that labels them, which reads every token stream as a document of
  text, reasoning and tool calls.
- `CapacityBounds`, `ExecutionPlan`: metadata buffers and their slots, length buckets and
  gather sizes, and a plan as a whole.
- `Bits`, `Wrappers`: single bits of a number, and the optional value.

Code that changes objects is modelled as classes whose methods name what they modify.
A thrown error is a result value (`Outcome`, `Result`, a status, or `false`), never a
precondition, unless "Left out" says so. Products and quotients by the page size are
defined by recursion and tied to `*`, `/` and `%` in `TokenChunks.PageArithmetic`.

## Reading the decoding results

A row *stands* at tokens `done` (`DecodeRuns.Stands`) when its history followed by its
target is its start history, its start target and `done`, and `done` is what greedy
decoding yields there. `MtpGenerator.Flying(rows, n)` says that the committed rows stand
at all tokens committed so far and have n positions reserved behind them. A start is
`Start`, a step is `Next`, `Close` is the `finally` block; `Steps` and `Run` string them
together for any list of drafts.

`MtpGenerator.Capable` is the condition a caller can check before a step: the workspace
takes depth + 1 inputs per row, and the pages attached to the rows and the free pages
together are enough for the rows grown by that much.

A startup and a prefill chunk first cut rows back, and a cut inside a shared page needs a
free page for its copy. `PageTally` tells from the cache before the first cut how all of
them fare: `HoldersLeft` is who still holds a page when a row's turn comes, `FreeAfter` the
number of pages free then, `CutsFit` says that no cut runs out. `CutPlannable` adds that the
pages for the inputs are there after the cuts. `Ample` and `Ready` are simple sufficient
conditions for a whole run and a whole prefill: the pages for all positions, and one free
page for each page that a cut gives up while other sequences hold it (`Dues`).

## Where the code does less than it promises

Each of these is part of the model as the code has it, with the exact condition proved.

- A failing startup of speculative decoding is not undone. The rewind runs before the
  `try` block, and a failing replay plan leaves the rows one token short with their
  published targets lost. It fails iff the batch is ready and `CanReplay` does not hold of
  the state before (`MtpGenerator.Start`); `PageShortage.CopyMissing` and `RoomMissing` are
  two such states.
- When a submission fails, the step verified just before has been committed to the
  sequences but is never yielded: iff `Prospect` does not hold for the counts that the
  model, the rows and the drafts determine (`MtpGenerator.Next`, `PageShortage.StepNotYielded`).
- A failing plan of a prefill chunk leaves the overlap rewinds in place: iff the chunk was
  selected and `CutPlannable` does not hold of the state before (`ChunkedPrefill.PrefillChunk`,
  with `PageShortage.RoomMissing` as an instance).
- A chunk size of 1 is refused exactly when some row has tokens and every such row needs
  its overlap (`SelectPrefillChunk`); from 2 on the selection never refuses.
- Draining several heaps leaves the same regions in any order, but the layout base, hence
  the signature, is that of the first non-empty source when the destination had none
  (`DrainsCommute`).
- Relocated heaps agree only while arguments are valid at both bases
  (`RelocationEquivariance`), and never for all runs when the bases differ by something
  other than a multiple of 256 (`MisalignedBaseDiverges`).
- Scale positions of 2^24 and more are or-ed into the value byte instead of being refused,
  in padded slices and in fusions. A slice or a fusion is then accepted iff its words happen
  to be sorted (`SliceIsGood`, `FusableExact`), and decodes to what it should iff the
  displaced replacements do no harm (`SliceCommutes`, `FusionExact`); `SliceWraps`,
  `SlabWraps` and `FusionWraps` are accepted and wrong.
- A plan slot keeps the capacity of the first cache planned on it, so a larger cache can
  outgrow it within all limits (`PlansFit`, `LargerCacheOutgrows`, `Workspace.PlanOn`). The
  pages are reserved before that shows, so a plan has a third exit, with the rows grown: iff
  their metadata exceed what the slot was made for (`ExecutionPlan.PlanPrefill`,
  `PlanDecode`). A startup, a submission, a chunk or a decode step can end there too. It cannot
  happen while batches are within their limit and slots serve the cache, as they do
  when no smaller cache was planned first (`OwnSlotServes`); the conditions above are for
  such slots.
- Copying a sequence shares the pages its allocated length fills, reported or not. Only full
  pages are shared iff the reported tokens cover them (`ShareExact`); otherwise the next
  token of the donor is read by the copy too (`UncoveredShareLeaks`).
- A key whose capturing run throws never gets a graph until a disposal
  (`Manager.CapturedInFourthRun`).
- The padded length is wrong above 2^30, where `1 << 31` is negative and larger shifts
  wrap around (`BucketCovers`).
- The cap on the gather size is sound exactly when the world size divides the positions of
  a full cache (`GatherCovers`); the context-parallel cache guarantees this by making its
  page a multiple of the world size.

## Model

| member | source | states |
|---|---|---|
| `DeviceHeap.Heap.Manage` | src/heap.ts:16-52 | Adds exactly the bytes of the range to the free set and keeps the list sorted, positive and strictly separated; throws and changes nothing iff an argument is invalid or a byte is already free; the first range fixes the layout base. |
| `DeviceHeap.Heap.TryAlloc` | src/heap.ts:60-104 | Fails iff no 256-aligned fully free range of that size exists; otherwise returns the lowest such address short-term and the highest long-term, with `size <= length < size + 256`, and removes exactly that range. The new layout end, count and hash are those of the request. |
| `DeviceHeap.Heap.Claim` | src/heap.ts:106-132 | Succeeds iff every byte of the range is free, and then removes exactly those bytes; otherwise nothing changes. |
| `DeviceHeap.Heap.Contains` | src/heap.ts:134-138 | True iff every byte of the range is free, although the code looks for a single region. |
| `DeviceHeap.Heap.DrainTo` | src/heap.ts:163-196 | Moves all regions over iff the two heaps share no free byte: the destination then has the union, in canonical form, and the source is empty; otherwise neither heap changes. Draining a heap into itself does nothing. |
| `DeviceHeap.MergeRegions` | src/heap.ts:168-188 | Sorting and merging two canonical lists in any order gives the canonical list of the union, and reports an overlap iff the lists share a byte. |
| `DeviceHeap.CanonicalUnique` | src/heap.ts:39-51 | A sorted, strictly separated list of positive regions is determined by the set of its free bytes. |
| `HeapLaws.ManageUndoesTake` | src/heap.ts:16-132 | Returning exactly what `tryAlloc` or `claim` handed out never fails and restores the identical region list. |
| `HeapLaws.EndsOfTheHeapAgree` | src/heap.ts:60-104 | Short-term and long-term allocation fail on the same requests, exactly those with no fitting aligned range, and the short-term address is never above the long-term one. |
| `HeapLaws.AllocDeterministic` | src/heap.ts:60-104 | What an allocation returns and leaves is determined by the free bytes and the layout counters, not by the shape of the search. |
| `HeapLaws.LengthIsRounded` | src/heap.ts:77-79 | A short-term allocation has the least multiple of 256 that holds the request, or less where the free run ends before it; a long-term one always reaches the end of the run. |
| `HeapLaws.DrainsCommute` | src/heap.ts:163-196 | Draining any number of heaps, in any two orders: all drains succeed iff no two of the heaps, and none of them and the destination, share a byte; the regions at the end are then the union in either order. The states at the end are equal iff the destination already had a layout base, or no source brings regions, or the same source is the first to bring some. |
| `HeapLaws.StepKeepsSound` | src/heap.ts:16-196 | Every operation on every system of heaps keeps every heap canonical. |
| `HeapLaws.RelocationEquivariance` | src/heap.ts:9-196 | For every run, moving all addresses by a multiple of 256 gives the same outcomes at the same offsets iff every argument passes validation at both bases alike, and then every intermediate state is the moved one with an equal layout signature. |
| `HeapSignature.SignatureTells` | src/heap.ts:96-151 | After any run of any system of heaps: the offset in a heap's signature is the highest end of the allocations it made, counted from the first address that came to it, and 0 if none did; the count is their number, and the hash that of the requested sizes, one step each. |
| `HeapSignature.SameSignature` | src/heap.ts:148-151 | Heaps of two runs with equal signatures made equally many allocations and reach equally far above their first addresses, and their lists of sizes do not differ in just one place. |
| `HeapSignature.HashTellsOne` | src/heap.ts:98-99 | Two lists of sizes that agree but in one place have equal hashes iff they agree there too. |
| `HeapSignature.HashStepInjective` | src/heap.ts:98-99 | For sizes and hashes below 2^64, two steps with equal results started from equal hashes iff the sizes were equal. |
| `HeapSignature.HashStepBits` | src/heap.ts:98-99 | Undoing the multiplication modulo 2^64 leaves exactly the bits in which hash and size differ. |
| `HeapLaws.MisalignedBaseDiverges` | src/heap.ts:69-75 | For every shift, up or down, that is not a multiple of 256 and every aligned base that keeps both blocks inside the safe integers, managing one unit and allocating it succeeds at one base and is refused at the other. |
| `PagedSequence.Sequence.PushPage` | src/paged_sequence.ts:48-52 | Appends the page, lengthens the sequence and counts one more holder. |
| `PagedSequence.Sequence.PopPage` | src/paged_sequence.ts:54-65 | The whole effect of dropping the last page on the cache: length, target, count, and the id at the front of the free list with the last holder. |
| `PageGrowth.PopExact` | src/paged_sequence.ts:54-65 | Popping is a rewind to the start of the last page or no rewind at all: history, length and target are those of the cut, and no other sequence reads anything else. |
| `PageOrder.PoppedIsNext` | src/paged_sequence.ts:52-65 | The id of a page popped by its last holder is the first one free: the next page attached, by whatever sequence, has this id, and the free list is then as it was before the pop. |
| `PageOrder.AppendUndone` | src/paged_sequence.ts:52-65 | Attaching any number of new pages and popping them again restores the free list, id by id. |
| `PageOrder.ClearOrder` | src/paged_sequence.ts:67-72 | Clearing puts the ids of the pages only this sequence holds in front of the free list, in the order of the pages. |
| `PageOrder.TruncateOrder` | src/paged_sequence.ts:82-118 | Truncation puts the ids of the dropped pages only this sequence holds in front of the free list, in the order of the pages; a copy it has to make takes the first id of what is free then. |
| `PagedSequence.Sequence.Clear` | src/paged_sequence.ts:67-72 | Leaves an empty sequence without target, a consistent cache, and every other sequence as it was. |
| `PagedSequence.Sequence.TokenAfter` | src/paged_sequence.ts:74-81 | The token at a position, found through its page and offset, or the pending target at the end of the reported history. |
| `PagedSequence.Sequence.Truncate` | src/paged_sequence.ts:83-116 | Throws iff the length is out of range or a copy-on-write finds no page; otherwise it is the exact rewind of `TruncateExact`. Behind the reported history it loses no page. |
| `PageLaws.TruncateExact` | src/paged_sequence.ts:83-116 | Truncation to n below the allocated length leaves ceil(n / pageSize) pages with their contents, history cut to n, and the token that followed as pending target (the target itself at the end of the history, none beyond it); no other sequence reads anything else. It runs out of pages iff it cuts into a shared page while neither the free list nor the dropped pages offer an id. |
| `PageStock.EmptyIsPrivate` | src/paged_sequence.ts:11-14 | A page behind the reported history is held by its own sequence alone. |
| `PageStock.TruncateFrees` | src/paged_sequence.ts:89-116 | A cut at or behind the end of the history gives every page it drops back to the free list. |
| `PagedSequence.Sequence.ReportTokens` | src/paged_sequence.ts:139-159 | Fails iff the tokens exceed the reserved length, and then changes nothing; otherwise the history grows by exactly the tokens, the target is replaced, and no other sequence reads anything else. |
| `PageGrowth.ReportExact` | src/paged_sequence.ts:139-159 | The same as a law of the whole cache: the page written to is partial, hence private. |
| `PagedSequence.Sequence.GetTokenIds` | src/paged_sequence.ts:124-126 | The flat history, although it is stored in pages. |
| `PagedSequence.Sequence.ReportedTokenCount` | src/paged_sequence.ts:133-137 | The length of the flat history. |
| `PagedSequence.Sequence.AllocAppendPages` | src/paged_kv.ts:509-526 | Fails iff the missing pages exceed the free ones, and then changes nothing; otherwise it takes exactly the missing pages, the first ids of the free list in order, and the history, the target and all other sequences stay. |
| `SequenceRows.DecodeNeed` | src/paged_kv.ts:496-507 | The page count for one decode token is the append count for one token. |
| `PagedSequence.PageCache.SharePrefix` | src/paged_kv.ts:454-461 | A new sequence on the first pages of a donor has what the donor reported on them as its history, and every sequence, the donor included, reads what it read before. Only full pages are shared afterwards iff the reported tokens cover those pages. |
| `PageGrowth.ShareExact` | src/paged_kv.ts:214-224 | The same as a law of the whole cache, for any number of pages the donor has: `copySequence` keeps those its allocated length fills, reported or not, so the copy shares full pages only iff the reported tokens cover them. |
| `PageGrowth.UncoveredShareLeaks` | src/paged_kv.ts:214-224 | When they do not, the next token reported to the donor is written to a shared page, and the copy reads it as its own. |
| `PageRuns.StepKeeps` | src/paged_sequence.ts:48-159 | Every operation keeps the cache consistent and changes what a sequence reads only for the sequence it works on. |
| `PageRuns.RunConserves` | src/paged_sequence.ts:48-116 | At every moment of every run each page's count is the number of sequences holding it, and each id is either free, once, or held by one page. |
| `PageRuns.RunIsolates` | src/paged_sequence.ts:83-159 | Between two moments of a run, a sequence that no step works on keeps its history, target, length and physical page contents, whatever its pages are shared with. |
| `PageRuns.AllPagesReturn` | src/paged_sequence.ts:54-72 | When no sequence holds pages any more, the free list has every id exactly once. |
| `SequenceRows.Reserve` | src/execution-workspace.ts:673-684 | Planning reserves the positions of all rows or of none. It succeeds iff the pages the grown rows would have are no more than the pages the rows have and the free ones together, and that total is unchanged. |
| `SequenceRows.TruncateBehind` | src/glm51_model.ts:1442-1444 | Truncating all rows at or behind their histories never fails, loses no page and is the row-wise cut. |
| `SequenceRows.TruncateAll` | src/glm51_model.ts:1077-1079 | The row-wise rewind of a batch. From the state before: it succeeds iff no row, at its turn, cuts into a page that others still hold while none is free or freed (`PageTally.CutsFit`); the free pages at the end are those foretold (`PageTally.FreeAfter`); the row it stops at is the first that does not fit, with the rows before it rewound and the rows behind it untouched. |
| `PageTally.RunsOutAsTallied` | src/paged_sequence.ts:89-108 | After any number of truncations of a batch, the next one runs out of pages iff the tally of the state before all of them says so. |
| `PageTally.TallyNext` | src/paged_sequence.ts:89-115 | Each truncation moves the tally by one step: who still holds which page, and how many pages are free. |
| `PageTally.DuesCovered` | src/paged_sequence.ts:83-116 | One free page for every page given up that others hold is enough for a batch of truncations never to run out. |
| `SequenceRows.CutsBudget` | src/paged_sequence.ts:83-116 | A batch of truncations costs the rows and the free list together at most one page for each that is given up while others hold it. |
| `PageTally.LastTokenOwesOne` | src/paged_sequence.ts:83-116 | Cutting off the last reported token gives up at most one such page. |
| `SequenceRows.ResizeAll` | src/glm51_model.ts:1310-1314 | Moving every reserved length back keeps histories, targets and attached pages. |
| `SequenceRows.ReportAll` | src/chat_model.ts:184-190 | Every row with inputs gets its tokens and target, rows without are left alone. |
| `GreedyStream.AcceptRow` | src/glm51_model.ts:1420-1439 | The acceptance count is the longest prefix of the drafts that greedy decoding would have produced, and the emitted tokens are the next count + 1 tokens of greedy decoding, whatever was drafted. |
| `GreedyStream.MismatchEnds` | src/glm51_model.ts:1421-1426 | After a mismatch no longer agreement is possible, so stopping there is maximal. |
| `DecodeRuns.PrepareDecodeInput` | src/chat_model.ts:389-397 | The pending targets, iff the batch is not empty and every row is committed with a target. |
| `DecodeRuns.DecodeGenerator.Start` | src/chat_model.ts:404-409 | Startup succeeds iff the batch is ready, and changes no sequence. |
| `DecodeRuns.DecodeGenerator.Next` | src/chat_model.ts:411-445 | One step yields one token per row, the greedy one, and keeps every row at its start history and target followed by all yielded tokens; it fails iff the pages do not suffice, and then nothing changes. |
| `MtpDecode.Plan` | src/execution-workspace.ts:661-684 | The part of a plan in front of its execution state: it succeeds iff the workspace takes the inputs and the pages are there, attached or free; otherwise the rows and their pages stay. |
| `ExecutionPlan.PlanPrefill` | src/execution-workspace.ts:661-687 | The whole of it has three exits: refused as above with nothing changed; made; or outgrown, with the rows grown, iff the metadata of the grown rows exceed what the first cache on the slot asked for. |
| `ExecutionPlan.PlanDecode` | src/execution-workspace.ts:561-580 | The same for one token a row, where only missing pages refuse a plan. |
| `ExecutionPlan.TakeBuffers` | src/execution-workspace.ts:128-156 | The buffers of an execution state, counted from the rows of a consistent cache: they fit iff the metadata do, and always when the batch is within its limit and the slot serves caches of that many pages. Nothing in the cache changes. |
| `ExecutionPlan.OwnSlotServes` | src/execution-workspace.ts:437-444 | A slot serves the cache that was first planned on it, and every cache of no more pages. |
| `MtpDecode.MtpGenerator.Start` | src/glm51_model.ts:1223-1297 | Refuses, changing nothing, iff a row is not ready or has no history. Otherwise it succeeds iff, in the state before, no rewind runs out of pages for its copy, the workspace takes one input per row, and the pages for the last tokens are there after the rewinds; the rewind and the replay have then changed nothing in any row, and the free pages are those foretold. It stops at a copy iff a rewind runs out, at the plan iff the rest fails; the rewinds then stay in place and the pending targets are lost. |
| `MtpDecode.MtpGenerator.RewindInput` | src/glm51_model.ts:1071-1081 | The rewinds of a startup all succeed iff the tally of the state before says so; else they stop at the first row that runs out. |
| `MtpDecode.MtpGenerator.AmpleReplays` | src/glm51_model.ts:1223-1297 | A startup succeeds, and leaves the pages for so many positions behind every row, when the free pages cover what the rows then want and one page for each that a rewind gives up while others hold it. |
| `PageShortage.CopyMissing` | src/glm51_model.ts:1077-1079 | Two ready rows of length two on one full page with no page free: the first rewind finds no page for its copy. |
| `PageShortage.RoomMissing` | src/glm51_model.ts:1239-1240 | A row of length three and one of length two that share a page, with none free: both rewinds succeed, but the copy of the second takes the page the first one freed, and no plan that gives the first row its last token back can be made. |
| `MtpDecode.ReplayRestores` | src/glm51_model.ts:1071-1081 | Planning the last token again and reporting it with the published target restores the row it was rewound from. |
| `MtpDecode.MtpGenerator.Submit` | src/glm51_model.ts:1302-1315 | The draft plans and the verification plan succeed iff the workspace takes depth + 1 inputs per row and the pages for them are there; a failed submission is rolled back completely. |
| `MtpDecode.MtpGenerator.VerifyAll` | src/glm51_model.ts:1409-1440 | Row by row the longest agreeing drafts and the greedy tokens that go with them. |
| `MtpDecode.MtpGenerator.Commit` | src/glm51_model.ts:1442-1454 | Truncating and reporting leave every row committed, standing at its start history and target followed by all tokens committed so far. |
| `MtpDecode.MtpGenerator.Next` | src/glm51_model.ts:1299-1459 | From one yield to the next the finished step is committed; its accepted counts and tokens are those the model, the rows and the drafts determine (`Foreseen`). Another is submitted iff, counting the pages that rejected drafts give back, depth + 1 more positions per row fit; otherwise the committed step is never yielded and the generator is closed. |
| `MtpDecode.AcceptedForeseen` | src/glm51_model.ts:1409-1440 | The result of a verification is determined by the rows and the drafts before it. |
| `PageShortage.StepNotYielded` | src/glm51_model.ts:1302-1315 | A consistent cache with one row in flight, one token reported and two positions reserved on three pages of one token, and none free: whatever the model and the draft, the step is committed and the next one cannot be submitted. |
| `MtpDecode.MtpGenerator.Close` | src/glm51_model.ts:1460-1468 | Closing at any point leaves every row exactly as last committed. |
| `MtpDecode.Steps` | src/glm51_model.ts:1299-1468 | Whole runs: each step has 1 to depth + 1 tokens per row, all but possibly the last are yielded, and the rows end at start history and target followed by the tokens of all steps. With pages for one verification per step and one more, every step is yielded. |
| `MtpDecode.Run` | src/glm51_model.ts:1195-1469 | The same from startup to close: the run starts iff startup succeeds as above, and history and target of every row are then its initial history, its initial target and the tokens of all steps. With ample pages before the start every step for every list of drafts is yielded. |
| `MtpDecode.SameStream` | src/glm51_model.ts:1421-1440 | Two rows that followed one greedy stream: the shorter run is a prefix of the longer, and runs of equal length leave equal rows. |
| `MtpDecode.MtpRefinesDecode` | src/glm51_model.ts:1299-1458 | From the same histories and targets speculative and plain decoding emit, row by row, prefixes of one another, for every model, all drafts and any depth; after equally many tokens their rows are equal. |
| `ChunkedPrefill.SelectPrefillChunk` | src/chat_model.ts:284-310 | Every row takes a prefix of its tokens behind its overlap, as many as the budget left by the rows before it allows, at most `chunkSize` in all. It throws iff the size is out of range, or it is 1 and some row has tokens but every such row needs an overlap. |
| `ChunkedPrefill.Overlaps` | src/glm51_model.ts:1139-1145 | The last committed token of every row with input and history, iff all rows with input are fully reported. |
| `ChunkedPrefill.RewindSelected` | src/glm51_model.ts:1147-1152 | Only selected rows with an overlap step back by one token; deferred rows keep history, length and target. All of them do iff the tally of the state before says so. |
| `ChunkedPrefill.PrefillChunk` | src/glm51_model.ts:1127-1156 | One chunk: nothing changes on a refusal. Else the taken tokens are prefilled iff, in the state before, no selected rewind runs out of pages, the workspace takes the inputs, and the pages of the cut and grown rows are there; a failed plan leaves all rewinds in place, a failed copy those before it. |
| `ChunkedPrefill.PrefillTwice` | src/chat_model.ts:181-202 | Prefilling in two parts is prefilling at once. |
| `ChunkedPrefill.RoundRow` | src/glm51_model.ts:1146-1153 | Stepping back, running the overlap again and reporting adds exactly the taken tokens. |
| `ChunkedPrefill.ChunkProgress` | src/chat_model.ts:295-305 | A chunk that holds anything leaves strictly fewer tokens. |
| `ChunkedPrefill.Prefill` | src/glm51_model.ts:1127-1156 | Chunk by chunk until nothing remains: every row ends as one prefill of its whole prompt would leave it, for every chunk size; with at least 2 the selection never refuses, and the loop ends. It gets there whenever the chunk size is from 2 to the workspace size, the rows with input are reported if overlaps are needed, and the free pages cover all tokens and the copies of the rewinds. |
| `ChunkedPrefill.ProvidedPlans` | src/glm51_model.ts:1127-1156 | With those pages every chunk that is selected can be rewound, planned and run. |
| `ChunkedPrefill.ProvidedStays` | src/glm51_model.ts:1127-1156 | And they are still there for what remains: a page is copied at most once for a row, since what is behind a rewind is held by its row alone. |
| `CsfCodec.DecodeExceptions` | src/csf_codec.ts:93-119 | Succeeds iff the plane is whole words with sorted, unique, in-range positions, and then returns them all; CsfFormat says which bytes of the plane they are. |
| `CsfFormat.WordIsRead` | src/csf_codec.ts:105-116 | Four bytes that are a word, lowest byte first, are read as the word modulo 2^24 for the position and the word divided by 2^24 for the value. |
| `CsfFormat.PlaneIsRead` | src/csf_codec.ts:93-119 | A plane of little-endian words is read word by word, and passes iff the low 24 bits are in range, sorted and unique. |
| `CsfFormat.EveryPlaneIsWords` | src/csf_codec.ts:97-116 | Every plane of whole words is the little-endian writing of such words, so the two statements above hold of every plane. |
| `CsfFormat.FormatIsRead` | src/csf_codec.ts:8-25 | A matrix written as the format describes it, slab by slab with two offsets a byte and replacements as words, decodes to the replacement where there is one and to base plus offset everywhere else. |
| `CsfFormat.EveryPlaneIsATable` | src/csf_codec.ts:8-17 | Every fixed plane of the right length is written from a table of bases and offsets, byte for byte. |
| `CsfFormat.FormatIsGood` | src/csf_codec.ts:125-142 | A plane written from a table passes validation iff no base is above 240. |
| `CsfFormat.ScaleCodes` | src/csf_codec.ts:37-40 | Among the unsigned E4M3 codes, 0x38 alone stands for 1.0, and exactly those up to 0x7e stand for numbers of at most 448, the largest finite one. |
| `CsfCodec.ValidateFixedPlane` | src/csf_codec.ts:125-140 | Passes iff geometry, stream size and all row bases are good; the error says which is not. |
| `CsfCodec.ExpandScalePlanes` | src/csf_codec.ts:157-183 | Succeeds iff the planes are valid and no scale code is above 0x7e; the bytes are then the scale matrix, replacements included. |
| `CsfCodec.ExpandScaleWindow` | src/csf_codec.ts:191-228 | Succeeds iff the planes and the window are valid and the codes inside it are; the bytes are then the window's scales. |
| `CsfLaws.WindowIsSubmatrix` | src/csf_codec.ts:157-228 | Whenever the whole matrix expands, every in-range window expands, to the submatrix. |
| `CsfShards.EncodeExact` | src/csf_codec.ts:300-303 | Written exception words read back exactly iff every position fits in 24 bits. |
| `CsfFormat.WordIsWritten` | src/csf_codec.ts:300-303 | The four bytes written for a replacement are the 32 bits of the value shifted by 24 or-ed with the position, lowest byte first; below 2^24 that is value times 2^24 plus position. |
| `CsfFormat.PlaneIsWritten` | src/csf_codec.ts:300-303 | The whole plane written is the plane of these words. |
| `CsfShards.SliceScalePlanes` | src/csf_codec.ts:245-305 | Succeeds iff planes and slice are valid, with the specified slice of both planes. |
| `CsfLaws.SliceCommutes` | src/csf_codec.ts:245-305 | A slice that passes the checks again decodes to the submatrix, the row's base in appended columns and 0x38 in appended rows, iff no rebased replacement past 24 bits does harm: each repeats the code beneath it, and the code at the low position its word names with the high bits or-ed in. |
| `CsfLaws.FittingSliceCommutes` | src/csf_codec.ts:245-305 | In particular it passes them and decodes so when the rebased positions fit in 24 bits. |
| `CsfLaws.SliceWraps` | src/csf_codec.ts:290-304 | One replacement that a slice moves past 24 bits: the slice passes every check again, and is wrong whenever the replacement replaces anything. The code beneath shows where it should stand, and its value, or-ed with the high bits, stands at the low 24 bits of the position. |
| `CsfLaws.WrappingSliceExists` | src/csf_codec.ts:290-304 | Such planes and slices exist in every geometry, padded to any width, in which the last row starts below 2^24 before and at or past it afterwards. |
| `CsfLaws.SlabWraps` | src/csf_codec.ts:290-304 | One slab of two columns padded to 2097152: the replacement at row 15, column 0 is lost, and row 7 gets it or-ed with 1. |
| `CsfLaws.SliceWords` | src/csf_codec.ts:290-303 | The words of a slice read back as the rebased replacements iff these fit in 24 bits. |
| `CsfLaws.SlicedOrdered` | src/csf_codec.ts:290-299 | Rebased positions stay sorted, unique and in range. |
| `CsfLaws.NarrowSliceFits` | src/csf_codec.ts:290-303 | Without appended columns the rebased positions always fit in 24 bits. |
| `CsfLaws.SmallSliceFits` | src/csf_codec.ts:290-303 | They also fit whenever the whole output matrix does. |
| `CsfLaws.SliceIsGood` | src/csf_codec.ts:93-119 | The planes of a slice pass every check again iff the rebased replacements, as their words read back, are sorted and unique; so they do when the positions fit in 24 bits. |
| `CsfLaws.SlicesCompose` | src/csf_codec.ts:245-305 | A slice of an unpadded slice is the composed slice, byte for byte. |
| `CsfShards.ShiftWords` | src/csf_codec.ts:323-337 | Moves every position, iff the plane is whole words and no moved position leaves the fused matrix. |
| `CsfShards.ConcatFc1ScalePlanes` | src/csf_codec.ts:313-342 | Succeeds iff the two projections fuse: equal geometry, positions inside, and the fused words sorted and in range. |
| `CsfLaws.FusedWords` | src/csf_codec.ts:323-340 | The fused words read back as the first list and the moved second list iff the moved positions fit in 24 bits. |
| `CsfLaws.FusionSucceeds` | src/csf_codec.ts:313-342 | Two valid projections whose moved positions fit always fuse. |
| `CsfLaws.FusableExact` | src/csf_codec.ts:313-342 | Two valid projections fuse iff the moved replacements, as their words read back, are sorted and unique. |
| `CsfLaws.FusionExact` | src/csf_codec.ts:313-342 | Decoding an accepted fusion gives the first decoding followed by the second iff no moved replacement past 24 bits does harm: each repeats the code beneath it, and the code at the low position its word names with the high bits or-ed in. |
| `CsfLaws.FusionConcatenates` | src/csf_codec.ts:313-342 | In particular it does, and the fusion is accepted, when all moved positions fit in 24 bits. |
| `CsfLaws.FusionWraps` | src/csf_codec.ts:329-340 | One replacement at the first position of a second projection that starts at or past 2^24, with none in the first: the fusion is accepted, and its decoding is not the concatenation whenever the replacement replaces anything. |
| `CsfLaws.WrappingFusionExists` | src/csf_codec.ts:313-342 | Such projections exist in every geometry of at least 2^24 scales, one slab of 1048578 columns among them. |
| `CsfLaws.RowSliceIsRows` | src/csf_codec.ts:245-305 | A slice of whole rows decodes to those rows. |
| `CsfShards.TpExtent` | src/csf_codec.ts:348-360 | Succeeds iff the partition is valid; the bounds are the rank's share. |
| `CsfLaws.ExtentsAreSlabs` | src/csf_codec.ts:348-360 | An alignment of whole slabs gives every rank whole slabs, and the shares add up. |
| `CsfLaws.ShardsReassemble` | src/csf_codec.ts:245-360 | The decoded shards of all ranks, one after the other, are the unsharded matrix: no gap, no overlap. |
| `CaptureManager.KeyInjective` | src/capture-manager.ts:54-63 | A key with padded lengths determines its base key and every length. |
| `CaptureManager.CountStates` | src/capture-manager.ts:54-63 | A base key determines how many states it was made from. |
| `CaptureManager.BaseInjective` | src/capture-manager.ts:54-59 | Equal base keys come from the same caller's key and equally many states, which agree one by one in batch size, token count and backend parameters. |
| `CaptureManager.Manager.StateKeys` | src/capture-manager.ts:54-63 | The base key, followed by every state's padded length iff the base was found to depend on lengths; `BaseInjective` says what the base tells apart. |
| `CaptureManager.Manager.IsStateCaptured` | src/capture-manager.ts:65-67 | True iff a keyed run would find a graph. |
| `CaptureManager.Manager.RecordLengthVariant` | src/capture-manager.ts:114-122 | Length dependence is only ever added, for this base alone. |
| `CaptureManager.Manager.RunStates` | src/capture-manager.ts:70-80 | The whole effect of a run: eager, capturing or replaying, what it leaves of warm-up counts and graphs, and what it teaches about lengths; a throwing callback teaches nothing. |
| `CaptureManager.Manager.Execute` | src/capture-manager.ts:44-50 | The same, and the warm-up flag is set iff a run captures or runs eagerly towards a capture. |
| `CaptureManager.Manager.Dispose` | src/capture-manager.ts:99-106 | Forgets every graph, keeps what was learned about lengths. |
| `CaptureManager.ReplayIsSafe` | src/capture-manager.ts:140-184 | A graph found now was captured, without disposal since, in a run with the same caller's key, the same inputs and states of the same batch sizes, token counts and backends, and of the same padded lengths if the capturing callback consulted any. |
| `CaptureManager.RunKeeps` | src/capture-manager.ts:132-290 | Every run keeps the account of graphs, warm-up runs and learned dependence consistent with the history of runs. |
| `CaptureManager.Manager.ReplaysAreSafe` | src/capture-manager.ts:140-290 | Every replay of every history follows a capture without disposal in between whose run had the same caller's key, inputs, batch sizes, token counts and backends, and the same padded lengths if the capture consulted any; and it follows at least three eager runs of the key. |
| `CaptureManager.Manager.CapturedInFourthRun` | src/capture-manager.ts:186-288 | In every history, with other keys, disposals and times of being switched off in between: a key has a graph iff it was run at least four times since the last disposal and the fourth of these did not throw; if it did, the key runs eagerly until a disposal. |
| `CaptureManager.Manager.ModesOfThePast` | src/capture-manager.ts:140-290 | Every keyed run of a history was eager, captured or replayed as the runs of its key since the last disposal before it determine. |
| `StreamPool.Pool.AcquireStream` | src/glm_ops.ts:1404-1444 | Takes the lowest id to reuse of the innermost active stream that has one of the priority, else the lowest free id, and fails iff there is neither; an id it takes never has a record already. |
| `StreamPool.Pool.Begin` | src/glm_ops.ts:1453-1459 | The acquired stream becomes current, with its own id on its joined list; a failed acquisition changes nothing. |
| `StreamPool.Pool.End` | src/glm_ops.ts:1465-1477 | After the callback the stream becomes a live handle, neither waited for nor disposed of, or, when the callback threw, it and all it has collected go to the current stream. |
| `StreamPool.Pool.EndAndWait` | src/glm_ops.ts:1465-1500 | The first wait on a stream that has just ended, whatever it collected: its record keeps its own id alone, and every other id it had is with the waiting stream, or free when that is stream 0. |
| `StreamPool.Pool.Wait` | src/glm_ops.ts:1491-1500 | The first wait on a live handle moves what its stream has collected to the current stream and keeps its own id; later waits move nothing; a disposed handle is refused. |
| `StreamPool.Pool.DisposeHandle` | src/glm_ops.ts:1478-1483 | Moves the handle's id and all its stream has collected to the current stream, once. |
| `StreamPool.Pool.DisposeStreamResources` | src/glm_ops.ts:1317-1364 | Collected ids go to the destination, or, for stream 0, back to the free lists; the own id stays. |
| `StreamPool.Pool.DisposeStream` | src/glm_ops.ts:1366-1402 | The own id goes too, and the record with it. |
| `StreamPool.TransferKeeps` | src/glm_ops.ts:1326-1363 | Handing collected ids over keeps every id in exactly one sorted list. |
| `StreamPool.DropKeeps` | src/glm_ops.ts:1379-1401 | So does dropping the record of a disposed stream. |
| `StreamPool.Pool.NotCurrent` | src/glm_ops.ts:1317-1324 | A live handle's stream is never the current one and always has a record, so disposing of it never hits the early return or the error. |
| `StreamPool.Pool.CompleteDeviceSynchronization` | src/glm_ops.ts:1191-1237 | Every collected id is free again, live streams keep exactly their own id, whatever order the records are visited in. |
| `StreamPool.Pool.EveryIdOnce` | src/glm_ops.ts:1303-1315 | In every reachable state each id 1 to 63 is in exactly one free list of its parity or one joined list, and every live stream owns its own id. |
| `StreamPool.Pool.AllDisposed` | src/glm_ops.ts:1307-1308 | Once nothing runs and every handle is disposed, both free lists equal their initial value. |
| `IncrementalText.IncrementalTokenDecoder.Push` | src/chat-model-parser.ts:190-214 | The deltas so far add up to the decoded text of all tokens of the segment without its trailing replacement characters, with history compaction on or off. |
| `IncrementalText.IncrementalTokenDecoder.Compact` | src/chat-model-parser.ts:200-211 | Replacing the history by its last token, when that is an anchor, changes nothing that will be emitted. |
| `IncrementalText.IncrementalTokenDecoder.Flush` | src/chat-model-parser.ts:216-224 | The final delta completes the deltas to the decoding of the whole segment. |
| `IncrementalText.EmittedExact` | src/chat-model-parser.ts:190-238 | For any decoder and any tokens the deltas from the uncut history add up to the full decode iff text once safe stays at the front along the segment. |
| `ByteLevelText.ByteLevelStable` | src/chat-model-parser.ts:190-199 | A byte-level decoder, with UTF-8 decoded as in the WHATWG Encoding Standard, only ever changes trailing replacement characters. |
| `ByteLevelText.ByteLevelAnchored` | src/chat-model-parser.ts:200-211 | For it an anchor stands for everything before it, byte order marks included. |
| `OutputParser.ChatModelParser.OnToken` | src/chat-model-parser.ts:57-114 | A token is read as the state machine over decoded segments reads it (`DocumentIsRead` says what that means), and the events so far say exactly what is complete and what of the open segment is safe. |
| `OutputParser.ChatModelParser.Finish` | src/chat-model-parser.ts:116-129 | After the last token all events together say what the whole token stream means; an open tool call becomes an error with its raw text. |
| `OutputParser.ChatModelParser.ParseAll` | src/chat-model-parser.ts:57-129 | For every token stream: the events say what the stream says as a document, that is, text decoded segment by segment and labelled by the control token in front of it, tool calls in order with their indices, and an error for each call that does not parse or is never closed. |
| `OutputParser.DocumentIsRead` | src/chat-model-parser.ts:57-129 | A response written as text, reasoning, answers and tool calls between control tokens is read back as that: each text under its label, each call with the number of calls before it that parsed. |
| `OutputParser.EveryStreamIsADocument` | src/chat-model-parser.ts:57-114 | Every token stream is such a response. |
| `OutputParser.ThoughtThenAnswer` | src/chat-model-parser.ts:93-114 | Tokens behind the one that starts thinking are reasoning, those behind the one that ends it are content, each decoded together. |
| `OutputParser.CallThenAnswer` | src/chat-model-parser.ts:65-91 | The tokens between the two that enclose a tool call become the call under the next index if they parse and an error with their text if not, and content follows. |
| `OutputParser.UnitsAreTexts` | src/chat-model-parser.ts:57-129 | What is said as reasoning, or as content, is the text of the events of that type, one after the other. |
| `OutputParser.ChatModelParser.ContinueFrom` | src/chat-model-parser.ts:48-51 | Reading a prefix emits nothing and leaves the state, the tool index and an open tool call of that prefix. |
| `OutputParser.SegmentIsDecoded` | src/chat-model-parser.ts:57-129 | Tokens between control tokens only lengthen the segment, so a text segment says the decoding of all its tokens. |
| `CapacityBounds.PlansFit` | src/execution-workspace.ts:437-444 | A slot made for a cache of P1 pages holds every plan within the limits for a cache of P2 pages, each shared page listed once per sequence, iff 4 max(S, B) + B P2 <= 4 B S + B max(S, P1), for batch limit B and token limit S. The limits are taken one by one: the fullest plan lists every page in every row, which a consistent cache with several rows that take tokens does not reach. |
| `CapacityBounds.FirstCacheFits` | src/execution-workspace.ts:437-444 | For the cache the slot was made for, and for smaller ones, that always holds. |
| `CapacityBounds.LargerCacheOutgrows` | src/execution-workspace.ts:437-444 | One token of one sequence of two pages, on a slot made for a cache of one page, does not fit. |
| `CapacityBounds.Workspace.GetStateBuffers` | src/execution-workspace.ts:437-444 | A slot keeps the buffers, and their capacity, of the first cache planned on it, and hands them out emptied. |
| `CapacityBounds.Workspace.PlanOn` | src/execution-workspace.ts:141-160 | The allocations of a plan succeed iff its metadata fit what the slot's first cache asked for; within the limits always for the first cache, and for others under the condition of `PlansFit`. |
| `CapacityBounds.PagesBounded` | src/execution-workspace.ts:141-160 | In every consistent cache a sequence lists at most as many pages as there are. |
| `CapacityBounds.StateBuffers.GetViews` | src/execution-workspace.ts:38-54 | Fails iff the range leaves the buffer; an unchanged live view is reused, a changed one is disposed of and replaced. |
| `CapacityBounds.StateBuffers.PlanBatch` | src/execution-workspace.ts:141-160 | A plan succeeds iff its metadata fit; all views but the last are where batch size and token count put them, the page indices come behind them, and planning again for the same sizes gives the same views whatever the number of pages. |
| `CapacityBounds.PlannedTable` | src/execution-workspace.ts:142-151 | Where each of the ten fixed buffers of a plan starts and how long it is, for every batch size and token count. |
| `CapacityBounds.StateBuffers.Upload` | src/execution-workspace.ts:62-68 | The upload covers everything behind the input ids and disturbs none of the plan's views. |
| `CapacityBounds.BucketCovers` | src/execution-workspace.ts:162-164 | The padded length covers the length iff it is at most 2^30: beyond, the 32-bit shift wraps. From 513 to 2^30 it is less than twice the length. |
| `CapacityBounds.SameBucket` | src/execution-workspace.ts:162-164 | Two such lengths share a bucket iff they round up to the same power of two or both are at most 1024. |
| `CapacityBounds.CapturedCoversBucket` | src/glm51_model.ts:355-375 | The size gathered under capture is at least the size gathered eagerly for every length vector of the same bucket and batch size. |
| `CapacityBounds.GatherCovers` | src/glm51_model.ts:363-374 | The cap at the cache size never cuts off needed rows, for any lengths, iff the world size divides the positions of a full cache. |
| `CapacityBounds.CapturedGatherSuffices` | src/glm51_model.ts:355-375 | With a context-parallel page, a multiple of the world size, a captured gather holds every row any length vector of its bucket needs. |

## Left out

- DeviceHeap.Heap.TryAlloc: sizes, pointers and lengths are integers; rejection of
  fractional arguments is not modelled, the bounds of the safe integer range are.
- `alloc` and `describeRange` of the heap: a wrapper that throws, and a debug string.
- DeviceHeap.SortByPtr: `Array.prototype.sort` is modelled as an insertion sort; so is
  StreamPool.Sort.
- SequenceRows.Reserve: the page-pressure callback, which may evict staged sequences
  before a plan is refused, belongs to the caller; a plan is modelled without it.
- PagedSequence.PageCache.SharePrefix: prefix search, staging, cross-cache copies and
  the private copy of a last page that the allocated length does not fill are left out;
  sharing the pages in front of it, which they all use, is modelled. The set of sequences a cache knows is ghost.
- PagedSequence.Sequence.Resize: the assignment to `allocLen` between draft and
  verification plans, never below the reported history, as its caller guarantees.
- MtpDecode.MtpGenerator.VerifyAll: sampled verification, seeds, slots and the draft
  model's own cache; drafts are arbitrary tokens instead, and verification selects the
  model's token after each input.
- MtpDecode.MtpGenerator.Next: the check that the batch has not been changed between
  yields is replaced by the state the generator keeps; a caller that changes sequences
  in between is outside the model. Asynchronous waiting is one step.
- MtpDecode.Plan: of a plan only its refusal and its effect on the sequences; the mismatch
  between batch and cache is a precondition. The generators and the prefill loop call it, so
  their conditions are those on a slot that serves the cache; ExecutionPlan has the third exit.
- ChunkedPrefill.Prefill: the two-phase split of a prefill; one row of input per sequence
  is a precondition. Its loop over chunks is that of the plan's callers.
- CsfCodec.ExpandScalePlanes: error messages are reduced to kinds.
- CsfShards.SliceScalePlanes: row and column bounds are integers.
- CaptureManager.Manager.RunStates: nested captures, tracked workspaces, replay input
  mismatches, staging, diagnostics and CUDA errors are left out; inputs enter the key as
  one opaque signature. Joined key strings are sequences of parameters.
- CaptureManager.Manager.ReplaysAreSafe: whether a callback consulted a padded length is
  given with each run; that the flag is set whenever a length is read is not modelled.
- StreamPool.Pool.CompleteDeviceSynchronization: workspaces, pending tensor views and
  events of a stream are left out; whether stream 0 still has views is a parameter.
- StreamPool.Pool.End: a callback that pops streams it did not push cannot be expressed,
  since streams nest lexically.
- IncrementalText.IncrementalTokenDecoder.Push: the tokenizer is any decoding function
  with the two laws stated in `Lawful`; ByteLevelText proves them for byte-level decoders
  over any vocabulary, and EmittedExact says what happens without them. Strings are
  sequences of UTF-16 code units.
- OutputParser.ChatModelParser.OnToken: parsing a tool call is an arbitrary function that
  may fail; only state, index and order of its events are modelled.
- CapacityBounds.StateBuffers.GetViews: views are offsets and counts with an identity;
  disposal by others than the buffer is not modelled.
- CapacityBounds.BucketCovers: the logarithm is exact, as it is for the lengths in range.
- CapacityBounds.CapturedCoversBucket: the live lengths of a two-phase prefill, which may
  exceed the planned ones, are the given vector.
- Kernels, tensors, checkpoint files, the scheduler, chat templates and metrics.
