# Verified model of the UAII inference runtime

UAII runs neural-network graphs on a CPU. This project models the five parts of it whose behaviour
is intricate and fully decided by the source, and proves what they are for:

- **The sliding key/value cache and what reads it.** The cache object keeps flat buffers, protects
  attention sinks, compacts in place and appends in two phases. After every run its buffers are an
  explicit slice of everything ever committed; chunked cached attention is one-shot attention; a full
  window is attention restricted to a stated key set; rotations depend on distances only.
- **Planning.** The planner and the validator drain the same graph with Kahn's algorithm. Both accept
  exactly what they should, agree with each other, and the order chosen does not matter to the result.
- **Codecs.** JSON, the binary graph format and the GGUF container: the exact language that is read,
  exact round trips, exact conditions where one fails, rejection of truncated encodings.
- **Parallel products.** The work-sharing loop as interleaved steps, the tiled product, and the product
  on packed weights: every schedule gives the plain sum.
- **Mixture of experts.** Experts listed and partly paged in give the rows of the packed bank.

## Layout

| module | what it holds |
|---|---|
| Layout, Within, Bytes, Entries | shared vocabulary: row-major offsets, pieces inside sequences, byte fields, walked maps |
| KvModel, KvCache, KvHistory, KvRuns | the cache on values, the cache object on flat arrays, its runs, and both together |
| Sums, Softmax, AttentionSpec, Averages, Attention, CachedAttention | finite sums, attention as a function, what it averages in plain arithmetic, the kernel, the kernel on the cache |
| Rope, RopeKernel | rotation as a function, the kernel, positions |
| Ir, Topology, Plan, Validator, Execution | graphs, the drain, planning, validation, running a plan |
| Json, JsonRoundTrip, JsonGrammar, JsonLanguage, JsonParser, Names, GraphJson | JSON text, round trips, the standard's tokens, its language, parser and printer objects, graphs in JSON |
| BinaryIr, BinaryIo | the binary format and its reader and writer objects |
| ParallelFor, Gemm, Cells, RefGemm, Formats, QuantGemm | schedules, tiles as programs, products cell by cell, the kernels, packed sizes, packed products |
| Moe, Mixtures, MoeKernels | selection and mixing, the mixtures in plain arithmetic, the two kernels and their agreement |
| Gguf, GgufFile, GgufLoad, GgufBlocks, GgufIo | values, files, tensor loads, loads in block arithmetic, and the objects that run them |
| Wire | the file formats byte by byte and key by key |

Floats are reals in the kernels and bit patterns in the codecs. `exp`, `tanh`, square root, `sin`,
`cos`, `log`, the frequency table, the unpacking of one weight row, text-to-integer conversion and the
printing of non-integers are parameters, with their laws as preconditions where a proof needs them. The
tile size is a parameter. Walks of unordered maps, ties in the expert selection and the schedule are
nondeterministic. `dafny verify dfyconfig.toml` checks everything.

## Model

| member | source | states |
|---|---|---|
| KvModel.AppendFits | include/uaii/runtime/kv_cache.hpp:116-141 | an append with well-shaped operands of any length succeeds exactly when the length fits the window and fits beside the sinks that must stay, and a negative one does not exceed the occupancy; whatever else is resident |
| KvModel.SingleTokenFits | include/uaii/runtime/kv_cache.hpp:136-141 | one token can always be appended |
| KvModel.OverflowLeavesOnlySinks | include/uaii/runtime/kv_cache.hpp:139-141 | an append of rows refused for lack of room has already evicted every row but the sinks |
| KvModel.RefusedIsUnchanged | include/uaii/runtime/kv_cache.hpp:116-141 | a refused append leaves the cache as it was exactly when a check before compaction failed, its length is negative, or no row beyond the sinks was resident |
| KvModel.RefusedFullWindow | include/uaii/runtime/kv_cache.hpp:139-141 | a full window of four rows with two sinks loses two rows to a refused append of three |
| KvModel.NegativeAppend | include/uaii/runtime/kv_cache.hpp:133-172 | an append that claims a negative length passes exactly when that many rows are committed; it writes nothing, and the next commit takes the newest rows and the position back |
| KvModel.CommitRewinds | include/uaii/runtime/kv_cache.hpp:168-172 | a commit decreases the position exactly when the staged length is negative |
| KvModel.NegativeRewinds | include/uaii/runtime/kv_cache.hpp:116-172 | two committed rows and views of length minus one: the append passes and the commit leaves one row and position one |
| KvModel.AppendOccupancy | include/uaii/runtime/kv_cache.hpp:139-163 | a successful append fills the window exactly when it had to evict, and never evicts a sink |
| KvCache.MoveRows | include/uaii/runtime/kv_cache.hpp:203-210 | the overlapping move of whole rows inside one flat buffer reads every source row before overwriting it |
| KvCache.SlideArray | include/uaii/runtime/kv_cache.hpp:194-213 | compaction of one flat buffer is the row-wise slide of every lane |
| KvCache.WriteArray | include/uaii/runtime/kv_cache.hpp:147-161 | the offsets of the copy loop write exactly the new rows of every lane at the occupancy, nothing else |
| KvCache.PrefixIsPacked | include/uaii/runtime/kv_cache.hpp:259-265 | the storage prefix already is the packed [batch, past, dim] block when there is one lane or the window is full |
| KvCache.PackArray | include/uaii/runtime/kv_cache.hpp:267-273 | otherwise packing gives the first rows of every lane, lane by lane |
| KvCache.KvCache.Configure | include/uaii/runtime/kv_cache.hpp:38-73 | configuration accepts exactly when layers, batch, window, both widths and heads are positive and the key width is a multiple of the heads; then the cache is empty, its buffers fresh and zero, and its sink count the caller's own if 0 <= sink < window and 0 otherwise; refusal changes nothing |
| KvCache.KvCache.Reset | include/uaii/runtime/kv_cache.hpp:75-82 | reset leaves the freshly configured state and clears the published rope length |
| KvCache.KvCache.CompactToFit | include/uaii/runtime/kv_cache.hpp:185-215 | on the flat buffers, making room is the eviction of the oldest rows after the sinks, in every layer and lane |
| KvCache.KvCache.AppendLayer | include/uaii/runtime/kv_cache.hpp:116-165 | on the flat buffers, appending has the outcome and the new state of the abstract append, the refused cases included |
| KvCache.KvCache.CommitStep | include/uaii/runtime/kv_cache.hpp:168-172 | commit advances occupancy and position by the pending rows |
| KvCache.KvCache.PastView | include/uaii/runtime/kv_cache.hpp:242-277 | the view, aliased or packed, shows exactly the committed rows of the layer, and no data when there are none |
| KvHistory.SlideKeepsWindow | include/uaii/runtime/kv_cache.hpp:189-214 | sliding a lane that holds the window of its history leaves the smaller window of the same history |
| KvHistory.CompactInv | include/uaii/runtime/kv_cache.hpp:185-215 | making room keeps every lane an explicit slice of its history |
| KvHistory.AppendInv | include/uaii/runtime/kv_cache.hpp:116-165 | an append, successful or refused, keeps the slice invariant and stages its rows |
| KvHistory.CommitInv | include/uaii/runtime/kv_cache.hpp:168-172 | committing a complete step extends every history by its staged rows and keeps the invariant |
| KvHistory.RunInv | include/uaii/runtime/kv_cache.hpp:116-215 | every legal run of appends of non-negative lengths, commits, abandoned steps and resets keeps the invariant |
| KvHistory.ReadsAreHistoryWindows | include/uaii/runtime/kv_cache.hpp:116-277 | after any legal run from a successful configuration, every lane of every layer reads as the first min(s, p) rows of everything ever committed to it followed by its last p - min(s, p) rows, where s is the caller's sink count if 0 <= sink < window and 0 otherwise |
| KvHistory.SmoothRunFull | include/uaii/runtime/kv_cache.hpp:116-172 | if every step succeeds, p is exactly min(tokens committed, window) |
| KvHistory.PositionNeverRewinds | include/uaii/runtime/kv_cache.hpp:87-87 | while appended lengths are not negative, sliding, refusal and giving up never decrease the position; only reset does |
| KvRuns.Replay | include/uaii/runtime/kv_cache.hpp:116-215 | replaying any legal run on the cache object reaches the abstract state of that run |
| KvRuns.ReplayAndRead | include/uaii/runtime/kv_cache.hpp:38-277 | from configuration with the caller's own sink count, through any legal run, to a view: the numbers read out of the flat buffers are that slice of every lane's history |
| Softmax.CutMasked | libs/uaii-kernels/src/transformer.cpp:527-575 | a block of masked positions, whatever its values, can be removed from a row of scores without changing the attention output |
| Softmax.ProbsAreDistribution | libs/uaii-kernels/src/transformer.cpp:551-560 | with a visible position the weights are non-negative, sum to 1, and vanish exactly on masked positions |
| AttentionSpec.KvHeadIsQuotient | libs/uaii-kernels/src/transformer.cpp:469-525 | the key/value head of a query head is the integer quotient by the group size |
| AttentionSpec.WeightsSumToOne | libs/uaii-kernels/src/transformer.cpp:529-560 | a query never hides its own position, so its weights are a distribution; position j has positive weight exactly when (not causal or j <= i) and (no window or i - j < window) |
| Attention.Call.WeightsAreDistribution | libs/uaii-kernels/src/transformer.cpp:523-560 | the same, in the same arithmetic, for every head and query of every checked call |
| AttentionSpec.CausalRow | libs/uaii-kernels/src/transformer.cpp:530-533 | keys and values after a query's index do not affect its causal output row |
| AttentionSpec.EvictedRow | libs/uaii-kernels/src/transformer.cpp:523-574 | attending over a window with a gap cut out is full attention restricted to the surviving positions |
| Attention.CheckedCallIsValid | libs/uaii-kernels/src/transformer.cpp:435-496 | operands that pass the checks give every head of every group room in every row, for any value width |
| Attention.Call.IsRoomy | libs/uaii-kernels/src/transformer.cpp:448-469 | every head's slice lies inside its key and value row |
| Attention.SoftmaxInPlace | libs/uaii-kernels/src/transformer.cpp:528-560 | three passes over one stretch of the score buffer leave the normalised weights there and nothing else changed |
| Attention.AttendLane | libs/uaii-kernels/src/transformer.cpp:523-574 | the loops over heads, queries and value columns write the attention rows of one lane and no others |
| Attention.AttentionKv | libs/uaii-kernels/src/transformer.cpp:400-574 | a refused call leaves the output alone; otherwise every lane holds the attention of its new queries over resident and new keys, and, number by number on the flat buffers, each output number times the sum of the exponentials of the scores is the sum of the exponentials times the values over one explicit range of keys |
| Attention.AcceptsIff | libs/uaii-kernels/src/transformer.cpp:400-496 | the checks pass exactly when types, ranks, shapes and head counts fit together as listed |
| Averages.RowAverages | libs/uaii-kernels/src/transformer.cpp:523-574 | every number of an attention row is the unmasked average over the keys from max(0, i + 1 - window) to i (to the last one if not causal), weighted by exponentials of the scaled and capped dot products |
| Attention.KernelNumbers | libs/uaii-kernels/src/transformer.cpp:523-574 | the same for every number the kernel leaves, with the scores and values read from the flat query, key and value buffers |
| CachedAttention.DispatchAttention | libs/uaii-kernels/src/dispatch.cpp:279-290 | view, attend, append: every lane of the output, in a batch of any size, is attention over the rows resident before the append; a refused append comes after the output has been written |
| CachedAttention.AfterChunksHolds | include/uaii/runtime/kv_cache.hpp:116-172 | while the chunks fit the window, the cache holds exactly the chunks so far |
| CachedAttention.ReadsPrefix | libs/uaii-kernels/src/dispatch.cpp:279-289 | part-way through a step, a layer reads exactly the chunks before the current one |
| CachedAttention.ChunkedIsOneShot | libs/uaii-kernels/src/dispatch.cpp:279-289 | for every split into chunks that fits the window, every layer and lane, the rows written chunk by chunk are the rows of one uncached causal call over the whole sequence |
| CachedAttention.ResidentRows | include/uaii/runtime/kv_cache.hpp:242-277 | resident rows followed by new ones are the history with the evicted span cut out |
| CachedAttention.CachedIsRestricted | libs/uaii-kernels/src/dispatch.cpp:279-289 | a cached call on any reachable cache is full causal attention restricted to sinks, newest resident rows and new rows |
| CachedAttention.FirstAppendEvicts | include/uaii/runtime/kv_cache.hpp:139-163 | the first append of a step on a full window evicts one row from every layer and changes no history |
| CachedAttention.FullWindowDecode | libs/uaii-kernels/src/dispatch.cpp:279-289 | decoding on a full window: the first layer reads all W resident rows and the new one, every later layer the sinks, the last W - 1 - sink rows and the new one; with no sliding window each output number is the average over exactly these keys of the history |
| Rope.PairIs | libs/uaii-kernels/src/transformer.cpp:319-350 | both pair layouts rotate each pair by its own angle, in leading and trailing partial rotation |
| Rope.RotatedDot | libs/uaii-kernels/src/transformer.cpp:308-350 | the dot product of two rotated heads depends on the heads and the angle differences alone |
| Rope.RelativePosition | libs/uaii-kernels/src/transformer.cpp:301-352 | with one frequency table that is a function of the distance of the two positions |
| Rope.ShiftInvariant | libs/uaii-kernels/src/transformer.cpp:301-352 | moving both positions by the same amount changes nothing |
| Rope.Positions | libs/uaii-kernels/src/transformer.cpp:657-674 | refused on missing data, other element types and different sizes, writing nothing; otherwise the rows of a block are numbered from the counter on |
| Rope.PositionIsHistoryIndex | include/uaii/runtime/kv_cache.hpp:87-87 | the position given to a token is its index in its lane's history exactly in lane 0 |
| RopeKernel.RopeF32 | libs/uaii-kernels/src/transformer.cpp:224-354 | a refused call leaves the output alone, also when it is the input buffer; otherwise every head of every row is rotated in place of its numbers: with mode 2 the numbers p and p + rot/2 of the rotated stretch, else 2p and 2p + 1, turned by position times frequency; the stretch starts at 0 or at width - rot by the alignment, positions come from the positions operand where it has the row and from the counter otherwise, and all other numbers are copied |
| RopeKernel.KernelTurns | libs/uaii-kernels/src/transformer.cpp:301-352 | rotated rows are, number by number, the sines and cosines of that arithmetic |
| RopeKernel.AcceptsIff | libs/uaii-kernels/src/transformer.cpp:241-283 | the checks pass exactly on the listed types, shapes and widths |
| RopeKernel.RowsEntry | libs/uaii-kernels/src/transformer.cpp:301-352 | each output number is that of the rotated head of its own row and head |
| RopeKernel.ZeroWidthDivides | libs/uaii-kernels/src/transformer.cpp:250-270 | exactly when a zero last width passes the checks and reaches the division |
| RopeKernel.TablesShared | libs/uaii-kernels/src/transformer.cpp:160-184 | two rows share a frequency table, without a published length: under dynamic scaling exactly when their positions agree or neither passes the original context, under long-context scaling exactly when both pass it or neither does |
| RopeKernel.KernelRelative | libs/uaii-kernels/src/transformer.cpp:301-352 | heads as the kernel wrote them, in any rows of any two outputs: their dot product is a function of the heads and the distance of the positions, if the two rows share a table |
| RopeKernel.PositionIgnoresChunks | libs/uaii-kernels/src/transformer.cpp:292-305 | a token gets the same position in two runs exactly when it is in lane 0 or the steps have the same length |
| RopeKernel.RotationIgnoresChunks | libs/uaii-kernels/src/transformer.cpp:292-352 | such a token is rotated alike in both runs, whatever was chunked or evicted before |
| Topology.StuckHasCycle | libs/uaii-ir/src/plan.cpp:86-101 | a non-empty set in which everything has a predecessor inside contains a cycle |
| Topology.TopologicalIsAcyclic | libs/uaii-ir/src/plan.cpp:86-96 | edges that all go forward in a listing have no cycle |
| Topology.Release | libs/uaii-ir/src/plan.cpp:91-95 | releasing a node's edges queues exactly the targets left without waiting edges |
| Topology.Drain | libs/uaii-ir/src/plan.cpp:79-101 | from any seeding order the drain lists each node at most once and after its predecessors, and lists all of them exactly when there is no cycle |
| Plan.Producers | libs/uaii-ir/src/plan.cpp:46-51 | the producer table holds, for each tensor, the node after which no other writes it |
| Plan.LastWriterIs | libs/uaii-ir/src/plan.cpp:46-51 | the producer of a tensor is its last writer, and there is one exactly when some node writes it |
| Plan.FeedsMeans | libs/uaii-ir/src/plan.cpp:63-76 | one node feeds another exactly when the other reads a tensor that the one is the last to write; none feeds itself |
| Plan.UniqueDeps | libs/uaii-ir/src/plan.cpp:64-71 | the dependency set of a node is exactly the other nodes it reads from, each once |
| Plan.EdgesAreFeeds | libs/uaii-ir/src/plan.cpp:63-77 | the edge list is acyclic exactly when no node feeds itself through others |
| Plan.BuildPlan | libs/uaii-ir/src/plan.cpp:42-118 | planning succeeds exactly when node ids are distinct and nothing feeds itself through others; the operations are the nodes, each once, after and with exactly their dependencies |
| Validator.CheckTensors | libs/uaii-ir/src/validator.cpp:53-80 | no tensor error exactly when ids are non-zero and distinct, names distinct, and the required dtypes and shapes present |
| Validator.CheckNodes | libs/uaii-ir/src/validator.cpp:102-154 | no node error exactly when nodes are well formed and no tensor has two writers; the table keeps the first writer |
| Validator.CheckCycles | libs/uaii-ir/src/validator.cpp:166-211 | with distinct ids, no cycle error exactly when no node reads its own output and the multigraph of reads is acyclic |
| Validator.Validate | libs/uaii-ir/src/validator.cpp:39-211 | a graph validates without errors exactly when it meets the stated conditions |
| Validator.FirstIsLast | libs/uaii-ir/src/validator.cpp:144-146 | where no tensor has two writers, the validator's first producer is the planner's last |
| Validator.SelfReads | libs/uaii-ir/src/validator.cpp:179-184 | a read counted as a self-cycle is exactly a read of the node's own output |
| Validator.ValidatedIsPlannable | libs/uaii-ir/src/validator.cpp:166-211 | whatever validates with cycle checking on meets the planner's condition |
| Validator.ValidateThenPlan | libs/uaii-ir/src/plan.cpp:98-118 | after a clean validation with cycle checking, planning succeeds with every node in order |
| Execution.ExecSolves | libs/uaii-runtime/src/session.cpp:1283-1390 | running all nodes in an order in which reads come after writes satisfies every node's equation in the final store |
| Execution.SolutionIsUnique | libs/uaii-runtime/src/session.cpp:1283-1390 | those equations have one solution over the initial store |
| Execution.PlanIsOrdered | libs/uaii-ir/src/plan.cpp:86-116 | a plan's operation order is such an order |
| Execution.Run | libs/uaii-runtime/src/session.cpp:1283-1390 | the run loop fails with the first missing node, input buffer or output buffer in plan order, and otherwise leaves the store of that order |
| Execution.RunsIffBacked | libs/uaii-runtime/src/session.cpp:1283-1356 | a plan of a sound graph runs to its end exactly when every tensor the graph reads or writes has a buffer |
| Execution.PlanMeaning | libs/uaii-ir/src/plan.cpp:79-118 | two plans of one validated graph, whatever orders they chose, run to the same store |
| Execution.ValidatedIsSound | libs/uaii-ir/src/validator.cpp:102-211 | a validated graph gives the executor distinct single producers, no cycle, and only declared tensors |
| Json.GetInsert | libs/uaii-ir/src/json_util.cpp:375-381 | reading a key after an ordered-map assignment gives the new value, every other key is as before |
| Json.InsertAscending | libs/uaii-ir/src/json_util.cpp:262-262 | assignment keeps the fields in ascending key order |
| JsonRoundTrip.ReadsQuoted | libs/uaii-ir/src/json_util.cpp:143-205 | every string reads back from its escaped form, control characters included |
| JsonRoundTrip.ReadsNumber | libs/uaii-ir/src/json_util.cpp:94-141 | a printed integer reads back to the same number |
| JsonRoundTrip.ReadsText | libs/uaii-ir/src/json_util.cpp:54-271 | a printed value parses back wherever it stands, in both forms and at any depth, and ends where the text ends |
| JsonRoundTrip.ParseUndoesStringify | libs/uaii-ir/src/json_util.cpp:16-373 | parsing a printed tree gives the tree back up to the sign of zero, compact and pretty |
| JsonRoundTrip.RoundTripIsIdentity | libs/uaii-ir/src/json_util.cpp:311-318 | it is the identity exactly when no number in the tree is a negative zero |
| JsonRoundTrip.ParseIsOrdered | libs/uaii-ir/src/json_util.cpp:235-271 | whatever text was parsed, the result keeps its objects in key order |
| JsonLanguage.ParsesExactly | libs/uaii-ir/src/json_util.cpp:25-273 | a text parses to a value exactly when it is white space, the text of a tree with that meaning, and white space: the grammar of RFC 8259 as a relation between texts and trees, of any depth and size, the last of repeated keys counting |
| JsonLanguage.Liberties | libs/uaii-ir/src/json_util.cpp:38-43 | vertical tabs and form feeds are white space, and control characters may stand in strings, which the standard forbids |
| JsonGrammar.DecimalWritten | libs/uaii-ir/src/json_util.cpp:311-320 | a printed integer is an integer of the grammar and denotes the number |
| JsonGrammar.NumbersAreNumbers | libs/uaii-ir/src/json_util.cpp:94-141 | the number scanner takes a whole text exactly when it is a number of the grammar in section 6 of RFC 8259 |
| JsonGrammar.EscapeTable | libs/uaii-ir/src/json_util.cpp:153-200 | the eight letters that may follow a backslash stand for their characters, u and four hexadecimal digits for a code point, and anything else is refused |
| JsonGrammar.Utf8Encodes | libs/uaii-ir/src/json_util.cpp:185-194 | an escaped code point becomes one byte below 80, two below 800 and three from there on, each in its range, that encode it by section 3 of RFC 3629 |
| JsonGrammar.EscapeWritten | libs/uaii-ir/src/json_util.cpp:275-296 | the printer escapes quotes, backslashes and control characters, each so, and nothing else |
| JsonGrammar.ArrayWritten | libs/uaii-ir/src/json_util.cpp:298-358 | an array is its elements in order, each on its own line in the pretty form, with a comma between any two and none at the end |
| JsonGrammar.ObjectWritten | libs/uaii-ir/src/json_util.cpp:298-358 | so is an object, with key, colon (and a blank in the pretty form) and value |
| JsonGrammar.BreakWritten | libs/uaii-ir/src/json_util.cpp:298-303 | a break is a new line and two blanks a level in the pretty form, nothing in the compact one |
| JsonParser.Parser.ParseString | libs/uaii-ir/src/json_util.cpp:143-205 | the character loop reads exactly the string the grammar function gives, or fails alike |
| JsonParser.Parser.ParseValue | libs/uaii-ir/src/json_util.cpp:54-69 | the recursive parser object follows the grammar function in value, position and failure |
| JsonParser.ParseText | libs/uaii-ir/src/json_util.cpp:16-27 | the whole parse ends on every input with the grammar function's result: it succeeds exactly on the texts of the language, with their meaning |
| JsonParser.WriteEscaped | libs/uaii-ir/src/json_util.cpp:275-296 | the escaping loop appends the quoted form |
| JsonParser.Dump | libs/uaii-ir/src/json_util.cpp:298-354 | the printer's loops append the specified text although they place line breaks differently |
| JsonParser.Stringify | libs/uaii-ir/src/json_util.cpp:366-373 | the printed text is the specified one |
| Names.DTypeRoundTrip | libs/uaii-ir/src/dtype.cpp:18-34 | every element type reads back from its printed name |
| Names.DTypeSpelled | libs/uaii-ir/src/dtype.cpp:18-34 | an element type is read from its two or three spellings, in whatever case, and from nothing else; the first is the one that is written |
| Names.HintSpelled | libs/uaii-ir/src/dtype.cpp:36-49 | so is a storage hint |
| Names.HintRoundTrip | libs/uaii-ir/src/dtype.cpp:36-49 | every storage hint reads back from its printed name |
| Names.QuantRoundTrip | include/uaii/quant/formats.hpp:34-81 | a quantisation format reads back from its printed name exactly when its code is a declared one |
| Names.QuantSpelled | include/uaii/quant/formats.hpp:57-80 | a quantisation format is read from its spellings, exact in case, and from nothing else |
| Names.NamedSizes | include/uaii/quant/formats.hpp:86-106 | bytes of n numbers by the name of the format |
| GraphJson.AttrRoundTrip | libs/uaii-ir/src/serialize_json.cpp:37-149 | attributes of all six kinds read back from their JSON |
| GraphJson.TensorRoundTrip | libs/uaii-ir/src/serialize_json.cpp:168-316 | tensors read back, negative dimensions and quantisation format included |
| GraphJson.NodeRoundTrip | libs/uaii-ir/src/serialize_json.cpp:183-391 | nodes read back with inputs, outputs and attributes in order |
| GraphJson.EncodeMeta | libs/uaii-ir/src/serialize_json.cpp:219-223 | the metadata object holds exactly the map's entries in key order, whatever order the map is walked in |
| GraphJson.DecodeUndoesEncode | libs/uaii-ir/src/serialize_json.cpp:153-432 | decoding the value tree of a graph gives the graph |
| GraphJson.JsonRoundTripOfGraph | libs/uaii-ir/src/serialize_json.cpp:153-432 | reading the written text gives the same graph in every field, when its numbers are integers below 1e15 and no float is a negative zero |
| GraphJson.GraphToJson | libs/uaii-ir/src/serialize_json.cpp:153-227 | writing fails exactly when an attribute's tag and value disagree; otherwise it leaves the specified text |
| GraphJson.GraphFromJson | libs/uaii-ir/src/serialize_json.cpp:229-432 | the reader's loops give the specified graph or failure on every text |
| Wire.TensorDefaults | libs/uaii-ir/src/serialize_json.cpp:274-317 | an object with nothing but an id is a tensor with everything else empty |
| Wire.NodeDefaults | libs/uaii-ir/src/serialize_json.cpp:326-388 | or a node of operator version 1 |
| Wire.UnknownDType | libs/uaii-ir/src/serialize_json.cpp:291-295 | an unknown element type is refused |
| Wire.UnknownHint | libs/uaii-ir/src/serialize_json.cpp:302-306 | so is an unknown storage hint |
| Wire.UnknownFormat | libs/uaii-ir/src/serialize_json.cpp:313-315 | an unknown quantisation format is ignored |
| Wire.OtherKind | libs/uaii-ir/src/serialize_json.cpp:291-291 | so is a field that is not a string where one is looked for |
| Wire.GraphDefaults | libs/uaii-ir/src/serialize_json.cpp:236-268 | an empty object is an empty graph of version 1.0 and domain uaii, and no tensor or node, which need an id |
| Bytes.LittleRoundTrip | libs/uaii-ir/src/serialize_binary.cpp:18-77 | little-endian fields of any width read back |
| Bytes.SignedRoundTrip | libs/uaii-ir/src/serialize_binary.cpp:28-87 | 64-bit two's complement reads back |
| Bytes.ManyRead | libs/uaii-ir/src/serialize_binary.cpp:239-286 | a counted list reads back wherever it stands when its elements do |
| BinaryIr.AttrReads | libs/uaii-ir/src/serialize_binary.cpp:119-222 | attributes of all six kinds read back |
| BinaryIr.TensorReads | libs/uaii-ir/src/serialize_binary.cpp:240-251 | tensors read back in every field the format carries |
| BinaryIr.NodeReads | libs/uaii-ir/src/serialize_binary.cpp:254-271 | nodes read back |
| BinaryIr.DecodeUndoesEncode | libs/uaii-ir/src/serialize_binary.cpp:226-444 | any bytes that start with an encoding decode to the encoded graph with every quantisation format reset, for any metadata order and any suffix |
| BinaryIr.RoundTripIsIdentity | libs/uaii-ir/src/serialize_binary.cpp:240-251 | the round trip is the identity exactly when every tensor has the plain quantisation format |
| BinaryIr.GraphSteady | libs/uaii-ir/src/serialize_binary.cpp:292-444 | appending bytes never changes what a readable file means |
| BinaryIr.PrefixesRejected | libs/uaii-ir/src/serialize_binary.cpp:46-117 | every strict prefix of an encoding is rejected |
| Wire.LittleDigits | libs/uaii-ir/src/serialize_binary.cpp:22-34 | integers are written with the least significant byte first |
| Wire.TensorBytes | libs/uaii-ir/src/serialize_binary.cpp:240-252 | one tensor, byte by byte |
| Wire.AttributeBytes | libs/uaii-ir/src/serialize_binary.cpp:119-152 | one attribute of each of the six kinds, byte by byte |
| Wire.NodeBytes | libs/uaii-ir/src/serialize_binary.cpp:254-271 | one node, byte by byte |
| Wire.GraphBytes | libs/uaii-ir/src/serialize_binary.cpp:230-289 | one graph, byte by byte, from the magic number to the metadata |
| Wire.StartChecks | libs/uaii-ir/src/serialize_binary.cpp:292-325 | short files and other magic numbers, other codec numbers and other versions than 1.0 are refused, each with its own error |
| Wire.KindsKnown | libs/uaii-ir/src/serialize_binary.cpp:154-222 | an attribute's kind is refused exactly when it is none of the six numbers |
| Wire.LastStays | libs/uaii-ir/src/serialize_binary.cpp:426-440 | of repeated metadata keys the last entry stays |
| BinaryIo.Writer.Fixed | libs/uaii-ir/src/serialize_binary.cpp:17-28 | the shift loop appends the little-endian bytes |
| BinaryIo.Reader.Fixed | libs/uaii-ir/src/serialize_binary.cpp:50-87 | the weighting loop reads the little-endian value or reports truncation |
| BinaryIo.GraphToBinary | libs/uaii-ir/src/serialize_binary.cpp:226-290 | writing fails exactly when an attribute's tag and value disagree; otherwise it leaves an encoding for some order of the metadata |
| BinaryIo.GraphFromBinary | libs/uaii-ir/src/serialize_binary.cpp:292-444 | the reader's loops give the decoder's graph or failure on every byte sequence |
| Entries.WalkEntries | libs/uaii-ir/src/serialize_binary.cpp:282-286 | walking an unordered map lists each entry once, in an arbitrary order |
| ParallelFor.EachIndexOnce | libs/uaii-kernels/src/thread_pool.cpp:53-68 | in every interleaving, once all workers have joined every index has run exactly once and the counter stands at n + workers |
| ParallelFor.AnyScheduleIsSequential | libs/uaii-kernels/src/thread_pool.cpp:53-68 | when tasks touch disjoint cells, every interleaving of their reads and writes leaves the memory of running them in index order |
| ParallelFor.EveryRunEnds | libs/uaii-kernels/src/thread_pool.cpp:54-60 | no run is longer than the accesses and draws left at its start, and one that has not joined can go on |
| ParallelFor.Finish | libs/uaii-kernels/src/thread_pool.cpp:62-68 | every reachable state can be run until all workers have joined |
| ParallelFor.CallIsSequential | libs/uaii-kernels/src/thread_pool.cpp:40-69 | inline or threaded, a call on disjoint tasks leaves the memory of the plain loop |
| Gemm.CeilQuotient | libs/uaii-kernels/src/gemm_ref.cpp:56-56 | the number of row tiles covers the rows with none empty |
| Gemm.TilesDisjoint | libs/uaii-kernels/src/gemm_ref.cpp:57-75 | tiles own disjoint rows of the output window |
| Gemm.ColumnAdds | libs/uaii-kernels/src/gemm_ref.cpp:60-73 | one row of tiles adds alpha times the whole dot product to each of its entries, for any tile size and remainder |
| Gemm.TilesMultiply | libs/uaii-kernels/src/gemm_ref.cpp:55-75 | the tiles in order add alpha * op(A) * op(B) to the window and change no other cell |
| Gemm.AnyScheduleMultiplies | libs/uaii-kernels/src/gemm_ref.cpp:45-76 | under every interleaving the result is alpha * op(A) * op(B) + beta * C on the m x n window, everything beyond it unchanged |
| RefGemm.ScalePass | libs/uaii-kernels/src/gemm_ref.cpp:45-53 | the three cases of beta scale the window and nothing else |
| RefGemm.OneTile | libs/uaii-kernels/src/gemm_ref.cpp:57-75 | the nested tile loops perform exactly the tile's program of updates |
| RefGemm.MultiplyF32 | libs/uaii-kernels/src/gemm_ref.cpp:21-77 | null buffers and empty sizes are refused untouched; otherwise cell i * ldc + j is alpha times the sum of A at i * lda + e (or e * lda + i) times B at e * ldb + j (or j * ldb + e) plus beta times what it was, and all other cells are kept, for all sizes, strides and transposes |
| Cells.ProductIsCells | libs/uaii-kernels/src/gemm_ref.cpp:57-75 | the product of the tile proofs is that sum, cell by cell |
| Formats.SlicesPartition | include/uaii/quant/formats.hpp:84-106 | the bytes of e packed pieces add up to those of the whole exactly when their remainders together stay below one block |
| QuantGemm.Dot | libs/uaii-kernels/src/quant_gemm.cpp:20-38 | the four-lane dot product and the scalar one are the same number |
| QuantGemm.ColumnsDisjoint | libs/uaii-kernels/src/quant_gemm.cpp:79-89 | column tasks write disjoint cells |
| QuantGemm.AnyScheduleMultipliesPacked | libs/uaii-kernels/src/quant_gemm.cpp:79-89 | every column schedule leaves the dot products of the unpacked rows; columns whose row does not unpack keep their contents |
| QuantGemm.QuantIsDense | libs/uaii-kernels/src/quant_gemm.cpp:66-90 | when every row unpacks, the packed product is the dense transposed product on the unpacked weights |
| QuantGemm.QuantGemmF32 | libs/uaii-kernels/src/quant_gemm.cpp:46-91 | refusals leave the output alone; otherwise cell i * N + j is the sum of row i times weight row j, unpacked from the bytes at j times the packed row size, and keeps its contents where that row does not unpack |
| QuantGemm.QuantAccepts | libs/uaii-kernels/src/quant_gemm.cpp:46-72 | its checks pass exactly with transpose_b, a format from q4_0 to iq4_nl, and shapes [M,K], [M,N] that fit the stated or stored rows and columns of the weights |
| QuantGemm.MatmulF32 | libs/uaii-kernels/src/matmul.cpp:22-56 | the dense entry point checks shapes and leaves, cell by cell, the product with alpha 1 and beta 0 |
| QuantGemm.MatmulAccepts | libs/uaii-kernels/src/matmul.cpp:22-52 | its checks pass exactly when op(A), op(B) and C are m by k, k by n and m by n, non-empty and backed by data |
| QuantGemm.DispatchMatMul | libs/uaii-kernels/src/dispatch.cpp:106-119 | formats from q4_0 to iq4_nl with a transposed second operand take the packed kernel, everything else the dense one; success exactly on that kernel's checks, leaving its cells |
| QuantGemm.OpProductIff | libs/uaii-kernels/src/dispatch.cpp:111-119 | successful dispatches on weights of a format leave op(A) * op(B), for all data, exactly when A is not flagged as transposed or the dense kernel is taken |
| QuantGemm.TransposedDiffers | libs/uaii-kernels/src/dispatch.cpp:111-113 | for every packed format, a square A of one block with a single entry below the diagonal and one weight row that unpacks to the first unit vector: cell 1 becomes 1, where the product with A transposed has 0 |
| QuantGemm.SampleRuns | libs/uaii-kernels/src/quant_gemm.cpp:46-91 | that call passes the checks and has a result |
| Moe.TopK | libs/uaii-kernels/src/transformer.cpp:794-800 | the selection is the k most probable experts in descending order, with ties broken arbitrarily |
| Moe.TopKMeans | libs/uaii-kernels/src/transformer.cpp:794-800 | the first choice is a maximum; of probabilities 0.2, 0.7, 0.1 the two chosen are number 1 and number 0, in this order |
| Moe.WeightsSumToOne | libs/uaii-kernels/src/transformer.cpp:801-810 | the selected weights sum to 1 exactly when the selected mass is positive |
| Moe.HiddenPass | libs/uaii-kernels/src/transformer.cpp:815-829 | every hidden number h satisfies h * (1 + exp(-g)) = g * u, with g and u the sums of the row against row i of the gate and of the up matrix |
| Moe.ExpertPass | libs/uaii-kernels/src/transformer.cpp:808-839 | one expert adds its weighted output to the row in place and changes nothing else |
| Moe.HiddenIsGated | libs/uaii-kernels/src/transformer.cpp:815-829 | a hidden number is its gated product |
| Mixtures.ExpertGives | libs/uaii-kernels/src/transformer.cpp:808-838 | an output number of an expert is the sum of the gated products times row o of its down matrix, read at the expert's place in the flat buffers |
| Mixtures.MixedIsMixture | libs/uaii-kernels/src/transformer.cpp:801-840 | a mixed number times the selected mass, or 1 if that is not positive, is the sum of the probabilities times what the experts give |
| Mixtures.UpScales | libs/uaii-kernels/src/transformer.cpp:815-838 | scaling an expert's up matrix scales its output by the same factor |
| Mixtures.GateDoesNotScale | libs/uaii-kernels/src/transformer.cpp:822-829 | scaling its gate does not: with all matrices 1, twice the gate gives twice the output exactly if exp(-2) = exp(-1) |
| MoeKernels.MixRow | libs/uaii-kernels/src/transformer.cpp:794-840 | one row becomes the mixture of its chosen experts, or the pass stops at the first absent one |
| MoeKernels.PackedSwiglu | libs/uaii-kernels/src/transformer.cpp:752-842 | the packed kernel fails only on shapes; otherwise, for each row b, the recorded choice is the min(max(top_k, 1), E) most probable experts and every output number is the average by probability of what these experts give, read at e * I * D and e * D * I in the bank |
| MoeKernels.PackedAccepts | libs/uaii-kernels/src/transformer.cpp:758-784 | its checks pass exactly when x, output, bank and probabilities have the shapes [B,D], [B,D], [E,I,D], [E,I,D], [E,D,I], [B,E] for the stated E |
| MoeKernels.ListedSwiglu | libs/uaii-kernels/src/transformer.cpp:844-943 | after its checks the listed kernel fails exactly when a row picks an expert that is not paged in; every row finished before, and all rows otherwise, holds the average by probability of what its experts give, each read from its own three buffers |
| MoeKernels.ListedAccepts | libs/uaii-kernels/src/transformer.cpp:850-889 | its checks pass exactly when the shapes fit, every listed expert is absent or has the one width, and, if all are absent, the first gate still states one |
| MoeKernels.PagesAreListed | libs/uaii-kernels/src/transformer.cpp:862-889 | a partly paged-in bank passes the list checks once one expert is there, with the bank's width |
| MoeKernels.ListedIsPacked | libs/uaii-kernels/src/transformer.cpp:844-943 | with the selected entries paged in, an output holds the packed kernel's rows for given choices exactly when it holds the listed kernel's |
| MoeKernels.TopKUnique | libs/uaii-kernels/src/transformer.cpp:799-800 | without ties the selection is determined |
| MoeKernels.RunsAgree | libs/uaii-kernels/src/transformer.cpp:752-943 | any packed run and any successful listed run leave the same rows, given rows without ties or ties broken alike, whatever unselected experts are absent |
| MoeKernels.DispatchSwiglu | libs/uaii-kernels/src/dispatch.cpp:310-327 | a call is refused for its arity exactly with other than one output, fewer than five operands, or more than five and not 2 + 3 * num_experts; five operands are rows, gate, up, down, probabilities, more are rows, probabilities and a gate, up, down for each expert, and success leaves the averages of the respective kernel on them |
| MoeKernels.ListedReaches | libs/uaii-kernels/src/dispatch.cpp:317-326 | a call that the listed kernel would accept reaches it exactly when it lists more or fewer than one expert; with one it is always refused for its ranks |
| MoeKernels.DispatchesAgree | libs/uaii-kernels/src/dispatch.cpp:310-327 | through the dispatcher, a packed call and a listed call that succeed leave the same rows, unless one expert is listed |
| Gguf.ValueReads | libs/uaii-loaders/src/gguf.cpp:41-249 | a written metadata value of the ten handled kinds reads back; any other reads back as the empty string |
| Gguf.InfoReads | libs/uaii-loaders/src/gguf.cpp:444-464 | tensor descriptions read back |
| Gguf.ValueSteady | libs/uaii-loaders/src/gguf.cpp:41-187 | a value read from some bytes reads the same from any extension, nested skipped arrays included |
| GgufFile.MaskIsPadding | libs/uaii-loaders/src/gguf.cpp:466-470 | the reader's 64-bit mask and the writer's padding loop reach the same offset, unless adding 31 wraps |
| GgufFile.MapSurvives | libs/uaii-loaders/src/gguf.cpp:699-724 | the metadata survives a write exactly when every value is of a handled kind |
| GgufFile.HeaderReads | libs/uaii-loaders/src/gguf.cpp:404-473 | a header decodes to its written entries and descriptions whatever follows |
| GgufFile.HeaderPrefixesRejected | libs/uaii-loaders/src/binary_io.hpp:43-77 | every strict prefix of a header is rejected |
| Wire.ValueBytes | libs/uaii-loaders/src/gguf.cpp:191-218 | one scalar metadata value of each written kind, byte by byte |
| Wire.ArrayBytes | libs/uaii-loaders/src/gguf.cpp:220-249 | one array of each written kind, byte by byte |
| Wire.InfoBytes | libs/uaii-loaders/src/gguf.cpp:727-739 | one tensor description, byte by byte |
| Wire.StartBytes | libs/uaii-loaders/src/gguf.cpp:692-697 | the start of a file: magic, version 3, counts of tensors and entries |
| Wire.NarrowRead | libs/uaii-loaders/src/gguf.cpp:91-187 | bytes, halves and flags are read by their type numbers, sign included |
| Wire.WideRead | libs/uaii-loaders/src/gguf.cpp:91-187 | so are the 32-bit and 64-bit values |
| Wire.TypesKnown | libs/uaii-loaders/src/gguf.cpp:91-187 | types above twelve are refused |
| Wire.FirstStays | libs/uaii-loaders/src/gguf.cpp:431-442 | of repeated metadata keys the first entry stays |
| GgufLoad.HeaderRoundTrip | libs/uaii-loaders/src/gguf.cpp:688-746 | reading the header of a written file gives the written metadata, the descriptions and the true data offset, in whatever order the metadata went out |
| GgufLoad.TensorRoundTrip | libs/uaii-loaders/src/gguf.cpp:475-526 | loading a written tensor by an unmarked name gives the exact numbers and the reversed dimensions exactly when the dimensions multiply to the number of numbers; by a marked one it is not found exactly when no tensor carries the part before the mark |
| GgufLoad.MarkedName | libs/uaii-loaders/src/gguf.cpp:292-299 | a name that holds #e= is looked up by the part before it: not found exactly when no tensor has that name, the whole of that tensor for a negative index |
| GgufLoad.ReloadsIff | libs/uaii-loaders/src/gguf.cpp:475-490 | tensors of a name reload, in every file and for all data, exactly when the name does not hold #e= |
| GgufLoad.MarkedExample | libs/uaii-loaders/src/gguf.cpp:292-299 | the file of the one tensor a#e=0 can be written, and loading a#e=0 from it finds nothing |
| GgufLoad.LoadsAgree | libs/uaii-loaders/src/gguf.cpp:475-686 | whenever the packed load succeeds, the numeric load unpacks exactly those bytes, or refuses the two formats it unpacks itself when the count is not a multiple of 32 |
| GgufLoad.SliceNamed | libs/uaii-loaders/src/gguf.cpp:292-299 | name#e=i selects slice i of the bank the name denotes |
| GgufBlocks.SplitIs | libs/uaii-loaders/src/gguf.cpp:292-299 | a name without #e= asks for itself; otherwise for the expert whose number follows the first mark, of the tensor named before it |
| GgufBlocks.NumelIsProduct | libs/uaii-loaders/src/gguf.cpp:286-290 | the count of a tensor's numbers is the product of its dimensions modulo 2^64 |
| GgufBlocks.LoadRawIs | libs/uaii-loaders/src/gguf.cpp:615-686 | for each of the thirteen supported types a packed load of n numbers returns exactly n / block * bytes bytes, with the block and byte counts of the type, from data offset plus tensor offset plus those of the numbers before the slice; other types, empty results, short files, non-banks and slices out of range are refused as such |
| GgufBlocks.LoadF32Is | libs/uaii-loaders/src/gguf.cpp:475-613 | the numeric load reads exactly those bytes (n bytes for I8), as little-endian words or through the unpacker, with the same refusals |
| GgufBlocks.SlicesPartitionBlocks | libs/uaii-loaders/src/gguf.cpp:635-677 | for a type of this block size, the slices of a bank that loads partition its bytes exactly when the remainders together stay below one block |
| GgufLoad.SlicesPartitionBank | libs/uaii-loaders/src/gguf.cpp:635-677 | the slices of a bank that loads partition its bytes exactly when the remainders together stay below one block |
| GgufLoad.Int8Slices | libs/uaii-loaders/src/gguf.cpp:512-521 | an eight-bit bank's slice starts where it should exactly when it is the first or empty |
| GgufIo.ByteWriter.PadTo32 | libs/uaii-loaders/src/binary_io.hpp:99-103 | the padding loop appends the fewest zeros that reach a multiple of 32 |
| GgufIo.ByteWriter.PutValue | libs/uaii-loaders/src/gguf.cpp:189-249 | values are written in the specified layout |
| GgufIo.GgufWrite | libs/uaii-loaders/src/gguf.cpp:688-746 | the writer leaves the specified file for some order of the metadata |
| GgufIo.ByteReader.ReadValue | libs/uaii-loaders/src/gguf.cpp:91-187 | the recursive value reader follows the decoder in value, position and failure |
| GgufIo.ByteReader.ReadEntries | libs/uaii-loaders/src/gguf.cpp:431-442 | of repeated keys the first entry stays |
| GgufIo.GgufReadHeader | libs/uaii-loaders/src/gguf.cpp:404-473 | the header reader gives the decoder's file or failure on every byte sequence, where no position plus a length field reaches 2^64 |
| GgufIo.LoadTensorRaw | libs/uaii-loaders/src/gguf.cpp:615-686 | the packed load answers, by the first tensor of the name asked for, with exactly the bytes and refusals of LoadRawIs, on every file and name for which data offset, tensor offset and sizes add up to less than 2^64 |
| GgufIo.LoadTensorF32 | libs/uaii-loaders/src/gguf.cpp:475-613 | the numeric load answers with exactly the numbers and refusals of LoadF32Is, on every file and name for which data offset, tensor offset and sizes add up to less than 2^64 |

## Findings

Where the code does less than a reader would expect, it is modelled as it is and the
exact condition is proved.

- **Positions in batches** (RopeKernel.PositionIgnoresChunks, Rope.PositionIsHistoryIndex). Rows are numbered through
  the whole [batch, seq] block, so token t of lane b in an n-token step is given counter + b * n + t. Lane 1 of a
  two-token step gets positions 2 and 3; the same two tokens in one-token steps get 1 and 2. A token's position is
  independent of the chunking exactly in lane 0 or when the steps have the same length.
- **Zero width** (RopeKernel.ZeroWidthDivides). Shape [1, 0] with head width 2 passes the checks and divides by zero;
  exactly the inputs with a zero last width and a legal given head width do.
- **Refused appends** (KvModel.OverflowLeavesOnlySinks, KvModel.RefusedIsUnchanged, KvModel.RefusedFullWindow). Compaction
  comes before the capacity check: a refused append leaves the cache as it was exactly when no row beyond the sinks was
  resident (or a check before compaction failed). A full window of four rows with two sinks loses two of them to a refused
  append of three. The cached attention branch has by then already written its output.
- **Negative lengths** (KvModel.NegativeAppend, KvModel.CommitRewinds, KvModel.NegativeRewinds). An append of views with a
  negative sequence length passes exactly when that many rows are committed, and the next commit then moves position and
  occupancy back; a commit does so exactly in that case. With two rows committed, length minus one leaves one.
- **Negative zero** (JsonRoundTrip.RoundTripIsIdentity). It prints as 0 and reads back as positive zero.
- **JSON beyond the standard** (JsonLanguage.ParsesExactly, JsonLanguage.Liberties). The reader accepts exactly the language of
  RFC 8259, except that vertical tabs and form feeds count as white space and that any character may stand in a string, line
  breaks too.
- **Escaped code points** (JsonGrammar.Utf8Encodes). A comment in the reader announces a question mark for those outside
  ASCII; the code writes their UTF-8, and the model follows the code. The two halves of a surrogate pair are encoded each on its own.
- **Quantisation formats** (BinaryIr.RoundTripIsIdentity). The binary format has no field for them; all read back as F32, so
  the round trip is the identity exactly when all are F32.
- **Metadata kinds** (GgufFile.MapSurvives). Seven of the seventeen value kinds, 64-bit signed integers and doubles among
  them, are written as the empty string.
- **Eight-bit slices** (GgufLoad.Int8Slices). The numeric load offsets an expert slice of an I8 bank by four bytes per number.
- **Odd slices** (GgufLoad.SlicesPartitionBank). Slices whose length is not a multiple of the block overlap or leave gaps
  once their remainders add up to a block.
- **Marked names** (GgufLoad.TensorRoundTrip, GgufLoad.MarkedName, GgufLoad.ReloadsIff, GgufLoad.MarkedExample). A tensor can
  be written under a name that holds `#e=`, but is then looked up by the part before the mark. Tensors of a name reload in
  every file exactly when the name does not hold it; the tensor `a#e=0`, written alone, is not found.
- **Transposed first operand** (QuantGemm.OpProductIff, QuantGemm.TransposedDiffers, QuantGemm.SampleRuns). On the packed path
  `transpose_a` is ignored: the result is op(A) * op(B) on all data exactly when A is not flagged as transposed or the dense
  kernel is taken. A square A with one entry below the diagonal shows the difference for every packed format.
- **One listed expert** (MoeKernels.ListedReaches, MoeKernels.DispatchSwiglu). A list of one expert has five operands, which
  dispatch takes for a packed bank. A legal listed call reaches the listed kernel exactly when it lists some other number;
  with one it is always refused for its ranks.

## Left out

- Rounding, NaN and infinity: kernels are over reals; a masked score has weight exactly 0 where the code takes exp of about -1e9.
- The frequency table's scaling rules, square root, tanh, sine, cosine, logarithm and the unpacking of weight rows: parameters.
- KvModel.Commit: after an append of a negative length, a later append that is refused can evict so many rows that the commit makes the occupancy negative; the model commits only while it stays non-negative.
- KvHistory.Legal: the run theorems are about appends of non-negative lengths; what a negative one does is stated by NegativeAppend.
- KvCache.KvCache.PastView: returns the rows by value; that a later call or append invalidates an aliased or packed view is not modelled.
- Attention.AttentionKv: the present_k and present_v outputs, which the cached path does not use.
- RopeKernel.RopeF32: the inputs that divide by zero; negative dimensions, for which the source writes nothing if its checks pass.
- QuantGemm.QuantGemmF32: runs the columns in index order, as on one thread; schedules are the subject of AnyScheduleMultipliesPacked.
- RefGemm.MultiplyF32: runs the tiles in index order; schedules are the subject of AnyScheduleMultiplies. A row stride of C smaller than n, where rows overlap and tasks race, is left out.
- MoeKernels.PackedSwiglu: negative expert counts and widths, for which the source fails to allocate.
- MoeKernels.DispatchSwiglu: operand counts for which 2 + 3 * num_experts overflows, and the truncation of the attributes to 32 bits.
- Execution.Run: operators are pure functions of their inputs; device placement, streamed weights and profiling are left out.
- Plan.BuildPlan: memory hints, text and JSON renderings of a plan.
- Validator.Validate: issue texts, and the shape checks of single operators that follow the cycle check.
- JsonParser.ParseText: error texts and positions; recursion depth.
- GraphJson.GraphFromJson: conversions of numbers outside the target's range, which the source leaves undefined, reduce modulo the width.
- GgufIo.GgufReadHeader: length fields for which position plus length reaches 2^64, where the bounds test would wrap, and the memory a huge count would reserve.
- GgufIo.LoadTensorRaw: offsets whose sum with the data offset and the sizes reaches 2^64. The source adds modulo 2^64 and reads at the wrapped place; the model finds the file too short.
- GgufIo.LoadTensorF32: the same offsets.
- GgufLoad.LoadsAgree: unpacking of half floats and blocks is one parameter that may fail, although some of it never does.
- Native byte order: fields copied from memory are taken as little-endian.
- File access, logging, plugins, other backends, the router kernel, the dense expert kernel, sessions beyond the run loop, tokenizers and the import of whole models.
