# AxisRL verification model

AxisRL trains language-model agents with reinforcement learning. Rollouts run against inference engines, their
token traces become training samples, samples are dealt to data-parallel trainers, and agents that are black boxes
reach the model through an OpenAI-compatible proxy. This project models the stateful logic of that pipeline in
Dafny and proves what it keeps. `dafny verify dfyconfig.toml` checks all of it.

How it is organised. Where the program changes state step by step, a class or a method with loops does the same
and is proved against a function of its inputs or of its old state; the theorems are lemmas about that function
and hold for every input, every run and every interleaving. `Basics` and `Masking` hold shared notions.

- **Rollout trace and routing replay** (`TokenChunks`, `Samples`, `TraceModel`, `TraceStreams`, `TraceTheorems`,
  `TraceLockstep`, `RolloutTrace`). A trace is a list of typed token chunks with cached expert-routing rows. A row is represented by
  the token prefix it was computed from, so a stale row is a wrong value, and cache soundness says that row `r` equals
  the first `r + 1` tokens of the current stream after any run of appends, prompt re-renders, placeholder compactions
  and summary compactions. `TraceStreams` says what each operation does to the token stream, the messages, the cached
  rows and the samples.
- **Packing** (`PrefixTree`, `Packing`, `TracePacking`). The greedy packing of turn samples into prefix-sharing trees,
  with the tree itself: its size estimate, what it stores, and when greedy packing is optimal.
- **Scatter and gather** (`Arithmetic`, `ScatterGather`). Grouping rows by trajectory, padding, shuffling, dealing to
  ranks and merging row outputs by index.
- **Proxy registry and black-box environment** (`RegistryModel`, `Registry`, `EnvProtocol`, `BlackBoxEnv`). The
  registry is a state machine whose events are the stretches of coroutines between two suspension points; the
  environment runs against it while any other coroutine may interfere, and every call it serves reaches its
  submitter as the model's output or, once the deadline has passed, as the timeout.
- **Scheduling and batches** (`Labels`, `GroupStreamModel`, `GroupStreaming`, `Regrouping`, `OnlineBatches`,
  `Advantages`). Bounded-concurrency group streaming, regrouping of results in any order, batch formation with
  filtering and carry-over, and group advantages over the reals.
- **Smaller cores** (`Residency`, `StdoutReader`, `StdoutLines`, `StdoutChunking`, `QaFormat`, `LongestSpan`). GPU
  residency over stage switches, the chunked output reader and what its result owes to the reads, the search-answer
  format automaton, the longest valid code span.

Where the program demands something of its caller with an assertion, the model has a precondition, or a result
`None` when the failing case itself is of interest. Results that depend on an engine, a clock, a shuffle or a parser
are parameters.

What turned out not to hold, with a concrete input or the exact condition in the model:

- The packed length the greedy loop measures is not monotone under sub-blocks: a tree splits one token before the
  point where two paths part, so dropping a turn can lengthen a block. Greedy packing then uses three groups where two
  fit (`Packing.GreedyNotOptimalInGeneral`), on turns a rollout can record (`TracePacking.RecordedTurnsPackedBadly`).
  The exact condition is that starting a group later within a greedy group never reaches further than the greedy group
  after it (`Packing.GreedyOptimalIff`); block-monotone lengths, and so every append-only trace, meet it.
- Compaction finds tool chunks and tool messages independently. Over runs without a replaced prompt they stay in step
  exactly while no tool message repeats the placeholder text, and the prompt itself is in step exactly if it brings no
  tool messages; once lost the step is not regained (`TraceLockstep.LockstepFromSeed`, `LockstepNotRegained`). Out of
  step a compaction may fail its message count assertion, change nothing, or blank the wrong message
  (`TraceLockstep.SeededToolMessageIsBlankedInstead`).
- The documentation of group streaming promises the original group order; groups come out in the order in which they
  complete. Over the runs the scheduler can make, which fill all room before each wait, the two agree exactly if only
  one task may run at a time or only one group has items (`GroupStreamModel.OriginalOrderIff`). The model follows the
  code.
- Advantages of a group cancel exactly up to 26 rollouts; from 27 on the clip at 5 can bind and leave a non-zero sum
  (`Advantages.TwentySixIsTheLimit`). For one success among failures they cancel exactly up to 26, or below the
  deviation floor (`Advantages.OneSuccessCancelsIff`).
- A trace may be seeded with a count of routing rows it does not hold. Its cache is then wrong from the first captured
  turn on; it is sound exactly for seeds without such a count (`TraceModel.InitialInv`,
  `TraceModel.SeededRowsAreMisplaced`).
- What is read from a stream can depend on how it is cut into reads. It does not exactly if every line is stable:
  within the pending limit, or one character over it at the end of the input; or so long that its number of flushes is
  forced, with segments that begin alike and nothing but carriage returns after the last flush
  (`StdoutChunking.SameLinesIff`, `StdoutLines.StableIff`). A line that ends within one read of the limit is never
  stable (`StdoutChunking.LongLineIsSplit`); a line over the limit can be (`StdoutChunking.ReturnsReadAlike`).
- The assertion that a new handle's row count is not negative fails exactly for an empty turn on a stream that is
  already captured in full (`TraceTheorems.RowCountAssertion`).
- In disaggregated placement a weight sync does not bring the engine's weights onto the GPU, only a rollout stage does
  (`Residency.DisaggregatedRunsExclusive`). An online run syncs weights once before its first rollout stage, and
  `initialize_placement`, which would bring them, has no caller in the repository.

## Model

| member | source | states |
|---|---|---|
| TraceTheorems.RoutingCacheSound | axrl/data/rollout_trace.py:90-131 | After every run from a seed that captures no routing or counts no routing rows yet, each cached routing row equals the current token prefix it stands for, the recorded row count is the number of cached rows, there are never more rows than tokens, every turn sample is sound, and the samples' responses are exactly the assistant outputs in order |
| TraceTheorems.RunEffect | axrl/data/rollout_trace.py:133-196 | Over any run the invariant holds, earlier turn samples are never altered, one sample is added per assistant turn, and trainable tokens equal assistant tokens appended |
| TraceTheorems.RowCountAssertion | axrl/data/token_trace.py:137-146 | The non-negativity assertion fails exactly for an empty turn on a stream whose tokens are all captured |
| TraceTheorems.CompactionCompose | axrl/data/rollout_trace.py:427-461 | Compacting to k1 and then to a smaller k2 equals compacting to k2 at once, on tokens, messages and routing state |
| TraceTheorems.CompactionIdempotent | axrl/data/rollout_trace.py:427-461 | Compacting twice is compacting once |
| TraceTheorems.CompactionRoutingStable | axrl/data/rollout_trace.py:463-515 | A second, deeper compaction leaves the already trimmed handles alone |
| TraceModel.StepKeepsInv | axrl/data/rollout_trace.py:90-461 | Every public operation keeps the cache invariant and only extends the turn samples |
| TraceModel.AppendAssistantKeepsInv | axrl/data/rollout_trace.py:144-177 | An assistant turn whose routing was captured from the recorded row on keeps the cache sound |
| TraceModel.AppendHandleKeepsRouting | axrl/data/token_trace.py:109-146 | Engine rows that start at the recorded row count continue the cached rows without gap or overlap |
| TraceModel.AppendAssistantSample | axrl/data/rollout_trace.py:165-175 | The new turn sample is well shaped, its selected tokens and its trained labels are exactly the assistant output, and the log-probabilities under the loss mask are exactly those of the engine |
| TraceModel.TurnCloses | axrl/data/rollout_trace.py:206-239 | The stream after a turn ends with the boundary token wherever one is given and one more token fits; it is exactly the old stream followed by the output where none is given, none fits or the output ends with it already; never is more than one token added |
| TraceStreams.AssistantStream | axrl/data/rollout_trace.py:133-177 | An assistant turn adds its output and the closing boundary to the stream, its message to the messages, exactly its handle's rows to the cached rows and one sample, of the stream up to its output |
| TraceStreams.AssistantAccepts | axrl/data/rollout_trace.py:155-167 | A turn passes the assertions exactly with one log-probability per token, a prompt before it, room for it, and no handle for an empty turn on a fully captured stream |
| TraceStreams.MessageStream | axrl/data/rollout_trace.py:179-196 | An appended message adds its tokens and itself, counts as an uncompacted tool result exactly if it is a tool message, and changes nothing else |
| TraceStreams.PromptStream | axrl/data/rollout_trace.py:90-131 | A re-rendered prompt is the new stream; of the cached rows it keeps the longest front such that one token more is shared with the old stream, and all of them if there are no more |
| TraceStreams.CompactionStream | axrl/data/rollout_trace.py:427-461 | A compaction rewrites exactly the uncompacted tool chunks that at least the kept number of others follow, and as many of the oldest other tool messages; the kept number, or all, stay uncompacted |
| TraceStreams.SummaryStream | axrl/data/rollout_trace.py:399-418 | A summary restarts stream and messages as its own, without cached rows, and keeps the samples |
| TraceStreams.StepAccepts | axrl/data/rollout_trace.py:90-461 | Every operation passes its assertions exactly if what it asks for fits the maximum length, a compaction strictly and with enough tool messages, and then makes its own transition |
| TraceModel.AppendMessageKeepsInv | axrl/data/rollout_trace.py:179-196 | Appending a user or tool message keeps every cached row valid |
| TraceModel.PreparePromptKeepsInv | axrl/data/rollout_trace.py:90-131 | A re-rendered prompt keeps only rows of the token-identical prefix and stays sound, also when the conversation was swapped before |
| TraceModel.CompactionKeepsExactlyTheValidRows | axrl/data/rollout_trace.py:463-515 | After compaction the cached rows are exactly the minimum of the tokens before the first rewritten chunk and the rows cached before: no stale row stays and no valid row goes |
| TraceModel.CompactToolsKeepsInv | axrl/data/rollout_trace.py:427-461 | Placeholder compaction keeps the cache invariant |
| TraceModel.CompactSummaryKeepsInv | axrl/data/rollout_trace.py:399-418 | Summary compaction restarts a sound trace |
| TraceModel.InitialInv | axrl/data/rollout_trace.py:57-68 | A seeded trace satisfies the invariant if and only if the seed captures no routing or counts no routing rows yet |
| TraceModel.SeededRowsAreMisplaced | axrl/data/rollout_trace.py:57-68 | From any other seed the first captured handle puts a row of a longer prefix first, so the cache is wrong from the first turn on |
| TraceModel.CommonPrefixLen | axrl/data/rollout_trace.py:543-549 | The longest common prefix: equal up to it and different at it |
| TokenChunks.TrimKeepsExactly | axrl/data/rollout_trace.py:463-515 | The handle loop keeps exactly the first rows of its budget, provided no handle at or after the rewritten chunk ends before them |
| TokenChunks.TakeRowsKeepsExactly | axrl/data/rollout_trace.py:517-540 | Cutting handles to a row count keeps exactly the first rows |
| TokenChunks.TrimTwice | axrl/data/rollout_trace.py:463-515 | Trimming again at a later chunk with the same budget changes nothing |
| TokenChunks.Capture | axrl/agent/rollout_agent.py:26-45 | What the engine captures when asked to start at a row: one row for each later token but the last, and which token prefix each of them stands for |
| Masking.MaskFirstAt | axrl/data/rollout_trace.py:435-458 | An element is rewritten exactly if it matches and fewer than the given number match before it |
| Masking.MaskCompose | axrl/data/rollout_trace.py:435-458 | Rewriting m1 and then m2 matches is rewriting m1 + m2 at once |
| Masking.CountAfterMask | axrl/data/rollout_trace.py:435-458 | Each rewrite removes exactly one match |
| Masking.CollectHits | axrl/data/rollout_trace.py:428-434 | The collected indices are all matches, ascending |
| Masking.RewriteFirst | axrl/data/rollout_trace.py:435-458 | The index loop rewrites exactly the first matches |
| Masking.ZerothHitIsFirst | axrl/data/rollout_trace.py:434-440 | The first collected index is the first match |
| TraceLockstep.CompactionKeepsLockstep | axrl/data/rollout_trace.py:427-461 | While chunks and messages are in step the message count assertion passes and compaction keeps them in step |
| TraceLockstep.AppendKeepsLockstep | axrl/data/rollout_trace.py:179-196 | An appended message keeps the step exactly if it is not a tool message with the placeholder text |
| TraceLockstep.AssistantKeepsLockstep | axrl/data/rollout_trace.py:144-177 | Assistant turns never break the step |
| TraceLockstep.FreshPromptLockstep | axrl/data/rollout_trace.py:90-131 | A prompt or summary replaced wholesale is in step exactly if its messages hold no tool result |
| TraceLockstep.LockstepOverRuns | axrl/data/rollout_trace.py:144-196 | Over every run of turns, appended messages and compactions with one placeholder text, from a trace in step: in step at the end if and only if no appended tool message had that text |
| TraceLockstep.LockstepNotRegained | axrl/data/rollout_trace.py:144-196 | A trace out of step by an excess of chunks or by tool messages of the prompt is out of step after every such run |
| TraceLockstep.LockstepFromSeed | axrl/data/rollout_trace.py:57-68 | After every such run from any seed: in step if and only if the seed had no tool message and no appended one had the placeholder text |
| TraceLockstep.SeededToolMessageIsBlankedInstead | axrl/data/rollout_trace.py:427-461 | Out of step, compaction blanks a seeded tool message and leaves the compacted chunk's own message alone |
| TraceLockstep.ModesAgree | axrl/data/rollout_trace.py:420-426 | With placeholders first, conversation-only compaction rewrites the messages that token mode rewrites |
| TraceLockstep.TokenModeMatchesConversationMode | axrl/data/rollout_trace.py:376-397 | In step and with placeholders first, both modes leave the same messages |
| TraceLockstep.CompactionKeepsPlaceholdersFirst | axrl/data/rollout_trace.py:420-461 | Compaction keeps placeholders in front, so the modes keep agreeing |
| RolloutTraceClasses.TokenTrace.ExtendTokens | axrl/data/token_trace.py:109-135 | Appends one chunk and, with a handle, one entry whose row count and chunk index are recorded beside it |
| RolloutTraceClasses.TokenTrace.NewRoutingRowCount | axrl/data/token_trace.py:137-146 | The count is negative exactly if the rows held before already cover the extended stream, and otherwise it is the number of rows the engine captures from there |
| RolloutTraceClasses.TokenTrace.CapturedRoutingRows | axrl/data/token_trace.py:105-107 | The captured rows are the sum of the recorded counts |
| RolloutTraceClasses.TokenTrace.ToLastTurnSample | axrl/data/token_trace.py:158-220 | The sample built in place is the specified one |
| RolloutTraceClasses.CommonPrefixLength | axrl/data/rollout_trace.py:543-549 | The loop finds the longest common prefix |
| RolloutTraceClasses.TakePrefixRows | axrl/data/rollout_trace.py:517-540 | The in-place cut of the three parallel lists is the specified cut |
| RolloutTraceClasses.TrimHandleLists | axrl/data/rollout_trace.py:463-515 | The in-place trim of the three parallel lists is the specified trim, and the rows kept are counted right |
| RolloutTraceClasses.RolloutTrace.constructor | axrl/data/rollout_trace.py:43-68 | A new trace is the specified initial one, and satisfies the invariant exactly for a seed that captures no routing or counts no rows yet |
| RolloutTraceClasses.RolloutTrace.PrepareGenerationInput | axrl/data/rollout_trace.py:90-131 | The object performs the specified prompt re-render and keeps its invariant |
| RolloutTraceClasses.RolloutTrace.AppendAssistantMessage | axrl/data/rollout_trace.py:133-177 | The object performs the specified assistant turn, closes the stream with the boundary token wherever one is given and fits, and with nothing else, and adds one sample after the old ones |
| RolloutTraceClasses.RolloutTrace.AppendAssistantBoundaryIfNeeded | axrl/data/rollout_trace.py:206-239 | Afterwards the stream ends with the boundary token wherever one is given and one more token fits, and is unchanged where none is given, none fits or the output ends with it already |
| RolloutTraceClasses.RolloutTrace.AppendUserOrToolMessage | axrl/data/rollout_trace.py:179-196 | The object performs the specified append |
| RolloutTraceClasses.RolloutTrace.Compact | axrl/data/rollout_trace.py:376-397 | The object performs the specified placeholder compaction on chunks, messages and handles |
| RolloutTraceClasses.RolloutTrace.InvalidateStaleR3Handles | axrl/data/rollout_trace.py:463-515 | Handles are trimmed as specified and the recorded row count follows |
| RolloutTraceClasses.RolloutTrace.CompactToSummaryConversation | axrl/data/rollout_trace.py:399-418 | The object restarts from the summary as specified |
| Samples.BuildTurnSampleCorrect | axrl/data/token_trace.py:158-220 | Position by position, labels, mask, logprobs and turn index of a turn sample speak about the next token, and only the last assistant chunk is trainable |
| Samples.TurnSampleUnique | axrl/data/token_trace.py:158-220 | The position-wise description determines the sample |
| Samples.GetPromptIds | axrl/data/sample.py:428-441 | The prompt is the input up to the first trainable token |
| Samples.GetResponseIds | axrl/data/sample.py:444-456 | The response is the trainable tokens in order |
| Samples.ResponseIsLastChunk | axrl/data/sample.py:444-456 | Read back from a turn sample, padded or not, the response is exactly the last assistant chunk |
| Samples.PromptIsPrefix | axrl/data/sample.py:428-441 | Read back from a turn sample, the prompt is exactly the tokens before that chunk |
| Samples.ReadBack | axrl/data/sample.py:419-456 | Prompt followed by response rebuilds the token stream |
| Samples.TurnSampleCounts | axrl/data/token_trace.py:158-220 | A turn sample trains exactly its assistant tokens and attends to exactly its real tokens |
| Samples.TrainedSpan | axrl/data/token_trace.py:158-220 | Under the loss mask a turn sample holds the last chunk's tokens as labels, with that chunk's own log-probabilities |
| Samples.InputLogprobStartIndex | axrl/opd/teacher_logprobs.py:38-48 | Fails exactly on the assertions of the source; otherwise the window starts one past the first trainable label, within the real tokens |
| Samples.AlignInputLogprobs | axrl/opd/teacher_logprobs.py:51-77 | Alignment succeeds exactly if the checks pass, and places every score at its label and zero off the mask |
| Samples.TeacherWindowIsLossMask | axrl/opd/teacher_logprobs.py:38-77 | For a turn sample the start index is the start of its assistant chunk, the checks pass for a response covering it, and the aligned window is the loss mask |
| PrefixTree.SharedLen | axrl/utils/megatron/prefix_tree.py:167-190 | Equal up to the shared length and different at it |
| PrefixTree.LabelAwareLenIsLongest | axrl/utils/megatron/prefix_tree.py:167-190 | The label-aware length is the longest run on which both sides agree on each token and, where both go on, on the token after it |
| PrefixTree.EstimateIsExact | axrl/utils/megatron/prefix_tree.py:215-251 | The estimated growth is exactly the growth insertion reports |
| PrefixTree.InsertGrowsSize | axrl/utils/megatron/prefix_tree.py:192-213 | Insertion grows the packed size by exactly what it reports |
| PrefixTree.InsertAddsPath | axrl/utils/megatron/prefix_tree.py:192-213 | Insertion loses no stored path and adds exactly the new one |
| PrefixTree.TreeOfFaithful | axrl/utils/megatron/prefix_tree.py:126-141 | A group's tree stores exactly its members, its length field is its size, and the estimate foretells the next one |
| PrefixTree.ChainPackedLen | axrl/utils/megatron/prefix_tree.py:192-213 | A chain of prefixes packs to its last member |
| Packing.ToPackedGroups | axrl/data/rollout_trace.py:261-317 | The groups concatenate to the turns, each is non-empty and fits, none could have taken the next turn, and packing fails exactly if some single turn is too long, naming the first one |
| Packing.GreedyUnique | axrl/data/rollout_trace.py:296-317 | That contract determines the groups: any two splits that fit and could not have taken the next turn are equal |
| Packing.GreedyOptimalIff | axrl/data/rollout_trace.py:296-317 | For turns that fit one by one: the loop uses the fewest groups on every contiguous block if and only if starting a group later within a greedy group never reaches further than the greedy group after it |
| Packing.NoLookaheadNotOptimal | axrl/data/rollout_trace.py:296-317 | Wherever that look-ahead fails, a block splits in two and the loop makes three groups of it |
| Packing.FewestGroups | axrl/data/rollout_trace.py:296-317 | Under look-ahead no contiguous fitting split uses fewer groups than the loop |
| Packing.MonotoneLooksAhead | axrl/data/rollout_trace.py:296-317 | Block-monotone lengths look ahead at every limit |
| Packing.GreedyStaysAhead | axrl/data/rollout_trace.py:296-317 | Under look-ahead the greedy cut is never behind that of any fitting split |
| Packing.GreedyOptimal | axrl/data/rollout_trace.py:296-317 | For block-monotone lengths, which look ahead at every limit, no contiguous fitting split uses fewer groups |
| Packing.ChainsAreMonotone | axrl/data/rollout_trace.py:296-317 | Turns that extend each other are block-monotone |
| Packing.GreedyNotOptimalInGeneral | axrl/data/rollout_trace.py:296-317 | Four concrete turns for which every result that meets the loop's contract has three groups where two fit, and look-ahead fails |
| TracePacking.AppendStepKeepsChain | axrl/data/rollout_trace.py:144-196 | Appends keep every turn a prefix of the next |
| TracePacking.ChainPacksIntoOneGroup | axrl/data/rollout_trace.py:261-317 | A prefix chain that packs at all packs into one group |
| TracePacking.AppendOnlyRunsPackIntoOneGroup | axrl/data/rollout_trace.py:261-317 | A rollout that was never re-rendered or compacted packs into one sample |
| TracePacking.AnyTurnsRecorded | axrl/data/rollout_trace.py:90-177 | Every list of turns of two tokens or more that fit the trace is what some run of prompts and answers records |
| TracePacking.RecordedTurnsPackedBadly | axrl/data/rollout_trace.py:90-177 | From every sound seed a run records the four turns that the loop packs into three groups where two fit |
| Strides.Stride | axrl/data/global_batch_iterator.py:171-172 | The extended slice holds the elements at the visited positions |
| Strides.EqualShares | axrl/data/global_batch_iterator.py:171-172 | On a multiple of the step every start visits the same number of positions |
| ScatterGather.RowsOfBatch | axrl/data/global_batch_iterator.py:89-93 | Exactly the rows of the batch's trajectories, in order |
| ScatterGather.GroupRowIndicesByGlobalBatch | axrl/data/global_batch_iterator.py:65-93 | Grouping succeeds exactly on contiguous ids, yields ceil(trajectories / batch size) groups however many rows each trajectory has, and each is the rows of its trajectories |
| ScatterGather.BatchesNonEmpty | axrl/data/global_batch_iterator.py:153-154 | No global batch is empty, so the row assertion never fires |
| ScatterGather.BuildGlobalBatchesForDpRank | axrl/data/global_batch_iterator.py:119-173 | Succeeds exactly if no sample has a trajectory id or the ids are exactly 0 to the largest. Every row of batch b other than padding is then of a trajectory whose id divided by the batch size is b, and the batches number one more than the last trajectory's; without ids each sample counts as a trajectory. A rank's slices are its share of every shuffled, padded batch |
| ScatterGather.LocalRows | axrl/data/global_batch_iterator.py:96-116 | Every dealt row is padding without trainable tokens, or a sample whose trajectory id, or position without ids, divided by the batch size is the batch |
| ScatterGather.EqualLocalRows | axrl/data/global_batch_iterator.py:155-172 | All ranks receive the same number of rows of a batch, its rows rounded up to a multiple of the ranks |
| ScatterGather.EveryRowDealt | axrl/data/global_batch_iterator.py:148-173 | Every sample is dealt: to the batch that is its trajectory id, or without ids its position, divided by the batch size |
| ScatterGather.TrajectoryInOneBatch | axrl/data/global_batch_iterator.py:65-93 | Two dealt samples of one trajectory are in the same batch, on whatever ranks |
| ScatterGather.IdsAcceptedIff | axrl/data/global_batch_iterator.py:81-87 | The assertions on the ids hold exactly if no sample has an id or the samples' own ids are 0 to the largest |
| ScatterGather.DealtOnce | axrl/data/global_batch_iterator.py:148-173 | No sample is dealt twice |
| ScatterGather.ForwardBatch | axrl/worker/megatron_worker.py:1141-1151 | A forward pass returns one output per micro-batch, the row indices and values of exactly its rows |
| ScatterGather.MergeTensorOutputs | axrl/ray/ray_megatron_worker.py:189-217 | The merge succeeds exactly if the real indices cover 0 to n - 1 without overlap between chunks, and every row lands at its index |
| ScatterGather.DealMergeable | axrl/ray/ray_megatron_worker.py:209-217 | The outputs of all micro-batches, however each rank splits each of its batches, always satisfy the merge's assertions |
| ScatterGather.ScatterComputeGather | axrl/ray/ray_megatron_worker.py:380-404 | Scatter, a row-wise function on every rank over any partition of its batches into micro-batches, and merge together are mapping that function over the original rows; they fail exactly on no samples or ids with gaps |
| RegistryModel.RegistrySafe | axrl/openai_proxy/server.py:71-161 | In every reachable state open and closed sessions are disjoint, live requests belong to open sessions, and a queue delivers its own session's requests once each and in submission order |
| RegistryModel.RunKeepsInv | axrl/openai_proxy/server.py:71-161 | Every interleaving of events keeps the invariant |
| RegistryModel.RunExtends | axrl/openai_proxy/server.py:123-148 | Over every interleaving outcomes, resolved futures and deliveries are never taken back: at most one outcome per request |
| RegistryModel.DeliveredToOwner | axrl/openai_proxy/server.py:132-142 | A delivered request belongs to the session of the queue |
| RegistryModel.DeliveredInOrder | axrl/openai_proxy/server.py:132-142 | A queue delivers in submission order, nothing twice |
| RegistryModel.CloseSettlesSession | axrl/openai_proxy/server.py:84-93 | Closing leaves no live request of the session and answers each of its waiting submitters with status 499, and touches no other session's request |
| RegistryModel.CloseIdempotent | axrl/openai_proxy/server.py:84-93 | Closing twice is closing once |
| RegistryModel.FirstAnswerWins | axrl/openai_proxy/server.py:123-148 | The submitter gets the first answer that beats its deadline; a later answer changes nothing, and after the deadline the outcome is the 504 timeout |
| RegistryModel.CreateKeepsInv | axrl/openai_proxy/server.py:78-82 | Creating or re-creating a session keeps the invariant |
| RegistryModel.SubmitKeepsInv | axrl/openai_proxy/server.py:95-124 | Submitting keeps the invariant |
| RegistryModel.TakeKeepsInv | axrl/openai_proxy/server.py:136-142 | Taking the head of any queue, also of a dropped one, keeps the invariant |
| RegistryModel.AnswerKeepsInv | axrl/openai_proxy/server.py:144-161 | Responding and failing keep the invariant |
| RegistryModel.CloseKeepsInv | axrl/openai_proxy/server.py:84-93 | Closing keeps the invariant |
| RegistryModel.ExpireKeepsInv | axrl/openai_proxy/server.py:123-126 | A passing deadline keeps the invariant |
| RegistryModel.ResumeKeepsInv | axrl/openai_proxy/server.py:123-130 | A resuming submitter keeps the invariant |
| RegistryClass.Registry.CreateSession | axrl/openai_proxy/server.py:78-82 | The object performs the create event and reports an existing session |
| RegistryClass.Registry.CloseSession | axrl/openai_proxy/server.py:84-93 | Draining the queue and then failing the remaining requests of the session is the close event |
| RegistryClass.Registry.SubmitChatCompletion | axrl/openai_proxy/server.py:95-124 | The object refuses closed and unknown sessions and otherwise queues a fresh request |
| RegistryClass.Registry.FinishSubmit | axrl/openai_proxy/server.py:123-130 | The resuming submitter returns its response, or the 504 timeout |
| RegistryClass.Registry.TakeFromQueue | axrl/openai_proxy/server.py:136-142 | One queue read, with dead requests reported as such |
| RegistryClass.Registry.Respond | axrl/openai_proxy/server.py:144-148 | The object performs the answer event |
| RegistryClass.Registry.Perform | axrl/openai_proxy/server.py:71-161 | Every event can be performed by the object exactly as specified |
| EnvProtocol.ForeignKeeps | axis_recipe/blackbox_rl/blackbox_env.py:312-322 | Nothing another coroutine does opens or closes the environment's session or adds to its unanswered requests |
| EnvProtocol.ForeignUndisturbed | axis_recipe/blackbox_rl/blackbox_env.py:312-322 | Nothing another coroutine does answers a request of the session; of its waiting requests exactly those stop waiting whose deadline passes |
| EnvProtocol.RepliedIsServed | axrl/openai_proxy/server.py:123-130 | The submitter of an answered request returns that answer or the timeout, nothing else |
| EnvProtocol.OwnTake | axis_recipe/blackbox_rl/blackbox_env.py:312-322 | Taking from its own queue adds at most the taken request |
| EnvProtocol.OwnAnswer | axis_recipe/blackbox_rl/blackbox_env.py:137-183 | Answering a request removes it from the unanswered ones; if it was waiting it gets the response, otherwise its deadline had passed |
| EnvProtocol.OwnClose | axis_recipe/blackbox_rl/blackbox_env.py:444-471 | Closing its session leaves nothing unanswered |
| EnvProtocol.OwnCreate | axis_recipe/blackbox_rl/blackbox_env.py:108-135 | A session created for an attempt starts with nothing unanswered |
| BlackBoxEnvClass.BlackBoxEnv.Start | axis_recipe/blackbox_rl/blackbox_env.py:108-135 | Under any interference, starting ends with the request of the first attempt that gets one and its input logged, or out of attempts with the session closed and nothing unanswered |
| BlackBoxEnvClass.BlackBoxEnv.TryAttempt | axis_recipe/blackbox_rl/blackbox_env.py:108-135 | An attempt whose launch raises, whose request does not come or whose conversion raises closes its session with nothing unanswered; only a converted request, the first live one the queue delivers, leaves it open |
| BlackBoxEnvClass.BlackBoxEnv.Rollout | axis_recipe/blackbox_rl/train_blackbox_rl.py:210-219 | Every rollout ends within the allowed number of calls: not started, exactly if no attempt gets a request, or finished for a reason of the last step, with the session closed, nothing unanswered, one turn sample and one logged input and output per call, or at an answer that fails the trace's assertions; the score of a finished one is the forced score or else the verifier's. Every call without an invalid tool call was answered with status 200 and its own output unless the deadline had passed, and its submitter returns that or the timeout |
| BlackBoxEnvClass.BlackBoxEnv.Step | axis_recipe/blackbox_rl/blackbox_env.py:137-183 | Each step records one output, keeps earlier samples, logs output k then input k + 1, and ends done or with one current request. Without an invalid tool call the request gets status 200 and the output, exactly if it still waits and its deadline does not pass before, and the step goes on exactly with the request the queue then delivers; with one, a request that ends the rollout gets 400 out of calls and 413 for a long prompt. The reward is zero until the end and then the final score. Calls left strictly decrease |
| BlackBoxEnvClass.BlackBoxEnv.AnswerAndContinue | axis_recipe/blackbox_rl/blackbox_env.py:137-183 | The request gets status 200 and the output, exactly if it still waits and its deadline does not pass before; the step then ends exactly on a normal finish, the last call, no further request or a prompt that is too long |
| BlackBoxEnvClass.BlackBoxEnv.AnswerRequest | axis_recipe/blackbox_rl/blackbox_env.py:151-159 | The output is recorded and sent with status 200: the waiting request gets it unless its deadline passes first |
| BlackBoxEnvClass.BlackBoxEnv.WaitForRequest | axrl/openai_proxy/server.py:132-142 | Returns the first live request that the session's queue delivers, dropping dead ones, or none when the wait ends |
| BlackBoxEnvClass.BlackBoxEnv.AwaitNext | axis_recipe/blackbox_rl/blackbox_env.py:166-183 | Times out exactly if no request comes and the runtime is not done; goes on exactly with the request that comes, if its prompt fits |
| BlackBoxEnvClass.BlackBoxEnv.RetryAfterInvalidToolCall | axis_recipe/blackbox_rl/blackbox_env.py:185-231 | An invalid tool call consumes one call, keeps the same pending request unless the rollout ends, and ends it exactly if calls or prompt length run out, answering the request with 400 or 413 |
| BlackBoxEnvClass.BlackBoxEnv.NextObservation | axis_recipe/blackbox_rl/blackbox_env.py:324-348 | The next prompt becomes the current input, or ends the rollout if it is too long, answering its request with 413 |
| BlackBoxEnvClass.BlackBoxEnv.BuildObservation | axis_recipe/blackbox_rl/blackbox_env.py:324-348 | A prompt that is too long leaves trace and log untouched; any other is rendered into the trace as the prompt re-render does |
| BlackBoxEnvClass.BlackBoxEnv.TimeOut | axis_recipe/blackbox_rl/blackbox_env.py:436-442 | A request timeout closes the session, marks the last output and scores zero |
| BlackBoxEnvClass.BlackBoxEnv.AttachRequestTimeout | axis_recipe/blackbox_rl/blackbox_env.py:615-631 | The last logged output is marked; the fallback that appends a new event is never reached |
| BlackBoxEnvClass.BlackBoxEnv.CloseSessionAndTerminate | axis_recipe/blackbox_rl/blackbox_env.py:444-471 | After closing nothing of the session is unanswered; a last request still waiting gets an error response of the given status |
| BlackBoxEnvClass.BlackBoxEnv.Finish | axis_recipe/blackbox_rl/blackbox_env.py:502-541 | Finishing marks the environment done with its session closed; a forced score wins over the verifier's |
| BlackBoxEnvClass.BlackBoxEnv.RecordAnswer | axis_recipe/blackbox_rl/blackbox_env.py:592-613 | Trace, outputs and log each gain exactly the one answer |
| Labels.SessionIdInjective | axrl/controller/base_controller.py:246-249 | The session string determines conversation, counter, group and item, whatever the conversation id contains |
| Labels.GroupIdInjective | axrl/pipeline/controller.py:654-654 | The group id string determines step, schedule, position and conversation |
| Labels.DecimalInjective | axrl/controller/base_controller.py:249-249 | Decimal numerals of different numbers differ |
| Labels.DecimalValue | axrl/controller/base_controller.py:249-249 | A numeral read back digit by digit is its number, and has no leading zero |
| Labels.LabelExamples | axrl/controller/base_controller.py:249-249 | The two label formats spelled out on one label each |
| GroupStreamModel.RunSafe | axrl/controller/base_controller.py:282-315 | At every point of every run at most the allowed number of tasks is active and every started task is active or done, never both |
| GroupStreamModel.EmittedExactlyWhenDone | axrl/controller/base_controller.py:302-315 | At every point a group has been yielded, once, exactly if all its requests are in |
| GroupStreamModel.EmittedPrefix | axrl/controller/base_controller.py:302-315 | What has been yielded is never reordered or taken back |
| GroupStreamModel.YieldedInCompletionOrder | axrl/controller/base_controller.py:302-315 | A group that completes before another is yielded before it |
| GroupStreamModel.CompleteRunYieldsAll | axrl/controller/base_controller.py:282-315 | A complete run yields every group that has a request |
| GroupStreamModel.AllYieldedMeansComplete | axrl/controller/base_controller.py:282-282 | When as many groups are out as there are groups, nothing is running or waiting |
| GroupStreamModel.OriginalOrderIff | axrl/controller/base_controller.py:263-315 | Every run of the scheduler yields the groups in their original order, as the documentation promises, if and only if at most one task may run at a time or at most one group has items; runs fill all room before each wait |
| GroupStreamModel.LaterGroupFirst | axrl/controller/base_controller.py:263-315 | With room for two and two non-empty groups, a run of the scheduler that holds back the earlier group's last task yields the later group first |
| GroupStreamModel.HeldBackRun | axrl/controller/base_controller.py:282-302 | Any task can be the last one running, in a run that fills all room before each wait |
| GroupStreamModel.OneSlotKeepsOrder | axrl/controller/base_controller.py:263-315 | With room for one task every run yields the groups in order |
| GroupStreamModel.PendingAt | axrl/controller/base_controller.py:271-275 | Item i of group g is the request at a known position |
| GroupStreamModel.PendingOnly | axrl/controller/base_controller.py:271-275 | Every request is an item of a group, and no item is listed twice |
| GroupStreaming.PartialGroupState.constructor | axrl/controller/base_controller.py:43-50 | All slots of a new group are empty |
| GroupStreaming.PartialGroupState.SetResult | axrl/controller/base_controller.py:52-55 | One empty slot is filled and counted |
| GroupStreaming.PartialGroupState.IsComplete | axrl/controller/base_controller.py:57-58 | The count reaches the size exactly when no slot is empty |
| GroupStreaming.PartialGroupState.GetResults | axrl/controller/base_controller.py:60-66 | A complete group returns all its results in item order; no slot is ever missing |
| GroupStreaming.AllFilled | axrl/controller/base_controller.py:57-66 | Counting arrivals is counting filled slots |
| GroupStreaming.SessionsDistinct | axrl/controller/base_controller.py:246-249 | Different requests of a call get different sessions |
| GroupStreaming.SessionsDistinctAcrossCalls | axrl/controller/base_controller.py:246-249 | A later call reuses no session of an earlier one |
| GroupStreaming.EveryGroupDeliveredOnce | axrl/controller/base_controller.py:251-315 | For every completion order each non-empty group is delivered exactly once with its results in item order, and empty groups never |
| GroupStreaming.DeliveryAt | axrl/controller/base_controller.py:311-315 | Each delivery pairs a group index with that group's results |
| GroupStreaming.StreamEnds | axrl/controller/base_controller.py:282-301 | With room for at least one task the loop only ends when the run is complete |
| GroupStreaming.CollectKeepsBuffered | axrl/controller/base_controller.py:302-315 | Collecting a task keeps the buffers equal to the results that are in |
| GroupStreaming.BaseController.AssignRolloutSessionId | axrl/controller/base_controller.py:246-249 | The counter advances and names the session |
| GroupStreaming.BaseController.ScheduleWhileRoom | axrl/controller/base_controller.py:283-298 | Requests start in order until none is left or the room is used up, so the wait that follows finds all room filled, and nothing is yielded by it |
| GroupStreaming.BaseController.CollectTask | axrl/controller/base_controller.py:304-315 | A finished task's slot was empty; its group is yielded exactly if that completed it |
| GroupStreaming.BaseController.CollectDone | axrl/controller/base_controller.py:302-315 | The tasks of one wait are collected in any order, each group yielded when its last task is |
| GroupStreaming.BaseController.StreamGroupResults | axrl/controller/base_controller.py:251-315 | Whatever completions occur, the run is legal and fills all room before each wait, it is complete if any room is allowed, and exactly what it emits is delivered |
| Regrouping.BuffersStayShort | axrl/pipeline/controller.py:1032-1038 | A buffer never reaches the group size, groups handed out have exactly it, and neither mixes group ids |
| Regrouping.RegroupingConserves | axrl/pipeline/controller.py:1019-1045 | For each group id, what was delivered is what was handed out followed by what is buffered, in order |
| Regrouping.RoundComplete | axrl/pipeline/controller.py:1019-1045 | After a round in any order every scheduled group has been handed out once, is exactly its deliveries, and no buffer is left |
| Regrouping.RoundNotOverEarly | axrl/pipeline/controller.py:1124-1130 | The last group is not complete before the last result is in |
| Regrouping.ScheduledIdsDistinct | axrl/pipeline/controller.py:651-654 | Two groups of a round have different ids even for the same prompt |
| Regrouping.ScheduledCount | axrl/pipeline/controller.py:651-666 | Every group id is scheduled exactly group-size times |
| Regrouping.ScheduledAt | axrl/pipeline/controller.py:651-666 | Rollout r of group g stands at position g * size + r of the schedule, with its prompt, its group's id and its own index r |
| Regrouping.AnyOrderIsARound | axrl/pipeline/controller.py:1116-1124 | Any permutation of the scheduled rollouts satisfies what regrouping relies on |
| Regrouping.GroupSharesPrompt | axrl/pipeline/controller.py:870-871 | The results of one group share one conversation id, as normalization asserts |
| OnlineBatches.RolloutGroupStream.Next | axrl/pipeline/controller.py:1019-1045 | Takes results until a group is full, hands out exactly that group, and reads past the end only if no group can complete |
| OnlineBatches.Shuffle | axrl/pipeline/controller.py:1086-1086 | Some permutation |
| OnlineBatches.ProgressStep | axrl/pipeline/controller.py:1127-1171 | How one group changes the batches yielded and the groups waiting, on and off policy |
| OnlineBatches.RoundOutcome | axrl/pipeline/controller.py:1116-1130 | Any delivery order of a round gives one group per prompt, leaves no buffer, and gives the last group only with the last result |
| OnlineBatches.PipelineController.BuildTrainRolloutConversations | axrl/pipeline/controller.py:638-666 | The loops schedule exactly the specified conversations under a fresh schedule number |
| OnlineBatches.PipelineController.PrepareOnlineTrainGroupBatch | axrl/pipeline/controller.py:1078-1099 | The batch has exactly the target number of valid groups, its counts cover all its groups, and together with its skipped groups it is everything that waited |
| OnlineBatches.PipelineController.AddGroup | axrl/pipeline/controller.py:1130-1147 | A group joins the valid or the skipped ones and the counts |
| OnlineBatches.PipelineController.HandleGroup | axrl/pipeline/controller.py:1130-1171 | A batch is yielded exactly if the group is valid, the target is reached and, on policy, the round is over; otherwise the group waits |
| OnlineBatches.PipelineController.RunRound | axrl/pipeline/controller.py:1114-1175 | For every delivery order every generated group is in exactly one batch or waits, batches are well formed, the numbers of batches and waiting groups are exact, and the dropped stream holds nothing |
| OnlineBatches.ProgressTally | axrl/pipeline/controller.py:1127-1171 | What one round adds to the number of batches and leaves waiting: quotient and remainder off policy, all or nothing on policy |
| OnlineBatches.PipelineController.StreamOnlineTrainGroupBatches | axrl/pipeline/controller.py:1101-1176 | Over any number of rounds the groups generated are exactly those of the batches plus those waiting; off policy every full target is a batch, on policy each round yields at most one, exactly if its last group is valid and the target is reached |
| Advantages.AdvantageBounded | axrl/pipeline/controller.py:885-890 | No advantage exceeds 5 in size |
| Advantages.SquareOfSum | axrl/pipeline/controller.py:879-880 | The square of a sum is at most the count times the sum of squares |
| Advantages.DeviationBound | axrl/pipeline/controller.py:879-890 | No score lies further from the mean than (n - 1) / sqrt n standard deviations |
| Advantages.SmallGroupsUnclipped | axrl/pipeline/controller.py:885-890 | In groups of 2 to 26 the clip never changes a value |
| Advantages.SmallGroupsSumToZero | axrl/pipeline/controller.py:879-892 | In groups of 2 to 26 the advantages sum to exactly zero |
| Advantages.UnclippedSumsToZero | axrl/pipeline/controller.py:879-892 | Wherever nothing is clipped the advantages cancel |
| Advantages.AdvantageOfDeviation | axrl/pipeline/controller.py:885-890 | Any group: zero below a deviation of 10^-8, otherwise the distance from the mean over the deviation plus 10^-6, cut off at 5 and -5 |
| Advantages.HigherScoreHigherAdvantage | axrl/pipeline/controller.py:885-890 | In groups of 2 to 26 with a deviation of at least 10^-8 a higher score means a strictly higher advantage |
| Advantages.SmallGroupsUnitVariance | axrl/pipeline/controller.py:879-890 | In such groups the sum of squared advantages times (std + 10^-6)^2 is (n - 1) std^2 |
| Advantages.FlatGroup | axrl/pipeline/controller.py:886-887 | Below a deviation of 10^-8 all advantages are zero |
| Advantages.LargeGroupsDoNotCancel | axrl/pipeline/controller.py:879-892 | In every group of 27 or more with one success of score 1 or more and a deviation above the floor, the success is clipped and the advantages sum to less than zero |
| Advantages.OneSuccessCancelsIff | axrl/pipeline/controller.py:879-892 | One success among failures: the advantages sum to zero if and only if there are at most 26 rollouts or the deviation is below the floor |
| Advantages.TwentySixIsTheLimit | axrl/pipeline/controller.py:879-892 | The advantages of every group of n rollouts sum to zero if and only if n is at most 26 |
| Advantages.NormalizeGroupRewards | axrl/pipeline/controller.py:867-898 | Every result gets the group's mean and deviation on its metric and its own reward, baseline and advantage, and so does each of its turn samples, with the advantage on trainable tokens and zero elsewhere. The advantages held are all zero below a deviation of 10^-8; above it, in groups of at most 26, they sum to zero, order the results strictly as their scores do, and have variance 1 up to the added 10^-6 |
| Residency.RunsSafeIff | axrl/controller/stage_manager.py:27-69 | Over every run of stage switches and direct moves, at every operation the KV cache never shares the GPU with a trainer nor the trainers with each other, if and only if the direct moves start without KV cache |
| Residency.StepSafeIff | axrl/controller/stage_manager.py:41-69 | From any safe run a stage switch is safe at each operation and a direct move exactly without KV cache |
| Residency.ColocatedStageManager.SwitchToWeightSync | axrl/controller/stage_manager.py:41-47 | Carries out its operations in order, each leaving a safe placement, and ends with weights and actor resident |
| Residency.ColocatedStageManager.SwitchToRollout | axrl/controller/stage_manager.py:49-55 | Carries out its operations in order, each leaving a safe placement, and ends with only the rollout engine resident |
| Residency.ColocatedStageManager.SwitchToTrain | axrl/controller/stage_manager.py:57-62 | Carries out its operations in order, each leaving a safe placement, and ends with only the actor resident |
| Residency.ColocatedStageManager.SwitchToValueTrain | axrl/controller/stage_manager.py:64-69 | Carries out its operations in order, each leaving a safe placement, and ends with only the value model resident |
| Residency.ColocatedStageManager.PreparePpoTrainingSamples | axrl/pipeline/controller.py:1310-1316 | The controller's moves before the value forward pass are safe without KV cache |
| Residency.ColocatedStageManager.TrainOnlineSampleDataset | axrl/pipeline/controller.py:1540-1583 | The controller's moves between value and actor training are safe, and the actor trains only on the GPU |
| Residency.RunOnlineRlTrain | axrl/pipeline/controller.py:1616-1653 | Every online training run with colocated placement carries out its stage switches and direct moves in order, makes the direct moves without KV cache, and so passes through safe placements only |
| Residency.RunOnlineRlTrainDisaggregated | axrl/pipeline/controller.py:1616-1653 | Every online training run with disaggregated placement carries out its stage switches and direct moves in order, never has both trainers resident, trains each batch with its model resident, and leaves the engine fully resident from its first rollout stage on |
| Residency.DisaggregatedRunsExclusive | axrl/controller/stage_manager.py:72-110 | Over every disaggregated run, direct moves at any time included, the trainers are never both on the GPU, and the engine's weights and cache are resident exactly once a rollout stage has occurred |
| Residency.DisaggregatedStageManager.ActorTakesOver | axrl/controller/stage_manager.py:92-105 | Weight sync and training both carry out their operations in order and leave only the actor of the trainers resident |
| Residency.DisaggregatedStageManager.SwitchToRollout | axrl/controller/stage_manager.py:97-100 | Carries out its operations in order and leaves the engine fully resident, the trainers where they were |
| Residency.DisaggregatedStageManager.SwitchToValueTrain | axrl/controller/stage_manager.py:107-110 | Carries out its operations in order and leaves only the value model of the trainers resident |
| StdoutReader.ReadChunksWhole | axis_recipe/blackbox_rl/openhands_utils.py:55-83 | If no proper prefix of a text leaves more than the limit pending, chunks of any size read as the whole text at once |
| StdoutChunking.SameLinesIff | axis_recipe/blackbox_rl/openhands_utils.py:45-92 | For every text and parser: all ways to read it in reads of at most 64 KiB store the same lines if and only if every line of the text is stable |
| StdoutChunking.SameOutcomeIff | axis_recipe/blackbox_rl/openhands_utils.py:45-92 | The same for lines and events together, given that no truncated line parses as a JSON object |
| StdoutChunking.LongLineIsSplit | axis_recipe/blackbox_rl/openhands_utils.py:69-83 | A line that passes the limit and ends within one read of it comes out as one line or as two, in reads of at most 64 KiB |
| StdoutChunking.ShortLinesReadAlike | axis_recipe/blackbox_rl/openhands_utils.py:69-70 | A text without a line over the limit reads alike |
| StdoutChunking.ReturnsReadAlike | axis_recipe/blackbox_rl/openhands_utils.py:60-83 | A line that passes the limit and goes on with at least a read of carriage returns and nothing else reads alike all the same |
| StdoutChunking.ReadAt | axis_recipe/blackbox_rl/openhands_utils.py:55-83 | Every reader of a text with stable lines is, after each chunk, in the state its flush positions on the last line determine |
| StdoutChunking.ReadPath | axis_recipe/blackbox_rl/openhands_utils.py:55-83 | Every admissible sequence of flush positions is that of some reader |
| StdoutLines.StableIff | axis_recipe/blackbox_rl/openhands_utils.py:55-92 | For one line and its ending: all admissible flushes store the same if and only if the line stays within the limit, or its number of flushes is forced, its segments begin alike wherever they begin, and what follows the last flush is blank or fixed |
| StdoutLines.StableOnce | axis_recipe/blackbox_rl/openhands_utils.py:55-83 | A line of less than twice the limit is stable exactly if it is within the limit, or at least a read follows the limit and nothing but carriage returns follows the first flush |
| StdoutLines.PathBounds | axis_recipe/blackbox_rl/openhands_utils.py:69-83 | The i-th flush of a line lies between i spans and its latest position |
| StdoutLines.Reached | axis_recipe/blackbox_rl/openhands_utils.py:69-83 | Every position between those is the i-th flush of some reader |
| StdoutReader.MarkedBlockYieldsItsEvent | axis_recipe/blackbox_rl/openhands_utils.py:149-179 | After a marker, lines are collected until they parse together; that event is emitted once and the block closed |
| StdoutReader.AbandonedBlockYieldsNothing | axis_recipe/blackbox_rl/openhands_utils.py:149-179 | A block is given up without an event when its lines parse as something other than an object, or exceed 5000000 characters unparsed |
| StdoutReader.PlainLinesYieldTheirObjects | axis_recipe/blackbox_rl/openhands_utils.py:149-179 | Outside a block every line that is an object by itself yields its event, in order, and no other line does |
| StdoutReader.LinesStored | axis_recipe/blackbox_rl/openhands_utils.py:149-185 | Every line is stored in order, whole up to 200000 characters and cut off with a note beyond |
| StdoutReader.PendingStaysBounded | axis_recipe/blackbox_rl/openhands_utils.py:69-83 | Between two reads at most 5000000 characters are pending |
| StdoutReader.ReturnsStripped | axis_recipe/blackbox_rl/openhands_utils.py:60-68 | All carriage returns at the end of a line go, and nothing else |
| StdoutReader.FeedLine | axis_recipe/blackbox_rl/openhands_utils.py:60-68 | Splitting off a line and handling it is what feeding its characters does |
| StdoutReader.OpenHandsStdout.HandleStdoutLine | axis_recipe/blackbox_rl/openhands_utils.py:149-179 | The object handles a line as specified |
| StdoutReader.OpenHandsStdout.ReadStdout | axis_recipe/blackbox_rl/openhands_utils.py:45-92 | The loops produce exactly the specified lines and events |
| QaFormat.IsValidSequence | axis_recipe/search_r1/qa_em_format.py:51-112 | A text is accepted exactly if it is any number of think, search, information turns, then think and answer, with only blanks between blocks |
| QaFormat.AcceptedIffWellFormed | axis_recipe/search_r1/qa_em_format.py:70-112 | The automaton accepts exactly that format |
| QaFormat.FormatAccepted | axis_recipe/search_r1/qa_em_format.py:84-112 | Every text of the format is accepted |
| QaFormat.AcceptedHasFormat | axis_recipe/search_r1/qa_em_format.py:84-112 | Every accepted text has the format |
| QaFormat.AcceptedIsBalanced | axis_recipe/search_r1/qa_em_format.py:56-62 | An accepted text passes the count check and has one answer tag, so the check alone rejects nothing |
| QaFormat.FormatCount | axis_recipe/search_r1/qa_em_format.py:56-62 | How often each tag occurs in a text of the format |
| QaFormat.OccurrencesAreParts | axis_recipe/search_r1/qa_em_format.py:58-68 | Counting a tag in the text is counting it among the split parts |
| QaFormat.SplitRoundTrip | axis_recipe/search_r1/qa_em_format.py:66-68 | Joining the split parts gives the text back |
| QaFormat.SplitAlternates | axis_recipe/search_r1/qa_em_format.py:66-68 | Texts and tags alternate |
| QaFormat.TagsSpelledOut | axis_recipe/search_r1/qa_em_format.py:56-67 | The eight tags |
| QaFormat.FindIsFirstTag | axis_recipe/search_r1/qa_em_format.py:115-119 | Searching the text for a tag finds the first such part, and what follows splits into the parts that follow |
| QaFormat.WellFormedHasOneAnswer | axis_recipe/search_r1/qa_em_format.py:115-126 | A text of the format has exactly one match, the content of its answer block |
| QaFormat.WellFormedHasSolution | axis_recipe/search_r1/qa_em_format.py:115-126 | Extraction finds an answer in every text of the format: that content, stripped |
| QaFormat.LastAnswerExtracted | axis_recipe/search_r1/qa_em_format.py:115-126 | For every text: if an answer block without a closing tag inside stands between a part that leaves no opening tag unclosed and a part where no opening tag is followed by a closing one, its content is extracted, stripped |
| QaFormat.NoSolutionIff | axis_recipe/search_r1/qa_em_format.py:121-123 | For every text: nothing is extracted exactly if no opening answer tag is followed by a closing one |
| QaFormat.SomeLastAnswer | axis_recipe/search_r1/qa_em_format.py:115-126 | Every other text has such a last answer block, so the two statements settle what is extracted |
| QaFormat.ComputeScoreEm | axis_recipe/search_r1/qa_em_format.py:144-193 | A well-formed text always has an answer, so its branch without one is never taken; a text without an answer scores zero, and any other is decided by the content of its last answer block, the format and the retrieval |
| LongestSpan.LongestSyntaxValidSpan | axis_recipe/blackbox_rl/leetcode_verifier.py:217-233 | The result is a syntax-valid span from a starter line with the most non-empty lines, the earliest start among equals and the latest end from there; none exactly if there is no such span |
| LongestSpan.SplitJoined | axis_recipe/blackbox_rl/leetcode_verifier.py:205-206 | Splitting joined lines gives them back but for an empty last one |
| LongestSpan.SpanCount | axis_recipe/blackbox_rl/leetcode_verifier.py:205-206 | Counting non-empty lines of joined code is counting them in the list |
| LongestSpan.SpanNotEmpty | axis_recipe/blackbox_rl/leetcode_verifier.py:222-228 | A span from a starter line has a non-empty line, so the first valid one is never skipped |
| LongestSpan.StarterIff | axis_recipe/blackbox_rl/leetcode_verifier.py:33-33 | A line starts code exactly if only white space precedes `import `, `from `, `class ` or `def ` |
| LongestSpan.SplitAtBreak | axis_recipe/blackbox_rl/leetcode_verifier.py:218-218 | Every line break splits, and a carriage return followed by a newline is one |

## Left out

- Packing.GreedyOptimalIff: compares with contiguous splits in the given order, the only ones the loop can produce; reordering turns is out of its scope.
- Advantages.TwentySixIsTheLimit: takes the square root of the group size as given, since the reals here have no root function; the standard deviation is likewise supplied as the number with the right square.
- Advantages.OneSuccessCancelsIff: speaks of successes of score 1 or more; for scores near the constant added to the deviation the limit is a larger group.
- Advantages.NormalizeGroupRewards: leaves out the score history of the dataset and the separate reward of a packed result.
- Residency.RunOnlineRlTrain: leaves training, checkpoints and weight transfer themselves out, as does the disaggregated run; only their placement is modelled.
- OnlineBatches.RolloutGroupStream.Next: waits only for results that will arrive; polling timeouts and health checks are left out.
- OnlineBatches.PipelineController.RunRound: the filter of a group is an arbitrary function of its results, and the training that runs between two batches of a round is not part of this model.
- StdoutReader.OpenHandsStdout.ReadStdout: starts from decoded text; the incremental byte decoder and the JSON library are parameters.
- StdoutChunking.SameLinesIff: counts the UTF-8 length of each character against a read; undecodable bytes inside the stream, which take fewer bytes than their replacement character, are not counted as such.
- QaFormat.ComputeScoreEm: answer matching, retrieval matching and stripping are parameters; the occasional debug print is left out.
- BlackBoxEnvClass.BlackBoxEnv.Step: holds its rollout trace as a value and runs against the registry object; tool-call validation and prompt rendering are choices made outside, and an exception of the adapter after the first request ends the rollout without a result.
- BlackBoxEnvClass.BlackBoxEnv.CloseSessionAndTerminate: error bodies and feedback messages are short fixed texts in place of the source's formatted reasons.
- ScatterGather.ForwardBatch: takes the partition into micro-batches as a parameter; how sequence lengths balance it is not part of this model.
- RolloutTraceClasses.RolloutTrace.Compact: chunk and message objects are values, so aliasing between a list of hits and the list it came from is expressed by index.
- ScatterGather.MergeTensorOutputs: says nothing about a row index that occurs twice inside one chunk, where the tensor library does not fix the order of writes.
- Conversation-only mode is modelled for compaction alone, as a function.
- Not modelled: the layout of merged samples, the flat single-sample export, setting the reward of a single turn, and checks that floating-point values are finite.
- Not modelled: request ids as random identifiers; requests are numbered in submission order, and queue numbers stand for queue objects.
- Not modelled: remote actors, HTTP, sandboxes, tokenizers, chat templates, inference and training engines, logging, metrics, datasets and configuration.
- Floating point is replaced by real numbers throughout.
