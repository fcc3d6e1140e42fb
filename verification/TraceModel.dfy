/**
 The rollout trace as a state machine: one transition per public operation of `RolloutTrace`
 (axrl/data/rollout_trace.py). `Step` yields `None` where the source fails an assertion.
 */
module TraceModel {
  import opened Basics
  import opened Masking
  import opened TokenChunks
  import opened Samples

  datatype Role = SystemRole | UserRole | AssistantRole | ToolRole

  datatype Message = Message(role: Role, content: string)

  datatype GenState = GenState(inputIds: seq<int>, captureRouting: bool, capturedRoutingRows: nat)

  datatype Conversation = Conversation(messages: seq<Message>, gen: GenState)

  datatype GenerationOutput = GenerationOutput(
    text: string,
    outputIds: seq<int>,
    logprobs: seq<real>,
    handle: Option<RoutingHandle>,
    boundary: Option<int>)

  datatype Trace = Trace(
    infos: seq<TokenInfo>,
    entries: seq<Entry>,
    conv: Conversation,
    samples: seq<Sample>,
    maxLength: nat)

  datatype Op =
    | AppendAssistant(out: GenerationOutput)
    | AppendMessage(isTool: bool, content: string, tokens: seq<int>)
    | RenderPrompt(swapped: Option<Conversation>, inputIds: seq<int>)
    | CompactTools(keep: nat, placeholder: seq<int>, text: string)
    | CompactSummary(summary: Conversation)

  function Handles(entries: seq<Entry>): seq<RoutingHandle> {
    seq(|entries|, i requires 0 <= i < |entries| => entries[i].handle)
  }

  /** Copy the token stream, and after an assistant turn the captured row count, to the generation state. */
  function Sync(t: Trace, afterAssistantTurn: bool): Trace {
    var gen := t.conv.gen.(inputIds := TokenIds(t.infos));
    var gen := if afterAssistantTurn && gen.captureRouting then gen.(capturedRoutingRows := RowSum(t.entries)) else gen;
    t.(conv := t.conv.(gen := gen))
  }

  function AddMessage(t: Trace, message: Message): Trace {
    t.(conv := t.conv.(messages := t.conv.messages + [message]))
  }

  // Seed.

  function Initial(conv: Conversation, maxLength: nat): Trace {
    Sync(Trace([TokenInfo(conv.gen.inputIds, Init, false, Zeros(|conv.gen.inputIds|))], [], conv, [], maxLength), false)
  }

  // Assistant turn.

  function PriorRows(t: Trace): nat {
    if t.conv.gen.captureRouting then t.conv.gen.capturedRoutingRows else 0
  }

  function NewRoutingRowCount(infos: seq<TokenInfo>, newTokens: nat, priorRows: nat): int {
    TokenCount(infos) + newTokens - 1 - priorRows
  }

  function AssistantChunk(out: GenerationOutput): TokenInfo {
    TokenInfo(out.outputIds, Assistant, false, out.logprobs)
  }

  predicate AssistantAccepted(t: Trace, out: GenerationOutput) {
    && |out.logprobs| == |out.outputIds|
    && t.infos != []
    && (out.handle.Some? ==> NewRoutingRowCount(t.infos, |out.outputIds|, PriorRows(t)) >= 0)
    && CanBuildTurnSample(t.infos + [AssistantChunk(out)], t.maxLength)
    && LogprobsAligned(t.infos)
  }

  predicate NeedsBoundary(tokens: seq<int>, boundary: Option<int>) {
    boundary.Some? && (tokens == [] || tokens[|tokens| - 1] != boundary.value)
  }

  function AppendAssistantEntries(t: Trace, out: GenerationOutput): seq<Entry>
    requires AssistantAccepted(t, out)
  {
    if out.handle.Some? then
      t.entries + [Entry(out.handle.value, |t.infos|, NewRoutingRowCount(t.infos, |out.outputIds|, PriorRows(t)))]
    else
      t.entries
  }

  predicate AppendsBoundary(t: Trace, out: GenerationOutput) {
    NeedsBoundary(out.outputIds, out.boundary) && TokenCount(t.infos + [AssistantChunk(out)]) + 1 <= t.maxLength
  }

  function BoundaryChunks(t: Trace, out: GenerationOutput): seq<TokenInfo> {
    if AppendsBoundary(t, out) then [TokenInfo([out.boundary.value], AssistantBoundary, false, Zeros(1))] else []
  }

  function AppendAssistantTurn(t: Trace, out: GenerationOutput): Trace
    requires AssistantAccepted(t, out)
  {
    var infos := t.infos + [AssistantChunk(out)];
    var entries := AppendAssistantEntries(t, out);
    var sample := BuildTurnSample(infos, Handles(entries), TokenCount(infos), 0);
    var messages := t.conv.messages + [Message(AssistantRole, out.text)];
    Sync(Trace(infos + BoundaryChunks(t, out), entries, t.conv.(messages := messages), t.samples + [sample],
        t.maxLength), true)
  }

  /**
   How a turn is closed: `before` is the stream up to and including the turn's output, `after` the stream that the next
   turn starts from. At most one token is added; where one fits the stream ends with the boundary token, and where none
   fits, none is given or the output ends with it already the stream stays.
   */
  ghost predicate Closes(before: seq<int>, out: GenerationOutput, maxLength: nat, after: seq<int>) {
    && (after == before || (|after| == |before| + 1 && after[..|before|] == before))
    && (out.boundary.Some? && |before| < maxLength ==> after != [] && after[|after| - 1] == out.boundary.value)
    && (|| out.boundary.None?
        || |before| >= maxLength
        || (out.outputIds != [] && out.outputIds[|out.outputIds| - 1] == out.boundary.value)
        ==> after == before)
  }

  lemma TurnCloses(t: Trace, out: GenerationOutput)
    ensures TokenIds(t.infos + [AssistantChunk(out)]) == TokenIds(t.infos) + out.outputIds
    ensures Closes(TokenIds(t.infos) + out.outputIds, out, t.maxLength,
                   TokenIds(t.infos + [AssistantChunk(out)] + BoundaryChunks(t, out)))
  {
    var infos := t.infos + [AssistantChunk(out)];
    TokenIdsConcat(t.infos, [AssistantChunk(out)]);
    TokenIdsConcat(infos, BoundaryChunks(t, out));
    assert TokenIds([AssistantChunk(out)]) == out.outputIds;
  }

  // User or tool message.

  function AppendUserOrTool(t: Trace, isTool: bool, content: string, tokens: seq<int>): Trace {
    var t := AddMessage(t, Message(if isTool then ToolRole else UserRole, content));
    Sync(t.(infos := t.infos + [TokenInfo(tokens, if isTool then ToolResult else User, false, Zeros(|tokens|))]), false)
  }

  // Prompt re-render.

  function CommonPrefixLen(left: seq<int>, right: seq<int>): (n: nat)
    ensures n <= |left| && n <= |right| && left[..n] == right[..n]
    ensures n < |left| && n < |right| ==> left[n] != right[n]
  {
    if left == [] || right == [] || left[0] != right[0] then 0
    else
      var n := 1 + CommonPrefixLen(left[1..], right[1..]);
      assert left[..n] == [left[0]] + left[1..][..n - 1];
      assert right[..n] == [right[0]] + right[1..][..n - 1];
      n
  }

  function PreservedRows(t: Trace, inputIds: seq<int>): nat {
    var shared := CommonPrefixLen(TokenIds(t.infos), inputIds);
    var limit := if shared == 0 then 0 else shared - 1;
    if !t.conv.gen.captureRouting then 0
    else if limit <= RowSum(t.entries) then limit
    else RowSum(t.entries)
  }

  function PreparePrompt(t: Trace, inputIds: seq<int>): Trace {
    var rows := PreservedRows(t, inputIds);
    t.(infos := [TokenInfo(inputIds, Init, false, Zeros(|inputIds|))],
       entries := if t.conv.gen.captureRouting then TakeRows(t.entries, rows) else [],
       conv := t.conv.(gen := t.conv.gen.(inputIds := inputIds, capturedRoutingRows := rows)))
  }

  // Compaction.

  predicate IsOtherToolMessage(text: string, m: Message) {
    m.role.ToolRole? && m.content != text
  }

  function HasOtherText(text: string): Message -> bool {
    (m: Message) => IsOtherToolMessage(text, m)
  }

  function ToText(text: string): Message -> Message {
    (m: Message) => m.(content := text)
  }

  function NumToMask(infos: seq<TokenInfo>, keep: nat): nat {
    var n := Count(infos, IsUncompactedTool);
    if n <= keep then 0 else n - keep
  }

  function PreserveLimit(t: Trace): nat {
    var rows := Before(t.infos, First(t.infos, IsUncompactedTool));
    if rows <= t.conv.gen.capturedRoutingRows then rows else t.conv.gen.capturedRoutingRows
  }

  function CompactedEntries(t: Trace): seq<Entry> {
    if t.conv.gen.captureRouting then TrimHandles(t.entries, First(t.infos, IsUncompactedTool), PreserveLimit(t))
      else t.entries
  }

  predicate CompactionAccepted(t: Trace, keep: nat, placeholder: seq<int>, text: string) {
    var m := NumToMask(t.infos, keep);
    m > 0 ==>
      && Count(t.conv.messages, HasOtherText(text)) >= m
      && TokenCount(CompactChunks(t.infos, m, placeholder)) < t.maxLength
  }

  /** Blanks the first `m` tool chunks and tool messages and trims the routing cache to what stays valid. */
  function BlankTools(t: Trace, m: nat, placeholder: seq<int>, text: string): Trace {
    var entries := CompactedEntries(t);
    var rows := if t.conv.gen.captureRouting then RowSum(entries) else t.conv.gen.capturedRoutingRows;
    var messages := MaskFirst(t.conv.messages, m, HasOtherText(text), ToText(text));
    t.(infos := CompactChunks(t.infos, m, placeholder),
       entries := entries,
       conv := Conversation(messages, t.conv.gen.(capturedRoutingRows := rows)))
  }

  function CompactToolResults(t: Trace, keep: nat, placeholder: seq<int>, text: string): Trace {
    var m := NumToMask(t.infos, keep);
    if m == 0 then Sync(t, false) else Sync(BlankTools(t, m, placeholder, text), false)
  }

  function CompactToSummary(t: Trace, summary: Conversation): Trace {
    Sync(Trace([TokenInfo(summary.gen.inputIds, Init, false, Zeros(|summary.gen.inputIds|))], [],
               summary.(gen := summary.gen.(capturedRoutingRows := 0)), t.samples, t.maxLength), false)
  }

  // The transition function.

  function Step(t: Trace, op: Op): Option<Trace> {
    match op
    case AppendAssistant(out) =>
      if AssistantAccepted(t, out) then Some(AppendAssistantTurn(t, out)) else None
    case AppendMessage(isTool, content, tokens) =>
      var next := AppendUserOrTool(t, isTool, content, tokens);
      if t.infos != [] && TokenCount(next.infos) <= t.maxLength then Some(next) else None
    case RenderPrompt(swapped, inputIds) =>
      if |inputIds| <= t.maxLength then
        Some(PreparePrompt(if swapped.Some? then t.(conv := swapped.value) else t, inputIds))
      else None
    case CompactTools(keep, placeholder, text) =>
      if CompactionAccepted(t, keep, placeholder, text) then Some(CompactToolResults(t, keep, placeholder, text))
        else None
    case CompactSummary(summary) =>
      if |summary.gen.inputIds| <= t.maxLength then Some(CompactToSummary(t, summary)) else None
  }

  /**
   The engine's side of a turn: it answers the request built from the generation state with at least one
   token, and a handle it returns was asked for and holds the rows from the requested start index on
   (axrl/agent/rollout_agent.py:26-45).
   */
  ghost predicate FromEngine(gen: GenState, out: GenerationOutput) {
    && out.outputIds != []
    && (out.handle.Some? ==>
          && gen.captureRouting
          && gen.capturedRoutingRows < |gen.inputIds + out.outputIds|
          && out.handle.value == Capture(gen.inputIds + out.outputIds, gen.capturedRoutingRows))
  }

  ghost predicate Legal(t: Trace, op: Op) {
    op.AppendAssistant? ==> FromEngine(t.conv.gen, op.out)
  }

  // The invariant.

  function HandleRows(handles: seq<RoutingHandle>): seq<Row> {
    if handles == [] then [] else handles[0].rows + HandleRows(handles[1..])
  }

  ghost predicate SampleSound(s: Sample) {
    && WellShaped(s)
    && (s.routing.Some? ==> RowsSound(HandleRows(s.routing.value), s.inputIds))
  }

  ghost predicate ChunksInv(infos: seq<TokenInfo>) {
    && infos != []
    && (forall i :: 0 <= i < |infos| ==> (infos[i].tokenType.Init? <==> i == 0))
    && LogprobsAligned(infos)
  }

  /** No handle at or after an uncompacted tool chunk ends before that chunk starts. */
  ghost predicate HandlesReach(entries: seq<Entry>, infos: seq<TokenInfo>) {
    forall i, u :: 0 <= i < |entries| && 0 <= u < |infos| && IsUncompactedTool(infos[u]) && u <= entries[i].chunk ==>
      End(entries, i) >= Before(infos, u)
  }

  ghost predicate RoutingInv(t: Trace) {
    && RowCountsMatch(t.entries)
    && (forall i :: 0 <= i < |t.entries| ==> t.entries[i].chunk < |t.infos|)
    && (if t.conv.gen.captureRouting then t.conv.gen.capturedRoutingRows == RowSum(t.entries) else t.entries == [])
    && RowsSound(AllRows(t.entries), TokenIds(t.infos))
    && HandlesReach(t.entries, t.infos)
  }

  ghost predicate Inv(t: Trace) {
    && ChunksInv(t.infos)
    && t.conv.gen.inputIds == TokenIds(t.infos)
    && TokenCount(t.infos) <= t.maxLength
    && RoutingInv(t)
    && (forall i :: 0 <= i < |t.samples| ==> SampleSound(t.samples[i]))
  }

  // Preservation, one operation at a time.

  lemma {:induction false} HandleRowsAreAllRows(entries: seq<Entry>)
    ensures HandleRows(Handles(entries)) == AllRows(entries)
  {
    if entries != [] {
      assert Handles(entries)[1..] == Handles(entries[1..]);
      HandleRowsAreAllRows(entries[1..]);
    }
  }

  lemma {:induction false} SoundPrefix(rows: seq<Row>, ids: seq<int>, ids': seq<int>, n: nat)
    requires RowsSound(rows, ids)
    requires n <= |rows| && n <= |ids'| && ids'[..n] == ids[..n]
    ensures RowsSound(rows[..n], ids')
  {
    forall r | 0 <= r < n
      ensures rows[..n][r] == ids'[..r + 1]
    {
      assert ids'[..r + 1] == ids'[..n][..r + 1];
      assert ids[..r + 1] == ids[..n][..r + 1];
    }
  }

  lemma {:induction false} AppendOnlyKeepsReach(entries: seq<Entry>, infos: seq<TokenInfo>, more: seq<TokenInfo>)
    requires forall i :: 0 <= i < |entries| ==> entries[i].chunk < |infos|
    requires HandlesReach(entries, infos)
    ensures HandlesReach(entries, infos + more)
  {
    var infos' := infos + more;
    forall i, u | 0 <= i < |entries| && 0 <= u < |infos'| && IsUncompactedTool(infos'[u]) && u <= entries[i].chunk
      ensures End(entries, i) >= Before(infos', u)
    {
      assert infos'[..u] == infos[..u];
      assert infos'[u] == infos[u];
    }
  }

  lemma {:induction false} AppendOnlyKeepsRouting(entries: seq<Entry>, infos: seq<TokenInfo>, more: seq<TokenInfo>)
    requires forall i :: 0 <= i < |entries| ==> entries[i].chunk < |infos|
    requires RowsSound(AllRows(entries), TokenIds(infos)) && HandlesReach(entries, infos)
    ensures RowsSound(AllRows(entries), TokenIds(infos + more))
    ensures HandlesReach(entries, infos + more)
  {
    TokenIdsConcat(infos, more);
    var rows := AllRows(entries);
    SoundPrefix(rows, TokenIds(infos), TokenIds(infos + more), |rows|);
    assert rows[..|rows|] == rows;
    AppendOnlyKeepsReach(entries, infos, more);
  }

  /**
   Recording a captured handle keeps the routing part of the invariant: its rows continue where the kept rows stop.
   */
  lemma {:induction false} AppendHandleKeepsRouting(entries: seq<Entry>, infos: seq<TokenInfo>, out: GenerationOutput)
    requires infos != [] && RowCountsMatch(entries)
    requires forall i :: 0 <= i < |entries| ==> entries[i].chunk < |infos|
    requires RowsSound(AllRows(entries), TokenIds(infos)) && HandlesReach(entries, infos)
    requires out.outputIds != [] && RowSum(entries) < |TokenIds(infos) + out.outputIds|
    requires out.handle.Some? && out.handle.value == Capture(TokenIds(infos) + out.outputIds, RowSum(entries))
    ensures var entries' := entries + [Entry(out.handle.value, |infos|,
            TokenCount(infos) + |out.outputIds| - 1 - RowSum(entries))];
      var infos' := infos + [AssistantChunk(out)];
      && RowCountsMatch(entries')
      && RowSum(entries') == TokenCount(infos') - 1
      && RowsSound(AllRows(entries'), TokenIds(infos'))
      && HandlesReach(entries', infos')
  {
    var chunk := AssistantChunk(out);
    var infos' := infos + [chunk];
    var entry := Entry(out.handle.value, |infos|, TokenCount(infos) + |out.outputIds| - 1 - RowSum(entries));
    var entries' := entries + [entry];
    AppendOnlyKeepsRouting(entries, infos, [chunk]);
    TokenIdsConcat(infos, [chunk]);
    assert TokenIds([chunk]) == out.outputIds;
    RowsConcat(entries, [entry]);
    AllRowsLength(entries);
    assert AllRows([entry]) == entry.handle.rows + AllRows([]);
    assert RowSum([entry]) == entry.rowCount + RowSum([]);
    CapturedRowsContinue(AllRows(entries), TokenIds(infos'));
    HandleReachesItsChunk(entries, infos, entry, chunk);
  }

  lemma CapturedRowsContinue(rows: seq<Row>, ids': seq<int>)
    requires RowsSound(rows, ids') && |rows| < |ids'|
    ensures RowsSound(rows + Capture(ids', |rows|).rows, ids')
  {
  }

  lemma HandleReachesItsChunk(entries: seq<Entry>, infos: seq<TokenInfo>, entry: Entry, chunk: TokenInfo)
    requires forall i :: 0 <= i < |entries| ==> entries[i].chunk < |infos|
    requires HandlesReach(entries, infos + [chunk]) && !IsUncompactedTool(chunk)
    requires entry.chunk == |infos| && RowSum(entries + [entry]) >= TokenCount(infos)
    ensures HandlesReach(entries + [entry], infos + [chunk])
  {
    var entries', infos' := entries + [entry], infos + [chunk];
    forall i, u | 0 <= i < |entries'| && 0 <= u < |infos'| && IsUncompactedTool(infos'[u]) && u <= entries'[i].chunk
      ensures End(entries', i) >= Before(infos', u)
    {
      assert infos'[..u] == infos[..u];
      if i < |entries| {
        assert entries'[..i + 1] == entries[..i + 1];
        assert End(entries, i) >= Before(infos', u);
      } else {
        assert entries'[..i + 1] == entries';
        BeforeMonotone(infos, u, |infos|);
        assert infos[..|infos|] == infos;
      }
    }
  }

  lemma {:induction false} AssistantSampleSound(infos: seq<TokenInfo>, entries: seq<Entry>)
    requires CanBuildTurnSample(infos, TokenCount(infos)) && LogprobsAligned(infos)
    requires RowsSound(AllRows(entries), TokenIds(infos))
    ensures var s := BuildTurnSample(infos, Handles(entries), TokenCount(infos), 0);
      && SampleSound(s)
      && s.inputIds == TokenIds(infos)
      && Selected(s.inputIds, TokenAlignedMask(s)) == LastTokens(infos)
      && CountTrue(s.lossMask) == |LastTokens(infos)|
      && |s.labels| == |s.rolloutLogprobs| == |s.lossMask|
      && Selected(s.labels, s.lossMask) == LastTokens(infos)
      && Selected(s.rolloutLogprobs, s.lossMask) == infos[|infos| - 1].logprobs
      && (entries != [] ==> s.routing == Some(Handles(entries)) && HandleRows(s.routing.value) == AllRows(entries))
  {
    var s := BuildTurnSample(infos, Handles(entries), TokenCount(infos), 0);
    BuildTurnSampleCorrect(infos, Handles(entries), TokenCount(infos), 0);
    ResponseIsLastChunk(s, infos, Handles(entries), TokenCount(infos), 0);
    TurnSampleCounts(s, infos, Handles(entries), TokenCount(infos), 0);
    TrainedSpan(s, infos, Handles(entries), TokenCount(infos), 0);
    assert s.inputIds == TokenIds(infos);
    HandleRowsAreAllRows(entries);
  }

  /** The routing part of the invariant, after the turn's chunk and handle are recorded. */
  lemma {:induction false} AssistantRouting(t: Trace, out: GenerationOutput)
    requires Inv(t) && FromEngine(t.conv.gen, out) && AssistantAccepted(t, out)
    ensures var infos := t.infos + [AssistantChunk(out)];
      var entries := AppendAssistantEntries(t, out);
      && RowCountsMatch(entries)
      && RowsSound(AllRows(entries), TokenIds(infos))
      && HandlesReach(entries, infos)
      && (out.handle.Some? ==> RowSum(entries) == TokenCount(infos) - 1)
      && (t.conv.gen.captureRouting || entries == [])
      && forall i :: 0 <= i < |entries| ==> entries[i].chunk < |infos|
  {
    hide RowsSound, HandlesReach, ChunksInv, SampleSound, CanBuildTurnSample;
    AllRowsLength(t.entries);
    if out.handle.Some? {
      AppendHandleKeepsRouting(t.entries, t.infos, out);
    } else {
      AppendOnlyKeepsRouting(t.entries, t.infos, [AssistantChunk(out)]);
    }
  }

  lemma {:induction false} AppendAssistantSample(t: Trace, out: GenerationOutput)
    requires Inv(t) && FromEngine(t.conv.gen, out) && AssistantAccepted(t, out)
    ensures var s := AppendAssistantTurn(t, out).samples[|t.samples|];
      && SampleSound(s)
      && Selected(s.inputIds, TokenAlignedMask(s)) == out.outputIds
      && CountTrue(s.lossMask) == |out.outputIds|
      && |s.labels| == |s.rolloutLogprobs| == |s.lossMask|
      && Selected(s.labels, s.lossMask) == out.outputIds && Selected(s.rolloutLogprobs, s.lossMask) == out.logprobs
      && s.inputIds == TokenIds(t.infos) + out.outputIds
      && (out.handle.Some? ==> s.routing.Some? && |HandleRows(s.routing.value)| == |s.inputIds| - 1)
  {
    var infos := t.infos + [AssistantChunk(out)];
    var entries := AppendAssistantEntries(t, out);
    TokenIdsConcat(t.infos, [AssistantChunk(out)]);
    assert TokenIds([AssistantChunk(out)]) == out.outputIds;
    AssistantRouting(t, out);
    AllRowsLength(entries);
    AssistantSampleSound(infos, entries);
  }

  lemma {:induction false} ExtendChunksInv(infos: seq<TokenInfo>, more: seq<TokenInfo>)
    requires ChunksInv(infos) && LogprobsAligned(more)
    requires forall i :: 0 <= i < |more| ==> !more[i].tokenType.Init?
    ensures ChunksInv(infos + more)
  {
  }

  lemma {:induction false} RecordedTurnInv(infos: seq<TokenInfo>, entries: seq<Entry>, conv: Conversation,
          samples: seq<Sample>, maxLength: nat)
    requires ChunksInv(infos) && TokenCount(infos) <= maxLength
    requires RowCountsMatch(entries) && RowsSound(AllRows(entries), TokenIds(infos)) && HandlesReach(entries, infos)
    requires forall i :: 0 <= i < |entries| ==> entries[i].chunk < |infos|
    requires conv.gen.captureRouting || entries == []
    requires forall i :: 0 <= i < |samples| ==> SampleSound(samples[i])
    ensures Inv(Sync(Trace(infos, entries, conv, samples, maxLength), true))
  {
  }

  lemma {:induction false} AssistantChunksInv(t: Trace, out: GenerationOutput)
    requires ChunksInv(t.infos) && AssistantAccepted(t, out)
    ensures var infos := t.infos + [AssistantChunk(out)] + BoundaryChunks(t, out);
      ChunksInv(infos) && TokenCount(infos) <= t.maxLength
  {
    var infos := t.infos + [AssistantChunk(out)];
    var more := BoundaryChunks(t, out);
    ExtendChunksInv(t.infos, [AssistantChunk(out)]);
    ExtendChunksInv(infos, more);
    TokenIdsConcat(infos, more);
    assert |TokenIds(more)| == if AppendsBoundary(t, out) then 1 else 0;
  }

  lemma {:induction false} AppendAssistantKeepsInv(t: Trace, out: GenerationOutput)
    requires Inv(t) && FromEngine(t.conv.gen, out) && AssistantAccepted(t, out)
    ensures Inv(AppendAssistantTurn(t, out))
  {
    var infos := t.infos + [AssistantChunk(out)];
    var entries := AppendAssistantEntries(t, out);
    var more := BoundaryChunks(t, out);
    var t' := AppendAssistantTurn(t, out);
    AssistantRouting(t, out);
    AppendAssistantSample(t, out);
    AssistantChunksInv(t, out);
    AppendOnlyKeepsRouting(entries, infos, more);
    var messages := t.conv.messages + [Message(AssistantRole, out.text)];
    RecordedTurnInv(infos + more, entries, t.conv.(messages := messages), t'.samples, t.maxLength);
  }

  lemma {:induction false} AppendMessageKeepsInv(t: Trace, isTool: bool, content: string, tokens: seq<int>)
    requires Inv(t)
    requires TokenCount(AppendUserOrTool(t, isTool, content, tokens).infos) <= t.maxLength
    ensures Inv(AppendUserOrTool(t, isTool, content, tokens))
  {
    var chunk := TokenInfo(tokens, if isTool then ToolResult else User, false, Zeros(|tokens|));
    AppendOnlyKeepsRouting(t.entries, t.infos, [chunk]);
  }

  lemma SingleChunk(ids: seq<int>)
    ensures ChunksInv([TokenInfo(ids, Init, false, Zeros(|ids|))])
    ensures TokenIds([TokenInfo(ids, Init, false, Zeros(|ids|))]) == ids
  {
  }

  lemma ShorterPrefix(left: seq<int>, right: seq<int>, n: nat, k: nat)
    requires k <= n <= |left| && n <= |right| && left[..n] == right[..n]
    ensures left[..k] == right[..k]
  {
    assert left[..k] == left[..n][..k] && right[..k] == right[..n][..k];
  }

  /** A re-rendered prompt keeps the rows of the token-identical prefix, and only those. */
  lemma {:induction false} PreparePromptKeepsInv(t: Trace, swapped: Option<Conversation>, inputIds: seq<int>)
    requires Inv(t) && |inputIds| <= t.maxLength
    ensures var t0 := if swapped.Some? then t.(conv := swapped.value) else t;
      var t' := PreparePrompt(t0, inputIds);
      && Inv(t')
      && PreservedRows(t0, inputIds) <= |AllRows(t.entries)|
      && (t0.conv.gen.captureRouting ==> AllRows(t'.entries) == AllRows(t.entries)[..PreservedRows(t0, inputIds)])
  {
    var t0 := if swapped.Some? then t.(conv := swapped.value) else t;
    var rows := PreservedRows(t0, inputIds);
    SingleChunk(inputIds);
    AllRowsLength(t.entries);
    if t0.conv.gen.captureRouting {
      TakeRowsKeepsExactly(t.entries, rows);
      var ids := TokenIds(t.infos);
      var shared := CommonPrefixLen(ids, inputIds);
      ShorterPrefix(ids, inputIds, shared, rows);
      SoundPrefix(AllRows(t.entries), ids, inputIds, rows);
    }
  }

  lemma {:induction false} CompactChunksFacts(infos: seq<TokenInfo>, m: nat, placeholder: seq<int>)
    requires ChunksInv(infos) && 0 < m <= Count(infos, IsUncompactedTool)
    ensures var e := First(infos, IsUncompactedTool);
      var infos' := CompactChunks(infos, m, placeholder);
      && 0 < e < |infos|
      && ChunksInv(infos')
      && infos'[..e] == infos[..e]
      && TokenIds(infos[..e]) <= TokenIds(infos)
      && TokenIds(infos[..e]) <= TokenIds(infos')
      && forall u :: 0 <= u < |infos'| && IsUncompactedTool(infos'[u]) ==>
        u > e && Before(infos', u) >= Before(infos, e)
  {
    var e := First(infos, IsUncompactedTool);
    var infos' := CompactChunks(infos, m, placeholder);
    CountPositive(infos, IsUncompactedTool);
    MaskKeepsPrefix(infos, m, IsUncompactedTool, ToPlaceholder(placeholder));
    CompactChunksKeepsShape(infos, m, placeholder);
    BeforeMonotone(infos, e, |infos|);
    BeforeMonotone(infos', e, |infos'|);
    forall u | 0 <= u < |infos'| && IsUncompactedTool(infos'[u])
      ensures u > e && Before(infos', u) >= Before(infos, e)
    {
      MaskSurvivor(infos, m, IsUncompactedTool, ToPlaceholder(placeholder), u);
      BeforeMonotone(infos', e, u);
    }
  }

  /** The handle loop neither keeps a stale row nor stops early. */
  lemma {:induction false} CompactionKeepsExactlyTheValidRows(t: Trace, keep: nat, placeholder: seq<int>, text: string)
    requires Inv(t) && t.conv.gen.captureRouting && NumToMask(t.infos, keep) > 0
    ensures var t' := CompactToolResults(t, keep, placeholder, text);
      var before := Before(t.infos, First(t.infos, IsUncompactedTool));
      && RowCountsMatch(t'.entries)
      && t'.conv.gen.capturedRoutingRows == RowSum(t'.entries)
      && t'.conv.gen.capturedRoutingRows ==
        (if before <= t.conv.gen.capturedRoutingRows then before else t.conv.gen.capturedRoutingRows)
      && t'.conv.gen.capturedRoutingRows <= |AllRows(t.entries)|
      && AllRows(t'.entries) == AllRows(t.entries)[..t'.conv.gen.capturedRoutingRows]
      && forall i :: 0 <= i < |t'.entries| ==> t'.entries[i].chunk < First(t.infos, IsUncompactedTool)
  {
    var e := First(t.infos, IsUncompactedTool);
    CompactChunksFacts(t.infos, NumToMask(t.infos, keep), placeholder);
    TrimKeepsExactly(t.entries, e, PreserveLimit(t));
  }

  lemma {:induction false} CompactToolsKeepsInv(t: Trace, keep: nat, placeholder: seq<int>, text: string)
    requires Inv(t) && CompactionAccepted(t, keep, placeholder, text)
    ensures Inv(CompactToolResults(t, keep, placeholder, text))
  {
    var m := NumToMask(t.infos, keep);
    if m > 0 {
      var t' := CompactToolResults(t, keep, placeholder, text);
      CompactChunksFacts(t.infos, m, placeholder);
      assert t'.infos == CompactChunks(t.infos, m, placeholder);
      if t.conv.gen.captureRouting {
        CompactionKeepsExactlyTheValidRows(t, keep, placeholder, text);
        var e := First(t.infos, IsUncompactedTool);
        var n := RowSum(t'.entries);
        assert TokenIds(t'.infos)[..n] == TokenIds(t.infos[..e])[..n] == TokenIds(t.infos)[..n];
        SoundPrefix(AllRows(t.entries), TokenIds(t.infos), TokenIds(t'.infos), n);
        assert RoutingInv(t');
      }
    }
  }

  lemma {:induction false} CompactSummaryKeepsInv(t: Trace, summary: Conversation)
    requires Inv(t) && |summary.gen.inputIds| <= t.maxLength
    ensures Inv(CompactToSummary(t, summary))
  {
    SingleChunk(summary.gen.inputIds);
  }

  /** A seed starts a sound trace unless it asks for routing capture and claims rows that no handle holds. */
  lemma InitialInv(conv: Conversation, maxLength: nat)
    requires |conv.gen.inputIds| <= maxLength
    ensures Inv(Initial(conv, maxLength)) <==> SeedSound(conv)
  {
    SingleChunk(conv.gen.inputIds);
  }

  predicate SeedSound(conv: Conversation) {
    conv.gen.captureRouting ==> conv.gen.capturedRoutingRows == 0
  }

  /** From any other seed the engine starts late, and the first cached row stands for the wrong prefix. */
  lemma SeededRowsAreMisplaced(conv: Conversation, maxLength: nat, out: GenerationOutput)
    requires |conv.gen.inputIds| <= maxLength && !SeedSound(conv)
    requires FromEngine(conv.gen, out) && AssistantAccepted(Initial(conv, maxLength), out)
    requires out.handle.Some? && out.handle.value.rows != []
    ensures var t := AppendAssistantTurn(Initial(conv, maxLength), out);
      AllRows(t.entries) != [] && AllRows(t.entries)[0] != TokenIds(t.infos)[..1]
  {
    var seed := Initial(conv, maxLength);
    var t := AppendAssistantTurn(seed, out);
    assert t.entries == [Entry(out.handle.value, 1, NewRoutingRowCount(seed.infos, |out.outputIds|, PriorRows(seed)))];
    assert t.entries[1..] == [];
    assert AllRows(t.entries) == out.handle.value.rows + [];
    assert |AllRows(t.entries)[0]| == conv.gen.capturedRoutingRows + 1;
  }

  lemma {:induction false} StepKeepsInv(t: Trace, op: Op)
    requires Inv(t) && Legal(t, op) && Step(t, op).Some?
    ensures Inv(Step(t, op).value)
    ensures t.samples <= Step(t, op).value.samples
  {
    match op
    case AppendAssistant(out) => AppendAssistantKeepsInv(t, out);
    case AppendMessage(isTool, content, tokens) => AppendMessageKeepsInv(t, isTool, content, tokens);
    case RenderPrompt(swapped, inputIds) => PreparePromptKeepsInv(t, swapped, inputIds);
    case CompactTools(keep, placeholder, text) => CompactToolsKeepsInv(t, keep, placeholder, text);
    case CompactSummary(summary) => CompactSummaryKeepsInv(t, summary);
  }
}
