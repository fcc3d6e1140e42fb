/**
 What each operation of the trace does to its token stream, its messages, its cached rows and its samples, stated on
 those four and not through the transition function's own parts (axrl/data/rollout_trace.py).
 */
module TraceStreams {
  import opened Basics
  import opened Masking
  import opened TokenChunks
  import opened TraceModel

  function Tokens(t: Trace): seq<int> { TokenIds(t.infos) }

  function Rows(t: Trace): seq<Row> { AllRows(t.entries) }

  /** The generation state follows the stream: same tokens, and as many captured rows as are cached. */
  ghost predicate InStep(t: Trace) {
    && t.conv.gen.inputIds == Tokens(t)
    && (t.conv.gen.captureRouting ==> t.conv.gen.capturedRoutingRows == |Rows(t)|)
  }

  lemma InvInStep(t: Trace)
    requires Inv(t)
    ensures InStep(t)
  {
    AllRowsLength(t.entries);
  }

  /** An assistant turn adds its tokens, its message and its handle's rows, and closes the turn with the boundary. */
  lemma {:induction false} AssistantStream(t: Trace, out: GenerationOutput)
    requires Inv(t) && FromEngine(t.conv.gen, out) && AssistantAccepted(t, out)
    ensures var t' := AppendAssistantTurn(t, out);
      && InStep(t')
      && Closes(Tokens(t) + out.outputIds, out, t.maxLength, Tokens(t'))
      && t'.conv.messages == t.conv.messages + [Message(AssistantRole, out.text)]
      && Rows(t') == Rows(t) + (if out.handle.Some? then out.handle.value.rows else [])
      && t'.samples[..|t.samples|] == t.samples && |t'.samples| == |t.samples| + 1
      && t'.samples[|t.samples|].inputIds == Tokens(t) + out.outputIds
      && t'.maxLength == t.maxLength && t'.conv.gen.captureRouting == t.conv.gen.captureRouting
  {
    hide Inv, FromEngine, AssistantAccepted, Closes;
    AppendAssistantKeepsInv(t, out);
    InvInStep(AppendAssistantTurn(t, out));
    AppendAssistantSample(t, out);
    TurnCloses(t, out);
    RecordedRows(t, out);
  }

  lemma RecordedRows(t: Trace, out: GenerationOutput)
    requires AssistantAccepted(t, out)
    ensures AllRows(AppendAssistantEntries(t, out))
         == AllRows(t.entries) + if out.handle.Some? then out.handle.value.rows else []
  {
    if out.handle.Some? {
      var entry := Entry(out.handle.value, |t.infos|, NewRoutingRowCount(t.infos, |out.outputIds|, PriorRows(t)));
      RowsConcat(t.entries, [entry]);
      assert [entry][1..] == [];
    }
  }

  /** An appended message adds its tokens and itself, and nothing else changes. */
  lemma {:induction false} MessageStream(t: Trace, isTool: bool, content: string, tokens: seq<int>)
    requires Inv(t)
    ensures var t' := AppendUserOrTool(t, isTool, content, tokens);
      && Tokens(t') == Tokens(t) + tokens && t'.conv.gen == t.conv.gen.(inputIds := Tokens(t) + tokens)
      && t'.conv.messages == t.conv.messages + [Message(if isTool then ToolRole else UserRole, content)]
      && Count(t'.infos, IsUncompactedTool) == Count(t.infos, IsUncompactedTool) + (if isTool then 1 else 0)
      && t'.entries == t.entries && t'.samples == t.samples && t'.maxLength == t.maxLength
  {
    var chunk := TokenInfo(tokens, if isTool then ToolResult else User, false, Zeros(|tokens|));
    TokenIdsConcat(t.infos, [chunk]);
    CountConcat(t.infos, [chunk], IsUncompactedTool);
    assert [chunk][1..] == [];
  }

  /**
   A re-rendered prompt becomes the stream. Of the cached rows it keeps the longest front such that the next token is
   shared with the old stream too, and all of them if there are not more.
   */
  lemma {:induction false} PromptStream(t: Trace, swapped: Option<Conversation>, inputIds: seq<int>)
    requires Inv(t) && |inputIds| <= t.maxLength
    ensures var conv := if swapped.Some? then swapped.value else t.conv;
      var t' := PreparePrompt(t.(conv := conv), inputIds);
      && InStep(t') && Tokens(t') == inputIds && t'.conv.messages == conv.messages
      && t'.conv.gen.captureRouting == conv.gen.captureRouting
      && (conv.gen.captureRouting ==> KeepsSharedRows(Tokens(t), Rows(t), inputIds, Rows(t')))
      && (!conv.gen.captureRouting ==> t'.entries == [] && t'.conv.gen.capturedRoutingRows == 0)
      && t'.samples == t.samples && t'.maxLength == t.maxLength
  {
    var t0 := if swapped.Some? then t.(conv := swapped.value) else t;
    PreparePromptKeepsInv(t, swapped, inputIds);
    InvInStep(PreparePrompt(t0, inputIds));
    AllRowsLength(t.entries);
    var ids := Tokens(t);
    var shared := CommonPrefixLen(ids, inputIds);
    SharedExactly(ids, inputIds, shared);
  }

  predicate Shares(left: seq<int>, right: seq<int>, n: nat) {
    n <= |left| && n <= |right| && left[..n] == right[..n]
  }

  /** `kept` is a front of `rows`; one token more than it is shared, and it ends only where that or `rows` does. */
  ghost predicate KeepsSharedRows(ids: seq<int>, rows: seq<Row>, inputIds: seq<int>, kept: seq<Row>) {
    && kept <= rows
    && (kept != [] ==> Shares(ids, inputIds, |kept| + 1))
    && (kept == rows || !Shares(ids, inputIds, |kept| + 2))
  }

  lemma SharedExactly(left: seq<int>, right: seq<int>, n: nat)
    requires Shares(left, right, n) && (n < |left| && n < |right| ==> left[n] != right[n])
    ensures forall k: nat :: Shares(left, right, k) <==> k <= n
  {
    forall k: nat
      ensures Shares(left, right, k) <==> k <= n
    {
      if k <= n {
        ShorterPrefix(left, right, n, k);
      } else if k <= |left| && k <= |right| {
        assert left[..k][n] != right[..k][n];
      }
    }
  }

  /**
   A compaction rewrites the uncompacted tool chunks that at least `keep` others follow, and as many of the oldest
   tool messages with another text; everything else stays, and `keep` uncompacted tool chunks or all are left.
   */
  lemma {:induction false} CompactionStream(t: Trace, keep: nat, placeholder: seq<int>, text: string)
    requires Inv(t) && CompactionAccepted(t, keep, placeholder, text)
    ensures var t' := CompactToolResults(t, keep, placeholder, text);
      var (old', new') := (Count(t.infos, IsUncompactedTool), Count(t'.infos, IsUncompactedTool));
      && InStep(t') && new' == (if old' <= keep then old' else keep)
      && ChunksCompacted(t.infos, t'.infos, keep, placeholder)
      && MessagesCompacted(t.conv.messages, t'.conv.messages, old' - new', text)
      && t'.samples == t.samples && t'.maxLength == t.maxLength
      && t'.conv.gen.captureRouting == t.conv.gen.captureRouting
  {
    var m := NumToMask(t.infos, keep);
    CompactToolsKeepsInv(t, keep, placeholder, text);
    InvInStep(CompactToolResults(t, keep, placeholder, text));
    ChunksCompactedBy(t.infos, keep, placeholder);
    MessagesCompactedBy(t.conv.messages, m, text);
    if m > 0 {
      CountAfterMask(t.infos, m, IsUncompactedTool, ToPlaceholder(placeholder));
    }
  }

  ghost predicate ChunksCompacted(infos: seq<TokenInfo>, infos': seq<TokenInfo>, keep: nat, placeholder: seq<int>) {
    && |infos'| == |infos|
    && forall i :: 0 <= i < |infos| ==>
      if infos[i].tokenType.ToolResult? && !infos[i].compacted && Count(infos[i + 1..], IsUncompactedTool) >= keep
      then infos'[i] == TokenInfo(placeholder, ToolResult, true, Zeros(|placeholder|))
      else infos'[i] == infos[i]
  }

  ghost predicate MessagesCompacted(messages: seq<Message>, messages': seq<Message>, m: nat, text: string) {
    && |messages'| == |messages|
    && forall i :: 0 <= i < |messages| ==>
      if messages[i].role.ToolRole? && messages[i].content != text && Count(messages[..i], HasOtherText(text)) < m
      then messages'[i] == Message(ToolRole, text)
      else messages'[i] == messages[i]
  }

  lemma ChunksCompactedBy(infos: seq<TokenInfo>, keep: nat, placeholder: seq<int>)
    ensures ChunksCompacted(infos, CompactChunks(infos, NumToMask(infos, keep), placeholder), keep, placeholder)
  {
    var m := NumToMask(infos, keep);
    forall i | 0 <= i < |infos|
      ensures Count(infos, IsUncompactedTool) == Count(infos[..i], IsUncompactedTool)
            + (if IsUncompactedTool(infos[i]) then 1 else 0) + Count(infos[i + 1..], IsUncompactedTool)
    {
      CountAround(infos, i);
    }
    forall i | 0 <= i < |infos| {
      MaskFirstAt(infos, m, IsUncompactedTool, ToPlaceholder(placeholder), i);
    }
  }

  lemma CountAround(infos: seq<TokenInfo>, i: nat)
    requires i < |infos|
    ensures Count(infos, IsUncompactedTool) == Count(infos[..i], IsUncompactedTool)
          + (if IsUncompactedTool(infos[i]) then 1 else 0) + Count(infos[i + 1..], IsUncompactedTool)
  {
    assert infos == infos[..i] + ([infos[i]] + infos[i + 1..]);
    CountConcat(infos[..i], [infos[i]] + infos[i + 1..], IsUncompactedTool);
    assert ([infos[i]] + infos[i + 1..])[1..] == infos[i + 1..];
  }

  lemma MessagesCompactedBy(messages: seq<Message>, m: nat, text: string)
    ensures MessagesCompacted(messages, MaskFirst(messages, m, HasOtherText(text), ToText(text)), m, text)
  {
    forall i | 0 <= i < |messages| {
      MaskFirstAt(messages, m, HasOtherText(text), ToText(text), i);
    }
  }

  /** A summary restarts the stream: its own tokens and messages, no cached row, the samples recorded so far. */
  lemma SummaryStream(t: Trace, summary: Conversation)
    requires Inv(t) && |summary.gen.inputIds| <= t.maxLength
    ensures var t' := CompactToSummary(t, summary);
      && InStep(t') && Tokens(t') == summary.gen.inputIds && t'.conv.messages == summary.messages
      && t'.conv.gen == summary.gen.(capturedRoutingRows := 0) && t'.entries == []
      && t'.samples == t.samples && t'.maxLength == t.maxLength
  {
    CompactSummaryKeepsInv(t, summary);
    InvInStep(CompactToSummary(t, summary));
  }

  // When an operation is accepted.

  /** An assistant turn: one log-probability per token, a prompt to answer, room for it, and no handle without rows. */
  lemma AssistantAccepts(t: Trace, out: GenerationOutput)
    requires Inv(t)
    ensures AssistantAccepted(t, out) <==>
            && |out.logprobs| == |out.outputIds|
            && 0 < |Tokens(t)| + |out.outputIds| <= t.maxLength
            && (out.outputIds != [] ==> Tokens(t) != [])
            && (out.outputIds == [] && out.handle.Some? ==> |Rows(t)| < |Tokens(t)|)
  {
    var chunk := AssistantChunk(out);
    var infos := t.infos + [chunk];
    TokenIdsConcat(t.infos, [chunk]);
    assert TokenIds([chunk]) == out.outputIds;
    AllRowsLength(t.entries);
    assert infos[..|infos| - 1] == t.infos;
  }

  /** Every operation succeeds exactly if what it asks for fits, and then makes its own transition. */
  lemma StepAccepts(t: Trace, op: Op)
    requires Inv(t)
    ensures match op
      case AppendAssistant(out) =>
        Step(t, op) == if AssistantAccepted(t, out) then Some(AppendAssistantTurn(t, out)) else None
      case AppendMessage(isTool, content, tokens) =>
        Step(t, op) == if |Tokens(t)| + |tokens| <= t.maxLength then Some(AppendUserOrTool(t, isTool, content, tokens))
                       else None
      case RenderPrompt(swapped, inputIds) =>
        Step(t, op) == if |inputIds| <= t.maxLength
                       then Some(PreparePrompt(t.(conv := if swapped.Some? then swapped.value else t.conv), inputIds))
                       else None
      case CompactTools(keep, placeholder, text) =>
        var next := CompactToolResults(t, keep, placeholder, text);
        var (tools, others) := (Count(t.infos, IsUncompactedTool), Count(t.conv.messages, HasOtherText(text)));
        Step(t, op) == if tools <= keep || (others >= tools - keep && |Tokens(next)| < t.maxLength) then Some(next)
                       else None
      case CompactSummary(summary) =>
        Step(t, op) == if |summary.gen.inputIds| <= t.maxLength then Some(CompactToSummary(t, summary)) else None
  {
    match op
    case AppendMessage(isTool, content, tokens) => MessageStream(t, isTool, content, tokens);
    case _ =>
  }
}
