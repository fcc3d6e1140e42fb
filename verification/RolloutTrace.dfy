/**
 The imperative recorder: `TokenTrace` with its parallel lists and `RolloutTrace` on top of it
 (axrl/data/token_trace.py, axrl/data/rollout_trace.py). Every public method is proved to be the
 corresponding transition of `TraceModel`.
 */
module RolloutTraceClasses {
  import opened Basics
  import opened Masking
  import opened TokenChunks
  import opened Samples
  import opened TraceModel

  function Zip(handles: seq<RoutingHandle>, chunks: seq<nat>, counts: seq<nat>): seq<Entry>
    requires |handles| == |chunks| == |counts|
  {
    seq(|handles|, i requires 0 <= i < |handles| => Entry(handles[i], chunks[i], counts[i]))
  }

  lemma ZipAt(handles: seq<RoutingHandle>, chunks: seq<nat>, counts: seq<nat>)
    requires |handles| == |chunks| == |counts|
    ensures |Zip(handles, chunks, counts)| == |handles|
    ensures forall i :: 0 <= i < |handles| ==>
            Zip(handles, chunks, counts)[i] == Entry(handles[i], chunks[i], counts[i])
  {
  }

  function Sum(counts: seq<nat>): nat {
    if counts == [] then 0 else counts[0] + Sum(counts[1..])
  }

  lemma {:induction false} SumIsRowSum(handles: seq<RoutingHandle>, chunks: seq<nat>, counts: seq<nat>)
    requires |handles| == |chunks| == |counts|
    ensures Sum(counts) == RowSum(Zip(handles, chunks, counts))
  {
    if counts != [] {
      assert Zip(handles, chunks, counts)[1..] == Zip(handles[1..], chunks[1..], counts[1..]);
      SumIsRowSum(handles[1..], chunks[1..], counts[1..]);
    }
  }

  lemma {:induction false} ZipSnoc(handles: seq<RoutingHandle>, chunks: seq<nat>, counts: seq<nat>, h: RoutingHandle,
          c: nat, k: nat)
    requires |handles| == |chunks| == |counts|
    ensures Zip(handles + [h], chunks + [c], counts + [k]) == Zip(handles, chunks, counts) + [Entry(h, c, k)]
  {
  }

  lemma RowSumSnoc(kept: seq<Entry>, x: Entry)
    ensures RowSum(kept + [x]) == RowSum(kept) + x.rowCount
  {
    RowsConcat(kept, [x]);
    assert RowSum([x]) == x.rowCount + RowSum([]);
  }

  lemma RowSumEmpty()
    ensures RowSum([]) == 0
  {
  }

  class TokenTrace {
    var tokenInfos: seq<TokenInfo>
    var routingHandles: seq<RoutingHandle>
    var tokenInfoIndexPerHandle: seq<nat>
    var routingRowCountPerHandle: seq<nat>

    ghost predicate Valid()
      reads this
    {
      |routingHandles| == |tokenInfoIndexPerHandle| == |routingRowCountPerHandle|
    }

    ghost function Entries(): seq<Entry>
      requires Valid()
      reads this
    {
      Zip(routingHandles, tokenInfoIndexPerHandle, routingRowCountPerHandle)
    }

    constructor ()
      ensures Valid()
      ensures tokenInfos == [] && Entries() == []
    {
      tokenInfos, routingHandles, tokenInfoIndexPerHandle, routingRowCountPerHandle := [], [], [], [];
    }

    function CapturedRoutingRows(): (rows: nat)
      requires Valid()
      reads this
      ensures rows == RowSum(Entries())
    {
      SumIsRowSum(routingHandles, tokenInfoIndexPerHandle, routingRowCountPerHandle);
      Sum(routingRowCountPerHandle)
    }

    method ExtendTokens(newTokens: seq<int>, logprobs: Option<seq<real>>, tokenType: TokenType,
            handle: Option<RoutingHandle>, rowCount: nat)
      requires Valid()
      requires logprobs.Some? ==> |logprobs.value| == |newTokens|
      requires tokenType.Init? <==> tokenInfos == []
      requires handle.Some? ==> tokenType.Assistant?
      modifies this
      ensures Valid()
      ensures tokenInfos == old(tokenInfos)
                + [TokenInfo(newTokens, tokenType, false,
                             if logprobs.Some? then logprobs.value else Zeros(|newTokens|))]
      ensures Entries() == if handle.Some? then old(Entries()) + [Entry(handle.value, |old(tokenInfos)|, rowCount)]
              else old(Entries())
    {
      var lp := if logprobs.Some? then logprobs.value else Zeros(|newTokens|);
      if handle.Some? {
        ZipSnoc(routingHandles, tokenInfoIndexPerHandle, routingRowCountPerHandle, handle.value, |tokenInfos|,
            rowCount);
        routingHandles := routingHandles + [handle.value];
        tokenInfoIndexPerHandle := tokenInfoIndexPerHandle + [|tokenInfos|];
        routingRowCountPerHandle := routingRowCountPerHandle + [rowCount];
      }
      tokenInfos := tokenInfos + [TokenInfo(newTokens, tokenType, false, lp)];
    }

    function NewRoutingRowCount(newTokenCount: nat, priorRoutingRows: nat): (rows: int)
      reads this
      ensures rows < 0 <==> TokenCount(tokenInfos) + newTokenCount <= priorRoutingRows
      ensures rows >= 0 ==> forall ids: seq<int> | |ids| == TokenCount(tokenInfos) + newTokenCount ::
        |Capture(ids, priorRoutingRows).rows| == rows
      ensures rows == TraceModel.NewRoutingRowCount(tokenInfos, newTokenCount, priorRoutingRows)
    {
      var totalAfter := TokenCount(tokenInfos) + newTokenCount;
      totalAfter - 1 - priorRoutingRows
    }

    method ToLastTurnSample(maxLength: nat, padTokenId: int) returns (s: Sample)
      requires Valid() && CanBuildTurnSample(tokenInfos, maxLength) && LogprobsAligned(tokenInfos)
      ensures s == BuildTurnSample(tokenInfos, Handles(Entries()), maxLength, padTokenId)
      ensures IsTurnSample(s, tokenInfos, Handles(Entries()), maxLength, padTokenId)
    {
      hide IsTurnSample, PadRight, ShiftLeft, FillFrom, TokenIds, TokenLogprobs;
      assert routingHandles == Handles(Entries());
      BuildTurnSampleCorrect(tokenInfos, routingHandles, maxLength, padTokenId);
      var inputIds, logprobs := TokenIds(tokenInfos), TokenLogprobs(tokenInfos);
      var n := |inputIds|;
      var lastStart := n - |LastTokens(tokenInfos)|;
      FillNothing(seq(n, _ => false), true);
      FillNothing(seq(n, _ => -1), 0);
      var lossMask, turnIndex := FillLastChunk(n, lastStart);
      var pad := maxLength - n;
      s := Sample(
        PadRight(inputIds, pad, padTokenId),
        PadRight(ShiftLeft(inputIds, IGNORE_INDEX), pad, IGNORE_INDEX),
        PadRight(ShiftLeft(lossMask[..], false), pad, false),
        PadRight(seq(n, _ => true), pad, false),
        seq(maxLength, t => t),
        PadRight(ShiftLeft(logprobs, 0.0), pad, 0.0),
        PadRight(ShiftLeft(turnIndex[..], -1), pad, -1),
        if routingHandles == [] then None else Some(routingHandles));
    }
  }

  /** Fresh mask and turn index arrays, set from the last chunk on. */
  method FillLastChunk(n: nat, lastStart: nat) returns (lossMask: array<bool>, turnIndex: array<int>)
    requires lastStart <= n
    ensures fresh(lossMask) && fresh(turnIndex)
    ensures lossMask[..] == FillFrom(seq(n, _ => false), lastStart, true)
    ensures turnIndex[..] == FillFrom(seq(n, _ => -1), lastStart, 0)
  {
    lossMask, turnIndex := new bool[n](_ => false), new int[n](_ => -1);
    for t := lastStart to n
      invariant forall k :: 0 <= k < n ==> lossMask[k] == (lastStart <= k < t)
      invariant forall k :: 0 <= k < n ==> turnIndex[k] == if lastStart <= k < t then 0 else -1
    {
      lossMask[t], turnIndex[t] := true, 0;
    }
  }

  datatype GenerationInputPreparation = GenerationInputPreparation(
    sharedPrefixTokens: nat,
    previousRoutingRows: nat,
    preservedRoutingRows: nat,
    droppedRoutingRows: nat,
    preservedRoutingHandles: nat)

  method CommonPrefixLength(left: seq<int>, right: seq<int>) returns (n: nat)
    ensures n == CommonPrefixLen(left, right)
  {
    var limit := if |left| < |right| then |left| else |right|;
    n := 0;
    while n < limit
      invariant 0 <= n <= limit
      invariant CommonPrefixLen(left, right) == n + CommonPrefixLen(left[n..], right[n..])
    {
      if left[n] != right[n] {
        return;
      }
      assert left[n..][1..] == left[n + 1..] && right[n..][1..] == right[n + 1..];
      n := n + 1;
    }
  }

  lemma Absorb(kept: seq<Entry>, x: Entry, rest: seq<Entry>, full: seq<Entry>)
    requires kept + ([x] + rest) == full
    ensures (kept + [x]) + rest == full
  {
  }

  /** The loop of `_routing_prefix_by_rows`. */
  method TakePrefixRows(oldHandles: seq<RoutingHandle>, ghost oldChunks: seq<nat>, oldCounts: seq<nat>,
          preserveRows: nat)
    returns (handles: seq<RoutingHandle>, counts: seq<nat>)
    requires |oldHandles| == |oldChunks| == |oldCounts|
    requires RowCountsMatch(Zip(oldHandles, oldChunks, oldCounts))
    requires preserveRows <= RowSum(Zip(oldHandles, oldChunks, oldCounts))
    ensures |handles| == |counts|
    ensures Zip(handles, seq(|handles|, _ => 0), counts) ==
            TakeRows(Zip(oldHandles, oldChunks, oldCounts), preserveRows)
  {
    hide TakeRows, Zip, RowSum, RowCountsMatch;
    ghost var entries := Zip(oldHandles, oldChunks, oldCounts);
    ghost var full := TakeRows(entries, preserveRows);
    ghost var kept, rest: seq<Entry> := [], full;
    ghost var zeros: seq<nat> := [];
    handles, counts := [], [];
    ZipAt(oldHandles, oldChunks, oldCounts);
    ZipAt(handles, zeros, counts);
    assert entries[0..] == entries;
    var rowsKept, i := 0, 0;
    while i < |oldHandles|
      invariant 0 <= i <= |entries| == |oldHandles|
      invariant |handles| == |counts| == |zeros| && kept == Zip(handles, zeros, counts)
      invariant forall k :: 0 <= k < |zeros| ==> zeros[k] == 0
      invariant rowsKept <= preserveRows
      invariant rest == TakeRows(entries[i..], preserveRows - rowsKept) && kept + rest == full
    {
      if rowsKept >= preserveRows {
        break;
      }
      var rowsRemaining := preserveRows - rowsKept;
      var handle, rowCount := oldHandles[i], oldCounts[i];
      TakeUnfold(entries, i, rowsRemaining);
      var whole := rowCount <= rowsRemaining;
      var taken := if whole then Entry(handle, 0, rowCount) else Entry(handle.Prefix(rowsRemaining), 0, rowsRemaining);
      ghost var later := if whole then TakeRows(entries[i + 1..], rowsRemaining - rowCount) else [];
      assert rest == [taken] + later;
      ZipSnoc(handles, zeros, counts, taken.handle, 0, taken.rowCount);
      Absorb(kept, taken, later, full);
      handles, counts, zeros := handles + [taken.handle], counts + [taken.rowCount], zeros + [0];
      rowsKept, kept, rest := rowsKept + taken.rowCount, kept + [taken], later;
      if !whole {
        break;
      }
      i := i + 1;
    }
    if i == |entries| || rowsKept == preserveRows {
      TakeNothing(entries, i, preserveRows - rowsKept);
    }
    assert rest == [];
    assert kept + [] == kept;
    assert zeros == seq(|handles|, _ => 0);
  }

  /** The loop of `_invalidate_stale_r3_handles`. */
  method TrimHandleLists(oldHandles: seq<RoutingHandle>, oldChunks: seq<nat>, oldCounts: seq<nat>, earliest: nat,
          preserveRows: nat)
    returns (handles: seq<RoutingHandle>, chunks: seq<nat>, counts: seq<nat>, rowsKept: nat)
    requires |oldHandles| == |oldChunks| == |oldCounts|
    ensures |handles| == |chunks| == |counts|
    ensures var kept := Zip(handles, chunks, counts);
      kept == TrimHandles(Zip(oldHandles, oldChunks, oldCounts), earliest, preserveRows) && rowsKept == RowSum(kept)
  {
    hide RowSum, TrimHandles, Zip;
    RowSumEmpty();
    ghost var entries := Zip(oldHandles, oldChunks, oldCounts);
    ghost var full := TrimHandles(entries, earliest, preserveRows);
    ghost var kept, rest: seq<Entry> := [], full;
    handles, chunks, counts, rowsKept := [], [], [], 0;
    ZipAt(oldHandles, oldChunks, oldCounts);
    ZipAt(handles, chunks, counts);
    assert entries[0..] == entries;
    var i := 0;
    while i < |oldHandles|
      invariant 0 <= i <= |entries| == |oldHandles|
      invariant |handles| == |chunks| == |counts| && kept == Zip(handles, chunks, counts)
      invariant rowsKept == RowSum(kept) <= preserveRows
      invariant rest == TrimHandles(entries[i..], earliest, preserveRows - rowsKept) && kept + rest == full
    {
      if rowsKept >= preserveRows {
        break;
      }
      var rowsRemaining := preserveRows - rowsKept;
      var handle, chunk, rowCount := oldHandles[i], oldChunks[i], oldCounts[i];
      TrimUnfold(entries, i, earliest, rowsRemaining);
      var whole := chunk < earliest && rowCount <= rowsRemaining;
      var prefixRows := if rowCount <= rowsRemaining then rowCount else rowsRemaining;
      if !whole && prefixRows == 0 {
        break;
      }
      var taken := if whole then Entry(handle, chunk, rowCount)
                   else Entry(handle.Prefix(prefixRows), if earliest == 0 then 0 else earliest - 1, prefixRows);
      ghost var later := if whole then TrimHandles(entries[i + 1..], earliest, rowsRemaining - rowCount) else [];
      assert rest == [taken] + later;
      ZipSnoc(handles, chunks, counts, taken.handle, taken.chunk, taken.rowCount);
      RowSumSnoc(kept, taken);
      Absorb(kept, taken, later, full);
      handles, chunks, counts := handles + [taken.handle], chunks + [taken.chunk], counts + [taken.rowCount];
      rowsKept, kept, rest := rowsKept + taken.rowCount, kept + [taken], later;
      if !whole {
        break;
      }
      i := i + 1;
    }
    if i == |entries| || rowsKept == preserveRows {
      TrimNothing(entries, i, earliest, preserveRows - rowsKept);
    }
    assert rest == [];
    assert kept + [] == kept;
  }

  lemma RenderIsPrepare(t: Trace, swapped: Option<Conversation>, inputIds: seq<int>)
    requires |inputIds| <= t.maxLength
    ensures Step(t, RenderPrompt(swapped, inputIds))
         == Some(PreparePrompt(if swapped.Some? then t.(conv := swapped.value) else t, inputIds))
  {
  }

  lemma CompactIsStep(t: Trace, keep: nat, placeholder: seq<int>, text: string)
    requires CompactionAccepted(t, keep, placeholder, text)
    ensures Step(t, CompactTools(keep, placeholder, text)) == Some(CompactToolResults(t, keep, placeholder, text))
  {
  }

  lemma RowCountsOf(t: Trace)
    requires Inv(t)
    ensures RowCountsMatch(t.entries)
  {
  }

  class RolloutTrace {
    const maxLength: nat
    var conversation: Conversation
    var turnSamples: seq<Sample>
    var tokenTrace: TokenTrace

    ghost predicate Valid()
      reads this, tokenTrace
    {
      tokenTrace.Valid() && Inv(Abs())
    }

    ghost function Abs(): Trace
      requires tokenTrace.Valid()
      reads this, tokenTrace
    {
      Trace(tokenTrace.tokenInfos, tokenTrace.Entries(), conversation, turnSamples, maxLength)
    }

    constructor (conv: Conversation, maxLength: nat)
      requires |conv.gen.inputIds| <= maxLength
      ensures tokenTrace.Valid() && fresh(tokenTrace)
      ensures Abs() == Initial(conv, maxLength)
      ensures Valid() <==> SeedSound(conv)
    {
      this.maxLength := maxLength;
      conversation := conv;
      turnSamples := [];
      tokenTrace := new TokenTrace();
      new;
      tokenTrace.ExtendTokens(conv.gen.inputIds, None, Init, None, 0);
      SyncGenState(false);
      InitialInv(conv, maxLength);
    }

    method SyncGenState(afterAssistantTurn: bool)
      requires tokenTrace.Valid()
      modifies this`conversation
      ensures tokenTrace.Valid() && Abs() == Sync(old(Abs()), afterAssistantTurn)
    {
      conversation := conversation.(gen := conversation.gen.(inputIds := TokenIds(tokenTrace.tokenInfos)));
      if afterAssistantTurn && conversation.gen.captureRouting {
        var rows := tokenTrace.CapturedRoutingRows();
        conversation := conversation.(gen := conversation.gen.(capturedRoutingRows := rows));
      }
    }

    /** Start a new token trace on a freshly rendered prompt, carrying over the given handles. */
    method RestartTokenTrace(inputIds: seq<int>, handles: seq<RoutingHandle>, counts: seq<nat>, capturedRows: nat)
      requires |handles| == |counts|
      modifies this
      ensures fresh(tokenTrace) && tokenTrace.Valid()
      ensures Abs() == Trace([TokenInfo(inputIds, Init, false, Zeros(|inputIds|))],
                             Zip(handles, seq(|handles|, _ => 0), counts),
                             old(conversation).(gen := old(conversation.gen).(inputIds := inputIds,
                                 capturedRoutingRows := capturedRows)),
                             old(turnSamples), maxLength)
    {
      tokenTrace := new TokenTrace();
      tokenTrace.ExtendTokens(inputIds, None, Init, None, 0);
      assert tokenTrace.tokenInfos == [TokenInfo(inputIds, Init, false, Zeros(|inputIds|))];
      tokenTrace.routingHandles := handles;
      tokenTrace.routingRowCountPerHandle := counts;
      tokenTrace.tokenInfoIndexPerHandle := seq(|handles|, _ => 0);
      SingleChunk(inputIds);
      conversation := conversation.(gen := conversation.gen.(inputIds := TokenIds(tokenTrace.tokenInfos),
          capturedRoutingRows := capturedRows));
    }

    /** The reusable part of the routing cache for a prompt that shares `shared` tokens with the live one. */
    method PreservedHandles(shared: nat) returns (handles: seq<RoutingHandle>, counts: seq<nat>, preserved: nat,
            previous: nat)
      requires tokenTrace.Valid() && RowCountsMatch(tokenTrace.Entries())
      ensures |handles| == |counts|
      ensures previous == if conversation.gen.captureRouting then RowSum(tokenTrace.Entries()) else 0
      ensures var limit := if shared == 0 then 0 else shared - 1;
        preserved == if limit <= previous then limit else previous
      ensures Zip(handles, seq(|handles|, _ => 0), counts)
           == if conversation.gen.captureRouting then TakeRows(tokenTrace.Entries(), preserved) else []
    {
      handles, counts, preserved, previous := [], [], 0, 0;
      if conversation.gen.captureRouting {
        previous := tokenTrace.CapturedRoutingRows();
        var limit := if shared == 0 then 0 else shared - 1;
        preserved := if limit <= previous then limit else previous;
        handles, counts := RoutingPrefixByRows(preserved);
      }
    }

    /** Swap in the conversation of a freshly rendered prompt, then sync the prompt and its reusable routing rows. */
    method PrepareGenerationInput(swapped: Option<Conversation>, inputIds: seq<int>)
      returns (prep: GenerationInputPreparation, routedExpertStartIndex: nat)
      requires Valid() && |inputIds| <= maxLength
      modifies this, tokenTrace
      ensures Valid() && fresh(tokenTrace)
      ensures Some(Abs()) == Step(old(Abs()), RenderPrompt(swapped, inputIds))
      ensures routedExpertStartIndex == conversation.gen.capturedRoutingRows == prep.preservedRoutingRows
      ensures prep.preservedRoutingRows + prep.droppedRoutingRows == prep.previousRoutingRows
      ensures prep.previousRoutingRows == if conversation.gen.captureRouting then RowSum(old(Abs()).entries) else 0
      ensures prep.sharedPrefixTokens == CommonPrefixLen(TokenIds(old(Abs()).infos), inputIds)
      ensures prep.preservedRoutingHandles == |Abs().entries|
    {
      hide Inv, TakeRows, RowSum, CommonPrefixLen, TokenIds, RowCountsMatch, Step;
      RenderIsPrepare(Abs(), swapped, inputIds);
      RowCountsOf(Abs());
      PreparePromptKeepsInv(Abs(), swapped, inputIds);
      ghost var t0 := if swapped.Some? then Abs().(conv := swapped.value) else Abs();
      if swapped.Some? {
        conversation := swapped.value;
      }
      var shared := CommonPrefixLength(TokenIds(tokenTrace.tokenInfos), inputIds);
      var handles, counts, preserved, previous := PreservedHandles(shared);
      RestartTokenTrace(inputIds, handles, counts, preserved);
      routedExpertStartIndex := preserved;
      prep := GenerationInputPreparation(shared, previous, preserved, previous - preserved, |handles|);
      assert Abs() == PreparePrompt(t0, inputIds);
    }

    method RoutingPrefixByRows(preserveRows: nat) returns (handles: seq<RoutingHandle>, counts: seq<nat>)
      requires tokenTrace.Valid() && RowCountsMatch(tokenTrace.Entries())
      requires preserveRows <= RowSum(tokenTrace.Entries())
      ensures |handles| == |counts|
      ensures Zip(handles, seq(|handles|, _ => 0), counts) == TakeRows(tokenTrace.Entries(), preserveRows)
    {
      handles, counts := TakePrefixRows(tokenTrace.routingHandles, tokenTrace.tokenInfoIndexPerHandle,
          tokenTrace.routingRowCountPerHandle, preserveRows);
    }

    method AppendAssistantMessage(out: GenerationOutput)
      requires Valid()
      requires FromEngine(conversation.gen, out) && AssistantAccepted(Abs(), out)
      modifies this, tokenTrace
      ensures Valid() && tokenTrace == old(tokenTrace)
      ensures Some(Abs()) == Step(old(Abs()), AppendAssistant(out))
      ensures Closes(TokenIds(old(tokenTrace.tokenInfos)) + out.outputIds, out, maxLength,
                     TokenIds(tokenTrace.tokenInfos))
      ensures old(turnSamples) <= turnSamples && |turnSamples| == |old(turnSamples)| + 1
    {
      hide Inv, FromEngine, Closes, BuildTurnSample, TokenIds;
      ghost var t := Abs();
      AppendAssistantKeepsInv(t, out);
      TurnCloses(t, out);
      RecordAssistantChunk(out);
      var sample := tokenTrace.ToLastTurnSample(TokenCount(tokenTrace.tokenInfos), 0);
      turnSamples := turnSamples + [sample];
      AppendAssistantBoundaryIfNeeded(out, t);
      SyncGenState(true);
    }

    /** The message, the chunk and the routing handle of an assistant turn. */
    method RecordAssistantChunk(out: GenerationOutput)
      requires tokenTrace.Valid() && AssistantAccepted(Abs(), out)
      modifies this`conversation, tokenTrace
      ensures tokenTrace.Valid()
      ensures tokenTrace.tokenInfos == old(tokenTrace.tokenInfos) + [AssistantChunk(out)]
      ensures tokenTrace.Entries() == AppendAssistantEntries(old(Abs()), out)
      ensures conversation == old(conversation).(messages := old(conversation).messages +
              [Message(AssistantRole, out.text)])
    {
      conversation := conversation.(messages := conversation.messages + [Message(AssistantRole, out.text)]);
      var priorRows := if conversation.gen.captureRouting then conversation.gen.capturedRoutingRows else 0;
      var rowCount := 0;
      if out.handle.Some? {
        rowCount := tokenTrace.NewRoutingRowCount(|out.outputIds|, priorRows);
      }
      tokenTrace.ExtendTokens(out.outputIds, Some(out.logprobs), Assistant, out.handle, rowCount);
    }

    method AppendAssistantBoundaryIfNeeded(out: GenerationOutput, ghost t: Trace)
      requires tokenTrace.Valid()
      requires tokenTrace.tokenInfos == t.infos + [AssistantChunk(out)] && maxLength == t.maxLength
      modifies tokenTrace
      ensures tokenTrace.Valid() && tokenTrace.Entries() == old(tokenTrace.Entries())
      ensures tokenTrace.tokenInfos == t.infos + [AssistantChunk(out)] + BoundaryChunks(t, out)
      ensures Closes(TokenIds(old(tokenTrace.tokenInfos)), out, maxLength, TokenIds(tokenTrace.tokenInfos))
    {
      TurnCloses(t, out);
      if !NeedsBoundary(out.outputIds, out.boundary) {
        return;
      }
      var boundaryLen := TokenCount(tokenTrace.tokenInfos) + 1;
      if boundaryLen > maxLength {
        return;
      }
      tokenTrace.ExtendTokens([out.boundary.value], None, AssistantBoundary, None, 0);
    }

    method AppendUserOrToolMessage(isTool: bool, content: string, tokens: seq<int>)
      requires Valid()
      requires TokenCount(AppendUserOrTool(Abs(), isTool, content, tokens).infos) <= maxLength
      modifies this, tokenTrace
      ensures Valid() && tokenTrace == old(tokenTrace)
      ensures Some(Abs()) == Step(old(Abs()), AppendMessage(isTool, content, tokens))
    {
      AppendMessageKeepsInv(Abs(), isTool, content, tokens);
      conversation := conversation.(messages := conversation.messages +
          [Message(if isTool then ToolRole else UserRole, content)]);
      tokenTrace.ExtendTokens(tokens, None, if isTool then ToolResult else User, None, 0);
      SyncGenState(false);
    }

    method Compact(keep: nat, placeholder: seq<int>, text: string)
      requires Valid() && CompactionAccepted(Abs(), keep, placeholder, text)
      modifies this, tokenTrace
      ensures Valid() && tokenTrace == old(tokenTrace)
      ensures Some(Abs()) == Step(old(Abs()), CompactTools(keep, placeholder, text))
    {
      hide Inv, Step, BlankTools, Sync, CompactChunks;
      ghost var t := Abs();
      CompactToolsKeepsInv(t, keep, placeholder, text);
      CompactIsStep(t, keep, placeholder, text);
      var chunks := CollectHits(tokenTrace.tokenInfos, IsUncompactedTool);
      var numToMask := if |chunks| <= keep then 0 else |chunks| - keep;
      assert numToMask == NumToMask(t.infos, keep);
      if numToMask > 0 {
        BlankFirst(chunks, numToMask, placeholder, text);
      }
      SyncGenState(false);
    }

    /** Blanks the first tool chunks and the first tool messages, after trimming the routing cache. */
    method BlankFirst(chunks: seq<nat>, numToMask: nat, placeholder: seq<int>, text: string)
      requires tokenTrace.Valid() && AreHits(chunks, tokenTrace.tokenInfos, IsUncompactedTool)
      requires 0 < numToMask <= |chunks| && numToMask <= Count(conversation.messages, HasOtherText(text))
      modifies this`conversation, tokenTrace
      ensures tokenTrace.Valid() && Abs() == BlankTools(old(Abs()), numToMask, placeholder, text)
    {
      hide TrimHandles;
      ZerothHitIsFirst(tokenTrace.tokenInfos, chunks[0], IsUncompactedTool);
      InvalidateStaleR3Handles(chunks[0]);
      tokenTrace.tokenInfos := RewriteFirst(tokenTrace.tokenInfos, chunks, numToMask, IsUncompactedTool,
          ToPlaceholder(placeholder));
      RewriteMessages(numToMask, text);
    }

    /** Blanks the first tool messages that do not yet hold the placeholder text. */
    method RewriteMessages(numToMask: nat, text: string)
      requires numToMask <= Count(conversation.messages, HasOtherText(text))
      modifies this`conversation
      ensures conversation == old(conversation).(
                messages := MaskFirst(old(conversation.messages), numToMask, HasOtherText(text), ToText(text)))
    {
      var messages := CollectHits(conversation.messages, HasOtherText(text));
      var rewritten := RewriteFirst(conversation.messages, messages, numToMask, HasOtherText(text), ToText(text));
      conversation := conversation.(messages := rewritten);
    }

    method InvalidateStaleR3Handles(earliest: nat)
      requires tokenTrace.Valid() && earliest <= |tokenTrace.tokenInfos|
      modifies this`conversation, tokenTrace
      ensures tokenTrace.Valid() && tokenTrace.tokenInfos == old(tokenTrace.tokenInfos)
      ensures conversation.messages == old(conversation.messages)
      ensures !old(conversation.gen.captureRouting) ==>
                tokenTrace.Entries() == old(tokenTrace.Entries()) && conversation == old(conversation)
      ensures old(conversation.gen.captureRouting) ==>
                var before := Before(tokenTrace.tokenInfos, earliest);
                var captured := old(conversation.gen.capturedRoutingRows);
                && tokenTrace.Entries() == TrimHandles(old(tokenTrace.Entries()), earliest,
                  if before <= captured then before else captured)
                && conversation.gen == old(conversation.gen).(capturedRoutingRows := RowSum(tokenTrace.Entries()))
    {
      if !conversation.gen.captureRouting {
        return;
      }
      var before := Before(tokenTrace.tokenInfos, earliest);
      var preserveRows := if before <= conversation.gen.capturedRoutingRows then before
          else conversation.gen.capturedRoutingRows;
      var handles, chunks, counts, rowsKept := TrimHandleLists(
        tokenTrace.routingHandles, tokenTrace.tokenInfoIndexPerHandle, tokenTrace.routingRowCountPerHandle, earliest,
            preserveRows);
      tokenTrace.routingHandles := handles;
      tokenTrace.tokenInfoIndexPerHandle := chunks;
      tokenTrace.routingRowCountPerHandle := counts;
      conversation := conversation.(gen := conversation.gen.(capturedRoutingRows := rowsKept));
    }

    method CompactToSummaryConversation(summary: Conversation)
      requires Valid() && |summary.gen.inputIds| <= maxLength
      modifies this
      ensures Valid() && fresh(tokenTrace)
      ensures Some(Abs()) == Step(old(Abs()), CompactSummary(summary))
    {
      CompactSummaryKeepsInv(Abs(), summary);
      conversation := summary;
      tokenTrace := new TokenTrace();
      tokenTrace.ExtendTokens(summary.gen.inputIds, None, Init, None, 0);
      assert tokenTrace.tokenInfos == [TokenInfo(summary.gen.inputIds, Init, false, Zeros(|summary.gen.inputIds|))];
      conversation := conversation.(gen := conversation.gen.(capturedRoutingRows := 0));
      SyncGenState(false);
    }
  }
}
