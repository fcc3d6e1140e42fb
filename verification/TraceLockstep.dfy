/**
 Tool-result chunks and tool messages are compacted side by side but are found independently
 (axrl/data/rollout_trace.py:420-461). This module says when they stay in step.
 */
module TraceLockstep {
  import opened Masking
  import opened TokenChunks
  import opened Samples
  import opened TraceModel

  /** For each tool element, whether it is still uncompacted. */
  function Flags<T>(xs: seq<T>, isTool: T -> bool, p: T -> bool): seq<bool> {
    if xs == [] then []
    else if isTool(xs[0]) then [p(xs[0])] + Flags(xs[1..], isTool, p)
    else Flags(xs[1..], isTool, p)
  }

  function ClearFirst(flags: seq<bool>, m: nat): seq<bool> {
    if flags == [] || m == 0 then flags
    else if flags[0] then [false] + ClearFirst(flags[1..], m - 1)
    else [false] + ClearFirst(flags[1..], m)
  }

  lemma {:induction false} FlagsCount<T>(xs: seq<T>, isTool: T -> bool, p: T -> bool)
    requires forall x :: p(x) ==> isTool(x)
    ensures Count(xs, p) == CountTrue(Flags(xs, isTool, p))
  {
    if xs != [] {
      FlagsCount(xs[1..], isTool, p);
      if isTool(xs[0]) {
        assert Flags(xs, isTool, p)[1..] == Flags(xs[1..], isTool, p);
      }
    }
  }

  lemma {:induction false} FlagsConcat<T>(a: seq<T>, b: seq<T>, isTool: T -> bool, p: T -> bool)
    ensures Flags(a + b, isTool, p) == Flags(a, isTool, p) + Flags(b, isTool, p)
  {
    if a == [] {
      assert a + b == b;
    } else {
      assert (a + b)[1..] == a[1..] + b;
      FlagsConcat(a[1..], b, isTool, p);
    }
  }

  lemma {:induction false} FlagsOfMasked<T>(xs: seq<T>, m: nat, isTool: T -> bool, p: T -> bool, f: T -> T)
    requires forall x :: p(x) ==> isTool(x) && isTool(f(x)) && !p(f(x))
    ensures Flags(MaskFirst(xs, m, p, f), isTool, p) == ClearFirst(Flags(xs, isTool, p), m)
  {
    if xs != [] && m > 0 {
      FlagsOfMasked(xs[1..], if p(xs[0]) then m - 1 else m, isTool, p, f);
      if isTool(xs[0]) {
        assert Flags(xs, isTool, p)[1..] == Flags(xs[1..], isTool, p);
      }
    }
  }

  predicate IsToolChunk(info: TokenInfo) { info.tokenType.ToolResult? }

  predicate IsToolMessage(m: Message) { m.role.ToolRole? }

  function ChunkFlags(t: Trace): seq<bool> { Flags(t.infos, IsToolChunk, IsUncompactedTool) }

  function MessageFlags(messages: seq<Message>, text: string): seq<bool> { Flags(messages, IsToolMessage,
          HasOtherText(text)) }

  /** The j-th tool message carries the placeholder text exactly when the j-th tool chunk is compacted. */
  predicate Lockstep(t: Trace, text: string) {
    ChunkFlags(t) == MessageFlags(t.conv.messages, text)
  }

  /** In lockstep the count assertion of compaction always passes, and compaction stays in lockstep. */
  lemma {:induction false} CompactionKeepsLockstep(t: Trace, keep: nat, placeholder: seq<int>, text: string)
    requires Lockstep(t, text)
    ensures Count(t.conv.messages, HasOtherText(text)) == Count(t.infos, IsUncompactedTool)
    ensures Count(t.conv.messages, HasOtherText(text)) >= NumToMask(t.infos, keep)
    ensures Lockstep(CompactToolResults(t, keep, placeholder, text), text)
  {
    var m := NumToMask(t.infos, keep);
    FlagsCount(t.infos, IsToolChunk, IsUncompactedTool);
    FlagsCount(t.conv.messages, IsToolMessage, HasOtherText(text));
    FlagsOfMasked(t.infos, m, IsToolChunk, IsUncompactedTool, ToPlaceholder(placeholder));
    FlagsOfMasked(t.conv.messages, m, IsToolMessage, HasOtherText(text), ToText(text));
  }

  /** An appended message keeps lockstep exactly when a tool message's text is not the placeholder. */
  lemma {:induction false} AppendKeepsLockstep(t: Trace, isTool: bool, content: string, tokens: seq<int>, text: string)
    requires Lockstep(t, text)
    ensures Lockstep(AppendUserOrTool(t, isTool, content, tokens), text) <==> (isTool ==> content != text)
  {
    var t' := AppendUserOrTool(t, isTool, content, tokens);
    var chunk := t'.infos[|t.infos|];
    var message := t'.conv.messages[|t.conv.messages|];
    assert t'.infos == t.infos + [chunk] && t'.conv.messages == t.conv.messages + [message];
    FlagsConcat(t.infos, [chunk], IsToolChunk, IsUncompactedTool);
    FlagsConcat(t.conv.messages, [message], IsToolMessage, HasOtherText(text));
    assert Flags([chunk], IsToolChunk, IsUncompactedTool) == if isTool then [true] else [];
    assert Flags([message], IsToolMessage, HasOtherText(text)) == if isTool then [content != text] else [];
    var flags := ChunkFlags(t);
    if isTool {
      assert ChunkFlags(t') == flags + [true];
      assert MessageFlags(t'.conv.messages, text) == flags + [content != text];
      assert (flags + [true])[|flags|] && (flags + [content != text])[|flags|] == (content != text);
    }
  }

  lemma {:induction false} NonToolExtension<T>(xs: seq<T>, more: seq<T>, isTool: T -> bool, p: T -> bool)
    requires forall i :: 0 <= i < |more| ==> !isTool(more[i])
    ensures Flags(xs + more, isTool, p) == Flags(xs, isTool, p)
  {
    NoFlags(more, isTool, p);
    FlagsConcat(xs, more, isTool, p);
  }

  lemma {:induction false} NoFlags<T>(xs: seq<T>, isTool: T -> bool, p: T -> bool)
    ensures Flags(xs, isTool, p) == [] <==> forall i :: 0 <= i < |xs| ==> !isTool(xs[i])
  {
    if xs != [] {
      NoFlags(xs[1..], isTool, p);
      assert forall i :: 0 <= i < |xs[1..]| ==> xs[1..][i] == xs[i + 1];
    }
  }

  lemma {:induction false} AssistantKeepsLockstep(t: Trace, out: GenerationOutput, text: string)
    requires Lockstep(t, text) && AssistantAccepted(t, out)
    ensures Lockstep(AppendAssistantTurn(t, out), text)
  {
    NonToolExtension(t.infos, [AssistantChunk(out)], IsToolChunk, IsUncompactedTool);
    NonToolExtension(t.infos + [AssistantChunk(out)], BoundaryChunks(t, out), IsToolChunk, IsUncompactedTool);
    NonToolExtension(t.conv.messages, [Message(AssistantRole, out.text)], IsToolMessage, HasOtherText(text));
  }

  /** A prompt replaced wholesale restarts in lockstep exactly when its messages hold no tool result. */
  lemma {:induction false} FreshPromptLockstep(t: Trace, inputIds: seq<int>, summary: Conversation, text: string)
    ensures Lockstep(PreparePrompt(t, inputIds), text) <==>
            forall i :: 0 <= i < |t.conv.messages| ==> !IsToolMessage(t.conv.messages[i])
    ensures Lockstep(CompactToSummary(t, summary), text) <==>
            forall i :: 0 <= i < |summary.messages| ==> !IsToolMessage(summary.messages[i])
  {
    NoFlags(t.conv.messages, IsToolMessage, HasOtherText(text));
    NoFlags(summary.messages, IsToolMessage, HasOtherText(text));
    NoFlags(PreparePrompt(t, inputIds).infos, IsToolChunk, IsUncompactedTool);
    NoFlags(CompactToSummary(t, summary).infos, IsToolChunk, IsUncompactedTool);
  }

  // Whole runs.

  lemma {:induction false} CountTrueConcat(a: seq<bool>, b: seq<bool>)
    ensures CountTrue(a + b) == CountTrue(a) + CountTrue(b)
  {
    if a == [] {
      assert a + b == b;
    } else {
      assert (a + b)[1..] == a[1..] + b;
      CountTrueConcat(a[1..], b);
    }
  }

  lemma {:induction false} ClearFirstCount(flags: seq<bool>, m: nat)
    ensures |ClearFirst(flags, m)| == |flags|
    ensures m <= CountTrue(flags) ==> CountTrue(ClearFirst(flags, m)) == CountTrue(flags) - m
  {
    if flags != [] && m > 0 {
      var rest := if flags[0] then m - 1 else m;
      ClearFirstCount(flags[1..], rest);
      assert ClearFirst(flags, m)[1..] == ClearFirst(flags[1..], rest);
    }
  }

  /** Operations that extend or compact the trace, compaction always with the same text. */
  predicate Extending(op: Op, text: string) {
    op.AppendAssistant? || op.AppendMessage? || (op.CompactTools? && op.text == text)
  }

  predicate AppendsPlaceholder(op: Op, text: string) {
    op.AppendMessage? && op.isTool && op.content == text
  }

  ghost predicate ExtendingRun(t: Trace, ops: seq<Op>, t': Trace, text: string)
    decreases ops
  {
    if ops == [] then t' == t
    else Extending(ops[0], text) && Step(t, ops[0]).Some? && ExtendingRun(Step(t, ops[0]).value, ops[1..], t', text)
  }

  /** How many tool messages arrive with the placeholder as their text. */
  function Placeholders(ops: seq<Op>, text: string): nat {
    if ops == [] then 0 else (if AppendsPlaceholder(ops[0], text) then 1 else 0) + Placeholders(ops[1..], text)
  }

  /** Uncompacted chunks in excess of uncompacted messages, and tool chunks in excess of tool messages. */
  function Excess(t: Trace, text: string): int {
    CountTrue(ChunkFlags(t)) - CountTrue(MessageFlags(t.conv.messages, text))
  }

  function Surplus(t: Trace, text: string): int {
    |ChunkFlags(t)| - |MessageFlags(t.conv.messages, text)|
  }

  lemma AppendedFlags(t: Trace, isTool: bool, content: string, tokens: seq<int>, text: string)
    ensures var t' := AppendUserOrTool(t, isTool, content, tokens);
      && ChunkFlags(t') == ChunkFlags(t) + (if isTool then [true] else [])
      && MessageFlags(t'.conv.messages, text) ==
        MessageFlags(t.conv.messages, text) + (if isTool then [content != text] else [])
  {
    var t' := AppendUserOrTool(t, isTool, content, tokens);
    var chunk, message := t'.infos[|t.infos|], t'.conv.messages[|t.conv.messages|];
    assert t'.infos == t.infos + [chunk] && t'.conv.messages == t.conv.messages + [message];
    FlagsConcat(t.infos, [chunk], IsToolChunk, IsUncompactedTool);
    FlagsConcat(t.conv.messages, [message], IsToolMessage, HasOtherText(text));
    assert Flags([chunk], IsToolChunk, IsUncompactedTool) == if isTool then [true] else [];
    assert Flags([message], IsToolMessage, HasOtherText(text)) == if isTool then [content != text] else [];
  }

  lemma AssistantFlags(t: Trace, out: GenerationOutput, text: string)
    requires AssistantAccepted(t, out)
    ensures var t' := AppendAssistantTurn(t, out);
      ChunkFlags(t') == ChunkFlags(t) && MessageFlags(t'.conv.messages, text) == MessageFlags(t.conv.messages, text)
  {
    NonToolExtension(t.infos, [AssistantChunk(out)], IsToolChunk, IsUncompactedTool);
    NonToolExtension(t.infos + [AssistantChunk(out)], BoundaryChunks(t, out), IsToolChunk, IsUncompactedTool);
    NonToolExtension(t.conv.messages, [Message(AssistantRole, out.text)], IsToolMessage, HasOtherText(text));
  }

  lemma CompactedFlags(t: Trace, keep: nat, placeholder: seq<int>, text: string)
    requires CompactionAccepted(t, keep, placeholder, text)
    ensures var t' := CompactToolResults(t, keep, placeholder, text);
      Excess(t', text) == Excess(t, text) && Surplus(t', text) == Surplus(t, text)
  {
    var m := NumToMask(t.infos, keep);
    FlagsCount(t.infos, IsToolChunk, IsUncompactedTool);
    FlagsCount(t.conv.messages, IsToolMessage, HasOtherText(text));
    FlagsOfMasked(t.infos, m, IsToolChunk, IsUncompactedTool, ToPlaceholder(placeholder));
    FlagsOfMasked(t.conv.messages, m, IsToolMessage, HasOtherText(text), ToText(text));
    ClearFirstCount(ChunkFlags(t), m);
    ClearFirstCount(MessageFlags(t.conv.messages, text), m);
  }

  /** Each operation raises the excess by the placeholders it appends, and nothing changes the surplus. */
  lemma StepExcess(t: Trace, op: Op, text: string)
    requires Extending(op, text) && Step(t, op).Some?
    ensures Excess(Step(t, op).value, text) == Excess(t, text) + (if AppendsPlaceholder(op, text) then 1 else 0)
    ensures Surplus(Step(t, op).value, text) == Surplus(t, text)
    ensures Lockstep(t, text) ==> (Lockstep(Step(t, op).value, text) <==> !AppendsPlaceholder(op, text))
  {
    match op
    case AppendAssistant(out) =>
      AssistantFlags(t, out, text);
    case AppendMessage(isTool, content, tokens) =>
      AppendedFlags(t, isTool, content, tokens, text);
      CountTrueConcat(ChunkFlags(t), if isTool then [true] else []);
      CountTrueConcat(MessageFlags(t.conv.messages, text), if isTool then [content != text] else []);
      if Lockstep(t, text) {
        AppendKeepsLockstep(t, isTool, content, tokens, text);
      }
    case CompactTools(keep, placeholder, _) =>
      CompactedFlags(t, keep, placeholder, text);
      if Lockstep(t, text) {
        CompactionKeepsLockstep(t, keep, placeholder, text);
      }
  }

  lemma {:induction false} RunExcess(t: Trace, ops: seq<Op>, t': Trace, text: string)
    requires ExtendingRun(t, ops, t', text)
    ensures Excess(t', text) == Excess(t, text) + Placeholders(ops, text)
    ensures Surplus(t', text) == Surplus(t, text)
    ensures Lockstep(t, text) && Placeholders(ops, text) == 0 ==> Lockstep(t', text)
    decreases ops
  {
    if ops != [] {
      StepExcess(t, ops[0], text);
      RunExcess(Step(t, ops[0]).value, ops[1..], t', text);
    }
  }

  /** Over whole runs from a trace in step: in step at the end exactly if no tool message repeated the placeholder. */
  lemma LockstepOverRuns(t: Trace, ops: seq<Op>, t': Trace, text: string)
    requires ExtendingRun(t, ops, t', text) && Lockstep(t, text)
    ensures Lockstep(t', text) <==> Placeholders(ops, text) == 0
  {
    RunExcess(t, ops, t', text);
  }

  /** Step once lost is never regained: neither by an excess of chunks nor by tool messages a prompt brought along. */
  lemma LockstepNotRegained(t: Trace, ops: seq<Op>, t': Trace, text: string)
    requires ExtendingRun(t, ops, t', text)
    ensures Excess(t, text) > 0 || Surplus(t, text) != 0 ==> !Lockstep(t', text)
  {
    RunExcess(t, ops, t', text);
  }

  /** So from a fresh prompt on, the traces in step are those without tool messages of the prompt or placeholders. */
  lemma LockstepFromSeed(conv: Conversation, maxLength: nat, ops: seq<Op>, t': Trace, text: string)
    requires ExtendingRun(Initial(conv, maxLength), ops, t', text)
    ensures Lockstep(t', text) <==>
      Placeholders(ops, text) == 0 && forall i :: 0 <= i < |conv.messages| ==> !IsToolMessage(conv.messages[i])
  {
    var seed := Initial(conv, maxLength);
    NoFlags(seed.infos, IsToolChunk, IsUncompactedTool);
    NoFlags(conv.messages, IsToolMessage, HasOtherText(text));
    RunExcess(seed, ops, t', text);
  }

  lemma MaskTwo<T>(x: T, y: T, p: T -> bool, f: T -> T)
    ensures Count([x, y], p) == (if p(x) then 1 else 0) + (if p(y) then 1 else 0)
    ensures MaskFirst([x, y], 1, p, f) == if p(x) then [f(x), y] else if p(y) then [x, f(y)] else [x, y]
  {
    assert [x, y][1..] == [y] && [y][1..] == [];
    assert Count([y], p) == (if p(y) then 1 else 0) + Count([y][1..], p);
    assert MaskFirst([y], 1, p, f) == if p(y) then [f(y)] else [y];
  }

  lemma TwoChunkTokens(x: TokenInfo, y: TokenInfo)
    ensures TokenIds([x, y]) == x.tokens + y.tokens
  {
    assert [x, y][1..] == [y] && [y][1..] == [];
    assert TokenIds([y]) == y.tokens;
  }

  /** Out of lockstep the wrong message is rewritten: a prompt seeded with a tool message has no chunk for it,
      so compacting the one real tool chunk blanks the seeded message and leaves the chunk's own message alone. */
  lemma SeededToolMessageIsBlankedInstead() returns (t: Trace)
    ensures Inv(t) && CompactionAccepted(t, 0, [0], "x")
    ensures |t.infos| == 2 && t.infos[1].tokens == [7]
    ensures t.conv.messages == [Message(ToolRole, "seed"), Message(ToolRole, "new")]
    ensures CompactToolResults(t, 0, [0], "x").infos[1].tokens == [0]
    ensures CompactToolResults(t, 0, [0], "x").conv.messages == [Message(ToolRole, "x"), Message(ToolRole, "new")]
  {
    var conv := Conversation([Message(ToolRole, "seed")], GenState([1], false, 0));
    var seed := Initial(conv, 10);
    InitialInv(conv, 10);
    t := AppendUserOrTool(seed, true, "new", [7]);
    var init, tool := t.infos[0], t.infos[1];
    assert t.infos == [init, tool];
    TwoChunkTokens(init, tool);
    AppendMessageKeepsInv(seed, true, "new", [7]);
    MaskTwo(init, tool, IsUncompactedTool, ToPlaceholder([0]));
    TwoChunkTokens(init, ToPlaceholder([0])(tool));
    var seeded, added := Message(ToolRole, "seed"), Message(ToolRole, "new");
    assert t.conv.messages == [seeded, added];
    assert |seeded.content| == 4 && |added.content| == 3 && |"x"| == 1;
    MaskTwo(seeded, added, HasOtherText("x"), ToText("x"));
  }

  // The conversation-only mode.

  function NumToolMessages(messages: seq<Message>): nat { Count(messages, IsToolMessage) }

  /** `_compact_conversation_only`: the oldest tool messages, placeholder or not, get the placeholder text. */
  function CompactConversationOnly(messages: seq<Message>, keep: nat, text: string): seq<Message> {
    var n := NumToolMessages(messages);
    MaskFirst(messages, if n <= keep then 0 else n - keep, IsToolMessage, ToText(text))
  }

  function CompactOthers(messages: seq<Message>, keep: nat, text: string): seq<Message> {
    var n := Count(messages, HasOtherText(text));
    MaskFirst(messages, if n <= keep then 0 else n - keep, HasOtherText(text), ToText(text))
  }

  /** Placeholders come first: no placeholder message after an uncompacted tool message. */
  ghost predicate PlaceholdersFirst(messages: seq<Message>, text: string) {
    forall i, j :: 0 <= i < j < |messages| && HasOtherText(text)(messages[i]) && IsToolMessage(messages[j]) ==>
      HasOtherText(text)(messages[j])
  }

  lemma {:induction false} OthersOnly(messages: seq<Message>, text: string)
    requires forall j :: 0 <= j < |messages| && IsToolMessage(messages[j]) ==> HasOtherText(text)(messages[j])
    ensures Count(messages, HasOtherText(text)) == NumToolMessages(messages)
  {
    if messages != [] {
      OthersOnly(messages[1..], text);
    }
  }

  lemma {:induction false} OthersAtMostTools(messages: seq<Message>, text: string)
    ensures Count(messages, HasOtherText(text)) <= NumToolMessages(messages)
  {
    if messages != [] {
      OthersAtMostTools(messages[1..], text);
    }
  }

  /** Both modes rewrite the same messages as long as placeholders come first. */
  lemma {:induction false} ModesAgree(messages: seq<Message>, keep: nat, text: string)
    requires PlaceholdersFirst(messages, text)
    ensures CompactConversationOnly(messages, keep, text) == CompactOthers(messages, keep, text)
  {
    if messages != [] {
      OthersAtMostTools(messages, text);
      OthersAtMostTools(messages[1..], text);
      ModesAgree(messages[1..], keep, text);
      if HasOtherText(text)(messages[0]) {
        OthersOnly(messages, text);
        OthersOnly(messages[1..], text);
      }
    }
  }

  /** Compaction itself keeps placeholders first, so the modes keep agreeing over a run. */
  lemma {:induction false} CompactionKeepsPlaceholdersFirst(messages: seq<Message>, m: nat, text: string)
    requires PlaceholdersFirst(messages, text)
    ensures PlaceholdersFirst(MaskFirst(messages, m, HasOtherText(text), ToText(text)), text)
  {
    var p, f := HasOtherText(text), ToText(text);
    var masked := MaskFirst(messages, m, p, f);
    forall i, j | 0 <= i < j < |masked| && p(masked[i]) && IsToolMessage(masked[j])
      ensures p(masked[j])
    {
      MaskFirstAt(messages, m, p, f, i);
      MaskFirstAt(messages, m, p, f, j);
      CountMonotone(messages, i, j, p);
    }
  }

  /** In token mode, with chunks and messages in step, `compact` leaves the messages conversation-only mode would. */
  lemma TokenModeMatchesConversationMode(t: Trace, keep: nat, placeholder: seq<int>, text: string)
    requires Lockstep(t, text) && PlaceholdersFirst(t.conv.messages, text)
    ensures CompactToolResults(t, keep, placeholder, text).conv.messages ==
            CompactConversationOnly(t.conv.messages, keep, text)
  {
    CompactionKeepsLockstep(t, keep, placeholder, text);
    ModesAgree(t.conv.messages, keep, text);
  }
}
