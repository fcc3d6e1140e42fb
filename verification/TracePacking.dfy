/** Packing the samples a trace actually records: append-only runs record a prefix chain. */
module TracePacking {
  import opened Basics
  import opened TokenChunks
  import opened Samples
  import opened TraceModel
  import opened TraceTheorems
  import opened PrefixTree
  import opened Packing

  function Turns(samples: seq<Sample>): seq<Turn> {
    seq(|samples|, i requires 0 <= i < |samples| => samples[i].inputIds)
  }

  predicate AppendOnly(ops: seq<Op>) {
    forall i :: 0 <= i < |ops| ==> ops[i].AppendAssistant? || ops[i].AppendMessage?
  }

  /** The recorded turns form a prefix chain that the live token stream extends. */
  predicate ChainBelow(turns: seq<Turn>, ids: seq<int>) {
    PrefixChain(turns) && (turns != [] ==> turns[|turns| - 1] <= ids)
  }

  lemma {:induction false} ExtendChain(turns: seq<Turn>, ids: seq<int>, turn: Turn, ids': seq<int>)
    requires ChainBelow(turns, ids) && ids <= turn && turn <= ids'
    ensures ChainBelow(turns + [turn], ids')
  {
    var longer := turns + [turn];
    forall i | 0 < i < |longer|
      ensures longer[i - 1] <= longer[i]
    {
      if i == |turns| {
        assert longer[i - 1] <= ids;
      }
    }
  }

  lemma {:induction false} AssistantKeepsChain(t: Trace, out: GenerationOutput)
    requires Inv(t) && FromEngine(t.conv.gen, out) && AssistantAccepted(t, out)
    requires ChainBelow(Turns(t.samples), TokenIds(t.infos))
    ensures ChainBelow(Turns(AppendAssistantTurn(t, out).samples), TokenIds(AppendAssistantTurn(t, out).infos))
  {
    hide Inv, FromEngine, AssistantAccepted, ChainBelow, BuildTurnSample;
    var t' := AppendAssistantTurn(t, out);
    AppendAssistantSample(t, out);
    var s := t'.samples[|t.samples|];
    TokenIdsConcat(t.infos, [AssistantChunk(out)]);
    assert TokenIds([AssistantChunk(out)]) == out.outputIds;
    TokenIdsConcat(t.infos + [AssistantChunk(out)], BoundaryChunks(t, out));
    assert Turns(t'.samples) == Turns(t.samples) + [s.inputIds];
    ExtendChain(Turns(t.samples), TokenIds(t.infos), s.inputIds, TokenIds(t'.infos));
  }

  lemma {:induction false} AppendStepKeepsChain(t: Trace, op: Op)
    requires Inv(t) && Legal(t, op) && Step(t, op).Some?
    requires op.AppendAssistant? || op.AppendMessage?
    requires ChainBelow(Turns(t.samples), TokenIds(t.infos))
    ensures ChainBelow(Turns(Step(t, op).value.samples), TokenIds(Step(t, op).value.infos))
  {
    match op
    case AppendAssistant(out) => AssistantKeepsChain(t, out);
    case AppendMessage(isTool, content, tokens) =>
      TokenIdsConcat(t.infos, [TokenInfo(tokens, if isTool then ToolResult else User, false, Zeros(|tokens|))]);
      assert Turns(Step(t, op).value.samples) == Turns(t.samples);
  }

  lemma {:induction false} AppendRunKeepsChain(t: Trace, ops: seq<Op>, t': Trace)
    requires Inv(t) && Runs(t, ops, t') && AppendOnly(ops)
    requires ChainBelow(Turns(t.samples), TokenIds(t.infos))
    ensures ChainBelow(Turns(t'.samples), TokenIds(t'.infos))
    decreases ops
  {
    if ops != [] {
      assert ops[0].AppendAssistant? || ops[0].AppendMessage?;
      AppendStepKeepsChain(t, ops[0]);
      StepEffect(t, ops[0]);
      AppendRunKeepsChain(Step(t, ops[0]).value, ops[1..], t');
    }
  }

  /** A prefix chain that splits into fitting groups fits into one group. */
  lemma ChainFitsInOneGroup(turns: seq<Turn>, maxPackLength: nat, groups: seq<seq<Turn>>)
    requires PrefixChain(turns) && turns != [] && FittingSplit(groups, turns, maxPackLength)
    ensures FittingSplit([turns], turns, maxPackLength)
  {
    var last := |groups| - 1;
    CutStep(groups, last);
    assert groups[..|groups|] == groups;
    BlockPackedLen(turns, Cut(groups, last), |turns|);
    BlockPackedLen(turns, 0, |turns|);
    assert turns[0..|turns|] == turns && turns[Cut(groups, last)..|turns|] == groups[last];
    OneGroup(turns);
  }

  lemma OneGroup(turns: seq<Turn>)
    ensures Flatten([turns]) == turns
  {
    FlattenSnoc([], turns);
    assert [] + [turns] == [turns] && Flatten([]) + turns == turns;
  }

  lemma ChainPacksIntoOneGroup(turns: seq<Turn>, maxPackLength: nat, groups: seq<seq<Turn>>)
    requires PrefixChain(turns) && turns != []
    requires FittingSplit(groups, turns, maxPackLength) && Maximal(groups, maxPackLength)
    ensures groups == [turns]
  {
    ChainFitsInOneGroup(turns, maxPackLength, groups);
    ChainsAreMonotone(turns);
    GreedyOptimal(turns, maxPackLength, groups, [turns]);
    assert groups == [groups[0]];
    OneGroup(groups[0]);
  }

  /** A rollout that was never re-rendered or compacted packs into a single sample whenever it packs at all. */
  lemma AppendOnlyRunsPackIntoOneGroup(conv: Conversation, maxLength: nat, ops: seq<Op>, t: Trace, maxPackLength: nat,
          groups: seq<seq<Turn>>)
    requires |conv.gen.inputIds| <= maxLength && SeedSound(conv)
    requires Runs(Initial(conv, maxLength), ops, t) && AppendOnly(ops) && t.samples != []
    requires FittingSplit(groups, Turns(t.samples), maxPackLength) && Maximal(groups, maxPackLength)
    ensures groups == [Turns(t.samples)]
  {
    InitialInv(conv, maxLength);
    AppendRunKeepsChain(Initial(conv, maxLength), ops, t);
    ChainPacksIntoOneGroup(Turns(t.samples), maxPackLength, groups);
  }

  /** The answer that adds one token to a prompt. */
  function OneToken(token: int): GenerationOutput {
    GenerationOutput("", [token], [0.0], None, None)
  }

  lemma OneTokenAccepted(t: Trace, token: int)
    requires Inv(t) && 0 < TokenCount(t.infos) < t.maxLength
    ensures AssistantAccepted(t, OneToken(token)) && FromEngine(t.conv.gen, OneToken(token))
  {
    hide RoutingInv, SampleSound;
    TokenIdsConcat(t.infos, [AssistantChunk(OneToken(token))]);
    assert TokenIds([AssistantChunk(OneToken(token))]) == [token];
  }

  /** Answering a trace's prompt with one token records the prompt and that token. */
  lemma AnswerRecords(t: Trace, token: int) returns (t': Trace)
    requires Inv(t) && 0 < TokenCount(t.infos) < t.maxLength
    ensures Legal(t, AppendAssistant(OneToken(token))) && Step(t, AppendAssistant(OneToken(token))) == Some(t')
    ensures Inv(t') && t'.maxLength == t.maxLength
    ensures Turns(t'.samples) == Turns(t.samples) + [TokenIds(t.infos) + [token]]
  {
    hide Inv, AssistantAccepted, BuildTurnSample, TokenIds, TokenCount;
    OneTokenAccepted(t, token);
    AppendAssistantSample(t, OneToken(token));
    StepEffect(t, AppendAssistant(OneToken(token)));
    t' := AppendAssistantTurn(t, OneToken(token));
    assert t'.samples == t.samples + [t'.samples[|t.samples|]];
  }

  lemma RenderedPrompt(t: Trace, prompt: seq<int>) returns (t': Trace)
    requires Inv(t) && |prompt| <= t.maxLength
    ensures Legal(t, RenderPrompt(None, prompt)) && Step(t, RenderPrompt(None, prompt)) == Some(t')
    ensures Inv(t') && t'.maxLength == t.maxLength && t'.samples == t.samples
    ensures TokenIds(t'.infos) == prompt && TokenCount(t'.infos) == |prompt|
  {
    hide Inv, TokenIds;
    StepEffect(t, RenderPrompt(None, prompt));
    SingleChunk(prompt);
    t' := PreparePrompt(t, prompt);
  }

  /** Rendering all but the last token of a turn and answering with that token records the turn. */
  lemma RecordTurn(t: Trace, turn: Turn) returns (ops: seq<Op>, t': Trace)
    requires Inv(t) && 2 <= |turn| <= t.maxLength
    ensures Runs(t, ops, t') && Inv(t') && t'.maxLength == t.maxLength
    ensures Turns(t'.samples) == Turns(t.samples) + [turn]
  {
    hide Inv, Step, Legal, TokenIds, TokenCount, Turns;
    var n := |turn| - 1;
    var rendered := RenderedPrompt(t, turn[..n]);
    t' := AnswerRecords(rendered, turn[n]);
    ops := [RenderPrompt(None, turn[..n]), AppendAssistant(OneToken(turn[n]))];
    assert ops[1..] == [AppendAssistant(OneToken(turn[n]))] && ops[1..][1..] == [];
    assert Runs(rendered, ops[1..], t');
    assert turn == turn[..n] + [turn[n]];
  }

  /** Any list of turns of two tokens or more that fit the trace is what some run records. */
  lemma {:induction false} AnyTurnsRecorded(t: Trace, turns: seq<Turn>) returns (ops: seq<Op>, t': Trace)
    requires Inv(t) && forall i :: 0 <= i < |turns| ==> 2 <= |turns[i]| <= t.maxLength
    ensures Runs(t, ops, t') && Inv(t') && Turns(t'.samples) == Turns(t.samples) + turns
    decreases turns
  {
    hide Inv, Step, Legal;
    if turns == [] {
      ops, t' := [], t;
    } else {
      var first, mid := RecordTurn(t, turns[0]);
      var rest, end := AnyTurnsRecorded(mid, turns[1..]);
      RunsConcat(t, first, mid, rest, end);
      ops, t' := first + rest, end;
      assert turns == [turns[0]] + turns[1..];
    }
  }

  lemma {:induction false} RunsConcat(t: Trace, ops: seq<Op>, mid: Trace, more: seq<Op>, t': Trace)
    requires Runs(t, ops, mid) && Runs(mid, more, t')
    ensures Runs(t, ops + more, t')
    decreases ops
  {
    hide Legal, Step;
    if ops == [] {
      assert ops + more == more;
    } else {
      RunsConcat(Step(t, ops[0]).value, ops[1..], mid, more, t');
      assert (ops + more)[1..] == ops[1..] + more;
    }
  }

  /** So a rollout exists whose turns the packing loop puts into three groups where two fit. */
  lemma RecordedTurnsPackedBadly(conv: Conversation, maxLength: nat) returns (ops: seq<Op>, t: Trace)
    requires |conv.gen.inputIds| <= maxLength && maxLength >= 4 && SeedSound(conv)
    ensures Runs(Initial(conv, maxLength), ops, t) && Turns(t.samples) == EXAMPLE
    ensures forall groups ::
              FittingSplit(groups, Turns(t.samples), 4) && Maximal(groups, 4) <==> groups == EXAMPLE_GREEDY
    ensures |EXAMPLE_GREEDY| == 3 && FittingSplit(EXAMPLE_BETTER, Turns(t.samples), 4) && |EXAMPLE_BETTER| == 2
  {
    InitialInv(conv, maxLength);
    ops, t := AnyTurnsRecorded(Initial(conv, maxLength), EXAMPLE);
    GreedyNotOptimalInGeneral();
  }
}
