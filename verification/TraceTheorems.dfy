/** Properties of whole runs of the rollout trace, and the algebra of placeholder compaction. */
module TraceTheorems {
  import opened Masking
  import opened TokenChunks
  import opened Samples
  import opened TraceModel

  /** `ops` leads from `t` to `t'` with every assertion passing and every assistant turn coming from the engine. */
  ghost predicate Runs(t: Trace, ops: seq<Op>, t': Trace)
    decreases ops
  {
    if ops == [] then t' == t
    else Legal(t, ops[0]) && Step(t, ops[0]).Some? && Runs(Step(t, ops[0]).value, ops[1..], t')
  }

  /** The assistant outputs of a run, in order. */
  function Outputs(ops: seq<Op>): seq<seq<int>> {
    if ops == [] then [] else OutputOf(ops[0]) + Outputs(ops[1..])
  }

  function OutputOf(op: Op): seq<seq<int>> {
    if op.AppendAssistant? then [op.out.outputIds] else []
  }

  function TotalLength(xs: seq<seq<int>>): nat {
    if xs == [] then 0 else |xs[0]| + TotalLength(xs[1..])
  }

  function TrainableTokens(samples: seq<Sample>): nat {
    if samples == [] then 0 else CountTrue(samples[0].lossMask) + TrainableTokens(samples[1..])
  }

  ghost predicate AllWellShaped(samples: seq<Sample>) {
    forall i :: 0 <= i < |samples| ==> WellShaped(samples[i])
  }

  function Responses(samples: seq<Sample>): seq<seq<int>>
    requires AllWellShaped(samples)
  {
    seq(|samples|, i requires 0 <= i < |samples| => Selected(samples[i].inputIds, TokenAlignedMask(samples[i])))
  }

  lemma {:induction false} TrainableConcat(a: seq<Sample>, b: seq<Sample>)
    ensures TrainableTokens(a + b) == TrainableTokens(a) + TrainableTokens(b)
  {
    if a == [] {
      assert a + b == b;
    } else {
      assert (a + b)[1..] == a[1..] + b;
      TrainableConcat(a[1..], b);
    }
  }

  lemma {:induction false} AddSample(samples: seq<Sample>, s: Sample, response: seq<int>)
    requires AllWellShaped(samples) && WellShaped(s)
    requires Selected(s.inputIds, TokenAlignedMask(s)) == response && CountTrue(s.lossMask) == |response|
    ensures AllWellShaped(samples + [s])
    ensures Responses(samples + [s]) == Responses(samples) + [response]
    ensures TrainableTokens(samples + [s]) == TrainableTokens(samples) + |response|
  {
    TrainableConcat(samples, [s]);
    assert TrainableTokens([s]) == CountTrue(s.lossMask) + TrainableTokens([]);
  }

  lemma {:induction false} StepSamples(t: Trace, op: Op)
    requires Step(t, op).Some? && !op.AppendAssistant?
    ensures Step(t, op).value.samples == t.samples
  {
  }

  /** `t'` keeps the earlier samples and adds one sample per output, each reading back as that output. */
  ghost predicate Adds(t: Trace, outputs: seq<seq<int>>, t': Trace) {
    && AllWellShaped(t.samples) && AllWellShaped(t'.samples)
    && t.samples <= t'.samples
    && Responses(t'.samples) == Responses(t.samples) + outputs
    && TrainableTokens(t'.samples) == TrainableTokens(t.samples) + TotalLength(outputs)
  }

  lemma {:induction false} AddsTransitive(t: Trace, a: seq<seq<int>>, mid: Trace, b: seq<seq<int>>, t': Trace)
    requires Adds(t, a, mid) && Adds(mid, b, t')
    ensures Adds(t, a + b, t')
  {
    TotalLengthConcat(a, b);
  }

  lemma {:induction false} AssistantEffect(t: Trace, out: GenerationOutput)
    requires Inv(t) && FromEngine(t.conv.gen, out) && AssistantAccepted(t, out)
    ensures Adds(t, [out.outputIds], AppendAssistantTurn(t, out))
  {
    AppendAssistantSample(t, out);
    AddSample(t.samples, AppendAssistantTurn(t, out).samples[|t.samples|], out.outputIds);
    assert TotalLength([out.outputIds]) == |out.outputIds| + TotalLength([]);
  }

  lemma {:induction false} StepEffect(t: Trace, op: Op)
    requires Inv(t) && Legal(t, op) && Step(t, op).Some?
    ensures Inv(Step(t, op).value)
    ensures Adds(t, OutputOf(op), Step(t, op).value)
  {
    StepKeepsInv(t, op);
    if op.AppendAssistant? {
      AssistantEffect(t, op.out);
    } else {
      StepSamples(t, op);
    }
  }

  lemma {:induction false} TotalLengthConcat(a: seq<seq<int>>, b: seq<seq<int>>)
    ensures TotalLength(a + b) == TotalLength(a) + TotalLength(b)
  {
    if a == [] {
      assert a + b == b;
    } else {
      assert (a + b)[1..] == a[1..] + b;
      TotalLengthConcat(a[1..], b);
    }
  }

  /** Over any run: the invariant holds, earlier samples are never touched, and the samples' responses are
      exactly the assistant outputs, so trainable tokens equal assistant tokens appended. */
  lemma {:induction false} RunEffect(t: Trace, ops: seq<Op>, t': Trace)
    requires Inv(t) && Runs(t, ops, t')
    ensures Inv(t')
    ensures Adds(t, Outputs(ops), t')
    decreases ops
  {
    if ops != [] {
      var next := Step(t, ops[0]).value;
      StepEffect(t, ops[0]);
      RunEffect(next, ops[1..], t');
      AddsTransitive(t, OutputOf(ops[0]), next, Outputs(ops[1..]), t');
    }
  }

  /** The routing cache agrees with the token stream after every run from a fresh seed. */
  lemma RoutingCacheSound(conv: Conversation, maxLength: nat, ops: seq<Op>, t: Trace)
    requires |conv.gen.inputIds| <= maxLength && SeedSound(conv)
    requires Runs(Initial(conv, maxLength), ops, t)
    ensures t.conv.gen.inputIds == TokenIds(t.infos)
    ensures t.conv.gen.captureRouting ==> t.conv.gen.capturedRoutingRows == |AllRows(t.entries)| == RowSum(t.entries)
    ensures |AllRows(t.entries)| <= |TokenIds(t.infos)|
    ensures forall r :: 0 <= r < |AllRows(t.entries)| ==> AllRows(t.entries)[r] == TokenIds(t.infos)[..r + 1]
    ensures forall i :: 0 <= i < |t.samples| ==> SampleSound(t.samples[i])
    ensures AllWellShaped(t.samples) && Responses(t.samples) == Outputs(ops)
    ensures TrainableTokens(t.samples) == TotalLength(Outputs(ops))
  {
    InitialInv(conv, maxLength);
    RunEffect(Initial(conv, maxLength), ops, t);
    AllRowsLength(t.entries);
  }

  /**
   The non-negativity assertion on a new handle's row count fails exactly for an empty turn on a fully captured
   stream.
   */
  lemma RowCountAssertion(t: Trace, newTokens: nat)
    requires Inv(t)
    ensures NewRoutingRowCount(t.infos, newTokens, PriorRows(t)) < 0 <==>
            newTokens == 0 && TokenCount(t.infos) == (if t.conv.gen.captureRouting then RowSum(t.entries) else 0)
  {
    AllRowsLength(t.entries);
  }

  /** Compacting to `k1` and then to `k2 <= k1` recent results is compacting to `k2` at once, in every field. */
  lemma CompactionCompose(t: Trace, k1: nat, k2: nat, placeholder: seq<int>, text: string)
    requires Inv(t) && k2 <= k1
    ensures CompactToolResults(CompactToolResults(t, k1, placeholder, text), k2, placeholder, text)
         == CompactToolResults(t, k2, placeholder, text)
  {
    var m1 := NumToMask(t.infos, k1);
    var t1 := CompactToolResults(t, k1, placeholder, text);
    var f := ToPlaceholder(placeholder);
    if m1 == 0 {
      assert t1 == t;
    } else {
      CountAfterMask(t.infos, m1, IsUncompactedTool, f);
      var m2 := NumToMask(t1.infos, k2);
      MaskCompose(t.infos, m1, m2, IsUncompactedTool, f);
      MaskCompose(t.conv.messages, m1, m2, HasOtherText(text), ToText(text));
      if m2 > 0 {
        CompactionRoutingStable(t, k1, k2, placeholder, text);
      }
    }
  }

  lemma {:induction false} CompactionRoutingStable(t: Trace, k1: nat, k2: nat, placeholder: seq<int>, text: string)
    requires Inv(t) && NumToMask(t.infos, k1) > 0
    requires NumToMask(CompactToolResults(t, k1, placeholder, text).infos, k2) > 0
    ensures var t1 := CompactToolResults(t, k1, placeholder, text);
      CompactedEntries(t1) == t1.entries
  {
    var t1 := CompactToolResults(t, k1, placeholder, text);
    var m1 := NumToMask(t.infos, k1);
    CompactChunksFacts(t.infos, m1, placeholder);
    var e1 := First(t.infos, IsUncompactedTool);
    var e2 := First(t1.infos, IsUncompactedTool);
    CountPositive(t1.infos, IsUncompactedTool);
    assert IsUncompactedTool(t1.infos[e2]);
    if t.conv.gen.captureRouting {
      CompactionKeepsExactlyTheValidRows(t, k1, placeholder, text);
      TrimTwice(t.entries, e1, e2, PreserveLimit(t));
      assert PreserveLimit(t1) == PreserveLimit(t);
    }
  }

  lemma CompactionIdempotent(t: Trace, keep: nat, placeholder: seq<int>, text: string)
    requires Inv(t)
    ensures CompactToolResults(CompactToolResults(t, keep, placeholder, text), keep, placeholder, text)
         == CompactToolResults(t, keep, placeholder, text)
  {
    CompactionCompose(t, keep, keep, placeholder, text);
  }
}
