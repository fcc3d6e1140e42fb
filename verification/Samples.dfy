/**
 Training samples of one assistant turn: the left shift and loss mask built by the trace, the prompt
 and response read back from them, and the alignment of teacher log-probabilities
 (axrl/data/token_trace.py, axrl/data/sample.py, axrl/opd/teacher_logprobs.py).
 */
module Samples {
  import opened Basics
  import opened TokenChunks

  const IGNORE_INDEX := -100

  datatype Sample = Sample(
    inputIds: seq<int>,
    labels: seq<int>,
    lossMask: seq<bool>,
    attentionMask: seq<bool>,
    positionIds: seq<int>,
    rolloutLogprobs: seq<real>,
    turnIndex: seq<int>,
    routing: Option<seq<RoutingHandle>>)

  predicate EndsWithAssistant(infos: seq<TokenInfo>) {
    infos != [] && infos[|infos| - 1].tokenType.Assistant?
  }

  function LastTokens(infos: seq<TokenInfo>): seq<int>
    requires infos != []
  {
    infos[|infos| - 1].tokens
  }

  /** Start of the last chunk in the token stream. */
  function LastStart(infos: seq<TokenInfo>): (start: nat)
    requires infos != []
    ensures start + |LastTokens(infos)| == TokenCount(infos)
    ensures TokenIds(infos)[start..] == LastTokens(infos)
    ensures TokenIds(infos)[..start] == TokenIds(infos[..|infos| - 1])
  {
    assert infos == infos[..|infos| - 1] + [infos[|infos| - 1]];
    TokenIdsConcat(infos[..|infos| - 1], [infos[|infos| - 1]]);
    assert TokenIds([infos[|infos| - 1]]) == LastTokens(infos);
    TokenCount(infos[..|infos| - 1])
  }

  /** The demands the trace makes before it builds a turn sample. */
  predicate CanBuildTurnSample(infos: seq<TokenInfo>, maxLength: nat) {
    && EndsWithAssistant(infos)
    && 0 < TokenCount(infos) <= maxLength
    && (LastTokens(infos) != [] ==> LastStart(infos) > 0)
  }

  /** Position by position: what a turn sample of `infos` has to say about token `t` and its label `t + 1`. */
  ghost predicate IsTurnSample(s: Sample, infos: seq<TokenInfo>, handles: seq<RoutingHandle>, maxLength: nat,
          padTokenId: int)
    requires CanBuildTurnSample(infos, maxLength)
    requires LogprobsAligned(infos)
  {
    var ids := TokenIds(infos);
    var logprobs := TokenLogprobs(infos);
    var n := |ids|;
    LogprobsLength(infos);
    && |s.inputIds| == |s.labels| == |s.lossMask| == |s.attentionMask| == maxLength
    && |s.positionIds| == |s.rolloutLogprobs| == |s.turnIndex| == maxLength
    && (forall t :: 0 <= t < maxLength ==> s.inputIds[t] == if t < n then ids[t] else padTokenId)
    && (forall t :: 0 <= t < maxLength ==> s.labels[t] == if t + 1 < n then ids[t + 1] else -100)
    && (forall t :: 0 <= t < maxLength ==> s.lossMask[t] == (LastStart(infos) <= t + 1 < n))
    && (forall t :: 0 <= t < maxLength ==> s.attentionMask[t] == (t < n))
    && (forall t :: 0 <= t < maxLength ==> s.positionIds[t] == t)
    && (forall t :: 0 <= t < maxLength ==> s.rolloutLogprobs[t] == if t + 1 < n then logprobs[t + 1] else 0.0)
    && (forall t :: 0 <= t < maxLength ==> s.turnIndex[t] == if s.lossMask[t] then 0 else -1)
    && s.routing == (if handles == [] then None else Some(handles))
  }

  lemma TurnSampleUnique(s1: Sample, s2: Sample, infos: seq<TokenInfo>, handles: seq<RoutingHandle>, maxLength: nat,
          pad: int)
    requires CanBuildTurnSample(infos, maxLength) && LogprobsAligned(infos)
    requires IsTurnSample(s1, infos, handles, maxLength, pad) && IsTurnSample(s2, infos, handles, maxLength, pad)
    ensures s1 == s2
  {
    assert s1.inputIds == s2.inputIds && s1.labels == s2.labels && s1.lossMask == s2.lossMask;
    assert s1.attentionMask == s2.attentionMask && s1.positionIds == s2.positionIds;
    assert s1.rolloutLogprobs == s2.rolloutLogprobs && s1.turnIndex == s2.turnIndex;
  }

  function ShiftLeft<T>(values: seq<T>, paddingValue: T): seq<T> {
    if |values| == 0 then values else values[1..] + [paddingValue]
  }

  function PadRight<T>(values: seq<T>, count: nat, paddingValue: T): seq<T> {
    values + seq(count, _ => paddingValue)
  }

  /** Numpy slice assignment `values[start:] = value`. */
  function FillFrom<T>(values: seq<T>, start: nat, value: T): seq<T>
    requires start <= |values|
  {
    values[..start] + seq(|values| - start, _ => value)
  }

  lemma FillNothing<T>(values: seq<T>, value: T)
    ensures FillFrom(values, |values|, value) == values
  {
  }

  lemma ShiftPad<T>(values: seq<T>, count: nat, paddingValue: T)
    requires 0 < |values|
    ensures var shifted := PadRight(ShiftLeft(values, paddingValue), count, paddingValue);
      && |shifted| == |values| + count
      && forall t :: 0 <= t < |shifted| ==> shifted[t] == if t + 1 < |values| then values[t + 1] else paddingValue
  {
  }

  /** The array program of the source: fill, shift left, pad. */
  function BuildTurnSample(infos: seq<TokenInfo>, handles: seq<RoutingHandle>, maxLength: nat, padTokenId: int): Sample
    requires CanBuildTurnSample(infos, maxLength) && LogprobsAligned(infos)
  {
    var ids := TokenIds(infos);
    var n := |ids|;
    var start := n - |LastTokens(infos)|;
    assert start == LastStart(infos);
    var lossMask := if |LastTokens(infos)| > 0 then FillFrom(seq(n, _ => false), start, true) else seq(n, _ => false);
    var turnIndex := if |LastTokens(infos)| > 0 then FillFrom(seq(n, _ => -1), start, 0) else seq(n, _ => -1);
    var pad := maxLength - n;
    Sample(
      PadRight(ids, pad, padTokenId),
      PadRight(ShiftLeft(ids, IGNORE_INDEX), pad, IGNORE_INDEX),
      PadRight(ShiftLeft(lossMask, false), pad, false),
      PadRight(seq(n, _ => true), pad, false),
      seq(maxLength, t => t),
      PadRight(ShiftLeft(TokenLogprobs(infos), 0.0), pad, 0.0),
      PadRight(ShiftLeft(turnIndex, -1), pad, -1),
      if handles == [] then None else Some(handles))
  }

  lemma BuildTurnSampleCorrect(infos: seq<TokenInfo>, handles: seq<RoutingHandle>, maxLength: nat, padTokenId: int)
    requires CanBuildTurnSample(infos, maxLength) && LogprobsAligned(infos)
    ensures IsTurnSample(BuildTurnSample(infos, handles, maxLength, padTokenId), infos, handles, maxLength, padTokenId)
  {
    hide TokenIds, TokenLogprobs, ShiftLeft;
    var s := BuildTurnSample(infos, handles, maxLength, padTokenId);
    var ids, n, start := TokenIds(infos), TokenCount(infos), LastStart(infos);
    LogprobsLength(infos);
    var lossMask := if |LastTokens(infos)| > 0 then FillFrom(seq(n, _ => false), start, true) else seq(n, _ => false);
    var turnIndex := if |LastTokens(infos)| > 0 then FillFrom(seq(n, _ => -1), start, 0) else seq(n, _ => -1);
    ShiftPad(ids, maxLength - n, IGNORE_INDEX);
    ShiftPad(lossMask, maxLength - n, false);
    ShiftPad(TokenLogprobs(infos), maxLength - n, 0.0);
    ShiftPad(turnIndex, maxLength - n, -1);
  }

  // Reading a sample back.

  ghost predicate WellShaped(s: Sample) {
    0 < |s.inputIds| == |s.lossMask| == |s.attentionMask|
  }

  function TokenAlignedMask(s: Sample): (mask: seq<bool>)
    requires |s.lossMask| > 0
    ensures |mask| == |s.lossMask|
  {
    [false] + s.lossMask[..|s.lossMask| - 1]
  }

  /** The elements of `xs` whose mask bit is set, in order. */
  function Selected<T>(xs: seq<T>, mask: seq<bool>): seq<T>
    requires |xs| == |mask|
  {
    if xs == [] then []
    else if mask[0] then [xs[0]] + Selected(xs[1..], mask[1..])
    else Selected(xs[1..], mask[1..])
  }

  lemma {:induction false} SelectedConcat<T>(a: seq<T>, b: seq<T>, ma: seq<bool>, mb: seq<bool>)
    requires |a| == |ma| && |b| == |mb|
    ensures Selected(a + b, ma + mb) == Selected(a, ma) + Selected(b, mb)
  {
    if a == [] {
      assert a + b == b && ma + mb == mb;
    } else {
      assert (a + b)[1..] == a[1..] + b && (ma + mb)[1..] == ma[1..] + mb;
      SelectedConcat(a[1..], b, ma[1..], mb);
    }
  }

  lemma {:induction false} SelectedUniform<T>(xs: seq<T>, mask: seq<bool>, bit: bool)
    requires |xs| == |mask| && forall i :: 0 <= i < |mask| ==> mask[i] == bit
    ensures Selected(xs, mask) == if bit then xs else []
  {
    if xs != [] {
      SelectedUniform(xs[1..], mask[1..], bit);
    }
  }

  /** Selecting a contiguous window returns that window. */
  lemma {:induction false} SelectedWindow<T>(xs: seq<T>, mask: seq<bool>, lo: nat, hi: nat)
    requires |xs| == |mask| && lo <= hi <= |xs|
    requires forall i :: 0 <= i < |xs| ==> mask[i] == (lo <= i < hi)
    ensures Selected(xs, mask) == xs[lo..hi]
  {
    if lo > 0 {
      SelectedWindow(xs[1..], mask[1..], lo - 1, hi - 1);
      assert xs[1..][lo - 1..hi - 1] == xs[lo..hi];
    } else if hi > 0 {
      SelectedWindow(xs[1..], mask[1..], 0, hi - 1);
      assert [xs[0]] + xs[1..][..hi - 1] == xs[..hi];
    } else {
      SelectedUniform(xs, mask, false);
    }
  }

  method GetPromptIds(s: Sample) returns (promptIds: seq<int>)
    requires WellShaped(s)
    ensures promptIds <= s.inputIds
    ensures forall i :: 0 <= i < |promptIds| ==> !TokenAlignedMask(s)[i]
    ensures |promptIds| < |s.inputIds| ==> TokenAlignedMask(s)[|promptIds|]
  {
    var mask := TokenAlignedMask(s);
    promptIds := [];
    for i := 0 to |s.inputIds|
      invariant promptIds == s.inputIds[..i]
      invariant forall j :: 0 <= j < i ==> !mask[j]
    {
      if mask[i] {
        return;
      }
      promptIds := promptIds + [s.inputIds[i]];
    }
  }

  method GetResponseIds(s: Sample) returns (responseIds: seq<int>)
    requires WellShaped(s)
    ensures responseIds == Selected(s.inputIds, TokenAlignedMask(s))
  {
    var mask := TokenAlignedMask(s);
    responseIds := [];
    for i := 0 to |s.inputIds|
      invariant responseIds == Selected(s.inputIds[..i], mask[..i])
    {
      assert s.inputIds[..i + 1] == s.inputIds[..i] + [s.inputIds[i]];
      assert mask[..i + 1] == mask[..i] + [mask[i]];
      SelectedConcat(s.inputIds[..i], [s.inputIds[i]], mask[..i], [mask[i]]);
      if mask[i] {
        responseIds := responseIds + [s.inputIds[i]];
      }
    }
    assert s.inputIds[..|s.inputIds|] == s.inputIds && mask[..|mask|] == mask;
  }

  /** What a turn sample trains: the last chunk's tokens as labels, with that chunk's own log-probabilities. */
  lemma TrainedSpan(s: Sample, infos: seq<TokenInfo>, handles: seq<RoutingHandle>, maxLength: nat, pad: int)
    requires CanBuildTurnSample(infos, maxLength) && LogprobsAligned(infos)
    requires IsTurnSample(s, infos, handles, maxLength, pad)
    ensures Selected(s.labels, s.lossMask) == LastTokens(infos)
    ensures Selected(s.rolloutLogprobs, s.lossMask) == infos[|infos| - 1].logprobs
  {
    hide TokenIds, TokenLogprobs;
    var n, start := TokenCount(infos), LastStart(infos);
    var lo, hi := if start == n then 0 else start - 1, if start == n then 0 else n - 1;
    LogprobsLength(infos);
    LastLogprobs(infos);
    SelectedWindow(s.labels, s.lossMask, lo, hi);
    SelectedWindow(s.rolloutLogprobs, s.lossMask, lo, hi);
    assert s.labels[lo..hi] == TokenIds(infos)[start..];
    assert s.rolloutLogprobs[lo..hi] == TokenLogprobs(infos)[start..];
  }

  lemma LastLogprobs(infos: seq<TokenInfo>)
    requires infos != [] && LogprobsAligned(infos)
    ensures |TokenLogprobs(infos)| == TokenCount(infos)
    ensures TokenLogprobs(infos)[LastStart(infos)..] == infos[|infos| - 1].logprobs
  {
    var front, last := infos[..|infos| - 1], infos[|infos| - 1];
    assert infos == front + [last];
    TokenLogprobsConcat(front, [last]);
    LogprobsLength(infos);
    LogprobsLength(front);
    assert TokenLogprobs([last]) == last.logprobs + [] by { assert [last][1..] == []; }
  }

  /** The response read back from a turn sample is exactly the last assistant chunk, padded or not. */
  lemma ResponseIsLastChunk(s: Sample, infos: seq<TokenInfo>, handles: seq<RoutingHandle>, maxLength: nat, pad: int)
    requires CanBuildTurnSample(infos, maxLength) && LogprobsAligned(infos)
    requires IsTurnSample(s, infos, handles, maxLength, pad)
    ensures WellShaped(s)
    ensures Selected(s.inputIds, TokenAlignedMask(s)) == LastTokens(infos)
  {
    var n := TokenCount(infos);
    var start := LastStart(infos);
    var mask := TokenAlignedMask(s);
    if LastTokens(infos) == [] {
      SelectedUniform(s.inputIds, mask, false);
    } else {
      SelectedWindow(s.inputIds, mask, start, n);
      assert s.inputIds[start..n] == TokenIds(infos)[start..];
    }
  }

  /** A prompt that stops at the first trainable token stops at the start of the assistant chunk. */
  lemma PromptIsPrefix(s: Sample, infos: seq<TokenInfo>, handles: seq<RoutingHandle>, maxLength: nat, pad: int,
          promptIds: seq<int>)
    requires CanBuildTurnSample(infos, maxLength) && LogprobsAligned(infos)
    requires IsTurnSample(s, infos, handles, maxLength, pad) && LastTokens(infos) != []
    requires promptIds <= s.inputIds && |s.lossMask| > 0
    requires forall i :: 0 <= i < |promptIds| ==> !TokenAlignedMask(s)[i]
    requires |promptIds| < |s.inputIds| ==> TokenAlignedMask(s)[|promptIds|]
    ensures promptIds == TokenIds(infos[..|infos| - 1])
  {
    var start := LastStart(infos);
    var mask := TokenAlignedMask(s);
    assert mask[start] == s.lossMask[start - 1];
    if |promptIds| < start {
      assert false;
    }
    assert promptIds == TokenIds(infos)[..start];
  }

  /** Prompt and response, as the two readers return them, rebuild the token stream. */
  method ReadBack(s: Sample, ghost infos: seq<TokenInfo>, ghost handles: seq<RoutingHandle>, ghost maxLength: nat,
          ghost pad: int)
    returns (promptIds: seq<int>, responseIds: seq<int>)
    requires CanBuildTurnSample(infos, maxLength) && LogprobsAligned(infos)
    requires IsTurnSample(s, infos, handles, maxLength, pad)
    requires LastTokens(infos) != []
    ensures promptIds == TokenIds(infos[..|infos| - 1])
    ensures responseIds == LastTokens(infos)
    ensures promptIds + responseIds == TokenIds(infos)
  {
    ResponseIsLastChunk(s, infos, handles, maxLength, pad);
    promptIds := GetPromptIds(s);
    responseIds := GetResponseIds(s);
    PromptIsPrefix(s, infos, handles, maxLength, pad, promptIds);
    ghost var start := LastStart(infos);
    assert TokenIds(infos) == TokenIds(infos)[..start] + TokenIds(infos)[start..];
  }

  // Trainable tokens.

  function CountTrue(mask: seq<bool>): nat {
    if mask == [] then 0 else (if mask[0] then 1 else 0) + CountTrue(mask[1..])
  }

  lemma {:induction false} CountTrueWindow(mask: seq<bool>, lo: nat, hi: nat)
    requires lo <= hi <= |mask|
    requires forall i :: 0 <= i < |mask| ==> mask[i] == (lo <= i < hi)
    ensures CountTrue(mask) == hi - lo
  {
    if mask != [] {
      CountTrueWindow(mask[1..], if lo > 0 then lo - 1 else 0, if hi > 0 then hi - 1 else 0);
    }
  }

  /** A turn sample trains on exactly the tokens of its assistant chunk, and sees exactly the real tokens. */
  lemma TurnSampleCounts(s: Sample, infos: seq<TokenInfo>, handles: seq<RoutingHandle>, maxLength: nat, pad: int)
    requires CanBuildTurnSample(infos, maxLength) && LogprobsAligned(infos)
    requires IsTurnSample(s, infos, handles, maxLength, pad)
    ensures CountTrue(s.lossMask) == |LastTokens(infos)|
    ensures CountTrue(s.attentionMask) == TokenCount(infos)
  {
    var n := TokenCount(infos);
    if LastTokens(infos) == [] {
      CountTrueWindow(s.lossMask, 0, 0);
    } else {
      CountTrueWindow(s.lossMask, LastStart(infos) - 1, n - 1);
    }
    CountTrueWindow(s.attentionMask, 0, n);
  }

  // Teacher log-probabilities.

  datatype TeacherOutput = TeacherOutput(logprobs: seq<real>, tokenIds: seq<int>, startIndex: nat)

  /** First input-token index whose label is trainable; `None` stands for a failed assertion. */
  function InputLogprobStartIndex(s: Sample): (start: Option<nat>)
    ensures start.Some? ==> 1 <= start.value <= |s.lossMask| && s.lossMask[start.value - 1]
    ensures start.Some? ==> forall i :: 0 <= i < start.value - 1 ==> !s.lossMask[i]
    ensures start.Some? <==>
      exists i :: 0 <= i < |s.lossMask| && i < CountTrue(s.attentionMask) && s.lossMask[i]
  {
    if forall i :: 0 <= i < |s.lossMask| ==> !s.lossMask[i] then None
    else
      var start := FirstTrue(s.lossMask) + 1;
      if start <= CountTrue(s.attentionMask) then Some(start) else None
  }

  function FirstTrue(mask: seq<bool>): (k: nat)
    requires exists i :: 0 <= i < |mask| && mask[i]
    ensures k < |mask| && mask[k] && forall i :: 0 <= i < k ==> !mask[i]
  {
    if mask[0] then 0 else
      assert exists i :: 0 <= i < |mask[1..]| && mask[1..][i] by {
        var i :| 0 <= i < |mask| && mask[i];
        assert mask[1..][i - 1];
      }
      1 + FirstTrue(mask[1..])
  }

  /** Python's `xs[start:]` for a non-negative start. */
  function DropFrom<T>(xs: seq<T>, start: nat): seq<T> {
    if start <= |xs| then xs[start..] else []
  }

  /** Label position of the `i`-th scored token in an array of length `n`; numpy reads index -1 as the last element. */
  function LabelPosition(start: nat, i: nat, n: nat): int {
    if start + i == 0 then n - 1 else start + i - 1
  }

  predicate AlignmentChecks(s: Sample, output: TeacherOutput)
    requires WellShaped(s) && CountTrue(s.attentionMask) <= |s.inputIds|
  {
    var expected := DropFrom(s.inputIds[..CountTrue(s.attentionMask)], output.startIndex);
    && output.tokenIds == expected
    && |output.logprobs| == |expected|
    && forall i :: 0 <= i < |expected| ==> s.lossMask[LabelPosition(output.startIndex, i, |s.lossMask|)]
  }

  /** `None` stands for a failed assertion. */
  method AlignInputLogprobs(s: Sample, output: TeacherOutput) returns (r: Option<seq<real>>)
    requires WellShaped(s) && CountTrue(s.attentionMask) <= |s.inputIds|
    ensures r.Some? <==> AlignmentChecks(s, output)
    ensures r.Some? ==> |r.value| == |s.lossMask|
    ensures r.Some? ==> forall i :: 0 <= i < |output.logprobs| ==>
              r.value[LabelPosition(output.startIndex, i, |s.lossMask|)] == output.logprobs[i]
    ensures r.Some? ==> forall t :: 0 <= t < |s.lossMask| && !s.lossMask[t] ==> r.value[t] == 0.0
  {
    var realInputLen := CountTrue(s.attentionMask);
    var expected := DropFrom(s.inputIds[..realInputLen], output.startIndex);
    if output.tokenIds != expected || |output.logprobs| != |expected| {
      return None;
    }
    var n := |s.lossMask|;
    var teacher := Zeros(n);
    for i := 0 to |expected|
      invariant |teacher| == n
      invariant forall j :: 0 <= j < i ==> s.lossMask[LabelPosition(output.startIndex, j, n)]
      invariant forall j :: 0 <= j < i ==> teacher[LabelPosition(output.startIndex, j, n)] == output.logprobs[j]
      invariant forall t :: 0 <= t < n && !s.lossMask[t] ==> teacher[t] == 0.0
    {
      var position := LabelPosition(output.startIndex, i, n);
      if !s.lossMask[position] {
        return None;
      }
      teacher := teacher[position := output.logprobs[i]];
    }
    r := Some(teacher);
  }

  /** The start index of a turn sample is the start of its assistant chunk; a response that covers the
      real tokens from there passes every check, and its window is the loss mask. */
  lemma TeacherWindowIsLossMask(s: Sample, infos: seq<TokenInfo>, handles: seq<RoutingHandle>, maxLength: nat, pad: int,
          logprobs: seq<real>)
    requires CanBuildTurnSample(infos, maxLength) && LogprobsAligned(infos)
    requires IsTurnSample(s, infos, handles, maxLength, pad)
    requires LastTokens(infos) != [] && |logprobs| == |LastTokens(infos)|
    ensures WellShaped(s) && CountTrue(s.attentionMask) <= |s.inputIds|
    ensures InputLogprobStartIndex(s) == Some(LastStart(infos))
    ensures AlignmentChecks(s, TeacherOutput(logprobs, LastTokens(infos), LastStart(infos)))
    ensures forall t :: 0 <= t < |s.lossMask| ==>
              (s.lossMask[t] <==> LastStart(infos) - 1 <= t < LastStart(infos) - 1 + |logprobs|)
  {
    hide TokenIds, TokenLogprobs, TokenCount, LogprobsAligned;
    TurnSampleCounts(s, infos, handles, maxLength, pad);
    var start := LastStart(infos);
    assert s.lossMask[start - 1];
    assert InputLogprobStartIndex(s) == Some(start);
    assert s.inputIds[..TokenCount(infos)] == TokenIds(infos);
  }
}
