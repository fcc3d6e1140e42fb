/** Typed token chunks and the flat views derived from them (axrl/data/token_trace.py). */
module TokenChunks {
  import opened Masking

  datatype TokenType = Init | Assistant | AssistantBoundary | ToolResult | User

  datatype TokenInfo = TokenInfo(tokens: seq<int>, tokenType: TokenType, compacted: bool, logprobs: seq<real>)

  /** A routing row is represented by the token prefix it was computed from. */
  type Row = seq<int>

  datatype RoutingHandle = RoutingHandle(rows: seq<Row>) {
    /** The first rows, clamped like an array slice. */
    function Prefix(rowCount: nat): RoutingHandle {
      if rowCount <= |rows| then RoutingHandle(rows[..rowCount]) else this
    }
  }

  function Zeros(n: nat): seq<real> { seq(n, _ => 0.0) }

  function TokenIds(infos: seq<TokenInfo>): seq<int> {
    if infos == [] then [] else infos[0].tokens + TokenIds(infos[1..])
  }

  /** The sum of the chunk lengths. */
  function TokenCount(infos: seq<TokenInfo>): (n: nat)
    ensures n == |TokenIds(infos)|
  {
    if infos == [] then 0 else |infos[0].tokens| + TokenCount(infos[1..])
  }

  function ChunkLogprobs(info: TokenInfo): seq<real> {
    if |info.logprobs| > 0 then info.logprobs else Zeros(|info.tokens|)
  }

  function TokenLogprobs(infos: seq<TokenInfo>): seq<real> {
    if infos == [] then [] else ChunkLogprobs(infos[0]) + TokenLogprobs(infos[1..])
  }

  predicate LogprobsAligned(infos: seq<TokenInfo>) {
    forall i :: 0 <= i < |infos| ==> |infos[i].logprobs| == |infos[i].tokens|
  }

  /** Number of tokens before chunk `i`. */
  function Before(infos: seq<TokenInfo>, i: nat): nat
    requires i <= |infos|
  {
    TokenCount(infos[..i])
  }

  lemma {:induction false} TokenIdsConcat(a: seq<TokenInfo>, b: seq<TokenInfo>)
    ensures TokenIds(a + b) == TokenIds(a) + TokenIds(b)
  {
    if a == [] {
      assert a + b == b;
    } else {
      assert (a + b)[1..] == a[1..] + b;
      TokenIdsConcat(a[1..], b);
    }
  }

  lemma {:induction false} TokenLogprobsConcat(a: seq<TokenInfo>, b: seq<TokenInfo>)
    ensures TokenLogprobs(a + b) == TokenLogprobs(a) + TokenLogprobs(b)
  {
    if a == [] {
      assert a + b == b;
    } else {
      assert (a + b)[1..] == a[1..] + b;
      TokenLogprobsConcat(a[1..], b);
    }
  }

  lemma {:induction false} LogprobsLength(infos: seq<TokenInfo>)
    requires LogprobsAligned(infos)
    ensures |TokenLogprobs(infos)| == TokenCount(infos)
  {
    if infos != [] {
      LogprobsLength(infos[1..]);
    }
  }

  lemma {:induction false} BeforeMonotone(infos: seq<TokenInfo>, i: nat, j: nat)
    requires i <= j <= |infos|
    ensures Before(infos, i) <= Before(infos, j) <= TokenCount(infos)
    ensures TokenIds(infos[..i]) <= TokenIds(infos)
  {
    assert infos[..j] == infos[..i] + infos[i..j];
    TokenIdsConcat(infos[..i], infos[i..j]);
    assert infos == infos[..j] + infos[j..];
    TokenIdsConcat(infos[..j], infos[j..]);
    assert infos == infos[..i] + infos[i..];
    TokenIdsConcat(infos[..i], infos[i..]);
  }

  // Placeholder compaction of chunks.

  predicate IsUncompactedTool(info: TokenInfo) {
    info.tokenType.ToolResult? && !info.compacted
  }

  function ToPlaceholder(placeholder: seq<int>): TokenInfo -> TokenInfo {
    (info: TokenInfo) => info.(tokens := placeholder, logprobs := Zeros(|placeholder|), compacted := true)
  }

  function CompactChunks(infos: seq<TokenInfo>, m: nat, placeholder: seq<int>): (r: seq<TokenInfo>)
    ensures |r| == |infos|
  {
    MaskFirst(infos, m, IsUncompactedTool, ToPlaceholder(placeholder))
  }

  lemma CompactChunksKeepsShape(infos: seq<TokenInfo>, m: nat, placeholder: seq<int>)
    ensures forall i :: 0 <= i < |infos| ==> CompactChunks(infos, m, placeholder)[i].tokenType == infos[i].tokenType
    ensures LogprobsAligned(infos) ==> LogprobsAligned(CompactChunks(infos, m, placeholder))
  {
    forall i | 0 <= i < |infos| {
      MaskFirstAt(infos, m, IsUncompactedTool, ToPlaceholder(placeholder), i);
    }
  }

  // Routing rows held by a list of handles.

  datatype Entry = Entry(handle: RoutingHandle, chunk: nat, rowCount: nat)

  function RowSum(entries: seq<Entry>): nat {
    if entries == [] then 0 else entries[0].rowCount + RowSum(entries[1..])
  }

  function AllRows(entries: seq<Entry>): seq<Row> {
    if entries == [] then [] else entries[0].handle.rows + AllRows(entries[1..])
  }

  predicate RowCountsMatch(entries: seq<Entry>) {
    forall i :: 0 <= i < |entries| ==> |entries[i].handle.rows| == entries[i].rowCount
  }

  lemma {:induction false} RowsConcat(a: seq<Entry>, b: seq<Entry>)
    ensures AllRows(a + b) == AllRows(a) + AllRows(b)
    ensures RowSum(a + b) == RowSum(a) + RowSum(b)
  {
    if a == [] {
      assert a + b == b;
    } else {
      assert (a + b)[1..] == a[1..] + b;
      RowsConcat(a[1..], b);
    }
  }

  lemma {:induction false} AllRowsLength(entries: seq<Entry>)
    requires RowCountsMatch(entries)
    ensures |AllRows(entries)| == RowSum(entries)
  {
    if entries != [] {
      AllRowsLength(entries[1..]);
    }
  }

  /** Row `r` was computed from the first `r + 1` tokens of `ids`. */
  ghost predicate RowsSound(rows: seq<Row>, ids: seq<int>) {
    && |rows| <= |ids|
    && forall r :: 0 <= r < |rows| ==> rows[r] == ids[..r + 1]
  }

  /** What the engine captures for `ids` when asked to start at row `start`: one row per token but the last. */
  function Capture(ids: seq<int>, start: nat): (handle: RoutingHandle)
    requires start < |ids|
    ensures |handle.rows| == |ids| - 1 - start
    ensures forall i :: 0 <= i < |handle.rows| ==> handle.rows[i] == ids[..start + i + 1]
  {
    RoutingHandle(seq(|ids| - 1 - start, i requires 0 <= i < |ids| - 1 - start => ids[..start + i + 1]))
  }

  /** Handles kept by compaction: whole ones below the rewritten chunk, then one slice, within `budget` rows. */
  function TrimHandles(entries: seq<Entry>, earliest: nat, budget: nat): seq<Entry> {
    if entries == [] || budget == 0 then []
    else if entries[0].chunk < earliest && entries[0].rowCount <= budget then
      [entries[0]] + TrimHandles(entries[1..], earliest, budget - entries[0].rowCount)
    else
      CutEntry(entries[0], earliest, budget)
  }

  /** Handles kept by a prompt re-render: the first `budget` rows, all attached to chunk 0. */
  function TakeRows(entries: seq<Entry>, budget: nat): seq<Entry> {
    if entries == [] || budget == 0 then []
    else if entries[0].rowCount <= budget then
      [entries[0].(chunk := 0)] + TakeRows(entries[1..], budget - entries[0].rowCount)
    else
      [Entry(entries[0].handle.Prefix(budget), 0, budget)]
  }

  function CutEntry(entry: Entry, earliest: nat, budget: nat): seq<Entry> {
    var k := if entry.rowCount <= budget then entry.rowCount else budget;
    if k > 0 then [Entry(entry.handle.Prefix(k), if earliest == 0 then 0 else earliest - 1, k)] else []
  }

  /** One turn of the trimming loop, seen from position `i`. */
  lemma TrimUnfold(entries: seq<Entry>, i: nat, earliest: nat, budget: nat)
    requires i < |entries| && budget > 0
    ensures TrimHandles(entries[i..], earliest, budget) ==
            if entries[i].chunk < earliest && entries[i].rowCount <= budget then
              [entries[i]] + TrimHandles(entries[i + 1..], earliest, budget - entries[i].rowCount)
            else CutEntry(entries[i], earliest, budget)
  {
    assert entries[i..][1..] == entries[i + 1..];
  }

  lemma TrimNothing(entries: seq<Entry>, i: nat, earliest: nat, budget: nat)
    requires i <= |entries| && (i == |entries| || budget == 0)
    ensures TrimHandles(entries[i..], earliest, budget) == []
  {
  }

  lemma TakeNothing(entries: seq<Entry>, i: nat, budget: nat)
    requires i <= |entries| && (i == |entries| || budget == 0)
    ensures TakeRows(entries[i..], budget) == []
  {
  }

  lemma TakeUnfold(entries: seq<Entry>, i: nat, budget: nat)
    requires i < |entries| && budget > 0
    ensures TakeRows(entries[i..], budget) ==
            if entries[i].rowCount <= budget then
              [entries[i].(chunk := 0)] + TakeRows(entries[i + 1..], budget - entries[i].rowCount)
            else [Entry(entries[i].handle.Prefix(budget), 0, budget)]
  {
    assert entries[i..][1..] == entries[i + 1..];
  }

  /** The row at which handle `i` ends. */
  function End(entries: seq<Entry>, i: nat): nat
    requires i < |entries|
  {
    RowSum(entries[..i + 1])
  }

  lemma {:induction false} EndStep(entries: seq<Entry>, i: nat)
    requires 0 < i < |entries|
    ensures End(entries, i) == entries[0].rowCount + End(entries[1..], i - 1)
  {
    assert entries[..i + 1] == [entries[0]] + entries[1..][..i];
    RowsConcat([entries[0]], entries[1..][..i]);
    assert RowSum([entries[0]]) == entries[0].rowCount + RowSum([]);
  }

  lemma EndOfFirst(entries: seq<Entry>)
    requires entries != []
    ensures End(entries, 0) == entries[0].rowCount
  {
    assert entries[..1] == [entries[0]];
    assert RowSum([entries[0]]) == entries[0].rowCount + RowSum([]);
  }

  /** Some of the entries, holding exactly their first `budget` rows. */
  predicate FirstRows(kept: seq<Entry>, entries: seq<Entry>, budget: nat) {
    && RowCountsMatch(kept) && RowSum(kept) == budget
    && budget <= |AllRows(entries)| && AllRows(kept) == AllRows(entries)[..budget]
  }

  lemma KeepWhole(entry: Entry, kept: seq<Entry>, entries: seq<Entry>, budget: nat)
    requires FirstRows(kept, entries, budget) && |entry.handle.rows| == entry.rowCount
    ensures FirstRows([entry] + kept, [entry] + entries, entry.rowCount + budget)
  {
    assert ([entry] + kept)[1..] == kept && ([entry] + entries)[1..] == entries;
  }

  lemma CutFirst(entries: seq<Entry>, earliest: nat, budget: nat)
    requires entries != [] && RowCountsMatch(entries) && 0 < budget <= entries[0].rowCount
    ensures FirstRows(CutEntry(entries[0], earliest, budget), entries, budget)
  {
    assert CutEntry(entries[0], earliest, budget)[1..] == [];
  }

  /**
   Compaction keeps exactly the first `budget` rows, provided no handle at or after the rewritten chunk ends early.
   */
  lemma {:induction false} TrimKeepsExactly(entries: seq<Entry>, earliest: nat, budget: nat)
    requires RowCountsMatch(entries) && budget <= RowSum(entries)
    requires forall i :: 0 <= i < |entries| && entries[i].chunk >= earliest ==> End(entries, i) >= budget
    ensures var kept := TrimHandles(entries, earliest, budget);
      && RowCountsMatch(kept)
      && RowSum(kept) == budget
      && |AllRows(entries)| == RowSum(entries)
      && AllRows(kept) == AllRows(entries)[..budget]
      && forall i :: 0 <= i < |kept| ==> kept[i].chunk < earliest || kept[i].chunk == 0
  {
    AllRowsLength(entries);
    if entries == [] || budget == 0 {
    } else if entries[0].chunk < earliest && entries[0].rowCount <= budget {
      var rest, left := entries[1..], budget - entries[0].rowCount;
      forall i | 0 <= i < |rest| && rest[i].chunk >= earliest ensures End(rest, i) >= left {
        EndStep(entries, i + 1);
      }
      TrimKeepsExactly(rest, earliest, left);
      KeepWhole(entries[0], TrimHandles(rest, earliest, left), rest, left);
      assert entries == [entries[0]] + rest;
    } else {
      EndOfFirst(entries);
      CutFirst(entries, earliest, budget);
    }
  }

  lemma {:induction false} TakeRowsKeepsExactly(entries: seq<Entry>, budget: nat)
    requires RowCountsMatch(entries) && budget <= RowSum(entries)
    ensures var kept := TakeRows(entries, budget);
      && RowCountsMatch(kept)
      && RowSum(kept) == budget
      && |AllRows(entries)| == RowSum(entries)
      && AllRows(kept) == AllRows(entries)[..budget]
      && forall i :: 0 <= i < |kept| ==> kept[i].chunk == 0
  {
    AllRowsLength(entries);
    if entries == [] || budget == 0 {
    } else if entries[0].rowCount <= budget {
      TakeRowsKeepsExactly(entries[1..], budget - entries[0].rowCount);
    } else {
      assert TakeRows(entries, budget)[1..] == [];
    }
  }

  /** Trimming again at a later chunk, with the same budget, changes nothing. */
  lemma {:induction false} TrimTwice(entries: seq<Entry>, e1: nat, e2: nat, budget: nat)
    requires RowCountsMatch(entries)
    requires e1 < e2
    requires RowCountsMatch(TrimHandles(entries, e1, budget)) && RowSum(TrimHandles(entries, e1, budget)) == budget
    ensures TrimHandles(TrimHandles(entries, e1, budget), e2, budget) == TrimHandles(entries, e1, budget)
  {
    var kept := TrimHandles(entries, e1, budget);
    if entries == [] || budget == 0 {
    } else if entries[0].chunk < e1 && entries[0].rowCount <= budget {
      assert kept[1..] == TrimHandles(entries[1..], e1, budget - entries[0].rowCount);
      TrimTwice(entries[1..], e1, e2, budget - entries[0].rowCount);
    } else if kept != [] {
      assert kept[1..] == [];
    }
  }
}
