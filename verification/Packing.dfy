/** Greedy packing of a trace's turn samples (axrl/data/rollout_trace.py:261-317). */
module Packing {
  import opened PrefixTree

  type Turn = seq<int>

  datatype PackResult = Packed(groups: seq<seq<Turn>>) | TurnTooLong(length: nat)

  function Flatten(groups: seq<seq<Turn>>): seq<Turn> {
    if groups == [] then [] else groups[0] + Flatten(groups[1..])
  }

  /** A split of `turns` into non-empty contiguous groups that fit. */
  ghost predicate FittingSplit(groups: seq<seq<Turn>>, turns: seq<Turn>, maxPackLength: nat) {
    && Flatten(groups) == turns
    && forall g :: 0 <= g < |groups| ==> groups[g] != [] && PackedLen(groups[g]) <= maxPackLength
  }

  /** Group `a` could not have taken the first turn of the next group `b`. */
  predicate CannotTake(a: seq<Turn>, b: seq<Turn>, maxPackLength: nat) {
    b != [] && PackedLen(a + [b[0]]) > maxPackLength
  }

  ghost predicate Maximal(groups: seq<seq<Turn>>, maxPackLength: nat) {
    forall g :: 0 < g < |groups| ==> CannotTake(groups[g - 1], groups[g], maxPackLength)
  }

  lemma {:induction false} FlattenConcat(a: seq<seq<Turn>>, b: seq<seq<Turn>>)
    ensures Flatten(a + b) == Flatten(a) + Flatten(b)
  {
    if a == [] {
      assert a + b == b;
    } else {
      assert (a + b)[1..] == a[1..] + b;
      FlattenConcat(a[1..], b);
    }
  }

  lemma FlattenSnoc(groups: seq<seq<Turn>>, g: seq<Turn>)
    ensures Flatten(groups + [g]) == Flatten(groups) + g
  {
    FlattenConcat(groups, [g]);
    assert Flatten([g]) == g + Flatten([]);
  }

  lemma SinglePackedLen(turn: Turn)
    ensures PackedLen([turn]) == |turn| && TreeOf([turn]) == EMPTY.AddPath(turn)
  {
    TreeOfSnoc([], turn);
    assert [] + [turn] == [turn];
    assert TreeOf([]) == EMPTY;
    assert InsertPath(EMPTY_TREE, turn, 0).1 == |turn|;
  }

  lemma ExtendLastGroup(packed: seq<seq<Turn>>, group: seq<Turn>, turn: Turn, turns: seq<Turn>, maxPackLength: nat)
    requires FittingSplit(packed + [group], turns, maxPackLength) && Maximal(packed + [group], maxPackLength)
    requires group != [] && PackedLen(group + [turn]) <= maxPackLength
    ensures FittingSplit(packed + [group + [turn]], turns + [turn], maxPackLength)
    ensures Maximal(packed + [group + [turn]], maxPackLength)
  {
    var before, after := packed + [group], packed + [group + [turn]];
    FlattenSnoc(packed, group);
    FlattenSnoc(packed, group + [turn]);
    assert forall g :: 0 <= g < |packed| ==> after[g] == before[g];
    forall g | 0 < g < |after|
      ensures CannotTake(after[g - 1], after[g], maxPackLength)
    {
      assert CannotTake(before[g - 1], before[g], maxPackLength);
    }
  }

  lemma OpenNextGroup(packed: seq<seq<Turn>>, turn: Turn, turns: seq<Turn>, maxPackLength: nat)
    requires packed != [] && FittingSplit(packed, turns, maxPackLength) && Maximal(packed, maxPackLength)
    requires PackedLen(packed[|packed| - 1] + [turn]) > maxPackLength && |turn| <= maxPackLength
    ensures FittingSplit(packed + [[turn]], turns + [turn], maxPackLength)
    ensures Maximal(packed + [[turn]], maxPackLength)
  {
    var after := packed + [[turn]];
    FlattenSnoc(packed, [turn]);
    SinglePackedLen(turn);
    forall g | 0 < g < |after|
      ensures CannotTake(after[g - 1], after[g], maxPackLength)
    {
      if g < |packed| {
        assert CannotTake(packed[g - 1], packed[g], maxPackLength);
      }
    }
  }

  /** The state of the packing loop after the turns `done`. */
  ghost predicate LoopState(packed: seq<seq<Turn>>, group: seq<Turn>, done: seq<Turn>, maxPackLength: nat) {
    if done == [] then packed == [] && group == []
    else group != [] && FittingSplit(packed + [group], done, maxPackLength) && Maximal(packed + [group], maxPackLength)
  }

  lemma TurnFits(packed: seq<seq<Turn>>, group: seq<Turn>, done: seq<Turn>, turn: Turn, maxPackLength: nat)
    requires LoopState(packed, group, done, maxPackLength) && PackedLen(group + [turn]) <= maxPackLength
    ensures LoopState(packed, group + [turn], done + [turn], maxPackLength)
  {
    if done == [] {
      FlattenSnoc([], [turn]);
      assert [] + [turn] == [turn] && packed + [[turn]] == [[turn]];
    } else {
      ExtendLastGroup(packed, group, turn, done, maxPackLength);
    }
  }

  lemma TurnOverflows(packed: seq<seq<Turn>>, group: seq<Turn>, done: seq<Turn>, turn: Turn, maxPackLength: nat)
    requires LoopState(packed, group, done, maxPackLength)
    requires PackedLen(group + [turn]) > maxPackLength && |turn| <= maxPackLength
    ensures group != [] && LoopState(packed + [group], [turn], done + [turn], maxPackLength)
  {
    SinglePackedLen(turn);
    assert [] + [turn] == [turn];
    OpenNextGroup(packed + [group], turn, done, maxPackLength);
  }

  method ToPackedGroups(turns: seq<Turn>, maxPackLength: nat) returns (r: PackResult)
    requires maxPackLength > 0 && turns != []
    ensures r.Packed? <==> forall i :: 0 <= i < |turns| ==> |turns[i]| <= maxPackLength
    ensures r.TurnTooLong? ==> exists i :: 0 <= i < |turns| && |turns[i]| == r.length > maxPackLength
                                           && forall j :: 0 <= j < i ==> |turns[j]| <= maxPackLength
    ensures r.Packed? ==> FittingSplit(r.groups, turns, maxPackLength) && Maximal(r.groups, maxPackLength)
  {
    var packed: seq<seq<Turn>> := [];
    var currentGroup: seq<Turn> := [];
    var currentTree := EMPTY;
    for i := 0 to |turns|
      invariant forall j :: 0 <= j < i ==> |turns[j]| <= maxPackLength
      invariant currentTree == TreeOf(currentGroup)
      invariant LoopState(packed, currentGroup, turns[..i], maxPackLength)
    {
      var turn := turns[i];
      if |turn| > maxPackLength {
        return TurnTooLong(|turn|);
      }
      assert currentTree.PackedLenIfAdded(turn) == PackedLen(currentGroup + [turn]) by {
        TreeOfFaithful(currentGroup);
      }
      assert turns[..i + 1] == turns[..i] + [turn];
      if currentTree.PackedLenIfAdded(turn) <= maxPackLength {
        TurnFits(packed, currentGroup, turns[..i], turn, maxPackLength);
        TreeOfSnoc(currentGroup, turn);
        currentGroup := currentGroup + [turn];
        currentTree := currentTree.AddPath(turn);
      } else {
        TurnOverflows(packed, currentGroup, turns[..i], turn, maxPackLength);
        SinglePackedLen(turn);
        packed := packed + [currentGroup];
        currentGroup := [turn];
        currentTree := EMPTY.AddPath(turn);
      }
    }
    assert turns[..|turns|] == turns;
    r := Packed(packed + [currentGroup]);
  }

  // Optimality.

  /** Position in the turn list where group `g` starts. */
  function Cut(groups: seq<seq<Turn>>, g: nat): nat
    requires g <= |groups|
  {
    |Flatten(groups[..g])|
  }

  lemma CutZero(groups: seq<seq<Turn>>)
    ensures Cut(groups, 0) == 0
  {
  }

  lemma CutStep(groups: seq<seq<Turn>>, g: nat)
    requires g < |groups|
    ensures Cut(groups, g + 1) == Cut(groups, g) + |groups[g]| <= |Flatten(groups)|
    ensures Flatten(groups)[Cut(groups, g)..Cut(groups, g + 1)] == groups[g]
  {
    assert groups[..g + 1] == groups[..g] + [groups[g]];
    FlattenSnoc(groups[..g], groups[g]);
    assert groups == groups[..g + 1] + groups[g + 1..];
    FlattenConcat(groups[..g + 1], groups[g + 1..]);
  }

  lemma CutsIncrease(groups: seq<seq<Turn>>, g: nat, h: nat)
    requires g <= h <= |groups| && forall k :: 0 <= k < |groups| ==> groups[k] != []
    ensures Cut(groups, g) <= Cut(groups, h) <= |Flatten(groups)|
    ensures g < h ==> Cut(groups, g) < Cut(groups, h)
    decreases h - g
  {
    if g < h {
      CutsIncrease(groups, g, h - 1);
      CutStep(groups, h - 1);
    } else {
      assert groups == groups[..g] + groups[g..];
      FlattenConcat(groups[..g], groups[g..]);
    }
  }

  /** How far a group that starts at `lo` can extend. */
  function Reach(turns: seq<Turn>, lo: nat, maxPackLength: nat): nat
    requires lo <= |turns|
  {
    ReachFrom(turns, lo, lo, maxPackLength)
  }

  function ReachFrom(turns: seq<Turn>, lo: nat, hi: nat, maxPackLength: nat): nat
    requires lo <= hi <= |turns|
    decreases |turns| - hi
  {
    if hi < |turns| && PackedLen(turns[lo..hi + 1]) <= maxPackLength then ReachFrom(turns, lo, hi + 1, maxPackLength)
      else hi
  }

  /** A longer block never packs shorter than a block it extends to the right: insertion only adds. */
  lemma {:induction false} BlockGrows(turns: seq<Turn>, lo: nat, hi: nat, hi': nat)
    requires lo <= hi <= hi' <= |turns|
    ensures PackedLen(turns[lo..hi]) <= PackedLen(turns[lo..hi'])
    decreases hi' - hi
  {
    if hi < hi' {
      BlockGrows(turns, lo, hi, hi' - 1);
      TreeOfSnoc(turns[lo..hi' - 1], turns[hi' - 1]);
      assert turns[lo..hi'] == turns[lo..hi' - 1] + [turns[hi' - 1]];
    }
  }

  lemma {:induction false} ReachFromIs(turns: seq<Turn>, lo: nat, from: nat, maxPackLength: nat, hi: nat)
    requires lo <= from <= |turns| && lo <= hi <= |turns| && PackedLen(turns[lo..from]) <= maxPackLength
    ensures from <= ReachFrom(turns, lo, from, maxPackLength) <= |turns|
    ensures hi <= ReachFrom(turns, lo, from, maxPackLength) <==> PackedLen(turns[lo..hi]) <= maxPackLength
    decreases |turns| - from
  {
    if from < |turns| && PackedLen(turns[lo..from + 1]) <= maxPackLength {
      ReachFromIs(turns, lo, from + 1, maxPackLength, hi);
    } else if hi <= from {
      BlockGrows(turns, lo, hi, from);
    } else {
      BlockGrows(turns, lo, from + 1, hi);
    }
  }

  /** Exactly the blocks up to the reach fit. */
  lemma ReachIs(turns: seq<Turn>, lo: nat, maxPackLength: nat, hi: nat)
    requires lo <= hi <= |turns|
    ensures lo <= Reach(turns, lo, maxPackLength) <= |turns|
    ensures hi <= Reach(turns, lo, maxPackLength) <==> PackedLen(turns[lo..hi]) <= maxPackLength
  {
    assert turns[lo..lo] == [];
    ReachFromIs(turns, lo, lo, maxPackLength, hi);
  }

  /** Every group of a maximal split ends where its reach ends. */
  lemma GreedyCutIsReach(turns: seq<Turn>, maxPackLength: nat, greedy: seq<seq<Turn>>, g: nat)
    requires FittingSplit(greedy, turns, maxPackLength) && Maximal(greedy, maxPackLength) && g < |greedy|
    ensures Cut(greedy, g) < Cut(greedy, g + 1) <= |turns|
    ensures Cut(greedy, g + 1) == Reach(turns, Cut(greedy, g), maxPackLength)
  {
    var lo, hi := Cut(greedy, g), Cut(greedy, g + 1);
    CutStep(greedy, g);
    ReachIs(turns, lo, maxPackLength, hi);
    if g + 1 < |greedy| {
      CutStep(greedy, g + 1);
      assert turns[hi..Cut(greedy, g + 2)][0] == greedy[g + 1][0];
      assert turns[lo..hi + 1] == greedy[g] + [greedy[g + 1][0]];
      assert CannotTake(greedy[g + 1 - 1], greedy[g + 1], maxPackLength);
      ReachIs(turns, lo, maxPackLength, hi + 1);
    } else {
      assert greedy[..g + 1] == greedy;
    }
  }

  lemma CutWithinReach(turns: seq<Turn>, maxPackLength: nat, groups: seq<seq<Turn>>, g: nat)
    requires FittingSplit(groups, turns, maxPackLength) && g < |groups|
    ensures Cut(groups, g) < Cut(groups, g + 1) <= |turns|
    ensures Cut(groups, g + 1) <= Reach(turns, Cut(groups, g), maxPackLength)
  {
    CutStep(groups, g);
    ReachIs(turns, Cut(groups, g), maxPackLength, Cut(groups, g + 1));
  }

  lemma {:induction false} SameCuts(turns: seq<Turn>, maxPackLength: nat, a: seq<seq<Turn>>, b: seq<seq<Turn>>, g: nat)
    requires FittingSplit(a, turns, maxPackLength) && Maximal(a, maxPackLength)
    requires FittingSplit(b, turns, maxPackLength) && Maximal(b, maxPackLength)
    requires g <= |a| && g <= |b|
    ensures Cut(a, g) == Cut(b, g)
  {
    if g > 0 {
      SameCuts(turns, maxPackLength, a, b, g - 1);
      GreedyCutIsReach(turns, maxPackLength, a, g - 1);
      GreedyCutIsReach(turns, maxPackLength, b, g - 1);
    }
  }

  lemma NoMoreGroups(turns: seq<Turn>, maxPackLength: nat, a: seq<seq<Turn>>, b: seq<seq<Turn>>)
    requires FittingSplit(a, turns, maxPackLength) && FittingSplit(b, turns, maxPackLength)
    requires |a| <= |b| && Cut(b, |a|) >= Cut(a, |a|)
    ensures |a| == |b|
  {
    assert a[..|a|] == a;
    if |a| < |b| {
      CutStep(b, |a|);
    }
  }

  /** Fitting and maximality determine the split: what the loop returns is the only one. */
  lemma GreedyUnique(turns: seq<Turn>, maxPackLength: nat, a: seq<seq<Turn>>, b: seq<seq<Turn>>)
    requires FittingSplit(a, turns, maxPackLength) && Maximal(a, maxPackLength)
    requires FittingSplit(b, turns, maxPackLength) && Maximal(b, maxPackLength)
    ensures a == b
  {
    if |a| <= |b| {
      SameCuts(turns, maxPackLength, a, b, |a|);
      NoMoreGroups(turns, maxPackLength, a, b);
    } else {
      SameCuts(turns, maxPackLength, b, a, |b|);
      NoMoreGroups(turns, maxPackLength, b, a);
    }
    forall g | 0 <= g < |a| ensures a[g] == b[g] {
      SameCuts(turns, maxPackLength, a, b, g);
      SameCuts(turns, maxPackLength, a, b, g + 1);
      CutStep(a, g);
      CutStep(b, g);
    }
  }

  /** Starting a group later within a greedy group never reaches further than the greedy group after it. */
  ghost predicate Lookahead(turns: seq<Turn>, maxPackLength: nat) {
    forall lo, mid :: 0 <= lo < mid <= |turns| ==> LooksAhead(turns, maxPackLength, lo, mid)
  }

  ghost predicate LooksAhead(turns: seq<Turn>, maxPackLength: nat, lo: nat, mid: nat)
    requires lo < mid <= |turns|
  {
    ReachIs(turns, lo, maxPackLength, lo);
    var reach := Reach(turns, lo, maxPackLength);
    mid <= reach ==> Reach(turns, mid, maxPackLength) <= Reach(turns, reach, maxPackLength)
  }

  lemma {:induction false} GreedyGroupAround(turns: seq<Turn>, maxPackLength: nat, greedy: seq<seq<Turn>>, k: nat,
          c: nat) returns (j: nat)
    requires FittingSplit(greedy, turns, maxPackLength) && k <= |greedy| && 0 < c <= Cut(greedy, k)
    ensures j < k && Cut(greedy, j) < c <= Cut(greedy, j + 1)
  {
    if k > 1 && c <= Cut(greedy, k - 1) {
      j := GreedyGroupAround(turns, maxPackLength, greedy, k - 1, c);
    } else {
      j := k - 1;
    }
  }

  /** Under look-ahead the greedy cut is never behind the cut of another fitting split. */
  lemma {:induction false} GreedyStaysAhead(turns: seq<Turn>, maxPackLength: nat, greedy: seq<seq<Turn>>,
          other: seq<seq<Turn>>, g: nat)
    requires Lookahead(turns, maxPackLength)
    requires FittingSplit(greedy, turns, maxPackLength) && Maximal(greedy, maxPackLength)
    requires FittingSplit(other, turns, maxPackLength)
    requires g <= |greedy| && g <= |other|
    ensures Cut(other, g) <= Cut(greedy, g)
  {
    hide Cut, Reach, Flatten, Maximal;
    CutZero(greedy);
    CutZero(other);
    if g > 0 {
      var c := Cut(other, g - 1);
      GreedyStaysAhead(turns, maxPackLength, greedy, other, g - 1);
      CutWithinReach(turns, maxPackLength, other, g - 1);
      GreedyCutIsReach(turns, maxPackLength, greedy, g - 1);
      if c > 0 {
        var j := GreedyGroupAround(turns, maxPackLength, greedy, g - 1, c);
        GreedyCutIsReach(turns, maxPackLength, greedy, j);
        GreedyCutIsReach(turns, maxPackLength, greedy, j + 1);
        assert LooksAhead(turns, maxPackLength, Cut(greedy, j), c);
        CutsIncrease(greedy, j + 2, g);
      } else {
        CutsIncrease(greedy, 0, g - 1);
        CutsIncrease(other, 0, g - 1);
      }
    }
  }

  lemma FewestGroups(turns: seq<Turn>, maxPackLength: nat, greedy: seq<seq<Turn>>, other: seq<seq<Turn>>)
    requires Lookahead(turns, maxPackLength)
    requires FittingSplit(greedy, turns, maxPackLength) && Maximal(greedy, maxPackLength)
    requires FittingSplit(other, turns, maxPackLength)
    ensures |greedy| <= |other|
  {
    if |other| < |greedy| {
      GreedyStaysAhead(turns, maxPackLength, greedy, other, |other|);
      NoMoreGroups(turns, maxPackLength, other, greedy);
    }
  }

  lemma BlockOfBlock(turns: seq<Turn>, lo: nat, hi: nat, i: nat, j: nat)
    requires lo <= hi <= |turns| && i <= j <= hi - lo
    ensures turns[lo..hi][i..j] == turns[lo + i..lo + j]
  {
    assert forall k :: 0 <= k < j - i ==> turns[lo..hi][i..j][k] == turns[lo + i + k];
  }

  lemma SubReach(turns: seq<Turn>, lo: nat, hi: nat, i: nat, maxPackLength: nat)
    requires lo <= hi <= |turns| && i <= hi - lo
    ensures var reach := Reach(turns, lo + i, maxPackLength);
      Reach(turns[lo..hi], i, maxPackLength) == (if reach <= hi then reach else hi) - lo
  {
    hide Reach;
    var block := turns[lo..hi];
    ReachIs(turns, lo + i, maxPackLength, lo + i);
    ReachIs(block, i, maxPackLength, i);
    var reach := Reach(turns, lo + i, maxPackLength);
    var end := if reach <= hi then reach else hi;
    ReachIs(turns, lo + i, maxPackLength, end);
    ReachIs(block, i, maxPackLength, end - lo);
    BlockOfBlock(turns, lo, hi, i, end - lo);
    var inner := Reach(block, i, maxPackLength);
    ReachIs(block, i, maxPackLength, inner);
    ReachIs(turns, lo + i, maxPackLength, lo + inner);
    BlockOfBlock(turns, lo, hi, i, inner);
  }

  lemma LooksAheadInBlock(turns: seq<Turn>, lo: nat, hi: nat, i: nat, j: nat, maxPackLength: nat)
    requires lo <= hi <= |turns| && i < j <= hi - lo
    requires LooksAhead(turns, maxPackLength, lo + i, lo + j)
    ensures LooksAhead(turns[lo..hi], maxPackLength, i, j)
  {
    hide Reach;
    var block, reach := turns[lo..hi], Reach(turns, lo + i, maxPackLength);
    ReachIs(turns, lo + i, maxPackLength, lo + i);
    ReachIs(block, i, maxPackLength, i);
    SubReach(turns, lo, hi, i, maxPackLength);
    SubReach(turns, lo, hi, j, maxPackLength);
    ReachIs(turns, reach, maxPackLength, reach);
    ReachIs(block, j, maxPackLength, j);
    SubReach(turns, lo, hi, (if reach <= hi then reach else hi) - lo, maxPackLength);
    ReachIs(turns, hi, maxPackLength, hi);
  }

  lemma LookaheadOfBlock(turns: seq<Turn>, lo: nat, hi: nat, maxPackLength: nat)
    requires lo <= hi <= |turns| && Lookahead(turns, maxPackLength)
    ensures Lookahead(turns[lo..hi], maxPackLength)
  {
    hide LooksAhead;
    forall i, j | 0 <= i < j <= hi - lo
      ensures LooksAhead(turns[lo..hi], maxPackLength, i, j)
    {
      LooksAheadInBlock(turns, lo, hi, i, j, maxPackLength);
    }
  }

  /** No contiguous block of the turns can be split into fewer fitting groups than the loop makes of it. */
  ghost predicate OptimalOnBlocks(turns: seq<Turn>, maxPackLength: nat) {
    forall lo, hi, greedy, other | 0 <= lo <= hi <= |turns|
        && FittingSplit(greedy, turns[lo..hi], maxPackLength) && Maximal(greedy, maxPackLength)
        && FittingSplit(other, turns[lo..hi], maxPackLength) ::
      |greedy| <= |other|
  }

  predicate EachTurnFits(turns: seq<Turn>, maxPackLength: nat) {
    forall i :: 0 <= i < |turns| ==> |turns[i]| <= maxPackLength
  }

  lemma {:induction false} LoopResult(turns: seq<Turn>, maxPackLength: nat)
          returns (packed: seq<seq<Turn>>, group: seq<Turn>)
    requires EachTurnFits(turns, maxPackLength)
    ensures LoopState(packed, group, turns, maxPackLength)
  {
    if turns == [] {
      packed, group := [], [];
    } else {
      var done, turn := turns[..|turns| - 1], turns[|turns| - 1];
      packed, group := LoopResult(done, maxPackLength);
      assert turns == done + [turn];
      if PackedLen(group + [turn]) <= maxPackLength {
        TurnFits(packed, group, done, turn, maxPackLength);
        group := group + [turn];
      } else {
        TurnOverflows(packed, group, done, turn, maxPackLength);
        packed, group := packed + [group], [turn];
      }
    }
  }

  /** Where look-ahead fails, one block splits in two while the loop needs three groups for it. */
  lemma NoLookaheadNotOptimal(turns: seq<Turn>, maxPackLength: nat, lo: nat, mid: nat)
    requires EachTurnFits(turns, maxPackLength) && lo < mid <= |turns| && !LooksAhead(turns, maxPackLength, lo, mid)
    ensures !OptimalOnBlocks(turns, maxPackLength)
  {
    hide FittingSplit, Maximal, Reach, OptimalOnBlocks;
    var reach, hi := Reach(turns, lo, maxPackLength), Reach(turns, mid, maxPackLength);
    ReachIs(turns, lo, maxPackLength, mid);
    ReachIs(turns, mid, maxPackLength, mid);
    ReachIs(turns, reach, maxPackLength, reach);
    TwoFit(turns, maxPackLength, lo, mid, hi);
    var greedy := LoopMakesThree(turns, maxPackLength, lo, hi);
    NotOptimal(turns, maxPackLength, lo, hi, greedy, [turns[lo..mid], turns[mid..hi]]);
  }

  lemma NotOptimal(turns: seq<Turn>, maxPackLength: nat, lo: nat, hi: nat, greedy: seq<seq<Turn>>,
          other: seq<seq<Turn>>)
    requires lo <= hi <= |turns| && |other| < |greedy|
    requires FittingSplit(greedy, turns[lo..hi], maxPackLength) && Maximal(greedy, maxPackLength)
    requires FittingSplit(other, turns[lo..hi], maxPackLength)
    ensures !OptimalOnBlocks(turns, maxPackLength)
  {
  }

  lemma TwoFit(turns: seq<Turn>, maxPackLength: nat, lo: nat, mid: nat, hi: nat)
    requires lo < mid < hi <= |turns|
    requires mid <= Reach(turns, lo, maxPackLength) && hi <= Reach(turns, mid, maxPackLength)
    ensures FittingSplit([turns[lo..mid], turns[mid..hi]], turns[lo..hi], maxPackLength)
  {
    ReachIs(turns, lo, maxPackLength, mid);
    ReachIs(turns, mid, maxPackLength, hi);
    TwoGroups(turns[lo..mid], turns[mid..hi]);
    assert turns[lo..hi] == turns[lo..mid] + turns[mid..hi];
  }

  lemma LoopMakesThree(turns: seq<Turn>, maxPackLength: nat, lo: nat, hi: nat) returns (greedy: seq<seq<Turn>>)
    requires EachTurnFits(turns, maxPackLength) && lo < hi <= |turns|
    requires Reach(turns, lo, maxPackLength) <= |turns|
    requires Reach(turns, Reach(turns, lo, maxPackLength), maxPackLength) < hi
    ensures FittingSplit(greedy, turns[lo..hi], maxPackLength) && Maximal(greedy, maxPackLength) && |greedy| > 2
  {
    var reach, block := Reach(turns, lo, maxPackLength), turns[lo..hi];
    var packed, group := LoopResult(block, maxPackLength);
    greedy := packed + [group];
    ReachIs(turns, lo, maxPackLength, lo);
    ReachIs(turns, reach, maxPackLength, reach);
    SubReach(turns, lo, hi, 0, maxPackLength);
    SubReach(turns, lo, hi, reach - lo, maxPackLength);
    TwoReachesShort(block, maxPackLength, greedy);
  }

  lemma TwoReachesShort(turns: seq<Turn>, maxPackLength: nat, greedy: seq<seq<Turn>>)
    requires FittingSplit(greedy, turns, maxPackLength) && Maximal(greedy, maxPackLength) && greedy != []
    requires Reach(turns, 0, maxPackLength) < |turns|
    requires Reach(turns, Reach(turns, 0, maxPackLength), maxPackLength) < |turns|
    ensures |greedy| > 2
  {
    assert greedy[..0] == [] && greedy[..|greedy|] == greedy;
    GreedyCutIsReach(turns, maxPackLength, greedy, 0);
    if |greedy| == 2 {
      GreedyCutIsReach(turns, maxPackLength, greedy, 1);
    }
  }

  /**
   The exact condition: the loop is optimal on every contiguous block of the turns, at a given limit, if and only
   if the turns look ahead at that limit.
   */
  lemma GreedyOptimalIff(turns: seq<Turn>, maxPackLength: nat)
    requires EachTurnFits(turns, maxPackLength)
    ensures OptimalOnBlocks(turns, maxPackLength) <==> Lookahead(turns, maxPackLength)
  {
    if Lookahead(turns, maxPackLength) {
      forall lo, hi, greedy, other | 0 <= lo <= hi <= |turns|
          && FittingSplit(greedy, turns[lo..hi], maxPackLength) && Maximal(greedy, maxPackLength)
          && FittingSplit(other, turns[lo..hi], maxPackLength)
        ensures |greedy| <= |other|
      {
        LookaheadOfBlock(turns, lo, hi, maxPackLength);
        FewestGroups(turns[lo..hi], maxPackLength, greedy, other);
      }
    } else {
      var lo: nat, mid: nat :| lo < mid <= |turns| && !LooksAhead(turns, maxPackLength, lo, mid);
      NoLookaheadNotOptimal(turns, maxPackLength, lo, mid);
    }
  }

  /** Dropping turns from either end of a block of `turns` does not lengthen it. */
  ghost predicate MonotoneBlocks(turns: seq<Turn>) {
    forall lo, lo', hi', hi :: 0 <= lo <= lo' <= hi' <= hi <= |turns| ==>
        PackedLen(turns[lo'..hi']) <= PackedLen(turns[lo..hi])
  }

  /** Monotone lengths look ahead at every limit, so greedy packing is optimal for them. */
  lemma MonotoneLooksAhead(turns: seq<Turn>, maxPackLength: nat)
    requires MonotoneBlocks(turns)
    ensures Lookahead(turns, maxPackLength)
  {
    forall lo, mid | 0 <= lo < mid <= |turns| ensures LooksAhead(turns, maxPackLength, lo, mid) {
      var reach, hi := Reach(turns, lo, maxPackLength), Reach(turns, mid, maxPackLength);
      ReachIs(turns, lo, maxPackLength, lo);
      ReachIs(turns, mid, maxPackLength, mid);
      ReachIs(turns, mid, maxPackLength, hi);
      ReachIs(turns, reach, maxPackLength, reach);
      if mid <= reach < hi {
        assert PackedLen(turns[reach..hi]) <= PackedLen(turns[mid..hi]);
        ReachIs(turns, reach, maxPackLength, hi);
      }
    }
  }

  lemma GreedyOptimal(turns: seq<Turn>, maxPackLength: nat, greedy: seq<seq<Turn>>, other: seq<seq<Turn>>)
    requires MonotoneBlocks(turns)
    requires FittingSplit(greedy, turns, maxPackLength) && Maximal(greedy, maxPackLength)
    requires FittingSplit(other, turns, maxPackLength)
    ensures |greedy| <= |other|
  {
    MonotoneLooksAhead(turns, maxPackLength);
    FewestGroups(turns, maxPackLength, greedy, other);
  }

  /** Append-only traces: blocks of a prefix chain pack to their last turn, so greedy packing is optimal. */
  lemma ChainsAreMonotone(turns: seq<Turn>)
    requires PrefixChain(turns)
    ensures MonotoneBlocks(turns)
  {
    forall lo, lo', hi', hi | 0 <= lo <= lo' <= hi' <= hi <= |turns|
      ensures PackedLen(turns[lo'..hi']) <= PackedLen(turns[lo..hi])
    {
      BlockPackedLen(turns, lo', hi');
      BlockPackedLen(turns, lo, hi);
      if lo' < hi' {
        ChainGrows(turns, hi' - 1, hi - 1);
      }
    }
  }

  lemma BlockPackedLen(turns: seq<Turn>, lo: nat, hi: nat)
    requires PrefixChain(turns) && lo <= hi <= |turns|
    ensures PackedLen(turns[lo..hi]) == if lo == hi then 0 else |turns[hi - 1]|
  {
    var block := turns[lo..hi];
    if lo < hi {
      assert PrefixChain(block) by {
        forall i | 0 < i < |block|
          ensures block[i - 1] <= block[i]
        {
          assert block[i] == turns[lo + i] && block[i - 1] == turns[lo + i - 1];
        }
      }
      ChainPackedLen(block);
    }
  }

  lemma {:induction false} ChainGrows(turns: seq<Turn>, i: nat, j: nat)
    requires PrefixChain(turns) && i <= j < |turns|
    ensures |turns[i]| <= |turns[j]|
    decreases j - i
  {
    if i < j {
      ChainGrows(turns, i, j - 1);
    }
  }

  // The packed length is not monotone in general: a turn that ends inside two others lets them share a position
  // they cannot share without it.

  lemma SharedLenIs(tokens: seq<int>, suffix: seq<int>, k: nat)
    requires k <= |tokens| && k <= |suffix| && tokens[..k] == suffix[..k]
    requires k == |tokens| || k == |suffix| || tokens[k] != suffix[k]
    ensures SharedLen(tokens, suffix) == k
  {
    var n := SharedLen(tokens, suffix);
    assert forall i :: 0 <= i < k ==> tokens[i] == tokens[..k][i] == suffix[..k][i] == suffix[i];
    assert forall i :: 0 <= i < n ==> tokens[i] == tokens[..n][i] == suffix[..n][i] == suffix[i];
  }

  function Leaf(tokens: seq<int>, owner: nat): Node { Node(tokens, [], [owner]) }

  lemma InsertTwo(x: seq<int>, y: seq<int>)
    requires x != [] && y != [] && !Enters(Leaf(x, 0), y)
    ensures TreeOf([x, y]) == MergingTree(Node([], [Leaf(x, 0), Leaf(y, 1)], []), |x| + |y|, 2)
  {
    InsertFirst(x);
    TreeOfSnoc([x], y);
    assert [x] + [y] == [x, y];
    assert [Leaf(x, 0)][1..] == [];
    assert [Node(x, [Leaf([3], 1)], [0])] + [Leaf(x, 0)][1..] == [Node(x, [Leaf([3], 1)], [0])];
    assert InsertChildren([Leaf(x, 0)], y, 1) == ([Leaf(x, 0)] + InsertChildren([], y, 1).0, |y|);
  }

  lemma InsertFirst(x: seq<int>)
    requires x != []
    ensures TreeOf([x]) == MergingTree(Node([], [Leaf(x, 0)], []), |x|, 1)
  {
    SinglePackedLen(x);
    assert InsertChildren([], x, 0) == ([Leaf(x, 0)], |x|);
  }

  lemma DivergingPair()
    ensures PackedLen([[1, 2, 3], [1, 2, 4]]) == 5
  {
    var x, y := [1, 2, 3], [1, 2, 4];
    InsertFirst(x);
    TreeOfSnoc([x], y);
    assert [x] + [y] == [x, y];
    SharedLenIs(x, y, 2);
    var lower := Leaf([2, 3], 0);
    assert Split(Leaf(x, 0), 1) == Node([1], [lower], []);
    assert y[1..] == [2, 4];
    SharedLenIs([2, 3], [2, 4], 1);
    assert [lower][1..] == [];
    assert InsertChildren([lower], [2, 4], 1).1 == InsertChildren([], [2, 4], 1).1 == 2;
    assert InsertPath(Node([1], [lower], []), [2, 4], 1).1 == 2;
    assert InsertChildren([Leaf(x, 0)], y, 1).1 == 2;
  }

  lemma SharedStemTree()
    ensures TreeOf([[1, 2], [1, 2, 3]]) == MergingTree(Node([], [Node([1, 2], [Leaf([3], 1)], [0])], []), 3, 2)
  {
    var x, y := [1, 2], [1, 2, 3];
    InsertFirst(x);
    TreeOfSnoc([x], y);
    assert [x] + [y] == [x, y];
    SharedLenIs(x, y, 2);
    assert y[2..] == [3];
    assert InsertChildren([], [3], 1) == ([Leaf([3], 1)], 1);
    assert InsertPath(Leaf(x, 0), [3], 1) == (Node(x, [Leaf([3], 1)], [0]), 1);
    assert [Leaf(x, 0)][1..] == [];
    assert [Node(x, [Leaf([3], 1)], [0])] + [Leaf(x, 0)][1..] == [Node(x, [Leaf([3], 1)], [0])];
    assert InsertChildren([Leaf(x, 0)], y, 1) == ([Node(x, [Leaf([3], 1)], [0])], 1);
  }

  lemma SharedStemTriple()
    ensures PackedLen([[1, 2], [1, 2, 3], [1, 2, 4]]) == 4
  {
    var x, y, z := [1, 2], [1, 2, 3], [1, 2, 4];
    SharedStemTree();
    TreeOfSnoc([x, y], z);
    assert [x, y] + [z] == [x, y, z];
    var stem := Node(x, [Leaf([3], 1)], [0]);
    SharedLenIs(x, z, 2);
    assert z[2..] == [4];
    SharedLenIs([3], [4], 0);
    assert [Leaf([3], 1)][1..] == [];
    assert InsertChildren([Leaf([3], 1)], [4], 2).1 == InsertChildren([], [4], 2).1 == 1;
    assert InsertPath(stem, [4], 2).1 == 1;
    assert InsertChildren([stem], z, 2).1 == 1;
  }

  lemma UnrelatedFirst()
    ensures PackedLen([[9, 8], [1, 2]]) == 4
    ensures PackedLen([[9, 8], [1, 2], [1, 2, 3]]) == 5
  {
    var w, x, y := [9, 8], [1, 2], [1, 2, 3];
    InsertTwo(w, x);
    TreeOfSnoc([w, x], y);
    assert [w, x] + [y] == [w, x, y];
    var rest := [Leaf(x, 1)];
    assert [Leaf(w, 0), Leaf(x, 1)][1..] == rest;
    SharedLenIs(x, y, 2);
    assert y[2..] == [3];
    assert InsertPath(Leaf(x, 1), [3], 2).1 == InsertChildren([], [3], 2).1 == 1;
    assert InsertChildren(rest, y, 2).1 == 1;
    assert InsertChildren([Leaf(w, 0), Leaf(x, 1)], y, 2).1 == 1;
  }

  lemma TwoGroups(a: seq<Turn>, b: seq<Turn>)
    ensures Flatten([a, b]) == a + b
  {
    FlattenSnoc([], a);
    FlattenSnoc([a], b);
    assert [] + [a] == [a] && [a] + [b] == [a, b];
  }

  lemma ThreeGroups(a: seq<Turn>, b: seq<Turn>, c: seq<Turn>)
    ensures Flatten([a, b, c]) == a + b + c
  {
    TwoGroups(a, b);
    FlattenSnoc([a, b], c);
    assert [a, b] + [c] == [a, b, c];
  }

  const EXAMPLE: seq<Turn> := [[9, 8], [1, 2], [1, 2, 3], [1, 2, 4]]
  const EXAMPLE_GREEDY: seq<seq<Turn>> := [[[9, 8], [1, 2]], [[1, 2, 3]], [[1, 2, 4]]]
  const EXAMPLE_BETTER: seq<seq<Turn>> := [[[9, 8]], [[1, 2], [1, 2, 3], [1, 2, 4]]]

  lemma ExampleGreedy()
    ensures FittingSplit(EXAMPLE_GREEDY, EXAMPLE, 4) && Maximal(EXAMPLE_GREEDY, 4)
  {
    var w, x, y, z := [9, 8], [1, 2], [1, 2, 3], [1, 2, 4];
    UnrelatedFirst();
    DivergingPair();
    SinglePackedLen(y);
    SinglePackedLen(z);
    ThreeGroups([w, x], [y], [z]);
    assert [w, x] + [y] == [w, x, y] && [y] + [z] == [y, z];
    assert CannotTake([w, x], [y], 4) && CannotTake([y], [z], 4);
  }

  lemma ExampleBetter()
    ensures FittingSplit(EXAMPLE_BETTER, EXAMPLE, 4)
  {
    var w, x, y, z := [9, 8], [1, 2], [1, 2, 3], [1, 2, 4];
    SharedStemTriple();
    SinglePackedLen(w);
    TwoGroups([w], [x, y, z]);
  }

  /** Greedy packing is not optimal for the label-aware length: the loop makes three groups where two fit. */
  lemma GreedyNotOptimalInGeneral()
    ensures forall groups :: FittingSplit(groups, EXAMPLE, 4) && Maximal(groups, 4) <==> groups == EXAMPLE_GREEDY
    ensures |EXAMPLE_GREEDY| == 3
    ensures FittingSplit(EXAMPLE_BETTER, EXAMPLE, 4) && |EXAMPLE_BETTER| == 2
    ensures !Lookahead(EXAMPLE, 4)
  {
    ExampleGreedy();
    ExampleBetter();
    forall groups | FittingSplit(groups, EXAMPLE, 4) && Maximal(groups, 4) ensures groups == EXAMPLE_GREEDY {
      GreedyUnique(EXAMPLE, 4, groups, EXAMPLE_GREEDY);
    }
    if Lookahead(EXAMPLE, 4) {
      FewestGroups(EXAMPLE, 4, EXAMPLE_GREEDY, EXAMPLE_BETTER);
    }
  }
}
