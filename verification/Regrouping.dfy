/**
 Putting rollout results, which arrive in any order, back into their groups
 (axrl/pipeline/controller.py:638-666, 1010-1045).
 */
module Regrouping {
  import opened Arithmetic
  import opened Labels
  import opened GroupStreamModel

  /** The parts of a scheduled conversation that grouping depends on. */
  datatype Conversation = Conversation(conversationId: string, groupId: string, rolloutIndex: nat)

  datatype RolloutResult = RolloutResult(conversation: Conversation, score: real) {
    function GroupId(): string { conversation.groupId }
  }

  // ---------------------------------------------------------------- the buffers

  type Buffers = map<string, seq<RolloutResult>>

  function Buffer(pending: Buffers, id: string): seq<RolloutResult> {
    if id in pending then pending[id] else []
  }

  /** Buffers after some deliveries. A buffer that reaches the group size is handed out and removed. */
  function PendingAfter(deliveries: seq<RolloutResult>, size: nat): Buffers {
    if deliveries == [] then map[]
    else
      var last := deliveries[|deliveries| - 1];
      var before := PendingAfter(deliveries[..|deliveries| - 1], size);
      var group := Buffer(before, last.GroupId()) + [last];
      if |group| < size then before[last.GroupId() := group] else before - {last.GroupId()}
  }

  function GroupsAfter(deliveries: seq<RolloutResult>, size: nat): seq<seq<RolloutResult>> {
    if deliveries == [] then []
    else
      var last := deliveries[|deliveries| - 1];
      var before := deliveries[..|deliveries| - 1];
      var group := Buffer(PendingAfter(before, size), last.GroupId()) + [last];
      GroupsAfter(before, size) + (if |group| < size then [] else [group])
  }

  /** What was delivered for one group, in order of delivery. */
  function DeliveredFor(deliveries: seq<RolloutResult>, id: string): seq<RolloutResult> {
    if deliveries == [] then []
    else
      var last := deliveries[|deliveries| - 1];
      DeliveredFor(deliveries[..|deliveries| - 1], id) + (if last.GroupId() == id then [last] else [])
  }

  predicate AllOf(group: seq<RolloutResult>, id: string) {
    forall i :: 0 <= i < |group| ==> group[i].GroupId() == id
  }

  /** The results handed out for one group, in order. */
  function HandedOutFor(groups: seq<seq<RolloutResult>>, id: string): seq<RolloutResult> {
    if groups == [] then []
    else
      var last := groups[|groups| - 1];
      HandedOutFor(groups[..|groups| - 1], id) + (if last != [] && last[0].GroupId() == id then last else [])
  }

  /**
   After any deliveries: buffers are short and hold one group each, groups handed out are full and hold one
   group each. In particular a buffer never exceeds the group size.
   */
  lemma {:induction false} BuffersStayShort(deliveries: seq<RolloutResult>, size: nat)
    requires size > 0
    ensures forall id :: id in PendingAfter(deliveries, size) ==>
      0 < |PendingAfter(deliveries, size)[id]| < size && AllOf(PendingAfter(deliveries, size)[id], id)
    ensures forall k :: 0 <= k < |GroupsAfter(deliveries, size)| ==>
      |GroupsAfter(deliveries, size)[k]| == size &&
          AllOf(GroupsAfter(deliveries, size)[k], GroupsAfter(deliveries, size)[k][0].GroupId())
  {
    if deliveries != [] {
      BuffersStayShort(deliveries[..|deliveries| - 1], size);
    }
  }

  /** One delivery, seen from one id. */
  lemma DeliverOne(deliveries: seq<RolloutResult>, last: RolloutResult, size: nat, id: string)
    requires size > 0
    ensures var longer := deliveries + [last];
      var buffer := Buffer(PendingAfter(deliveries, size), id) + [last];
      var full := |buffer| >= size;
      && DeliveredFor(longer, id) == DeliveredFor(deliveries, id) + (if last.GroupId() == id then [last] else [])
      && (last.GroupId() == id ==>
            && Buffer(PendingAfter(longer, size), id) == (if full then [] else buffer)
            && GroupsAfter(longer, size) == GroupsAfter(deliveries, size) + (if full then [buffer] else []))
      && (last.GroupId() != id ==> Buffer(PendingAfter(longer, size), id) == Buffer(PendingAfter(deliveries, size), id))
  {
    assert (deliveries + [last])[..|deliveries|] == deliveries;
  }

  /** The effect of one delivery; a buffer never grows past the group size. */
  lemma TakeOne(deliveries: seq<RolloutResult>, last: RolloutResult, size: nat)
    requires size > 0
    ensures var before := PendingAfter(deliveries, size);
      var group := Buffer(before, last.GroupId()) + [last];
      && |group| <= size
      && PendingAfter(deliveries + [last], size)
           == (if |group| < size then before[last.GroupId() := group] else before - {last.GroupId()})
      && GroupsAfter(deliveries + [last], size) ==
        GroupsAfter(deliveries, size) + (if |group| < size then [] else [group])
  {
    assert (deliveries + [last])[..|deliveries|] == deliveries;
    BuffersStayShort(deliveries, size);
  }

  /** Nothing is lost, duplicated, reordered or given to another group. */
  lemma {:induction false} RegroupingConserves(deliveries: seq<RolloutResult>, size: nat, id: string)
    requires size > 0
    ensures DeliveredFor(deliveries, id) ==
            HandedOutFor(GroupsAfter(deliveries, size), id) + Buffer(PendingAfter(deliveries, size), id)
  {
    if deliveries == [] {
      assert HandedOutFor([], id) == [];
    } else {
      var before, last := deliveries[..|deliveries| - 1], deliveries[|deliveries| - 1];
      assert deliveries == before + [last];
      RegroupingConserves(before, size, id);
      ConservesStep(before, last, size, id);
    }
  }

  lemma ConservesStep(before: seq<RolloutResult>, last: RolloutResult, size: nat, id: string)
    requires size > 0
    requires DeliveredFor(before, id) ==
            HandedOutFor(GroupsAfter(before, size), id) + Buffer(PendingAfter(before, size), id)
    ensures DeliveredFor(before + [last], id)
      == HandedOutFor(GroupsAfter(before + [last], size), id) + Buffer(PendingAfter(before + [last], size), id)
  {
    hide PendingAfter, GroupsAfter, HandedOutFor, DeliveredFor, Buffer;
    HandedOutStep(before, last, size, id);
    DeliverOne(before, last, size, id);
    var handed, buffer := HandedOutFor(GroupsAfter(before, size), id), Buffer(PendingAfter(before, size), id);
    if last.GroupId() == id {
      assert handed + buffer + [last] == handed + (buffer + [last]) + [];
    } else {
      assert handed + buffer + [] == handed + [] + buffer;
    }
  }

  lemma BufferHoldsItsGroup(deliveries: seq<RolloutResult>, size: nat, id: string)
    requires size > 0
    ensures AllOf(Buffer(PendingAfter(deliveries, size), id), id)
  {
    BuffersStayShort(deliveries, size);
  }

  lemma HandedOutStep(deliveries: seq<RolloutResult>, last: RolloutResult, size: nat, id: string)
    requires size > 0
    ensures var buffer := Buffer(PendingAfter(deliveries, size), id) + [last];
      HandedOutFor(GroupsAfter(deliveries + [last], size), id)
        == HandedOutFor(GroupsAfter(deliveries, size), id) +
            (if last.GroupId() == id && |buffer| >= size then buffer else [])
  {
    hide PendingAfter, GroupsAfter, HandedOutFor, Buffer, DeliveredFor;
    var group := Buffer(PendingAfter(deliveries, size), last.GroupId()) + [last];
    DeliverOne(deliveries, last, size, last.GroupId());
    BufferHoldsItsGroup(deliveries, size, last.GroupId());
    assert GroupsAfter(deliveries, size) + [] == GroupsAfter(deliveries, size);
    HandOutOneMore(GroupsAfter(deliveries, size), group, id);
  }

  lemma HandOutOneMore(groups: seq<seq<RolloutResult>>, group: seq<RolloutResult>, id: string)
    requires group != []
    ensures HandedOutFor(groups + [group], id) ==
            HandedOutFor(groups, id) + (if group[0].GroupId() == id then group else [])
  {
    assert (groups + [group])[..|groups|] == groups;
  }

  /** How many groups were handed out for an id. */
  function TimesHandedOut(groups: seq<seq<RolloutResult>>, id: string): nat {
    if groups == [] then 0
    else
      var last := groups[|groups| - 1];
      TimesHandedOut(groups[..|groups| - 1], id) + (if last != [] && last[0].GroupId() == id then 1 else 0)
  }

  lemma {:induction false} HandedOutSize(groups: seq<seq<RolloutResult>>, id: string, size: nat)
    requires size > 0 && forall k :: 0 <= k < |groups| ==> |groups[k]| == size
    ensures |HandedOutFor(groups, id)| == TimesHandedOut(groups, id) * size
    ensures TimesHandedOut(groups, id) == 1 ==> exists k :: 0 <= k < |groups| && groups[k] == HandedOutFor(groups, id)
    ensures TimesHandedOut(groups, id) == 0 ==> HandedOutFor(groups, id) == []
  {
    if groups != [] {
      var n := |groups| - 1;
      HandedOutSize(groups[..n], id, size);
      if groups[n][0].GroupId() == id {
        assert (TimesHandedOut(groups[..n], id) + 1) * size == TimesHandedOut(groups[..n], id) * size + size;
        if TimesHandedOut(groups, id) == 1 {
          assert groups[n] == HandedOutFor(groups, id);
        }
      } else if TimesHandedOut(groups, id) == 1 {
        var k :| 0 <= k < |groups[..n]| && groups[..n][k] == HandedOutFor(groups[..n], id);
        assert groups[k] == HandedOutFor(groups, id);
      }
    }
  }

  // ---------------------------------------------------------------- one round

  /** Every scheduled group is delivered completely, and nothing else is. */
  predicate Round(deliveries: seq<RolloutResult>, ids: set<string>, size: nat) {
    && (forall i :: 0 <= i < |deliveries| ==> deliveries[i].GroupId() in ids)
    && (forall id :: id in ids ==> |DeliveredFor(deliveries, id)| == size)
  }

  lemma OnceOrNever(n: nat, size: nat, rest: nat)
    requires size > 0 && rest < size && n * size + rest <= size
    ensures n == 0 || (n == 1 && rest == 0)
    ensures n * size + rest == size ==> n == 1
  {
    if n >= 2 {
      assert n * size >= 2 * size by { MulAtLeast(n, size); }
    }
  }

  lemma MulAtLeast(n: nat, size: nat)
    requires n >= 2
    ensures n * size >= 2 * size
  {
    assert n * size == 2 * size + (n - 2) * size;
  }

  /**
   By the end of a round, for every order of delivery, each scheduled group has been handed out exactly once and
   is exactly what was delivered for it; no buffer is left, so dropping the stream loses nothing.
   */
  lemma RoundComplete(deliveries: seq<RolloutResult>, ids: set<string>, size: nat)
    requires size > 0 && Round(deliveries, ids, size)
    ensures PendingAfter(deliveries, size) == map[]
    ensures forall id :: id in ids ==> TimesHandedOut(GroupsAfter(deliveries, size), id) == 1
    ensures forall id :: id in ids ==>
      exists k :: 0 <= k < |GroupsAfter(deliveries, size)| &&
          GroupsAfter(deliveries, size)[k] == DeliveredFor(deliveries, id)
    ensures |GroupsAfter(deliveries, size)| == |ids|
  {
    hide PendingAfter, GroupsAfter, DeliveredFor, HandedOutFor, TimesHandedOut;
    var groups, pending := GroupsAfter(deliveries, size), PendingAfter(deliveries, size);
    BuffersStayShort(deliveries, size);
    forall id: string
      ensures id !in pending
      ensures if id in ids
              then TimesHandedOut(groups, id) == 1 && HandedOutFor(groups, id) == DeliveredFor(deliveries, id)
              else TimesHandedOut(groups, id) == 0
    {
      RoundCompleteFor(deliveries, ids, size, id);
    }
    forall id | id in ids ensures exists k :: 0 <= k < |groups| && groups[k] == DeliveredFor(deliveries, id) {
      HandedOutSize(groups, id, size);
    }
    forall k | 0 <= k < |groups| ensures groups[k] != [] && groups[k][0].GroupId() in ids {
      HandedOutOnce(groups, k);
    }
    OneGroupPerId(groups, ids);
  }

  lemma RoundCompleteFor(deliveries: seq<RolloutResult>, ids: set<string>, size: nat, id: string)
    requires size > 0 && Round(deliveries, ids, size)
    ensures id !in PendingAfter(deliveries, size)
    ensures var groups := GroupsAfter(deliveries, size);
      if id in ids then TimesHandedOut(groups, id) == 1 && HandedOutFor(groups, id) == DeliveredFor(deliveries, id)
      else TimesHandedOut(groups, id) == 0
  {
    var groups, pending := GroupsAfter(deliveries, size), PendingAfter(deliveries, size);
    BuffersStayShort(deliveries, size);
    RegroupingConserves(deliveries, size, id);
    HandedOutSize(groups, id, size);
    if id in ids {
      OnceOrNever(TimesHandedOut(groups, id), size, |Buffer(pending, id)|);
    } else {
      NotDelivered(deliveries, id);
      OnceOrNever(TimesHandedOut(groups, id), size, |Buffer(pending, id)|);
    }
    assert Buffer(pending, id) == [];
  }

  lemma {:induction false} DeliveredForGrows(deliveries: seq<RolloutResult>, p: nat, id: string)
    requires p <= |deliveries|
    ensures |DeliveredFor(deliveries[..p], id)| <= |DeliveredFor(deliveries, id)|
    ensures p < |deliveries| && deliveries[p].GroupId() == id ==>
            |DeliveredFor(deliveries[..p], id)| < |DeliveredFor(deliveries, id)|
  {
    if p == |deliveries| {
      assert deliveries[..p] == deliveries;
    } else {
      var before := deliveries[..|deliveries| - 1];
      DeliveredForGrows(before, p, id);
      assert before[..p] == deliveries[..p];
    }
  }

  lemma {:induction false} GroupsGrow(deliveries: seq<RolloutResult>, p: nat, size: nat)
    requires p <= |deliveries|
    ensures GroupsAfter(deliveries[..p], size) <= GroupsAfter(deliveries, size)
  {
    if p == |deliveries| {
      assert deliveries[..p] == deliveries;
    } else {
      var before := deliveries[..|deliveries| - 1];
      GroupsGrow(before, p, size);
      assert before[..p] == deliveries[..p];
    }
  }

  /** The last group of a round is not complete before the last result is in. */
  lemma RoundNotOverEarly(deliveries: seq<RolloutResult>, ids: set<string>, size: nat, p: nat)
    requires size > 0 && Round(deliveries, ids, size) && p < |deliveries|
    ensures |GroupsAfter(deliveries[..p], size)| < |ids|
  {
    hide PendingAfter, GroupsAfter, DeliveredFor, HandedOutFor, TimesHandedOut;
    var early := deliveries[..p];
    var groups := GroupsAfter(early, size);
    BuffersStayShort(early, size);
    forall id: string
      ensures TimesHandedOut(groups, id) <= if id in ids then 1 else 0
      ensures id == deliveries[p].GroupId() ==> TimesHandedOut(groups, id) == 0
    {
      DeliveredForGrows(deliveries, p, id);
      RegroupingConserves(early, size, id);
      HandedOutSize(groups, id, size);
      if id !in ids {
        NotDelivered(deliveries, id);
      }
      OnceOrNever(TimesHandedOut(groups, id), size, |Buffer(PendingAfter(early, size), id)|);
    }
    forall k | 0 <= k < |groups| ensures groups[k] != [] && groups[k][0].GroupId() in ids {
      HandedOutOnce(groups, k);
    }
    GroupCount(groups, ids);
  }

  lemma {:induction false} NotDelivered(deliveries: seq<RolloutResult>, id: string)
    requires forall i :: 0 <= i < |deliveries| ==> deliveries[i].GroupId() != id
    ensures DeliveredFor(deliveries, id) == []
  {
    if deliveries != [] {
      NotDelivered(deliveries[..|deliveries| - 1], id);
    }
  }

  lemma {:induction false} HandedOutOnce(groups: seq<seq<RolloutResult>>, k: nat)
    requires k < |groups| && groups[k] != []
    ensures TimesHandedOut(groups, groups[k][0].GroupId()) > 0
  {
    if k < |groups| - 1 {
      HandedOutOnce(groups[..|groups| - 1], k);
    }
  }

  /** If each of a set of ids is handed out at most once and no other id is, there are at most as many groups as ids. */
  lemma {:induction false} GroupCount(groups: seq<seq<RolloutResult>>, ids: set<string>)
    requires forall k :: 0 <= k < |groups| ==> groups[k] != [] && groups[k][0].GroupId() in ids
    requires forall id :: id in ids ==> TimesHandedOut(groups, id) <= 1
    ensures |groups| <= |ids|
    ensures |groups| == |ids| <==> forall id :: id in ids ==> TimesHandedOut(groups, id) == 1
  {
    if groups == [] {
      if |ids| == 0 {
        assert ids == {};
      } else {
        var id :| id in ids;
        assert TimesHandedOut(groups, id) == 0;
      }
    } else {
      var n := |groups| - 1;
      var last, rest := groups[n][0].GroupId(), groups[..n];
      NotHandedOut(rest, last);
      GroupCount(rest, ids - {last});
      assert forall id :: id in ids - {last} ==> TimesHandedOut(groups, id) == TimesHandedOut(rest, id);
      assert TimesHandedOut(groups, last) == 1;
      assert forall id :: id in ids ==> id == last || id in ids - {last};
    }
  }

  lemma {:induction false} NotHandedOut(groups: seq<seq<RolloutResult>>, id: string)
    requires TimesHandedOut(groups, id) == 0
    ensures forall k :: 0 <= k < |groups| && groups[k] != [] ==> groups[k][0].GroupId() != id
  {
    if groups != [] {
      NotHandedOut(groups[..|groups| - 1], id);
    }
  }

  lemma OneGroupPerId(groups: seq<seq<RolloutResult>>, ids: set<string>)
    requires forall k :: 0 <= k < |groups| ==> groups[k] != [] && groups[k][0].GroupId() in ids
    requires forall id :: id in ids ==> TimesHandedOut(groups, id) == 1
    ensures |groups| == |ids|
  {
    GroupCount(groups, ids);
  }

  // ---------------------------------------------------------------- scheduling a round

  /** The conversations of one scheduled round: `size` copies of every sampled prompt under one group id. */
  function Scheduled(step: nat, schedule: nat, samples: seq<string>, size: nat): seq<Conversation> {
    if samples == [] then []
    else
      var g := |samples| - 1;
      Scheduled(step, schedule, samples[..g], size)
        + seq(size, r requires 0 <= r => Conversation(samples[g], GroupId(step, schedule, g, samples[g]), r))
  }

  /** Rollout `r` of group `g` is scheduled once, at its place: its prompt, its group's id and its own index. */
  lemma {:induction false} ScheduledAt(step: nat, schedule: nat, samples: seq<string>, size: nat, g: nat, r: nat)
    requires g < |samples| && r < size
    ensures |Scheduled(step, schedule, samples, size)| == |samples| * size
    ensures g * size + r < |samples| * size
    ensures Scheduled(step, schedule, samples, size)[g * size + r] ==
            Conversation(samples[g], GroupId(step, schedule, g, samples[g]), r)
  {
    hide GroupId;
    var last := |samples| - 1;
    ScheduledLength(step, schedule, samples, size);
    ScheduledLength(step, schedule, samples[..last], size);
    PlaceOf(g, r, |samples|, size);
    if g < last {
      PlaceOf(g, r, last, size);
      ScheduledAt(step, schedule, samples[..last], size, g, r);
      assert samples[..last][g] == samples[g];
    }
  }

  lemma PlaceOf(g: nat, r: nat, n: nat, size: nat)
    requires g < n && r < size
    ensures g * size + r < n * size
    ensures n * size == (n - 1) * size + size
  {
    MulLe(g + 1, n, size);
    assert (g + 1) * size == g * size + size;
  }

  lemma {:induction false} ScheduledLength(step: nat, schedule: nat, samples: seq<string>, size: nat)
    ensures |Scheduled(step, schedule, samples, size)| == |samples| * size
  {
    if samples != [] {
      ScheduledLength(step, schedule, samples[..|samples| - 1], size);
      assert |samples| * size == (|samples| - 1) * size + size;
    }
  }

  function ScheduledIds(step: nat, schedule: nat, samples: seq<string>): (ids: seq<string>)
    ensures |ids| == |samples|
  {
    seq(|samples|, g requires 0 <= g < |samples| => GroupId(step, schedule, g, samples[g]))
  }

  /** Even when a prompt is sampled twice, its two groups have different ids. */
  lemma ScheduledIdsDistinct(step: nat, schedule: nat, samples: seq<string>)
    ensures NoDuplicates(ScheduledIds(step, schedule, samples))
    ensures |set id | id in ScheduledIds(step, schedule, samples)| == |samples|
  {
    var ids := ScheduledIds(step, schedule, samples);
    forall g, h | 0 <= g < h < |ids| ensures ids[g] != ids[h] {
      if ids[g] == ids[h] {
        GroupIdInjective(step, schedule, g, samples[g], step, schedule, h, samples[h]);
      }
    }
    MembersSize(ids);
  }

  function Map<T, U>(xs: seq<T>, f: T -> U): (ys: seq<U>)
    ensures |ys| == |xs| && forall i :: 0 <= i < |xs| ==> ys[i] == f(xs[i])
  {
    seq(|xs|, i requires 0 <= i < |xs| => f(xs[i]))
  }

  lemma MapConcat<T, U>(xs: seq<T>, ys: seq<T>, f: T -> U)
    ensures Map(xs + ys, f) == Map(xs, f) + Map(ys, f)
  {
  }

  lemma RemoveAt<T>(xs: seq<T>, i: nat)
    requires i < |xs|
    ensures multiset(xs) == multiset(xs[..i] + xs[i + 1..]) + multiset{xs[i]}
    ensures multiset(xs[..i] + xs[i + 1..]) == multiset(xs) - multiset{xs[i]}
  {
    assert xs == xs[..i] + [xs[i]] + xs[i + 1..];
  }

  lemma {:induction false} MapPermutation<T, U>(xs: seq<T>, ys: seq<T>, f: T -> U)
    requires multiset(xs) == multiset(ys)
    ensures multiset(Map(xs, f)) == multiset(Map(ys, f))
    decreases |xs|
  {
    if xs == [] {
      assert |ys| == |multiset(ys)| == 0;
      assert ys == xs;
    } else {
      assert xs[0] in multiset(ys);
      var i :| 0 <= i < |ys| && ys[i] == xs[0];
      var (tail, rest) := (xs[..0] + xs[0 + 1..], ys[..i] + ys[i + 1..]);
      assert multiset(tail) == multiset(rest) by {
        RemoveAt(xs, 0);
        RemoveAt(ys, i);
      }
      MapPermutation(tail, rest, f);
      PermutationStep(xs, ys, i, f);
    }
  }

  lemma PermutationStep<T, U>(xs: seq<T>, ys: seq<T>, i: nat, f: T -> U)
    requires xs != [] && i < |ys| && xs[0] == ys[i]
    requires multiset(Map(xs[..0] + xs[0 + 1..], f)) == multiset(Map(ys[..i] + ys[i + 1..], f))
    ensures multiset(Map(xs, f)) == multiset(Map(ys, f))
  {
    RemoveMapped(xs, 0, f);
    RemoveMapped(ys, i, f);
  }

  lemma RemoveMapped<T, U>(xs: seq<T>, i: nat, f: T -> U)
    requires i < |xs|
    ensures multiset(Map(xs, f)) == multiset(Map(xs[..i] + xs[i + 1..], f)) + multiset{f(xs[i])}
  {
    RemoveAt(Map(xs, f), i);
    assert Map(xs, f)[..i] + Map(xs, f)[i + 1..] == Map(xs[..i] + xs[i + 1..], f);
  }

  function GroupIds(conversations: seq<Conversation>): seq<string> {
    Map(conversations, (c: Conversation) => c.groupId)
  }

  function Conversations(deliveries: seq<RolloutResult>): seq<Conversation> {
    Map(deliveries, (r: RolloutResult) => r.conversation)
  }

  lemma {:induction false} DeliveredForCount(deliveries: seq<RolloutResult>, id: string)
    ensures |DeliveredFor(deliveries, id)| == multiset(GroupIds(Conversations(deliveries)))[id]
  {
    if deliveries != [] {
      var n := |deliveries| - 1;
      DeliveredForCount(deliveries[..n], id);
      assert GroupIds(Conversations(deliveries)) ==
          GroupIds(Conversations(deliveries[..n])) + [deliveries[n].GroupId()];
    }
  }

  lemma {:induction false} CopiesOf(id: string, conversationId: string, size: nat)
    ensures multiset(GroupIds(seq(size, r requires 0 <= r => Conversation(conversationId, id, r)))) ==
            multiset{}[id := size]
  {
    var ids := GroupIds(seq(size, r requires 0 <= r => Conversation(conversationId, id, r)));
    if size == 0 {
      assert ids == [];
    } else {
      CopiesOf(id, conversationId, size - 1);
      assert ids == GroupIds(seq(size - 1, r requires 0 <= r => Conversation(conversationId, id, r))) + [id];
    }
  }

  lemma NewIdIsFresh(step: nat, schedule: nat, samples: seq<string>)
    requires samples != []
    ensures var g := |samples| - 1;
      var (last, before) := (GroupId(step, schedule, g, samples[g]), ScheduledIds(step, schedule, samples[..g]));
      ScheduledIds(step, schedule, samples) == before + [last] && last !in before
  {
    var g := |samples| - 1;
    var last, before := GroupId(step, schedule, g, samples[g]), ScheduledIds(step, schedule, samples[..g]);
    ScheduledIdsDistinct(step, schedule, samples);
    var ids := ScheduledIds(step, schedule, samples);
    assert ids == before + [last] && ids[g] == last;
    forall h | 0 <= h < g ensures before[h] != last {
      assert before[h] == ids[h] && ids[h] != ids[g];
    }
  }

  lemma ScheduleOneMore(step: nat, schedule: nat, samples: seq<string>, size: nat)
    requires samples != []
    ensures var g := |samples| - 1;
      multiset(GroupIds(Scheduled(step, schedule, samples, size)))
        == multiset(GroupIds(Scheduled(step, schedule, samples[..g], size))) +
            multiset{}[GroupId(step, schedule, g, samples[g]) := size]
  {
    var g := |samples| - 1;
    var last := GroupId(step, schedule, g, samples[g]);
    var copies := seq(size, r requires 0 <= r => Conversation(samples[g], last, r));
    CopiesOf(last, samples[g], size);
    MapConcat(Scheduled(step, schedule, samples[..g], size), copies, (c: Conversation) => c.groupId);
  }

  lemma {:induction false} ScheduledCount(step: nat, schedule: nat, samples: seq<string>, size: nat, id: string)
    ensures multiset(GroupIds(Scheduled(step, schedule, samples, size)))[id]
      == if id in ScheduledIds(step, schedule, samples) then size else 0
  {
    if samples != [] {
      hide GroupIds, Scheduled, ScheduledIds;
      var g := |samples| - 1;
      ScheduledCount(step, schedule, samples[..g], size, id);
      ScheduleOneMore(step, schedule, samples, size);
      NewIdIsFresh(step, schedule, samples);
    }
  }

  /** However the queues reorder the rollouts of a round, they form a round: this is all that regrouping relies on. */
  lemma AnyOrderIsARound(step: nat, schedule: nat, samples: seq<string>, size: nat, deliveries: seq<RolloutResult>)
    requires multiset(Conversations(deliveries)) == multiset(Scheduled(step, schedule, samples, size))
    ensures Round(deliveries, (set id | id in ScheduledIds(step, schedule, samples)), size)
  {
    MapPermutation(Conversations(deliveries), Scheduled(step, schedule, samples, size), (c: Conversation) => c.groupId);
    forall id: string
      ensures |DeliveredFor(deliveries, id)| == if id in ScheduledIds(step, schedule, samples) then size else 0
    {
      DeliveredForCount(deliveries, id);
      ScheduledCount(step, schedule, samples, size, id);
    }
    forall i | 0 <= i < |deliveries| ensures deliveries[i].GroupId() in ScheduledIds(step, schedule, samples) {
      var ids := GroupIds(Conversations(deliveries));
      assert ids[i] == deliveries[i].GroupId() && ids[i] in multiset(ids);
      ScheduledCount(step, schedule, samples, size, deliveries[i].GroupId());
    }
  }

  lemma {:induction false} ScheduledLabels(step: nat, schedule: nat, samples: seq<string>, size: nat, c: Conversation)
    requires c in Scheduled(step, schedule, samples, size)
    ensures exists g :: 0 <= g && c.groupId == GroupId(step, schedule, g, c.conversationId)
  {
    var g := |samples| - 1;
    if c in Scheduled(step, schedule, samples[..g], size) {
      ScheduledLabels(step, schedule, samples[..g], size, c);
    } else {
      assert c.groupId == GroupId(step, schedule, g, c.conversationId);
    }
  }

  lemma {:induction false} DeliveredForMembers(deliveries: seq<RolloutResult>, id: string, i: nat)
    requires i < |DeliveredFor(deliveries, id)|
    ensures DeliveredFor(deliveries, id)[i] in deliveries && DeliveredFor(deliveries, id)[i].GroupId() == id
  {
    if i < |DeliveredFor(deliveries[..|deliveries| - 1], id)| {
      DeliveredForMembers(deliveries[..|deliveries| - 1], id, i);
    }
  }

  /** The results of one group all belong to one prompt, which reward normalization asserts. */
  lemma GroupSharesPrompt(step: nat, schedule: nat, samples: seq<string>, size: nat, deliveries: seq<RolloutResult>,
          id: string, i: nat, j: nat)
    requires multiset(Conversations(deliveries)) == multiset(Scheduled(step, schedule, samples, size))
    requires i < |DeliveredFor(deliveries, id)| && j < |DeliveredFor(deliveries, id)|
    ensures DeliveredFor(deliveries, id)[i].conversation.conversationId ==
            DeliveredFor(deliveries, id)[j].conversation.conversationId
  {
    var a, b := DeliveredFor(deliveries, id)[i], DeliveredFor(deliveries, id)[j];
    var scheduled := Scheduled(step, schedule, samples, size);
    DeliveredForMembers(deliveries, id, i);
    DeliveredForMembers(deliveries, id, j);
    forall r | r in deliveries ensures r.conversation in scheduled {
      var k :| 0 <= k < |deliveries| && deliveries[k] == r;
      assert Conversations(deliveries)[k] in multiset(Conversations(deliveries));
    }
    ScheduledLabels(step, schedule, samples, size, a.conversation);
    ScheduledLabels(step, schedule, samples, size, b.conversation);
    var g: nat :| a.conversation.groupId == GroupId(step, schedule, g, a.conversation.conversationId);
    var h: nat :| b.conversation.groupId == GroupId(step, schedule, h, b.conversation.conversationId);
    GroupIdInjective(step, schedule, g, a.conversation.conversationId, step, schedule, h,
        b.conversation.conversationId);
  }
}
