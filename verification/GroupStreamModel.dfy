/**
 What a run of bounded-concurrency group streaming may look like, and what every such run delivers
 (axrl/controller/base_controller.py:37-66, 246-315).

 A run is a log of task starts and task completions. A task is numbered by its position in the list of pending
 requests; the completions may come in any order the event loop chooses.
 */
module GroupStreamModel {
  datatype Request = Request(groupIndex: nat, itemIndex: nat)

  datatype Event = Started(task: nat) | Finished(task: nat)

  // ---------------------------------------------------------------- the list of requests

  /** One request per item, group by group. */
  function Pending<C>(groups: seq<seq<C>>): (requests: seq<Request>) {
    if groups == [] then []
    else
      var n := |groups| - 1;
      Pending(groups[..n]) + seq(|groups[n]|, i requires 0 <= i => Request(n, i))
  }

  /** Task number of the first item of group `g`. */
  function FirstTask<C>(groups: seq<seq<C>>, g: nat): nat
    requires g <= |groups|
  {
    |Pending(groups[..g])|
  }

  lemma {:induction false} PendingAt<C>(groups: seq<seq<C>>, g: nat, i: nat)
    requires g < |groups| && i < |groups[g]|
    ensures FirstTask(groups, g) + i < |Pending(groups)|
    ensures Pending(groups)[FirstTask(groups, g) + i] == Request(g, i)
  {
    var n := |groups| - 1;
    if g < n {
      PendingAt(groups[..n], g, i);
      assert groups[..n][..g] == groups[..g];
    }
  }

  lemma {:induction false} PendingOnly<C>(groups: seq<seq<C>>, task: nat)
    requires task < |Pending(groups)|
    ensures var r := Pending(groups)[task];
      r.groupIndex < |groups| && r.itemIndex < |groups[r.groupIndex]| &&
          task == FirstTask(groups, r.groupIndex) + r.itemIndex
  {
    var n := |groups| - 1;
    var before := Pending(groups[..n]);
    if task < |before| {
      PendingOnly(groups[..n], task);
      assert groups[..n][..before[task].groupIndex] == groups[..before[task].groupIndex];
    } else {
      assert Pending(groups)[task] == Request(n, task - |before|);
    }
  }

  // ---------------------------------------------------------------- runs

  function Next(log: seq<Event>): nat {
    if log == [] then 0 else Next(log[..|log| - 1]) + (if log[|log| - 1].Started? then 1 else 0)
  }

  function Active(log: seq<Event>): set<nat> {
    if log == [] then {}
    else
      var before := Active(log[..|log| - 1]);
      match log[|log| - 1]
      case Started(k) => before + {k}
      case Finished(k) => before - {k}
  }

  function Done(log: seq<Event>): set<nat> {
    if log == [] then {}
    else
      var before := Done(log[..|log| - 1]);
      match log[|log| - 1]
      case Started(k) => before
      case Finished(k) => before + {k}
  }

  /** Tasks start in request order while there is room; only a running task completes. */
  predicate MayFollow(log: seq<Event>, e: Event, total: nat, maxConcurrent: nat) {
    match e
    case Started(k) => k == Next(log) && k < total && |Active(log)| < maxConcurrent
    case Finished(k) => k in Active(log)
  }

  predicate LegalRun(log: seq<Event>, total: nat, maxConcurrent: nat) {
    log == []
    || (LegalRun(log[..|log| - 1], total, maxConcurrent) &&
      MayFollow(log[..|log| - 1], log[|log| - 1], total, maxConcurrent))
  }

  /** The scheduler waits for completions only when every request has started or no room is left. */
  predicate FilledUp(log: seq<Event>, total: nat, maxConcurrent: nat) {
    Next(log) >= total || |Active(log)| >= maxConcurrent
  }

  /** A task completes in a wait: at its beginning, or after other tasks that the same wait reports. */
  predicate InWait(log: seq<Event>, total: nat, maxConcurrent: nat) {
    FilledUp(log, total, maxConcurrent) || (log != [] && log[|log| - 1].Finished?)
  }

  /** The run fills all room before each wait, as the scheduling loop does. */
  predicate Eager(log: seq<Event>, total: nat, maxConcurrent: nat) {
    log == []
    || (Eager(log[..|log| - 1], total, maxConcurrent) &&
      (log[|log| - 1].Finished? ==> InWait(log[..|log| - 1], total, maxConcurrent)))
  }

  lemma ExtendEager(log: seq<Event>, e: Event, total: nat, maxConcurrent: nat)
    ensures Eager(log + [e], total, maxConcurrent) <==>
            Eager(log, total, maxConcurrent) && (e.Finished? ==> InWait(log, total, maxConcurrent))
  {
    assert (log + [e])[..|log|] == log;
  }

  /** The run has nothing left to start and nothing running. */
  predicate Complete(log: seq<Event>, total: nat) {
    Next(log) == total && Active(log) == {}
  }

  /**
   Safety of every reachable point of a run: the bound holds, and every started task is running or done,
   never both. In particular no task starts or completes twice.
   */
  lemma {:induction false} RunSafe(log: seq<Event>, total: nat, maxConcurrent: nat)
    requires LegalRun(log, total, maxConcurrent)
    ensures |Active(log)| <= maxConcurrent
    ensures Active(log) !! Done(log)
    ensures forall k :: k in Active(log) || k in Done(log) <==> 0 <= k < Next(log)
    ensures Next(log) <= total
  {
    if log != [] {
      RunSafe(log[..|log| - 1], total, maxConcurrent);
    }
  }

  lemma {:induction false} LegalPrefix(log: seq<Event>, p: nat, total: nat, maxConcurrent: nat)
    requires LegalRun(log, total, maxConcurrent) && p <= |log|
    ensures LegalRun(log[..p], total, maxConcurrent)
  {
    if p == |log| {
      assert log[..p] == log;
    } else {
      var before := log[..|log| - 1];
      LegalPrefix(before, p, total, maxConcurrent);
      assert before[..p] == log[..p];
    }
  }

  // ---------------------------------------------------------------- what is yielded

  predicate GroupDone(pending: seq<Request>, g: nat, done: set<nat>) {
    forall k :: 0 <= k < |pending| && pending[k].groupIndex == g ==> k in done
  }

  /** What one more event yields. */
  function EmittedBy(pending: seq<Request>, log: seq<Event>, e: Event): seq<nat> {
    if e.Finished? && e.task < |pending| && GroupDone(pending, pending[e.task].groupIndex, Done(log) + {e.task})
    then [pending[e.task].groupIndex] else []
  }

  /** Groups in the order in which their last request completes. */
  function Emitted(pending: seq<Request>, log: seq<Event>): seq<nat> {
    if log == [] then [] else Emitted(pending, log[..|log| - 1]) + EmittedBy(pending, log[..|log| - 1], log[|log| - 1])
  }

  lemma Extend(pending: seq<Request>, log: seq<Event>, e: Event, total: nat, maxConcurrent: nat)
    ensures var longer := log + [e];
      && Next(longer) == Next(log) + (if e.Started? then 1 else 0)
      && Active(longer) == (if e.Started? then Active(log) + {e.task} else Active(log) - {e.task})
      && Done(longer) == (if e.Started? then Done(log) else Done(log) + {e.task})
      && (LegalRun(longer, total, maxConcurrent) <==>
        LegalRun(log, total, maxConcurrent) && MayFollow(log, e, total, maxConcurrent))
      && Emitted(pending, longer) == Emitted(pending, log) + EmittedBy(pending, log, e)
  {
    assert (log + [e])[..|log|] == log;
  }

  predicate NoDuplicates<T(==)>(s: seq<T>) {
    forall i, j :: 0 <= i < j < |s| ==> s[i] != s[j]
  }

  ghost predicate HasRequest(pending: seq<Request>, g: nat) {
    exists k :: 0 <= k < |pending| && pending[k].groupIndex == g
  }

  /** At every point of every run, a group has been yielded, and yielded once, exactly if its last request is in. */
  lemma {:induction false} EmittedExactlyWhenDone(pending: seq<Request>, log: seq<Event>, maxConcurrent: nat)
    requires LegalRun(log, |pending|, maxConcurrent)
    ensures NoDuplicates(Emitted(pending, log))
    ensures forall g :: g in Emitted(pending, log) <==>
            0 <= g && HasRequest(pending, g) && GroupDone(pending, g, Done(log))
  {
    if log != [] {
      var before := log[..|log| - 1];
      EmittedExactlyWhenDone(pending, before, maxConcurrent);
      RunSafe(before, |pending|, maxConcurrent);
      if log[|log| - 1].Finished? {
        var k := log[|log| - 1].task;
        assert k !in Done(before);
        assert !GroupDone(pending, pending[k].groupIndex, Done(before));
        EmittedStep(pending, log);
      }
    }
  }

  lemma EmittedStep(pending: seq<Request>, log: seq<Event>)
    requires log != [] && log[|log| - 1].Finished? && log[|log| - 1].task < |pending|
    ensures forall g :: g != pending[log[|log| - 1].task].groupIndex ==>
      (GroupDone(pending, g, Done(log)) <==> GroupDone(pending, g, Done(log[..|log| - 1])))
  {
    var k := log[|log| - 1].task;
    assert Done(log) == Done(log[..|log| - 1]) + {k};
  }

  /** What has been yielded at a point of the run stays, in that order, at the front of what the run yields. */
  lemma {:induction false} EmittedPrefix(pending: seq<Request>, log: seq<Event>, p: nat)
    requires p <= |log|
    ensures Emitted(pending, log[..p]) <= Emitted(pending, log)
  {
    if p == |log| {
      assert log[..p] == log;
    } else {
      var before := log[..|log| - 1];
      EmittedPrefix(pending, before, p);
      assert before[..p] == log[..p];
    }
  }

  /**
   Groups come out in completion order: if `g` is complete at some point where `h` is not, and both are yielded,
   then `g` is yielded first.
   */
  lemma YieldedInCompletionOrder(pending: seq<Request>, log: seq<Event>, maxConcurrent: nat, p: nat, a: nat, b: nat)
    requires LegalRun(log, |pending|, maxConcurrent) && p <= |log|
    requires a < |Emitted(pending, log)| && b < |Emitted(pending, log)|
    requires GroupDone(pending, Emitted(pending, log)[a], Done(log[..p]))
    requires !GroupDone(pending, Emitted(pending, log)[b], Done(log[..p]))
    ensures a < b
  {
    var all, early := Emitted(pending, log), Emitted(pending, log[..p]);
    LegalPrefix(log, p, |pending|, maxConcurrent);
    EmittedExactlyWhenDone(pending, log, maxConcurrent);
    EmittedExactlyWhenDone(pending, log[..p], maxConcurrent);
    EmittedPrefix(pending, log, p);
    assert all[a] in all && all[a] in early;
    var i :| 0 <= i < |early| && early[i] == all[a];
    assert all[i] == all[a];
    assert forall j :: 0 <= j < |early| ==> early[j] in early && early[j] == all[j];
  }

  /** A complete run yields every group that has a request. */
  lemma CompleteRunYieldsAll(pending: seq<Request>, log: seq<Event>, maxConcurrent: nat)
    requires LegalRun(log, |pending|, maxConcurrent) && Complete(log, |pending|)
    ensures forall g :: g in Emitted(pending, log) <==> 0 <= g && HasRequest(pending, g)
  {
    RunSafe(log, |pending|, maxConcurrent);
    EmittedExactlyWhenDone(pending, log, maxConcurrent);
  }

  /** Conversely, a run that has yielded every group, none of them empty, is complete. */
  lemma AllYieldedMeansComplete<C>(groups: seq<seq<C>>, log: seq<Event>, maxConcurrent: nat)
    requires LegalRun(log, |Pending(groups)|, maxConcurrent)
    requires |Emitted(Pending(groups), log)| >= |groups|
    ensures Complete(log, |Pending(groups)|)
  {
    var pending := Pending(groups);
    var emitted := Emitted(pending, log);
    RunSafe(log, |pending|, maxConcurrent);
    EmittedExactlyWhenDone(pending, log, maxConcurrent);
    forall g | g in emitted ensures 0 <= g < |groups| {
      var k :| 0 <= k < |pending| && pending[k].groupIndex == g;
      PendingOnly(groups, k);
    }
    AllPresent(emitted, |groups|);
    forall k | 0 <= k < |pending| ensures k in Done(log) {
      PendingOnly(groups, k);
      assert pending[k].groupIndex in emitted;
    }
    assert Next(log) < |pending| ==> Next(log) in Done(log);
    assert Active(log) <= Active(log) * Done(log);
  }

  lemma AllPresent(s: seq<nat>, n: nat)
    requires NoDuplicates(s) && |s| >= n && forall x :: x in s ==> x < n
    ensures forall x :: 0 <= x < n ==> x in s
  {
    var members := set x | x in s;
    MembersSize(s);
    forall x: nat | x < n ensures x in s {
      if x !in s {
        SubsetSize(members, Range(n) - {x});
      }
    }
  }

  lemma SubsetSize<T>(a: set<T>, b: set<T>)
    requires a <= b
    ensures |a| <= |b|
  {
    assert b == a + (b - a);
  }

  lemma {:induction false} MembersSize<T>(s: seq<T>)
    requires NoDuplicates(s)
    ensures |set x | x in s| == |s|
  {
    if s != [] {
      var n := |s| - 1;
      assert forall x :: x in s[..n] ==> x != s[n];
      MembersSize(s[..n]);
      assert (set x | x in s) == (set x | x in s[..n]) + {s[n]};
    }
  }

  function Range(n: nat): (r: set<nat>)
    ensures |r| == n && forall x: nat :: x in r <==> x < n
  {
    if n == 0 then {} else Range(n - 1) + {n - 1}
  }

  lemma EmptyRun(pending: seq<Request>)
    ensures Next([]) == 0 && Active([]) == {} && Done([]) == {} && Emitted(pending, []) == []
    ensures forall total, maxConcurrent :: LegalRun([], total, maxConcurrent)
  {
  }

  lemma NothingWaitedFor(total: nat, maxConcurrent: nat)
    ensures Eager([], total, maxConcurrent)
  {
  }

  // ---------------------------------------------------------------- when the original order is kept

  predicate Ascending(s: seq<nat>) {
    forall i, j :: 0 <= i < j < |s| ==> s[i] < s[j]
  }

  predicate AtMostOneNonEmpty<C>(groups: seq<seq<C>>) {
    forall g, h :: 0 <= g < h < |groups| ==> |groups[g]| == 0 || |groups[h]| == 0
  }

  /** A run that the scheduler can make from start to end. */
  predicate WholeRun(log: seq<Event>, total: nat, maxConcurrent: nat) {
    LegalRun(log, total, maxConcurrent) && Eager(log, total, maxConcurrent) && Complete(log, total)
  }

  /** Every run of the scheduler yields the groups in their original order. */
  ghost predicate KeepsOrder<C>(groups: seq<seq<C>>, maxConcurrent: nat) {
    forall log :: WholeRun(log, |Pending(groups)|, maxConcurrent) ==> Ascending(Emitted(Pending(groups), log))
  }

  predicate InGroupOrder(pending: seq<Request>) {
    forall i, j :: 0 <= i <= j < |pending| ==> pending[i].groupIndex <= pending[j].groupIndex
  }

  lemma {:induction false} PendingInGroupOrder<C>(groups: seq<seq<C>>)
    ensures InGroupOrder(Pending(groups))
  {
    if groups != [] {
      var n := |groups| - 1;
      PendingInGroupOrder(groups[..n]);
      forall k | 0 <= k < |Pending(groups[..n])| ensures Pending(groups[..n])[k].groupIndex < n {
        PendingOnly(groups[..n], k);
      }
    }
  }

  /** With one slot a task runs only until the next one starts. */
  lemma {:induction false} OneAtATime(log: seq<Event>, total: nat, maxConcurrent: nat)
    requires LegalRun(log, total, maxConcurrent) && maxConcurrent <= 1
    ensures Active(log) == {} || (Next(log) > 0 && Active(log) == {Next(log) - 1})
  {
    if log != [] {
      OneAtATime(log[..|log| - 1], total, maxConcurrent);
    }
  }

  lemma {:induction false} OneSlotKeepsOrder(pending: seq<Request>, log: seq<Event>, maxConcurrent: nat)
    requires LegalRun(log, |pending|, maxConcurrent) && maxConcurrent <= 1 && InGroupOrder(pending)
    ensures Ascending(Emitted(pending, log))
  {
    if log != [] {
      var before, e := log[..|log| - 1], log[|log| - 1];
      OneSlotKeepsOrder(pending, before, maxConcurrent);
      if EmittedBy(pending, before, e) != [] {
        OneAtATime(before, |pending|, maxConcurrent);
        RunSafe(before, |pending|, maxConcurrent);
        EmittedExactlyWhenDone(pending, before, maxConcurrent);
        var emitted := Emitted(pending, before);
        forall i | 0 <= i < |emitted| ensures emitted[i] < pending[e.task].groupIndex {
          assert emitted[i] in emitted;
          var q :| 0 <= q < |pending| && pending[q].groupIndex == emitted[i];
          assert q in Done(before) && q < e.task;
        }
      }
    }
  }

  lemma OneGroupKeepsOrder<C>(groups: seq<seq<C>>, log: seq<Event>, maxConcurrent: nat)
    requires LegalRun(log, |Pending(groups)|, maxConcurrent) && AtMostOneNonEmpty(groups)
    ensures Ascending(Emitted(Pending(groups), log))
  {
    var pending, emitted := Pending(groups), Emitted(Pending(groups), log);
    EmittedExactlyWhenDone(pending, log, maxConcurrent);
    forall i | 0 <= i < |emitted| ensures emitted[i] < |groups| && |groups[emitted[i]]| > 0 {
      assert emitted[i] in emitted;
      var k :| 0 <= k < |pending| && pending[k].groupIndex == emitted[i];
      PendingOnly(groups, k);
    }
  }

  /** Holding one task back: the next event starts a task while there is room, and otherwise finishes another one. */
  lemma HoldBackStep(log: seq<Event>, total: nat, maxConcurrent: nat, held: nat) returns (e: Event)
    requires LegalRun(log, total, maxConcurrent) && Eager(log, total, maxConcurrent)
    requires maxConcurrent >= 2 && held < total && held !in Done(log)
    requires Next(log) < total || Active(log) != {held}
    ensures LegalRun(log + [e], total, maxConcurrent) && Eager(log + [e], total, maxConcurrent)
    ensures held !in Done(log + [e])
    ensures 2 * Next(log + [e]) - |Active(log + [e])| > 2 * Next(log) - |Active(log)|
  {
    hide LegalRun, Eager, Next, Active, Done;
    RunSafe(log, total, maxConcurrent);
    if Next(log) < total && |Active(log)| < maxConcurrent {
      e := Started(Next(log));
    } else {
      if Active(log) <= {held} {
        SubsetSize(Active(log), {held});
        assert false;
      }
      var k :| k in Active(log) && k != held;
      e := Finished(k);
    }
    Extend([], log, e, total, maxConcurrent);
    ExtendEager(log, e, total, maxConcurrent);
  }

  lemma {:induction false} HoldBack(log: seq<Event>, total: nat, maxConcurrent: nat, held: nat)
    returns (longer: seq<Event>)
    requires LegalRun(log, total, maxConcurrent) && Eager(log, total, maxConcurrent)
    requires maxConcurrent >= 2 && held < total && held !in Done(log)
    ensures LegalRun(longer, total, maxConcurrent) && Eager(longer, total, maxConcurrent)
    ensures Next(longer) == total && Active(longer) == {held} && held !in Done(longer)
    decreases 2 * total - 2 * Next(log) + |Active(log)|
  {
    hide LegalRun, Eager, Next, Active, Done;
    RunSafe(log, total, maxConcurrent);
    if Next(log) == total && Active(log) == {held} {
      longer := log;
    } else {
      var e := HoldBackStep(log, total, maxConcurrent, held);
      RunSafe(log + [e], total, maxConcurrent);
      longer := HoldBack(log + [e], total, maxConcurrent, held);
    }
  }

  /** One task is held back until all others are done, in a run that never leaves room unused. */
  lemma HeldBackRun(total: nat, maxConcurrent: nat, held: nat) returns (log: seq<Event>)
    requires maxConcurrent >= 2 && held < total
    ensures LegalRun(log, total, maxConcurrent) && Eager(log, total, maxConcurrent)
    ensures Next(log) == total && Active(log) == {held}
    ensures forall k :: k in Done(log) <==> 0 <= k < total && k != held
  {
    EmptyRun([]);
    log := HoldBack([], total, maxConcurrent, held);
    RunSafe(log, total, maxConcurrent);
  }

  /** With two slots and two non-empty groups some run of the scheduler yields the later group first. */
  lemma LaterGroupFirst<C>(groups: seq<seq<C>>, maxConcurrent: nat, g: nat, h: nat) returns (log: seq<Event>)
    requires maxConcurrent >= 2 && g < h < |groups| && |groups[g]| > 0 && |groups[h]| > 0
    ensures WholeRun(log, |Pending(groups)|, maxConcurrent)
    ensures !Ascending(Emitted(Pending(groups), log))
  {
    hide LegalRun, Eager, Next, Active, Done, Emitted, Pending;
    var pending := Pending(groups);
    var held := FirstTask(groups, g) + |groups[g]| - 1;
    PendingAt(groups, g, |groups[g]| - 1);
    PendingInGroupOrder(groups);
    var before := HeldBackRun(|pending|, maxConcurrent, held);
    EmittedExactlyWhenDone(pending, before, maxConcurrent);
    PendingAt(groups, h, 0);
    assert HasRequest(pending, h) && h in Emitted(pending, before);
    forall k | 0 <= k < |pending| && pending[k].groupIndex == g ensures k in Done(before) + {held} {
    }
    Extend(pending, before, Finished(held), |pending|, maxConcurrent);
    ExtendEager(before, Finished(held), |pending|, maxConcurrent);
    log := before + [Finished(held)];
    var emitted := Emitted(pending, log);
    var i :| 0 <= i < |Emitted(pending, before)| && Emitted(pending, before)[i] == h;
    assert emitted[i] == h && emitted[|emitted| - 1] == g;
  }

  /**
   The documented order holds for every run of the scheduler exactly if only one task may run at a time or only one
   group has items.
   */
  lemma OriginalOrderIff<C>(groups: seq<seq<C>>, maxConcurrent: nat)
    ensures KeepsOrder(groups, maxConcurrent) <==> maxConcurrent <= 1 || AtMostOneNonEmpty(groups)
  {
    if maxConcurrent <= 1 {
      PendingInGroupOrder(groups);
      forall log | LegalRun(log, |Pending(groups)|, maxConcurrent) ensures Ascending(Emitted(Pending(groups), log)) {
        OneSlotKeepsOrder(Pending(groups), log, maxConcurrent);
      }
    } else if AtMostOneNonEmpty(groups) {
      forall log | LegalRun(log, |Pending(groups)|, maxConcurrent) ensures Ascending(Emitted(Pending(groups), log)) {
        OneGroupKeepsOrder(groups, log, maxConcurrent);
      }
    } else {
      var g: nat, h: nat :| g < h < |groups| && |groups[g]| > 0 && |groups[h]| > 0;
      var log := LaterGroupFirst(groups, maxConcurrent, g, h);
      assert !KeepsOrder(groups, maxConcurrent);
    }
  }
}
