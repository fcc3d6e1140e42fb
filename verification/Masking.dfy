/**
 Rewriting the first `m` elements of a list that satisfy a predicate: the shape shared by
 placeholder compaction of token chunks and of tool messages
 (axrl/data/rollout_trace.py:435-458).
 */
module Masking {

  function Count<T>(xs: seq<T>, p: T -> bool): nat {
    if xs == [] then 0 else (if p(xs[0]) then 1 else 0) + Count(xs[1..], p)
  }

  function MaskFirst<T>(xs: seq<T>, m: nat, p: T -> bool, f: T -> T): (ys: seq<T>)
    ensures |ys| == |xs|
  {
    if xs == [] || m == 0 then xs
    else if p(xs[0]) then [f(xs[0])] + MaskFirst(xs[1..], m - 1, p, f)
    else [xs[0]] + MaskFirst(xs[1..], m, p, f)
  }

  /** Index of the first element satisfying `p`, or the length of the list. */
  function First<T>(xs: seq<T>, p: T -> bool): (i: nat)
    ensures i <= |xs|
    ensures forall j :: 0 <= j < i ==> !p(xs[j])
    ensures i < |xs| ==> p(xs[i])
  {
    if xs == [] || p(xs[0]) then 0 else 1 + First(xs[1..], p)
  }

  lemma {:induction false} CountConcat<T>(xs: seq<T>, ys: seq<T>, p: T -> bool)
    ensures Count(xs + ys, p) == Count(xs, p) + Count(ys, p)
  {
    if xs == [] {
      assert xs + ys == ys;
    } else {
      assert (xs + ys)[1..] == xs[1..] + ys;
      CountConcat(xs[1..], ys, p);
    }
  }

  lemma {:induction false} CountTake<T>(xs: seq<T>, i: nat, p: T -> bool)
    requires i < |xs|
    ensures Count(xs[..i + 1], p) == Count(xs[..i], p) + (if p(xs[i]) then 1 else 0)
  {
    assert xs[..i + 1] == xs[..i] + [xs[i]];
    CountConcat(xs[..i], [xs[i]], p);
  }

  lemma {:induction false} CountMonotone<T>(xs: seq<T>, i: nat, j: nat, p: T -> bool)
    requires i <= j <= |xs|
    ensures Count(xs[..i], p) <= Count(xs[..j], p)
  {
    assert xs[..j] == xs[..i] + xs[i..j];
    CountConcat(xs[..i], xs[i..j], p);
  }

  lemma {:induction false} CountPositive<T>(xs: seq<T>, p: T -> bool)
    ensures Count(xs, p) > 0 <==> First(xs, p) < |xs|
  {
    if xs != [] {
      CountPositive(xs[1..], p);
    }
  }

  /** Element by element: position `i` is rewritten exactly when it is one of the first `m` hits. */
  lemma {:induction false} MaskFirstAt<T>(xs: seq<T>, m: nat, p: T -> bool, f: T -> T, i: nat)
    requires i < |xs|
    ensures MaskFirst(xs, m, p, f)[i] == if p(xs[i]) && Count(xs[..i], p) < m then f(xs[i]) else xs[i]
  {
    if m > 0 {
      if i > 0 {
        MaskFirstAt(xs[1..], if p(xs[0]) then m - 1 else m, p, f, i - 1);
        assert xs[..i][1..] == xs[1..][..i - 1];
      }
    }
  }

  lemma {:induction false} MaskKeepsPrefix<T>(xs: seq<T>, m: nat, p: T -> bool, f: T -> T)
    ensures MaskFirst(xs, m, p, f)[..First(xs, p)] == xs[..First(xs, p)]
  {
    forall i | 0 <= i < First(xs, p)
      ensures MaskFirst(xs, m, p, f)[i] == xs[i]
    {
      MaskFirstAt(xs, m, p, f, i);
    }
  }

  /** A hit that survives a real rewrite lies after the first hit of the original list. */
  lemma {:induction false} MaskSurvivor<T>(xs: seq<T>, m: nat, p: T -> bool, f: T -> T, i: nat)
    requires i < |xs| && p(MaskFirst(xs, m, p, f)[i])
    requires forall x :: p(x) ==> !p(f(x))
    ensures p(xs[i]) && (m > 0 ==> i > First(xs, p))
  {
    MaskFirstAt(xs, m, p, f, i);
    if m > 0 && i == First(xs, p) {
      CountPositive(xs[..i], p);
      assert false;
    }
  }

  lemma {:induction false} CountAfterMask<T>(xs: seq<T>, m: nat, p: T -> bool, f: T -> T)
    requires forall x :: p(x) ==> !p(f(x))
    ensures Count(MaskFirst(xs, m, p, f), p) == if m <= Count(xs, p) then Count(xs, p) - m else 0
  {
    if xs != [] && m > 0 {
      CountAfterMask(xs[1..], if p(xs[0]) then m - 1 else m, p, f);
    }
  }

  /** Masking `a` hits and then `b` of the remaining ones is masking `a + b` hits at once. */
  lemma {:induction false} MaskCompose<T>(xs: seq<T>, a: nat, b: nat, p: T -> bool, f: T -> T)
    requires forall x :: p(x) ==> !p(f(x))
    ensures MaskFirst(MaskFirst(xs, a, p, f), b, p, f) == MaskFirst(xs, a + b, p, f)
  {
    if xs != [] && a > 0 {
      MaskCompose(xs[1..], if p(xs[0]) then a - 1 else a, b, p, f);
    }
  }

  /** The `k`-th of `hits` is the position of the `k`-th element that satisfies `p`, and none is missing. */
  ghost predicate AreHits<T>(hits: seq<nat>, xs: seq<T>, p: T -> bool) {
    && |hits| == Count(xs, p)
    && (forall k :: 0 <= k < |hits| ==> hits[k] < |xs| && p(xs[hits[k]]) && Count(xs[..hits[k]], p) == k)
    && (forall i :: 0 <= i < |xs| && p(xs[i]) ==> Count(xs[..i], p) < |hits| && hits[Count(xs[..i], p)] == i)
  }

  /** `[idx for idx, x in enumerate(xs) if p(x)]`: the k-th index listed is the k-th hit. */
  method CollectHits<T>(xs: seq<T>, p: T -> bool) returns (hits: seq<nat>)
    ensures AreHits(hits, xs, p)
  {
    hits := [];
    var idx := 0;
    while idx < |xs|
      invariant 0 <= idx <= |xs|
      invariant |hits| == Count(xs[..idx], p)
      invariant forall k :: 0 <= k < |hits| ==> hits[k] < idx && p(xs[hits[k]]) && Count(xs[..hits[k]], p) == k
      invariant forall i :: 0 <= i < idx && p(xs[i]) ==> Count(xs[..i], p) < |hits| && hits[Count(xs[..i], p)] == i
    {
      CountTake(xs, idx, p);
      if p(xs[idx]) {
        hits := hits + [idx];
      }
      idx := idx + 1;
    }
    assert xs[..|xs|] == xs;
  }

  /** The hit counted zeroth is the first one. */
  lemma ZerothHitIsFirst<T>(xs: seq<T>, i: nat, p: T -> bool)
    requires i < |xs| && p(xs[i]) && Count(xs[..i], p) == 0
    ensures i == First(xs, p)
  {
    var e := First(xs, p);
    if e < i {
      CountTake(xs, e, p);
      CountMonotone(xs, e + 1, i, p);
      assert false;
    }
  }

  /** Rewrite the first `m` hits in place, one assignment per hit. */
  method RewriteFirst<T>(xs: seq<T>, hits: seq<nat>, m: nat, p: T -> bool, f: T -> T) returns (ys: seq<T>)
    requires m <= |hits| && AreHits(hits, xs, p)
    ensures ys == MaskFirst(xs, m, p, f)
  {
    ys := xs;
    for k := 0 to m
      invariant |ys| == |xs|
      invariant forall i :: 0 <= i < |xs| ==> ys[i] == if p(xs[i]) && Count(xs[..i], p) < k then f(xs[i]) else xs[i]
    {
      ys := ys[hits[k] := f(xs[hits[k]])];
    }
    forall i | 0 <= i < |xs|
      ensures ys[i] == MaskFirst(xs, m, p, f)[i]
    {
      MaskFirstAt(xs, m, p, f, i);
    }
  }
}
