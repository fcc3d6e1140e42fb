/** Facts about products and Euclidean division with a variable divisor. */
module Arithmetic {
  lemma MulLe(a: int, b: int, c: nat)
    requires a <= b
    ensures a * c <= b * c
  {
    assert (b - a) * c >= 0;
  }

  lemma DivModUnique(q: int, r: int, d: nat, x: int)
    requires d > 0 && 0 <= r < d && x == q * d + r
    ensures x / d == q && x % d == r
  {
    var q', r' := x / d, x % d;
    assert x == q' * d + r';
    if q' > q {
      MulLe(q + 1, q', d);
    } else if q' < q {
      MulLe(q' + 1, q, d);
    }
  }

  lemma CeilBounds(n: nat, d: nat)
    requires d > 0
    ensures n <= (n + d - 1) / d * d <= n + d - 1
  {
    var x := n + d - 1;
    assert x == x / d * d + x % d;
  }

  lemma FloorBounds(n: int, d: nat)
    requires d > 0
    ensures n / d * d <= n < n / d * d + d
  {
    assert n == n / d * d + n % d;
  }

  lemma ModStep(x: nat, d: nat)
    requires d > 0
    ensures (x + d) % d == x % d && (x + d) / d == x / d + 1
  {
    assert (x / d + 1) * d == x / d * d + d;
    DivModUnique(x / d + 1, x % d, d, x + d);
  }
}

/** Python's extended slice `xs[start::step]`, by the positions it visits. */
module Strides {
  import opened Arithmetic

  function Positions(n: nat, start: nat, step: nat): (positions: seq<nat>)
    requires step > 0
    ensures forall s :: 0 <= s < |positions| ==> start <= positions[s] < n
    ensures forall s, s' :: 0 <= s < s' < |positions| ==> positions[s] < positions[s']
    decreases if start < n then n - start else 0
  {
    if start < n then [start] + Positions(n, start + step, step) else []
  }

  function Stride<T>(xs: seq<T>, start: nat, step: nat): (ys: seq<T>)
    requires step > 0
    ensures |ys| == |Positions(|xs|, start, step)|
    ensures forall s :: 0 <= s < |ys| ==> ys[s] == xs[Positions(|xs|, start, step)[s]]
    decreases if start < |xs| then |xs| - start else 0
  {
    if start < |xs| then [xs[start]] + Stride(xs, start + step, step) else []
  }

  /** The positions visited from `rank` are exactly those congruent to it. */
  lemma {:induction false} PositionsOfRank(n: nat, start: nat, step: nat, q: nat)
    requires step > 0
    ensures q in Positions(n, start, step) <==> start <= q < n && q % step == start % step
    decreases if start < n then n - start else 0
  {
    if start < n {
      PositionsOfRank(n, start + step, step, q);
      ModStep(start, step);
      if start < q < start + step && q % step == start % step {
        NextInClass(start, q, step);
      }
    }
  }

  lemma NextInClass(x: nat, y: nat, d: nat)
    requires d > 0 && x < y && x % d == y % d
    ensures y >= x + d
  {
    assert x == x / d * d + x % d && y == y / d * d + y % d;
    if y / d <= x / d {
      MulLe(y / d, x / d, d);
    } else {
      MulLe(x / d + 1, y / d, d);
    }
  }

  lemma {:induction false} ShiftedCount(n: nat, start: nat, step: nat)
    requires step > 0
    ensures |Positions(n + step, start + step, step)| == |Positions(n, start, step)|
    decreases if start < n then n - start else 0
  {
    if start < n {
      ShiftedCount(n, start + step, step);
    }
  }

  /** When `step` divides the length every rank visits the same number of positions. */
  lemma {:induction false} EqualShares(n: nat, rank: nat, step: nat)
    requires rank < step && n % step == 0
    ensures |Positions(n, rank, step)| == n / step
    decreases n
  {
    if n == 0 {
      DivModUnique(0, 0, step, 0);
    } else {
      assert n >= step by {
        if n < step {
          DivModUnique(0, n, step, n);
        }
      }
      ModStep(n - step, step);
      ShiftedCount(n - step, rank, step);
      EqualShares(n - step, rank, step);
    }
  }
}
