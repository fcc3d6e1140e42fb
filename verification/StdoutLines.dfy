/**
 One line of the agent's standard output under reads of bounded size: where a reader may flush it, what it then
 stores, and for which lines that does not depend on the reads
 (axis_recipe/blackbox_rl/openhands_utils.py:16-18, 55-92).
 */
module StdoutLines {
  import opened Labels
  import opened StdoutReader

  const READ_BYTES := 64 * 1024

  /** The shortest pending line that is flushed. */
  const SPAN := MAX_PENDING_LINE_CHARS + 1

  // ---------------------------------------------------------------- one read

  function Utf8Length(c: char): nat {
    if c as int < 0x80 then 1 else if c as int < 0x800 then 2 else if c as int < 0x1_0000 then 3 else 4
  }

  function Bytes(w: string): nat {
    if w == "" then 0 else Bytes(w[..|w| - 1]) + Utf8Length(w[|w| - 1])
  }

  /**
   One read may complete these characters: it holds at least the last byte of the first and every byte of the others.
   The earlier bytes of the first character may have come with reads before.
   */
  predicate Readable(w: string) {
    |w| <= 1 || 1 + Bytes(w[1..]) <= READ_BYTES
  }

  lemma {:induction false} BytesConcat(a: string, b: string)
    ensures Bytes(a + b) == Bytes(a) + Bytes(b)
  {
    if b == "" {
      assert a + b == a;
    } else {
      BytesConcat(a, b[..|b| - 1]);
      assert (a + b)[..|a| + |b| - 1] == a + b[..|b| - 1];
    }
  }

  lemma {:induction false} BytesBounds(w: string)
    ensures |w| <= Bytes(w) <= 4 * |w|
    ensures (forall i :: 0 <= i < |w| ==> Utf8Length(w[i]) == 1) ==> Bytes(w) == |w|
  {
    if w != "" {
      BytesBounds(w[..|w| - 1]);
    }
  }

  lemma PieceReadable(w: string, a: nat, b: nat)
    requires a <= b <= |w| && Readable(w)
    ensures Readable(w[a..b])
  {
    if b - a > 1 {
      assert w[1..] == w[1..a + 1] + w[a + 1..b] + w[b..];
      BytesConcat(w[1..a + 1] + w[a + 1..b], w[b..]);
      BytesConcat(w[1..a + 1], w[a + 1..b]);
      assert w[a..b][1..] == w[a + 1..b];
    }
  }

  lemma ReadableLength(w: string)
    ensures Readable(w) ==> |w| <= READ_BYTES
    ensures |w| <= 4 ==> Readable(w)
  {
    if |w| > 1 {
      BytesBounds(w[1..]);
    }
  }

  /** Of text that takes one byte a character, one read completes up to 64 KiB; in general every character counts. */
  lemma AsciiReadable(w: string)
    ensures (forall i :: 0 <= i < |w| ==> w[i] as int < 128) ==> (Readable(w) <==> |w| <= 65536)
    ensures Readable(w) ==> |w| <= 65536
    ensures Utf8Length('\U{7FF}') == 2 && Utf8Length('\U{800}') == 3
    ensures Utf8Length('\U{FFFF}') == 3 && Utf8Length('\U{10000}') == 4
  {
    if w != "" {
      BytesBounds(w[1..]);
    }
  }

  // ---------------------------------------------------------------- flushing one line

  /** What ends a line: a newline, or the end of the input with what the decoder still held. */
  datatype Ending = Newline | End(tail: string)

  function Tail(e: Ending): string {
    if e.End? then e.tail else ""
  }

  function Last(cuts: seq<nat>): nat {
    if cuts == [] then 0 else cuts[|cuts| - 1]
  }

  /** After a flush at `a` the next may be at `b`: one read carries the line from within the limit to `b`. */
  predicate Next(line: string, a: nat, b: nat) {
    a + MAX_PENDING_LINE_CHARS < b <= |line| && Readable(line[a + MAX_PENDING_LINE_CHARS..b])
  }

  /** Positions at which some sequence of reads flushes the line. */
  predicate Path(line: string, cuts: seq<nat>) {
    cuts == []
    || (Path(line, cuts[..|cuts| - 1]) && Next(line, Last(cuts[..|cuts| - 1]), cuts[|cuts| - 1]))
  }

  /** After a flush at `a` there need be no other: the rest is within the limit, or its end comes in the same read. */
  predicate Stops(line: string, a: nat, e: Ending) {
    a <= |line| &&
    (|line| - a <= MAX_PENDING_LINE_CHARS || (e.Newline? && Readable(line[a + MAX_PENDING_LINE_CHARS..] + "\n")))
  }

  predicate Cuts(line: string, cuts: seq<nat>, e: Ending) {
    Path(line, cuts) && Stops(line, Last(cuts), e)
  }

  lemma {:induction false} PathWithin(line: string, cuts: seq<nat>)
    requires Path(line, cuts)
    ensures Last(cuts) <= |line|
  {
  }

  /** What is kept of a flushed segment: it is truncated before it is handled and again when it is stored. */
  function Stored(w: string): string {
    TruncateLine(TruncateLine(w))
  }

  function Flushes(line: string, cuts: seq<nat>): seq<string>
    requires Path(line, cuts)
  {
    if cuts == [] then []
    else
      var front := cuts[..|cuts| - 1];
      Flushes(line, front) + [Stored(line[Last(front)..Last(cuts)])]
  }

  /** The line stored for what is left at the end. */
  function Final(rest: string, e: Ending): seq<string> {
    if e.End? && rest + e.tail == "" then [] else [TruncateLine(StripReturns(rest + Tail(e)))]
  }

  function Out(line: string, cuts: seq<nat>, e: Ending): seq<string>
    requires Path(line, cuts)
  {
    PathWithin(line, cuts);
    Flushes(line, cuts) + Final(line[Last(cuts)..], e)
  }

  // ---------------------------------------------------------------- which lines are stable

  /** The furthest position one read can carry the line to from `a`. */
  function Furthest(line: string, a: nat, b: nat): (far: nat)
    requires a <= b <= |line| && Readable(line[a..b])
    ensures b <= far <= |line| && Readable(line[a..far])
    ensures far < |line| ==> !Readable(line[a..far + 1])
    decreases |line| - b
  {
    if b < |line| && Readable(line[a..b + 1]) then Furthest(line, a, b + 1) else b
  }

  /** The latest position of the `i`-th flush. */
  function Latest(line: string, i: nat): (far: nat)
    ensures far <= |line|
  {
    if i == 0 then 0
    else
      var a := Latest(line, i - 1) + MAX_PENDING_LINE_CHARS;
      if a >= |line| then |line| else Furthest(line, a, a)
  }

  predicate Constant(line: string, lo: nat, hi: nat) {
    forall x :: lo <= x && x + 1 < hi && x + 1 < |line| ==> line[x] == line[x + 1]
  }

  /** Wherever the `i`-th flush is, the segment after it begins the same. */
  predicate UniformAt(line: string, i: nat) {
    Constant(line, i * SPAN, Latest(line, i) + MAX_STORED_LINE_CHARS)
  }

  predicate Returns(w: string) {
    forall i :: 0 <= i < |w| ==> w[i] == '\r'
  }

  /** The most flushes the line can have: one as soon as it passes the limit, each time. */
  function Most(line: string): (f: nat)
    ensures f * SPAN <= |line| < (f + 1) * SPAN
  {
    |line| / SPAN
  }

  /**
   What is stored of the line does not depend on the reads: it is never flushed; or the number of flushes is forced,
   every flushed segment begins the same wherever it begins, and what remains after the last flush is blank.
   */
  predicate Stable(line: string, e: Ending) {
    var f := Most(line);
    f == 0
    || (&& !Stops(line, Latest(line, f - 1), e)
        && (forall i :: 1 <= i < f ==> UniformAt(line, i))
        && SameEnd(line, f, e))
  }

  predicate SameEnd(line: string, f: nat, e: Ending)
    requires f * SPAN <= |line|
  {
    Latest(line, f) == f * SPAN
    || (Returns(line[f * SPAN..] + Tail(e)) && !(e == End("") && Latest(line, f) == |line|))
  }

  // ---------------------------------------------------------------- where flushes may be

  lemma NoFurther(line: string, a: nat, far: nat, b: nat)
    requires a <= far < b <= |line| && !Readable(line[a..far + 1])
    ensures !Readable(line[a..b])
  {
    hide Readable;
    var w := line[a..b];
    assert w[0..far + 1 - a] == line[a..far + 1];
    if Readable(w) {
      PieceReadable(w, 0, far + 1 - a);
    }
  }

  lemma FurthestIs(line: string, a: nat)
    requires a < |line|
    ensures Readable(line[a..a]) && Readable(line[a..a + 1])
    ensures a < Furthest(line, a, a)
  {
    ReadableLength(line[a..a]);
    ReadableLength(line[a..a + 1]);
    hide Readable;
  }

  lemma LatestFrom(line: string, i: nat)
    requires i > 0
    ensures var a := Latest(line, i - 1) + MAX_PENDING_LINE_CHARS;
      if a < |line| then Readable(line[a..a]) && Latest(line, i) == Furthest(line, a, a)
      else Latest(line, i) == |line|
  {
    hide Furthest;
  }

  lemma LatestIs(line: string, i: nat)
    requires i > 0
    ensures var a := Latest(line, i - 1) + MAX_PENDING_LINE_CHARS;
      if a < |line| then
        && a < Latest(line, i) && Readable(line[a..Latest(line, i)])
        && forall b :: Latest(line, i) < b <= |line| ==> !Readable(line[a..b])
      else Latest(line, i) == |line|
  {
    hide Readable, Furthest, Latest;
    var a, far := Latest(line, i - 1) + MAX_PENDING_LINE_CHARS, Latest(line, i);
    LatestFrom(line, i);
    if a < |line| {
      FurthestIs(line, a);
      forall b | far < b <= |line|
        ensures !Readable(line[a..b])
      {
        NoFurther(line, a, far, b);
      }
    }
  }

  lemma LatestNone(line: string)
    ensures Latest(line, 0) == 0
  {
  }

  lemma {:induction false} LatestGrows(line: string, i: nat, k: nat)
    requires i <= k
    ensures Latest(line, i) <= Latest(line, k)
  {
    hide Latest, Readable;
    if i < k {
      LatestGrows(line, i, k - 1);
      LatestIs(line, k);
    }
  }

  lemma NextBounds(line: string, a: nat, b: nat)
    requires Next(line, a, b)
    ensures SPAN <= b - a <= MAX_PENDING_LINE_CHARS + READ_BYTES && b <= |line|
  {
    ReadableLength(line[a + MAX_PENDING_LINE_CHARS..b]);
  }

  lemma NextAtMost(line: string, i: nat, p: nat, b: nat)
    requires i > 0 && Next(line, p, b) && p <= Latest(line, i - 1)
    ensures b <= Latest(line, i)
  {
    hide Latest, Readable;
    LatestIs(line, i);
    var q, a := p + MAX_PENDING_LINE_CHARS, Latest(line, i - 1) + MAX_PENDING_LINE_CHARS;
    if a < b {
      var w := line[q..b];
      assert w[a - q..b - q] == line[a..b];
      PieceReadable(w, a - q, b - q);
    }
  }

  /** The `i`-th flush lies between the `i`-th multiple of the span and its latest position. */
  lemma {:induction false} PathBounds(line: string, cuts: seq<nat>)
    requires Path(line, cuts)
    ensures |cuts| * SPAN <= Last(cuts) <= Latest(line, |cuts|)
  {
    hide Latest, Readable;
    LatestNone(line);
    if cuts != [] {
      var front := cuts[..|cuts| - 1];
      PathBounds(line, front);
      NextAtMost(line, |cuts|, Last(front), Last(cuts));
    }
  }

  lemma StopsLater(line: string, a: nat, b: nat, e: Ending)
    requires Stops(line, a, e) && a <= b <= |line|
    ensures Stops(line, b, e)
  {
    if |line| - b > MAX_PENDING_LINE_CHARS {
      var p, q := a + MAX_PENDING_LINE_CHARS, b + MAX_PENDING_LINE_CHARS;
      var w := line[p..] + "\n";
      PieceReadable(w, q - p, |w|);
      assert w[q - p..|w|] == line[q..] + "\n";
    }
  }

  lemma ForcedCount(line: string, cuts: seq<nat>, e: Ending)
    requires Cuts(line, cuts, e) && Most(line) > 0 && !Stops(line, Latest(line, Most(line) - 1), e)
    ensures |cuts| == Most(line)
  {
    hide Latest, Path, Stops, Most;
    var f := Most(line);
    PathWithin(line, cuts);
    PathBounds(line, cuts);
    if |cuts| < f {
      LatestGrows(line, |cuts|, f - 1);
      StopsLater(line, Last(cuts), Latest(line, f - 1), e);
    }
  }

  /** One flush after the other as soon as the limit is passed. */
  function Earliest(i: nat): (cuts: seq<nat>)
    ensures |cuts| == i && Last(cuts) == i * SPAN
  {
    seq(i, k requires 0 <= k => (k + 1) * SPAN)
  }

  lemma {:induction false} EarliestPath(line: string, i: nat)
    requires i * SPAN <= |line|
    ensures Path(line, Earliest(i))
  {
    if i > 0 {
      EarliestPath(line, i - 1);
      assert Earliest(i)[..i - 1] == Earliest(i - 1);
    }
  }

  lemma EarliestCuts(line: string, e: Ending)
    ensures Cuts(line, Earliest(Most(line)), e)
  {
    EarliestPath(line, Most(line));
  }

  lemma Extended(line: string, cuts: seq<nat>, b: nat)
    requires Path(line, cuts) && Next(line, Last(cuts), b)
    ensures Path(line, cuts + [b]) && Last(cuts + [b]) == b
  {
    assert (cuts + [b])[..|cuts|] == cuts;
  }

  /** A flush may also come a little later than its earliest position. */
  lemma LatestPast(line: string, i: nat, d: nat)
    requires i > 0 && d <= 3 && i * SPAN + d <= |line|
    ensures Latest(line, i) >= i * SPAN + d
  {
    EarliestPath(line, i - 1);
    var b := i * SPAN + d;
    ReadableLength(line[(i - 1) * SPAN + MAX_PENDING_LINE_CHARS..b]);
    Extended(line, Earliest(i - 1), b);
    PathBounds(line, Earliest(i - 1) + [b]);
  }

  lemma NextSoonest(line: string, p: nat)
    requires p + SPAN <= |line|
    ensures Next(line, p, p + SPAN)
  {
    ReadableLength(line[p + MAX_PENDING_LINE_CHARS..p + SPAN]);
  }

  lemma NextReached(line: string, i: nat, p: nat, j: nat)
    requires i > 0 && p + SPAN <= j <= Latest(line, i) && (p + SPAN == j || p == Latest(line, i - 1))
    ensures Next(line, p, j)
  {
    hide Latest, Readable;
    if p + SPAN == j {
      NextSoonest(line, p);
    } else {
      var a, far := p + MAX_PENDING_LINE_CHARS, Latest(line, i);
      LatestIs(line, i);
      var w := line[a..far];
      assert w[0..j - a] == line[a..j];
      PieceReadable(w, 0, j - a);
    }
  }

  /** Every position in between is reached. */
  lemma {:induction false} Reached(line: string, i: nat, j: nat) returns (cuts: seq<nat>)
    requires i * SPAN <= j <= Latest(line, i)
    ensures Path(line, cuts) && |cuts| == i && Last(cuts) == j
  {
    hide Latest, Readable, Next;
    LatestNone(line);
    if i == 0 {
      cuts := [];
    } else {
      EarliestPath(line, i - 1);
      PathBounds(line, Earliest(i - 1));
      var far := Latest(line, i - 1);
      var p := if far < j - SPAN then far else j - SPAN;
      var front := Reached(line, i - 1, p);
      NextReached(line, i, p, j);
      Extended(line, front, j);
      cuts := front + [j];
    }
  }

  /** Any beginning can be completed with earliest flushes. */
  lemma {:induction false} Completed(line: string, cuts: seq<nat>, e: Ending) returns (all: seq<nat>)
    requires Path(line, cuts)
    ensures Cuts(line, all, e) && cuts <= all
    ensures |line| - Last(cuts) > MAX_PENDING_LINE_CHARS ==> |all| > |cuts|
    decreases |line| - Last(cuts)
  {
    PathWithin(line, cuts);
    if |line| - Last(cuts) <= MAX_PENDING_LINE_CHARS {
      all := cuts;
    } else {
      Extended(line, cuts, Last(cuts) + SPAN);
      all := Completed(line, cuts + [Last(cuts) + SPAN], e);
    }
  }

  lemma {:induction false} FlushCount(line: string, cuts: seq<nat>)
    requires Path(line, cuts)
    ensures |Flushes(line, cuts)| == |cuts|
  {
    hide Stored, Next;
    if cuts != [] {
      FlushCount(line, cuts[..|cuts| - 1]);
    }
  }

  lemma {:induction false} FlushAt(line: string, cuts: seq<nat>, i: nat)
    requires Path(line, cuts) && i <= |cuts|
    ensures Path(line, cuts[..i]) && |Flushes(line, cuts)| == |cuts|
    ensures i < |cuts| ==>
              && Next(line, Last(cuts[..i]), cuts[i])
              && Last(cuts[..i]) <= cuts[i] <= |line|
              && Flushes(line, cuts)[i] == Stored(line[Last(cuts[..i])..cuts[i]])
  {
    hide Stored, Readable;
    FlushCount(line, cuts);
    if i == |cuts| {
      assert cuts[..i] == cuts;
    } else {
      var front := cuts[..|cuts| - 1];
      FlushCount(line, front);
      FlushAt(line, front, i);
      assert cuts[..i] == front[..i];
    }
  }

  // ---------------------------------------------------------------- what is stored

  lemma {:induction false} DecimalLength(n: nat)
    requires 1_000_000 <= n < 10_000_000
    ensures |Decimal(n)| == 7
  {
    assert |Decimal(n / 10)| == 1 + |Decimal(n / 10 / 10)|;
    assert |Decimal(n / 10 / 10 / 10)| == 1 + |Decimal(n / 10 / 10 / 10 / 10)|;
    assert |Decimal(n / 10 / 10 / 10 / 10 / 10)| == 1 + |Decimal(n / 10 / 10 / 10 / 10 / 10 / 10)|;
  }

  /** Of a flushed segment nothing but its beginning is kept. */
  lemma StoredBeginning(w: string)
    requires |w| > MAX_STORED_LINE_CHARS
    ensures |Stored(w)| > MAX_STORED_LINE_CHARS
    ensures Stored(w)[..MAX_STORED_LINE_CHARS] == w[..MAX_STORED_LINE_CHARS]
  {
  }

  lemma StoredSame(w: string, v: string)
    requires SPAN <= |w| <= MAX_PENDING_LINE_CHARS + READ_BYTES && SPAN <= |v| <= MAX_PENDING_LINE_CHARS + READ_BYTES
    requires w[..MAX_STORED_LINE_CHARS] == v[..MAX_STORED_LINE_CHARS]
    ensures Stored(w) == Stored(v)
  {
    DecimalLength(|w|);
    DecimalLength(|v|);
    assert |TruncateLine(w)| == |TruncateLine(v)|;
    assert TruncateLine(w)[..MAX_STORED_LINE_CHARS] == w[..MAX_STORED_LINE_CHARS];
    assert TruncateLine(v)[..MAX_STORED_LINE_CHARS] == v[..MAX_STORED_LINE_CHARS];
  }

  lemma {:induction false} StripOfReturns(w: string)
    requires Returns(w)
    ensures StripReturns(w) == ""
  {
    if w != "" {
      StripOfReturns(w[..|w| - 1]);
    }
  }

  lemma {:induction false} StripShorter(w: string)
    requires !Returns(w)
    ensures w != "" && StripReturns(w) != "" && StripReturns(w[1..]) == StripReturns(w)[1..]
  {
    var front := w[..|w| - 1];
    if w[|w| - 1] == '\r' {
      StripShorter(front);
      assert w[1..][..|w[1..]| - 1] == front[1..];
    }
  }

  lemma SameTag(x: string, y: string)
    requires CutTag(x) == CutTag(y)
    ensures x == y
  {
    var tag := "... [truncated stdout line; original_chars=";
    assert CutTag(x)[|tag|..] == x + "]" && CutTag(y)[|tag|..] == y + "]";
    assert (x + "]")[..|x + "]"| - 1] == x && (y + "]")[..|y + "]"| - 1] == y;
  }

  function CutTag(count: string): string {
    "... [truncated stdout line; original_chars=" + count + "]"
  }

  lemma Truncated(u: string)
    ensures |u| <= MAX_STORED_LINE_CHARS ==> TruncateLine(u) == u
    ensures |u| > MAX_STORED_LINE_CHARS ==>
              |TruncateLine(u)| > MAX_STORED_LINE_CHARS
              && TruncateLine(u)[MAX_STORED_LINE_CHARS..] == CutTag(Decimal(|u|))
  {
    hide Decimal;
  }

  lemma TruncatedDiffer(u: string)
    requires u != ""
    ensures TruncateLine(u) != TruncateLine(u[1..])
  {
    hide Decimal, TruncateLine, CutTag;
    Truncated(u);
    Truncated(u[1..]);
    if |u| > MAX_STORED_LINE_CHARS + 1 && TruncateLine(u) == TruncateLine(u[1..]) {
      SameTag(Decimal(|u|), Decimal(|u| - 1));
      DecimalInjective(|u|, |u| - 1);
    }
  }

  lemma FinalsDiffer(rest: string, e: Ending)
    requires rest != "" && !Returns(rest + Tail(e))
    ensures Final(rest, e) != Final(rest[1..], e)
  {
    var w := rest + Tail(e);
    assert w[1..] == rest[1..] + Tail(e);
    StripShorter(w);
    TruncatedDiffer(StripReturns(w));
  }

  // ---------------------------------------------------------------- stable lines

  lemma {:induction false} WindowsAgree(line: string, lo: nat, far: nat, p: nat, q: nat)
    requires Constant(line, lo, far + MAX_STORED_LINE_CHARS)
    requires lo <= p <= q <= far && q + MAX_STORED_LINE_CHARS <= |line|
    ensures line[p..p + MAX_STORED_LINE_CHARS] == line[q..q + MAX_STORED_LINE_CHARS]
    decreases q - p
  {
    if p < q {
      WindowsAgree(line, lo, far, p + 1, q);
      var w, v := line[p..p + MAX_STORED_LINE_CHARS], line[p + 1..p + 1 + MAX_STORED_LINE_CHARS];
      forall t | 0 <= t < |w|
        ensures w[t] == v[t]
      {
        assert line[p + t] == line[p + t + 1];
      }
    }
  }

  lemma {:induction false} FlushesAgree(line: string, cuts: seq<nat>, other: seq<nat>, f: nat)
    requires Path(line, cuts) && Path(line, other) && |cuts| == |other| <= f
    requires forall i :: 1 <= i < f ==> UniformAt(line, i)
    ensures Flushes(line, cuts) == Flushes(line, other)
  {
    hide Latest, Next, Stored, UniformAt;
    if cuts != [] {
      var i := |cuts| - 1;
      FlushesAgree(line, cuts[..i], other[..i], f);
      SegmentsAgree(line, cuts[..i], cuts[i], other[..i], other[i]);
    }
  }

  lemma SegmentsAgree(line: string, front: seq<nat>, b: nat, other: seq<nat>, c: nat)
    requires Path(line, front) && Path(line, other) && |front| == |other| && (front == [] || UniformAt(line, |front|))
    requires Next(line, Last(front), b) && Next(line, Last(other), c)
    ensures Last(front) <= b <= |line| && Last(other) <= c <= |line|
    ensures Stored(line[Last(front)..b]) == Stored(line[Last(other)..c])
  {
    hide Latest, Path, Next, Stored, UniformAt;
    NextBounds(line, Last(front), b);
    NextBounds(line, Last(other), c);
    PathBounds(line, front);
    PathBounds(line, other);
    LatestNone(line);
    if Last(front) <= Last(other) {
      SegmentStored(line, |front|, Last(front), b, Last(other), c);
    } else {
      SegmentStored(line, |front|, Last(other), c, Last(front), b);
    }
  }

  lemma SegmentStored(line: string, i: nat, p: nat, b: nat, q: nat, c: nat)
    requires i * SPAN <= p <= q <= Latest(line, i) && b <= |line| && c <= |line|
    requires SPAN <= b - p <= MAX_PENDING_LINE_CHARS + READ_BYTES
    requires SPAN <= c - q <= MAX_PENDING_LINE_CHARS + READ_BYTES
    requires p == q || UniformAt(line, i)
    ensures Stored(line[p..b]) == Stored(line[q..c])
  {
    hide Latest, Stored, Constant;
    if p < q {
      WindowsAgree(line, i * SPAN, Latest(line, i), p, q);
    }
    SliceStart(line, p, b, MAX_STORED_LINE_CHARS);
    SliceStart(line, q, c, MAX_STORED_LINE_CHARS);
    StoredSame(line[p..b], line[q..c]);
  }

  lemma SliceStart(w: string, a: nat, b: nat, k: nat)
    requires a + k <= b <= |w|
    ensures w[a..b][..k] == w[a..a + k]
  {
  }

  lemma EndsAgree(line: string, cuts: seq<nat>, other: seq<nat>, e: Ending)
    requires Path(line, cuts) && Path(line, other) && |cuts| == |other| == Most(line) && SameEnd(line, Most(line), e)
    ensures Last(cuts) <= |line| && Last(other) <= |line|
    ensures var (rest, rest') := (line[Last(cuts)..] + Tail(e), line[Last(other)..] + Tail(e));
      StripReturns(rest) == StripReturns(rest') && (e.End? ==> (rest == "" <==> rest' == ""))
  {
    hide Latest, Path, Most, StripReturns;
    var f := Most(line);
    PathBounds(line, cuts);
    PathBounds(line, other);
    if Latest(line, f) != f * SPAN {
      EndBlank(line, f, Last(cuts), e);
      EndBlank(line, f, Last(other), e);
    }
  }

  lemma EndBlank(line: string, f: nat, j: nat, e: Ending)
    requires f * SPAN <= j <= |line| && Returns(line[f * SPAN..] + Tail(e))
    ensures StripReturns(line[j..] + Tail(e)) == ""
  {
    var w, v := line[f * SPAN..] + Tail(e), line[j..] + Tail(e);
    assert forall t :: 0 <= t < |v| ==> v[t] == w[t + j - f * SPAN];
    StripOfReturns(v);
  }

  /** A stable line is stored the same whatever the reads. */
  lemma StableAgree(line: string, cuts: seq<nat>, other: seq<nat>, e: Ending)
    requires Stable(line, e) && Cuts(line, cuts, e) && Cuts(line, other, e)
    ensures |cuts| == |other| && Flushes(line, cuts) == Flushes(line, other)
    ensures Last(cuts) <= |line| && Last(other) <= |line|
    ensures var (rest, rest') := (line[Last(cuts)..] + Tail(e), line[Last(other)..] + Tail(e));
      StripReturns(rest) == StripReturns(rest') && (e.End? ==> (rest == "" <==> rest' == ""))
  {
    var f := Most(line);
    PathBounds(line, cuts);
    PathBounds(line, other);
    if f > 0 {
      ForcedCount(line, cuts, e);
      ForcedCount(line, other, e);
      FlushesAgree(line, cuts, other, f);
      EndsAgree(line, cuts, other, e);
    } else {
      assert cuts == [] && other == [];
    }
  }

  // ---------------------------------------------------------------- unstable lines

  lemma OutParts(line: string, cuts: seq<nat>, e: Ending)
    requires Path(line, cuts)
    ensures Last(cuts) <= |line| && |Flushes(line, cuts)| == |cuts|
    ensures |Out(line, cuts, e)| == |cuts| + |Final(line[Last(cuts)..], e)|
    ensures forall i :: 0 <= i < |cuts| ==> Out(line, cuts, e)[i] == Flushes(line, cuts)[i]
    ensures Out(line, cuts, e)[|cuts|..] == Final(line[Last(cuts)..], e)
  {
    PathWithin(line, cuts);
    FlushAt(line, cuts, 0);
  }

  lemma CountsDiffer(line: string, a: seq<nat>, b: seq<nat>, e: Ending)
    requires Path(line, a) && Path(line, b) && |a| + 1 == |b|
    ensures Last(a) <= |line| && Last(b) <= |line|
    ensures Out(line, a, e) != Out(line, b, e) || (e == End("") && Last(b) == |line|)
  {
    hide Path, Final, Out, Flushes;
    OutParts(line, a, e);
    OutParts(line, b, e);
    FinalCount(line[Last(a)..], e);
    FinalCount(line[Last(b)..], e);
  }

  lemma MostStops(line: string, cuts: seq<nat>, e: Ending)
    requires Path(line, cuts) && Last(cuts) + MAX_PENDING_LINE_CHARS >= |line|
    ensures Cuts(line, cuts, e)
  {
    PathWithin(line, cuts);
  }

  /** A reader may stop one flush early at the latest positions. */
  lemma CountDiffers(line: string, e: Ending) returns (a: seq<nat>, b: seq<nat>)
    requires Most(line) > 0 && Stops(line, Latest(line, Most(line) - 1), e)
    ensures Cuts(line, a, e) && Cuts(line, b, e) && Out(line, a, e) != Out(line, b, e)
  {
    hide Latest, Path, Most, Out;
    var f := Most(line);
    SpansFit(line, f - 1);
    EarliestPath(line, f - 1);
    PathBounds(line, Earliest(f - 1));
    a := Reached(line, f - 1, Latest(line, f - 1));
    b := Earliest(f);
    EarliestCuts(line, e);
    CountsDiffer(line, a, b, e);
    if Out(line, a, e) == Out(line, b, e) {
      LatestNone(line);
      assert f > 1;
      a, b := EarlyEndDiffers(line, f);
    }
  }

  lemma FinalCount(rest: string, e: Ending)
    ensures |Final(rest, e)| == if e.End? && rest + e.tail == "" then 0 else 1
  {
  }

  /** A last line of exactly as many spans as there are flushes, where the last flush can be avoided. */
  lemma EarlyEndDiffers(line: string, f: nat) returns (a: seq<nat>, b: seq<nat>)
    requires f > 1 && |line| == f * SPAN
    ensures Cuts(line, a, End("")) && Cuts(line, b, End("")) && Out(line, a, End("")) != Out(line, b, End(""))
  {
    hide Latest, Path, Out, Final, Cuts, Stops;
    var e, start := End(""), (f - 1) * SPAN;
    assert |line| == start + SPAN;
    var j := start + 1;
    LatestPast(line, f - 1, 2);
    a := Reached(line, f - 1, j);
    MostStops(line, a, e);
    if Returns(line[j..]) {
      b := Earliest(f);
      EarliestPath(line, f);
      MostStops(line, b, e);
      BlankDiffers(line, a, b);
    } else {
      b := Reached(line, f - 1, j + 1);
      MostStops(line, b, e);
      assert line[j..][1..] == line[j + 1..] && line[j..] + Tail(e) == line[j..];
      FinalsDiffer(line[j..], e);
      OutDiffers(line, a, b, e);
    }
  }

  /** A blank last line is not what a flush stores. */
  lemma BlankDiffers(line: string, a: seq<nat>, b: seq<nat>)
    requires Path(line, a) && Path(line, b) && |a| < |b| && Last(a) < |line| && Returns(line[Last(a)..])
    ensures Out(line, a, End("")) != Out(line, b, End(""))
  {
    hide Path, Out, Final, Flushes, Returns;
    OutParts(line, a, End(""));
    OutParts(line, b, End(""));
    BlankIsNoFlush(line, Last(a), b, |a|);
    assert Out(line, a, End(""))[|a|] == Out(line, a, End(""))[|a|..][0];
  }

  lemma BlankIsNoFlush(line: string, j: nat, cuts: seq<nat>, i: nat)
    requires j < |line| && Returns(line[j..]) && Path(line, cuts) && i < |cuts|
    ensures Final(line[j..], End("")) == [""]
    ensures i < |Flushes(line, cuts)| && |Flushes(line, cuts)[i]| > MAX_STORED_LINE_CHARS
  {
    hide Flushes, Stored, Path;
    assert line[j..] + "" == line[j..];
    StripOfReturns(line[j..]);
    FlushAt(line, cuts, i);
    NextBounds(line, Last(cuts[..i]), cuts[i]);
    StoredBeginning(line[Last(cuts[..i])..cuts[i]]);
  }

  /** Where a segment can begin with different characters, it is stored differently. */
  lemma BeginningDiffers(line: string, i: nat, e: Ending) returns (a: seq<nat>, b: seq<nat>)
    requires 1 <= i < Most(line) && !Stops(line, Latest(line, Most(line) - 1), e) && !UniformAt(line, i)
    ensures Cuts(line, a, e) && Cuts(line, b, e) && Out(line, a, e) != Out(line, b, e)
  {
    hide Latest, Path, Most, Out, Flushes, Stops, UniformAt, Cuts;
    var x, j := ChangeAt(line, i, e);
    var p := Reached(line, i, j);
    var q := Reached(line, i, j + 1);
    a := Completed(line, p, e);
    b := Completed(line, q, e);
    FlushFrom(line, a, p, j);
    FlushFrom(line, b, q, j + 1);
    OutParts(line, a, e);
    OutParts(line, b, e);
    WindowsDiffer(line, j, x);
  }

  lemma Change(line: string, lo: nat, hi: nat) returns (x: nat)
    requires !Constant(line, lo, hi)
    ensures lo <= x && x + 1 < hi && x + 1 < |line| && line[x] != line[x + 1]
  {
    x :| lo <= x && x + 1 < hi && x + 1 < |line| && line[x] != line[x + 1];
  }

  lemma SpansFit(line: string, i: nat)
    requires i < Most(line)
    ensures i * SPAN + SPAN <= |line|
  {
    var rest := Most(line) - i - 1;
    assert Most(line) * SPAN == i * SPAN + SPAN + rest * SPAN;
  }

  /** The change and a position of the flush such that moving on by one shows it. */
  lemma ChangeAt(line: string, i: nat, e: Ending) returns (x: nat, j: nat)
    requires 1 <= i < Most(line) && !Stops(line, Latest(line, Most(line) - 1), e) && !UniformAt(line, i)
    ensures i * SPAN <= j < Latest(line, i) && j + SPAN < |line|
    ensures j <= x < j + MAX_STORED_LINE_CHARS && line[x] != line[x + 1]
  {
    hide Latest, Most, Constant;
    SpansFit(line, i);
    LatestPast(line, i, 1);
    LatestGrows(line, i, Most(line) - 1);
    var far := Latest(line, i);
    x := Change(line, i * SPAN, far + MAX_STORED_LINE_CHARS);
    j := if x < far then x else far - 1;
  }

  lemma WindowsDiffer(line: string, j: nat, x: nat)
    requires j <= x < j + MAX_STORED_LINE_CHARS && j + MAX_STORED_LINE_CHARS < |line| && line[x] != line[x + 1]
    ensures line[j..j + MAX_STORED_LINE_CHARS] != line[j + 1..j + 1 + MAX_STORED_LINE_CHARS]
  {
    var k := MAX_STORED_LINE_CHARS;
    assert line[j..j + k][x - j] == line[x] && line[j + 1..j + 1 + k][x - j] == line[x + 1];
  }

  lemma FlushFrom(line: string, cuts: seq<nat>, front: seq<nat>, j: nat)
    requires Path(line, cuts) && front <= cuts && |front| < |cuts| && Last(front) == j
    ensures var i := |front|;
      && i < |Flushes(line, cuts)| && j + SPAN <= |line| && |Flushes(line, cuts)[i]| > MAX_STORED_LINE_CHARS
      && Flushes(line, cuts)[i][..MAX_STORED_LINE_CHARS] == line[j..j + MAX_STORED_LINE_CHARS]
  {
    hide Flushes, Stored, Path;
    var i := |front|;
    assert cuts[..i] == front;
    FlushAt(line, cuts, i);
    NextBounds(line, j, cuts[i]);
    StoredBeginning(line[j..cuts[i]]);
    SliceStart(line, j, cuts[i], MAX_STORED_LINE_CHARS);
  }

  /** Where what remains after the last flush is not blank, or may be nothing, it is stored differently. */
  lemma EndDiffers(line: string, e: Ending) returns (a: seq<nat>, b: seq<nat>)
    requires Most(line) > 0 && !SameEnd(line, Most(line), e)
    ensures Cuts(line, a, e) && Cuts(line, b, e) && Out(line, a, e) != Out(line, b, e)
  {
    hide Latest, Path, Most, Cuts, Out, Final;
    var f := Most(line);
    a := Earliest(f);
    EarliestCuts(line, e);
    PathBounds(line, a);
    if Returns(line[f * SPAN..] + Tail(e)) {
      b := Reached(line, f, |line|);
      FinalCount(line[f * SPAN..], e);
      FinalCount(line[|line|..], e);
    } else {
      b := Reached(line, f, f * SPAN + 1);
      assert line[f * SPAN..][1..] == line[f * SPAN + 1..];
      FinalsDiffer(line[f * SPAN..], e);
    }
    LastFlush(line, b, f, e);
    OutDiffers(line, a, b, e);
  }

  lemma LastFlush(line: string, cuts: seq<nat>, f: nat, e: Ending)
    requires Path(line, cuts) && f == Most(line) && Last(cuts) >= f * SPAN
    ensures Cuts(line, cuts, e)
  {
    PathWithin(line, cuts);
  }

  lemma OutDiffers(line: string, a: seq<nat>, b: seq<nat>, e: Ending)
    requires Path(line, a) && Path(line, b) && |a| == |b| && Last(a) <= |line| && Last(b) <= |line|
    requires Final(line[Last(a)..], e) != Final(line[Last(b)..], e)
    ensures Out(line, a, e) != Out(line, b, e)
  {
    hide Path, Out, Final;
    OutParts(line, a, e);
    OutParts(line, b, e);
  }

  lemma UnstableDiffer(line: string, e: Ending) returns (a: seq<nat>, b: seq<nat>)
    requires !Stable(line, e)
    ensures Cuts(line, a, e) && Cuts(line, b, e) && Out(line, a, e) != Out(line, b, e)
  {
    hide Latest, Cuts, Out, UniformAt, SameEnd, Stops, Most;
    var f := Most(line);
    if Stops(line, Latest(line, f - 1), e) {
      a, b := CountDiffers(line, e);
    } else if i :| 1 <= i < f && !UniformAt(line, i) {
      a, b := BeginningDiffers(line, i, e);
    } else {
      a, b := EndDiffers(line, e);
    }
  }

  /** The exact condition for one line: whatever the reads, the same is stored. */
  lemma StableIff(line: string, e: Ending)
    ensures Stable(line, e) <==>
      forall a, b | Cuts(line, a, e) && Cuts(line, b, e) :: Out(line, a, e) == Out(line, b, e)
  {
    if Stable(line, e) {
      forall a, b | Cuts(line, a, e) && Cuts(line, b, e) ensures Out(line, a, e) == Out(line, b, e) {
        StableOut(line, a, b, e);
      }
    } else {
      var a, b := UnstableDiffer(line, e);
    }
  }

  lemma StableOut(line: string, a: seq<nat>, b: seq<nat>, e: Ending)
    requires Stable(line, e) && Cuts(line, a, e) && Cuts(line, b, e)
    ensures Out(line, a, e) == Out(line, b, e)
  {
    hide Stable, Stops, Flushes;
    StableAgree(line, a, b, e);
  }

  // ---------------------------------------------------------------- lines flushed at most once

  /**
   Lines of less than two spans: those within the limit are stable, and those that pass it exactly if at least a read
   follows the limit and nothing but returns follows the first flush.
   */
  lemma StableOnce(line: string)
    requires |line| < 2 * SPAN
    ensures Stable(line, Newline) <==>
      || |line| <= MAX_PENDING_LINE_CHARS
      || (|line| >= MAX_PENDING_LINE_CHARS + READ_BYTES && Returns(line[SPAN..]))
  {
    hide Latest, Returns, Readable;
    if |line| >= SPAN {
      LatestNone(line);
      assert line[SPAN..] + "" == line[SPAN..];
      if |line| > SPAN {
        LatestPast(line, 1, 1);
      }
      ReturnsInRead(line);
    }
  }

  lemma ReturnsInRead(line: string)
    requires |line| >= SPAN
    ensures var w := line[MAX_PENDING_LINE_CHARS..] + "\n";
      && (Readable(w) ==> |line| < MAX_PENDING_LINE_CHARS + READ_BYTES)
      && (Returns(line[SPAN..]) && |line| < MAX_PENDING_LINE_CHARS + READ_BYTES ==> Readable(w))
      && (|line| == SPAN ==> Readable(w))
  {
    var w := line[MAX_PENDING_LINE_CHARS..] + "\n";
    assert w[1..] == line[SPAN..] + "\n";
    BytesBounds(w[1..]);
    ReadableLength(w);
  }

  /** A line that passes the limit and ends within one read of it is not stable. */
  lemma EndsWithinRead(line: string)
    requires |line| > MAX_PENDING_LINE_CHARS && Readable(line[MAX_PENDING_LINE_CHARS..] + "\n")
    ensures Cuts(line, [], Newline) && Cuts(line, [SPAN], Newline)
    ensures |Out(line, [SPAN], Newline)| == |Out(line, [], Newline)| + 1
  {
    ReadableLength(line[MAX_PENDING_LINE_CHARS..] + "\n");
    assert Earliest(1) == [SPAN];
    EarliestPath(line, 1);
    OutParts(line, [], Newline);
    OutParts(line, [SPAN], Newline);
  }
}
