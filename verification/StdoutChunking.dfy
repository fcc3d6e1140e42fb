/**
 Whole texts read in chunks of bounded size: what is collected depends only on the text exactly if every line of it is
 stable (axis_recipe/blackbox_rl/openhands_utils.py:45-92).
 */
module StdoutChunking {
  import opened StdoutReader
  import opened StdoutLines

  /** Chunks that reads of bounded size can deliver; a read that completes no character is an empty chunk. */
  predicate AllReadable(chunks: seq<string>) {
    forall i :: 0 <= i < |chunks| ==> Readable(chunks[i])
  }

  predicate Delivers(chunks: seq<string>, text: string) {
    AllReadable(chunks) && Concat(chunks) == text
  }

  /** An empty chunk changes nothing, so it does not matter how many reads a single character takes. */
  lemma EmptyChunk<E>(s: State<E>, chunks: seq<string>, parse: string -> Parsed<E>)
    requires chunks != []
    ensures ReadFrom(s, chunks + [""], parse) == ReadFrom(s, chunks, parse)
  {
    hide HandleLine, TruncateLine;
    assert (chunks + [""])[..|chunks|] == chunks;
  }

  /** What the reader hands to its caller. */
  function Outcome<E>(s: State<E>): (seq<string>, seq<E>) {
    (s.stdoutLines, s.jsonEvents)
  }

  ghost predicate SameLines<E(!new)>(text: string, tail: string, parse: string -> Parsed<E>) {
    forall a, b | Delivers(a, text) && Delivers(b, text) ::
      Read(a, tail, parse).stdoutLines == Read(b, tail, parse).stdoutLines
  }

  ghost predicate SameOutcome<E(!new)>(text: string, tail: string, parse: string -> Parsed<E>) {
    forall a, b | Delivers(a, text) && Delivers(b, text) ::
      Outcome(Read(a, tail, parse)) == Outcome(Read(b, tail, parse))
  }

  /** Every line with its newline is stable. */
  predicate LinesStable(text: string) {
    forall p :: 0 <= p < |text| && text[p] == '\n' ==> Stable(LastLine(text[..p]), Newline)
  }

  /** ... and so is the last one. */
  predicate ReadsAlike(text: string, tail: string) {
    LinesStable(text) && Stable(LastLine(text), End(tail))
  }

  /** The notice that ends a truncated line keeps it from being a JSON object. */
  ghost predicate NoCutEvents<E(!new)>(parse: string -> Parsed<E>) {
    forall w :: |w| > MAX_PENDING_LINE_CHARS ==> !parse(TruncateLine(w)).Object?
  }

  // ---------------------------------------------------------------- the state along a line

  /** The state after the flushes of a line. */
  function FlushAll<E>(s: State<E>, line: string, cuts: seq<nat>, parse: string -> Parsed<E>): (s': State<E>)
    requires Path(line, cuts)
    ensures s'.pending == s.pending
  {
    if cuts == [] then s
    else
      var front := cuts[..|cuts| - 1];
      PathWithin(line, cuts);
      PathWithin(line, front);
      var before := FlushAll(s, line, front, parse);
      HandleLine(before.(json := NoBlock), TruncateLine(line[Last(front)..Last(cuts)]), parse)
  }

  lemma {:induction false} FlushAllLines<E>(s: State<E>, line: string, cuts: seq<nat>, parse: string -> Parsed<E>)
    requires Path(line, cuts)
    ensures FlushAll(s, line, cuts, parse).stdoutLines == s.stdoutLines + Flushes(line, cuts)
  {
    if cuts != [] {
      FlushAllLines(s, line, cuts[..|cuts| - 1], parse);
    }
  }

  lemma CutHandled<E(!new)>(s: State<E>, w: string, parse: string -> Parsed<E>)
    requires |w| > MAX_PENDING_LINE_CHARS && NoCutEvents(parse)
    ensures HandleLine(s.(json := NoBlock), TruncateLine(w), parse)
         == s.(json := NoBlock, stdoutLines := s.stdoutLines + [Stored(w)])
  {
    assert !parse(TruncateLine(w)).Object?;
    Truncated(w);
    hide TruncateLine;
    assert TruncateLine(w) != MARKER;
  }

  lemma {:induction false} FlushAllIs<E(!new)>(s: State<E>, line: string, cuts: seq<nat>, parse: string -> Parsed<E>)
    requires Path(line, cuts) && NoCutEvents(parse)
    ensures FlushAll(s, line, cuts, parse)
         == if cuts == [] then s else s.(json := NoBlock, stdoutLines := s.stdoutLines + Flushes(line, cuts))
  {
    hide HandleLine, NoCutEvents, Stored, Next;
    if cuts != [] {
      var front := cuts[..|cuts| - 1];
      FlushAllIs(s, line, front, parse);
      NextBounds(line, Last(front), Last(cuts));
      CutHandled(FlushAll(s, line, front, parse), line[Last(front)..Last(cuts)], parse);
    }
  }

  /** A longer line has the same flushes so far. */
  lemma {:induction false} LongerLine<E>(s: State<E>, line: string, c: char, cuts: seq<nat>, parse: string -> Parsed<E>)
    requires Path(line, cuts)
    ensures Path(line + [c], cuts) && FlushAll(s, line + [c], cuts, parse) == FlushAll(s, line, cuts, parse)
  {
    hide HandleLine, TruncateLine, Readable;
    if cuts != [] {
      var front, b := cuts[..|cuts| - 1], Last(cuts);
      LongerLine(s, line, c, front, parse);
      PathWithin(line, cuts);
      PathWithin(line, front);
      assert (line + [c])[Last(front)..b] == line[Last(front)..b];
      var a := Last(front) + MAX_PENDING_LINE_CHARS;
      assert (line + [c])[a..b] == line[a..b];
    }
  }

  /** A whole line, flushed as early as possible. */
  function LineDone<E>(s: State<E>, line: string, parse: string -> Parsed<E>): (s': State<E>)
    ensures s'.pending == s.pending
  {
    EarliestCuts(line, Newline);
    HandleLine(FlushAll(s, line, Earliest(Most(line)), parse), StripReturns(line[Most(line) * SPAN..]), parse)
  }

  /** The state at the beginning of the last line. */
  function Base<E>(text: string, parse: string -> Parsed<E>): (s: State<E>)
    ensures s.pending == ""
  {
    if text == "" then Start()
    else
      var front := text[..|text| - 1];
      if text[|text| - 1] == '\n' then LineDone(Base(front, parse), LastLine(front), parse) else Base(front, parse)
  }

  /** The state in which a reader is that has flushed the last line at `cuts`. */
  ghost predicate At<E>(s: State<E>, text: string, cuts: seq<nat>, parse: string -> Parsed<E>) {
    var line := LastLine(text);
    && Path(line, cuts) && Last(cuts) <= |line|
    && s == FlushAll(Base(text, parse), line, cuts, parse).(pending := line[Last(cuts)..])
  }

  lemma {:induction false} LineIsSuffix(text: string)
    ensures |LastLine(text)| <= |text| && LastLine(text) == text[|text| - |LastLine(text)|..]
  {
    if text != "" && text[|text| - 1] != '\n' {
      LineIsSuffix(text[..|text| - 1]);
    }
  }

  lemma SameBase<E>(text: string, c: char, parse: string -> Parsed<E>)
    requires c != '\n'
    ensures Base(text + [c], parse) == Base(text, parse) && LastLine(text + [c]) == LastLine(text) + [c]
  {
    hide LineDone;
    var longer := text + [c];
    assert longer[..|longer| - 1] == text && longer[|longer| - 1] == c;
  }

  lemma NextChar<E>(s: State<E>, text: string, cuts: seq<nat>, c: char, parse: string -> Parsed<E>)
    requires At(s, text, cuts, parse) && c != '\n'
    ensures At(Char(s, c, parse), text + [c], cuts, parse) && LastLine(text + [c]) == LastLine(text) + [c]
  {
    hide Base, LastLine, HandleLine, FlushAll, Path;
    var line := LastLine(text);
    SameBase(text, c, parse);
    LongerLine(Base(text, parse), line, c, cuts, parse);
    assert line[Last(cuts)..] + [c] == (line + [c])[Last(cuts)..];
  }

  lemma LineEnds<E(!new)>(s: State<E>, text: string, cuts: seq<nat>, parse: string -> Parsed<E>)
    requires At(s, text, cuts, parse) && NoCutEvents(parse)
    requires Cuts(LastLine(text), cuts, Newline) && Stable(LastLine(text), Newline)
    ensures At(Char(s, '\n', parse), text + "\n", [], parse) && LastLine(text + "\n") == ""
  {
    hide HandleLine, FlushAll, LineDone, Path, Stops, Stable, NoCutEvents;
    var line, base := LastLine(text), Base(text, parse);
    assert (text + "\n")[..|text|] == text;
    LineDoneIs(base, line, cuts, parse);
    assert FlushAll(base, line, cuts, parse) == s.(pending := "");
    NoFlushYet(LineDone(base, line, parse), parse);
  }

  lemma NoFlushYet<E>(s: State<E>, parse: string -> Parsed<E>)
    ensures Path("", []) && FlushAll(s, "", [], parse) == s
  {
  }

  /** However a stable line was flushed, with its newline it is as if it had been flushed as early as possible. */
  lemma LineDoneIs<E(!new)>(s: State<E>, line: string, cuts: seq<nat>, parse: string -> Parsed<E>)
    requires Cuts(line, cuts, Newline) && Stable(line, Newline) && NoCutEvents(parse)
    ensures Last(cuts) <= |line|
    ensures LineDone(s, line, parse)
         == HandleLine(FlushAll(s, line, cuts, parse), StripReturns(line[Last(cuts)..]), parse)
  {
    hide Stable, Stops, Flushes, HandleLine, FlushAll, StripReturns, NoCutEvents, Path;
    var early := Earliest(Most(line));
    EarliestCuts(line, Newline);
    StableAgree(line, cuts, early, Newline);
    FlushAllIs(s, line, cuts, parse);
    FlushAllIs(s, line, early, parse);
    assert line[Last(cuts)..] + "" == line[Last(cuts)..] && line[Last(early)..] + "" == line[Last(early)..];
  }

  /** The last characters of the current line came with the current chunk. */
  lemma PieceOfChunk(text: string, chunk: string, k: nat, m: nat)
    requires k <= |chunk| && m <= k && m <= |LastLine(text + chunk[..k])|
    ensures var line := LastLine(text + chunk[..k]); line[|line| - m..] == chunk[k - m..k]
  {
    LineIsSuffix(text + chunk[..k]);
  }

  lemma EndsInRead(text: string, a: nat, chunk: string, k: nat)
    requires k < |chunk| && chunk[k] == '\n' && Readable(chunk)
    requires a <= |LastLine(text + chunk[..k])| <= a + MAX_PENDING_LINE_CHARS + k
    ensures Stops(LastLine(text + chunk[..k]), a, Newline)
  {
    hide Readable, LastLine;
    var line := LastLine(text + chunk[..k]);
    if |line| - a > MAX_PENDING_LINE_CHARS {
      var m := |line| - a - MAX_PENDING_LINE_CHARS;
      PieceOfChunk(text, chunk, k, m);
      PieceReadable(chunk, k - m, k + 1);
      assert chunk[k - m..k] + "\n" == chunk[k - m..k + 1];
    }
  }

  lemma FeedNewline<E(!new)>(s: State<E>, text: string, cuts: seq<nat>, chunk: string, k: nat,
          parse: string -> Parsed<E>)
    requires k < |chunk| && chunk[k] == '\n' && Readable(chunk)
    requires At(s, text + chunk[..k], cuts, parse)
    requires |LastLine(text + chunk[..k])| <= Last(cuts) + MAX_PENDING_LINE_CHARS + k
    requires LinesStable(text + chunk) && NoCutEvents(parse)
    ensures At(Char(s, '\n', parse), text + chunk[..k] + "\n", [], parse)
    ensures LastLine(text + chunk[..k] + "\n") == ""
  {
    hide At, Readable, Stops, Stable, Char, NoCutEvents, LastLine;
    var before := text + chunk[..k];
    AtWithin(s, before, cuts, parse);
    EndsInRead(text, Last(cuts), chunk, k);
    assert (text + chunk)[..|before|] == before && (text + chunk)[|before|] == '\n';
    LineEnds(s, before, cuts, parse);
  }

  /** Feeding part of a chunk, over any number of lines. */
  lemma {:induction false} FeedAt<E(!new)>(s: State<E>, text: string, cuts: seq<nat>, chunk: string, k: nat,
          parse: string -> Parsed<E>) returns (cuts': seq<nat>)
    requires At(s, text, cuts, parse) && |LastLine(text)| <= Last(cuts) + MAX_PENDING_LINE_CHARS
    requires Readable(chunk) && k <= |chunk| && LinesStable(text + chunk) && NoCutEvents(parse)
    ensures At(Feed(s, chunk[..k], parse), text + chunk[..k], cuts', parse)
    ensures |LastLine(text + chunk[..k])| <= Last(cuts') + MAX_PENDING_LINE_CHARS + k
  {
    hide At, Readable, LinesStable, Char, NoCutEvents, LastLine;
    if k == 0 {
      assert text + chunk[..0] == text;
      cuts' := cuts;
    } else {
      var before, c := text + chunk[..k - 1], chunk[k - 1];
      cuts' := FeedAt(s, text, cuts, chunk, k - 1, parse);
      assert chunk[..k][..k - 1] == chunk[..k - 1];
      assert text + chunk[..k] == before + [c];
      if c == '\n' {
        FeedNewline(Feed(s, chunk[..k - 1], parse), text, cuts', chunk, k - 1, parse);
        cuts' := [];
      } else {
        NextChar(Feed(s, chunk[..k - 1], parse), before, cuts', c, parse);
      }
    }
  }

  lemma AtWithin<E>(s: State<E>, text: string, cuts: seq<nat>, parse: string -> Parsed<E>)
    requires At(s, text, cuts, parse)
    ensures Path(LastLine(text), cuts) && Last(cuts) <= |LastLine(text)|
    ensures s.pending == LastLine(text)[Last(cuts)..]
  {
  }

  lemma OneFlushMore<E>(s: State<E>, line: string, cuts: seq<nat>, b: nat, parse: string -> Parsed<E>)
    requires Path(line, cuts) && Next(line, Last(cuts), b)
    ensures Path(line, cuts + [b]) && Last(cuts + [b]) == b && Last(cuts) <= b <= |line|
    ensures FlushAll(s, line, cuts + [b], parse)
         == HandleLine(FlushAll(s, line, cuts, parse).(json := NoBlock), TruncateLine(line[Last(cuts)..b]), parse)
  {
    hide HandleLine, TruncateLine, Readable;
    Extended(line, cuts, b);
    assert (cuts + [b])[..|cuts|] == cuts;
  }

  /** The flush check at the end of a chunk. */
  lemma FlushedAt<E>(s: State<E>, text: string, cuts: seq<nat>, parse: string -> Parsed<E>) returns (cuts': seq<nat>)
    requires At(s, text, cuts, parse)
    requires |LastLine(text)| - Last(cuts) > MAX_PENDING_LINE_CHARS ==>
               Readable(LastLine(text)[Last(cuts) + MAX_PENDING_LINE_CHARS..])
    ensures At(Flush(s, parse), text, cuts', parse) && |LastLine(text)| <= Last(cuts') + MAX_PENDING_LINE_CHARS
  {
    hide Base, HandleLine, TruncateLine, FlushAll, LastLine, Path, Readable;
    var line := LastLine(text);
    if |s.pending| <= MAX_PENDING_LINE_CHARS {
      cuts' := cuts;
    } else {
      assert line[Last(cuts) + MAX_PENDING_LINE_CHARS..|line|] == line[Last(cuts) + MAX_PENDING_LINE_CHARS..];
      OneFlushMore(Base(text, parse), line, cuts, |line|, parse);
      cuts' := cuts + [|line|];
      assert line[Last(cuts)..|line|] == line[Last(cuts)..] && line[|line|..] == "";
      assert s.(pending := "", json := NoBlock) == FlushAll(Base(text, parse), line, cuts, parse).(json := NoBlock);
    }
  }

  lemma StablePrefix(text: string, more: string)
    requires LinesStable(text + more)
    ensures LinesStable(text)
  {
    hide Stable;
    forall p | 0 <= p < |text| && text[p] == '\n' ensures Stable(LastLine(text[..p]), Newline) {
      assert (text + more)[p] == '\n' && (text + more)[..p] == text[..p];
    }
  }

  /** One more chunk. */
  lemma ChunkAt<E(!new)>(s: State<E>, text: string, cuts: seq<nat>, chunk: string, parse: string -> Parsed<E>)
    returns (cuts': seq<nat>)
    requires At(s, text, cuts, parse) && |LastLine(text)| <= Last(cuts) + MAX_PENDING_LINE_CHARS
    requires Readable(chunk) && LinesStable(text + chunk) && NoCutEvents(parse)
    ensures At(Flush(Feed(s, chunk, parse), parse), text + chunk, cuts', parse)
    ensures |LastLine(text + chunk)| <= Last(cuts') + MAX_PENDING_LINE_CHARS
  {
    hide At, Readable, LinesStable, Feed, Flush, NoCutEvents, LastLine;
    cuts' := FeedAt(s, text, cuts, chunk, |chunk|, parse);
    assert chunk[..|chunk|] == chunk;
    var fed, line := Feed(s, chunk, parse), LastLine(text + chunk);
    AtWithin(fed, text + chunk, cuts', parse);
    if |line| - Last(cuts') > MAX_PENDING_LINE_CHARS {
      var m := |line| - Last(cuts') - MAX_PENDING_LINE_CHARS;
      PieceOfChunk(text, chunk, |chunk|, m);
      PieceReadable(chunk, |chunk| - m, |chunk|);
    }
    cuts' := FlushedAt(fed, text + chunk, cuts', parse);
  }

  lemma NothingRead<E>(parse: string -> Parsed<E>)
    ensures At(ReadChunks([], parse), Concat([]), [], parse) && LastLine(Concat([])) == ""
  {
  }

  lemma {:induction false} ReadAt<E(!new)>(chunks: seq<string>, parse: string -> Parsed<E>) returns (cuts: seq<nat>)
    requires AllReadable(chunks) && LinesStable(Concat(chunks)) && NoCutEvents(parse)
    ensures At(ReadChunks(chunks, parse), Concat(chunks), cuts, parse)
    ensures |LastLine(Concat(chunks))| <= Last(cuts) + MAX_PENDING_LINE_CHARS
  {
    hide Readable, LinesStable, Feed, Flush, NoCutEvents, At, LastLine;
    if chunks == [] {
      NothingRead(parse);
      cuts := [];
    } else {
      var front, last := chunks[..|chunks| - 1], chunks[|chunks| - 1];
      StablePrefix(Concat(front), last);
      cuts := ReadAt(front, parse);
      cuts := ChunkAt(ReadChunks(front, parse), Concat(front), cuts, last, parse);
    }
  }

  /** Two readers of a text whose lines are stable have collected the same. */
  lemma ReadsAgree<E(!new)>(a: seq<string>, b: seq<string>, text: string, tail: string, parse: string -> Parsed<E>)
    requires Delivers(a, text) && Delivers(b, text) && ReadsAlike(text, tail) && NoCutEvents(parse)
    ensures Outcome(Read(a, tail, parse)) == Outcome(Read(b, tail, parse))
  {
    hide LinesStable, Stable, HandleLine, Flushes, Base, NoCutEvents, ReadChunks;
    var line, base := LastLine(text), Base(text, parse);
    var cuts := ReadAt(a, parse);
    var other := ReadAt(b, parse);
    StableAgree(line, cuts, other, End(tail));
    FlushAllIs(base, line, cuts, parse);
    FlushAllIs(base, line, other, parse);
    HandledAlike(ReadChunks(a, parse), ReadChunks(b, parse), line[Last(cuts)..] + tail, line[Last(other)..] + tail,
        parse);
  }

  lemma HandledAlike<E>(s: State<E>, t: State<E>, rest: string, rest': string, parse: string -> Parsed<E>)
    requires s.(pending := "") == t.(pending := "") && StripReturns(rest) == StripReturns(rest')
    ensures Outcome(HandleLine(s.(pending := rest), StripReturns(rest), parse))
         == Outcome(HandleLine(t.(pending := rest'), StripReturns(rest'), parse))
  {
    hide TruncateLine, StripReturns;
  }

  // ---------------------------------------------------------------- readers that store different lines

  /** Two steps that append the same lines and leave the same pending text, whatever the parser makes of them. */
  ghost predicate SameStep<E, F>(s: State<E>, s': State<E>, t: State<F>, t': State<F>) {
    && s'.pending == t'.pending && s.stdoutLines <= s'.stdoutLines && t.stdoutLines <= t'.stdoutLines
    && s'.stdoutLines[|s.stdoutLines|..] == t'.stdoutLines[|t.stdoutLines|..]
  }

  lemma TailOfTail<T>(a: seq<T>, b: seq<T>, c: seq<T>)
    requires a <= b <= c
    ensures a <= c && c[|a|..] == b[|a|..] + c[|b|..]
  {
    assert c[..|b|] == b;
  }

  lemma SameSteps<E, F>(s: State<E>, s': State<E>, s'': State<E>, t: State<F>, t': State<F>, t'': State<F>)
    requires SameStep(s, s', t, t') && SameStep(s', s'', t', t'')
    ensures SameStep(s, s'', t, t'')
  {
    TailOfTail(s.stdoutLines, s'.stdoutLines, s''.stdoutLines);
    TailOfTail(t.stdoutLines, t'.stdoutLines, t''.stdoutLines);
  }

  lemma HandleStep<E, F>(s: State<E>, t: State<F>, line: string, parse: string -> Parsed<E>,
          parse': string -> Parsed<F>)
    requires s.pending == t.pending
    ensures SameStep(s, HandleLine(s, line, parse), t, HandleLine(t, line, parse'))
  {
    hide TruncateLine;
  }

  lemma {:induction false} FeedStep<E, F>(s: State<E>, t: State<F>, text: string, parse: string -> Parsed<E>,
          parse': string -> Parsed<F>)
    requires s.pending == t.pending
    ensures SameStep(s, Feed(s, text, parse), t, Feed(t, text, parse'))
  {
    hide HandleLine, SameStep;
    if text == "" {
      NoStep(s, t);
    } else {
      var front, c := text[..|text| - 1], text[|text| - 1];
      FeedStep(s, t, front, parse, parse');
      SamePending(s, Feed(s, front, parse), t, Feed(t, front, parse'));
      CharStep(Feed(s, front, parse), Feed(t, front, parse'), c, parse, parse');
      SameSteps(s, Feed(s, front, parse), Feed(s, text, parse), t, Feed(t, front, parse'), Feed(t, text, parse'));
    }
  }

  lemma NoStep<E, F>(s: State<E>, t: State<F>)
    requires s.pending == t.pending
    ensures SameStep(s, s, t, t)
  {
  }

  lemma SamePending<E, F>(s: State<E>, s': State<E>, t: State<F>, t': State<F>)
    requires SameStep(s, s', t, t')
    ensures s'.pending == t'.pending
  {
  }

  lemma CharStep<E, F>(s: State<E>, t: State<F>, c: char, parse: string -> Parsed<E>, parse': string -> Parsed<F>)
    requires s.pending == t.pending
    ensures SameStep(s, Char(s, c, parse), t, Char(t, c, parse'))
  {
    hide HandleLine, StripReturns;
    HandleStep(s.(pending := ""), t.(pending := ""), StripReturns(s.pending), parse, parse');
  }

  lemma FlushStep<E, F>(s: State<E>, t: State<F>, parse: string -> Parsed<E>, parse': string -> Parsed<F>)
    requires s.pending == t.pending
    ensures SameStep(s, Flush(s, parse), t, Flush(t, parse'))
  {
    hide HandleLine, TruncateLine;
    HandleStep(s.(pending := "", json := NoBlock), t.(pending := "", json := NoBlock), TruncateLine(s.pending), parse,
        parse');
  }

  lemma FinishStep<E, F>(s: State<E>, t: State<F>, tail: string, parse: string -> Parsed<E>,
          parse': string -> Parsed<F>)
    requires s.pending == t.pending
    ensures SameStep(s, Finish(s, tail, parse), t, Finish(t, tail, parse'))
  {
    hide HandleLine, StripReturns;
    var rest := s.pending + tail;
    HandleStep(s.(pending := rest), t.(pending := rest), StripReturns(rest), parse, parse');
  }

  lemma {:induction false} ReadStep<E, F>(s: State<E>, t: State<F>, chunks: seq<string>, parse: string -> Parsed<E>,
          parse': string -> Parsed<F>)
    requires s.pending == t.pending
    ensures SameStep(s, ReadFrom(s, chunks, parse), t, ReadFrom(t, chunks, parse'))
  {
    hide Feed, Flush, SameStep;
    if chunks == [] {
      NoStep(s, t);
    } else {
      var front, last := chunks[..|chunks| - 1], chunks[|chunks| - 1];
      ReadStep(s, t, front, parse, parse');
      var (p, q) := (ReadFrom(s, front, parse), ReadFrom(t, front, parse'));
      SamePending(s, p, t, q);
      FeedStep(p, q, last, parse, parse');
      var (p', q') := (Feed(p, last, parse), Feed(q, last, parse'));
      SameSteps(s, p, p', t, q, q');
      SamePending(p, p', q, q');
      FlushStep(p', q', parse, parse');
      SameSteps(s, p', Flush(p', parse), t, q', Flush(q', parse'));
    }
  }

  /** The lines do not depend on the parser. */
  lemma LinesWithoutParser<E, F>(chunks: seq<string>, tail: string, parse: string -> Parsed<E>,
          parse': string -> Parsed<F>)
    ensures Read(chunks, tail, parse).stdoutLines == Read(chunks, tail, parse').stdoutLines
  {
    hide Finish, ReadFrom;
    var (s, t) := (Start<E>(), Start<F>());
    ReadStep(s, t, chunks, parse, parse');
    FinishStep(ReadChunks(chunks, parse), ReadChunks(chunks, parse'), tail, parse, parse');
    SameSteps(s, ReadChunks(chunks, parse), Read(chunks, tail, parse),
        t, ReadChunks(chunks, parse'), Read(chunks, tail, parse'));
  }

  /** Character by character. */
  function Singles(w: string): (chunks: seq<string>)
    ensures AllReadable(chunks)
  {
    seq(|w|, i requires 0 <= i < |w| => [w[i]])
  }

  lemma {:induction false} ConcatSingles(w: string)
    ensures Concat(Singles(w)) == w
  {
    if w != "" {
      var front := w[..|w| - 1];
      ConcatSingles(front);
      assert Singles(w)[..|w| - 1] == Singles(front);
    }
  }

  lemma {:induction false} ConcatConcat(a: seq<string>, b: seq<string>)
    ensures Concat(a + b) == Concat(a) + Concat(b)
  {
    if b == [] {
      assert a + b == a;
    } else {
      var n, whole := |b| - 1, a + b;
      ConcatConcat(a, b[..n]);
      assert whole[..|whole| - 1] == a + b[..n] && whole[|whole| - 1] == b[n];
      assert Concat(a) + (Concat(b[..n]) + b[n]) == Concat(a) + Concat(b[..n]) + b[n];
    }
  }

  lemma {:induction false} ReadConcat<E>(s: State<E>, a: seq<string>, b: seq<string>, parse: string -> Parsed<E>)
    ensures ReadFrom(s, a + b, parse) == ReadFrom(ReadFrom(s, a, parse), b, parse)
  {
    hide Feed, Flush;
    if b == [] {
      assert a + b == a;
    } else {
      var n, whole := |b| - 1, a + b;
      ReadConcat(s, a, b[..n], parse);
      assert whole[..|whole| - 1] == a + b[..n] && whole[|whole| - 1] == b[n];
    }
  }

  lemma ReadOne<E>(s: State<E>, chunk: string, parse: string -> Parsed<E>)
    ensures ReadFrom(s, [chunk], parse) == Flush(Feed(s, chunk, parse), parse) && Concat([chunk]) == chunk
  {
    hide Feed, Flush;
    assert [chunk][..0] == [];
  }

  lemma {:induction false} ReadSingles<E>(s: State<E>, w: string, parse: string -> Parsed<E>)
    requires '\n' !in w && |s.pending| + |w| <= MAX_PENDING_LINE_CHARS
    ensures ReadFrom(s, Singles(w), parse) == s.(pending := s.pending + w)
  {
    if w == "" {
      assert s.pending + w == s.pending;
    } else {
      var n := |w| - 1;
      ReadSingles(s, w[..n], parse);
      assert Singles(w)[..n] == Singles(w[..n]);
      FeedNoNewline(s.(pending := s.pending + w[..n]), [w[n]], parse);
      assert s.pending + w[..n] + [w[n]] == s.pending + w;
    }
  }

  /** A segment that is flushed: character by character up to the limit, then one read. */
  lemma ReadSegment<E>(s: State<E>, w: string, parse: string -> Parsed<E>) returns (chunks: seq<string>)
    requires s.pending == "" && '\n' !in w && |w| > MAX_PENDING_LINE_CHARS && Readable(w[MAX_PENDING_LINE_CHARS..])
    ensures Delivers(chunks, w)
    ensures ReadFrom(s, chunks, parse) == HandleLine(s.(json := NoBlock), TruncateLine(w), parse)
  {
    hide HandleLine, TruncateLine, Readable, Feed;
    var (head, last) := (w[..MAX_PENDING_LINE_CHARS], w[MAX_PENDING_LINE_CHARS..]);
    chunks := Singles(head) + [last];
    ConcatSingles(head);
    ConcatConcat(Singles(head), [last]);
    ReadSingles(s, head, parse);
    var t := s.(pending := "" + head);
    ReadOne(t, last, parse);
    ReadConcat(s, Singles(head), [last], parse);
    FeedNoNewline(t, last, parse);
    assert head + last == w && "" + head + last == w;
  }

  /** Reads that flush a line at given positions. */
  lemma {:induction false} ReadPath<E>(s: State<E>, line: string, cuts: seq<nat>, parse: string -> Parsed<E>)
    returns (chunks: seq<string>)
    requires s.pending == "" && '\n' !in line && Path(line, cuts)
    ensures Last(cuts) <= |line| && Delivers(chunks, line[..Last(cuts)])
    ensures ReadFrom(s, chunks, parse) == FlushAll(s, line, cuts, parse)
  {
    hide HandleLine, TruncateLine, Readable, Concat, AllReadable;
    PathWithin(line, cuts);
    if cuts == [] {
      chunks := Singles("");
      ConcatSingles("");
    } else {
      var front, b := cuts[..|cuts| - 1], Last(cuts);
      var before := ReadPath(s, line, front, parse);
      var w := line[Last(front)..b];
      assert w[MAX_PENDING_LINE_CHARS..] == line[Last(front) + MAX_PENDING_LINE_CHARS..b];
      var segment := ReadSegment(FlushAll(s, line, front, parse), w, parse);
      chunks := before + segment;
      Delivered(before, line[..Last(front)], segment, w);
      assert line[..Last(front)] + w == line[..b];
      ReadConcat(s, before, segment, parse);
    }
  }

  lemma Delivered(a: seq<string>, text: string, b: seq<string>, more: string)
    requires Delivers(a, text) && Delivers(b, more)
    ensures Delivers(a + b, text + more)
  {
    hide Readable, Concat;
    ConcatConcat(a, b);
  }

  /** What remains of a line after its last flush, with its newline. */
  lemma ReadRest<E>(s: State<E>, line: string, a: nat, parse: string -> Parsed<E>) returns (chunks: seq<string>)
    requires s.pending == "" && '\n' !in line && Stops(line, a, Newline)
    ensures Delivers(chunks, line[a..] + "\n")
    ensures ReadFrom(s, chunks, parse) == HandleLine(s, StripReturns(line[a..]), parse)
  {
    hide HandleLine, StripReturns, Readable, Feed, Delivers;
    var rest := line[a..];
    var k := if |rest| <= MAX_PENDING_LINE_CHARS then |rest| else MAX_PENDING_LINE_CHARS;
    if |rest| <= MAX_PENDING_LINE_CHARS {
      ReadableLength(rest[k..] + "\n");
    } else {
      assert rest[k..] == line[a + MAX_PENDING_LINE_CHARS..];
    }
    chunks := ReadLineEnd(s, rest[..k], rest[k..], parse);
    assert rest[..k] + rest[k..] == rest;
  }

  lemma ReadLineEnd<E>(s: State<E>, head: string, more: string, parse: string -> Parsed<E>)
    returns (chunks: seq<string>)
    requires s.pending == "" && '\n' !in head && '\n' !in more && |head| <= MAX_PENDING_LINE_CHARS
    requires Readable(more + "\n")
    ensures Delivers(chunks, head + more + "\n")
    ensures ReadFrom(s, chunks, parse) == HandleLine(s, StripReturns(head + more), parse)
  {
    hide HandleLine, StripReturns, Readable, Feed, ReadFrom, Concat;
    var last := more + "\n";
    chunks := Singles(head) + [last];
    ConcatSingles(head);
    ReadOne(s.(pending := "" + head), last, parse);
    Delivered(Singles(head), head, [last], last);
    assert head + last == head + more + "\n";
    ReadSingles(s, head, parse);
    ReadConcat(s, Singles(head), [last], parse);
    FeedLineEnd(s, head, more, parse);
  }

  lemma FeedLineEnd<E>(s: State<E>, head: string, more: string, parse: string -> Parsed<E>)
    requires s.pending == "" && '\n' !in head && '\n' !in more
    ensures Feed(s.(pending := "" + head), more + "\n", parse) == HandleLine(s, StripReturns(head + more), parse)
  {
    hide HandleLine, StripReturns;
    var t := s.(pending := head);
    assert "" + head == head;
    FeedConcat(t, more, "\n", parse);
    FeedNoNewline(t, more, parse);
    assert "\n"[..0] == "";
    assert t.(pending := head + more).(pending := "") == s;
  }

  /** Reads that flush a line at given positions and deliver its newline. */
  lemma ReadLine<E>(s: State<E>, line: string, cuts: seq<nat>, parse: string -> Parsed<E>) returns (chunks: seq<string>)
    requires s.pending == "" && '\n' !in line && Cuts(line, cuts, Newline)
    ensures Delivers(chunks, line + "\n")
    ensures ReadFrom(s, chunks, parse).pending == ""
    ensures ReadFrom(s, chunks, parse).stdoutLines == s.stdoutLines + Out(line, cuts, Newline)
  {
    hide Readable, Concat, AllReadable, Path, Stops, FlushAll, Flushes, StripReturns, TruncateLine, ReadFrom, Delivers;
    var flushes := ReadPath(s, line, cuts, parse);
    var t := FlushAll(s, line, cuts, parse);
    var rest := ReadRest(t, line, Last(cuts), parse);
    chunks := flushes + rest;
    Delivered(flushes, line[..Last(cuts)], rest, line[Last(cuts)..] + "\n");
    assert line[..Last(cuts)] + (line[Last(cuts)..] + "\n") == line + "\n";
    ReadConcat(s, flushes, rest, parse);
    FlushAllLines(s, line, cuts, parse);
    assert line[Last(cuts)..] + "" == line[Last(cuts)..];
  }

  /** Reads that flush the last line at given positions. */
  lemma ReadLast<E>(s: State<E>, line: string, cuts: seq<nat>, tail: string, parse: string -> Parsed<E>)
    returns (chunks: seq<string>)
    requires s.pending == "" && '\n' !in line && Cuts(line, cuts, End(tail))
    ensures Delivers(chunks, line)
    ensures Finish(ReadFrom(s, chunks, parse), tail, parse).stdoutLines == s.stdoutLines + Out(line, cuts, End(tail))
  {
    hide Readable, Concat, AllReadable, Path, FlushAll, Flushes, StripReturns, TruncateLine, ReadFrom;
    var flushes := ReadPath(s, line, cuts, parse);
    var t, rest := FlushAll(s, line, cuts, parse), line[Last(cuts)..];
    chunks := flushes + Singles(rest);
    ConcatSingles(rest);
    Delivered(flushes, line[..Last(cuts)], Singles(rest), rest);
    assert line[..Last(cuts)] + rest == line;
    ReadConcat(s, flushes, Singles(rest), parse);
    ReadSingles(t, rest, parse);
    assert "" + rest == rest;
    FlushAllLines(s, line, cuts, parse);
  }

  /** Where a line begins nothing is pending. */
  lemma StartOfLine<E>(before: string, parse: string -> Parsed<E>) returns (chunks: seq<string>)
    requires before == "" || before[|before| - 1] == '\n'
    ensures Delivers(chunks, before) && ReadChunks(chunks, parse).pending == ""
  {
    hide HandleLine, StripReturns;
    chunks := Singles(before);
    ConcatSingles(before);
    if before != "" {
      assert chunks[|chunks| - 1] == "\n" && "\n"[..0] == "";
    }
  }

  lemma {:induction false} LineStart(text: string)
    ensures |LastLine(text)| <= |text|
    ensures var before := text[..|text| - |LastLine(text)|];
      (before == "" || before[|before| - 1] == '\n') && '\n' !in LastLine(text) && before + LastLine(text) == text
  {
    LineIsSuffix(text);
    if text != "" && text[|text| - 1] != '\n' {
      var front := text[..|text| - 1];
      LineStart(front);
      assert text[..|text| - |LastLine(text)|] == front[..|front| - |LastLine(front)|];
    }
  }

  lemma AfterSame(front: seq<string>, a: seq<string>, b: seq<string>)
    ensures front + a == front + b <==> a == b
  {
    assert (front + a)[|front|..] == a && (front + b)[|front|..] == b;
  }

  /** Two ways to read a line of a text, everything else being read alike. */
  lemma LineReadTwice<E>(text: string, p: nat, a: seq<nat>, b: seq<nat>, tail: string, parse: string -> Parsed<E>)
    returns (x: seq<string>, y: seq<string>)
    requires p < |text| && text[p] == '\n'
    requires Cuts(LastLine(text[..p]), a, Newline) && Cuts(LastLine(text[..p]), b, Newline)
    ensures Delivers(x, text) && Delivers(y, text)
    ensures var line := LastLine(text[..p]);
      && (Out(line, a, Newline) != Out(line, b, Newline) ==>
            Read(x, tail, parse).stdoutLines != Read(y, tail, parse).stdoutLines)
      && |Read(x, tail, parse).stdoutLines| - |Out(line, a, Newline)|
           == |Read(y, tail, parse).stdoutLines| - |Out(line, b, Newline)|
  {
    hide Delivers, LastLine, Path, Stops, Out, ReadFrom, Finish, SameStep;
    var line := LastLine(text[..p]);
    LineIsSuffix(text[..p]);
    LineStart(text[..p]);
    var before, after := text[..p - |line|], text[p + 1..];
    assert text[..p][..p - |line|] == before;
    var start := StartOfLine(before, parse);
    var s := ReadChunks(start, parse);
    var first := ReadLine(s, line, a, parse);
    var second := ReadLine(s, line, b, parse);
    x := DeliversAround(text, before, line, after, start, first);
    y := DeliversAround(text, before, line, after, start, second);
    var (t, t') := (ReadFrom(s, first, parse), ReadFrom(s, second, parse));
    AfterSame(s.stdoutLines, Out(line, a, Newline), Out(line, b, Newline));
    var rest := Singles(after);
    ReadConcat(Start(), start, first, parse);
    ReadConcat(Start(), start + first, rest, parse);
    ReadConcat(Start(), start, second, parse);
    ReadConcat(Start(), start + second, rest, parse);
    var (u, u') := (ReadFrom(t, rest, parse), ReadFrom(t', rest, parse));
    ReadStep(t, t', rest, parse, parse);
    SamePending(t, u, t', u');
    FinishStep(u, u', tail, parse, parse);
    SameSteps(t, u, Finish(u, tail, parse), t', u', Finish(u', tail, parse));
    StepKeepsDifference(t, Finish(u, tail, parse), t', Finish(u', tail, parse));
  }

  lemma DeliversAround(text: string, before: string, line: string, after: string, start: seq<string>,
          middle: seq<string>) returns (chunks: seq<string>)
    requires text == before + line + "\n" + after && Delivers(start, before) && Delivers(middle, line + "\n")
    ensures chunks == start + middle + Singles(after) && Delivers(chunks, text)
  {
    hide Readable, Concat;
    ConcatSingles(after);
    Delivered(start, before, middle, line + "\n");
    Delivered(start + middle, before + (line + "\n"), Singles(after), after);
    chunks := start + middle + Singles(after);
    assert before + (line + "\n") + after == text;
  }

  lemma StepKeepsDifference<E, F>(s: State<E>, s': State<E>, t: State<F>, t': State<F>)
    requires SameStep(s, s', t, t')
    ensures s.stdoutLines != t.stdoutLines ==> s'.stdoutLines != t'.stdoutLines
    ensures |s'.stdoutLines| - |s.stdoutLines| == |t'.stdoutLines| - |t.stdoutLines|
  {
    assert s'.stdoutLines == s.stdoutLines + s'.stdoutLines[|s.stdoutLines|..];
    assert t'.stdoutLines == t.stdoutLines + t'.stdoutLines[|t.stdoutLines|..];
    if |s.stdoutLines| == |t.stdoutLines| && s'.stdoutLines == t'.stdoutLines {
      assert s'.stdoutLines[..|s.stdoutLines|] == s.stdoutLines && t'.stdoutLines[..|t.stdoutLines|] == t.stdoutLines;
    }
  }

  /** Two ways to read the last line. */
  lemma LastReadTwice<E>(text: string, a: seq<nat>, b: seq<nat>, tail: string, parse: string -> Parsed<E>)
    returns (x: seq<string>, y: seq<string>)
    requires Cuts(LastLine(text), a, End(tail)) && Cuts(LastLine(text), b, End(tail))
    requires Out(LastLine(text), a, End(tail)) != Out(LastLine(text), b, End(tail))
    ensures Delivers(x, text) && Delivers(y, text)
    ensures Read(x, tail, parse).stdoutLines != Read(y, tail, parse).stdoutLines
  {
    hide Delivers, LastLine, Path, Stops, Out, ReadFrom, Finish;
    var line := LastLine(text);
    LineIsSuffix(text);
    LineStart(text);
    var before := text[..|text| - |line|];
    var start := StartOfLine(before, parse);
    var s := ReadChunks(start, parse);
    var first := ReadLast(s, line, a, tail, parse);
    var second := ReadLast(s, line, b, tail, parse);
    Delivered(start, before, first, line);
    Delivered(start, before, second, line);
    ReadConcat(Start(), start, first, parse);
    ReadConcat(Start(), start, second, parse);
    x, y := start + first, start + second;
    AfterSame(s.stdoutLines, Out(line, a, End(tail)), Out(line, b, End(tail)));
  }

  lemma UnstableReadTwice<E>(text: string, tail: string, parse: string -> Parsed<E>)
    returns (x: seq<string>, y: seq<string>)
    requires !ReadsAlike(text, tail)
    ensures Delivers(x, text) && Delivers(y, text)
    ensures Read(x, tail, parse).stdoutLines != Read(y, tail, parse).stdoutLines
  {
    hide Stable, Cuts, Out, Delivers, Read;
    if p :| 0 <= p < |text| && text[p] == '\n' && !Stable(LastLine(text[..p]), Newline) {
      var a, b := UnstableDiffer(LastLine(text[..p]), Newline);
      x, y := LineReadTwice(text, p, a, b, tail, parse);
    } else {
      var a, b := UnstableDiffer(LastLine(text), End(tail));
      x, y := LastReadTwice(text, a, b, tail, parse);
    }
  }

  // ---------------------------------------------------------------- the exact condition

  /** The lines of a text depend on how it is read, or not: exactly if every line of it is stable they do not. */
  lemma SameLinesIff<E(!new)>(text: string, tail: string, parse: string -> Parsed<E>)
    ensures SameLines(text, tail, parse) <==> ReadsAlike(text, tail)
  {
    hide ReadsAlike, Delivers, Read;
    if ReadsAlike(text, tail) {
      var none: string -> Parsed<E> := _ => NotJson;
      forall a, b | Delivers(a, text) && Delivers(b, text)
        ensures Read(a, tail, parse).stdoutLines == Read(b, tail, parse).stdoutLines
      {
        ReadsAgree(a, b, text, tail, none);
        LinesWithoutParser(a, tail, parse, none);
        LinesWithoutParser(b, tail, parse, none);
      }
    } else {
      var a, b := UnstableReadTwice(text, tail, parse);
    }
  }

  /** The same for lines and events together, for parsers that find no object in a truncated line. */
  lemma SameOutcomeIff<E(!new)>(text: string, tail: string, parse: string -> Parsed<E>)
    requires NoCutEvents(parse)
    ensures SameOutcome(text, tail, parse) <==> ReadsAlike(text, tail)
  {
    hide ReadsAlike, Delivers, Read;
    if ReadsAlike(text, tail) {
      forall a, b | Delivers(a, text) && Delivers(b, text)
        ensures Outcome(Read(a, tail, parse)) == Outcome(Read(b, tail, parse))
      {
        ReadsAgree(a, b, text, tail, parse);
      }
    } else {
      var a, b := UnstableReadTwice(text, tail, parse);
    }
  }

  /** A line that passes the limit and ends within one read of it comes out as one line or as two. */
  lemma LongLineIsSplit<E>(text: string, p: nat, tail: string, parse: string -> Parsed<E>)
    returns (x: seq<string>, y: seq<string>)
    requires p < |text| && text[p] == '\n' && |LastLine(text[..p])| > MAX_PENDING_LINE_CHARS
    requires Readable(LastLine(text[..p])[MAX_PENDING_LINE_CHARS..] + "\n")
    ensures Delivers(x, text) && Delivers(y, text)
    ensures |Read(x, tail, parse).stdoutLines| == |Read(y, tail, parse).stdoutLines| + 1
  {
    hide Cuts, Out, Delivers, Read, LastLine, Readable;
    EndsWithinRead(LastLine(text[..p]));
    x, y := LineReadTwice(text, p, [SPAN], [], tail, parse);
  }

  lemma ShortStable(line: string, e: Ending)
    requires |line| <= MAX_PENDING_LINE_CHARS
    ensures Stable(line, e)
  {
  }

  /** A last line one character over the limit is flushed at the end of the input, however it is read. */
  lemma OneOverStable(line: string, tail: string)
    requires |line| == SPAN
    ensures Stable(line, End(tail))
  {
    hide Latest;
    LatestNone(line);
    EarliestPath(line, 1);
    PathBounds(line, Earliest(1));
  }

  /** No line over the limit: every line is stable. */
  lemma ShortLinesReadAlike(text: string, tail: string)
    requires NoLongLine(text)
    ensures ReadsAlike(text, tail)
  {
    hide Stable;
    forall p | 0 <= p < |text| && text[p] == '\n' ensures Stable(LastLine(text[..p]), Newline) {
      ShortStable(LastLine(text[..p]), Newline);
    }
    if |LastLine(text)| > MAX_PENDING_LINE_CHARS {
      assert |LastLine(text[..|text| - 1])| <= MAX_PENDING_LINE_CHARS;
      OneOverStable(LastLine(text), tail);
    } else {
      ShortStable(LastLine(text), End(tail));
    }
  }

  /** A long line that is stable all the same: at least a read of returns, and nothing else, after the first flush. */
  lemma ReturnsReadAlike(line: string, tail: string)
    requires '\n' !in line && MAX_PENDING_LINE_CHARS + READ_BYTES <= |line| < 2 * SPAN && Returns(line[SPAN..])
    ensures ReadsAlike(line + "\n", tail) && !NoLongLine(line + "\n")
  {
    hide Stable;
    var text := line + "\n";
    LastLineWithoutNewline(line);
    assert text[..|line|] == line;
    StableOnce(line);
    ShortStable("", End(tail));
    assert LastLine(text[..|line|]) == line;
  }
}
