/**
 Reading the agent's standard output in chunks of decoded text: lines, and the JSON events among them
 (axis_recipe/blackbox_rl/openhands_utils.py:17-18, 45-92, 149-185).
 */
module StdoutReader {
  import opened Basics
  import opened Labels

  const MAX_PENDING_LINE_CHARS := 5_000_000
  const MAX_STORED_LINE_CHARS := 200_000
  const MARKER := "--JSON Event--"

  datatype Buffer = NoBlock | Block(lines: seq<string>)

  /** What the JSON library makes of a text. */
  datatype Parsed<+E> = NotJson | NotAnObject | Object(event: E)

  datatype State<E> = State(pending: string, json: Buffer, stdoutLines: seq<string>, jsonEvents: seq<E>)

  function Start<E>(): State<E> { State("", NoBlock, [], []) }

  function TruncateLine(line: string): string {
    if |line| <= MAX_STORED_LINE_CHARS then line
    else line[..MAX_STORED_LINE_CHARS] + "... [truncated stdout line; original_chars=" + Decimal(|line|) + "]"
  }

  function StripReturns(line: string): string {
    if line != "" && line[|line| - 1] == '\r' then StripReturns(line[..|line| - 1]) else line
  }

  /** All carriage returns at the end go, and nothing else. */
  lemma {:induction false} ReturnsStripped(line: string)
    ensures var kept := StripReturns(line);
      && kept <= line && (forall i :: |kept| <= i < |line| ==> line[i] == '\r')
      && (kept != "" ==> kept[|kept| - 1] != '\r')
  {
    if line != "" && line[|line| - 1] == '\r' {
      ReturnsStripped(line[..|line| - 1]);
    }
  }

  function TotalChars(lines: seq<string>): nat {
    if lines == [] then 0 else TotalChars(lines[..|lines| - 1]) + |lines[|lines| - 1]|
  }

  function HandleLine<E>(s: State<E>, line: string, parse: string -> Parsed<E>): (s': State<E>)
    ensures |s'.stdoutLines| == |s.stdoutLines| + 1 && s'.pending == s.pending
  {
    var seen := s.(stdoutLines := s.stdoutLines + [TruncateLine(line)]);
    if line == MARKER then seen.(json := Block([]))
    else if s.json.Block? then
      var block := s.json.lines + [line];
      match parse(JoinLines(block))
      case NotJson => if TotalChars(block) > MAX_PENDING_LINE_CHARS then seen.(json := NoBlock)
          else seen.(json := Block(block))
      case NotAnObject => seen.(json := NoBlock)
      case Object(event) => seen.(json := NoBlock, jsonEvents := s.jsonEvents + [event])
    else
      match parse(line)
      case Object(event) => seen.(jsonEvents := s.jsonEvents + [event])
      case _ => seen
  }

  /** One character: a newline completes the pending line. */
  function Char<E>(s: State<E>, c: char, parse: string -> Parsed<E>): State<E> {
    if c == '\n' then HandleLine(s.(pending := ""), StripReturns(s.pending), parse) else s.(pending := s.pending + [c])
  }

  function Feed<E>(s: State<E>, text: string, parse: string -> Parsed<E>): State<E> {
    if text == "" then s else Char(Feed(s, text[..|text| - 1], parse), text[|text| - 1], parse)
  }

  /** A pending line over the limit is handled, truncated, outside any JSON block, and forgotten. */
  function Flush<E>(s: State<E>, parse: string -> Parsed<E>): State<E> {
    if |s.pending| <= MAX_PENDING_LINE_CHARS then s
    else HandleLine(s.(pending := "", json := NoBlock), TruncateLine(s.pending), parse)
  }

  function Finish<E>(s: State<E>, tail: string, parse: string -> Parsed<E>): State<E> {
    var rest := s.pending + tail;
    if rest == "" then s else HandleLine(s.(pending := rest), StripReturns(rest), parse)
  }

  function ReadFrom<E>(s: State<E>, chunks: seq<string>, parse: string -> Parsed<E>): State<E> {
    if chunks == [] then s
    else Flush(Feed(ReadFrom(s, chunks[..|chunks| - 1], parse), chunks[|chunks| - 1], parse), parse)
  }

  function ReadChunks<E>(chunks: seq<string>, parse: string -> Parsed<E>): State<E> {
    ReadFrom(Start(), chunks, parse)
  }

  function Read<E>(chunks: seq<string>, tail: string, parse: string -> Parsed<E>): State<E> {
    Finish(ReadChunks(chunks, parse), tail, parse)
  }

  function Concat(chunks: seq<string>): string {
    if chunks == [] then "" else Concat(chunks[..|chunks| - 1]) + chunks[|chunks| - 1]
  }

  /** What follows the last newline. */
  function LastLine(text: string): string {
    if text == "" || text[|text| - 1] == '\n' then "" else LastLine(text[..|text| - 1]) + [text[|text| - 1]]
  }

  function Newlines(text: string): nat {
    if text == "" then 0 else Newlines(text[..|text| - 1]) + (if text[|text| - 1] == '\n' then 1 else 0)
  }

  // ---------------------------------------------------------------- feeding

  lemma {:induction false} FeedConcat<E>(s: State<E>, a: string, b: string, parse: string -> Parsed<E>)
    ensures Feed(s, a + b, parse) == Feed(Feed(s, a, parse), b, parse)
  {
    hide Char;
    if b == "" {
      assert a + b == a;
    } else {
      var n := |b| - 1;
      var front, whole := a + b[..n], a + b;
      FeedConcat(s, a, b[..n], parse);
      assert whole[..|whole| - 1] == front && whole[|whole| - 1] == b[n];
      assert Feed(s, whole, parse) == Char(Feed(s, front, parse), b[n], parse);
    }
  }

  lemma {:induction false} FeedEffect<E>(s: State<E>, text: string, parse: string -> Parsed<E>)
    ensures var s' := Feed(s, text, parse);
      && |s'.stdoutLines| == |s.stdoutLines| + Newlines(text)
      && s'.pending == (if '\n' in text then LastLine(text) else s.pending + text)
  {
    if text != "" {
      var n := |text| - 1;
      FeedEffect(s, text[..n], parse);
      assert text == text[..n] + [text[n]];
      LastLineWithoutNewline(text[..n]);
    }
  }

  lemma {:induction false} LastLineWithoutNewline(text: string)
    ensures '\n' !in text ==> LastLine(text) == text
  {
    if text != "" {
      LastLineWithoutNewline(text[..|text| - 1]);
      assert text == text[..|text| - 1] + [text[|text| - 1]];
    }
  }

  lemma {:induction false} FeedNoNewline<E>(s: State<E>, text: string, parse: string -> Parsed<E>)
    requires '\n' !in text
    ensures Feed(s, text, parse) == s.(pending := s.pending + text)
  {
    if text == "" {
      assert s.pending + text == s.pending;
    } else {
      FeedNoNewline(s, text[..|text| - 1], parse);
      assert s.pending + text == s.pending + text[..|text| - 1] + [text[|text| - 1]];
    }
  }

  /** Splitting off the first line and handling it is what feeding the characters does. */
  lemma FeedLine<E>(s: State<E>, line: string, rest: string, parse: string -> Parsed<E>)
    requires s.pending == "" && '\n' !in line
    ensures Feed(s, line + "\n" + rest, parse) == Feed(HandleLine(s, StripReturns(line), parse), rest, parse)
  {
    FeedNoNewline(s, line, parse);
    assert s.pending + line == line;
    FeedConcat(s, line, "\n", parse);
    FeedConcat(s, line + "\n", rest, parse);
    assert Feed(s.(pending := line), "\n", parse) == Char(s.(pending := line), '\n', parse) by {
      assert "\n"[..0] == "";
    }
    assert s.(pending := line).(pending := "") == s;
  }

  // ---------------------------------------------------------------- chunking

  /** No proper prefix of the text leaves more than the limit pending. */
  predicate NoLongLine(text: string) {
    forall p :: 0 <= p < |text| ==> |LastLine(text[..p])| <= 5_000_000
  }

  /** However such a text is cut into chunks, of whatever size, it reads like one chunk. */
  lemma {:induction false} ReadChunksWhole<E>(chunks: seq<string>, parse: string -> Parsed<E>)
    requires NoLongLine(Concat(chunks))
    ensures ReadChunks(chunks, parse) == Flush(Feed(Start(), Concat(chunks), parse), parse)
  {
    if chunks != [] {
      var front, last := chunks[..|chunks| - 1], chunks[|chunks| - 1];
      var text, before := Concat(chunks), Concat(front);
      assert forall p :: 0 <= p <= |before| ==> text[..p] == before[..p];
      ReadChunksWhole(front, parse);
      FeedConcat<E>(Start(), before, last, parse);
      FeedEffect<E>(Start(), before, parse);
      LastLineWithoutNewline(before);
      assert before[..|before|] == before;
      if last != "" {
        assert text[..|before|] == before;
      }
    }
  }

  // ---------------------------------------------------------------- event blocks

  lemma {:induction false} TotalCharsCounts(lines: seq<string>)
    ensures TotalChars(lines) == |Concat(lines)|
  {
    if lines != [] {
      TotalCharsCounts(lines[..|lines| - 1]);
    }
  }

  function HandleLines<E>(s: State<E>, lines: seq<string>, parse: string -> Parsed<E>): State<E> {
    if lines == [] then s else HandleLine(HandleLines(s, lines[..|lines| - 1], parse), lines[|lines| - 1], parse)
  }

  lemma CollectLine<E>(s: State<E>, block: seq<string>, line: string, parse: string -> Parsed<E>)
    requires s.json == Block(block) && line != MARKER
    ensures var s' := HandleLine(s, line, parse);
      match parse(JoinLines(block + [line]))
      case NotJson => s'.jsonEvents == s.jsonEvents &&
          s'.json == if TotalChars(block + [line]) <= 5_000_000 then Block(block + [line]) else NoBlock
      case NotAnObject => s'.json == NoBlock && s'.jsonEvents == s.jsonEvents
      case Object(event) => s'.json == NoBlock && s'.jsonEvents == s.jsonEvents + [event]
  {
    hide JoinLines, TotalChars, TruncateLine;
  }

  /** Lines that never parse together, none of them a marker, and that stay within the limit. */
  predicate NeverParses<E>(lines: seq<string>, parse: string -> Parsed<E>) {
    lines == []
    || (&& NeverParses(lines[..|lines| - 1], parse) && lines[|lines| - 1] != MARKER
        && parse(JoinLines(lines)) == NotJson && TotalChars(lines) <= 5_000_000)
  }

  /**
   After the marker, lines are collected until they parse together; that event is emitted once, whatever came before.
   */
  lemma MarkedBlockYieldsItsEvent<E>(s: State<E>, block: seq<string>, last: string, parse: string -> Parsed<E>)
    requires NeverParses(block, parse) && last != MARKER
    requires parse(JoinLines(block + [last])).Object?
    ensures var s' := HandleLine(HandleLines(HandleLine(s, MARKER, parse), block, parse), last, parse);
      s'.json == NoBlock && s'.jsonEvents == s.jsonEvents + [parse(JoinLines(block + [last])).event]
  {
    BlockCollected(s, block, parse);
    CollectLine(HandleLines(HandleLine(s, MARKER, parse), block, parse), block, last, parse);
  }

  /** A marker opens a block, and an open one anew. */
  lemma MarkerOpensBlock<E>(s: State<E>, parse: string -> Parsed<E>)
    ensures var s' := HandleLine(s, "--JSON Event--", parse);
      s'.json == Block([]) && s'.jsonEvents == s.jsonEvents
  {
  }

  /** A block is given up without an event when its lines parse as something else, or grow over the limit unparsed. */
  lemma AbandonedBlockYieldsNothing<E>(s: State<E>, block: seq<string>, last: string, parse: string -> Parsed<E>)
    requires NeverParses(block, parse) && last != MARKER
    requires || parse(JoinLines(block + [last])).NotAnObject?
             || (parse(JoinLines(block + [last])).NotJson? && TotalChars(block + [last]) > 5_000_000)
    ensures var s' := HandleLine(HandleLines(HandleLine(s, MARKER, parse), block, parse), last, parse);
      s'.json == NoBlock && s'.jsonEvents == s.jsonEvents
  {
    BlockCollected(s, block, parse);
    CollectLine(HandleLines(HandleLine(s, MARKER, parse), block, parse), block, last, parse);
  }

  /** The events of the lines that are objects by themselves. */
  function Objects<E>(lines: seq<string>, parse: string -> Parsed<E>): seq<E> {
    if lines == [] then []
    else
      var last := parse(lines[|lines| - 1]);
      Objects(lines[..|lines| - 1], parse) + (if last.Object? then [last.event] else [])
  }

  /** Outside a block every line that is an object by itself yields its event, in order, and no other does. */
  lemma {:induction false} PlainLinesYieldTheirObjects<E>(s: State<E>, lines: seq<string>, parse: string -> Parsed<E>)
    requires s.json == NoBlock && forall i :: 0 <= i < |lines| ==> lines[i] != "--JSON Event--"
    ensures var s' := HandleLines(s, lines, parse);
      s'.json == NoBlock && s'.jsonEvents == s.jsonEvents + Objects(lines, parse)
  {
    if lines != [] {
      PlainLinesYieldTheirObjects(s, lines[..|lines| - 1], parse);
    }
  }

  /** Every line handled is stored, in order and whole up to 200000 characters, whatever block it is in. */
  lemma {:induction false} LinesStored<E>(s: State<E>, lines: seq<string>, parse: string -> Parsed<E>, i: nat)
    requires i < |lines|
    ensures var stored := HandleLines(s, lines, parse).stdoutLines;
      && |stored| == |s.stdoutLines| + |lines| && s.stdoutLines <= stored
      && stored[|s.stdoutLines| + i] ==
        if |lines[i]| <= 200_000 then lines[i]
        else lines[i][..200_000] + "... [truncated stdout line; original_chars=" + Decimal(|lines[i]|) + "]"
  {
    hide JoinLines, TotalChars, Decimal;
    var front := lines[..|lines| - 1];
    if i < |front| {
      LinesStored(s, front, parse, i);
      assert front[i] == lines[i];
    } else {
      EarlierStored(s, front, parse);
    }
  }

  lemma {:induction false} EarlierStored<E>(s: State<E>, lines: seq<string>, parse: string -> Parsed<E>)
    ensures var stored := HandleLines(s, lines, parse).stdoutLines;
      |stored| == |s.stdoutLines| + |lines| && s.stdoutLines <= stored
  {
    if lines != [] {
      EarlierStored(s, lines[..|lines| - 1], parse);
    }
  }

  /** Between two reads at most the limit is pending. */
  lemma {:induction false} PendingStaysBounded<E>(chunks: seq<string>, parse: string -> Parsed<E>)
    ensures |ReadChunks(chunks, parse).pending| <= 5_000_000
  {
  }

  lemma {:induction false} BlockCollected<E>(s: State<E>, lines: seq<string>, parse: string -> Parsed<E>)
    requires NeverParses(lines, parse)
    ensures var s' := HandleLines(HandleLine(s, MARKER, parse), lines, parse);
      s'.json == Block(lines) && s'.jsonEvents == s.jsonEvents
  {
    hide JoinLines, TotalChars, HandleLine;
    MarkerOpensBlock(s, parse);
    if lines != [] {
      var front, last := lines[..|lines| - 1], lines[|lines| - 1];
      BlockCollected(s, front, parse);
      assert lines == front + [last];
      CollectLine(HandleLines(HandleLine(s, MARKER, parse), front, parse), front, last, parse);
    }
  }

  // ---------------------------------------------------------------- the reader

  class OpenHandsStdout<E(==)> {
    const parse: string -> Parsed<E>
    var stdoutLines: seq<string>
    var jsonEvents: seq<E>

    constructor (parse: string -> Parsed<E>)
      ensures this.parse == parse && stdoutLines == [] && jsonEvents == []
    {
      this.parse := parse;
      stdoutLines, jsonEvents := [], [];
    }

    ghost function At(pending: string, json: Buffer): State<E>
      reads this
    {
      State(pending, json, stdoutLines, jsonEvents)
    }

    method HandleStdoutLine(line: string, jsonBuffer: Buffer, ghost pending: string) returns (json: Buffer)
      modifies this`stdoutLines, this`jsonEvents
      ensures At(pending, json) == HandleLine(old(At(pending, jsonBuffer)), line, parse)
    {
      stdoutLines := stdoutLines + [TruncateLine(line)];
      if line == MARKER {
        return Block([]);
      }
      if jsonBuffer.Block? {
        var lines := jsonBuffer.lines + [line];
        match parse(JoinLines(lines)) {
          case NotJson =>
            if TotalChars(lines) > MAX_PENDING_LINE_CHARS {
              return NoBlock;
            }
            return Block(lines);
          case NotAnObject =>
            return NoBlock;
          case Object(event) =>
            jsonEvents := jsonEvents + [event];
            return NoBlock;
        }
      }
      match parse(line) {
        case Object(event) => jsonEvents := jsonEvents + [event];
        case _ =>
      }
      json := NoBlock;
    }

    /** Reads until the input ends; `tail` is what the decoder still held. */
    method ReadStdout(chunks: seq<string>, tail: string)
      requires stdoutLines == [] && jsonEvents == []
      modifies this`stdoutLines, this`jsonEvents
      ensures stdoutLines == Read(chunks, tail, parse).stdoutLines
      ensures jsonEvents == Read(chunks, tail, parse).jsonEvents
    {
      hide Feed, HandleLine;
      var lineBuffer, jsonBuffer := "", NoBlock;
      for i := 0 to |chunks|
        invariant At(lineBuffer, jsonBuffer) == ReadChunks(chunks[..i], parse)
        invariant '\n' !in lineBuffer
      {
        ghost var before := ReadChunks(chunks[..i], parse);
        FeedNoNewline(At("", jsonBuffer), lineBuffer, parse);
        assert "" + lineBuffer == lineBuffer;
        FeedConcat(At("", jsonBuffer), lineBuffer, chunks[i], parse);
        lineBuffer := lineBuffer + chunks[i];
        while '\n' in lineBuffer
          invariant Feed(At("", jsonBuffer), lineBuffer, parse) == Feed(before, chunks[i], parse)
          decreases |lineBuffer|
        {
          var cut := FirstNewline(lineBuffer);
          var line := lineBuffer[..cut];
          CutLine(lineBuffer, cut);
          FeedLine(At("", jsonBuffer), line, lineBuffer[cut + 1..], parse);
          lineBuffer := lineBuffer[cut + 1..];
          jsonBuffer := HandleStdoutLine(StripReturns(line), jsonBuffer, "");
        }
        FeedNoNewline(At("", jsonBuffer), lineBuffer, parse);
        assert "" + lineBuffer == lineBuffer;
        assert chunks[..i + 1][..i] == chunks[..i];
        if |lineBuffer| > MAX_PENDING_LINE_CHARS {
          jsonBuffer := HandleStdoutLine(TruncateLine(lineBuffer), NoBlock, "");
          lineBuffer := "";
        }
      }
      assert chunks[..|chunks|] == chunks;
      lineBuffer := lineBuffer + tail;
      if lineBuffer != "" {
        jsonBuffer := HandleStdoutLine(StripReturns(lineBuffer), jsonBuffer, lineBuffer);
      }
    }
  }

  lemma CutLine(text: string, i: nat)
    requires i < |text| && text[i] == '\n'
    ensures text == text[..i] + "\n" + text[i + 1..]
  {
  }

  function FirstNewline(text: string): (i: nat)
    requires '\n' in text
    ensures i < |text| && text[i] == '\n' && '\n' !in text[..i]
  {
    if text[0] == '\n' then 0
    else
      var i := FirstNewline(text[1..]);
      assert text[..1 + i] == [text[0]] + text[1..][..i];
      1 + i
  }
}
