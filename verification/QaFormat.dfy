/**
 The answer format of search-augmented rollouts: splitting a text at its tags, the format automaton, and the
 extraction of the answer (axis_recipe/search_r1/qa_em_format.py:51-126, 144-193).
 */
module QaFormat {
  import opened Basics

  datatype Kind = Think | Search | Information | Answer

  datatype Tag = Tag(kind: Kind, closing: bool) {
    function Literal(): (s: string)
      ensures |s| >= 8 - (if closing then 0 else 1) && s[0] == '<' && forall i :: 0 < i < |s| ==> s[i] != '<'
    {
      match (kind, closing)
      case (Think, false) => "<think>"
      case (Think, true) => "</think>"
      case (Search, false) => "<search>"
      case (Search, true) => "</search>"
      case (Information, false) => "<information>"
      case (Information, true) => "</information>"
      case (Answer, false) => "<answer>"
      case (Answer, true) => "</answer>"
    }
  }

  lemma TagsSpelledOut()
    ensures Tag(Think, false).Literal() == "<think>" && Tag(Think, true).Literal() == "</think>"
    ensures Tag(Search, false).Literal() == "<search>" && Tag(Search, true).Literal() == "</search>"
    ensures Tag(Information, false).Literal() == "<information>"
    ensures Tag(Information, true).Literal() == "</information>"
    ensures Tag(Answer, false).Literal() == "<answer>" && Tag(Answer, true).Literal() == "</answer>"
  {
  }

  predicate StartsWith(text: string, prefix: string) {
    |prefix| <= |text| && text[..|prefix|] == prefix
  }

  /** No two tags start at the same place. */
  lemma TagsArePrefixFree(text: string, s: Tag, t: Tag)
    requires StartsWith(text, s.Literal()) && StartsWith(text, t.Literal())
    ensures s == t
  {
    assert text[1] == s.Literal()[1] == t.Literal()[1] && text[2] == s.Literal()[2] == t.Literal()[2];
  }

  const TAGS := [Tag(Think, false), Tag(Think, true), Tag(Search, false), Tag(Search, true),
                 Tag(Information, false), Tag(Information, true), Tag(Answer, false), Tag(Answer, true)]

  function FirstMatch(text: string, tags: seq<Tag>): (r: Option<Tag>)
    ensures r.Some? ==> StartsWith(text, r.value.Literal())
    ensures r.None? ==> forall t :: t in tags ==> !StartsWith(text, t.Literal())
  {
    if tags == [] then None
    else if StartsWith(text, tags[0].Literal()) then Some(tags[0])
    else FirstMatch(text, tags[1..])
  }

  /** The tag at the front of a text, if any. */
  function FrontTag(text: string): (r: Option<Tag>)
    ensures r.Some? ==> StartsWith(text, r.value.Literal())
  {
    FirstMatch(text, TAGS)
  }

  lemma EveryTagListed(tag: Tag)
    ensures tag in TAGS
  {
    var k := (match tag.kind case Think => 0 case Search => 2 case Information => 4 case Answer => 6) +
        (if tag.closing then 1 else 0);
    assert TAGS[k] == tag;
  }

  lemma FrontTagComplete(text: string, tag: Tag)
    requires StartsWith(text, tag.Literal())
    ensures FrontTag(text) == Some(tag)
  {
    hide FirstMatch;
    EveryTagListed(tag);
    TagsArePrefixFree(text, tag, FrontTag(text).value);
  }

  // ---------------------------------------------------------------- splitting

  datatype Part = Text(text: string) | TagPart(tag: Tag) {
    function Raw(): string { if Text? then text else tag.Literal() }
  }

  /** `re.split` at the tags, keeping them: texts, possibly empty, alternate with tags. */
  function Split(text: string): (parts: seq<Part>)
    ensures parts != [] && parts[0].Text?
    decreases |text|
  {
    if text == "" then [Text("")]
    else
      match FrontTag(text)
      case Some(tag) => AfterTag(tag, Split(text[|tag.Literal()|..]))
      case None => AfterChar(text[0], Split(text[1..]))
  }

  function AfterTag(tag: Tag, parts: seq<Part>): seq<Part> {
    [Text(""), TagPart(tag)] + parts
  }

  function AfterChar(c: char, parts: seq<Part>): seq<Part>
    requires parts != [] && parts[0].Text?
  {
    [Text([c] + parts[0].text)] + parts[1..]
  }

  predicate Alternates(parts: seq<Part>) {
    |parts| % 2 == 1 && forall i :: 0 <= i < |parts| ==> (parts[i].Text? <==> i % 2 == 0)
  }

  lemma AlternatesStep(parts: seq<Part>, tag: Tag, c: char)
    requires Alternates(parts)
    ensures Alternates(AfterTag(tag, parts)) && Alternates(AfterChar(c, parts))
  {
    assert forall i :: 2 <= i < |parts| + 2 ==> AfterTag(tag, parts)[i] == parts[i - 2];
    assert forall i :: 1 <= i < |parts| ==> AfterChar(c, parts)[i] == parts[i];
  }

  lemma {:induction false} SplitAlternates(text: string)
    ensures Alternates(Split(text))
    decreases |text|
  {
    if text != "" {
      hide Alternates, FrontTag, AfterTag, AfterChar;
      match FrontTag(text)
      case Some(tag) =>
        SplitAlternates(text[|tag.Literal()|..]);
        AlternatesStep(Split(text[|tag.Literal()|..]), tag, ' ');
      case None =>
        SplitAlternates(text[1..]);
        AlternatesStep(Split(text[1..]), Tag(Think, false), text[0]);
    }
  }

  function Raw(parts: seq<Part>): string {
    if parts == [] then "" else parts[0].Raw() + Raw(parts[1..])
  }

  lemma RawTag(tag: Tag, parts: seq<Part>)
    ensures Raw(AfterTag(tag, parts)) == tag.Literal() + Raw(parts)
  {
    var all := AfterTag(tag, parts);
    assert all[1..][1..] == parts;
    assert "" + Raw(all[1..]) == Raw(all[1..]);
  }

  lemma RawChar(c: char, parts: seq<Part>)
    requires parts != [] && parts[0].Text?
    ensures Raw(AfterChar(c, parts)) == [c] + Raw(parts)
  {
    assert AfterChar(c, parts)[1..] == parts[1..];
    assert [c] + (parts[0].text + Raw(parts[1..])) == [c] + parts[0].text + Raw(parts[1..]);
  }

  /** Splitting loses nothing. */
  lemma {:induction false} SplitRoundTrip(text: string)
    ensures Raw(Split(text)) == text
    decreases |text|
  {
    if text != "" {
      hide Raw, FrontTag, AfterTag, AfterChar;
      match FrontTag(text)
      case Some(tag) =>
        SplitRoundTrip(text[|tag.Literal()|..]);
        RawTag(tag, Split(text[|tag.Literal()|..]));
        assert text == tag.Literal() + text[|tag.Literal()|..];
      case None =>
        SplitRoundTrip(text[1..]);
        RawChar(text[0], Split(text[1..]));
    } else {
      assert Raw([Text("")]) == "" + Raw([]);
    }
  }

  /** `re.findall` of a literal tag. */
  function Occurrences(text: string, tag: Tag): nat
    decreases |text|
  {
    if text == "" then 0
    else if StartsWith(text, tag.Literal()) then 1 + Occurrences(text[|tag.Literal()|..], tag)
    else Occurrences(text[1..], tag)
  }

  function TagCount(parts: seq<Part>, tag: Tag): nat {
    if parts == [] then 0 else (if parts[0] == TagPart(tag) then 1 else 0) + TagCount(parts[1..], tag)
  }

  /** Inside a tag no other tag starts. */
  lemma {:induction false} SkipInside(text: string, n: nat, tag: Tag)
    requires n <= |text| && forall i :: 0 <= i < n ==> text[i] != '<'
    ensures Occurrences(text, tag) == Occurrences(text[n..], tag)
    decreases n
  {
    if n == 0 {
      assert text[0..] == text;
    } else {
      SkipInside(text[1..], n - 1, tag);
      assert text[1..][n - 1..] == text[n..];
      assert !StartsWith(text, tag.Literal()) by { assert text[0] != tag.Literal()[0]; }
    }
  }

  /** Counting a tag in the text is counting it among the parts. */
  lemma {:induction false} OccurrencesAreParts(text: string, tag: Tag)
    ensures Occurrences(text, tag) == TagCount(Split(text), tag)
    decreases |text|
  {
    hide Tag.Literal;
    if text != "" {
      match FrontTag(text)
      case Some(front) =>
        var n := |front.Literal()|;
        OccurrencesAreParts(text[n..], tag);
        assert AfterTag(front, Split(text[n..]))[1..][1..] == Split(text[n..]);
        if StartsWith(text, tag.Literal()) {
          FrontTagComplete(text, tag);
        } else {
          assert forall i :: 0 < i < n ==> text[i] == front.Literal()[i];
          SkipInside(text[1..], n - 1, tag);
          assert text[1..][n - 1..] == text[n..];
        }
      case None =>
        OccurrencesAreParts(text[1..], tag);
        if StartsWith(text, tag.Literal()) {
          FrontTagComplete(text, tag);
        }
        assert AfterChar(text[0], Split(text[1..]))[1..] == Split(text[1..])[1..];
    }
  }

  // ---------------------------------------------------------------- the automaton

  datatype State =
    | Start | InThink | AfterThink | InSearch | AfterSearch | InInformation | AfterInformation | InAnswer | End
  {
    predicate AllowsContent() { this in {InThink, InSearch, InInformation, InAnswer} }
  }

  function Transition(s: State, tag: Tag): Option<State> {
    match (s, tag)
    case (Start, Tag(Think, false)) => Some(InThink)
    case (AfterInformation, Tag(Think, false)) => Some(InThink)
    case (InThink, Tag(Think, true)) => Some(AfterThink)
    case (AfterThink, Tag(Search, false)) => Some(InSearch)
    case (InSearch, Tag(Search, true)) => Some(AfterSearch)
    case (AfterSearch, Tag(Information, false)) => Some(InInformation)
    case (InInformation, Tag(Information, true)) => Some(AfterInformation)
    case (AfterThink, Tag(Answer, false)) => Some(InAnswer)
    case (InAnswer, Tag(Answer, true)) => Some(End)
    case _ => None
  }

  /** Which characters are white space is left open, except that a tag's first one is not. */
  predicate Blank(text: string, isSpace: char -> bool) {
    forall i :: 0 <= i < |text| ==> isSpace(text[i])
  }

  /** A gap is blank exactly if stripping it would leave nothing. */
  lemma BlankExactly(text: string, isSpace: char -> bool)
    ensures Blank(text, isSpace) <==> !exists i :: 0 <= i < |text| && !isSpace(text[i])
  {
  }

  function Step(s: State, part: Part, isSpace: char -> bool): Option<State> {
    if Blank(part.Raw(), isSpace) then Some(s)
    else if part.TagPart? then Transition(s, part.tag)
    else if s.AllowsContent() then Some(s)
    else None
  }

  /** The state after some parts, or none if one of them was rejected. */
  function Run(s: State, parts: seq<Part>, isSpace: char -> bool): Option<State>
    decreases |parts|
  {
    if parts == [] then Some(s)
    else
      match Step(s, parts[0], isSpace)
      case None => None
      case Some(next) => Run(next, parts[1..], isSpace)
  }

  predicate Accepts(parts: seq<Part>, isSpace: char -> bool) {
    Run(Start, parts, isSpace) == Some(End)
  }

  // ---------------------------------------------------------------- the intended format

  /** A blank gap followed by one tagged block. */
  datatype Block = Block(gap: string, content: string) {
    function Parts(kind: Kind): seq<Part> {
      [Text(gap), TagPart(Tag(kind, false)), Text(content), TagPart(Tag(kind, true))]
    }
  }

  datatype Turn = Turn(think: Block, search: Block, information: Block) {
    function Parts(): seq<Part> {
      think.Parts(Think) + search.Parts(Search) + information.Parts(Information)
    }

    predicate BlankGaps(isSpace: char -> bool) {
      Blank(think.gap, isSpace) && Blank(search.gap, isSpace) && Blank(information.gap, isSpace)
    }
  }

  /** Any number of think, search, information turns, then a last think and the answer. */
  datatype Document = Document(turns: seq<Turn>, think: Block, answer: Block, trailing: string) {
    function Parts(): seq<Part>
      decreases |turns|
    {
      if turns == [] then think.Parts(Think) + answer.Parts(Answer) + [Text(trailing)]
      else turns[0].Parts() + this.(turns := turns[1..]).Parts()
    }

    predicate BlankGaps(isSpace: char -> bool) {
      && (forall k :: 0 <= k < |turns| ==> turns[k].BlankGaps(isSpace))
      && Blank(think.gap, isSpace) && Blank(answer.gap, isSpace) && Blank(trailing, isSpace)
    }
  }

  // ---------------------------------------------------------------- the automaton accepts exactly that format

  function Opened(s: State, kind: Kind): Option<State> { Transition(s, Tag(kind, false)) }

  function Closed(s: State, kind: Kind): Option<State> {
    match Opened(s, kind) case None => None case Some(inside) => Transition(inside, Tag(kind, true))
  }

  lemma TagsAreNotBlank(tag: Tag, isSpace: char -> bool)
    requires !isSpace('<')
    ensures !Blank(tag.Literal(), isSpace)
  {
    assert tag.Literal()[0] == '<';
  }

  lemma RunCons(s: State, part: Part, rest: seq<Part>, isSpace: char -> bool)
    ensures Run(s, [part] + rest, isSpace)
      == match Step(s, part, isSpace) case None => None case Some(next) => Run(next, rest, isSpace)
  {
    assert ([part] + rest)[1..] == rest;
  }

  /** A well-placed block takes the automaton over it. */
  lemma RunBlock(s: State, kind: Kind, block: Block, rest: seq<Part>, isSpace: char -> bool)
    requires !isSpace('<') && Blank(block.gap, isSpace) && Closed(s, kind).Some?
    ensures Run(s, block.Parts(kind) + rest, isSpace) == Run(Closed(s, kind).value, rest, isSpace)
  {
    hide Run;
    var inside := Opened(s, kind).value;
    var open, close := TagPart(Tag(kind, false)), TagPart(Tag(kind, true));
    TagsAreNotBlank(open.tag, isSpace);
    TagsAreNotBlank(close.tag, isSpace);
    assert block.Parts(kind) + rest == [Text(block.gap)] + ([open] + ([Text(block.content)] + ([close] + rest)));
    RunCons(s, Text(block.gap), [open] + ([Text(block.content)] + ([close] + rest)), isSpace);
    RunCons(s, open, [Text(block.content)] + ([close] + rest), isSpace);
    RunCons(inside, Text(block.content), [close] + rest, isSpace);
    RunCons(inside, close, rest, isSpace);
  }

  lemma LastParts(doc: Document)
    requires doc.turns == []
    ensures doc.Parts() == doc.think.Parts(Think) + (doc.answer.Parts(Answer) + [Text(doc.trailing)])
  {
  }

  lemma TurnParts(doc: Document)
    requires doc.turns != []
    ensures var turn := doc.turns[0];
      doc.Parts() == turn.think.Parts(Think)
        + (turn.search.Parts(Search) + (turn.information.Parts(Information) + doc.(turns := doc.turns[1..]).Parts()))
  {
    hide Block.Parts;
  }

  lemma {:induction false} FormatAccepted(doc: Document, s: State, isSpace: char -> bool)
    requires !isSpace('<') && doc.BlankGaps(isSpace) && (s == Start || s == AfterInformation)
    ensures Run(s, doc.Parts(), isSpace) == Some(End)
    decreases |doc.turns|
  {
    hide Run, Block.Parts, Turn.Parts, Document.Parts;
    if doc.turns == [] {
      LastParts(doc);
      RunBlock(s, Think, doc.think, doc.answer.Parts(Answer) + [Text(doc.trailing)], isSpace);
      RunBlock(AfterThink, Answer, doc.answer, [Text(doc.trailing)], isSpace);
      RunCons(End, Text(doc.trailing), [], isSpace);
      RunNothing(End, isSpace);
      assert [Text(doc.trailing)] + [] == [Text(doc.trailing)];
    } else {
      var turn, rest := doc.turns[0], doc.(turns := doc.turns[1..]);
      FormatAccepted(rest, AfterInformation, isSpace);
      TurnParts(doc);
      RunBlock(s, Think, turn.think, turn.search.Parts(Search) + (turn.information.Parts(Information) + rest.Parts()),
          isSpace);
      RunBlock(AfterThink, Search, turn.search, turn.information.Parts(Information) + rest.Parts(), isSpace);
      RunBlock(AfterSearch, Information, turn.information, rest.Parts(), isSpace);
    }
  }

  lemma RunFirst(s: State, parts: seq<Part>, isSpace: char -> bool)
    requires parts != [] && Run(s, parts, isSpace).Some?
    ensures Step(s, parts[0], isSpace).Some?
    ensures Run(Step(s, parts[0], isSpace).value, parts[1..], isSpace) == Run(s, parts, isSpace)
  {
  }

  lemma GapStates(s: State)
    requires s in {Start, AfterThink, AfterSearch, AfterInformation}
    ensures s != End && !s.AllowsContent()
  {
  }

  lemma InsideStates(s: State, open: Tag)
    requires s in {Start, AfterThink, AfterSearch, AfterInformation} && Transition(s, open).Some?
    ensures Transition(s, open).value != End
  {
  }

  lemma BlockTags(s: State, open: Tag, close: Tag)
    requires s in {Start, AfterThink, AfterSearch, AfterInformation}
    requires Transition(s, open).Some? && Transition(Transition(s, open).value, close).Some?
    ensures open == Tag(open.kind, false) && close == Tag(open.kind, true)
    ensures Closed(s, open.kind) == Transition(Transition(s, open).value, close)
  {
  }

  lemma FirstFour(parts: seq<Part>)
    requires |parts| >= 4
    ensures parts == [parts[0], parts[1], parts[2], parts[3]] + parts[4..]
  {
  }

  /** Between blocks, an accepting run must go through exactly one more block. */
  lemma NextBlock(s: State, parts: seq<Part>, isSpace: char -> bool) returns (kind: Kind, block: Block, rest: seq<Part>)
    requires !isSpace('<') && Alternates(parts) && Run(s, parts, isSpace) == Some(End)
    requires s in {Start, AfterThink, AfterSearch, AfterInformation}
    ensures Blank(block.gap, isSpace) && Closed(s, kind).Some?
    ensures parts == block.Parts(kind) + rest && |rest| < |parts| && Alternates(rest)
    ensures Run(Closed(s, kind).value, rest, isSpace) == Some(End)
  {
    hide Run, Transition, Blank, Alternates, Closed, State.AllowsContent;
    GapStates(s);
    var inside := NextTag(s, parts, isSpace);
    InsideStates(s, parts[1].tag);
    var after := NextTag(inside, parts[2..], isSpace);
    BlockTags(s, parts[1].tag, parts[3].tag);
    kind, block, rest := parts[1].tag.kind, Block(parts[0].text, parts[2].text), parts[4..];
    assert parts[2..][2..] == rest;
    FirstFour(parts);
  }

  /** Away from the end, an accepting run must read a text and then a tag. */
  lemma NextTag(s: State, parts: seq<Part>, isSpace: char -> bool) returns (next: State)
    requires !isSpace('<') && Alternates(parts) && Run(s, parts, isSpace) == Some(End) && s != End
    ensures |parts| >= 3 && parts[0].Text? && parts[1].TagPart? && Transition(s, parts[1].tag) == Some(next)
    ensures !s.AllowsContent() ==> Blank(parts[0].text, isSpace)
    ensures Alternates(parts[2..]) && Run(next, parts[2..], isSpace) == Some(End)
  {
    hide Run;
    RunFirst(s, parts, isSpace);
    RunNothing(s, isSpace);
    assert parts[1..] != [];
    RunFirst(s, parts[1..], isSpace);
    TagsAreNotBlank(parts[1].tag, isSpace);
    next := Transition(s, parts[1].tag).value;
    assert parts[1..][1..] == parts[2..];
  }

  lemma RunNothing(s: State, isSpace: char -> bool)
    ensures Run(s, [], isSpace) == Some(s)
  {
  }

  lemma NothingAfterTheEnd(parts: seq<Part>, isSpace: char -> bool)
    requires !isSpace('<') && Alternates(parts) && Run(End, parts, isSpace) == Some(End)
    ensures |parts| == 1 && parts[0].Text? && Blank(parts[0].text, isSpace)
  {
    hide Run;
    RunFirst(End, parts, isSpace);
    if |parts| > 1 {
      TagsAreNotBlank(parts[1].tag, isSpace);
      RunFirst(End, parts[1..], isSpace);
    }
  }

  lemma {:induction false} AcceptedHasFormat(parts: seq<Part>, s: State, isSpace: char -> bool) returns (doc: Document)
    requires !isSpace('<') && Alternates(parts) && Run(s, parts, isSpace) == Some(End)
    requires s == Start || s == AfterInformation
    ensures doc.BlankGaps(isSpace) && doc.Parts() == parts
    decreases |parts|
  {
    hide Run, Block.Parts, Turn.Parts, Document.Parts;
    var kind, think, rest := NextBlock(s, parts, isSpace);
    var kind', block, rest' := NextBlock(AfterThink, rest, isSpace);
    if kind' == Answer {
      NothingAfterTheEnd(rest', isSpace);
      doc := Document([], think, block, rest'[0].text);
      LastParts(doc);
      assert rest' == [Text(doc.trailing)];
    } else {
      var kind'', information, rest'' := NextBlock(AfterSearch, rest', isSpace);
      var tail := AcceptedHasFormat(rest'', AfterInformation, isSpace);
      var turn := Turn(think, block, information);
      doc := tail.(turns := [turn] + tail.turns);
      assert doc.turns[1..] == tail.turns;
      assert doc.(turns := doc.turns[1..]) == tail;
      TurnParts(doc);
    }
  }

  // ---------------------------------------------------------------- counts

  lemma {:induction false} TagCountConcat(a: seq<Part>, b: seq<Part>, tag: Tag)
    ensures TagCount(a + b, tag) == TagCount(a, tag) + TagCount(b, tag)
  {
    if a == [] {
      assert a + b == b;
    } else {
      TagCountConcat(a[1..], b, tag);
      assert (a + b)[1..] == a[1..] + b;
    }
  }

  lemma BlockCount(block: Block, kind: Kind, tag: Tag)
    ensures TagCount(block.Parts(kind), tag) == if tag.kind == kind then 1 else 0
  {
    var parts := block.Parts(kind);
    assert parts[1..][1..] == parts[2..] && parts[2..][1..] == parts[3..];
    assert TagCount(parts[3..], tag) == if tag == Tag(kind, true) then 1 else 0;
    assert TagCount(parts[2..], tag) == TagCount(parts[3..], tag);
    assert TagCount(parts[1..], tag) == (if tag == Tag(kind, false) then 1 else 0) + TagCount(parts[2..], tag);
  }

  /** How often a tag occurs in a well-formed text: the closing ones exactly as often as the opening ones. */
  lemma {:induction false} FormatCount(doc: Document, tag: Tag)
    ensures TagCount(doc.Parts(), tag) ==
      match tag.kind case Think => |doc.turns| + 1 case Answer => 1 case _ => |doc.turns|
    decreases |doc.turns|
  {
    hide TagCount, Block.Parts, Turn.Parts, Document.Parts;
    if doc.turns == [] {
      LastParts(doc);
      BlockCount(doc.think, Think, tag);
      BlockCount(doc.answer, Answer, tag);
      TextHasNoTags(doc.trailing, tag);
      TagCountConcat(doc.think.Parts(Think), doc.answer.Parts(Answer) + [Text(doc.trailing)], tag);
      TagCountConcat(doc.answer.Parts(Answer), [Text(doc.trailing)], tag);
    } else {
      var turn, rest := doc.turns[0], doc.(turns := doc.turns[1..]);
      FormatCount(rest, tag);
      TurnParts(doc);
      BlockCount(turn.think, Think, tag);
      BlockCount(turn.search, Search, tag);
      BlockCount(turn.information, Information, tag);
      TagCountConcat(turn.think.Parts(Think),
          turn.search.Parts(Search) + (turn.information.Parts(Information) + rest.Parts()), tag);
      TagCountConcat(turn.search.Parts(Search), turn.information.Parts(Information) + rest.Parts(), tag);
      TagCountConcat(turn.information.Parts(Information), rest.Parts(), tag);
    }
  }

  lemma TextHasNoTags(text: string, tag: Tag)
    ensures TagCount([Text(text)], tag) == 0
  {
  }

  predicate Balanced(text: string, kind: Kind) {
    Occurrences(text, Tag(kind, false)) == Occurrences(text, Tag(kind, true))
  }

  /** A text that the automaton accepts passes the count check, so that check alone never rejects a text. */
  lemma AcceptedIsBalanced(text: string, kind: Kind, isSpace: char -> bool)
    requires !isSpace('<') && Accepts(Split(text), isSpace)
    ensures Balanced(text, kind)
    ensures Occurrences(text, Tag(Answer, false)) == 1
  {
    SplitAlternates(text);
    var doc := AcceptedHasFormat(Split(text), Start, isSpace);
    FormatCount(doc, Tag(kind, false));
    FormatCount(doc, Tag(kind, true));
    FormatCount(doc, Tag(Answer, false));
    OccurrencesAreParts(text, Tag(kind, false));
    OccurrencesAreParts(text, Tag(kind, true));
    OccurrencesAreParts(text, Tag(Answer, false));
  }

  /** What the format check promises, said without its automaton. */
  ghost predicate WellFormed(text: string, isSpace: char -> bool) {
    exists doc: Document :: doc.BlankGaps(isSpace) && doc.Parts() == Split(text)
  }

  lemma AcceptedIffWellFormed(text: string, isSpace: char -> bool)
    requires !isSpace('<')
    ensures Accepts(Split(text), isSpace) <==> WellFormed(text, isSpace)
  {
    if Accepts(Split(text), isSpace) {
      SplitAlternates(text);
      var doc := AcceptedHasFormat(Split(text), Start, isSpace);
    }
    if WellFormed(text, isSpace) {
      var doc: Document :| doc.BlankGaps(isSpace) && doc.Parts() == Split(text);
      FormatAccepted(doc, Start, isSpace);
    }
  }

  lemma {:induction false} RunPrefix(s: State, parts: seq<Part>, k: nat, isSpace: char -> bool)
    requires k < |parts|
    ensures Run(s, parts[..k + 1], isSpace)
      == match Run(s, parts[..k], isSpace) case None => None case Some(mid) => Step(mid, parts[k], isSpace)
    ensures Run(s, parts[..k + 1], isSpace).None? ==> Run(s, parts, isSpace).None?
    decreases k
  {
    if k == 0 {
      assert parts[..1][1..] == [];
    } else {
      assert parts[..k + 1][1..] == parts[1..][..k] && parts[..k][1..] == parts[1..][..k - 1];
      if Step(s, parts[0], isSpace).Some? {
        RunPrefix(Step(s, parts[0], isSpace).value, parts[1..], k - 1, isSpace);
      }
    }
  }

  /** The check as it is coded accepts exactly the well-formed texts. */
  method IsValidSequence(text: string, isSpace: char -> bool) returns (ok: bool)
    requires !isSpace('<')
    ensures ok <==> WellFormed(text, isSpace)
  {
    AcceptedIffWellFormed(text, isSpace);
    var tagsToCheck := [Think, Search, Information, Answer];
    for i := 0 to |tagsToCheck| {
      var openingCount := Occurrences(text, Tag(tagsToCheck[i], false));
      var closingCount := Occurrences(text, Tag(tagsToCheck[i], true));
      if openingCount != closingCount {
        if Accepts(Split(text), isSpace) {
          AcceptedIsBalanced(text, tagsToCheck[i], isSpace);
        }
        return false;
      }
    }
    var parts := Split(text);
    var state := Start;
    for k := 0 to |parts|
      invariant Run(Start, parts[..k], isSpace) == Some(state)
    {
      var part := parts[k];
      RunPrefix(Start, parts, k, isSpace);
      if Blank(part.Raw(), isSpace) {
        continue;
      }
      if part.TagPart? {
        var nextState := Transition(state, part.tag);
        if nextState.None? {
          return false;
        }
        state := nextState.value;
      } else if state.AllowsContent() {
        continue;
      } else {
        return false;
      }
    }
    assert parts[..|parts|] == parts;
    ok := state == End;
  }

  // ---------------------------------------------------------------- extracting the answer

  /** Position of the first occurrence of a tag. */
  function Find(text: string, tag: Tag): (r: Option<nat>)
    ensures r.Some? ==> r.value + |tag.Literal()| <= |text|
  {
    if text == "" then None
    else if StartsWith(text, tag.Literal()) then Some(0)
    else match Find(text[1..], tag) case None => None case Some(i) => Some(i + 1)
  }

  const OPEN := Tag(Answer, false)
  const CLOSE := Tag(Answer, true)

  /** The matches of the lazy pattern between an opening and the next closing answer tag, left to right. */
  function Answers(text: string): seq<string>
    decreases |text|
  {
    match Find(text, OPEN)
    case None => []
    case Some(i) =>
      var rest := text[i + |OPEN.Literal()|..];
      match Find(rest, CLOSE)
      case None => []
      case Some(j) => [rest[..j]] + Answers(rest[j + |CLOSE.Literal()|..])
  }

  function FirstTag(parts: seq<Part>, tag: Tag): (k: nat)
    ensures k <= |parts| && (k < |parts| ==> parts[k] == TagPart(tag))
  {
    if parts == [] || parts[0] == TagPart(tag) then 0 else 1 + FirstTag(parts[1..], tag)
  }

  lemma FindPastOne(text: string, tag: Tag)
    requires text != "" && text[0] != '<'
    ensures Find(text, tag) == match Find(text[1..], tag) case None => None case Some(i) => Some(i + 1)
  {
    assert !StartsWith(text, tag.Literal()) by { assert text[0] != tag.Literal()[0]; }
  }

  lemma {:induction false} FindPastInside(text: string, n: nat, tag: Tag)
    requires n <= |text| && forall i :: 0 <= i < n ==> text[i] != '<'
    ensures Find(text, tag) == match Find(text[n..], tag) case None => None case Some(i) => Some(i + n)
    decreases n
  {
    hide Find;
    if n == 0 {
      assert text[0..] == text;
    } else {
      FindPastInside(text[1..], n - 1, tag);
      assert text[1..][n - 1..] == text[n..];
      FindPastOne(text, tag);
    }
  }

  /**
   Where the text search finds a tag is where the parts have it, and what follows splits into the parts that follow.
   */
  ghost predicate FoundAt(text: string, tag: Tag) {
    var parts := Split(text);
    var k := FirstTag(parts, tag);
    if k == |parts| then Find(text, tag) == None
    else
      && Find(text, tag) == Some(|Raw(parts[..k])|)
      && |Raw(parts[..k])| + |tag.Literal()| <= |text|
      && Split(text[|Raw(parts[..k])| + |tag.Literal()|..]) == parts[k + 1..]
  }

  lemma FirstTagAfterTag(front: Tag, rest: seq<Part>, tag: Tag)
    requires front != tag
    ensures var (parts, k) := (AfterTag(front, rest), FirstTag(rest, tag));
      FirstTag(parts, tag) == k + 2 && |parts| == |rest| + 2 && parts[..k + 2] == AfterTag(front, rest[..k])
      && (k < |rest| ==> parts[k + 3..] == rest[k + 1..])
  {
    var parts := AfterTag(front, rest);
    assert parts[1..][1..] == rest;
    assert FirstTag(parts[1..], tag) == 1 + FirstTag(rest, tag);
  }

  lemma FirstTagAfterChar(c: char, rest: seq<Part>, tag: Tag)
    requires rest != [] && rest[0].Text?
    ensures var (parts, k) := (AfterChar(c, rest), FirstTag(rest, tag));
      FirstTag(parts, tag) == k > 0 && |parts| == |rest| && parts[..k] == AfterChar(c, rest[..k])
      && (k < |rest| ==> parts[k + 1..] == rest[k + 1..])
  {
    assert AfterChar(c, rest)[1..] == rest[1..];
  }

  lemma FindAfterTag(text: string, front: Tag, tag: Tag)
    requires StartsWith(text, front.Literal()) && front != tag
    ensures var n := |front.Literal()|;
      Find(text, tag) == match Find(text[n..], tag) case None => None case Some(i) => Some(n + i)
  {
    hide Tag.Literal, Find;
    var n := |front.Literal()|;
    if StartsWith(text, tag.Literal()) {
      TagsArePrefixFree(text, front, tag);
    }
    FindAfterChar(text, tag);
    assert forall i :: 0 < i < n ==> text[i] == front.Literal()[i];
    FindPastInside(text[1..], n - 1, tag);
    assert text[1..][n - 1..] == text[n..];
  }

  lemma FindAfterChar(text: string, tag: Tag)
    requires text != "" && !StartsWith(text, tag.Literal())
    ensures Find(text, tag) == match Find(text[1..], tag) case None => None case Some(i) => Some(i + 1)
  {
  }

  lemma FoundAfterTag(text: string, front: Tag, tag: Tag)
    requires StartsWith(text, front.Literal()) && Split(text) == AfterTag(front, Split(text[|front.Literal()|..])) &&
            front != tag
    requires FoundAt(text[|front.Literal()|..], tag)
    ensures FoundAt(text, tag)
  {
    hide Raw, FirstTag, Find, Split, AfterTag, AfterChar, Tag.Literal;
    var n := |front.Literal()|;
    var rest := Split(text[n..]);
    var k := FirstTag(rest, tag);
    FindAfterTag(text, front, tag);
    FirstTagAfterTag(front, rest, tag);
    if k < |rest| {
      RawTag(front, rest[..k]);
      var p := |Raw(rest[..k])| + |tag.Literal()|;
      assert text[n..][p..] == text[n + p..];
    }
  }

  lemma FoundAfterChar(text: string, tag: Tag)
    requires text != "" && Split(text) == AfterChar(text[0], Split(text[1..])) && !StartsWith(text, tag.Literal())
    requires FoundAt(text[1..], tag)
    ensures FoundAt(text, tag)
  {
    hide Raw, FirstTag, Find, Split, AfterTag, AfterChar, Tag.Literal, StartsWith;
    FindAfterChar(text, tag);
    var rest := Split(text[1..]);
    var k := FirstTag(rest, tag);
    FirstTagAfterChar(text[0], rest, tag);
    if k < |rest| {
      RawChar(text[0], rest[..k]);
      var p := |Raw(rest[..k])| + |tag.Literal()|;
      assert text[1..][p..] == text[1 + p..];
    }
  }

  lemma {:induction false} FindIsFirstTag(text: string, tag: Tag)
    ensures FoundAt(text, tag)
    decreases |text|
  {
    if text == "" {
      assert [Text("")][1..] == [];
    } else {
      match FrontTag(text)
      case Some(front) =>
        FindIsFirstTag(text[|front.Literal()|..], tag);
        if front == tag {
          FoundInFront(text, tag);
        } else {
          FoundAfterTag(text, front, tag);
        }
      case None =>
        FindIsFirstTag(text[1..], tag);
        if StartsWith(text, tag.Literal()) {
          FrontTagComplete(text, tag);
        }
        FoundAfterChar(text, tag);
    }
  }

  lemma FoundInFront(text: string, tag: Tag)
    requires text != "" && StartsWith(text, tag.Literal()) &&
            Split(text) == AfterTag(tag, Split(text[|tag.Literal()|..]))
    ensures FoundAt(text, tag)
  {
    var parts := Split(text);
    assert parts[0] != TagPart(tag) && parts[1] == TagPart(tag);
    assert FirstTag(parts[1..], tag) == 0;
    assert parts[..1] == [Text("")];
    assert Raw(parts[..1]) == "" + Raw([]) by { assert parts[..1][1..] == []; }
    assert parts[2..] == Split(text[|tag.Literal()|..]);
  }

  /** The parts before the answer. */
  function Front(doc: Document): seq<Part>
    decreases |doc.turns|
  {
    if doc.turns == [] then doc.think.Parts(Think) + [Text(doc.answer.gap)]
      else doc.turns[0].Parts() + Front(doc.(turns := doc.turns[1..]))
  }

  function AnswerParts(doc: Document): seq<Part> {
    [TagPart(OPEN), Text(doc.answer.content), TagPart(CLOSE), Text(doc.trailing)]
  }

  lemma {:induction false} PartsAroundAnswer(doc: Document)
    ensures doc.Parts() == Front(doc) + AnswerParts(doc)
    decreases |doc.turns|
  {
    if doc.turns == [] {
      assert doc.answer.Parts(Answer) == [Text(doc.answer.gap)] +
          [TagPart(OPEN), Text(doc.answer.content), TagPart(CLOSE)];
      LastParts(doc);
    } else {
      PartsAroundAnswer(doc.(turns := doc.turns[1..]));
    }
  }

  lemma {:induction false} FirstTagConcat(a: seq<Part>, b: seq<Part>, tag: Tag)
    requires TagCount(a, tag) == 0
    ensures FirstTag(a + b, tag) == |a| + FirstTag(b, tag)
  {
    if a == [] {
      assert a + b == b;
    } else {
      FirstTagConcat(a[1..], b, tag);
      assert (a + b)[1..] == a[1..] + b;
    }
  }

  lemma NoAnswerBefore(doc: Document)
    ensures TagCount(Front(doc), OPEN) == 0
    ensures FirstTag(doc.Parts(), OPEN) == |Front(doc)|
  {
    FormatCount(doc, OPEN);
    PartsAroundAnswer(doc);
    TagCountConcat(Front(doc), AnswerParts(doc), OPEN);
    FirstTagConcat(Front(doc), AnswerParts(doc), OPEN);
  }

  /** In a well-formed text the search finds exactly one answer: the content of the answer block. */
  lemma WellFormedHasOneAnswer(text: string, doc: Document)
    requires doc.Parts() == Split(text)
    ensures Answers(text) == [doc.answer.content]
  {
    hide TagCount, Block.Parts, Turn.Parts, Document.Parts, Front, FirstTag, Split, Raw, Find, Tag.Literal;
    var parts, k := Split(text), |Front(doc)|;
    PartsAroundAnswer(doc);
    NoAnswerBefore(doc);
    FindIsFirstTag(text, OPEN);
    var rest := text[|Raw(parts[..k])| + |OPEN.Literal()|..];
    assert Split(rest) == [Text(doc.answer.content), TagPart(CLOSE), Text(doc.trailing)];
    AnswerThenEnd(rest, doc.answer.content, doc.trailing);
  }

  lemma AnswerThenEnd(rest: string, content: string, trailing: string)
    requires Split(rest) == [Text(content), TagPart(CLOSE), Text(trailing)]
    ensures Find(rest, CLOSE) == Some(|content|) && rest[..|content|] == content
    ensures Answers(rest[|content| + |CLOSE.Literal()|..]) == []
  {
    var parts := Split(rest);
    SplitRoundTrip(rest);
    FindIsFirstTag(rest, CLOSE);
    assert parts[1..][0] == TagPart(CLOSE) && FirstTag(parts, CLOSE) == 1;
    assert parts[..1] == [Text(content)] && Raw([Text(content)]) == content + Raw([]) by {
      assert [Text(content)][1..] == [];
    }
    assert Raw(parts) == content + Raw(parts[1..]);
    var end := rest[|content| + |CLOSE.Literal()|..];
    assert Split(end) == [Text(trailing)];
    FindIsFirstTag(end, OPEN);
    assert [Text(trailing)][1..] == [] && FirstTag([Text(trailing)], OPEN) == 1;
  }

  // ---------------------------------------------------------------- which answer is extracted

  /** The last match, stripped. */
  function ExtractSolution(text: string, strip: string -> string): Option<string> {
    var matches := Answers(text);
    if |matches| < 1 then None else Some(strip(matches[|matches| - 1]))
  }

  predicate Occurs(text: string, i: nat, literal: string) {
    i + |literal| <= |text| && text[i..i + |literal|] == literal
  }

  /** No opening answer tag of the text is followed by a closing one. */
  ghost predicate NoAnswer(text: string) {
    forall i: nat, j: nat :: Occurs(text, i, "<answer>") && Occurs(text, j, "</answer>") ==> j < i + 8
  }

  /** Every opening answer tag of the text is followed by a closing one. */
  ghost predicate AllClosed(text: string) {
    forall i: nat :: Occurs(text, i, "<answer>") ==> exists j: nat :: i + 8 <= j && Occurs(text, j, "</answer>")
  }

  /** The text around its last answer: what precedes the block leaves none open, and no block follows. */
  ghost predicate LastAnswer(text: string, pre: string, answer: string, post: string) {
    && text == pre + "<answer>" + answer + "</answer>" + post
    && (forall k: nat :: !Occurs(answer, k, "</answer>"))
    && AllClosed(pre) && NoAnswer(post)
  }

  lemma {:induction false} FindIsFirst(text: string, tag: Tag)
    ensures Find(text, tag).None? ==> forall k: nat :: !Occurs(text, k, tag.Literal())
    ensures Find(text, tag).Some? ==>
              && Occurs(text, Find(text, tag).value, tag.Literal())
              && forall k :: 0 <= k < Find(text, tag).value ==> !Occurs(text, k, tag.Literal())
    decreases |text|
  {
    hide Tag.Literal;
    if text != "" && !StartsWith(text, tag.Literal()) {
      FindIsFirst(text[1..], tag);
      forall k | k > 0
        ensures Occurs(text, k, tag.Literal()) <==> Occurs(text[1..], k - 1, tag.Literal())
      {
        OccursDrop(text, 1, k - 1, tag.Literal());
      }
    }
  }

  lemma OccursDrop(text: string, n: nat, k: nat, literal: string)
    requires n <= |text|
    ensures Occurs(text[n..], k, literal) <==> Occurs(text, n + k, literal)
  {
    if n + k + |literal| <= |text| {
      assert text[n..][k..k + |literal|] == text[n + k..n + k + |literal|];
    }
  }

  /** In front of a '<' every tag ends before it or starts after it. */
  lemma NoTagAcross(front: string, back: string, k: nat, tag: Tag)
    requires back != "" && back[0] == '<' && k < |front|
    ensures Occurs(front + back, k, tag.Literal()) <==> Occurs(front, k, tag.Literal())
  {
    var literal := tag.Literal();
    if k + |literal| <= |front| {
      assert front[k..k + |literal|] == (front + back)[k..k + |literal|];
    } else if k + |literal| <= |front + back| {
      assert (front + back)[k..k + |literal|][|front| - k] == '<' && literal[|front| - k] != '<';
    }
  }

  lemma FindOpen(text: string)
    ensures Find(text, OPEN).None? ==> forall k: nat :: !Occurs(text, k, "<answer>")
    ensures Find(text, OPEN).Some? ==>
              && Find(text, OPEN).value + 8 <= |text| && Occurs(text, Find(text, OPEN).value, "<answer>")
              && forall k :: 0 <= k < Find(text, OPEN).value ==> !Occurs(text, k, "<answer>")
  {
    FindIsFirst(text, OPEN);
  }

  lemma FindClose(text: string)
    ensures Find(text, CLOSE).None? ==> forall k: nat :: !Occurs(text, k, "</answer>")
    ensures Find(text, CLOSE).Some? ==>
              && Find(text, CLOSE).value + 9 <= |text| && Occurs(text, Find(text, CLOSE).value, "</answer>")
              && forall k :: 0 <= k < Find(text, CLOSE).value ==> !Occurs(text, k, "</answer>")
  {
    FindIsFirst(text, CLOSE);
  }

  /** The first answer and the answers after it. */
  lemma FirstAnswer(text: string, i: nat, j: nat)
    requires Find(text, OPEN) == Some(i) && i + 8 <= |text|
    requires Find(text[i + 8..], CLOSE) == Some(j) && j + 9 <= |text[i + 8..]|
    ensures Answers(text) == [text[i + 8..][..j]] + Answers(text[i + 8..][j + 9..])
  {
    hide Find;
  }

  lemma NeverClosed(text: string, i: nat)
    requires Find(text, OPEN) == Some(i) && i + 8 <= |text| && Find(text[i + 8..], CLOSE).None?
    ensures Answers(text) == []
  {
    hide Find;
  }

  lemma NoAnswerIff(text: string)
    ensures NoAnswer(text) <==> Answers(text) == []
  {
    hide Find, Answers, Occurs, NoAnswer;
    FindOpen(text);
    if Find(text, OPEN).None? {
      NoOpening(text);
    } else {
      var i := Find(text, OPEN).value;
      var rest := text[i + 8..];
      FindClose(rest);
      if Find(rest, CLOSE).None? {
        NeverClosed(text, i);
      } else {
        FirstAnswer(text, i, Find(rest, CLOSE).value);
      }
      FirstOpeningDecides(text, i, rest);
    }
  }

  lemma NoOpening(text: string)
    requires Find(text, OPEN).None?
    ensures NoAnswer(text) && Answers(text) == []
  {
    hide Find, Occurs;
    FindOpen(text);
  }

  /** An opening tag is followed by a closing one exactly if the first opening tag is. */
  lemma FirstOpeningDecides(text: string, i: nat, rest: string)
    requires Occurs(text, i, "<answer>") && forall k :: 0 <= k < i ==> !Occurs(text, k, "<answer>")
    requires i + 8 <= |text| && rest == text[i + 8..]
    ensures NoAnswer(text) <==> forall k: nat :: !Occurs(rest, k, "</answer>")
  {
    hide Occurs;
    forall k: nat
      ensures Occurs(rest, k, "</answer>") <==> Occurs(text, i + 8 + k, "</answer>")
    {
      ClosingAfter(text, i, k);
    }
    if NoAnswer(text) {
      assert forall k: nat :: Occurs(rest, k, "</answer>") ==> i + 8 + k < i + 8;
    } else {
      var i': nat, j: nat :| Occurs(text, i', "<answer>") && Occurs(text, j, "</answer>") && j >= i' + 8;
      assert Occurs(rest, j - (i + 8), "</answer>");
    }
  }

  lemma ClosingAfter(text: string, i: nat, k: nat)
    requires Occurs(text, i, "<answer>")
    ensures i + 8 <= |text|
    ensures Occurs(text[i + 8..], k, "</answer>") <==> Occurs(text, i + 8 + k, "</answer>")
  {
    OccursDrop(text, i + 8, k, "</answer>");
  }

  /** Where the search for the first answer of `pre + "<answer>" + back` goes when `pre` holds an answer itself. */
  lemma FirstAnswerInside(pre: string, back: string) returns (i: nat, j: nat)
    requires AllClosed(pre) && back != "" && back[0] == '<' && Find(pre + back, OPEN).Some?
    requires Find(pre + back, OPEN).value < |pre|
    ensures i == Find(pre + back, OPEN).value && i + 8 + j + 9 <= |pre|
    ensures Find((pre + back)[i + 8..], CLOSE) == Some(j)
    ensures (pre + back)[i + 8..][j + 9..] == pre[i + 8 + j + 9..] + back
    ensures AllClosed(pre[i + 8 + j + 9..])
  {
    hide Find, Occurs, AllClosed;
    var text := pre + back;
    FindOpen(text);
    i := Find(text, OPEN).value;
    j := ClosedInside(pre, back, i);
    SuffixAllClosed(pre, i + 8 + j + 9);
    assert text[i + 8..][j + 9..] == text[i + 8 + j + 9..];
  }

  /** The first closing tag after an opening one in `pre` is in `pre`, too. */
  lemma ClosedInside(pre: string, back: string, i: nat) returns (j: nat)
    requires AllClosed(pre) && back != "" && back[0] == '<'
    requires i < |pre| && Occurs(pre + back, i, "<answer>")
    ensures i + 8 + j + 9 <= |pre| && Find((pre + back)[i + 8..], CLOSE) == Some(j)
  {
    hide Find;
    NoTagAcross(pre, back, i, OPEN);
    var j' :| i + 8 <= j' && Occurs(pre, j', "</answer>");
    NoTagAcross(pre, back, j', CLOSE);
    FirstClosing(pre + back, i + 8, j');
    j := Find((pre + back)[i + 8..], CLOSE).value;
    NoTagAcross(pre, back, i + 8 + j, CLOSE);
  }

  lemma FirstClosing(text: string, n: nat, j': nat)
    requires n <= j' && Occurs(text, j', "</answer>")
    ensures n <= |text| && Find(text[n..], CLOSE).Some? && n + Find(text[n..], CLOSE).value <= j'
    ensures Occurs(text, n + Find(text[n..], CLOSE).value, "</answer>")
  {
    hide Find;
    OccursDrop(text, n, j' - n, "</answer>");
    FindClose(text[n..]);
    OccursDrop(text, n, Find(text[n..], CLOSE).value, "</answer>");
  }

  lemma SuffixAllClosed(pre: string, n: nat)
    requires AllClosed(pre) && n <= |pre|
    ensures AllClosed(pre[n..])
  {
    forall i: nat | Occurs(pre[n..], i, "<answer>")
      ensures exists j: nat :: i + 8 <= j && Occurs(pre[n..], j, "</answer>")
    {
      OccursDrop(pre, n, i, "<answer>");
      var j: nat :| n + i + 8 <= j && Occurs(pre, j, "</answer>");
      OccursDrop(pre, n, j - n, "</answer>");
      assert Occurs(pre[n..], j - n, "</answer>");
    }
  }

  /** An answer without a closing tag inside is found whole. */
  lemma AnswerInFront(answer: string, post: string)
    requires forall k: nat :: !Occurs(answer, k, "</answer>")
    ensures Find(answer + "</answer>" + post, CLOSE) == Some(|answer|)
  {
    hide Find;
    var back := "</answer>" + post;
    var rest := answer + back;
    assert rest == answer + "</answer>" + post;
    assert Occurs(rest, |answer|, "</answer>");
    FindClose(rest);
    var k := Find(rest, CLOSE).value;
    if k < |answer| {
      NoTagAcross(answer, back, k, CLOSE);
    }
  }

  /** With nothing open before it and nothing after it, an answer is the only match. */
  lemma AnswerAlone(pre: string, answer: string, post: string)
    requires LastAnswer(pre + "<answer>" + answer + "</answer>" + post, pre, answer, post)
    requires Find(pre + "<answer>" + answer + "</answer>" + post, OPEN) == Some(|pre|)
    ensures Answers(pre + "<answer>" + answer + "</answer>" + post) == [answer]
  {
    hide Find, Answers, NoAnswer, AllClosed;
    var text := pre + "<answer>" + answer + "</answer>" + post;
    var rest := text[|pre| + 8..];
    assert rest == answer + "</answer>" + post;
    AnswerInFront(answer, post);
    FirstAnswer(text, |pre|, |answer|);
    assert rest[..|answer|] == answer;
    assert rest[|answer| + 9..] == post;
    NoAnswerIff(post);
  }

  lemma OpeningFound(pre: string, back: string)
    requires StartsWith(back, "<answer>")
    ensures Find(pre + back, OPEN).Some? && Find(pre + back, OPEN).value <= |pre|
  {
    FindOpen(pre + back);
    assert (pre + back)[|pre|..|pre| + 8] == back[..8];
    assert Occurs(pre + back, |pre|, "<answer>");
  }

  /** The matches of a text with a last answer end with it. */
  lemma {:induction false} LastAnswerIsLast(pre: string, answer: string, post: string)
    requires LastAnswer(pre + "<answer>" + answer + "</answer>" + post, pre, answer, post)
    ensures var matches := Answers(pre + "<answer>" + answer + "</answer>" + post);
      matches != [] && matches[|matches| - 1] == answer
    decreases |pre|
  {
    hide Find, NoAnswer, AllClosed, Answers, Occurs;
    var back := "<answer>" + answer + "</answer>" + post;
    assert pre + "<answer>" + answer + "</answer>" + post == pre + back;
    assert StartsWith(back, "<answer>");
    OpeningFound(pre, back);
    if Find(pre + back, OPEN).value < |pre| {
      var i, j := FirstAnswerInside(pre, back);
      var rest := pre[i + 8 + j + 9..];
      assert rest + back == rest + "<answer>" + answer + "</answer>" + post;
      LastAnswerIsLast(rest, answer, post);
      FirstAnswer(pre + back, i, j);
    } else {
      AnswerAlone(pre, answer, post);
    }
  }

  /** For every text: the content of its last answer is extracted. */
  lemma LastAnswerExtracted(text: string, strip: string -> string, pre: string, answer: string, post: string)
    requires LastAnswer(text, pre, answer, post)
    ensures ExtractSolution(text, strip) == Some(strip(answer))
  {
    hide Answers, NoAnswer, AllClosed, Occurs;
    assert text == pre + "<answer>" + answer + "</answer>" + post;
    LastAnswerIsLast(pre, answer, post);
  }

  /** For every text: nothing is extracted exactly if no opening answer tag is followed by a closing one. */
  lemma NoSolutionIff(text: string, strip: string -> string)
    ensures ExtractSolution(text, strip) == None <==> NoAnswer(text)
  {
    hide NoAnswer, Answers;
    NoAnswerIff(text);
  }

  /** Every text with an answer has a last one, so the two statements above settle what is extracted. */
  lemma {:induction false} SomeLastAnswer(text: string) returns (pre: string, answer: string, post: string)
    requires !NoAnswer(text)
    ensures LastAnswer(text, pre, answer, post)
    decreases |text|
  {
    hide NoAnswer, AllClosed, Occurs, LastAnswer;
    var first, tail;
    pre, first, tail := SplitFirst(text);
    if NoAnswer(tail) {
      answer, post := first, tail;
      FirstIsLast(text, pre, first, tail);
    } else {
      var pre';
      pre', answer, post := SomeLastAnswer(tail);
      LastOfRest(text, pre, first, tail, pre', answer, post);
      pre := pre + "<answer>" + first + "</answer>" + pre';
    }
  }

  /** The text around its first answer. */
  ghost predicate FirstSplit(text: string, pre: string, first: string, tail: string) {
    && text == pre + "<answer>" + first + "</answer>" + tail
    && (forall k: nat :: !Occurs(pre, k, "<answer>"))
    && (forall k: nat :: !Occurs(first, k, "</answer>"))
  }

  lemma SplitFirst(text: string) returns (pre: string, first: string, tail: string)
    requires !NoAnswer(text)
    ensures FirstSplit(text, pre, first, tail)
  {
    hide NoAnswer, Find, Occurs;
    var i, rest, j := FirstMatchAt(text);
    pre, first, tail := text[..i], rest[..j], rest[j + 9..];
    NotInPrefix(text, i, "<answer>");
    NotInPrefix(rest, j, "</answer>");
    SplitAt(text, i, "<answer>");
    SplitAt(rest, j, "</answer>");
    assert text == pre + "<answer>" + (first + "</answer>" + tail);
  }

  lemma SplitAt(text: string, i: nat, literal: string)
    requires Occurs(text, i, literal)
    ensures i + |literal| <= |text| && text == text[..i] + literal + text[i + |literal|..]
  {
  }

  lemma FirstMatchAt(text: string) returns (i: nat, rest: string, j: nat)
    requires !NoAnswer(text)
    ensures Occurs(text, i, "<answer>") && forall k :: 0 <= k < i ==> !Occurs(text, k, "<answer>")
    ensures i + 8 <= |text| && rest == text[i + 8..] && j + 9 <= |rest|
    ensures Occurs(rest, j, "</answer>") && forall k :: 0 <= k < j ==> !Occurs(rest, k, "</answer>")
  {
    hide NoAnswer, Find, Occurs;
    NoAnswerIff(text);
    FindOpen(text);
    i := Find(text, OPEN).value;
    rest := text[i + 8..];
    FindClose(rest);
    if Find(rest, CLOSE).None? {
      NeverClosed(text, i);
      assert false;
    }
    j := Find(rest, CLOSE).value;
  }

  lemma NotInPrefix(text: string, n: nat, literal: string)
    requires n <= |text| && forall k :: 0 <= k < n ==> !Occurs(text, k, literal)
    requires literal != ""
    ensures forall k: nat :: !Occurs(text[..n], k, literal)
  {
    forall k: nat
      ensures !Occurs(text[..n], k, literal)
    {
      if k + |literal| <= n {
        assert text[..n][k..k + |literal|] == text[k..k + |literal|];
        assert !Occurs(text, k, literal);
      }
    }
  }

  lemma FirstIsLast(text: string, pre: string, first: string, tail: string)
    requires FirstSplit(text, pre, first, tail) && NoAnswer(tail)
    ensures LastAnswer(text, pre, first, tail)
  {
    hide NoAnswer, Occurs;
  }

  lemma LastOfRest(text: string, pre: string, first: string, tail: string, pre': string, answer: string, post: string)
    requires FirstSplit(text, pre, first, tail) && LastAnswer(tail, pre', answer, post)
    ensures LastAnswer(text, pre + "<answer>" + first + "</answer>" + pre', answer, post)
  {
    hide NoAnswer, AllClosed, Occurs;
    PrependAnswer(pre, first, pre');
  }

  /** A whole answer in front, with nothing open before it, leaves nothing open. */
  lemma PrependAnswer(pre: string, first: string, more: string)
    requires (forall k: nat :: !Occurs(pre, k, "<answer>")) && AllClosed(more)
    ensures AllClosed(pre + "<answer>" + first + "</answer>" + more)
  {
    hide Occurs;
    var front := pre + "<answer>" + first;
    var all := front + "</answer>" + more;
    var m := |front| + 9;
    ClosingAt(front, more);
    forall k: nat | Occurs(all, k, "<answer>")
      ensures exists j: nat :: k + 8 <= j && Occurs(all, j, "</answer>")
    {
      if k >= m {
        assert all[m..] == more;
        OccursDrop(all, m, k - m, "<answer>");
        var j: nat :| k - m + 8 <= j && Occurs(more, j, "</answer>");
        OccursDrop(all, m, j, "</answer>");
        assert Occurs(all, m + j, "</answer>");
      } else {
        BeforeClosing(all, k, |front|);
      }
    }
  }

  lemma ClosingAt(front: string, more: string)
    ensures Occurs(front + "</answer>" + more, |front|, "</answer>")
  {
    var all := front + "</answer>" + more;
    assert all[|front|..|front| + 9] == "</answer>";
  }

  /** An opening tag that starts before the end of a closing one ends before that starts. */
  lemma BeforeClosing(text: string, k: nat, c: nat)
    requires Occurs(text, k, "<answer>") && Occurs(text, c, "</answer>") && k < c + 9
    ensures k + 8 <= c
  {
    assert text[k..k + 8][0] == '<' && text[k..k + 8][1] == 'a' && text[c..c + 9][0] == '<' && text[c..c + 9][1] == '/';
    assert forall x :: k < x < k + 8 ==> text[x] == text[k..k + 8][x - k] != '<';
    assert forall x :: c < x < c + 9 ==> text[x] == text[c..c + 9][x - c] != '<';
  }

  lemma WellFormedHasSolution(text: string, isSpace: char -> bool, strip: string -> string)
    requires WellFormed(text, isSpace)
    ensures ExtractSolution(text, strip).Some?
    ensures exists doc: Document ::
      doc.BlankGaps(isSpace) && doc.Parts() == Split(text) &&
          ExtractSolution(text, strip) == Some(strip(doc.answer.content))
  {
    var doc: Document :| doc.BlankGaps(isSpace) && doc.Parts() == Split(text);
    WellFormedHasOneAnswer(text, doc);
    assert ExtractSolution(text, strip) == Some(strip(doc.answer.content));
  }

  // ---------------------------------------------------------------- scoring

  /**
   The score. Matching against the expected answers and against the retrieved passages is left open. A well-formed
   text always has an answer, so the source's score for a well-formed text without one is never given.
   */
  method ComputeScoreEm(text: string, isSpace: char -> bool, strip: string -> string, emCheck: string -> bool,
          isRetrievalCorrect: string -> bool, structureFormatScore: real, finalFormatScore: real, retrievalScore: real,
          score: real)
    returns (result: real)
    requires !isSpace('<')
    ensures WellFormed(text, isSpace) ==> !NoAnswer(text)
    ensures NoAnswer(text) ==> result == 0.0
    ensures forall pre, answer, post :: LastAnswer(text, pre, answer, post) && WellFormed(text, isSpace) ==>
              result == if emCheck(strip(answer)) then score
                        else structureFormatScore + (if isRetrievalCorrect(text) then retrievalScore else 0.0)
    ensures forall pre, answer, post :: LastAnswer(text, pre, answer, post) && !WellFormed(text, isSpace) ==>
              result == if emCheck(strip(answer)) then score - structureFormatScore else finalFormatScore
  {
    hide LastAnswer, NoAnswer, WellFormed, ExtractSolution;
    var isValidFormat := IsValidSequence(text, isSpace);
    var retrievalCorrect := false;
    if isValidFormat {
      WellFormedHasSolution(text, isSpace, strip);
      retrievalCorrect := isRetrievalCorrect(text);
    }
    var answer := ExtractSolution(text, strip);
    NoSolutionIff(text, strip);
    forall pre, content, post | LastAnswer(text, pre, content, post)
      ensures answer == Some(strip(content))
    {
      LastAnswerExtracted(text, strip, pre, content, post);
    }
    if answer.None? {
      assert !isValidFormat;
      return 0.0;
    }
    if emCheck(answer.value) {
      return if isValidFormat then score else score - structureFormatScore;
    }
    if !isValidFormat {
      return finalFormatScore;
    }
    result := if retrievalCorrect then structureFormatScore + retrievalScore else structureFormatScore;
  }
}
