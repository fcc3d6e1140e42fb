/** The longest syntax-valid span of code in an answer (axis_recipe/blackbox_rl/leetcode_verifier.py:33, 205-233). */
module LongestSpan {
  import opened Basics

  const CODE_STARTERS := ["import ", "from ", "class ", "def "]

  /** What the search depends on: the characters that end lines, white space, and the syntax check. */
  datatype Language = Language(isBreak: char -> bool, isSpace: char -> bool, isSyntaxValid: string -> bool) {
    ghost predicate Valid() {
      isBreak('\n') && forall starter, i :: starter in CODE_STARTERS && 0 <= i < |starter| - 1 ==> !isSpace(starter[i])
    }

    predicate IsBlank(line: string) { forall i :: 0 <= i < |line| ==> isSpace(line[i]) }

    function StripLeft(line: string): string {
      if line != "" && isSpace(line[0]) then StripLeft(line[1..]) else line
    }

    predicate IsStarter(line: string) {
      exists k :: 0 <= k < |CODE_STARTERS| && CODE_STARTERS[k] <= StripLeft(line)
    }

    predicate OneLine(line: string) { forall i :: 0 <= i < |line| ==> !isBreak(line[i]) }

    function FirstBreak(text: string): (i: nat)
      ensures i <= |text| && (i < |text| ==> isBreak(text[i])) && forall j :: 0 <= j < i ==> !isBreak(text[j])
    {
      if text == "" || isBreak(text[0]) then 0 else 1 + FirstBreak(text[1..])
    }

    function BreakLength(text: string, i: nat): (n: nat)
      requires i < |text|
      ensures 1 <= n <= |text| - i && (text[i] != '\r' ==> n == 1)
    {
      if i + 1 < |text| && text[i] == '\r' && text[i + 1] == '\n' then 2 else 1
    }

    /** `str.splitlines`: a final line break starts no further line; a carriage return and newline end one line. */
    function SplitLines(text: string): seq<string>
      decreases |text|
    {
      if text == "" then []
      else
        var i := FirstBreak(text);
        if i == |text| then [text]
        else [text[..i]] + SplitLines(text[i + BreakLength(text, i)..])
    }

    function NonblankLines(lines: seq<string>): nat {
      if lines == [] then 0 else NonblankLines(lines[..|lines| - 1]) + (if IsBlank(lines[|lines| - 1]) then 0 else 1)
    }

    function NonemptyLineCount(code: string): nat { NonblankLines(SplitLines(code)) }
  }

  predicate AllOneLine(lang: Language, lines: seq<string>) {
    forall i :: 0 <= i < |lines| ==> lang.OneLine(lines[i])
  }

  // ---------------------------------------------------------------- lines

  lemma {:induction false} SplitLinesAreLines(lang: Language, text: string)
    ensures AllOneLine(lang, lang.SplitLines(text))
    decreases |text|
  {
    if text != "" {
      var i := lang.FirstBreak(text);
      if i < |text| {
        SplitLinesAreLines(lang, text[i + lang.BreakLength(text, i)..]);
      }
    }
  }

  lemma {:induction false} BreakAfter(lang: Language, line: string, rest: string)
    requires lang.OneLine(line) && lang.isBreak('\n')
    ensures lang.FirstBreak(line + "\n" + rest) == |line|
  {
    var text := line + "\n" + rest;
    if line != "" {
      assert text[1..] == line[1..] + "\n" + rest;
      BreakAfter(lang, line[1..], rest);
    }
  }

  lemma SplitFirst(lang: Language, line: string, rest: string)
    requires lang.OneLine(line) && lang.isBreak('\n')
    ensures lang.SplitLines(line + "\n" + rest) == [line] + lang.SplitLines(rest)
  {
    var text := line + "\n" + rest;
    BreakAfter(lang, line, rest);
    assert text[|line|] == '\n' && text[..|line|] == line && text[|line| + 1..] == rest;
  }

  /** At any other line break too; a carriage return and a newline together are one. */
  lemma SplitAtBreak(lang: Language, line: string, c: char, rest: string)
    requires lang.OneLine(line) && lang.isBreak(c)
    ensures c != '\r' || rest == "" || rest[0] != '\n' ==>
              lang.SplitLines(line + [c] + rest) == [line] + lang.SplitLines(rest)
    ensures c == '\r' && rest != "" && rest[0] == '\n' ==>
              lang.SplitLines(line + [c] + rest) == [line] + lang.SplitLines(rest[1..])
  {
    var text := line + [c] + rest;
    FirstBreakAt(lang, text, |line|);
    assert text[..|line|] == line && text[|line| + 1..] == rest;
    assert rest != "" ==> text[|line| + 2..] == rest[1..];
  }

  lemma {:induction false} FirstBreakAt(lang: Language, text: string, i: nat)
    requires i < |text| && lang.isBreak(text[i]) && forall j :: 0 <= j < i ==> !lang.isBreak(text[j])
    ensures lang.FirstBreak(text) == i
  {
  }

  lemma SplitOne(lang: Language, line: string)
    requires lang.OneLine(line)
    ensures lang.SplitLines(line) == if line == "" then [] else [line]
  {
    assert lang.FirstBreak(line) == |line|;
  }

  /** Splitting joined lines gives the lines back, except for an empty last one. */
  lemma {:induction false} SplitJoined(lang: Language, lines: seq<string>)
    requires AllOneLine(lang, lines) && lang.isBreak('\n') && lines != []
    ensures lang.SplitLines(JoinLines(lines)) == if lines[|lines| - 1] == "" then lines[..|lines| - 1] else lines
  {
    hide Language.SplitLines;
    if |lines| == 1 {
      SplitOne(lang, lines[0]);
    } else {
      SplitFirst(lang, lines[0], JoinLines(lines[1..]));
      SplitJoined(lang, lines[1..]);
      assert lines == [lines[0]] + lines[1..];
      assert lines[..|lines| - 1] == [lines[0]] + lines[1..][..|lines| - 2];
    }
  }

  /** So counting the non-blank lines of a joined span is counting them in the list of lines. */
  lemma SpanCount(lang: Language, lines: seq<string>)
    requires AllOneLine(lang, lines) && lang.isBreak('\n')
    ensures lang.NonemptyLineCount(JoinLines(lines)) == lang.NonblankLines(lines)
  {
    if lines != [] {
      SplitJoined(lang, lines);
    }
  }

  lemma {:induction false} CountGrows(lang: Language, lines: seq<string>, more: seq<string>)
    ensures lang.NonblankLines(lines) <= lang.NonblankLines(lines + more)
  {
    if more == [] {
      assert lines + more == lines;
    } else {
      CountGrows(lang, lines, more[..|more| - 1]);
      assert (lines + more)[..|lines| + |more| - 1] == lines + more[..|more| - 1];
    }
  }

  lemma {:induction false} StarterIsNotBlank(lang: Language, line: string)
    requires lang.Valid() && lang.IsStarter(line)
    ensures !lang.IsBlank(line)
  {
    if line != "" && lang.isSpace(line[0]) {
      StarterIsNotBlank(lang, line[1..]);
      assert forall i :: 0 <= i < |line| - 1 ==> line[1..][i] == line[i + 1];
    } else {
      var k :| 0 <= k < |CODE_STARTERS| && CODE_STARTERS[k] <= line;
      assert CODE_STARTERS[k] in CODE_STARTERS && |CODE_STARTERS[k]| > 1;
      assert line[0] == CODE_STARTERS[k][0];
    }
  }

  lemma {:induction false} StripLeftSplits(lang: Language, line: string)
    ensures var n := |line| - |lang.StripLeft(line)|;
      && 0 <= n <= |line| && lang.StripLeft(line) == line[n..] && lang.IsBlank(line[..n])
      && (n < |line| ==> !lang.isSpace(line[n]))
  {
    if line != "" && lang.isSpace(line[0]) {
      StripLeftSplits(lang, line[1..]);
      var n := |line| - |lang.StripLeft(line)|;
      assert line[1..][n - 1..] == line[n..];
      assert forall i :: 0 < i < n ==> line[i] == line[1..][..n - 1][i - 1];
    } else {
      assert line[0..] == line;
    }
  }

  predicate StartsAt(line: string, n: nat, word: string) {
    n + |word| <= |line| && line[n..n + |word|] == word
  }

  predicate BeginsCode(line: string, n: nat) {
    StartsAt(line, n, "import ") || StartsAt(line, n, "from ") || StartsAt(line, n, "class ") ||
        StartsAt(line, n, "def ")
  }

  lemma BeginsWithStarter(lang: Language, line: string, n: nat)
    requires lang.Valid()
    ensures BeginsCode(line, n) <==> exists k :: 0 <= k < |CODE_STARTERS| && StartsAt(line, n, CODE_STARTERS[k])
    ensures BeginsCode(line, n) ==> n < |line| && !lang.isSpace(line[n])
  {
    assert CODE_STARTERS[0] == "import " && CODE_STARTERS[1] == "from " && CODE_STARTERS[2] == "class " &&
        CODE_STARTERS[3] == "def ";
    if k :| 0 <= k < |CODE_STARTERS| && StartsAt(line, n, CODE_STARTERS[k]) {
      assert CODE_STARTERS[k] in CODE_STARTERS && line[n] == CODE_STARTERS[k][0];
    }
  }

  lemma BlankFrontsAgree(lang: Language, line: string, m: nat, n: nat)
    requires m < |line| && lang.IsBlank(line[..m]) && !lang.isSpace(line[m])
    requires n <= |line| && lang.IsBlank(line[..n]) && (n < |line| ==> !lang.isSpace(line[n]))
    ensures m == n
  {
    assert forall j :: 0 <= j < m ==> lang.isSpace(line[..m][j]) && line[..m][j] == line[j];
    assert forall j :: 0 <= j < n ==> lang.isSpace(line[..n][j]) && line[..n][j] == line[j];
  }

  /** A line starts code exactly if only white space precedes one of four words. */
  lemma StarterIff(lang: Language, line: string)
    requires lang.Valid()
    ensures lang.IsStarter(line) <==> exists n: nat :: n <= |line| && lang.IsBlank(line[..n]) && BeginsCode(line, n)
  {
    hide BeginsCode;
    StripLeftSplits(lang, line);
    var n := |line| - |lang.StripLeft(line)|;
    forall k | 0 <= k < |CODE_STARTERS|
      ensures CODE_STARTERS[k] <= lang.StripLeft(line) <==> StartsAt(line, n, CODE_STARTERS[k])
    {
      if n + |CODE_STARTERS[k]| <= |line| {
        assert line[n..][..|CODE_STARTERS[k]|] == line[n..n + |CODE_STARTERS[k]|];
      }
    }
    BeginsWithStarter(lang, line, n);
    if m: nat :| m <= |line| && lang.IsBlank(line[..m]) && BeginsCode(line, m) {
      BeginsWithStarter(lang, line, m);
      BlankFrontsAgree(lang, line, m, n);
    }
  }

  // ---------------------------------------------------------------- the search

  predicate IsSpan(lang: Language, lines: seq<string>, start: nat, end: nat) {
    start < end <= |lines| && lang.IsStarter(lines[start]) && lang.isSyntaxValid(JoinLines(lines[start..end]))
  }

  function Length(lang: Language, lines: seq<string>, start: nat, end: nat): nat
    requires start <= end <= |lines|
  {
    lang.NonblankLines(lines[start..end])
  }

  /**
   A span is no better than one of the given length, start and end: longer wins, then the earlier start, then the
   later end.
   */
  predicate NoBetter(lang: Language, lines: seq<string>, s: nat, e: nat, length: nat, start: nat, end: nat)
    requires s <= e <= |lines|
  {
    && Length(lang, lines, s, e) <= length
    && (Length(lang, lines, s, e) == length ==> start < s || (start == s && e <= end))
  }

  ghost predicate IsBest(lang: Language, lines: seq<string>, start: nat, end: nat) {
    && IsSpan(lang, lines, start, end)
    && forall s: nat, e: nat | IsSpan(lang, lines, s, e) ::
      NoBetter(lang, lines, s, e, Length(lang, lines, start, end), start, end)
  }

  lemma LongerSpan(lang: Language, lines: seq<string>, start: nat, e: nat, end: nat)
    requires start <= e <= end <= |lines|
    ensures Length(lang, lines, start, e) <= Length(lang, lines, start, end)
  {
    assert lines[start..end] == lines[start..e] + lines[e..end];
    CountGrows(lang, lines[start..e], lines[e..end]);
  }

  lemma SpanNotEmpty(lang: Language, lines: seq<string>, start: nat, end: nat)
    requires lang.Valid() && start < end <= |lines| && lang.IsStarter(lines[start])
    ensures Length(lang, lines, start, end) > 0
  {
    StarterIsNotBlank(lang, lines[start]);
    var one := [lines[start]];
    assert lines[start..start + 1] == one && one[..|one| - 1] == [];
    assert lang.NonblankLines(one) == lang.NonblankLines([]) + 1;
    assert Length(lang, lines, start, start + 1) == 1;
    LongerSpan(lang, lines, start, start + 1, end);
  }

  /** What the search has established once every span that starts before `before` has been seen. */
  ghost predicate BestSoFar(lang: Language, lines: seq<string>, best: Option<string>, length: nat, start: nat, end: nat,
          before: nat) {
    && (best.None? ==> length == 0)
    && (best.Some? ==> IsSpan(lang, lines, start, end) && length == Length(lang, lines, start, end)
                       && best.value == JoinLines(lines[start..end]) && start < before)
    && (forall s: nat, e: nat | s < before && IsSpan(lang, lines, s, e) ::
      NoBetter(lang, lines, s, e, length, start, end))
  }

  /** A first valid span longer than the best one, with nothing better later on, is the best so far. */
  lemma NewBest(lang: Language, lines: seq<string>, best: Option<string>, length: nat, start: nat, end: nat, s: nat,
          e: nat)
    requires BestSoFar(lang, lines, best, length, start, end, s)
    requires IsSpan(lang, lines, s, e) && Length(lang, lines, s, e) > length
    requires forall e': nat | e' > e && IsSpan(lang, lines, s, e') :: NoBetter(lang, lines, s, e', length, start, end)
    ensures BestSoFar(lang, lines, Some(JoinLines(lines[s..e])), Length(lang, lines, s, e), s, e, s + 1)
  {
    hide Length, JoinLines;
    forall e': nat | e' <= e && IsSpan(lang, lines, s, e')
      ensures NoBetter(lang, lines, s, e', Length(lang, lines, s, e), s, e)
    {
      LongerSpan(lang, lines, s, e', e);
    }
  }

  method LongestSyntaxValidSpan(lang: Language, text: string) returns (best: Option<string>)
    requires lang.Valid()
    ensures (exists s: nat, e: nat :: IsSpan(lang, lang.SplitLines(text), s, e)) ==> best.Some?
    ensures best.Some? ==> exists s: nat, e: nat ::
      IsBest(lang, lang.SplitLines(text), s, e) && best.value == JoinLines(lang.SplitLines(text)[s..e])
  {
    var lines := lang.SplitLines(text);
    SplitLinesAreLines(lang, text);
    hide Length, JoinLines, Language.SplitLines, Language.NonblankLines, Language.IsStarter, Language.NonemptyLineCount;
    best := None;
    var bestLength := 0;
    ghost var bestStart, bestEnd := 0, 0;
    for start := 0 to |lines|
      invariant BestSoFar(lang, lines, best, bestLength, bestStart, bestEnd, start)
    {
      if !lang.IsStarter(lines[start]) {
        continue;
      }
      var end := |lines|;
      while end > start
        invariant start <= end <= |lines|
        invariant BestSoFar(lang, lines, best, bestLength, bestStart, bestEnd, start)
        invariant forall e: nat | e > end && IsSpan(lang, lines, start, e) ::
                  NoBetter(lang, lines, start, e, bestLength, bestStart, bestEnd)
      {
        var code := JoinLines(lines[start..end]);
        var lineCount := lang.NonemptyLineCount(code);
        SpanCount(lang, lines[start..end]);
        SpanNotEmpty(lang, lines, start, end);
        assert lineCount == Length(lang, lines, start, end) by { LengthIs(lang, lines, start, end); }
        if lineCount > bestLength && lang.isSyntaxValid(code) {
          NewBest(lang, lines, best, bestLength, bestStart, bestEnd, start, end);
          best, bestLength := Some(code), lineCount;
          bestStart, bestEnd := start, end;
          break;
        }
        end := end - 1;
      }
    }
    if s: nat, e: nat :| IsSpan(lang, lines, s, e) {
      SpanNotEmpty(lang, lines, s, e);
      assert best.Some?;
    }
    assert best.Some? ==> IsBest(lang, lines, bestStart, bestEnd);
  }

  lemma LengthIs(lang: Language, lines: seq<string>, start: nat, end: nat)
    requires start <= end <= |lines|
    ensures Length(lang, lines, start, end) == lang.NonblankLines(lines[start..end])
  {
  }
}
