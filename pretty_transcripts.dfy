/** What the pretty-format parser does with the transcripts the test
    harness prints: a `running 0 tests` header gives no events, the number of
    events is the number of result lines, and a transcript rendered from a
    list of `(name, status)` results is parsed back into exactly those
    results, in order. */
module PrettyTranscripts {
  import opened Wrappers
  import opened JsStrings
  import opened PrettyParser

  // ---------------------------------------------------------------------
  // Small facts about the scanning helpers

  /** A digit run that ends at `j` ends at `j`. */
  lemma {:induction false} DigitsEndAt(s: string, i: nat, j: nat)
    requires i <= j < |s|
    requires forall k :: i <= k < j ==> IsDigit(s[k])
    requires !IsDigit(s[j])
    ensures DigitsEnd(s, i) == j
    decreases j - i
  {
    if i < j {
      DigitsEndAt(s, i + 1, j);
    }
  }

  /** The first newline of `h + t`, when `h` has none and `t` starts with one. */
  lemma FirstNewlineAfter(h: string, t: string)
    requires '\n' !in h && t != [] && t[0] == '\n'
    ensures IndexOf(h + t, "\n", 0) == |h|
  {
    var s := h + t;
    IndexOfChar(s, '\n', 0);
    forall k | 0 <= k < |h|
      ensures s[k] != '\n'
    {
      assert s[k] == h[k] && h[k] in h;
    }
    assert s[|h|] == '\n';
  }

  // ---------------------------------------------------------------------
  // `running 0 tests`

  /** A transcript whose first header, wherever the search finds it, has
      the line `running 0 tests` yields no events, whatever surrounds it. */
  lemma ZeroTestsAtFirstHeader(testIdPrefix: string, output: string, stateOf: string -> string, p: nat)
    requires RunningHeaderAt(output, p) && forall j :: 0 <= j < p ==> !RunningHeaderAt(output, j)
    requires Substring(output, p, IndexOf(output, "\n", p)) == ZeroTestsSummary
    ensures ParseTestCaseResultPrettyOutput(testIdPrefix, output, stateOf) == []
  {
    ParseFromFirstHeader(testIdPrefix, output, stateOf, p);
  }

  /** In particular, a transcript whose first line is `running 0 tests`
      yields no events, whatever follows it. */
  lemma ZeroTestsYieldNothing(testIdPrefix: string, output: string, stateOf: string -> string)
    requires StartsWith(output, ZeroTestsSummary + "\n")
    ensures ParseTestCaseResultPrettyOutput(testIdPrefix, output, stateOf) == []
  {
    var tail := output[15..];
    assert output[..16] == ZeroTestsSummary + "\n";
    assert output[..15] == Header("0") by {
      assert output[..15] == output[..16][..15];
    }
    assert output == Header("0") + tail by {
      assert output == output[..15] + tail;
    }
    assert tail[0] == output[..16][15] == '\n';
    HeaderFound("0", tail);
    HeaderLineEnd("0", tail);
    assert SearchRunningHeader(output, 0) == 0;
    assert Substring(output, 0, IndexOf(output, "\n", 0)) == ZeroTestsSummary;
    ZeroTestsAtFirstHeader(testIdPrefix, output, stateOf, 0);
  }

  /** The same when the transcript opens with an empty line, as the test
      binary's own standard output does. */
  lemma ZeroTestsAfterEmptyLine(testIdPrefix: string, output: string, stateOf: string -> string)
    requires StartsWith(output, "\n" + ZeroTestsSummary + "\n")
    ensures ParseTestCaseResultPrettyOutput(testIdPrefix, output, stateOf) == []
  {
    var h := "\n" + ZeroTestsSummary + "\n";
    assert output[..17] == h;
    forall k | 0 <= k < 17
      ensures output[k] == h[k]
    {
      assert output[k] == output[..17][k];
    }
    assert output[1..9] == "running ";
    assert DigitsEnd(output, 9) == 10;
    assert output[10..15] == " test";
    assert !OccursAt(output, "running ", 0) by {
      assert output[0..8][0] == '\n';
    }
    forall j | 1 <= j < 16
      ensures !OccursAt(output, "\n", j)
    {
      assert output[j..j + 1][0] == output[j];
    }
    assert OccursAt(output, "\n", 16) by {
      assert output[16..17] == [output[16]];
    }
    IndexOfIs(output, "\n", 1, 16);
    assert output[1..16] == ZeroTestsSummary;
    ZeroTestsAtFirstHeader(testIdPrefix, output, stateOf, 1);
  }

  // ---------------------------------------------------------------------
  // The number of events

  lemma TestLineSeparatorSelfDisjoint()
    ensures SelfDisjoint(TestLineSeparator)
  {
    assert TestLineSeparator[1..] == "test ";
  }

  /** Past the `running 0 tests` short-circuit, there is one event per
      occurrence of `\ntest ` in the block of result lines, and that block
      is the text after the header line up to the first blank line. */
  lemma EventCount(testIdPrefix: string, output: string, start: nat, stateOf: string -> string)
    requires start <= |output|
    ensures var endIndex := IndexOf(output, "\n", start);
      var block := ResultsBlock(output, endIndex);
      var rest := SubstringFrom(output, endIndex);
      Substring(output, start, endIndex) != ZeroTestsSummary ==>
        |TestEventResults(testIdPrefix, output, start, stateOf)| == Count(block, TestLineSeparator)
        && !Includes(block, "\n\n") && rest[..|block|] == block
  {
    var endIndex := IndexOf(output, "\n", start);
    TestLineSeparatorSelfDisjoint();
    SplitCount(ResultsBlock(output, endIndex), TestLineSeparator);
    SplitHead(SubstringFrom(output, endIndex), "\n\n");
  }

  // ---------------------------------------------------------------------
  // Rendering and parsing back

  /** A result the harness prints on one line: a name without spaces or
      newlines, and a one-word status. */
  predicate PlainResult(r: (string, string)) {
    ' ' !in r.0 && '\n' !in r.0 && r.1 != "" && ' ' !in r.1 && '\n' !in r.1
  }

  /** The text of one result line after its leading `test `. */
  function LineText(r: (string, string)): string {
    r.0 + ResultSeparator + r.1
  }

  /** The result lines, each introduced by `\ntest `. */
  function RenderResults(rs: seq<(string, string)>): string {
    if rs == [] then "" else TestLineSeparator + (LineText(rs[0]) + RenderResults(rs[1..]))
  }

  /** A whole transcript: header, result lines, a blank line, and anything
      after it (failure details, the summary). */
  function Transcript(count: string, rs: seq<(string, string)>, rest: string): string {
    "running " + count + " tests" + RenderResults(rs) + "\n\n" + rest
  }

  /** Every newline is followed by a `t`. */
  predicate NewlinesBeforeT(s: string) {
    forall j :: 0 <= j < |s| && s[j] == '\n' ==> j + 1 < |s| && s[j + 1] == 't'
  }

  lemma NewlinesBeforeTConcat(a: string, b: string)
    requires NewlinesBeforeT(a) && NewlinesBeforeT(b)
    ensures NewlinesBeforeT(a + b)
  {
    var s := a + b;
    forall j | 0 <= j < |s| && s[j] == '\n'
      ensures j + 1 < |s| && s[j + 1] == 't'
    {
      if j < |a| {
        assert a[j] == '\n';
      } else {
        assert b[j - |a|] == '\n';
      }
    }
  }

  lemma LineHasNoNewline(r: (string, string))
    requires PlainResult(r)
    ensures '\n' !in LineText(r)
  {
  }

  lemma {:induction false} RenderedNewlines(rs: seq<(string, string)>)
    requires forall i :: 0 <= i < |rs| ==> PlainResult(rs[i])
    ensures NewlinesBeforeT(RenderResults(rs))
  {
    if rs != [] {
      var w := "test " + LineText(rs[0]);
      LineHasNoNewline(rs[0]);
      var head := TestLineSeparator + LineText(rs[0]);
      assert head == "\n" + w;
      forall j | 0 < j < |head|
        ensures head[j] != '\n'
      {
        assert head[j] == w[j - 1];
        assert w[j - 1] in w;
      }
      assert head[1] == 't';
      RenderedNewlines(rs[1..]);
      NewlinesBeforeTConcat(head, RenderResults(rs[1..]));
    }
  }

  /** No blank line occurs inside the rendered result lines. */
  lemma NoBlankLineInResults(rs: seq<(string, string)>, rest: string)
    requires forall i :: 0 <= i < |rs| ==> PlainResult(rs[i])
    ensures var r := RenderResults(rs);
      forall j :: 0 <= j < |r| ==> !OccursAt(r + "\n\n" + rest, "\n\n", j)
  {
    var r := RenderResults(rs);
    RenderedNewlines(rs);
    var s := r + "\n\n" + rest;
    forall j | 0 <= j < |r|
      ensures !OccursAt(s, "\n\n", j)
    {
      assert s[j] == r[j];
      if r[j] == '\n' {
        assert j + 1 < |r| && r[j + 1] == 't';
        assert s[j + 1] == r[j + 1];
        assert s[j..j + 2][1] == s[j + 1];
      } else {
        assert s[j..j + 2][0] == s[j];
      }
    }
  }

  /** The line texts of the results. */
  function LineTexts(rs: seq<(string, string)>): seq<string> {
    if rs == [] then [] else [LineText(rs[0])] + LineTexts(rs[1..])
  }

  /** The line texts are those of the results, one by one. */
  lemma {:induction false} LineTextsAt(rs: seq<(string, string)>)
    ensures |LineTexts(rs)| == |rs|
    ensures forall i :: 0 <= i < |rs| ==> LineTexts(rs)[i] == LineText(rs[i])
  {
    if rs != [] {
      LineTextsAt(rs[1..]);
      assert forall i :: 1 <= i < |rs| ==> rs[1..][i - 1] == rs[i];
    }
  }

  /** One result line and the lines after it split into that line's text
      and the split of the rest. */
  lemma SplitRenderedStep(rs: seq<(string, string)>)
    requires |rs| >= 2 && PlainResult(rs[0])
    ensures Split(LineText(rs[0]) + RenderResults(rs[1..]), TestLineSeparator)
      == [LineText(rs[0])] + Split(LineText(rs[1]) + RenderResults(rs[2..]), TestLineSeparator)
  {
    var tail := rs[1..];
    var rest := LineText(rs[1]) + RenderResults(rs[2..]);
    assert tail[0] == rs[1] && tail[1..] == rs[2..];
    assert RenderResults(tail) == TestLineSeparator + rest;
    ConcatAssoc(LineText(rs[0]), TestLineSeparator, rest);
    LineHasNoNewline(rs[0]);
    SplitAfterHead(LineText(rs[0]), TestLineSeparator, rest);
  }

  /** Splitting what follows the first `\ntest ` gives the line texts. */
  lemma {:induction false} SplitRenderedTail(rs: seq<(string, string)>)
    requires rs != []
    requires forall i :: 0 <= i < |rs| ==> PlainResult(rs[i])
    ensures Split(LineText(rs[0]) + RenderResults(rs[1..]), TestLineSeparator) == LineTexts(rs)
    decreases |rs|
  {
    if |rs| == 1 {
      LineHasNoNewline(rs[0]);
      assert RenderResults(rs[1..]) == "";
      assert LineText(rs[0]) + "" == LineText(rs[0]);
      SplitWithoutFirstChar(LineText(rs[0]), TestLineSeparator);
      assert LineTexts(rs) == [LineText(rs[0])];
    } else {
      var tail := rs[1..];
      SplitRenderedStep(rs);
      assert tail[0] == rs[1] && tail[1..] == rs[2..];
      SplitRenderedTail(tail);
    }
  }

  /** The rendered result lines split into an empty head and the line texts. */
  lemma SplitRendered(rs: seq<(string, string)>)
    requires forall i :: 0 <= i < |rs| ==> PlainResult(rs[i])
    ensures Split(RenderResults(rs), TestLineSeparator) == [""] + LineTexts(rs)
  {
    if rs == [] {
      SplitEmpty(TestLineSeparator);
      AppendEmpty([""]);
    } else {
      SplitRenderedNonEmpty(rs);
    }
  }

  lemma SplitRenderedNonEmpty(rs: seq<(string, string)>)
    requires rs != []
    requires forall i :: 0 <= i < |rs| ==> PlainResult(rs[i])
    ensures Split(RenderResults(rs), TestLineSeparator) == [""] + LineTexts(rs)
  {
    var tail := LineText(rs[0]) + RenderResults(rs[1..]);
    assert RenderResults(rs) == TestLineSeparator + tail;
    SplitAtStart(TestLineSeparator, tail);
    SplitRenderedTail(rs);
  }

  /** The header line of a transcript with `count` tests. */
  function Header(count: string): string {
    "running " + count + " tests"
  }

  /** The header is recognised at the start of the transcript. */
  lemma HeaderFound(count: string, tail: string)
    requires forall i :: 0 <= i < |count| ==> IsDigit(count[i])
    ensures SearchRunningHeader(Header(count) + tail, 0) == 0
  {
    var t := Header(count) + tail;
    assert t[..8] == "running ";
    forall k | 8 <= k < 8 + |count|
      ensures IsDigit(t[k])
    {
      assert t[k] == count[k - 8];
    }
    assert t[8 + |count|] == ' ';
    DigitsEndAt(t, 8, 8 + |count|);
    assert t[8 + |count|..8 + |count| + 5] == " test";
    assert RunningHeaderAt(t, 0);
  }

  /** The header holds no newline. */
  lemma HeaderHasNoNewline(count: string)
    requires forall i :: 0 <= i < |count| ==> IsDigit(count[i])
    ensures '\n' !in Header(count)
  {
    var h := Header(count);
    forall k | 0 <= k < |h|
      ensures h[k] != '\n'
    {
      if 8 <= k < 8 + |count| {
        assert h[k] == count[k - 8];
      }
    }
  }

  /** A header whose count is not `0` is not the zero-tests header. */
  lemma HeaderNotZero(count: string)
    requires count != "0" && forall i :: 0 <= i < |count| ==> IsDigit(count[i])
    ensures Header(count) != ZeroTestsSummary
  {
    var h := Header(count);
    if |count| == 1 {
      assert count[0] != '0' by { assert count == [count[0]]; }
      assert h[8] == count[0];
      assert h[8] != ZeroTestsSummary[8];
    } else {
      assert |h| != |ZeroTestsSummary|;
    }
  }

  /** The header line of a transcript ends where the result lines begin,
      and is followed by a newline. */
  lemma HeaderLineEnd(count: string, tail: string)
    requires forall i :: 0 <= i < |count| ==> IsDigit(count[i])
    requires tail != [] && tail[0] == '\n'
    ensures var t := Header(count) + tail;
      IndexOf(t, "\n", 0) == |Header(count)|
      && Substring(t, 0, |Header(count)|) == Header(count)
      && SubstringFrom(t, |Header(count)|) == tail
  {
    var h := Header(count);
    var t := h + tail;
    HeaderHasNoNewline(count);
    FirstNewlineAfter(h, tail);
    assert t[..|h|] == h && t[|h|..] == tail;
  }

  /** The rendered results followed by a blank line start with a newline. */
  lemma ResultsStartWithNewline(rs: seq<(string, string)>, rest: string)
    ensures var tail := RenderResults(rs) + "\n\n" + rest;
      tail != [] && tail[0] == '\n'
  {
    if rs != [] {
      assert RenderResults(rs)[0] == '\n';
    }
  }

  /** The header of a transcript is found at its start, its line ends where
      the result lines begin, and it is not the zero-tests header. */
  lemma TranscriptHeader(count: string, rs: seq<(string, string)>, rest: string)
    requires count != "0" && forall i :: 0 <= i < |count| ==> IsDigit(count[i])
    ensures var t := Transcript(count, rs, rest);
      var h := "running " + count + " tests";
      SearchRunningHeader(t, 0) == 0 && IndexOf(t, "\n", 0) == |h|
      && Substring(t, 0, |h|) == h != ZeroTestsSummary
      && SubstringFrom(t, |h|) == RenderResults(rs) + "\n\n" + rest
  {
    var tail := RenderResults(rs) + "\n\n" + rest;
    assert Transcript(count, rs, rest) == Header(count) + tail;
    HeaderFound(count, tail);
    ResultsStartWithNewline(rs, rest);
    HeaderLineEnd(count, tail);
    HeaderNotZero(count);
  }

  /** A transcript rendered from plain results parses back to one event per
      result, in order: the id is the prefix and the name, the state is that
      of the lower-cased status, and a failed event carries the first
      matching failure message of the transcript. */
  lemma ParseRenderedTranscript(testIdPrefix: string, count: string, rs: seq<(string, string)>, rest: string, stateOf: string -> string)
    requires count != "0" && forall i :: 0 <= i < |count| ==> IsDigit(count[i])
    requires forall i :: 0 <= i < |rs| ==> PlainResult(rs[i])
    ensures var t := Transcript(count, rs, rest);
      var events := ParseTestCaseResultPrettyOutput(testIdPrefix, t, stateOf);
      |events| == |rs|
      && forall i :: 0 <= i < |rs| ==>
           events[i] == AttachFailure(TestEvent(testIdPrefix + "::" + rs[i].0, stateOf(ToLower(rs[i].1)), None), FailureDetails(t))
  {
    var t := Transcript(count, rs, rest);
    var h := "running " + count + " tests";
    TranscriptHeader(count, rs, rest);
    NoBlankLineInResults(rs, rest);
    SplitAtFirst(RenderResults(rs), "\n\n", rest);
    assert ResultsBlock(t, |h|) == RenderResults(rs);
    SplitRendered(rs);
    var lines := Split(RenderResults(rs), TestLineSeparator);
    assert lines[1..] == LineTexts(rs);
    LineTextsAt(rs);
    var events := ParseTestCaseResultPrettyOutput(testIdPrefix, t, stateOf);
    assert events == EventsOf(testIdPrefix, LineTexts(rs), FailureDetails(t), stateOf);
    forall i | 0 <= i < |rs|
      ensures events[i] == AttachFailure(TestEvent(testIdPrefix + "::" + rs[i].0, stateOf(ToLower(rs[i].1)), None), FailureDetails(t))
    {
      ParseTestResultOfLine(testIdPrefix, rs[i].0, rs[i].1, stateOf);
    }
  }
}
