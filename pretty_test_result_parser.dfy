/** src/parsers/pretty-test-result-parser.ts: turning the `pretty` transcript
    of a test run into one test event per `test <name> ... <status>` line,
    with failure messages taken from the transcript's `failures:` section.

    The three regular expressions of the source are stated as explicit
    string predicates:
    - `running \d* (test|tests)` (line 110) is `RunningHeaderAt`;
    - `failures:\s*\n\n(----[\s\S]*?)(?=\n\nfailures:|test result:|$)`
      (line 33) is `FailuresMatchAt` and `SectionEnd`;
    - `^(.+?)\s+stdout` (line 44) is `KeyEndsAt` and `KeyEnd`.

    The mapping from a result word to an event state (getTestEventState in
    src/parsers/parser-utils.ts, which is not part of this model) is the
    parameter `stateOf`. */
module PrettyParser {
  import opened Wrappers
  import opened JsStrings

  /** A test event: the test id, its state, and an optional message. */
  datatype TestEvent = TestEvent(test: string, state: string, message: Option<string>)

  /** The state of the event built for a line without a result, and the
      state whose events receive failure messages. */
  const Errored := "errored"
  const Failed := "failed"

  const ResultSeparator := " ... "
  const TestLineSeparator := "\ntest "
  const ZeroTestsSummary := "running 0 tests"

  // ---------------------------------------------------------------------
  // parseTestResult (lines 6-27)

  /** The result word of a right-hand side: the text before its first
      newline, lower-cased, where a newline at index 0 counts as none. */
  function ResultText(rhs: string): string {
    var firstNewLineIndex := IndexOf(rhs, "\n", 0);
    if firstNewLineIndex > 0 then ToLower(Substring(rhs, 0, firstNewLineIndex)) else ToLower(rhs)
  }

  /** The inline message of a right-hand side: the text after its first
      newline, trimmed, when that newline is not at index 0 and text follows
      it. */
  function InlineMessage(rhs: string): Option<string> {
    var firstNewLineIndex := IndexOf(rhs, "\n", 0);
    if firstNewLineIndex > 0 && |rhs| > firstNewLineIndex + 1 then Some(Trim(SubstringFrom(rhs, firstNewLineIndex + 1)))
    else None
  }

  /** A right-hand side whose only newline, if any, is at index 0 is all
      status and carries no message. */
  lemma RightHandSideOneLine(rhs: string)
    requires forall k :: 0 < k < |rhs| ==> rhs[k] != '\n'
    ensures ResultText(rhs) == ToLower(rhs) && InlineMessage(rhs).None?
  {
    IndexOfChar(rhs, '\n', 0);
  }

  /** A right-hand side that starts with a newline is all status and
      carries no message. */
  lemma RightHandSideLeadingNewline(rhs: string)
    requires |rhs| > 0 && rhs[0] == '\n'
    ensures ResultText(rhs) == ToLower(rhs) && InlineMessage(rhs).None?
  {
    IndexOfChar(rhs, '\n', 0);
  }

  /** With a first newline at `k > 0`, the status is the text before it and
      the message is the trimmed rest, when there is any. */
  lemma RightHandSideFirstNewline(rhs: string, k: nat)
    requires 0 < k < |rhs| && rhs[k] == '\n' && '\n' !in rhs[..k]
    ensures ResultText(rhs) == ToLower(rhs[..k])
    ensures InlineMessage(rhs) == (if k + 1 < |rhs| then Some(Trim(rhs[k + 1..])) else None)
  {
    IndexOfChar(rhs, '\n', 0);
    forall j | 0 <= j < k
      ensures rhs[j] != '\n'
    {
      assert rhs[j] == rhs[..k][j];
    }
    assert IndexOf(rhs, "\n", 0) == k;
  }

  /** parseTestResult: the id is the prefix and the text before the first
      ` ... `; a line with nothing after the first ` ... ` is an errored
      event; otherwise the state is that of the result word, and the message
      is the inline message. */
  function ParseTestResult(testIdPrefix: string, testOutputLine: string, stateOf: string -> string): (r: TestEvent)
    ensures var testLine := Split(testOutputLine, ResultSeparator);
      r.test == testIdPrefix + "::" + testLine[0]
      && (|testLine| < 2 || testLine[1] == "" ==> r.state == Errored && r.message.None?)
      && (|testLine| >= 2 && testLine[1] != "" ==>
            r.state == stateOf(ResultText(testLine[1])) && r.message == InlineMessage(testLine[1]))
  {
    var testLine := Split(testOutputLine, ResultSeparator);
    var test := testIdPrefix + "::" + testLine[0];
    if |testLine| < 2 || testLine[1] == "" then TestEvent(test, Errored, None)
    else TestEvent(test, stateOf(ResultText(testLine[1])), InlineMessage(testLine[1]))
  }

  /** A `<name> ... <status>` line with a space-free name and a one-word
      status gives the event `prefix::name` in the state of the lower-cased
      status, with no message. */
  lemma {:induction false} ParseTestResultOfLine(testIdPrefix: string, name: string, status: string, stateOf: string -> string)
    requires ' ' !in name
    requires status != "" && ' ' !in status && '\n' !in status
    ensures ParseTestResult(testIdPrefix, name + ResultSeparator + status, stateOf)
      == TestEvent(testIdPrefix + "::" + name, stateOf(ToLower(status)), None)
  {
    SplitAfterHead(name, ResultSeparator, status);
    SplitWithoutFirstChar(status, ResultSeparator);
    assert Split(name + ResultSeparator + status, ResultSeparator) == [name, status];
    forall k | 0 < k < |status|
      ensures status[k] != '\n'
    {
      assert status[k] in status;
    }
    RightHandSideOneLine(status);
  }

  /** A line without ` ... ` is one errored event named by the whole line. */
  lemma ParseTestResultWithoutSeparator(testIdPrefix: string, line: string, stateOf: string -> string)
    requires !Includes(line, ResultSeparator)
    ensures ParseTestResult(testIdPrefix, line, stateOf) == TestEvent(testIdPrefix + "::" + line, Errored, None)
  {
    SplitNoSeparator(line, ResultSeparator);
  }

  // ---------------------------------------------------------------------
  // The failures section (line 33)

  /** The end of the run of whitespace that starts at `i`. */
  function WhitespaceEnd(s: string, i: nat): (r: nat)
    requires i <= |s|
    ensures i <= r <= |s|
    ensures forall k :: i <= k < r ==> IsWhitespace(s[k])
    ensures r < |s| ==> !IsWhitespace(s[r])
    decreases |s| - i
  {
    if i < |s| && IsWhitespace(s[i]) then WhitespaceEnd(s, i + 1) else i
  }

  /** The regular expression at line 33 starts a match at `p`: `failures:`,
      whitespace ending in a blank line, then `----`.  Since `-` is not
      whitespace, the blank line is the last two characters of the
      whitespace run. */
  predicate FailuresMatchAt(s: string, p: int) {
    OccursAt(s, "failures:", p)
    && var w := WhitespaceEnd(s, p + 9);
       w >= p + 11 && s[w - 2] == '\n' && s[w - 1] == '\n' && OccursAt(s, "----", w)
  }

  /** The leftmost match of the failures pattern at or after `from`. */
  function FirstFailuresMatch(s: string, from: nat): (r: int)
    requires from <= |s|
    ensures r == -1 || (from <= r && FailuresMatchAt(s, r))
    ensures r == -1 <==> forall j :: from <= j ==> !FailuresMatchAt(s, j)
    ensures r >= 0 ==> forall j :: from <= j < r ==> !FailuresMatchAt(s, j)
    decreases |s| - from
  {
    if from + 9 > |s| then -1
    else if FailuresMatchAt(s, from) then from
    else FirstFailuresMatch(s, from + 1)
  }

  /** Where the lazy group of the failures pattern may stop: before a
      further `failures:` header, before the summary, or at the end. */
  predicate SectionEndsAt(s: string, e: int) {
    OccursAt(s, "\n\nfailures:", e) || OccursAt(s, "test result:", e) || e == |s|
  }

  /** The first position at or after `from` where the section may stop. */
  function SectionEnd(s: string, from: nat): (r: nat)
    requires from <= |s|
    ensures from <= r <= |s| && SectionEndsAt(s, r)
    ensures forall e :: from <= e < r ==> !SectionEndsAt(s, e)
    decreases |s| - from
  {
    if SectionEndsAt(s, from) then from else SectionEnd(s, from + 1)
  }

  /** The captured group of the first failures match: from its `----` up to
      the first place the section may stop. */
  function FailuresSection(s: string): (r: Option<string>)
    ensures r.None? <==> forall p :: !FailuresMatchAt(s, p)
    ensures r.Some? ==> StartsWith(r.value, "----")
  {
    var p := FirstFailuresMatch(s, 0);
    if p < 0 then None
    else
      var w := WhitespaceEnd(s, p + 9);
      var e := SectionEnd(s, w + 4);
      assert s[w..e][..4] == s[w..w + 4];
      Some(s[w..e])
  }

  // ---------------------------------------------------------------------
  // Failure blocks (lines 38-50)

  /** The pattern at line 44 can end its lazy group at `k`: whitespace at
      `k`, and `stdout` right after that whitespace run. */
  predicate KeyEndsAt(line: string, k: int) {
    1 <= k < |line| && IsWhitespace(line[k]) && OccursAt(line, "stdout", WhitespaceEnd(line, k))
  }

  /** `.` matches no line terminator. */
  predicate NoLineTerminator(s: string) {
    forall i :: 0 <= i < |s| ==> !IsLineTerminator(s[i])
  }

  /** The least `j >= k` at which the lazy group can end, or -1. */
  function KeyEndFrom(line: string, k: nat): (r: int)
    requires 1 <= k <= |line| + 1 && NoLineTerminator(line[..k - 1])
    ensures r == -1 || (k <= r && KeyEndsAt(line, r) && NoLineTerminator(line[..r]))
    ensures r == -1 ==> forall j :: k <= j <= |line| && NoLineTerminator(line[..j]) ==> !KeyEndsAt(line, j)
    ensures r >= 0 ==> forall j :: k <= j < r ==> !KeyEndsAt(line, j)
    decreases |line| - k
  {
    if k >= |line| then -1
    else if IsLineTerminator(line[k - 1]) then
      assert forall j :: k <= j <= |line| ==> !NoLineTerminator(line[..j]) by {
        forall j | k <= j <= |line|
          ensures !NoLineTerminator(line[..j])
        {
          assert line[..j][k - 1] == line[k - 1];
        }
      }
      -1
    else
      assert line[..k] == line[..k - 1] + [line[k - 1]];
      if KeyEndsAt(line, k) then k else KeyEndFrom(line, k + 1)
  }

  /** The end of the key of a block's first line, or -1 when the pattern at
      line 44 does not match: the least `k` at which the lazy group can end
      whose text has no line terminator. */
  function KeyEnd(line: string): (r: int)
    ensures r == -1 || (KeyEndsAt(line, r) && NoLineTerminator(line[..r]))
    ensures r == -1 <==> forall j :: 0 <= j <= |line| && NoLineTerminator(line[..j]) ==> !KeyEndsAt(line, j)
    ensures r >= 0 ==> forall j :: j < r ==> !KeyEndsAt(line, j)
  {
    KeyEndFrom(line, 1)
  }

  /** The text after the first line of `b`, or "" when there is one line. */
  function AfterFirstLine(b: string): string {
    var i := IndexOf(b, "\n", 0);
    if i < 0 then "" else b[i + 1..]
  }

  /** The lines after the first, joined again, are the text after the
      first line. */
  lemma JoinRestLines(b: string)
    ensures Join(Split(b, "\n")[1..], "\n") == AfterFirstLine(b)
  {
    var i := IndexOf(b, "\n", 0);
    if i >= 0 {
      SplitJoin(b[i + 1..], "\n");
    }
  }

  /** A failure block without its leading `---- `. */
  function BlockBody(block: string): string {
    if StartsWith(block, "---- ") then block[5..] else block
  }

  /** One failure block: the key is read from the first line of its body,
      and the value is the rest of the body, trimmed. */
  function BlockEntry(block: string): Option<(string, string)> {
    var lines := Split(BlockBody(block), "\n");
    var k := KeyEnd(lines[0]);
    if k < 0 then None else Some((lines[0][..k], Trim(Join(lines[1..], "\n"))))
  }

  /** A block has an entry exactly when the pattern at line 44 matches its
      first line; the key is the shortest text that can end the match, and
      the value is the text after the first line, trimmed. */
  lemma BlockEntryShape(block: string)
    ensures var b := BlockBody(block);
      var first := Split(b, "\n")[0];
      var e := BlockEntry(block);
      (e.None? <==> KeyEnd(first) == -1)
      && (e.Some? ==> e.value.0 == first[..KeyEnd(first)] && e.value.1 == Trim(AfterFirstLine(b)))
  {
    JoinRestLines(BlockBody(block));
  }

  // ---------------------------------------------------------------------
  // The failure-details map: a JavaScript Map, i.e. keys in insertion
  // order, where setting an existing key replaces its value in place.

  type Details = seq<(string, string)>

  function Keys(m: Details): (r: seq<string>)
    ensures |r| == |m| && forall i :: 0 <= i < |m| ==> r[i] == m[i].0
  {
    seq(|m|, i requires 0 <= i < |m| => m[i].0)
  }

  predicate DistinctKeys(m: Details) {
    forall i, j :: 0 <= i < j < |m| ==> m[i].0 != m[j].0
  }

  /** Map.prototype.get */
  function Lookup(m: Details, k: string): (r: Option<string>)
    ensures r.Some? <==> k in Keys(m)
    ensures r.Some? ==> exists i :: 0 <= i < |m| && m[i] == (k, r.value)
  {
    if m == [] then None
    else if m[0].0 == k then Some(m[0].1)
    else
      var r := Lookup(m[1..], k);
      assert Keys(m) == [m[0].0] + Keys(m[1..]);
      assert r.Some? ==> exists i :: 0 <= i < |m| && m[i] == (k, r.value) by {
        if r.Some? {
          var i :| 0 <= i < |m[1..]| && m[1..][i] == (k, r.value);
          assert m[i + 1] == (k, r.value);
        }
      }
      r
  }

  /** Map.prototype.set */
  function Put(m: Details, k: string, v: string): (r: Details)
    ensures k in Keys(m) ==> |r| == |m|
    ensures k !in Keys(m) ==> r == m + [(k, v)]
  {
    if m == [] then [(k, v)]
    else if m[0].0 == k then [(k, v)] + m[1..]
    else
      assert Keys(m) == [m[0].0] + Keys(m[1..]);
      [m[0]] + Put(m[1..], k, v)
  }

  /** After setting `k`, looking up `k` gives the new value and every other
      key keeps its value. */
  lemma {:induction false} LookupPut(m: Details, k: string, v: string, k': string)
    ensures Lookup(Put(m, k, v), k') == if k' == k then Some(v) else Lookup(m, k')
  {
    if m != [] && m[0].0 != k {
      LookupPut(m[1..], k, v, k');
      assert Put(m, k, v)[1..] == Put(m[1..], k, v);
    }
  }

  /** Setting a key keeps the insertion order: an existing key keeps its
      place, a new key goes last. */
  lemma {:induction false} KeysPut(m: Details, k: string, v: string)
    ensures Keys(Put(m, k, v)) == if k in Keys(m) then Keys(m) else Keys(m) + [k]
  {
    if m != [] {
      assert Keys(m) == [m[0].0] + Keys(m[1..]);
      if m[0].0 != k {
        KeysPut(m[1..], k, v);
        assert Keys(Put(m, k, v)) == [m[0].0] + Keys(Put(m[1..], k, v));
      } else {
        assert Keys(Put(m, k, v)) == [k] + Keys(m[1..]);
      }
    }
  }

  /** Setting keeps the keys distinct. */
  lemma PutDistinct(m: Details, k: string, v: string)
    ensures DistinctKeys(m) ==> DistinctKeys(Put(m, k, v))
  {
    KeysPut(m, k, v);
    var r := Put(m, k, v);
    assert forall i :: 0 <= i < |r| ==> r[i].0 == Keys(r)[i];
    assert forall i :: 0 <= i < |m| ==> m[i].0 == Keys(m)[i];
  }

  /** Setting a block's entry, when its first line carries a key. */
  function PutEntry(m: Details, e: Option<(string, string)>): (r: Details)
    ensures DistinctKeys(m) ==> DistinctKeys(r)
  {
    match e
    case None => m
    case Some((k, v)) => PutDistinct(m, k, v); Put(m, k, v)
  }

  /** The map after setting the entries one after the other. */
  function FoldEntries(es: seq<Option<(string, string)>>): (r: Details)
    ensures DistinctKeys(r)
  {
    if es == [] then [] else PutEntry(FoldEntries(es[..|es| - 1]), es[|es| - 1])
  }

  /** The entries of a sequence of failure blocks. */
  function BlockEntries(blocks: seq<string>): (r: seq<Option<(string, string)>>)
    ensures |r| == |blocks| && forall i :: 0 <= i < |blocks| ==> r[i] == BlockEntry(blocks[i])
  {
    seq(|blocks|, i requires 0 <= i < |blocks| => BlockEntry(blocks[i]))
  }

  /** The failure details of a transcript: the blocks of the first failures
      section, split on `\n---- `. */
  function FailureDetails(output: string): (r: Details)
    ensures DistinctKeys(r)
    ensures FailuresSection(output).None? ==> r == []
  {
    match FailuresSection(output)
    case None => []
    case Some(section) => FoldEntries(BlockEntries(Split(section, "\n---- ")))
  }

  /** A later entry with the same key overwrites an earlier one: the value
      of a key is that of the last entry carrying it. */
  lemma {:induction false} LaterEntryWins(es: seq<Option<(string, string)>>, i: nat, k: string, v: string)
    requires i < |es| && es[i] == Some((k, v))
    requires forall j :: i < j < |es| ==> es[j].None? || es[j].value.0 != k
    ensures Lookup(FoldEntries(es), k) == Some(v)
    decreases |es|
  {
    var last := es[|es| - 1];
    var init := es[..|es| - 1];
    if last.Some? {
      LookupPut(FoldEntries(init), last.value.0, last.value.1, k);
    }
    if |es| - 1 != i {
      LaterEntryWins(init, i, k, v);
    }
  }

  /** The body of the loop in extractFailureDetails: read one block and set
      its entry when its first line carries a key. */
  method SetBlockEntry(failureDetails: Details, failureBlock: string) returns (r: Details)
    ensures r == PutEntry(failureDetails, BlockEntry(failureBlock))
  {
    r := failureDetails;
    var block := if StartsWith(failureBlock, "---- ") then failureBlock[5..] else failureBlock;
    assert block == BlockBody(failureBlock);
    var lines := Split(block, "\n");
    var keyEnd := KeyEnd(lines[0]);
    if keyEnd >= 0 {
      var testName := lines[0][..keyEnd];
      var failureMessage := Trim(Join(lines[1..], "\n"));
      assert BlockEntry(failureBlock) == Some((testName, failureMessage));
      r := Put(r, testName, failureMessage);
    }
  }

  /** Folding one more entry sets it on the map folded so far. */
  lemma FoldEntriesSnoc(es: seq<Option<(string, string)>>, i: nat)
    requires i < |es|
    ensures FoldEntries(es[..i + 1]) == PutEntry(FoldEntries(es[..i]), es[i])
  {
    assert es[..i + 1][..i] == es[..i];
  }

  /** The failure details are the fold of the entries of the blocks of the
      section, when there is one. */
  lemma FailureDetailsOfSection(output: string, section: string)
    requires FailuresSection(output) == Some(section)
    ensures FailureDetails(output) == FoldEntries(BlockEntries(Split(section, "\n---- ")))
  {
  }

  /** extractFailureDetails: fills the map block by block. */
  method ExtractFailureDetails(output: string) returns (failureDetails: Details)
    ensures failureDetails == FailureDetails(output)
  {
    failureDetails := [];
    var failuresMatch := FailuresSection(output);
    if failuresMatch.Some? {
      var failureBlocks := Split(failuresMatch.value, "\n---- ");
      ghost var entries := BlockEntries(failureBlocks);
      for i := 0 to |failureBlocks|
        invariant failureDetails == FoldEntries(entries[..i])
      {
        FoldEntriesSnoc(entries, i);
        failureDetails := SetBlockEntry(failureDetails, failureBlocks[i]);
      }
      assert entries[..|failureBlocks|] == entries;
      FailureDetailsOfSection(output, failuresMatch.value);
    }
  }

  // ---------------------------------------------------------------------
  // Events (lines 58-95)

  /** Entry `i` is the first, in insertion order, whose key ends the test id
      after a `::`. */
  predicate FirstMatchAt(m: Details, testId: string, i: int)
    requires 0 <= i < |m|
  {
    EndsWith(testId, "::" + m[i].0) && forall j :: 0 <= j < i ==> !EndsWith(testId, "::" + m[j].0)
  }

  /** The message of the first entry, in insertion order, whose key ends the
      test id after a `::`. */
  function FirstMatchingFailure(m: Details, testId: string): Option<string> {
    if m == [] then None
    else if EndsWith(testId, "::" + m[0].0) then Some(m[0].1)
    else FirstMatchingFailure(m[1..], testId)
  }

  /** There is a message exactly when some key ends the test id, and it is
      the message of the first such key. */
  lemma {:induction false} FirstMatchingFailureSpec(m: Details, testId: string)
    ensures var r := FirstMatchingFailure(m, testId);
      (r.None? <==> forall i :: 0 <= i < |m| ==> !EndsWith(testId, "::" + m[i].0))
      && (r.Some? ==> exists i :: 0 <= i < |m| && FirstMatchAt(m, testId, i) && r.value == m[i].1)
  {
    if m != [] && !EndsWith(testId, "::" + m[0].0) {
      FirstMatchingFailureSpec(m[1..], testId);
      var r := FirstMatchingFailure(m[1..], testId);
      assert forall i :: 1 <= i < |m| ==> m[i] == m[1..][i - 1];
      if r.Some? {
        var i :| 0 <= i < |m[1..]| && FirstMatchAt(m[1..], testId, i) && r.value == m[1..][i].1;
        assert FirstMatchAt(m, testId, i + 1);
      }
    } else if m != [] {
      assert FirstMatchAt(m, testId, 0);
    }
  }

  /** Attaching failure details: only a failed event changes, and only its
      message, which becomes the first matching entry's message when there
      is one. */
  function AttachFailure(e: TestEvent, m: Details): (r: TestEvent)
    ensures r.test == e.test && r.state == e.state
    ensures e.state != Failed ==> r == e
    ensures e.state == Failed && FirstMatchingFailure(m, e.test).None? ==> r == e
    ensures e.state == Failed && FirstMatchingFailure(m, e.test).Some? ==>
      r.message == FirstMatchingFailure(m, e.test)
  {
    if e.state == Failed then
      match FirstMatchingFailure(m, e.test)
      case Some(msg) => e.(message := Some(msg))
      case None => e
    else e
  }

  /** The block of per-test lines: the text after the header line up to the
      first blank line. */
  function ResultsBlock(output: string, startMessageEndIndex: int): string {
    Split(SubstringFrom(output, startMessageEndIndex), "\n\n")[0]
  }

  /** The events of a transcript whose header starts at `start`. */
  function TestEventResults(testIdPrefix: string, output: string, start: nat, stateOf: string -> string): (r: seq<TestEvent>)
    requires start <= |output|
  {
    var startMessageEndIndex := IndexOf(output, "\n", start);
    if Substring(output, start, startMessageEndIndex) == ZeroTestsSummary then []
    else
      var testResultLines := Split(ResultsBlock(output, startMessageEndIndex), TestLineSeparator);
      EventsOf(testIdPrefix, testResultLines[1..], FailureDetails(output), stateOf)
  }

  lemma SliceSnoc<T>(s: seq<T>, a: nat, b: nat)
    requires a <= b < |s|
    ensures s[a..b + 1] == s[a..b] + [s[b]]
  {
  }

  /** The event of each result line, failure details attached. */
  function EventsOf(testIdPrefix: string, lines: seq<string>, failureDetails: Details, stateOf: string -> string): (r: seq<TestEvent>)
    ensures |r| == |lines|
    ensures forall i :: 0 <= i < |lines| ==> r[i] == AttachFailure(ParseTestResult(testIdPrefix, lines[i], stateOf), failureDetails)
  {
    seq(|lines|, i requires 0 <= i < |lines| => AttachFailure(ParseTestResult(testIdPrefix, lines[i], stateOf), failureDetails))
  }

  lemma EventsOfSnoc(testIdPrefix: string, lines: seq<string>, line: string, failureDetails: Details, stateOf: string -> string)
    ensures EventsOf(testIdPrefix, lines + [line], failureDetails, stateOf)
      == EventsOf(testIdPrefix, lines, failureDetails, stateOf) + [AttachFailure(ParseTestResult(testIdPrefix, line, stateOf), failureDetails)]
  {
  }

  /** The body of the loop in extractTestEventResultsFromPrettyOutput for
      a failed event: scan the map in insertion order and take the message
      of the first key that ends the test id after a `::`. */
  method AttachFailureDetails(parsed: TestEvent, failureDetails: Details) returns (testEvent: TestEvent)
    ensures testEvent == AttachFailure(parsed, failureDetails)
  {
    testEvent := parsed;
    if testEvent.state == Failed {
      var testId := testEvent.test;
      var k := 0;
      while k < |failureDetails|
        invariant 0 <= k <= |failureDetails|
        invariant testEvent == parsed
        invariant FirstMatchingFailure(failureDetails, testId) == FirstMatchingFailure(failureDetails[k..], testId)
      {
        var (failureKey, failureMessage) := failureDetails[k];
        if EndsWith(testId, "::" + failureKey) {
          assert FirstMatchingFailure(failureDetails[k..], testId) == Some(failureMessage);
          testEvent := testEvent.(message := Some(failureMessage));
          break;
        }
        assert failureDetails[k..][1..] == failureDetails[k + 1..];
        k := k + 1;
      }
    }
  }

  /** extractTestEventResultsFromPrettyOutput: one event per result line,
      pushed in transcript order, failed events overwritten by the first
      matching failure message. */
  method ExtractTestEventResultsFromPrettyOutput(testIdPrefix: string, output: string, startMessageIndex: nat, stateOf: string -> string)
    returns (testResults: seq<TestEvent>)
    requires startMessageIndex <= |output|
    ensures testResults == TestEventResults(testIdPrefix, output, startMessageIndex, stateOf)
  {
    testResults := [];
    var startMessageEndIndex := IndexOf(output, "\n", startMessageIndex);
    var startMessageSummary := Substring(output, startMessageIndex, startMessageEndIndex);
    if startMessageSummary != ZeroTestsSummary {
      var failureDetails := ExtractFailureDetails(output);
      var testResultsOutput := ResultsBlock(output, startMessageEndIndex);
      var testResultLines := Split(testResultsOutput, TestLineSeparator);
      for i := 1 to |testResultLines|
        invariant testResults == EventsOf(testIdPrefix, testResultLines[1..i], failureDetails, stateOf)
      {
        SliceSnoc(testResultLines, 1, i);
        EventsOfSnoc(testIdPrefix, testResultLines[1..i], testResultLines[i], failureDetails, stateOf);
        var testEvent := ParseTestResult(testIdPrefix, testResultLines[i], stateOf);
        testEvent := AttachFailureDetails(testEvent, failureDetails);
        testResults := testResults + [testEvent];
      }
      assert testResultLines[1..|testResultLines|] == testResultLines[1..];
    }
  }

  // ---------------------------------------------------------------------
  // parseTestCaseResultPrettyOutput (lines 105-116)

  predicate IsDigit(c: char) {
    '0' <= c <= '9'
  }

  /** The end of the run of digits that starts at `i`. */
  function DigitsEnd(s: string, i: nat): (r: nat)
    requires i <= |s|
    ensures i <= r <= |s|
    ensures forall k :: i <= k < r ==> IsDigit(s[k])
    ensures r < |s| ==> !IsDigit(s[r])
    decreases |s| - i
  {
    if i < |s| && IsDigit(s[i]) then DigitsEnd(s, i + 1) else i
  }

  /** The pattern at line 110 matches at `p`: `running `, digits, then
      ` test`.  Since a space is not a digit, the digits are the whole run;
      `tests` begins with `test`, so the alternation adds nothing. */
  predicate RunningHeaderAt(s: string, p: int) {
    OccursAt(s, "running ", p) && OccursAt(s, " test", DigitsEnd(s, p + 8))
  }

  /** String.prototype.search for the header pattern, from `from` on. */
  function SearchRunningHeader(s: string, from: nat): (r: int)
    requires from <= |s|
    ensures r == -1 || (from <= r < |s| && RunningHeaderAt(s, r))
    ensures r == -1 <==> forall j :: from <= j ==> !RunningHeaderAt(s, j)
    ensures r >= 0 ==> forall j :: from <= j < r ==> !RunningHeaderAt(s, j)
    decreases |s| - from
  {
    if from + 8 > |s| then -1
    else if RunningHeaderAt(s, from) then from
    else SearchRunningHeader(s, from + 1)
  }

  /** parseTestCaseResultPrettyOutput: no events for an empty transcript or
      one without a header; otherwise the events after the first header. */
  function ParseTestCaseResultPrettyOutput(testIdPrefix: string, output: string, stateOf: string -> string): (r: seq<TestEvent>)
    ensures output == "" ==> r == []
  {
    if output == "" then []
    else
      var startMessageIndex := SearchRunningHeader(output, 0);
      if startMessageIndex < 0 then [] else TestEventResults(testIdPrefix, output, startMessageIndex, stateOf)
  }

  /** The header search finds the first header. */
  lemma SearchFindsFirst(s: string, p: nat)
    requires RunningHeaderAt(s, p) && forall j :: 0 <= j < p ==> !RunningHeaderAt(s, j)
    ensures p < |s| && SearchRunningHeader(s, 0) == p
  {
    var i := SearchRunningHeader(s, 0);
    assert i >= 0;
    assert !(i < p);
  }

  /** A transcript without a header yields no events. */
  lemma NoHeaderNoEvents(testIdPrefix: string, output: string, stateOf: string -> string)
    requires forall p :: !RunningHeaderAt(output, p)
    ensures ParseTestCaseResultPrettyOutput(testIdPrefix, output, stateOf) == []
  {
  }

  /** Otherwise the events are those after the first header. */
  lemma ParseFromFirstHeader(testIdPrefix: string, output: string, stateOf: string -> string, p: nat)
    requires RunningHeaderAt(output, p) && forall j :: 0 <= j < p ==> !RunningHeaderAt(output, j)
    ensures p < |output|
    ensures ParseTestCaseResultPrettyOutput(testIdPrefix, output, stateOf) == TestEventResults(testIdPrefix, output, p, stateOf)
  {
    SearchFindsFirst(output, p);
  }
}
