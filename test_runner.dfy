/** src/test-runner.ts: running one test case or one test suite with the
    build tool and turning the `pretty` transcripts into test events.

    The run of the build tool is the parameter `run`, from execution
    parameters to the transcript or the rejection's message; `PrettyRun`
    plugs in runCargoTestsForPackageTargetWithPrettyFormat.  The logger is
    not modelled as a side effect: a rejection carries the debug line the
    runner logs before rethrowing. */
module TestRunner {
  import opened Wrappers
  import opened JsStrings
  import opened Interfaces
  import opened Cargo
  import opened PrettyParser

  /** A rejected run: the error that is rethrown, and the debug line that
      is logged before. */
  datatype Rejection = Rejection(error: string, debugLog: string)

  /** Reading the fields of an undefined node throws a TypeError. */
  const UndefinedNodeError := "TypeError"

  const TestCaseFailurePrefix := "Fatal error while attempting to run Test Case: "
  const TestSuiteFailurePrefix := "Fatal error while attempting to run Test Suite: "

  /** The name a failure message uses: the spec name when the node is
      defined and its spec name is non-empty, otherwise `unknown`. */
  function FailureName(testSpecName: Option<string>): (r: string)
    ensures testSpecName.Some? && testSpecName.value != "" ==> r == testSpecName.value
    ensures testSpecName.None? || testSpecName.value == "" ==> r == "unknown"
  {
    if testSpecName.Some? && testSpecName.value != "" then testSpecName.value else "unknown"
  }

  /** The debug line logged before a rejection is rethrown. */
  function FailureLog(prefix: string, testSpecName: Option<string>, err: string): string {
    prefix + FailureName(testSpecName) + ". Details: " + err
  }

  /** The build tool run that the runner awaits. */
  function PrettyRun(exec: Invocation -> ExecOutcome): TestExecutionParameters -> Result<string, string> {
    params => RunCargoTestsForPackageTargetWithPrettyFormat(params, exec)
  }

  // ---------------------------------------------------------------------
  // runTestCase (lines 21-46)

  /** The parameters of a single-case run: the case's package and target,
      its spec name as the sub-command arguments, and `--exact`. */
  function CaseParams(node: CaseNode, workspaceRootDir: string): TestExecutionParameters {
    TestExecutionParameters(Some(node.packageName), node.nodeTarget, workspaceRootDir, Some(node.testSpecName), Some("--exact"))
  }

  /** The first element of a sequence, which is undefined for an empty one. */
  function FirstOf<T>(s: seq<T>): (r: Option<T>)
    ensures s == [] <==> r.None?
    ensures r.Some? ==> r.value == s[0]
  {
    if s == [] then None else Some(s[0])
  }

  /** runTestCase: resolves with the first event of the case's transcript
      (undefined when there is none); a rejected run, or an undefined node,
      is rethrown after the debug line is logged. */
  function RunTestCase(
    testCaseNode: Option<CaseNode>, workspaceRootDir: string,
    run: TestExecutionParameters -> Result<string, string>, stateOf: string -> string): (r: Result<Option<TestEvent>, Rejection>)
    ensures testCaseNode.None? ==>
      r == Err(Rejection(UndefinedNodeError, FailureLog(TestCaseFailurePrefix, None, UndefinedNodeError)))
    ensures testCaseNode.Some? ==>
      var node := testCaseNode.value;
      var output := run(CaseParams(node, workspaceRootDir));
      (r.Err? <==> output.Err?)
      && (r.Err? ==> r.error == Rejection(output.error, FailureLog(TestCaseFailurePrefix, Some(node.testSpecName), output.error)))
      && (r.Ok? ==> r.value == FirstOf(ParseTestCaseResultPrettyOutput(node.nodeIdPrefix, output.value, stateOf)))
  {
    match testCaseNode
    case None => Err(Rejection(UndefinedNodeError, FailureLog(TestCaseFailurePrefix, None, UndefinedNodeError)))
    case Some(node) =>
      match run(CaseParams(node, workspaceRootDir))
      case Err(e) => Err(Rejection(e, FailureLog(TestCaseFailurePrefix, Some(node.testSpecName), e)))
      case Ok(output) =>
        var results := ParseTestCaseResultPrettyOutput(node.nodeIdPrefix, output, stateOf);
        Ok(FirstOf(results))
  }

  /** A single-case run asks for the case's package and target, passes the
      spec name to the build tool when it is non-empty, and `--exact` to the
      test binary. */
  lemma CaseRunArguments(node: CaseNode, workspaceRootDir: string)
    ensures var filter := GetCargoPackageTargetFilter(node.packageName, node.nodeTarget);
      RunArgs(CaseParams(node, workspaceRootDir), "pretty")
        == filter + (if node.testSpecName != "" then " " + node.testSpecName else "") + " -- --format pretty --exact"
  {
  }

  /** With the build tool plugged in, a defined case never rejects: it
      resolves with the first event of what the process printed. */
  lemma DefinedCaseResolves(node: CaseNode, workspaceRootDir: string, exec: Invocation -> ExecOutcome, stateOf: string -> string)
    ensures var params := CaseParams(node, workspaceRootDir);
      var printed := exec(Invocation(CommandLine("test", RunArgs(params, "pretty")), workspaceRootDir, RunMaxBuffer)).stdout;
      RunTestCase(Some(node), workspaceRootDir, PrettyRun(exec), stateOf)
        == Ok(FirstOf(ParseTestCaseResultPrettyOutput(node.nodeIdPrefix, printed, stateOf)))
  {
    var params := CaseParams(node, workspaceRootDir);
    assert PrettyRun(exec)(params) == RunCargoTestsForPackageTargetWithPrettyFormat(params, exec);
  }

  // ---------------------------------------------------------------------
  // runTestSuite (lines 56-84)

  /** The id prefix of the events of one target of a suite:
      `<package>::<target name>::<target type>`. */
  function SuiteTargetPrefix(packageName: Option<string>, target: NodeTarget): string {
    Show(packageName) + "::" + target.targetName + "::" + target.targetType
  }

  /** The parameters of one target's run: the suite's package, the target,
      the suite's spec name and `--no-fail-fast`, no binary arguments. */
  function SuiteParams(suite: SuiteNode, target: NodeTarget, workspaceRootDir: string): TestExecutionParameters {
    TestExecutionParameters(suite.packageName, target, workspaceRootDir, Some(suite.testSpecName + " --no-fail-fast"), None)
  }

  /** Array.prototype.filter with `e.test.startsWith(id)`. */
  function EventsUnder(events: seq<TestEvent>, id: string): (r: seq<TestEvent>)
    ensures |r| <= |events|
    ensures forall e :: e in r <==> e in events && StartsWith(e.test, id)
  {
    if events == [] then []
    else
      var rest := EventsUnder(events[1..], id);
      assert forall e :: e in events <==> e == events[0] || e in events[1..];
      if StartsWith(events[0].test, id) then [events[0]] + rest else rest
  }

  /** The events of one target of a suite, from that target's transcript. */
  function TargetEvents(suite: SuiteNode, target: NodeTarget, output: string, stateOf: string -> string): seq<TestEvent> {
    EventsUnder(ParseTestCaseResultPrettyOutput(SuiteTargetPrefix(suite.packageName, target), output, stateOf), suite.id)
  }

  /** Every target's events, flattened in target order; the first rejected
      target (in target order) rejects the whole run. */
  function SuiteTargetsEvents(
    suite: SuiteNode, targets: seq<NodeTarget>, workspaceRootDir: string,
    run: TestExecutionParameters -> Result<string, string>, stateOf: string -> string): (r: Result<seq<TestEvent>, string>)
    ensures r.Ok? ==> forall e :: e in r.value ==> StartsWith(e.test, suite.id)
  {
    if targets == [] then Ok([])
    else
      match run(SuiteParams(suite, targets[0], workspaceRootDir))
      case Err(e) => Err(e)
      case Ok(output) =>
        match SuiteTargetsEvents(suite, targets[1..], workspaceRootDir, run, stateOf)
        case Err(e) => Err(e)
        case Ok(rest) => Ok(TargetEvents(suite, targets[0], output, stateOf) + rest)
  }

  /** runTestSuite: resolves with the events, under the suite's id, of
      every target of the suite; a rejected run, or an undefined node, is
      rethrown after the debug line is logged. */
  function RunTestSuite(
    testSuiteNode: Option<SuiteNode>, workspaceRootDir: string,
    run: TestExecutionParameters -> Result<string, string>, stateOf: string -> string): (r: Result<seq<TestEvent>, Rejection>)
    ensures testSuiteNode.None? ==>
      r == Err(Rejection(UndefinedNodeError, FailureLog(TestSuiteFailurePrefix, None, UndefinedNodeError)))
    ensures testSuiteNode.Some? && r.Ok? ==> forall e :: e in r.value ==> StartsWith(e.test, testSuiteNode.value.id)
    ensures testSuiteNode.Some? && r.Err? ==>
      r.error.debugLog == FailureLog(TestSuiteFailurePrefix, Some(testSuiteNode.value.testSpecName), r.error.error)
  {
    match testSuiteNode
    case None => Err(Rejection(UndefinedNodeError, FailureLog(TestSuiteFailurePrefix, None, UndefinedNodeError)))
    case Some(suite) =>
      match SuiteTargetsEvents(suite, suite.targets, workspaceRootDir, run, stateOf)
      case Ok(results) => Ok(results)
      case Err(e) => Err(Rejection(e, FailureLog(TestSuiteFailurePrefix, Some(suite.testSpecName), e)))
  }

  /** The run of the targets succeeds exactly when every target's run
      does. */
  lemma {:induction false} SuiteTargetsSucceed(
    suite: SuiteNode, targets: seq<NodeTarget>, workspaceRootDir: string,
    run: TestExecutionParameters -> Result<string, string>, stateOf: string -> string)
    ensures SuiteTargetsEvents(suite, targets, workspaceRootDir, run, stateOf).Ok?
      <==> forall i :: 0 <= i < |targets| ==> run(SuiteParams(suite, targets[i], workspaceRootDir)).Ok?
  {
    if targets != [] {
      var tail := targets[1..];
      SuiteTargetsSucceed(suite, tail, workspaceRootDir, run, stateOf);
      assert forall i :: 0 <= i < |tail| ==> tail[i] == targets[i + 1];
    }
  }

  /** A rejected run of the targets rethrows the error of the first target
      whose run rejects. */
  lemma {:induction false} SuiteTargetsFirstError(
    suite: SuiteNode, targets: seq<NodeTarget>, workspaceRootDir: string,
    run: TestExecutionParameters -> Result<string, string>, stateOf: string -> string, k: nat)
    requires k < |targets| && run(SuiteParams(suite, targets[k], workspaceRootDir)).Err?
    requires forall i :: 0 <= i < k ==> run(SuiteParams(suite, targets[i], workspaceRootDir)).Ok?
    ensures SuiteTargetsEvents(suite, targets, workspaceRootDir, run, stateOf)
      == Err(run(SuiteParams(suite, targets[k], workspaceRootDir)).error)
  {
    if k > 0 {
      var tail := targets[1..];
      assert forall i :: 0 <= i < k - 1 ==> tail[i] == targets[i + 1];
      SuiteTargetsFirstError(suite, tail, workspaceRootDir, run, stateOf, k - 1);
    }
  }

  /** A suite's events are the events of its first target followed by
      those of the others. */
  lemma SuiteTargetsCons(
    suite: SuiteNode, target: NodeTarget, targets: seq<NodeTarget>, workspaceRootDir: string,
    run: TestExecutionParameters -> Result<string, string>, stateOf: string -> string, output: string)
    requires run(SuiteParams(suite, target, workspaceRootDir)) == Ok(output)
    ensures var rest := SuiteTargetsEvents(suite, targets, workspaceRootDir, run, stateOf);
      var r := SuiteTargetsEvents(suite, [target] + targets, workspaceRootDir, run, stateOf);
      (r.Ok? <==> rest.Ok?) && (rest.Ok? ==> r.value == TargetEvents(suite, target, output, stateOf) + rest.value)
  {
    assert ([target] + targets)[1..] == targets;
  }

  /** With the build tool plugged in, a defined suite never rejects. */
  lemma {:induction false} DefinedSuiteResolves(
    suite: SuiteNode, targets: seq<NodeTarget>, workspaceRootDir: string,
    exec: Invocation -> ExecOutcome, stateOf: string -> string)
    ensures SuiteTargetsEvents(suite, targets, workspaceRootDir, PrettyRun(exec), stateOf).Ok?
  {
    forall i | 0 <= i < |targets|
      ensures PrettyRun(exec)(SuiteParams(suite, targets[i], workspaceRootDir)).Ok?
    {
      var params := SuiteParams(suite, targets[i], workspaceRootDir);
      assert PrettyRun(exec)(params) == RunCargoTestsForPackageTargetWithPrettyFormat(params, exec);
    }
    SuiteTargetsSucceed(suite, targets, workspaceRootDir, PrettyRun(exec), stateOf);
  }

  /** A suite run asks each target for the suite's spec name without
      stopping at the first failing test, and labels that target's events
      `<package>::<target name>::<target type>`. */
  lemma SuiteRunArguments(suite: SuiteNode, target: NodeTarget, workspaceRootDir: string)
    ensures RunArgs(SuiteParams(suite, target, workspaceRootDir), "pretty")
      == GetCargoPackageTargetFilter(Show(suite.packageName), target) + " " + suite.testSpecName + " --no-fail-fast -- --format pretty"
  {
  }
}
