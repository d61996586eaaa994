/** src/rust-adapter.ts: the test adapter the explorer talks to.  It keeps
    the suite and case maps of the last load, runs the nodes the explorer
    asks for, and reports through its emitters.

    The emitters are modelled by the events fired on them, in the order
    they are fired (`testsEvents` for the tests emitter, `testStatesEvents`
    for the test states emitter); the disposables by their names.  The
    loader, the build tool run and the test state mapping are parameters.
    The runs that the source starts together and awaits with `Promise.all`
    happen one after the other, in the order the source starts them. */
module RustAdapter {
  import opened Wrappers
  import opened JsStrings
  import opened Interfaces
  import opened PrettyParser
  import opened Cargo
  import opened TestRunner
  import opened TestListParser

  /** What the adapter disposes of: the three emitters it is given and the
      command that opens a test's file. */
  datatype Disposable = TestsEmitter | TestStatesEmitter | AutorunEmitter | OpenTestCommand

  /** A loaded tree as the explorer is given it: the descriptor arena and
      the index of the root suite. */
  datatype LoadedSuite = LoadedSuite(infos: seq<Info>, rootTestSuite: nat)

  /** The events fired on the tests emitter. */
  datatype LoadEvent = LoadStarted | LoadFinished(suite: Option<LoadedSuite>)

  /** The events fired on the test states emitter; a state event carries
      what the runner resolved with, which may be undefined. */
  datatype StateEvent = RunStarted(tests: seq<string>) | TestState(event: Option<TestEvent>) | RunFinished

  /** Where the editor is opened: a file and a zero-based line. */
  datatype EditorPosition = EditorPosition(file: string, line: int)

  /** The contents of a TargetRunNodes object. */
  datatype Targets = Targets(testCases: seq<Option<CaseNode>>, testSuites: seq<SuiteNode>)

  /** The events a group of runs fired, and whether the `Promise.all`
      awaiting them rejected. */
  datatype Fired = Fired(events: seq<StateEvent>, rejected: bool)

  /** Running out of call stack in the recursion throws a RangeError. */
  const RangeError := "RangeError"
  const NotImplemented := "Method not implemented."

  /** `map.get(id)`: undefined for an absent id. */
  function CaseOf(testCases: map<string, CaseNode>, id: string): (r: Option<CaseNode>)
    ensures r.Some? <==> id in testCases
    ensures r.Some? ==> r.value == testCases[id]
  {
    if id in testCases then Some(testCases[id]) else None
  }

  // ---------------------------------------------------------------------
  // extractTestTargetsFromNodes (lines 127-142)

  /** extractTestTargetsFromNodes from the node `nodeId` with `targets`
      collected so far, with `depth` nested calls left before the call
      stack runs out: a structural suite is descended into, child by child
      in order; another suite is collected as a suite; any other id is
      collected as the case map's entry for it. */
  function Extracted(testSuites: map<string, SuiteNode>, testCases: map<string, CaseNode>, nodeId: string,
                     targets: Targets, depth: nat): Result<Targets, string>
    decreases depth, 0, 0
  {
    if depth == 0 then Err(RangeError)
    else if nodeId in testSuites then
      var node := testSuites[nodeId];
      if node.isStructuralNode then ExtractedAll(testSuites, testCases, node.childrenNodeIds, targets, depth - 1)
      else Ok(targets.(testSuites := targets.testSuites + [node]))
    else Ok(targets.(testCases := targets.testCases + [CaseOf(testCases, nodeId)]))
  }

  /** The `forEach` over a structural suite's children. */
  function ExtractedAll(testSuites: map<string, SuiteNode>, testCases: map<string, CaseNode>, nodeIds: seq<string>,
                        targets: Targets, depth: nat): Result<Targets, string>
    decreases depth, 1, |nodeIds|
  {
    if nodeIds == [] then Ok(targets)
    else
      match Extracted(testSuites, testCases, nodeIds[0], targets, depth)
      case Err(e) => Err(e)
      case Ok(next) => ExtractedAll(testSuites, testCases, nodeIds[1..], next, depth)
  }

  /** `targets` grows to `r` by suites that are non-structural nodes of
      the suite map and by cases that are the case map's entries of ids
      that are not suites. */
  ghost predicate GrowsByTargets(testSuites: map<string, SuiteNode>, testCases: map<string, CaseNode>, targets: Targets, r: Targets) {
    |targets.testSuites| <= |r.testSuites| && r.testSuites[..|targets.testSuites|] == targets.testSuites
    && |targets.testCases| <= |r.testCases| && r.testCases[..|targets.testCases|] == targets.testCases
    && (forall k :: |targets.testSuites| <= k < |r.testSuites| ==>
          !r.testSuites[k].isStructuralNode && r.testSuites[k] in testSuites.Values)
    && (forall k :: |targets.testCases| <= k < |r.testCases| ==>
          IsCaseEntry(testSuites, testCases, r.testCases[k]))
  }

  /** `testCase` is the case map's entry, possibly undefined, of an id that
      is not a suite. */
  ghost predicate IsCaseEntry(testSuites: map<string, SuiteNode>, testCases: map<string, CaseNode>, testCase: Option<CaseNode>) {
    exists id :: id !in testSuites && testCase == CaseOf(testCases, id)
  }

  lemma GrowsByTargetsRefl(testSuites: map<string, SuiteNode>, testCases: map<string, CaseNode>, targets: Targets)
    ensures GrowsByTargets(testSuites, testCases, targets, targets)
  {
    assert targets.testSuites[..|targets.testSuites|] == targets.testSuites;
    assert targets.testCases[..|targets.testCases|] == targets.testCases;
  }

  lemma GrowsByTargetsTrans(testSuites: map<string, SuiteNode>, testCases: map<string, CaseNode>, a: Targets, b: Targets, c: Targets)
    requires GrowsByTargets(testSuites, testCases, a, b) && GrowsByTargets(testSuites, testCases, b, c)
    ensures GrowsByTargets(testSuites, testCases, a, c)
  {
    assert c.testSuites[..|a.testSuites|] == c.testSuites[..|b.testSuites|][..|a.testSuites|];
    assert c.testCases[..|a.testCases|] == c.testCases[..|b.testCases|][..|a.testCases|];
    forall k | |a.testSuites| <= k < |c.testSuites|
      ensures !c.testSuites[k].isStructuralNode && c.testSuites[k] in testSuites.Values
    {
      if k < |b.testSuites| {
        assert c.testSuites[k] == c.testSuites[..|b.testSuites|][k] == b.testSuites[k];
      }
    }
    forall k | |a.testCases| <= k < |c.testCases|
      ensures IsCaseEntry(testSuites, testCases, c.testCases[k])
    {
      if k < |b.testCases| {
        assert c.testCases[k] == c.testCases[..|b.testCases|][k] == b.testCases[k];
      }
    }
  }

  /** extractTestTargetsFromNodes only appends, and every node it appends
      is a non-structural suite of the suite map or the case map's entry
      (possibly undefined) of an id that is not a suite. */
  lemma {:induction false} ExtractedGrows(testSuites: map<string, SuiteNode>, testCases: map<string, CaseNode>, nodeId: string,
                                          targets: Targets, depth: nat)
    ensures var r := Extracted(testSuites, testCases, nodeId, targets, depth);
      r.Ok? ==> GrowsByTargets(testSuites, testCases, targets, r.value)
    decreases depth, 0, 0
  {
    if depth > 0 {
      if nodeId in testSuites {
        var node := testSuites[nodeId];
        if node.isStructuralNode {
          ExtractedAllGrows(testSuites, testCases, node.childrenNodeIds, targets, depth - 1);
        } else {
          var r := targets.(testSuites := targets.testSuites + [node]);
          assert r.testSuites[..|targets.testSuites|] == targets.testSuites;
          assert r.testCases[..|targets.testCases|] == targets.testCases;
        }
      } else {
        var r := targets.(testCases := targets.testCases + [CaseOf(testCases, nodeId)]);
        assert r.testSuites[..|targets.testSuites|] == targets.testSuites;
        assert r.testCases[..|targets.testCases|] == targets.testCases;
        assert r.testCases[|targets.testCases|] == CaseOf(testCases, nodeId);
      }
    }
  }

  lemma {:induction false} ExtractedAllGrows(testSuites: map<string, SuiteNode>, testCases: map<string, CaseNode>, nodeIds: seq<string>,
                                             targets: Targets, depth: nat)
    ensures var r := ExtractedAll(testSuites, testCases, nodeIds, targets, depth);
      r.Ok? ==> GrowsByTargets(testSuites, testCases, targets, r.value)
    decreases depth, 1, |nodeIds|
  {
    if nodeIds == [] {
      GrowsByTargetsRefl(testSuites, testCases, targets);
    } else {
      ExtractedGrows(testSuites, testCases, nodeIds[0], targets, depth);
      var first := Extracted(testSuites, testCases, nodeIds[0], targets, depth);
      if first.Ok? {
        ExtractedAllGrows(testSuites, testCases, nodeIds[1..], first.value, depth);
        var r := ExtractedAll(testSuites, testCases, nodeIds[1..], first.value, depth);
        if r.Ok? {
          GrowsByTargetsTrans(testSuites, testCases, targets, first.value, r.value);
        }
      }
    }
  }

  /** The call stack only decides whether the traversal completes: with
      more of it the traversal collects the same nodes. */
  lemma {:induction false} ExtractedDeeper(testSuites: map<string, SuiteNode>, testCases: map<string, CaseNode>, nodeId: string,
                                           targets: Targets, depth: nat, more: nat)
    requires depth <= more && Extracted(testSuites, testCases, nodeId, targets, depth).Ok?
    ensures Extracted(testSuites, testCases, nodeId, targets, more) == Extracted(testSuites, testCases, nodeId, targets, depth)
    decreases depth, 0, 0
  {
    if nodeId in testSuites && testSuites[nodeId].isStructuralNode {
      ExtractedAllDeeper(testSuites, testCases, testSuites[nodeId].childrenNodeIds, targets, depth - 1, more - 1);
    }
  }

  lemma {:induction false} ExtractedAllDeeper(testSuites: map<string, SuiteNode>, testCases: map<string, CaseNode>, nodeIds: seq<string>,
                                              targets: Targets, depth: nat, more: nat)
    requires depth <= more && ExtractedAll(testSuites, testCases, nodeIds, targets, depth).Ok?
    ensures ExtractedAll(testSuites, testCases, nodeIds, targets, more) == ExtractedAll(testSuites, testCases, nodeIds, targets, depth)
    decreases depth, 1, |nodeIds|
  {
    if nodeIds != [] {
      ExtractedDeeper(testSuites, testCases, nodeIds[0], targets, depth, more);
      var first := Extracted(testSuites, testCases, nodeIds[0], targets, depth);
      ExtractedAllDeeper(testSuites, testCases, nodeIds[1..], first.value, depth, more);
    }
  }

  // ---------------------------------------------------------------------
  // runTestCases, runTestSuites, runTargetsForSuiteNode, run (lines 113-170)

  /** runTestCase and runTestSuite with the adapter's workspace directory
      bound, as `run` calls them. */
  datatype Runner = Runner(
    runCase: Option<CaseNode> -> Result<Option<TestEvent>, Rejection>,
    runSuite: SuiteNode -> Result<seq<TestEvent>, Rejection>)

  /** The runners of src/test-runner.ts for a workspace directory, a build
      tool run and a test state mapping. */
  function TestRunnerFor(workspaceRootDir: string, run: TestExecutionParameters -> Result<string, string>,
                         stateOf: string -> string): (r: Runner)
    ensures forall testCase :: r.runCase(testCase) == RunTestCase(testCase, workspaceRootDir, run, stateOf)
    ensures forall testSuite :: r.runSuite(testSuite) == RunTestSuite(Some(testSuite), workspaceRootDir, run, stateOf)
  {
    Runner(testCase => RunTestCase(testCase, workspaceRootDir, run, stateOf),
           testSuite => RunTestSuite(Some(testSuite), workspaceRootDir, run, stateOf))
  }

  /** What the adapter relies on of the runners: an undefined case
      rejects, and a suite's events are about tests below the suite. */
  ghost predicate Scoped(runner: Runner) {
    runner.runCase(None).Err?
    && forall testSuite :: runner.runSuite(testSuite).Ok? ==>
         forall e :: e in runner.runSuite(testSuite).value ==> StartsWith(e.test, testSuite.id)
  }

  lemma TestRunnerScoped(workspaceRootDir: string, run: TestExecutionParameters -> Result<string, string>,
                         stateOf: string -> string)
    ensures Scoped(TestRunnerFor(workspaceRootDir, run, stateOf))
  {
  }

  /** Two groups of runs one after the other. */
  function Then(a: Fired, b: Fired): (r: Fired)
    ensures r.events == a.events + b.events && (r.rejected <==> a.rejected || b.rejected)
  {
    Fired(a.events + b.events, a.rejected || b.rejected)
  }

  /** One case's run: its event when the runner resolves, nothing when it
      rejects. */
  function CaseFired(testCase: Option<CaseNode>, runner: Runner): Fired {
    match runner.runCase(testCase)
    case Ok(event) => Fired([TestState(event)], false)
    case Err(_) => Fired([], true)
  }

  /** runTestCases over the first `|testCases|` cases. */
  function CasesFired(testCases: seq<Option<CaseNode>>, runner: Runner): Fired
    decreases |testCases|
  {
    if testCases == [] then Fired([], false)
    else Then(CasesFired(testCases[..|testCases| - 1], runner), CaseFired(testCases[|testCases| - 1], runner))
  }

  /** The state events of a suite's resolved run. */
  function StatesOf(events: seq<TestEvent>): (r: seq<StateEvent>)
    ensures |r| == |events| && forall k :: 0 <= k < |r| ==> r[k] == TestState(Some(events[k]))
  {
    seq(|events|, k requires 0 <= k < |events| => TestState(Some(events[k])))
  }

  /** One suite's run: its events when the runner resolves, nothing when it
      rejects. */
  function SuiteFired(testSuite: SuiteNode, runner: Runner): Fired {
    match runner.runSuite(testSuite)
    case Ok(events) => Fired(StatesOf(events), false)
    case Err(_) => Fired([], true)
  }

  /** runTestSuites over the first `|testSuites|` suites. */
  function SuitesFired(testSuites: seq<SuiteNode>, runner: Runner): Fired
    decreases |testSuites|
  {
    if testSuites == [] then Fired([], false)
    else Then(SuitesFired(testSuites[..|testSuites| - 1], runner), SuiteFired(testSuites[|testSuites| - 1], runner))
  }

  /** runTargetsForSuiteNode: the suites collected from the node are run,
      then, unless one of them rejected, the cases; a traversal that throws
      runs nothing. */
  function TargetsFired(testSuites: map<string, SuiteNode>, testCases: map<string, CaseNode>, nodeId: string,
                        runner: Runner, depth: nat): Fired {
    match Extracted(testSuites, testCases, nodeId, Targets([], []), depth)
    case Err(_) => Fired([], true)
    case Ok(targets) =>
      var suites := SuitesFired(targets.testSuites, runner);
      if suites.rejected then suites else Then(suites, CasesFired(targets.testCases, runner))
  }

  /** One of the ids `run` is given: a case id is run as that case,
      anything else through runTargetsForSuiteNode. */
  function NodeFired(testSuites: map<string, SuiteNode>, testCases: map<string, CaseNode>, nodeId: string,
                     runner: Runner, depth: nat): Fired {
    if nodeId in testCases then CasesFired([Some(testCases[nodeId])], runner)
    else TargetsFired(testSuites, testCases, nodeId, runner, depth)
  }

  /** The state events `run` fires for the first `|nodeIds|` ids; a
      rejection is caught and logged, so it only ends that id's runs. */
  function NodesEvents(testSuites: map<string, SuiteNode>, testCases: map<string, CaseNode>, nodeIds: seq<string>,
                       runner: Runner, depth: nat): seq<StateEvent>
    decreases |nodeIds|
  {
    if nodeIds == [] then []
    else NodesEvents(testSuites, testCases, nodeIds[..|nodeIds| - 1], runner, depth)
         + NodeFired(testSuites, testCases, nodeIds[|nodeIds| - 1], runner, depth).events
  }

  /** Every event a group of case runs fires is a test state. */
  lemma {:induction false} CasesFiredStates(testCases: seq<Option<CaseNode>>, runner: Runner)
    ensures forall e :: e in CasesFired(testCases, runner).events ==> e.TestState?
    decreases |testCases|
  {
    if testCases != [] {
      CasesFiredStates(testCases[..|testCases| - 1], runner);
    }
  }

  /** With scoped runners, every event a group of suite runs fires is a
      defined test state about a test below one of the suites. */
  lemma {:induction false} SuitesFiredStates(testSuites: seq<SuiteNode>, runner: Runner)
    requires Scoped(runner)
    ensures forall e :: e in SuitesFired(testSuites, runner).events ==>
      e.TestState? && e.event.Some? && exists k :: 0 <= k < |testSuites| && StartsWith(e.event.value.test, testSuites[k].id)
    decreases |testSuites|
  {
    if testSuites != [] {
      var init := testSuites[..|testSuites| - 1];
      var last := testSuites[|testSuites| - 1];
      SuitesFiredStates(init, runner);
      forall e | e in SuitesFired(testSuites, runner).events
        ensures e.TestState? && e.event.Some? && exists k :: 0 <= k < |testSuites| && StartsWith(e.event.value.test, testSuites[k].id)
      {
        if e in SuitesFired(init, runner).events {
          var k :| 0 <= k < |init| && StartsWith(e.event.value.test, init[k].id);
          assert testSuites[k] == init[k];
        } else {
          var events := runner.runSuite(last).value;
          var j :| 0 <= j < |events| && e == TestState(Some(events[j]));
          assert events[j] in runner.runSuite(last).value;
          assert testSuites[|testSuites| - 1] == last;
        }
      }
    }
  }

  /** Between the start and the finish `run` fires only test states. */
  lemma {:induction false} NodesEventsStates(testSuites: map<string, SuiteNode>, testCases: map<string, CaseNode>, nodeIds: seq<string>,
                                             runner: Runner, depth: nat)
    ensures forall e :: e in NodesEvents(testSuites, testCases, nodeIds, runner, depth) ==> e.TestState?
    decreases |nodeIds|
  {
    if nodeIds != [] {
      var nodeId := nodeIds[|nodeIds| - 1];
      NodesEventsStates(testSuites, testCases, nodeIds[..|nodeIds| - 1], runner, depth);
      if nodeId in testCases {
        CasesFiredStates([Some(testCases[nodeId])], runner);
      } else {
        var extracted := Extracted(testSuites, testCases, nodeId, Targets([], []), depth);
        if extracted.Ok? {
          SuitesFiredStatesAny(extracted.value.testSuites, runner);
          CasesFiredStates(extracted.value.testCases, runner);
        }
      }
    }
  }

  /** Every event a group of suite runs fires is a test state. */
  lemma {:induction false} SuitesFiredStatesAny(testSuites: seq<SuiteNode>, runner: Runner)
    ensures forall e :: e in SuitesFired(testSuites, runner).events ==> e.TestState?
    decreases |testSuites|
  {
    if testSuites != [] {
      SuitesFiredStatesAny(testSuites[..|testSuites| - 1], runner);
    }
  }

  /** An id of the case map is run as exactly that case: one state event
      when the runner resolves, none when it rejects. */
  lemma CaseIdRunsOnce(testSuites: map<string, SuiteNode>, testCases: map<string, CaseNode>, nodeId: string,
                       runner: Runner, depth: nat)
    requires nodeId in testCases
    ensures var fired := NodeFired(testSuites, testCases, nodeId, runner, depth);
      var result := runner.runCase(Some(testCases[nodeId]));
      (result.Ok? ==> fired.events == [TestState(result.value)]) && (result.Err? ==> fired.events == [])
      && (fired.rejected <==> result.Err?)
  {
    var cases := [Some(testCases[nodeId])];
    assert cases[..0] == [];
    assert CasesFired(cases[..0], runner) == Fired([], false);
    var fired := CaseFired(cases[0], runner);
    assert CasesFired(cases, runner) == Then(Fired([], false), fired);
  }

  /** A non-structural suite that is not a case id is run as that suite
      alone: with scoped runners, its events, each below the suite's id,
      when the runner resolves, nothing when it rejects. */
  lemma SuiteIdRunsSuite(testSuites: map<string, SuiteNode>, testCases: map<string, CaseNode>, nodeId: string,
                         runner: Runner, depth: nat)
    requires nodeId !in testCases && nodeId in testSuites && !testSuites[nodeId].isStructuralNode && depth > 0
    requires Scoped(runner)
    ensures var fired := NodeFired(testSuites, testCases, nodeId, runner, depth);
      var suite := testSuites[nodeId];
      var result := runner.runSuite(suite);
      (result.Ok? ==>
         fired.events == StatesOf(result.value)
         && forall e :: e in fired.events ==> e.event.Some? && StartsWith(e.event.value.test, suite.id))
      && (result.Err? ==> fired.events == [])
  {
    var suite := testSuites[nodeId];
    var suites := [suite];
    assert suites[..0] == [];
    var extracted := Extracted(testSuites, testCases, nodeId, Targets([], []), depth);
    assert extracted.Ok? && extracted.value.testSuites == suites;
    assert extracted.value == Targets([], suites);
    var noCases: seq<Option<CaseNode>> := [];
    assert CasesFired(noCases, runner) == Fired([], false);
    assert SuitesFired(suites[..0], runner) == Fired([], false);
    assert SuitesFired(suites, runner) == Then(Fired([], false), SuiteFired(suite, runner));
    SuitesFiredStates(suites, runner);
  }

  /** An id in neither map is run as an undefined case, which a scoped
      runner rejects without an event. */
  lemma UnknownIdRunsNothing(testSuites: map<string, SuiteNode>, testCases: map<string, CaseNode>, nodeId: string,
                             runner: Runner, depth: nat)
    requires nodeId !in testCases && nodeId !in testSuites && depth > 0
    requires Scoped(runner)
    ensures NodeFired(testSuites, testCases, nodeId, runner, depth) == Fired([], true)
  {
    var undefinedCases: seq<Option<CaseNode>> := [None];
    assert undefinedCases[..0] == [];
    var extracted := Extracted(testSuites, testCases, nodeId, Targets([], []), depth);
    assert extracted.Ok? && extracted.value.testCases == [CaseOf(testCases, nodeId)];
    assert extracted.value == Targets(undefinedCases, []);
  }

  // ---------------------------------------------------------------------
  // The adapter (lines 24-190)

  /** The arrays extractTestTargetsFromNodes pushes into. */
  class TargetRunNodes {
    var testCases: seq<Option<CaseNode>>
    var testSuites: seq<SuiteNode>

    constructor ()
      ensures testCases == [] && testSuites == []
    {
      testCases := [];
      testSuites := [];
    }

    function Contents(): Targets
      reads this
    {
      Targets(testCases, testSuites)
    }
  }

  class RustAdapter {
    const workspaceRootDirectoryPath: string
    var disposables: seq<Disposable>
    var testSuites: map<string, SuiteNode>
    var testCases: map<string, CaseNode>
    /** The events fired on the tests emitter and on the test states
        emitter, oldest first. */
    var testsEvents: seq<LoadEvent>
    var testStatesEvents: seq<StateEvent>
    /** The disposables disposed of, in order. */
    var disposed: seq<Disposable>

    /** The adapter starts with empty maps and holds its three emitters and
        the command it registers (lines 30-46, 85). */
    constructor (workspaceRootDirectoryPath: string)
      ensures this.workspaceRootDirectoryPath == workspaceRootDirectoryPath
      ensures testSuites == map[] && testCases == map[]
      ensures disposables == [TestsEmitter, TestStatesEmitter, AutorunEmitter, OpenTestCommand]
      ensures testsEvents == [] && testStatesEvents == [] && disposed == []
    {
      this.workspaceRootDirectoryPath := workspaceRootDirectoryPath;
      testSuites := map[];
      testCases := map[];
      disposables := [TestsEmitter, TestStatesEmitter, AutorunEmitter, OpenTestCommand];
      testsEvents := [];
      testStatesEvents := [];
      disposed := [];
    }

    /** The handler of the open-test command (lines 49-83): the file and
        the zero-based line the editor is opened at, or undefined when the
        id is not a case or the case has no file.  A missing or zero line
        opens the first line. */
    function OpenTestTarget(testId: string): (r: Option<EditorPosition>)
      reads this
      ensures r.Some? <==> testId in testCases && testCases[testId].file.Some? && testCases[testId].file.value != ""
      ensures r.Some? ==> r.value.file == testCases[testId].file.value
      ensures r.Some? ==> var line := testCases[testId].line;
        r.value.line == if line.Some? && line.value != 0 then line.value - 1 else 0
    {
      if testId !in testCases then None
      else
        var testCase := testCases[testId];
        if testCase.file.None? || testCase.file.value == "" then None
        else
          var line := if testCase.line.Some? && testCase.line.value != 0 then testCase.line.value else 1;
          Some(EditorPosition(testCase.file.value, line - 1))
    }

    /** load (lines 92-111), given what loadWorkspaceTests settles with: a
        loaded result replaces both maps and is sent with the finish; an
        undefined result or a rejection changes neither map. */
    method Load(loadedTests: Result<Option<LoadedTestsResult>, string>)
      modifies this
      ensures loadedTests.Ok? && loadedTests.value.Some? ==>
        var loaded := loadedTests.value.value;
        testCases == loaded.testCasesMap && testSuites == loaded.testSuitesMap
        && testsEvents == old(testsEvents) + [LoadStarted, LoadFinished(Some(LoadedSuite(loaded.infos, loaded.rootTestSuite)))]
      ensures !(loadedTests.Ok? && loadedTests.value.Some?) ==>
        testCases == old(testCases) && testSuites == old(testSuites)
        && testsEvents == old(testsEvents) + [LoadStarted, LoadFinished(None)]
      ensures testStatesEvents == old(testStatesEvents) && disposables == old(disposables) && disposed == old(disposed)
    {
      testsEvents := testsEvents + [LoadStarted];
      if loadedTests.Err? || loadedTests.value.None? {
        testsEvents := testsEvents + [LoadFinished(None)];
      } else {
        var loaded := loadedTests.value.value;
        testCases := loaded.testCasesMap;
        testSuites := loaded.testSuitesMap;
        testsEvents := testsEvents + [LoadFinished(Some(LoadedSuite(loaded.infos, loaded.rootTestSuite)))];
      }
    }

    /** runTestCases (lines 120-125). */
    method RunTestCases(cases: seq<Option<CaseNode>>, runner: Runner)
      returns (rejected: bool)
      modifies this
      ensures var fired := CasesFired(cases, runner);
        testStatesEvents == old(testStatesEvents) + fired.events && rejected == fired.rejected
      ensures testSuites == old(testSuites) && testCases == old(testCases)
      ensures testsEvents == old(testsEvents) && disposables == old(disposables) && disposed == old(disposed)
    {
      rejected := false;
      var i := 0;
      while i < |cases|
        invariant 0 <= i <= |cases|
        invariant var fired := CasesFired(cases[..i], runner);
          testStatesEvents == old(testStatesEvents) + fired.events && rejected == fired.rejected
        invariant testSuites == old(testSuites) && testCases == old(testCases)
        invariant testsEvents == old(testsEvents) && disposables == old(disposables) && disposed == old(disposed)
      {
        assert cases[..i + 1][..i] == cases[..i];
        var result := runner.runCase(cases[i]);
        if result.Ok? {
          testStatesEvents := testStatesEvents + [TestState(result.value)];
        } else {
          rejected := true;
        }
        i := i + 1;
      }
      assert cases[..i] == cases;
    }

    /** runTestSuites (lines 113-118). */
    method RunTestSuites(suites: seq<SuiteNode>, runner: Runner)
      returns (rejected: bool)
      modifies this
      ensures var fired := SuitesFired(suites, runner);
        testStatesEvents == old(testStatesEvents) + fired.events && rejected == fired.rejected
      ensures testSuites == old(testSuites) && testCases == old(testCases)
      ensures testsEvents == old(testsEvents) && disposables == old(disposables) && disposed == old(disposed)
    {
      rejected := false;
      var i := 0;
      while i < |suites|
        invariant 0 <= i <= |suites|
        invariant var fired := SuitesFired(suites[..i], runner);
          testStatesEvents == old(testStatesEvents) + fired.events && rejected == fired.rejected
        invariant testSuites == old(testSuites) && testCases == old(testCases)
        invariant testsEvents == old(testsEvents) && disposables == old(disposables) && disposed == old(disposed)
      {
        assert suites[..i + 1][..i] == suites[..i];
        var result := runner.runSuite(suites[i]);
        if result.Ok? {
          FireTestStates(result.value);
        } else {
          rejected := true;
        }
        i := i + 1;
      }
      assert suites[..i] == suites;
    }

    /** A suite's resolved events, fired one by one (line 116). */
    method FireTestStates(events: seq<TestEvent>)
      modifies this
      ensures testStatesEvents == old(testStatesEvents) + StatesOf(events)
      ensures testSuites == old(testSuites) && testCases == old(testCases)
      ensures testsEvents == old(testsEvents) && disposables == old(disposables) && disposed == old(disposed)
    {
      var k := 0;
      while k < |events|
        invariant 0 <= k <= |events|
        invariant testStatesEvents == old(testStatesEvents) + StatesOf(events[..k])
        invariant testSuites == old(testSuites) && testCases == old(testCases)
        invariant testsEvents == old(testsEvents) && disposables == old(disposables) && disposed == old(disposed)
      {
        assert StatesOf(events[..k + 1]) == StatesOf(events[..k]) + [TestState(Some(events[k]))];
        testStatesEvents := testStatesEvents + [TestState(Some(events[k]))];
        k := k + 1;
      }
      assert events[..k] == events;
    }

    /** extractTestTargetsFromNodes (lines 127-142), with `depth` nested
        calls left before the call stack runs out; `Err` is the RangeError
        thrown then. */
    method ExtractTestTargetsFromNodes(nodeId: string, targetNodes: TargetRunNodes, depth: nat)
      returns (r: Result<(), string>)
      modifies targetNodes
      ensures var extracted := Extracted(testSuites, testCases, nodeId, old(targetNodes.Contents()), depth);
        (r.Err? <==> extracted.Err?) && (extracted.Ok? ==> targetNodes.Contents() == extracted.value)
      decreases depth
    {
      if depth == 0 {
        return Err(RangeError);
      }
      if nodeId in testSuites {
        var node := testSuites[nodeId];
        if node.isStructuralNode {
          var ids := node.childrenNodeIds;
          ghost var start := targetNodes.Contents();
          var i := 0;
          while i < |ids|
            invariant 0 <= i <= |ids|
            invariant ExtractedAll(testSuites, testCases, ids, start, depth - 1)
                   == ExtractedAll(testSuites, testCases, ids[i..], targetNodes.Contents(), depth - 1)
          {
            assert ids[i..][0] == ids[i] && ids[i..][1..] == ids[i + 1..];
            var child := ExtractTestTargetsFromNodes(ids[i], targetNodes, depth - 1);
            if child.Err? {
              return child;
            }
            i := i + 1;
          }
        } else {
          targetNodes.testSuites := targetNodes.testSuites + [node];
        }
      } else {
        targetNodes.testCases := targetNodes.testCases + [CaseOf(testCases, nodeId)];
      }
      return Ok(());
    }

    /** runTargetsForSuiteNode (lines 144-151). */
    method RunTargetsForSuiteNode(nodeId: string, runner: Runner, depth: nat)
      returns (rejected: bool)
      modifies this
      ensures var fired := TargetsFired(old(testSuites), old(testCases), nodeId, runner, depth);
        testStatesEvents == old(testStatesEvents) + fired.events && rejected == fired.rejected
      ensures testSuites == old(testSuites) && testCases == old(testCases)
      ensures testsEvents == old(testsEvents) && disposables == old(disposables) && disposed == old(disposed)
    {
      var targetNodes := new TargetRunNodes();
      var extracted := ExtractTestTargetsFromNodes(nodeId, targetNodes, depth);
      if extracted.Err? {
        return true;
      }
      rejected := RunTestSuites(targetNodes.testSuites, runner);
      if rejected {
        return;
      }
      rejected := RunTestCases(targetNodes.testCases, runner);
    }

    /** run (lines 153-170): the start, each id's runs, the finish; the
        maps are not changed. */
    method Run(nodeIds: seq<string>, run: TestExecutionParameters -> Result<string, string>,
               stateOf: string -> string, depth: nat)
      modifies this
      ensures testStatesEvents == old(testStatesEvents) + [RunStarted(nodeIds)]
        + NodesEvents(old(testSuites), old(testCases), nodeIds, TestRunnerFor(workspaceRootDirectoryPath, run, stateOf), depth)
        + [RunFinished]
      ensures testSuites == old(testSuites) && testCases == old(testCases)
      ensures testsEvents == old(testsEvents) && disposables == old(disposables) && disposed == old(disposed)
    {
      var runner := TestRunnerFor(workspaceRootDirectoryPath, run, stateOf);
      testStatesEvents := testStatesEvents + [RunStarted(nodeIds)];
      RunNodes(nodeIds, runner, depth);
      testStatesEvents := testStatesEvents + [RunFinished];
    }

    /** The runs `run` starts, one id after the other (lines 158-165). */
    method RunNodes(nodeIds: seq<string>, runner: Runner, depth: nat)
      modifies this
      ensures testStatesEvents == old(testStatesEvents) + NodesEvents(old(testSuites), old(testCases), nodeIds, runner, depth)
      ensures testSuites == old(testSuites) && testCases == old(testCases)
      ensures testsEvents == old(testsEvents) && disposables == old(disposables) && disposed == old(disposed)
    {
      var i := 0;
      while i < |nodeIds|
        invariant 0 <= i <= |nodeIds|
        invariant testStatesEvents == old(testStatesEvents) + NodesEvents(testSuites, testCases, nodeIds[..i], runner, depth)
        invariant testSuites == old(testSuites) && testCases == old(testCases)
        invariant testsEvents == old(testsEvents) && disposables == old(disposables) && disposed == old(disposed)
      {
        assert nodeIds[..i + 1][..i] == nodeIds[..i];
        RunNode(nodeIds[i], runner, depth);
        i := i + 1;
      }
      assert nodeIds[..i] == nodeIds;
    }

    /** One id's run (lines 159-164): a case id as that case, anything else
        through runTargetsForSuiteNode. */
    method RunNode(nodeId: string, runner: Runner, depth: nat)
      modifies this
      ensures testStatesEvents == old(testStatesEvents) + NodeFired(old(testSuites), old(testCases), nodeId, runner, depth).events
      ensures testSuites == old(testSuites) && testCases == old(testCases)
      ensures testsEvents == old(testsEvents) && disposables == old(disposables) && disposed == old(disposed)
    {
      var rejected;
      if nodeId in testCases {
        rejected := RunTestCases([Some(testCases[nodeId])], runner);
      } else {
        rejected := RunTargetsForSuiteNode(nodeId, runner, depth);
      }
    }

    /** cancel (lines 177-180): not implemented, it always throws. */
    method Cancel() returns (r: Result<(), string>)
      ensures r == Err(NotImplemented)
    {
      r := Err(NotImplemented);
    }

    /** dispose as written (lines 182-190): it calls cancel first, which
        throws, so the statements after it never run: nothing is disposed
        of and neither map is cleared. */
    method DisposeAsWritten() returns (r: Result<(), string>)
      modifies this
      ensures r == Err(NotImplemented)
      ensures disposables == old(disposables) && disposed == old(disposed)
      ensures testSuites == old(testSuites) && testCases == old(testCases)
      ensures testsEvents == old(testsEvents) && testStatesEvents == old(testStatesEvents)
    {
      r := Cancel();
    }

    /** dispose as intended: every disposable is disposed of, in order, the
        list is emptied and both maps are cleared. */
    method Dispose()
      modifies this
      ensures disposed == old(disposed) + old(disposables) && disposables == []
      ensures testSuites == map[] && testCases == map[]
      ensures testsEvents == old(testsEvents) && testStatesEvents == old(testStatesEvents)
    {
      var i := 0;
      while i < |disposables|
        invariant 0 <= i <= |disposables|
        invariant disposables == old(disposables) && disposed == old(disposed) + disposables[..i]
        invariant testsEvents == old(testsEvents) && testStatesEvents == old(testStatesEvents)
      {
        disposed := disposed + [disposables[i]];
        i := i + 1;
      }
      assert disposables[..i] == disposables;
      disposables := [];
      testCases := map[];
      testSuites := map[];
    }
  }

  /** After a load with a case, dispose as written leaves the case in the
      map and the emitters undisposed, where the intended dispose empties
      both. */
  method DisposeAfterLoad() {
    var testCase := CaseNode("pkg::lib::lib::it_works", "it_works", "pkg::lib::lib", "pkg", None,
                             NodeTarget("lib", "pkg"), None, None);
    var loaded := LoadedTestsResult([SuiteInfo("pkg", "pkg", [])], 0, map[testCase.id := testCase], map[]);
    var adapter := new RustAdapter("/ws");
    adapter.Load(Ok(Some(loaded)));
    var r := adapter.DisposeAsWritten();
    assert r.Err? && testCase.id in adapter.testCases && adapter.disposed == [];
    adapter.Dispose();
    assert adapter.testCases == map[] && adapter.disposed == [TestsEmitter, TestStatesEmitter, AutorunEmitter, OpenTestCommand];
  }
}
