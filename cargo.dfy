/** src/cargo.ts: classifying a package's build targets, the `-p … --lib`
    style target filters, the command lines handed to the build tool, and the
    decision whether a finished process counts as a failure.  The process
    itself is an oracle `exec` from an invocation to its outcome. */
module Cargo {
  import opened Wrappers
  import opened JsStrings
  import opened Interfaces

  /** Target kinds that are tested with `--lib` although their kind is not
      `lib` (src/cargo.ts:18-24). */
  const LibTargetTypes: seq<string> := ["cdylib", "dylib", "proc-macro", "rlib", "staticlib"]

  const Lib := "lib"
  const Bin := "bin"
  const Test := "test"

  /** Target types loaded as unit tests, and as integration tests. */
  const UnitTestTargetTypes: seq<string> := [Bin, Lib]
  const IntegrationTestTargetTypes: seq<string> := [Test]

  /** Default output-buffer sizes of the three process calls. */
  const ListMaxBuffer: nat := 400 * 1024
  const RunMaxBuffer: nat := 200 * 1024

  const ListErrorMessage := "Unable to retrieve enumeration of tests"
  const RunErrorMessage := "Fatal error while attempting to run tests"
  const NullPackageMessage := "Invalid value specified for parameter `cargoPackage`. Unable to load tests for null/undefined package."

  /** A child-process request: command line, working directory, buffer size. */
  datatype Invocation = Invocation(command: string, cwd: string, maxBuffer: nat)

  /** What the process callback receives: an error (for a non-zero exit or
      an overflowing buffer), and the captured streams. */
  datatype ExecOutcome = ExecOutcome(err: Option<string>, stdout: string, stderr: string)

  /** ICargoTestExecutionParameters.  The package name and the two argument
      strings may be undefined. */
  datatype TestExecutionParameters = TestExecutionParameters(
    packageName: Option<string>,
    nodeTarget: NodeTarget,
    targetWorkspace: string,
    cargoSubCommandArgs: Option<string>,
    testBinaryArgs: Option<string>)

  /** The callback of runCargoCommand: reject exactly when the process
      reported an error and either stderr output is not tolerated, or it is
      tolerated only when present and there was none. */
  function Settle(o: ExecOutcome, allowStderr: bool, requireStderr: bool): (r: Result<string, string>)
    ensures r.Err? <==> o.err.Some? && (!allowStderr || (o.stderr == "" && requireStderr))
    ensures r.Ok? ==> r.value == o.stdout
    ensures r.Err? ==> r.error == o.err.value
  {
    if o.err.Some? && !allowStderr then Err(o.err.value)
    else if o.err.Some? && o.stderr == "" && requireStderr then Err(o.err.value)
    else Ok(o.stdout)
  }

  /** With stderr tolerated and not required, a process can never fail. */
  lemma SettleLenient(o: ExecOutcome)
    ensures Settle(o, true, false) == Ok(o.stdout)
  {
  }

  /** The command line `cargo <subCommand> <args>`. */
  function CommandLine(subCommand: string, args: string): string {
    "cargo " + subCommand + " " + args
  }

  /** runCargoCommand: run `cargo <subCommand> <args>` in the workspace. */
  function RunCargoCommand(
    subCommand: string, args: string, targetWorkspace: string, maxBuffer: nat,
    exec: Invocation -> ExecOutcome,
    allowStderr: bool := false, requireStderr: bool := false): (r: Result<string, string>)
    ensures var o := exec(Invocation("cargo " + subCommand + " " + args, targetWorkspace, maxBuffer));
      (r.Err? <==> o.err.Some? && (!allowStderr || (o.stderr == "" && requireStderr)))
      && (r.Ok? ==> r.value == o.stdout) && (r.Err? ==> r.error == o.err.value)
  {
    Settle(exec(Invocation(CommandLine(subCommand, args), targetWorkspace, maxBuffer)), allowStderr, requireStderr)
  }

  /** The argument string of a `--list` run. */
  function ListArgs(testArgs: string): (r: string)
    ensures EndsWith(r, " -- --list") && r[..|r| - 10] == testArgs
  {
    testArgs + " -- --list"
  }

  /** getCargoTestListOutput: a process error is reported as a fixed
      message, anything else yields the transcript. */
  function GetCargoTestListOutput(targetWorkspace: string, exec: Invocation -> ExecOutcome, testArgs: string := ""): (r: Result<string, string>)
    ensures var o := exec(Invocation(CommandLine("test", ListArgs(testArgs)), targetWorkspace, ListMaxBuffer));
      (r.Err? <==> o.err.Some?) && (r.Ok? ==> r.value == o.stdout) && (r.Err? ==> r.error == ListErrorMessage)
  {
    match RunCargoCommand("test", ListArgs(testArgs), targetWorkspace, ListMaxBuffer, exec)
    case Ok(stdout) => Ok(stdout)
    case Err(_) => Err(ListErrorMessage)
  }

  /** getCargoPackageTargetFilter */
  function GetCargoPackageTargetFilter(packageName: string, nodeTarget: NodeTarget): (r: string)
    ensures StartsWith(r, "-p " + packageName + " --")
    ensures nodeTarget.targetType == Lib ==> r == "-p " + packageName + " --lib"
    ensures nodeTarget.targetType == Bin ==> r == "-p " + packageName + " --bin " + nodeTarget.targetName
    ensures nodeTarget.targetType != Lib && nodeTarget.targetType != Bin ==>
      r == "-p " + packageName + " --test " + nodeTarget.targetName
  {
    if nodeTarget.targetType == Lib then "-p " + packageName + " --lib"
    else if nodeTarget.targetType == Bin then "-p " + packageName + " --bin " + nodeTarget.targetName
    else "-p " + packageName + " --test " + nodeTarget.targetName
  }

  /** What a filter asks the build tool for, read back from its words. */
  datatype Selection = Selection(packageName: string, flag: string, targetName: Option<string>)

  /** Splits a filter into its words and reads them as `-p <pkg> --lib` or
      `-p <pkg> --<flag> <name>`. */
  function ReadFilter(filter: string): (r: Option<Selection>)
  {
    var words := Split(filter, " ");
    if |words| == 3 && words[0] == "-p" && words[2] == "--lib" then Some(Selection(words[1], "--lib", None))
    else if |words| == 4 && words[0] == "-p" && (words[2] == "--bin" || words[2] == "--test") then
      Some(Selection(words[1], words[2], Some(words[3])))
    else None
  }

  /** Three space-free words joined by spaces split back into those words. */
  lemma SplitThreeWords(a: string, b: string, c: string)
    requires ' ' !in a && ' ' !in b && ' ' !in c
    ensures Split(a + " " + (b + " " + c), " ") == [a, b, c]
  {
    SplitAfterHead(a, " ", b + " " + c);
    SplitAfterHead(b, " ", c);
    SplitWithoutFirstChar(c, " ");
    ConsThree(a, b, c);
  }

  lemma ConsThree<T>(a: T, b: T, c: T)
    ensures [a] + ([b] + [c]) == [a, b, c]
  {
  }

  lemma ConsFour<T>(a: T, b: T, c: T, d: T)
    ensures [a] + [b, c, d] == [a, b, c, d]
  {
  }

  /** Four space-free words joined by spaces split back into those words. */
  lemma SplitFourWords(a: string, b: string, c: string, d: string)
    requires ' ' !in a && ' ' !in b && ' ' !in c && ' ' !in d
    ensures Split(a + " " + (b + " " + (c + " " + d)), " ") == [a, b, c, d]
  {
    SplitAfterHead(a, " ", b + " " + (c + " " + d));
    SplitThreeWords(b, c, d);
    ConsFour(a, b, c, d);
  }

  /** The lib filter as three words. */
  lemma LibFilterWords(packageName: string)
    ensures "-p " + packageName + " --lib" == "-p" + " " + (packageName + " " + "--lib")
  {
  }

  /** The bin filter as four words. */
  lemma BinFilterWords(packageName: string, targetName: string)
    ensures "-p " + packageName + " --bin " + targetName == "-p" + " " + (packageName + " " + ("--bin" + " " + targetName))
  {
  }

  /** The test filter as four words. */
  lemma TestFilterWords(packageName: string, targetName: string)
    ensures "-p " + packageName + " --test " + targetName == "-p" + " " + (packageName + " " + ("--test" + " " + targetName))
  {
  }

  lemma FilterSelectsLib(packageName: string, nodeTarget: NodeTarget)
    requires ' ' !in packageName && nodeTarget.targetType == Lib
    ensures ReadFilter(GetCargoPackageTargetFilter(packageName, nodeTarget)) == Some(Selection(packageName, "--lib", None))
  {
    LibFilterWords(packageName);
    SplitThreeWords("-p", packageName, "--lib");
  }

  lemma FilterSelectsBin(packageName: string, nodeTarget: NodeTarget)
    requires ' ' !in packageName && ' ' !in nodeTarget.targetName && nodeTarget.targetType == Bin
    ensures ReadFilter(GetCargoPackageTargetFilter(packageName, nodeTarget)) == Some(Selection(packageName, "--bin", Some(nodeTarget.targetName)))
  {
    BinFilterWords(packageName, nodeTarget.targetName);
    SplitFourWords("-p", packageName, "--bin", nodeTarget.targetName);
  }

  lemma FilterSelectsTest(packageName: string, nodeTarget: NodeTarget)
    requires ' ' !in packageName && ' ' !in nodeTarget.targetName
    requires nodeTarget.targetType != Lib && nodeTarget.targetType != Bin
    ensures ReadFilter(GetCargoPackageTargetFilter(packageName, nodeTarget)) == Some(Selection(packageName, "--test", Some(nodeTarget.targetName)))
  {
    TestFilterWords(packageName, nodeTarget.targetName);
    SplitFourWords("-p", packageName, "--test", nodeTarget.targetName);
  }

  /** For names without spaces, a filter selects exactly the package and the
      target it was built from: lib targets by `--lib`, bin targets by
      `--bin <name>`, every other type by `--test <name>`. */
  lemma FilterSelectsTarget(packageName: string, nodeTarget: NodeTarget)
    requires ' ' !in packageName && ' ' !in nodeTarget.targetName
    ensures nodeTarget.targetType == Lib ==>
      ReadFilter(GetCargoPackageTargetFilter(packageName, nodeTarget)) == Some(Selection(packageName, "--lib", None))
    ensures nodeTarget.targetType == Bin ==>
      ReadFilter(GetCargoPackageTargetFilter(packageName, nodeTarget)) == Some(Selection(packageName, "--bin", Some(nodeTarget.targetName)))
    ensures nodeTarget.targetType != Lib && nodeTarget.targetType != Bin ==>
      ReadFilter(GetCargoPackageTargetFilter(packageName, nodeTarget)) == Some(Selection(packageName, "--test", Some(nodeTarget.targetName)))
  {
    if nodeTarget.targetType == Lib {
      FilterSelectsLib(packageName, nodeTarget);
    } else if nodeTarget.targetType == Bin {
      FilterSelectsBin(packageName, nodeTarget);
    } else {
      FilterSelectsTest(packageName, nodeTarget);
    }
  }

  /** getCargoNodeTarget: only the first kind is looked at.  `enumMembers`
      is the set of TargetType members (the enum's file is not part of this
      model; its members are named by their own values). */
  function GetCargoNodeTarget(target: CargoPackageTarget, enumMembers: set<string>): (r: Option<NodeTarget>)
    ensures r.Some? <==> |target.kind| > 0 && (target.kind[0] in LibTargetTypes || target.kind[0] in enumMembers)
    ensures r.Some? ==> r.value.targetName == target.name
    ensures r.Some? && target.kind[0] in LibTargetTypes ==> r.value.targetType == Lib
    ensures r.Some? && target.kind[0] !in LibTargetTypes ==> r.value.targetType == target.kind[0]
  {
    if |target.kind| == 0 then None
    else
      var targetKind := target.kind[0];
      if targetKind in LibTargetTypes then Some(NodeTarget(Lib, target.name))
      else if targetKind in enumMembers then Some(NodeTarget(targetKind, target.name))
      else None
  }

  /** The package root directory: the manifest path without a trailing
      `Cargo.toml` (the separator before it is kept). */
  function PackageRootDirectory(manifestPath: string): (r: string)
    ensures EndsWith(manifestPath, "Cargo.toml") ==> manifestPath == r + "Cargo.toml"
    ensures !EndsWith(manifestPath, "Cargo.toml") ==> r == manifestPath
  {
    if EndsWith(manifestPath, "Cargo.toml") then manifestPath[..|manifestPath| - 10] else manifestPath
  }

  /** The list arguments for one selected target. */
  function TargetListArgs(packageName: string, nodeTarget: NodeTarget, additionalArgs: string): (r: string)
    ensures additionalArgs == "" ==> r == GetCargoPackageTargetFilter(packageName, nodeTarget)
    ensures additionalArgs != "" ==> r == GetCargoPackageTargetFilter(packageName, nodeTarget) + " " + additionalArgs
  {
    GetCargoPackageTargetFilter(packageName, nodeTarget) + (if additionalArgs != "" then " " + additionalArgs else "")
  }

  /** The targets of a package that are listed: those that classify and
      whose type is allowed, in package order. */
  function SelectedTargets(targets: seq<CargoPackageTarget>, allowedTargetTypes: seq<string>, enumMembers: set<string>): (r: seq<NodeTarget>)
    ensures |r| <= |targets|
    ensures forall t :: t in r ==> t.targetType in allowedTargetTypes
  {
    if targets == [] then []
    else
      var head := GetCargoNodeTarget(targets[0], enumMembers);
      var rest := SelectedTargets(targets[1..], allowedTargetTypes, enumMembers);
      if head.Some? && head.value.targetType in allowedTargetTypes then [head.value] + rest else rest
  }

  /** A target is selected iff it classifies and its type is allowed. */
  lemma {:induction false} SelectedTargetsMembers(targets: seq<CargoPackageTarget>, allowedTargetTypes: seq<string>, enumMembers: set<string>, t: NodeTarget)
    ensures t in SelectedTargets(targets, allowedTargetTypes, enumMembers) <==>
      t.targetType in allowedTargetTypes
      && exists i :: 0 <= i < |targets| && GetCargoNodeTarget(targets[i], enumMembers) == Some(t)
  {
    if targets != [] {
      SelectedTargetsMembers(targets[1..], allowedTargetTypes, enumMembers, t);
      var head := GetCargoNodeTarget(targets[0], enumMembers);
      if t.targetType in allowedTargetTypes && head != Some(t) {
        if exists i :: 0 <= i < |targets| && GetCargoNodeTarget(targets[i], enumMembers) == Some(t) {
          var i :| 0 <= i < |targets| && GetCargoNodeTarget(targets[i], enumMembers) == Some(t);
          assert i != 0;
          assert GetCargoNodeTarget(targets[1..][i - 1], enumMembers) == Some(t);
        }
      }
      if t in SelectedTargets(targets[1..], allowedTargetTypes, enumMembers) {
        var i :| 0 <= i < |targets[1..]| && GetCargoNodeTarget(targets[1..][i], enumMembers) == Some(t);
        assert GetCargoNodeTarget(targets[i + 1], enumMembers) == Some(t);
      }
    }
  }

  /** Listing one target fails. */
  predicate ListOutputFails(packageName: string, packageRootDirectory: string, nodeTarget: NodeTarget, additionalArgs: string, exec: Invocation -> ExecOutcome) {
    GetCargoTestListOutput(packageRootDirectory, exec, TargetListArgs(packageName, nodeTarget, additionalArgs)).Err?
  }

  /** Lists every selected target in turn; the first failure wins. */
  function ListTargets(
    packageName: string, packageRootDirectory: string, nodeTargets: seq<NodeTarget>, additionalArgs: string,
    exec: Invocation -> ExecOutcome): (r: Result<seq<TestListResult>, string>)
    ensures r.Ok? ==> |r.value| == |nodeTargets|
  {
    if nodeTargets == [] then Ok([])
    else
      var output := GetCargoTestListOutput(packageRootDirectory, exec, TargetListArgs(packageName, nodeTargets[0], additionalArgs));
      var rest := ListTargets(packageName, packageRootDirectory, nodeTargets[1..], additionalArgs, exec);
      if output.Err? then Err(output.error)
      else if rest.Err? then rest
      else Ok([TestListResult(output.value, nodeTargets[0])] + rest.value)
  }

  /** Listing succeeds exactly when no target's listing fails. */
  lemma {:induction false} ListTargetsSucceeds(
    packageName: string, packageRootDirectory: string, nodeTargets: seq<NodeTarget>, additionalArgs: string,
    exec: Invocation -> ExecOutcome)
    ensures ListTargets(packageName, packageRootDirectory, nodeTargets, additionalArgs, exec).Ok?
      <==> forall i :: 0 <= i < |nodeTargets| ==> !ListOutputFails(packageName, packageRootDirectory, nodeTargets[i], additionalArgs, exec)
  {
    if nodeTargets != [] {
      var tail := nodeTargets[1..];
      ListTargetsSucceeds(packageName, packageRootDirectory, tail, additionalArgs, exec);
      assert forall i :: 0 <= i < |tail| ==> tail[i] == nodeTargets[i + 1];
    }
  }

  /** A successful listing holds one transcript per target, in order. */
  lemma {:induction false} ListTargetsResults(
    packageName: string, packageRootDirectory: string, nodeTargets: seq<NodeTarget>, additionalArgs: string,
    exec: Invocation -> ExecOutcome)
    ensures var r := ListTargets(packageName, packageRootDirectory, nodeTargets, additionalArgs, exec);
      r.Ok? ==> forall i :: 0 <= i < |nodeTargets| ==>
        r.value[i].nodeTarget == nodeTargets[i]
        && GetCargoTestListOutput(packageRootDirectory, exec, TargetListArgs(packageName, nodeTargets[i], additionalArgs)) == Ok(r.value[i].output)
  {
    if nodeTargets != [] {
      var tail := nodeTargets[1..];
      ListTargetsResults(packageName, packageRootDirectory, tail, additionalArgs, exec);
      var r := ListTargets(packageName, packageRootDirectory, nodeTargets, additionalArgs, exec);
      if r.Ok? {
        var rest := ListTargets(packageName, packageRootDirectory, tail, additionalArgs, exec);
        assert r.value[1..] == rest.value;
        forall i | 1 <= i < |nodeTargets|
          ensures r.value[i] == rest.value[i - 1] && nodeTargets[i] == tail[i - 1]
        {
        }
      }
    }
  }

  /** getCargoTestListForPackage: a missing package is rejected before any
      process runs; otherwise every selected target is listed in the package
      root directory, and any failure is reported for the whole package. */
  function GetCargoTestListForPackage(
    cargoPackage: Option<CargoPackage>, allowedTargetTypes: seq<string>, enumMembers: set<string>,
    exec: Invocation -> ExecOutcome, additionalArgs: string := ""): (r: Result<seq<TestListResult>, string>)
    ensures cargoPackage.None? ==> r == Err(NullPackageMessage)
    ensures cargoPackage.Some? && r.Err? ==> r.error == "Failed to load tests for package: " + cargoPackage.value.name + "."
  {
    match cargoPackage
    case None => Err(NullPackageMessage)
    case Some(p) =>
      var selected := SelectedTargets(p.targets, allowedTargetTypes, enumMembers);
      match ListTargets(p.name, PackageRootDirectory(p.manifestPath), selected, additionalArgs, exec)
      case Ok(results) => Ok(results)
      case Err(_) => Err("Failed to load tests for package: " + p.name + ".")
  }

  /** For a package, the listing succeeds exactly when every selected
      target's listing does, and then holds one transcript per selected
      target, in package order. */
  lemma GetCargoTestListForPackageSpec(
    cargoPackage: CargoPackage, allowedTargetTypes: seq<string>, enumMembers: set<string>,
    exec: Invocation -> ExecOutcome, additionalArgs: string)
    ensures var r := GetCargoTestListForPackage(Some(cargoPackage), allowedTargetTypes, enumMembers, exec, additionalArgs);
      var selected := SelectedTargets(cargoPackage.targets, allowedTargetTypes, enumMembers);
      var dir := PackageRootDirectory(cargoPackage.manifestPath);
      (r.Ok? <==> forall i :: 0 <= i < |selected| ==>
        GetCargoTestListOutput(dir, exec, TargetListArgs(cargoPackage.name, selected[i], additionalArgs)).Ok?)
      && (r.Ok? ==> |r.value| == |selected|)
      && (r.Ok? ==> forall i :: 0 <= i < |selected| ==>
            r.value[i].nodeTarget == selected[i] &&
            GetCargoTestListOutput(dir, exec, TargetListArgs(cargoPackage.name, selected[i], additionalArgs)) == Ok(r.value[i].output))
  {
    var selected := SelectedTargets(cargoPackage.targets, allowedTargetTypes, enumMembers);
    var dir := PackageRootDirectory(cargoPackage.manifestPath);
    ListTargetsSucceeds(cargoPackage.name, dir, selected, additionalArgs, exec);
    ListTargetsResults(cargoPackage.name, dir, selected, additionalArgs, exec);
  }

  /** The listed targets all have allowed types. */
  lemma ListedTypesAllowed(
    cargoPackage: Option<CargoPackage>, allowedTargetTypes: seq<string>, enumMembers: set<string>,
    exec: Invocation -> ExecOutcome, additionalArgs: string)
    ensures var r := GetCargoTestListForPackage(cargoPackage, allowedTargetTypes, enumMembers, exec, additionalArgs);
      r.Ok? ==> forall t :: t in r.value ==> t.nodeTarget.targetType in allowedTargetTypes
  {
    var r := GetCargoTestListForPackage(cargoPackage, allowedTargetTypes, enumMembers, exec, additionalArgs);
    if r.Ok? {
      var selected := SelectedTargets(cargoPackage.value.targets, allowedTargetTypes, enumMembers);
      GetCargoTestListForPackageSpec(cargoPackage.value, allowedTargetTypes, enumMembers, exec, additionalArgs);
      forall t | t in r.value
        ensures t.nodeTarget.targetType in allowedTargetTypes
      {
        var i :| 0 <= i < |r.value| && r.value[i] == t;
        assert t.nodeTarget == selected[i] && selected[i] in selected;
      }
    }
  }

  /** getCargoUnitTestListForPackage */
  function GetCargoUnitTestListForPackage(
    cargoPackage: Option<CargoPackage>, enumMembers: set<string>, exec: Invocation -> ExecOutcome, additionalArgs: string := ""): (r: Result<seq<TestListResult>, string>)
    ensures r.Ok? ==> forall t :: t in r.value ==> t.nodeTarget.targetType in {Bin, Lib}
  {
    ListedTypesAllowed(cargoPackage, UnitTestTargetTypes, enumMembers, exec, additionalArgs);
    GetCargoTestListForPackage(cargoPackage, UnitTestTargetTypes, enumMembers, exec, additionalArgs)
  }

  /** getCargoIntegrationTestListForPackage */
  function GetCargoIntegrationTestListForPackage(
    cargoPackage: Option<CargoPackage>, enumMembers: set<string>, exec: Invocation -> ExecOutcome, additionalArgs: string := ""): (r: Result<seq<TestListResult>, string>)
    ensures r.Ok? ==> forall t :: t in r.value ==> t.nodeTarget.targetType == Test
  {
    ListedTypesAllowed(cargoPackage, IntegrationTestTargetTypes, enumMembers, exec, additionalArgs);
    GetCargoTestListForPackage(cargoPackage, IntegrationTestTargetTypes, enumMembers, exec, additionalArgs)
  }

  /** The argument string of a formatted test run. */
  function RunArgs(params: TestExecutionParameters, format: string): (r: string)
  {
    var filter := GetCargoPackageTargetFilter(Show(params.packageName), params.nodeTarget);
    var subArgs := if params.cargoSubCommandArgs.Some? && params.cargoSubCommandArgs.value != "" then " " + params.cargoSubCommandArgs.value else "";
    var binaryArgs := if params.testBinaryArgs.Some? && params.testBinaryArgs.value != "" then " " + params.testBinaryArgs.value else "";
    filter + subArgs + " -- --format " + format + binaryArgs
  }

  /** The run arguments are the filter, then the sub-command arguments when
      there are any, then `-- --format <format>`, then the binary arguments
      when there are any; an empty argument string counts as none. */
  lemma RunArgsShape(params: TestExecutionParameters, format: string, sub: string, bin: string)
    requires sub != "" && bin != ""
    ensures var filter := GetCargoPackageTargetFilter(Show(params.packageName), params.nodeTarget);
      RunArgs(params.(cargoSubCommandArgs := Some(sub), testBinaryArgs := Some(bin)), format)
        == filter + " " + sub + " -- --format " + format + " " + bin
      && RunArgs(params.(cargoSubCommandArgs := Some(sub), testBinaryArgs := None), format)
        == filter + " " + sub + " -- --format " + format
      && RunArgs(params.(cargoSubCommandArgs := None, testBinaryArgs := Some(bin)), format)
        == filter + " -- --format " + format + " " + bin
      && RunArgs(params.(cargoSubCommandArgs := None, testBinaryArgs := None), format)
        == filter + " -- --format " + format
    ensures RunArgs(params.(cargoSubCommandArgs := Some(""), testBinaryArgs := Some("")), format)
      == RunArgs(params.(cargoSubCommandArgs := None, testBinaryArgs := None), format)
  {
  }

  /** runCargoTestsForPackageTargetWithFormat: a run tolerates a failing
      process (failing tests make the process fail), so it resolves with
      whatever was printed. */
  function RunCargoTestsForPackageTargetWithFormat(params: TestExecutionParameters, format: string, exec: Invocation -> ExecOutcome): (r: Result<string, string>)
    ensures r == Ok(exec(Invocation(CommandLine("test", RunArgs(params, format)), params.targetWorkspace, RunMaxBuffer)).stdout)
  {
    match RunCargoCommand("test", RunArgs(params, format), params.targetWorkspace, RunMaxBuffer, exec, true, false)
    case Ok(stdout) => Ok(stdout)
    case Err(_) => Err(RunErrorMessage)
  }

  /** runCargoTestsForPackageTargetWithPrettyFormat */
  function RunCargoTestsForPackageTargetWithPrettyFormat(params: TestExecutionParameters, exec: Invocation -> ExecOutcome): (r: Result<string, string>)
    ensures r == Ok(exec(Invocation(CommandLine("test", RunArgs(params, "pretty")), params.targetWorkspace, RunMaxBuffer)).stdout)
  {
    RunCargoTestsForPackageTargetWithFormat(params, "pretty", exec)
  }
}
