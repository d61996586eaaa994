/** The file-location heuristic of initializeTestNode
    (src/parsers/test-list-parser.ts, lines 62-156): where a listed test's
    source file probably is, from the package's manifest path, the target
    and the test's module path, and on which line the test's name first
    occurs in it.  Reading the file is the parameter `readFile`, which gives
    `None` when the file cannot be read. */
module TestFileLocation {
  import opened Wrappers
  import opened JsStrings
  import opened Interfaces

  /** Manifest paths under this prefix belong to the unit tests' mock
      packages and get no location. */
  const MockManifestPrefix := "/foo/bar/"
  const ManifestFileName := "Cargo.toml"

  /** The manifest path ends in a path separator followed by `Cargo.toml`. */
  predicate HasManifestSuffix(manifestPath: string) {
    EndsWith(manifestPath, "/" + ManifestFileName) || EndsWith(manifestPath, "\\" + ManifestFileName)
  }

  /** `manifestPath.replace(/[\/\\]Cargo\.toml$/, '')`: the package's
      directory, without a trailing separator. */
  function PackageDirectory(manifestPath: string): (r: string)
    ensures HasManifestSuffix(manifestPath) ==>
      |r| + 11 == |manifestPath| && manifestPath == r + [manifestPath[|r|]] + ManifestFileName
      && manifestPath[|r|] in "/\\"
    ensures !HasManifestSuffix(manifestPath) ==> r == manifestPath
  {
    if HasManifestSuffix(manifestPath) then
      var r := manifestPath[..|manifestPath| - 11];
      var suffix := manifestPath[|r|..];
      assert manifestPath == r + suffix;
      assert suffix == "/" + ManifestFileName || suffix == "\\" + ManifestFileName;
      assert suffix[1..] == ManifestFileName;
      assert manifestPath[|r| + 1..] == suffix[1..];
      r
    else manifestPath
  }

  /** Line `n` (1-based) is the first of `lines` that mentions `testName`. */
  predicate LineMentions(lines: seq<string>, n: int, testName: string) {
    1 <= n <= |lines| && Includes(lines[n - 1], testName)
    && forall k :: 0 <= k < n - 1 ==> !Includes(lines[k], testName)
  }

  /** `content.split('\n').findIndex(line => line.includes(testName))`,
      turned into a 1-based line number; `undefined` when the file cannot
      be read or no line contains the name. */
  function LineOf(content: Option<string>, testName: string): (r: Option<int>)
    ensures content.None? ==> r.None?
    ensures r.Some? ==> content.Some? && LineMentions(Split(content.value, "\n"), r.value, testName)
    ensures content.Some? && r.None? ==>
      var lines := Split(content.value, "\n");
      forall k :: 0 <= k < |lines| ==> !Includes(lines[k], testName)
  {
    match content
    case None => None
    case Some(text) =>
      var lineNumber := FindIndexIncluding(Split(text, "\n"), testName);
      if lineNumber > -1 then Some(lineNumber + 1) else None
  }

  /** Array.prototype.findIndex(part => part === p) */
  function FindIndexEqual(parts: seq<string>, p: string): (r: int)
    ensures -1 <= r < |parts|
    ensures r >= 0 ==> parts[r] == p && p !in parts[..r]
    ensures r == -1 <==> p !in parts
  {
    if parts == [] then -1
    else if parts[0] == p then 0
    else
      var r := FindIndexEqual(parts[1..], p);
      assert parts == [parts[0]] + parts[1..];
      if r < 0 then -1
      else
        assert parts[..r + 1] == [parts[0]] + parts[1..][..r];
        r + 1
  }

  /** Array.prototype.slice(0, end): a negative end counts from the back. */
  function SliceTo<T>(parts: seq<T>, end: int): (r: seq<T>)
    ensures end >= 0 ==> r == parts[..if end < |parts| then end else |parts|]
    ensures end < 0 ==> r == parts[..if |parts| + end > 0 then |parts| + end else 0]
  {
    if end >= 0 then parts[..if end < |parts| then end else |parts|]
    else parts[..if |parts| + end > 0 then |parts| + end else 0]
  }

  /** Some module-path segment (the test's own name included) mentions
      `test`. */
  predicate MentionsTest(parts: seq<string>) {
    exists i :: 0 <= i < |parts| && Includes(parts[i], "test")
  }

  /** The file of a unit test of the library target: `src/lib.rs` for the
      test modules, otherwise the file named after the parent modules. */
  function LibraryFile(packageDir: string, parts: seq<string>): (r: string)
    ensures (|parts| > 0 && parts[0] == "tests") || MentionsTest(parts) ==> r == packageDir + "/src/lib.rs"
    ensures !((|parts| > 0 && parts[0] == "tests") || MentionsTest(parts)) ==>
      var modulePath := Join(SliceTo(parts, -1), "/");
      r == packageDir + "/src/" + (if modulePath != "" then modulePath else "lib") + ".rs"
  {
    if (|parts| > 0 && parts[0] == "tests") || MentionsTest(parts) then packageDir + "/src/lib.rs"
    else
      var modulePath := Join(SliceTo(parts, -1), "/");
      if modulePath != "" then packageDir + "/src/" + modulePath + ".rs" else packageDir + "/src/lib.rs"
  }

  /** The module path of a test of the package's main binary as written:
      the segments before the first `tests` segment, or, when there is
      none, every segment but the test's own name (`slice(0, -1)`). */
  function MainBinaryStemAsWritten(parts: seq<string>): (r: string)
    ensures "tests" in parts ==> r == Join(parts[..FindIndexEqual(parts, "tests")], "/")
    ensures "tests" !in parts ==> r == Join(SliceTo(parts, -1), "/")
  {
    Join(SliceTo(parts, FindIndexEqual(parts, "tests")), "/")
  }

  /** As written, a test in the main binary's top-level `tests` module, or
      one at the binary's root, is located in the file `src/.rs`. */
  lemma MainBinaryStemAsWrittenEmpty()
    ensures MainBinaryStemAsWritten(["tests", "it_works"]) == ""
    ensures MainBinaryStemAsWritten(["it_works"]) == ""
  {
    assert FindIndexEqual(["tests", "it_works"], "tests") == 0;
    assert ["tests", "it_works"][..0] == [];
    assert FindIndexEqual(["it_works"], "tests") == -1;
    assert ["it_works"][..0] == [];
  }

  /** The module path the main binary's tests are located by, falling back
      to the binary's own `main` file when the module path is empty (as the
      library branch falls back to `lib`). */
  function MainBinaryStem(parts: seq<string>): (r: string)
    ensures r != ""
    ensures MainBinaryStemAsWritten(parts) != "" ==> r == MainBinaryStemAsWritten(parts)
  {
    var modulePath := MainBinaryStemAsWritten(parts);
    if modulePath != "" then modulePath else "main"
  }

  /** Where a listed test is: the file (with every `\` turned into `/`)
      and, for integration tests and the main binary's tests, the line. */
  datatype Location = Location(file: Option<string>, line: Option<int>)

  /** No location is inferred for an empty manifest path, an empty test
      path or a mock package. */
  predicate Locatable(manifestPath: string, trimmedModulePathParts: string) {
    manifestPath != "" && trimmedModulePathParts != "" && !StartsWith(manifestPath, MockManifestPrefix)
  }

  /** The file of an integration test, before separators are normalised. */
  function IntegrationTestFile(packageDir: string, nodeTarget: NodeTarget): string {
    packageDir + "/tests/" + nodeTarget.targetName + ".rs"
  }

  /** The file of a test of the package's main binary, named after the
      module-path stem, before separators are normalised. */
  function MainBinaryFile(packageDir: string, stem: string): string {
    packageDir + "/src/" + stem + ".rs"
  }

  /** The file of a test of another binary target. */
  function OtherBinaryFile(packageDir: string, nodeTarget: NodeTarget): string {
    packageDir + "/src/bin/" + nodeTarget.targetName + ".rs"
  }

  /** The location initializeTestNode records for a test, by target type,
      where the tests of the main binary are located by `mainBinaryStem`. */
  function LocationBy(
    mainBinaryStem: seq<string> -> string,
    manifestPath: string, packageName: string, trimmedModulePathParts: string, testName: string,
    nodeTarget: NodeTarget, readFile: string -> Option<string>): Location
  {
    if !Locatable(manifestPath, trimmedModulePathParts) then Location(None, None)
    else
      var packageDir := PackageDirectory(manifestPath);
      // `split` gives at least one piece, so the source's length check always holds
      var parts := Split(trimmedModulePathParts, "::");
      if nodeTarget.targetType == "test" then
        var file := IntegrationTestFile(packageDir, nodeTarget);
        Location(Some(ReplaceBackslashes(file)), LineOf(readFile(file), testName))
      else if nodeTarget.targetType == "lib" then
        Location(Some(ReplaceBackslashes(LibraryFile(packageDir, parts))), None)
      else if nodeTarget.targetType == "bin" then
        if nodeTarget.targetName == packageName then
          var file := MainBinaryFile(packageDir, mainBinaryStem(parts));
          Location(Some(ReplaceBackslashes(file)), LineOf(readFile(file), testName))
        else Location(Some(ReplaceBackslashes(OtherBinaryFile(packageDir, nodeTarget))), None)
      else Location(None, None)
  }

  /** The location of a test, with the corrected main-binary stem. */
  function TestLocation(
    manifestPath: string, packageName: string, trimmedModulePathParts: string, testName: string,
    nodeTarget: NodeTarget, readFile: string -> Option<string>): (r: Location)
    ensures !Locatable(manifestPath, trimmedModulePathParts) ==> r == Location(None, None)
    ensures r.file.Some? <==> Locatable(manifestPath, trimmedModulePathParts) && nodeTarget.targetType in ["test", "lib", "bin"]
    ensures r.file.Some? ==> r.file.value != "" && '\\' !in r.file.value
    ensures r.line.Some? ==> r.file.Some? && r.line.value >= 1
    ensures r.line.Some? ==> nodeTarget.targetType == "test" || (nodeTarget.targetType == "bin" && nodeTarget.targetName == packageName)
  {
    LocationBy(MainBinaryStem, manifestPath, packageName, trimmedModulePathParts, testName, nodeTarget, readFile)
  }

  /** The location of a test as the source computes it, with the stem
      that can be empty. */
  function TestLocationAsWritten(
    manifestPath: string, packageName: string, trimmedModulePathParts: string, testName: string,
    nodeTarget: NodeTarget, readFile: string -> Option<string>): (r: Location)
    ensures r.file.Some? <==> Locatable(manifestPath, trimmedModulePathParts) && nodeTarget.targetType in ["test", "lib", "bin"]
    ensures r.file.Some? ==> r.file.value != "" && '\\' !in r.file.value
  {
    LocationBy(MainBinaryStemAsWritten, manifestPath, packageName, trimmedModulePathParts, testName, nodeTarget, readFile)
  }

  /** A test of the main binary whose module-path stem, as written, is
      empty. */
  predicate EmptyMainBinaryStem(manifestPath: string, packageName: string, trimmedModulePathParts: string, nodeTarget: NodeTarget) {
    Locatable(manifestPath, trimmedModulePathParts) && nodeTarget.targetType == "bin" && nodeTarget.targetName == packageName
    && MainBinaryStemAsWritten(Split(trimmedModulePathParts, "::")) == ""
  }

  /** The corrected location differs from the source's exactly for the
      main binary's tests with an empty stem: there the source records
      `src/.rs` and the corrected one `src/main.rs`; every other test gets
      the same location from both. */
  lemma LocationAsWrittenDiffers(
    manifestPath: string, packageName: string, trimmedModulePathParts: string, testName: string,
    nodeTarget: NodeTarget, readFile: string -> Option<string>)
    ensures var asWritten := TestLocationAsWritten(manifestPath, packageName, trimmedModulePathParts, testName, nodeTarget, readFile);
      var corrected := TestLocation(manifestPath, packageName, trimmedModulePathParts, testName, nodeTarget, readFile);
      (asWritten.file != corrected.file <==> EmptyMainBinaryStem(manifestPath, packageName, trimmedModulePathParts, nodeTarget))
      && (!EmptyMainBinaryStem(manifestPath, packageName, trimmedModulePathParts, nodeTarget) ==> asWritten == corrected)
  {
    if EmptyMainBinaryStem(manifestPath, packageName, trimmedModulePathParts, nodeTarget) {
      var packageDir := PackageDirectory(manifestPath);
      var written := ReplaceBackslashes(MainBinaryFile(packageDir, ""));
      var fixed := ReplaceBackslashes(MainBinaryFile(packageDir, "main"));
      assert |written| != |fixed|;
    }
  }

  /** An integration test is located in `tests/<target>.rs` of the package,
      on the first line of that file that mentions its name. */
  lemma IntegrationTestLocation(
    manifestPath: string, packageName: string, trimmedModulePathParts: string, testName: string,
    nodeTarget: NodeTarget, readFile: string -> Option<string>)
    requires Locatable(manifestPath, trimmedModulePathParts) && nodeTarget.targetType == "test"
    ensures var file := IntegrationTestFile(PackageDirectory(manifestPath), nodeTarget);
      TestLocation(manifestPath, packageName, trimmedModulePathParts, testName, nodeTarget, readFile)
        == Location(Some(ReplaceBackslashes(file)), LineOf(readFile(file), testName))
  {
  }

  /** A test of the main binary is located in the file of its module path,
      on the first line of that file that mentions its name. */
  lemma MainBinaryLocation(
    manifestPath: string, packageName: string, trimmedModulePathParts: string, testName: string,
    nodeTarget: NodeTarget, readFile: string -> Option<string>)
    requires Locatable(manifestPath, trimmedModulePathParts)
    requires nodeTarget.targetType == "bin" && nodeTarget.targetName == packageName
    ensures var file := MainBinaryFile(PackageDirectory(manifestPath), MainBinaryStem(Split(trimmedModulePathParts, "::")));
      TestLocation(manifestPath, packageName, trimmedModulePathParts, testName, nodeTarget, readFile)
        == Location(Some(ReplaceBackslashes(file)), LineOf(readFile(file), testName))
  {
  }

  /** A unit test of the library gets the library file of its module path
      and no line. */
  lemma LibraryLocation(
    manifestPath: string, packageName: string, trimmedModulePathParts: string, testName: string,
    nodeTarget: NodeTarget, readFile: string -> Option<string>)
    requires Locatable(manifestPath, trimmedModulePathParts) && nodeTarget.targetType == "lib"
    ensures var file := LibraryFile(PackageDirectory(manifestPath), Split(trimmedModulePathParts, "::"));
      TestLocation(manifestPath, packageName, trimmedModulePathParts, testName, nodeTarget, readFile)
        == Location(Some(ReplaceBackslashes(file)), None)
  {
  }

  /** A test of another binary gets `src/bin/<target>.rs` and no line. */
  lemma OtherBinaryLocation(
    manifestPath: string, packageName: string, trimmedModulePathParts: string, testName: string,
    nodeTarget: NodeTarget, readFile: string -> Option<string>)
    requires Locatable(manifestPath, trimmedModulePathParts)
    requires nodeTarget.targetType == "bin" && nodeTarget.targetName != packageName
    ensures TestLocation(manifestPath, packageName, trimmedModulePathParts, testName, nodeTarget, readFile)
        == Location(Some(ReplaceBackslashes(OtherBinaryFile(PackageDirectory(manifestPath), nodeTarget))), None)
  {
  }
}
