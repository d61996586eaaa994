# Rust test adapter for the VS Code Test Explorer — a Dafny model

The adapter discovers the tests of a Cargo workspace and runs them for the
Test Explorer UI. It asks `cargo test -- --list` for every test target of a
package, turns the listing into a tree of suites and test cases, runs cases
and suites with `cargo test … -- --format pretty`, and turns the pretty
transcript into test events.

This project models the adapter's core and proves properties of the model.
The modules:

- `Wrappers`: `Option` and `Result`, which stand for JavaScript's `undefined` and for rejected promises.
- `JsStrings`: the JavaScript string built-ins the parsers use (`indexOf`, `split`, `join`, `substring`, `trim`, `toLowerCase` on ASCII letters, …), written out over `seq<char>`. It also proves the splitting facts the parsers rely on.
- `Interfaces`: the records passed around (package, target, node, test descriptor).
- `Utils` (`src/utils.ts`): the node and descriptor constructors.
- `Cargo` (`src/cargo.ts`):
  - target classification and `-p … --lib/--bin/--test` filters;
  - the command lines handed to `cargo`;
  - when a finished process counts as a failure.

  The process itself is an oracle `exec`.
- `PrettyParser` (`src/parsers/pretty-test-result-parser.ts`): the pretty transcript becomes one event per `test … ... status` line, with messages from the `failures:` section. The three regular expressions are explicit predicates.
- `PrettyTranscripts`: rendered transcripts parse back to their results.
- `TestFileLocation` (`src/parsers/test-list-parser.ts`, lines 62-156): the heuristic that guesses a test's source file and line.
- `TestListParser` (`src/parsers/test-list-parser.ts`): the test listing becomes the explorer tree and the suite and case maps.
  - The tree is an arena: a `seq<Info>` whose `children` are indices into it.
  - Reading `.childrenNodeIds` or `.children` of an undefined node throws a `TypeError`. The model records this as the sticky flag `failed`.
  - The `TestTreeBuilder` class holds the mutable state. Its methods are proved equal to the pure functions of the same module.
- `TestRunner` (`src/test-runner.ts`): running one case or one suite, and the events each produces.
- `RustAdapter` (`src/rust-adapter.ts`): the adapter object, which
  - loads;
  - extracts the targets of a node recursively;
  - runs nodes and fires state events;
  - handles the click on a test;
  - gets disposed.

  The event emitters are logs (`seq`) that the methods append to.

### Boundaries of the model

These are parameters of the model:

- the child process (`exec`);
- the test run (`run`);
- the mapping from a result word to an event state (`stateOf`, from `getTestEventState`);
- reading a source file (`readFile`);
- the set of `TargetType` enum values (`enumMembers`).

Call-stack exhaustion in the mutual recursion of node extraction appears as an explicit `depth` bound. When the bound runs out, the result is `RangeError`.

### Behaviours of the code that the model keeps

- Test descriptors are appended to their parent suite unconditionally, so a listing that names a test twice gives two children with the same id.
- A test `a` followed by `a::b` does not throw. No module suite `a` is registered yet, so a fresh suite descriptor `a` is made. It is not linked, because a child with that id (the test `a`) already exists, and `b` is pushed into the unlinked descriptor.
- A further test `a::c` then throws (`failed`). The module suite `a` is now registered, so `find` returns the test descriptor `a`, which has no children to push into.
- A target listed twice gets a fresh target descriptor with no children. A test of the second listing inside a module that the first listing registered then throws (`failed`): the module suite is found in the map but not among the new descriptor's children, so the current node becomes undefined. A root-level test, or one in a module the first listing did not have, is added under the second target descriptor without a throw.
- No node is ever created as structural.
- Only the package root suite node records child ids (those of its targets). Target and module suite nodes keep `childrenNodeIds` empty.
- The collapse of a single-target package at `src/parsers/test-list-parser.ts:251-253` replaces the root's children by those of the one child, cast to a suite. The model's `Collapse` also checks that the child is an in-range suite descriptor. `CollapseGuardOfRoot` proves that on every tree the parser builds this extra check holds, so the model collapses exactly when the source does.

## Model

| member | source | states |
|---|---|---|
| Utils.CreateEmptyTestSuiteNode | src/utils.ts:11-28 | A new suite node has the given id and spec name, no children and no targets. It has a package name exactly when a package is given, and that name is the package's. |
| Utils.CreateTestCaseNode | src/utils.ts:30-38 | A new case node carries the given id, package, target, prefix and spec name. It has no category, file or line yet. |
| Utils.CreateTestSuiteInfo | src/utils.ts:40-47 | A suite descriptor with the given id and label and no children. |
| Utils.CreateTestInfo | src/utils.ts:49-65 | A test descriptor keeps the file only when it is a non-empty string, and the line only when it is positive. |
| Cargo.Settle | src/cargo.ts:40-49 | A process outcome fails exactly when the process reported an error and stderr is not tolerated. Otherwise the result is stdout. A failure carries the process error. |
| Cargo.SettleLenient | src/cargo.ts:190 | With stderr allowed and not required, every outcome settles to its stdout. |
| Cargo.RunCargoCommand | src/cargo.ts:27-50 | `cargo <sub-command> <args>` is run in the workspace with the given buffer. The run fails exactly when the process reports an error and stderr is either not allowed, or required and absent. A failure carries the process error; otherwise the result is stdout. |
| Cargo.ListArgs | src/cargo.ts:77 | The listing arguments are the test arguments followed by ` -- --list`. |
| Cargo.GetCargoTestListOutput | src/cargo.ts:70-86 | The listing fails exactly when `cargo test … -- --list` fails in the workspace directory with a 400 KiB buffer. The failure has a fixed message; success gives stdout. |
| Cargo.GetCargoPackageTargetFilter | src/cargo.ts:88-97 | The filter is `-p <package> --lib` for a library, `--bin <name>` for a binary, and `--test <name>` for any other kind. |
| Cargo.FilterSelectsLib | src/cargo.ts:88-97 | For a library target, the filter reads back as the package with `--lib` and no name when split at spaces. |
| Cargo.FilterSelectsBin | src/cargo.ts:88-97 | For a binary target, the filter reads back as the package, `--bin` and the target name. |
| Cargo.FilterSelectsTest | src/cargo.ts:88-97 | For any other target kind, the filter reads back as the package, `--test` and the target name. |
| Cargo.FilterSelectsTarget | src/cargo.ts:88-97 | For every target kind, the filter reads back as the package and the selector that kind calls for. |
| Cargo.GetCargoNodeTarget | src/cargo.ts:99-117 | A target is recognised exactly when its first kind is a library kind or an enum value. Library kinds map to `lib`; other kinds keep their kind; the name is kept. |
| Cargo.PackageRootDirectory | src/cargo.ts:130 | The package directory is the manifest path with a trailing `Cargo.toml` removed, or the path itself when it has none. |
| Cargo.TargetListArgs | src/cargo.ts:139-140 | A target's listing arguments are its filter, followed by the additional arguments when there are any. |
| Cargo.SelectedTargets | src/cargo.ts:134-144 | The selected targets number at most the package's targets, and every one has an allowed type. |
| Cargo.SelectedTargetsMembers | src/cargo.ts:134-144 | A node target is selected exactly when some package target maps to it and its type is allowed. |
| Cargo.ListOutputFails | src/cargo.ts:139-141 | Not a contract of its own: one target's listing fails. `Cargo.ListTargetsSucceeds` states that listing all targets succeeds exactly when no target's listing fails. |
| Cargo.ListTargets | src/cargo.ts:134-144 | On success, the listing holds one result per selected target. |
| Cargo.ListTargetsSucceeds | src/cargo.ts:134-144 | Listing all targets succeeds exactly when no target's listing fails. |
| Cargo.ListTargetsResults | src/cargo.ts:134-144 | Each result pairs the i-th target with exactly the output of that target's listing. |
| Cargo.GetCargoTestListForPackage | src/cargo.ts:119-150 | An undefined package is rejected with the null-package message. Any other failure names the package. |
| Cargo.GetCargoTestListForPackageSpec | src/cargo.ts:128-144 | For a defined package, the result succeeds exactly when every selected target lists without error in the package directory. The results are then those listings in target order. |
| Cargo.ListedTypesAllowed | src/cargo.ts:136 | Every loaded listing belongs to a target of an allowed type. |
| Cargo.GetCargoUnitTestListForPackage | src/cargo.ts:152-163 | Unit-test listings come only from `bin` and `lib` targets. |
| Cargo.GetCargoIntegrationTestListForPackage | src/cargo.ts:165-176 | Integration-test listings come only from `test` targets. |
| Cargo.RunArgs | src/cargo.ts:186-189 | Not a contract of its own: the argument string of a formatted run. `Cargo.RunArgsShape` states its shape. |
| Cargo.RunArgsShape | src/cargo.ts:186-189 | The run command is the filter, then the sub-command arguments, then `-- --format <format>`, then the test-binary arguments. All four combinations of present and absent optional parts are stated, and an empty argument string counts as absent. |
| Cargo.RunCargoTestsForPackageTargetWithFormat | src/cargo.ts:178-197 | A run never fails on the process outcome. It yields stdout of `cargo test` with the run arguments, in the workspace, with a 200 KiB buffer. |
| Cargo.RunCargoTestsForPackageTargetWithPrettyFormat | src/cargo.ts:199-204 | The pretty run is the formatted run with format `pretty`. |
| TestRunner.FailureLog | src/test-runner.ts:41-43 | Not a contract of its own: the debug line `<prefix><name>. Details: <error>`. `TestRunner.RunTestCase` and `TestRunner.RunTestSuite` state that every rejection carries it. |
| TestRunner.PrettyRun | src/test-runner.ts:37 | Not a contract of its own: the pretty-format `cargo test` run that the runner awaits. `TestRunner.DefinedSuiteResolves` states that with it a defined suite never rejects. |
| TestRunner.FailureName | src/test-runner.ts:41 | A failure log names the spec name when it is defined and non-empty, and `unknown` otherwise. |
| TestRunner.FirstOf | src/test-runner.ts:39 | The first element is undefined exactly for an empty sequence. |
| TestRunner.RunTestCase | src/test-runner.ts:21-46 | An undefined case is rejected with the undefined-node error. Otherwise the run is rejected exactly when the command fails; success gives the first event parsed from the output under the node's prefix. |
| TestRunner.CaseParams | src/test-runner.ts:29-36 | Not a contract of its own: the parameters of a single-case run. `TestRunner.CaseRunArguments` states the command they produce. |
| TestRunner.CaseRunArguments | src/test-runner.ts:29-36 | A case runs with its target filter, its spec name, `--format pretty` and `--exact`. |
| TestRunner.DefinedCaseResolves | src/test-runner.ts:37-39 | With the real cargo runner, a defined case always resolves, to the first event of its transcript. |
| TestRunner.SuiteTargetPrefix | src/test-runner.ts:65 | Not a contract of its own: the event id prefix `<package>::<target name>::<target type>` of one target's run. `TestRunner.SuiteTargetsCons` states the events produced under it. |
| TestRunner.SuiteParams | src/test-runner.ts:66-72 | Not a contract of its own: the parameters of one target's run. `TestRunner.SuiteRunArguments` states the command they produce. |
| TestRunner.TargetEvents | src/test-runner.ts:73-74 | Not a contract of its own: one target's parsed events, kept when their id starts with the suite's id. `TestRunner.EventsUnder` and `TestRunner.SuiteTargetsCons` state the contents. |
| TestRunner.EventsUnder | src/test-runner.ts:74 | The kept events are exactly those whose test id starts with the suite id. |
| TestRunner.SuiteTargetsEvents | src/test-runner.ts:64-77 | Every event of a resolved run lies under the suite's id. That the events are the targets' filtered events concatenated in target order is stated by `TestRunner.SuiteTargetsCons`. |
| TestRunner.RunTestSuite | src/test-runner.ts:56-84 | An undefined suite is rejected. A defined suite's events all lie under its id, and a rejection carries the suite's failure log. |
| TestRunner.SuiteTargetsSucceed | src/test-runner.ts:64-77 | A suite run succeeds exactly when every target's run succeeds. |
| TestRunner.SuiteTargetsFirstError | src/test-runner.ts:64-82 | The rejection is that of the first failing target in target order. |
| TestRunner.SuiteTargetsCons | src/test-runner.ts:64-77 | A succeeding first target contributes its events ahead of the rest. |
| TestRunner.DefinedSuiteResolves | src/test-runner.ts:73-77 | With the real cargo runner, a defined suite always resolves. |
| TestRunner.SuiteRunArguments | src/test-runner.ts:66-72 | A suite target runs with its filter, the suite's spec name, `--no-fail-fast` and `--format pretty`. |
| PrettyParser.ResultText | src/parsers/pretty-test-result-parser.ts:16-17 | Not a contract of its own: the lower-cased text before the first newline, where a newline at index 0 counts as none. The three `RightHandSide…` lemmas state it case by case. |
| PrettyParser.InlineMessage | src/parsers/pretty-test-result-parser.ts:20-24 | Not a contract of its own: the trimmed text after the first newline, when that newline is past index 0 and text follows it. The three `RightHandSide…` lemmas state it case by case. |
| PrettyParser.RightHandSideOneLine | src/parsers/pretty-test-result-parser.ts:16-26 | A result with no newline after index 0 is its whole lower-cased text, with no message. |
| PrettyParser.RightHandSideLeadingNewline | src/parsers/pretty-test-result-parser.ts:16-26 | A result starting with a newline is treated as one line. |
| PrettyParser.RightHandSideFirstNewline | src/parsers/pretty-test-result-parser.ts:16-26 | Otherwise the result word is the text before the first newline. The message is the trimmed remainder, when there is one. |
| PrettyParser.ParseTestResult | src/parsers/pretty-test-result-parser.ts:6-27 | The event id is the prefix, `::` and the text before ` ... `. A line without a result is `errored` with no message; otherwise the state comes from the result word. |
| PrettyParser.ParseTestResultOfLine | src/parsers/pretty-test-result-parser.ts:6-27 | `name ... ok` parses to the named test with the state of `ok` and no message. |
| PrettyParser.ParseTestResultWithoutSeparator | src/parsers/pretty-test-result-parser.ts:11-14 | A line without ` ... ` is an errored event for the whole line. |
| PrettyParser.WhitespaceEnd | src/parsers/pretty-test-result-parser.ts:33 | The end of a maximal run of whitespace. |
| PrettyParser.FirstFailuresMatch | src/parsers/pretty-test-result-parser.ts:33 | The leftmost match of `failures:\s*\n\n----`, or -1 exactly when there is none. |
| PrettyParser.SectionEnd | src/parsers/pretty-test-result-parser.ts:33 | The lazy section stops at the first `\n\nfailures:`, `test result:` or the end of the text. |
| PrettyParser.FailuresSection | src/parsers/pretty-test-result-parser.ts:33-35 | A failures section exists exactly when the pattern matches somewhere, and it starts with `----`. |
| PrettyParser.KeyEndFrom | src/parsers/pretty-test-result-parser.ts:44 | The first end of a non-empty key followed by whitespace and `stdout` within one line, from a position on. |
| PrettyParser.KeyEnd | src/parsers/pretty-test-result-parser.ts:44 | The shortest key of `^(.+?)\s+stdout` on the first line, or -1 exactly when it does not match. |
| PrettyParser.JoinRestLines | src/parsers/pretty-test-result-parser.ts:48 | Rejoining the lines after the first gives the text after the first newline. |
| PrettyParser.BlockEntry | src/parsers/pretty-test-result-parser.ts:41-49 | Not a contract of its own: the key and message read from one failure block. `PrettyParser.BlockEntryShape` states them. |
| PrettyParser.BlockEntryShape | src/parsers/pretty-test-result-parser.ts:41-49 | A block gives an entry exactly when its first line has a key. The message is the trimmed text after that line. |
| PrettyParser.Keys | src/parsers/pretty-test-result-parser.ts:49 | The keys of the ordered map, in insertion order. |
| PrettyParser.Lookup | src/parsers/pretty-test-result-parser.ts:49 | `Map.get` finds a value exactly for a present key, and the value is that key's entry. |
| PrettyParser.Put | src/parsers/pretty-test-result-parser.ts:49 | `Map.set` keeps the size for a present key and appends a new key at the end. |
| PrettyParser.LookupPut | src/parsers/pretty-test-result-parser.ts:49 | After `set(k, v)`, `get(k)` is `v` and every other key is unchanged. |
| PrettyParser.KeysPut | src/parsers/pretty-test-result-parser.ts:49 | `set` keeps the insertion order and appends only new keys. |
| PrettyParser.PutDistinct | src/parsers/pretty-test-result-parser.ts:49 | `set` keeps keys distinct. |
| PrettyParser.PutEntry | src/parsers/pretty-test-result-parser.ts:45-50 | Recording a block keeps keys distinct. |
| PrettyParser.FoldEntries | src/parsers/pretty-test-result-parser.ts:40-52 | The failure map built from the blocks has distinct keys. |
| PrettyParser.BlockEntries | src/parsers/pretty-test-result-parser.ts:38-42 | Each block gives its own entry, in order. |
| PrettyParser.FailureDetails | src/parsers/pretty-test-result-parser.ts:29-56 | The failure map has distinct keys and is empty when there is no failures section. |
| PrettyParser.LaterEntryWins | src/parsers/pretty-test-result-parser.ts:49 | For a repeated key, the last block's message is the one kept. |
| PrettyParser.SetBlockEntry | src/parsers/pretty-test-result-parser.ts:41-51 | One loop step records that block's entry. |
| PrettyParser.FoldEntriesSnoc | src/parsers/pretty-test-result-parser.ts:40-52 | Folding one more block is one more recorded entry. |
| PrettyParser.FailureDetailsOfSection | src/parsers/pretty-test-result-parser.ts:35-52 | The map is the fold of the section's `\n---- ` blocks. |
| PrettyParser.ExtractFailureDetails | src/parsers/pretty-test-result-parser.ts:29-56 | The loop builds exactly the failure map of the output. |
| PrettyParser.FirstMatchingFailure | src/parsers/pretty-test-result-parser.ts:81-87 | Not a contract of its own: the message of the first failure entry whose key ends the test id after `::`. `PrettyParser.FirstMatchingFailureSpec` states it. |
| PrettyParser.FirstMatchingFailureSpec | src/parsers/pretty-test-result-parser.ts:81-87 | A message is found exactly when some key completes the test id after `::`, and it is the first such key's message. |
| PrettyParser.AttachFailure | src/parsers/pretty-test-result-parser.ts:78-88 | Only failed events change, and only their message, which becomes the first matching failure's. |
| PrettyParser.EventsOf | src/parsers/pretty-test-result-parser.ts:74-91 | One event per test line, in order; each is the parsed line with its failure attached. |
| PrettyParser.EventsOfSnoc | src/parsers/pretty-test-result-parser.ts:74-91 | One more line appends exactly its event. |
| PrettyParser.AttachFailureDetails | src/parsers/pretty-test-result-parser.ts:77-88 | The loop over the failure map attaches the first matching failure. |
| PrettyParser.ResultsBlock | src/parsers/pretty-test-result-parser.ts:71 | Not a contract of its own: the text after the header line up to the first blank line. `PrettyTranscripts.EventCount` states that it holds no blank line and is a prefix of the rest of the transcript. |
| PrettyParser.TestEventResults | src/parsers/pretty-test-result-parser.ts:58-95 | Not a contract of its own: the events of a transcript whose header starts at a given index. `PrettyParser.ExtractTestEventResultsFromPrettyOutput` computes exactly these, and `PrettyTranscripts.EventCount` and `PrettyTranscripts.ParseRenderedTranscript` state their number and contents. |
| PrettyParser.ExtractTestEventResultsFromPrettyOutput | src/parsers/pretty-test-result-parser.ts:58-95 | The loop collects exactly the events of the results block after the header. |
| PrettyParser.DigitsEnd | src/parsers/pretty-test-result-parser.ts:110 | The end of a maximal run of digits. |
| PrettyParser.SearchRunningHeader | src/parsers/pretty-test-result-parser.ts:110 | The leftmost `running \d* test`, or -1 exactly when there is none. |
| PrettyParser.ParseTestCaseResultPrettyOutput | src/parsers/pretty-test-result-parser.ts:105-116 | Empty output gives no events. |
| PrettyParser.SearchFindsFirst | src/parsers/pretty-test-result-parser.ts:110 | The search returns the first header position. |
| PrettyParser.NoHeaderNoEvents | src/parsers/pretty-test-result-parser.ts:110-113 | Output without a header gives no events. |
| PrettyParser.ParseFromFirstHeader | src/parsers/pretty-test-result-parser.ts:110-115 | Parsing starts at the first header. |
| PrettyTranscripts.ZeroTestsAtFirstHeader | src/parsers/pretty-test-result-parser.ts:64-67 | Wherever the first header is found, a header line that reads `running 0 tests` gives no events. |
| PrettyTranscripts.ZeroTestsYieldNothing | src/parsers/pretty-test-result-parser.ts:64-67 | Corollary: a transcript whose first line is `running 0 tests` gives no events. |
| PrettyTranscripts.ZeroTestsAfterEmptyLine | src/parsers/pretty-test-result-parser.ts:64-67 | Corollary: a transcript that opens with an empty line and then `running 0 tests` gives no events. |
| PrettyTranscripts.EventCount | src/parsers/pretty-test-result-parser.ts:71-76 | The number of events is the number of `\ntest ` separators in the results block. |
| PrettyTranscripts.NoBlankLineInResults | src/parsers/pretty-test-result-parser.ts:71 | Rendered result lines contain no blank line, so the block ends where they end. |
| PrettyTranscripts.SplitRendered | src/parsers/pretty-test-result-parser.ts:72 | Splitting rendered results gives an empty head, then one piece per result. |
| PrettyTranscripts.SplitRenderedTail | src/parsers/pretty-test-result-parser.ts:72 | After the first, each rendered line splits off as one piece. |
| PrettyTranscripts.SplitRenderedNonEmpty | src/parsers/pretty-test-result-parser.ts:72 | The same, for a non-empty list of results. |
| PrettyTranscripts.SplitRenderedStep | src/parsers/pretty-test-result-parser.ts:72 | One rendered line is split off at the separator after it. |
| PrettyTranscripts.HeaderFound | src/parsers/pretty-test-result-parser.ts:110 | `running <digits> tests` is found at position 0. |
| PrettyTranscripts.HeaderHasNoNewline | src/parsers/pretty-test-result-parser.ts:64 | The header is a single line. |
| PrettyTranscripts.HeaderNotZero | src/parsers/pretty-test-result-parser.ts:67 | A non-zero count is not the zero-tests summary. |
| PrettyTranscripts.HeaderLineEnd | src/parsers/pretty-test-result-parser.ts:64-65 | The header line ends at the first newline, which leaves the rest intact. |
| PrettyTranscripts.ResultsStartWithNewline | src/parsers/pretty-test-result-parser.ts:73 | The results start on the line after the header. |
| PrettyTranscripts.TranscriptHeader | src/parsers/pretty-test-result-parser.ts:64-67 | All the header facts hold at once for a rendered transcript. |
| PrettyTranscripts.ParseRenderedTranscript | src/parsers/pretty-test-result-parser.ts:58-95 | A rendered transcript parses back to one event per result, in order, with its name and its state. |
| PrettyTranscripts.DigitsEndAt | src/parsers/pretty-test-result-parser.ts:110 | The digit run ends at the first non-digit. |
| TestFileLocation.Locatable | src/parsers/test-list-parser.ts:68-69 | Not a contract of its own: the manifest path and the test path are non-empty and the package is not a mock. `TestFileLocation.TestLocation` states that no location is found otherwise. |
| TestFileLocation.IntegrationTestFile | src/parsers/test-list-parser.ts:86 | Not a contract of its own: `<package dir>/tests/<target>.rs`. `TestFileLocation.IntegrationTestLocation` states it is the recorded file. |
| TestFileLocation.MainBinaryFile | src/parsers/test-list-parser.ts:126 | Not a contract of its own: `<package dir>/src/<stem>.rs`. `TestFileLocation.MainBinaryLocation` states it is the recorded file. |
| TestFileLocation.OtherBinaryFile | src/parsers/test-list-parser.ts:144 | Not a contract of its own: `<package dir>/src/bin/<target>.rs`. `TestFileLocation.OtherBinaryLocation` states it is the recorded file. |
| TestFileLocation.PackageDirectory | src/parsers/test-list-parser.ts:70 | Removing `/Cargo.toml` or `\Cargo.toml` from the manifest path gives the package directory; other paths are left alone. |
| TestFileLocation.LineOf | src/parsers/test-list-parser.ts:89-101 | The 1-based number of the first line that contains the test name, or nothing when the file cannot be read or no line contains the name. |
| TestFileLocation.FindIndexEqual | src/parsers/test-list-parser.ts:121 | `findIndex` gives the first position of the element, or -1 exactly when it is absent. |
| TestFileLocation.SliceTo | src/parsers/test-list-parser.ts:112 | `slice(0, end)` with JavaScript's clamping and negative ends. |
| TestFileLocation.LibraryFile | src/parsers/test-list-parser.ts:106-114 | Test modules point to `src/lib.rs`; others point to the file named after the parent modules. |
| TestFileLocation.MainBinaryStemAsWritten | src/parsers/test-list-parser.ts:121-126 | The stem is the parts before `tests`, or all parts but the last. |
| TestFileLocation.MainBinaryStemAsWrittenEmpty | src/parsers/test-list-parser.ts:121-126 | For `tests::it_works` and for `it_works`, the stem as written is empty. |
| TestFileLocation.MainBinaryStem | src/parsers/test-list-parser.ts:121-126 | The corrected stem is never empty and agrees with the source whenever the source's stem is non-empty. |
| TestFileLocation.TestLocation | src/parsers/test-list-parser.ts:62-156 | There is a file exactly for a locatable test of a `test`, `lib` or `bin` target. The line is that file's line for the test name. |
| TestFileLocation.TestLocationAsWritten | src/parsers/test-list-parser.ts:62-156 | The location as the code computes it, with the main-binary stem as written. There is a file exactly for a locatable test of a `test`, `lib` or `bin` target, and the file is non-empty and has no backslash. |
| TestFileLocation.LocationAsWrittenDiffers | src/parsers/test-list-parser.ts:121-126 | The as-written location differs from the corrected one exactly for a locatable main-binary test whose stem as written is empty. In every other case the two are equal. |
| TestFileLocation.IntegrationTestLocation | src/parsers/test-list-parser.ts:84-101 | An integration test is in `tests/<target>.rs`. |
| TestFileLocation.MainBinaryLocation | src/parsers/test-list-parser.ts:117-141 | A test of the main binary is in the file named by the corrected stem (`main` where the stem as written is empty). |
| TestFileLocation.LibraryLocation | src/parsers/test-list-parser.ts:106-114 | A library test is in the library file. |
| TestFileLocation.OtherBinaryLocation | src/parsers/test-list-parser.ts:143-145 | A test of a binary that is not the main one is in `src/bin/<target>.rs`. |
| TestListParser.Link | src/parsers/test-list-parser.ts:42-44 | The child becomes the arena's last entry, the suite gains exactly that index as its last child, and every other entry is unchanged. |
| TestListParser.FindChild | src/parsers/test-list-parser.ts:36 | `find` over the children gives one of them with that id, or nothing exactly when no existing child has it. |
| TestListParser.ModuleSuiteNode | src/parsers/test-list-parser.ts:37-39 | A module suite has the module id and spec name, the one target and no children. |
| TestListParser.ModuleStep | src/parsers/test-list-parser.ts:31-47 | A walk step only adds to the tree and touches no case. |
| TestListParser.Walk | src/parsers/test-list-parser.ts:31-47 | The module walk only adds to the tree and touches no case. |
| TestListParser.PushTest | src/parsers/test-list-parser.ts:48 | Pushing the test only adds to the tree. |
| TestListParser.UpdatedTree | src/parsers/test-list-parser.ts:19-49 | Inserting a test only adds to the tree and touches no case. |
| TestListParser.ModuleId | src/parsers/test-list-parser.ts:33-34 | Not a contract of its own: the root id followed by each segment after `::`. `TestListParser.ModuleIdSpecName` and `TestListParser.CaseIdIsModuleIdAndName` relate it to the spec name and the case id. |
| TestListParser.SpecName | src/parsers/test-list-parser.ts:32 | Not a contract of its own: each segment followed by `::`. `TestListParser.ModuleIdSpecName` relates it to the module id. |
| TestListParser.ModuleIdSpecName | src/parsers/test-list-parser.ts:32-34 | A module's id is the root id, `::` and its spec name. |
| TestListParser.WalkReachesModule | src/parsers/test-list-parser.ts:31-46 | A walk that does not throw ends at the node whose id is the module path, with the module path as spec name. |
| TestListParser.ModuleStepInterns | src/parsers/test-list-parser.ts:35-45 | A step changes no existing suite. A new suite is the child id under the current node, built as a module node. |
| TestListParser.ModuleStepLinksFresh | src/parsers/test-list-parser.ts:42-44 | A step either leaves the current node's children alone or appends one new child, whose id no existing child has. |
| TestListParser.WalkInterns | src/parsers/test-list-parser.ts:31-47 | Existing suites and all cases survive the walk; every new suite is a module node under the root. |
| TestListParser.ModuleStepRegisters | src/parsers/test-list-parser.ts:41 | A step that does not throw registers its module id. |
| TestListParser.WalkRegisters | src/parsers/test-list-parser.ts:31-47 | A walk that does not throw registers every prefix of the module path as a suite. |
| TestListParser.ModuleStepKeepsBelow | src/parsers/test-list-parser.ts:31-47 | A step keeps the arena ordered and leaves the nodes before the root unchanged. |
| TestListParser.WalkKeepsBelow | src/parsers/test-list-parser.ts:31-47 | The walk keeps the arena ordered and leaves the nodes before the root unchanged. |
| TestListParser.UpdatedTreeLinksTest | src/parsers/test-list-parser.ts:48 | A test that does not throw is appended to the children of the suite of its module path. |
| TestListParser.UpdatedTreeKeeps | src/parsers/test-list-parser.ts:19-49 | Inserting a test keeps the arena ordered, the earlier nodes, the cases and the old suites; new suites are module nodes. |
| TestListParser.NodeLocator | src/parsers/test-list-parser.ts:68-156 | The locator is the file-location heuristic for this package and target. |
| TestListParser.TestCaseNodeOf | src/parsers/test-list-parser.ts:158-162 | The case node's id is the prefix, `::` and the path. It gets the location when a file was found. |
| TestListParser.TestInfoOf | src/parsers/test-list-parser.ts:165 | The descriptor has the case id and the test name as label, with only a non-empty file and a positive line. |
| TestListParser.NodeLocatorAgrees | src/parsers/test-list-parser.ts:158-165 | The descriptor and the case node agree on file and line. |
| TestListParser.AddTestLine | src/parsers/test-list-parser.ts:180-186 | A listing line only adds to the tree. Unless the tree has already thrown, it records the case under its id. |
| TestListParser.AddTestPath | src/parsers/test-list-parser.ts:181-185 | A test path records its case node under the prefixed id. |
| TestListParser.AddTestLines | src/parsers/test-list-parser.ts:179-186 | The listing only adds to the tree. |
| TestListParser.ParsedOutput | src/parsers/test-list-parser.ts:170-187 | Parsing one target's listing only adds to the tree. |
| TestListParser.ModuleIdJoin | src/parsers/test-list-parser.ts:60 | A module id is the root id and the parts joined with `::`. |
| TestListParser.CaseIdIsModuleIdAndName | src/parsers/test-list-parser.ts:60 | A case id is its module's id, `::` and the test name. |
| TestListParser.PathId | src/parsers/test-list-parser.ts:60 | The same, stated for the path parts. |
| TestListParser.TestLines | src/parsers/test-list-parser.ts:179-180 | Not a contract of its own: the lines before the first blank line. `TestListParser.TestLinesBeforeBlankLine` states it. |
| TestListParser.TestPath | src/parsers/test-list-parser.ts:181 | Not a contract of its own: the text of a listed line before `: test`. `TestListParser.AddTestLine` states how it is recorded. |
| TestListParser.CaseId | src/parsers/test-list-parser.ts:60 | Not a contract of its own: the prefix, `::` and the test path. `TestListParser.AddTestLinesCases` states that every listed line's case id is registered. |
| TestListParser.TestLinesBeforeBlankLine | src/parsers/test-list-parser.ts:179-180 | The listed lines are the lines before the first blank line. |
| TestListParser.AddTestLinesCases | src/parsers/test-list-parser.ts:179-186 | Unless the tree throws, the cases afterwards are the old ones plus exactly one per listed line. |
| TestListParser.AddTestLineKeeps | src/parsers/test-list-parser.ts:180-186 | A line leaves the earlier nodes and old suites unchanged. |
| TestListParser.AddTestPathKeeps | src/parsers/test-list-parser.ts:181-185 | A path leaves the earlier nodes and old suites unchanged. |
| TestListParser.AddTestLinesKeeps | src/parsers/test-list-parser.ts:179-186 | The whole listing leaves the earlier nodes and old suites unchanged. |
| TestListParser.TargetNodeId | src/parsers/test-list-parser.ts:202 | Not a contract of its own: package, target name and target type joined with `::`. `TestListParser.TargetSetupShape` states that it is the id of the target's suite. |
| TestListParser.TargetRootNode | src/parsers/test-list-parser.ts:203-206 | A target suite has the target's id, one target and no children. |
| TestListParser.TargetSetup | src/parsers/test-list-parser.ts:199-209 | Registering a target adds exactly one descriptor and touches no case. |
| TestListParser.AddTarget | src/parsers/test-list-parser.ts:189-211 | Adding a target only adds to the tree. |
| TestListParser.TargetSetupShape | src/parsers/test-list-parser.ts:202-209 | The package suite gains the target's id and target; the target suite and its descriptor are registered. |
| TestListParser.AddTargetShape | src/parsers/test-list-parser.ts:189-211 | After the listing, the package suite still records the target once. |
| TestListParser.Skipped | src/parsers/test-list-parser.ts:244 | Not a contract of its own: a transcript that starts with, or has a line starting with, `0 tests,`. `TestListParser.ProcessedMembers` states that such results are not parsed. |
| TestListParser.Processed | src/parsers/test-list-parser.ts:239-249 | Not a contract of its own: the defined results that are not skipped, in order. `TestListParser.ProcessedMembers` states its members. |
| TestListParser.InitialTree | src/parsers/test-list-parser.ts:226-231 | The initial tree has the package suite at the root. |
| TestListParser.AddResults | src/parsers/test-list-parser.ts:239-249 | Adding the results only adds to the tree, which keeps the package root. |
| TestListParser.Collapse | src/parsers/test-list-parser.ts:251-253 | The collapse replaces only the root, keeping its id and label. |
| TestListParser.ParsedResults | src/parsers/test-list-parser.ts:222-260 | Nothing is loaded exactly for an undefined package, undefined results or an empty list. A failure is a `TypeError`. A load has its suite at 0. |
| TestListParser.AddTargetRootShape | src/parsers/test-list-parser.ts:202-209 | Each added target's id and target are appended to the package suite. |
| TestListParser.AddResultsRootShape | src/parsers/test-list-parser.ts:239-249 | The package suite lists the processed targets in order. |
| TestListParser.ProcessedMembers | src/parsers/test-list-parser.ts:240-246 | A target is processed exactly when it is defined and its listing is not skipped. |
| TestListParser.CollapseOrdered | src/parsers/test-list-parser.ts:251-253 | The collapse keeps the arena ordered. |
| TestListParser.CollapseGuardOfRoot | src/parsers/test-list-parser.ts:251-253 | On a tree the parser builds, a root with exactly one child collapses to that child's children, and a root with any other number of children is left as it is. |
| TestListParser.ParsedResultsShape | src/parsers/test-list-parser.ts:222-260 | A load's package suite lists exactly the processed targets, and its root carries the package's name. |
| TestListParser.AddTargetCases | src/parsers/test-list-parser.ts:210 | A target's cases are the old ones plus one per listed line under the target's prefix. |
| TestListParser.AddResultsCases | src/parsers/test-list-parser.ts:239-249 | The cases are exactly the listed tests of the processed targets. |
| TestListParser.ParsedResultsCases | src/parsers/test-list-parser.ts:222-260 | A load's case map holds exactly the listed tests. |
| TestListParser.WalkStaysFailed | src/parsers/test-list-parser.ts:31-47 | After a throw, the rest of the walk changes nothing. |
| TestListParser.AddTestLinesStaysFailed | src/parsers/test-list-parser.ts:180-186 | After a throw, the remaining lines change nothing. |
| TestListParser.AddResultsStaysFailed | src/parsers/test-list-parser.ts:239-249 | After a throw, the remaining targets change nothing. |
| TestListParser.TestTreeBuilder.constructor | src/parsers/test-list-parser.ts:227-231 | The builder starts from the initial tree. |
| TestListParser.TestTreeBuilder.VisitModule | src/parsers/test-list-parser.ts:32-46 | One loop step updates the maps and descriptors as a walk step does. |
| TestListParser.TestTreeBuilder.UpdateTestTree | src/parsers/test-list-parser.ts:19-49 | The in-place insertion gives the inserted tree. |
| TestListParser.TestTreeBuilder.InitializeTestNode | src/parsers/test-list-parser.ts:51-168 | It returns the test descriptor and records exactly the case node under its id. |
| TestListParser.TestTreeBuilder.ParseCargoTestListOutput | src/parsers/test-list-parser.ts:170-187 | The line loop gives the tree of the listing. |
| TestListParser.TestTreeBuilder.ParseCargoTestListResult | src/parsers/test-list-parser.ts:189-211 | Processing a target gives the tree with that target added. |
| TestListParser.ParseCargoTestListResults | src/parsers/test-list-parser.ts:222-260 | The imperative parse returns the parsed results. |
| RustAdapter.CaseOf | src/rust-adapter.ts:139 | `Map.get` on the case map: defined exactly for a known id. |
| RustAdapter.Extracted | src/rust-adapter.ts:127-142 | Not a contract of its own: the targets collected from one node. `RustAdapter.ExtractedGrows` and `RustAdapter.ExtractedDeeper` state them. |
| RustAdapter.ExtractedAll | src/rust-adapter.ts:131-133 | Not a contract of its own: the targets collected from a structural suite's children in order. `RustAdapter.ExtractedAllGrows` and `RustAdapter.ExtractedAllDeeper` state them. |
| RustAdapter.ExtractedGrows | src/rust-adapter.ts:127-142 | A successful extraction only appends: known cases, undefined ones, or the suites being visited. |
| RustAdapter.ExtractedAllGrows | src/rust-adapter.ts:131-133 | The same for a list of child ids. |
| RustAdapter.ExtractedDeeper | src/rust-adapter.ts:127-142 | Once extraction fits in a stack, a deeper stack gives the same result. |
| RustAdapter.ExtractedAllDeeper | src/rust-adapter.ts:131-133 | The same for a list of child ids. |
| RustAdapter.TestRunnerFor | src/rust-adapter.ts:113-125 | The runner runs cases with `runTestCase` and suites with `runTestSuite` in the workspace. |
| RustAdapter.TestRunnerScoped | src/rust-adapter.ts:113-125 | The real runner rejects undefined cases, and its suite events lie under the suite. |
| RustAdapter.StatesOf | src/rust-adapter.ts:116 | One test-state event per test event, in order. |
| RustAdapter.CasesFired | src/rust-adapter.ts:120-125 | Not a contract of its own: the events of running cases in order. `RustAdapter.CasesFiredStates` states that each is a test state. |
| RustAdapter.SuitesFired | src/rust-adapter.ts:113-118 | Not a contract of its own: the events of running suites in order. `RustAdapter.SuitesFiredStates` states that each is a test state. |
| RustAdapter.TargetsFired | src/rust-adapter.ts:144-151 | Not a contract of its own: the suites collected from a node are run, then the cases unless a suite rejected. `RustAdapter.RustAdapter.RunTargetsForSuiteNode` fires exactly these events. |
| RustAdapter.NodeFired | src/rust-adapter.ts:159-164 | Not a contract of its own: the events of one id given to `run`. `RustAdapter.CaseIdRunsOnce`, `RustAdapter.SuiteIdRunsSuite` and `RustAdapter.UnknownIdRunsNothing` state them by case. |
| RustAdapter.NodesEvents | src/rust-adapter.ts:153-170 | Not a contract of its own: the events of every id given to `run`, in order. `RustAdapter.NodesEventsStates` and `RustAdapter.RustAdapter.Run` state them. |
| RustAdapter.CasesFiredStates | src/rust-adapter.ts:120-125 | Running cases fires only test-state events. |
| RustAdapter.SuitesFiredStates | src/rust-adapter.ts:113-118 | Every suite event is a defined event under one of the run suites. |
| RustAdapter.SuitesFiredStatesAny | src/rust-adapter.ts:113-118 | Running suites fires only test-state events. |
| RustAdapter.NodesEventsStates | src/rust-adapter.ts:153-170 | Between started and finished, a run fires only test-state events. |
| RustAdapter.CaseIdRunsOnce | src/rust-adapter.ts:159-161 | A case id fires its one result, or nothing, and rejects exactly when its run fails. |
| RustAdapter.SuiteIdRunsSuite | src/rust-adapter.ts:162-163 | A suite id fires its events, all under the suite's id, or nothing if the run rejects. |
| RustAdapter.UnknownIdRunsNothing | src/rust-adapter.ts:138-140 | An unknown id fires nothing and rejects. |
| RustAdapter.TargetRunNodes.constructor | src/rust-adapter.ts:145 | The target accumulator starts empty. |
| RustAdapter.RustAdapter.constructor | src/rust-adapter.ts:30-46 | The adapter starts with empty maps, four disposables and no events. |
| RustAdapter.RustAdapter.OpenTestTarget | src/rust-adapter.ts:49-83 | A click opens a position exactly for a known test with a non-empty file, at its line less one (or 0). |
| RustAdapter.RustAdapter.Load | src/rust-adapter.ts:92-111 | A load replaces the maps and fires started and then finished with the suite. An empty or failed load keeps the maps and fires finished with nothing. |
| RustAdapter.RustAdapter.RunTestCases | src/rust-adapter.ts:120-125 | Each case's result is fired; the run rejects exactly when some case run fails. |
| RustAdapter.RustAdapter.RunTestSuites | src/rust-adapter.ts:113-118 | Each suite's events are fired; the run rejects exactly when some suite run fails. |
| RustAdapter.RustAdapter.FireTestStates | src/rust-adapter.ts:116 | One state event is fired per test event. |
| RustAdapter.RustAdapter.ExtractTestTargetsFromNodes | src/rust-adapter.ts:127-142 | The recursive extraction fails exactly when the model says a stack overflow happens; otherwise it leaves the accumulator as extracted. |
| RustAdapter.RustAdapter.RunTargetsForSuiteNode | src/rust-adapter.ts:144-151 | A suite's run fires the events of its extracted targets. |
| RustAdapter.RustAdapter.Run | src/rust-adapter.ts:153-170 | A run fires started, the events of every node id and finished, and changes nothing else. |
| RustAdapter.RustAdapter.RunNodes | src/rust-adapter.ts:158-165 | The node loop fires each node's events in order. |
| RustAdapter.RustAdapter.RunNode | src/rust-adapter.ts:159-164 | A node fires a case's result or a suite's target events. |
| RustAdapter.RustAdapter.Cancel | src/rust-adapter.ts:177-180 | `cancel` always throws `Method not implemented.` |
| RustAdapter.RustAdapter.DisposeAsWritten | src/rust-adapter.ts:182-190 | `dispose` as written throws from `cancel` and changes nothing. |
| RustAdapter.RustAdapter.Dispose | src/rust-adapter.ts:182-190 | The corrected dispose disposes every disposable once and clears both maps. |

## Left out

- Logging (`log.info`, `log.debug`, `log.warn`, `log.error`) is a no-op. Messages are not modelled.
- The call to `log.debug` at `src/parsers/test-list-parser.ts:122` is not guarded against an absent logger. The model assumes a logger is always passed.
- Concurrency: each `Promise.all` is modelled as sequential evaluation in list order.
- RustAdapter.RustAdapter.Run: fires `finished` after every id's events. In the source, a rejected id makes `Promise.all` settle early, so `finished` can come before other ids' events.
- RustAdapter.RustAdapter.ExtractTestTargetsFromNodes: on a `RangeError`, the contract does not say which targets were pushed before the throw.
- The child processes, `fs.readFileSync` and the `TargetType` enum are the parameters `exec`, `readFile` and `enumMembers`.
- `run`, the test runner given to `runTestCase` and `runTestSuite`, is a parameter. `PrettyRun` ties it to `exec`.
- `src/parsers/parser-utils.ts` (`getTestEventState`) is not part of this model. It is the parameter `stateOf`.
- `getCargoMetadata`, the JSON parsing of `cargo metadata` and `src/test-loader.ts` are not part of this model. `Load` receives the settled result of loading.
- `src/main.ts` is not part of this model, and neither are the extension's activation and the VS Code editor calls of the click handler. `OpenTestTarget` returns the position it would open.
- The `debug` method throws without doing anything and is not modelled.
- The `autorun` emitter is never fired and is modelled only as a disposable.
- The emitters are modelled as event logs. Subscribers are not modelled.
- `Map` iteration order matters only for the failure map, which is an ordered association list. The adapter's suite and case maps are Dafny maps.
- The call-stack limit is the `depth` parameter. The model cannot say which depth a real engine allows.
- TestFileLocation.TestLocation: records the corrected main-binary file `src/main.rs` where the stem as written is empty (test paths such as `tests::it_works` or `it_works`), while the code records `src/.rs`. The tree, through `TestListParser.NodeLocator`, uses the corrected location. The as-written location is `TestFileLocation.TestLocationAsWritten`, and `TestFileLocation.LocationAsWrittenDiffers` states exactly when the two differ.
- JsStrings.ToLower: lower-cases only the ASCII letters `A`-`Z`. JavaScript's `toLowerCase` maps every Unicode capital and can change the length of a string (for example `İ`). A result word with non-ASCII capitals therefore reaches `stateOf` differently.

## Findings

| source | as written | input that shows it | evidently intended | confidence | as-written member | corrected member |
|---|---|---|---|---|---|---|
| src/rust-adapter.ts:182-190 | `dispose` first calls `cancel`, which always throws, so nothing is disposed and the maps are not cleared | any adapter after a load, then `dispose()` | dispose every disposable and clear the suite and case maps | not executed | RustAdapter.RustAdapter.DisposeAsWritten (scenario `RustAdapter.DisposeAfterLoad`) | RustAdapter.RustAdapter.Dispose |
| src/parsers/test-list-parser.ts:121-126 | the main-binary file stem is the modules before `tests`, or all but the last module, and it can be empty | test path `tests::it_works` or `it_works` in the main binary gives the file `src/.rs` | fall back to `src/main.rs` | not executed | TestFileLocation.TestLocationAsWritten, through TestFileLocation.MainBinaryStemAsWritten (lemmas `TestFileLocation.MainBinaryStemAsWrittenEmpty` and `TestFileLocation.LocationAsWrittenDiffers`) | TestFileLocation.TestLocation, through TestFileLocation.MainBinaryStem |
