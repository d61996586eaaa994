/** The record shapes the adapter passes around (the files under src/interfaces), and the
    explorer API's TestSuiteInfo / TestInfo descriptors.  Optional or
    possibly-undefined fields are `Option`s. */
module Interfaces {
  import opened Wrappers

  /** INodeTarget.  `targetType` is the string value of the TargetType enum
      ('lib', 'bin', 'test', ...), which the source compares with literals. */
  datatype NodeTarget = NodeTarget(targetType: string, targetName: string)

  /** NodeCategory.  The core only ever uses `unit`; any other member of the
      enum is represented by its name. */
  datatype NodeCategory = Unit | OtherCategory(name: string)

  /** One entry of a package's `targets` in the build tool's metadata. */
  datatype CargoPackageTarget = CargoPackageTarget(name: string, kind: seq<string>)

  /** ICargoPackage: the fields the core reads. */
  datatype CargoPackage = CargoPackage(name: string, manifestPath: string, targets: seq<CargoPackageTarget>)

  /** ICargoTestListResult: one target's `--list` transcript. */
  datatype TestListResult = TestListResult(output: string, nodeTarget: NodeTarget)

  /** ITestSuiteNode.  `packageName` is undefined when no package was given. */
  datatype SuiteNode = SuiteNode(
    id: string,
    testSpecName: string,
    childrenNodeIds: seq<string>,
    packageName: Option<string>,
    isStructuralNode: bool,
    category: NodeCategory,
    targets: seq<NodeTarget>)

  /** ITestCaseNode (src/interfaces/test-case-node.ts).  `category` is
      declared by the interface but never set by the code that builds case
      nodes. */
  datatype CaseNode = CaseNode(
    id: string,
    testSpecName: string,
    nodeIdPrefix: string,
    packageName: string,
    category: Option<NodeCategory>,
    nodeTarget: NodeTarget,
    file: Option<string>,
    line: Option<int>)

  /** The explorer's TestSuiteInfo and TestInfo objects.  They are mutated
      after they are linked into the tree, so the model keeps them in an
      arena (a `seq<Info>`) and a suite's `children` are indices into it. */
  datatype Info =
    | SuiteInfo(id: string, labelText: string, children: seq<nat>)
    | TestInfo(id: string, labelText: string, file: Option<string>, line: Option<int>)

  /** How JavaScript renders a possibly-undefined string in a template. */
  function Show(s: Option<string>): string {
    match s
    case Some(v) => v
    case None => "undefined"
  }
}
