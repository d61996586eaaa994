/** The node constructors of src/utils.ts.  Each returns a fresh record; the
    defaults of the optional parameters are Dafny default parameters. */
module Utils {
  import opened Wrappers
  import opened Interfaces

  /** createEmptyTestSuiteNode: no children and no targets yet; the package
      name is taken from the package when there is one. */
  function CreateEmptyTestSuiteNode(
    id: string,
    cargoPackage: Option<CargoPackage>,
    isStructuralNode: bool := false,
    testCategory: NodeCategory := Unit,
    testSpecName: string := ""): (r: SuiteNode)
    ensures r.id == id && r.testSpecName == testSpecName
    ensures r.childrenNodeIds == [] && r.targets == []
    ensures r.packageName.None? <==> cargoPackage.None?
    ensures cargoPackage.Some? ==> r.packageName == Some(cargoPackage.value.name)
    ensures r.isStructuralNode == isStructuralNode && r.category == testCategory
  {
    var packageName := if cargoPackage.Some? then Some(cargoPackage.value.name) else None;
    SuiteNode(id, testSpecName, [], packageName, isStructuralNode, testCategory, [])
  }

  /** createTestCaseNode: the five given fields verbatim; category, file
      and line are left unset. */
  function CreateTestCaseNode(
    id: string,
    packageName: string,
    nodeTarget: NodeTarget,
    nodeIdPrefix: string,
    testSpecName: string := ""): (r: CaseNode)
    ensures r.id == id && r.packageName == packageName && r.nodeTarget == nodeTarget
    ensures r.nodeIdPrefix == nodeIdPrefix && r.testSpecName == testSpecName
    ensures r.category.None? && r.file.None? && r.line.None?
  {
    CaseNode(id, testSpecName, nodeIdPrefix, packageName, None, nodeTarget, None, None)
  }

  /** createTestSuiteInfo: a suite descriptor with no children. */
  function CreateTestSuiteInfo(id: string, labelText: string): (r: Info)
    ensures r.SuiteInfo? && r.id == id && r.labelText == labelText && r.children == []
  {
    SuiteInfo(id, labelText, [])
  }

  /** createTestInfo: `file` is kept only when it is a non-empty string and
      `line` only when it is defined and positive. */
  function CreateTestInfo(id: string, labelText: string, file: Option<string> := None, line: Option<int> := None): (r: Info)
    ensures r.TestInfo? && r.id == id && r.labelText == labelText
    ensures r.file.Some? <==> file.Some? && file.value != ""
    ensures r.file.Some? ==> r.file == file
    ensures r.line.Some? <==> line.Some? && line.value > 0
    ensures r.line.Some? ==> r.line == line
  {
    var f := if file.Some? && file.value != "" then file else None;
    var l := if line.Some? && line.value > 0 then line else None;
    TestInfo(id, labelText, f, l)
  }
}
