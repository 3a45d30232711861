/**
 * The new-modules integration suite: the four module descriptors exist,
 * each names itself and carries `# METABEGIN`, and the build's outcome is
 * acceptable; then the suite's three-test run. Files are a map from
 * repository-relative path to content (a path is present exactly when the
 * file exists); the build is the outcome of the external command.
 */
module NewModules {
  import opened Text
  import opened LayerMetadata
  import opened Suite

  /** Each module descriptor with the layer name it must declare, in the order tested. */
  const NamedModules: seq<(string, string)> := [
    ("layer/rpi/device/rpi5-hardware-config/rpi5-hardware-config.yaml", "rpi5-hardware-config"),
    ("layer/rpi/device/rpi-common-config/rpi-common-config.yaml", "rpi-common-config"),
    ("image/mbr/hybrid-raid-layout/image.yaml", "hybrid-raid-layout"),
    ("layer/rpi/device/rpi-server-optimizations/rpi-server-optimizations.yaml", "rpi-server-optimizations")
  ]

  /** The list `test_module_existence` walks. */
  const ModulePaths: seq<string> := [
    "layer/rpi/device/rpi5-hardware-config/rpi5-hardware-config.yaml",
    "layer/rpi/device/rpi-common-config/rpi-common-config.yaml",
    "image/mbr/hybrid-raid-layout/image.yaml",
    "layer/rpi/device/rpi-server-optimizations/rpi-server-optimizations.yaml"
  ]

  /** The two tests walk the same four paths in the same order. */
  lemma SamePaths()
    ensures |ModulePaths| == |NamedModules|
    ensures forall k :: 0 <= k < |ModulePaths| ==> ModulePaths[k] == NamedModules[k].0
  {
  }

  /** `test_module_existence`: every path in turn, False at the first missing one. */
  method ModuleExistence(files: map<string, string>, modules: seq<string>) returns (ok: bool)
    ensures ok <==> forall k :: 0 <= k < |modules| ==> modules[k] in files
  {
    for i := 0 to |modules|
      invariant forall k :: 0 <= k < i ==> modules[k] in files
    {
      if modules[i] !in files {
        return false;
      }
    }
    return true;
  }

  /** The line a descriptor must contain to declare `name`. */
  function NameLine(name: string): string
  {
    "# X-Env-Layer-Name: " + name
  }

  /** What `open` raises for a missing file, as `str(e)` renders it. */
  function MissingFileMessage(repoPath: string, path: string): string
  {
    "[Errno 2] No such file or directory: '" + repoPath + "/" + path + "'"
  }

  /**
   * The outcome of the loop of `test_module_metadata` over `modules`: the
   * first module whose file is missing raises, the first whose name line
   * or begin marker is absent gives False; the name is tested first.
   */
  function MetadataOutcome(files: map<string, string>, modules: seq<(string, string)>, repoPath: string): TestRun
  {
    if modules == [] then Returned(true)
    else
      var (path, expectedName) := modules[0];
      if path !in files then Raised(MissingFileMessage(repoPath, path))
      else if !Contains(files[path], NameLine(expectedName)) then Returned(false)
      else if !Contains(files[path], MetaBegin) then Returned(false)
      else MetadataOutcome(files, modules[1..], repoPath)
  }

  /**
   * The metadata test passes exactly when every file exists and contains
   * its name line and `# METABEGIN`, anywhere in the file (the marker need
   * not open it).
   */
  lemma {:induction false} MetadataAccepted(files: map<string, string>, modules: seq<(string, string)>, repoPath: string)
    ensures MetadataOutcome(files, modules, repoPath) == Returned(true) <==>
      forall k :: 0 <= k < |modules| ==>
        modules[k].0 in files && Contains(files[modules[k].0], NameLine(modules[k].1)) &&
        Contains(files[modules[k].0], MetaBegin)
  {
    if modules != [] {
      MetadataAccepted(files, modules[1..], repoPath);
      assert forall k :: 1 <= k < |modules| ==> modules[k] == modules[1..][k - 1];
    }
  }

  /** The metadata test raises only for a missing module file, and the message names that file's path. */
  lemma {:induction false} MetadataRaises(files: map<string, string>, modules: seq<(string, string)>, repoPath: string)
    ensures MetadataOutcome(files, modules, repoPath).Raised? ==>
      exists k :: 0 <= k < |modules| && modules[k].0 !in files &&
        MetadataOutcome(files, modules, repoPath) == Raised(MissingFileMessage(repoPath, modules[k].0))
  {
    if modules != [] && modules[0].0 in files {
      MetadataRaises(files, modules[1..], repoPath);
      if MetadataOutcome(files, modules, repoPath).Raised? {
        var k :| 0 <= k < |modules[1..]| && modules[1..][k].0 !in files &&
          MetadataOutcome(files, modules[1..], repoPath) == Raised(MissingFileMessage(repoPath, modules[1..][k].0));
        assert modules[k + 1] == modules[1..][k];
      }
    }
  }

  /** A passing metadata test implies a passing existence test. */
  lemma MetadataImpliesExistence(files: map<string, string>, repoPath: string)
    requires MetadataOutcome(files, NamedModules, repoPath) == Returned(true)
    ensures forall k :: 0 <= k < |ModulePaths| ==> ModulePaths[k] in files
  {
    MetadataAccepted(files, NamedModules, repoPath);
    SamePaths();
  }

  /** `test_module_metadata`: the loop with its early returns; a missing file raises out of it. */
  method ModuleMetadata(files: map<string, string>, modules: seq<(string, string)>, repoPath: string) returns (r: TestRun)
    ensures r == MetadataOutcome(files, modules, repoPath)
  {
    for i := 0 to |modules|
      invariant MetadataOutcome(files, modules, repoPath) == MetadataOutcome(files, modules[i..], repoPath)
    {
      var (path, expectedName) := modules[i];
      assert modules[i..][1..] == modules[i + 1..];
      if path !in files {
        return Raised(MissingFileMessage(repoPath, path));
      }
      var content := files[path];
      if !Contains(content, NameLine(expectedName)) {
        return Returned(false);
      }
      if !Contains(content, MetaBegin) {
        return Returned(false);
      }
    }
    return Returned(true);
  }

  /** How the build command ended. */
  datatype BuildOutcome =
    | Exited(code: int)         // the process finished with this return code
    | TimedOut                  // the 30-second timeout expired
    | Crashed(message: string)  // any other exception while running it

  /** The decision of `test_build_compatibility`: exit code 0 or 141, or a timeout. */
  function BuildCompatibility(outcome: BuildOutcome): (ok: bool)
    ensures outcome.Exited? ==> (ok <==> outcome.code == 0 || outcome.code == 141)
    ensures outcome.TimedOut? ==> ok
    ensures outcome.Crashed? ==> !ok
  {
    match outcome
    case Exited(code) => code in [0, 141]
    case TimedOut => true
    case Crashed(_) => false
  }

  /** The suite's list of tests, given the outcome of each. */
  function NewModulesTests(existenceOk: bool, metadata: TestRun, buildOk: bool): (tests: seq<(string, TestRun)>)
    ensures |tests| == 3
    ensures (forall i :: 0 <= i < |tests| ==> Passed(tests[i].1)) <==> existenceOk && Passed(metadata) && buildOk
  {
    var tests := [("Module Existence", Returned(existenceOk)),
                  ("Module Metadata", metadata),
                  ("Build Compatibility", Returned(buildOk))];
    AllThreePassed(tests);
    tests
  }

  /** `run_all_tests` of the new-modules suite. */
  method RunAllNewModulesTests(suite: TestSuite, files: map<string, string>, repoPath: string, build: BuildOutcome)
    returns (ok: bool)
    modifies suite
    ensures suite.results == old(suite.results) + Records(NewModulesTests(
      forall k :: 0 <= k < |ModulePaths| ==> ModulePaths[k] in files,
      MetadataOutcome(files, NamedModules, repoPath),
      BuildCompatibility(build)))
    ensures ok <==>
      MetadataOutcome(files, NamedModules, repoPath) == Returned(true) && BuildCompatibility(build)
  {
    var existenceOk := ModuleExistence(files, ModulePaths);
    var metadata := ModuleMetadata(files, NamedModules, repoPath);
    var buildOk := BuildCompatibility(build);
    ok := suite.RunAllTests(NewModulesTests(existenceOk, metadata, buildOk));
    if metadata == Returned(true) {
      MetadataImpliesExistence(files, repoPath);
    }
  }
}
