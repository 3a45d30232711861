/**
 * The security-layer suite: the metadata check of every extension
 * descriptor, the requires/provides self-cycle check, the inline-script
 * syntax check and the suite's five-test run. The descriptors found by the
 * glob are given as their contents, in glob order.
 */
module SecurityLayers {
  import opened Wrappers
  import opened Text
  import opened LayerMetadata
  import opened HookScripts
  import opened Suite

  /** The fields every extension block must contain, in the order they are tested. */
  const ExtensionFields: seq<string> := [
    "X-Env-Layer-Name:",
    "X-Env-Layer-Category:",
    "X-Env-Layer-Version:",
    "X-Env-Layer-Requires:",
    "X-Env-Layer-Provides:"
  ]

  const ExtensionCategory: string := "X-Env-Layer-Category: extension"

  /** The per-file body of `test_layer_metadata_validation`: the fields first, then the category. */
  function CheckExtensionLayer(content: string): (v: LayerVerdict)
    ensures v == Valid <==>
      StartsWith(content, MetaBegin) && Contains(content, MetaEnd) &&
      (forall k :: 0 <= k < |ExtensionFields| ==> Contains(Block(content), ExtensionFields[k])) &&
      Contains(Block(content), ExtensionCategory)
    ensures v == WrongCategory ==>
      (forall k :: 0 <= k < |ExtensionFields| ==> Contains(Block(content), ExtensionFields[k])) &&
      !Contains(Block(content), ExtensionCategory)
  {
    var v := CheckMarkedLayer(content, ExtensionFields);
    if v == Valid && !Contains(Block(content), ExtensionCategory) then WrongCategory else v
  }

  /**
   * The category literal contains the `X-Env-Layer-Category:` field, so a
   * block that passes the category test always passes that field test:
   * a descriptor can only be rejected for its category when its category
   * line names something other than `extension`.
   */
  lemma CategoryCoversField(content: string)
    requires Contains(Block(content), ExtensionCategory)
    ensures Contains(Block(content), ExtensionFields[1])
  {
    assert ExtensionCategory[..|ExtensionFields[1]|] == ExtensionFields[1];
    ContainsPrefixOf(Block(content), ExtensionCategory, ExtensionFields[1]);
  }

  /** A field written only after the first `# METAEND` does not count: such a descriptor is rejected. */
  lemma FieldAfterEndRejected(content: string, k: nat)
    requires k < |ExtensionFields|
    requires StartsWith(content, MetaBegin) && Contains(content, MetaEnd)
    requires forall i :: OccursAt(content, ExtensionFields[k], i) ==> Find(content, MetaEnd) < i + |ExtensionFields[k]|
    ensures CheckExtensionLayer(content) != Valid
  {
    FieldInBlock(content, ExtensionFields[k]);
  }

  /** Every descriptor passes the extension metadata check. */
  predicate AllExtensionLayersValid(layers: seq<string>)
  {
    forall i :: 0 <= i < |layers| ==> CheckExtensionLayer(layers[i]) == Valid
  }

  /** `test_layer_metadata_validation`: every descriptor in turn, returning False at the first that fails. */
  method ValidateLayerMetadata(layers: seq<string>) returns (ok: bool)
    ensures ok <==> AllExtensionLayersValid(layers)
  {
    for i := 0 to |layers|
      invariant forall j :: 0 <= j < i ==> CheckExtensionLayer(layers[j]) == Valid
    {
      if CheckExtensionLayer(layers[i]) != Valid {
        return false;
      }
    }
    return true;
  }

  const RequiresPrefix: string := "# X-Env-Layer-Requires:"
  const ProvidesPrefix: string := "# X-Env-Layer-Provides:"

  /** The index of the last line starting with `prefix`, None when no line does. */
  function LastLine(lines: seq<string>, prefix: string): (r: Option<nat>)
    ensures r == None <==> forall i :: 0 <= i < |lines| ==> !StartsWith(lines[i], prefix)
    ensures r != None ==>
      r.value < |lines| && StartsWith(lines[r.value], prefix) &&
      forall j :: r.value < j < |lines| ==> !StartsWith(lines[j], prefix)
  {
    if lines == [] then None
    else if StartsWith(lines[|lines| - 1], prefix) then Some(|lines| - 1)
    else
      var r := LastLine(lines[..|lines| - 1], prefix);
      assert forall i :: 0 <= i < |lines| - 1 ==> lines[..|lines| - 1][i] == lines[i];
      r
  }

  /** The value the loop leaves behind for `prefix`: the last such line after the prefix, stripped. */
  function LastValue(lines: seq<string>, prefix: string): Option<string>
  {
    match LastLine(lines, prefix)
    case None => None
    case Some(i) => Some(Strip(lines[i][|prefix|..]))
  }

  /** One more line: it replaces the value when it starts with `prefix`, and leaves it otherwise. */
  lemma LastValueStep(lines: seq<string>, i: nat, prefix: string)
    requires i < |lines|
    ensures LastValue(lines[..i + 1], prefix) ==
      if StartsWith(lines[i], prefix) then Some(Strip(lines[i][|prefix|..])) else LastValue(lines[..i], prefix)
  {
    var pre := lines[..i + 1];
    assert pre[..|pre| - 1] == lines[..i];
    assert pre[|pre| - 1] == lines[i];
    if !StartsWith(lines[i], prefix) {
      assert LastLine(pre, prefix) == LastLine(lines[..i], prefix);
      match LastLine(pre, prefix) {
        case None =>
        case Some(j) => assert pre[j] == lines[j];
      }
    }
  }

  /** The lines of a descriptor's metadata block. */
  function BlockLines(content: string): (lines: seq<string>)
    ensures Join(lines, '\n') == Block(content)
  {
    Split(Block(content), '\n')
  }

  /** What `test_dependency_resolution` flags: the last requires and provides values are non-empty and equal. */
  predicate HasSelfCycle(content: string)
  {
    SelfCycle(LastValue(BlockLines(content), RequiresPrefix), LastValue(BlockLines(content), ProvidesPrefix))
  }

  /** Python's `requires_line and provides_line and requires_line == provides_line`: None and "" are false. */
  predicate SelfCycle(requiresLine: Option<string>, providesLine: Option<string>)
  {
    requiresLine.Some? && providesLine.Some? && requiresLine.value != "" && requiresLine.value == providesLine.value
  }

  /** The value `line.split(":", 1)[1].strip()` of a line that starts with the given field prefix. */
  lemma FieldValue(line: string, prefix: string)
    requires prefix == RequiresPrefix || prefix == ProvidesPrefix
    requires StartsWith(line, prefix)
    ensures AfterFirst(line, ':') == Some(line[|prefix|..])
  {
    assert ':' !in prefix[..|prefix| - 1];
    AfterFirstPastPrefix(line, prefix, ':');
  }

  /** No line starts with both field prefixes, so the order of the two tests does not matter. */
  lemma PrefixesExclusive(line: string)
    requires StartsWith(line, RequiresPrefix)
    ensures !StartsWith(line, ProvidesPrefix)
  {
    assert line[14] == RequiresPrefix[14] != ProvidesPrefix[14];
  }

  /** The line loop of `test_dependency_resolution`, reassigning `requires_line` and `provides_line`. */
  method ScanDependencies(lines: seq<string>) returns (requiresLine: Option<string>, providesLine: Option<string>)
    ensures requiresLine == LastValue(lines, RequiresPrefix)
    ensures providesLine == LastValue(lines, ProvidesPrefix)
  {
    requiresLine, providesLine := None, None;
    for i := 0 to |lines|
      invariant requiresLine == LastValue(lines[..i], RequiresPrefix)
      invariant providesLine == LastValue(lines[..i], ProvidesPrefix)
    {
      var line := lines[i];
      LastValueStep(lines, i, RequiresPrefix);
      LastValueStep(lines, i, ProvidesPrefix);
      if StartsWith(line, RequiresPrefix) {
        FieldValue(line, RequiresPrefix);
        requiresLine := Some(Strip(AfterFirst(line, ':').value));
        PrefixesExclusive(line);
      } else if StartsWith(line, ProvidesPrefix) {
        FieldValue(line, ProvidesPrefix);
        providesLine := Some(Strip(AfterFirst(line, ':').value));
      }
    }
    assert lines[..|lines|] == lines;
  }

  /** The per-file body of `test_dependency_resolution`: whether this descriptor is flagged. */
  method LayerSelfCycle(content: string) returns (cycle: bool)
    ensures cycle == HasSelfCycle(content)
  {
    var metadata := Block(content);
    var requiresLine, providesLine := ScanDependencies(Split(metadata, '\n'));
    cycle := SelfCycle(requiresLine, providesLine);
  }

  /** The loop's invariant one descriptor further (kept apart so that the cycle test is not unfolded in the loop). */
  lemma NoCycleExtends(layers: seq<string>, i: nat)
    requires i < |layers|
    requires forall j :: 0 <= j < i ==> !HasSelfCycle(layers[j])
    requires !HasSelfCycle(layers[i])
    ensures forall j :: 0 <= j < i + 1 ==> !HasSelfCycle(layers[j])
  {
  }

  /** No descriptor is flagged by the self-cycle check. */
  predicate NoSelfCycles(layers: seq<string>)
  {
    forall i :: 0 <= i < |layers| ==> !HasSelfCycle(layers[i])
  }

  /** `test_dependency_resolution`: False at the first descriptor whose requires and provides values coincide. */
  method TestDependencyResolution(layers: seq<string>) returns (ok: bool)
    ensures ok <==> NoSelfCycles(layers)
  {
    for i := 0 to |layers|
      invariant forall j :: 0 <= j < i ==> !HasSelfCycle(layers[j])
    {
      var cycle := LayerSelfCycle(layers[i]);
      if cycle {
        return false;
      }
      NoCycleExtends(layers, i);
    }
    return true;
  }

  /** No line of a block shorter than the field prefixes can carry a field. */
  lemma {:induction false} ShortLinesCarryNothing(lines: seq<string>, prefix: string)
    requires forall i :: 0 <= i < |lines| ==> |lines[i]| < |prefix|
    ensures LastValue(lines, prefix) == None
  {
  }

  /**
   * Without `# METABEGIN` the block is empty (the slice starts at -1, and
   * ends there or earlier), so no requires or provides line is seen and the
   * descriptor is never flagged.
   */
  lemma NoBeginNoCycle(content: string)
    requires !Contains(content, MetaBegin)
    ensures !HasSelfCycle(content)
  {
    BlockWithoutBegin(content);
    var lines := BlockLines(content);
    ShortLinesCarryNothing(lines, RequiresPrefix);
  }

  /** Every checked fragment of every descriptor passes the shell syntax check. */
  ghost predicate AllScriptsPass(layers: seq<string>, syntaxOk: string -> bool)
  {
    forall i :: 0 <= i < |layers| ==> ScriptsPass(layers[i], syntaxOk)
  }

  /** `test_script_syntax`: every descriptor's hook scripts in turn, False at the first syntax error. */
  method TestScriptSyntax(layers: seq<string>, syntaxOk: string -> bool) returns (ok: bool)
    ensures ok <==> AllScriptsPass(layers, syntaxOk)
  {
    for i := 0 to |layers|
      invariant forall j :: 0 <= j < i ==> ScriptsPass(layers[j], syntaxOk)
    {
      var layerOk := CheckLayerScripts(layers[i], syntaxOk);
      if !layerOk {
        return false;
      }
    }
    return true;
  }

  /** The suite's list of tests, given the outcome of each; lint and variable expansion are external. */
  function SecurityTests(metadataOk: bool, lint: TestRun, dependencyOk: bool, expansion: TestRun, syntaxPass: bool)
    : (tests: seq<(string, TestRun)>)
    ensures |tests| == 5
    ensures (forall i :: 0 <= i < |tests| ==> Passed(tests[i].1)) <==>
      metadataOk && Passed(lint) && dependencyOk && Passed(expansion) && syntaxPass
  {
    var tests := [("Layer Metadata Validation", Returned(metadataOk)),
                  ("RPI Image Gen Lint", lint),
                  ("Dependency Resolution", Returned(dependencyOk)),
                  ("Variable Expansion", expansion),
                  ("Script Syntax Validation", Returned(syntaxPass))];
    AllFivePassed(tests);
    tests
  }

  /** `run_all_tests` of the security suite. */
  method RunAllSecurityTests(suite: TestSuite, layers: seq<string>, lint: TestRun, expansion: TestRun, syntaxOk: string -> bool)
    returns (ok: bool)
    modifies suite
    ensures suite.results == old(suite.results) + Records(SecurityTests(
      AllExtensionLayersValid(layers), lint, NoSelfCycles(layers), expansion, AllScriptsPass(layers, syntaxOk)))
    ensures ok <==>
      AllExtensionLayersValid(layers) && Passed(lint) && NoSelfCycles(layers) && Passed(expansion) &&
      AllScriptsPass(layers, syntaxOk)
  {
    var metadataOk := ValidateLayerMetadata(layers);
    var dependencyOk := TestDependencyResolution(layers);
    var syntaxPass := TestScriptSyntax(layers, syntaxOk);
    ok := suite.RunAllTests(SecurityTests(metadataOk, lint, dependencyOk, expansion, syntaxPass));
  }
}
