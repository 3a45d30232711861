/**
 * The device-layer suite: the metadata check of every device descriptor,
 * the two advisory scans (idempotency and error handling) that only warn,
 * the count of descriptors with monitoring integration, the config.txt
 * check of the rpi5-server-config layer and the suite's five-test run.
 * Descriptors are given as their contents, in glob order; the one fixed
 * path is given as its content or None when it does not exist.
 */
module DeviceLayers {
  import opened Wrappers
  import opened Text
  import opened LayerMetadata
  import opened HookScripts
  import opened Suite

  /** The fields every device block must contain, in the order they are tested; no Provides field. */
  const DeviceFields: seq<string> := [
    "X-Env-Layer-Name:",
    "X-Env-Layer-Category: device",
    "X-Env-Layer-Desc:",
    "X-Env-Layer-Version:",
    "X-Env-Layer-Requires:"
  ]

  /** The per-file body of `test_device_layer_metadata_validation`. */
  function CheckDeviceLayer(content: string): (v: LayerVerdict)
    ensures v == Valid <==>
      StartsWith(content, MetaBegin) && Contains(content, MetaEnd) &&
      forall k :: 0 <= k < |DeviceFields| ==> Contains(Block(content), DeviceFields[k])
    ensures v.MissingField? ==> v.field in DeviceFields && !Contains(Block(content), v.field)
    ensures v != WrongCategory
  {
    CheckMarkedLayer(content, DeviceFields)
  }

  /** Every device descriptor passes the metadata check. */
  predicate AllDeviceLayersValid(layers: seq<string>)
  {
    forall i :: 0 <= i < |layers| ==> CheckDeviceLayer(layers[i]) == Valid
  }

  /** `test_device_layer_metadata_validation`: every descriptor in turn, returning False at the first that fails. */
  method ValidateDeviceMetadata(layers: seq<string>) returns (ok: bool)
    ensures ok <==> AllDeviceLayersValid(layers)
  {
    for i := 0 to |layers|
      invariant forall j :: 0 <= j < i ==> CheckDeviceLayer(layers[j]) == Valid
    {
      if CheckDeviceLayer(layers[i]) != Valid {
        return false;
      }
    }
    return true;
  }

  const IdempotentPatterns: seq<string> := [
    "add_config_if_not_exists",
    "if ! grep -q",
    "if [ ! -f",
    "already present",
    "already configured"
  ]

  /**
   * The idempotency warning: the descriptor has a `customize-hooks:`
   * section and none of `patterns` occurs from there on. The scans below
   * take their pattern list as a parameter; the suite passes the lists
   * above.
   */
  predicate IdempotencyWarning(content: string, patterns: seq<string>)
  {
    var start := Find(content, HooksAnchor);
    start != -1 && !ContainsAny(content[start..], patterns)
  }

  /** A descriptor with hooks and none of the patterns anywhere is warned about. */
  lemma NoPatternAnywhereWarns(content: string, patterns: seq<string>)
    requires Contains(content, HooksAnchor)
    requires forall k :: 0 <= k < |patterns| ==> !Contains(content, patterns[k])
    ensures IdempotencyWarning(content, patterns)
  {
    var start := Find(content, HooksAnchor);
    forall k | 0 <= k < |patterns|
      ensures !Contains(content[start..], patterns[k])
    {
      ContainsInSlice(content, patterns[k], start, |content|);
      assert content[start..|content|] == content[start..];
    }
  }

  /** A pattern that occurs only before the first `customize-hooks:` does not count. */
  lemma PatternBeforeHooksIgnored(content: string, patterns: seq<string>, k: nat)
    requires k < |patterns| && Contains(content, HooksAnchor)
    requires forall j :: 0 <= j < |patterns| && j != k ==> !Contains(content, patterns[j])
    requires forall i :: OccursAt(content, patterns[k], i) ==> i < Find(content, HooksAnchor)
    ensures IdempotencyWarning(content, patterns)
  {
    var start := Find(content, HooksAnchor);
    forall j | 0 <= j < |patterns|
      ensures !Contains(content[start..], patterns[j])
    {
      ContainsInSlice(content, patterns[j], start, |content|);
      assert content[start..|content|] == content[start..];
    }
  }

  /** Without a `customize-hooks:` section there is never an idempotency warning. */
  lemma NoHooksNoWarning(content: string, patterns: seq<string>)
    requires !Contains(content, HooksAnchor)
    ensures !IdempotencyWarning(content, patterns)
  {
  }

  /** `test_device_layer_idempotency`: always True; `warned[i]` tells whether descriptor `i` gets a warning. */
  method TestIdempotency(layers: seq<string>, idempotentPatterns: seq<string>) returns (ok: bool, warned: seq<bool>)
    ensures ok
    ensures |warned| == |layers|
    ensures forall i :: 0 <= i < |layers| ==> (warned[i] <==> IdempotencyWarning(layers[i], idempotentPatterns))
  {
    warned := [];
    for i := 0 to |layers|
      invariant |warned| == i
      invariant forall j :: 0 <= j < i ==> (warned[j] <==> IdempotencyWarning(layers[j], idempotentPatterns))
    {
      var content := layers[i];
      var customizeStart := Find(content, HooksAnchor);
      var warning := false;
      if customizeStart != -1 {
        var hooksSection := content[customizeStart..];
        var hasIdempotentPatterns := ContainsAny(hooksSection, idempotentPatterns);
        warning := !hasIdempotentPatterns;
      }
      warned := warned + [warning];
    }
    ok := true;
  }

  const ErrorPatterns: seq<string> := ["ERROR:", "exit 1", ">&2", "return 1"]

  /** Text added around a descriptor that contains one of the patterns keeps it: the warning never comes back. */
  lemma PatternKept(content: string, patterns: seq<string>, before: string, after: string)
    requires ContainsAny(content, patterns)
    ensures ContainsAny(before + content + after, patterns)
  {
    var k :| 0 <= k < |patterns| && Contains(content, patterns[k]);
    ContainsExtended(content, patterns[k], before, after);
  }

  /** `test_device_layer_error_handling`: always True; descriptor `i` is warned about when no pattern occurs anywhere in it. */
  method TestErrorHandling(layers: seq<string>, errorPatterns: seq<string>) returns (ok: bool, warned: seq<bool>)
    ensures ok
    ensures |warned| == |layers|
    ensures forall i :: 0 <= i < |layers| ==>
      (warned[i] <==> forall k :: 0 <= k < |errorPatterns| ==> !Contains(layers[i], errorPatterns[k]))
  {
    warned := [];
    for i := 0 to |layers|
      invariant |warned| == i
      invariant forall j :: 0 <= j < i ==> (warned[j] <==> !ContainsAny(layers[j], errorPatterns))
    {
      var hasErrorHandling := ContainsAny(layers[i], errorPatterns);
      warned := warned + [!hasErrorHandling];
    }
    ok := true;
  }

  const MonitoringPatterns: seq<string> := [
    "prometheus-node-exporter",
    "textfile collector",
    "metrics exported",
    "monitoring configured"
  ]

  /** The number of descriptors containing at least one of `patterns`. */
  function CountContaining(layers: seq<string>, patterns: seq<string>): nat
  {
    if layers == [] then 0
    else CountContaining(layers[..|layers| - 1], patterns) + (if ContainsAny(layers[|layers| - 1], patterns) then 1 else 0)
  }

  /** The count is at most the number of descriptors, and positive exactly when some descriptor has a pattern. */
  lemma {:induction false} CountContainingBounds(layers: seq<string>, patterns: seq<string>)
    ensures CountContaining(layers, patterns) <= |layers|
    ensures CountContaining(layers, patterns) >= 1 <==> exists i :: 0 <= i < |layers| && ContainsAny(layers[i], patterns)
  {
    if layers != [] {
      var init := layers[..|layers| - 1];
      CountContainingBounds(init, patterns);
      assert forall i :: 0 <= i < |init| ==> init[i] == layers[i];
    }
  }

  /** The loop of `test_device_layer_monitoring_integration`, counting `monitoring_layers`. */
  method CountMonitoringLayers(layers: seq<string>, monitoringPatterns: seq<string>) returns (monitoringLayers: nat)
    ensures monitoringLayers == CountContaining(layers, monitoringPatterns)
  {
    monitoringLayers := 0;
    for i := 0 to |layers|
      invariant monitoringLayers == CountContaining(layers[..i], monitoringPatterns)
    {
      assert layers[..i + 1][..i] == layers[..i];
      if ContainsAny(layers[i], monitoringPatterns) {
        monitoringLayers := monitoringLayers + 1;
      }
    }
    assert layers[..|layers|] == layers;
  }

  /** Some descriptor contains one of `patterns`. */
  predicate SomeLayerContains(layers: seq<string>, patterns: seq<string>)
  {
    exists i :: 0 <= i < |layers| && ContainsAny(layers[i], patterns)
  }

  /** `test_device_layer_monitoring_integration`: True exactly when some descriptor has a pattern; so False for none. */
  method TestMonitoringIntegration(layers: seq<string>, monitoringPatterns: seq<string>) returns (ok: bool)
    ensures ok <==> SomeLayerContains(layers, monitoringPatterns)
  {
    var monitoringLayers := CountMonitoringLayers(layers, monitoringPatterns);
    CountContainingBounds(layers, monitoringPatterns);
    ok := monitoringLayers >= 1;
  }

  /** `test_device_layer_config_validation`; the layer file is None when it does not exist. */
  function ConfigValidation(rpi5ServerLayer: Option<string>): (ok: bool)
    ensures rpi5ServerLayer == None ==> ok
    ensures rpi5ServerLayer != None ==>
      (ok <==> (exists i :: OccursAt(rpi5ServerLayer.value, "! -f", i)) &&
               (exists i :: OccursAt(rpi5ServerLayer.value, "config.txt", i)))
  {
    match rpi5ServerLayer
    case None => true
    case Some(content) => !(!Contains(content, "! -f") || !Contains(content, "config.txt"))
  }

  /** The suite's list of tests, given the outcome of each check. */
  function DeviceTests(metadataOk: bool, idempotencyOk: bool, errorHandlingOk: bool, monitoringOk: bool, configOk: bool)
    : (tests: seq<(string, TestRun)>)
    ensures |tests| == 5
    ensures (forall i :: 0 <= i < |tests| ==> Passed(tests[i].1)) <==>
      metadataOk && idempotencyOk && errorHandlingOk && monitoringOk && configOk
  {
    var tests := [("Device Layer Metadata Validation", Returned(metadataOk)),
                  ("Device Layer Idempotency", Returned(idempotencyOk)),
                  ("Device Layer Error Handling", Returned(errorHandlingOk)),
                  ("Device Layer Monitoring Integration", Returned(monitoringOk)),
                  ("Device Layer Config Validation", Returned(configOk))];
    AllFivePassed(tests);
    tests
  }

  /** `run_all_tests` of the device suite: the advisory tests never fail it. */
  method RunAllDeviceTests(suite: TestSuite, layers: seq<string>, rpi5ServerLayer: Option<string>) returns (ok: bool)
    modifies suite
    ensures suite.results == old(suite.results) + Records(DeviceTests(
      AllDeviceLayersValid(layers), true, true,
      SomeLayerContains(layers, MonitoringPatterns), ConfigValidation(rpi5ServerLayer)))
    ensures ok <==>
      AllDeviceLayersValid(layers) && SomeLayerContains(layers, MonitoringPatterns) &&
      ConfigValidation(rpi5ServerLayer)
  {
    var metadataOk := ValidateDeviceMetadata(layers);
    var idempotencyOk, _ := TestIdempotency(layers, IdempotentPatterns);
    var errorHandlingOk, _ := TestErrorHandling(layers, ErrorPatterns);
    var monitoringOk := TestMonitoringIntegration(layers, MonitoringPatterns);
    var configOk := ConfigValidation(rpi5ServerLayer);
    ok := suite.RunAllTests(DeviceTests(metadataOk, idempotencyOk, errorHandlingOk, monitoringOk, configOk));
  }
}
