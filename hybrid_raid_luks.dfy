/**
 * The hybrid-raid-luks integration suite: validation of the parsed
 * configuration, the image layer's metadata, the strict-mode and syntax
 * check of its five shell scripts, the permission and script-safety
 * check, and the suite's four-test run. Files are given as a map from
 * repository-relative path to content (a path is present exactly when the
 * file exists); `bash -n` is the oracle `syntaxOk`; the key file's
 * `st_mode` is given as a number.
 */
module HybridRaidLuks {
  import opened Wrappers
  import opened Text
  import opened LayerMetadata
  import opened Suite

  /** A value produced by the YAML loader. */
  datatype Yaml =
    | Str(s: string)
    | Int(i: int)
    | Bool(b: bool)
    | Null
    | List(items: seq<Yaml>)
    | Map(entries: map<string, Yaml>)

  const RequiredSections: seq<string> := ["device", "image", "layer"]
  const HybridSection: string := "hybrid_raid_luks"
  const RequiredParams: seq<string> := ["rootfs_type", "encryption_enabled", "ssd_devices"]

  /** Python's `key in value` for a string key, or the TypeError it raises. */
  function KeyIn(key: string, value: Yaml): (r: Result)
    ensures value.Map? ==> r == Ok(key in value.entries)
    ensures value.Str? ==> r == Ok(Contains(value.s, key))
    ensures value.List? ==> r == Ok(Str(key) in value.items)
    ensures (value.Null? || value.Int? || value.Bool?) ==> r.Error?
  {
    match value
    case Map(m) => Ok(key in m)
    case Str(s) => Ok(Contains(s, key))
    case List(items) => Ok(Str(key) in items)
    case Null => Error("argument of type 'NoneType' is not iterable")
    case Int(_) => Error("argument of type 'int' is not iterable")
    case Bool(_) => Error("argument of type 'bool' is not iterable")
  }

  /** A truth value or the message of the exception raised while computing it. */
  datatype Result = Ok(value: bool) | Error(message: string)

  /** The first parameter that `in` reports absent, or the error the first test raises. */
  function FirstMissingParam(hrl: Yaml, params: seq<string>): (r: Option<Result>)
    ensures r == None <==> forall k :: 0 <= k < |params| ==> KeyIn(params[k], hrl) == Ok(true)
    ensures r != None ==> r.value == Ok(false) || r.value.Error?
  {
    if params == [] then None
    else match KeyIn(params[0], hrl)
      case Error(msg) => Some(Error(msg))
      case Ok(false) => Some(Ok(false))
      case Ok(true) =>
        var rest := FirstMissingParam(hrl, params[1..]);
        assert forall k :: 1 <= k < |params| ==> params[k] == params[1..][k - 1];
        rest
  }

  /**
   * `test_hybrid_raid_luks_config_validation` over the mapping the loader
   * returned: the three sections, then the `hybrid_raid_luks` section, its
   * three parameters and the two fixed values.
   */
  function ConfigValidation(config: map<string, Yaml>): (r: TestRun)
  {
    if exists k :: 0 <= k < |RequiredSections| && RequiredSections[k] !in config then Returned(false)
    else if HybridSection !in config then Returned(false)
    else
      var hrl := config[HybridSection];
      match FirstMissingParam(hrl, RequiredParams)
      case Some(Error(msg)) => Raised(msg)
      case Some(Ok(_)) => Returned(false)
      case None =>
        assert KeyIn(RequiredParams[1], hrl) == Ok(true) && KeyIn(RequiredParams[2], hrl) == Ok(true);
        if hrl.Str? then Raised("string indices must be integers, not 'str'")
        else if hrl.List? then Raised("list indices must be integers or slices, not str")
        else if hrl.entries["encryption_enabled"] != Str("y") then Returned(false)
        else if hrl.entries["ssd_devices"] != Str("/dev/sda,/dev/sdb") then Returned(false)
        else Returned(true)
  }

  /**
   * The configuration passes exactly when the four sections exist, the
   * `hybrid_raid_luks` section is a mapping with the three parameters,
   * encryption is `"y"` and the devices are `"/dev/sda,/dev/sdb"`.
   */
  lemma ConfigAccepted(config: map<string, Yaml>)
    ensures ConfigValidation(config) == Returned(true) <==>
      "device" in config && "image" in config && "layer" in config && HybridSection in config &&
      config[HybridSection].Map? &&
      "rootfs_type" in config[HybridSection].entries &&
      "encryption_enabled" in config[HybridSection].entries &&
      "ssd_devices" in config[HybridSection].entries &&
      config[HybridSection].entries["encryption_enabled"] == Str("y") &&
      config[HybridSection].entries["ssd_devices"] == Str("/dev/sda,/dev/sdb")
  {
    assert RequiredSections[0] == "device" && RequiredSections[1] == "image" && RequiredSections[2] == "layer";
    if HybridSection in config {
      var hrl := config[HybridSection];
      if hrl.Map? {
        assert KeyIn(RequiredParams[0], hrl) == Ok(RequiredParams[0] in hrl.entries);
        assert KeyIn(RequiredParams[1], hrl) == Ok(RequiredParams[1] in hrl.entries);
        assert KeyIn(RequiredParams[2], hrl) == Ok(RequiredParams[2] in hrl.entries);
        assert FirstMissingParam(hrl, RequiredParams) == None <==>
          RequiredParams[0] in hrl.entries && RequiredParams[1] in hrl.entries && RequiredParams[2] in hrl.entries;
      }
    }
  }

  /** A section-level key other than the four tested ones never changes the outcome. */
  lemma OtherSectionsIgnored(config: map<string, Yaml>, key: string, value: Yaml)
    requires key !in RequiredSections && key != HybridSection
    ensures ConfigValidation(config[key := value]) == ConfigValidation(config)
  {
    var c := config[key := value];
    assert forall k :: 0 <= k < |RequiredSections| ==> (RequiredSections[k] in c <==> RequiredSections[k] in config);
    assert HybridSection in c <==> HybridSection in config;
  }

  /** The configuration the test parses, as the YAML loader returns it. */
  const Fixture: map<string, Yaml> := map[
    "device" := Map(map["layer" := Str("rpi5")]),
    "image" := Map(map["layer" := Str("hybrid-raid-luks"), "name" := Str("test-hybrid-raid-luks")]),
    "hybrid_raid_luks" := Map(map[
      "rootfs_type" := Str("ext4"),
      "encryption_enabled" := Str("y"),
      "key_method" := Str("file"),
      "key_size" := Int(512),
      "ssd_devices" := Str("/dev/sda,/dev/sdb"),
      "boot_part_size" := Str("200M"),
      "root_part_size" := Str("2G"),
      "pmap" := Str("crypt"),
      "disk_expansion_enabled" := Str("y")]),
    "layer" := Map(map["base" := Str("bookworm-minbase")])]

  /** The fixture passes. */
  lemma FixturePasses()
    ensures ConfigValidation(Fixture) == Returned(true)
  {
    ConfigAccepted(Fixture);
  }

  const ImageLayerFile: string := "image/mbr/hybrid-raid-luks/image.yaml"
  const ImageFields: seq<string> := [
    "X-Env-Layer-Name: hybrid-raid-luks",
    "X-Env-Layer-Category: image",
    "X-Env-VarPrefix: hybrid_raid_luks"
  ]

  /** `test_hybrid_raid_luks_layer_metadata`: the file exists, starts with `# METABEGIN`, and contains the three fields anywhere. */
  function ImageLayerMetadata(layer: Option<string>): (ok: bool)
    ensures ok <==>
      layer != None && StartsWith(layer.value, MetaBegin) &&
      forall k :: 0 <= k < |ImageFields| ==> Contains(layer.value, ImageFields[k])
  {
    match layer
    case None => false
    case Some(content) => StartsWith(content, MetaBegin) && FirstAbsent(content, ImageFields) == None
  }

  /**
   * Unlike the extension and device checks, the fields are searched in the
   * whole file and not only before `# METAEND`: text appended to a passing
   * file never makes it fail.
   */
  lemma ImageLayerAppend(content: string, extra: string)
    requires ImageLayerMetadata(Some(content))
    ensures ImageLayerMetadata(Some(content + extra))
  {
    assert (content + extra)[..|MetaBegin|] == content[..|MetaBegin|];
    AllContainedAppend(content, ImageFields, extra);
  }

  const ImageLayerDir: string := "image/mbr/hybrid-raid-luks"
  const ImageScripts: seq<string> := ["pre-image.sh", "setup.sh"]
  const ExtensionLayerDir: string := "layer/storage/raid-luks"
  const ExtensionScripts: seq<string> := [
    "device/rootfs-overlay/usr/bin/rpi-raid",
    "device/rootfs-overlay/usr/local/bin/disk-expansion",
    "device/initramfs-tools/hooks/rpi-raid-luks"
  ]
  const StrictMode: string := "set -euo pipefail"

  /** `layer_dir / script` for repository-relative paths. */
  function PathJoin(dir: string, name: string): string
  {
    dir + "/" + name
  }

  /** Each script of `names` paired with its directory, in order. */
  function Paired(dir: string, names: seq<string>): (r: seq<(string, string)>)
    ensures |r| == |names|
    ensures forall j :: 0 <= j < |names| ==> r[j] == (dir, names[j])
  {
    seq(|names|, j requires 0 <= j < |names| => (dir, names[j]))
  }

  /** The list `bash_scripts`: the image scripts, then the extension scripts. */
  function BashScripts(): seq<(string, string)>
  {
    Paired(ImageLayerDir, ImageScripts) + Paired(ExtensionLayerDir, ExtensionScripts)
  }

  /** One script passes: it exists, `bash -n` accepts it, and it contains `set -euo pipefail`. */
  predicate ScriptPasses(files: map<string, string>, path: string, syntaxOk: string -> bool)
  {
    path in files && syntaxOk(files[path]) && Contains(files[path], StrictMode)
  }

  /** Every one of the five scripts passes. */
  predicate AllScriptsPass(files: map<string, string>, syntaxOk: string -> bool)
  {
    forall j :: 0 <= j < |BashScripts()| ==> ScriptPasses(files, PathJoin(BashScripts()[j].0, BashScripts()[j].1), syntaxOk)
  }

  /** `test_hybrid_raid_luks_script_validation`: builds `bash_scripts`, then checks each, False at the first failure. */
  method ScriptValidation(files: map<string, string>, syntaxOk: string -> bool) returns (ok: bool)
    ensures ok <==> AllScriptsPass(files, syntaxOk)
  {
    var bashScripts: seq<(string, string)> := [];
    for i := 0 to |ImageScripts|
      invariant bashScripts == Paired(ImageLayerDir, ImageScripts[..i])
    {
      bashScripts := bashScripts + [(ImageLayerDir, ImageScripts[i])];
    }
    assert ImageScripts[..|ImageScripts|] == ImageScripts;
    for i := 0 to |ExtensionScripts|
      invariant bashScripts == Paired(ImageLayerDir, ImageScripts) + Paired(ExtensionLayerDir, ExtensionScripts[..i])
    {
      bashScripts := bashScripts + [(ExtensionLayerDir, ExtensionScripts[i])];
    }
    assert ExtensionScripts[..|ExtensionScripts|] == ExtensionScripts;
    assert bashScripts == BashScripts();
    for i := 0 to |bashScripts|
      invariant forall j :: 0 <= j < i ==> ScriptPasses(files, PathJoin(bashScripts[j].0, bashScripts[j].1), syntaxOk)
    {
      var (layerDir, script) := bashScripts[i];
      var scriptPath := PathJoin(layerDir, script);
      if scriptPath !in files {
        assert !ScriptPasses(files, PathJoin(bashScripts[i].0, bashScripts[i].1), syntaxOk);
        return false;
      }
      if !syntaxOk(files[scriptPath]) {
        assert !ScriptPasses(files, PathJoin(bashScripts[i].0, bashScripts[i].1), syntaxOk);
        return false;
      }
      var content := files[scriptPath];
      if !Contains(content, StrictMode) {
        assert !ScriptPasses(files, PathJoin(bashScripts[i].0, bashScripts[i].1), syntaxOk);
        return false;
      }
    }
    return true;
  }

  /** A file that is not one of the five scripts never changes the outcome of the script check. */
  lemma OtherFilesIgnored(files: map<string, string>, path: string, content: string, syntaxOk: string -> bool)
    requires forall j :: 0 <= j < |BashScripts()| ==> path != PathJoin(BashScripts()[j].0, BashScripts()[j].1)
    ensures AllScriptsPass(files[path := content], syntaxOk) <==> AllScriptsPass(files, syntaxOk)
  {
  }

  /** The octal digit of `d`. */
  function OctChar(d: nat): char
    requires d < 8
  {
    (48 + d) as char
  }

  /** The octal digits of `n`, most significant first, without leading zeros. */
  function OctDigits(n: nat): (s: string)
    ensures |s| >= 1
    ensures s[|s| - 1] == OctChar(n % 8)
    decreases n
  {
    if n < 8 then [OctChar(n)] else OctDigits(n / 8) + [OctChar(n % 8)]
  }

  /** Python's `oct(n)` for a non-negative `n`. */
  function Oct(n: nat): (s: string)
    ensures |s| >= 3
  {
    "0o" + OctDigits(n)
  }

  /** `oct(mode)[-3:] == '600'`: the last three characters of the octal text. */
  predicate KeyModeSecure(mode: nat)
  {
    PySlice(Oct(mode), -3, |Oct(mode)|) == "600"
  }

  /** The low nine bits of `mode` in three octal digits. */
  lemma LowNineBits(mode: nat)
    ensures mode % 512 == 64 * ((mode / 64) % 8) + 8 * ((mode / 8) % 8) + mode % 8
    ensures mode / 64 == (mode / 8) / 8
  {
    var a := mode % 8;
    var q1 := mode / 8;
    var b := q1 % 8;
    var q2 := q1 / 8;
    var c := q2 % 8;
    var q3 := q2 / 8;
    assert mode == 8 * q1 + a;
    assert q1 == 8 * q2 + b;
    assert q2 == 8 * q3 + c;
    assert mode == 64 * q2 + (8 * b + a);
    assert mode == 512 * q3 + (64 * c + 8 * b + a);
    assert 0 <= 64 * c + 8 * b + a < 512;
    assert 0 <= 8 * b + a < 64;
  }

  /** From 0o100 on, the last three characters of `oct(mode)` are its three lowest octal digits. */
  lemma OctTail(mode: nat)
    requires mode >= 64
    ensures Oct(mode)[|Oct(mode)| - 3..] == [OctChar((mode / 64) % 8), OctChar((mode / 8) % 8), OctChar(mode % 8)]
  {
    LowNineBits(mode);
    var q := mode / 8;
    var high := OctDigits(q / 8);
    assert OctDigits(q) == high + [OctChar(q % 8)];
    assert OctDigits(mode) == high + [OctChar(q % 8)] + [OctChar(mode % 8)];
  }

  /** Three octal digits spell "600" exactly when they are 6, 0 and 0. */
  lemma SpellsSixHundred(c: nat, b: nat, a: nat)
    requires a < 8 && b < 8 && c < 8
    ensures [OctChar(c), OctChar(b), OctChar(a)] == "600" <==> c == 6 && b == 0 && a == 0
  {
    if [OctChar(c), OctChar(b), OctChar(a)] == "600" {
      assert OctChar(c) == '6' && OctChar(b) == '0' && OctChar(a) == '0';
    }
  }

  /** The permission test is the integer test `mode % 512 == 0o600`: owner read and write, nothing else. */
  lemma KeyModeSecureIff(mode: nat)
    ensures KeyModeSecure(mode) <==> mode % 512 == 384
  {
    var s := Oct(mode);
    assert PySlice(s, -3, |s|) == s[|s| - 3..];
    if mode < 8 {
      assert s[|s| - 3] == '0';
    } else if mode < 64 {
      assert OctDigits(mode) == OctDigits(mode / 8) + [OctChar(mode % 8)];
      assert s[|s| - 3] == 'o';
    } else {
      OctTail(mode);
      LowNineBits(mode);
      SpellsSixHundred((mode / 64) % 8, (mode / 8) % 8, mode % 8);
    }
  }

  const DangerousPatterns: seq<string> := ["eval", "exec(", "source "]
  const SafeCommands: seq<string> := ["$(readlink -f", "$(uuidgen", "$(echo"]
  const Arithmetic: string := "$(( "
  const Substitution: string := "$("

  /** The command-substitution rule, decided once per script: no `$(`, or some allowed form somewhere. */
  predicate SubstitutionAllowed(content: string, safeCommands: seq<string>)
  {
    !Contains(content, Substitution) || ContainsAny(content, safeCommands) || Contains(content, Arithmetic)
  }

  /** One script passes the safety check: no dangerous pattern, and the substitution rule. */
  predicate ScriptSafe(content: string, dangerousPatterns: seq<string>, safeCommands: seq<string>)
  {
    !ContainsAny(content, dangerousPatterns) && SubstitutionAllowed(content, safeCommands)
  }

  /** A script with no command substitution passes the substitution rule. */
  lemma NoSubstitutionAllowed(content: string, safeCommands: seq<string>)
    requires !Contains(content, Substitution)
    ensures SubstitutionAllowed(content, safeCommands)
  {
  }

  /**
   * The rule is decided once per script: one allowed substitution admits
   * every other substitution in the same script, whatever it runs.
   */
  lemma OneSafeSubstitutionAdmitsAll(content: string, other: string, safeCommands: seq<string>, k: nat)
    requires k < |safeCommands| && Contains(content, safeCommands[k])
    ensures SubstitutionAllowed(content + other, safeCommands)
    ensures SubstitutionAllowed(other + content, safeCommands)
  {
    ContainsExtended(content, safeCommands[k], "", other);
    assert "" + content + other == content + other;
    ContainsExtended(content, safeCommands[k], other, "");
    assert other + content + "" == other + content;
  }

  /** The patterns are plain substrings: a script mentioning `evaluate` is rejected as if it used `eval`. */
  lemma EvalInsideWordRejected(content: string)
    requires Contains(content, "evaluate")
    ensures !ScriptSafe(content, DangerousPatterns, SafeCommands)
  {
    ContainsPrefixOf(content, "evaluate", "eval");
    assert Contains(content, DangerousPatterns[0]);
  }

  /** Python's `key_file.exists()` and its `st_mode`: None when the file is absent. */
  predicate KeyFileSecure(keyMode: Option<nat>)
  {
    keyMode == None || KeyModeSecure(keyMode.value)
  }

  /** The per-script body of the security loop: the dangerous patterns in order, then the substitution rule. */
  method CheckScriptSafety(content: string, dangerousPatterns: seq<string>, safeCommands: seq<string>) returns (ok: bool)
    ensures ok <==> ScriptSafe(content, dangerousPatterns, safeCommands)
  {
    for k := 0 to |dangerousPatterns|
      invariant forall j :: 0 <= j < k ==> !Contains(content, dangerousPatterns[j])
    {
      if Contains(content, dangerousPatterns[k]) {
        return false;
      }
    }
    if Contains(content, Substitution) {
      var hasSafeCommand := ContainsAny(content, safeCommands);
      var hasArithmetic := Contains(content, Arithmetic);
      if !(hasSafeCommand || hasArithmetic) {
        return false;
      }
    }
    return true;
  }

  /** The key file, when present, is owner-only, and every script is safe. */
  predicate SecurityPasses(keyMode: Option<nat>, scripts: seq<string>)
  {
    KeyFileSecure(keyMode) && forall i :: 0 <= i < |scripts| ==> ScriptSafe(scripts[i], DangerousPatterns, SafeCommands)
  }

  /**
   * `test_hybrid_raid_luks_security_validation`: the key file's
   * permissions when it exists, then every `.sh` file under the image
   * layer (given as contents, in the order the directory walk yields
   * them), False at the first failure.
   */
  method SecurityValidation(keyMode: Option<nat>, scripts: seq<string>) returns (ok: bool)
    ensures ok <==> SecurityPasses(keyMode, scripts)
  {
    if keyMode.Some? {
      var octal := Oct(keyMode.value);
      if PySlice(octal, -3, |octal|) != "600" {
        return false;
      }
    }
    for i := 0 to |scripts|
      invariant forall j :: 0 <= j < i ==> ScriptSafe(scripts[j], DangerousPatterns, SafeCommands)
    {
      var safe := CheckScriptSafety(scripts[i], DangerousPatterns, SafeCommands);
      if !safe {
        return false;
      }
    }
    return true;
  }

  /** The suite's list of tests, given the outcome of each. */
  function HybridTests(config: TestRun, metadataOk: bool, scriptsOk: bool, securityOk: bool): (tests: seq<(string, TestRun)>)
    ensures |tests| == 4
    ensures (forall i :: 0 <= i < |tests| ==> Passed(tests[i].1)) <==>
      Passed(config) && metadataOk && scriptsOk && securityOk
  {
    var tests := [("Config Validation", config),
                  ("Layer Metadata", Returned(metadataOk)),
                  ("Script Validation", Returned(scriptsOk)),
                  ("Security Validation", Returned(securityOk))];
    AllFourPassed(tests);
    tests
  }

  /** `run_all_tests` of the hybrid-raid-luks suite; `config` is what the loader returned for the fixture text. */
  method RunAllHybridTests(
    suite: TestSuite, config: map<string, Yaml>, files: map<string, string>, syntaxOk: string -> bool,
    keyMode: Option<nat>, scripts: seq<string>)
    returns (ok: bool)
    modifies suite
    ensures suite.results == old(suite.results) + Records(HybridTests(
      ConfigValidation(config),
      ImageLayerMetadata(if ImageLayerFile in files then Some(files[ImageLayerFile]) else None),
      AllScriptsPass(files, syntaxOk),
      SecurityPasses(keyMode, scripts)))
    ensures ok <==>
      Passed(ConfigValidation(config)) &&
      ImageLayerMetadata(if ImageLayerFile in files then Some(files[ImageLayerFile]) else None) &&
      AllScriptsPass(files, syntaxOk) && SecurityPasses(keyMode, scripts)
  {
    var layer := if ImageLayerFile in files then Some(files[ImageLayerFile]) else None;
    var metadataOk := ImageLayerMetadata(layer);
    var scriptsOk := ScriptValidation(files, syntaxOk);
    var securityOk := SecurityValidation(keyMode, scripts);
    ok := suite.RunAllTests(HybridTests(ConfigValidation(config), metadataOk, scriptsOk, securityOk));
  }
}
