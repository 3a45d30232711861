# Layer-descriptor validation in rpi-image-gen's test suites

rpi-image-gen builds Raspberry Pi images from YAML "layer" descriptors.
Each descriptor carries a metadata block between `# METABEGIN` and
`# METAEND` lines and may embed shell scripts in a `customize-hooks:`
section. The repository's four Python test suites check these
descriptors, and together they form a small validation engine. This
project models that engine in Dafny and proves what each check accepts.

The engine has four parts:

- **Metadata and schema checks**: `LayerMetadata`, `SecurityLayers`,
  `DeviceLayers`, `HybridRaidLuks`, `NewModules`.
  - The block is `content[find(BEGIN):find(END)]`, with Python's slice
    semantics.
  - Each category has its own table of required fields. The extension
    category also needs the literal `X-Env-Layer-Category: extension`.
  - The image layer and the new modules search the whole file instead
    of the block.
- **Requires/provides self-cycle check**: `SecurityLayers`.
  - It takes the last `Requires` line and the last `Provides` line of
    the block.
  - A layer is flagged when both values, cut after the first `:` and
    stripped, are non-empty and equal.
- **Hook-script extractor**: `HookScripts`. This is the line-by-line
  state machine of the security suite's syntax test. Fragments it
  closes that begin with `#!/bin/bash` go to `bash -n`, which the model
  takes as an oracle `syntaxOk`.
- **Script safety and advisory scans**:
  - dangerous substrings;
  - the command-substitution allow-list;
  - `set -euo pipefail`;
  - the LUKS key file's mode;
  - the idempotency and error-handling warnings;
  - the monitoring count;
  - the `config.txt` check;
  - the YAML configuration check over a parsed mapping;
  - the build exit-code decision.

Each suite object keeps a `test_results` list that `run_test` appends
to. That object is the class `Suite.TestSuite`. `run_all_tests` is a
method for each suite, and each one is proved to return True exactly
when every test of that suite passed.

How the model takes its inputs:

- **Files**: passed in as values.
  - A glob result is the sequence of file contents, in the order the
    glob yields them.
  - A fixed path is an `Option<string>`, or an entry of a map from path
    to contents. The path is present exactly when the file exists.
- **The LUKS key file**: only its `st_mode` is modelled, as an
  `Option<nat>`.
- **Exceptions that reach `run_test`**: `Suite.TestRun.Raised(message)`.
- **Python string operations** live in `Text`:
  - `find`, `in`, `startswith`, `strip` (over the `str.isspace`
    characters), `split` on one character, `join`;
  - slices with negative and out-of-range bounds;
  - `split(':', 1)[1]`.

## Model

| member | source | states |
|---|---|---|
| Text.Find | tests/unit/test_security_layers.py:50-51 | `str.find`: -1 exactly when the pattern does not occur, otherwise the first index at which it occurs |
| Text.ContainsAny | tests/unit/test_device_layers.py:99 | `any(p in s for p in patterns)` holds exactly when some pattern occurs in `s` |
| Text.StripSpec | tests/unit/test_security_layers.py:117-119 | `strip()` removes exactly the leading and trailing whitespace: the result sits in the string with only whitespace around it, does not start or end with whitespace, and is empty exactly when the string is all whitespace |
| Text.Split | tests/unit/test_security_layers.py:115 | `split('\n')` gives at least one part, no part holds the separator, and joining the parts with the separator gives the string back |
| Text.SplitJoin | tests/unit/test_security_layers.py:172 | splitting a join of separator-free parts gives back the parts |
| Text.SliceBound | tests/unit/test_security_layers.py:107-109 | a Python slice bound: kept when in range, counted from the end when negative (0 when still negative), and the length when past the end |
| Text.AfterFirst | tests/unit/test_security_layers.py:117-119 | `s.split(c, 1)[1]`: absent exactly when `c` does not occur, otherwise the text after the first `c` |
| LayerMetadata.BlockBeforeEnd | tests/unit/test_security_layers.py:50-55 | when the content starts with `# METABEGIN` and contains `# METAEND`, the block is the content up to the first `# METAEND` |
| LayerMetadata.FieldInBlock | tests/unit/test_security_layers.py:55-69 | a field is in the block exactly when it occurs wholly before the first `# METAEND` |
| LayerMetadata.BlockWithoutBegin | tests/unit/test_security_layers.py:107-109 | without `# METABEGIN`, `find` returns -1 and the slice `[-1:end]` is empty, since the end bound is that same -1 or an earlier index |
| LayerMetadata.BlockWithoutEnd | tests/unit/test_security_layers.py:107-109 | without `# METAEND`, the slice `[0:-1]` is the content without its last character |
| LayerMetadata.CheckMarkedLayer | tests/unit/test_security_layers.py:46-69 | Valid exactly when the content starts with `# METABEGIN`, contains `# METAEND` and every field is in the block; each failure verdict holds exactly in its own case, and a missing-field verdict names a field absent from the block |
| SecurityLayers.CheckExtensionLayer | tests/unit/test_security_layers.py:46-74 | an extension descriptor is valid exactly when the markers hold, all five fields are in the block and the block contains `X-Env-Layer-Category: extension`; a wrong-category verdict comes only after every field is found |
| SecurityLayers.CategoryCoversField | tests/unit/test_security_layers.py:58-74 | a block containing the extension category literal always contains the category field |
| SecurityLayers.FieldAfterEndRejected | tests/unit/test_security_layers.py:50-69 | a field that occurs only past the first `# METAEND` makes the descriptor fail |
| SecurityLayers.ValidateLayerMetadata | tests/unit/test_security_layers.py:36-80 | True exactly when every descriptor is valid (so True for no descriptors), stopping at the first failure |
| SecurityLayers.LastLine | tests/unit/test_security_layers.py:115-119 | the last line starting with the prefix: None exactly when no line does, and otherwise a matching line with no matching line after it |
| SecurityLayers.LastValueStep | tests/unit/test_security_layers.py:115-119 | one more line replaces the remembered value when it starts with the prefix and leaves it unchanged otherwise |
| SecurityLayers.BlockLines | tests/unit/test_security_layers.py:107-115 | the lines iterated over join back to the block |
| SecurityLayers.FieldValue | tests/unit/test_security_layers.py:117-119 | on a requires or provides line, the text after the first `:` is the text after the prefix |
| SecurityLayers.PrefixesExclusive | tests/unit/test_security_layers.py:116-119 | no line starts with both prefixes, so the `elif` never hides a provides line |
| SecurityLayers.ScanDependencies | tests/unit/test_security_layers.py:112-119 | the loop leaves `requires_line` and `provides_line` as the stripped values of the last matching lines, or None |
| SecurityLayers.LayerSelfCycle | tests/unit/test_security_layers.py:107-124 | a descriptor is flagged exactly when both last values exist, are non-empty and are equal |
| SecurityLayers.TestDependencyResolution | tests/unit/test_security_layers.py:96-126 | True exactly when no descriptor has a self-cycle |
| SecurityLayers.ShortLinesCarryNothing | tests/unit/test_security_layers.py:115-119 | lines shorter than a prefix yield no value for it |
| SecurityLayers.NoBeginNoCycle | tests/unit/test_security_layers.py:107-124 | a descriptor without `# METABEGIN` is never flagged, because its block is empty |
| SecurityLayers.TestScriptSyntax | tests/unit/test_security_layers.py:158-204 | True exactly when, in every descriptor, every fragment the extractor checks passes the syntax oracle |
| SecurityLayers.SecurityTests | tests/unit/test_security_layers.py:208-214 | the five tests in order; all pass exactly when each of the five outcomes is a pass |
| SecurityLayers.RunAllSecurityTests | tests/unit/test_security_layers.py:206-232 | appends the five records in order and returns True exactly when metadata, lint, dependencies, expansion and syntax all pass |
| HookScripts.HookLines | tests/unit/test_security_layers.py:167-172 | no lines exactly when the descriptor has no `customize-hooks:`, so such a descriptor is skipped |
| HookScripts.ScanAppend | tests/unit/test_security_layers.py:176-202 | scanning two pieces in turn is scanning their concatenation: the final state carries over and the checked fragments concatenate |
| HookScripts.ScanPrefixChecked | tests/unit/test_security_layers.py:176-202 | a fragment checked after some prefix of the lines is among those checked after all of them |
| HookScripts.OpenerDiscards | tests/unit/test_security_layers.py:177-179 | after a `- |` line, what is checked no longer depends on the earlier state, and lines gathered before it are never checked |
| HookScripts.OnlyClosersEmit | tests/unit/test_security_layers.py:183-202 | without a closing line nothing is checked, so a fragment still open at the end of the text is dropped |
| HookScripts.SkippedLineKeepsState | tests/unit/test_security_layers.py:180 | a blank line or a `  rootfs-overlay:` line changes neither flag nor fragment |
| HookScripts.OverlayLineStrips | tests/unit/test_security_layers.py:177-180 | a `  rootfs-overlay:` line strips to text starting with `r`, so it never opens a fragment |
| HookScripts.IndentedLineKept | tests/unit/test_security_layers.py:180-182 | inside a fragment, a four-space-indented non-opener line is appended with exactly those four characters removed |
| HookScripts.CheckedFragmentsWellFormed | tests/unit/test_security_layers.py:181-187 | every checked fragment starts with `#!/bin/bash` and is made of de-indented body lines of the section |
| HookScripts.AdvanceLine | tests/unit/test_security_layers.py:177-202 | one loop iteration moves the flag and the fragment as the state machine's step does, and yields the fragment to check |
| HookScripts.CheckLayerScripts | tests/unit/test_security_layers.py:163-202 | True exactly when every fragment the scan checks passes the syntax oracle; False at the first one that does not |
| DeviceLayers.CheckDeviceLayer | tests/unit/test_device_layers.py:46-69 | a device descriptor is valid exactly when the markers hold and the block has the five device fields, with no Provides field required |
| DeviceLayers.ValidateDeviceMetadata | tests/unit/test_device_layers.py:36-75 | True exactly when every device descriptor is valid |
| DeviceLayers.NoPatternAnywhereWarns | tests/unit/test_device_layers.py:94-101 | a descriptor with hooks and none of the patterns is warned about |
| DeviceLayers.PatternBeforeHooksIgnored | tests/unit/test_device_layers.py:94-101 | a pattern occurring only before `customize-hooks:` does not prevent the warning |
| DeviceLayers.NoHooksNoWarning | tests/unit/test_device_layers.py:95-96 | a descriptor without `customize-hooks:` is never warned about |
| DeviceLayers.TestIdempotency | tests/unit/test_device_layers.py:77-104 | always True; descriptor i is warned about exactly when it has hooks and no pattern from the anchor on |
| DeviceLayers.PatternKept | tests/unit/test_device_layers.py:121-124 | text added around a descriptor that has error handling keeps it |
| DeviceLayers.TestErrorHandling | tests/unit/test_device_layers.py:106-127 | always True; descriptor i is warned about exactly when none of the patterns occurs anywhere in it |
| DeviceLayers.CountContainingBounds | tests/unit/test_device_layers.py:140-149 | the monitoring count is at most the number of descriptors, and at least one exactly when some descriptor has a pattern |
| DeviceLayers.CountMonitoringLayers | tests/unit/test_device_layers.py:140-146 | the counter equals the number of descriptors containing a monitoring pattern |
| DeviceLayers.TestMonitoringIntegration | tests/unit/test_device_layers.py:129-149 | True exactly when some descriptor has a monitoring pattern, so False for none |
| DeviceLayers.ConfigValidation | tests/unit/test_device_layers.py:151-166 | True when the rpi5-server-config file is absent; otherwise True exactly when it contains both `! -f` and `config.txt` |
| DeviceLayers.DeviceTests | tests/unit/test_device_layers.py:170-176 | the five tests in order; all pass exactly when each outcome is a pass |
| DeviceLayers.RunAllDeviceTests | tests/unit/test_device_layers.py:168-194 | appends the five records and returns True exactly when metadata, monitoring and config pass; the two advisory scans never fail it |
| HybridRaidLuks.KeyIn | tests/integration/test_hybrid_raid_luks.py:63-80 | Python's `in` on a loaded YAML value: key membership for a mapping, substring for a string, element for a list, and TypeError for a scalar or null |
| HybridRaidLuks.FirstMissingParam | tests/integration/test_hybrid_raid_luks.py:76-80 | nothing is reported exactly when every parameter is in the section; otherwise the report is a missing key or the TypeError raised |
| HybridRaidLuks.ConfigAccepted | tests/integration/test_hybrid_raid_luks.py:63-91 | the configuration passes exactly when the four sections exist, `hybrid_raid_luks` is a mapping holding the three parameters, encryption is `"y"` and the devices are `"/dev/sda,/dev/sdb"` |
| HybridRaidLuks.OtherSectionsIgnored | tests/integration/test_hybrid_raid_luks.py:63-91 | adding or changing any other top-level key never changes the outcome |
| HybridRaidLuks.FixturePasses | tests/integration/test_hybrid_raid_luks.py:39-91 | the configuration the test embeds passes |
| HybridRaidLuks.ImageLayerMetadata | tests/integration/test_hybrid_raid_luks.py:97-125 | True exactly when the file exists, starts with `# METABEGIN` and contains the three fields anywhere in the file |
| HybridRaidLuks.ImageLayerAppend | tests/integration/test_hybrid_raid_luks.py:113-123 | text appended to a passing image descriptor never makes it fail |
| HybridRaidLuks.Paired | tests/integration/test_hybrid_raid_luks.py:145-149 | the list built by `append` pairs each script with its directory, in order |
| HybridRaidLuks.ScriptValidation | tests/integration/test_hybrid_raid_luks.py:127-173 | True exactly when each of the five scripts exists, passes the syntax oracle and contains `set -euo pipefail` |
| HybridRaidLuks.OtherFilesIgnored | tests/integration/test_hybrid_raid_luks.py:151-173 | a file outside the five script paths never changes the outcome |
| HybridRaidLuks.OctTail | tests/integration/test_hybrid_raid_luks.py:185 | the last three characters of `oct(mode)` are the mode's three low octal digits |
| HybridRaidLuks.KeyModeSecureIff | tests/integration/test_hybrid_raid_luks.py:182-187 | `oct(mode)[-3:] == '600'` holds exactly when `mode % 512 == 384` |
| HybridRaidLuks.NoSubstitutionAllowed | tests/integration/test_hybrid_raid_luks.py:205-214 | a script without `$(` always passes the substitution rule |
| HybridRaidLuks.OneSafeSubstitutionAdmitsAll | tests/integration/test_hybrid_raid_luks.py:205-214 | one allowed substitution anywhere admits any other text around it |
| HybridRaidLuks.EvalInsideWordRejected | tests/integration/test_hybrid_raid_luks.py:190-203 | a script containing `evaluate` fails, because the patterns are matched as substrings |
| HybridRaidLuks.CheckScriptSafety | tests/integration/test_hybrid_raid_luks.py:196-214 | True exactly when no dangerous pattern occurs and the substitution rule holds |
| HybridRaidLuks.SecurityValidation | tests/integration/test_hybrid_raid_luks.py:175-216 | True exactly when the key file is absent or owner read/write only, and every `.sh` script is safe |
| HybridRaidLuks.HybridTests | tests/integration/test_hybrid_raid_luks.py:220-227 | the four tests in order; all pass exactly when each outcome is a pass |
| HybridRaidLuks.RunAllHybridTests | tests/integration/test_hybrid_raid_luks.py:218-247 | appends the four records and returns True exactly when config, metadata, scripts and security all pass |
| NewModules.SamePaths | tests/integration/test_new_modules.py:35-55 | the existence test and the metadata test walk the same four paths in the same order |
| NewModules.ModuleExistence | tests/integration/test_new_modules.py:33-46 | True exactly when every module path exists, stopping at the first missing one |
| NewModules.MetadataAccepted | tests/integration/test_new_modules.py:57-66 | the metadata test passes exactly when every module file exists and contains its name line and `# METABEGIN` anywhere |
| NewModules.MetadataRaises | tests/integration/test_new_modules.py:57-59 | the metadata test raises only for a module file that is missing, with that file's path in the message |
| NewModules.MetadataImpliesExistence | tests/integration/test_new_modules.py:33-66 | a passing metadata test implies a passing existence test |
| NewModules.ModuleMetadata | tests/integration/test_new_modules.py:48-66 | the loop returns the outcome of the first failing module, or True |
| NewModules.BuildCompatibility | tests/integration/test_new_modules.py:68-82 | exit code 0 or 141 passes and any other fails; a timeout passes; any other exception fails |
| NewModules.NewModulesTests | tests/integration/test_new_modules.py:86-90 | the three tests in order; all pass exactly when each outcome is a pass |
| NewModules.RunAllNewModulesTests | tests/integration/test_new_modules.py:84-110 | appends the three records and returns True exactly when metadata and build pass; existence is implied by metadata |
| Suite.Record | tests/unit/test_security_layers.py:26-34 | the entry names the test; a returned value is recorded as the result with no error; a raised exception is recorded as a failure carrying its message |
| Suite.Records | tests/unit/test_security_layers.py:222-224 | one entry per test, in order |
| Suite.PassedCountAll | tests/unit/test_security_layers.py:216-232 | `passed` never exceeds `total` and equals it exactly when every test passed |
| Suite.TestSuite.constructor | tests/unit/test_security_layers.py:21 | a suite starts with no results |
| Suite.TestSuite.RunTest | tests/unit/test_device_layers.py:23-34 | appends exactly one entry and returns True exactly when the test returned True |
| Suite.TestSuite.RunAllTests | tests/integration/test_new_modules.py:92-110 | appends one entry per test in order and returns `passed == total`, i.e. True exactly when every test passed |

## Left out

- tests/integration/test_full_build.py is not part of this model. Every
  test there runs the external build driver, and its performance test
  compares wall-clock times.
- The `rpi-image-gen metadata --lint` test runs an external process. Its
  outcome is an input (`lint`) of `RunAllSecurityTests`.
- `test_variable_expansion` changes the process environment and calls
  `os.path.expandvars`. Its outcome is an input (`expansion`) of
  `RunAllSecurityTests`.
- `bash -n` is the oracle `syntaxOk` on the script text. The temporary
  file it reads is not modelled.
- Globs, `rglob`, `open`, `exists` and `os.stat` are not modelled. File
  contents, presence and the key mode are inputs, and the order of a
  glob is whatever the caller passes. A path that exists but cannot be
  read, such as a directory, is not modelled.
- Each suite's file inputs are independent values, although one file
  tree supplies them all. The model does not tie them together. For
  example, the `*.sh` contents given to `SecurityValidation` are not
  tied to the `files` map given to `ScriptValidation`, although on disk
  the two lists of scripts overlap.
- `yaml.safe_load` is not modelled. The configuration test takes the
  loaded top-level mapping, so the parse-error path and a document that
  does not load to a mapping are left out. YAML values cover strings,
  integers, booleans, null, lists and string-keyed mappings. They leave
  out floats, timestamps and dates, and non-string keys.
- The output of `print` and `generate_report` is left out. Only the
  recorded results and the return values are modelled.
- HybridRaidLuks.KeyIn and HybridRaidLuks.ConfigValidation: the
  TypeError texts are the ones CPython 3.11 gives for `in` and for
  indexing a `str` or a `list` with a string. Other versions word them
  differently; before 3.11 the string-index message has no
  `, not 'str'`.
- NewModules.MissingFileMessage joins the repository path and the module
  path with one `/`. It does not apply `pathlib`'s normalisation of
  repeated or trailing separators.
- NewModules.BuildCompatibility takes how the build ended as an input,
  and the external build command itself is not modelled.
- The pattern lists of the device scans and of the script safety check
  are parameters of the scanning methods. The suites pass the source's
  literal lists.
- What the suites do not check, and so the model does not either:
  - The metadata checks stop at the first missing field; they do not
    collect every missing field.
  - The only dependency check is the per-descriptor self-cycle. There is
    no dependency graph, cycle search or unmet-requirement check.
  - The extension category check runs only after every field is found,
    so it is not independent of the other fields.
  - The image layer's required fields are name, image category and
    variable prefix, searched in the whole file. There is no version
    field.
  - A build timeout counts as a pass, not a failure.
