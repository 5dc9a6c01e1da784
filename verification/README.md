# whisper-timestamped golden-master harness, in Dafny

This project models the regression-test harness of whisper_timestamped.

The first part is `tests/test_transcribe.py`. It runs the transcription command-line tool on every audio input of a scenario, such as `tiny_auto` or `tiny_fr`. Each run writes six outputs, and each output is compared with a stored reference under `tests/expected`:
- JSON outputs are compared after rounding every float to one decimal.
- All other outputs are compared line by line.

A missing reference either fails the test or is created from the output. Three module-wide flags choose which:
- `FAIL_IF_REFERENCE_NOT_FOUND`
- `GENERATE_NEW_ONLY`
- `GENERATE_ALL`

The second part is `tests/run_tests.py`. It sets those flags from the `--generate`, `--generate_new` and `--generate_all` switches and removes each switch from `sys.argv`.

The modules:
- `Wrappers`: Option and Result.
- `Paths`: `os.path.join`, `basename` and `dirname` on '/'-separated strings, `str.endswith`, and substring search.
- `Approx`: the JSON values that `json.load` produces, `loose`, and Python's `==` on those values.
- `FileSystem`: the file system as a map from path to file or directory, plus `makedirs`, `copyfile` and `copytree`. Each operation returns a failure where Python would raise `OSError`.
- `Sorting`: `sorted` on strings.
- `TestTranscribe`: the harness.
  - The `TestHelper` class holds the policy, the file system and the list of created references. Its methods update that state as the source's methods do.
  - Path resolution, comparison and the per-scenario driver are functions, methods and lemmas.
- `RunTests`: the `__main__` block.
  - A `Process` class holds the three flags and `argv`.
  - `HandleFlags` is a function that states the same effect on values.

A test failure (an `assert*` raising) is an `Outcome` of `Fail(f)`. Here `f` says which assertion fired and on which path.

The code decides two behaviours differently from a plain reading of the harness's purpose. The model follows the code in both cases.

- **Strict policy and tearDown.** tearDown fails a test case when it created references under the strict default policy. That failure cannot happen with the flags `run_tests.py` produces. Under the strict policy `FAIL_IF_REFERENCE_NOT_FOUND` is true, so `_get_path` is called with `check=True` and fails on a missing reference before any copy is made (lines 71-72). Under the strict policy, `AssertNonRegression`, `CheckOutputs` and `TestCli` each leave `createdReferences` unchanged. tearDown's check stays in the model as code that cannot be reached this way.
- **Directory comparison.** A file found at any depth below the output is paired with the reference file of the same base name directly under the reference (lines 87-91). A reference copied from a flat output directory passes (`TreeRoundTrip`). One copied from an output with subdirectories can fail (`NestedTreeNotRecovered`).

## Model

| member | source | states |
|---|---|---|
| TestTranscribe.GetPath | tests/test_transcribe.py:100-109 | The path is root/prefix[/fn]. It fails with "Cannot find" exactly when `check` is set and nothing exists there. |
| TestTranscribe.DataPaths | tests/test_transcribe.py:40-41 | On success, one existing data path per name, in order. On failure, the error names the first name whose path is missing. |
| TestTranscribe.DataFiles | tests/test_transcribe.py:39-41 | Without a list, a missing data directory fails and the inputs follow the sorted listing. With a list, the inputs follow the list. It succeeds exactly when the data directory exists (if no list is given) and every requested name exists. Any other failure names a requested path that is missing. |
| TestTranscribe.InputsInSortedOrder | tests/test_transcribe.py:41 | The inputs of a scenario are the listed names, each once, in sorted order. |
| Sorting.Sort | tests/test_transcribe.py:41 | `sorted` keeps the same names as a multiset and the same length. |
| Sorting.SortSorts | tests/test_transcribe.py:41 | `sorted` returns its names in Python's string order. |
| TestTranscribe.GeneratedFilesLayout | tests/test_transcribe.py:43-45 | `GeneratedFiles` gives six outputs. Each lies directly in the output directory and is named input-basename.ext, in the order of the extension list. |
| TestTranscribe.GeneratedFilesDistinct | tests/test_transcribe.py:43-45 | The six outputs are six different paths. |
| TestTranscribe.OnlyWordsJsonIsJson | tests/test_transcribe.py:43-45 | Of the six outputs, only the ".words.json" one is compared as JSON. |
| TestTranscribe.RefNameSplits | tests/test_transcribe.py:207-208 | A reference name (`RefName`) keeps the output's base name. Its directory is the scenario name, suffixed with the device when results depend on the device. |
| TestTranscribe.DeviceDependentScenarios | tests/test_transcribe.py:204-206 | `DeviceDependent`: for inputs longer than 30 seconds and at most 60 seconds, only the tiny_fr scenario keeps a reference per device. |
| TestTranscribe.NotTinyFr | tests/test_transcribe.py:206 | A scenario name where no 't' is followed five places later by an 'f' does not contain "tiny_fr". |
| TestTranscribe.CheckFile | tests/test_transcribe.py:111-124 | A pass needs both files readable. An unreadable output fails as an OS error on the output. Every failure is an OS error, a parse error on one of the two files (only for a ".json" name), or a mismatch of the pair. |
| TestTranscribe.CheckFileCompares | tests/test_transcribe.py:111-124 | For a ".json" name, the files agree exactly when both parse and their loosened values are equal. For any other name, they agree exactly when the lines are identical. A failure names the file that failed to parse, or the pair. |
| TestTranscribe.FileRoundTrip | tests/test_transcribe.py:76-84 | A reference created by `copyfile` from an output compares equal to that output. |
| TestTranscribe.CheckFileSymmetric | tests/test_transcribe.py:111-127 | Swapping the output and the reference does not change the verdict. |
| TestTranscribe.JsonKeyOrderIgnored | tests/test_transcribe.py:112-118 | JSON documents that differ only in the key order of their objects, at any depth, compare equal. |
| TestTranscribe.CompareTrees | tests/test_transcribe.py:86-95 | Passes exactly when every generated file has a same-named reference file that compares equal, and every reference file has a same-named generated file. Each failure kind is justified by a file that shows it. |
| TestTranscribe.GeneratedFilesRecovered | tests/test_transcribe.py:78-91 | After `copytree` from a flat output directory, every generated file finds an equal copy under its base name. |
| TestTranscribe.ReferenceFilesRecovered | tests/test_transcribe.py:78-95 | After `copytree` from a flat output directory, every reference file finds its counterpart in the output directory. |
| TestTranscribe.TreeRoundTrip | tests/test_transcribe.py:78-95 | A reference directory created by `copytree` from a flat output directory passes the directory comparison. |
| TestTranscribe.NestedTreeNotRecovered | tests/test_transcribe.py:78-91 | A reference created from an output with a file in a subdirectory fails the comparison when no file of that base name lies directly in the output directory. |
| TestTranscribe.CopyLeavesApart | tests/test_transcribe.py:79 | `copytree` into a directory apart from the source writes nothing below the source. |
| FileSystem.MakeDirs | tests/test_transcribe.py:73-75 | `makedirs` fails exactly when something already exists at the path, or when a directory above it is a regular file. Otherwise it adds that directory and changes nothing else. |
| FileSystem.CopyFile | tests/test_transcribe.py:76-77 | `copyfile` fails exactly when the source is not a file, the target is the source or a directory, or the target's parent is not a directory. Otherwise the target holds the source's contents and nothing else changes. |
| FileSystem.CopyTree | tests/test_transcribe.py:78-79 | `copytree` fails exactly when the source is not a directory, the target exists, or a directory above the target is a regular file. Otherwise exactly the target and the copies of the paths below the source are added. Each copy sits at the same place below the target and holds the original's contents. Nothing outside the target changes. |
| TestTranscribe.MakeParent | tests/test_transcribe.py:73-75 | When the parent is not a directory yet, it fails exactly when something sits at the parent's path or a directory above it is a regular file. Otherwise the parent is a directory afterwards, it is the only entry added, and every existing entry is unchanged. |
| TestTranscribe.CopyOutput | tests/test_transcribe.py:76-79 | A file reference fails exactly as `copyfile` does. On success it is the one entry added or replaced, and it holds the output's contents. A directory reference fails exactly as `copytree` does. On success exactly the reference and the copies of the output's entries are added, each copy with the original's contents. Nothing outside the reference changes. |
| TestTranscribe.StoredReferenceNotConsulted | tests/test_transcribe.py:69 | Whether the output is handled as a file (`IsFileReference`) does not depend on what is stored under tests/expected. It depends on the reference name resolved from the working directory, or on the output. |
| TestTranscribe.Prepare | tests/test_transcribe.py:68-80 | The file system only grows. At most the one reference path is recorded, and none under the strict policy. Without an early failure, the output and the reference both exist. An early failure is a missing output, a missing reference, or a failed copy. |
| TestTranscribe.PrepareCases | tests/test_transcribe.py:68-80 | A missing output fails first. Under the strict policy a missing reference fails next. An existing reference is kept unless all are regenerated. Otherwise the reference is created and recorded, unless `makedirs` or the copy fails, and a copy failure names the path where that happened. |
| TestTranscribe.CreatedFileReferencePasses | tests/test_transcribe.py:68-84 | A file reference just created from an output passes the comparison with that output. |
| TestTranscribe.Sweep | tests/test_transcribe.py:224-225 | The outputs are checked in order up to the first one whose preparation or comparison fails. The file system only grows, and the strict policy creates nothing. |
| TestTranscribe.SweepLogsChecks | tests/test_transcribe.py:224-225 | The checks a sweep logs are a prefix of the planned checks (`Checks`, built from `RefName`): all of them when every output passes, and at least the failing one otherwise. |
| TestTranscribe.SweepPassedCompared | tests/test_transcribe.py:224-225 | In a sweep that got through, every output was prepared without failure and passed its file or directory comparison. Each comparison is made in the file system the sweep had reached when it came to that output, that is after the outputs before it were checked. |
| TestTranscribe.SweepLeavesReferences | tests/test_transcribe.py:224-225 | After a sweep in which every output passed, every output's reference exists. |
| TestTranscribe.InputRun | tests/test_transcribe.py:202-225 | One input: it is skipped when only new references are generated and all six exist. Otherwise the tool runs, and a failed run ends the input. Otherwise the six outputs (`GeneratedFiles`) are swept, with references per device when `DeviceDependent` holds. The file system only grows, and the strict policy creates nothing. |
| TestTranscribe.Scenario | tests/test_transcribe.py:198-225 | The inputs are handled one after the other, up to the first that does not pass. The file system only grows, and the strict policy creates nothing. |
| TestTranscribe.ScenarioLeavesReferences | tests/test_transcribe.py:210-225 | After a scenario that passed, every reference of every input exists. A second run that only generates new references then skips every input, so `--generate_new` is idempotent. |
| TestTranscribe.TestHelper.SetUp | tests/test_transcribe.py:18-20 | A test case starts with no created references. |
| TestTranscribe.TestHelper.TearDown | tests/test_transcribe.py:22-27 | Lenient policy: a warning listing the created references, and no failure. Strict policy: fails exactly when references were created. Either way, a missing data directory fails whenever the message is built. |
| TestTranscribe.TestHelper.AssertNonRegression | tests/test_transcribe.py:64-95 | The new file system and the recorded references are those of `Prepare`. An early failure of `Prepare` (missing output, missing reference under the strict policy, failed `makedirs` or copy) is the outcome. Otherwise the outcome is the verdict of the file or directory comparison: it passes exactly when the comparison does. The file system only grows. |
| TestTranscribe.TestHelper.CreateReference | tests/test_transcribe.py:72-80 | The parent directory is made if needed, then the output is copied and the reference recorded. On failure, the failing path is returned and nothing is recorded. |
| TestTranscribe.TestHelper.CompareOutput | tests/test_transcribe.py:82-95 | An output that is not a file (or not a directory) fails. Otherwise the verdict is `CheckFile` or `TreesAgree`. |
| TestTranscribe.TestHelper.CheckOutputs | tests/test_transcribe.py:224-225 | The new file system, the recorded references, the checks logged and whether all passed are those of `Sweep`. So outputs are checked in order up to the first failure, and the checks are a prefix of the planned ones, all of them when the loop passes. |
| TestTranscribe.TestHelper.RunInput | tests/test_transcribe.py:215-225 | The event log starts with the run. If the tool fails, the input fails as a failed run and nothing changes. Otherwise its files are added, and the new file system, the references, the checks after the run and the verdict are those of `Sweep` over the six outputs. A failure is then never a failed run. A passing run logs every planned check. |
| TestTranscribe.TestHelper.TestInput | tests/test_transcribe.py:202-225 | What happens is `InputRun`: the file system, the references, the events and the verdict. The input is skipped exactly when only new references are generated and all six exist. When it is not skipped, it fails as a failed run exactly when the tool fails. Every skip and run logged so far stays justified. |
| TestTranscribe.TestHelper.HandleInput | tests/test_transcribe.py:202-225 | One pass of the loop over the inputs. If the input passes, what is left of `Scenario` is the scenario of the remaining inputs, and the log so far is the schedule of the inputs handled. If it fails, the state is where `Scenario` stops, and it does not pass. A failed run means the tool failed on that input. Every logged event stays justified and the file system only grows. |
| TestTranscribe.TestHelper.TestCli | tests/test_transcribe.py:198-225 | Inputs that cannot be found fail before any run, and nothing changes. Otherwise what happens is `Scenario` over the inputs. A passing scenario's log is the schedule of its inputs, each skipped or run. Every skip and every run is justified by the file system. The strict policy creates nothing. |
| TestTranscribe.LogExtends | tests/test_transcribe.py:210-225 | Appending one input's events keeps every skip and run of the log justified, since references only accumulate. |
| TestTranscribe.ScheduleStep | tests/test_transcribe.py:202 | Handling one more input appends its block to the schedule. |
| TestTranscribe.ExistingReferencesGrow | tests/test_transcribe.py:211 | A reference set that exists stays in existence while the file system grows. |
| Approx.LooseKeepsShape | tests/test_transcribe.py:129-142 | `Loose` (the model of `loose`) keeps every list, tuple and dict with its length and keys, and changes only float leaves. |
| Approx.LooseHasNoNegativeZero | tests/test_transcribe.py:134-135 | No float in a loosened value is -0.0. |
| Approx.LooseRoundsFloat | tests/test_transcribe.py:133-135 | A float is replaced by its rounding, with a zero made +0.0. |
| Approx.CloseFloats | tests/test_transcribe.py:126-135 | Two floats are close exactly when their roundings are numerically equal. |
| Approx.PyEqReflexive | tests/test_transcribe.py:127 | Python's `==` is reflexive on well-formed values. |
| Approx.PyEqSymmetric | tests/test_transcribe.py:127 | Python's `==` is symmetric. |
| Approx.LooseKeepsWellFormed | tests/test_transcribe.py:137 | The dict comprehension keeps keys unique. |
| Approx.CloseReflexive | tests/test_transcribe.py:126-127 | Every well-formed value is close to itself. |
| Approx.CloseSymmetric | tests/test_transcribe.py:126-127 | Closeness is symmetric. |
| Approx.DictOrderIrrelevant | tests/test_transcribe.py:136-137 | Dicts with the same entries in any order are close. |
| Approx.PermutedEntriesReordered | tests/test_transcribe.py:136-137 | A dict with its entries permuted is `Reordered`: its keys are reordered, and nothing below them changes. |
| Approx.ReorderedClose | tests/test_transcribe.py:126-142 | Values that differ only in the key order of their dicts, at any depth, are close: `PyEq` holds between their `Loose` forms. |
| Approx.ReorderedReflexive | tests/test_transcribe.py:126-142 | Every well-formed value is a reordering of itself. |
| Approx.LooseKeepsKeys | tests/test_transcribe.py:136-137 | The dict comprehension of `loose` keeps a dict's key set. |
| Approx.CloseKeepsContainers | tests/test_transcribe.py:131-139 | Close lists or tuples have the same length, and a list is never close to a tuple. |
| RunTests.Process.HandleGenerationFlags | tests/run_tests.py:10-20 | The flags and `argv` afterwards are those of `HandleFlags` applied to the flags and `argv` before. |
| RunTests.FlagsFromDefaults | tests/run_tests.py:10-20 | From the defaults: missing references fail exactly when no switch is given, `generateNewOnly` is set exactly when `--generate_new` is given, and `generateAll` exactly when `--generate_all` is given. |
| RunTests.SwitchesRemovedOnce | tests/run_tests.py:10-20 | `HandleFlags` removes one occurrence of each switch given, so `argv` shrinks by the number of distinct switches given. The other arguments keep their order. |
| RunTests.RemoveFirstRemovesFirst | tests/run_tests.py:12 | `RemoveFirst` (the model of `list.remove`) takes out the first occurrence and keeps the rest in order. |
| RunTests.FlagsIgnoreOrder | tests/run_tests.py:10-20 | The flags depend only on which switches occur, not where. |
| RunTests.ExactMatching | tests/run_tests.py:10-20 | Switches match whole arguments: when no argument is exactly one of the three switches, the policy and the argument list stay as they were, whatever else the arguments contain. |
| RunTests.FirstIndex | tests/run_tests.py:12 | The index of the first occurrence of a switch. |

## Left out

- `assertRun` (lines 47-62) is not modelled: the subprocess, the environment, `chdir` and the captured output. The tool is a parameter that either fails or returns the files it writes. The `print` of stdout and stderr (lines 221-222) is not modelled. The log records only which inputs were skipped (the message of line 214), which were run, and which outputs were checked.
- `get_audio_duration` and `get_device_str` read audio and query the GPU. The duration and the device are parameters.
- `round(x, 1)` is left abstract (a parameter `Float -> Float`), because its decimal behaviour is floating-point arithmetic. NaN and infinities are not modelled.
- The `set` branch of `loose` (line 141) passes two arguments to a one-argument method, so it raises TypeError. No parsed JSON value is a set, so the branch is not modelled.
- JSON parsing and `readlines` are not modelled. Each file carries its lines and the result of `json.load`, with None when the file does not parse.
- `os.listdir` order is not modelled. The listing is a parameter, and only its sorted order is used.
- os.walk's visiting order is left open: the directory comparison takes files in an arbitrary order.
- FileSystem.MakeDirs: adds only the requested directory, not the missing directories above it that `os.makedirs` also creates. A refusal caused by a regular file above the path names the requested path, not the intermediate directory `mkdir` was refused.
- FileSystem.CopyTree: the same holds for the target directory, which `copytree` makes with `os.makedirs`.
- Paths are '/'-joined strings. `Join` assumes a relative second argument and a first argument without a trailing '/'. Symbolic links and normalisation are not modelled.
- Messages and their text (the `replace` of the data directory prefix, `maxDiff`) are not modelled. A failure is a `Failure` value naming what failed.
- The final `shutil.rmtree` of the output directory (line 227) is not modelled. It runs only after all inputs pass, so a failing input leaves the outputs behind.
- `TestPythonImport` (lines 153-169), `get_main_path` and `get_output_path` beyond the joined path are not modelled. `unittest.main()` (run_tests.py line 22) and test discovery are not modelled either.
