/**
  The golden-master test harness of whisper_timestamped (tests/test_transcribe.py):
  the run policy, reference resolution and creation, file and directory
  comparison against the references under tests/expected, and the
  per-scenario driver that names the six outputs of every input.
 */
module TestTranscribe {
  import opened Wrappers
  import opened Paths
  import opened Approx
  import opened FileSystem
  import Sorting

  /** The three module-wide flags that decide how missing references are handled. */
  datatype Policy = Policy(failIfReferenceNotFound: bool, generateNewOnly: bool, generateAll: bool)

  /** The flags as the module sets them before any command-line switch is seen. */
  const Defaults := Policy(true, false, false)

  /** Any opt-in regeneration mode: created references are only warned about. */
  predicate Lenient(p: Policy) {
    p.generateAll || p.generateNewOnly || !p.failIfReferenceNotFound
  }

  /** Why a test case fails. */
  datatype Failure =
    | CannotFind(path: string)               // _get_path with check on a missing path
    | MissingFile(path: string)              // a generated output, or a counterpart of a reference file, is absent
    | AdditionalFile(name: string)           // a generated file has no same-named file directly under the reference
    | NotAFile(path: string)                 // a file reference whose output is not a file
    | NotADirectory(path: string)            // a directory reference whose output is not a directory
    | Mismatch(file: string, reference: string)
    | OsError(path: string)                  // open() raised while comparing
    | InvalidJson(path: string)              // json.load raised
    | CopyFailed(path: string)               // makedirs, copyfile or copytree raised
    | ProcessFailed(input: string)           // the transcription tool exited with a non-zero code
    | CreatedReferences(paths: seq<string>)  // tearDown under the strict policy

  datatype Outcome = Pass | Fail(failure: Failure)

  /** What a scenario run shows of its progress: skipped inputs, runs of the tool, and each output checked. */
  datatype Event = Skipped(input: string) | Ran(input: string) | Checked(output: string, reference: string)

  const ExpectedDir := "tests/expected"
  const DataDir := "tests/data"

  /** The six outputs the tool writes for every input, in the order they are checked. */
  const Extensions: seq<string> := ["txt", "srt", "vtt", "words.srt", "words.vtt", "words.json"]

  // ---------------------------------------------------------------------------
  // Paths

  /** Where `fn` lives below `prefix` of the repository root (the prefix itself when `fn` is empty). */
  function PathOf(root: string, prefix: string, fn: string): string {
    if fn == "" then Join(root, prefix) else Join(Join(root, prefix), fn)
  }

  /** _get_path: resolve, and when `check` is set insist that the path exists. */
  function GetPath(fs: FS, root: string, prefix: string, fn: string, check: bool): (r: Result<string, Failure>)
    ensures r.Success? ==> r.value == PathOf(root, prefix, fn) && (check ==> r.value in fs)
    ensures r.Failure? <==> check && PathOf(root, prefix, fn) !in fs
    ensures r.Failure? ==> r.error == CannotFind(PathOf(root, prefix, fn))
  {
    var path := PathOf(root, prefix, fn);
    if check && path !in fs then Failure(CannotFind(path)) else Success(path)
  }

  /** get_data_path(fn) for each name, failing on the first one that does not exist. */
  function DataPaths(fs: FS, root: string, names: seq<string>): (r: Result<seq<string>, Failure>)
    ensures r.Success? ==>
      && |r.value| == |names|
      && forall i :: 0 <= i < |names| ==> r.value[i] == PathOf(root, DataDir, names[i]) && r.value[i] in fs
    ensures r.Failure? ==>
      exists i :: 0 <= i < |names| && r.error == CannotFind(PathOf(root, DataDir, names[i]))
                  && PathOf(root, DataDir, names[i]) !in fs
                  && forall j :: 0 <= j < i ==> PathOf(root, DataDir, names[j]) in fs
  {
    if names == [] then Success([])
    else
      match GetPath(fs, root, DataDir, names[0], true)
      case Failure(e) => Failure(e)
      case Success(p) =>
        match DataPaths(fs, root, names[1..])
        case Failure(e) =>
          assert exists i :: 0 <= i < |names| - 1 && e == CannotFind(PathOf(root, DataDir, names[1..][i]))
                  && PathOf(root, DataDir, names[1..][i]) !in fs
                  && forall j :: 0 <= j < i ==> PathOf(root, DataDir, names[1..][j]) in fs;
          var i :| 0 <= i < |names| - 1 && e == CannotFind(PathOf(root, DataDir, names[1..][i]))
                  && PathOf(root, DataDir, names[1..][i]) !in fs
                  && forall j :: 0 <= j < i ==> PathOf(root, DataDir, names[1..][j]) in fs;
          assert forall j :: 0 <= j < i + 1 ==> PathOf(root, DataDir, names[j]) in fs by {
            forall j | 0 <= j < i + 1 ensures PathOf(root, DataDir, names[j]) in fs {
              if j > 0 { assert names[j] == names[1..][j - 1]; }
            }
          }
          Failure(e)
        case Success(ps) => Success([p] + ps)
  }

  /**
    get_data_files: the inputs of a scenario. Without an explicit list, the
    data directory must exist and its listing is taken in sorted order;
    with one, the given names are taken as they are. Every input must exist.
   */
  function DataFiles(fs: FS, root: string, files: Option<seq<string>>, listing: seq<string>): (r: Result<seq<string>, Failure>)
    ensures files.None? && PathOf(root, DataDir, "") !in fs ==> r == Failure(CannotFind(PathOf(root, DataDir, "")))
    ensures r.Success? <==>
      && (files.Some? || PathOf(root, DataDir, "") in fs)
      && forall i :: 0 <= i < |Requested(files, listing)| ==> PathOf(root, DataDir, Requested(files, listing)[i]) in fs
    ensures r.Failure? && (files.Some? || PathOf(root, DataDir, "") in fs) ==>
      exists i :: 0 <= i < |Requested(files, listing)| && r.error == CannotFind(PathOf(root, DataDir, Requested(files, listing)[i]))
                  && PathOf(root, DataDir, Requested(files, listing)[i]) !in fs
    ensures r.Success? && files.None? ==>
      |r.value| == |listing| && forall i :: 0 <= i < |listing| ==> r.value[i] == PathOf(root, DataDir, Sorting.Sort(listing)[i])
    ensures r.Success? && files.Some? ==>
      |r.value| == |files.value| && forall i :: 0 <= i < |files.value| ==> r.value[i] == PathOf(root, DataDir, files.value[i])
  {
    if files.None? && PathOf(root, DataDir, "") !in fs then Failure(CannotFind(PathOf(root, DataDir, "")))
    else DataPaths(fs, root, Requested(files, listing))
  }

  /** The names get_data_files looks up: the given ones, or the sorted listing of the data directory. */
  function Requested(files: Option<seq<string>>, listing: seq<string>): seq<string> {
    if files.Some? then files.value else Sorting.Sort(listing)
  }

  /** get_generated_files: the six outputs for `input` in `outputPath`. */
  function GeneratedFiles(input: string, outputPath: string): seq<string> {
    seq(|Extensions|, k requires 0 <= k < |Extensions| => Join(outputPath, Basename(input) + "." + Extensions[k]))
  }

  /** Results of long inputs differ between compute devices and get a reference per device. */
  predicate DeviceDependent(duration: real, name: string) {
    duration > 60.0 || (duration > 30.0 && Contains(name, "tiny_fr"))
  }

  /** ref_name: the reference of an output, below the scenario name, suffixed by the device when results depend on it. */
  function RefName(name: string, device: string, dependent: bool, output: string): string {
    name + (if dependent then "." + device else "") + "/" + Basename(output)
  }

  /** Without an explicit list, the inputs are the names of the data directory, each once, in sorted order. */
  lemma InputsInSortedOrder(fs: FS, root: string, listing: seq<string>)
    requires DataFiles(fs, root, None, listing).Success?
    ensures var names := Sorting.Sort(listing);
      && Sorting.Sorted(names) && multiset(names) == multiset(listing)
      && DataFiles(fs, root, None, listing).value
         == seq(|names|, i requires 0 <= i < |names| => PathOf(root, DataDir, names[i]))
  {
    Sorting.SortSorts(listing);
  }

  /** The six outputs lie directly in the output directory and are named after the input's base name. */
  lemma GeneratedFilesLayout(input: string, outputPath: string)
    requires outputPath != ""
    ensures |GeneratedFiles(input, outputPath)| == 6
    ensures forall k :: 0 <= k < 6 ==>
      && Dirname(GeneratedFiles(input, outputPath)[k]) == outputPath
      && Basename(GeneratedFiles(input, outputPath)[k]) == Basename(input) + "." + Extensions[k]
  {
    forall k | 0 <= k < 6
      ensures Dirname(GeneratedFiles(input, outputPath)[k]) == outputPath
      ensures Basename(GeneratedFiles(input, outputPath)[k]) == Basename(input) + "." + Extensions[k]
    {
      var f := Basename(input) + "." + Extensions[k];
      assert '/' !in Extensions[k];
      assert '/' !in f;
      JoinSplits(outputPath, f);
    }
  }

  /** The six outputs are six different files. */
  lemma GeneratedFilesDistinct(input: string, outputPath: string)
    ensures forall k, l :: 0 <= k < l < |GeneratedFiles(input, outputPath)| ==>
      GeneratedFiles(input, outputPath)[k] != GeneratedFiles(input, outputPath)[l]
  {
    var stem := outputPath + "/" + Basename(input) + ".";
    forall k, l | 0 <= k < l < 6
      ensures GeneratedFiles(input, outputPath)[k] != GeneratedFiles(input, outputPath)[l]
    {
      assert GeneratedFiles(input, outputPath)[k] == stem + Extensions[k];
      assert GeneratedFiles(input, outputPath)[l] == stem + Extensions[l];
      SuffixCancels(stem, Extensions[k], Extensions[l]);
    }
  }

  /** Only the last output, the ".words.json" file, is compared as JSON; the other five line by line. */
  lemma OnlyWordsJsonIsJson(input: string, outputPath: string)
    ensures forall k :: 0 <= k < |GeneratedFiles(input, outputPath)| ==>
      (EndsWith(GeneratedFiles(input, outputPath)[k], ".json") <==> k == 5)
  {
    var stem := outputPath + "/" + Basename(input) + ".";
    forall k | 0 <= k < 6
      ensures EndsWith(GeneratedFiles(input, outputPath)[k], ".json") <==> k == 5
    {
      var s := GeneratedFiles(input, outputPath)[k];
      var e := Extensions[k];
      assert s == stem + e;
      assert s[|s| - 1] == e[|e| - 1];
      if k == 5 {
        assert s[|s| - 5..] == e[|e| - 5..];
      } else {
        assert e[|e| - 1] == 't';
      }
    }
  }

  /** The reference keeps the output's base name and lives in the scenario's directory, suffixed by the device when results depend on it. */
  lemma RefNameSplits(name: string, device: string, dependent: bool, output: string)
    requires name != ""
    ensures Basename(RefName(name, device, dependent, output)) == Basename(output)
    ensures Dirname(RefName(name, device, dependent, output)) == name + (if dependent then "." + device else "")
  {
    var dir := name + (if dependent then "." + device else "");
    assert RefName(name, device, dependent, output) == Join(dir, Basename(output));
    JoinSplits(dir, Basename(output));
  }

  /** A scenario name in which no "tiny_fr" starts: no 't' is followed, five places on, by an 'f'. */
  lemma NotTinyFr(name: string)
    requires forall i :: 0 <= i && i + 7 <= |name| ==> name[i] != 't' || name[i + 5] != 'f'
    ensures !Contains(name, "tiny_fr")
  {
    forall i | 0 <= i && i + 7 <= |name| ensures !OccursAt(name, "tiny_fr", i) {
      assert name[i..i + 7][0] == name[i] && name[i..i + 7][5] == name[i + 5];
    }
    ContainsAt(name, "tiny_fr");
  }

  lemma TinyFrContainsItself()
    ensures Contains("tiny_fr", "tiny_fr")
  {
    ContainsAt("tiny_fr", "tiny_fr");
    assert OccursAt("tiny_fr", "tiny_fr", 0);
  }

  lemma TinyAutoIsNotTinyFr()
    ensures !Contains("tiny_auto", "tiny_fr")
  {
    var t := "tiny_auto";
    assert t[0] == 't' && t[1] != 't' && t[2] != 't';
    NotTinyFr(t);
  }

  lemma MediumAutoIsNotTinyFr()
    ensures !Contains("medium_auto", "tiny_fr")
  {
    var m := "medium_auto";
    assert forall i :: 0 <= i <= 4 ==> m[i] != 't';
    NotTinyFr(m);
  }

  lemma MediumFrIsNotTinyFr()
    ensures !Contains("medium_fr", "tiny_fr")
  {
    var f := "medium_fr";
    assert forall i :: 0 <= i <= 2 ==> f[i] != 't';
    NotTinyFr(f);
  }

  /**
    Of the four scenarios, only tiny_fr keeps per-device references for
    inputs longer than 30 seconds and up to 60 seconds.
   */
  lemma DeviceDependentScenarios(duration: real)
    requires 30.0 < duration <= 60.0
    ensures DeviceDependent(duration, "tiny_fr")
    ensures !DeviceDependent(duration, "tiny_auto")
    ensures !DeviceDependent(duration, "medium_auto")
    ensures !DeviceDependent(duration, "medium_fr")
  {
    TinyFrContainsItself();
    TinyAutoIsNotTinyFr();
    MediumAutoIsNotTinyFr();
    MediumFrIsNotTinyFr();
  }

  // ---------------------------------------------------------------------------
  // Comparison

  /**
    _check_file_non_regression: a name ending in ".json" is parsed on both
    sides and compared with assertClose; any other file is compared line by line.
   */
  function CheckFile(fs: FS, file: string, reference: string, round: Rounding): (r: Outcome)
    ensures r.Pass? ==> IsFile(fs, file) && IsFile(fs, reference)
    ensures !IsFile(fs, file) ==> r == Fail(OsError(file))
    ensures r.Fail? ==>
      r.failure in {OsError(file), OsError(reference), InvalidJson(file), InvalidJson(reference), Mismatch(file, reference)}
    ensures r.Fail? && r.failure.InvalidJson? ==> EndsWith(file, ".json")
  {
    if EndsWith(file, ".json") then
      if !IsFile(fs, file) then Fail(OsError(file))
      else if fs[file].json.None? then Fail(InvalidJson(file))
      else if !IsFile(fs, reference) then Fail(OsError(reference))
      else if fs[reference].json.None? then Fail(InvalidJson(reference))
      else if Close(fs[file].json.value, fs[reference].json.value, round) then Pass
      else Fail(Mismatch(file, reference))
    else
      if !IsFile(fs, file) then Fail(OsError(file))
      else if !IsFile(fs, reference) then Fail(OsError(reference))
      else if fs[file].lines == fs[reference].lines then Pass
      else Fail(Mismatch(file, reference))
  }

  /** A generated file `p` has a same-named file directly under `reference`, and the two compare equal. */
  predicate GeneratedPaired(fs: FS, reference: string, p: string, round: Rounding) {
    IsFile(fs, Join(reference, Basename(p))) && CheckFile(fs, p, Join(reference, Basename(p)), round) == Pass
  }

  /** A reference file `g` has a same-named file directly under `content`. */
  predicate ReferencePaired(fs: FS, content: string, g: string) {
    IsFile(fs, Join(content, Basename(g)))
  }

  /** The two walks of assertNonRegression find nothing to complain about. */
  predicate TreesAgree(fs: FS, content: string, reference: string, round: Rounding) {
    && (forall p :: p in FilesUnder(fs, content) ==> GeneratedPaired(fs, reference, p, round))
    && (forall g :: g in FilesUnder(fs, reference) ==> ReferencePaired(fs, content, g))
  }

  /**
    The directory branch of assertNonRegression: walk the generated tree and
    pair every file with the reference file of the same base name, then walk
    the reference tree and look for the counterpart of every file. os.walk
    visits files in an order the model leaves open.
   */
  method CompareTrees(fs: FS, content: string, reference: string, round: Rounding) returns (r: Outcome)
    ensures r.Pass? <==> TreesAgree(fs, content, reference, round)
    ensures r.Fail? && r.failure.AdditionalFile? ==>
      exists p :: p in FilesUnder(fs, content) && Basename(p) == r.failure.name
                  && !IsFile(fs, Join(reference, r.failure.name))
    ensures r.Fail? && r.failure.MissingFile? ==>
      && (forall p :: p in FilesUnder(fs, content) ==> GeneratedPaired(fs, reference, p, round))
      && exists g :: g in FilesUnder(fs, reference) && r.failure.path == Join(content, Basename(g))
                     && !IsFile(fs, r.failure.path)
    ensures r.Fail? && !r.failure.AdditionalFile? && !r.failure.MissingFile? ==>
      exists p :: p in FilesUnder(fs, content) && IsFile(fs, Join(reference, Basename(p)))
                  && r == CheckFile(fs, p, Join(reference, Basename(p)), round)
  {
    var generated := FilesUnder(fs, content);
    var todo := generated;
    while todo != {}
      invariant todo <= generated
      invariant forall p :: p in generated - todo ==> GeneratedPaired(fs, reference, p, round)
      decreases todo
    {
      var p :| p in todo;
      var f := Basename(p);
      var fRef := Join(reference, f);
      if !IsFile(fs, fRef) {
        return Fail(AdditionalFile(f));
      }
      var c := CheckFile(fs, p, fRef, round);
      if c.Fail? {
        return c;
      }
      todo := todo - {p};
    }
    var references := FilesUnder(fs, reference);
    todo := references;
    while todo != {}
      invariant todo <= references
      invariant forall g :: g in references - todo ==> ReferencePaired(fs, content, g)
      decreases todo
    {
      var g :| g in todo;
      var f := Join(content, Basename(g));
      if !IsFile(fs, f) {
        return Fail(MissingFile(f));
      }
      todo := todo - {g};
    }
    return Pass;
  }

  /**
    Two readable files: a ".json" name passes exactly when both parse and
    their loosened values are equal under Python's ==; any other name passes
    exactly when the line lists are identical, with no normalisation.
    A failure names the file that could not be read or parsed, or the pair.
   */
  lemma CheckFileCompares(fs: FS, file: string, reference: string, round: Rounding)
    requires IsFile(fs, file) && IsFile(fs, reference)
    ensures EndsWith(file, ".json") ==>
      (CheckFile(fs, file, reference, round) == Pass <==>
        && fs[file].json.Some? && fs[reference].json.Some?
        && PyEq(Loose(fs[file].json.value, round), Loose(fs[reference].json.value, round)))
    ensures !EndsWith(file, ".json") ==>
      (CheckFile(fs, file, reference, round) == Pass <==> fs[file].lines == fs[reference].lines)
    ensures CheckFile(fs, file, reference, round).Fail? ==>
      CheckFile(fs, file, reference, round).failure
        in {InvalidJson(file), InvalidJson(reference), Mismatch(file, reference)}
  {
  }

  /** A reference copied from an output compares equal to that output. */
  lemma FileRoundTrip(fs: FS, content: string, reference: string, round: Rounding)
    requires IsFile(fs, content)
    requires EndsWith(content, ".json") ==> fs[content].json.Some? && WellFormed(fs[content].json.value)
    requires CopyFile(fs, content, reference).Success?
    ensures CheckFile(CopyFile(fs, content, reference).value, content, reference, round) == Pass
  {
    if EndsWith(content, ".json") {
      CloseReflexive(fs[content].json.value, round);
    }
  }

  /** The verdict on two files does not depend on which one is the reference, as long as both or neither are JSON. */
  lemma CheckFileSymmetric(fs: FS, a: string, b: string, round: Rounding)
    requires EndsWith(a, ".json") <==> EndsWith(b, ".json")
    ensures CheckFile(fs, a, b, round).Pass? <==> CheckFile(fs, b, a, round).Pass?
  {
    if EndsWith(a, ".json") && IsFile(fs, a) && IsFile(fs, b) && fs[a].json.Some? && fs[b].json.Some? {
      var x, y := fs[a].json.value, fs[b].json.value;
      if Close(x, y, round) {
        CloseSymmetric(x, y, round);
      }
      if Close(y, x, round) {
        CloseSymmetric(y, x, round);
      }
    }
  }

  /** JSON documents that differ only in the key order of their objects, at any depth, compare equal. */
  lemma JsonKeyOrderIgnored(fs: FS, file: string, reference: string, round: Rounding)
    requires EndsWith(file, ".json") && IsFile(fs, file) && IsFile(fs, reference)
    requires fs[file].json.Some? && fs[reference].json.Some?
    requires Reordered(fs[file].json.value, fs[reference].json.value)
    ensures CheckFile(fs, file, reference, round) == Pass
  {
    ReorderedClose(fs[file].json.value, fs[reference].json.value, round);
  }

  /** Every file directly in `d`: none lies in a subdirectory. */
  predicate Flat(fs: FS, d: string) {
    forall p :: p in FilesUnder(fs, d) ==> '/' !in Rest(d, p)
  }

  /** Every JSON file below `d` parses to a value Python could have built. */
  predicate JsonParses(fs: FS, d: string) {
    forall p :: p in FilesUnder(fs, d) && EndsWith(p, ".json") ==> fs[p].json.Some? && WellFormed(fs[p].json.value)
  }

  /** Nothing below `content` is written by a copy into a directory apart from it. */
  lemma CopyLeavesApart(fs: FS, content: string, reference: string, p: string)
    requires Apart(content, reference) && IsUnder(content, p)
    ensures p !in CopiedNames(fs, content, reference) && p != reference
  {
    forall q | q in fs && IsUnder(content, q) ensures p != Join(reference, Rest(content, q)) {
      ApartNotUnder(content, reference, Rest(content, q));
    }
    ApartNotUnder(content, reference, "");
  }

  /** The first walk of a copied tree: each generated file finds its copy under its base name. */
  lemma GeneratedFilesRecovered(fs: FS, content: string, reference: string, p: string, round: Rounding)
    requires content != "" && Apart(content, reference)
    requires Flat(fs, content) && JsonParses(fs, content)
    requires CopyTree(fs, content, reference).Success?
    requires p in FilesUnder(CopyTree(fs, content, reference).value, content)
    ensures GeneratedPaired(CopyTree(fs, content, reference).value, reference, p, round)
  {
    var fs' := CopyTree(fs, content, reference).value;
    CopyLeavesApart(fs, content, reference, p);
    assert p in fs && fs'[p] == fs[p];
    var r := Rest(content, p);
    JoinSplits(content, r);
    JoinIsUnder(reference, r);
    assert Join(reference, r) in CopiedNames(fs, content, reference);
    assert Copied(fs, content, reference)[Join(reference, r)] == fs[p];
    if EndsWith(p, ".json") {
      CloseReflexive(fs[p].json.value, round);
    }
  }

  /** The second walk of a copied tree: each reference file finds the file it was copied from. */
  lemma ReferenceFilesRecovered(fs: FS, content: string, reference: string, g: string)
    requires content != "" && reference != "" && Apart(content, reference)
    requires forall p :: p in fs ==> !IsUnder(reference, p)
    requires Flat(fs, content)
    requires CopyTree(fs, content, reference).Success?
    requires g in FilesUnder(CopyTree(fs, content, reference).value, reference)
    ensures ReferencePaired(CopyTree(fs, content, reference).value, content, g)
  {
    assert g in CopiedNames(fs, content, reference);
    CopiedNameSource(fs, content, reference, g);
    var r := Rest(reference, g);
    var q := Join(content, r);
    JoinIsUnder(content, r);
    assert q in FilesUnder(fs, content);
    JoinSplits(reference, r);
    CopyLeavesApart(fs, content, reference, q);
  }

  /**
    A reference directory copied from a flat output directory passes the
    directory comparison: each generated file finds its copy under the same
    base name, and each copy finds the file it came from.
   */
  lemma TreeRoundTrip(fs: FS, content: string, reference: string, round: Rounding)
    requires content != "" && reference != "" && Apart(content, reference)
    requires forall p :: p in fs ==> !IsUnder(reference, p)
    requires Flat(fs, content) && JsonParses(fs, content)
    requires CopyTree(fs, content, reference).Success?
    ensures TreesAgree(CopyTree(fs, content, reference).value, content, reference, round)
  {
    var fs' := CopyTree(fs, content, reference).value;
    forall p | p in FilesUnder(fs', content) ensures GeneratedPaired(fs', reference, p, round) {
      GeneratedFilesRecovered(fs, content, reference, p, round);
    }
    forall g | g in FilesUnder(fs', reference) ensures ReferencePaired(fs', content, g) {
      ReferenceFilesRecovered(fs, content, reference, g);
    }
  }

  /**
    A generated file in a subdirectory is paired with the reference file of
    its base name directly under the reference, not with its own copy: when
    no file of that name lies directly in the output directory, a reference
    copied from it does not pass.
   */
  lemma NestedTreeNotRecovered(fs: FS, content: string, reference: string, p: string, round: Rounding)
    requires content != "" && Apart(content, reference)
    requires forall q :: q in fs ==> !IsUnder(reference, q)
    requires CopyTree(fs, content, reference).Success?
    requires p in FilesUnder(fs, content) && '/' in Rest(content, p)
    requires Basename(p) != "" && Join(content, Basename(p)) !in fs
    ensures !TreesAgree(CopyTree(fs, content, reference).value, content, reference, round)
  {
    var fs' := CopyTree(fs, content, reference).value;
    CopyLeavesApart(fs, content, reference, p);
    assert p in FilesUnder(fs', content);
    var missing := Join(reference, Basename(p));
    forall q | q in fs && IsUnder(content, q) ensures missing != Join(reference, Rest(content, q)) {
      JoinInjective(reference, Basename(p), Rest(content, q));
    }
    assert missing !in CopiedNames(fs, content, reference);
    JoinIsUnder(reference, Basename(p));
    assert missing !in fs && missing != reference;
    assert missing !in fs';
  }

  // ---------------------------------------------------------------------------
  // One output against its reference

  /**
    What stays fixed while the tests run: the three policy flags, the
    repository root (dirname(dirname(__file__))), the working directory and
    round(x, 1).
   */
  datatype Settings = Settings(policy: Policy, root: string, cwd: string, round: Rounding)

  /** makedirs for the parent of a new reference, when it is not a directory yet. */
  function MakeParent(fs: FS, reference: string): (r: Result<FS, string>)
    ensures r.Failure? <==>
      !IsDir(fs, Dirname(reference)) && (Dirname(reference) in fs || exists a :: IsFile(fs, a) && IsUnder(a, Dirname(reference)))
    ensures r.Failure? ==> r.error == Dirname(reference)
    ensures r.Success? ==> IsDir(r.value, Dirname(reference)) && r.value.Keys == fs.Keys + {Dirname(reference)}
    ensures r.Success? ==> forall p :: p in fs ==> r.value[p] == fs[p]
  {
    if IsDir(fs, Dirname(reference)) then Success(fs) else MakeDirs(fs, Dirname(reference))
  }

  /** copyfile or copytree of the generated output onto the reference. */
  function CopyOutput(fs: FS, content: string, reference: string, isFile: bool): (r: Result<FS, string>)
    ensures isFile ==>
      (r.Failure? <==> !IsFile(fs, content) || content == reference || IsDir(fs, reference) || !IsDir(fs, Dirname(reference)))
    ensures !isFile ==>
      (r.Failure? <==> !IsDir(fs, content) || reference in fs || exists a :: IsFile(fs, a) && IsUnder(a, reference))
    ensures r.Success? && isFile ==> r.value.Keys == fs.Keys + {reference} && r.value[reference] == fs[content]
    ensures r.Success? && !isFile ==>
      && IsDir(r.value, reference)
      && r.value.Keys == fs.Keys + {reference} + (set p | p in fs && IsUnder(content, p) :: Join(reference, Rest(content, p)))
      && forall p :: p in fs && IsUnder(content, p) ==> r.value[Join(reference, Rest(content, p))] == fs[p]
    ensures r.Success? ==> forall p :: p in fs && p != reference && (isFile || !IsUnder(reference, p)) ==> r.value[p] == fs[p]
  {
    if isFile then CopyFile(fs, content, reference) else CopyTree(fs, content, reference)
  }

  /**
    Line 69: whether the reference is handled as a file is decided on the
    name as given, looked up from the working directory, and on the output
    when nothing is there.
   */
  function IsFileReference(fs: FS, cwd: string, content: string, reference: string): bool {
    var raw := Resolve(cwd, reference);
    if raw in fs then fs[raw].File? else IsFile(fs, content)
  }

  /** What is stored under tests/expected does not enter that decision. */
  lemma StoredReferenceNotConsulted(fs: FS, s: Settings, content: string, reference: string, e: Entry)
    requires PathOf(s.root, ExpectedDir, reference) != Resolve(s.cwd, reference)
    requires PathOf(s.root, ExpectedDir, reference) != content
    ensures IsFileReference(fs[PathOf(s.root, ExpectedDir, reference) := e], s.cwd, content, reference)
         == IsFileReference(fs, s.cwd, content, reference)
  {
  }

  /** The comparison of lines 82-95 passes: the output file against the reference file, or the output tree against the reference tree. */
  predicate Passes(fs: FS, round: Rounding, content: string, refPath: string, isFile: bool) {
    if isFile then IsFile(fs, content) && CheckFile(fs, content, refPath, round) == Pass
    else IsDir(fs, content) && TreesAgree(fs, content, refPath, round)
  }

  /** `r` is an outcome the comparison of lines 82-95 can have. */
  predicate Verdict(fs: FS, round: Rounding, content: string, refPath: string, isFile: bool, r: Outcome) {
    && (r.Pass? <==> Passes(fs, round, content, refPath, isFile))
    && (isFile && !IsFile(fs, content) ==> r == Fail(NotAFile(content)))
    && (isFile && IsFile(fs, content) ==> r == CheckFile(fs, content, refPath, round))
    && (!isFile && !IsDir(fs, content) ==> r == Fail(NotADirectory(content)))
  }

  /** The file system after lines 68-80, the references they record, and the failure that stops them, if any. */
  datatype Prepared = Prepared(fs: FS, added: seq<string>, early: Option<Failure>)

  /**
    Lines 68-80 of assertNonRegression: the output must exist; the reference
    is resolved, checked for existence under the strict policy, and created
    from the output when it is missing or all references are regenerated.
   */
  function Prepare(s: Settings, fs: FS, content: string, reference: string): (p: Prepared)
    ensures fs.Keys <= p.fs.Keys
    ensures p.added == [] || p.added == [PathOf(s.root, ExpectedDir, reference)]
    ensures p.early.None? ==> content in fs && PathOf(s.root, ExpectedDir, reference) in p.fs
    ensures p.early.Some? ==> p.early.value.MissingFile? || p.early.value.CannotFind? || p.early.value.CopyFailed?
    // the strict policy never creates a reference: a missing one fails first
    ensures s.policy.failIfReferenceNotFound && !s.policy.generateAll ==> p.added == []
  {
    var refPath := PathOf(s.root, ExpectedDir, reference);
    if content !in fs then Prepared(fs, [], Some(MissingFile(content)))
    else if s.policy.failIfReferenceNotFound && refPath !in fs then Prepared(fs, [], Some(CannotFind(refPath)))
    else if refPath in fs && !s.policy.generateAll then Prepared(fs, [], None)
    else
      match MakeParent(fs, refPath)
      case Failure(e) => Prepared(fs, [], Some(CopyFailed(e)))
      case Success(made) =>
        match CopyOutput(made, content, refPath, IsFileReference(fs, s.cwd, content, reference))
        case Failure(e) => Prepared(made, [], Some(CopyFailed(e)))
        case Success(copied) => Prepared(copied, [refPath], None)
  }

  /**
    The cases of lines 68-80: a missing output, a missing reference under the
    strict policy, an existing reference kept, and a creation that is due,
    which records the reference unless makedirs or the copy itself fails.
   */
  lemma PrepareCases(s: Settings, fs: FS, content: string, reference: string)
    ensures var p := Prepare(s, fs, content, reference);
            var refPath := PathOf(s.root, ExpectedDir, reference);
      && (content !in fs ==> p == Prepared(fs, [], Some(MissingFile(content))))
      && (content in fs && s.policy.failIfReferenceNotFound && refPath !in fs ==>
            p == Prepared(fs, [], Some(CannotFind(refPath))))
      && (content in fs && refPath in fs && !s.policy.generateAll ==> p == Prepared(fs, [], None))
      && (content in fs && (refPath in fs || !s.policy.failIfReferenceNotFound) && (refPath !in fs || s.policy.generateAll) ==>
            (p.added == [refPath] && p.early.None?) || (p.added == [] && p.early.Some? && p.early.value.CopyFailed?))
      && (p.early.Some? && p.early.value.CopyFailed? ==>
            || MakeParent(fs, refPath) == Failure(p.early.value.path)
            || (MakeParent(fs, refPath).Success? && p.fs == MakeParent(fs, refPath).value
                && CopyOutput(p.fs, content, refPath, IsFileReference(fs, s.cwd, content, reference))
                   == Failure(p.early.value.path)))
  {
  }

  /** A file reference just created from an output compares equal to that output. */
  lemma CreatedFileReferencePasses(s: Settings, fs: FS, content: string, reference: string)
    requires IsFile(fs, content)
    requires EndsWith(content, ".json") ==> fs[content].json.Some? && WellFormed(fs[content].json.value)
    requires IsFileReference(fs, s.cwd, content, reference)
    requires Prepare(s, fs, content, reference).added != []
    ensures Passes(Prepare(s, fs, content, reference).fs, s.round, content, PathOf(s.root, ExpectedDir, reference), true)
  {
    var refPath := PathOf(s.root, ExpectedDir, reference);
    var made := MakeParent(fs, refPath).value;
    assert made[content] == fs[content];
    FileRoundTrip(made, content, refPath, s.round);
  }

  // ---------------------------------------------------------------------------
  // Scenario driver

  /** The reference every one of `outputs` would be compared with already exists. */
  predicate AllReferencesExist(fs: FS, root: string, name: string, device: string, dependent: bool, outputs: seq<string>) {
    forall k :: 0 <= k < |outputs| ==> PathOf(root, ExpectedDir, RefName(name, device, dependent, outputs[k])) in fs
  }

  /** Each output of a run, checked against its reference, in order. */
  function Checks(outputs: seq<string>, name: string, device: string, dependent: bool): (c: seq<Event>)
    ensures |c| == |outputs|
    ensures forall k :: 0 <= k < |c| ==> c[k] == Checked(outputs[k], RefName(name, device, dependent, outputs[k]))
  {
    if outputs == [] then []
    else [Checked(outputs[0], RefName(name, device, dependent, outputs[0]))] + Checks(outputs[1..], name, device, dependent)
  }

  /** What happens to one input: skipped, or run and its six outputs checked. */
  function Block(input: string, skipped: bool, name: string, device: string, duration: string -> real, outputDir: string): seq<Event> {
    if skipped then [Skipped(input)]
    else [Ran(input)] + Checks(GeneratedFiles(input, outputDir), name, device, DeviceDependent(duration(input), name))
  }

  /** The inputs handled one after the other, each skipped or not as `skips` says. */
  function Schedule(inputs: seq<string>, skips: seq<bool>, name: string, device: string, duration: string -> real, outputDir: string): seq<Event>
    requires |skips| == |inputs|
  {
    if inputs == [] then []
    else
      Schedule(inputs[..|inputs| - 1], skips[..|inputs| - 1], name, device, duration, outputDir)
      + Block(inputs[|inputs| - 1], skips[|inputs| - 1], name, device, duration, outputDir)
  }


  /** Every skipped input in `log` was skipped under generate-new-only with all six references present in `fs`. */
  predicate SkipsJustified(log: seq<Event>, fs: FS, policy: Policy, root: string, name: string, device: string,
                           duration: string -> real, outputDir: string)
  {
    forall k :: 0 <= k < |log| && log[k].Skipped? ==>
      && policy.generateNewOnly
      && AllReferencesExist(fs, root, name, device, DeviceDependent(duration(log[k].input), name),
                            GeneratedFiles(log[k].input, outputDir))
  }

  /** Every input run in `log` was not skippable: not generate-new-only, or some reference missing from `fs`. */
  predicate RunsJustified(log: seq<Event>, fs: FS, policy: Policy, root: string, name: string, device: string,
                          duration: string -> real, outputDir: string)
  {
    forall k :: 0 <= k < |log| && log[k].Ran? ==>
      || !policy.generateNewOnly
      || !AllReferencesExist(fs, root, name, device, DeviceDependent(duration(log[k].input), name),
                             GeneratedFiles(log[k].input, outputDir))
  }

  /** Every skip in `log` is justified by `fs`, and every run by `fs0`. */
  predicate Justified(log: seq<Event>, fs0: FS, fs: FS, policy: Policy, root: string, name: string, device: string,
                      duration: string -> real, outputDir: string)
  {
    && SkipsJustified(log, fs, policy, root, name, device, duration, outputDir)
    && RunsJustified(log, fs0, policy, root, name, device, duration, outputDir)
  }

  /** References are never removed, so a reference that exists stays. */
  lemma ExistingReferencesGrow(fs: FS, fs': FS, root: string, name: string, device: string, dependent: bool, outputs: seq<string>)
    requires fs.Keys <= fs'.Keys
    ensures AllReferencesExist(fs, root, name, device, dependent, outputs) ==>
            AllReferencesExist(fs', root, name, device, dependent, outputs)
  {
  }

  lemma SkipsStayJustified(log: seq<Event>, fs: FS, fs': FS, policy: Policy, root: string, name: string, device: string,
                           duration: string -> real, outputDir: string)
    requires fs.Keys <= fs'.Keys
    requires SkipsJustified(log, fs, policy, root, name, device, duration, outputDir)
    ensures SkipsJustified(log, fs', policy, root, name, device, duration, outputDir)
  {
    forall k | 0 <= k < |log| && log[k].Skipped?
      ensures AllReferencesExist(fs', root, name, device, DeviceDependent(duration(log[k].input), name),
                                 GeneratedFiles(log[k].input, outputDir))
    {
      ExistingReferencesGrow(fs, fs', root, name, device, DeviceDependent(duration(log[k].input), name),
                             GeneratedFiles(log[k].input, outputDir));
    }
  }


  /** Handling one more input appends its block to the schedule. */
  lemma ScheduleStep(inputs: seq<string>, i: nat, skips: seq<bool>, b: bool, name: string, device: string,
                     duration: string -> real, outputDir: string)
    requires i < |inputs| && |skips| == i
    ensures Schedule(inputs[..i + 1], skips + [b], name, device, duration, outputDir)
         == Schedule(inputs[..i], skips, name, device, duration, outputDir) + Block(inputs[i], b, name, device, duration, outputDir)
  {
    assert inputs[..i + 1][..i] == inputs[..i];
    assert (skips + [b])[..i] == skips;
  }

  /** The events of one more input keep every skip and every run of the log justified. */
  lemma LogExtends(log: seq<Event>, events: seq<Event>, input: string, skipped: bool, fs0: FS, fs: FS, fs': FS,
                   policy: Policy, root: string, name: string, device: string, duration: string -> real, outputDir: string)
    requires fs0.Keys <= fs.Keys <= fs'.Keys
    requires Justified(log, fs0, fs, policy, root, name, device, duration, outputDir)
    requires skipped <==>
      policy.generateNewOnly
      && AllReferencesExist(fs, root, name, device, DeviceDependent(duration(input), name), GeneratedFiles(input, outputDir))
    requires skipped ==> events == [Skipped(input)]
    requires !skipped ==> events != [] && events[0] == Ran(input) && forall k :: 0 < k < |events| ==> events[k].Checked?
    ensures Justified(log + events, fs0, fs', policy, root, name, device, duration, outputDir)
  {
    var dependent := DeviceDependent(duration(input), name);
    ExistingReferencesGrow(fs, fs', root, name, device, dependent, GeneratedFiles(input, outputDir));
    ExistingReferencesGrow(fs0, fs, root, name, device, dependent, GeneratedFiles(input, outputDir));
    SkipsStayJustified(log, fs, fs', policy, root, name, device, duration, outputDir);
    var all := log + events;
    forall k | 0 <= k < |all| && all[k].Skipped?
      ensures policy.generateNewOnly
      ensures AllReferencesExist(fs', root, name, device, DeviceDependent(duration(all[k].input), name),
                                 GeneratedFiles(all[k].input, outputDir))
    {
      if k >= |log| {
        assert all[k] == events[k - |log|];
      } else {
        assert all[k] == log[k];
      }
    }
    forall k | 0 <= k < |all| && all[k].Ran?
      ensures || !policy.generateNewOnly
              || !AllReferencesExist(fs0, root, name, device, DeviceDependent(duration(all[k].input), name),
                                     GeneratedFiles(all[k].input, outputDir))
    {
      if k >= |log| {
        assert all[k] == events[k - |log|];
      } else {
        assert all[k] == log[k];
      }
    }
  }

  /** The prefix of a sequence up to its length is the sequence. */
  lemma WholePrefix<T>(s: seq<T>)
    ensures s[..|s|] == s
  {
  }

  /** `[x]` is a prefix of `[x] + c`. */
  lemma HeadPrefix<T>(x: T, c: seq<T>)
    ensures [x] == ([x] + c)[..1]
  {
  }

  /** Putting `x` in front of a prefix of `c` gives a prefix of `[x] + c`. */
  lemma PrefixCons<T>(x: T, l: seq<T>, c: seq<T>)
    requires |l| <= |c| && l == c[..|l|]
    ensures [x] + l == ([x] + c)[..1 + |l|]
  {
  }

  /** What a stretch of _test_cli_ leaves: the file system, the references it created, its events, and whether it got through. */
  datatype Run = Run(fs: FS, added: seq<string>, log: seq<Event>, passed: bool)

  /** The checks of a sequence of outputs are the check of the first followed by the checks of the rest. */
  lemma ChecksCons(outputs: seq<string>, name: string, device: string, dependent: bool)
    requires outputs != []
    ensures Checks(outputs, name, device, dependent)
         == [Checked(outputs[0], RefName(name, device, dependent, outputs[0]))] + Checks(outputs[1..], name, device, dependent)
  {
  }

  /**
    The inner loop of _test_cli_ (lines 224-225) from the file system `fs`:
    each output is prepared and compared in turn, up to the first that fails.
   */
  function Sweep(s: Settings, fs: FS, outputs: seq<string>, name: string, device: string, dependent: bool): (w: Run)
    ensures fs.Keys <= w.fs.Keys
    ensures s.policy.failIfReferenceNotFound && !s.policy.generateAll ==> w.added == []
    decreases |outputs|
  {
    if outputs == [] then Run(fs, [], [], true)
    else
      var reference := RefName(name, device, dependent, outputs[0]);
      var p := Prepare(s, fs, outputs[0], reference);
      var checked := [Checked(outputs[0], reference)];
      if p.early.Some?
         || !Passes(p.fs, s.round, outputs[0], PathOf(s.root, ExpectedDir, reference), IsFileReference(fs, s.cwd, outputs[0], reference))
      then Run(p.fs, p.added, checked, false)
      else
        var w := Sweep(s, p.fs, outputs[1..], name, device, dependent);
        Run(w.fs, p.added + w.added, checked + w.log, w.passed)
  }

  /**
    A sweep logs a prefix of the planned checks, in order: all of them when
    it gets through, and at least the check that failed when it does not.
   */
  lemma {:induction false} SweepLogsChecks(s: Settings, fs: FS, outputs: seq<string>, name: string, device: string, dependent: bool)
    ensures var w := Sweep(s, fs, outputs, name, device, dependent);
      && |w.log| <= |outputs| && w.log == Checks(outputs, name, device, dependent)[..|w.log|]
      && (w.passed ==> w.log == Checks(outputs, name, device, dependent))
      && (!w.passed ==> w.log != [])
    decreases |outputs|
  {
    if outputs != [] {
      var x := Checked(outputs[0], RefName(name, device, dependent, outputs[0]));
      var after := Prepare(s, fs, outputs[0], RefName(name, device, dependent, outputs[0])).fs;
      var w, v := Sweep(s, fs, outputs, name, device, dependent), Sweep(s, after, outputs[1..], name, device, dependent);
      var c := Checks(outputs[1..], name, device, dependent);
      ChecksCons(outputs, name, device, dependent);
      SweepShape(s, fs, outputs, name, device, dependent);
      if w.log == [x] {
        HeadPrefix(x, c);
      } else {
        SweepLogsChecks(s, after, outputs[1..], name, device, dependent);
        PrefixCons(x, v.log, c);
      }
    }
  }

  /** A sweep either stops at its first output, or logs that output's check and goes on from the file system it left. */
  lemma SweepShape(s: Settings, fs: FS, outputs: seq<string>, name: string, device: string, dependent: bool)
    requires outputs != []
    ensures var x := Checked(outputs[0], RefName(name, device, dependent, outputs[0]));
            var after := Prepare(s, fs, outputs[0], RefName(name, device, dependent, outputs[0])).fs;
            var w, v := Sweep(s, fs, outputs, name, device, dependent), Sweep(s, after, outputs[1..], name, device, dependent);
      || (w.log == [x] && !w.passed)
      || (w.log == [x] + v.log && w.passed == v.passed)
  {
  }

  /** `t` is what is done so far (`added`, `log`) followed by `w`. */
  predicate Splits(t: Run, w: Run, added: seq<string>, log: seq<Event>) {
    t.fs == w.fs && t.added == added + w.added && t.log == log + w.log && t.passed == w.passed
  }

  /**
    A loop that is to do `t` has recorded `refs` on top of `base` and logged
    `log` so far, and `w` is what remains to be done.
   */
  predicate Tracks(t: Run, w: Run, base: seq<string>, refs: seq<string>, log: seq<Event>) {
    t.fs == w.fs && base + t.added == refs + w.added && t.log == log + w.log && t.passed == w.passed
  }

  /** A step that does `added` and `events` and leaves `v` to be done moves the loop on. */
  lemma TracksStep(t: Run, w: Run, v: Run, base: seq<string>, refs: seq<string>, log: seq<Event>,
                   added: seq<string>, events: seq<Event>)
    requires Tracks(t, w, base, refs, log) && Splits(w, v, added, events)
    ensures Tracks(t, v, base, refs + added, log + events)
  {
    assert refs + (added + v.added) == refs + added + v.added;
    assert log + (events + v.log) == log + events + v.log;
  }

  /** When nothing remains to be done, the loop has done all of `t`. */
  lemma TracksDone(t: Run, w: Run, base: seq<string>, refs: seq<string>, log: seq<Event>)
    requires Tracks(t, w, base, refs, log) && w.added == [] && w.log == []
    ensures t.fs == w.fs && base + t.added == refs && t.log == log && t.passed == w.passed
  {
    assert refs + [] == refs;
    assert log + [] == log;
  }

  /** Before a loop, all of `t` remains to be done. */
  lemma TracksStart(t: Run, base: seq<string>)
    ensures Tracks(t, t, base, base, [])
  {
  }

  /** The suffix of a sequence from 0 is the sequence. */
  lemma WholeSuffix<T>(s: seq<T>)
    ensures s[0..] == s
  {
  }

  /** Past the last output, the sweep has nothing left to do. */
  lemma SweepEmpty(s: Settings, fs: FS, outputs: seq<string>, name: string, device: string, dependent: bool)
    ensures Sweep(s, fs, outputs[|outputs|..], name, device, dependent) == Run(fs, [], [], true)
  {
    assert outputs[|outputs|..] == [];
  }

  lemma SweepNone(s: Settings, fs: FS, outputs: seq<string>, name: string, device: string, dependent: bool)
    ensures Sweep(s, fs, outputs[..0], name, device, dependent) == Run(fs, [], [], true)
  {
    assert outputs[..0] == [];
  }

  /**
    Sweeping the outputs from position `j` on, when the output at `j` was
    prepared into `after` with outcome `r`: a failure ends the sweep there,
    a pass goes on with the rest from `after`.
   */
  lemma SweepAfterCheck(s: Settings, before: FS, after: FS, outputs: seq<string>, j: nat, name: string, device: string,
                        dependent: bool, r: Outcome)
    requires j < |outputs|
    requires var reference := RefName(name, device, dependent, outputs[j]);
             var p := Prepare(s, before, outputs[j], reference);
      && after == p.fs && (p.early.Some? ==> r.Fail?)
      && (p.early.None? ==>
            (r.Pass? <==> Passes(after, s.round, outputs[j], PathOf(s.root, ExpectedDir, reference),
                                 IsFileReference(before, s.cwd, outputs[j], reference))))
    ensures var reference := RefName(name, device, dependent, outputs[j]);
            var p := Prepare(s, before, outputs[j], reference);
      && (r.Fail? ==> Sweep(s, before, outputs[j..], name, device, dependent) == Run(after, p.added, [Checked(outputs[j], reference)], false))
      && (r.Pass? ==> Splits(Sweep(s, before, outputs[j..], name, device, dependent),
                             Sweep(s, after, outputs[j + 1..], name, device, dependent), p.added, [Checked(outputs[j], reference)]))
  {
    assert outputs[j..][0] == outputs[j];
    assert outputs[j..][1..] == outputs[j + 1..];
  }

  /** Every output of a sweep that got through has its reference afterwards, found or created. */
  lemma {:induction false} SweepLeavesReferences(s: Settings, fs: FS, outputs: seq<string>, name: string, device: string, dependent: bool)
    requires Sweep(s, fs, outputs, name, device, dependent).passed
    ensures AllReferencesExist(Sweep(s, fs, outputs, name, device, dependent).fs, s.root, name, device, dependent, outputs)
    decreases |outputs|
  {
    if outputs != [] {
      var reference := RefName(name, device, dependent, outputs[0]);
      var p := Prepare(s, fs, outputs[0], reference);
      var w := Sweep(s, p.fs, outputs[1..], name, device, dependent);
      SweepLeavesReferences(s, p.fs, outputs[1..], name, device, dependent);
      forall k | 0 <= k < |outputs|
        ensures PathOf(s.root, ExpectedDir, RefName(name, device, dependent, outputs[k])) in w.fs
      {
        if k > 0 {
          assert outputs[k] == outputs[1..][k - 1];
        }
      }
    }
  }

  /** `output`, prepared from `before`, got through lines 68-80 and passed the comparison of lines 82-95. */
  predicate Compared(s: Settings, before: FS, output: string, reference: string) {
    var p := Prepare(s, before, output, reference);
    p.early.None?
    && Passes(p.fs, s.round, output, PathOf(s.root, ExpectedDir, reference), IsFileReference(before, s.cwd, output, reference))
  }

  /** A sweep that got through passed its first comparison. */
  lemma SweepHeadCompared(s: Settings, fs: FS, outputs: seq<string>, name: string, device: string, dependent: bool)
    requires outputs != [] && Sweep(s, fs, outputs, name, device, dependent).passed
    ensures Compared(s, fs, outputs[0], RefName(name, device, dependent, outputs[0]))
  {
  }

  /** After a first comparison that passed, the sweep goes on from the prepared file system. */
  lemma SweepPassesOn(s: Settings, fs: FS, outputs: seq<string>, name: string, device: string, dependent: bool)
    requires outputs != [] && Compared(s, fs, outputs[0], RefName(name, device, dependent, outputs[0]))
    ensures var after := Prepare(s, fs, outputs[0], RefName(name, device, dependent, outputs[0])).fs;
      && Sweep(s, fs, outputs, name, device, dependent).fs == Sweep(s, after, outputs[1..], name, device, dependent).fs
      && Sweep(s, fs, outputs, name, device, dependent).passed == Sweep(s, after, outputs[1..], name, device, dependent).passed
  {
  }

  /**
    The file system a sweep that got through has reached at its k-th output
    is the one its rest, started after the first output, has reached at the
    (k-1)-th.
   */
  lemma SweepReachedStep(s: Settings, fs: FS, outputs: seq<string>, name: string, device: string, dependent: bool, k: nat)
    requires 0 < k < |outputs| && Sweep(s, fs, outputs, name, device, dependent).passed
    ensures var after := Prepare(s, fs, outputs[0], RefName(name, device, dependent, outputs[0])).fs;
      && Sweep(s, after, outputs[1..], name, device, dependent).passed
      && Sweep(s, fs, outputs[..k], name, device, dependent).fs == Sweep(s, after, outputs[1..][..k - 1], name, device, dependent).fs
      && outputs[1..][k - 1] == outputs[k]
  {
    var done := outputs[..k];
    SweepHeadCompared(s, fs, outputs, name, device, dependent);
    SweepPassesOn(s, fs, outputs, name, device, dependent);
    assert done[0] == outputs[0] && done[1..] == outputs[1..][..k - 1];
    SweepPassesOn(s, fs, done, name, device, dependent);
  }

  /** Compared depends only on the file system and the output. */
  lemma ComparedSame(s: Settings, a: FS, b: FS, x: string, y: string, name: string, device: string, dependent: bool)
    requires a == b && x == y && Compared(s, a, x, RefName(name, device, dependent, x))
    ensures Compared(s, b, y, RefName(name, device, dependent, y))
  {
  }

  /** The rest of a sweep that got through, started after the first output, gets through too. */
  lemma SweepRestPasses(s: Settings, fs: FS, outputs: seq<string>, name: string, device: string, dependent: bool)
    requires outputs != [] && Sweep(s, fs, outputs, name, device, dependent).passed
    ensures Sweep(s, Prepare(s, fs, outputs[0], RefName(name, device, dependent, outputs[0])).fs, outputs[1..],
                  name, device, dependent).passed
  {
    SweepHeadCompared(s, fs, outputs, name, device, dependent);
    SweepPassesOn(s, fs, outputs, name, device, dependent);
  }

  /** The comparison of the k-th output made by the rest of a sweep is the one the whole sweep makes. */
  lemma SweepComparedStep(s: Settings, fs: FS, outputs: seq<string>, name: string, device: string, dependent: bool, k: nat)
    requires 0 < k < |outputs| && Sweep(s, fs, outputs, name, device, dependent).passed
    requires var after := Prepare(s, fs, outputs[0], RefName(name, device, dependent, outputs[0])).fs;
      Compared(s, Sweep(s, after, outputs[1..][..k - 1], name, device, dependent).fs, outputs[1..][k - 1],
               RefName(name, device, dependent, outputs[1..][k - 1]))
    ensures Compared(s, Sweep(s, fs, outputs[..k], name, device, dependent).fs, outputs[k], RefName(name, device, dependent, outputs[k]))
  {
    var after := Prepare(s, fs, outputs[0], RefName(name, device, dependent, outputs[0])).fs;
    SweepReachedStep(s, fs, outputs, name, device, dependent, k);
    ComparedSame(s, Sweep(s, after, outputs[1..][..k - 1], name, device, dependent).fs,
                 Sweep(s, fs, outputs[..k], name, device, dependent).fs, outputs[1..][k - 1], outputs[k], name, device, dependent);
  }

  /**
    In a sweep that got through, every output passed its comparison, made
    in the file system the sweep had reached when it came to that output.
   */
  lemma {:induction false} SweepPassedCompared(s: Settings, fs: FS, outputs: seq<string>, name: string, device: string,
                                               dependent: bool, k: nat)
    requires Sweep(s, fs, outputs, name, device, dependent).passed && k < |outputs|
    ensures Compared(s, Sweep(s, fs, outputs[..k], name, device, dependent).fs, outputs[k], RefName(name, device, dependent, outputs[k]))
    decreases k
  {
    if k == 0 {
      SweepHeadCompared(s, fs, outputs, name, device, dependent);
      SweepNone(s, fs, outputs, name, device, dependent);
      ComparedSame(s, fs, Sweep(s, fs, outputs[..0], name, device, dependent).fs, outputs[0], outputs[k], name, device, dependent);
    } else {
      SweepRestPasses(s, fs, outputs, name, device, dependent);
      SweepPassedCompared(s, Prepare(s, fs, outputs[0], RefName(name, device, dependent, outputs[0])).fs, outputs[1..],
                          name, device, dependent, k - 1);
      SweepComparedStep(s, fs, outputs, name, device, dependent, k);
    }
  }

  /**
    One pass of the loop of _test_cli_ (lines 204-225) from the file system
    `fs`: skipped when only new references are generated and all six exist;
    otherwise the tool runs, and its six outputs are swept.
   */
  function InputRun(s: Settings, fs: FS, input: string, name: string, device: string, duration: string -> real,
                    outputDir: string, tool: string -> Option<FS>): (a: Run)
    ensures fs.Keys <= a.fs.Keys
    ensures s.policy.failIfReferenceNotFound && !s.policy.generateAll ==> a.added == []
  {
    var dependent := DeviceDependent(duration(input), name);
    var outputs := GeneratedFiles(input, outputDir);
    if s.policy.generateNewOnly && AllReferencesExist(fs, s.root, name, device, dependent, outputs) then
      Run(fs, [], [Skipped(input)], true)
    else
      match tool(input)
      case None => Run(fs, [], [Ran(input)], false)
      case Some(written) =>
        var w := Sweep(s, fs + written, outputs, name, device, dependent);
        Run(w.fs, w.added, [Ran(input)] + w.log, w.passed)
  }

  /** _test_cli_'s loop over `inputs` from the file system `fs`, up to the first input that fails. */
  function Scenario(s: Settings, fs: FS, inputs: seq<string>, name: string, device: string, duration: string -> real,
                    outputDir: string, tool: string -> Option<FS>): (run: Run)
    ensures fs.Keys <= run.fs.Keys
    ensures s.policy.failIfReferenceNotFound && !s.policy.generateAll ==> run.added == []
    decreases |inputs|
  {
    if inputs == [] then Run(fs, [], [], true)
    else
      var a := InputRun(s, fs, inputs[0], name, device, duration, outputDir, tool);
      if !a.passed then a
      else
        var b := Scenario(s, a.fs, inputs[1..], name, device, duration, outputDir, tool);
        Run(b.fs, a.added + b.added, a.log + b.log, b.passed)
  }

  /** Running the inputs from position `i` on, when the input at `i` ran into `after` with outcome `r`. */
  lemma ScenarioAfterInput(s: Settings, before: FS, after: FS, inputs: seq<string>, i: nat, name: string, device: string,
                           duration: string -> real, outputDir: string, tool: string -> Option<FS>, r: Outcome)
    requires i < |inputs|
    requires var a := InputRun(s, before, inputs[i], name, device, duration, outputDir, tool);
      after == a.fs && (r.Pass? <==> a.passed)
    ensures var a := InputRun(s, before, inputs[i], name, device, duration, outputDir, tool);
      && (r.Fail? ==> Scenario(s, before, inputs[i..], name, device, duration, outputDir, tool) == a)
      && (r.Pass? ==> Splits(Scenario(s, before, inputs[i..], name, device, duration, outputDir, tool),
                             Scenario(s, after, inputs[i + 1..], name, device, duration, outputDir, tool), a.added, a.log))
  {
    assert inputs[i..][0] == inputs[i];
    assert inputs[i..][1..] == inputs[i + 1..];
  }

  /** Past the last input, the scenario has nothing left to do. */
  lemma ScenarioEmpty(s: Settings, fs: FS, inputs: seq<string>, name: string, device: string, duration: string -> real,
                      outputDir: string, tool: string -> Option<FS>)
    ensures Scenario(s, fs, inputs[|inputs|..], name, device, duration, outputDir, tool) == Run(fs, [], [], true)
  {
    assert inputs[|inputs|..] == [];
  }

  /**
    After a scenario that got through, every reference of every input
    exists, so a second run that only generates new references skips every
    input: generating new references is idempotent.
   */
  lemma {:induction false} ScenarioLeavesReferences(s: Settings, fs: FS, inputs: seq<string>, name: string, device: string,
                                                    duration: string -> real, outputDir: string, tool: string -> Option<FS>)
    requires Scenario(s, fs, inputs, name, device, duration, outputDir, tool).passed
    ensures var after := Scenario(s, fs, inputs, name, device, duration, outputDir, tool).fs;
      forall i :: 0 <= i < |inputs| ==>
        && AllReferencesExist(after, s.root, name, device, DeviceDependent(duration(inputs[i]), name),
                              GeneratedFiles(inputs[i], outputDir))
        && (s.policy.generateNewOnly ==>
              InputRun(s, after, inputs[i], name, device, duration, outputDir, tool) == Run(after, [], [Skipped(inputs[i])], true))
    decreases |inputs|
  {
    if inputs != [] {
      var a := InputRun(s, fs, inputs[0], name, device, duration, outputDir, tool);
      var b := Scenario(s, a.fs, inputs[1..], name, device, duration, outputDir, tool);
      var dependent := DeviceDependent(duration(inputs[0]), name);
      var outputs := GeneratedFiles(inputs[0], outputDir);
      ScenarioLeavesReferences(s, a.fs, inputs[1..], name, device, duration, outputDir, tool);
      if !(s.policy.generateNewOnly && AllReferencesExist(fs, s.root, name, device, dependent, outputs)) {
        SweepLeavesReferences(s, fs + tool(inputs[0]).value, outputs, name, device, dependent);
      }
      assert AllReferencesExist(a.fs, s.root, name, device, dependent, outputs);
      ExistingReferencesGrow(a.fs, b.fs, s.root, name, device, dependent, outputs);
      forall i | 0 < i < |inputs|
        ensures AllReferencesExist(b.fs, s.root, name, device, DeviceDependent(duration(inputs[i]), name),
                                   GeneratedFiles(inputs[i], outputDir))
      {
        assert inputs[i] == inputs[1..][i - 1];
      }
    }
  }

  /**
    The harness of one test case: the settings and the repository layout are
    fixed, the file system and the list of references created by this case
    change.
   */
  class TestHelper {
    const settings: Settings
    /** tempfile.gettempdir(), where the scenarios write their outputs. */
    const tmp: string
    var fs: FS
    var createdReferences: seq<string>

    constructor (settings: Settings, tmp: string, fs: FS)
      ensures this.settings == settings && this.tmp == tmp && this.fs == fs && createdReferences == []
    {
      this.settings, this.tmp := settings, tmp;
      this.fs, createdReferences := fs, [];
    }

    /** setUp: a test case starts with no created references. */
    method SetUp()
      modifies this`createdReferences
      ensures createdReferences == []
    {
      createdReferences := [];
    }

    /**
      tearDown: under an opt-in regeneration mode the created references are
      only reported as a warning; under the strict policy any of them fails
      the case. The message names the data directory, which is checked for
      existence whenever the message is built: always under the strict
      policy, and when there is something to report otherwise.
     */
    method TearDown() returns (r: Outcome, warning: Option<seq<string>>)
      ensures PathOf(settings.root, DataDir, "") in fs ==>
        && (r.Fail? <==> !Lenient(settings.policy) && createdReferences != [])
        && (r.Fail? ==> r.failure == CreatedReferences(createdReferences))
      ensures PathOf(settings.root, DataDir, "") !in fs ==>
        && (r.Fail? <==> !Lenient(settings.policy) || createdReferences != [])
        && (r.Fail? ==> r.failure == CannotFind(PathOf(settings.root, DataDir, "")))
      ensures warning.Some? <==> Lenient(settings.policy) && createdReferences != [] && PathOf(settings.root, DataDir, "") in fs
      ensures warning.Some? ==> warning.value == createdReferences
    {
      warning := None;
      var policy := settings.policy;
      if policy.generateAll || policy.generateNewOnly || !policy.failIfReferenceNotFound {
        r := Pass;
        if |createdReferences| > 0 {
          var dataDir := GetPath(fs, settings.root, DataDir, "", true);
          if dataDir.Failure? {
            return Fail(dataDir.error), warning;
          }
          warning := Some(createdReferences);
        }
      } else {
        var dataDir := GetPath(fs, settings.root, DataDir, "", true);
        if dataDir.Failure? {
          return Fail(dataDir.error), warning;
        }
        r := if createdReferences == [] then Pass else Fail(CreatedReferences(createdReferences));
      }
    }

    /**
      assertNonRegression: check an output file or directory against its
      reference, creating the reference first when it is missing or when all
      references are regenerated. The new file system and the recorded
      references are those of Prepare; a failure there is the outcome, and
      otherwise the outcome is the verdict of the comparison.
     */
    method AssertNonRegression(content: string, reference: string) returns (r: Outcome)
      modifies this`fs, this`createdReferences
      ensures var p := Prepare(settings, old(fs), content, reference);
        && fs == p.fs && createdReferences == old(createdReferences) + p.added
        && (p.early.Some? ==> r == Fail(p.early.value))
        && (p.early.None? ==>
              Verdict(fs, settings.round, content, PathOf(settings.root, ExpectedDir, reference),
                      IsFileReference(old(fs), settings.cwd, content, reference), r))
      ensures r.Fail? ==> !r.failure.ProcessFailed?
      ensures old(fs).Keys <= fs.Keys
      // the strict policy never creates a reference: a missing one fails first
      ensures settings.policy.failIfReferenceNotFound && !settings.policy.generateAll ==> createdReferences == old(createdReferences)
    {
      if content !in fs {
        return Fail(MissingFile(content));
      }
      var isFile := IsFileReference(fs, settings.cwd, content, reference);
      var resolved := GetPath(fs, settings.root, ExpectedDir, reference, settings.policy.failIfReferenceNotFound);
      if resolved.Failure? {
        return Fail(resolved.error);
      }
      var refPath := resolved.value;
      if refPath !in fs || settings.policy.generateAll {
        var failed := CreateReference(content, refPath, isFile);
        if failed.Some? {
          return Fail(CopyFailed(failed.value));
        }
      }
      r := CompareOutput(content, refPath, isFile);
    }

    /**
      The creation branch of assertNonRegression: make the parent directory
      when it is missing, copy the output onto the reference and record the
      reference. The path at which makedirs or the copy failed is returned.
     */
    method CreateReference(content: string, refPath: string, isFile: bool) returns (failed: Option<string>)
      modifies this`fs, this`createdReferences
      ensures failed.None? ==>
        && MakeParent(old(fs), refPath).Success?
        && CopyOutput(MakeParent(old(fs), refPath).value, content, refPath, isFile) == Success(fs)
        && createdReferences == old(createdReferences) + [refPath]
      ensures failed.Some? ==>
        && createdReferences == old(createdReferences)
        && (MakeParent(old(fs), refPath).Failure? ==> failed.value == MakeParent(old(fs), refPath).error && fs == old(fs))
        && (MakeParent(old(fs), refPath).Success? ==>
              && fs == MakeParent(old(fs), refPath).value
              && CopyOutput(fs, content, refPath, isFile) == Failure(failed.value))
    {
      var made := MakeParent(fs, refPath);
      if made.Failure? {
        return Some(made.error);
      }
      fs := made.value;
      var copied := CopyOutput(fs, content, refPath, isFile);
      if copied.Failure? {
        return Some(copied.error);
      }
      fs := copied.value;
      createdReferences := createdReferences + [refPath];
      failed := None;
    }

    /** The comparison branch of assertNonRegression: the output as a file or as a directory, as decided beforehand. */
    method CompareOutput(content: string, refPath: string, isFile: bool) returns (r: Outcome)
      ensures r.Fail? ==> !r.failure.ProcessFailed? && !r.failure.CopyFailed?
      ensures Verdict(fs, settings.round, content, refPath, isFile, r)
    {
      if isFile {
        if !IsFile(fs, content) {
          return Fail(NotAFile(content));
        }
        r := CheckFile(fs, content, refPath, settings.round);
      } else {
        if !IsDir(fs, content) {
          return Fail(NotADirectory(content));
        }
        r := CompareTrees(fs, content, refPath, settings.round);
      }
    }

    /**
      The inner loop of _test_cli_: each output against its reference, in
      order, up to the first failure. The new file system, the references
      recorded, the checks made and whether all passed are those of Sweep.
     */
    method CheckOutputs(outputs: seq<string>, name: string, device: string, dependent: bool)
      returns (r: Outcome, checks: seq<Event>)
      modifies this`fs, this`createdReferences
      ensures var w := Sweep(settings, old(fs), outputs, name, device, dependent);
        && fs == w.fs && createdReferences == old(createdReferences) + w.added
        && checks == w.log && (r.Pass? <==> w.passed)
      ensures r.Fail? ==> !r.failure.ProcessFailed?
      ensures old(fs).Keys <= fs.Keys
      ensures |checks| <= |outputs| && checks == Checks(outputs, name, device, dependent)[..|checks|]
      ensures r.Pass? ==> checks == Checks(outputs, name, device, dependent)
      ensures r.Fail? ==> checks != []
      ensures settings.policy.failIfReferenceNotFound && !settings.policy.generateAll ==> createdReferences == old(createdReferences)
    {
      checks := [];
      WholeSuffix(outputs);
      TracksStart(Sweep(settings, fs, outputs, name, device, dependent), createdReferences);
      var j := 0;
      while j < |outputs|
        invariant 0 <= j <= |outputs|
        invariant Tracks(Sweep(settings, old(fs), outputs, name, device, dependent),
                         Sweep(settings, fs, outputs[j..], name, device, dependent),
                         old(createdReferences), createdReferences, checks)
      {
        var reference := RefName(name, device, dependent, outputs[j]);
        ghost var before, refs, log := fs, createdReferences, checks;
        checks := checks + [Checked(outputs[j], reference)];
        r := AssertNonRegression(outputs[j], reference);
        SweepAfterCheck(settings, before, fs, outputs, j, name, device, dependent, r);
        if r.Fail? {
          SweepLogsChecks(settings, old(fs), outputs, name, device, dependent);
          return;
        }
        TracksStep(Sweep(settings, old(fs), outputs, name, device, dependent),
                   Sweep(settings, before, outputs[j..], name, device, dependent),
                   Sweep(settings, fs, outputs[j + 1..], name, device, dependent),
                   old(createdReferences), refs, log, Prepare(settings, before, outputs[j], reference).added, [Checked(outputs[j], reference)]);
        j := j + 1;
      }
      SweepEmpty(settings, fs, outputs, name, device, dependent);
      SweepLogsChecks(settings, old(fs), outputs, name, device, dependent);
      TracksDone(Sweep(settings, old(fs), outputs, name, device, dependent),
                 Sweep(settings, fs, outputs[j..], name, device, dependent),
                 old(createdReferences), createdReferences, checks);
      r := Pass;
    }

    /**
      The run of one input in _test_cli_ (lines 215-225): the tool either
      fails, which fails the input, or writes its files, whose six outputs
      are then checked in order as Sweep says.
     */
    method RunInput(input: string, tool: string -> Option<FS>, outputs: seq<string>, name: string, device: string,
                    dependent: bool)
      returns (r: Outcome, events: seq<Event>)
      modifies this`fs, this`createdReferences
      ensures tool(input).None? ==>
        r == Fail(ProcessFailed(input)) && events == [Ran(input)] && fs == old(fs) && createdReferences == old(createdReferences)
      ensures tool(input).Some? ==>
        var w := Sweep(settings, old(fs) + tool(input).value, outputs, name, device, dependent);
        && fs == w.fs && createdReferences == old(createdReferences) + w.added
        && events == [Ran(input)] + w.log && (r.Pass? <==> w.passed) && (r.Fail? ==> !r.failure.ProcessFailed?)
      ensures events != [] && events[0] == Ran(input) && forall k :: 0 < k < |events| ==> events[k].Checked?
      ensures r.Pass? ==> events == [Ran(input)] + Checks(outputs, name, device, dependent)
      ensures old(fs).Keys <= fs.Keys
      ensures settings.policy.failIfReferenceNotFound && !settings.policy.generateAll ==> createdReferences == old(createdReferences)
    {
      events := [Ran(input)];
      var written := tool(input);
      if written.None? {
        r := Fail(ProcessFailed(input));
      } else {
        fs := fs + written.value;
        var checks;
        r, checks := CheckOutputs(outputs, name, device, dependent);
        assert forall k :: 0 <= k < |checks| ==> checks[k].Checked?;
        events := events + checks;
      }
    }

    /**
      One pass of the loop of _test_cli_: skip `input` when only new
      references are generated and all six of its references exist;
      otherwise run the tool on it and check its six outputs in order. The
      tool is a parameter: for an input it either fails or yields the files
      it writes. What happens is InputRun, and the log stays justified.
     */
    method TestInput(input: string, name: string, duration: string -> real, device: string, tool: string -> Option<FS>,
                     ghost log: seq<Event>, ghost fs0: FS)
      returns (r: Outcome, skipped: bool, events: seq<Event>)
      requires fs0.Keys <= fs.Keys
      requires Justified(log, fs0, fs, settings.policy, settings.root, name, device, duration, Join(tmp, name))
      modifies this`fs, this`createdReferences
      ensures var a := InputRun(settings, old(fs), input, name, device, duration, Join(tmp, name), tool);
        && fs == a.fs && createdReferences == old(createdReferences) + a.added
        && events == a.log && (r.Pass? <==> a.passed)
      ensures skipped <==>
        settings.policy.generateNewOnly
        && AllReferencesExist(old(fs), settings.root, name, device, DeviceDependent(duration(input), name),
                              GeneratedFiles(input, Join(tmp, name)))
      ensures !skipped ==> (r == Fail(ProcessFailed(input)) <==> tool(input).None?)
      ensures skipped ==> r.Pass? && fs == old(fs) && createdReferences == old(createdReferences)
      ensures r.Fail? ==> !skipped && events != [] && events[0] == Ran(input)
      ensures r.Fail? && r.failure.ProcessFailed? ==> r.failure.input == input && tool(input).None? && events == [Ran(input)]
      ensures old(fs).Keys <= fs.Keys
      ensures settings.policy.failIfReferenceNotFound && !settings.policy.generateAll ==> createdReferences == old(createdReferences)
      ensures r.Pass? ==> events == Block(input, skipped, name, device, duration, Join(tmp, name))
      ensures Justified(log + events, fs0, fs, settings.policy, settings.root, name, device, duration, Join(tmp, name))
    {
      var outputDir := Join(tmp, name);
      var dependent := DeviceDependent(duration(input), name);
      var outputs := GeneratedFiles(input, outputDir);
      if settings.policy.generateNewOnly && AllReferencesExist(fs, settings.root, name, device, dependent, outputs) {
        r, skipped, events := Pass, true, [Skipped(input)];
      } else {
        skipped := false;
        r, events := RunInput(input, tool, outputs, name, device, dependent);
      }
      LogExtends(log, events, input, skipped, fs0, old(fs), fs, settings.policy, settings.root, name, device, duration, outputDir);
    }

    /**
      One pass of _test_cli_'s loop at input `i`, in the loop's terms: `t` is
      the whole scenario, of which `base` and `log` record what is done. A
      pass moves the loop on by one input; a failure completes `t`.
     */
    method HandleInput(inputs: seq<string>, i: nat, name: string, duration: string -> real, device: string,
                       tool: string -> Option<FS>, ghost t: Run, ghost base: seq<string>, ghost fs0: FS,
                       ghost log: seq<Event>, ghost skips: seq<bool>)
      returns (r: Outcome, skipped: bool, events: seq<Event>)
      requires i < |inputs| && |skips| == i
      requires fs0.Keys <= fs.Keys
      requires Tracks(t, Scenario(settings, fs, inputs[i..], name, device, duration, Join(tmp, name), tool), base, createdReferences, log)
      requires log == Schedule(inputs[..i], skips, name, device, duration, Join(tmp, name))
      requires Justified(log, fs0, fs, settings.policy, settings.root, name, device, duration, Join(tmp, name))
      modifies this`fs, this`createdReferences
      ensures fs0.Keys <= fs.Keys
      ensures Justified(log + events, fs0, fs, settings.policy, settings.root, name, device, duration, Join(tmp, name))
      ensures r.Pass? ==>
        && Tracks(t, Scenario(settings, fs, inputs[i + 1..], name, device, duration, Join(tmp, name), tool),
                  base, createdReferences, log + events)
        && log + events == Schedule(inputs[..i + 1], skips + [skipped], name, device, duration, Join(tmp, name))
      ensures r.Fail? ==> t.fs == fs && base + t.added == createdReferences && t.log == log + events && !t.passed
      ensures r.Fail? && r.failure.ProcessFailed? ==> tool(r.failure.input).None?
    {
      var outputDir := Join(tmp, name);
      ghost var before, refs := fs, createdReferences;
      r, skipped, events := TestInput(inputs[i], name, duration, device, tool, log, fs0);
      ScenarioAfterInput(settings, before, fs, inputs, i, name, device, duration, outputDir, tool, r);
      if r.Pass? {
        TracksStep(t, Scenario(settings, before, inputs[i..], name, device, duration, outputDir, tool),
                   Scenario(settings, fs, inputs[i + 1..], name, device, duration, outputDir, tool),
                   base, refs, log, InputRun(settings, before, inputs[i], name, device, duration, outputDir, tool).added, events);
        ScheduleStep(inputs, i, skips, skipped, name, device, duration, outputDir);
      }
    }

    /**
      _test_cli_: the inputs of the scenario (the sorted data directory, or
      the given files) handled one after the other until one fails. What
      happens is Scenario; its log is a schedule of the inputs, and each skip
      and each run in it is justified by the file system.
     */
    method TestCli(name: string, files: Option<seq<string>>, listing: seq<string>,
                   duration: string -> real, device: string, tool: string -> Option<FS>)
      returns (r: Outcome, log: seq<Event>)
      modifies this`fs, this`createdReferences
      ensures DataFiles(old(fs), settings.root, files, listing).Failure? ==>
        r == Fail(DataFiles(old(fs), settings.root, files, listing).error) && log == [] && fs == old(fs)
        && createdReferences == old(createdReferences)
      ensures DataFiles(old(fs), settings.root, files, listing).Success? ==>
        var run := Scenario(settings, old(fs), DataFiles(old(fs), settings.root, files, listing).value,
                            name, device, duration, Join(tmp, name), tool);
        && fs == run.fs && createdReferences == old(createdReferences) + run.added
        && log == run.log && (r.Pass? <==> run.passed)
      ensures r.Pass? ==>
        && DataFiles(old(fs), settings.root, files, listing).Success?
        && var inputs := DataFiles(old(fs), settings.root, files, listing).value;
           exists skips: seq<bool> :: |skips| == |inputs|
             && log == Schedule(inputs, skips, name, device, duration, Join(tmp, name))
      ensures Justified(log, old(fs), fs, settings.policy, settings.root, name, device, duration, Join(tmp, name))
      ensures r.Fail? && r.failure.ProcessFailed? ==> tool(r.failure.input).None?
      ensures old(fs).Keys <= fs.Keys
      ensures settings.policy.failIfReferenceNotFound && !settings.policy.generateAll ==> createdReferences == old(createdReferences)
    {
      log := [];
      var found := DataFiles(fs, settings.root, files, listing);
      if found.Failure? {
        return Fail(found.error), log;
      }
      var inputs := found.value;
      ghost var skips: seq<bool> := [];
      var outputDir := Join(tmp, name);
      WholeSuffix(inputs);
      TracksStart(Scenario(settings, fs, inputs, name, device, duration, outputDir, tool), createdReferences);
      var i := 0;
      while i < |inputs|
        invariant 0 <= i <= |inputs| && |skips| == i
        invariant old(fs).Keys <= fs.Keys
        invariant Tracks(Scenario(settings, old(fs), inputs, name, device, duration, outputDir, tool),
                         Scenario(settings, fs, inputs[i..], name, device, duration, outputDir, tool),
                         old(createdReferences), createdReferences, log)
        invariant log == Schedule(inputs[..i], skips, name, device, duration, outputDir)
        invariant Justified(log, old(fs), fs, settings.policy, settings.root, name, device, duration, outputDir)
      {
        var skipped, events;
        r, skipped, events := HandleInput(inputs, i, name, duration, device, tool,
                                          Scenario(settings, old(fs), inputs, name, device, duration, outputDir, tool),
                                          old(createdReferences), old(fs), log, skips);
        log := log + events;
        if r.Fail? {
          return;
        }
        skips := skips + [skipped];
        i := i + 1;
      }
      ScenarioEmpty(settings, fs, inputs, name, device, duration, outputDir, tool);
      TracksDone(Scenario(settings, old(fs), inputs, name, device, duration, outputDir, tool),
                 Scenario(settings, fs, inputs[i..], name, device, duration, outputDir, tool),
                 old(createdReferences), createdReferences, log);
      WholePrefix(inputs);
      r := Pass;
    }
  }
}
