/**
  The file system as the harness sees it: a map from absolute path to what
  is there, and the abstract effect of os.makedirs, shutil.copyfile and
  shutil.copytree on that map. Every operation that Python would abort with
  an OSError returns the offending path as a Failure instead.
 */
module FileSystem {
  import opened Wrappers
  import opened Paths
  import opened Approx

  /**
    A regular file, known by its lines (what readlines returns) and by what
    json.load makes of it (None when it does not parse), or a directory.
   */
  datatype Entry = File(lines: seq<string>, json: Option<Value>) | Dir

  type FS = map<string, Entry>

  predicate IsFile(fs: FS, p: string) {
    p in fs && fs[p].File?
  }

  predicate IsDir(fs: FS, p: string) {
    p in fs && fs[p].Dir?
  }

  /** The files os.walk(d) yields, at any depth below `d`. */
  function FilesUnder(fs: FS, d: string): set<string> {
    set p | p in fs && fs[p].File? && IsUnder(d, p)
  }

  /** Some directory above `d` is a regular file, so nothing can be made at `d` (NotADirectoryError). */
  predicate FileAbove(fs: FS, d: string) {
    exists a :: a in fs && fs[a].File? && IsUnder(a, d)
  }

  /**
    os.makedirs(d), called only when `d` is not a directory: refused when
    something else is there, or when a directory above `d` is a regular file.
   */
  function MakeDirs(fs: FS, d: string): (r: Result<FS, string>)
    ensures r.Failure? <==> d in fs || exists a :: IsFile(fs, a) && IsUnder(a, d)
    ensures r.Failure? ==> r.error == d
    ensures r.Success? ==> IsDir(r.value, d) && r.value.Keys == fs.Keys + {d}
    ensures r.Success? ==> forall p :: p in fs ==> r.value[p] == fs[p]
  {
    if d in fs || FileAbove(fs, d) then Failure(d) else Success(fs[d := Dir])
  }

  /**
    shutil.copyfile(src, dst): the source must be a file other than the
    destination, the destination must not be a directory and its parent must be one.
   */
  function CopyFile(fs: FS, src: string, dst: string): (r: Result<FS, string>)
    ensures r.Failure? <==> !IsFile(fs, src) || src == dst || IsDir(fs, dst) || !IsDir(fs, Dirname(dst))
    ensures r.Failure? ==> r.error == (if IsFile(fs, src) then dst else src)
    ensures r.Success? ==> r.value.Keys == fs.Keys + {dst} && r.value[dst] == fs[src]
    ensures r.Success? ==> forall p :: p in fs && p != dst ==> r.value[p] == fs[p]
  {
    if !IsFile(fs, src) then Failure(src)
    else if src == dst || IsDir(fs, dst) || !IsDir(fs, Dirname(dst)) then Failure(dst)
    else Success(fs[dst := fs[src]])
  }

  /** Where copytree puts the entries below `src`: at the same place relative to `dst`. */
  function CopiedNames(fs: FS, src: string, dst: string): set<string> {
    set p | p in fs && IsUnder(src, p) :: Join(dst, Rest(src, p))
  }

  /** A name copytree writes comes from the entry at the same place below `src`. */
  lemma CopiedNameSource(fs: FS, src: string, dst: string, k: string)
    requires k in CopiedNames(fs, src, dst)
    ensures IsUnder(dst, k) && Join(src, Rest(dst, k)) in fs && IsUnder(src, Join(src, Rest(dst, k)))
  {
    var p :| p in fs && IsUnder(src, p) && k == Join(dst, Rest(src, p));
    JoinIsUnder(dst, Rest(src, p));
  }

  /** What copytree writes below `dst`: every entry below `src`, at the same place relative to `dst`. */
  function Copied(fs: FS, src: string, dst: string): map<string, Entry> {
    forall k | k in CopiedNames(fs, src, dst)
      ensures IsUnder(dst, k) && Join(src, Rest(dst, k)) in fs
    {
      CopiedNameSource(fs, src, dst, k);
    }
    map k | k in CopiedNames(fs, src, dst) :: fs[Join(src, Rest(dst, k))]
  }

  /**
    shutil.copytree(src, dst): the source must be a directory, and
    os.makedirs(dst) must succeed: nothing exists at `dst` and no directory
    above it is a regular file. Exactly `dst` and the copies of the entries
    below `src`, at the same place below `dst`, are added, and nothing
    outside `dst` changes.
   */
  function CopyTree(fs: FS, src: string, dst: string): (r: Result<FS, string>)
    ensures r.Failure? <==> !IsDir(fs, src) || dst in fs || exists a :: IsFile(fs, a) && IsUnder(a, dst)
    ensures r.Failure? ==> r.error == (if IsDir(fs, src) then dst else src)
    ensures r.Success? ==> IsDir(r.value, dst)
    ensures r.Success? ==> r.value.Keys == fs.Keys + {dst} + (set p | p in fs && IsUnder(src, p) :: Join(dst, Rest(src, p)))
    ensures r.Success? ==> forall p :: p in fs && p != dst && !IsUnder(dst, p) ==> r.value[p] == fs[p]
    ensures r.Success? ==> forall p :: p in fs && IsUnder(src, p) ==>
      Join(dst, Rest(src, p)) in r.value && r.value[Join(dst, Rest(src, p))] == fs[p]
  {
    if !IsDir(fs, src) then Failure(src)
    else if dst in fs || FileAbove(fs, dst) then Failure(dst)
    else
      var copied := Copied(fs, src, dst);
      forall k | k in CopiedNames(fs, src, dst) ensures IsUnder(dst, k) && k != dst {
        CopiedNameSource(fs, src, dst, k);
      }
      forall p | p in fs && IsUnder(src, p)
        ensures Join(dst, Rest(src, p)) in copied && copied[Join(dst, Rest(src, p))] == fs[p]
      {
        var k := Join(dst, Rest(src, p));
        assert k in CopiedNames(fs, src, dst);
        JoinIsUnder(dst, Rest(src, p));
      }
      Success(fs[dst := Dir] + copied)
  }
}
