/** The local disk as the code sees it: regular files with their bytes and
    a set of directories, with the `os`, `glob`, `shutil` operations the
    code calls. */
module FileSystems {
  import opened Base
  import opened Strings
  import opened Paths

  datatype FileSystem = FileSystem(files: map<Path, Bytes>, dirs: set<Path>)

  /** What a walk leaves behind: the disk, and the exception that stopped it if any. */
  datatype Run = Run(fs: FileSystem, err: Option<Error>)

  /** `os.path.isfile(p)`. */
  predicate IsFile(fs: FileSystem, p: Path)
  {
    p in fs.files
  }

  /** `os.path.isdir(p)`. */
  predicate IsDir(fs: FileSystem, p: Path)
  {
    StripSlashes(p) in fs.dirs
  }

  /** The directories `os.makedirs(d, exist_ok=True)` ensures exist: `d`
      and each of its ancestors. */
  function DirChain(d: Path): (r: set<Path>)
    ensures StripSlashes(d) != [] ==> StripSlashes(d) in r
  {
    var q := StripSlashes(d);
    var r := set i | 0 < i <= |q| && (i == |q| || q[i] == '/') :: q[..i];
    assert q[..|q|] == q;
    assert q != [] ==> q[..|q|] in r;
    r
  }

  /** `os.makedirs(d, exist_ok=True)`. */
  function MakeDirs(fs: FileSystem, d: Path): (r: FileSystem)
    ensures r.files == fs.files && fs.dirs <= r.dirs
    ensures StripSlashes(d) != [] ==> IsDir(r, d)
  {
    fs.(dirs := fs.dirs + DirChain(d))
  }

  /** Writing a whole file (`cv2.imwrite`, `urlretrieve`, a zip member). */
  function WriteFile(fs: FileSystem, p: Path, data: Bytes): (r: FileSystem)
    ensures r.dirs == fs.dirs && r.files.Keys == fs.files.Keys + {p}
    ensures r.files[p] == data
    ensures forall q :: q in fs.files && q != p ==> r.files[q] == fs.files[q]
  {
    fs.(files := fs.files[p := data])
  }

  /** `shutil.copyfile(src, dst)`: the destination gets the source's bytes.
      A missing source raises FileNotFoundError; a source that is also the
      destination raises SameFileError before anything is opened. */
  function CopyFile(fs: FileSystem, src: Path, dst: Path): (r: Run)
    ensures r.err.None? <==> IsFile(fs, src) && src != dst
    ensures r.err.None? ==> r.fs == WriteFile(fs, dst, fs.files[src])
    ensures r.err.Some? ==> r.fs == fs
    ensures !IsFile(fs, src) ==> r.err == Some(FileNotFound(src))
    ensures IsFile(fs, src) && src == dst ==> r.err == Some(SameFile(src))
  {
    if src !in fs.files then Run(fs, Some(FileNotFound(src)))
    else if src == dst then Run(fs, Some(SameFile(src)))
    else Run(WriteFile(fs, dst, fs.files[src]), None)
  }

  /** `os.remove(p)`. */
  function RemoveFile(fs: FileSystem, p: Path): (r: Run)
    ensures r.err.None? <==> IsFile(fs, p)
    ensures r.err.None? ==> r.fs.files == fs.files - {p} && r.fs.dirs == fs.dirs
    ensures r.err.Some? ==> r.fs == fs
  {
    if p in fs.files then Run(fs.(files := fs.files - {p}), None)
    else Run(fs, Some(FileNotFound(p)))
  }

  /** `q` is `d` itself or lies below it. */
  predicate Below(q: Path, d: Path)
  {
    q == d || StartsWith(q, d + "/")
  }

  /** Nothing of the tree rooted at `d` is on disk. */
  ghost predicate NoTree(fs: FileSystem, d: Path)
  {
    (forall q :: q in fs.files ==> !Below(q, d)) && (forall q :: q in fs.dirs ==> !Below(q, d))
  }

  /** `shutil.rmtree(d, ignore_errors=True)`: when `d` is a directory its
      whole tree goes; otherwise (nothing there, or a regular file, on which
      `scandir` and `rmdir` fail and the errors are swallowed) nothing
      happens. */
  function RemoveTree(fs: FileSystem, d: Path): (r: FileSystem)
    ensures IsDir(fs, d) ==> NoTree(r, d)
    ensures !IsDir(fs, d) ==> r == fs
    ensures forall q :: q in fs.files && !Below(q, d) ==> q in r.files && r.files[q] == fs.files[q]
    ensures forall q :: q in fs.dirs && !Below(q, d) ==> q in r.dirs
    ensures r.files.Keys <= fs.files.Keys && r.dirs <= fs.dirs
  {
    if !IsDir(fs, d) then fs
    else FileSystem(map q | q in fs.files && !Below(q, d) :: fs.files[q],
                    set q | q in fs.dirs && !Below(q, d))
  }

  /** Removing a tree that is not there changes nothing. */
  lemma RemoveAbsentTree(fs: FileSystem, d: Path)
    requires NoTree(fs, d)
    ensures RemoveTree(fs, d) == fs
  {
    var r := RemoveTree(fs, d);
    assert r.files.Keys == fs.files.Keys;
    assert r.files == fs.files;
    assert r.dirs == fs.dirs;
  }

  /** A path below `d` is below every directory that `d` is below. */
  lemma BelowTrans(q: Path, d: Path, e: Path)
    requires Below(q, d) && Below(d, e)
    ensures Below(q, e)
  {
    if q != d && d != e {
      assert q[..|e| + 1] == q[..|d| + 1][..|e| + 1];
      assert (d + "/")[..|e| + 1] == d[..|e| + 1];
    }
  }

  /** A directory that removing the tree of `d` took away was inside that
      tree, so nothing of its own tree is left either. */
  lemma RemoveTreeInside(fs: FileSystem, d: Path, e: Path)
    requires IsDir(fs, d) && e in fs.dirs && e !in RemoveTree(fs, d).dirs
    ensures NoTree(RemoveTree(fs, d), e)
  {
    var r := RemoveTree(fs, d);
    assert Below(e, d);
    forall q | q in r.files ensures !Below(q, e) {
      if Below(q, e) {
        BelowTrans(q, e, d);
      }
    }
    forall q | q in r.dirs ensures !Below(q, e) {
      if Below(q, e) {
        BelowTrans(q, e, d);
      }
    }
  }

  /** `q` names an entry directly inside directory `d`. */
  predicate ChildOf(q: Path, d: Path)
  {
    |q| > |d| + 1 && q[..|d| + 1] == d + "/" && '/' !in q[|d| + 1..]
  }

  /** The names `os.listdir(d)` returns, as a set. */
  function Children(fs: FileSystem, d: Path): (r: set<string>)
    ensures forall n :: n in r ==> n != [] && '/' !in n
  {
    set q | q in fs.dirs + fs.files.Keys && ChildOf(q, d) :: q[|d| + 1..]
  }

  /** `os.listdir(d)`. The operating system fixes no order; the model lists
      the names in ascending order. */
  function ListDir(fs: FileSystem, d: Path): (r: seq<string>)
    ensures forall n :: n in r <==> n in Children(fs, d)
  {
    Sorted(Children(fs, d))
  }

  /** No component of the relative path starts with '.': glob's `*` and `**`
      do not match hidden names. */
  predicate Visible(rel: Path)
  {
    forall i :: 0 <= i < |rel| && (i == 0 || rel[i - 1] == '/') ==> rel[i] != '.'
  }

  /** The entries `glob.glob(root + "/**/*.png", recursive=True)` matches:
      files, and directories as well, whose names end in ".png". */
  function PngFiles(fs: FileSystem, root: Path): (r: set<Path>)
    ensures forall q :: q in r <==> (q in fs.files || q in fs.dirs) && StartsWith(q, root + "/") && EndsWith(q, ".png")
                                      && Visible(q[|root| + 1..])
  {
    set q | q in fs.files.Keys + fs.dirs && StartsWith(q, root + "/") && EndsWith(q, ".png") && Visible(q[|root| + 1..])
  }

  /** The result of that glob, in ascending order. */
  function GlobPng(fs: FileSystem, root: Path): (r: seq<Path>)
    ensures forall q :: q in r <==> q in PngFiles(fs, root)
  {
    Sorted(PngFiles(fs, root))
  }

  // ---------------------------------------------------------------------
  // Growth: walks that only add files and directories
  // ---------------------------------------------------------------------

  /** `fs'` has every file and directory of `fs`. */
  predicate Grows(fs: FileSystem, fs': FileSystem)
  {
    fs.files.Keys <= fs'.files.Keys && fs.dirs <= fs'.dirs
  }

  /** What is listed or globbed can only grow when the disk grows. */
  lemma GrowsListings(fs: FileSystem, fs': FileSystem, d: Path)
    requires Grows(fs, fs')
    ensures Children(fs, d) <= Children(fs', d)
    ensures PngFiles(fs, d) <= PngFiles(fs', d)
  {
    forall n | n in Children(fs, d) ensures n in Children(fs', d) {
      var q :| q in fs.dirs + fs.files.Keys && ChildOf(q, d) && q[|d| + 1..] == n;
      assert q in fs'.dirs + fs'.files.Keys;
    }
  }
}
