/** POSIX path strings as `os.path` treats them, and the decomposition of an
    auxiliary-tree path into sub-folders and file name that the generation
    walks use. */
module Paths {
  import opened Base
  import opened Strings

  /** `os.path.join(a, b)`: an absolute `b` replaces `a`; otherwise a single
      separator is inserted unless `a` is empty or already ends with one. */
  function Join(a: Path, b: Path): (r: Path)
    ensures b != [] && b[0] == '/' ==> r == b
    ensures (b == [] || b[0] != '/') && a != [] && a[|a| - 1] != '/' ==> r == a + "/" + b
  {
    if b != [] && b[0] == '/' then b
    else if a == [] || a[|a| - 1] == '/' then a + b
    else a + "/" + b
  }

  /** Length of the part of `p` after its last separator. */
  function BaseLength(p: Path): (n: nat)
    ensures n <= |p|
    ensures forall i :: |p| - n <= i < |p| ==> p[i] != '/'
    ensures n < |p| ==> p[|p| - n - 1] == '/'
  {
    if p == [] || p[|p| - 1] == '/' then 0 else 1 + BaseLength(p[..|p| - 1])
  }

  /** `os.path.basename(p)`, which is also `p.split('/')[-1]`. */
  function Basename(p: Path): (r: Path)
    ensures '/' !in r
    ensures EndsWith(p, r)
  {
    p[|p| - BaseLength(p)..]
  }

  /** The part of `p` up to and including its last separator. */
  function DirPart(p: Path): (r: Path)
    ensures r == [] || r[|r| - 1] == '/'
    ensures r + Basename(p) == p
  {
    p[..|p| - BaseLength(p)]
  }

  /** `p` without trailing separators (a lone "/" stays): the directory that
      `os.path.isdir` and `os.makedirs` see. */
  function StripSlashes(p: Path): (r: Path)
    ensures |r| <= |p| && StartsWith(p, r)
    decreases |p|
  {
    if |p| > 1 && p[|p| - 1] == '/' then StripSlashes(p[..|p| - 1]) else p
  }

  /** `os.path.dirname(p)`: everything before the last separator, with
      trailing separators removed unless it consists only of separators. */
  function Dirname(p: Path): (r: Path)
  {
    var head := DirPart(p);
    if head != [] && exists i :: 0 <= i < |head| && head[i] != '/' then StripSlashes(head) else head
  }

  /** On a name without separators, `basename` gives the name back. */
  lemma BasenameOfName(d: Path, f: Path)
    requires '/' !in f
    requires d == [] || d[|d| - 1] == '/'
    ensures Basename(d + f) == f
  {
    BaseLengthOfName(d, f);
  }

  lemma {:induction false} BaseLengthOfName(d: Path, f: Path)
    requires '/' !in f
    requires d == [] || d[|d| - 1] == '/'
    ensures BaseLength(d + f) == |f|
    decreases |f|
  {
    if f != [] {
      assert (d + f)[..|d + f| - 1] == d + f[..|f| - 1];
      assert (d + f)[|d + f| - 1] == f[|f| - 1];
      BaseLengthOfName(d, f[..|f| - 1]);
    } else {
      assert d + f == d;
    }
  }

  /** The separator `os.path.join` inserts after `a`. */
  function Separator(a: Path): Path
  {
    if a == [] || a[|a| - 1] == '/' then "" else "/"
  }

  lemma JoinRelative(a: Path, b: Path)
    requires b == [] || b[0] != '/'
    ensures Join(a, b) == a + Separator(a) + b
  {
    if a == [] || a[|a| - 1] == '/' {
      assert a + Separator(a) == a;
    }
  }

  lemma SeqAssoc(a: Path, b: Path, c: Path)
    ensures (a + b) + c == a + (b + c)
  {
  }

  /** Joining a directory part and then a file name is joining their
      concatenation. */
  lemma JoinDirThenName(x: Path, d: Path, f: Path)
    requires d == [] || d[|d| - 1] == '/'
    requires f == [] || f[0] != '/'
    ensures Join(Join(x, d), f) == Join(x, d + f)
  {
    if d != [] && d[0] == '/' {
      assert (d + f)[0] == '/';
      JoinRelative(d, f);
      assert Separator(d) == "";
      assert d + "" == d;
    } else {
      assert d + f == [] || (d + f)[0] != '/' by {
        if d != [] { assert (d + f)[0] == d[0]; } else { assert d + f == f; }
      }
      var j := Join(x, d);
      JoinRelative(x, d);
      JoinRelative(x, d + f);
      JoinRelative(j, f);
      assert Separator(j) == "" by {
        if d != [] {
          assert j[|j| - 1] == d[|d| - 1];
        } else if Separator(x) == "/" {
          assert j == x + "/" + [];
          assert j[|j| - 1] == '/';
        } else {
          assert j == x + "" + [];
        }
      }
      var sep := Separator(x);
      assert j + "" == j;
      assert j == (x + sep) + d;
      SeqAssoc(x + sep, d, f);
    }
  }

  // ---------------------------------------------------------------------
  // Decomposing an auxiliary-tree path
  // ---------------------------------------------------------------------

  /** `path.replace(root + "/", "")`: the path relative to `root`. */
  function RelativePath(path: Path, root: Path): Path
  {
    RemoveAll(path, root + "/")
  }

  /** `rel.replace(os.path.basename(rel), "")`: the code's `sub_folders`. It
      removes EVERY occurrence of the file name, not only the trailing one. */
  function SubFolders(rel: Path): Path
  {
    RemoveAll(rel, Basename(rel))
  }

  /** The file name does not reappear in the directory part of `rel`; this
      is the case in which `sub_folders` is the directory prefix. */
  ghost predicate FileNameOnlyAtEnd(rel: Path)
  {
    !Occurs(DirPart(rel), Basename(rel))
  }

  /** `sub_folders` is the directory part of the relative path exactly when
      the file name does not reappear in it; then `sub_folders + filename`
      rebuilds the relative path. */
  lemma SubFoldersIsDirPart(rel: Path)
    requires FileNameOnlyAtEnd(rel)
    ensures SubFolders(rel) == DirPart(rel)
    ensures SubFolders(rel) + Basename(rel) == rel
  {
    var d, f := DirPart(rel), Basename(rel);
    if f == [] {
    } else {
      NoStraddle(d, f, '/');
      RemoveAllTail(d, f);
    }
  }

  /** `os.path.join(x, sub_folders, filename)` is `os.path.join(x, rel)`:
      the rebuilt path keeps the relative path below any new root. */
  lemma RebuildUnder(x: Path, rel: Path)
    requires FileNameOnlyAtEnd(rel)
    ensures Join(Join(x, SubFolders(rel)), Basename(rel)) == Join(x, rel)
  {
    SubFoldersIsDirPart(rel);
    var f := Basename(rel);
    assert f == [] || f[0] != '/' by {
      if f != [] { assert f[0] in f; }
    }
    JoinDirThenName(x, DirPart(rel), f);
  }

  /** When the file name also names one of its directories, the code's
      `sub_folders` is not the directory prefix: for `a.png/a.png` it is the
      absolute path "/", so `os.path.join` drops every root before it. */
  lemma SubFoldersWhenNameRepeats()
    ensures SubFolders("a.png/a.png") == "/"
    ensures Join(Join("orig/seq", SubFolders("a.png/a.png")), "a.png") == "/a.png"
    ensures !FileNameOnlyAtEnd("a.png/a.png")
  {
    RepeatedNameSplit();
    assert OccursAt("a.png/", "a.png", 0);
    RepeatedNameRemoved();
  }

  /** In general, whenever the relative path starts with a directory named
      like its file, `sub_folders` starts with a separator, so it is an
      absolute path and joining it drops whatever root precedes it. */
  lemma SubFoldersEscape(root: Path, rel: Path)
    requires Basename(rel) != [] && StartsWith(rel, Basename(rel) + "/")
    ensures SubFolders(rel) != [] && SubFolders(rel)[0] == '/'
    ensures Join(Join(root, SubFolders(rel)), Basename(rel)) == Join(SubFolders(rel), Basename(rel))
  {
    var b := Basename(rel);
    var tail := rel[|b|..];
    assert rel == b + tail;
    assert tail != [] && tail[0] == '/' by {
      assert rel[..|b| + 1] == b + "/";
    }
    RemoveAllLeading(b, tail);
    assert b[0] != '/' by {
      assert b[0] in b;
    }
    if |tail| >= |b| {
      assert tail[..|b|][0] == '/';
      assert RemoveAll(tail, b) == [tail[0]] + RemoveAll(tail[1..], b);
    }
  }

  lemma RepeatedNameSplit()
    ensures Basename("a.png/a.png") == "a.png"
    ensures DirPart("a.png/a.png") == "a.png/"
  {
    BasenameOfName("a.png/", "a.png");
    assert "a.png/a.png" == "a.png/" + "a.png";
  }

  lemma RepeatedNameRemoved()
    ensures RemoveAll("a.png/a.png", "a.png") == "/"
  {
    var rel := "a.png/a.png";
    assert rel[..5] == "a.png" && rel[5..] == "/a.png";
    assert RemoveAll(rel, "a.png") == RemoveAll("/a.png", "a.png");
    assert "/a.png"[..5][0] == '/';
    assert "/a.png"[1..] == "a.png";
    assert RemoveAll("/a.png", "a.png") == "/" + RemoveAll("a.png", "a.png");
    assert "a.png"[..5] == "a.png" && "a.png"[5..] == [];
  }

  /** Relative to a root, a path just below that root is its remainder,
      provided the "root/" prefix does not reappear in the remainder. */
  lemma RelativeOfChild(root: Path, rel: Path)
    requires !Occurs(rel, root + "/")
    ensures RelativePath(root + "/" + rel, root) == rel
  {
    assert root + "/" + rel == (root + "/") + rel;
    RemoveAllLeading(root + "/", rel);
    RemoveAllAbsent(rel, root + "/");
  }
}
