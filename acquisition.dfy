/** Acquisition: `download_and_extract` and `download_and_extract_all`. The
    network, the zip reader and SHA-256 are parameters (`Env`); each walk
    also yields the ghost trace of the actions it performed, in order. */
module Acquisition {
  import opened Base
  import opened Strings
  import opened Paths
  import opened FileSystems
  import opened Configs
  import opened Checksums

  /** One entry of a zip archive. */
  datatype Member = Member(name: string, data: Bytes)

  /** What lies outside the model: the files a URL serves, SHA-256 as a hex
      digest, and the member list a zip reader finds in an archive's bytes
      (nothing when they are not a readable archive). */
  datatype Env = Env(remote: map<string, Bytes>, sha: Bytes -> string, unzip: Bytes -> Option<seq<Member>>)

  /** The observable actions of acquisition. */
  datatype Action =
    | Hash(path: Path)                  // _sha256sum of a local file
    | Fetch(url: string, dest: Path)    // urlretrieve
    | Extract(archive: Path)            // _extract
    | Remove(path: Path)                // os.remove
    | RemoveDir(path: Path)             // os.rmdir

  datatype Outcome = Outcome(run: Run, trace: seq<Action>)

  // ---------------------------------------------------------------------
  // The library calls
  // ---------------------------------------------------------------------

  /** `urlretrieve(url, filename=dest)`. */
  function Retrieve(fs: FileSystem, remote: map<string, Bytes>, url: string, dest: Path): (r: Run)
    ensures r.err.None? <==> url in remote
    ensures r.err.None? ==> r.fs == WriteFile(fs, dest, remote[url])
    ensures r.err.Some? ==> r.fs == fs && r.err == Some(TransferError(url))
  {
    if url in remote then Run(WriteFile(fs, dest, remote[url]), None)
    else Run(fs, Some(TransferError(url)))
  }

  /** A member whose name ends with '/' is a directory entry. */
  predicate IsDirEntry(m: Member)
  {
    m.name != [] && m.name[|m.name| - 1] == '/'
  }

  /** Where `zip_file.extract(member, path=dir)` puts a member. */
  function Target(dir: Path, m: Member): Path
  {
    Join(dir, m.name)
  }

  /** `zip_file.extract(member, path=dir)`: a directory entry becomes a
      directory; a file entry gets its parent directories and its bytes. */
  function ExtractMember(fs: FileSystem, dir: Path, m: Member): FileSystem
  {
    var target := Target(dir, m);
    if IsDirEntry(m) then MakeDirs(fs, target)
    else WriteFile(MakeDirs(fs, Dirname(target)), target, m.data)
  }

  /** A member only adds: a directory entry leaves the files alone, a file
      entry stores its bytes at its target and changes no other file. */
  lemma ExtractMemberEffect(fs: FileSystem, dir: Path, m: Member)
    ensures Grows(fs, ExtractMember(fs, dir, m))
    ensures IsDirEntry(m) ==> ExtractMember(fs, dir, m).files == fs.files
    ensures !IsDirEntry(m) ==> ExtractMember(fs, dir, m).files == fs.files[Target(dir, m) := m.data]
  {
  }

  /** Every member in archive order. */
  function ExtractMembers(fs: FileSystem, dir: Path, ms: seq<Member>): FileSystem
    decreases |ms|
  {
    if ms == [] then fs else ExtractMembers(ExtractMember(fs, dir, ms[0]), dir, ms[1..])
  }

  /** `_extract(archive, dir)`: open the archive, then extract every member. */
  function Unpack(fs: FileSystem, unzip: Bytes -> Option<seq<Member>>, archive: Path, dir: Path): Run
  {
    if archive !in fs.files then Run(fs, Some(FileNotFound(archive)))
    else match unzip(fs.files[archive])
      case None => Run(fs, Some(BadZipFile(archive)))
      case Some(ms) => Run(ExtractMembers(fs, dir, ms), None)
  }

  /** A missing archive raises FileNotFoundError and an unreadable one
      BadZipFile, both before anything is written; otherwise every member
      is extracted. */
  lemma UnpackCases(fs: FileSystem, unzip: Bytes -> Option<seq<Member>>, archive: Path, dir: Path)
    ensures var r := Unpack(fs, unzip, archive, dir);
      && (r.err.None? ==> archive in fs.files && unzip(fs.files[archive]).Some?
                          && r.fs == ExtractMembers(fs, dir, unzip(fs.files[archive]).value))
      && (r.err.Some? ==> r.fs == fs)
      && (archive !in fs.files ==> r.err == Some(FileNotFound(archive)))
      && (archive in fs.files && unzip(fs.files[archive]).None? ==> r.err == Some(BadZipFile(archive)))
  {
  }

  /** The loop over `zip_file.namelist()`. */
  method ExtractArchive(fs: FileSystem, unzip: Bytes -> Option<seq<Member>>, archive: Path, dir: Path) returns (r: Run)
    ensures r == Unpack(fs, unzip, archive, dir)
  {
    if archive !in fs.files {
      return Run(fs, Some(FileNotFound(archive)));
    }
    var members := unzip(fs.files[archive]);
    if members.None? {
      return Run(fs, Some(BadZipFile(archive)));
    }
    var ms := members.value;
    var cur := fs;
    for i := 0 to |ms|
      invariant ExtractMembers(fs, dir, ms) == ExtractMembers(cur, dir, ms[i..])
    {
      assert ms[i..][1..] == ms[i + 1..];
      cur := ExtractMember(cur, dir, ms[i]);
    }
    assert ms[|ms|..] == [];
    r := Run(cur, None);
  }

  /** Extraction only adds files and directories. */
  lemma {:induction false} ExtractMembersGrows(fs: FileSystem, dir: Path, ms: seq<Member>)
    ensures Grows(fs, ExtractMembers(fs, dir, ms))
    ensures forall p :: p in fs.files && (forall k :: 0 <= k < |ms| && !IsDirEntry(ms[k]) ==> Target(dir, ms[k]) != p) ==>
      ExtractMembers(fs, dir, ms).files[p] == fs.files[p]
    decreases |ms|
  {
    if ms != [] {
      var fs' := ExtractMember(fs, dir, ms[0]);
      ExtractMemberEffect(fs, dir, ms[0]);
      ExtractMembersGrows(fs', dir, ms[1..]);
      forall p | p in fs.files && (forall k :: 0 <= k < |ms| && !IsDirEntry(ms[k]) ==> Target(dir, ms[k]) != p)
        ensures ExtractMembers(fs, dir, ms).files[p] == fs.files[p]
      {
        forall k | 0 <= k < |ms[1..]| && !IsDirEntry(ms[1..][k]) ensures Target(dir, ms[1..][k]) != p {
          assert ms[1..][k] == ms[k + 1];
        }
      }
    }
  }

  /** A file member that no later file member overwrites ends up on disk with
      its own bytes. */
  lemma {:induction false} ExtractPlaces(fs: FileSystem, dir: Path, ms: seq<Member>, k: nat)
    requires k < |ms| && !IsDirEntry(ms[k])
    requires forall k' :: k < k' < |ms| && !IsDirEntry(ms[k']) ==> Target(dir, ms[k']) != Target(dir, ms[k])
    ensures Target(dir, ms[k]) in ExtractMembers(fs, dir, ms).files
    ensures ExtractMembers(fs, dir, ms).files[Target(dir, ms[k])] == ms[k].data
    decreases k
  {
    var fs' := ExtractMember(fs, dir, ms[0]);
    ExtractMemberEffect(fs, dir, ms[0]);
    var tail := ms[1..];
    if k == 0 {
      var p := Target(dir, ms[0]);
      forall j | 0 <= j < |tail| && !IsDirEntry(tail[j]) ensures Target(dir, tail[j]) != p {
        assert tail[j] == ms[j + 1];
      }
      ExtractMembersGrows(fs', dir, tail);
    } else {
      forall j | k - 1 < j < |tail| && !IsDirEntry(tail[j]) ensures Target(dir, tail[j]) != Target(dir, tail[k - 1]) {
        assert tail[j] == ms[j + 1];
      }
      assert tail[k - 1] == ms[k];
      ExtractPlaces(fs', dir, tail, k - 1);
    }
  }

  // ---------------------------------------------------------------------
  // Traces
  // ---------------------------------------------------------------------

  /** An outcome preceded by the actions of the steps before it. */
  function Prefix(t: seq<Action>, o: Outcome): Outcome
  {
    Outcome(o.run, t + o.trace)
  }

  lemma PrefixAppend(a: seq<Action>, b: seq<Action>, o: Outcome)
    ensures Prefix(a, Prefix(b, o)) == Prefix(a + b, o)
  {
    assert a + (b + o.trace) == (a + b) + o.trace;
  }

  /** The number of fetches in a trace. */
  function Fetches(trace: seq<Action>): nat
    decreases |trace|
  {
    if trace == [] then 0 else (if trace[0].Fetch? then 1 else 0) + Fetches(trace[1..])
  }

  /** The archives extracted, in the order of the trace. */
  function Extracted(trace: seq<Action>): seq<Path>
    decreases |trace|
  {
    if trace == [] then [] else (if trace[0].Extract? then [trace[0].archive] else []) + Extracted(trace[1..])
  }

  lemma TraceAppend(a: seq<Action>, b: seq<Action>)
    ensures Fetches(a + b) == Fetches(a) + Fetches(b)
    ensures Extracted(a + b) == Extracted(a) + Extracted(b)
  {
    FetchesAppend(a, b);
    ExtractedAppend(a, b);
  }

  lemma {:induction false} FetchesAppend(a: seq<Action>, b: seq<Action>)
    ensures Fetches(a + b) == Fetches(a) + Fetches(b)
    decreases |a|
  {
    if a == [] {
      assert a + b == b;
    } else {
      assert (a + b)[0] == a[0];
      assert (a + b)[1..] == a[1..] + b;
      FetchesAppend(a[1..], b);
    }
  }

  lemma {:induction false} ExtractedAppend(a: seq<Action>, b: seq<Action>)
    ensures Extracted(a + b) == Extracted(a) + Extracted(b)
    decreases |a|
  {
    if a == [] {
      assert a + b == b;
    } else {
      var head := if a[0].Extract? then [a[0].archive] else [];
      assert (a + b)[0] == a[0];
      assert (a + b)[1..] == a[1..] + b;
      ExtractedAppend(a[1..], b);
      assert head + (Extracted(a[1..]) + Extracted(b)) == (head + Extracted(a[1..])) + Extracted(b);
    }
  }

  lemma TracePair(a: Action, b: Action)
    ensures Fetches([a, b]) == (if a.Fetch? then 1 else 0) + (if b.Fetch? then 1 else 0)
    ensures Extracted([a, b]) == (if a.Extract? then [a.archive] else []) + (if b.Extract? then [b.archive] else [])
  {
    assert [a, b][1..] == [b];
    assert [b][1..] == [];
    assert Fetches([b]) == (if b.Fetch? then 1 else 0) + Fetches([]);
    assert Extracted([b]) == (if b.Extract? then [b.archive] else []) + Extracted([]);
  }

  // ---------------------------------------------------------------------
  // download_and_extract
  // ---------------------------------------------------------------------

  /** `path_to_download`: the staging copy of the archive a URL names. */
  function ArchivePath(cfg: Config, url: string): Path
  {
    Join(cfg.DownloadedDir(), Basename(url))
  }

  /** The archive is fetched unless a local copy exists, the manifest lists
      its name and the listed digest is that of the copy. */
  predicate DownloadNeeded(cfg: Config, checksums: map<string, string>, env: Env, fs: FileSystem, url: string)
  {
    var path := ArchivePath(cfg, url);
    !(IsFile(fs, path) && Basename(url) in checksums && checksums[Basename(url)] == env.sha(fs.files[path]))
  }

  /** The end of `download_and_extract`: extract the staged archive, then
      remove it when `auto_remove`. */
  function Finish(cfg: Config, env: Env, fs: FileSystem, path: Path, autoRemove: bool): Outcome
  {
    var ex := Unpack(fs, env.unzip, path, cfg.DatasetsDir());
    if ex.err.Some? || !autoRemove then Outcome(ex, [Extract(path)])
    else Outcome(RemoveFile(ex.fs, path), [Extract(path), Remove(path)])
  }

  /** The download when `need` is set, then `Finish`. */
  function Obtain(cfg: Config, env: Env, fs: FileSystem, url: string, need: bool, autoRemove: bool): Outcome
  {
    var path := ArchivePath(cfg, url);
    if need && url !in env.remote then Outcome(Run(fs, Some(TransferError(url))), [Fetch(url, path)])
    else
      var staged := if need then WriteFile(fs, path, env.remote[url]) else fs;
      Prefix(if need then [Fetch(url, path)] else [], Finish(cfg, env, staged, path, autoRemove))
  }

  /** `download_and_extract(url, auto_remove)` with `self.checksums` as given
      (`None` before any manifest was read: reading it then raises). A
      missing staging copy is always downloaded; a present one is hashed
      first. */
  function ArchiveStep(cfg: Config, checksums: Option<map<string, string>>, env: Env, fs: FileSystem,
                       url: string, autoRemove: bool): Outcome
  {
    var path := ArchivePath(cfg, url);
    var present := IsFile(fs, path);
    if present && checksums.None? then Outcome(Run(fs, Some(AttributeError("checksums"))), [Hash(path)])
    else
      var need := !present || DownloadNeeded(cfg, checksums.value, env, fs, url);
      Prefix(if present then [Hash(path)] else [], Obtain(cfg, env, fs, url, need, autoRemove))
  }

  /** Extraction is attempted once and nothing is fetched or hashed; the
      archive goes exactly when `auto_remove` and extraction succeeded; no
      directory is removed, and without `auto_remove` no file either. */
  lemma FinishFacts(cfg: Config, env: Env, fs: FileSystem, path: Path, autoRemove: bool)
    ensures var o := Finish(cfg, env, fs, path, autoRemove);
      && o.trace[0] == Extract(path) && Fetches(o.trace) == 0 && Extracted(o.trace) == [path]
      && (forall j :: 0 <= j < |o.trace| ==> !o.trace[j].Hash?)
      && (Remove(path) in o.trace <==> autoRemove && Unpack(fs, env.unzip, path, cfg.DatasetsDir()).err.None?)
      && (o.run.err.None? ==> (IsFile(o.run.fs, path) <==> !autoRemove))
      && fs.dirs <= o.run.fs.dirs
      && (!autoRemove ==> fs.files.Keys <= o.run.fs.files.Keys)
  {
    var ex := Unpack(fs, env.unzip, path, cfg.DatasetsDir());
    UnpackCases(fs, env.unzip, path, cfg.DatasetsDir());
    if ex.err.None? {
      ExtractMembersGrows(fs, cfg.DatasetsDir(), env.unzip(fs.files[path]).value);
    }
    TracePair(Extract(path), Remove(path));
  }

  /** The download decision taken: the archive is fetched exactly when
      `need`, at most once, nothing is hashed, and the staging copy is
      extracted unless a needed download failed. */
  lemma ObtainTrace(cfg: Config, env: Env, fs: FileSystem, url: string, need: bool, autoRemove: bool)
    ensures var o := Obtain(cfg, env, fs, url, need, autoRemove);
      && |o.trace| > 0
      && (Fetch(url, ArchivePath(cfg, url)) in o.trace <==> need)
      && Fetches(o.trace) == (if need then 1 else 0)
      && (forall j :: 0 <= j < |o.trace| ==> !o.trace[j].Hash?)
      && Extracted(o.trace) == (if !need || url in env.remote then [ArchivePath(cfg, url)] else [])
  {
    var path := ArchivePath(cfg, url);
    var o := Obtain(cfg, env, fs, url, need, autoRemove);
    if need && url !in env.remote {
      assert o.trace == [Fetch(url, path)];
      assert Extracted([Fetch(url, path)]) == [];
    } else {
      var staged := if need then WriteFile(fs, path, env.remote[url]) else fs;
      var pre := if need then [Fetch(url, path)] else [];
      var fin := Finish(cfg, env, staged, path, autoRemove);
      FinishFacts(cfg, env, staged, path, autoRemove);
      assert o.trace == pre + fin.trace;
      TraceAppend(pre, fin.trace);
      assert Extracted(pre) == [] && Fetches(pre) == (if need then 1 else 0);
    }
  }

  /** What the download and extraction leave on disk: a success keeps the
      staging copy exactly when not `auto_remove`, the copy is only removed
      under `auto_remove`, no directory is removed, and without
      `auto_remove` no file either. */
  lemma ObtainState(cfg: Config, env: Env, fs: FileSystem, url: string, need: bool, autoRemove: bool)
    ensures var o := Obtain(cfg, env, fs, url, need, autoRemove);
      && (o.run.err.None? ==> (IsFile(o.run.fs, ArchivePath(cfg, url)) <==> !autoRemove))
      && (Remove(ArchivePath(cfg, url)) in o.trace ==> autoRemove)
      && fs.dirs <= o.run.fs.dirs
      && (!autoRemove ==> fs.files.Keys <= o.run.fs.files.Keys)
  {
    var path := ArchivePath(cfg, url);
    if !(need && url !in env.remote) {
      var staged := if need then WriteFile(fs, path, env.remote[url]) else fs;
      FinishFacts(cfg, env, staged, path, autoRemove);
    }
  }

  /** Once `self.checksums` is set, a step is the hash of a present staging
      copy followed by the download decision `DownloadNeeded`. */
  lemma StepIsObtain(cfg: Config, checksums: map<string, string>, env: Env, fs: FileSystem,
                     url: string, autoRemove: bool)
    ensures var o := ArchiveStep(cfg, Some(checksums), env, fs, url, autoRemove);
      var ob := Obtain(cfg, env, fs, url, DownloadNeeded(cfg, checksums, env, fs, url), autoRemove);
      && o.run == ob.run
      && o.trace == (if IsFile(fs, ArchivePath(cfg, url)) then [Hash(ArchivePath(cfg, url))] else []) + ob.trace
  {
  }

  /** The decisions of `download_and_extract` once `self.checksums` is set:
      - the archive is fetched exactly when the download is needed, and at most once;
      - the local copy is hashed first when it exists, and never again. */
  lemma ArchiveFetches(cfg: Config, checksums: map<string, string>, env: Env, fs: FileSystem,
                       url: string, autoRemove: bool)
    ensures var o := ArchiveStep(cfg, Some(checksums), env, fs, url, autoRemove);
      var path := ArchivePath(cfg, url);
      && (Fetch(url, path) in o.trace <==> DownloadNeeded(cfg, checksums, env, fs, url))
      && Fetches(o.trace) <= 1
      && (o.trace[0] == Hash(path) <==> IsFile(fs, path))
      && (forall j :: 0 < j < |o.trace| ==> !o.trace[j].Hash?)
  {
    var path := ArchivePath(cfg, url);
    var need := DownloadNeeded(cfg, checksums, env, fs, url);
    var ob := Obtain(cfg, env, fs, url, need, autoRemove);
    StepIsObtain(cfg, checksums, env, fs, url, autoRemove);
    ObtainTrace(cfg, env, fs, url, need, autoRemove);
    var pre := if IsFile(fs, path) then [Hash(path)] else [];
    TraceAppend(pre, ob.trace);
    assert Fetches(pre) == 0;
  }

  /** Extraction follows whenever no needed download failed, and the archive
      extracted is the staging copy. */
  lemma ArchiveExtracts(cfg: Config, checksums: map<string, string>, env: Env, fs: FileSystem,
                        url: string, autoRemove: bool)
    ensures var o := ArchiveStep(cfg, Some(checksums), env, fs, url, autoRemove);
      Extracted(o.trace) == (if !DownloadNeeded(cfg, checksums, env, fs, url) || url in env.remote then [ArchivePath(cfg, url)] else [])
  {
    var path := ArchivePath(cfg, url);
    var need := DownloadNeeded(cfg, checksums, env, fs, url);
    var ob := Obtain(cfg, env, fs, url, need, autoRemove);
    StepIsObtain(cfg, checksums, env, fs, url, autoRemove);
    ObtainTrace(cfg, env, fs, url, need, autoRemove);
    var pre := if IsFile(fs, path) then [Hash(path)] else [];
    TraceAppend(pre, ob.trace);
    assert Extracted(pre) == [];
  }

  /** A step that succeeds extracted its archive, and left the staging copy
      exactly when not `auto_remove`; the copy is only ever removed under
      `auto_remove`. */
  lemma ArchiveSucceeds(cfg: Config, checksums: map<string, string>, env: Env, fs: FileSystem,
                        url: string, autoRemove: bool)
    ensures var o := ArchiveStep(cfg, Some(checksums), env, fs, url, autoRemove);
      && (o.run.err.None? ==> Extracted(o.trace) == [ArchivePath(cfg, url)])
      && (o.run.err.None? ==> (IsFile(o.run.fs, ArchivePath(cfg, url)) <==> !autoRemove))
      && (Remove(ArchivePath(cfg, url)) in o.trace ==> autoRemove)
  {
    var path := ArchivePath(cfg, url);
    var need := DownloadNeeded(cfg, checksums, env, fs, url);
    var ob := Obtain(cfg, env, fs, url, need, autoRemove);
    ArchiveExtracts(cfg, checksums, env, fs, url, autoRemove);
    StepIsObtain(cfg, checksums, env, fs, url, autoRemove);
    ObtainState(cfg, env, fs, url, need, autoRemove);
    var pre := if IsFile(fs, path) then [Hash(path)] else [];
    assert Remove(path) !in pre;
  }

  /** No step removes a directory; without `auto_remove` none removes a file. */
  lemma StepKeeps(cfg: Config, checksums: map<string, string>, env: Env, fs: FileSystem, url: string, autoRemove: bool)
    ensures fs.dirs <= ArchiveStep(cfg, Some(checksums), env, fs, url, autoRemove).run.fs.dirs
    ensures !autoRemove ==> fs.files.Keys <= ArchiveStep(cfg, Some(checksums), env, fs, url, autoRemove).run.fs.files.Keys
  {
    StepIsObtain(cfg, checksums, env, fs, url, autoRemove);
    ObtainState(cfg, env, fs, url, DownloadNeeded(cfg, checksums, env, fs, url), autoRemove);
  }

  // ---------------------------------------------------------------------
  // The archive loop of download_and_extract_all
  // ---------------------------------------------------------------------

  /** `for url in self.links: self.download_and_extract(url, auto_remove)`;
      the first exception ends the loop. */
  function ArchivesLoop(cfg: Config, checksums: map<string, string>, env: Env, fs: FileSystem,
                        urls: seq<string>, autoRemove: bool): Outcome
    decreases |urls|
  {
    if urls == [] then Outcome(Run(fs, None), [])
    else
      var o := ArchiveStep(cfg, Some(checksums), env, fs, urls[0], autoRemove);
      if o.run.err.Some? then o
      else Prefix(o.trace, ArchivesLoop(cfg, checksums, env, o.run.fs, urls[1..], autoRemove))
  }

  /** One turn of the archive loop: an exception of the first step ends
      it, otherwise the rest runs from the new state. */
  lemma ArchivesLoopStep(cfg: Config, checksums: map<string, string>, env: Env, fs: FileSystem,
                         urls: seq<string>, autoRemove: bool, step: Run, t: seq<Action>)
    requires |urls| > 0
    requires Outcome(step, t) == ArchiveStep(cfg, Some(checksums), env, fs, urls[0], autoRemove)
    ensures step.err.Some? ==> ArchivesLoop(cfg, checksums, env, fs, urls, autoRemove) == Outcome(step, t)
    ensures step.err.None? ==>
      ArchivesLoop(cfg, checksums, env, fs, urls, autoRemove) == Prefix(t, ArchivesLoop(cfg, checksums, env, step.fs, urls[1..], autoRemove))
  {
  }

  /** The paths the archives of `urls` are staged at, in order. */
  function ArchivePaths(cfg: Config, urls: seq<string>): (r: seq<Path>)
    ensures |r| == |urls| && forall i :: 0 <= i < |urls| ==> r[i] == ArchivePath(cfg, urls[i])
  {
    seq(|urls|, i requires 0 <= i < |urls| => ArchivePath(cfg, urls[i]))
  }

  /** When the loop completes, the archives were extracted once each, in
      `links` order. */
  lemma {:induction false} ArchivesInOrder(cfg: Config, checksums: map<string, string>, env: Env, fs: FileSystem,
                                           urls: seq<string>, autoRemove: bool)
    ensures var o := ArchivesLoop(cfg, checksums, env, fs, urls, autoRemove);
      o.run.err.None? ==> Extracted(o.trace) == ArchivePaths(cfg, urls)
    decreases |urls|
  {
    if urls != [] {
      var o := ArchiveStep(cfg, Some(checksums), env, fs, urls[0], autoRemove);
      ArchiveSucceeds(cfg, checksums, env, fs, urls[0], autoRemove);
      if o.run.err.None? {
        var rest := ArchivesLoop(cfg, checksums, env, o.run.fs, urls[1..], autoRemove);
        assert ArchivesLoop(cfg, checksums, env, fs, urls, autoRemove) == Prefix(o.trace, rest);
        ArchivesInOrder(cfg, checksums, env, o.run.fs, urls[1..], autoRemove);
        TraceAppend(o.trace, rest.trace);
        ArchivePathsCons(cfg, urls);
      }
    }
  }

  lemma ArchivePathsCons(cfg: Config, urls: seq<string>)
    requires urls != []
    ensures ArchivePaths(cfg, urls) == [ArchivePath(cfg, urls[0])] + ArchivePaths(cfg, urls[1..])
  {
  }

  /** The loop fetches each archive at most once. */
  lemma {:induction false} ArchivesFetchOnce(cfg: Config, checksums: map<string, string>, env: Env, fs: FileSystem,
                                             urls: seq<string>, autoRemove: bool)
    ensures Fetches(ArchivesLoop(cfg, checksums, env, fs, urls, autoRemove).trace) <= |urls|
    decreases |urls|
  {
    if urls != [] {
      var o := ArchiveStep(cfg, Some(checksums), env, fs, urls[0], autoRemove);
      ArchiveFetches(cfg, checksums, env, fs, urls[0], autoRemove);
      if o.run.err.None? {
        var rest := ArchivesLoop(cfg, checksums, env, o.run.fs, urls[1..], autoRemove);
        ArchivesFetchOnce(cfg, checksums, env, o.run.fs, urls[1..], autoRemove);
        TraceAppend(o.trace, rest.trace);
      }
    }
  }

  /** The loop removes no directory; without `auto_remove` it removes no file. */
  lemma {:induction false} ArchivesLoopKeeps(cfg: Config, checksums: map<string, string>, env: Env, fs: FileSystem,
                                             urls: seq<string>, autoRemove: bool)
    ensures fs.dirs <= ArchivesLoop(cfg, checksums, env, fs, urls, autoRemove).run.fs.dirs
    ensures !autoRemove ==> fs.files.Keys <= ArchivesLoop(cfg, checksums, env, fs, urls, autoRemove).run.fs.files.Keys
    decreases |urls|
  {
    if urls != [] {
      var o := ArchiveStep(cfg, Some(checksums), env, fs, urls[0], autoRemove);
      StepKeeps(cfg, checksums, env, fs, urls[0], autoRemove);
      ArchivesLoopKeeps(cfg, checksums, env, o.run.fs, urls[1..], autoRemove);
    }
  }

  // ---------------------------------------------------------------------
  // download_and_extract_all
  // ---------------------------------------------------------------------

  /** Where the manifest is staged. */
  function ManifestPath(cfg: Config): Path
  {
    Join(cfg.DownloadedDir(), Basename(cfg.ChecksumsLink()))
  }

  /** The two `os.makedirs` calls that open `download_and_extract_all`. */
  function StageDirs(cfg: Config, fs: FileSystem): FileSystem
  {
    MakeDirs(MakeDirs(fs, cfg.DownloadedDir()), cfg.DatasetsDir())
  }

  /** `os.rmdir(d)`. */
  function RemoveDirectory(fs: FileSystem, d: Path): (r: FileSystem)
    ensures r.files == fs.files && r.dirs == fs.dirs - {StripSlashes(d)}
  {
    fs.(dirs := fs.dirs - {StripSlashes(d)})
  }

  /** The `auto_remove` tail: remove the manifest, then the staging
      directory if nothing is left in it. */
  function Cleanup(cfg: Config, fs: FileSystem): Outcome
  {
    var mpath := ManifestPath(cfg);
    var d := cfg.DownloadedDir();
    var rm := RemoveFile(fs, mpath);
    if rm.err.Some? then Outcome(rm, [Remove(mpath)])
    else if Children(rm.fs, d) == {} then Outcome(Run(RemoveDirectory(rm.fs, d), None), [Remove(mpath), RemoveDir(d)])
    else Outcome(rm, [Remove(mpath)])
  }

  /** Everything after the manifest was read. */
  function AfterManifest(cfg: Config, links: seq<string>, checksums: map<string, string>, env: Env,
                         fs: FileSystem, autoRemove: bool): Outcome
  {
    var loop := ArchivesLoop(cfg, checksums, env, fs, links, autoRemove);
    if loop.run.err.Some? || !autoRemove then loop
    else Prefix(loop.trace, Cleanup(cfg, loop.run.fs))
  }

  /** What `download_and_extract_all` leaves: the disk and the error, the new
      value of `self.checksums`, and the trace. */
  datatype Acquired = Acquired(run: Run, checksums: Option<map<string, string>>, trace: seq<Action>)

  /** `download_and_extract_all(auto_remove)`, with `self.checksums` as it
      was before the call. */
  function AcquireAll(cfg: Config, links: seq<string>, checksums: Option<map<string, string>>, env: Env,
                      fs: FileSystem, autoRemove: bool): Acquired
  {
    var mpath := ManifestPath(cfg);
    var fetch := Fetch(cfg.ChecksumsLink(), mpath);
    var got := Retrieve(StageDirs(cfg, fs), env.remote, cfg.ChecksumsLink(), mpath);
    if got.err.Some? then Acquired(got, checksums, [fetch])
    else
      var parsed := Manifest(ToText(got.fs.files[mpath]));
      if parsed.err.Some? then Acquired(Run(got.fs, parsed.err), Some(parsed.checksums), [fetch])
      else
        var o := AfterManifest(cfg, links, parsed.checksums, env, got.fs, autoRemove);
        Acquired(o.run, Some(parsed.checksums), [fetch] + o.trace)
  }

  /** A path made by `os.path.join(output_dir, "downloaded")` does not end
      with a separator, so `isdir` and `rmdir` see it unchanged. */
  lemma DownloadedDirPlain(cfg: Config)
    ensures StripSlashes(cfg.DownloadedDir()) == cfg.DownloadedDir()
    ensures cfg.DownloadedDir() != []
  {
    var d := cfg.DownloadedDir();
    assert d[|d| - 1] == 'd';
  }

  /** The cleanup succeeds exactly when the manifest is still there; it then
      leaves no manifest, and no staging directory exactly when nothing is in it. */
  lemma CleanupFacts(cfg: Config, fs: FileSystem)
    requires IsDir(fs, cfg.DownloadedDir())
    ensures var o := Cleanup(cfg, fs);
      && (o.run.err.None? <==> IsFile(fs, ManifestPath(cfg)))
      && Extracted(o.trace) == []
      && (o.run.err.None? ==> !IsFile(o.run.fs, ManifestPath(cfg)))
      && (o.run.err.None? ==> (IsDir(o.run.fs, cfg.DownloadedDir()) <==> Children(o.run.fs, cfg.DownloadedDir()) != {}))
  {
    var d := cfg.DownloadedDir();
    DownloadedDirPlain(cfg);
    var rm := RemoveFile(fs, ManifestPath(cfg));
    var gone := RemoveDirectory(rm.fs, d);
    assert Children(gone, d) == Children(rm.fs, d) by {
      assert forall q :: q in rm.fs.dirs && ChildOf(q, d) ==> q != d;
    }
    TracePair(Remove(ManifestPath(cfg)), RemoveDir(d));
  }

  /** After a successful `download_and_extract_all`:
      - the manifest was fetched first, then every archive extracted in `links` order;
      - the manifest remains on disk exactly when not `auto_remove`;
      - without `auto_remove` the staging directory stays; with it, the
        directory is gone exactly when nothing is left in it. */
  lemma AcquireAllOutcome(cfg: Config, links: seq<string>, checksums: Option<map<string, string>>,
                          env: Env, fs: FileSystem, autoRemove: bool)
    ensures var a := AcquireAll(cfg, links, checksums, env, fs, autoRemove);
      a.run.err.None? ==>
        && a.trace[0] == Fetch(cfg.ChecksumsLink(), ManifestPath(cfg))
        && Extracted(a.trace) == ArchivePaths(cfg, links)
        && (IsFile(a.run.fs, ManifestPath(cfg)) <==> !autoRemove)
        && (!autoRemove ==> IsDir(a.run.fs, cfg.DownloadedDir()))
        && (autoRemove ==> (IsDir(a.run.fs, cfg.DownloadedDir()) <==> Children(a.run.fs, cfg.DownloadedDir()) != {}))
  {
    var a := AcquireAll(cfg, links, checksums, env, fs, autoRemove);
    var d := cfg.DownloadedDir();
    var mpath := ManifestPath(cfg);
    var fetch := Fetch(cfg.ChecksumsLink(), mpath);
    DownloadedDirPlain(cfg);
    var got := Retrieve(StageDirs(cfg, fs), env.remote, cfg.ChecksumsLink(), mpath);
    if a.run.err.None? {
      var parsed := Manifest(ToText(got.fs.files[mpath]));
      var loop := ArchivesLoop(cfg, parsed.checksums, env, got.fs, links, autoRemove);
      ArchivesInOrder(cfg, parsed.checksums, env, got.fs, links, autoRemove);
      ArchivesLoopKeeps(cfg, parsed.checksums, env, got.fs, links, autoRemove);
      assert IsDir(got.fs, d);
      var o := AfterManifest(cfg, links, parsed.checksums, env, got.fs, autoRemove);
      assert Extracted([fetch]) == [];
      TraceAppend([fetch], o.trace);
      if autoRemove {
        CleanupFacts(cfg, loop.run.fs);
        TraceAppend(loop.trace, Cleanup(cfg, loop.run.fs).trace);
      }
    }
  }

  // ---------------------------------------------------------------------
  // The Dataset object
  // ---------------------------------------------------------------------

  /** The tail of `download_and_extract` from the extraction on. */
  method FinishArchive(cfg: Config, env: Env, fs: FileSystem, path: Path, autoRemove: bool)
    returns (r: Run, ghost trace: seq<Action>)
    ensures Outcome(r, trace) == Finish(cfg, env, fs, path, autoRemove)
  {
    r := ExtractArchive(fs, env.unzip, path, cfg.DatasetsDir());
    trace := [Extract(path)];
    if r.err.None? && autoRemove {
      r := RemoveFile(r.fs, path);
      trace := trace + [Remove(path)];
    }
  }

  /** The tail of `download_and_extract` from the download decision on. */
  method ObtainArchive(cfg: Config, env: Env, fs: FileSystem, url: string, need: bool, autoRemove: bool)
    returns (r: Run, ghost trace: seq<Action>)
    ensures Outcome(r, trace) == Obtain(cfg, env, fs, url, need, autoRemove)
  {
    var path := Join(cfg.DownloadedDir(), Basename(url));
    var cur := fs;
    ghost var fetched: seq<Action> := [];
    if need {
      var got := Retrieve(fs, env.remote, url, path);
      fetched := [Fetch(url, path)];
      if got.err.Some? {
        return got, fetched;
      }
      cur := got.fs;
    }
    ghost var t;
    r, t := FinishArchive(cfg, env, cur, path, autoRemove);
    trace := fetched + t;
  }

  /** The `auto_remove` tail of `download_and_extract_all`: remove the
      manifest, then the staging directory if nothing else is left in it. */
  method RemoveStaging(cfg: Config, fs: FileSystem) returns (r: Run, ghost trace: seq<Action>)
    ensures Outcome(r, trace) == Cleanup(cfg, fs)
  {
    var mpath := ManifestPath(cfg);
    r := RemoveFile(fs, mpath);
    trace := [Remove(mpath)];
    if r.err.Some? {
      return;
    }
    var listing := ListDir(r.fs, cfg.DownloadedDir());
    assert |listing| == |Children(r.fs, cfg.DownloadedDir())|;
    if |listing| == 0 {
      r := Run(RemoveDirectory(r.fs, cfg.DownloadedDir()), None);
      trace := trace + [RemoveDir(cfg.DownloadedDir())];
    }
  }

  /** A `Dataset`: its configuration and link list, fixed at construction,
      and the manifest dictionary `self.checksums`, which
      `download_and_extract_all` assigns (`None` until then). */
  class Dataset {
    const config: Config
    const links: seq<string>
    var checksums: Option<map<string, string>>

    constructor(config: Config, links: seq<string>)
      ensures this.config == config && this.links == links && checksums.None?
    {
      this.config := config;
      this.links := links;
      checksums := None;
    }

    /** `Dataset.__init__`: build the links, then run the pre-flight check
        on the original dataset tree; either may raise. */
    static method Create(fs: FileSystem, cfg: Config) returns (ds: Dataset?, err: Option<Error>)
      ensures err.None? <==> ds != null
      ensures ds != null ==> fresh(ds) && ds.config == cfg && ds.checksums.None?
      ensures ds != null ==> Links(cfg.Name(), cfg.sequences, cfg.data) == Ok(ds.links)
      ensures Links(cfg.Name(), cfg.sequences, cfg.data).Err? ==> err == Some(Links(cfg.Name(), cfg.sequences, cfg.data).error)
      ensures Links(cfg.Name(), cfg.sequences, cfg.data).Ok? ==>
        (err.None? <==> (cfg.sequences == []
           || (IsDir(fs, cfg.originalDir) && forall i :: 0 <= i < |cfg.sequences| ==> IsDir(fs, Join(cfg.originalDir, cfg.sequences[i])))))
      ensures Links(cfg.Name(), cfg.sequences, cfg.data).Ok? && err.Some? && !IsDir(fs, cfg.originalDir) ==>
        err == Some(NotADirectory(cfg.originalDir))
      ensures Links(cfg.Name(), cfg.sequences, cfg.data).Ok? && err.Some? && IsDir(fs, cfg.originalDir) ==>
        exists k :: 0 <= k < |cfg.sequences| && !IsDir(fs, Join(cfg.originalDir, cfg.sequences[k]))
          && err == Some(NotADirectory(Join(cfg.originalDir, cfg.sequences[k])))
          && forall i :: 0 <= i < k ==> IsDir(fs, Join(cfg.originalDir, cfg.sequences[i]))
    {
      var links := BuildLinks(cfg.Name(), cfg.sequences, cfg.data);
      if links.Err? {
        return null, Some(links.error);
      }
      err := PreFlight(fs, cfg.originalDir, cfg.sequences);
      if err.Some? {
        return null, err;
      }
      ds := new Dataset(cfg, links.value);
    }

    /** `download_and_extract(url, auto_remove)`. */
    method DownloadAndExtract(fs: FileSystem, env: Env, url: string, autoRemove: bool)
      returns (r: Run, ghost trace: seq<Action>)
      ensures Outcome(r, trace) == ArchiveStep(config, checksums, env, fs, url, autoRemove)
    {
      var name := Basename(url);
      var path := Join(config.DownloadedDir(), name);
      var downloadNeeded := true;
      ghost var hashed: seq<Action> := [];
      if IsFile(fs, path) {
        var digest, _, _ := Sha256Sum(fs, path, 65536, env.sha);
        hashed := [Hash(path)];
        if checksums.None? {
          return Run(fs, Some(AttributeError("checksums"))), hashed;
        }
        if name in checksums.value && checksums.value[name] == digest.value {
          downloadNeeded := false;
        }
      }
      ghost var t;
      r, t := ObtainArchive(config, env, fs, url, downloadNeeded, autoRemove);
      trace := hashed + t;
    }

    /** The loop of `download_and_extract_all` over `self.links`, once
        `self.checksums` is set. */
    method DownloadLinks(fs: FileSystem, env: Env, autoRemove: bool)
      returns (r: Run, ghost trace: seq<Action>)
      requires checksums.Some?
      ensures Outcome(r, trace) == ArchivesLoop(config, checksums.value, env, fs, links, autoRemove)
    {
      var table := checksums.value;
      var cur := fs;
      trace := [];
      assert links[0..] == links;
      var i := 0;
      while i < |links|
        invariant 0 <= i <= |links|
        invariant ArchivesLoop(config, table, env, fs, links, autoRemove)
          == Prefix(trace, ArchivesLoop(config, table, env, cur, links[i..], autoRemove))
      {
        var step;
        ghost var t;
        step, t := DownloadAndExtract(cur, env, links[i], autoRemove);
        ArchivesLoopStep(config, table, env, cur, links[i..], autoRemove, step, t);
        if step.err.Some? {
          return step, trace + t;
        }
        assert links[i..][1..] == links[i + 1..];
        PrefixAppend(trace, t, ArchivesLoop(config, table, env, step.fs, links[i + 1..], autoRemove));
        trace := trace + t;
        cur := step.fs;
        i := i + 1;
      }
      assert trace + [] == trace;
      r := Run(cur, None);
    }

    /** `download_and_extract_all(auto_remove)`. */
    method DownloadAndExtractAll(fs: FileSystem, env: Env, autoRemove: bool)
      returns (r: Run, ghost trace: seq<Action>)
      modifies this
      ensures Acquired(r, checksums, trace) == AcquireAll(config, links, old(checksums), env, fs, autoRemove)
    {
      var cur := MakeDirs(fs, config.DownloadedDir());
      cur := MakeDirs(cur, config.DatasetsDir());
      var mpath := ManifestPath(config);
      var got := Retrieve(cur, env.remote, config.ChecksumsLink(), mpath);
      trace := [Fetch(config.ChecksumsLink(), mpath)];
      if got.err.Some? {
        return got, trace;
      }
      cur := got.fs;
      var parsed, perr := ParseChecksums(ToText(cur.files[mpath]));
      checksums := Some(parsed);
      if perr.Some? {
        return Run(cur, perr), trace;
      }
      ghost var after := AfterManifest(config, links, parsed, env, got.fs, autoRemove);
      ghost var t0 := trace;
      assert AcquireAll(config, links, old(checksums), env, fs, autoRemove) == Acquired(after.run, Some(parsed), t0 + after.trace);
      var loopRun;
      ghost var loopTrace;
      loopRun, loopTrace := DownloadLinks(cur, env, autoRemove);
      if loopRun.err.Some? {
        return loopRun, t0 + loopTrace;
      }
      cur := loopRun.fs;
      if !autoRemove {
        return Run(cur, None), t0 + loopTrace;
      }
      assert after == Prefix(loopTrace, Cleanup(config, cur));
      ghost var cleanup;
      r, cleanup := RemoveStaging(config, cur);
      trace := t0 + (loopTrace + cleanup);
    }
  }
}
