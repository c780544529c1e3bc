/** What a dataset is configured with, the directories derived from it, the
    list of archive URLs built by `Dataset.__init__` and its pre-flight check
    of the original dataset tree. */
module Configs {
  import opened Base
  import opened Strings
  import opened Paths
  import opened FileSystems

  /** `Dataset.HTTP_PATH`. */
  const HttpPath: string := "https://www.rocq.inria.fr/rits_files/computer-vision/weather-augment/"

  /** The constructor arguments of `Dataset`; `data` maps a sequence, or the
      wildcard "*", to its data kinds. */
  datatype Config = Config(
    originalName: string,
    originalDir: Path,
    outputDir: Path,
    sequences: seq<string>,
    data: map<string, seq<string>>)
  {
    /** `self.name`. */
    function Name(): string { "weather_" + originalName }

    /** `self.downloaded_directory`: where archives are staged. */
    function DownloadedDir(): Path { Join(outputDir, "downloaded") }

    /** `self.datasets_directory`: where archives are extracted. */
    function DatasetsDir(): Path { Join(outputDir, "weather_datasets") }

    /** `self.checksums_link`. */
    function ChecksumsLink(): string { HttpPath + Name() + "_checksums.txt" }

    /** `os.path.join(self.datasets_directory, self.name, sequence, kind)`. */
    function KindDir(sequence: string, kind: string): Path
    {
      Join(Join(Join(DatasetsDir(), Name()), sequence), kind)
    }
  }

  /** `self.data[seq] if seq in self.data.keys() else self.data["*"]`. */
  function KindsOf(data: map<string, seq<string>>, s: string): (r: Result<seq<string>>)
    ensures r.Ok? <==> (s in data || "*" in data)
    ensures r.Ok? ==> r.value == if s in data then data[s] else data["*"]
    ensures r.Err? ==> r.error == KeyError("*")
  {
    if s in data then Ok(data[s])
    else if "*" in data then Ok(data["*"])
    else Err(KeyError("*"))
  }

  /** `sequence.replace("/", "_")`. */
  function Slug(s: string): (r: string)
    ensures |r| == |s| && '/' !in r
    ensures forall i :: 0 <= i < |s| ==> r[i] == (if s[i] == '/' then '_' else s[i])
  {
    seq(|s|, i requires 0 <= i < |s| => if s[i] == '/' then '_' else s[i])
  }

  /** `"{}_{}_{}.zip".format(self.name, sequence, d)`. */
  function ArchiveName(name: string, s: string, kind: string): string
  {
    name + "_" + Slug(s) + "_" + kind + ".zip"
  }

  function ArchiveUrl(name: string, s: string, kind: string): string
  {
    HttpPath + ArchiveName(name, s, kind)
  }

  /** The last segment of an archive URL is the archive's name. */
  lemma ArchiveUrlBasename(name: string, s: string, kind: string)
    requires '/' !in name && '/' !in kind
    ensures Basename(ArchiveUrl(name, s, kind)) == ArchiveName(name, s, kind)
  {
    var a := ArchiveName(name, s, kind);
    forall i | 0 <= i < |a| ensures a[i] != '/' {
      var sl := Slug(s);
      assert a == name + "_" + sl + "_" + kind + ".zip";
      if i < |name| { assert a[i] == name[i]; }
      else if i == |name| {}
      else if i < |name| + 1 + |sl| { assert a[i] == sl[i - |name| - 1]; }
      else if i == |name| + 1 + |sl| {}
      else if i < |name| + 2 + |sl| + |kind| { assert a[i] == kind[i - |name| - 2 - |sl|]; }
      else { assert a[i] == ".zip"[i - |name| - 2 - |sl| - |kind|]; }
    }
    BasenameOfName(HttpPath, a);
  }

  /** The URLs of one sequence, one per kind, in the kinds' order. */
  function SequenceUrls(name: string, s: string, kinds: seq<string>): (r: seq<string>)
    ensures |r| == |kinds|
    ensures forall j :: 0 <= j < |kinds| ==> r[j] == ArchiveUrl(name, s, kinds[j])
  {
    seq(|kinds|, j requires 0 <= j < |kinds| => ArchiveUrl(name, s, kinds[j]))
  }

  /** `self.links`: for each sequence in order, the URLs of its kinds. */
  function Links(name: string, seqs: seq<string>, data: map<string, seq<string>>): Result<seq<string>>
    decreases |seqs|
  {
    if seqs == [] then Ok([])
    else match KindsOf(data, seqs[0])
      case Err(e) => Err(e)
      case Ok(kinds) =>
        match Links(name, seqs[1..], data)
        case Err(e) => Err(e)
        case Ok(rest) => Ok(SequenceUrls(name, seqs[0], kinds) + rest)
  }

  /** Every sequence has a kind list (its own entry or the wildcard). */
  predicate AllResolve(seqs: seq<string>, data: map<string, seq<string>>)
  {
    forall i :: 0 <= i < |seqs| ==> seqs[i] in data || "*" in data
  }

  /** Kind list of a sequence that resolves. */
  function Kinds(data: map<string, seq<string>>, s: string): seq<string>
    requires s in data || "*" in data
  {
    KindsOf(data, s).value
  }

  /** Number of links contributed by the first `i` sequences. */
  function LinksBefore(seqs: seq<string>, data: map<string, seq<string>>, i: nat): nat
    requires i <= |seqs| && AllResolve(seqs, data)
    decreases i
  {
    if i == 0 then 0 else |Kinds(data, seqs[0])| + LinksBefore(seqs[1..], data, i - 1)
  }

  /** Every sequence has a kind list exactly when the rest of the list does
      and the first one resolves. */
  lemma AllResolveCons(seqs: seq<string>, data: map<string, seq<string>>)
    requires seqs != []
    ensures AllResolve(seqs, data) <==> (seqs[0] in data || "*" in data) && AllResolve(seqs[1..], data)
  {
    var tail := seqs[1..];
    if (seqs[0] in data || "*" in data) && AllResolve(tail, data) {
      forall i | 0 <= i < |seqs| ensures seqs[i] in data || "*" in data {
        if i > 0 { assert seqs[i] == tail[i - 1]; }
      }
    }
    if AllResolve(seqs, data) {
      forall i | 0 <= i < |tail| ensures tail[i] in data || "*" in data {
        assert tail[i] == seqs[i + 1];
      }
    }
  }

  /** The list of links is built exactly when every sequence resolves; when
      one does not, `data["*"]` raises. */
  lemma {:induction false} LinksOk(name: string, seqs: seq<string>, data: map<string, seq<string>>)
    ensures Links(name, seqs, data).Ok? <==> AllResolve(seqs, data)
    ensures Links(name, seqs, data).Err? ==> Links(name, seqs, data).error == KeyError("*")
    decreases |seqs|
  {
    if seqs != [] {
      LinksOk(name, seqs[1..], data);
      AllResolveCons(seqs, data);
    }
  }

  /** The built list holds one link per (sequence, kind) pair. */
  lemma {:induction false} LinksCount(name: string, seqs: seq<string>, data: map<string, seq<string>>)
    requires AllResolve(seqs, data)
    ensures Links(name, seqs, data).Ok?
    ensures |Links(name, seqs, data).value| == LinksBefore(seqs, data, |seqs|)
    decreases |seqs|
  {
    LinksOk(name, seqs, data);
    if seqs != [] {
      AllResolveCons(seqs, data);
      LinksCount(name, seqs[1..], data);
    }
  }

  /** The link of kind `j` of sequence `i` sits at `LinksBefore(i) + j`: the
      list is ordered by sequence, then by kind. */
  lemma {:induction false} LinkAt(name: string, seqs: seq<string>, data: map<string, seq<string>>, i: nat, j: nat)
    requires AllResolve(seqs, data)
    requires i < |seqs| && j < |Kinds(data, seqs[i])|
    ensures Links(name, seqs, data).Ok?
    ensures LinksBefore(seqs, data, i) + j < |Links(name, seqs, data).value|
    ensures Links(name, seqs, data).value[LinksBefore(seqs, data, i) + j] == ArchiveUrl(name, seqs[i], Kinds(data, seqs[i])[j])
    decreases i
  {
    var tail := seqs[1..];
    LinksOk(name, seqs, data);
    AllResolveCons(seqs, data);
    LinksOk(name, tail, data);
    LinksUnfold(name, seqs, data);
    var urls := SequenceUrls(name, seqs[0], Kinds(data, seqs[0]));
    var rest := Links(name, tail, data).value;
    assert Links(name, seqs, data).value == urls + rest;
    if i == 0 {
      IndexInFront(urls, rest, j);
    } else {
      assert seqs[i] == tail[i - 1];
      LinkAt(name, tail, data, i - 1, j);
      IndexBehind(urls, rest, LinksBefore(tail, data, i - 1) + j);
    }
  }

  lemma IndexInFront(a: seq<string>, b: seq<string>, k: nat)
    requires k < |a|
    ensures k < |a + b| && (a + b)[k] == a[k]
  {
  }

  lemma IndexBehind(a: seq<string>, b: seq<string>, k: nat)
    requires k < |b|
    ensures |a| + k < |a + b| && (a + b)[|a| + k] == b[k]
  {
  }

  lemma PrependEmpty(r: Result<seq<string>>)
    ensures Prepend([], r) == r
  {
    if r.Ok? { assert [] + r.value == r.value; }
  }

  /** `Dataset.__init__`'s nested loop appending to `self.links`. */
  method BuildLinks(name: string, seqs: seq<string>, data: map<string, seq<string>>)
    returns (r: Result<seq<string>>)
    ensures r == Links(name, seqs, data)
  {
    var links: seq<string> := [];
    assert seqs[0..] == seqs;
    PrependEmpty(Links(name, seqs, data));
    for i := 0 to |seqs|
      invariant Links(name, seqs, data) == Prepend(links, Links(name, seqs[i..], data))
    {
      LinksUnfold(name, seqs[i..], data);
      assert seqs[i..][1..] == seqs[i + 1..];
      var kinds := KindsOf(data, seqs[i]);
      if kinds.Err? {
        return Err(kinds.error);
      }
      var before := links;
      for j := 0 to |kinds.value|
        invariant links == before + SequenceUrls(name, seqs[i], kinds.value)[..j]
      {
        assert SequenceUrls(name, seqs[i], kinds.value)[..j + 1]
            == SequenceUrls(name, seqs[i], kinds.value)[..j] + [ArchiveUrl(name, seqs[i], kinds.value[j])];
        links := links + [ArchiveUrl(name, seqs[i], kinds.value[j])];
      }
      assert SequenceUrls(name, seqs[i], kinds.value)[..|kinds.value|] == SequenceUrls(name, seqs[i], kinds.value);
      PrependAssociative(before, SequenceUrls(name, seqs[i], kinds.value), Links(name, seqs[i + 1..], data));
    }
    assert seqs[|seqs|..] == [];
    assert links + [] == links;
    r := Ok(links);
  }

  /** One step of `Links`: the first sequence's URLs come first. */
  lemma LinksUnfold(name: string, seqs: seq<string>, data: map<string, seq<string>>)
    requires seqs != []
    ensures KindsOf(data, seqs[0]).Err? ==> Links(name, seqs, data) == Err(KindsOf(data, seqs[0]).error)
    ensures KindsOf(data, seqs[0]).Ok? ==>
      Links(name, seqs, data) == Prepend(SequenceUrls(name, seqs[0], KindsOf(data, seqs[0]).value), Links(name, seqs[1..], data))
  {
  }

  function Prepend(prefix: seq<string>, r: Result<seq<string>>): Result<seq<string>>
  {
    match r
    case Ok(v) => Ok(prefix + v)
    case Err(e) => Err(e)
  }

  lemma PrependAssociative(a: seq<string>, b: seq<string>, r: Result<seq<string>>)
    ensures Prepend(a, Prepend(b, r)) == Prepend(a + b, r)
  {
    if r.Ok? { assert a + (b + r.value) == (a + b) + r.value; }
  }

  /** The pre-flight loop of `Dataset.__init__`. For every sequence it checks
      that `original_dir` and then `original_dir/sequence` are directories,
      and stops at the first that is not. With no sequences nothing is checked. */
  method PreFlight(fs: FileSystem, originalDir: Path, seqs: seq<string>) returns (err: Option<Error>)
    ensures err.None? <==> (seqs == [] || (IsDir(fs, originalDir) && forall i :: 0 <= i < |seqs| ==> IsDir(fs, Join(originalDir, seqs[i]))))
    ensures err.Some? && !IsDir(fs, originalDir) ==> err == Some(NotADirectory(originalDir))
    ensures err.Some? && IsDir(fs, originalDir) ==>
      exists k :: 0 <= k < |seqs| && !IsDir(fs, Join(originalDir, seqs[k]))
        && err == Some(NotADirectory(Join(originalDir, seqs[k])))
        && forall i :: 0 <= i < k ==> IsDir(fs, Join(originalDir, seqs[i]))
  {
    for i := 0 to |seqs|
      invariant i > 0 ==> IsDir(fs, originalDir)
      invariant forall k :: 0 <= k < i ==> IsDir(fs, Join(originalDir, seqs[k]))
    {
      if !IsDir(fs, originalDir) {
        return Some(NotADirectory(originalDir));
      }
      if !IsDir(fs, Join(originalDir, seqs[i])) {
        return Some(NotADirectory(Join(originalDir, seqs[i])));
      }
    }
    return None;
  }
}
