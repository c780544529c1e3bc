/** The checksum manifest `<digest> <filename>` read by
    `download_and_extract_all`, and the block-wise digest of a local file
    computed by `_sha256sum`. SHA-256 itself is a parameter: a function from
    the bytes hashed to the hexadecimal digest. */
module Checksums {
  import opened Base
  import opened Strings
  import opened FileSystems

  /** The manifest file read in text mode, one character per byte. */
  function ToText(b: Bytes): (r: string)
    ensures |r| == |b|
    ensures forall i :: 0 <= i < |b| ==> r[i] as int == b[i] as int
  {
    seq(|b|, i requires 0 <= i < |b| => b[i] as int as char)
  }

  /** The dictionary built so far and the exception that stopped the
      building, if any: `self.checksums` keeps the entries of the lines before
      a malformed one. */
  datatype Parsed = Parsed(checksums: map<string, string>, err: Option<Error>)

  /** `value, key = line.split(); self.checksums[key] = value`, line after line. */
  function ParseLines(acc: map<string, string>, lines: seq<string>): Parsed
    decreases |lines|
  {
    if lines == [] then Parsed(acc, None)
    else
      var tokens := Split(lines[0]);
      if |tokens| != 2 then Parsed(acc, Some(ValueError(lines[0])))
      else ParseLines(acc[tokens[1] := tokens[0]], lines[1..])
  }

  /** The dictionary read from the whole manifest text. */
  function Manifest(text: string): Parsed
  {
    ParseLines(map[], Lines(text))
  }

  /** A manifest line that unpacks into a digest and a file name. */
  predicate WellFormed(line: string)
  {
    |Split(line)| == 2
  }

  /** The loop of `download_and_extract_all` that fills `self.checksums`. */
  method ParseChecksums(text: string) returns (checksums: map<string, string>, err: Option<Error>)
    ensures Parsed(checksums, err) == Manifest(text)
  {
    var lines := Lines(text);
    checksums := map[];
    var i := 0;
    while i < |lines|
      invariant 0 <= i <= |lines|
      invariant ParseLines(map[], lines) == ParseLines(checksums, lines[i..])
    {
      assert lines[i..][1..] == lines[i + 1..];
      var tokens := Split(lines[i]);
      if |tokens| != 2 {
        return checksums, Some(ValueError(lines[i]));
      }
      checksums := checksums[tokens[1] := tokens[0]];
      i := i + 1;
    }
    assert lines[i..] == [];
    err := None;
  }

  /** The manifest parses exactly when every line is well formed; otherwise
      the first malformed line is the one reported. */
  lemma {:induction false} ParseErrors(acc: map<string, string>, lines: seq<string>)
    ensures ParseLines(acc, lines).err.None? <==> forall k :: 0 <= k < |lines| ==> WellFormed(lines[k])
    ensures ParseLines(acc, lines).err.Some? ==>
      exists k :: 0 <= k < |lines| && !WellFormed(lines[k])
        && ParseLines(acc, lines).err == Some(ValueError(lines[k]))
        && forall k' :: 0 <= k' < k ==> WellFormed(lines[k'])
    decreases |lines|
  {
    if lines != [] && WellFormed(lines[0]) {
      var tokens := Split(lines[0]);
      var tail := lines[1..];
      ParseErrors(acc[tokens[1] := tokens[0]], tail);
      if ParseLines(acc, lines).err.Some? {
        var k :| 0 <= k < |tail| && !WellFormed(tail[k])
          && ParseLines(acc, lines).err == Some(ValueError(tail[k]))
          && forall k' :: 0 <= k' < k ==> WellFormed(tail[k']);
        assert lines[k + 1] == tail[k];
        forall k' | 0 <= k' < k + 1 ensures WellFormed(lines[k']) {
          if k' > 0 { assert lines[k'] == tail[k' - 1]; }
        }
      }
      if forall k :: 0 <= k < |tail| ==> WellFormed(tail[k]) {
        forall k | 0 <= k < |lines| ensures WellFormed(lines[k]) {
          if k > 0 { assert lines[k] == tail[k - 1]; }
        }
      }
    }
  }

  /** The file name on line `k`. */
  function NameOn(lines: seq<string>, k: nat): string
    requires k < |lines| && WellFormed(lines[k])
  {
    Split(lines[k])[1]
  }

  /** The digest on line `k`. */
  function DigestOn(lines: seq<string>, k: nat): string
    requires k < |lines| && WellFormed(lines[k])
  {
    Split(lines[k])[0]
  }

  /** Over well-formed lines, a name is in the dictionary exactly when it was
      there before or some line names it. */
  lemma {:induction false} ParseKeys(acc: map<string, string>, lines: seq<string>, key: string)
    requires forall k :: 0 <= k < |lines| ==> WellFormed(lines[k])
    ensures key in ParseLines(acc, lines).checksums <==>
      key in acc || exists k :: 0 <= k < |lines| && NameOn(lines, k) == key
    decreases |lines|
  {
    if lines != [] {
      var tail := lines[1..];
      var acc' := acc[NameOn(lines, 0) := DigestOn(lines, 0)];
      assert forall k :: 0 <= k < |tail| ==> tail[k] == lines[k + 1];
      ParseKeys(acc', tail, key);
      assert ParseLines(acc, lines) == ParseLines(acc', tail);
      if exists k :: 0 <= k < |lines| && NameOn(lines, k) == key {
        var k :| 0 <= k < |lines| && NameOn(lines, k) == key;
        if k > 0 { assert NameOn(tail, k - 1) == key; }
      }
      if exists k :: 0 <= k < |tail| && NameOn(tail, k) == key {
        var k :| 0 <= k < |tail| && NameOn(tail, k) == key;
        assert NameOn(lines, k + 1) == key;
      }
    }
  }

  /** A name that no line mentions keeps the digest it had. */
  lemma {:induction false} ParseUntouched(acc: map<string, string>, lines: seq<string>, key: string)
    requires forall k :: 0 <= k < |lines| ==> WellFormed(lines[k])
    requires key in acc && forall k :: 0 <= k < |lines| ==> NameOn(lines, k) != key
    ensures key in ParseLines(acc, lines).checksums
    ensures ParseLines(acc, lines).checksums[key] == acc[key]
    decreases |lines|
  {
    if lines != [] {
      var tail := lines[1..];
      forall k | 0 <= k < |tail| ensures NameOn(tail, k) != key {
        assert tail[k] == lines[k + 1];
        assert NameOn(tail, k) == NameOn(lines, k + 1);
      }
      ParseUntouched(acc[NameOn(lines, 0) := DigestOn(lines, 0)], tail, key);
    }
  }

  /** The digest kept for a name is that of the LAST line naming it: a later
      duplicate overwrites an earlier one. */
  lemma {:induction false} ParseLast(acc: map<string, string>, lines: seq<string>, k: nat)
    requires forall k :: 0 <= k < |lines| ==> WellFormed(lines[k])
    requires k < |lines| && forall k' :: k < k' < |lines| ==> NameOn(lines, k') != NameOn(lines, k)
    ensures NameOn(lines, k) in ParseLines(acc, lines).checksums
    ensures ParseLines(acc, lines).checksums[NameOn(lines, k)] == DigestOn(lines, k)
    decreases k
  {
    var tail := lines[1..];
    var acc' := acc[NameOn(lines, 0) := DigestOn(lines, 0)];
    assert forall j :: 0 <= j < |tail| ==> tail[j] == lines[j + 1];
    if k == 0 {
      forall j | 0 <= j < |tail| ensures NameOn(tail, j) != NameOn(lines, 0) {
        assert NameOn(tail, j) == NameOn(lines, j + 1);
      }
      ParseUntouched(acc', tail, NameOn(lines, 0));
    } else {
      forall j | k - 1 < j < |tail| ensures NameOn(tail, j) != NameOn(tail, k - 1) {
        assert NameOn(tail, j) == NameOn(lines, j + 1);
      }
      assert NameOn(tail, k - 1) == NameOn(lines, k);
      ParseLast(acc', tail, k - 1);
    }
  }

  // ---------------------------------------------------------------------
  // Round trip: a manifest written as "<digest> <name>\n" lines
  // ---------------------------------------------------------------------

  /** One manifest entry as the server publishes it. */
  datatype Entry = Entry(digest: string, name: string)

  /** Neither field is empty or holds whitespace. */
  predicate Plain(e: Entry)
  {
    e.digest != [] && NoSpace(e.digest) && e.name != [] && NoSpace(e.name)
  }

  /** The text of a manifest listing `entries`, one per line. */
  function Render(entries: seq<Entry>): string
    decreases |entries|
  {
    if entries == [] then [] else entries[0].digest + " " + entries[0].name + "\n" + Render(entries[1..])
  }

  /** Reading a rendered manifest gives one well-formed line per entry, whose
      tokens are the entry's digest and name. */
  lemma {:induction false} RenderLines(entries: seq<Entry>)
    requires forall i :: 0 <= i < |entries| ==> Plain(entries[i])
    ensures |Lines(Render(entries))| == |entries|
    ensures forall k :: 0 <= k < |entries| ==>
      WellFormed(Lines(Render(entries))[k])
      && DigestOn(Lines(Render(entries)), k) == entries[k].digest
      && NameOn(Lines(Render(entries)), k) == entries[k].name
    decreases |entries|
  {
    if entries != [] {
      var e := entries[0];
      var line := e.digest + " " + e.name;
      assert forall i :: 0 <= i < |line| ==> !IsNewline(line[i]) by {
        forall i | 0 <= i < |line| ensures !IsNewline(line[i]) {
          if i < |e.digest| { assert line[i] == e.digest[i]; }
          else if i > |e.digest| { assert line[i] == e.name[i - |e.digest| - 1]; }
        }
      }
      assert Render(entries) == line + "\n" + Render(entries[1..]);
      LinesCons(line, Render(entries[1..]));
      SplitPair(e.digest, e.name);
      RenderLines(entries[1..]);
      var ls := Lines(Render(entries));
      forall k | 0 <= k < |entries|
        ensures WellFormed(ls[k]) && DigestOn(ls, k) == entries[k].digest && NameOn(ls, k) == entries[k].name
      {
        if k > 0 { assert ls[k] == Lines(Render(entries[1..]))[k - 1]; }
      }
    }
  }

  /** A rendered manifest parses without error, and its dictionary holds
      exactly the listed names. */
  lemma ManifestRoundTripKeys(entries: seq<Entry>, name: string)
    requires forall i :: 0 <= i < |entries| ==> Plain(entries[i])
    ensures Manifest(Render(entries)).err.None?
    ensures name in Manifest(Render(entries)).checksums <==> exists i :: 0 <= i < |entries| && entries[i].name == name
  {
    var ls := Lines(Render(entries));
    RenderLines(entries);
    ParseErrors(map[], ls);
    ParseKeys(map[], ls, name);
    if exists k :: 0 <= k < |ls| && NameOn(ls, k) == name {
      var k :| 0 <= k < |ls| && NameOn(ls, k) == name;
      assert entries[k].name == name;
    }
    if exists i :: 0 <= i < |entries| && entries[i].name == name {
      var i :| 0 <= i < |entries| && entries[i].name == name;
      assert NameOn(ls, i) == name;
    }
  }

  /** Each listed name maps to the digest of its last listing. */
  lemma ManifestRoundTripDigest(entries: seq<Entry>, i: nat)
    requires forall i :: 0 <= i < |entries| ==> Plain(entries[i])
    requires i < |entries| && forall i' :: i < i' < |entries| ==> entries[i'].name != entries[i].name
    ensures entries[i].name in Manifest(Render(entries)).checksums
    ensures Manifest(Render(entries)).checksums[entries[i].name] == entries[i].digest
  {
    var ls := Lines(Render(entries));
    RenderLines(entries);
    ParseLast(map[], ls, i);
  }

  // ---------------------------------------------------------------------
  // _sha256sum
  // ---------------------------------------------------------------------

  /** The blocks read, joined. */
  function Concat(blocks: seq<Bytes>): Bytes
    decreases |blocks|
  {
    if blocks == [] then [] else Concat(blocks[..|blocks| - 1]) + blocks[|blocks| - 1]
  }

  /** How many of the `left` remaining bytes `f.read(n)` returns: all of them
      for a negative `n`, none for `n == 0`, at most `n` otherwise. */
  function ReadSize(n: int, left: nat): (r: nat)
    ensures r <= left
    ensures n < 0 ==> r == left
    ensures n == 0 ==> r == 0
    ensures n > 0 ==> r == Min(n, left)
  {
    if n < 0 then left else Min(n, left)
  }

  function Min(a: int, b: nat): nat
    requires a >= 0
  {
    if a <= b then a else b
  }

  /** What the hasher is fed: the whole file, except that a block size of 0
      makes the first read empty and ends the loop at once. */
  function Hashed(content: Bytes, blocksize: int): Bytes
  {
    if blocksize == 0 then [] else content
  }

  /** `_sha256sum(filename, blocksize)`: read the file block by block while
      the block read is not empty, feeding each block to the hasher and its
      length to the progress bar. The digest is that of the bytes fed; the
      blocks are non-empty, at most `blocksize` long and join up to them. */
  method Sha256Sum(fs: FileSystem, path: Path, blocksize: int, sha: Bytes -> string)
    returns (digest: Result<string>, progress: nat, ghost blocks: seq<Bytes>)
    ensures digest.Err? <==> !IsFile(fs, path)
    ensures digest.Err? ==> digest.error == FileNotFound(path) && progress == 0 && blocks == []
    ensures digest.Ok? ==>
      var fed := Hashed(fs.files[path], blocksize);
      digest.value == sha(fed) && progress == |fed| && Concat(blocks) == fed
    ensures forall k :: 0 <= k < |blocks| ==> blocks[k] != [] && (blocksize > 0 ==> |blocks[k]| <= blocksize)
  {
    blocks := [];
    progress := 0;
    if path !in fs.files {
      return Err(FileNotFound(path)), 0, [];
    }
    var content := fs.files[path];
    var fed: Bytes := [];
    var pos := 0;
    var more := true;
    while more
      invariant 0 <= pos <= |content|
      invariant fed == content[..pos] && progress == pos && Concat(blocks) == fed
      invariant forall k :: 0 <= k < |blocks| ==> blocks[k] != [] && (blocksize > 0 ==> |blocks[k]| <= blocksize)
      invariant !more ==> fed == Hashed(content, blocksize)
      invariant blocksize == 0 ==> pos == 0
      decreases |content| - pos, more
    {
      var n := ReadSize(blocksize, |content| - pos);
      var block := content[pos..pos + n];
      if block != [] {
        progress := progress + |block|;
        assert content[..pos + n] == content[..pos] + block;
        fed := fed + block;
        blocks := blocks + [block];
        assert blocks[..|blocks| - 1] == blocks[..|blocks| - 1];
        pos := pos + n;
      } else {
        assert n == 0;
        assert blocksize != 0 ==> pos == |content|;
        assert content[..|content|] == content;
      }
      more := block != [];
    }
    digest := Ok(sha(fed));
  }
}
