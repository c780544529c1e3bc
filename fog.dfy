/** `Dataset.generate_fog`: for every sequence with fog data, every
    transmittance map `fog_transmittance/<vmax>/<sub_folders>/<filename>`
    is blended with the transformed original image
    `original_dir/<sequence>/<sub_folders>/<filename>` into
    `fog/<vmax>/<sub_folders>/<filename>`. */
module Fog {
  import opened Base
  import opened Strings
  import opened Paths
  import opened FileSystems
  import opened Configs
  import opened Pixels
  import opened Images

  /** `for_transmission_dir`. */
  function TransmittanceDir(cfg: Config, s: string): Path
  {
    cfg.KindDir(s, "fog_transmittance")
  }

  /** `fog_dir`. */
  function FogDir(cfg: Config, s: string): Path
  {
    cfg.KindDir(s, "fog")
  }

  /** The directory globbed for one `vmax`. */
  function LevelRoot(cfg: Config, s: string, vmax: string): Path
  {
    Join(TransmittanceDir(cfg, s), vmax)
  }

  /** `relative_path_to_filename` of a transmittance map. */
  function FogRelative(cfg: Config, s: string, vmax: string, ft: Path): Path
  {
    RelativePath(ft, LevelRoot(cfg, s, vmax))
  }

  /** `original_file_path`. */
  function FogSource(cfg: Config, s: string, vmax: string, ft: Path): Path
  {
    var rel := FogRelative(cfg, s, vmax, ft);
    Join(Join(Join(cfg.originalDir, s), SubFolders(rel)), Basename(rel))
  }

  /** `fog_output_dir`. */
  function FogOutputDir(cfg: Config, s: string, vmax: string, ft: Path): Path
  {
    Join(Join(FogDir(cfg, s), vmax), SubFolders(FogRelative(cfg, s, vmax, ft)))
  }

  /** The file `cv2.imwrite` writes the foggy image to. */
  function FogTarget(cfg: Config, s: string, vmax: string, ft: Path): Path
  {
    Join(FogOutputDir(cfg, s, vmax, ft), Basename(FogRelative(cfg, s, vmax, ft)))
  }

  // ---------------------------------------------------------------------
  // The walk, level by level
  // ---------------------------------------------------------------------

  /** The body of the innermost loop for the transmittance map `ft`, with
      its paths computed: a missing original is skipped; otherwise the
      original is read and transformed, the output directory made, the map
      read, and the blend written. */
  function Blend(im: Imaging, fs: FileSystem, orig: Path, outDir: Path, target: Path, ft: Path): Run
  {
    if !IsFile(fs, orig) then Run(fs, None)
    else match im.readColor(fs.files[orig])
      case None => Run(fs, Some(ImageUnreadable(orig)))
      case Some(raw) =>
        var clean := im.transform(raw);
        var made := MakeDirs(fs, outDir);
        match ReadImage(made, im.readUnchanged, ft)
        case None => Run(made, Some(ImageUnreadable(ft)))
        case Some(t) =>
          if !SameShape(clean, t) then Run(made, Some(ShapeMismatch(ft)))
          else Run(WriteFile(made, target, im.write(FogImage(clean, t))), None)
  }

  /** One transmittance map `ft` of the level `vmax`. */
  function FogOfFile(cfg: Config, im: Imaging, fs: FileSystem, s: string, vmax: string, ft: Path): Run
  {
    Blend(im, fs, FogSource(cfg, s, vmax, ft), FogOutputDir(cfg, s, vmax, ft), FogTarget(cfg, s, vmax, ft), ft)
  }

  /** The transmittance maps of one `vmax` in turn; an exception ends the walk. */
  function FogOfFiles(cfg: Config, im: Imaging, fs: FileSystem, s: string, vmax: string, files: seq<Path>): Run
    decreases |files|
  {
    if files == [] then Run(fs, None)
    else
      var r := FogOfFile(cfg, im, fs, s, vmax, files[0]);
      if r.err.Some? then r else FogOfFiles(cfg, im, r.fs, s, vmax, files[1..])
  }

  /** One `vmax`: the maps are globbed when the level starts. */
  function FogOfLevel(cfg: Config, im: Imaging, fs: FileSystem, s: string, vmax: string): Run
  {
    FogOfFiles(cfg, im, fs, s, vmax, GlobPng(fs, LevelRoot(cfg, s, vmax)))
  }

  /** The `vmax` entries in turn. */
  function FogOfLevels(cfg: Config, im: Imaging, fs: FileSystem, s: string, levels: seq<string>): Run
    decreases |levels|
  {
    if levels == [] then Run(fs, None)
    else
      var r := FogOfLevel(cfg, im, fs, s, levels[0]);
      if r.err.Some? then r else FogOfLevels(cfg, im, r.fs, s, levels[1..])
  }

  /** One sequence: its kinds are looked up (which may raise), a sequence
      without fog data is skipped, a missing transmittance directory
      raises, and otherwise every entry listed in it is a `vmax` level. */
  function FogOfSequence(cfg: Config, im: Imaging, fs: FileSystem, s: string): Run
  {
    match KindsOf(cfg.data, s)
    case Err(e) => Run(fs, Some(e))
    case Ok(kinds) =>
      if "fog_transmittance" !in kinds then Run(fs, None)
      else if !IsDir(fs, TransmittanceDir(cfg, s)) then Run(fs, Some(NotADirectory(TransmittanceDir(cfg, s))))
      else FogOfLevels(cfg, im, fs, s, ListDir(fs, TransmittanceDir(cfg, s)))
  }

  /** The sequences in turn. */
  function FogOfSequences(cfg: Config, im: Imaging, fs: FileSystem, seqs: seq<string>): Run
    decreases |seqs|
  {
    if seqs == [] then Run(fs, None)
    else
      var r := FogOfSequence(cfg, im, fs, seqs[0]);
      if r.err.Some? then r else FogOfSequences(cfg, im, r.fs, seqs[1..])
  }

  // ---------------------------------------------------------------------
  // generate_fog
  // ---------------------------------------------------------------------

  /** One turn of the loop over `files`. */
  lemma FogFilesStep(cfg: Config, im: Imaging, fs: FileSystem, s: string, vmax: string, files: seq<Path>, i: nat)
    requires i < |files|
    ensures FogOfFiles(cfg, im, fs, s, vmax, files[i..]) ==
      var r := FogOfFile(cfg, im, fs, s, vmax, files[i]);
      if r.err.Some? then r else FogOfFiles(cfg, im, r.fs, s, vmax, files[i + 1..])
  {
    assert files[i..][1..] == files[i + 1..];
  }

  /** One turn of the loop over `levels`. */
  lemma FogLevelsStep(cfg: Config, im: Imaging, fs: FileSystem, s: string, levels: seq<string>, i: nat)
    requires i < |levels|
    ensures FogOfLevels(cfg, im, fs, s, levels[i..]) ==
      var r := FogOfLevel(cfg, im, fs, s, levels[i]);
      if r.err.Some? then r else FogOfLevels(cfg, im, r.fs, s, levels[i + 1..])
  {
    assert levels[i..][1..] == levels[i + 1..];
  }

  /** One turn of the loop over `seqs`. */
  lemma FogSequencesStep(cfg: Config, im: Imaging, fs: FileSystem, seqs: seq<string>, i: nat)
    requires i < |seqs|
    ensures FogOfSequences(cfg, im, fs, seqs[i..]) ==
      var r := FogOfSequence(cfg, im, fs, seqs[i]);
      if r.err.Some? then r else FogOfSequences(cfg, im, r.fs, seqs[i + 1..])
  {
    assert seqs[i..][1..] == seqs[i + 1..];
  }

  /** The loop over the globbed transmittance maps of one `vmax`. */
  method GenerateFogFiles(cfg: Config, im: Imaging, fs: FileSystem, s: string, vmax: string, files: seq<Path>)
    returns (r: Run)
    ensures r == FogOfFiles(cfg, im, fs, s, vmax, files)
  {
    var cur := fs;
    assert files[0..] == files;
    for i := 0 to |files|
      invariant FogOfFiles(cfg, im, fs, s, vmax, files) == FogOfFiles(cfg, im, cur, s, vmax, files[i..])
    {
      FogFilesStep(cfg, im, cur, s, vmax, files, i);
      var step := FogOfFile(cfg, im, cur, s, vmax, files[i]);
      if step.err.Some? {
        return step;
      }
      cur := step.fs;
    }
    r := Run(cur, None);
  }

  /** The body of the loop over the sequences. */
  method GenerateFogSequence(cfg: Config, im: Imaging, fs: FileSystem, s: string) returns (r: Run)
    ensures r == FogOfSequence(cfg, im, fs, s)
  {
    var kinds := KindsOf(cfg.data, s);
    if kinds.Err? {
      return Run(fs, Some(kinds.error));
    }
    if "fog_transmittance" !in kinds.value {
      return Run(fs, None);
    }
    var ftd := TransmittanceDir(cfg, s);
    if !IsDir(fs, ftd) {
      return Run(fs, Some(NotADirectory(ftd)));
    }
    r := GenerateFogLevels(cfg, im, fs, s, ListDir(fs, ftd));
  }

  /** The loop over the `vmax` entries of one sequence. */
  method GenerateFogLevels(cfg: Config, im: Imaging, fs: FileSystem, s: string, levels: seq<string>) returns (r: Run)
    ensures r == FogOfLevels(cfg, im, fs, s, levels)
  {
    var cur := fs;
    assert levels[0..] == levels;
    for i := 0 to |levels|
      invariant FogOfLevels(cfg, im, fs, s, levels) == FogOfLevels(cfg, im, cur, s, levels[i..])
    {
      FogLevelsStep(cfg, im, cur, s, levels, i);
      var step := GenerateFogFiles(cfg, im, cur, s, levels[i], GlobPng(cur, LevelRoot(cfg, s, levels[i])));
      if step.err.Some? {
        return step;
      }
      cur := step.fs;
    }
    r := Run(cur, None);
  }

  /** `generate_fog()`. */
  method GenerateFog(cfg: Config, im: Imaging, fs: FileSystem) returns (r: Run)
    ensures r == FogOfSequences(cfg, im, fs, cfg.sequences)
  {
    var seqs := cfg.sequences;
    var cur := fs;
    assert seqs[0..] == seqs;
    for i := 0 to |seqs|
      invariant FogOfSequences(cfg, im, fs, seqs) == FogOfSequences(cfg, im, cur, seqs[i..])
    {
      FogSequencesStep(cfg, im, cur, seqs, i);
      var step := GenerateFogSequence(cfg, im, cur, seqs[i]);
      if step.err.Some? {
        return step;
      }
      cur := step.fs;
    }
    r := Run(cur, None);
  }

  // ---------------------------------------------------------------------
  // Properties
  // ---------------------------------------------------------------------

  /** A sequence whose kinds lack "fog_transmittance" is skipped untouched. */
  lemma FogSkipsSequence(cfg: Config, im: Imaging, fs: FileSystem, s: string)
    requires s in cfg.data || "*" in cfg.data
    requires "fog_transmittance" !in Kinds(cfg.data, s)
    ensures FogOfSequence(cfg, im, fs, s) == Run(fs, None)
  {
  }

  /** A sequence with fog data but no transmittance directory raises
      NotADirectoryError before anything is written. */
  lemma FogNeedsTransmittance(cfg: Config, im: Imaging, fs: FileSystem, s: string)
    requires s in cfg.data || "*" in cfg.data
    requires "fog_transmittance" in Kinds(cfg.data, s)
    ensures !IsDir(fs, TransmittanceDir(cfg, s)) <==>
      FogOfSequence(cfg, im, fs, s) == Run(fs, Some(NotADirectory(TransmittanceDir(cfg, s))))
  {
    if IsDir(fs, TransmittanceDir(cfg, s)) {
      FogOfLevelsQuiet(cfg, im, fs, s, ListDir(fs, TransmittanceDir(cfg, s)));
    }
  }

  /** A level walk only ever reports the errors of its images. */
  lemma {:induction false} FogOfLevelsQuiet(cfg: Config, im: Imaging, fs: FileSystem, s: string, levels: seq<string>)
    ensures FogOfLevels(cfg, im, fs, s, levels).err.Some? ==> !FogOfLevels(cfg, im, fs, s, levels).err.value.NotADirectory?
    decreases |levels|
  {
    if levels != [] {
      var r := FogOfLevel(cfg, im, fs, s, levels[0]);
      FogOfFilesQuiet(cfg, im, fs, s, levels[0], GlobPng(fs, LevelRoot(cfg, s, levels[0])));
      if r.err.None? {
        FogOfLevelsQuiet(cfg, im, r.fs, s, levels[1..]);
        assert FogOfLevels(cfg, im, fs, s, levels) == FogOfLevels(cfg, im, r.fs, s, levels[1..]);
      } else {
        assert FogOfLevels(cfg, im, fs, s, levels) == r;
      }
    }
  }

  lemma {:induction false} FogOfFilesQuiet(cfg: Config, im: Imaging, fs: FileSystem, s: string, vmax: string, files: seq<Path>)
    ensures FogOfFiles(cfg, im, fs, s, vmax, files).err.Some? ==> !FogOfFiles(cfg, im, fs, s, vmax, files).err.value.NotADirectory?
    decreases |files|
  {
    if files != [] {
      var r := FogOfFile(cfg, im, fs, s, vmax, files[0]);
      BlendErrors(im, fs, FogSource(cfg, s, vmax, files[0]), FogOutputDir(cfg, s, vmax, files[0]),
        FogTarget(cfg, s, vmax, files[0]), files[0]);
      if r.err.None? {
        FogOfFilesQuiet(cfg, im, r.fs, s, vmax, files[1..]);
        assert FogOfFiles(cfg, im, fs, s, vmax, files) == FogOfFiles(cfg, im, r.fs, s, vmax, files[1..]);
      } else {
        assert FogOfFiles(cfg, im, fs, s, vmax, files) == r;
      }
    }
  }

  /** A map whose original is missing is skipped and the walk goes on with
      the next map on the same disk. */
  lemma FogSkipsMissingOriginal(cfg: Config, im: Imaging, fs: FileSystem, s: string, vmax: string, files: seq<Path>)
    requires files != [] && !IsFile(fs, FogSource(cfg, s, vmax, files[0]))
    ensures FogOfFiles(cfg, im, fs, s, vmax, files) == FogOfFiles(cfg, im, fs, s, vmax, files[1..])
  {
  }

  /** When the original and the map decode to images of one shape, the
      foggy image, whose channels are the blends of `Pixels.FogChannel`, is
      written at the target and nothing else is written. */
  lemma BlendWrites(im: Imaging, fs: FileSystem, orig: Path, outDir: Path, target: Path, ft: Path)
    requires IsFile(fs, orig) && im.readColor(fs.files[orig]).Some?
    requires ft in fs.files && im.readUnchanged(fs.files[ft]).Some?
    requires SameShape(im.transform(im.readColor(fs.files[orig]).value), im.readUnchanged(fs.files[ft]).value)
    ensures var r := Blend(im, fs, orig, outDir, target, ft);
      && r.err.None?
      && r.fs.files == fs.files[target := im.write(FogImage(im.transform(im.readColor(fs.files[orig]).value), im.readUnchanged(fs.files[ft]).value))]
  {
    var r := Blend(im, fs, orig, outDir, target, ft);
    var made := MakeDirs(fs, outDir);
    var v := im.write(FogImage(im.transform(im.readColor(fs.files[orig]).value), im.readUnchanged(fs.files[ft]).value));
    assert r.fs == WriteFile(made, target, v);
    assert r.fs.files == fs.files[target := v];
  }

  /** The errors of one map: an unreadable original, an unreadable map, or
      two images of different shapes; nothing else raises, and an
      unreadable original raises before anything is made. */
  lemma BlendErrors(im: Imaging, fs: FileSystem, orig: Path, outDir: Path, target: Path, ft: Path)
    ensures var r := Blend(im, fs, orig, outDir, target, ft);
      r.err.Some? <==>
        IsFile(fs, orig) &&
        (im.readColor(fs.files[orig]).None?
         || ReadImage(fs, im.readUnchanged, ft).None?
         || !SameShape(im.transform(im.readColor(fs.files[orig]).value), ReadImage(fs, im.readUnchanged, ft).value))
    ensures var r := Blend(im, fs, orig, outDir, target, ft);
      IsFile(fs, orig) && im.readColor(fs.files[orig]).None? ==> r == Run(fs, Some(ImageUnreadable(orig)))
    ensures var r := Blend(im, fs, orig, outDir, target, ft);
      r.err.Some? ==> r.err.value.ImageUnreadable? || r.err.value.ShapeMismatch?
  {
    if IsFile(fs, orig) && im.readColor(fs.files[orig]).Some? {
      var made := MakeDirs(fs, outDir);
      assert ReadImage(made, im.readUnchanged, ft) == ReadImage(fs, im.readUnchanged, ft);
    }
  }

  /** A map, found or not, never removes anything from the disk. */
  lemma BlendGrows(im: Imaging, fs: FileSystem, orig: Path, outDir: Path, target: Path, ft: Path)
    ensures Grows(fs, Blend(im, fs, orig, outDir, target, ft).fs)
  {
  }

  /** When the file name does not reappear among its directories, the map
      `<root>/<rel>` is blended with `original_dir/<sequence>/<rel>` into
      `fog/<vmax>/<rel>`, provided the "<root>/" prefix does not reappear in
      `rel`. */
  lemma FogPaths(cfg: Config, s: string, vmax: string, rel: Path)
    requires FileNameOnlyAtEnd(rel)
    requires !Occurs(rel, LevelRoot(cfg, s, vmax) + "/")
    ensures FogRelative(cfg, s, vmax, LevelRoot(cfg, s, vmax) + "/" + rel) == rel
    ensures FogSource(cfg, s, vmax, LevelRoot(cfg, s, vmax) + "/" + rel) == Join(Join(cfg.originalDir, s), rel)
    ensures FogTarget(cfg, s, vmax, LevelRoot(cfg, s, vmax) + "/" + rel) == Join(Join(FogDir(cfg, s), vmax), rel)
  {
    RelativeOfChild(LevelRoot(cfg, s, vmax), rel);
    RebuildUnder(Join(cfg.originalDir, s), rel);
    RebuildUnder(Join(FogDir(cfg, s), vmax), rel);
  }

  // ---------------------------------------------------------------------
  // The walk only adds to the disk
  // ---------------------------------------------------------------------

  lemma {:induction false} FogOfFilesGrows(cfg: Config, im: Imaging, fs: FileSystem, s: string, vmax: string, files: seq<Path>)
    ensures Grows(fs, FogOfFiles(cfg, im, fs, s, vmax, files).fs)
    decreases |files|
  {
    if files != [] {
      var r := FogOfFile(cfg, im, fs, s, vmax, files[0]);
      BlendGrows(im, fs, FogSource(cfg, s, vmax, files[0]), FogOutputDir(cfg, s, vmax, files[0]),
        FogTarget(cfg, s, vmax, files[0]), files[0]);
      if r.err.None? {
        FogOfFilesGrows(cfg, im, r.fs, s, vmax, files[1..]);
        assert FogOfFiles(cfg, im, fs, s, vmax, files) == FogOfFiles(cfg, im, r.fs, s, vmax, files[1..]);
      } else {
        assert FogOfFiles(cfg, im, fs, s, vmax, files) == r;
      }
    }
  }

  lemma {:induction false} FogOfLevelsGrows(cfg: Config, im: Imaging, fs: FileSystem, s: string, levels: seq<string>)
    ensures Grows(fs, FogOfLevels(cfg, im, fs, s, levels).fs)
    decreases |levels|
  {
    if levels != [] {
      var r := FogOfLevel(cfg, im, fs, s, levels[0]);
      FogOfFilesGrows(cfg, im, fs, s, levels[0], GlobPng(fs, LevelRoot(cfg, s, levels[0])));
      if r.err.None? {
        FogOfLevelsGrows(cfg, im, r.fs, s, levels[1..]);
        assert FogOfLevels(cfg, im, fs, s, levels) == FogOfLevels(cfg, im, r.fs, s, levels[1..]);
      } else {
        assert FogOfLevels(cfg, im, fs, s, levels) == r;
      }
    }
  }

  /** `generate_fog` never removes a file or a directory, whether it
      completes or raises. */
  lemma {:induction false} FogOfSequencesGrows(cfg: Config, im: Imaging, fs: FileSystem, seqs: seq<string>)
    ensures Grows(fs, FogOfSequences(cfg, im, fs, seqs).fs)
    decreases |seqs|
  {
    if seqs != [] {
      var r := FogOfSequence(cfg, im, fs, seqs[0]);
      if KindsOf(cfg.data, seqs[0]).Ok? && "fog_transmittance" in KindsOf(cfg.data, seqs[0]).value
         && IsDir(fs, TransmittanceDir(cfg, seqs[0])) {
        FogOfLevelsGrows(cfg, im, fs, seqs[0], ListDir(fs, TransmittanceDir(cfg, seqs[0])));
      }
      if r.err.None? {
        FogOfSequencesGrows(cfg, im, r.fs, seqs[1..]);
        assert FogOfSequences(cfg, im, fs, seqs) == FogOfSequences(cfg, im, r.fs, seqs[1..]);
      } else {
        assert FogOfSequences(cfg, im, fs, seqs) == r;
      }
    }
  }
}
