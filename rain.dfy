/** `Dataset.generate_rain`, `generate_rain_from_diff` and `_apply_diff`:
    every differential image `rain_diff/<level>/rainy_image/<sub>/<name>`
    is added to the transformed original `original_dir/<sequence>/<sub>/<name>`
    into `rain/<level>/rainy_image/<sub>/<name>`, its mask is copied to
    `rain/<level>/rain_mask/<sub>/<name>`, and once every sequence is done
    the `rain_diff` trees are removed. */
module Rain {
  import opened Base
  import opened Strings
  import opened Paths
  import opened FileSystems
  import opened Configs
  import opened Pixels
  import opened Images

  /** `rain_levels_dir`. */
  function DiffDir(cfg: Config, s: string): Path
  {
    cfg.KindDir(s, "rain_diff")
  }

  /** `rain_dir`. */
  function RainDir(cfg: Config, s: string): Path
  {
    cfg.KindDir(s, "rain")
  }

  /** The directory globbed for one rain level. */
  function DiffRoot(cfg: Config, s: string, level: string): Path
  {
    Join(Join(DiffDir(cfg, s), level), "rainy_image")
  }

  /** `relative_path_to_filename` of a differential image. */
  function RainRelative(cfg: Config, s: string, level: string, rd: Path): Path
  {
    RelativePath(rd, DiffRoot(cfg, s, level))
  }

  /** `filename`. */
  function RainName(cfg: Config, s: string, level: string, rd: Path): Path
  {
    Basename(RainRelative(cfg, s, level, rd))
  }

  /** `sub_folders`. */
  function RainSub(cfg: Config, s: string, level: string, rd: Path): Path
  {
    SubFolders(RainRelative(cfg, s, level, rd))
  }

  /** `rainy_image_output_dir`. */
  function ImageOutDir(cfg: Config, s: string, level: string, rd: Path): Path
  {
    Join(Join(Join(RainDir(cfg, s), level), "rainy_image"), RainSub(cfg, s, level, rd))
  }

  /** `rain_mask_output_dir`. */
  function MaskOutDir(cfg: Config, s: string, level: string, rd: Path): Path
  {
    Join(Join(Join(RainDir(cfg, s), level), "rain_mask"), RainSub(cfg, s, level, rd))
  }

  /** The mask copied next to the rainy image. */
  function MaskSource(cfg: Config, s: string, level: string, rd: Path): Path
  {
    Join(Join(Join(Join(DiffDir(cfg, s), level), "rain_mask"), RainSub(cfg, s, level, rd)), RainName(cfg, s, level, rd))
  }

  /** `original_file_path`. */
  function RainSource(cfg: Config, s: string, level: string, rd: Path): Path
  {
    Join(Join(Join(cfg.originalDir, s), RainSub(cfg, s, level, rd)), RainName(cfg, s, level, rd))
  }

  // ---------------------------------------------------------------------
  // One differential image
  // ---------------------------------------------------------------------

  /** `_apply_diff(raw, diff, out)`: the original is read in colour and
      transformed, the differential image read unchanged, and their
      wrapped sum written to `out`. A missing or undecodable input raises. */
  function ApplyDiff(im: Imaging, fs: FileSystem, raw: Path, diff: Path, out: Path): Run
  {
    match ReadImage(fs, im.readColor, raw)
    case None => Run(fs, Some(ImageUnreadable(raw)))
    case Some(c) =>
      match ReadImage(fs, im.readUnchanged, diff)
      case None => Run(fs, Some(ImageUnreadable(diff)))
      case Some(d) =>
        var clean := im.transform(c);
        if !SameShape(clean, d) then Run(fs, Some(ShapeMismatch(diff)))
        else Run(WriteFile(fs, out, im.write(RainImage(clean, d))), None)
  }

  /** The body of the innermost loop, with its paths computed: both output
      directories are made, the mask is copied, and the differential image
      applied. */
  function Augment(im: Imaging, fs: FileSystem, orig: Path, imageDir: Path, maskDir: Path,
                   maskSrc: Path, name: Path, rd: Path): Run
  {
    var made := MakeDirs(MakeDirs(fs, imageDir), maskDir);
    var copied := CopyFile(made, maskSrc, Join(maskDir, name));
    if copied.err.Some? then copied
    else ApplyDiff(im, copied.fs, orig, rd, Join(imageDir, name))
  }

  /** One differential image `rd` of the level `level`. */
  function RainOfFile(cfg: Config, im: Imaging, fs: FileSystem, s: string, level: string, rd: Path): Run
  {
    Augment(im, fs, RainSource(cfg, s, level, rd), ImageOutDir(cfg, s, level, rd), MaskOutDir(cfg, s, level, rd),
      MaskSource(cfg, s, level, rd), RainName(cfg, s, level, rd), rd)
  }

  // ---------------------------------------------------------------------
  // The walk
  // ---------------------------------------------------------------------

  /** The differential images of one level in turn; an exception ends the walk. */
  function RainOfFiles(cfg: Config, im: Imaging, fs: FileSystem, s: string, level: string, files: seq<Path>): Run
    decreases |files|
  {
    if files == [] then Run(fs, None)
    else
      var r := RainOfFile(cfg, im, fs, s, level, files[0]);
      if r.err.Some? then r else RainOfFiles(cfg, im, r.fs, s, level, files[1..])
  }

  /** One level: its images are globbed when the level starts. */
  function RainOfLevel(cfg: Config, im: Imaging, fs: FileSystem, s: string, level: string): Run
  {
    RainOfFiles(cfg, im, fs, s, level, GlobPng(fs, DiffRoot(cfg, s, level)))
  }

  /** The levels in turn. */
  function RainOfLevels(cfg: Config, im: Imaging, fs: FileSystem, s: string, levels: seq<string>): Run
    decreases |levels|
  {
    if levels == [] then Run(fs, None)
    else
      var r := RainOfLevel(cfg, im, fs, s, levels[0]);
      if r.err.Some? then r else RainOfLevels(cfg, im, r.fs, s, levels[1..])
  }

  /** One sequence: without a `rain_diff` directory it is skipped when a
      `rain` directory exists and raises otherwise; with one, every entry
      listed in it is a level. */
  function RainOfSequence(cfg: Config, im: Imaging, fs: FileSystem, s: string): Run
  {
    if !IsDir(fs, DiffDir(cfg, s)) then
      if IsDir(fs, RainDir(cfg, s)) then Run(fs, None) else Run(fs, Some(NotADirectory(DiffDir(cfg, s))))
    else RainOfLevels(cfg, im, fs, s, ListDir(fs, DiffDir(cfg, s)))
  }

  /** The sequences in turn. */
  function RainOfSequences(cfg: Config, im: Imaging, fs: FileSystem, seqs: seq<string>): Run
    decreases |seqs|
  {
    if seqs == [] then Run(fs, None)
    else
      var r := RainOfSequence(cfg, im, fs, seqs[0]);
      if r.err.Some? then r else RainOfSequences(cfg, im, r.fs, seqs[1..])
  }

  /** The closing loop: `shutil.rmtree(rain_diff, ignore_errors=True)` for
      each sequence in turn. */
  function RemoveDiffs(cfg: Config, fs: FileSystem, seqs: seq<string>): FileSystem
    decreases |seqs|
  {
    if seqs == [] then fs else RemoveDiffs(cfg, RemoveTree(fs, DiffDir(cfg, seqs[0])), seqs[1..])
  }

  /** `generate_rain_from_diff()`. */
  function RainFromDiff(cfg: Config, im: Imaging, fs: FileSystem): Run
  {
    var r := RainOfSequences(cfg, im, fs, cfg.sequences);
    if r.err.Some? then r else Run(RemoveDiffs(cfg, r.fs, cfg.sequences), None)
  }

  /** `generate_rain()`: the kinds under "*" choose between the walk, nothing
      to do (the rain is shipped ready) and NotImplementedError. */
  function RainOf(cfg: Config, im: Imaging, fs: FileSystem): Run
  {
    if "*" !in cfg.data then Run(fs, Some(KeyError("*")))
    else if "rain_diff" in cfg.data["*"] then RainFromDiff(cfg, im, fs)
    else if "rain" in cfg.data["*"] then Run(fs, None)
    else Run(fs, Some(NotImplemented))
  }

  // ---------------------------------------------------------------------
  // generate_rain
  // ---------------------------------------------------------------------

  /** One turn of the loop over `files`. */
  lemma RainFilesStep(cfg: Config, im: Imaging, fs: FileSystem, s: string, level: string, files: seq<Path>, i: nat)
    requires i < |files|
    ensures RainOfFiles(cfg, im, fs, s, level, files[i..]) ==
      var r := RainOfFile(cfg, im, fs, s, level, files[i]);
      if r.err.Some? then r else RainOfFiles(cfg, im, r.fs, s, level, files[i + 1..])
  {
    assert files[i..][1..] == files[i + 1..];
  }

  /** One turn of the loop over `levels`. */
  lemma RainLevelsStep(cfg: Config, im: Imaging, fs: FileSystem, s: string, levels: seq<string>, i: nat)
    requires i < |levels|
    ensures RainOfLevels(cfg, im, fs, s, levels[i..]) ==
      var r := RainOfLevel(cfg, im, fs, s, levels[i]);
      if r.err.Some? then r else RainOfLevels(cfg, im, r.fs, s, levels[i + 1..])
  {
    assert levels[i..][1..] == levels[i + 1..];
  }

  /** One turn of the loop over `seqs`. */
  lemma RainSequencesStep(cfg: Config, im: Imaging, fs: FileSystem, seqs: seq<string>, i: nat)
    requires i < |seqs|
    ensures RainOfSequences(cfg, im, fs, seqs[i..]) ==
      var r := RainOfSequence(cfg, im, fs, seqs[i]);
      if r.err.Some? then r else RainOfSequences(cfg, im, r.fs, seqs[i + 1..])
  {
    assert seqs[i..][1..] == seqs[i + 1..];
  }

  /** The loop over the globbed differential images of one level. */
  method GenerateRainFiles(cfg: Config, im: Imaging, fs: FileSystem, s: string, level: string, files: seq<Path>)
    returns (r: Run)
    ensures r == RainOfFiles(cfg, im, fs, s, level, files)
  {
    var cur := fs;
    assert files[0..] == files;
    for i := 0 to |files|
      invariant RainOfFiles(cfg, im, fs, s, level, files) == RainOfFiles(cfg, im, cur, s, level, files[i..])
    {
      RainFilesStep(cfg, im, cur, s, level, files, i);
      var step := RainOfFile(cfg, im, cur, s, level, files[i]);
      if step.err.Some? {
        return step;
      }
      cur := step.fs;
    }
    r := Run(cur, None);
  }

  /** The loop over the levels of one sequence. */
  method GenerateRainLevels(cfg: Config, im: Imaging, fs: FileSystem, s: string, levels: seq<string>) returns (r: Run)
    ensures r == RainOfLevels(cfg, im, fs, s, levels)
  {
    var cur := fs;
    assert levels[0..] == levels;
    for i := 0 to |levels|
      invariant RainOfLevels(cfg, im, fs, s, levels) == RainOfLevels(cfg, im, cur, s, levels[i..])
    {
      RainLevelsStep(cfg, im, cur, s, levels, i);
      var step := GenerateRainFiles(cfg, im, cur, s, levels[i], GlobPng(cur, DiffRoot(cfg, s, levels[i])));
      if step.err.Some? {
        return step;
      }
      cur := step.fs;
    }
    r := Run(cur, None);
  }

  /** The body of the loop over the sequences. */
  method GenerateRainSequence(cfg: Config, im: Imaging, fs: FileSystem, s: string) returns (r: Run)
    ensures r == RainOfSequence(cfg, im, fs, s)
  {
    var diffs := DiffDir(cfg, s);
    if !IsDir(fs, diffs) {
      if IsDir(fs, RainDir(cfg, s)) {
        return Run(fs, None);
      }
      return Run(fs, Some(NotADirectory(diffs)));
    }
    r := GenerateRainLevels(cfg, im, fs, s, ListDir(fs, diffs));
  }

  /** The closing `rmtree` loop. */
  method RemoveDiffTrees(cfg: Config, fs: FileSystem) returns (r: FileSystem)
    ensures r == RemoveDiffs(cfg, fs, cfg.sequences)
  {
    var seqs := cfg.sequences;
    r := fs;
    assert seqs[0..] == seqs;
    for i := 0 to |seqs|
      invariant RemoveDiffs(cfg, fs, seqs) == RemoveDiffs(cfg, r, seqs[i..])
    {
      assert seqs[i..][1..] == seqs[i + 1..];
      r := RemoveTree(r, DiffDir(cfg, seqs[i]));
    }
  }

  /** `generate_rain_from_diff()`. */
  method GenerateRainFromDiff(cfg: Config, im: Imaging, fs: FileSystem) returns (r: Run)
    ensures r == RainFromDiff(cfg, im, fs)
  {
    var seqs := cfg.sequences;
    var cur := fs;
    assert seqs[0..] == seqs;
    for i := 0 to |seqs|
      invariant RainOfSequences(cfg, im, fs, seqs) == RainOfSequences(cfg, im, cur, seqs[i..])
    {
      RainSequencesStep(cfg, im, cur, seqs, i);
      var step := GenerateRainSequence(cfg, im, cur, seqs[i]);
      if step.err.Some? {
        return step;
      }
      cur := step.fs;
    }
    var cleaned := RemoveDiffTrees(cfg, cur);
    r := Run(cleaned, None);
  }

  /** `generate_rain()`. */
  method GenerateRain(cfg: Config, im: Imaging, fs: FileSystem) returns (r: Run)
    ensures r == RainOf(cfg, im, fs)
  {
    if "*" !in cfg.data {
      return Run(fs, Some(KeyError("*")));
    }
    var kinds := cfg.data["*"];
    if "rain_diff" in kinds {
      r := GenerateRainFromDiff(cfg, im, fs);
    } else if "rain" in kinds {
      r := Run(fs, None);
    } else {
      r := Run(fs, Some(NotImplemented));
    }
  }

  // ---------------------------------------------------------------------
  // One image: what is written
  // ---------------------------------------------------------------------

  /** When both inputs decode to images of one shape, the rainy image, whose
      channels are `Pixels.RainChannel` of the two, is written at `out` and
      nothing else changes; otherwise the error names the input at fault. */
  lemma ApplyDiffOutcome(im: Imaging, fs: FileSystem, raw: Path, diff: Path, out: Path)
    ensures var r := ApplyDiff(im, fs, raw, diff, out);
      r.err.None? <==>
        ReadImage(fs, im.readColor, raw).Some? && ReadImage(fs, im.readUnchanged, diff).Some?
        && SameShape(im.transform(ReadImage(fs, im.readColor, raw).value), ReadImage(fs, im.readUnchanged, diff).value)
    ensures var r := ApplyDiff(im, fs, raw, diff, out);
      r.err.None? ==>
        r.fs.dirs == fs.dirs &&
        r.fs.files == fs.files[out := im.write(RainImage(im.transform(ReadImage(fs, im.readColor, raw).value),
                                                         ReadImage(fs, im.readUnchanged, diff).value))]
    ensures var r := ApplyDiff(im, fs, raw, diff, out);
      r.err.Some? ==> r.fs == fs
    ensures var r := ApplyDiff(im, fs, raw, diff, out);
      ReadImage(fs, im.readColor, raw).None? ==> r.err == Some(ImageUnreadable(raw))
  {
    var r := ApplyDiff(im, fs, raw, diff, out);
    if r.err.None? {
      var v := im.write(RainImage(im.transform(ReadImage(fs, im.readColor, raw).value), ReadImage(fs, im.readUnchanged, diff).value));
      assert r.fs == WriteFile(fs, out, v);
      assert r.fs.files == fs.files[out := v];
    }
  }

  /** A missing mask raises FileNotFoundError after the output directories
      are made and before anything is written. */
  lemma AugmentNeedsMask(im: Imaging, fs: FileSystem, orig: Path, imageDir: Path, maskDir: Path,
                         maskSrc: Path, name: Path, rd: Path)
    ensures var r := Augment(im, fs, orig, imageDir, maskDir, maskSrc, name, rd);
      maskSrc !in fs.files <==> r.err == Some(FileNotFound(maskSrc))
    ensures var r := Augment(im, fs, orig, imageDir, maskDir, maskSrc, name, rd);
      maskSrc !in fs.files ==> r.fs.files == fs.files
  {
    var made := MakeDirs(MakeDirs(fs, imageDir), maskDir);
    var copied := CopyFile(made, maskSrc, Join(maskDir, name));
    if maskSrc in fs.files {
      ApplyDiffOutcome(im, copied.fs, orig, rd, Join(imageDir, name));
    }
  }

  /** On success the mask is a byte copy of its source and the rainy image
      the sum of the inputs as they were before the step, when neither
      input is the copied mask's own output and the two outputs differ. */
  lemma AugmentWrites(im: Imaging, fs: FileSystem, orig: Path, imageDir: Path, maskDir: Path,
                      maskSrc: Path, name: Path, rd: Path)
    requires Join(maskDir, name) != Join(imageDir, name)
    requires orig != Join(maskDir, name) && rd != Join(maskDir, name)
    ensures var r := Augment(im, fs, orig, imageDir, maskDir, maskSrc, name, rd);
      r.err.None? ==>
        maskSrc in fs.files && ReadImage(fs, im.readColor, orig).Some? && ReadImage(fs, im.readUnchanged, rd).Some?
        && SameShape(im.transform(ReadImage(fs, im.readColor, orig).value), ReadImage(fs, im.readUnchanged, rd).value)
        && Join(maskDir, name) in r.fs.files && r.fs.files[Join(maskDir, name)] == fs.files[maskSrc]
        && Join(imageDir, name) in r.fs.files
        && r.fs.files[Join(imageDir, name)] ==
             im.write(RainImage(im.transform(ReadImage(fs, im.readColor, orig).value), ReadImage(fs, im.readUnchanged, rd).value))
  {
    var made := MakeDirs(MakeDirs(fs, imageDir), maskDir);
    var copied := CopyFile(made, maskSrc, Join(maskDir, name));
    if copied.err.None? {
      assert ReadImage(copied.fs, im.readColor, orig) == ReadImage(fs, im.readColor, orig);
      assert ReadImage(copied.fs, im.readUnchanged, rd) == ReadImage(fs, im.readUnchanged, rd);
      ApplyDiffOutcome(im, copied.fs, orig, rd, Join(imageDir, name));
    }
  }

  /** Unlike the fog walk, a missing original is not skipped: once the mask
      is copied the step raises. */
  lemma AugmentNeedsOriginal(im: Imaging, fs: FileSystem, orig: Path, imageDir: Path, maskDir: Path,
                             maskSrc: Path, name: Path, rd: Path)
    requires maskSrc in fs.files && maskSrc != Join(maskDir, name)
    requires orig !in fs.files && orig != Join(maskDir, name)
    ensures var r := Augment(im, fs, orig, imageDir, maskDir, maskSrc, name, rd);
      r.err == Some(ImageUnreadable(orig)) && Join(maskDir, name) in r.fs.files
  {
    var made := MakeDirs(MakeDirs(fs, imageDir), maskDir);
    var copied := CopyFile(made, maskSrc, Join(maskDir, name));
    ApplyDiffOutcome(im, copied.fs, orig, rd, Join(imageDir, name));
  }

  /** A mask copied onto itself raises SameFileError once the output
      directories are made; no file is written. */
  lemma AugmentSameFile(im: Imaging, fs: FileSystem, orig: Path, imageDir: Path, maskDir: Path,
                        maskSrc: Path, name: Path, rd: Path)
    requires maskSrc in fs.files && maskSrc == Join(maskDir, name)
    ensures var r := Augment(im, fs, orig, imageDir, maskDir, maskSrc, name, rd);
      r.err == Some(SameFile(maskSrc)) && r.fs.files == fs.files
  {
  }

  /** One step, whether it completes or raises, never removes anything. */
  lemma AugmentGrows(im: Imaging, fs: FileSystem, orig: Path, imageDir: Path, maskDir: Path,
                     maskSrc: Path, name: Path, rd: Path)
    ensures Grows(fs, Augment(im, fs, orig, imageDir, maskDir, maskSrc, name, rd).fs)
  {
    var made := MakeDirs(MakeDirs(fs, imageDir), maskDir);
    var copied := CopyFile(made, maskSrc, Join(maskDir, name));
    if copied.err.None? {
      ApplyDiffOutcome(im, copied.fs, orig, rd, Join(imageDir, name));
    }
  }

  /** When `sub_folders` is an absolute path (a file name that also names
      one of its directories, `Paths.SubFoldersEscape`), both output
      directories and the mask's own path collapse onto it, so the step
      always raises: SameFileError when that path holds a file,
      FileNotFoundError otherwise. */
  lemma RainOfFileAbsoluteSub(cfg: Config, im: Imaging, fs: FileSystem, s: string, level: string, rd: Path)
    requires RainSub(cfg, s, level, rd) != [] && RainSub(cfg, s, level, rd)[0] == '/'
    ensures var p := Join(RainSub(cfg, s, level, rd), RainName(cfg, s, level, rd));
      && MaskSource(cfg, s, level, rd) == p
      && Join(MaskOutDir(cfg, s, level, rd), RainName(cfg, s, level, rd)) == p
      && Join(ImageOutDir(cfg, s, level, rd), RainName(cfg, s, level, rd)) == p
    ensures var p := Join(RainSub(cfg, s, level, rd), RainName(cfg, s, level, rd));
      var r := RainOfFile(cfg, im, fs, s, level, rd);
      && (p in fs.files ==> r.err == Some(SameFile(p)))
      && (p !in fs.files ==> r.err == Some(FileNotFound(p)))
      && r.fs.files == fs.files
  {
    var sub := RainSub(cfg, s, level, rd);
    var name := RainName(cfg, s, level, rd);
    assert MaskSource(cfg, s, level, rd) == Join(sub, name);
    assert MaskOutDir(cfg, s, level, rd) == sub && ImageOutDir(cfg, s, level, rd) == sub;
  }

  /** Index `|p| + |sep| + 4` tells a path under `p/rainy_image` from one
      under `p/rain_mask`. */
  lemma DistinctBranches(p: Path, sub: Path, name: Path)
    requires sub == [] || sub[0] != '/'
    requires name == [] || name[0] != '/'
    ensures Join(Join(Join(p, "rainy_image"), sub), name) != Join(Join(Join(p, "rain_mask"), sub), name)
  {
    var k := |p| + |Separator(p)| + 4;
    JoinRelative(p, "rainy_image");
    JoinRelative(p, "rain_mask");
    var a := Join(p, "rainy_image");
    var b := Join(p, "rain_mask");
    assert a[k] == 'y' && b[k] == '_';
    JoinRelative(a, sub);
    JoinRelative(b, sub);
    var a' := Join(a, sub);
    var b' := Join(b, sub);
    assert a'[k] == 'y' && b'[k] == '_';
    JoinRelative(a', name);
    JoinRelative(b', name);
    assert Join(a', name)[k] == 'y' && Join(b', name)[k] == '_';
  }

  /** The rainy image never overwrites the copied mask of the same step,
      unless the sub folders are an absolute path. */
  lemma RainOutputsDistinct(cfg: Config, s: string, level: string, rd: Path)
    requires RainSub(cfg, s, level, rd) == [] || RainSub(cfg, s, level, rd)[0] != '/'
    ensures Join(MaskOutDir(cfg, s, level, rd), RainName(cfg, s, level, rd))
         != Join(ImageOutDir(cfg, s, level, rd), RainName(cfg, s, level, rd))
  {
    var name := RainName(cfg, s, level, rd);
    assert name == [] || name[0] != '/' by {
      if name != [] {
        assert name[0] in name;
      }
    }
    DistinctBranches(Join(RainDir(cfg, s), level), RainSub(cfg, s, level, rd), name);
  }

  /** When the file name does not reappear among its directories and the
      "<root>/" prefix does not reappear in `rel`, the differential image
      `<root>/<rel>` is paired with `original_dir/<sequence>/<rel>` and the
      mask `rain_diff/<level>/rain_mask/<rel>`, and the outputs are
      `rain/<level>/rainy_image/<rel>` and `rain/<level>/rain_mask/<rel>`. */
  lemma RainPaths(cfg: Config, s: string, level: string, rel: Path)
    requires FileNameOnlyAtEnd(rel)
    requires !Occurs(rel, DiffRoot(cfg, s, level) + "/")
    ensures var rd := DiffRoot(cfg, s, level) + "/" + rel;
      && RainRelative(cfg, s, level, rd) == rel
      && RainSource(cfg, s, level, rd) == Join(Join(cfg.originalDir, s), rel)
      && MaskSource(cfg, s, level, rd) == Join(Join(Join(DiffDir(cfg, s), level), "rain_mask"), rel)
    ensures var rd := DiffRoot(cfg, s, level) + "/" + rel;
      && Join(ImageOutDir(cfg, s, level, rd), RainName(cfg, s, level, rd))
           == Join(Join(Join(RainDir(cfg, s), level), "rainy_image"), rel)
      && Join(MaskOutDir(cfg, s, level, rd), RainName(cfg, s, level, rd))
           == Join(Join(Join(RainDir(cfg, s), level), "rain_mask"), rel)
  {
    RelativeOfChild(DiffRoot(cfg, s, level), rel);
    RebuildUnder(Join(cfg.originalDir, s), rel);
    RebuildUnder(Join(Join(DiffDir(cfg, s), level), "rain_mask"), rel);
    RebuildUnder(Join(Join(RainDir(cfg, s), level), "rainy_image"), rel);
    RebuildUnder(Join(Join(RainDir(cfg, s), level), "rain_mask"), rel);
  }

  // ---------------------------------------------------------------------
  // One sequence and the dispatch
  // ---------------------------------------------------------------------

  /** A sequence without `rain_diff` is skipped exactly when its `rain`
      directory exists, and raises NotADirectoryError otherwise. */
  lemma RainSequenceWithoutDiffs(cfg: Config, im: Imaging, fs: FileSystem, s: string)
    requires !IsDir(fs, DiffDir(cfg, s))
    ensures IsDir(fs, RainDir(cfg, s)) <==> RainOfSequence(cfg, im, fs, s) == Run(fs, None)
    ensures !IsDir(fs, RainDir(cfg, s)) <==> RainOfSequence(cfg, im, fs, s) == Run(fs, Some(NotADirectory(DiffDir(cfg, s))))
  {
  }

  /** The four outcomes of `generate_rain`. */
  lemma RainDispatch(cfg: Config, im: Imaging, fs: FileSystem)
    ensures "*" !in cfg.data ==> RainOf(cfg, im, fs) == Run(fs, Some(KeyError("*")))
    ensures "*" in cfg.data && "rain_diff" in cfg.data["*"] ==> RainOf(cfg, im, fs) == RainFromDiff(cfg, im, fs)
    ensures "*" in cfg.data && "rain_diff" !in cfg.data["*"] && "rain" in cfg.data["*"] ==> RainOf(cfg, im, fs) == Run(fs, None)
    ensures "*" in cfg.data && "rain_diff" !in cfg.data["*"] && "rain" !in cfg.data["*"] ==>
      RainOf(cfg, im, fs) == Run(fs, Some(NotImplemented))
  {
  }

  // ---------------------------------------------------------------------
  // The closing rmtree loop
  // ---------------------------------------------------------------------

  /** Removing a tree keeps every tree that was already gone gone. */
  lemma RemoveTreeKeepsNoTree(fs: FileSystem, d: Path, e: Path)
    requires NoTree(fs, e)
    ensures NoTree(RemoveTree(fs, d), e)
  {
  }

  /** The closing loop only removes. */
  lemma {:induction false} RemoveDiffsShrinks(cfg: Config, fs: FileSystem, seqs: seq<string>)
    ensures var r := RemoveDiffs(cfg, fs, seqs);
      r.files.Keys <= fs.files.Keys && r.dirs <= fs.dirs
    decreases |seqs|
  {
    if seqs != [] {
      RemoveDiffsShrinks(cfg, RemoveTree(fs, DiffDir(cfg, seqs[0])), seqs[1..]);
    }
  }

  /** After the closing loop no `rain_diff` of a sequence is a directory, and
      every one that was a directory is gone with its whole tree. */
  lemma {:induction false} RemoveDiffsEffect(cfg: Config, fs: FileSystem, seqs: seq<string>)
    ensures forall s :: s in seqs ==> !IsDir(RemoveDiffs(cfg, fs, seqs), DiffDir(cfg, s))
    ensures forall s :: s in seqs && IsDir(fs, DiffDir(cfg, s)) ==> NoTree(RemoveDiffs(cfg, fs, seqs), DiffDir(cfg, s))
    decreases |seqs|
  {
    if seqs != [] {
      var d0 := DiffDir(cfg, seqs[0]);
      var next := RemoveTree(fs, d0);
      RemoveDiffsEffect(cfg, next, seqs[1..]);
      RemoveDiffsShrinks(cfg, next, seqs[1..]);
      var r := RemoveDiffs(cfg, fs, seqs);
      assert r == RemoveDiffs(cfg, next, seqs[1..]);
      forall s | s in seqs ensures !IsDir(r, DiffDir(cfg, s)) {
        if s == seqs[0] {
          FirstDiffGone(cfg, fs, seqs[0]);
        } else {
          assert s in seqs[1..];
        }
      }
      forall s | s in seqs && IsDir(fs, DiffDir(cfg, s)) ensures NoTree(r, DiffDir(cfg, s)) {
        var ds := DiffDir(cfg, s);
        if s == seqs[0] {
          RemoveDiffsKeepsNoTree(cfg, next, seqs[1..], ds);
        } else {
          assert s in seqs[1..];
          if !IsDir(next, ds) {
            KindDirPlain(cfg, s, "rain_diff");
            RemoveTreeInside(fs, d0, ds);
            RemoveDiffsKeepsNoTree(cfg, next, seqs[1..], ds);
          }
        }
      }
    }
  }

  /** The first `rain_diff` is no directory once its `rmtree` ran. */
  lemma FirstDiffGone(cfg: Config, fs: FileSystem, s: string)
    ensures !IsDir(RemoveTree(fs, DiffDir(cfg, s)), DiffDir(cfg, s))
  {
    var d0 := DiffDir(cfg, s);
    KindDirPlain(cfg, s, "rain_diff");
    if IsDir(fs, d0) {
      assert Below(d0, d0);
    }
  }

  /** The closing loop keeps every file outside the trees of the `rain_diff`
      entries that were directories, with its bytes; a `rain_diff` that is a
      plain file is left as it is, since `rmtree` fails on it and the error
      is ignored. */
  lemma {:induction false} RemoveDiffsKeeps(cfg: Config, fs: FileSystem, seqs: seq<string>)
    ensures forall q :: q in fs.files && (forall s :: s in seqs && IsDir(fs, DiffDir(cfg, s)) ==> !Below(q, DiffDir(cfg, s))) ==>
      q in RemoveDiffs(cfg, fs, seqs).files && RemoveDiffs(cfg, fs, seqs).files[q] == fs.files[q]
    decreases |seqs|
  {
    if seqs != [] {
      var next := RemoveTree(fs, DiffDir(cfg, seqs[0]));
      RemoveDiffsKeeps(cfg, next, seqs[1..]);
      var r := RemoveDiffs(cfg, fs, seqs);
      assert r == RemoveDiffs(cfg, next, seqs[1..]);
      forall q | q in fs.files && (forall s :: s in seqs && IsDir(fs, DiffDir(cfg, s)) ==> !Below(q, DiffDir(cfg, s)))
        ensures q in r.files && r.files[q] == fs.files[q]
      {
        forall s | s in seqs[1..] && IsDir(next, DiffDir(cfg, s)) ensures !Below(q, DiffDir(cfg, s)) {
          assert s in seqs;
        }
      }
    }
  }

  /** A tree already gone stays gone through the closing loop. */
  lemma {:induction false} RemoveDiffsKeepsNoTree(cfg: Config, fs: FileSystem, seqs: seq<string>, e: Path)
    requires NoTree(fs, e)
    ensures NoTree(RemoveDiffs(cfg, fs, seqs), e)
    decreases |seqs|
  {
    if seqs != [] {
      RemoveTreeKeepsNoTree(fs, DiffDir(cfg, seqs[0]), e);
      RemoveDiffsKeepsNoTree(cfg, RemoveTree(fs, DiffDir(cfg, seqs[0])), seqs[1..], e);
    }
  }

  // ---------------------------------------------------------------------
  // The walk only adds to the disk
  // ---------------------------------------------------------------------

  lemma {:induction false} RainOfFilesGrows(cfg: Config, im: Imaging, fs: FileSystem, s: string, level: string, files: seq<Path>)
    ensures Grows(fs, RainOfFiles(cfg, im, fs, s, level, files).fs)
    decreases |files|
  {
    if files != [] {
      var rd := files[0];
      var r := RainOfFile(cfg, im, fs, s, level, rd);
      AugmentGrows(im, fs, RainSource(cfg, s, level, rd), ImageOutDir(cfg, s, level, rd), MaskOutDir(cfg, s, level, rd),
        MaskSource(cfg, s, level, rd), RainName(cfg, s, level, rd), rd);
      if r.err.None? {
        RainOfFilesGrows(cfg, im, r.fs, s, level, files[1..]);
        assert RainOfFiles(cfg, im, fs, s, level, files) == RainOfFiles(cfg, im, r.fs, s, level, files[1..]);
      } else {
        assert RainOfFiles(cfg, im, fs, s, level, files) == r;
      }
    }
  }

  lemma {:induction false} RainOfLevelsGrows(cfg: Config, im: Imaging, fs: FileSystem, s: string, levels: seq<string>)
    ensures Grows(fs, RainOfLevels(cfg, im, fs, s, levels).fs)
    decreases |levels|
  {
    if levels != [] {
      var r := RainOfLevel(cfg, im, fs, s, levels[0]);
      RainOfFilesGrows(cfg, im, fs, s, levels[0], GlobPng(fs, DiffRoot(cfg, s, levels[0])));
      if r.err.None? {
        RainOfLevelsGrows(cfg, im, r.fs, s, levels[1..]);
        assert RainOfLevels(cfg, im, fs, s, levels) == RainOfLevels(cfg, im, r.fs, s, levels[1..]);
      } else {
        assert RainOfLevels(cfg, im, fs, s, levels) == r;
      }
    }
  }

  /** The walk of `generate_rain_from_diff` never removes a file or a
      directory, whether it completes or raises: only the closing loop
      deletes. */
  lemma {:induction false} RainOfSequencesGrows(cfg: Config, im: Imaging, fs: FileSystem, seqs: seq<string>)
    ensures Grows(fs, RainOfSequences(cfg, im, fs, seqs).fs)
    decreases |seqs|
  {
    if seqs != [] {
      var r := RainOfSequence(cfg, im, fs, seqs[0]);
      if IsDir(fs, DiffDir(cfg, seqs[0])) {
        RainOfLevelsGrows(cfg, im, fs, seqs[0], ListDir(fs, DiffDir(cfg, seqs[0])));
      }
      if r.err.None? {
        RainOfSequencesGrows(cfg, im, r.fs, seqs[1..]);
        assert RainOfSequences(cfg, im, fs, seqs) == RainOfSequences(cfg, im, r.fs, seqs[1..]);
      } else {
        assert RainOfSequences(cfg, im, fs, seqs) == r;
      }
    }
  }

  /** A completed `generate_rain_from_diff` leaves no `rain_diff` directory
      behind, and every one that existed when it started is gone with its
      whole tree. */
  lemma RainFromDiffRemovesDiffs(cfg: Config, im: Imaging, fs: FileSystem)
    ensures var r := RainFromDiff(cfg, im, fs);
      r.err.None? ==> forall s :: s in cfg.sequences ==> !IsDir(r.fs, DiffDir(cfg, s))
    ensures var r := RainFromDiff(cfg, im, fs);
      r.err.None? ==> forall s :: s in cfg.sequences && IsDir(fs, DiffDir(cfg, s)) ==> NoTree(r.fs, DiffDir(cfg, s))
  {
    var w := RainOfSequences(cfg, im, fs, cfg.sequences);
    if w.err.None? {
      RainOfSequencesGrows(cfg, im, fs, cfg.sequences);
      RemoveDiffsEffect(cfg, w.fs, cfg.sequences);
      assert forall s :: s in cfg.sequences && IsDir(fs, DiffDir(cfg, s)) ==> IsDir(w.fs, DiffDir(cfg, s));
    }
  }

  // ---------------------------------------------------------------------
  // Running the walk again
  // ---------------------------------------------------------------------

  /** A kind directory never ends in a separator. */
  lemma KindDirPlain(cfg: Config, s: string, kind: string)
    requires kind != [] && kind[0] != '/' && kind[|kind| - 1] != '/'
    ensures StripSlashes(cfg.KindDir(s, kind)) == cfg.KindDir(s, kind)
  {
    JoinRelative(Join(Join(cfg.DatasetsDir(), cfg.Name()), s), kind);
  }

  /** The closing loop leaves a disk without `rain_diff` directories as it is. */
  lemma {:induction false} RemoveAbsentDiffs(cfg: Config, fs: FileSystem, seqs: seq<string>)
    requires forall s :: s in seqs ==> !IsDir(fs, DiffDir(cfg, s))
    ensures RemoveDiffs(cfg, fs, seqs) == fs
    decreases |seqs|
  {
    if seqs != [] {
      assert RemoveTree(fs, DiffDir(cfg, seqs[0])) == fs;
      forall s | s in seqs[1..] ensures !IsDir(fs, DiffDir(cfg, s)) {
        assert s in seqs;
      }
      RemoveAbsentDiffs(cfg, fs, seqs[1..]);
    }
  }

  /** With no `rain_diff` directory left, a sequence is skipped exactly when
      its `rain` directory exists. */
  lemma {:induction false} RainOfSequencesAgain(cfg: Config, im: Imaging, fs: FileSystem, seqs: seq<string>)
    requires forall s :: s in seqs ==> !IsDir(fs, DiffDir(cfg, s)) && IsDir(fs, RainDir(cfg, s))
    ensures RainOfSequences(cfg, im, fs, seqs) == Run(fs, None)
    decreases |seqs|
  {
    if seqs != [] {
      assert RainOfSequence(cfg, im, fs, seqs[0]) == Run(fs, None);
      forall s | s in seqs[1..] ensures !IsDir(fs, DiffDir(cfg, s)) && IsDir(fs, RainDir(cfg, s)) {
        assert s in seqs;
      }
      RainOfSequencesAgain(cfg, im, fs, seqs[1..]);
    }
  }

  /** Running `generate_rain_from_diff` again once no `rain_diff` directory
      is left and every `rain` directory exists changes nothing. */
  lemma RainFromDiffAgain(cfg: Config, im: Imaging, fs: FileSystem)
    requires forall s :: s in cfg.sequences ==> !IsDir(fs, DiffDir(cfg, s)) && IsDir(fs, RainDir(cfg, s))
    ensures RainFromDiff(cfg, im, fs) == Run(fs, None)
  {
    RainOfSequencesAgain(cfg, im, fs, cfg.sequences);
    RemoveAbsentDiffs(cfg, fs, cfg.sequences);
  }

  /** A completed `generate_rain_from_diff` followed by a second one: the
      second changes nothing when every sequence has its `rain` directory. */
  lemma RainFromDiffTwice(cfg: Config, im: Imaging, fs: FileSystem)
    requires RainFromDiff(cfg, im, fs).err.None?
    requires forall s :: s in cfg.sequences ==> IsDir(RainFromDiff(cfg, im, fs).fs, RainDir(cfg, s))
    ensures var r := RainFromDiff(cfg, im, fs);
      RainFromDiff(cfg, im, r.fs) == Run(r.fs, None)
  {
    RainFromDiffRemovesDiffs(cfg, im, fs);
    RainFromDiffAgain(cfg, im, RainFromDiff(cfg, im, fs).fs);
  }
}
