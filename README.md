# Weather augmentation datasets, modelled in Dafny

This project models the dataset back end of a weather augmentation tool, of
which KITTI and Cityscapes are the two concrete datasets. The tool:

- downloads pre-computed fog, rain and depth archives;
- verifies them against a published checksum manifest and unpacks them;
- renders foggy images by blending every original image with a
  transmittance map;
- renders rainy images by adding a differential image to every original,
  copying the rain masks beside them, and deleting the differential trees
  afterwards.

## How the model is built

The local disk is a value. `FileSystems.FileSystem` holds the regular files
with their bytes and a set of directories. The `os`, `shutil` and `glob`
calls of the code are functions on it: `makedirs`, `copyfile`, `remove`,
`rmtree(ignore_errors=True)`, `listdir`, the recursive `**/*.png` glob,
`isdir` and `isfile`.

A Python exception becomes a `Base.Error` value. A walk that raises returns
`Run(fs, Some(e))`, keeping whatever it had already written.

The things outside the code are parameters:

- the network (a map from URL to bytes);
- SHA-256 (a function from bytes to a hex digest);
- the zip reader (bytes to a member list);
- OpenCV's colour and unchanged decoders and its encoder
  (`Images.Imaging`);
- the dataset's `transform_original_image`.

The per-pixel arithmetic is written out in full:

- the fog blend `clean * T + 200 * (1 - T)`, cast to uint8;
- the uint16/int16/int32/uint8 cast chain of `_apply_diff`.

The source's loops become methods (`for`/`while` with invariants). Each
method is proved equal to a recursive specification function that stops at
the first exception. The properties are lemmas about those functions:

- what one step writes;
- which errors it can raise;
- that the fog walk never deletes anything;
- that the rain walk leaves no differential tree;
- that a second rain run changes nothing;
- the order and count of the archive links;
- the round trip of the checksum manifest.

The `Dataset` object is `Acquisition.Dataset`. Its configuration and link
list are fixed at construction, and `checksums` is the one field the code
assigns later. The generation walks only read fields that never change, so
they are module-level methods over the `Configs.Config` value.

The model follows the code in the following places, where the result is
surprising:

- **The rainy image wraps.** The sum in `_apply_diff` wraps modulo 256
  (`astype(np.uint8)`). It is not clamped.
- **A fresh download is not hashed.** `download_and_extract` hashes only a
  staging copy that was already on disk.
- **`sub_folders` removes every occurrence of the file name.**
  `rel.replace(filename, "")` removes the name wherever it appears. When the
  name also names a directory, this gives an absolute path: see
  `Paths.SubFoldersWhenNameRepeats` and, in general, `Paths.SubFoldersEscape`.
  In the rain walk the mask is then copied onto itself and the step raises
  SameFileError: `Rain.RainOfFileAbsoluteSub`. The path lemmas state the
  relationship under the condition that the name appears only at the end.
- **A second rain run can raise.** The `rain` directory of a sequence is
  made only while a png of one of its levels is processed. When no level of
  the sequence held a png, the first run removes `rain_diff` and leaves no
  `rain`, so a later `generate_rain_from_diff` raises NotADirectoryError for
  that sequence. `Rain.RainFromDiffAgain` and `Rain.RainFromDiffTwice`
  therefore require the `rain` directories to exist.
- **`rmtree(ignore_errors=True)` removes only a directory.** A `rain_diff`
  that is a plain file is left in place.
- **The glob also returns directories.** A directory whose name ends in
  ".png" is globbed like a file, and reading it as an image fails.
- **A short KITTI image is not centred.** An image shorter than 352 rows
  gets a negative slice start, which Python counts from the end:
  `Kitti.CropOfShortImage`.

## Model

| member | source | states |
|---|---|---|
| Configs.KindsOf | dataset.py:36 | a sequence gets its own entry of the table when it has one, else the wildcard's; KeyError("*") exactly when it has neither |
| Configs.Slug | dataset.py:37 | same length, no '/' left, every '/' replaced by '_' and every other character kept |
| Configs.SequenceUrls | dataset.py:39-40 | one URL per kind of the sequence, in the order of the kinds |
| Configs.ArchiveUrlBasename | dataset.py:104 | the last '/'-segment of a link built at line 40 is the archive's own file name, so the manifest is looked up by that name |
| Configs.LinksOk | dataset.py:34-40 | the link list is built exactly when every sequence resolves in the table; otherwise the error is KeyError("*") |
| Configs.LinksCount | dataset.py:34-40 | the list has one link per (sequence, kind) pair |
| Configs.LinkAt | dataset.py:34-40 | the link of kind j of sequence i sits just after the links of the sequences before i: ordered by sequence, then by kind |
| Configs.BuildLinks | dataset.py:34-40 | the nested append loop yields exactly the link list `Links` (characterised by the three lemmas above), or the KeyError |
| Configs.PreFlight | dataset.py:42-47 | no error exactly when there are no sequences, or the original directory and every original/sequence directory exist; otherwise NotADirectory of the original directory if it is missing, else of the first missing sequence directory |
| Paths.Join | dataset.py:153 | `os.path.join`: an absolute second part replaces the first; otherwise exactly one separator is inserted |
| Paths.SubFoldersIsDirPart | dataset.py:149-151 | when the file name does not reappear in the directories, `sub_folders` is the directory part, and `sub_folders + filename` rebuilds the relative path |
| Paths.RebuildUnder | dataset.py:153 | `join(x, sub_folders, filename)` equals `join(x, rel)` under that condition |
| Paths.SubFoldersWhenNameRepeats | dataset.py:151 | for `a.png/a.png` the code's `sub_folders` is "/", and the rebuilt original path escapes to "/a.png" |
| Paths.SubFoldersEscape | dataset.py:150-153 | whenever the relative path starts with a directory named like its file, `sub_folders` starts with a separator, and `join(root, sub_folders, filename)` drops the root |
| Paths.RelativeOfChild | dataset.py:149 | stripping "root/" from `root/rel` gives `rel` back when the prefix does not reappear in `rel` |
| FileSystems.MakeDirs | dataset.py:162 | files unchanged, no directory lost, and the directory then exists |
| FileSystems.CopyFile | dataset.py:218-219 | succeeds exactly when the source is a file other than the destination; the destination then holds the source's bytes and nothing else changes; otherwise FileNotFound of a missing source or SameFile of a source copied onto itself, and no change |
| FileSystems.RemoveFile | dataset.py:124 | succeeds exactly when the file exists and then removes only it; otherwise no change |
| FileSystems.RemoveTree | dataset.py:225 | on a directory nothing of its tree remains; anything that is not a directory (a plain file, a missing path) leaves the disk unchanged; every file and directory outside the tree is kept with its bytes, and nothing is added |
| FileSystems.BelowTrans | dataset.py:225 | a path below a directory is below every directory that one is below |
| FileSystems.RemoveTreeInside | dataset.py:225 | a directory that `rmtree` of another took away was inside it, so its own tree is gone too |
| FileSystems.ListDir | dataset.py:141 | lists exactly the names directly inside the directory |
| FileSystems.GlobPng | dataset.py:147 | lists exactly the files and directories below the root whose name ends in ".png" and whose path below the root has no hidden component |
| Checksums.ParseChecksums | dataset.py:88-92 | the line loop yields the dictionary `Manifest` describes, with the entries of the lines read so far when a line raises |
| Checksums.ParseErrors | dataset.py:90-91 | parsing fails exactly when some line does not split into two tokens, and the ValueError names the first such line |
| Checksums.ParseKeys | dataset.py:90-92 | over well-formed lines a name is a key exactly when it was one before or some line names it |
| Checksums.ParseUntouched | dataset.py:92 | a name no line mentions keeps its digest |
| Checksums.ParseLast | dataset.py:92 | a name maps to the digest of the last line that names it |
| Checksums.RenderLines | dataset.py:89-91 | a manifest written as "digest name" lines reads back as one well-formed line per entry with that digest and name |
| Checksums.ManifestRoundTripKeys | dataset.py:88-92 | a written manifest parses without error and its keys are exactly the listed names |
| Checksums.ManifestRoundTripDigest | dataset.py:88-92 | each listed name maps to the digest of its last listing |
| Checksums.ReadSize | dataset.py:73 | `f.read(n)` returns all remaining bytes for negative n, none for 0, at most n otherwise |
| Checksums.Sha256Sum | dataset.py:67-78 | FileNotFound exactly when the file is missing; otherwise the digest is that of the bytes fed, the progress is their count, and the blocks are non-empty, at most `blocksize` long, and join up to the file (nothing is fed for block size 0) |
| Acquisition.Retrieve | dataset.py:62-65 | succeeds exactly when the URL is served and then stores its bytes at the destination; otherwise disk unchanged |
| Acquisition.ExtractMemberEffect | dataset.py:54 | a member only adds: a directory entry leaves the files alone, a file entry stores its bytes at its target and changes no other file |
| Acquisition.UnpackCases | dataset.py:51-54 | a missing archive raises FileNotFound and an unreadable one BadZipFile, both with the disk unchanged; otherwise every member is extracted |
| Acquisition.ExtractArchive | dataset.py:51-54 | the member loop yields exactly `Unpack` |
| Acquisition.ExtractMembersGrows | dataset.py:52-54 | extraction loses no file or directory and changes no file that is not a member's target |
| Acquisition.ExtractPlaces | dataset.py:52-54 | a file member that no later member overwrites is on disk with its own bytes |
| Acquisition.FinishFacts | dataset.py:121-124 | extraction is attempted once with nothing fetched or hashed; the archive is removed exactly under `auto_remove` after a successful extraction; no directory is lost |
| Acquisition.ObtainTrace | dataset.py:118-124 | the archive is fetched exactly when needed, at most once, and extracted unless a needed download failed |
| Acquisition.ObtainState | dataset.py:118-124 | a success keeps the staging copy exactly when not `auto_remove`; no directory is lost, and no file either without `auto_remove` |
| Acquisition.StepIsObtain | dataset.py:107-119 | once `checksums` is set, a step hashes a present staging copy and then decides the download by `DownloadNeeded` |
| Acquisition.ArchiveFetches | dataset.py:103-119 | the archive is fetched exactly when no valid staging copy exists, at most once; the copy is hashed first exactly when it exists, and never again |
| Acquisition.ArchiveExtracts | dataset.py:118-121 | the staging copy is extracted whenever no needed download failed |
| Acquisition.ArchiveSucceeds | dataset.py:118-124 | a successful step extracted its archive and kept the staging copy exactly when not `auto_remove` |
| Acquisition.StepKeeps | dataset.py:103-124 | no step removes a directory; without `auto_remove` none removes a file |
| Acquisition.ArchivesInOrder | dataset.py:94-96 | a completed loop extracted the archives once each, in link order |
| Acquisition.ArchivesFetchOnce | dataset.py:94-96 | the loop fetches at most one archive per link |
| Acquisition.ArchivesLoopKeeps | dataset.py:94-96 | the loop removes no directory, and no file without `auto_remove` |
| Acquisition.RemoveDirectory | dataset.py:101 | `rmdir` drops only that directory |
| Acquisition.CleanupFacts | dataset.py:98-101 | the cleanup succeeds exactly when the manifest is present, then leaves no manifest, and keeps the staging directory exactly when something is left in it |
| Acquisition.AcquireAllOutcome | dataset.py:80-101 | after a success the manifest was fetched first, every archive was extracted in link order, the manifest remains exactly when not `auto_remove`, without `auto_remove` the staging directory remains, and with it the directory goes exactly when empty |
| Acquisition.FinishArchive | dataset.py:121-124 | the extract-then-remove tail yields exactly `Finish` |
| Acquisition.ObtainArchive | dataset.py:118-124 | the optional download followed by the tail yields exactly `Obtain` |
| Acquisition.RemoveStaging | dataset.py:98-101 | the `auto_remove` tail yields exactly `Cleanup` |
| Acquisition.Dataset.constructor | dataset.py:23-32 | the object holds the configuration and links, and `checksums` is unset |
| Acquisition.Dataset.Create | dataset.py:23-47 | an object is made exactly when the links build and the pre-flight passes; otherwise the link error, or NotADirectory of the original directory when it is missing, else of the first missing sequence directory |
| Acquisition.Dataset.DownloadAndExtract | dataset.py:103-124 | yields exactly `ArchiveStep` for the current `checksums`, including AttributeError when a staging copy exists and no manifest was read |
| Acquisition.Dataset.DownloadLinks | dataset.py:94-96 | the loop over `links` yields exactly `ArchivesLoop` |
| Acquisition.Dataset.DownloadAndExtractAll | dataset.py:80-101 | yields exactly `AcquireAll` and sets `checksums` to the dictionary read, even when a manifest line raises |
| Pixels.FogChannel | dataset.py:164-171 | the result is the floor of the exact blend `c * t/255 + 200 * (1 - t/255)`, and lies between c and 200 |
| Pixels.FogClear | dataset.py:168-170 | full transmittance leaves the clean value |
| Pixels.FogOpaque | dataset.py:169-171 | zero transmittance gives the airlight 200 |
| Pixels.RainChannel | dataset.py:235-239 | the cast chain equals `(clean + diff - 255) mod 256` |
| Pixels.RainNeutral | dataset.py:237 | a diff of 255 reproduces the clean value |
| Pixels.RainWraps | dataset.py:237-239 | the sum is exact when it stays in range and wraps to the top of the range (+256) when it goes below zero, never clamped |
| Pixels.FogImage | dataset.py:164-171 | same shape as the clean image; every channel is `FogChannel` of the two inputs |
| Pixels.RainImage | dataset.py:235-239 | same shape as the clean image; every channel is `RainChannel` of the two inputs |
| Pixels.FogImageClear | dataset.py:164-171 | a map that is 255 everywhere leaves the image unchanged |
| Pixels.FogImageOpaque | dataset.py:164-171 | a map that is 0 everywhere gives uniform airlight |
| Pixels.RainImageNeutral | dataset.py:235-239 | a diff that is 255 everywhere reproduces the clean image |
| Fog.GenerateFogFiles | dataset.py:148-173 | the loop over the globbed maps of one `vmax` yields exactly `FogOfFiles` |
| Fog.GenerateFogLevels | dataset.py:145-147 | the loop over the `vmax` entries, globbing each, yields exactly `FogOfLevels` |
| Fog.GenerateFogSequence | dataset.py:130-141 | the body for one sequence yields exactly `FogOfSequence` |
| Fog.GenerateFog | dataset.py:129-173 | `generate_fog` yields exactly `FogOfSequences` over the configured sequences |
| Fog.FogSkipsSequence | dataset.py:131-134 | a sequence without "fog_transmittance" leaves the disk untouched without error |
| Fog.FogNeedsTransmittance | dataset.py:136-139 | for a sequence with fog data, NotADirectory of its transmittance directory with nothing written exactly when that directory is missing |
| Fog.FogOfLevelsQuiet | dataset.py:145-173 | the walk over the levels never raises NotADirectory |
| Fog.FogOfFilesQuiet | dataset.py:148-173 | the walk over the maps never raises NotADirectory |
| Fog.FogSkipsMissingOriginal | dataset.py:153-156 | a map whose original is missing is skipped and the walk continues on the same disk |
| Fog.BlendWrites | dataset.py:158-173 | when both images decode to one shape, the blend of the transformed original and the map is written at the target and no other file changes |
| Fog.BlendErrors | dataset.py:158-171 | a present original raises exactly when it or the map is unreadable or their shapes differ; an unreadable original raises before any directory is made; only ImageUnreadable or ShapeMismatch are raised |
| Fog.BlendGrows | dataset.py:153-173 | one map never removes a file or directory |
| Fog.FogPaths | dataset.py:149-173 | for a map at `<root>/<rel>` whose name appears only at its end, the relative path is `rel`, the original is `original_dir/<sequence>/<rel>`, and the output is `fog/<vmax>/<rel>` |
| Fog.FogOfFilesGrows | dataset.py:148-173 | the walk over the maps only adds |
| Fog.FogOfLevelsGrows | dataset.py:145-173 | the walk over the levels only adds |
| Fog.FogOfSequencesGrows | dataset.py:129-173 | `generate_fog` never removes a file or directory, whether it completes or raises |
| Rain.GenerateRainFiles | dataset.py:203-220 | the loop over the globbed differential images of one level yields exactly `RainOfFiles` |
| Rain.GenerateRainLevels | dataset.py:200-202 | the loop over the levels, globbing each, yields exactly `RainOfLevels` |
| Rain.GenerateRainSequence | dataset.py:186-196 | the body for one sequence yields exactly `RainOfSequence` |
| Rain.RemoveDiffTrees | dataset.py:222-225 | the closing loop yields exactly `RemoveDiffs` |
| Rain.GenerateRainFromDiff | dataset.py:184-225 | `generate_rain_from_diff` yields exactly `RainFromDiff` |
| Rain.GenerateRain | dataset.py:175-182 | `generate_rain` yields exactly `RainOf` |
| Rain.ApplyDiffOutcome | dataset.py:228-239 | succeeds exactly when both inputs decode to one shape, then writes the rainy image of the transformed original and the diff at the output and changes nothing else; an error leaves the disk unchanged and names the input at fault |
| Rain.AugmentNeedsMask | dataset.py:214-219 | a missing mask raises FileNotFound of the mask exactly then, with no file written |
| Rain.AugmentWrites | dataset.py:214-220 | on success the mask was present and is copied byte for byte, and the rainy image is that of the inputs as they were before the step |
| Rain.AugmentNeedsOriginal | dataset.py:218-220 | a missing original is not skipped: the step raises ImageUnreadable after the mask was copied |
| Rain.AugmentSameFile | dataset.py:218-219 | a mask whose copy would land on itself raises SameFile and writes no file |
| Rain.AugmentGrows | dataset.py:214-220 | one step never removes a file or directory |
| Rain.RainOfFileAbsoluteSub | dataset.py:204-220 | with an absolute `sub_folders` both outputs and the mask source are the same path, so the step always raises: SameFile when it holds a file, FileNotFound otherwise, with no file written |
| Rain.DistinctBranches | dataset.py:209-210 | a path under `rainy_image` differs from the same path under `rain_mask` |
| Rain.RainOutputsDistinct | dataset.py:209-220 | the rainy image never overwrites the mask copied in the same step when the sub-folders are relative |
| Rain.RainPaths | dataset.py:204-220 | for a diff at `<root>/<rel>` whose name appears only at its end, the original is `original_dir/<sequence>/<rel>`, the mask comes from `rain_diff/<level>/rain_mask/<rel>`, and the outputs are `rain/<level>/rainy_image/<rel>` and `rain/<level>/rain_mask/<rel>` |
| Rain.RainSequenceWithoutDiffs | dataset.py:188-194 | without `rain_diff` a sequence is skipped exactly when its `rain` directory exists, and raises NotADirectory otherwise |
| Rain.RainDispatch | dataset.py:175-182 | no wildcard raises KeyError("*"); "rain_diff" runs the walk; else "rain" does nothing; else NotImplemented |
| Rain.RemoveDiffsShrinks | dataset.py:222-225 | the closing loop adds no file or directory |
| Rain.RemoveDiffsEffect | dataset.py:222-225 | after the closing loop no `rain_diff` is a directory, and every one that was a directory is gone with its whole tree |
| Rain.RemoveDiffsKeeps | dataset.py:222-225 | every file outside the trees of the `rain_diff` entries that were directories, a plain-file `rain_diff` included, is kept with its bytes |
| Rain.RemoveDiffsKeepsNoTree | dataset.py:222-225 | a tree already gone stays gone |
| Rain.RainOfFilesGrows | dataset.py:203-220 | the walk over the differential images of a level only adds |
| Rain.RainOfLevelsGrows | dataset.py:200-220 | the walk over the levels only adds |
| Rain.RainOfSequencesGrows | dataset.py:185-220 | the walk before the closing loop never removes a file or directory, whether it completes or raises |
| Rain.RainFromDiffRemovesDiffs | dataset.py:184-225 | a completed run leaves no `rain_diff` directory of any sequence, and every one present at the start is gone with its tree |
| Rain.RemoveAbsentDiffs | dataset.py:222-225 | the closing loop leaves a disk without `rain_diff` directories unchanged |
| Rain.RainOfSequencesAgain | dataset.py:185-194 | with no `rain_diff` directory and every `rain` directory present, the walk changes nothing |
| Rain.RainFromDiffAgain | dataset.py:184-225 | under those conditions a second `generate_rain_from_diff` completes without changing the disk |
| Rain.RainFromDiffTwice | dataset.py:184-225 | after a completed run that left every `rain` directory, a second run completes without changing the disk |
| Kitti.KittiConfig | kitti.py:18-22 | the name is "weather_kitti"; an omitted sequence list selects the three class sequences, a given one is kept |
| Kitti.KittiKinds | kitti.py:16 | every sequence, listed or not, has depth, fog transmittance and rain |
| Kitti.KittiLinks | kitti.py:15-22 | for any sequence list the links build, three per sequence, in the order depth, fog transmittance, rain |
| Kitti.KittiRainReady | kitti.py:16 | `generate_rain` does nothing for KITTI |
| Kitti.KittiFogNeedsTransmittance | kitti.py:16 | no KITTI sequence is skipped by `generate_fog`: a missing transmittance directory raises exactly then |
| Kitti.SliceIndex | kitti.py:30 | Python's slice bound normalisation: in range kept, negative counted from the end, clamped to the length |
| Kitti.PySliceWithin | kitti.py:30 | within bounds a Python slice is the plain subsequence |
| Kitti.CropCentre | kitti.py:24-30 | an image at least 1216 x 352 is cut to exactly 352 rows of 1216 pixels taken from the middle (margins differ by at most one), pixel (i, j) being the original's (starty + i, startx + j) |
| Kitti.CropOfShortImage | kitti.py:27-30 | an image shorter than 352 rows keeps the rows from `rows + rows/2 - 176` on (all of them up to 117 rows), each cut horizontally like any other: not the middle |
| Cityscapes.CityscapesConfig | cityscapes.py:19-23 | the name is "weather_cityscapes"; an omitted sequence list selects both splits, a given one is kept |
| Cityscapes.CityscapesKinds | cityscapes.py:17 | the training split takes the wildcard's three kinds, the validation split only rain differences |
| Cityscapes.CityscapesDefaultLinks | cityscapes.py:16-23 | the default configuration downloads exactly four archives: training depth, fog transmittance, rain differences, then validation rain differences |
| Cityscapes.CityscapesArchiveNames | cityscapes.py:16 | the archives are named `weather_cityscapes_leftImg8bit_train_<kind>.zip` and `..._val_<kind>.zip` |
| Cityscapes.CityscapesValHasNoFog | cityscapes.py:17 | `generate_fog` leaves the validation split untouched |
| Cityscapes.CityscapesRainFromDiff | cityscapes.py:17 | `generate_rain` always renders Cityscapes rain from the differences |

## Left out

- Pixels.FogChannel: the blend is computed exactly and then floored. numpy computes it in float64, whose rounding can differ by one where the exact value is an integer or within one rounding step of one.
- Images.Imaging: OpenCV's decoders, its encoder and the Cityscapes `cv2.resize` are parameters. Their pixel results are not modelled, and neither is an `imwrite` that fails (it returns False rather than raising). The resize call passes `cv2.INTER_CUBIC` in the position of the `dst` argument, so the default interpolation applies; the model does not depend on which one.
- `transform_original_image` of the base class raises NotImplementedError. The model always takes the subclass's transform as a parameter, because the base class is never used on its own.
- Rain.ApplyDiff, Fog.Blend: any two images of different shapes raise ShapeMismatch. numpy would broadcast some shape pairs instead, for example a map with a trailing channel dimension of 1.
- Exceptions are abstracted. The TypeError or AttributeError that a `None` image causes becomes ImageUnreadable of the file. Failures of the operating system, for example permissions or a full disk, are not modelled.
- `os.listdir` and `glob` fix no order. The model lists in ascending order.
- Writing a file does not require its parent directory to exist. The code always creates it first with `makedirs`.
- The disk has no well-formedness invariant: the parent directories of a file or directory need not be in the directory set. "Empty" and "listed" (`FileSystems.ListDir`, `Acquisition.CleanupFacts`, `Acquisition.AcquireAllOutcome`) are relative to the entries the model holds.
- FileSystems.CopyFile: a file and a directory may share a path in the model. `copyfile` from or onto a directory raises IsADirectoryError in Python; the model reports FileNotFound for a directory source and writes the file for a directory destination. SameFileError is raised only for equal path strings, not for two spellings or links of one file.
- Acquisition.Retrieve: the network is a map from URL to bytes. The partial file a failed transfer can leave is not modelled. `HTTP_PATH` is modelled as a constant.
- Acquisition.ExtractMember: the zip reader is a parameter. The sanitisation `ZipFile.extract` applies to absolute or ".." member names is not modelled; a member lands at `join(dir, name)`.
- Checksums.ToText: the manifest is decoded one character per byte rather than with the locale's text encoding.
- Checksums.Sha256Sum: SHA-256 itself is a parameter. The `os.stat` size shown by the progress bar is not modelled.
- Progress bars (`tqdm`, the `DownloadProgressBar` class) and every `print` are left out as display only.
- The command-line front ends (`weather_download-generate.py`, `weather_generate.py`, `options.py`) are not part of this model.
