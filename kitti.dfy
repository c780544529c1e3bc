/** The KITTI subclass of `Dataset`: its sequences, its data table, the
    default for an omitted sequence list, and `transform_original_image`,
    which crops the centre 1216 x 352 of every original image. */
module Kitti {
  import opened Base
  import opened FileSystems
  import opened Configs
  import opened Pixels
  import opened Images
  import opened Fog
  import opened Rain

  /** `Kitti.sequences`. */
  const Sequences: seq<string> := [
    "data_object/training/image_2",
    "raw_data/2011_09_26/2011_09_26_drive_0032_sync/image_02/data",
    "raw_data/2011_09_26/2011_09_26_drive_0056_sync/image_02/data"]

  /** The kinds of every KITTI sequence. */
  const AllKinds: seq<string> := ["depth", "fog_transmittance", "rain"]

  /** `Kitti.data`. */
  const Data: map<string, seq<string>> := map["*" := AllKinds]

  /** `Kitti(original_dir, output_dir, sequences=None)`: an omitted sequence
      list selects all three sequences; the dataset is called "kitti". */
  function KittiConfig(originalDir: Path, outputDir: Path, sequences: Option<seq<string>>): (c: Config)
    ensures c.Name() == "weather_kitti"
    ensures sequences.None? ==> c.sequences == Sequences
    ensures sequences.Some? ==> c.sequences == sequences.value
  {
    Config("kitti", originalDir, outputDir, if sequences.None? then Sequences else sequences.value, Data)
  }

  // ---------------------------------------------------------------------
  // What the table implies
  // ---------------------------------------------------------------------

  /** Every sequence, named in the table or not, has the three kinds. */
  lemma KittiKinds(s: string)
    ensures s in Data || "*" in Data
    ensures Kinds(Data, s) == AllKinds
  {
  }

  lemma {:induction false} KittiLinksBefore(seqs: seq<string>, i: nat)
    requires i <= |seqs|
    ensures AllResolve(seqs, Data)
    ensures LinksBefore(seqs, Data, i) == 3 * i
    decreases i
  {
    assert AllResolve(seqs, Data) by {
      forall k | 0 <= k < |seqs| ensures seqs[k] in Data || "*" in Data {
        KittiKinds(seqs[k]);
      }
    }
    if i > 0 {
      KittiKinds(seqs[0]);
      KittiLinksBefore(seqs[1..], i - 1);
    }
  }

  /** For any sequence list the links are built without error, three per
      sequence: depth, fog transmittance and rain, sequence after sequence. */
  lemma KittiLinks(originalDir: Path, outputDir: Path, sequences: Option<seq<string>>)
    ensures var c := KittiConfig(originalDir, outputDir, sequences);
      var links := Links(c.Name(), c.sequences, c.data);
      && links.Ok?
      && |links.value| == 3 * |c.sequences|
      && forall i, j :: 0 <= i < |c.sequences| && 0 <= j < 3 ==>
           links.value[3 * i + j] == ArchiveUrl("weather_kitti", c.sequences[i], AllKinds[j])
  {
    var c := KittiConfig(originalDir, outputDir, sequences);
    KittiLinksBefore(c.sequences, |c.sequences|);
    LinksCount(c.Name(), c.sequences, c.data);
    forall i, j | 0 <= i < |c.sequences| && 0 <= j < 3
      ensures Links(c.Name(), c.sequences, c.data).value[3 * i + j] == ArchiveUrl("weather_kitti", c.sequences[i], AllKinds[j])
    {
      KittiKinds(c.sequences[i]);
      KittiLinksBefore(c.sequences, i);
      LinkAt(c.Name(), c.sequences, c.data, i, j);
    }
  }

  /** KITTI ships its rain ready-made: `generate_rain` does nothing. */
  lemma KittiRainReady(originalDir: Path, outputDir: Path, sequences: Option<seq<string>>, im: Imaging, fs: FileSystem)
    ensures RainOf(KittiConfig(originalDir, outputDir, sequences), im, fs) == Run(fs, None)
  {
    assert "rain_diff" !in AllKinds by {
      assert AllKinds[0][0] != 'r' && AllKinds[1][0] != 'r' && |AllKinds[2]| != |"rain_diff"|;
    }
    assert "rain" in AllKinds by {
      assert AllKinds[2] == "rain";
    }
  }

  /** No KITTI sequence is skipped by `generate_fog`: a sequence without a
      transmittance directory raises. */
  lemma KittiFogNeedsTransmittance(originalDir: Path, outputDir: Path, sequences: Option<seq<string>>,
                                   im: Imaging, fs: FileSystem, s: string)
    ensures var c := KittiConfig(originalDir, outputDir, sequences);
      !IsDir(fs, TransmittanceDir(c, s)) <==>
        FogOfSequence(c, im, fs, s) == Run(fs, Some(NotADirectory(TransmittanceDir(c, s))))
  {
    var c := KittiConfig(originalDir, outputDir, sequences);
    KittiKinds(s);
    FogNeedsTransmittance(c, im, fs, s);
  }

  // ---------------------------------------------------------------------
  // Python slicing and the centre crop
  // ---------------------------------------------------------------------

  /** A slice bound as Python normalises it for a sequence of length `n`: a
      negative bound counts from the end, and both are clamped to `0..n`. */
  function SliceIndex(n: nat, i: int): (k: nat)
    ensures k <= n
    ensures 0 <= i <= n ==> k == i
    ensures i + n < 0 ==> k == 0
    ensures i < 0 <= i + n ==> k == i + n
    ensures n < i ==> k == n
  {
    if i < 0 then (if i + n < 0 then 0 else i + n) else if i > n then n else i
  }

  /** `s[start:stop]`. */
  function PySlice<T>(s: seq<T>, start: int, stop: int): seq<T>
  {
    var a := SliceIndex(|s|, start);
    var b := SliceIndex(|s|, stop);
    if a < b then s[a..b] else []
  }

  /** Within the bounds a Python slice is the plain subsequence. */
  lemma PySliceWithin<T>(s: seq<T>, start: int, stop: int)
    requires 0 <= start <= stop <= |s|
    ensures PySlice(s, start, stop) == s[start..stop]
  {
  }

  const CropX: int := 1216
  const CropY: int := 352

  /** The `x` of `y, x, _ = img.shape`: the width of the first row. */
  function Width(img: Image): nat
  {
    if img == [] then 0 else |img[0]|
  }

  /** Every row has `w` columns. */
  predicate Rectangular(img: Image, w: nat)
  {
    forall i :: 0 <= i < |img| ==> |img[i]| == w
  }

  /** `startx`, `starty`. */
  function StartX(img: Image): int { Width(img) / 2 - CropX / 2 }
  function StartY(img: Image): int { |img| / 2 - CropY / 2 }

  /** `transform_original_image`: `img[starty:starty + 352, startx:startx + 1216]`. */
  function Crop(img: Image): Image
  {
    var rows := PySlice(img, StartY(img), StartY(img) + CropY);
    seq(|rows|, i requires 0 <= i < |rows| => PySlice(rows[i], StartX(img), StartX(img) + CropX))
  }

  /** An image at least 1216 wide and 352 high is cut to exactly 352 rows of
      1216 pixels, taken from the middle: the margins left and right (and
      above and below) differ by at most one pixel. */
  lemma CropCentre(img: Image)
    requires Rectangular(img, Width(img)) && Width(img) >= CropX && |img| >= CropY
    ensures var sx, sy := StartX(img), StartY(img);
      && 0 <= sx && sx + CropX <= Width(img) && 0 <= (Width(img) - (sx + CropX)) - sx <= 1
      && 0 <= sy && sy + CropY <= |img| && 0 <= (|img| - (sy + CropY)) - sy <= 1
    ensures var r := Crop(img);
      && |r| == CropY
      && (forall i :: 0 <= i < CropY ==> |r[i]| == CropX)
      && (forall i, j :: 0 <= i < CropY && 0 <= j < CropX ==> r[i][j] == img[StartY(img) + i][StartX(img) + j])
  {
    var sx, sy := StartX(img), StartY(img);
    var rows := PySlice(img, sy, sy + CropY);
    PySliceWithin(img, sy, sy + CropY);
    assert |rows| == CropY;
    var r := Crop(img);
    forall i | 0 <= i < CropY ensures |r[i]| == CropX && forall j :: 0 <= j < CropX ==> r[i][j] == img[sy + i][sx + j] {
      assert rows[i] == img[sy + i];
      PySliceWithin(rows[i], sx, sx + CropX);
    }
  }

  /** An image shorter than the crop is not centred: its negative start
      counts from the end, so the rows kept start at `|img| + |img|/2 - 176`
      when that is not negative (with 300 rows, only the last 26 remain) and
      at 0 otherwise (117 rows or fewer). */
  lemma CropOfShortImage(img: Image)
    requires |img| < CropY
    ensures var a := if |img| + |img| / 2 < CropY / 2 then 0 else |img| + |img| / 2 - CropY / 2;
      && |Crop(img)| == |img| - a
      && forall i :: 0 <= i < |Crop(img)| ==> Crop(img)[i] == PySlice(img[a + i], StartX(img), StartX(img) + CropX)
  {
    var n := |img|;
    assert StartY(img) < 0;
    assert SliceIndex(n, StartY(img) + CropY) == n;
  }
}
