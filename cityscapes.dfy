/** The Cityscapes subclass of `Dataset`: its sequences, its data table
    (the validation split has rain differences only), and the default for an
    omitted sequence list. Its `transform_original_image` is OpenCV's resize
    to 1024 x 512, which the model takes as the `transform` of `Imaging`. */
module Cityscapes {
  import opened Base
  import opened FileSystems
  import opened Configs
  import opened Images
  import opened Fog
  import opened Rain

  const Train: string := "leftImg8bit/train"
  const Val: string := "leftImg8bit/val"

  /** `Cityscapes.sequences`. */
  const Sequences: seq<string> := [Train, Val]

  /** The kinds of a sequence the table does not name. */
  const DefaultKinds: seq<string> := ["depth", "fog_transmittance", "rain_diff"]

  /** `Cityscapes.data`. */
  const Data: map<string, seq<string>> := map["*" := DefaultKinds, Val := ["rain_diff"]]

  /** `Cityscapes(original_dir, output_dir, sequences=None)`: an omitted
      sequence list selects both splits; the dataset is called "cityscapes". */
  function CityscapesConfig(originalDir: Path, outputDir: Path, sequences: Option<seq<string>>): (c: Config)
    ensures c.Name() == "weather_cityscapes"
    ensures sequences.None? ==> c.sequences == Sequences
    ensures sequences.Some? ==> c.sequences == sequences.value
  {
    Config("cityscapes", originalDir, outputDir, if sequences.None? then Sequences else sequences.value, Data)
  }

  /** The two splits are different table keys. */
  lemma SplitsDiffer()
    ensures Train != Val
  {
    assert Train[12] != Val[12];
  }

  /** The training split takes the wildcard's three kinds, the validation
      split its own single kind. */
  lemma CityscapesKinds()
    ensures Train !in Data && Val in Data
    ensures Kinds(Data, Train) == DefaultKinds
    ensures Kinds(Data, Val) == ["rain_diff"]
  {
    SplitsDiffer();
    assert Train != "*" by {
      assert |Train| != |"*"|;
    }
  }

  /** The default configuration downloads exactly four archives, in this
      order: depth, fog transmittance and rain differences of the training
      split, then the rain differences of the validation split. */
  lemma CityscapesDefaultLinks(originalDir: Path, outputDir: Path)
    ensures var c := CityscapesConfig(originalDir, outputDir, None);
      Links(c.Name(), c.sequences, c.data) == Ok([
        ArchiveUrl("weather_cityscapes", Train, "depth"),
        ArchiveUrl("weather_cityscapes", Train, "fog_transmittance"),
        ArchiveUrl("weather_cityscapes", Train, "rain_diff"),
        ArchiveUrl("weather_cityscapes", Val, "rain_diff")])
  {
    var n := "weather_cityscapes";
    CityscapesKinds();
    assert Sequences[1..] == [Val];
    assert [Val][1..] == [];
    var trainUrls := SequenceUrls(n, Train, DefaultKinds);
    var valUrls := SequenceUrls(n, Val, ["rain_diff"]);
    assert trainUrls == [ArchiveUrl(n, Train, "depth"), ArchiveUrl(n, Train, "fog_transmittance"), ArchiveUrl(n, Train, "rain_diff")];
    assert valUrls == [ArchiveUrl(n, Val, "rain_diff")];
    assert KindsOf(Data, Train) == Ok(DefaultKinds);
    assert KindsOf(Data, Val) == Ok(["rain_diff"]);
    assert Links(n, [], Data) == Ok([]);
    assert valUrls + [] == valUrls;
    assert Links(n, [Val], Data) == Ok(valUrls);
    assert Sequences[0] == Train;
    assert Links(n, Sequences, Data) == Ok(trainUrls + valUrls);
    assert trainUrls + valUrls == [ArchiveUrl(n, Train, "depth"), ArchiveUrl(n, Train, "fog_transmittance"),
                                   ArchiveUrl(n, Train, "rain_diff"), ArchiveUrl(n, Val, "rain_diff")];
    var c := CityscapesConfig(originalDir, outputDir, None);
    assert c.Name() == n && c.sequences == Sequences && c.data == Data;
  }

  /** The file names of the archives of the two splits: the dataset name,
      the split with its separator replaced, and the kind. */
  lemma CityscapesArchiveNames(kind: string)
    ensures ArchiveName("weather_cityscapes", Train, kind) == "weather_cityscapes_leftImg8bit_train_" + kind + ".zip"
    ensures ArchiveName("weather_cityscapes", Val, kind) == "weather_cityscapes_leftImg8bit_val_" + kind + ".zip"
  {
    SlugOfTrain();
    SlugOfVal();
    assert "weather_cityscapes" + "_" + "leftImg8bit_train" + "_" == "weather_cityscapes_leftImg8bit_train_";
    assert "weather_cityscapes" + "_" + "leftImg8bit_val" + "_" == "weather_cityscapes_leftImg8bit_val_";
  }

  lemma SlugOfTrain()
    ensures Slug(Train) == "leftImg8bit_train"
  {
    var slug := "leftImg8bit_train";
    assert Train[..11] == slug[..11] == "leftImg8bit";
    assert Train[12..] == slug[12..] == "train";
    SlugOfSplit(Train, slug);
  }

  lemma SlugOfVal()
    ensures Slug(Val) == "leftImg8bit_val"
  {
    var slug := "leftImg8bit_val";
    assert Val[..11] == slug[..11] == "leftImg8bit";
    assert Val[12..] == slug[12..] == "val";
    SlugOfSplit(Val, slug);
  }

  /** A split name is "leftImg8bit/" followed by a name without separators. */
  lemma SlugOfSplit(split: string, slug: string)
    requires |split| == |slug| > 12 && split[..11] == slug[..11] == "leftImg8bit"
    requires split[11] == '/' && slug[11] == '_'
    requires split[12..] == slug[12..] && '/' !in split[12..]
    ensures Slug(split) == slug
  {
    var r := Slug(split);
    forall i | 0 <= i < |split| ensures r[i] == slug[i] {
      if i < 11 {
        assert split[i] == split[..11][i] == "leftImg8bit"[i];
        assert slug[i] == slug[..11][i];
      } else if i > 11 {
        assert split[i] == split[12..][i - 12];
        assert slug[i] == slug[12..][i - 12];
      }
    }
  }

  /** `generate_fog` leaves the validation split alone. */
  lemma CityscapesValHasNoFog(originalDir: Path, outputDir: Path, sequences: Option<seq<string>>,
                              im: Imaging, fs: FileSystem)
    ensures FogOfSequence(CityscapesConfig(originalDir, outputDir, sequences), im, fs, Val) == Run(fs, None)
  {
    CityscapesKinds();
    assert "fog_transmittance" !in Kinds(Data, Val);
    FogSkipsSequence(CityscapesConfig(originalDir, outputDir, sequences), im, fs, Val);
  }

  /** `generate_rain` always renders Cityscapes rain from the differences. */
  lemma CityscapesRainFromDiff(originalDir: Path, outputDir: Path, sequences: Option<seq<string>>,
                               im: Imaging, fs: FileSystem)
    ensures var c := CityscapesConfig(originalDir, outputDir, sequences);
      RainOf(c, im, fs) == RainFromDiff(c, im, fs)
  {
    assert "rain_diff" in DefaultKinds by {
      assert DefaultKinds[2] == "rain_diff";
    }
  }
}
