/** The trainer (`EggTrainer`): for every configured class it decodes the
    expected training images, keeps the descriptors that could be produced,
    and stores their mean as the class centroid together with the number of
    images used. Training fails when no class produced a centroid. */
module Trainer {
  import opened Wrappers
  import opened Hsv
  import opened FileNames
  import opened CentroidTable

  type Prefix = string

  /** The image decoder (`ImageProcessor.get_average_hsv`): the mean colour
      of the image at a path, or None when the file is missing or cannot be
      decoded. It is supplied by the caller and is otherwise unconstrained. */
  type Extractor = string -> Option<Descriptor>

  /** The training layout: the (class name, file prefix) pairs in their
      configured order, the number of images per class and the extension. */
  datatype Config = Config(classes: seq<(Label, Prefix)>, imageCount: nat, extension: string)

  /** The layout the program is built with. */
  const EggConfig := Config(
    [("Ovo Mole", "ovo-mole"), ("Ovo ao Ponto", "ovo-ponto"), ("Ovo Passado", "ovo-passado")],
    6, ".png")

  /** The only fatal error of training; it names the training directory. */
  datatype TrainError = NoTrainingImages(basePath: string)

  /** The configured class names, in order. */
  function ClassNames(cfg: Config): (names: seq<Label>)
    ensures |names| == |cfg.classes|
    ensures forall j :: 0 <= j < |cfg.classes| ==> names[j] == cfg.classes[j].0
  {
    seq(|cfg.classes|, j requires 0 <= j < |cfg.classes| => cfg.classes[j].0)
  }

  function TrainingPath(cfg: Config, basePath: string, prefix: Prefix, index: nat): string
  {
    Join(basePath, TrainingFileName(prefix, index, cfg.extension))
  }

  /** What the decoder answers for each expected image index. */
  type Decoding = nat -> Option<Descriptor>

  /** The descriptors produced by the expected images 1 to `n`, in index
      order; an image the decoder cannot produce is skipped. */
  function Collected(decoded: Decoding, n: nat): seq<Descriptor>
  {
    if n == 0 then []
    else Collected(decoded, n - 1) + (if decoded(n).Some? then [decoded(n).value] else [])
  }

  /** The decoder's answer for image `i` of the class with file prefix
      `prefix`. */
  function ClassDecoding(cfg: Config, basePath: string, extract: Extractor, prefix: Prefix): Decoding
  {
    (i: nat) => extract(TrainingPath(cfg, basePath, prefix, i))
  }

  /** The descriptors collected for the class with file prefix `prefix`. */
  function ClassImages(cfg: Config, basePath: string, extract: Extractor, prefix: Prefix): seq<Descriptor>
  {
    Collected(ClassDecoding(cfg, basePath, extract, prefix), cfg.imageCount)
  }

  /** The descriptors collected for every configured class, in order. */
  function AllClassImages(cfg: Config, basePath: string, extract: Extractor): (images: seq<seq<Descriptor>>)
    ensures |images| == |cfg.classes|
    ensures forall j :: 0 <= j < |cfg.classes| ==> images[j] == ClassImages(cfg, basePath, extract, cfg.classes[j].1)
  {
    seq(|cfg.classes|, j requires 0 <= j < |cfg.classes| => ClassImages(cfg, basePath, extract, cfg.classes[j].1))
  }

  /** The table after processing one class with the descriptors `ds`. */
  function TrainStep(t: Table, name: Label, ds: seq<Descriptor>): Table
  {
    if |ds| > 0 then Put(t, name, Mean(ds)) else t
  }

  /** The table after processing the first `n` classes, the class `names[j]`
      having collected `images[j]`. */
  function TrainedTable(t0: Table, names: seq<Label>, images: seq<seq<Descriptor>>, n: nat): Table
    requires n <= |names| == |images|
  {
    if n == 0 then t0
    else TrainStep(TrainedTable(t0, names, images, n - 1), names[n - 1], images[n - 1])
  }

  /** The image counts after processing the first `n` classes. */
  function TrainedCounts(m0: map<Label, nat>, names: seq<Label>, images: seq<seq<Descriptor>>, n: nat): map<Label, nat>
    requires n <= |names| == |images|
  {
    if n == 0 then m0
    else TrainedCounts(m0, names, images, n - 1)[names[n - 1] := |images[n - 1]|]
  }

  /** The names of the first `n` classes that have at least one image, in
      configured order. */
  function TrainedClassNames(names: seq<Label>, images: seq<seq<Descriptor>>, n: nat): seq<Label>
    requires n <= |names| == |images|
  {
    if n == 0 then []
    else TrainedClassNames(names, images, n - 1) + (if images[n - 1] != [] then [names[n - 1]] else [])
  }

  /** The inner loop of `EggTrainer.train`: decodes the images of one class
      in index order and keeps the descriptors that were produced. */
  method CollectClassImages(cfg: Config, basePath: string, extract: Extractor, filePrefix: Prefix)
    returns (hsvValues: seq<Descriptor>)
    ensures hsvValues == ClassImages(cfg, basePath, extract, filePrefix)
  {
    ghost var decoded := ClassDecoding(cfg, basePath, extract, filePrefix);
    hsvValues := [];
    for i := 1 to cfg.imageCount + 1
      invariant hsvValues == Collected(decoded, i - 1)
    {
      var imagePath := TrainingPath(cfg, basePath, filePrefix, i);
      var avgHsv := extract(imagePath);
      if avgHsv.Some? {
        hsvValues := hsvValues + [avgHsv.value];
      }
    }
  }

  class EggTrainer {
    const basePath: string
    const config: Config
    var colorPatterns: Table
    var imagesPerClass: map<Label, nat>

    constructor (basePath: string, config: Config)
      ensures this.basePath == basePath && this.config == config
      ensures colorPatterns == [] && imagesPerClass == map[]
    {
      this.basePath := basePath;
      this.config := config;
      colorPatterns := [];
      imagesPerClass := map[];
    }

    /** `EggTrainer.train`: processes every configured class in order and
        fails when the table is still empty afterwards. */
    method Train(extract: Extractor) returns (result: Result<Table, TrainError>)
      modifies this
      ensures colorPatterns == TrainedTable(old(colorPatterns), ClassNames(config),
        AllClassImages(config, basePath, extract), |config.classes|)
      ensures imagesPerClass == TrainedCounts(old(imagesPerClass), ClassNames(config),
        AllClassImages(config, basePath, extract), |config.classes|)
      ensures result == if colorPatterns == [] then Failure(NoTrainingImages(basePath)) else Success(colorPatterns)
    {
      ghost var names := ClassNames(config);
      ghost var images := AllClassImages(config, basePath, extract);
      for c := 0 to |config.classes|
        invariant colorPatterns == TrainedTable(old(colorPatterns), names, images, c)
        invariant imagesPerClass == TrainedCounts(old(imagesPerClass), names, images, c)
      {
        var (className, filePrefix) := config.classes[c];
        var hsvValues := CollectClassImages(config, basePath, extract, filePrefix);
        assert className == names[c] && hsvValues == images[c];
        if |hsvValues| > 0 {
          colorPatterns := Put(colorPatterns, className, Mean(hsvValues));
          imagesPerClass := imagesPerClass[className := |hsvValues|];
        } else {
          imagesPerClass := imagesPerClass[className := 0];
        }
      }
      if colorPatterns == [] {
        return Failure(NoTrainingImages(basePath));
      }
      return Success(colorPatterns);
    }
  }

  /** A descriptor is collected exactly when one of the expected images
      produced it: a missing image never contributes, not even as a zero
      vector. */
  lemma {:induction false} CollectedMembers(decoded: Decoding, n: nat, d: Descriptor)
    ensures d in Collected(decoded, n) <==> exists i :: 1 <= i <= n && decoded(i) == Some(d)
  {
    if n > 0 {
      CollectedMembers(decoded, n - 1, d);
    }
  }

  /** Nothing is collected exactly when none of the expected images produced
      a descriptor. */
  lemma {:induction false} CollectedEmptyIff(decoded: Decoding, n: nat)
    ensures Collected(decoded, n) == [] <==> forall i :: 1 <= i <= n ==> decoded(i).None?
  {
    if n > 0 {
      CollectedEmptyIff(decoded, n - 1);
    }
  }

  /** When every expected image produced a descriptor, all of them are
      collected, image `i` at position `i - 1`. */
  lemma {:induction false} CollectedAllSome(decoded: Decoding, n: nat)
    requires forall i :: 1 <= i <= n ==> decoded(i).Some?
    ensures |Collected(decoded, n)| == n
    ensures forall i :: 1 <= i <= n ==> Collected(decoded, n)[i - 1] == decoded(i).value
  {
    if n > 0 {
      CollectedAllSome(decoded, n - 1);
    }
  }

  /** Only configured class names are ever trained. */
  lemma {:induction false} TrainedNamesConfigured(names: seq<Label>, images: seq<seq<Descriptor>>, n: nat, name: Label)
    requires n <= |names| == |images|
    requires name in TrainedClassNames(names, images, n)
    ensures name in names[..n]
  {
    if name in TrainedClassNames(names, images, n - 1) {
      TrainedNamesConfigured(names, images, n - 1, name);
      assert names[..n - 1] <= names[..n];
    } else {
      assert names[n - 1] == name;
    }
  }

  /** A class processed later has not been trained yet. */
  lemma {:induction false} TrainedNamesBefore(names: seq<Label>, images: seq<seq<Descriptor>>, n: nat, k: nat)
    requires n <= k < |names| == |images| && Distinct(names)
    ensures names[k] !in TrainedClassNames(names, images, n)
  {
    if n > 0 {
      TrainedNamesBefore(names, images, n - 1, k);
      assert names[n - 1] != names[k];
    }
  }

  /** Starting from an empty table, the trained table has distinct keys,
      as a dictionary does, whatever the configured names. */
  lemma {:induction false} TrainedDistinct(names: seq<Label>, images: seq<seq<Descriptor>>, n: nat)
    requires n <= |names| == |images|
    ensures DistinctLabels(TrainedTable([], names, images, n))
  {
    if n > 0 {
      TrainedDistinct(names, images, n - 1);
      if images[n - 1] != [] {
        PutDistinct(TrainedTable([], names, images, n - 1), names[n - 1], Mean(images[n - 1]));
      }
    }
  }

  /** Starting from an empty table, the table's keys are the names of the
      classes that have at least one image, in configured order. */
  lemma {:induction false} TrainedLabels(names: seq<Label>, images: seq<seq<Descriptor>>, n: nat)
    requires n <= |names| == |images| && Distinct(names)
    ensures Labels(TrainedTable([], names, images, n)) == TrainedClassNames(names, images, n)
  {
    if n > 0 {
      TrainedLabels(names, images, n - 1);
      if images[n - 1] != [] {
        TrainedNamesBefore(names, images, n - 1, n - 1);
        PutLabels(TrainedTable([], names, images, n - 1), names[n - 1], Mean(images[n - 1]));
      }
    }
  }

  /** One class step changes at most the centroid of that class. */
  lemma TrainStepLookup(t: Table, name: Label, ds: seq<Descriptor>, key: Label)
    ensures Lookup(TrainStep(t, name, ds), key) ==
      if key == name && ds != [] then Some(Mean(ds)) else Lookup(t, key)
  {
    if ds != [] {
      PutLookup(t, name, Mean(ds), key);
    }
  }

  /** A class not among the first `n` has no centroid after them. */
  lemma {:induction false} TrainedAbsent(names: seq<Label>, images: seq<seq<Descriptor>>, n: nat, key: Label)
    requires n <= |names| == |images| && key !in names[..n]
    ensures Lookup(TrainedTable([], names, images, n), key) == None
  {
    if n > 0 {
      assert names[..n - 1] <= names[..n];
      TrainedAbsent(names, images, n - 1, key);
      TrainStepLookup(TrainedTable([], names, images, n - 1), names[n - 1], images[n - 1], key);
    }
  }

  /** Starting from an empty table, a class with at least one image has the
      mean of its images as centroid, and a class with none is absent; each
      class is unaffected by the others. */
  lemma {:induction false} TrainedCentroid(names: seq<Label>, images: seq<seq<Descriptor>>, n: nat, j: nat)
    requires n <= |names| == |images| && Distinct(names) && j < n
    ensures Lookup(TrainedTable([], names, images, n), names[j]) ==
      if images[j] != [] then Some(Mean(images[j])) else None
  {
    TrainStepLookup(TrainedTable([], names, images, n - 1), names[n - 1], images[n - 1], names[j]);
    if j < n - 1 {
      TrainedCentroid(names, images, n - 1, j);
    } else {
      TrainedAbsent(names, images, n - 1, names[j]);
    }
  }

  /** Starting from no counts, every class gets the number of images
      collected for it, 0 for a class with none. */
  lemma {:induction false} TrainedCount(names: seq<Label>, images: seq<seq<Descriptor>>, n: nat, j: nat)
    requires n <= |names| == |images| && Distinct(names) && j < n
    ensures var counts := TrainedCounts(map[], names, images, n);
      names[j] in counts && counts[names[j]] == |images[j]|
  {
    if j < n - 1 {
      TrainedCount(names, images, n - 1, j);
    }
  }

  /** Every processed class gets a count, and nothing else does. */
  lemma {:induction false} TrainedCountsKeys(names: seq<Label>, images: seq<seq<Descriptor>>, n: nat)
    requires n <= |names| == |images|
    ensures TrainedCounts(map[], names, images, n).Keys == set j | 0 <= j < n :: names[j]
  {
    if n > 0 {
      TrainedCountsKeys(names, images, n - 1);
    }
  }

  /** Starting from an empty table, the table stays empty exactly when none
      of the first `n` classes got an image. */
  lemma {:induction false} TrainedEmptyIff(names: seq<Label>, images: seq<seq<Descriptor>>, n: nat)
    requires n <= |names| == |images|
    ensures TrainedTable([], names, images, n) == [] <==> forall j :: 0 <= j < n ==> images[j] == []
  {
    if n > 0 {
      TrainedEmptyIff(names, images, n - 1);
      var t := TrainedTable([], names, images, n - 1);
      if images[n - 1] != [] {
        PutLabels(t, names[n - 1], Mean(images[n - 1]));
        assert |Labels(Put(t, names[n - 1], Mean(images[n - 1])))| > 0;
      }
    }
  }

  /** A class gets no images exactly when none of its expected files
      produced a descriptor. */
  lemma ClassImagesEmptyIff(cfg: Config, basePath: string, extract: Extractor, prefix: Prefix)
    ensures ClassImages(cfg, basePath, extract, prefix) == [] <==>
      forall i :: 1 <= i <= cfg.imageCount ==> extract(TrainingPath(cfg, basePath, prefix, i)).None?
  {
    var decoded := ClassDecoding(cfg, basePath, extract, prefix);
    CollectedEmptyIff(decoded, cfg.imageCount);
    forall i: nat
      ensures decoded(i) == extract(TrainingPath(cfg, basePath, prefix, i))
    {
    }
  }

  /** Training from a fresh trainer fails exactly when no expected image of
      any configured class produced a descriptor. */
  lemma TrainFailsIff(cfg: Config, basePath: string, extract: Extractor)
    ensures TrainedTable([], ClassNames(cfg), AllClassImages(cfg, basePath, extract), |cfg.classes|) == [] <==>
      forall j, i :: 0 <= j < |cfg.classes| && 1 <= i <= cfg.imageCount ==>
        extract(TrainingPath(cfg, basePath, cfg.classes[j].1, i)).None?
  {
    var images := AllClassImages(cfg, basePath, extract);
    TrainedEmptyIff(ClassNames(cfg), images, |cfg.classes|);
    forall j | 0 <= j < |cfg.classes|
      ensures images[j] == [] <==>
        forall i :: 1 <= i <= cfg.imageCount ==> extract(TrainingPath(cfg, basePath, cfg.classes[j].1, i)).None?
    {
      ClassImagesEmptyIff(cfg, basePath, extract, cfg.classes[j].1);
    }
  }

  /** The training file names of the built-in layout: indices 1 to 6 are
      written "01" to "06". */
  lemma EggConfigFileNames()
    ensures Distinct(ClassNames(EggConfig))
    ensures forall i :: 1 <= i <= EggConfig.imageCount ==> ZeroPad2(i) == ['0', Digit(i)]
    ensures TrainingFileName("ovo-mole", 1, EggConfig.extension) == "ovo-mole-01.png"
  {
    forall i | 1 <= i <= EggConfig.imageCount
      ensures ZeroPad2(i) == ['0', Digit(i)]
    {
      ZeroPad2TwoDigits(i);
    }
    assert ZeroPad2(1) == "01" by {
      ZeroPad2TwoDigits(1);
    }
  }
}
