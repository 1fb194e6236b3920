/**
 * Tedd1104DataModule: one dataset per split with split-specific settings, and the
 * loader flags of the three dataloaders. Directory listing is an oracle `listing`
 * from a directory to the `*.jpeg` names found in it.
 */
module DataModule {

  import opened Wrappers
  import opened Dataset

  datatype Split = Train | Validation | Test

  /** A dropout vector after the module's defaulting: never empty. */
  type DropoutVector = v: seq<real> | |v| > 0 witness [0.0]

  const ZeroDropout: seq<real> := [0.0, 0.0, 0.0, 0.0, 0.0]

  /** The DataLoader settings that differ between splits or carry a value; collate_fn is always the batch collator. */
  datatype LoaderConfig = LoaderConfig(
    dataset: Tedd1104Dataset,
    batchSize: int,
    numWorkers: int,
    pinMemory: bool,
    shuffle: bool,
    persistentWorkers: bool)

  /** The loader of one split: pinned memory and persistent workers always, shuffling only for training. */
  function LoaderFor(split: Split, ds: Tedd1104Dataset, batchSize: int, numWorkers: int): (l: LoaderConfig)
    ensures l.shuffle <==> split == Train
    ensures l.pinMemory && l.persistentWorkers
    ensures l.dataset == ds && l.batchSize == batchSize && l.numWorkers == numWorkers
  {
    LoaderConfig(ds, batchSize, numWorkers, true, split == Train, true)
  }

  /** `stage in (None, "fit")`. */
  predicate BuildsFit(stage: Option<string>)
  {
    stage == None || stage == Some("fit")
  }

  /** `stage in (None, "test")`. */
  predicate BuildsTest(stage: Option<string>)
  {
    stage == None || stage == Some("test")
  }

  class Tedd1104DataModule {

    const batchSize: int
    const trainDir: string
    const valDir: string
    const testDir: string
    const tokenMaskProb: real
    const transformerNHeads: Option<int>
    const sequenceLength: int
    const hideMapProb: real
    const dropoutImagesProb: DropoutVector
    const controlMode: string
    const numWorkers: int

    var trainDataset: Tedd1104Dataset?
    var valDataset: Tedd1104Dataset?
    var testDataset: Tedd1104Dataset?

    /** `__init__`: a missing or empty dropout vector becomes five zeros; no dataset is built yet. */
    constructor (batchSize: int, trainDir: string, valDir: string, testDir: string,
                 tokenMaskProb: real, transformerNHeads: Option<int>, sequenceLength: int,
                 hideMapProb: real, dropoutImagesProb: Option<seq<real>>, controlMode: string,
                 numWorkers: int)
      ensures this.batchSize == batchSize && this.numWorkers == numWorkers
      ensures this.trainDir == trainDir && this.valDir == valDir && this.testDir == testDir
      ensures this.tokenMaskProb == tokenMaskProb && this.transformerNHeads == transformerNHeads
      ensures this.sequenceLength == sequenceLength && this.hideMapProb == hideMapProb
      ensures this.controlMode == controlMode
      ensures this.dropoutImagesProb ==
        if dropoutImagesProb.Some? && |dropoutImagesProb.value| > 0 then dropoutImagesProb.value else ZeroDropout
      ensures trainDataset == null && valDataset == null && testDataset == null
    {
      this.batchSize := batchSize;
      this.trainDir := trainDir;
      this.valDir := valDir;
      this.testDir := testDir;
      this.tokenMaskProb := tokenMaskProb;
      this.transformerNHeads := transformerNHeads;
      this.sequenceLength := sequenceLength;
      this.hideMapProb := hideMapProb;
      this.dropoutImagesProb :=
        if dropoutImagesProb.Some? && |dropoutImagesProb.value| > 0 then dropoutImagesProb.value else ZeroDropout;
      this.controlMode := controlMode;
      this.numWorkers := numWorkers;
      trainDataset, valDataset, testDataset := null, null, null;
    }

    function DirOf(split: Split): string
    {
      match split
      case Train => trainDir
      case Validation => valDir
      case Test => testDir
    }

    /**
     * The arguments `setup` passes for each split. Training inherits the module's settings;
     * validation and test are forced to probability zero, five zero dropouts, keyboard mode
     * and evaluation, whatever the module's settings. All three share head count and length.
     */
    function ArgsFor(split: Split): (a: DatasetArgs)
      ensures a.datasetDir == DirOf(split)
      ensures a.transformerNHeads == transformerNHeads && a.sequenceLength == sequenceLength
      ensures split == Train ==>
        && a.hideMapProb == hideMapProb && a.tokenMaskProb == tokenMaskProb
        && a.dropoutImagesProb == Some(dropoutImagesProb) && a.controlMode == controlMode && a.train
      ensures split != Train ==>
        && a.hideMapProb == 0.0 && a.tokenMaskProb == 0.0
        && a.dropoutImagesProb == Some(ZeroDropout) && a.controlMode == Keyboard && !a.train
    {
      match split
      case Train =>
        DatasetArgs(trainDir, hideMapProb, tokenMaskProb, transformerNHeads, Some(dropoutImagesProb),
                    sequenceLength, controlMode, true)
      case _ =>
        DatasetArgs(DirOf(split), 0.0, 0.0, transformerNHeads, Some(ZeroDropout), sequenceLength, Keyboard, false)
    }

    predicate SplitValid(split: Split)
    {
      Validate(ArgsFor(split)).Success?
    }

    /** `ds` is the dataset `setup` builds for `split` from the names `listing` finds. */
    predicate BuiltFor(ds: Tedd1104Dataset?, split: Split, listing: string -> seq<string>)
    {
      && SplitValid(split)
      && ds != null
      && ds.config == Validate(ArgsFor(split)).value
      && ds.datasetFiles == listing(DirOf(split))
      && ds.transform == Pipeline(split == Train, ArgsFor(split).hideMapProb, ds.config.dropoutImagesProb)
    }

    /**
     * `setup(stage)`: builds train then validation for None or "fit", then test for None
     * or "test". A failing constructor assertion propagates: the datasets built before it
     * stay assigned, the rest keep their previous value.
     */
    method Setup(stage: Option<string>, listing: string -> seq<string>) returns (error: Option<ConfigError>)
      modifies this
      ensures var fitBuilt := BuildsFit(stage) && SplitValid(Train);
        && (fitBuilt ==> fresh(trainDataset) && BuiltFor(trainDataset, Train, listing))
        && (!fitBuilt ==> trainDataset == old(trainDataset))
      ensures var valBuilt := BuildsFit(stage) && SplitValid(Train) && SplitValid(Validation);
        && (valBuilt ==> fresh(valDataset) && BuiltFor(valDataset, Validation, listing))
        && (!valBuilt ==> valDataset == old(valDataset))
      ensures var testBuilt := (!BuildsFit(stage) || (SplitValid(Train) && SplitValid(Validation)))
                               && BuildsTest(stage) && SplitValid(Test);
        && (testBuilt ==> fresh(testDataset) && BuiltFor(testDataset, Test, listing))
        && (!testBuilt ==> testDataset == old(testDataset))
      ensures error.None? <==>
        (BuildsFit(stage) ==> SplitValid(Train) && SplitValid(Validation)) && (BuildsTest(stage) ==> SplitValid(Test))
      ensures BuildsFit(stage) && !SplitValid(Train) ==> error == Some(Validate(ArgsFor(Train)).error)
    {
      if stage == None || stage == Some("fit") {
        var tr := Tedd1104Dataset.Build(ArgsFor(Train), listing(trainDir));
        if tr.Failure? {
          return Some(tr.error);
        }
        trainDataset := tr.value;
        var va := Tedd1104Dataset.Build(ArgsFor(Validation), listing(valDir));
        if va.Failure? {
          return Some(va.error);
        }
        valDataset := va.value;
      }
      if stage == None || stage == Some("test") {
        var te := Tedd1104Dataset.Build(ArgsFor(Test), listing(testDir));
        if te.Failure? {
          return Some(te.error);
        }
        testDataset := te.value;
      }
      return None;
    }

    /** Validation and test always pass the constructor's checks and run no randomized stage. */
    lemma EvalSplitsAlwaysValid(split: Split)
      requires split != Train
      ensures SplitValid(split)
      ensures var cfg := Validate(ArgsFor(split)).value;
        && cfg.hideMapProb == 0.0 && cfg.tokenMaskProb == 0.0 && cfg.dropoutImagesProb == ZeroDropout
        && cfg.controlMode == Keyboard && !cfg.train
        && forall s | s in Pipeline(cfg.train, cfg.hideMapProb, cfg.dropoutImagesProb) :: !Randomized(s)
    {
      assert Lower(Keyboard) == Keyboard;
    }

    /** With a full setup, an error can only come from the training split's settings. */
    lemma SetupFailsOnlyOnTrain(stage: Option<string>)
      ensures ((BuildsFit(stage) ==> SplitValid(Train) && SplitValid(Validation)) && (BuildsTest(stage) ==> SplitValid(Test)))
        <==> (BuildsFit(stage) ==> SplitValid(Train))
    {
      EvalSplitsAlwaysValid(Validation);
      EvalSplitsAlwaysValid(Test);
    }

    /** The module always hands a non-empty list, so the training pipeline as written is the validated one. */
    lemma TrainPipelineAsWrittenIsSound()
      ensures PipelineAsWritten(true, hideMapProb, ArgsFor(Train).dropoutImagesProb)
        == Pipeline(true, hideMapProb, DefaultedDropout(ArgsFor(Train).dropoutImagesProb, sequenceLength))
    {
      PipelinesAgreeOnList(ArgsFor(Train));
    }

    method TrainDataloader() returns (r: Option<LoaderConfig>)
      ensures r.None? <==> trainDataset == null
      ensures r.Some? ==> r.value == LoaderFor(Train, trainDataset, batchSize, numWorkers)
    {
      if trainDataset == null {
        return None;
      }
      return Some(LoaderFor(Train, trainDataset, batchSize, numWorkers));
    }

    method ValDataloader() returns (r: Option<LoaderConfig>)
      ensures r.None? <==> valDataset == null
      ensures r.Some? ==> r.value == LoaderFor(Validation, valDataset, batchSize, numWorkers)
    {
      if valDataset == null {
        return None;
      }
      return Some(LoaderFor(Validation, valDataset, batchSize, numWorkers));
    }

    method TestDataloader() returns (r: Option<LoaderConfig>)
      ensures r.None? <==> testDataset == null
      ensures r.Some? ==> r.value == LoaderFor(Test, testDataset, batchSize, numWorkers)
    {
      if testDataset == null {
        return None;
      }
      return Some(LoaderFor(Test, testDataset, batchSize, numWorkers));
    }
  }
}
