/**
 * Tedd1104Dataset: eager validation of the split configuration, the choice of the
 * transform pipeline, and the corrupted-file fallback of `__getitem__`.
 *
 * File discovery (`glob`) is a given list of names and image decoding is an oracle
 * `read` from a file name to a ReadOutcome: the decoded image, a caught error
 * (corrupted or missing file) or an exception that is not caught.
 */
module Dataset {

  import opened Wrappers
  import opened Seqs
  import opened Grids
  import opened Transforms

  /** The constructor arguments of Tedd1104Dataset; `None` stands for Python's `None`. */
  datatype DatasetArgs = DatasetArgs(
    datasetDir: string,
    hideMapProb: real,
    tokenMaskProb: real,
    transformerNHeads: Option<int>,
    dropoutImagesProb: Option<seq<real>>,
    sequenceLength: int,
    controlMode: string,
    train: bool)

  /** The settings the constructor stores on the dataset object. */
  datatype DatasetConfig = DatasetConfig(
    datasetDir: string,
    hideMapProb: real,
    dropoutImagesProb: seq<real>,
    controlMode: string,
    sequenceLength: int,
    tokenMaskProb: real,
    transformerNHeads: Option<int>,
    train: bool)

  /** The failing assertion of the constructor, in the order the constructor checks them. */
  datatype ConfigError =
    | UnsupportedControlMode(mode: string)
    | HideMapProbOutOfRange(hideMapProb: real)
      /**
       * The dropout vector does not have 5 entries. `argLength` is the length of the
       * argument the message reports; None when the argument was None, in which case
       * building the message itself fails (`len(None)`) and a TypeError is raised instead.
       */
    | DropoutWrongLength(argLength: Option<nat>)
    | DropoutProbOutOfRange(dropoutImagesProb: seq<real>)
    | TokenMaskProbOutOfRange(tokenMaskProb: real)

  const Keyboard: string := "keyboard"
  const Controller: string := "controller"
  const SequenceFrames: nat := 5

  /** `str.lower` on one character, for the ASCII letters. */
  function LowerChar(ch: char): char
  {
    if 'A' <= ch <= 'Z' then (ch as int + 32) as char else ch
  }

  function Lower(s: string): (r: string)
    ensures |r| == |s|
    ensures forall i | 0 <= i < |s| :: r[i] == LowerChar(s[i])
  {
    seq(|s|, i requires 0 <= i < |s| => LowerChar(s[i]))
  }

  /** `dropout_images_prob if dropout_images_prob else [0.0] * sequence_length`: None and `[]` are falsy. */
  function DefaultedDropout(arg: Option<seq<real>>, sequenceLength: int): seq<real>
  {
    if arg.Some? && |arg.value| > 0 then arg.value
    else Repeat(0.0, if sequenceLength > 0 then sequenceLength else 0)
  }

  predicate ModeSupported(mode: string)
  {
    mode == Keyboard || mode == Controller
  }

  /** Every entry of the (defaulted) dropout vector is a probability below one. */
  predicate EntriesBelowOne(v: seq<real>)
  {
    forall i | 0 <= i < |v| :: 0.0 <= v[i] < 1.0
  }

  /** All the constructor's assertions hold. */
  predicate ValidArgs(a: DatasetArgs)
  {
    && ModeSupported(Lower(a.controlMode))
    && 0.0 <= a.hideMapProb <= 1.0
    && |DefaultedDropout(a.dropoutImagesProb, a.sequenceLength)| == SequenceFrames
    && EntriesBelowOne(DefaultedDropout(a.dropoutImagesProb, a.sequenceLength))
    && 0.0 <= a.tokenMaskProb < 1.0
  }

  /**
   * The validation part of `Tedd1104Dataset.__init__`: the stored settings, or the first
   * assertion that fails. Nothing is clamped: any violation is a failure.
   */
  function Validate(a: DatasetArgs): (r: Result<DatasetConfig, ConfigError>)
    ensures r.Success? <==> ValidArgs(a)
    ensures r.Success? ==>
      && r.value.controlMode == Lower(a.controlMode)
      && r.value.dropoutImagesProb == DefaultedDropout(a.dropoutImagesProb, a.sequenceLength)
      && r.value.hideMapProb == a.hideMapProb && r.value.tokenMaskProb == a.tokenMaskProb
      && r.value.datasetDir == a.datasetDir && r.value.sequenceLength == a.sequenceLength
      && r.value.transformerNHeads == a.transformerNHeads && r.value.train == a.train
    // Each assertion is reached only when every earlier one holds, and its failure is reported.
    ensures r == Failure(UnsupportedControlMode(Lower(a.controlMode)))
      <==> !ModeSupported(Lower(a.controlMode))
    ensures r == Failure(HideMapProbOutOfRange(a.hideMapProb))
      <==> ModeSupported(Lower(a.controlMode)) && !(0.0 <= a.hideMapProb <= 1.0)
    ensures r == Failure(DropoutWrongLength(if a.dropoutImagesProb.Some? then Some(|a.dropoutImagesProb.value|) else None))
      <==> && ModeSupported(Lower(a.controlMode)) && 0.0 <= a.hideMapProb <= 1.0
           && |DefaultedDropout(a.dropoutImagesProb, a.sequenceLength)| != SequenceFrames
    ensures r == Failure(DropoutProbOutOfRange(DefaultedDropout(a.dropoutImagesProb, a.sequenceLength)))
      <==> && ModeSupported(Lower(a.controlMode)) && 0.0 <= a.hideMapProb <= 1.0
           && |DefaultedDropout(a.dropoutImagesProb, a.sequenceLength)| == SequenceFrames
           && !EntriesBelowOne(DefaultedDropout(a.dropoutImagesProb, a.sequenceLength))
    ensures r == Failure(TokenMaskProbOutOfRange(a.tokenMaskProb))
      <==> ValidArgs(a.(tokenMaskProb := 0.0)) && !(0.0 <= a.tokenMaskProb < 1.0)
  {
    var mode := Lower(a.controlMode);
    var dropout := DefaultedDropout(a.dropoutImagesProb, a.sequenceLength);
    if !ModeSupported(mode) then
      Failure(UnsupportedControlMode(mode))
    else if !(0.0 <= a.hideMapProb <= 1.0) then
      Failure(HideMapProbOutOfRange(a.hideMapProb))
    else if |dropout| != SequenceFrames then
      Failure(DropoutWrongLength(if a.dropoutImagesProb.Some? then Some(|a.dropoutImagesProb.value|) else None))
    else if !EntriesBelowOne(dropout) then
      Failure(DropoutProbOutOfRange(dropout))
    else if !(0.0 <= a.tokenMaskProb < 1.0) then
      Failure(TokenMaskProbOutOfRange(a.tokenMaskProb))
    else
      Success(DatasetConfig(a.datasetDir, a.hideMapProb, dropout, mode, a.sequenceLength,
                            a.tokenMaskProb, a.transformerNHeads, a.train))
  }

  /** A missing or empty dropout vector passes the length check exactly when `sequence_length == 5`. */
  lemma DefaultDropoutLength(a: DatasetArgs)
    requires a.dropoutImagesProb.None? || a.dropoutImagesProb == Some([])
    ensures |DefaultedDropout(a.dropoutImagesProb, a.sequenceLength)| == SequenceFrames <==> a.sequenceLength == 5
    ensures a.sequenceLength == 5 ==> DefaultedDropout(a.dropoutImagesProb, a.sequenceLength) == [0.0, 0.0, 0.0, 0.0, 0.0]
  {
  }

  /** The control mode is compared after lower-casing: "KeyBoard" is accepted and stored as "keyboard". */
  lemma ControlModeIsLowerCased(a: DatasetArgs)
    requires a.controlMode == "KeyBoard"
    ensures ValidArgs(a) <==> ValidArgs(a.(controlMode := Keyboard))
    ensures Validate(a).Success? ==> Validate(a).value.controlMode == Keyboard
  {
    assert Lower(a.controlMode) == Keyboard;
  }

  /** Lower-casing twice is lower-casing once. */
  lemma LowerIdempotent(s: string)
    ensures Lower(Lower(s)) == Lower(s)
  {
    assert forall i | 0 <= i < |s| :: LowerChar(LowerChar(s[i])) == LowerChar(s[i]);
  }

  /**
   * The constructor depends on the control mode only through its lower-cased form:
   * two modes that agree after lower-casing give the same outcome, and in particular
   * passing the lower-cased mode itself changes nothing.
   */
  lemma ControlModeCaseInsensitive(a: DatasetArgs, mode: string)
    requires Lower(mode) == Lower(a.controlMode)
    ensures Validate(a.(controlMode := mode)) == Validate(a)
    ensures Validate(a.(controlMode := Lower(a.controlMode))) == Validate(a)
    ensures ValidArgs(a) <==> ValidArgs(a.(controlMode := Lower(a.controlMode)))
  {
    LowerIdempotent(a.controlMode);
  }

  // -------------------------------------------------------------- pipeline

  /** The stages `transforms.Compose` runs, in order. */
  datatype Stage =
    | RemoveMinimapStage(hideMapProb: real)
    | RemoveImageStage(dropoutImagesProb: Option<seq<real>>)
    | SplitImagesStage
    | SequenceColorJitterStage
    | NormalizeStage

  /** The stage draws random numbers. */
  predicate Randomized(s: Stage)
  {
    s.RemoveMinimapStage? || s.RemoveImageStage? || s.SequenceColorJitterStage?
  }

  /** RemoveImage indexes its vector at 0..4, so it can run only on a list of at least five entries. */
  predicate Runnable(s: Stage)
  {
    s.RemoveImageStage? ==> s.dropoutImagesProb.Some? && |s.dropoutImagesProb.value| >= SequenceFrames
  }

  /** The pipeline as the constructor builds it, from the raw `dropout_images_prob` argument. */
  function PipelineAsWritten(train: bool, hideMapProb: real, dropoutArg: Option<seq<real>>): seq<Stage>
  {
    if train then
      [RemoveMinimapStage(hideMapProb), RemoveImageStage(dropoutArg), SplitImagesStage,
       SequenceColorJitterStage, NormalizeStage]
    else
      [SplitImagesStage, NormalizeStage]
  }

  /**
   * The pipeline built from the defaulted, validated dropout vector. Training runs the
   * two wide-image augmentations, then the split, colour jitter and normalisation;
   * evaluation runs only the split and normalisation, so no randomized stage.
   */
  function Pipeline(train: bool, hideMapProb: real, dropout: seq<real>): (r: seq<Stage>)
    ensures (exists i | 0 <= i < |r| :: Randomized(r[i])) <==> train
    ensures !train ==> r == [SplitImagesStage, NormalizeStage]
    ensures |r| >= 2 && r[|r| - 1] == NormalizeStage
    ensures forall i | 0 <= i < |r| :: r[i] == SplitImagesStage <==> i == |r| - 2 - (if train then 1 else 0)
    ensures train ==> r == [RemoveMinimapStage(hideMapProb), RemoveImageStage(Some(dropout)), SplitImagesStage,
                            SequenceColorJitterStage, NormalizeStage]
    ensures forall i | 0 <= i < |r| :: r[i] == NormalizeStage <==> i == |r| - 1
  {
    var r := PipelineAsWritten(train, hideMapProb, Some(dropout));
    assert train ==> Randomized(r[0]);
    r
  }

  /**
   * As written, a training dataset built without a dropout vector passes validation (the
   * defaulted vector has five zeros) but hands None to RemoveImage, which then fails on
   * every sample.
   */
  lemma RawDropoutReachesRemoveImage()
    ensures var a := DatasetArgs("train", 0.0, 0.0, None, None, 5, Keyboard, true);
      && Validate(a).Success?
      && !Runnable(PipelineAsWritten(a.train, a.hideMapProb, a.dropoutImagesProb)[1])
    ensures var a := DatasetArgs("train", 0.0, 0.0, None, Some([]), 5, Keyboard, true);
      && Validate(a).Success?
      && !Runnable(PipelineAsWritten(a.train, a.hideMapProb, a.dropoutImagesProb)[1])
  {
    assert Lower(Keyboard) == Keyboard;
  }

  /** Built from the validated vector, every stage of the pipeline can run, and RemoveImage gets five probabilities in [0, 1). */
  lemma ValidatedPipelineRunnable(a: DatasetArgs)
    requires Validate(a).Success?
    ensures var cfg := Validate(a).value;
      forall s | s in Pipeline(cfg.train, cfg.hideMapProb, cfg.dropoutImagesProb) ::
        Runnable(s) && (s.RemoveImageStage? ==> |s.dropoutImagesProb.value| == 5 && EntriesBelowOne(s.dropoutImagesProb.value))
  {
  }

  /** Whenever the argument is a non-empty list the two pipelines coincide. */
  lemma PipelinesAgreeOnList(a: DatasetArgs)
    requires a.dropoutImagesProb.Some? && |a.dropoutImagesProb.value| > 0
    ensures PipelineAsWritten(a.train, a.hideMapProb, a.dropoutImagesProb)
      == Pipeline(a.train, a.hideMapProb, DefaultedDropout(a.dropoutImagesProb, a.sequenceLength))
  {
  }

  // -------------------------------------------------------------- fallback

  /** `int(len(files) * torch.rand(1))`: an index into a non-empty file list. */
  function FallbackIndex(n: nat, r: Draw): (i: nat)
    requires n > 0
    ensures i < n
    ensures i as real <= n as real * r < i as real + 1.0
  {
    FloorBelow(n, r);
    (n as real * r).Floor
  }

  lemma FloorBelow(n: nat, r: Draw)
    requires n > 0
    ensures 0.0 <= n as real * r < n as real
  {
  }

  /** Python's `files[idx]` accepts `-len(files) <= idx < len(files)`. */
  function PyIndex(n: nat, idx: int): (i: nat)
    requires -(n as int) <= idx < n
    ensures i < n
  {
    if idx < 0 then n + idx else idx
  }

  /** The names `__getitem__` tries, in order: the indexed file, then one fallback per draw. */
  function Tried(files: seq<string>, first: string, draws: seq<Draw>): (t: seq<string>)
    requires |files| > 0
    ensures |t| == |draws| + 1 && t[0] == first
    ensures forall j | 0 < j < |t| :: t[j] == files[FallbackIndex(|files|, draws[j - 1])]
  {
    [first] + seq(|draws|, j requires 0 <= j < |draws| => files[FallbackIndex(|files|, draws[j])])
  }

  /**
   * The outcome of `torchvision.io.read_image` on one name: the decoded image; a
   * ValueError or FileNotFoundError, which `__getitem__` catches; or any other
   * exception, which it does not catch.
   */
  datatype ReadOutcome = Decoded(image: Grid) | Corrupted | Raised

  datatype LoadError =
    | IndexOutOfRange
      /** An uncaught exception escaped while reading `t[fallbacks]` of the names tried. */
    | ReadRaised(name: string, fallbacks: nat)
      /** Every draw was used up on unreadable files; the loop of the source would go on. */
    | DrawsExhausted

  /** The file finally decoded, its image, and how many fallbacks it took. */
  datatype Loaded = Loaded(name: string, image: Grid, fallbacks: nat)

  class Tedd1104Dataset {

    const config: DatasetConfig
    const transform: seq<Stage>
    const datasetFiles: seq<string>

    constructor (cfg: DatasetConfig, files: seq<string>)
      ensures config == cfg && datasetFiles == files
      ensures transform == Pipeline(cfg.train, cfg.hideMapProb, cfg.dropoutImagesProb)
    {
      config := cfg;
      transform := Pipeline(cfg.train, cfg.hideMapProb, cfg.dropoutImagesProb);
      datasetFiles := files;
    }

    /**
     * `Tedd1104Dataset(...)`: the object with the validated settings, the pipeline and the
     * listed files, or the assertion that fails.
     */
    static method Build(args: DatasetArgs, files: seq<string>) returns (r: Result<Tedd1104Dataset, ConfigError>)
      ensures r.Failure? <==> Validate(args).Failure?
      ensures r.Failure? ==> r.error == Validate(args).error
      ensures r.Success? ==>
        && fresh(r.value)
        && r.value.config == Validate(args).value
        && r.value.datasetFiles == files
        && r.value.transform == Pipeline(args.train, args.hideMapProb, Validate(args).value.dropoutImagesProb)
      // The stored pipeline differs from the one built from the raw argument only in the
      // finding's case: a training set whose dropout argument is None or empty.
      ensures r.Success? && !(args.train && (args.dropoutImagesProb.None? || args.dropoutImagesProb == Some([]))) ==>
        r.value.transform == PipelineAsWritten(args.train, args.hideMapProb, args.dropoutImagesProb)
    {
      match Validate(args)
      case Failure(e) =>
        r := Failure(e);
      case Success(cfg) =>
        var ds := new Tedd1104Dataset(cfg, files);
        r := Success(ds);
    }

    /**
     * The loading loop of `__getitem__`: read the indexed file; while the read raises one
     * of the caught exceptions, replace the name by a file chosen with the next draw. The
     * result is the first name among those tried whose read is not caught: its image, or
     * the exception it raised. The file list is only read.
     */
    method GetItem(idx: int, read: string -> ReadOutcome, draws: seq<Draw>) returns (r: Result<Loaded, LoadError>)
      ensures !(-(|datasetFiles| as int) <= idx < |datasetFiles|) <==> r == Failure(IndexOutOfRange)
      ensures r.Success? ==>
        var t := Tried(datasetFiles, datasetFiles[PyIndex(|datasetFiles|, idx)], draws);
        && r.value.fallbacks <= |draws|
        && r.value.name == t[r.value.fallbacks]
        && r.value.name in datasetFiles
        && read(r.value.name) == Decoded(r.value.image)
        && forall j | 0 <= j < r.value.fallbacks :: read(t[j]).Corrupted?
      ensures r.Failure? && r.error.ReadRaised? ==>
        var t := Tried(datasetFiles, datasetFiles[PyIndex(|datasetFiles|, idx)], draws);
        && r.error.fallbacks <= |draws|
        && r.error.name == t[r.error.fallbacks]
        && read(r.error.name) == Raised
        && forall j | 0 <= j < r.error.fallbacks :: read(t[j]).Corrupted?
      ensures r == Failure(DrawsExhausted) ==>
        var t := Tried(datasetFiles, datasetFiles[PyIndex(|datasetFiles|, idx)], draws);
        forall j | 0 <= j < |t| :: read(t[j]).Corrupted?
    {
      var n := |datasetFiles|;
      if !(-(n as int) <= idx < n) {
        return Failure(IndexOutOfRange);
      }
      var imgName := datasetFiles[PyIndex(n, idx)];
      ghost var t := Tried(datasetFiles, imgName, draws);
      var image := read(imgName);
      var used := 0;
      while image.Corrupted? && used < |draws|
        invariant 0 <= used <= |draws|
        invariant imgName == t[used] && imgName in datasetFiles
        invariant image == read(imgName)
        invariant forall j | 0 <= j < used :: read(t[j]).Corrupted?
      {
        imgName := datasetFiles[FallbackIndex(n, draws[used])];
        image := read(imgName);
        used := used + 1;
      }
      match image
      case Decoded(img) =>
        r := Success(Loaded(imgName, img, used));
      case Raised =>
        r := Failure(ReadRaised(imgName, used));
      case Corrupted =>
        r := Failure(DrawsExhausted);
    }
  }
}
