# TEDD1104 sample pipeline, modelled in Dafny

This project models the integer-pixel core of the TEDD1104 dataset code in `dataset.py`. Each source file is one wide JPEG that holds five consecutive game frames side by side. The code turns it into a stack of five frames, with optional augmentations, and batches the stacks for a sequence model.

Modelled:

- **RemoveMinimap** and **RemoveImage** work in place on the wide image, an `array3<int>` indexed `[channel][row][column]`.
  - RemoveMinimap zeroes a 55×80 block at rows 215.. in each of the five segments. One random decision covers the whole sample.
  - RemoveImage zeroes whole segments. Each of the five slots gets its own decision.
  - Each method's postcondition equates the new array contents with a function of the old contents: `HideMinimap` or `DropFrames` on the array's value (`Grids.Snapshot`).
- **SplitImages** is a pure function. It cuts the image into five `floor(W/5)`-wide frames and drops any trailing columns.
- **collate_fn** concatenates frame stacks and mask rows in order and stacks the labels.
- **Tedd1104Dataset**:
  - construction validates eagerly (`Validate`) and picks the train or eval pipeline (`Pipeline`);
  - `__getitem__` retries with a random fallback file while a read raises ValueError or FileNotFoundError (`GetItem`); any other exception escapes.
- **Tedd1104DataModule**: the per-split constructor arguments `setup` passes, `setup` itself, and the flags of the three dataloaders.

Random numbers are explicit draws `r` with `0 <= r < 1`, the value of `torch.rand(1)[0]`. The probability gate is `p > 0 && r <= p` (`Transforms.Fires`). Image decoding is a function `read` from a file name to a `ReadOutcome`: `Decoded(image)`, `Corrupted` for the two exceptions `__getitem__` catches (ValueError, FileNotFoundError), or `Raised` for any other exception, which propagates. Directory listing is a function `listing` from a directory to its file names. Probabilities are reals that are only compared.

Torch's slice assignment fixes the geometry RemoveMinimap needs: a `(3, 55, 80)` zero tensor is written into `image[:, 215:, j*width : j*width+80]`. So the image must have 3 channels and 270 rows, and the last block must end inside the image (`4*width + 80 <= W`). `RemoveMinimap` requires this only when the gate fires, as the source does. The per-frame lemma `MinimapInEveryFrame` also assumes `width >= 80`, so that no block spills into the next segment.

Where the docstrings and the code disagree, the model follows the code. The docstrings say every dropout probability lies in `0 <= p <= 1`, but the constructor accepts only `0 <= p < 1.0` (dataset.py:245-249). The same holds for `token_mask_prob` (dataset.py:251-254).

The length assertion's message calls `len(dropout_images_prob)` on the raw argument. When that argument is None and `sequence_length != 5`, building the message raises a TypeError instead of the AssertionError. `ConfigError.DropoutWrongLength(None)` stands for that case.

## Model

| member | source | states |
|---|---|---|
| Transforms.Fires | dataset.py:41-42 | a probability of at most 0 never fires; above 0 the gate fires iff the draw is at most p; a probability of 1 or more fires for every draw in [0,1) |
| Transforms.ZeroBlock | dataset.py:78-80 | the slice assignment `image[:, h0:, w0:w1] = 0`: exactly the cells in those rows and columns, in every channel, become 0; all others keep their values |
| Transforms.RemoveMinimap | dataset.py:37-48 | the new image is HideMinimap of the old one under the single gate decision: when it fires, rows 215.. of columns `j*width .. j*width+79`, for each j < 5 and every channel, become 0 and nothing else changes; otherwise the image is unchanged; the geometry is demanded only when the gate fires |
| Transforms.MinimapGate | dataset.py:41-42 | with `hide_map_prob <= 0` the image is unchanged for every draw; with `hide_map_prob >= 1` it is always masked |
| Transforms.MinimapBlockOfFrame | dataset.py:43-46 | for segments at least 80 wide, column `k*width + x` of segment k is in the minimap region iff `x < 80` and the row is at least 215 |
| Transforms.MinimapInEveryFrame | dataset.py:43-46 | masking the wide image and then splitting it masks the same block, rows 215.. and columns 0..79, in each of the five frames, and changes nothing else in them |
| Transforms.RemoveImage | dataset.py:71-82 | the new image is DropFrames of the old one: slot j's column band `[j*width, (j+1)*width)` becomes 0 in every channel and row iff `p[j] > 0` and draw `r_j <= p[j]`; every other cell keeps its value |
| Transforms.DroppedSlotOfFrame | dataset.py:75-80 | a column of segment k is dropped iff slot k is dropped |
| Transforms.DroppedFramesAreBlank | dataset.py:75-80 | after dropping and splitting, frame k is all zeros iff slot k was dropped and otherwise equals the original frame k; columns from `5*width` on keep their values |
| Transforms.NoDropWithZeroVector | dataset.py:75-77 | a vector with no positive entry leaves the image unchanged, whatever the draws |
| Transforms.SplitImages | dataset.py:97-104 | exactly five frames, each with the input's channels and rows and `floor(W/5)` columns; column w of segment k is column `w - k*width` of frame k; the label passes through unchanged |
| Transforms.SplitJoinsToCrop | dataset.py:98-103 | joining the five frames row by row gives each row cropped to `5*width` columns, so fewer than five trailing columns are dropped |
| Collate.CollateFn | dataset.py:177-181 | `y` has one entry per sample, in order: `y[i]` is sample i's label; an empty batch is excluded because `torch.cat` rejects it |
| Collate.CollateFrameLayout | dataset.py:178 | with five frames per sample, `images` has `5N` frames and sample i's frames occupy positions `5i .. 5i+4` in order |
| Collate.CollateMaskLayout | dataset.py:179 | with m mask rows per sample, `attention_mask` has `m*N` rows and sample i's rows occupy positions `m*i .. m*i+m-1` in order |
| Collate.CollateAppend | dataset.py:177-181 | collating a batch equals collating all but its last sample and appending that sample's frames, mask rows and label |
| Dataset.Validate | dataset.py:219-254 | construction succeeds iff the lower-cased mode is keyboard or controller, `0 <= hide_map_prob <= 1`, the defaulted vector has 5 entries all in [0,1), and `0 <= token_mask_prob < 1`; on success the stored settings are the defaulted vector and the lower-cased mode; on failure the error is exactly the first assertion that fails in the source's order (mode, hide_map_prob, length with the argument's length, entries with the defaulted vector, token_mask_prob), each iff every earlier check holds and that one does not |
| Dataset.DefaultDropoutLength | dataset.py:221-243 | a missing or empty dropout vector passes the length check exactly when `sequence_length == 5`, and is then five zeros |
| Dataset.ControlModeIsLowerCased | dataset.py:224-233 | the mode is compared after lower-casing: "KeyBoard" is accepted exactly as "keyboard" is, and is stored as "keyboard" |
| Dataset.LowerIdempotent | dataset.py:224 | lower-casing the already lower-cased mode changes nothing |
| Dataset.ControlModeCaseInsensitive | dataset.py:224-233 | for every argument set, any two control modes equal after lower-casing give the same construction outcome, so passing the lower-cased mode yields the same result and validity |
| Dataset.Pipeline | dataset.py:256-275 | training runs exactly RemoveMinimap, RemoveImage (with the validated vector), SplitImages, SequenceColorJitter, Normalize; eval runs exactly SplitImages then Normalize; a randomized stage runs iff `train`; Normalize runs once, last, and SplitImages once, right before the colour jitter when training |
| Dataset.RawDropoutReachesRemoveImage | dataset.py:256-265 | as written, `train=True` with no dropout vector (or `[]`) passes validation but gives RemoveImage a value it cannot index |
| Dataset.ValidatedPipelineRunnable | dataset.py:240-265 | with the validated vector, every stage can run and RemoveImage gets five probabilities in [0,1) |
| Dataset.PipelinesAgreeOnList | dataset.py:221-265 | when the argument is a non-empty list, the pipeline as written equals the one built from the validated vector |
| Dataset.FallbackIndex | dataset.py:311-313 | `int(len(files) * r)` for a draw r in [0,1) is an index in `[0, len(files))`, the floor of `len * r` |
| Dataset.Tedd1104Dataset.Build | dataset.py:219-277 | construction fails exactly when validation does, with the same error; otherwise a fresh object holds the validated settings, the listed files and the pipeline for its train flag, which is the pipeline the source builds from the raw argument in every case except a training set whose dropout argument is None or empty |
| Dataset.Tedd1104Dataset.GetItem | dataset.py:299-313 | an index outside `[-len, len)` is an IndexError; otherwise the indexed file and one fallback per draw are tried in order, and the first name whose read is not a caught error decides the result: its decoded image (the name is in the file list and every earlier name raised a caught error) or the uncaught exception it raised; when the draws run out, every name tried raised a caught error |
| DataModule.LoaderFor | dataset.py:439-482 | a loader shuffles iff it is the training loader; memory pinning and persistent workers are always on; batch size and worker count come from the module |
| DataModule.Tedd1104DataModule.constructor | dataset.py:366-386 | stores the settings; a missing or empty dropout vector becomes five zeros; no dataset exists yet |
| DataModule.Tedd1104DataModule.ArgsFor | dataset.py:394-429 | training gets the module's settings and `train = True`; validation and test get `hide_map_prob = 0`, five zero dropouts, "keyboard", `token_mask_prob = 0` and `train = False`, whatever the module's settings; all share head count and sequence length |
| DataModule.Tedd1104DataModule.Setup | dataset.py:394-431 | with stage None or "fit" it builds train, then val; with None or "test" it builds test; a failing constructor stops setup with its error, keeps what was already built and leaves the rest unchanged |
| DataModule.Tedd1104DataModule.EvalSplitsAlwaysValid | dataset.py:408-429 | the validation and test datasets always pass the constructor's checks, and their pipelines have no randomized stage |
| DataModule.Tedd1104DataModule.SetupFailsOnlyOnTrain | dataset.py:394-431 | setup succeeds iff the training arguments are valid whenever the training split is built |
| DataModule.Tedd1104DataModule.TrainPipelineAsWrittenIsSound | dataset.py:375-404 | the module always passes a non-empty list, so through the module the pipeline as written is the validated one |
| DataModule.Tedd1104DataModule.TrainDataloader | dataset.py:439-448 | no loader before the training dataset exists; otherwise the shuffling training loader over it |
| DataModule.Tedd1104DataModule.ValDataloader | dataset.py:456-465 | no loader before the validation dataset exists; otherwise the non-shuffling loader over it |
| DataModule.Tedd1104DataModule.TestDataloader | dataset.py:473-482 | no loader before the test dataset exists; otherwise the non-shuffling loader over it |

## Findings

| source | as written | input that shows it | evidently intended | confidence | as-written member | corrected member |
|---|---|---|---|---|---|---|
| dataset.py:260 | the train pipeline passes the raw `dropout_images_prob` argument to RemoveImage; the validated and defaulted `self.dropout_images_prob` is not used | `Tedd1104Dataset(dir, hide_map_prob=0.0, token_mask_prob=0.0, train=True)`, with the vector omitted (or `[]`) and `sequence_length=5`: construction passes, then every sample fails in `RemoveImage` when it indexes None (TypeError) or `[]` (IndexError) | RemoveImage receives `self.dropout_images_prob`, five zeros in that case | medium, not executed | Dataset.RawDropoutReachesRemoveImage | Dataset.ValidatedPipelineRunnable |

`Dataset.PipelineAsWritten` builds the pipeline as the source does. `Dataset.Pipeline` builds it from the validated vector, and `Tedd1104Dataset.Build` uses `Dataset.Pipeline`. `Tedd1104DataModule` always passes a non-empty list, so through the DataModule the two agree (`TrainPipelineAsWrittenIsSound`).

## Left out

- Normalize (division by 255 and per-channel standardisation) and SequenceColorJitter: floating-point transforms delegated to torchvision. They appear only as pipeline stages.
- `get_mask` and `IOHandler.imagename_input_conversion`: they live in `utils`, which is not part of this model. `__getitem__` is modelled only up to the loaded file: label decoding, running the transforms and building the mask are left out.
- Image decoding, `glob` file discovery and `count_examples`: file I/O. `read` reports only which of the three outcomes a read has; which exception it was and its message are not modelled. They are replaced by the `read` and `listing` functions and a given file list.
- Printed messages: the corrupted-file warning, the dataset sizes in `setup`, and the `num_workers > 32` warning. None changes state.
- DataLoader plumbing: `collate_fn` and `worker_init_fn` wiring, `set_worker_sharing_strategy`, and the `requires_grad = False` flags. The loaders keep only their flags and dataset.
- Dataset.Tedd1104Dataset.GetItem: the source loops forever while every tried file is unreadable. The model has a finite sequence of draws and returns `DrawsExhausted` when they run out.
- Dataset.Tedd1104Dataset.Build: stores the corrected pipeline (`Dataset.Pipeline`, built from the validated vector). When `train` is true and the dropout argument is None or `[]`, the source instead stores a RemoveImage stage over that raw value (`Dataset.PipelineAsWritten`, see Findings); in every other case the two are equal, as Build's contract states.
- Dataset.FallbackIndex: the product `len * r` is computed with exact reals, not float32.
- Transforms.RemoveImage: the model takes one draw per slot. The source calls `torch.rand` only for slots with a positive probability, so the position in the random stream is not modelled. The decisions are the same, because a slot with probability 0 never drops.
- Transforms.RemoveMinimap: likewise, the source draws only when `hide_map_prob > 0`.
- Dataset.Lower: lower-cases ASCII letters only. Python's `str.lower` also maps other Unicode letters.
- Assertions are assumed enabled. Under `python -O` no check runs.
- Directory paths and `stage` are strings. A `None` directory, which fails inside `glob`, is not modelled.
- Collate.CollateFn: the generic model does not check that `torch.cat` and `torch.stack` need equal shapes apart from the leading dimension.
- calculate_mean_std.py: an offline computation of float statistics, with file reads and argument parsing.
