# GAN training utilities, modelled in Dafny

This project models `trainer/gans/gutils.py`, the helpers the GAN trainer calls
between epochs:

- `save_checkpoint` writes the generator's parameters under a name that
  encodes the increment and the epoch.
- `load_checkpoint` scans a checkpoint directory's listing. It parses every
  name, picks the latest epoch of the requested increment and loads it into
  the generator.
- `update_lr` multiplies the learning rate of every parameter group of the
  generator's and the discriminator's optimizers by the gamma of each schedule
  entry that names the current epoch.
- `generate_examples` puts the generator in evaluation mode. It draws
  `num_examples // 100` batches of 100 images per active class, conditioned on
  one-hot targets or not, and concatenates them per class. It optionally saves
  a grid of each of the first classes.
- `save_results` lays out `axis_size * axis_size` images as a grid. Panel `k`
  goes to row `k // axis_size`, column `k % axis_size`. It draws only for
  CIFAR10, CIFAR100 and MNIST.

Modules:

- `Python` (python.dfy) gives the runtime behaviour the code relies on:
  - exceptions as a `Result`
  - `str.split` with one separator, `str(int)` and `int(str)`
  - POSIX `os.path.join`
- `Gan` (gan.dfy) holds the collaborators:
  - the run's `Args`
  - the `Generator`, whose parameters are abstracted to where they came from
    and whose train/eval mode is a flag
- `Checkpoint` (checkpoint.dfy) covers:
  - the file-name format and parser
  - the scan for the latest checkpoint, as a loop proved against a
    specification
  - loading and saving: the generator and a `Disk` of files are objects
    updated in place
- `Schedule` (schedule.dfy) covers `update_lr` over two `Optimizer` objects,
  which may be the same object. Each optimizer's groups are updated by an
  in-place loop.
- `Grid` (grid.dfy) covers `save_results`: the panel-to-cell mapping and the
  figure it saves.
- `Sampling` (sampling.dfy) covers `generate_examples`. It has three parts:
  - the one-hot targets
  - the inner batch loop and the save step, as methods
  - the collected dictionary, given both as the fold the loop computes and in
    closed form (each class's batch repeated once per round and per
    occurrence)

Exceptions the Python code would raise become `Failure` values carrying the
exception class. The first failing step decides which one. Some behaviours
of the code that are easy to miss:

- Output paths are plain concatenations, with no separator inserted:
  - `experiment.path + "results/"`
  - `experiment.path + "checkpoints/"`
- `update_lr` raises IndexError when a matching schedule index has no gamma.
  Updates already made stay, and nothing is raised when neither optimizer has
  a group.
- `save_results` raises in three cases:
  - ValueError for a non-positive `axis_size`
  - TypeError for `axis_size == 1`, because `plt.subplots(1, 1)` returns a
    single Axes that cannot be indexed
  - IndexError when CIFAR or MNIST images are fewer than the grid
- `load_checkpoint` only considers epochs above its initial maximum of -1. Of
  equal epochs it keeps the first listed, because the comparison is strict.
- `generate_examples` with `save` set, fewer than 100 examples, a non-empty
  `active_classes` and `gan_save_classes >= 0` raises KeyError. No class then
  has an entry to slice.
- `int()` strips the whitespace of `str.isspace` except the information
  separators U+001C to U+001F. A token that starts with one of those raises
  ValueError.

`Checkpoint.TwoIncrementsListing` and `Sampling.TwoClassesUnconditional`
prove the three-name listing and the 200-example request for every listing and
every pair of classes of that shape, not for one fixed choice.

## Model

| member | source | states |
|---|---|---|
| Checkpoint.FormatName | trainer/gans/gutils.py:103 | a written name starts with `G_inc_` and ends with `.pth` |
| Checkpoint.ParseName | trainer/gans/gutils.py:114-116 | reading a name raises only IndexError, for a missing token, or ValueError, for a token that is not an integer |
| Checkpoint.ParseFormatRoundTrip | trainer/gans/gutils.py:103 | every name `save_checkpoint` writes parses back to its own increment and epoch |
| Checkpoint.FormatNameTokens | trainer/gans/gutils.py:103 | a written name splits on `_` into `G`, `inc`, the increment, `e`, and the epoch followed by `.pth` |
| Checkpoint.EpochTokenPrefix | trainer/gans/gutils.py:116 | splitting the last token `<epoch>.pth` on `.` gives back the epoch text first, as it holds no `.` |
| Checkpoint.ShortNameRaises | trainer/gans/gutils.py:114-116 | a name with fewer than five `_`-separated tokens raises rather than being skipped |
| Checkpoint.SeparatorInTokenRaises | trainer/gans/gutils.py:114-116 | a name whose increment token starts with a character from U+001C to U+001F raises ValueError, as `int()` does not strip it |
| Checkpoint.ParseAll | trainer/gans/gutils.py:113-116 | a parsed listing holds one checkpoint per listed name |
| Checkpoint.ParseEachByName | trainer/gans/gutils.py:113-116 | for any name reader, the loop over the listing succeeds exactly when every name is read, and then name by name. Otherwise the first rejected name's exception ends it |
| Checkpoint.ParseAllByName | trainer/gans/gutils.py:113-116 | the listing parses exactly when every name does, and then to each name's own checkpoint in order. Otherwise the first malformed name's exception is raised |
| Checkpoint.ParseAllOfParsed | trainer/gans/gutils.py:113-116 | a listing whose names each parse to a checkpoint parses to exactly those checkpoints, in order |
| Checkpoint.FailureExtends | trainer/gans/gutils.py:113-116 | once a prefix of the listing fails to parse, the whole listing fails with the same exception |
| Checkpoint.LatestIsUnique | trainer/gans/gutils.py:117-119 | at most one listed checkpoint is the first of maximal epoch |
| Checkpoint.ScanStep | trainer/gans/gutils.py:117-119 | one scan step keeps the running maximum and the index of the first name that reaches it; a name replaces the best only when strictly newer |
| Checkpoint.ScanOutcome | trainer/gans/gutils.py:117-122 | when the scan ends, the kept index is the latest checkpoint, and there is none exactly when no name has the increment with epoch >= 0 |
| Checkpoint.LatestCheckpoint | trainer/gans/gutils.py:111-122 | the scan loop raises exactly when the listing has a malformed name, with that name's exception. Otherwise it returns the first name of maximal epoch among those of the increment with epoch >= 0, or none exactly when there is no such name |
| Checkpoint.LoadCheckpoint | trainer/gans/gutils.py:106-126 | True exactly when some name has the increment and epoch >= 0, and then G holds the latest one's file joined to the directory. On False or an exception G is unchanged; the train/eval mode is never touched |
| Checkpoint.SaveCheckpoint | trainer/gans/gutils.py:94-103 | at epoch 0 no file changes; otherwise exactly the file `<path>checkpoints/G_inc_<i>_e_<e>.pth` is (over)written with G's parameters |
| Checkpoint.Disk.constructor | trainer/gans/gutils.py:101-103 | a `Disk` starts with no files |
| Checkpoint.SavedCheckpointIsLatest | trainer/gans/gutils.py:98-103 | a checkpoint saved at a positive epoch newer than every listed epoch of its increment is what the next load of that increment picks, wherever the listing places its name |
| Checkpoint.NewerInsertedIsLatest | trainer/gans/gutils.py:117-119 | a selectable checkpoint newer than every other selectable one is the latest, wherever it is inserted in the listing |
| Checkpoint.TwoIncrementsListing | trainer/gans/gutils.py:106-122 | for names like `G_inc_1_e_3.pth`, `G_inc_1_e_7.pth`, `G_inc_2_e_9.pth`, increment 1 picks its later epoch and an unlisted increment finds nothing |
| Gan.Generator.Eval | trainer/gans/gutils.py:50 | `G.eval()` leaves training mode and keeps the parameters |
| Gan.Generator.LoadStateDict | trainer/gans/gutils.py:124 | the parameters become those read from the given path; the mode is kept |
| Python.Split | trainer/gans/gutils.py:114 | `split` yields at least one piece, even for the empty string |
| Python.IntToString | trainer/gans/gutils.py:103 | `str(i)` is non-empty and starts with `-` exactly when `i` is negative |
| Python.ParseInt | trainer/gans/gutils.py:115-116 | `int()` reads a string of decimal digits as its value, and raises for a string that is empty or only whitespace |
| Python.IntStripsUnicodeSpace | trainer/gans/gutils.py:115 | `int()` strips non-ASCII whitespace such as U+00A0 around the digits |
| Python.IntRejectsSeparators | trainer/gans/gutils.py:115 | `int()` raises for a token led by U+001C, for U+001F alone and for whitespace alone |
| Python.IntStringRoundTrip | trainer/gans/gutils.py:115 | `int(str(i)) == i` for every integer, so the increment and epoch written into a name read back unchanged |
| Python.IntToStringCharacters | trainer/gans/gutils.py:103 | `str(i)` holds only a sign and digits, so never a `_` or `.` that would shift the tokens |
| Python.SplitJoin | trainer/gans/gutils.py:114 | joining pieces without the separator and splitting again gives the pieces back |
| Python.JoinSplit | trainer/gans/gutils.py:114 | splitting loses no characters: joining the pieces with the separator gives the string back |
| Python.PathJoin | trainer/gans/gutils.py:123 | an absolute name replaces the directory; otherwise the path starts with the directory and ends with the name |
| Schedule.Scaled | trainer/gans/gutils.py:133-143 | scaling keeps the number of groups and every group's other fields |
| Schedule.ScaledTwice | trainer/gans/gutils.py:130-143 | two updates in a row multiply the rates by the product of their gammas |
| Schedule.ScaledTwiceEach | trainer/gans/gutils.py:133-143 | when both arguments are the same optimizer, each matching entry scales it twice, so the net factor is squared |
| Schedule.ScaledByOne | trainer/gans/gutils.py:129-143 | a factor of one leaves every group as it was |
| Schedule.Optimizer.ScaleLearningRates | trainer/gans/gutils.py:133-137 | every group's `lr` is multiplied by `gan_gammas[temp]`. A missing gamma raises IndexError before any group changes, and only if there is a group |
| Schedule.NextMatch | trainer/gans/gutils.py:130-131 | the first schedule index from a start point whose entry equals the epoch, or the schedule length |
| Schedule.Cutoff | trainer/gans/gutils.py:130-135 | how far `update_lr` gets: every matching index before it has a gamma, and if it is inside the schedule it matches and has none |
| Schedule.Gain | trainer/gans/gutils.py:130-143 | the factor `update_lr` applies is positive when every gamma it multiplies in is |
| Schedule.UnscheduledEpochGain | trainer/gans/gutils.py:130-131 | an epoch no entry names reaches the end of the schedule with factor 1 |
| Schedule.UnscheduledEpochKeepsGroups | trainer/gans/gutils.py:129-143 | an epoch no entry names leaves all learning rates unchanged, for distinct or aliased optimizers |
| Schedule.SingleEntryGain | trainer/gans/gutils.py:130-143 | an epoch named by exactly one entry with a gamma gets exactly that gamma |
| Schedule.RepeatedEntryCompounds | trainer/gans/gutils.py:130-143 | schedule `[5, 5]` with gammas `[0.5, 0.1]` multiplies by `0.5 * 0.1` at epoch 5 |
| Schedule.UpdateLr | trainer/gans/gutils.py:129-143 | IndexError exactly when a matching index has no gamma and some optimizer has a group. Either way each distinct optimizer's rates are multiplied by the product of the gammas reached, in list order, and by its square when `g_opt` is `d_opt`; other fields and group counts are unchanged |
| Grid.Cell | trainer/gans/gutils.py:21-22 | panel `k`'s row and column recombine to `k`, with the column inside the grid and a non-negative row |
| Grid.CellInGrid | trainer/gans/gutils.py:20-22 | each panel index below `axis_size^2` lands on a row and column inside the grid |
| Grid.CellInjective | trainer/gans/gutils.py:20-22 | distinct panel indices land on distinct cells |
| Grid.CellOfEveryPosition | trainer/gans/gutils.py:20-22 | cell `(i, j)` is the cell of panel `i * axis_size + j` |
| Grid.DivisionOfCell | trainer/gans/gutils.py:21-22 | `(q * a + r) // a == q` and `(q * a + r) % a == r` for `0 <= r < a` |
| Grid.PanelContent | trainer/gans/gutils.py:24-33 | a panel is blank exactly for an unknown dataset, a colour image exactly for CIFAR10 and CIFAR100, and otherwise shows image `k` |
| Grid.GridPanels | trainer/gans/gutils.py:20-33 | the grid has `axis_size^2` panels, and panel `k` sits in the cell of `k` |
| Grid.GridCoversEachCellOnce | trainer/gans/gutils.py:20-23 | the grid has `axis_size^2` panels, and each cell holds exactly one of them |
| Grid.GridPanelsInside | trainer/gans/gutils.py:20-23 | no panel lies outside the grid |
| Grid.GridReadsOnlyShownImages | trainer/gans/gutils.py:24-33 | the figure depends only on `images[0 .. axis_size^2 - 1]`, and on no image for an unknown dataset |
| Grid.UnknownDatasetIsBlank | trainer/gans/gutils.py:24-33 | for a dataset other than CIFAR10, CIFAR100 and MNIST every panel is blank |
| Grid.SaveResults | trainer/gans/gutils.py:10-38 | ValueError for `axis_size <= 0`, TypeError for 1, and IndexError when a drawn dataset has fewer images than cells. Otherwise the figure at `<path>results/<name>.png` holds the grid panels |
| Sampling.Rounds | trainer/gans/gutils.py:54 | the number of batches per class is the floor of `num_examples / 100`, and none below 100 |
| Sampling.Column | trainer/gans/gutils.py:58 | the column `targets[:, klass]` designates lies inside the row |
| Sampling.TargetsError | trainer/gans/gutils.py:57-58 | building the targets raises RuntimeError for a negative class count and IndexError for an out-of-range class |
| Sampling.OneHot | trainer/gans/gutils.py:56-58 | the targets build exactly when the class indexes the row, Python-style; they are 100 rows of `total_classes` entries |
| Sampling.OneHotMarksClass | trainer/gans/gutils.py:56-58 | every target row is one-hot, with its single 1 in the column congruent to `klass` modulo `total_classes` |
| Sampling.Batch | trainer/gans/gutils.py:56-61 | a batch holds 100 images when the generator returns 100, and without conditioning it is the generator's unconditioned output |
| Sampling.ClassError | trainer/gans/gutils.py:57-69 | handling a class raises only KeyError, IndexError or RuntimeError, and KeyError exactly when no batch is drawn |
| Sampling.Collected | trainer/gans/gutils.py:51-65 | every key of the dictionary is a class handled so far, and the dictionary is empty when no batch is drawn |
| Sampling.SavedFigure | trainer/gans/gutils.py:67-71 | a class's figure is a grid of 100 panels |
| Sampling.SavedFigures | trainer/gans/gutils.py:67-71 | at most one figure is saved per handled class, and none when `save` is unset |
| Sampling.SavedFiguresOfFirstClasses | trainer/gans/gutils.py:52-71 | the figures saved are exactly those of the classes with index at most `gan_save_classes`, one per class and in list order, and none when `save` is unset or `gan_save_classes < 0` |
| Sampling.SavedFiguresCount | trainer/gans/gutils.py:52-68 | the number of saved figures is `min(gan_save_classes + 1, classes handled)`, or 0 when `save` is unset or `gan_save_classes < 0` |
| Sampling.SavedFiguresElements | trainer/gans/gutils.py:52-71 | every class that saves has its own figure at its own index |
| Sampling.SavedFiguresStep | trainer/gans/gutils.py:67-71 | a class handled without an exception adds its figure exactly when `save and idx <= gan_save_classes` |
| Sampling.RepeatLength | trainer/gans/gutils.py:62-65 | `n` concatenated batches hold `n` times the batch's images |
| Sampling.RepeatPrefix | trainer/gans/gutils.py:69 | the first batch's images come first in the concatenation |
| Sampling.RepeatAdd | trainer/gans/gutils.py:62-65 | concatenating `m` batches and then `n` more is concatenating `m + n` |
| Sampling.CollectedEntry | trainer/gans/gutils.py:52-65 | after the first classes, a class has an entry exactly when it is among them and at least one batch is drawn. The entry is its batch repeated rounds times occurrences |
| Sampling.CollectedShape | trainer/gans/gutils.py:52-72 | the returned keys are exactly the active classes, and the dictionary is empty when `num_examples < 100`. Each value holds `100 * (num_examples // 100) * occurrences` images |
| Sampling.EntryStartsWithBatch | trainer/gans/gutils.py:56-69 | each entry begins with its class's batch: the generator's output for the one-hot targets, or the same unconditioned images whatever the key |
| Sampling.FirstBatchShown | trainer/gans/gutils.py:67-71 | the 100 images saved for a class are its first batch |
| Sampling.TwoClassesUnconditional | trainer/gans/gutils.py:41-72 | 200 unconditional examples of two classes give two keys of 200 images each, and the two values are identical |
| Sampling.SavingTooFewExamplesRaises | trainer/gans/gutils.py:67-69 | with `save` set, fewer than 100 examples, a non-empty `active_classes` and `gan_save_classes >= 0`, the first class raises KeyError |
| Sampling.DrawBatches | trainer/gans/gutils.py:54-65 | the inner loop appends `rounds` batches to the class's entry, creating it if absent. It raises the targets' exception exactly when a round is drawn and the targets cannot be built |
| Sampling.SaveClassFigure | trainer/gans/gutils.py:67-71 | a class without an entry raises KeyError. Otherwise the figure `<name>_C<klass>` shows a 10x10 grid of the entry's first 100 images |
| Sampling.CollectExamples | trainer/gans/gutils.py:51-72 | on success the dictionary is the collected one and the saved figures are those of `SavedFigures`, which `SavedFiguresOfFirstClasses` shows to be the figures of the classes with index at most `gan_save_classes`, in order. On failure the first class that raises decides the exception, and only the figures before it are saved |
| Sampling.GenerateExamples | trainer/gans/gutils.py:41-72 | G is left in evaluation mode with its parameters unchanged, and the result is as for the loop above |

## Left out

- `save_gan_losses` (trainer/gans/gutils.py:75-91) only prints and plots two
  loss curves. It has no logic beyond the drawing library.
- Drawing itself is not modelled: hiding the axes, `imshow`, the pixel
  rescaling and channel transpose, the colour map, figure size, and
  `cla`/`clf`/`close`. A panel records only whether it shows a colour image,
  a grey image or nothing. `is_tensor` only chooses how a tensor is read, so
  it changes nothing in the model.
- Parameter serialisation (`torch.save`, `torch.load`, `state_dict`): the
  generator's parameters are abstracted to their origin, either initial or
  read from a path. The files on disk map paths to such parameters.
- `os.listdir`: the directory listing is an input sequence. A missing
  directory and listing order are outside the model.
- The generator's forward pass on the fixed noise is an opaque function from
  the optional targets to a batch. `args.cuda` and `Variable` only move
  tensors between devices and are not modelled.
- Sampling.GenerateExamples: requires the generator to return exactly 100
  images per call, which the 100-row fixed noise guarantees. Other batch
  sizes are not modelled.
- Sampling.CollectExamples: requires the same 100-image batches as
  `GenerateExamples`.
- Learning rates are exact reals. Floating-point rounding of the repeated
  products is not modelled.
- `int()` is modelled with the whitespace it strips, an optional sign and
  ASCII digits. The non-ASCII decimal digits that Python also accepts are left
  out. `_` digit separators cannot occur, because the tokens are split on
  `_`.
- Python.IntStringRoundTrip and Checkpoint.ParseFormatRoundTrip: hold for
  every integer, whereas since Python 3.11 `str()` and `int()` raise
  ValueError for more than 4300 digits. With an increment or epoch that
  long, `save_checkpoint` and `load_checkpoint` would raise instead. Numbers
  of that size are left out.
- The dictionary `generate_examples` returns is a `map`. The order in which a
  Python dict yields its keys, the order each class was first inserted, is
  not modelled.
- Default arguments become explicit ones. `save_results` defaults to
  `experiment=None`, with which `experiment.path` raises AttributeError after
  the panels are drawn. `Grid.SaveResults` takes the experiment path as a
  string, so that error path is not modelled.
- Class labels, `axis_size` and the epoch and increment arguments are
  integers; `int(axis_size)` on other types is left out.
- All `print` output is left out.
