# Train/validation/test partitioning of the GP regression example

This project models the data-handling core of `examples/gp_regression_example.py`:

- `VectorDataset`, a read-only view that pairs feature rows with target rows;
- `RandomDataModule`, which owns the data tensor and splits it in `setup`. It
  shuffles the rows by a permutation, cuts them at `floor(0.8n)` and
  `floor(0.8n) + floor(0.1n)`, and cuts every row at column `input_dim = 1`
  into features and targets. It stores the six results, which are `None`
  until then, and hands each partition to a loader whose batch size is the
  length of the whole dataset.

Modules:

- `Common`: the row type, `Option` for Python's `None`, and the `Result`/`Error` types.
- `SplitPolicy`: the cut points, the index ranges and the three slices.
- `Columns`: the column split and its inverse.
- `Permutation`: the shuffle (`data[randperm(n)]`).
- `VectorDatasets`: the dataset view.
- `DataModule`: the `RandomDataModule` class and its three loaders.

The pure parts are functions with lemmas. `RandomDataModule` is a class. Its
constructor and `Setup` update its fields. `Valid()` is its invariant: the
module is either unset or ready, its rows are a reordering of the rows it was
built with, and the batch size is their number. The loader methods are
functions that read the fields. Their own contracts give the batch size and
the wrapped dataset in each state; the `Loaders…` and
`…EntryIsOneOriginalRow` lemmas state what that means for the entries.

Points about the code worth knowing:

- The loader batch size is `len(self.data)`, the number of rows in the
  whole dataset, fixed in `__init__`. Every partition therefore fits in one
  batch, because no partition is longer than the whole dataset.
- With two rows the split is 1/0/1: `floor(0.2) = 0` rows go to
  validation and the remaining row goes to test.
- There is no configuration check. The fractions and `input_dim` are
  constants, and the row width is never checked. The column split follows
  Python's slice clamping, so a row narrower than `input_dim` gives an
  empty target row and no error.
- A loader method works before `setup`. It wraps the unset (`None`) fields.
  The failure comes later, when the dataset is measured or indexed: Python
  raises a `TypeError` for `len(None)` and `None[idx]`. The model reports
  this as `Err(Uninitialized)`.

`__getitem__` follows Python's indexing rules. An index in `[-len, len)` is
valid, a negative index counts from the end, and any other index fails with
`IndexOutOfRange`.

## Model

| member | source | states |
|---|---|---|
| `SplitPolicy.TrainEnd` | examples/gp_regression_example.py:62 | the train cut is the floor of 4n/5: the largest t with 5t <= 4n |
| `SplitPolicy.ValSize` | examples/gp_regression_example.py:63 | the validation size is the floor of n/10: the largest v with 10v <= n |
| `SplitPolicy.ValEnd` | examples/gp_regression_example.py:63 | the validation cut lies between the train cut and n, so 0 <= train_end <= val_end <= n |
| `SplitPolicy.RangesOf` | examples/gp_regression_example.py:62-67 | the three index ranges run contiguously from 0 to n in the order train, val, test, with sizes floor(0.8n), floor(0.1n) and the remainder |
| `SplitPolicy.RangesPartitionIndices` | examples/gp_regression_example.py:62-67 | an index lies in some range iff it is in [0, n), and no index lies in two ranges |
| `SplitPolicy.SizesSumToTotal` | examples/gp_regression_example.py:62-67 | the three sizes add up to exactly n, and the test size is never negative |
| `SplitPolicy.TestAbsorbsRounding` | examples/gp_regression_example.py:62-67 | test gets at least its exact tenth of the rows and at most 1.7 rows more, and never fewer rows than validation |
| `SplitPolicy.SplitScenarios` | examples/gp_regression_example.py:53-67 | 10 rows split 8/1/1, 100 rows 80/10/10, and 2 rows 1/0/1 with ranges [0,1), [1,1), [1,2) |
| `SplitPolicy.Slice` | examples/gp_regression_example.py:65-67 | the train, val and test slices have the sizes of the three ranges |
| `SplitPolicy.SliceRejoins` | examples/gp_regression_example.py:65-67 | train ++ val ++ test is exactly the sliced rows |
| `SplitPolicy.SliceFollowsRanges` | examples/gp_regression_example.py:65-67 | the row at index i is in the partition whose range holds i, at offset i minus that range's start |
| `Columns.SplitInputOutput` | examples/gp_regression_example.py:101-106 | both halves keep one row per data row; at each index features ++ targets is the data row; a row of width >= 1 gives exactly 1 feature column and width - 1 target columns |
| `Columns.JoinInputOutput` | examples/gp_regression_example.py:104-105 | joining a one-column feature row to a target row gives a row whose column split returns the same two halves |
| `Columns.SplitThenJoin` | examples/gp_regression_example.py:101-106 | splitting rows by column and joining them back returns the rows |
| `Columns.JoinThenSplit` | examples/gp_regression_example.py:101-106 | joining one-column feature rows to target rows and splitting again returns both sequences |
| `Columns.SplitDistributesOverConcat` | examples/gp_regression_example.py:65-74 | the column split of concatenated rows is the concatenation of the column splits |
| `Permutation.Reorder` | examples/gp_regression_example.py:60 | indexing the rows with p gives |p| rows, where row i is original row p[i] |
| `Permutation.PermutationIndices` | examples/gp_regression_example.py:59 | a permutation of [0, n) has n entries, all below n and pairwise distinct |
| `Permutation.ReorderPreservesRows` | examples/gp_regression_example.py:56-60 | reordering by a permutation keeps the length and the multiset of rows |
| `VectorDatasets.Subscript` | examples/gp_regression_example.py:27 | indexing a field succeeds iff it is set and the index is in [-len, len); a negative index counts from the end; an unset field fails with Uninitialized and a bad index with IndexOutOfRange |
| `VectorDatasets.VectorDataset.Length` | examples/gp_regression_example.py:21-23 | the length is the number of feature rows, and it fails with Uninitialized when the feature field is unset |
| `VectorDatasets.VectorDataset.Get` | examples/gp_regression_example.py:25-27 | succeeds iff both fields are set and the index is valid for both, and then returns the feature row and the target row at that index; on failure the feature lookup's error comes first, and once it succeeds an unset target field gives Uninitialized and a too short one IndexOutOfRange |
| `VectorDatasets.OfRowsPairsHalvesOfOneRow` | examples/gp_regression_example.py:16-27 | over the column split of some rows, the length is the row count, an index succeeds iff it is valid, and the pair it returns is the two halves of one row |
| `VectorDatasets.UnsetDatasetFails` | examples/gp_regression_example.py:16-27 | a dataset built from two unset fields fails on len and on every index |
| `DataModule.RandomDataModule.constructor` | examples/gp_regression_example.py:35-49 | stores the rows and the worker count, sets the batch size to the number of rows, and leaves all six partition fields unset |
| `DataModule.RandomDataModule.Setup` | examples/gp_regression_example.py:51-74 | the rows become the input rows reordered by the permutation; all six fields become the column splits of the three slices; the batch size is unchanged; the invariant holds, so a second call may follow |
| `DataModule.RandomDataModule.TrainDataloader` | examples/gp_regression_example.py:76-83 | in a valid state the batch size is len(data) from the constructor and the worker count is the configured one; before setup it wraps two unset fields; after setup the column split of the train slice (further promises in LoadersShareOneBatchSize, LoadersBeforeSetupFail, LoadersWrapOwnPartition) |
| `DataModule.RandomDataModule.ValDataloader` | examples/gp_regression_example.py:85-91 | the same for validation: batch size len(data), unset fields before setup, the column split of the validation slice after it (further promises in LoadersShareOneBatchSize, LoadersBeforeSetupFail, LoadersWrapOwnPartition) |
| `DataModule.RandomDataModule.TestDataloader` | examples/gp_regression_example.py:93-99 | the same for test: batch size len(data), unset fields before setup, the column split of the test slice after it (further promises in LoadersShareOneBatchSize, LoadersBeforeSetupFail, LoadersWrapOwnPartition) |
| `DataModule.LoadersShareOneBatchSize` | examples/gp_regression_example.py:76-99 | before and after setup, all three loaders use the batch size len(data) from the constructor and the configured worker count |
| `DataModule.LoadersBeforeSetupFail` | examples/gp_regression_example.py:76-99 | before setup, using any loader's dataset fails with Uninitialized |
| `DataModule.LoadersWrapOwnPartition` | examples/gp_regression_example.py:76-99 | after setup, each loader wraps its own partition; the lengths are floor(0.8n), floor(0.1n) and the remainder whatever the shuffle was, and they sum to the batch size |
| `DataModule.PartitionsRejoinToData` | examples/gp_regression_example.py:62-74 | after setup, all six fields are set; the rejoined train ++ val ++ test rows are the shuffled rows, holding the same multiset as the rows given to the constructor |
| `DataModule.TrainEntryIsOneOriginalRow` | examples/gp_regression_example.py:76-83 | after setup, train entry i (negative i counting from the end) is the two halves of the shuffled row it resolves to, which is one of the original rows |
| `DataModule.ValEntryIsOneOriginalRow` | examples/gp_regression_example.py:85-91 | after setup, validation entry i (negative i counting from the end) is the two halves of shuffled row train_end + k, k the index i resolves to, which is one of the original rows |
| `DataModule.TestEntryIsOneOriginalRow` | examples/gp_regression_example.py:93-99 | after setup, test entry i (negative i counting from the end) is the two halves of shuffled row val_end + k, k the index i resolves to, which is one of the original rows |

`DataModule.TenRowScenario` shows the example driver's usage (lines
157-165). It builds ten rows of width 3, runs `Setup` with any permutation,
and asserts 8/1/1 partitions. Its test entry has one feature column and two
target columns.

## Left out

- `main()` (lines 111-182) is not modelled. It covers argument parsing, the GP model and the Lightning trainer's `tune`/`fit`/`test`, whose code is not part of this model.
- Synthetic data generation (lines 143-157) is not modelled. It is floating-point numerics. Only its shape, ten rows of width 3, appears, in `DataModule.TenRowScenario`.
- `torch.randperm` and `torch.manual_seed` are not modelled. The permutation is a parameter of `Setup`, required to be a permutation of `[0, n)`, so the reproducibility of a seeded shuffle is not modelled.
- Tensor elements are exact `real`s. The model never computes with them, only moves them.
- The fractions 0.8 and 0.1 are the exact ratios 4/5 and 1/10. The double-precision products `0.8 * n` and `0.1 * n` have the same floors for every dataset small enough to hold in memory (n below 2^49).
- `torch.utils.data.DataLoader` is reduced to its three arguments. Batching, iteration and worker processes are not modelled (worker processes only affect throughput). This includes the `ValueError` it raises for a batch size of 0, which is what an empty dataset leads to.
- `hparams` is reduced to `data_num_workers`, the only field this core reads. The unused `stage` argument of `setup` and the extra arguments of the loader methods are dropped.
- Behaviour inherited from `LightningDataModule` and `torch.utils.data.Dataset` is not modelled. This includes when the trainer calls `setup` again.
- The six partition fields are values in the model. In the source, the slices at lines 65-67 and 104-105 are tensor views that share storage with the shuffled `self.data`. Nothing in this core writes through them, so no behaviour here depends on the sharing, but the model does not capture it.
- `RandomDataModule.numWorkers` is stored once at construction. The source reads `hparams.data_num_workers` each time a loader is built (lines 82, 90, 98), so a change to `hparams` after construction would reach later loaders. The model does not capture such a change.
