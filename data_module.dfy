/** `RandomDataModule`: owns the data tensor, shuffles it and cuts it into
    train, validation and test partitions in `setup`, and hands each
    partition to a full-batch loader. */
module DataModule {
  import opened Common
  import opened SplitPolicy
  import opened Columns
  import opened Permutation
  import opened VectorDatasets

  /** What a loader method hands the trainer: the wrapped partition, the
      worker count and the batch size. How the loader iterates is not
      modelled. */
  datatype DataLoader = DataLoader(dataset: VectorDataset, numWorkers: int, batchSize: nat)

  class RandomDataModule {
    /** `hparams.data_num_workers`, the only hyper-parameter read here. */
    const numWorkers: int
    /** The rows handed to the constructor, before any shuffle. */
    ghost const originalData: seq<Row>

    var data: seq<Row>
    var batchSize: nat
    var trainInputData: Option<seq<Row>>
    var trainOutputData: Option<seq<Row>>
    var valInputData: Option<seq<Row>>
    var valOutputData: Option<seq<Row>>
    var testInputData: Option<seq<Row>>
    var testOutputData: Option<seq<Row>>

    /** Before `setup`: all six partition fields are `None`. */
    ghost predicate Unset()
      reads this
    {
      trainInputData.None? && trainOutputData.None?
      && valInputData.None? && valOutputData.None?
      && testInputData.None? && testOutputData.None?
    }

    /** After `setup`: all six fields are set, to the feature and target
        columns of the three slices of the current (shuffled) rows. */
    ghost predicate Ready()
      reads this
    {
      var p := Slice(data);
      var train, val, test := SplitInputOutput(p.train), SplitInputOutput(p.val), SplitInputOutput(p.test);
      trainInputData == Some(train.0) && trainOutputData == Some(train.1)
      && valInputData == Some(val.0) && valOutputData == Some(val.1)
      && testInputData == Some(test.0) && testOutputData == Some(test.1)
    }

    /** The object invariant: the module is in one of its two states, its
        rows are a reordering of the rows it was given, and the batch size
        is the number of all those rows. */
    ghost predicate Valid()
      reads this
    {
      batchSize == |data| == |originalData|
      && multiset(data) == multiset(originalData)
      && (Unset() || Ready())
    }

    constructor (numWorkers: int, data: seq<Row>)
      ensures Valid() && Unset()
      ensures this.numWorkers == numWorkers && originalData == data
      ensures this.data == data && batchSize == |data|
    {
      this.numWorkers := numWorkers;
      originalData := data;
      this.data := data;
      batchSize := |data|;
      trainInputData, trainOutputData := None, None;
      valInputData, valOutputData := None, None;
      testInputData, testOutputData := None, None;
    }

    /** Shuffles the rows by `perm` (the output of `randperm`), cuts them at
        `floor(0.8n)` and `floor(0.8n) + floor(0.1n)`, and stores the column
        split of each slice. The batch size set by the constructor is left
        as it is. A further call reshuffles and re-cuts. */
    method Setup(perm: seq<nat>)
      requires Valid()
      requires IsPermutation(perm, |data|)
      modifies this
      ensures Valid() && Ready()
      ensures PermutationIndicesBelow(perm, |old(data)|) && data == Reorder(old(data), perm)
      ensures batchSize == old(batchSize)
    {
      var samples := |data|;

      ReorderPreservesRows(data, perm);
      var shuffled := Reorder(data, perm);

      var trainSamplesIdx := TrainEnd(samples);
      var valSamplesIdx := trainSamplesIdx + ValSize(samples);

      var trainData := shuffled[0..trainSamplesIdx];
      var valData := shuffled[trainSamplesIdx..valSamplesIdx];
      var testData := shuffled[valSamplesIdx..];
      assert Slice(shuffled) == Parts(trainData, valData, testData);

      var train := SplitInputOutput(trainData);
      var val := SplitInputOutput(valData);
      var test := SplitInputOutput(testData);

      data := shuffled;
      trainInputData, trainOutputData := Some(train.0), Some(train.1);
      valInputData, valOutputData := Some(val.0), Some(val.1);
      testInputData, testOutputData := Some(test.0), Some(test.1);
    }

    /** `train_dataloader`: the train partition, wrapped with the batch size and
        worker count fixed at construction. Before `setup` it wraps the unset
        fields; after it, the column split of its own slice of the rows. */
    function TrainDataloader(): (l: DataLoader)
      reads this
      ensures Valid() ==> l.batchSize == |originalData| && l.numWorkers == numWorkers
      ensures Unset() ==> l.dataset == VectorDataset(None, None)
      ensures Ready() ==> l.dataset == OfRows(Slice(data).train)
    {
      DataLoader(VectorDataset(trainInputData, trainOutputData), numWorkers, batchSize)
    }

    /** `val_dataloader`: the validation partition, wrapped with the batch size and
        worker count fixed at construction. Before `setup` it wraps the unset
        fields; after it, the column split of its own slice of the rows. */
    function ValDataloader(): (l: DataLoader)
      reads this
      ensures Valid() ==> l.batchSize == |originalData| && l.numWorkers == numWorkers
      ensures Unset() ==> l.dataset == VectorDataset(None, None)
      ensures Ready() ==> l.dataset == OfRows(Slice(data).val)
    {
      DataLoader(VectorDataset(valInputData, valOutputData), numWorkers, batchSize)
    }

    /** `test_dataloader`: the test partition, wrapped with the batch size and
        worker count fixed at construction. Before `setup` it wraps the unset
        fields; after it, the column split of its own slice of the rows. */
    function TestDataloader(): (l: DataLoader)
      reads this
      ensures Valid() ==> l.batchSize == |originalData| && l.numWorkers == numWorkers
      ensures Unset() ==> l.dataset == VectorDataset(None, None)
      ensures Ready() ==> l.dataset == OfRows(Slice(data).test)
    {
      DataLoader(VectorDataset(testInputData, testOutputData), numWorkers, batchSize)
    }
  }

  /** In either state all three loaders use one batch size, the number of
      rows the module was constructed with, however large their partition,
      and the configured worker count. */
  lemma LoadersShareOneBatchSize(m: RandomDataModule)
    requires m.Valid()
    ensures m.TrainDataloader().batchSize == |m.originalData|
    ensures m.ValDataloader().batchSize == |m.originalData|
    ensures m.TestDataloader().batchSize == |m.originalData|
    ensures m.TrainDataloader().numWorkers == m.ValDataloader().numWorkers
            == m.TestDataloader().numWorkers == m.numWorkers
  {
  }

  /** Before `setup` every loader wraps unset fields, so any use of its
      dataset fails. */
  lemma LoadersBeforeSetupFail(m: RandomDataModule, idx: int)
    requires m.Valid() && m.Unset()
    ensures m.TrainDataloader().dataset.Length() == Err(Uninitialized)
    ensures m.ValDataloader().dataset.Length() == Err(Uninitialized)
    ensures m.TestDataloader().dataset.Length() == Err(Uninitialized)
    ensures m.TrainDataloader().dataset.Get(idx) == Err(Uninitialized)
    ensures m.ValDataloader().dataset.Get(idx) == Err(Uninitialized)
    ensures m.TestDataloader().dataset.Get(idx) == Err(Uninitialized)
  {
  }

  /** After `setup` each loader wraps its own partition: train the first
      `floor(0.8n)` shuffled rows, validation the next `floor(0.1n)`, test the
      rest. The sizes depend only on the number of rows, not on the shuffle,
      and every partition fits in a single batch. */
  lemma LoadersWrapOwnPartition(m: RandomDataModule)
    requires m.Valid() && m.Ready()
    ensures var p, n := Slice(m.data), |m.originalData|;
      m.TrainDataloader().dataset == OfRows(p.train)
      && m.ValDataloader().dataset == OfRows(p.val)
      && m.TestDataloader().dataset == OfRows(p.test)
      && m.TrainDataloader().dataset.Length() == Ok(TrainEnd(n))
      && m.ValDataloader().dataset.Length() == Ok(ValSize(n))
      && m.TestDataloader().dataset.Length() == Ok(TestSize(n))
      && TrainEnd(n) + ValSize(n) + TestSize(n) == m.batchSize
  {
    var p, n := Slice(m.data), |m.originalData|;
    assert m.TrainDataloader().dataset == OfRows(p.train);
    assert m.ValDataloader().dataset == OfRows(p.val);
    assert m.TestDataloader().dataset == OfRows(p.test);
    OfRowsPairsHalvesOfOneRow(p.train, 0);
    OfRowsPairsHalvesOfOneRow(p.val, 0);
    OfRowsPairsHalvesOfOneRow(p.test, 0);
  }

  /** After `setup` the partitions, with each row's features and targets put
      back together, are the shuffled rows in order; taken together they hold
      exactly the rows the module was given, none lost and none repeated. */
  lemma PartitionsRejoinToData(m: RandomDataModule)
    requires m.Valid() && m.Ready()
    ensures m.trainInputData.Some? && m.trainOutputData.Some?
    ensures m.valInputData.Some? && m.valOutputData.Some?
    ensures m.testInputData.Some? && m.testOutputData.Some?
    ensures var rows := JoinInputOutput(m.trainInputData.value, m.trainOutputData.value)
                      + JoinInputOutput(m.valInputData.value, m.valOutputData.value)
                      + JoinInputOutput(m.testInputData.value, m.testOutputData.value);
      rows == m.data && multiset(rows) == multiset(m.originalData)
  {
    var p := Slice(m.data);
    SplitThenJoin(p.train);
    SplitThenJoin(p.val);
    SplitThenJoin(p.test);
    SliceRejoins(m.data);
  }

  /** After `setup`, entry `i` of the train loader's dataset (a negative `i`
      counting from the end of the partition) is the feature and target
      halves of shuffled row `k`, the `k`-th row of the partition, and that
      row is one the module was given. */
  lemma TrainEntryIsOneOriginalRow(m: RandomDataModule, i: int)
    requires m.Valid() && m.Ready()
    requires InBounds(i, TrainEnd(|m.data|))
    ensures m.TrainDataloader().dataset.Get(i).Ok?
    ensures var pair, k := m.TrainDataloader().dataset.Get(i).value, Wrap(i, TrainEnd(|m.data|));
      pair.0 + pair.1 == m.data[k] && pair.0 + pair.1 in multiset(m.originalData)
  {
    var p := Slice(m.data);
    var k := Wrap(i, TrainEnd(|m.data|));
    OfRowsPairsHalvesOfOneRow(p.train, i);
    SliceFollowsRanges(m.data, k);
    assert m.data[k] in multiset(m.data);
  }

  /** The same for the validation loader: its entry `i` comes from shuffled
      row `train_end + k`, with `k` the index `i` resolves to. */
  lemma ValEntryIsOneOriginalRow(m: RandomDataModule, i: int)
    requires m.Valid() && m.Ready()
    requires InBounds(i, ValSize(|m.data|))
    ensures m.ValDataloader().dataset.Get(i).Ok?
    ensures var pair := m.ValDataloader().dataset.Get(i).value;
      pair.0 + pair.1 == m.data[TrainEnd(|m.data|) + Wrap(i, ValSize(|m.data|))]
      && pair.0 + pair.1 in multiset(m.originalData)
  {
    var p := Slice(m.data);
    var k := TrainEnd(|m.data|) + Wrap(i, ValSize(|m.data|));
    OfRowsPairsHalvesOfOneRow(p.val, i);
    SliceFollowsRanges(m.data, k);
    assert m.data[k] in multiset(m.data);
  }

  /** The same for the test loader: its entry `i` comes from shuffled row
      `val_end + k`, with `k` the index `i` resolves to. */
  lemma TestEntryIsOneOriginalRow(m: RandomDataModule, i: int)
    requires m.Valid() && m.Ready()
    requires InBounds(i, TestSize(|m.data|))
    ensures m.TestDataloader().dataset.Get(i).Ok?
    ensures var pair := m.TestDataloader().dataset.Get(i).value;
      pair.0 + pair.1 == m.data[ValEnd(|m.data|) + Wrap(i, TestSize(|m.data|))]
      && pair.0 + pair.1 in multiset(m.originalData)
  {
    var p := Slice(m.data);
    var k := ValEnd(|m.data|) + Wrap(i, TestSize(|m.data|));
    OfRowsPairsHalvesOfOneRow(p.test, i);
    SliceFollowsRanges(m.data, k);
    assert m.data[k] in multiset(m.data);
  }

  /** The shape the example driver uses: ten rows `[x, sin, cos]`, shuffled
      and split 8/1/1, each feature row one column wide and each target row
      two. */
  method TenRowScenario(rows: seq<Row>, perm: seq<nat>)
    requires |rows| == 10 && forall i :: 0 <= i < 10 ==> |rows[i]| == 3
    requires IsPermutation(perm, 10)
  {
    var m := new RandomDataModule(4, rows);
    m.Setup(perm);
    LoadersWrapOwnPartition(m);
    assert m.TrainDataloader().dataset.Length() == Ok(8);
    assert m.ValDataloader().dataset.Length() == Ok(1);
    assert m.TestDataloader().dataset.Length() == Ok(1);
    assert m.TrainDataloader().batchSize == 10;
    ReorderPreservesRows(rows, perm);
    var first := m.TestDataloader().dataset.Get(0);
    TestEntryIsOneOriginalRow(m, 0);
    assert m.data[9] == rows[perm[9]];
    assert |first.value.0| == 1 && |first.value.1| == 2;
  }
}
