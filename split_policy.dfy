/** The range arithmetic of `RandomDataModule.setup`: where the shuffled rows
    are cut into train, validation and test. The fractions 0.8 and 0.1 are
    taken as the exact ratios 4/5 and 1/10 under an integer floor. */
module SplitPolicy {

  /** `floor(0.8 * n)`: the end of the train range. */
  function TrainEnd(n: nat): (t: nat)
    ensures 5 * t <= 4 * n < 5 * (t + 1)
  {
    4 * n / 5
  }

  /** `floor(0.1 * n)`: the number of validation rows. */
  function ValSize(n: nat): (v: nat)
    ensures 10 * v <= n < 10 * (v + 1)
  {
    n / 10
  }

  /** `train_end + floor(0.1 * n)`: the end of the validation range. It never
      passes the end of the data, so the test remainder is never negative. */
  function ValEnd(n: nat): (e: nat)
    ensures TrainEnd(n) <= e <= n
  {
    TrainEnd(n) + ValSize(n)
  }

  /** The number of rows left for test: everything from `ValEnd(n)` on. */
  function TestSize(n: nat): (s: nat)
  {
    n - ValEnd(n)
  }

  /** A half-open index range `[lo, hi)`. */
  datatype Range = Range(lo: nat, hi: nat) {
    predicate Contains(i: int) { lo <= i < hi }
    function Size(): int { hi - lo }
  }

  datatype Ranges = Ranges(train: Range, val: Range, test: Range)

  /** The three index ranges of a dataset of `n` rows: contiguous, in the
      order train, validation, test, from 0 up to `n`. */
  function RangesOf(n: nat): (r: Ranges)
    ensures r.train.lo == 0 && r.test.hi == n
    ensures r.train.hi == r.val.lo && r.val.hi == r.test.lo
    ensures r.train.lo <= r.train.hi <= r.val.hi <= r.test.hi
    ensures r.train.Size() == TrainEnd(n) && r.val.Size() == ValSize(n) && r.test.Size() == TestSize(n)
  {
    Ranges(Range(0, TrainEnd(n)), Range(TrainEnd(n), ValEnd(n)), Range(ValEnd(n), n))
  }

  /** Every row index lies in exactly one of the three ranges, and no index
      outside `[0, n)` lies in any of them. */
  lemma RangesPartitionIndices(n: nat, i: int)
    ensures var r := RangesOf(n);
      (0 <= i < n <==> r.train.Contains(i) || r.val.Contains(i) || r.test.Contains(i))
      && !(r.train.Contains(i) && r.val.Contains(i))
      && !(r.train.Contains(i) && r.test.Contains(i))
      && !(r.val.Contains(i) && r.test.Contains(i))
  {
  }

  /** The three sizes are `floor(0.8n)`, `floor(0.1n)` and the remainder, and
      they add up to exactly `n`. */
  lemma SizesSumToTotal(n: nat)
    ensures TrainEnd(n) + ValSize(n) + TestSize(n) == n
    ensures TestSize(n) >= 0
  {
  }

  /** Flooring never shortchanges test: it gets at least its exact tenth of
      the rows, at least as many rows as validation, and the rows flooring
      takes from train and validation (less than one each) land in it. */
  lemma TestAbsorbsRounding(n: nat)
    ensures n <= 10 * TestSize(n) <= n + 17
    ensures TestSize(n) >= ValSize(n)
  {
  }

  /** The sizes for three concrete datasets: ten rows split 8/1/1, a hundred
      80/10/10, and two rows 1/0/1 with an empty validation range. */
  lemma SplitScenarios()
    ensures TrainEnd(10) == 8 && ValSize(10) == 1 && TestSize(10) == 1
    ensures TrainEnd(100) == 80 && ValSize(100) == 10 && TestSize(100) == 10
    ensures TrainEnd(2) == 1 && ValSize(2) == 0 && TestSize(2) == 1
    ensures RangesOf(2) == Ranges(Range(0, 1), Range(1, 1), Range(1, 2))
  {
  }

  /** The rows of each partition. */
  datatype Parts<T> = Parts(train: seq<T>, val: seq<T>, test: seq<T>)

  /** `data[0:train_end]`, `data[train_end:val_end]`, `data[val_end:]`: three
      slices with the sizes of `RangesOf`. */
  function Slice<T>(rows: seq<T>): (p: Parts<T>)
    ensures |p.train| == TrainEnd(|rows|) && |p.val| == ValSize(|rows|) && |p.test| == TestSize(|rows|)
  {
    var n := |rows|;
    Parts(rows[0..TrainEnd(n)], rows[TrainEnd(n)..ValEnd(n)], rows[ValEnd(n)..])
  }

  /** The three slices, put back together, are the rows they were cut from:
      nothing is dropped, repeated or moved. */
  lemma SliceRejoins<T>(rows: seq<T>)
    ensures var p := Slice(rows); p.train + p.val + p.test == rows
  {
    var n := |rows|;
    assert rows == rows[0..TrainEnd(n)] + rows[TrainEnd(n)..];
    assert rows[TrainEnd(n)..] == rows[TrainEnd(n)..ValEnd(n)] + rows[ValEnd(n)..];
  }

  /** Each partition holds, in order, the rows of its own index range. */
  lemma SliceFollowsRanges<T>(rows: seq<T>, i: int)
    requires 0 <= i < |rows|
    ensures var r, p := RangesOf(|rows|), Slice(rows);
      (r.train.Contains(i) ==> p.train[i - r.train.lo] == rows[i])
      && (r.val.Contains(i) ==> p.val[i - r.val.lo] == rows[i])
      && (r.test.Contains(i) ==> p.test[i - r.test.lo] == rows[i])
  {
    SliceRejoins(rows);
  }
}
