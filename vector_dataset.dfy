/** `VectorDataset`: a read-only view pairing feature rows with target rows.
    Its two fields are whatever the data module holds, so they may still be
    `None` when a loader is built before `setup`. */
module VectorDatasets {
  import opened Common
  import opened Columns

  /** Python's rule for an integer index into a sequence of `len` rows: it
      is valid from `-len` up to `len - 1`, and a negative one counts from
      the end. */
  predicate InBounds(idx: int, len: nat) { -(len as int) <= idx < len }

  function Wrap(idx: int, len: nat): (k: nat)
    requires InBounds(idx, len)
    ensures k < len && (k == idx || k == idx + len)
  {
    if idx < 0 then idx + len else idx
  }

  function Subscript(rows: Option<seq<Row>>, idx: int): (r: Result<Row>)
    ensures r.Ok? <==> rows.Some? && InBounds(idx, |rows.value|)
    ensures r.Ok? ==> r.value == rows.value[Wrap(idx, |rows.value|)]
    ensures r.Err? ==> (r.error == Uninitialized <==> rows.None?)
  {
    match rows
    case None => Err(Uninitialized)
    case Some(s) => if InBounds(idx, |s|) then Ok(s[Wrap(idx, |s|)]) else Err(IndexOutOfRange)
  }

  datatype VectorDataset = VectorDataset(inputData: Option<seq<Row>>, outputData: Option<seq<Row>>) {

    /** `__len__`: the number of feature rows; `len(None)` fails. */
    function Length(): (r: Result<nat>)
      ensures r.Ok? <==> inputData.Some?
      ensures r.Ok? ==> r.value == |inputData.value|
      ensures r.Err? ==> r.error == Uninitialized
    {
      match inputData
      case None => Err(Uninitialized)
      case Some(s) => Ok(|s|)
    }

    /** `__getitem__`: the feature row and the target row at one index. It
        succeeds exactly when both fields are set and the index is valid for
        both. The feature lookup is tried first, so its failure is the one
        reported; once it succeeds, an unset or too short target field
        fails on its own. */
    function Get(idx: int): (r: Result<(Row, Row)>)
      ensures r.Ok? <==> (inputData.Some? && outputData.Some?
                          && InBounds(idx, |inputData.value|) && InBounds(idx, |outputData.value|))
      ensures r.Ok? ==> r.value == (inputData.value[Wrap(idx, |inputData.value|)],
                                    outputData.value[Wrap(idx, |outputData.value|)])
      ensures r.Err? && inputData.None? ==> r.error == Uninitialized
      ensures r.Err? && inputData.Some? && !InBounds(idx, |inputData.value|) ==> r.error == IndexOutOfRange
      ensures r.Err? && inputData.Some? && InBounds(idx, |inputData.value|) ==>
        r.error == (if outputData.None? then Uninitialized else IndexOutOfRange)
    {
      match Subscript(inputData, idx)
      case Err(e) => Err(e)
      case Ok(x) =>
        match Subscript(outputData, idx)
        case Err(e) => Err(e)
        case Ok(y) => Ok((x, y))
    }
  }

  /** The dataset over the column split of some rows. */
  function OfRows(rows: seq<Row>): VectorDataset
  {
    var split := SplitInputOutput(rows);
    VectorDataset(Some(split.0), Some(split.1))
  }

  /** Over the column split of `rows`, the dataset has one entry per row,
      every valid index yields the two halves of the one row it names, and
      every other index fails with an out-of-range error. */
  lemma OfRowsPairsHalvesOfOneRow(rows: seq<Row>, idx: int)
    ensures OfRows(rows).Length() == Ok(|rows|)
    ensures OfRows(rows).Get(idx).Ok? <==> InBounds(idx, |rows|)
    ensures InBounds(idx, |rows|) ==>
      var pair := OfRows(rows).Get(idx).value;
      pair.0 + pair.1 == rows[Wrap(idx, |rows|)]
      && (|rows[Wrap(idx, |rows|)]| >= InputDim ==> |pair.0| == InputDim)
    ensures !InBounds(idx, |rows|) ==> OfRows(rows).Get(idx) == Err(IndexOutOfRange)
  {
  }

  /** A dataset built from unset fields fails on every use. */
  lemma UnsetDatasetFails(idx: int)
    ensures VectorDataset(None, None).Length() == Err(Uninitialized)
    ensures VectorDataset(None, None).Get(idx) == Err(Uninitialized)
  {
  }
}
