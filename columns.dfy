/** `RandomDataModule._split_input_output_data`: every row is cut at the
    constant `input_dim` into its feature columns and its target columns. */
module Columns {
  import opened Common

  /** The number of leading feature columns (a constant in the source). */
  const InputDim: nat := 1

  function Min(a: nat, b: nat): (m: nat) { if a <= b then a else b }

  /** `row[0:input_dim]`, with Python's clamping of a slice bound past the end. */
  function Features(row: Row): (x: Row)
  {
    row[..Min(InputDim, |row|)]
  }

  /** `row[input_dim:]`, with the same clamping. */
  function Targets(row: Row): (y: Row)
  {
    row[Min(InputDim, |row|)..]
  }

  /** Splits the rows by column. Both halves keep one row per data row; at
      each index the feature row followed by the target row is the data row;
      a row with at least `InputDim` columns gives exactly `InputDim` feature
      columns and all the rest as targets. */
  function SplitInputOutput(data: seq<Row>): (r: (seq<Row>, seq<Row>))
    ensures |r.0| == |data| && |r.1| == |data|
    ensures forall i :: 0 <= i < |data| ==> r.0[i] + r.1[i] == data[i]
    ensures forall i :: 0 <= i < |data| && |data[i]| >= InputDim ==>
      |r.0[i]| == InputDim && |r.1[i]| == |data[i]| - InputDim
    ensures forall i :: 0 <= i < |data| && |data[i]| < InputDim ==>
      r.0[i] == data[i] && r.1[i] == []
  {
    var inputs := seq(|data|, i requires 0 <= i < |data| => Features(data[i]));
    var outputs := seq(|data|, i requires 0 <= i < |data| => Targets(data[i]));
    assert forall i :: 0 <= i < |data| ==> inputs[i] + outputs[i] == data[i] by {
      forall i | 0 <= i < |data| ensures inputs[i] + outputs[i] == data[i] {
        var row := data[i];
        assert row == row[..Min(InputDim, |row|)] + row[Min(InputDim, |row|)..];
      }
    }
    (inputs, outputs)
  }

  /** Puts feature rows and target rows back side by side, row by row; a
      feature row of width `InputDim` is then what the split recovers. */
  function JoinInputOutput(inputs: seq<Row>, outputs: seq<Row>): (rows: seq<Row>)
    requires |inputs| == |outputs|
    ensures |rows| == |inputs|
    ensures forall i :: 0 <= i < |rows| && |inputs[i]| == InputDim ==>
      Features(rows[i]) == inputs[i] && Targets(rows[i]) == outputs[i]
  {
    seq(|inputs|, i requires 0 <= i < |inputs| => inputs[i] + outputs[i])
  }

  /** Splitting by column and joining back gives the original rows. */
  lemma SplitThenJoin(data: seq<Row>)
    ensures var r := SplitInputOutput(data); JoinInputOutput(r.0, r.1) == data
  {
  }

  /** Joining a feature row of width `InputDim` to any target row and splitting
      again gives back both halves. */
  lemma JoinThenSplit(inputs: seq<Row>, outputs: seq<Row>)
    requires |inputs| == |outputs|
    requires forall i :: 0 <= i < |inputs| ==> |inputs[i]| == InputDim
    ensures SplitInputOutput(JoinInputOutput(inputs, outputs)) == (inputs, outputs)
  {
    var rows := JoinInputOutput(inputs, outputs);
    var r := SplitInputOutput(rows);
    forall i | 0 <= i < |inputs| ensures r.0[i] == inputs[i] && r.1[i] == outputs[i] {
      assert rows[i] == inputs[i] + outputs[i];
      assert r.0[i] + r.1[i] == rows[i];
      assert |r.0[i]| == InputDim;
      assert r.0[i] == rows[i][..InputDim];
      assert inputs[i] == rows[i][..InputDim];
    }
    assert r.0 == inputs;
    assert r.1 == outputs;
  }

  /** The column split of concatenated rows is the concatenation of the
      column splits, so splitting commutes with cutting into partitions. */
  lemma SplitDistributesOverConcat(a: seq<Row>, b: seq<Row>)
    ensures var ra, rb, r := SplitInputOutput(a), SplitInputOutput(b), SplitInputOutput(a + b);
      r.0 == ra.0 + rb.0 && r.1 == ra.1 + rb.1
  {
    var ra, rb, r := SplitInputOutput(a), SplitInputOutput(b), SplitInputOutput(a + b);
    forall i | 0 <= i < |a + b| ensures r.0[i] == (ra.0 + rb.0)[i] && r.1[i] == (ra.1 + rb.1)[i] {
      var row := (a + b)[i];
      if i < |a| {
        assert row == a[i];
      } else {
        assert row == b[i - |a|];
      }
      assert r.0[i] + r.1[i] == row;
      assert |r.0[i]| == Min(InputDim, |row|);
    }
  }
}
