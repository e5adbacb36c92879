/**
 * The data side of `insert_dataframe_to_rds`: the frame's values turned into
 * one positional tuple per row, and what the target table holds once the
 * batch has been committed or rolled back.
 */
module Batch {

  import opened Wrappers

  /** Column-major values: every column holds `rowCount` values. */
  predicate Rectangular<V>(data: seq<seq<V>>, rowCount: nat)
  {
    forall j :: 0 <= j < |data| ==> |data[j]| == rowCount
  }

  /**
   * `[tuple(row) for row in df.to_numpy()]`: one tuple per row, in row
   * order, each with one entry per column, in column order.
   */
  function RowTuples<V>(data: seq<seq<V>>, rowCount: nat): (r: seq<seq<V>>)
    requires Rectangular(data, rowCount)
    ensures |r| == rowCount
    ensures forall i :: 0 <= i < rowCount ==> |r[i]| == |data|
    ensures forall i, j :: 0 <= i < rowCount && 0 <= j < |data| ==> r[i][j] == data[j][i]
  {
    seq(rowCount, i requires 0 <= i < rowCount => seq(|data|, j requires 0 <= j < |data| => data[j][i]))
  }

  /** The columns of a list of equally long tuples. */
  function ColumnsOf<V>(tuples: seq<seq<V>>, columnCount: nat): (r: seq<seq<V>>)
    requires forall i :: 0 <= i < |tuples| ==> |tuples[i]| == columnCount
    ensures Rectangular(r, |tuples|) && |r| == columnCount
  {
    seq(columnCount, j requires 0 <= j < columnCount =>
      seq(|tuples|, i requires 0 <= i < |tuples| => tuples[i][j]))
  }

  /** Turning rows back into columns gives the frame's values: the conversion loses and reorders nothing. */
  lemma ColumnsOfRowTuples<V>(data: seq<seq<V>>, rowCount: nat)
    requires Rectangular(data, rowCount)
    ensures ColumnsOf(RowTuples(data, rowCount), |data|) == data
  {
    var back := ColumnsOf(RowTuples(data, rowCount), |data|);
    forall j | 0 <= j < |data| ensures back[j] == data[j] {
      assert |back[j]| == |data[j]|;
    }
  }

  /**
   * The rows the target table holds after the `try` block of
   * `insert_dataframe_to_rds`, given the rows it held before and the error
   * raised inside that block, if any: by `execute_batch` or by the commit.
   * Without an error the batch is committed; with one it is rolled back.
   */
  function AfterInsert<V>(before: seq<seq<V>>, batch: seq<seq<V>>, error: Option<string>): (after: seq<seq<V>>)
  {
    if error.None? then before + batch else before
  }

  /**
   * A batch is all or nothing: the earlier rows stay as they were, and either
   * every row of the batch follows them in order (there was no error) or none
   * does (there was one).
   */
  lemma AfterInsertAtomic<V>(before: seq<seq<V>>, batch: seq<seq<V>>, error: Option<string>)
    ensures var after := AfterInsert(before, batch, error);
      && after[..|before|] == before
      && (after[|before|..] == batch || after[|before|..] == [])
      && (batch != [] ==> (error.None? <==> |after| > |before|))
  {
  }
}
