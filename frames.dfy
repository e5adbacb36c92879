/**
 * The data frame the helpers receive: its column labels, one dtype per
 * column and its values, stored column by column as a frame stores them.
 * `clean_column_names` replaces the frame's column labels in place.
 */
module Frames {

  import opened Wrappers
  import opened Text
  import opened Dtypes
  import opened Sanitise
  import opened Batch
  import opened Statements

  class DataFrame<V> {
    var columns: seq<string>
    var dtypes: seq<DType>
    var data: seq<seq<V>>
    var rowCount: nat

    /** One dtype and one column of values per label, every column `rowCount` long. */
    ghost predicate Valid()
      reads this
    {
      |dtypes| == |columns| && |data| == |columns| && Rectangular(data, rowCount)
    }

    constructor (columns: seq<string>, dtypes: seq<DType>, data: seq<seq<V>>, rowCount: nat)
      requires |dtypes| == |columns| && |data| == |columns| && Rectangular(data, rowCount)
      ensures Valid()
      ensures this.columns == columns && this.dtypes == dtypes
      ensures this.data == data && this.rowCount == rowCount
    {
      this.columns := columns;
      this.dtypes := dtypes;
      this.data := data;
      this.rowCount := rowCount;
    }

    /**
     * `df.columns = [...]; return df`: every label sanitised on its own, the
     * same number of columns in the same order, the dtypes and values as
     * they were, and the frame itself returned.
     */
    method CleanColumnNames() returns (r: DataFrame<V>)
      requires Valid()
      modifies this`columns
      ensures r == this && Valid()
      ensures columns == CleanNames(old(columns))
      ensures dtypes == old(dtypes) && data == old(data) && rowCount == old(rowCount)
    {
      columns := CleanNames(columns);
      r := this;
    }

    /**
     * The statement `create_table` builds for this frame. A valid frame has a
     * dtype for every label, so `zip` drops no column; with plain-word
     * names the statement reads back as one declaration per label.
     */
    method CreateStatement(table: string) returns (statement: string)
      requires Valid()
      ensures statement == CreateTableStatement(table, columns, dtypes)
      ensures |Schema(columns, dtypes)| == |columns|
      ensures AllWordChars(table) && (forall i :: 0 <= i < |columns| ==> AllWordChars(columns[i])) ==>
        ParseCreate(statement) == Some((table, Schema(columns, dtypes)))
    {
      statement := CreateTableStatement(table, columns, dtypes);
      if AllWordChars(table) && (forall i :: 0 <= i < |columns| ==> AllWordChars(columns[i])) {
        CreateRoundTrip(table, columns, dtypes);
      }
    }

    /**
     * What `insert_dataframe_to_rds` hands to `execute_batch`: the template
     * and the row tuples. The template reads back as the table and the
     * labels; every tuple supplies one value per placeholder, in label order.
     */
    method InsertPlan(table: string) returns (template: string, tuples: seq<seq<V>>)
      requires Valid()
      ensures ParseInsert(template) == Some((table, columns, |columns|))
      ensures |tuples| == rowCount
      ensures forall i :: 0 <= i < |tuples| ==> |tuples[i]| == |columns|
      ensures forall i, j :: 0 <= i < |tuples| && 0 <= j < |columns| ==> tuples[i][j] == data[j][i]
    {
      template := InsertTemplate(table, columns);
      InsertRoundTrip(table, columns);
      tuples := RowTuples(data, rowCount);
    }
  }

  /** Cleaning a frame's labels a second time changes nothing. */
  method CleanTwice<V>(df: DataFrame<V>)
    requires df.Valid()
    modifies df`columns
    ensures df.columns == CleanNames(old(df.columns))
  {
    var once := df.CleanColumnNames();
    var labels := df.columns;
    var twice := once.CleanColumnNames();
    CleanNamesIdempotent(old(df.columns));
    assert df.columns == labels;
  }
}
