/**
 * The in-memory batch: a pandas DataFrame whose columns the ingestion stage
 * rewrites in place.
 */
module Frames {
  import opened Schemas

  /** The content of a frame, column by column: labels, dtypes and values. */
  datatype Frame = Frame(names: seq<string>, dtypes: seq<DfType>, columns: seq<seq<Value>>, nrows: nat)

  /** One dtype and one column of `nrows` values per label, and no label twice. */
  predicate WellFormed(f: Frame) {
    && |f.dtypes| == |f.names|
    && |f.columns| == |f.names|
    && Distinct(f.names)
    && forall j :: 0 <= j < |f.columns| ==> |f.columns[j]| == f.nrows
  }

  /** A DataFrame object; stages that receive it may change its columns in place. */
  class DataFrame {
    var names: seq<string>
    var dtypes: seq<DfType>
    var columns: seq<seq<Value>>
    var nrows: nat

    function Content(): Frame
      reads this
    {
      Frame(names, dtypes, columns, nrows)
    }

    predicate Valid()
      reads this
    {
      WellFormed(Content())
    }

    /** pd.DataFrame.from_records: a new frame holding the given content. */
    constructor (f: Frame)
      requires WellFormed(f)
      ensures Valid() && Content() == f
    {
      names, dtypes, columns, nrows := f.names, f.dtypes, f.columns, f.nrows;
    }
  }
}
