/**
 * The batch-side stages (src/lib/data_ingestion.py): conforming a frame's
 * dtypes to the dtype map in place, the advisory null audit, archiving the raw
 * batch, and appending the batch to the raw table.
 */
module Ingestion {
  import opened Wrappers
  import opened Errors
  import opened Schemas
  import opened Tables
  import opened Frames
  import opened Cloud

  /** The location pandas-gbq is told to use for the load. */
  const LoadLocation: string := "US"

  // ---------------------------------------------------------------------------
  // convert_schema

  /** The position of the column labelled `k`. */
  function IndexOf(names: seq<string>, k: string): (r: Option<nat>)
    ensures r.None? <==> k !in names
    ensures r.Some? ==> r.value < |names| && names[r.value] == k
  {
    if |names| == 0 then None
    else if names[0] == k then Some(0)
    else match IndexOf(names[1..], k)
      case None => None
      case Some(j) => Some(j + 1)
  }

  /** The dtype the map gives column `k`, if it names it. */
  function Lookup(schema: seq<(string, DfType)>, k: string): (r: Option<DfType>)
    ensures r.None? <==> k !in Keys(schema)
    ensures r.Some? ==> exists i :: 0 <= i < |schema| && schema[i] == (k, r.value)
  {
    if |schema| == 0 then None
    else if schema[0].0 == k then assert Keys(schema)[0] == k; Some(schema[0].1)
    else
      var r := Lookup(schema[1..], k);
      assert Keys(schema) == [schema[0].0] + Keys(schema[1..]);
      assert forall i :: 1 <= i < |schema| ==> schema[i] == schema[1..][i - 1];
      r
  }

  /**
   * Series.astype(t) with the per-cell converter `conv`: every cell converted,
   * or failure when some cell cannot be.
   */
  function AsType(t: DfType, col: seq<Value>, conv: (DfType, Value) -> Option<Value>): (r: Option<seq<Value>>)
    ensures r.Some? <==> forall i :: 0 <= i < |col| ==> conv(t, col[i]).Some?
    ensures r.Some? ==> |r.value| == |col| && forall i :: 0 <= i < |col| ==> r.value[i] == conv(t, col[i]).value
  {
    if |col| == 0 then Some([])
    else
      var rest := AsType(t, col[1..], conv);
      assert forall i :: 1 <= i < |col| ==> col[i] == col[1..][i - 1];
      match conv(t, col[0])
      case None => None
      case Some(v) => if rest.None? then None else Some([v] + rest.value)
  }

  /** `results_df[k] = results_df[k].astype(v)` for one entry of the map. */
  function ConvertStep(f: Frame, entry: (string, DfType), conv: (DfType, Value) -> Option<Value>): (r: Result<Frame, Error>)
    requires WellFormed(f)
    ensures r.Success? ==> WellFormed(r.value) && r.value.names == f.names && r.value.nrows == f.nrows
    ensures r.Failure? ==> r.error == KeyError(entry.0) || r.error == ConversionError(entry.0)
    ensures r.Failure? ==> (r.error == KeyError(entry.0) <==> entry.0 !in f.names)
    ensures entry.0 !in f.names ==> r == Failure(KeyError(entry.0))
    ensures entry.0 in f.names ==>
      var j := IndexOf(f.names, entry.0).value;
      && (r.Success? <==> forall i :: 0 <= i < f.nrows ==> conv(entry.1, f.columns[j][i]).Some?)
      && (r.Success? ==>
          && r.value.dtypes == f.dtypes[j := entry.1]
          && (forall i :: 0 <= i < f.nrows ==> r.value.columns[j][i] == conv(entry.1, f.columns[j][i]).value)
          && (forall k :: 0 <= k < |f.names| && k != j ==> r.value.columns[k] == f.columns[k]))
  {
    match IndexOf(f.names, entry.0)
    case None => Failure(KeyError(entry.0))
    case Some(j) =>
      assert |f.columns[j]| == f.nrows;
      match AsType(entry.1, f.columns[j], conv)
      case None =>
        assert exists i :: 0 <= i < f.nrows && conv(entry.1, f.columns[j][i]).None?;
        assert j == IndexOf(f.names, entry.0).value;
        Failure(ConversionError(entry.0))
      case Some(c) => Success(f.(dtypes := f.dtypes[j := entry.1], columns := f.columns[j := c]))
  }

  /** The frame convert_schema leaves behind, and the error it raises, if any. */
  datatype Conversion = Conversion(frame: Frame, error: Option<Error>)

  /**
   * The map's entries applied in dict order; the first failing entry raises
   * and leaves the frame as the entries before it made it.
   */
  function ConvertAll(f: Frame, schema: seq<(string, DfType)>, conv: (DfType, Value) -> Option<Value>): (c: Conversion)
    requires WellFormed(f)
    ensures WellFormed(c.frame) && c.frame.names == f.names && c.frame.nrows == f.nrows
    decreases |schema|
  {
    if |schema| == 0 then Conversion(f, None)
    else match ConvertStep(f, schema[0], conv)
      case Failure(e) => Conversion(f, Some(e))
      case Success(g) => ConvertAll(g, schema[1..], conv)
  }

  /**
   * A conversion that raises nothing has converted every column the map
   * names (each map key is a column of the frame) and left every other column,
   * and its dtype, as it was.
   */
  lemma {:induction false} ConvertAllConverts(f: Frame, schema: seq<(string, DfType)>, conv: (DfType, Value) -> Option<Value>)
    requires WellFormed(f) && Distinct(Keys(schema))
    requires ConvertAll(f, schema, conv).error.None?
    ensures forall i :: 0 <= i < |schema| ==> schema[i].0 in f.names
    ensures forall j :: 0 <= j < |f.names| ==>
      var g := ConvertAll(f, schema, conv).frame;
      match Lookup(schema, f.names[j])
      case Some(t) => g.dtypes[j] == t && AsType(t, f.columns[j], conv) == Some(g.columns[j])
      case None => g.dtypes[j] == f.dtypes[j] && g.columns[j] == f.columns[j]
    decreases |schema|
  {
    if |schema| > 0 {
      var e, rest := schema[0], schema[1..];
      var j0 := IndexOf(f.names, e.0).value;
      var g1 := ConvertStep(f, e, conv).value;
      assert Keys(schema) == [e.0] + Keys(rest);
      assert Distinct(Keys(rest)) by {
        forall a, b | 0 <= a < b < |Keys(rest)| ensures Keys(rest)[a] != Keys(rest)[b] {
          assert Keys(rest)[a] == Keys(schema)[a + 1] && Keys(rest)[b] == Keys(schema)[b + 1];
        }
      }
      assert e.0 !in Keys(rest) by {
        forall a | 0 <= a < |Keys(rest)| ensures Keys(rest)[a] != e.0 {
          assert Keys(rest)[a] == Keys(schema)[a + 1] && Keys(schema)[0] == e.0;
        }
      }
      ConvertAllConverts(g1, rest, conv);
      forall i | 0 <= i < |schema| ensures schema[i].0 in f.names {
        if i > 0 { assert schema[i] == rest[i - 1]; }
      }
      forall j | 0 <= j < |f.names|
        ensures var g := ConvertAll(f, schema, conv).frame;
          match Lookup(schema, f.names[j])
          case Some(t) => g.dtypes[j] == t && AsType(t, f.columns[j], conv) == Some(g.columns[j])
          case None => g.dtypes[j] == f.dtypes[j] && g.columns[j] == f.columns[j]
      {
        if j == j0 {
          assert Lookup(rest, f.names[j]).None?;
        } else {
          assert f.names[j] != e.0 by { assert Distinct(f.names); }
        }
      }
    }
  }

  /** Entry p is where the conversion stopped, and the error it raised. */
  predicate StopsAt(f: Frame, schema: seq<(string, DfType)>, conv: (DfType, Value) -> Option<Value>, p: int, c: Conversion)
    requires WellFormed(f)
  {
    && 0 <= p < |schema|
    && c.error.Some?
    && ConvertAll(f, schema[..p], conv) == Conversion(c.frame, None)
    && ConvertStep(c.frame, schema[p], conv) == Failure(c.error.value)
    && (c.error.value == KeyError(schema[p].0) <==> schema[p].0 !in f.names)
  }

  /** Where the rest of the map stops after a successful first entry, the whole map stops one entry later. */
  lemma StopsAtShift(f: Frame, schema: seq<(string, DfType)>, conv: (DfType, Value) -> Option<Value>, q: int, c: Conversion)
    requires WellFormed(f) && |schema| > 0 && ConvertStep(f, schema[0], conv).Success?
    requires StopsAt(ConvertStep(f, schema[0], conv).value, schema[1..], conv, q, c)
    ensures StopsAt(f, schema, conv, q + 1, c)
  {
    var g, rest := ConvertStep(f, schema[0], conv).value, schema[1..];
    var pre := schema[..q + 1];
    assert pre[0] == schema[0] && pre[1..] == rest[..q];
    assert ConvertAll(f, pre, conv) == ConvertAll(g, rest[..q], conv);
    assert schema[q + 1] == rest[q] && g.names == f.names;
  }

  /**
   * A conversion that raises stops at some entry p: all entries before p went
   * through and the frame is exactly what they made it; entry p raises
   * KeyError when its column is missing from the frame and a conversion error
   * otherwise.
   */
  lemma {:induction false} ConvertAllStops(f: Frame, schema: seq<(string, DfType)>, conv: (DfType, Value) -> Option<Value>)
    requires WellFormed(f)
    requires ConvertAll(f, schema, conv).error.Some?
    ensures exists p :: StopsAt(f, schema, conv, p, ConvertAll(f, schema, conv))
    decreases |schema|
  {
    var c := ConvertAll(f, schema, conv);
    var step := ConvertStep(f, schema[0], conv);
    if step.Failure? {
      assert schema[..0] == [];
      assert StopsAt(f, schema, conv, 0, c);
    } else {
      var g, rest := step.value, schema[1..];
      assert c == ConvertAll(g, rest, conv);
      ConvertAllStops(g, rest, conv);
      var q :| StopsAt(g, rest, conv, q, c);
      StopsAtShift(f, schema, conv, q, c);
    }
  }

  /**
   * convert_schema: rewrites the frame's columns in place, entry by entry, and
   * returns the same frame object. A missing column raises KeyError with the
   * earlier entries already applied.
   */
  method ConvertSchema(df: DataFrame, schema: seq<(string, DfType)>, conv: (DfType, Value) -> Option<Value>)
    returns (r: Result<DataFrame, Error>)
    requires df.Valid()
    modifies df
    ensures df.Valid()
    ensures df.Content() == ConvertAll(old(df.Content()), schema, conv).frame
    ensures r == match ConvertAll(old(df.Content()), schema, conv).error
                 case None => Success(df)
                 case Some(e) => Failure(e)
  {
    for k := 0 to |schema|
      invariant df.Valid()
      invariant ConvertAll(old(df.Content()), schema, conv) == ConvertAll(df.Content(), schema[k..], conv)
    {
      var (name, dtype) := schema[k];
      assert schema[k..][0] == schema[k] && schema[k..][1..] == schema[k + 1..];
      var j := IndexOf(df.names, name);
      if j.None? {
        return Failure(KeyError(name));
      }
      var converted := AsType(dtype, df.columns[j.value], conv);
      if converted.None? {
        return Failure(ConversionError(name));
      }
      df.columns := df.columns[j.value := converted.value];
      df.dtypes := df.dtypes[j.value := dtype];
    }
    assert schema[|schema|..] == [];
    r := Success(df);
  }

  // ---------------------------------------------------------------------------
  // The null audit (advisory: its findings are printed, never acted on)

  /** The labels of the columns holding at least one null, in column order. */
  function NullColumns(names: seq<string>, columns: seq<seq<Value>>): (r: seq<string>)
    requires |names| == |columns|
    ensures |r| <= |names|
    ensures forall x :: x in r <==> exists j :: 0 <= j < |names| && names[j] == x && Null in columns[j]
    decreases |names|
  {
    if |names| == 0 then []
    else
      var n := |names| - 1;
      var r := NullColumns(names[..n], columns[..n]);
      assert forall j :: 0 <= j < n ==> names[..n][j] == names[j] && columns[..n][j] == columns[j];
      r + (if Null in columns[n] then [names[n]] else [])
  }

  /**
   * check_nulls, as its comments intend: the columns containing at least one
   * null, in column order, and the frame untouched. (The code as written
   * tests `check_bool[v] == False`, indexing the per-column result by the
   * boolean v rather than taking v; what that yields depends on the pandas
   * version, and when it raises, the `except` clause at data_ingestion.py:100-101
   * prints the error and check_nulls returns None.)
   */
  method CheckNulls(df: DataFrame) returns (r: Option<seq<string>>)
    requires df.Valid()
    ensures r == Some(NullColumns(df.names, df.columns))
  {
    var nullColumns: seq<string> := [];
    var columns := df.columns;
    var checkBool := seq(|columns|, j requires 0 <= j < |columns| => Null in columns[j]);
    for k := 0 to |df.names|
      invariant nullColumns == NullColumns(df.names[..k], df.columns[..k])
    {
      assert df.names[..k + 1][..k] == df.names[..k] && df.columns[..k + 1][..k] == df.columns[..k];
      if checkBool[k] {
        nullColumns := nullColumns + [df.names[k]];
      }
    }
    assert df.names[..|df.names|] == df.names && df.columns[..|df.columns|] == df.columns;
    r := Some(nullColumns);
  }

  /** The null columns not expected to hold nulls, in their order. */
  function Outliers(nullColumns: seq<string>, expected: seq<string>): (r: seq<string>)
    ensures |r| <= |nullColumns|
    ensures forall x :: x in r <==> x in nullColumns && x !in expected
    decreases |nullColumns|
  {
    if |nullColumns| == 0 then []
    else
      var n := |nullColumns| - 1;
      var r := Outliers(nullColumns[..n], expected);
      assert nullColumns == nullColumns[..n] + [nullColumns[n]];
      r + (if nullColumns[n] !in expected then [nullColumns[n]] else [])
  }

  /**
   * check_null_outliers, as its comments intend: every null column not among
   * the expected ones, order kept. A None input (check_nulls having failed)
   * cannot be iterated; the `except` clause at data_ingestion.py:112-113
   * prints the error and check_null_outliers returns None.
   */
  method CheckNullOutliers(nullColumns: Option<seq<string>>, expected: seq<string>) returns (r: Option<seq<string>>)
    ensures nullColumns.None? ==> r.None?
    ensures nullColumns.Some? ==> r == Some(Outliers(nullColumns.value, expected))
  {
    if nullColumns.None? {
      return None;
    }
    var cols := nullColumns.value;
    var nullOutliers: seq<string> := [];
    for k := 0 to |cols|
      invariant nullOutliers == Outliers(cols[..k], expected)
    {
      assert cols[..k + 1][..k] == cols[..k];
      if cols[k] !in expected {
        nullOutliers := nullOutliers + [cols[k]];
      }
    }
    assert cols[..|cols|] == cols;
    r := Some(nullOutliers);
  }

  /** Null columns `_comments` and `_traffic`, with `_comments` expected, leave `[_traffic]`. */
  lemma OutliersExample()
    ensures Outliers(["_comments", "_traffic"], ["_comments"]) == ["_traffic"]
  {
    assert ["_comments", "_traffic"][..1] == ["_comments"];
    assert ["_comments"][..0] == [];
    assert "_traffic" != "_comments" by { assert "_traffic"[1] != "_comments"[1]; }
  }

  /** Python's `x in s` for a string s: x occurs in s contiguously. */
  predicate IsSubstring(x: string, s: string)
    decreases |s|
  {
    |x| <= |s| && (s[..|x|] == x || (|s| > 0 && IsSubstring(x, s[1..])))
  }

  /**
   * check_null_outliers as written, called the way the handler calls it:
   * nulls_expected is the plain string '_comments', so membership is a
   * substring test, and `x` is not in scope after the generator, so as soon
   * as some column is not expected the append raises NameError; the `except`
   * clause at data_ingestion.py:112-113 prints it and check_null_outliers
   * returns None. It never reports an outlier.
   */
  function CheckNullOutliersAsWritten(nullColumns: Option<seq<string>>, nullsExpected: string): (r: Option<seq<string>>)
    ensures r == None || r == Some([])
    ensures r == Some([]) <==> nullColumns.Some? && forall i :: 0 <= i < |nullColumns.value| ==> IsSubstring(nullColumns.value[i], nullsExpected)
  {
    match nullColumns
    case None => None
    case Some(cols) =>
      if exists i :: 0 <= i < |cols| && !IsSubstring(cols[i], nullsExpected) then None
      else Some([])
  }

  /**
   * Whenever the intended audit finds an outlier (one that is not part of the
   * expected string), the audit as written returns None instead.
   */
  lemma AsWrittenLosesOutliers(cols: seq<string>, nullsExpected: string, x: string)
    requires x in Outliers(cols, [nullsExpected]) && !IsSubstring(x, nullsExpected)
    ensures CheckNullOutliersAsWritten(Some(cols), nullsExpected) == None
  {
    var i :| 0 <= i < |cols| && cols[i] == x;
  }

  /** The same null columns, as written: None where `[_traffic]` is intended. */
  lemma AsWrittenExample()
    ensures CheckNullOutliersAsWritten(Some(["_comments", "_traffic"]), "_comments") == None
    ensures Outliers(["_comments", "_traffic"], ["_comments"]) == ["_traffic"]
  {
    OutliersExample();
    var s := "_comments";
    assert !IsSubstring("_traffic", s) by {
      assert s[..8] != "_traffic" by { assert s[..8][1] != "_traffic"[1]; }
      assert s[1..][..8] != "_traffic" by { assert s[1..][..8][0] != "_traffic"[0]; }
      assert !IsSubstring("_traffic", s[1..][1..]);
    }
    assert ["_comments", "_traffic"][1] == "_traffic";
  }

  // ---------------------------------------------------------------------------
  // Archive and load

  /**
   * upload_raw_data_gcs, abstracted: the unconverted batch is added to the
   * bucket's objects; the local file, its name and its encoding are not modelled.
   */
  method UploadRawDataGcs(w: Warehouse, df: DataFrame, bucketName: string) returns (r: Result<(), Error>)
    requires w.Valid()
    modifies w
    ensures w.Valid()
    ensures w.datasets == old(w.datasets) && w.tables == old(w.tables)
    ensures bucketName !in old(w.buckets) ==> r == Failure(BucketNotFound(bucketName)) && unchanged(w)
    ensures bucketName in old(w.buckets) ==>
      && r == Success(())
      && w.buckets == old(w.buckets)[bucketName := old(w.buckets[bucketName]).(objects := old(w.buckets[bucketName]).objects + [df.Content()])]
      && w.log == old(w.log) + [Archived(bucketName)]
  {
    if bucketName !in w.buckets {
      return Failure(BucketNotFound(bucketName));
    }
    var bucket := w.buckets[bucketName];
    w.buckets := w.buckets[bucketName := bucket.(objects := bucket.objects + [df.Content()])];
    w.log := w.log + [Archived(bucketName)];
    r := Success(());
  }

  /** The key a cell yields once loaded: only an integer cell gives a segment id. */
  function SegmentIdOf(v: Value): Option<int> {
    if v.Int? then Some(v.i) else None
  }

  /** Only a timestamp cell gives an event time. */
  function LastUpdtOf(v: Value): Option<int> {
    if v.Time? then Some(v.seconds) else None
  }

  /** The cell of column `name` in row i; a column the frame lacks loads as NULL. */
  function CellOf(f: Frame, name: string, i: nat): Value
    requires WellFormed(f) && i < f.nrows
  {
    match IndexOf(f.names, name)
    case None => Null
    case Some(j) => f.columns[j][i]
  }

  /** The warehouse rows a frame becomes, one per frame row, in order. */
  function RowsOf(f: Frame): (rows: seq<Row>)
    requires WellFormed(f)
  {
    seq(f.nrows, i requires 0 <= i < f.nrows =>
      Row(SegmentIdOf(CellOf(f, SegmentIdColumn, i)), LastUpdtOf(CellOf(f, LastUpdtColumn, i)),
          seq(|f.columns|, j requires 0 <= j < |f.columns| => f.columns[j][i])))
  }

  /** The schema pandas-gbq derives from a frame's dtypes. */
  function InferSchema(f: Frame): seq<SchemaField>
    requires WellFormed(f)
  {
    seq(|f.names|, j requires 0 <= j < |f.names| => SchemaField(f.names[j], BqTypeOf(f.dtypes[j]), Nullable))
  }

  /** pandas-gbq's check before appending: every field to upload is a field of the table, by name and type. */
  predicate FitsSchema(fields: seq<SchemaField>, target: seq<SchemaField>) {
    forall i :: 0 <= i < |fields| ==>
      exists k :: 0 <= k < |target| && target[k].name == fields[i].name && target[k].fieldType == fields[i].fieldType
  }

  /**
   * A batch whose columns are all named by a dtype map that pairs each field of
   * a schema with its dtype fits that schema once conformed.
   */
  lemma ConformedFits(f: Frame, dtypeMap: seq<(string, DfType)>, fields: seq<SchemaField>,
                      conv: (DfType, Value) -> Option<Value>)
    requires WellFormed(f) && Distinct(Keys(dtypeMap))
    requires |dtypeMap| == |fields|
    requires forall i :: 0 <= i < |dtypeMap| ==> dtypeMap[i] == (fields[i].name, DfTypeOf(fields[i].fieldType))
    requires forall j :: 0 <= j < |f.names| ==> f.names[j] in Keys(dtypeMap)
    requires ConvertAll(f, dtypeMap, conv).error.None?
    ensures FitsSchema(InferSchema(ConvertAll(f, dtypeMap, conv).frame), fields)
  {
    var g := ConvertAll(f, dtypeMap, conv).frame;
    ConvertAllConverts(f, dtypeMap, conv);
    var inferred := InferSchema(g);
    forall i | 0 <= i < |inferred|
      ensures exists k :: 0 <= k < |fields| && fields[k].name == inferred[i].name && fields[k].fieldType == inferred[i].fieldType
    {
      var t := Lookup(dtypeMap, f.names[i]).value;
      assert g.dtypes[i] == t;
      var k :| 0 <= k < |dtypeMap| && dtypeMap[k] == (f.names[i], t);
      assert BqTypeOf(DfTypeOf(fields[k].fieldType)) == fields[k].fieldType by { TypeCorrespondenceInverse(); }
      assert fields[k].name == inferred[i].name && fields[k].fieldType == inferred[i].fieldType;
    }
  }

  /** A batch whose columns are all in the dtype map fits the managed tables' schema once conformed. */
  lemma ConformedFitsSchemaBq(f: Frame, conv: (DfType, Value) -> Option<Value>)
    requires WellFormed(f)
    requires forall j :: 0 <= j < |f.names| ==> f.names[j] in Keys(SchemaDf())
    requires ConvertAll(f, SchemaDf(), conv).error.None?
    ensures FitsSchema(InferSchema(ConvertAll(f, SchemaDf(), conv).frame), SchemaBq())
  {
    SchemasNameSameColumns();
    ConformedFits(f, SchemaDf(), SchemaBq(), conv);
  }

  /**
   * upload_to_gbq: to_gbq with if_exists='append'. An existing table gets the
   * frame's rows appended, with no de-duplication, provided the frame fits
   * its schema; otherwise InvalidSchema is re-raised. A missing table is
   * created (with its dataset, if that is missing too) from the frame's schema.
   */
  method UploadToGbq(w: Warehouse, df: DataFrame, ds: string, tbl: string) returns (r: Result<(), Error>)
    requires w.Valid() && df.Valid()
    modifies w
    ensures w.Valid()
    ensures w.buckets == old(w.buckets)
    ensures TableRef(ds, tbl) in old(w.tables) ==>
      var t := old(w.tables[TableRef(ds, tbl)]);
      if FitsSchema(InferSchema(df.Content()), t.schema) then
        && r == Success(())
        && w.datasets == old(w.datasets)
        && w.tables == old(w.tables)[TableRef(ds, tbl) := t.(rows := t.rows + RowsOf(df.Content()))]
        && w.log == old(w.log) + [Loaded(TableRef(ds, tbl))]
      else r == Failure(InvalidSchema(tbl)) && unchanged(w)
    ensures TableRef(ds, tbl) !in old(w.tables) ==>
      && r == Success(())
      && w.datasets == (if ds in old(w.datasets) then old(w.datasets) else old(w.datasets)[ds := Dataset(LoadLocation)])
      && w.tables == old(w.tables)[TableRef(ds, tbl) := Table(tbl, InferSchema(df.Content()), None, "", RowsOf(df.Content()))]
      && w.log == old(w.log) + [Loaded(TableRef(ds, tbl))]
  {
    var ref := TableRef(ds, tbl);
    var frame := df.Content();
    var rows := RowsOf(frame);
    if ref in w.tables {
      var t := w.tables[ref];
      if !FitsSchema(InferSchema(frame), t.schema) {
        return Failure(InvalidSchema(tbl));
      }
      w.tables := w.tables[ref := t.(rows := t.rows + rows)];
    } else {
      if ds !in w.datasets {
        w.datasets := w.datasets[ds := Dataset(LoadLocation)];
      }
      w.tables := w.tables[ref := Table(tbl, InferSchema(frame), None, "", rows)];
    }
    w.log := w.log + [Loaded(ref)];
    r := Success(());
  }
}
