/**
 * The column tables every warehouse table and every batch is held to:
 * the BigQuery schema used when a table is created, and the pandas dtype map
 * used to conform a batch before it is loaded (src/lib/schemas.py).
 */
module Schemas {
  import opened Wrappers

  /** BigQuery field types the schema uses. */
  datatype BqType = String | Timestamp | Float | Integer

  /** BigQuery field modes. */
  datatype Mode = Nullable | Required

  datatype SchemaField = SchemaField(name: string, fieldType: BqType, mode: Mode)

  /** The pandas dtypes the dtype map uses. */
  datatype DfType = Object | Datetime64 | Float64 | Int64

  /**
   * One cell of a frame or of a warehouse row. `Null` stands for None, NaN and
   * NaT alike (what pandas' isnull reports and what BigQuery stores as NULL);
   * floats are kept as reals, their rounding is not modelled; timestamps are
   * whole seconds.
   */
  datatype Value = Null | Str(s: string) | Int(i: int) | Real(x: real) | Time(seconds: int)

  /** The two columns that together identify an observation. */
  const SegmentIdColumn: string := "segmentid"
  const LastUpdtColumn: string := "_last_updt"

  /** The BigQuery type pandas-gbq derives for a column of the given dtype. */
  function BqTypeOf(t: DfType): BqType {
    match t
    case Object => String
    case Datetime64 => Timestamp
    case Float64 => Float
    case Int64 => Integer
  }

  /** The dtype the dtype map pairs with a BigQuery type. */
  function DfTypeOf(t: BqType): DfType {
    match t
    case String => Object
    case Timestamp => Datetime64
    case Float => Float64
    case Integer => Int64
  }

  /** The two correspondences are inverse to each other. */
  lemma TypeCorrespondenceInverse()
    ensures forall t: BqType :: BqTypeOf(DfTypeOf(t)) == t
    ensures forall d: DfType :: DfTypeOf(BqTypeOf(d)) == d
  {
  }

  predicate Distinct(s: seq<string>) {
    forall i, j :: 0 <= i < j < |s| ==> s[i] != s[j]
  }

  function Names(fields: seq<SchemaField>): seq<string> {
    seq(|fields|, i requires 0 <= i < |fields| => fields[i].name)
  }

  /** The type of the column called `name`, if the schema has one. */
  function FieldType(fields: seq<SchemaField>, name: string): (r: Option<BqType>)
    ensures r.Some? <==> exists i :: 0 <= i < |fields| && fields[i].name == name
    ensures r.Some? ==> exists i :: 0 <= i < |fields| && fields[i] == SchemaField(name, r.value, fields[i].mode)
  {
    if |fields| == 0 then None
    else if fields[0].name == name then Some(fields[0].fieldType)
    else
      var r := FieldType(fields[1..], name);
      assert forall i :: 1 <= i < |fields| ==> fields[i] == fields[1..][i - 1];
      r
  }

  /** The schema every managed table is created with (schema_bq). */
  function SchemaBq(): (s: seq<SchemaField>)
    ensures |s| == 14
    ensures forall i :: 0 <= i < |s| ==> s[i].mode == Nullable
    ensures s[11] == SchemaField(SegmentIdColumn, Integer, Nullable)
    ensures s[3] == SchemaField(LastUpdtColumn, Timestamp, Nullable)
  {
    [ SchemaField("_comments", String, Nullable),
      SchemaField("_direction", String, Nullable),
      SchemaField("_fromst", String, Nullable),
      SchemaField("_last_updt", Timestamp, Nullable),
      SchemaField("_length", Float, Nullable),
      SchemaField("_lif_lat", Float, Nullable),
      SchemaField("_lit_lat", Float, Nullable),
      SchemaField("_lit_lon", Float, Nullable),
      SchemaField("_strheading", String, Nullable),
      SchemaField("_tost", String, Nullable),
      SchemaField("_traffic", Integer, Nullable),
      SchemaField("segmentid", Integer, Nullable),
      SchemaField("start_lon", Float, Nullable),
      SchemaField("street", String, Nullable) ]
  }

  /**
   * The dtype map a batch is conformed with (schema_df), as its entries in
   * insertion order, which is the order convert_schema visits them in.
   */
  function SchemaDf(): (d: seq<(string, DfType)>)
    ensures |d| == |SchemaBq()|
    ensures forall i :: 0 <= i < |d| ==> d[i] == (SchemaBq()[i].name, DfTypeOf(SchemaBq()[i].fieldType))
  {
    [ ("_comments", Object),
      ("_direction", Object),
      ("_fromst", Object),
      ("_last_updt", Datetime64),
      ("_length", Float64),
      ("_lif_lat", Float64),
      ("_lit_lat", Float64),
      ("_lit_lon", Float64),
      ("_strheading", Object),
      ("_tost", Object),
      ("_traffic", Int64),
      ("segmentid", Int64),
      ("start_lon", Float64),
      ("street", Object) ]
  }

  /** The column names of the dtype map, in order. */
  function Keys(d: seq<(string, DfType)>): seq<string> {
    seq(|d|, i requires 0 <= i < |d| => d[i].0)
  }

  /** Both tables name the same fourteen columns, once each, in the same order. */
  lemma SchemasNameSameColumns()
    ensures Keys(SchemaDf()) == Names(SchemaBq())
    ensures Distinct(Names(SchemaBq()))
  {
    var n := Names(SchemaBq());
    assert n == ["_comments", "_direction", "_fromst", "_last_updt", "_length", "_lif_lat", "_lit_lat",
                 "_lit_lon", "_strheading", "_tost", "_traffic", "segmentid", "start_lon", "street"];
  }
}
