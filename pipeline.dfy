/**
 * One scheduled run (src/main.py, handler): provision the bucket and the three
 * tables, fetch, archive, conform, audit, load the raw table, restage the
 * delta and merge it into final. A stage that raises ends the run; the stages
 * already done keep their effect.
 */
module Pipeline {
  import opened Wrappers
  import opened Errors
  import opened Schemas
  import opened Tables
  import opened Frames
  import opened Cloud
  import opened Infrastructure
  import opened BqApi
  import opened Ingestion

  const BucketName: string := "chicago_traffic_raw"
  const DatasetName: string := "chicago_traffic_demo"
  const RawTable: string := "traffic_raw"
  const RawDesc: string := "Raw, public Chicago traffic data is appended to this table every 5 minutes"
  const StagingTable: string := "traffic_staging"
  const StagingDesc: string := "Unique records greater than or equal to current date from table: " + RawTable
  const FinalTable: string := "traffic_final"
  const FinalDesc: string := "Unique, historical records accumulated from table: " + RawTable
  /**
   * The columns allowed to hold nulls. The handler writes ('_comments'),
   * which is a plain string rather than a one-element tuple; the audit here
   * takes the evidently intended collection.
   */
  const NullsExpected: seq<string> := ["_comments"]
  /** Every managed table is partitioned by day on the event time. */
  const PartitionBy: string := LastUpdtColumn

  const RawRef: TableRef := TableRef(DatasetName, RawTable)
  const StagingRef: TableRef := TableRef(DatasetName, StagingTable)
  const FinalRef: TableRef := TableRef(DatasetName, FinalTable)

  /** The partition column is a TIMESTAMP column of the managed tables' schema. */
  lemma PartitionColumnIsTimestamp()
    ensures FieldType(SchemaBq(), PartitionBy) == Some(Timestamp)
  {
    assert SchemaBq()[0].name != PartitionBy && SchemaBq()[1].name != PartitionBy && SchemaBq()[2].name != PartitionBy;
    assert SchemaBq()[1..][1..][1..][0] == SchemaBq()[3];
  }

  /** The tables after the three create_dataset_table calls. */
  function ProvisionedAll(tables: map<TableRef, Table>): (p: map<TableRef, Table>)
    ensures RawRef in p && StagingRef in p && FinalRef in p
  {
    var t1 := ProvisionedTables(tables, RawRef, RawDesc, SchemaBq(), PartitionBy);
    var t2 := ProvisionedTables(t1, StagingRef, StagingDesc, SchemaBq(), PartitionBy);
    ProvisionedTables(t2, FinalRef, FinalDesc, SchemaBq(), PartitionBy)
  }

  /** The buckets after create_bucket and the archive of the fetched batch. */
  function ArchivedBuckets(buckets: map<string, Bucket>, fetched: Frame): map<string, Bucket> {
    var b := if BucketName in buckets then buckets[BucketName] else Bucket(BucketLocation, []);
    buckets[BucketName := b.(objects := b.objects + [fetched])]
  }

  /**
   * Lines 66-68 of the handler: staging becomes the raw rows at or after the mark and final
   * gains their anti-join against it; None when today has no row (the run
   * stops before any write).
   */
  function Tail(raw: seq<Row>, final: seq<Row>, dayStart: int): Option<(seq<Row>, seq<Row>)> {
    match MaxToday(raw, dayStart)
    case None => None
    case Some(m) =>
      var staging := SelectSince(raw, m);
      Some((staging, final + AntiJoin(staging, final)))
  }

  /** What lines 53-68 of the handler leave in the three managed tables, and how the run ends. */
  datatype CycleOutcome = CycleOutcome(
    result: Result<(), Error>, raw: seq<Row>, staging: seq<Row>, final: seq<Row>, stages: seq<Stage>)

  /**
   * The data path once convert_schema has returned: an error it raised ends
   * the run; a frame that does not fit the raw table ends it at the load;
   * otherwise raw gains the batch and the tail follows.
   */
  function CycleFrom(tables: map<TableRef, Table>, c: Conversion, dayStart: int): CycleOutcome
    requires WellFormed(c.frame) && RawRef in tables && StagingRef in tables && FinalRef in tables
  {
    var raw, staging, final := tables[RawRef].rows, tables[StagingRef].rows, tables[FinalRef].rows;
    if c.error.Some? then CycleOutcome(Failure(c.error.value), raw, staging, final, [])
    else if !FitsSchema(InferSchema(c.frame), tables[RawRef].schema) then
      CycleOutcome(Failure(InvalidSchema(RawTable)), raw, staging, final, [])
    else
      var raw' := raw + RowsOf(c.frame);
      match Tail(raw', final, dayStart)
      case None => CycleOutcome(Failure(NullMaxTimestamp), raw', staging, final, [Loaded(RawRef)])
      case Some((staging', final')) =>
        CycleOutcome(Success(()), raw', staging', final', [Loaded(RawRef), Staged(StagingRef), Merged(FinalRef)])
  }

  /**
   * The data path of one run over provisioned tables: conform the batch to the
   * dtype map, then go on as CycleFrom says. The null audit has no part in it.
   */
  function Cycle(tables: map<TableRef, Table>, fetched: Frame, dayStart: int,
                 conv: (DfType, Value) -> Option<Value>): CycleOutcome
    requires WellFormed(fetched) && RawRef in tables && StagingRef in tables && FinalRef in tables
  {
    CycleFrom(tables, ConvertAll(fetched, SchemaDf(), conv), dayStart)
  }

  /** The stages that run before any data is touched, in handler order. */
  const ProvisionStages: seq<Stage> :=
    [BucketProvisioned(BucketName), TableProvisioned(RawRef), TableProvisioned(StagingRef), TableProvisioned(FinalRef)]

  /** The managed tables of `p` with their rows replaced and their metadata kept. */
  function WithRows(p: map<TableRef, Table>, raw: seq<Row>, staging: seq<Row>, final: seq<Row>): map<TableRef, Table>
    requires RawRef in p && StagingRef in p && FinalRef in p
  {
    p[RawRef := p[RawRef].(rows := raw)][StagingRef := p[StagingRef].(rows := staging)][FinalRef := p[FinalRef].(rows := final)]
  }

  /** Writing back the rows a table already holds changes nothing. */
  lemma WithSameRows(p: map<TableRef, Table>)
    requires RawRef in p && StagingRef in p && FinalRef in p
    ensures WithRows(p, p[RawRef].rows, p[StagingRef].rows, p[FinalRef].rows) == p
  {
  }

  /** Lines 43-46 of the handler: the bucket, then raw, staging and final. */
  method Provision(w: Warehouse)
    requires w.Valid()
    modifies w
    ensures w.Valid()
    ensures w.datasets == ProvisionedDatasets(old(w.datasets), DatasetName)
    ensures w.tables == ProvisionedAll(old(w.tables))
    ensures BucketName in w.buckets
    ensures w.buckets == if BucketName in old(w.buckets) then old(w.buckets)
                         else old(w.buckets)[BucketName := Bucket(BucketLocation, [])]
    ensures w.log == old(w.log) + ProvisionStages
  {
    CreateBucket(w, BucketName);
    CreateDatasetTable(w, DatasetName, RawTable, RawDesc, SchemaBq(), PartitionBy);
    CreateDatasetTable(w, DatasetName, StagingTable, StagingDesc, SchemaBq(), PartitionBy);
    CreateDatasetTable(w, DatasetName, FinalTable, FinalDesc, SchemaBq(), PartitionBy);
  }

  /**
   * Lines 66-69 of the handler: restage from raw, then merge into final; the
   * row counts only read.
   */
  method RestageAndMerge(w: Warehouse, dayStart: int) returns (r: Result<(), Error>)
    requires w.Valid()
    requires RawRef in w.tables && StagingRef in w.tables && FinalRef in w.tables
    modifies w
    ensures w.Valid()
    ensures w.buckets == old(w.buckets) && w.datasets == old(w.datasets)
    ensures
      var t := old(w.tables);
      match Tail(t[RawRef].rows, t[FinalRef].rows, dayStart)
      case None => r == Failure(NullMaxTimestamp) && unchanged(w)
      case Some((staging', final')) =>
        && r == Success(())
        && w.tables == WithRows(t, t[RawRef].rows, staging', final')
        && w.log == old(w.log) + [Staged(StagingRef), Merged(FinalRef)]
  {
    var staged := QueryUniqueRecords(w, DatasetName, RawTable, StagingTable, dayStart);
    if staged.Failure? {
      return Failure(staged.error);
    }
    var stagingCount := BqTableNumRows(w, DatasetName, StagingTable);
    var merged := AppendUniqueRecords(w, DatasetName, StagingTable, FinalTable);
    assert merged.Success?;
    var finalCount := BqTableNumRows(w, DatasetName, FinalTable);
    r := Success(());
  }

  /**
   * Lines 62-69 of the handler, once the frame is conformed: load raw, then
   * restage and merge.
   */
  method LoadAndMerge(w: Warehouse, df: DataFrame, dayStart: int) returns (r: Result<(), Error>)
    requires w.Valid() && df.Valid()
    requires RawRef in w.tables && StagingRef in w.tables && FinalRef in w.tables
    modifies w
    ensures w.Valid()
    ensures w.buckets == old(w.buckets) && w.datasets == old(w.datasets)
    ensures
      var t := old(w.tables);
      if !FitsSchema(InferSchema(df.Content()), t[RawRef].schema) then
        r == Failure(InvalidSchema(RawTable)) && unchanged(w)
      else
        var raw' := t[RawRef].rows + RowsOf(df.Content());
        match Tail(raw', t[FinalRef].rows, dayStart)
        case None =>
          && r == Failure(NullMaxTimestamp)
          && w.tables == WithRows(t, raw', t[StagingRef].rows, t[FinalRef].rows)
          && w.log == old(w.log) + [Loaded(RawRef)]
        case Some((staging', final')) =>
          && r == Success(())
          && w.tables == WithRows(t, raw', staging', final')
          && w.log == old(w.log) + [Loaded(RawRef), Staged(StagingRef), Merged(FinalRef)]
  {
    var loaded := UploadToGbq(w, df, DatasetName, RawTable);
    if loaded.Failure? {
      return Failure(loaded.error);
    }
    var rawCount := BqTableNumRows(w, DatasetName, RawTable);
    ghost var t1 := w.tables;
    ghost var log1 := w.log;
    r := RestageAndMerge(w, dayStart);
    assert log1 + [Staged(StagingRef), Merged(FinalRef)] == old(w.log) + [Loaded(RawRef), Staged(StagingRef), Merged(FinalRef)];
  }

  /**
   * handler: the bucket and the three tables are provisioned first, the raw
   * batch is archived as fetched (before conversion), and the data path then
   * runs as Cycle says; a stage that fails skips every later one.
   */
  method Handler(w: Warehouse, fetched: Frame, dayStart: int, conv: (DfType, Value) -> Option<Value>)
    returns (r: Result<(), Error>)
    requires w.Valid() && WellFormed(fetched)
    modifies w
    ensures w.Valid()
    ensures w.datasets == ProvisionedDatasets(old(w.datasets), DatasetName)
    ensures w.buckets == ArchivedBuckets(old(w.buckets), fetched)
    ensures
      var p := ProvisionedAll(old(w.tables));
      var c := Cycle(p, fetched, dayStart, conv);
      && r == c.result
      && w.tables == WithRows(p, c.raw, c.staging, c.final)
      && w.log == old(w.log) + ProvisionStages + [Archived(BucketName)] + c.stages
  {
    Provision(w);
    ghost var p := w.tables;

    var resultsDf := new DataFrame(fetched);
    var archived := UploadRawDataGcs(w, resultsDf, BucketName);
    assert archived.Success?;
    ghost var log2 := w.log;
    assert log2 == old(w.log) + ProvisionStages + [Archived(BucketName)];

    var converted := ConvertSchema(resultsDf, SchemaDf(), conv);
    ghost var cv := ConvertAll(fetched, SchemaDf(), conv);
    if converted.Failure? {
      WithSameRows(p);
      assert log2 + [] == log2;
      return Failure(converted.error);
    }
    var resultsDfTransformed := converted.value;
    assert resultsDfTransformed.Content() == cv.frame;

    var nullColumns := CheckNulls(resultsDfTransformed);
    var nullOutliers := CheckNullOutliers(nullColumns, NullsExpected);

    r := LoadAndMerge(w, resultsDfTransformed, dayStart);
    if !FitsSchema(InferSchema(cv.frame), p[RawRef].schema) {
      WithSameRows(p);
      assert log2 + [] == log2;
    }
  }

  // ---------------------------------------------------------------------------
  // Properties of a run

  /**
   * Re-running lines 66-68 over an unchanged raw table restages the same rows
   * and adds to final exactly the staged rows whose key is NULL.
   */
  lemma TailRerun(raw: seq<Row>, final: seq<Row>, dayStart: int)
    requires Tail(raw, final, dayStart).Some?
    ensures
      var (staging, final') := Tail(raw, final, dayStart).value;
      Tail(raw, final', dayStart) == Some((staging, final' + Unkeyed(staging)))
  {
    var m := MaxToday(raw, dayStart).value;
    MergeTwice(SelectSince(raw, m), final);
  }

  /** With every segment id present, re-running the tail leaves final as it is. */
  lemma TailRerunIdempotent(raw: seq<Row>, final: seq<Row>, dayStart: int)
    requires Tail(raw, final, dayStart).Some?
    requires forall i :: 0 <= i < |raw| ==> raw[i].segmentid.Some?
    ensures
      var (staging, final') := Tail(raw, final, dayStart).value;
      Tail(raw, final', dayStart) == Some((staging, final'))
  {
    var m := MaxToday(raw, dayStart).value;
    var staging := SelectSince(raw, m);
    TailRerun(raw, final, dayStart);
    SelectSinceRows(raw, m);
    forall i | 0 <= i < |staging| ensures HasKey(staging[i]) {
      var j :| 0 <= j < |raw| && raw[j] == staging[i];
    }
    NoUnkeyed(staging);
    var final' := final + AntiJoin(staging, final);
    assert final' + [] == final';
  }

  /**
   * A run that reaches the merge stages exactly the rows of the latest event
   * time of today in the raw table it just loaded.
   */
  lemma TailStagesAtMark(raw: seq<Row>, final: seq<Row>, dayStart: int)
    requires Tail(raw, final, dayStart).Some?
    ensures MaxToday(raw, dayStart).Some?
    ensures forall i :: 0 <= i < |Tail(raw, final, dayStart).value.0| ==>
      Tail(raw, final, dayStart).value.0[i].lastUpdt == MaxToday(raw, dayStart)
  {
    StagedAtMark(raw, dayStart, MaxToday(raw, dayStart).value);
  }

  /** Final only grows: the merge keeps its old rows as a prefix and adds only staged rows. */
  lemma TailAppendOnly(raw: seq<Row>, final: seq<Row>, dayStart: int)
    requires Tail(raw, final, dayStart).Some?
    ensures var (staging, final') := Tail(raw, final, dayStart).value;
      && final <= final'
      && forall r :: r in final'[|final|..] ==> r in staging
  {
    var (staging, final') := Tail(raw, final, dayStart).value;
    AntiJoinCounts(staging, final);
    assert final'[|final|..] == AntiJoin(staging, final);
    forall r | r in final'[|final|..] ensures r in staging {
      assert multiset(AntiJoin(staging, final))[r] > 0;
    }
  }

  /** A final table with unique keys keeps them when the staged rows have unique keys. */
  lemma CycleKeepsFinalUnique(tables: map<TableRef, Table>, c: Conversion, dayStart: int)
    requires WellFormed(c.frame) && RawRef in tables && StagingRef in tables && FinalRef in tables
    requires UniqueKeys(tables[FinalRef].rows)
    requires UniqueKeys(CycleFrom(tables, c, dayStart).staging)
    ensures UniqueKeys(CycleFrom(tables, c, dayStart).final)
  {
    var o := CycleFrom(tables, c, dayStart);
    if o.result.Success? {
      MergeKeepsUnique(o.staging, tables[FinalRef].rows);
    }
  }

  /** A raw table that provisioning creates has the managed schema. */
  lemma ProvisionedRawSchema(tables: map<TableRef, Table>)
    requires RawRef !in tables
    ensures ProvisionedAll(tables)[RawRef].schema == SchemaBq()
  {
    var t1 := ProvisionedTables(tables, RawRef, RawDesc, SchemaBq(), PartitionBy);
    var t2 := ProvisionedTables(t1, StagingRef, StagingDesc, SchemaBq(), PartitionBy);
    assert t1[RawRef].schema == SchemaBq();
    assert t2[RawRef] == t1[RawRef];
  }

  /** Only a frame that does not fit raw's schema makes the load refuse it. */
  lemma CycleFromFits(tables: map<TableRef, Table>, c: Conversion, dayStart: int)
    requires WellFormed(c.frame) && RawRef in tables && StagingRef in tables && FinalRef in tables
    requires c.error.None? && FitsSchema(InferSchema(c.frame), tables[RawRef].schema)
    ensures CycleFrom(tables, c, dayStart).result.Success? || CycleFrom(tables, c, dayStart).result == Failure(NullMaxTimestamp)
  {
  }

  /**
   * A batch that conforms (every column is one of the managed columns and
   * converts) is never refused by a raw table that provisioning created.
   */
  lemma FreshRawAcceptsConformed(tables: map<TableRef, Table>, fetched: Frame, dayStart: int,
                                 conv: (DfType, Value) -> Option<Value>)
    requires WellFormed(fetched) && RawRef !in tables
    requires forall j :: 0 <= j < |fetched.names| ==> fetched.names[j] in Keys(SchemaDf())
    requires ConvertAll(fetched, SchemaDf(), conv).error.None?
    ensures Cycle(ProvisionedAll(tables), fetched, dayStart, conv).result != Failure(InvalidSchema(RawTable))
  {
    var p := ProvisionedAll(tables);
    ProvisionedRawSchema(tables);
    ConformedFitsSchemaBq(fetched, conv);
    CycleFromFits(p, ConvertAll(fetched, SchemaDf(), conv), dayStart);
  }

  /**
   * The handler's first run in a new, empty project: the run creates the raw
   * table itself, so a conformed batch always passes the load check.
   */
  method FirstRun(fetched: Frame, dayStart: int, conv: (DfType, Value) -> Option<Value>) returns (r: Result<(), Error>)
    requires WellFormed(fetched)
    requires forall j :: 0 <= j < |fetched.names| ==> fetched.names[j] in Keys(SchemaDf())
    requires ConvertAll(fetched, SchemaDf(), conv).error.None?
    ensures r == Cycle(ProvisionedAll(map[]), fetched, dayStart, conv).result
    ensures r != Failure(InvalidSchema(RawTable))
  {
    var w := new Warehouse();
    r := Handler(w, fetched, dayStart, conv);
    FreshRawAcceptsConformed(map[], fetched, dayStart, conv);
  }
}
