/**
 * Create-if-missing provisioning of the bucket, the dataset and the tables
 * (src/lib/infrastructure_setup.py). Existence checks are queries on the
 * catalogue; creation only ever adds an object that was absent.
 */
module Infrastructure {
  import opened Wrappers
  import opened Errors
  import opened Schemas
  import opened Tables
  import opened Cloud

  const BucketLocation: string := "US-CENTRAL1"
  const DatasetLocation: string := "US"

  /** bucket.exists() */
  function BucketExists(w: Warehouse, name: string): bool
    reads w
  {
    name in w.buckets
  }

  /** create_bucket: makes sure the bucket exists, creating it in US-CENTRAL1 only when absent. */
  method CreateBucket(w: Warehouse, name: string)
    requires w.Valid()
    modifies w
    ensures w.Valid()
    ensures name in w.buckets
    ensures old(name in w.buckets) ==> w.buckets == old(w.buckets)
    ensures old(name !in w.buckets) ==> w.buckets == old(w.buckets)[name := Bucket(BucketLocation, [])]
    ensures w.datasets == old(w.datasets) && w.tables == old(w.tables)
    ensures w.log == old(w.log) + [BucketProvisioned(name)]
  {
    var location := BucketLocation;
    if !BucketExists(w, name) {
      w.buckets := w.buckets[name := Bucket(location, [])];
    }
    w.log := w.log + [BucketProvisioned(name)];
  }

  /** client.get_dataset: the dataset's metadata, or NotFound. */
  function GetDataset(w: Warehouse, ds: string): Result<Dataset, Error>
    reads w
  {
    if ds in w.datasets then Success(w.datasets[ds]) else Failure(NotFound(ds, ds))
  }

  /** client.get_table: the table, or NotFound. */
  function GetTable(w: Warehouse, ref: TableRef): Result<Table, Error>
    reads w
  {
    if ref in w.tables then Success(w.tables[ref]) else Failure(NotFound(ref.dataset, ref.table))
  }

  /**
   * dataset_exists: true when the lookup succeeds, false on NotFound (the only
   * error the modelled lookup can raise; the source catches no other).
   */
  function DatasetExists(w: Warehouse, ds: string): (b: bool)
    reads w
    ensures b <==> ds in w.datasets
  {
    GetDataset(w, ds).Success?
  }

  /**
   * table_exists: true when the lookup succeeds, false on NotFound (the only
   * error the modelled lookup can raise; the source catches no other).
   */
  function TableExists(w: Warehouse, ref: TableRef): (b: bool)
    reads w
    ensures b <==> ref in w.tables
  {
    GetTable(w, ref).Success?
  }

  /** The table create_dataset_table creates when it is absent, before any row is loaded. */
  function NewTable(tbl: string, desc: string, schema: seq<SchemaField>, partitionBy: string): Table {
    Table(tbl, schema, Some(DayPartitioning(partitionBy)), desc, [])
  }

  /** The datasets after create_dataset_table for dataset `ds`. */
  function ProvisionedDatasets(datasets: map<string, Dataset>, ds: string): map<string, Dataset> {
    if ds in datasets then datasets else datasets[ds := Dataset(DatasetLocation)]
  }

  /** The tables after create_dataset_table for table `ref`. */
  function ProvisionedTables(tables: map<TableRef, Table>, ref: TableRef, desc: string,
                             schema: seq<SchemaField>, partitionBy: string): map<TableRef, Table> {
    if ref in tables then tables else tables[ref := NewTable(ref.table, desc, schema, partitionBy)]
  }

  /**
   * create_dataset_table: afterwards the dataset and the table exist; what
   * existed is untouched, whatever the arguments say.
   */
  method CreateDatasetTable(w: Warehouse, ds: string, tbl: string, desc: string,
                            schema: seq<SchemaField>, partitionBy: string)
    requires w.Valid()
    modifies w
    ensures w.Valid()
    ensures w.datasets == ProvisionedDatasets(old(w.datasets), ds)
    ensures w.tables == ProvisionedTables(old(w.tables), TableRef(ds, tbl), desc, schema, partitionBy)
    ensures w.buckets == old(w.buckets)
    ensures w.log == old(w.log) + [TableProvisioned(TableRef(ds, tbl))]
  {
    var location := DatasetLocation;
    if !DatasetExists(w, ds) {
      w.datasets := w.datasets[ds := Dataset(location)];
    }
    var ref := TableRef(ds, tbl);
    if !TableExists(w, ref) {
      var table := Table(tbl, schema, None, "", []);
      table := table.(partitioning := Some(DayPartitioning(partitionBy)));
      w.tables := w.tables[ref := table];
      table := w.tables[ref];
      assert table.tableId == tbl;
      table := table.(description := desc);
      w.tables := w.tables[ref := table];
      table := w.tables[ref];
      assert table.description == desc;
    }
    w.log := w.log + [TableProvisioned(ref)];
  }

  /**
   * What provisioning promises: both objects exist; an existing dataset or
   * table keeps its metadata and rows; a new table has the given schema, DAY
   * partitioning on the given column, its own name as id, the given
   * description and no rows; nothing else changes.
   */
  lemma ProvisionedFacts(datasets: map<string, Dataset>, tables: map<TableRef, Table>, ds: string,
                         tbl: string, desc: string, schema: seq<SchemaField>, partitionBy: string)
    ensures ds in ProvisionedDatasets(datasets, ds)
    ensures ds in datasets ==> ProvisionedDatasets(datasets, ds)[ds] == datasets[ds]
    ensures ds !in datasets ==> ProvisionedDatasets(datasets, ds)[ds].location == DatasetLocation
    ensures forall d :: d != ds ==> (d in ProvisionedDatasets(datasets, ds) <==> d in datasets)
    ensures forall d :: d != ds && d in datasets ==> ProvisionedDatasets(datasets, ds)[d] == datasets[d]
    ensures TableRef(ds, tbl) in ProvisionedTables(tables, TableRef(ds, tbl), desc, schema, partitionBy)
    ensures TableRef(ds, tbl) in tables ==>
      ProvisionedTables(tables, TableRef(ds, tbl), desc, schema, partitionBy)[TableRef(ds, tbl)] == tables[TableRef(ds, tbl)]
    ensures TableRef(ds, tbl) !in tables ==>
      var t := ProvisionedTables(tables, TableRef(ds, tbl), desc, schema, partitionBy)[TableRef(ds, tbl)];
      t.tableId == tbl && t.schema == schema && t.partitioning == Some(DayPartitioning(partitionBy))
      && t.description == desc && t.rows == []
    ensures forall r :: r != TableRef(ds, tbl) ==>
      (r in ProvisionedTables(tables, TableRef(ds, tbl), desc, schema, partitionBy) <==> r in tables)
    ensures forall r :: r != TableRef(ds, tbl) && r in tables ==>
      ProvisionedTables(tables, TableRef(ds, tbl), desc, schema, partitionBy)[r] == tables[r]
  {
  }

  /** A second create_dataset_table with the same arguments changes nothing. */
  lemma ProvisionIdempotent(datasets: map<string, Dataset>, tables: map<TableRef, Table>, ref: TableRef,
                            desc: string, schema: seq<SchemaField>, partitionBy: string)
    ensures ProvisionedDatasets(ProvisionedDatasets(datasets, ref.dataset), ref.dataset)
         == ProvisionedDatasets(datasets, ref.dataset)
    ensures ProvisionedTables(ProvisionedTables(tables, ref, desc, schema, partitionBy), ref, desc, schema, partitionBy)
         == ProvisionedTables(tables, ref, desc, schema, partitionBy)
  {
  }

  /** Even with other arguments, a repeated call keeps the table as the first call made it. */
  lemma ProvisionKeepsFirstTable(tables: map<TableRef, Table>, ref: TableRef, desc: string, schema: seq<SchemaField>,
                                 partitionBy: string, desc2: string, schema2: seq<SchemaField>, partitionBy2: string)
    ensures ProvisionedTables(ProvisionedTables(tables, ref, desc, schema, partitionBy), ref, desc2, schema2, partitionBy2)
         == ProvisionedTables(tables, ref, desc, schema, partitionBy)
  {
  }
}
