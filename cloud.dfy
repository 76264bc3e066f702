/**
 * The external state the pipeline works on: the object store's buckets and
 * the warehouse's datasets and tables, with the rows each table holds.
 */
module Cloud {
  import opened Wrappers
  import opened Schemas
  import opened Tables
  import opened Frames

  /** `dataset.table` within the one project the pipeline uses. */
  datatype TableRef = TableRef(dataset: string, table: string)

  /** bigquery.TimePartitioning with type DAY on the named column. */
  datatype Partitioning = DayPartitioning(field: string)

  datatype Table = Table(
    tableId: string,
    schema: seq<SchemaField>,
    partitioning: Option<Partitioning>,
    description: string,
    rows: seq<Row>)

  datatype Dataset = Dataset(location: string)

  /** A bucket and the batches archived in it, oldest first. */
  datatype Bucket = Bucket(location: string, objects: seq<Frame>)

  /** The state-changing stages, as they complete. */
  datatype Stage =
    | BucketProvisioned(bucket: string)
    | TableProvisioned(ref: TableRef)
    | Archived(bucket: string)
    | Loaded(ref: TableRef)
    | Staged(ref: TableRef)
    | Merged(ref: TableRef)

  class Warehouse {
    var buckets: map<string, Bucket>
    var datasets: map<string, Dataset>
    var tables: map<TableRef, Table>
    /** The completed state-changing stages, in the order they completed. */
    ghost var log: seq<Stage>

    /** Every table lives in a dataset that exists. */
    ghost predicate Valid()
      reads this
    {
      forall r :: r in tables ==> r.dataset in datasets
    }

    /** A project with nothing in it. */
    constructor ()
      ensures Valid()
      ensures buckets == map[] && datasets == map[] && tables == map[] && log == []
    {
      buckets, datasets, tables := map[], map[], map[];
      log := [];
    }
  }
}
