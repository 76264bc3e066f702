# Chicago traffic pipeline: a Dafny model

This project models the core of a serverless pipeline that, on each scheduled
trigger, pulls a batch of Chicago traffic-segment records and stores it in a
cloud warehouse. The model covers these steps:

- Provisioning: the storage bucket and the dataset's three tables (`traffic_raw`, `traffic_staging`, `traffic_final`).
- Archiving the raw batch in the bucket.
- Converting the batch's column dtypes in place, following a dtype map.
- An advisory null audit.
- Appending the batch to the raw table.
- Incremental deduplication:
  - compute the latest event time (`_last_updt`) of the current day, the high-water mark;
  - overwrite the staging table with the raw rows at or after that mark;
  - append to the final table the staged rows that have no matching
    (`segmentid`, `_last_updt`) key in it, as a LEFT JOIN … IS NULL anti-join does.

Modules:

| module | file | what it holds |
|---|---|---|
| `Wrappers` / `Errors` | `wrappers.dfy`, `errors.dfy` | `Option`, `Result` and the errors the stages raise |
| `Schemas` | `schemas.dfy` | the warehouse schema, the dtype map and the correspondence between them |
| `Tables` | `tables.dfy` | rows, SQL NULL key semantics, and the three queries written as functions, with their lemmas |
| `Frames` | `frames.dfy` | the DataFrame, as a class whose columns are changed in place |
| `Cloud` | `cloud.dfy` | the `Warehouse` class: buckets, datasets, tables and a ghost log of completed stages |
| `Infrastructure` | `infrastructure.dfy` | `create_bucket`, `dataset_exists`, `table_exists`, `create_dataset_table` |
| `BqApi` | `bq_api.dfy` | `bq_table_num_rows`, `query_max_timestamp`, `query_unique_records`, `append_unique_records` |
| `Ingestion` | `ingestion.dfy` | `convert_schema`, `check_nulls`, `check_null_outliers`, `upload_raw_data_gcs`, `upload_to_gbq` |
| `Pipeline` | `pipeline.dfy` | `handler` with its constants, and properties of a whole run |

How the model is built:

- Each stage that changes cloud state is a method that `modifies` the warehouse.
- Each such method's contract gives the entire new state in terms of specification functions.
- The lemmas state the properties of those functions.
- The handler's contract ties one run to the function `Pipeline.Cycle`:
  - the tables are provisioned first;
  - the fetched batch is archived unconverted;
  - after that, a conversion error, an unfitting schema or an empty current day each end the run with stages done so far kept.
- The warehouse's log records that order.

### Behaviour to be aware of

- **Duplicates are not removed when staging.** `query_unique_records`'s docstring promises "unique records" (src/lib/bq_api_data_functions.py:73), but its SQL selects `*` with no DISTINCT (:81).
  - Raw rows that repeat a key are all staged.
  - The anti-join passes them all into final together.
  - `Tables.DuplicateStagingKeysEnterFinal` exhibits this.
- **The mark is taken after the load.** The handler loads the batch into raw (src/main.py:62) before `query_unique_records` computes the mark (:66).
  - The mark is today's latest event time, which the batch just loaded may itself have set.
  - Staging therefore holds only the rows at that latest time (`Tables.StagedAtMark`, `Pipeline.TailStagesAtMark`).
  - `Tables.DeltaInclusiveExample` shows both the inclusive `>=` filter and this effect.
- **An empty day ends the run.** With no row for the current day the aggregate at src/lib/bq_api_data_functions.py:47 yields NULL, and `strftime` on it raises (:55).
  - `query_unique_records` re-raises (:90-91), so the run ends there with `NullMaxTimestamp`.
  - Staging and final stay untouched.
  - The merge is not attempted.

## Model

| member | source | states |
|---|---|---|
| Schemas.SchemaBq | src/lib/schemas.py:10-25 | fourteen fields, all NULLABLE; `segmentid` is INTEGER and `_last_updt` is TIMESTAMP |
| Schemas.SchemaDf | src/lib/schemas.py:27-41 | the dtype map names the schema's columns in the same order, each paired with the dtype of its warehouse type |
| Schemas.SchemasNameSameColumns | src/lib/schemas.py:10-41 | the dtype map's keys are exactly the schema's field names, and no name occurs twice |
| Schemas.TypeCorrespondenceInverse | src/lib/schemas.py:11-40 | the warehouse-type and dtype correspondences invert each other |
| Schemas.FieldType | src/lib/schemas.py:10-25 | a type is found iff some field has that name, and it is that field's type |
| Tables.HasKey | src/lib/bq_api_data_functions.py:102 | a row can match in the join only when neither `segmentid` nor `_last_updt` is NULL (SQL `=` is never true on NULL) |
| Tables.AtOrAfter | src/lib/bq_api_data_functions.py:81 | `_last_updt >= t` as SQL evaluates it (here and in the aggregate at :47): false when `_last_updt` is NULL |
| Tables.SelectSince | src/lib/bq_api_data_functions.py:81 | `SELECT * … WHERE _last_updt >= mark`: the raw rows passing AtOrAfter, in raw order, duplicates kept (its properties are the SelectSince lemmas below) |
| Tables.Matched | src/lib/bq_api_data_functions.py:102 | a staged row finds a partner in the LEFT JOIN iff it has a key and that key is one of final's keys |
| Tables.AntiJoin | src/lib/bq_api_data_functions.py:102 | `LEFT JOIN … WHERE b.segmentid IS NULL AND b._last_updt IS NULL`: the staged rows without a partner, in staging order (its properties are the AntiJoin lemmas below) |
| Tables.Unkeyed | src/lib/bq_api_data_functions.py:102 | the staged rows with a NULL key part, which the join can never match |
| Tables.KeySet | src/lib/bq_api_data_functions.py:102 | the join keys of a table: the (segmentid, _last_updt) pairs of its rows with neither NULL (a definition; its properties are KeySetAppend, AntiJoinCounts and AntiJoinUnique) |
| Tables.MaxToday | src/lib/bq_api_data_functions.py:47 | NULL iff no row has an event time today; otherwise one row's event time, today, and at least every other event time of today |
| Tables.SelectSinceCounts | src/lib/bq_api_data_functions.py:81 | each row occurs in the selection as often as in raw when its event time is at or after the mark, else never; NULL times never pass |
| Tables.SelectSinceRows | src/lib/bq_api_data_functions.py:81 | every selected row is a raw row whose event time is at or after the mark |
| Tables.SelectSinceAppend | src/lib/bq_api_data_functions.py:81 | selection distributes over concatenation of raw rows |
| Tables.AntiJoinCounts | src/lib/bq_api_data_functions.py:102 | a staged row occurs in the delta as often as in staging when final has no row with its key, else never; a NULL-key row is never matched |
| Tables.AntiJoinAppend | src/lib/bq_api_data_functions.py:102 | the anti-join distributes over concatenation of staging rows |
| Tables.KeySetAppend | src/lib/bq_api_data_functions.py:102 | the key set of a concatenation is the union of the key sets |
| Tables.AntiJoinAllMatched | src/lib/bq_api_data_functions.py:102 | when final already holds every key staging has, only the NULL-key staged rows pass |
| Tables.NoUnkeyed | src/lib/bq_api_data_functions.py:102 | rows that all have keys contain no NULL-key row |
| Tables.MergeTwice | src/lib/bq_api_data_functions.py:94-112 | merging the same staging a second time adds exactly its NULL-key rows |
| Tables.MergeIdempotent | src/lib/bq_api_data_functions.py:94-112 | with every staged key non-NULL, a second merge of the same staging adds nothing |
| Tables.AntiJoinUnique | src/lib/bq_api_data_functions.py:102 | the delta of a key-unique staging is key-unique, its keys are staging keys, and none is a key of final |
| Tables.ConcatUnique | src/lib/bq_api_data_functions.py:101 | appending key-unique rows with fresh keys to a key-unique table keeps it key-unique |
| Tables.MergeKeepsUnique | src/lib/bq_api_data_functions.py:94-112 | a key-unique final stays key-unique after merging a key-unique staging |
| Tables.DuplicateStagingKeysEnterFinal | src/lib/bq_api_data_functions.py:81 | two staged copies of one keyed row both enter an empty final, which is then not key-unique |
| Tables.StagedAtMark | src/lib/bq_api_data_functions.py:80-81 | with the mark taken as today's latest event time, every staged row carries exactly the mark |
| Tables.DeltaInclusiveExample | src/lib/bq_api_data_functions.py:47-81 | rows at t, t+1, t+2: the mark t+1 stages the last two, the first merge into empty final inserts both, the second none; the mark query gives t+2, so only the last row is staged |
| Frames.WellFormed | src/lib/data_ingestion.py:32 | a DataFrame has one dtype and one column of `nrows` cells per label, and no label twice |
| Frames.DataFrame.Content | src/lib/data_ingestion.py:82-88 | the frame object's current labels, dtypes, columns and row count, as one value |
| Frames.DataFrame.constructor | src/lib/data_ingestion.py:32 | a new frame holding exactly the fetched records |
| Cloud.Warehouse.Valid | src/lib/infrastructure_setup.py:90-99 | every table lives in a dataset that exists, as create_dataset_table ensures the dataset before the table |
| Cloud.Warehouse.constructor | src/main.py:43-46 | an empty project, the state before the first run provisions anything |
| Infrastructure.BucketExists | src/lib/infrastructure_setup.py:17 | `bucket.exists()`: the bucket is in the object store |
| Infrastructure.GetDataset | src/lib/infrastructure_setup.py:40 | `client.get_dataset`: the dataset's metadata, or NotFound |
| Infrastructure.GetTable | src/lib/infrastructure_setup.py:62 | `client.get_table`: the table, or NotFound |
| Infrastructure.NewTable | src/lib/infrastructure_setup.py:100-110 | the table create_dataset_table creates: the given schema, DAY partitioning on the given column, its own name as id, the given description and no rows |
| Infrastructure.ProvisionedDatasets | src/lib/infrastructure_setup.py:85-93 | the datasets afterwards: unchanged when the dataset exists, else it is added in US (its properties are ProvisionedFacts) |
| Infrastructure.ProvisionedTables | src/lib/infrastructure_setup.py:97-113 | the tables afterwards: unchanged when the table exists, else NewTable is added (its properties are ProvisionedFacts) |
| Infrastructure.CreateBucket | src/lib/infrastructure_setup.py:11-21 | the bucket exists afterwards; a missing one is created empty in US-CENTRAL1, an existing one is untouched; nothing else changes |
| Infrastructure.DatasetExists | src/lib/infrastructure_setup.py:25-43 | true iff the dataset exists (NotFound answers false) |
| Infrastructure.TableExists | src/lib/infrastructure_setup.py:47-65 | true iff the table exists (NotFound answers false) |
| Infrastructure.CreateDatasetTable | src/lib/infrastructure_setup.py:70-113 | datasets and tables become their provisioned values, buckets are unchanged, and the source's two asserts (table id, description) hold |
| Infrastructure.ProvisionedFacts | src/lib/infrastructure_setup.py:70-113 | the dataset and table exist; existing ones keep metadata and rows; a new dataset is in US; a new table has the given schema, DAY partitioning on the given column, its name as id, the description and no rows; nothing else changes |
| Infrastructure.ProvisionIdempotent | src/lib/infrastructure_setup.py:90-113 | provisioning twice with the same arguments equals provisioning once |
| Infrastructure.ProvisionKeepsFirstTable | src/lib/infrastructure_setup.py:99-113 | a repeated call with other arguments keeps the table as the first call made it |
| BqApi.BqTableNumRows | src/lib/bq_api_data_functions.py:24-36 | the row count of an existing table, NotFound re-raised for a missing one; nothing changes |
| BqApi.QueryMaxTimestamp | src/lib/bq_api_data_functions.py:44-56 | NotFound for a missing table; otherwise the result agrees with MaxToday: NullMaxTimestamp iff no row today, else the latest event time of today |
| BqApi.QueryUniqueRecords | src/lib/bq_api_data_functions.py:72-91 | with no mark (or no raw table) nothing changes and the error is returned; otherwise staging's rows are replaced by the selection at the mark, an absent staging table is created unpartitioned with raw's schema, and nothing else changes |
| BqApi.AppendUniqueRecords | src/lib/bq_api_data_functions.py:94-112 | NotFound, and no change, iff either table is missing; otherwise final gains exactly the anti-join delta after its old rows, and nothing else changes |
| Ingestion.IndexOf | src/lib/data_ingestion.py:85 | no position iff the label is absent; otherwise a position holding that label |
| Ingestion.Lookup | src/lib/data_ingestion.py:84 | no dtype iff the map does not name the column; otherwise an entry of the map for it |
| Ingestion.AsType | src/lib/data_ingestion.py:85 | succeeds iff every cell converts, and then holds each cell's conversion in place |
| Ingestion.ConvertStep | src/lib/data_ingestion.py:85 | one map entry keeps the frame's labels and shape; a missing column fails with KeyError; a present column fails with a conversion error exactly when some cell does not convert, and otherwise only that column changes, to its converted cells and the new dtype |
| Ingestion.ConvertAll | src/lib/data_ingestion.py:82-88 | the conformed frame keeps the batch's labels, row count and well-formedness |
| Ingestion.ConvertAllConverts | src/lib/data_ingestion.py:84-88 | without an error every map key is a column, each named column holds its converted cells and new dtype, and other columns are unchanged |
| Ingestion.ConvertAllStops | src/lib/data_ingestion.py:84-85 | with an error there is an entry p that raised; the frame is what the entries before p made it, and the error is KeyError iff p's column is missing |
| Ingestion.ConvertSchema | src/lib/data_ingestion.py:82-88 | the frame is rewritten in place into ConvertAll's frame; the result is that same frame object, or the first error |
| Ingestion.NullColumns | src/lib/data_ingestion.py:90-99 | a label is listed iff its column holds a null |
| Ingestion.CheckNulls | src/lib/data_ingestion.py:90-101 | the audit returns the null columns in column order and changes nothing |
| Ingestion.Outliers | src/lib/data_ingestion.py:103-111 | a column is an outlier iff it is a null column and not expected |
| Ingestion.CheckNullOutliers | src/lib/data_ingestion.py:103-113 | the outliers of the null columns, in order; None when the null audit failed |
| Ingestion.OutliersExample | src/lib/data_ingestion.py:106-109 | null columns `_comments` and `_traffic`, with `_comments` expected, give `[_traffic]` |
| Ingestion.CheckNullOutliersAsWritten | src/lib/data_ingestion.py:103-113 | as written, the result is None or an empty list; empty exactly when every null column is a substring of the expected string |
| Ingestion.AsWrittenLosesOutliers | src/lib/data_ingestion.py:108-113 | whenever the intended audit finds an outlier outside the expected string, the code as written returns None |
| Ingestion.AsWrittenExample | src/lib/data_ingestion.py:108-113 | on the example above the code as written returns None where `[_traffic]` is intended |
| Ingestion.IsSubstring | src/lib/data_ingestion.py:108 | Python's `x in s` for a str `s`: `x` occurs in `s` contiguously |
| Ingestion.UploadRawDataGcs | src/lib/data_ingestion.py:50-75 | the unconverted batch is appended to the bucket's objects; a missing bucket is an error and changes nothing |
| Ingestion.RowsOf | src/lib/data_ingestion.py:132-133 | the rows `to_gbq` loads: one per frame row, in order, with the key taken from the `segmentid` and `_last_updt` cells (NULL when missing or of another type) |
| Ingestion.InferSchema | src/lib/data_ingestion.py:132-133 | the schema pandas-gbq derives from the frame: each label with the warehouse type of its dtype, NULLABLE |
| Ingestion.FitsSchema | src/lib/data_ingestion.py:132-133 | pandas-gbq's check before appending: every uploaded field is a field of the table with the same name and type |
| Ingestion.ConformedFits | src/lib/data_ingestion.py:132-133 | a batch whose columns are all in a dtype map fits, once conformed, the schema that map was derived from |
| Ingestion.ConformedFitsSchemaBq | src/lib/data_ingestion.py:132-133 | a conformed batch of managed columns fits the managed tables' schema |
| Ingestion.UploadToGbq | src/lib/data_ingestion.py:120-137 | an existing table takes the frame's rows appended when the frame fits its schema and raises InvalidSchema (no change) otherwise; a missing table (and dataset) is created from the frame |
| Pipeline.ProvisionedAll | src/main.py:44-46 | the tables after the three create_dataset_table calls, which then include raw, staging and final |
| Pipeline.ArchivedBuckets | src/main.py:43-50 | the buckets after create_bucket and upload_raw_data_gcs: the fetched batch added to the bucket's objects |
| Pipeline.Tail | src/main.py:66-68 | staging takes the raw rows at or after today's latest event time and final gains their anti-join; nothing when today has no row (its properties are the Tail lemmas below) |
| Pipeline.CycleFrom | src/main.py:53-68 | after convert_schema: its error ends the run; an unfitting frame ends it at the load; otherwise raw gains the batch and Tail follows |
| Pipeline.Cycle | src/main.py:53-68 | the data path of one run: ConvertAll over the dtype map, then CycleFrom; the null audit plays no part |
| Pipeline.PartitionColumnIsTimestamp | src/main.py:39 | the partition column is a TIMESTAMP field of the managed schema |
| Pipeline.Provision | src/main.py:43-46 | the bucket, then raw, staging and final are provisioned with the managed schema, in that order |
| Pipeline.RestageAndMerge | src/main.py:66-69 | with no mark nothing changes and NullMaxTimestamp is returned; otherwise staging and final take the tail's values and raw is untouched |
| Pipeline.LoadAndMerge | src/main.py:62-69 | an unfitting frame changes nothing; otherwise raw gains the batch, and then either the run stops on an empty day or staging and final take the tail's values |
| Pipeline.Handler | src/main.py:17-70 | datasets and tables provisioned, the batch archived unconverted in the bucket, the three tables' rows and the result as Cycle gives them over the provisioned tables, and the completed stages in order |
| Pipeline.TailRerun | src/main.py:66-68 | re-running staging and merge over an unchanged raw table restages the same rows and adds exactly the staged NULL-key rows |
| Pipeline.TailRerunIdempotent | src/main.py:66-68 | when every raw segment id is present, re-running staging and merge leaves final unchanged |
| Pipeline.TailStagesAtMark | src/main.py:66 | a run that gets past the mark query stages only rows at today's latest event time |
| Pipeline.TailAppendOnly | src/main.py:68 | final keeps its old rows as a prefix and gains only staged rows |
| Pipeline.CycleKeepsFinalUnique | src/main.py:62-68 | a key-unique final stays key-unique through a run whose staged rows are key-unique |
| Pipeline.ProvisionedRawSchema | src/main.py:44 | a raw table created by provisioning has the managed schema |
| Pipeline.CycleFromFits | src/main.py:62-68 | a conformed frame that fits raw's schema either completes the run or stops it only for an empty day |
| Pipeline.FreshRawAcceptsConformed | src/main.py:44-62 | when provisioning creates the raw table, a batch of managed columns that converts is never refused for its schema |
| Pipeline.FirstRun | src/main.py:17-70 | the handler's first run in a new, empty project has Cycle's result over the tables it provisions, and a conformed batch is never refused for its schema |

## Left out

- Fetching from the open-data API (`create_results_df`, src/lib/data_ingestion.py:21-38): the fetched batch is a parameter of `Pipeline.Handler`.
- The trigger message: its base64 decoding (src/main.py:25-26) and every `print` are not modelled, as they change no state.
- `project_id`, the clients and credentials: one project is implicit.
- Other API failures (network, permission, Conflict), retries and concurrent runs: not modelled. Concurrent runs in particular are outside a sequential model.
- `Ingestion.UploadRawDataGcs`: no blob name (built with `_getToday`), parquet/gzip encoding, `/tmp` handling or its cleanup. The bucket just gains the frame's content. src/lib/helper_functions.py is not part of this model.
- `Tables.MaxToday`: the current day's start (`CURRENT_DATE('-06:00')`) is the parameter `dayStart`. The clock and time zone are left to the caller. Timestamps are whole seconds, which also covers the `strftime` truncation to seconds.
- `BqApi.QueryMaxTimestamp`: the loop over the aggregate's result (which always has exactly one row) is modelled as reading that row.
- `Ingestion.AsType`: pandas' `astype` semantics are the opaque per-cell converter `conv`. Which casts succeed, and what they produce, is left open.
- `Ingestion.UploadToGbq`: pandas-gbq's schema check is modelled as a name-and-type subset test. Modes, chunking and the progress bar are not modelled.
- `BqApi.QueryUniqueRecords`: an existing staging table keeps its own schema. WRITE_TRUNCATE would take the query's schema, which is raw's; the two agree whenever both tables were provisioned with the managed schema.
- `Ingestion.CheckNulls`: models the intended audit (columns with a null). As written, the code indexes the per-column result by the boolean value; what that returns, or whether it raises and yields None, depends on the pandas version.
- Row order in tables: tables are sequences in insertion or query order, but the warehouse itself promises no order. This is a modelling choice that no property depends on, apart from the prefix statements.
- Integer widths: `segmentid` and timestamps are unbounded integers. Float columns hold reals. Neither the 64-bit range nor NaN is modelled.
- The historical and alternative entry points (src/jupyter_to_python.py, src/function_handler.py, traffic.py, src/lib/infra_setup.py) are not part of this model.

## Findings

| source | as written | input that shows it | evidently intended | confidence | as-written member | corrected member |
|---|---|---|---|---|---|---|
| src/lib/data_ingestion.py:103-113 and src/main.py:38 | `('_comments')` is a plain string, so `x not in nulls_expected` is a substring test. After `any(...)`, the generator's `x` is out of scope, so the append raises NameError; the `except` clause at data_ingestion.py:112-113 prints the error and `check_null_outliers` returns None. The audit never reports an outlier. | null columns `['_comments', '_traffic']` with `nulls_expected = '_comments'` give None | the null columns not in the expected tuple, here `['_traffic']` | not executed | Ingestion.CheckNullOutliersAsWritten (Ingestion.AsWrittenExample, Ingestion.AsWrittenLosesOutliers) | Ingestion.CheckNullOutliers (Ingestion.OutliersExample, Ingestion.Outliers) |
