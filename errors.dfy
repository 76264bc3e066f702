/** The exceptions the pipeline's stages raise, as values. */
module Errors {

  datatype Error =
    /** google.cloud.exceptions.NotFound for a dataset or a table */
    | NotFound(dataset: string, name: string)
    /** google.cloud.exceptions.NotFound for an upload into a bucket that does not exist */
    | BucketNotFound(bucket: string)
    /** pandas KeyError: a column named in the schema map is not in the frame */
    | KeyError(column: string)
    /** an astype conversion that cannot convert some cell of the column */
    | ConversionError(column: string)
    /** pandas-gbq InvalidSchema: the frame does not fit the destination table's schema */
    | InvalidSchema(table: string)
    /** AttributeError: strftime called on the NULL that MAX returns over no rows */
    | NullMaxTimestamp
}
