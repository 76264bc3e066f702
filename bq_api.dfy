/**
 * The warehouse-side stages of the de-duplication (src/lib/bq_api_data_functions.py):
 * row counts, the high-water mark, the truncate-and-replace of staging and the
 * anti-join append into final, as operations on the warehouse state.
 */
module BqApi {
  import opened Wrappers
  import opened Errors
  import opened Tables
  import opened Cloud

  /** bq_table_num_rows: the number of rows in the named table; NotFound is re-raised. */
  method BqTableNumRows(w: Warehouse, ds: string, tbl: string) returns (r: Result<nat, Error>)
    ensures TableRef(ds, tbl) in w.tables ==> r == Success(|w.tables[TableRef(ds, tbl)].rows|)
    ensures TableRef(ds, tbl) !in w.tables ==> r == Failure(NotFound(ds, tbl))
  {
    var ref := TableRef(ds, tbl);
    if ref !in w.tables {
      return Failure(NotFound(ds, tbl));
    }
    var table := w.tables[ref];
    r := Success(|table.rows|);
  }

  /**
   * query_max_timestamp: the latest `_last_updt` at or after the start of
   * today. When no row is in today MAX yields NULL and its strftime raises.
   * The aggregate returns exactly one row, which is the row read here.
   */
  method QueryMaxTimestamp(w: Warehouse, ds: string, tbl: string, dayStart: int) returns (r: Result<int, Error>)
    ensures TableRef(ds, tbl) !in w.tables ==> r == Failure(NotFound(ds, tbl))
    ensures TableRef(ds, tbl) in w.tables ==>
      r == match MaxToday(w.tables[TableRef(ds, tbl)].rows, dayStart)
           case Some(m) => Success(m)
           case None => Failure(NullMaxTimestamp)
    ensures r.Success? ==>
      var rows := w.tables[TableRef(ds, tbl)].rows;
      && r.value >= dayStart
      && (exists i :: 0 <= i < |rows| && rows[i].lastUpdt == Some(r.value))
      && (forall i :: 0 <= i < |rows| && AtOrAfter(rows[i], dayStart) ==> rows[i].lastUpdt.value <= r.value)
    ensures r == Failure(NullMaxTimestamp) ==>
      var rows := w.tables[TableRef(ds, tbl)].rows;
      forall i :: 0 <= i < |rows| ==> !AtOrAfter(rows[i], dayStart)
  {
    var ref := TableRef(ds, tbl);
    if ref !in w.tables {
      return Failure(NotFound(ds, tbl));
    }
    var maxTimestamp := MaxToday(w.tables[ref].rows, dayStart);
    match maxTimestamp {
      case None => r := Failure(NullMaxTimestamp);
      case Some(m) => r := Success(m);
    }
  }

  /**
   * query_unique_records: staging is replaced (WRITE_TRUNCATE) by every raw row
   * at or after the mark, in raw order and with duplicates kept. A missing
   * staging table is created by the query job (unpartitioned, raw's schema).
   * When there is no mark the error is raised before the query is issued,
   * and nothing changes.
   */
  method QueryUniqueRecords(w: Warehouse, ds: string, rawName: string, stagingName: string, dayStart: int)
    returns (r: Result<(), Error>)
    requires w.Valid()
    modifies w
    ensures w.Valid()
    ensures w.buckets == old(w.buckets) && w.datasets == old(w.datasets)
    ensures TableRef(ds, rawName) !in old(w.tables) ==> r == Failure(NotFound(ds, rawName)) && unchanged(w)
    ensures TableRef(ds, rawName) in old(w.tables) ==>
      var raw := old(w.tables[TableRef(ds, rawName)]);
      match MaxToday(raw.rows, dayStart)
      case None => r == Failure(NullMaxTimestamp) && unchanged(w)
      case Some(m) =>
        var selected := SelectSince(raw.rows, m);
        var staging := TableRef(ds, stagingName);
        && r == Success(())
        && w.tables == old(w.tables)[staging :=
             if staging in old(w.tables) then old(w.tables[staging]).(rows := selected)
             else Table(stagingName, raw.schema, None, "", selected)]
        && w.log == old(w.log) + [Staged(staging)]
  {
    var stagingRef := TableRef(ds, stagingName);
    var maxTimestamp := QueryMaxTimestamp(w, ds, rawName, dayStart);
    if maxTimestamp.Failure? {
      return Failure(maxTimestamp.error);
    }
    var raw := w.tables[TableRef(ds, rawName)];
    var selected := SelectSince(raw.rows, maxTimestamp.value);
    if stagingRef in w.tables {
      w.tables := w.tables[stagingRef := w.tables[stagingRef].(rows := selected)];
    } else {
      w.tables := w.tables[stagingRef := Table(stagingName, raw.schema, None, "", selected)];
    }
    w.log := w.log + [Staged(stagingRef)];
    r := Success(());
  }

  /**
   * append_unique_records: final gets (WRITE_APPEND) the staging rows whose key
   * is not already in final; the old final stays a prefix. Both tables are read
   * by the query, so either one missing is NotFound.
   */
  method AppendUniqueRecords(w: Warehouse, ds: string, stagingName: string, finalName: string)
    returns (r: Result<(), Error>)
    requires w.Valid()
    modifies w
    ensures w.Valid()
    ensures w.buckets == old(w.buckets) && w.datasets == old(w.datasets)
    ensures r.Failure? <==> TableRef(ds, stagingName) !in old(w.tables) || TableRef(ds, finalName) !in old(w.tables)
    ensures r.Failure? ==> r.error.NotFound? && unchanged(w)
    ensures r.Success? ==>
      var staging := old(w.tables[TableRef(ds, stagingName)]).rows;
      var final := old(w.tables[TableRef(ds, finalName)]);
      && w.tables == old(w.tables)[TableRef(ds, finalName) := final.(rows := final.rows + AntiJoin(staging, final.rows))]
      && w.log == old(w.log) + [Merged(TableRef(ds, finalName))]
  {
    var stagingRef, finalRef := TableRef(ds, stagingName), TableRef(ds, finalName);
    if stagingRef !in w.tables {
      return Failure(NotFound(ds, stagingName));
    }
    if finalRef !in w.tables {
      return Failure(NotFound(ds, finalName));
    }
    var delta := AntiJoin(w.tables[stagingRef].rows, w.tables[finalRef].rows);
    var final := w.tables[finalRef];
    w.tables := w.tables[finalRef := final.(rows := final.rows + delta)];
    w.log := w.log + [Merged(finalRef)];
    r := Success(());
  }
}
