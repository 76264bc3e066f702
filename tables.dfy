/**
 * The query semantics of the incremental de-duplication
 * (src/lib/bq_api_data_functions.py): a warehouse table is a sequence of rows,
 * each identified by (segmentid, _last_updt), either of which may be NULL.
 * The SQL of query_max_timestamp, query_unique_records and
 * append_unique_records is written here as functions over such sequences.
 */
module Tables {
  import opened Wrappers
  import opened Schemas

  /** A row: its two key columns (None is SQL NULL) and all of its cells. */
  datatype Row = Row(segmentid: Option<int>, lastUpdt: Option<int>, cells: seq<Value>)

  /** Both key columns are non-NULL, so the SQL equality on them can hold. */
  predicate HasKey(r: Row) {
    r.segmentid.Some? && r.lastUpdt.Some?
  }

  function Key(r: Row): (int, int)
    requires HasKey(r)
  {
    (r.segmentid.value, r.lastUpdt.value)
  }

  /** The non-NULL keys present in a table. */
  function KeySet(rows: seq<Row>): set<(int, int)> {
    set i | 0 <= i < |rows| && HasKey(rows[i]) :: Key(rows[i])
  }

  /** No two rows share a non-NULL key (rows with a NULL key never compare equal). */
  predicate UniqueKeys(rows: seq<Row>) {
    forall i, j :: 0 <= i < j < |rows| && HasKey(rows[i]) && HasKey(rows[j]) ==> Key(rows[i]) != Key(rows[j])
  }

  /** `_last_updt >= t` in SQL: false when _last_updt is NULL. */
  predicate AtOrAfter(r: Row, t: int) {
    r.lastUpdt.Some? && r.lastUpdt.value >= t
  }

  /**
   * SELECT max(_last_updt) ... WHERE _last_updt >= <start of today>: None is
   * the NULL that MAX yields when no row passes the filter.
   */
  function MaxToday(rows: seq<Row>, dayStart: int): (m: Option<int>)
    ensures m.None? <==> forall i :: 0 <= i < |rows| ==> !AtOrAfter(rows[i], dayStart)
    ensures m.Some? ==> m.value >= dayStart
    ensures m.Some? ==> exists i :: 0 <= i < |rows| && rows[i].lastUpdt == Some(m.value)
    ensures m.Some? ==> forall i :: 0 <= i < |rows| && AtOrAfter(rows[i], dayStart) ==> rows[i].lastUpdt.value <= m.value
  {
    if |rows| == 0 then None
    else
      var rest := MaxToday(rows[1..], dayStart);
      assert forall i :: 1 <= i < |rows| ==> rows[i] == rows[1..][i - 1];
      if !AtOrAfter(rows[0], dayStart) then rest
      else if rest.None? || rest.value < rows[0].lastUpdt.value then rows[0].lastUpdt
      else rest
  }

  /**
   * SELECT * ... WHERE _last_updt >= mark, without DISTINCT: every qualifying
   * row as often as it occurs, and no other.
   */
  function SelectSince(rows: seq<Row>, mark: int): seq<Row>
  {
    if |rows| == 0 then []
    else
      (if AtOrAfter(rows[0], mark) then [rows[0]] else []) + SelectSince(rows[1..], mark)
  }

  /** `a` has a partner in `final` under `a.segmentid = b.segmentid AND a._last_updt = b._last_updt`. */
  predicate Matched(a: Row, final: seq<Row>) {
    HasKey(a) && Key(a) in KeySet(final)
  }

  /**
   * SELECT a.* FROM staging a LEFT JOIN final b ON <key equality>
   * WHERE b.segmentid IS NULL AND b._last_updt IS NULL: the staging rows with
   * no partner in final, as often as they occur in staging. A row with a NULL
   * key never has a partner.
   */
  function AntiJoin(staging: seq<Row>, final: seq<Row>): seq<Row>
  {
    if |staging| == 0 then []
    else
      (if Matched(staging[0], final) then [] else [staging[0]]) + AntiJoin(staging[1..], final)
  }

  /** The rows of a table whose key has a NULL part. */
  function Unkeyed(rows: seq<Row>): seq<Row>
  {
    if |rows| == 0 then []
    else
      (if HasKey(rows[0]) then [] else [rows[0]]) + Unkeyed(rows[1..])
  }

  /** Selection keeps every qualifying row as often as it occurs in the table, and no other row. */
  lemma {:induction false} SelectSinceCounts(rows: seq<Row>, mark: int)
    ensures forall r :: multiset(SelectSince(rows, mark))[r] == if AtOrAfter(r, mark) then multiset(rows)[r] else 0
  {
    if |rows| > 0 {
      assert rows == [rows[0]] + rows[1..];
      SelectSinceCounts(rows[1..], mark);
    }
  }

  /** The anti-join keeps every unmatched staging row as often as it occurs there, and no matched one. */
  lemma {:induction false} AntiJoinCounts(staging: seq<Row>, final: seq<Row>)
    ensures forall r :: multiset(AntiJoin(staging, final))[r] == if Matched(r, final) then 0 else multiset(staging)[r]
  {
    if |staging| > 0 {
      assert staging == [staging[0]] + staging[1..];
      AntiJoinCounts(staging[1..], final);
    }
  }

  lemma {:induction false} KeySetAppend(a: seq<Row>, b: seq<Row>)
    ensures KeySet(a + b) == KeySet(a) + KeySet(b)
  {
    var ab := a + b;
    forall k | k in KeySet(ab) ensures k in KeySet(a) + KeySet(b) {
      var i :| 0 <= i < |ab| && HasKey(ab[i]) && Key(ab[i]) == k;
      if i < |a| { assert ab[i] == a[i]; } else { assert ab[i] == b[i - |a|]; }
    }
    forall k | k in KeySet(a) + KeySet(b) ensures k in KeySet(ab) {
      if k in KeySet(a) {
        var i :| 0 <= i < |a| && HasKey(a[i]) && Key(a[i]) == k;
        assert ab[i] == a[i];
      } else {
        var i :| 0 <= i < |b| && HasKey(b[i]) && Key(b[i]) == k;
        assert ab[|a| + i] == b[i];
      }
    }
  }

  /** Selection distributes over appending: order is kept, batch by batch. */
  lemma {:induction false} SelectSinceAppend(a: seq<Row>, b: seq<Row>, mark: int)
    ensures SelectSince(a + b, mark) == SelectSince(a, mark) + SelectSince(b, mark)
  {
    if |a| == 0 {
      assert a + b == b;
    } else {
      var ab := a + b;
      assert ab[0] == a[0] && ab[1..] == a[1..] + b;
      SelectSinceAppend(a[1..], b, mark);
      var head := if AtOrAfter(a[0], mark) then [a[0]] else [];
      assert SelectSince(ab, mark) == head + SelectSince(a[1..] + b, mark);
      assert SelectSince(a, mark) == head + SelectSince(a[1..], mark);
    }
  }

  /** The anti-join distributes over appending to staging. */
  lemma {:induction false} AntiJoinAppend(a: seq<Row>, b: seq<Row>, final: seq<Row>)
    ensures AntiJoin(a + b, final) == AntiJoin(a, final) + AntiJoin(b, final)
  {
    if |a| == 0 {
      assert a + b == b;
    } else {
      var ab := a + b;
      assert ab[0] == a[0] && ab[1..] == a[1..] + b;
      AntiJoinAppend(a[1..], b, final);
      var head := if Matched(a[0], final) then [] else [a[0]];
      assert AntiJoin(ab, final) == head + AntiJoin(a[1..] + b, final);
      assert AntiJoin(a, final) == head + AntiJoin(a[1..], final);
    }
  }

  /**
   * Every staging row whose key is already in the target contributes nothing:
   * only the rows with a NULL key survive.
   */
  lemma {:induction false} AntiJoinAllMatched(staging: seq<Row>, target: seq<Row>)
    requires forall i :: 0 <= i < |staging| && HasKey(staging[i]) ==> Key(staging[i]) in KeySet(target)
    ensures AntiJoin(staging, target) == Unkeyed(staging)
  {
    if |staging| > 0 {
      assert forall i :: 1 <= i < |staging| ==> staging[i] == staging[1..][i - 1];
      AntiJoinAllMatched(staging[1..], target);
    }
  }

  /**
   * Merging the same staging content a second time adds exactly the rows whose
   * key has a NULL part again, and nothing else.
   */
  lemma MergeTwice(staging: seq<Row>, final: seq<Row>)
    ensures AntiJoin(staging, final + AntiJoin(staging, final)) == Unkeyed(staging)
  {
    var delta := AntiJoin(staging, final);
    KeySetAppend(final, delta);
    AntiJoinCounts(staging, final);
    forall i | 0 <= i < |staging| && HasKey(staging[i])
      ensures Key(staging[i]) in KeySet(final + delta)
    {
      if !Matched(staging[i], final) {
        assert multiset(staging)[staging[i]] > 0;
        assert staging[i] in multiset(delta);
        var j :| 0 <= j < |delta| && delta[j] == staging[i];
      }
    }
    AntiJoinAllMatched(staging, final + delta);
  }

  /** Idempotent merge: with non-NULL keys in staging, a second merge adds no rows. */
  lemma MergeIdempotent(staging: seq<Row>, final: seq<Row>)
    requires forall i :: 0 <= i < |staging| ==> HasKey(staging[i])
    ensures AntiJoin(staging, final + AntiJoin(staging, final)) == []
  {
    MergeTwice(staging, final);
    NoUnkeyed(staging);
  }

  lemma {:induction false} NoUnkeyed(rows: seq<Row>)
    requires forall i :: 0 <= i < |rows| ==> HasKey(rows[i])
    ensures Unkeyed(rows) == []
  {
    if |rows| > 0 {
      assert forall i :: 1 <= i < |rows| ==> rows[i] == rows[1..][i - 1];
      NoUnkeyed(rows[1..]);
    }
  }

  /** The anti-join keeps uniqueness of keys and draws its keys from staging alone. */
  lemma {:induction false} AntiJoinUnique(staging: seq<Row>, final: seq<Row>)
    requires UniqueKeys(staging)
    ensures UniqueKeys(AntiJoin(staging, final))
    ensures KeySet(AntiJoin(staging, final)) <= KeySet(staging)
    ensures KeySet(AntiJoin(staging, final)) !! KeySet(final)
  {
    var s := AntiJoin(staging, final);
    if |staging| > 0 {
      var tail := staging[1..];
      assert forall i :: 1 <= i < |staging| ==> staging[i] == tail[i - 1];
      assert UniqueKeys(tail);
      AntiJoinUnique(tail, final);
      var head := if Matched(staging[0], final) then [] else [staging[0]];
      assert s == head + AntiJoin(tail, final);
      KeySetAppend(head, AntiJoin(tail, final));
      assert staging == [staging[0]] + tail;
      KeySetAppend([staging[0]], tail);
      if HasKey(staging[0]) {
        forall i | 0 <= i < |tail| && HasKey(tail[i]) ensures Key(tail[i]) != Key(staging[0]) {
          assert staging[i + 1] == tail[i];
        }
        assert Key(staging[0]) !in KeySet(tail);
      }
      ConcatUnique(head, AntiJoin(tail, final));
    }
  }

  lemma ConcatUnique(a: seq<Row>, b: seq<Row>)
    requires UniqueKeys(a) && UniqueKeys(b) && KeySet(a) !! KeySet(b)
    ensures UniqueKeys(a + b)
  {
    var ab := a + b;
    forall i, j | 0 <= i < j < |ab| && HasKey(ab[i]) && HasKey(ab[j]) ensures Key(ab[i]) != Key(ab[j]) {
      if j < |a| {
        assert ab[i] == a[i] && ab[j] == a[j];
      } else if i >= |a| {
        assert ab[i] == b[i - |a|] && ab[j] == b[j - |a|];
      } else {
        assert ab[i] == a[i] && ab[j] == b[j - |a|];
        assert Key(a[i]) in KeySet(a) && Key(b[j - |a|]) in KeySet(b);
      }
    }
  }

  /** Uniqueness of final is preserved by a merge from a staging table with unique keys. */
  lemma MergeKeepsUnique(staging: seq<Row>, final: seq<Row>)
    requires UniqueKeys(final) && UniqueKeys(staging)
    ensures UniqueKeys(final + AntiJoin(staging, final))
  {
    AntiJoinUnique(staging, final);
    ConcatUnique(final, AntiJoin(staging, final));
  }

  /**
   * Without that precondition the merge lets duplicates in: two staging copies
   * of an observation not yet in final both land there.
   */
  lemma DuplicateStagingKeysEnterFinal(r: Row)
    requires HasKey(r)
    ensures AntiJoin([r, r], []) == [r, r]
    ensures !UniqueKeys([] + AntiJoin([r, r], []))
  {
    assert [r, r][1..] == [r];
    assert [r][1..] == [];
    assert !Matched(r, []);
    assert AntiJoin([r], []) == [r] + AntiJoin([], []);
    assert AntiJoin([r, r], []) == [r] + AntiJoin([r], []);
    assert ([] + [r, r])[0] == r && ([] + [r, r])[1] == r;
  }

  /** Every selected row is a row of the table that passes the filter. */
  lemma {:induction false} SelectSinceRows(rows: seq<Row>, mark: int)
    ensures forall i :: 0 <= i < |SelectSince(rows, mark)| ==>
      SelectSince(rows, mark)[i] in rows && AtOrAfter(SelectSince(rows, mark)[i], mark)
  {
    if |rows| > 0 {
      SelectSinceRows(rows[1..], mark);
      var head := if AtOrAfter(rows[0], mark) then [rows[0]] else [];
      var s := SelectSince(rows, mark);
      assert s == head + SelectSince(rows[1..], mark);
      forall i | 0 <= i < |s| ensures s[i] in rows && AtOrAfter(s[i], mark) {
        if i >= |head| {
          assert s[i] == SelectSince(rows[1..], mark)[i - |head|];
          assert s[i] in rows[1..];
        }
      }
    }
  }

  /** Once the mark is the latest timestamp of today, every selected row carries exactly the mark. */
  lemma StagedAtMark(rows: seq<Row>, dayStart: int, m: int)
    requires MaxToday(rows, dayStart) == Some(m)
    ensures forall i :: 0 <= i < |SelectSince(rows, m)| ==> SelectSince(rows, m)[i].lastUpdt == Some(m)
  {
    var s := SelectSince(rows, m);
    SelectSinceRows(rows, m);
    forall i | 0 <= i < |s| ensures s[i].lastUpdt == Some(m) {
      var j :| 0 <= j < |rows| && rows[j] == s[i];
      assert AtOrAfter(rows[j], dayStart);
    }
  }

  /**
   * The filter is inclusive of the mark: with rows at t, t+1 and t+2 and the
   * mark at t+1, the last two are staged and merge exactly once. The mark
   * query (the latest timestamp of today) yields t+2, so only the last row is
   * staged when the mark is taken from the table just loaded.
   */
  lemma DeltaInclusiveExample(t: int)
    ensures
      var r0, r1, r2 := Row(Some(1), Some(t), []), Row(Some(2), Some(t + 1), []), Row(Some(3), Some(t + 2), []);
      && SelectSince([r0, r1, r2], t + 1) == [r1, r2]
      && AntiJoin([r1, r2], []) == [r1, r2]
      && AntiJoin([r1, r2], [] + [r1, r2]) == []
      && MaxToday([r0, r1, r2], t) == Some(t + 2)
      && SelectSince([r0, r1, r2], t + 2) == [r2]
  {
    var r0, r1, r2 := Row(Some(1), Some(t), []), Row(Some(2), Some(t + 1), []), Row(Some(3), Some(t + 2), []);
    var rows := [r0, r1, r2];
    assert rows[1..] == [r1, r2] && [r1, r2][1..] == [r2] && [r2][1..] == [];
    assert SelectSince([r2], t + 1) == [r2] + SelectSince([], t + 1);
    assert SelectSince([r1, r2], t + 1) == [r1] + SelectSince([r2], t + 1);
    assert SelectSince(rows, t + 1) == [] + SelectSince([r1, r2], t + 1);
    assert AntiJoin([r2], []) == [r2] + AntiJoin([], []);
    assert AntiJoin([r1, r2], []) == [r1] + AntiJoin([r2], []);
    var f := [] + [r1, r2];
    assert Key(r1) in KeySet(f) && Key(r2) in KeySet(f) by {
      assert f[0] == r1 && f[1] == r2;
    }
    assert AntiJoin([r2], f) == [] + AntiJoin([], f);
    assert AntiJoin([r1, r2], f) == [] + AntiJoin([r2], f);
    assert rows[2].lastUpdt == Some(t + 2);
    assert SelectSince([r2], t + 2) == [r2] + SelectSince([], t + 2);
    assert SelectSince([r1, r2], t + 2) == [] + SelectSince([r2], t + 2);
    assert SelectSince(rows, t + 2) == [] + SelectSince([r1, r2], t + 2);
  }
}
