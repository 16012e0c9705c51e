/**
 The meaning of the "double match" query: from the annotation table, select
 every annotation row of every scan that has at least two annotation rows
 with the queried flag column set to true.

 The database returns the selected rows in an order it chooses, so the
 composition with the first-occurrence loop is stated for every ordering of
 them.
 */
module DoubleMatchQuery {
  import opened Scan

  /**
   One annotation row (table mmgscans_mmgscanannotation): its id, its scan,
   the flag columns whose value is true, and its bounding boxes.
   */
  datatype AnnotationRow = AnnotationRow(id: int, scanId: ScanId, trueFlags: set<string>, bboxes: BBoxes)

  /** The annotation table: the names of its boolean flag columns and its rows. */
  datatype AnnotationTable = AnnotationTable(flagColumns: set<string>, rows: seq<AnnotationRow>)

  datatype QueryError = UnknownFlagColumn(column: string)

  datatype QueryResult = Rows(rows: seq<QueryRow>) | Failed(error: QueryError)

  /** Annotation row `row` is one of scan `scan` and has `flag` set to true. */
  predicate Asserts(row: AnnotationRow, scan: ScanId, flag: string)
  {
    row.scanId == scan && flag in row.trueFlags
  }

  /** COUNT(*) of the rows of `scan` whose `flag` is true. */
  function TrueCount(rows: seq<AnnotationRow>, scan: ScanId, flag: string): (n: nat)
    ensures n <= |rows|
    ensures n == 0 <==> forall i :: 0 <= i < |rows| ==> !Asserts(rows[i], scan, flag)
  {
    if rows == [] then 0
    else
      assert forall i :: 0 < i < |rows| ==> rows[i] == rows[1..][i - 1];
      (if Asserts(rows[0], scan, flag) then 1 else 0) + TrueCount(rows[1..], scan, flag)
  }

  /**
   The subquery's HAVING COUNT(*) >= 2. By TwoAssertingRows, it holds exactly
   when two different annotation rows of the scan have `flag` true.
   */
  predicate DoubleMatch(table: seq<AnnotationRow>, scan: ScanId, flag: string)
  {
    TrueCount(table, scan, flag) >= 2
  }

  /** A count of at least two means two different rows of the scan assert the flag, and back. */
  lemma {:induction false} TwoAssertingRows(rows: seq<AnnotationRow>, scan: ScanId, flag: string)
    ensures DoubleMatch(rows, scan, flag) <==>
      exists i, j :: 0 <= i < j < |rows| && Asserts(rows[i], scan, flag) && Asserts(rows[j], scan, flag)
  {
    if rows != [] {
      var rest := rows[1..];
      assert forall i :: 0 < i < |rows| ==> rows[i] == rest[i - 1];
      TwoAssertingRows(rest, scan, flag);
      if TrueCount(rows, scan, flag) >= 2 {
        if Asserts(rows[0], scan, flag) {
          var j :| 0 <= j < |rest| && Asserts(rest[j], scan, flag);
          assert Asserts(rows[j + 1], scan, flag);
        } else {
          var i, j :| 0 <= i < j < |rest| && Asserts(rest[i], scan, flag) && Asserts(rest[j], scan, flag);
          assert Asserts(rows[i + 1], scan, flag) && Asserts(rows[j + 1], scan, flag);
        }
      }
      if exists i, j :: 0 <= i < j < |rows| && Asserts(rows[i], scan, flag) && Asserts(rows[j], scan, flag) {
        var i, j :| 0 <= i < j < |rows| && Asserts(rows[i], scan, flag) && Asserts(rows[j], scan, flag);
        assert Asserts(rest[j - 1], scan, flag);
        if i > 0 {
          assert Asserts(rest[i - 1], scan, flag);
        }
      }
    }
  }

  /**
   The selected columns (id, mmg_scan_id, annotation_bboxes) of one row:
   only the flag columns are dropped, so putting the row's flags back
   restores the row.
   */
  function Project(row: AnnotationRow): (r: QueryRow)
    ensures AnnotationRow(r.annotationId, r.scanId, row.trueFlags, r.bboxes) == row
  {
    QueryRow(row.id, row.scanId, row.bboxes)
  }

  /** The outer WHERE mmg_scan_id IN (...) over `rows`, with the subquery evaluated on `table`. */
  function SelectRows(table: seq<AnnotationRow>, rows: seq<AnnotationRow>, flag: string): (r: seq<QueryRow>)
    ensures |r| <= |rows|
    ensures forall k :: 0 <= k < |r| ==> DoubleMatch(table, r[k].scanId, flag)
    ensures forall k :: 0 <= k < |r| ==> exists i :: 0 <= i < |rows| && r[k] == Project(rows[i])
    ensures forall i :: 0 <= i < |rows| && DoubleMatch(table, rows[i].scanId, flag) ==> Project(rows[i]) in r
  {
    if rows == [] then []
    else
      var rest := SelectRows(table, rows[1..], flag);
      assert forall i :: 0 < i < |rows| ==> rows[i] == rows[1..][i - 1];
      if DoubleMatch(table, rows[0].scanId, flag) then [Project(rows[0])] + rest else rest
  }

  /**
   The query as the database runs it: it fails unless `flag` names a flag
   column of the table; otherwise it returns the selected rows.
   */
  function Query(table: AnnotationTable, flag: string): (r: QueryResult)
    ensures r.Failed? <==> flag !in table.flagColumns
    ensures r.Rows? ==> forall k :: 0 <= k < |r.rows| ==> DoubleMatch(table.rows, r.rows[k].scanId, flag)
  {
    if flag in table.flagColumns then Rows(SelectRows(table.rows, table.rows, flag))
    else Failed(UnknownFlagColumn(flag))
  }

  /** A scan with a positive count has an annotation row in the table. */
  lemma CountedScanHasRow(table: seq<AnnotationRow>, scan: ScanId, flag: string) returns (i: nat)
    requires TrueCount(table, scan, flag) > 0
    ensures i < |table| && table[i].scanId == scan
  {
    i :| 0 <= i < |table| && Asserts(table[i], scan, flag);
  }

  /**
   Whatever order the database returns the selected rows in, the scan ids
   met in them are exactly the scans with at least two annotation rows
   asserting the flag.
   */
  lemma SelectedScanIds(table: AnnotationTable, flag: string, results: seq<QueryRow>)
    requires Query(table, flag).Rows?
    requires multiset(results) == multiset(Query(table, flag).rows)
    ensures forall s :: s in ScanIds(results) <==> DoubleMatch(table.rows, s, flag)
  {
    var selected := Query(table, flag).rows;
    forall s ensures s in ScanIds(results) <==> DoubleMatch(table.rows, s, flag) {
      if s in ScanIds(results) {
        var r :| r in results && r.scanId == s;
        assert r in multiset(selected);
        var k :| 0 <= k < |selected| && selected[k] == r;
      }
      if DoubleMatch(table.rows, s, flag) {
        var i := CountedScanHasRow(table.rows, s, flag);
        var r := Project(table.rows[i]);
        assert r in selected;
        assert r in multiset(results);
        assert r in results;
      }
    }
  }

  /**
   The whole of get_scans_metadata_with_double_match: whatever order the
   selected rows come in, the list the loop builds from them (any list with
   the scan ids of those rows, as FoldFirstOccurrences promises)
   holds only scans with at least two annotation rows with the flag true,
   so a scan with fewer is never returned, and holds every scan with two
   or more.
   */
  lemma DoubleMatchScans(table: AnnotationTable, flag: string, results: seq<QueryRow>, scans: seq<ScanMetadata>)
    requires Query(table, flag).Rows?
    requires multiset(results) == multiset(Query(table, flag).rows)
    requires IdsOf(scans) == ScanIds(results)
    ensures forall k :: 0 <= k < |scans| ==> TrueCount(table.rows, scans[k].id, flag) >= 2
    ensures forall s :: TrueCount(table.rows, s, flag) >= 2 ==> s in IdsOf(scans)
  {
    SelectedScanIds(table, flag, results);
    forall k | 0 <= k < |scans| ensures TrueCount(table.rows, scans[k].id, flag) >= 2 {
      assert scans[k] in scans;
      assert scans[k].id in ScanIds(results);
      assert DoubleMatch(table.rows, scans[k].id, flag);
    }
  }

  /**
   get_scans_metadata_with_double_match end to end: the rows the database
   returns for the query, in whatever order, are folded by the loop into a
   list holding each scan with at least two annotation rows with the flag
   true exactly once, and no other scan, in the order the scans are first
   met, each with the bounding boxes of its first returned row, which is
   one of that scan's own annotation rows in the table.
   */
  method GetScansMetadataWithDoubleMatch(table: AnnotationTable, flag: string, results: seq<QueryRow>) returns (scans: seq<ScanMetadata>)
    requires Query(table, flag).Rows?
    requires multiset(results) == multiset(Query(table, flag).rows)
    ensures scans == FirstOccurrences(results)
    ensures DistinctIds(scans)
    ensures FirstRowPayloads(results, scans) && FirstSeenOrder(results, scans)
    ensures forall k :: 0 <= k < |scans| ==> TrueCount(table.rows, scans[k].id, flag) >= 2
    ensures forall s :: TrueCount(table.rows, s, flag) >= 2 ==> s in IdsOf(scans)
    ensures forall k :: 0 <= k < |scans| ==>
      exists i ::
        && 0 <= i < |table.rows|
        && table.rows[i].scanId == scans[k].id
        && table.rows[i].bboxes == scans[k].annotationBboxes
  {
    scans := FoldFirstOccurrences(results);
    DoubleMatchScans(table, flag, results, scans);
    DoubleMatchPayloads(table, flag, results);
  }

  /**
   Every returned scan carries the bounding boxes of one of its own
   annotation rows in the table: nothing is invented.
   */
  lemma DoubleMatchPayloads(table: AnnotationTable, flag: string, results: seq<QueryRow>)
    requires Query(table, flag).Rows?
    requires multiset(results) == multiset(Query(table, flag).rows)
    ensures forall k :: 0 <= k < |FirstOccurrences(results)| ==>
      exists i ::
        && 0 <= i < |table.rows|
        && table.rows[i].scanId == FirstOccurrences(results)[k].id
        && table.rows[i].bboxes == FirstOccurrences(results)[k].annotationBboxes
  {
    FirstOccurrencesCorrect(results);
    var scans := FirstOccurrences(results);
    var selected := Query(table, flag).rows;
    forall k | 0 <= k < |scans|
      ensures exists i ::
        0 <= i < |table.rows| && table.rows[i].scanId == scans[k].id && table.rows[i].bboxes == scans[k].annotationBboxes
    {
      var r := results[FirstIndex(results, scans[k].id)];
      assert r in multiset(selected);
      var j :| 0 <= j < |selected| && selected[j] == r;
      var i :| 0 <= i < |table.rows| && selected[j] == Project(table.rows[i]);
    }
  }

  /** Two rows of S1 assert a malignant mass, and one row of S2 does. */
  lemma TwoAgreeingAnnotationsCounted()
    ensures
      var rows := [
        AnnotationRow(1, "S1", {"has_malign_mass"}, "[100,100,40,40]"),
        AnnotationRow(2, "S2", {"has_malign_mass"}, "[10,10,5,5]"),
        AnnotationRow(3, "S1", {"has_malign_mass"}, "[105,102,35,38]")];
      && TrueCount(rows, "S1", "has_malign_mass") == 2
      && TrueCount(rows, "S2", "has_malign_mass") == 1
  {
    var flag := "has_malign_mass";
    var r1, r2 := AnnotationRow(1, "S1", {flag}, "[100,100,40,40]"), AnnotationRow(2, "S2", {flag}, "[10,10,5,5]");
    var r3 := AnnotationRow(3, "S1", {flag}, "[105,102,35,38]");
    var rows := [r1, r2, r3];
    assert rows[1..] == [r2, r3] && rows[2..] == [r3] && rows[3..] == [];
    assert "S1" != "S2" by { assert "S1"[1] != "S2"[1]; }
    assert TrueCount(rows[2..], "S1", flag) == 1;
    assert TrueCount(rows[2..], "S2", flag) == 0;
  }

  /**
   Two annotation rows of S1 and one of S2 assert a malignant mass: only
   the two rows of S1 are selected.
   */
  lemma TwoAgreeingAnnotationsSelected()
    ensures
      var table := AnnotationTable({"has_malign_mass"}, [
        AnnotationRow(1, "S1", {"has_malign_mass"}, "[100,100,40,40]"),
        AnnotationRow(2, "S2", {"has_malign_mass"}, "[10,10,5,5]"),
        AnnotationRow(3, "S1", {"has_malign_mass"}, "[105,102,35,38]")]);
      Query(table, "has_malign_mass") == Rows([QueryRow(1, "S1", "[100,100,40,40]"), QueryRow(3, "S1", "[105,102,35,38]")])
  {
    var flag := "has_malign_mass";
    var r1, r2 := AnnotationRow(1, "S1", {flag}, "[100,100,40,40]"), AnnotationRow(2, "S2", {flag}, "[10,10,5,5]");
    var r3 := AnnotationRow(3, "S1", {flag}, "[105,102,35,38]");
    var rows := [r1, r2, r3];
    TwoAgreeingAnnotationsCounted();
    assert rows[1..] == [r2, r3] && rows[2..] == [r3] && rows[3..] == [];
    assert SelectRows(rows, rows[3..], flag) == [];
    assert SelectRows(rows, rows[2..], flag) == [Project(r3)];
    assert SelectRows(rows, rows[1..], flag) == [Project(r3)];
  }

  /**
   Folding those two rows returns S1 once, with the bounding boxes of its
   first row; the boxes of the second S1 row are not merged in.
   */
  lemma TwoAgreeingAnnotationsOneScan()
    ensures FirstOccurrences([QueryRow(1, "S1", "[100,100,40,40]"), QueryRow(3, "S1", "[105,102,35,38]")])
         == [ScanMetadata("S1", "[100,100,40,40]")]
  {
    var q1, q3 := QueryRow(1, "S1", "[100,100,40,40]"), QueryRow(3, "S1", "[105,102,35,38]");
    assert [q1, q3][..1] == [q1] && [q1][..0] == [];
    ScanIdsAppend([], q1);
    assert FirstOccurrences([q1]) == [ScanMetadata("S1", "[100,100,40,40]")];
  }

  /**
   The query has no ORDER BY, so the database may return the same selected
   rows in another order; the bounding boxes kept for a scan then come from
   a different row.
   */
  lemma RowOrderDecidesPayload()
    ensures FirstOccurrences([QueryRow(1, "S1", "A"), QueryRow(2, "S1", "B")]) == [ScanMetadata("S1", "A")]
    ensures FirstOccurrences([QueryRow(2, "S1", "B"), QueryRow(1, "S1", "A")]) == [ScanMetadata("S1", "B")]
  {
    var a, b := QueryRow(1, "S1", "A"), QueryRow(2, "S1", "B");
    assert [a, b][..1] == [a] && [b, a][..1] == [b] && [a][..0] == [] && [b][..0] == [];
    ScanIdsAppend([], a);
    ScanIdsAppend([], b);
  }
}
