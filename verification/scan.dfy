/**
 Scan selection: the rows returned by the "double match" query are folded
 into one ScanMetadata per scan, keeping the first row met for each scan.

 The row loop of get_scans_metadata_with_double_match is the method
 FoldFirstOccurrences; FirstOccurrences is its specification
 function, and the predicates below state what the loop promises. The
 lemmas show that those promises hold of FirstOccurrences and, conversely,
 that they pin down its result uniquely.
 */
module Scan {

  /** Identifier of a mammography scan (the mmg_scan_id column). */
  type ScanId = string

  /** Bounding boxes of one annotation, as the text stored in the database. */
  type BBoxes = string

  /** Metadata of one scan: its id and the bounding boxes of one of its annotations. */
  datatype ScanMetadata = ScanMetadata(id: ScanId, annotationBboxes: BBoxes)

  /** One row of the query result: (annotation row id, scan id, bounding boxes). */
  datatype QueryRow = QueryRow(annotationId: int, scanId: ScanId, bboxes: BBoxes)

  /** The scan ids that occur in a sequence of rows. */
  function ScanIds(rows: seq<QueryRow>): set<ScanId>
  {
    set r | r in rows :: r.scanId
  }

  /** The ids carried by a sequence of scan metadata. */
  function IdsOf(scans: seq<ScanMetadata>): set<ScanId>
  {
    set m | m in scans :: m.id
  }

  /** The position of the first row that belongs to scan `id`. */
  function FirstIndex(rows: seq<QueryRow>, id: ScanId): (i: nat)
    requires id in ScanIds(rows)
    ensures i < |rows| && rows[i].scanId == id
    ensures forall j :: 0 <= j < i ==> rows[j].scanId != id
  {
    if rows[0].scanId == id then 0
    else
      assert id in ScanIds(rows[1..]) by {
        var r :| r in rows && r.scanId == id;
        assert r in rows[1..] by { assert rows == [rows[0]] + rows[1..]; }
      }
      FirstIndex(rows[1..], id) + 1
  }

  /**
   The result of the loop, defined on the prefix: the last row adds an entry
   exactly when its scan id does not occur in the rows before it.
   */
  function FirstOccurrences(rows: seq<QueryRow>): seq<ScanMetadata>
  {
    if rows == [] then []
    else
      var before, last := rows[..|rows| - 1], rows[|rows| - 1];
      if last.scanId in ScanIds(before) then FirstOccurrences(before)
      else FirstOccurrences(before) + [ScanMetadata(last.scanId, last.bboxes)]
  }

  /** No two entries share a scan id. */
  ghost predicate DistinctIds(scans: seq<ScanMetadata>)
  {
    forall k, l :: 0 <= k < l < |scans| ==> scans[k].id != scans[l].id
  }

  /** Every entry comes from a row, and carries the bounding boxes of the first row of its scan. */
  ghost predicate FirstRowPayloads(rows: seq<QueryRow>, scans: seq<ScanMetadata>)
  {
    forall k :: 0 <= k < |scans| ==>
      scans[k].id in ScanIds(rows) &&
      scans[k].annotationBboxes == rows[FirstIndex(rows, scans[k].id)].bboxes
  }

  /** Entries appear in the order in which their scans are first met in the rows. */
  ghost predicate FirstSeenOrder(rows: seq<QueryRow>, scans: seq<ScanMetadata>)
  {
    forall k, l :: 0 <= k < l < |scans| && scans[k].id in ScanIds(rows) && scans[l].id in ScanIds(rows) ==>
      FirstIndex(rows, scans[k].id) < FirstIndex(rows, scans[l].id)
  }

  /** Everything the loop promises about its result. */
  ghost predicate IsFirstOccurrenceList(rows: seq<QueryRow>, scans: seq<ScanMetadata>)
  {
    && DistinctIds(scans)
    && IdsOf(scans) == ScanIds(rows)
    && FirstRowPayloads(rows, scans)
    && FirstSeenOrder(rows, scans)
  }

  lemma ScanIdsAppend(rows: seq<QueryRow>, x: QueryRow)
    ensures ScanIds(rows + [x]) == ScanIds(rows) + {x.scanId}
  {
    assert forall r :: r in rows + [x] <==> r in rows || r == x;
  }

  lemma IdsOfAppend(scans: seq<ScanMetadata>, m: ScanMetadata)
    ensures IdsOf(scans + [m]) == IdsOf(scans) + {m.id}
  {
    assert forall e :: e in scans + [m] <==> e in scans || e == m;
  }

  /** A row with scan `id` that no earlier row shares is the first row of `id`. */
  lemma FirstIndexIs(rows: seq<QueryRow>, id: ScanId, i: nat)
    requires i < |rows| && rows[i].scanId == id
    requires forall j :: 0 <= j < i ==> rows[j].scanId != id
    ensures id in ScanIds(rows) && FirstIndex(rows, id) == i
  {
    assert rows[i] in rows;
  }

  /** Appending a row does not move the first row of a scan already present. */
  lemma FirstIndexAppend(rows: seq<QueryRow>, x: QueryRow, id: ScanId)
    requires id in ScanIds(rows)
    ensures id in ScanIds(rows + [x]) && FirstIndex(rows + [x], id) == FirstIndex(rows, id)
  {
    var i := FirstIndex(rows, id);
    FirstIndexIs(rows + [x], id, i);
  }

  /** Appending a row of a new scan makes that row the scan's first row. */
  lemma FirstIndexAppendNew(rows: seq<QueryRow>, x: QueryRow)
    requires x.scanId !in ScanIds(rows)
    ensures x.scanId in ScanIds(rows + [x]) && FirstIndex(rows + [x], x.scanId) == |rows|
  {
    forall j | 0 <= j < |rows| ensures (rows + [x])[j].scanId != x.scanId {
      assert rows[j] in rows;
    }
    FirstIndexIs(rows + [x], x.scanId, |rows|);
  }

  /** Appending a row leaves the first row of every scan already present where it was. */
  lemma FirstIndicesAppend(before: seq<QueryRow>, last: QueryRow)
    ensures ScanIds(before + [last]) == ScanIds(before) + {last.scanId}
    ensures forall id :: id in ScanIds(before) ==>
      FirstIndex(before + [last], id) == FirstIndex(before, id) &&
      (before + [last])[FirstIndex(before, id)] == before[FirstIndex(before, id)]
  {
    ScanIdsAppend(before, last);
    forall id | id in ScanIds(before)
      ensures FirstIndex(before + [last], id) == FirstIndex(before, id)
    {
      FirstIndexAppend(before, last, id);
    }
  }

  /** A row of a scan already met leaves a correct result unchanged. */
  lemma KeepsOldScan(before: seq<QueryRow>, last: QueryRow, scans: seq<ScanMetadata>)
    requires last.scanId in ScanIds(before)
    ensures IsFirstOccurrenceList(before, scans) <==> IsFirstOccurrenceList(before + [last], scans)
  {
    FirstIndicesAppend(before, last);
    assert ScanIds(before + [last]) == ScanIds(before);
  }

  /** A row of a new scan extends a correct result by one entry for that row. */
  lemma AddsNewScan(before: seq<QueryRow>, last: QueryRow, prev: seq<ScanMetadata>)
    requires last.scanId !in ScanIds(before)
    requires IsFirstOccurrenceList(before, prev)
    ensures IsFirstOccurrenceList(before + [last], prev + [ScanMetadata(last.scanId, last.bboxes)])
  {
    var rows := before + [last];
    var m := ScanMetadata(last.scanId, last.bboxes);
    var scans := prev + [m];
    FirstIndicesAppend(before, last);
    IdsOfAppend(prev, m);
    FirstIndexAppendNew(before, last);
    forall k | 0 <= k < |prev| ensures prev[k].id in ScanIds(before) && prev[k].id != last.scanId {
      assert prev[k] in prev;
    }
    assert FirstRowPayloads(rows, scans) by {
      forall k | 0 <= k < |scans|
        ensures scans[k].id in ScanIds(rows)
        ensures scans[k].annotationBboxes == rows[FirstIndex(rows, scans[k].id)].bboxes
      {
        if k < |prev| {
          assert scans[k] == prev[k];
        }
      }
    }
    assert FirstSeenOrder(rows, scans) by {
      forall a, b | 0 <= a < b < |scans|
        ensures FirstIndex(rows, scans[a].id) < FirstIndex(rows, scans[b].id)
      {
        assert scans[a] == prev[a];
        if b < |prev| {
          assert scans[b] == prev[b];
        }
      }
    }
  }

  /** FirstOccurrences keeps every promise of the loop. */
  lemma {:induction false} FirstOccurrencesCorrect(rows: seq<QueryRow>)
    ensures IsFirstOccurrenceList(rows, FirstOccurrences(rows))
  {
    if rows != [] {
      var before, last := rows[..|rows| - 1], rows[|rows| - 1];
      assert rows == before + [last];
      FirstOccurrencesCorrect(before);
      if last.scanId in ScanIds(before) {
        KeepsOldScan(before, last, FirstOccurrences(before));
      } else {
        AddsNewScan(before, last, FirstOccurrences(before));
      }
    }
  }

  /** In a correct result, the entry of a scan first met at the last row is the last entry. */
  lemma NewScanIsLast(before: seq<QueryRow>, last: QueryRow, scans: seq<ScanMetadata>)
    requires last.scanId !in ScanIds(before)
    requires IdsOf(scans) == ScanIds(before + [last])
    requires FirstRowPayloads(before + [last], scans)
    requires FirstSeenOrder(before + [last], scans)
    ensures scans != [] && scans[|scans| - 1] == ScanMetadata(last.scanId, last.bboxes)
  {
    var rows := before + [last];
    FirstIndexAppendNew(before, last);
    var p :| p in scans && p.id == last.scanId;
    var k :| 0 <= k < |scans| && scans[k] == p;
    var l := |scans| - 1;
    assert scans[l] in scans;
    var il := FirstIndex(rows, scans[l].id);
    assert il < |rows|;
    assert FirstIndex(rows, scans[k].id) == |before|;
    assert k == l;
  }

  /** Dropping that last entry leaves a correct result for the rows before the last one. */
  lemma DropNewScan(before: seq<QueryRow>, last: QueryRow, scans: seq<ScanMetadata>)
    requires last.scanId !in ScanIds(before)
    requires IsFirstOccurrenceList(before + [last], scans)
    requires scans != [] && scans[|scans| - 1] == ScanMetadata(last.scanId, last.bboxes)
    ensures IsFirstOccurrenceList(before, scans[..|scans| - 1])
  {
    var init := scans[..|scans| - 1];
    FirstIndicesAppend(before, last);
    DropNewScanIds(before, last, scans);
    assert FirstRowPayloads(before, init) by {
      forall j | 0 <= j < |init|
        ensures init[j].annotationBboxes == before[FirstIndex(before, init[j].id)].bboxes
      {
        assert init[j] == scans[j];
      }
    }
    assert FirstSeenOrder(before, init) by {
      forall a, b | 0 <= a < b < |init|
        ensures FirstIndex(before, init[a].id) < FirstIndex(before, init[b].id)
      {
        assert init[a] == scans[a] && init[b] == scans[b];
      }
    }
  }

  lemma DropNewScanIds(before: seq<QueryRow>, last: QueryRow, scans: seq<ScanMetadata>)
    requires last.scanId !in ScanIds(before)
    requires DistinctIds(scans) && IdsOf(scans) == ScanIds(before + [last])
    requires scans != [] && scans[|scans| - 1].id == last.scanId
    ensures IdsOf(scans[..|scans| - 1]) == ScanIds(before)
    ensures forall j :: 0 <= j < |scans| - 1 ==> scans[j].id in ScanIds(before)
  {
    var init := scans[..|scans| - 1];
    ScanIdsAppend(before, last);
    assert scans == init + [scans[|scans| - 1]];
    IdsOfAppend(init, scans[|scans| - 1]);
    forall j | 0 <= j < |init| ensures init[j].id != last.scanId {
      assert init[j] == scans[j];
    }
    forall j | 0 <= j < |init| ensures scans[j].id in ScanIds(before) {
      assert init[j] in init;
    }
  }

  /**
   The promises of the loop determine its result: any list that keeps them
   is FirstOccurrences(rows). Together with FirstOccurrencesCorrect this
   makes the predicate IsFirstOccurrenceList an exact description.
   */
  lemma {:induction false} FirstOccurrencesUnique(rows: seq<QueryRow>, scans: seq<ScanMetadata>)
    requires IsFirstOccurrenceList(rows, scans)
    ensures scans == FirstOccurrences(rows)
  {
    if rows != [] {
      var before, last := rows[..|rows| - 1], rows[|rows| - 1];
      assert rows == before + [last];
      if last.scanId in ScanIds(before) {
        KeepsOldScan(before, last, scans);
        FirstOccurrencesUnique(before, scans);
      } else {
        NewScanIsLast(before, last, scans);
        DropNewScan(before, last, scans);
        var init := scans[..|scans| - 1];
        FirstOccurrencesUnique(before, init);
        assert scans == init + [scans[|scans| - 1]];
      }
    }
  }

  /** The number of entries is the number of distinct scan ids, never more than the rows. */
  lemma {:induction false} FirstOccurrencesLength(rows: seq<QueryRow>)
    ensures |FirstOccurrences(rows)| == |ScanIds(rows)| <= |rows|
  {
    if rows != [] {
      var before, last := rows[..|rows| - 1], rows[|rows| - 1];
      assert rows == before + [last];
      FirstOccurrencesLength(before);
      ScanIdsAppend(before, last);
      if last.scanId in ScanIds(before) {
        assert ScanIds(rows) == ScanIds(before);
      }
    }
  }

  /** Rows with pairwise distinct scan ids each yield their own entry, in order. */
  lemma {:induction false} DistinctRowsKeptWhole(rows: seq<QueryRow>, scans: seq<ScanMetadata>)
    requires |rows| == |scans|
    requires forall k :: 0 <= k < |rows| ==> rows[k].scanId == scans[k].id && rows[k].bboxes == scans[k].annotationBboxes
    requires DistinctIds(scans)
    ensures FirstOccurrences(rows) == scans
  {
    if rows != [] {
      var n := |rows| - 1;
      var before, last := rows[..n], rows[n];
      assert rows == before + [last];
      assert scans == scans[..n] + [scans[n]];
      DistinctRowsKeptWhole(before, scans[..n]);
      assert last.scanId !in ScanIds(before) by {
        forall r | r in before ensures r.scanId != last.scanId {
          var j :| 0 <= j < n && before[j] == r;
          assert scans[j].id != scans[n].id;
        }
      }
    }
  }

  /**
   Idempotence: feeding the result back in as rows (scan id in column 1,
   bounding boxes in column 2, any annotation row id in column 0) gives
   the same result again.
   */
  lemma FirstOccurrencesIdempotent(rows: seq<QueryRow>, again: seq<QueryRow>)
    requires |again| == |FirstOccurrences(rows)|
    requires forall k :: 0 <= k < |again| ==>
      again[k].scanId == FirstOccurrences(rows)[k].id && again[k].bboxes == FirstOccurrences(rows)[k].annotationBboxes
    ensures FirstOccurrences(again) == FirstOccurrences(rows)
  {
    FirstOccurrencesCorrect(rows);
    DistinctRowsKeptWhole(again, FirstOccurrences(rows));
  }

  /**
   The loop of get_scans_metadata_with_double_match: walk the rows in order,
   remember the scan ids already seen, and append one entry per scan id the
   first time it is met, with that row's bounding boxes.
   */
  method FoldFirstOccurrences(results: seq<QueryRow>) returns (scansMetadata: seq<ScanMetadata>)
    ensures scansMetadata == FirstOccurrences(results)
    ensures DistinctIds(scansMetadata)
    ensures IdsOf(scansMetadata) == ScanIds(results)
    ensures FirstRowPayloads(results, scansMetadata)
    ensures FirstSeenOrder(results, scansMetadata)
  {
    var uniqueIds: set<ScanId> := {};
    scansMetadata := [];
    for i := 0 to |results|
      invariant uniqueIds == ScanIds(results[..i])
      invariant scansMetadata == FirstOccurrences(results[..i])
    {
      var row := results[i];
      assert results[..i + 1] == results[..i] + [row];
      ScanIdsAppend(results[..i], row);
      if row.scanId !in uniqueIds {
        uniqueIds := uniqueIds + {row.scanId};
        scansMetadata := scansMetadata + [ScanMetadata(row.scanId, row.bboxes)];
      }
    }
    assert results[..|results|] == results;
    FirstOccurrencesCorrect(results);
  }
}
