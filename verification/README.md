# Consensus scan selection

A Dafny model of the scan-selection core of a mammography annotation tool.
`get_scans_metadata_with_double_match(annotation)` in `src/scan.py` asks the
database for every annotation row of every scan on which at least two
annotation rows set the flag column `annotation` (for example
`has_malign_mass`) to true. It then walks the returned rows in order and keeps
one `ScanMetadata(id, annotation_bboxes)` per scan: the first row met for
that scan supplies the bounding boxes, and later rows of the same scan are
ignored.

The model has two modules.

- `Scan` (`scan.dfy`) holds the `ScanMetadata` record of `src/scan.py:9-16`
  (a datatype with the fields `id` and `annotationBboxes`) and the row loop.
  The loop is the method `FoldFirstOccurrences`. Its input is the
  sequence of `(annotation row id, scan id, bboxes)` rows that the query
  returned, and it keeps a set of seen ids and a growing list, as the source
  does. It is proved equal to the specification function `FirstOccurrences`.
  It is also proved to keep four promises: no id twice, exactly the scan ids
  of the input, the first row's bounding boxes for each scan, and
  first-seen order. `FirstOccurrencesUnique` shows that these four promises
  determine the result, so they describe it exactly.
- `DoubleMatchQuery` (`double_match_query.dfy`) gives the meaning of the SQL
  text as a reference function over an in-memory annotation table.
  `Project` is the select list `id, mmg_scan_id, annotation_bboxes`.
  `TrueCount` is the subquery's `COUNT(*)` of rows with the flag true, and
  `DoubleMatch` is its `HAVING COUNT(*) >= 2`. `SelectRows` is the outer
  `WHERE mmg_scan_id IN (...)`. `Query` fails when the label is not a flag
  column of the table. The method `GetScansMetadataWithDoubleMatch` is the
  whole source function: it takes the rows the query returned and runs the
  loop on them. SQL gives no order to the result, so that method and the
  end-to-end lemmas `DoubleMatchScans` and `DoubleMatchPayloads` hold for
  every ordering of the selected rows.

Points about the code that the model makes explicit:

- Only the first row's `annotation_bboxes` is kept for each scan
  (`src/scan.py:43-45`); the boxes of later rows of the same scan are not
  added. `TwoAgreeingAnnotationsOneScan` shows the second row's boxes being
  dropped.
- The docstring at `src/scan.py:20` speaks of two different annotators
  agreeing. The query reads no annotator column (`src/scan.py:29-33`): it
  counts annotation rows, so two flagged rows by one annotator count twice.
  The model's table carries no annotator, and `TrueCount` counts rows.
- `tests/test_db.py:15-17` expects an empty label to raise `ValueError`.
  The function performs no check on the label; it pastes the label into the
  SQL text (`src/scan.py:31`, `src/scan.py:35`), and what happens next is up
  to the database. The model treats the label as a column name and lets
  `Query` fail with `UnknownFlagColumn` when it is not a flag column of the
  table (see "## Left out" for what this does not capture).
- The query has no `ORDER BY`, so two calls on unchanged data may return the
  rows in different orders. The set of returned ids is fixed
  (`SelectedScanIds`), but the order of the list and the bounding boxes kept
  for a scan may differ (`RowOrderDecidesPayload`). The outer query returns
  every row of a selected scan, so the kept bounding boxes may come from a
  row whose flag is false; `DoubleMatchPayloads` promises only that they come
  from one of that scan's own rows.

## Model

| member | source | states |
|---|---|---|
| `Scan.FoldFirstOccurrences` | src/scan.py:37-47 | The seen-set loop returns `FirstOccurrences(results)`. The result has no two entries with the same id. Its ids are exactly the scan ids of the rows. Each entry carries the bboxes of the first row of its scan, and entries are in first-seen order. |
| `Scan.KeepsOldScan` | src/scan.py:43 | A row whose scan id was already seen leaves the result unchanged, and all four promises still hold. |
| `Scan.AddsNewScan` | src/scan.py:43-45 | A row with an unseen scan id appends exactly one entry (its id and its bboxes) at the end, and all four promises still hold. |
| `Scan.FirstOccurrencesCorrect` | src/scan.py:38-45 | The result of the loop is unique by id and complete (every input scan id appears, and nothing else). It carries first-row payloads and keeps first-seen order. |
| `Scan.NewScanIsLast` | src/scan.py:43-45 | In any list that keeps the four promises, a scan first met at the last row has the last entry, and that entry holds that row's bboxes. |
| `Scan.DropNewScan` | src/scan.py:43-45 | Removing that last entry leaves a list that keeps the four promises for the rows before the last one. |
| `Scan.FirstOccurrencesUnique` | src/scan.py:38-47 | Any list keeping the four promises equals the loop's result. The output is determined by those properties, so two runs on the same rows, in the same order, give the same list. |
| `Scan.FirstOccurrencesLength` | src/scan.py:38-47 | The output length equals the number of distinct scan ids in the rows, and it is at most the number of rows. |
| `Scan.DistinctRowsKeptWhole` | src/scan.py:41-45 | Rows with pairwise distinct scan ids each give their own entry, in input order. |
| `Scan.FirstOccurrencesIdempotent` | src/scan.py:38-47 | Feeding the output back in as rows gives the same output again. |
| `DoubleMatchQuery.Project` | src/scan.py:26 | The select list keeps the row id, the scan id and the bounding boxes and drops only the flag columns: putting the row's flags back restores the row. |
| `DoubleMatchQuery.TrueCount` | src/scan.py:29-33 | The subquery's `COUNT(*)` of a scan's rows with the flag true. It is never more than the number of rows. It is zero exactly when no row of that scan has the flag true. |
| `DoubleMatchQuery.TwoAssertingRows` | src/scan.py:32-33 | `DoubleMatch`, the `HAVING COUNT(*) >= 2` of the subquery, holds exactly when two different annotation rows of the scan have the flag true. |
| `DoubleMatchQuery.SelectRows` | src/scan.py:25-34 | Every selected row belongs to a scan with at least two flag-true rows. Every selected row is the projection of a table row. Every table row of such a scan is selected. |
| `DoubleMatchQuery.Query` | src/scan.py:25-37 | The query fails exactly when the label is not a flag column. When it succeeds, every returned row is of a double-match scan. |
| `DoubleMatchQuery.CountedScanHasRow` | src/scan.py:29-33 | A scan with a positive count has a row in the table. |
| `DoubleMatchQuery.SelectedScanIds` | src/scan.py:25-34 | In any order the database returns the rows, their scan ids are exactly the scans with at least two flag-true annotation rows. |
| `DoubleMatchQuery.DoubleMatchScans` | src/scan.py:25-47 | For every ordering of the selected rows, take any list whose ids are the scan ids of those rows, as the loop's result is. Each scan in it has at least two rows with the flag true, so a scan with fewer such rows never appears, and every scan with two or more appears. `Scan.FoldFirstOccurrences` adds that each appears once. This is the property that `tests/test_db.py` asserts at line 40. |
| `DoubleMatchQuery.GetScansMetadataWithDoubleMatch` | src/scan.py:25-47 | The whole function: for every order in which the database returns the selected rows, the result is the loop's `FirstOccurrences` of those rows. It holds no scan twice, holds only scans with at least two flag-true annotation rows, and holds every such scan. The entries are in first-seen order, and each carries the bboxes of its scan's first returned row, which are the bboxes of one of that scan's own rows in the table. This includes the property that `tests/test_db.py` asserts at line 40. |
| `DoubleMatchQuery.DoubleMatchPayloads` | src/scan.py:25-45 | Every returned scan carries the `annotation_bboxes` of one of its own annotation rows in the table. |
| `DoubleMatchQuery.TwoAgreeingAnnotationsCounted` | src/scan.py:29-33 | Example: on a table where two rows of S1 and one row of S2 have the flag true, the counts are 2 and 1. |
| `DoubleMatchQuery.TwoAgreeingAnnotationsSelected` | src/scan.py:25-34 | Example: S1 has two rows flagged and S2 has one. Only S1's two rows are selected. |
| `DoubleMatchQuery.TwoAgreeingAnnotationsOneScan` | src/scan.py:41-45 | Example: those two rows give one entry for S1, with the first row's boxes. The second row's boxes are not merged in. |
| `DoubleMatchQuery.RowOrderDecidesPayload` | src/scan.py:25-45 | Example: the same two rows of S1 in the two possible orders give entries with different bounding boxes, so the result depends on the order the database returns the rows in. |

## Left out

- `download_scan_png` (`src/scan.py:49-87`): a database lookup, a blob-store fetch, an environment-variable read and a file write. All of it is I/O. The only computed value is the destination path `PNG_DIR/<id>.png`.
- `draw_bounding_boxes` (`src/scan.py:89-96`): the code only raises `NotImplementedError`. There is no box clustering or rendering to model.
- `main` and the `__main__` block (`src/scan.py:99-112`): driver code. `main` calls `get_scans_metadata_with_double_match` and then `download_scan_png` for each returned scan; the call to `draw_bounding_boxes` (line 104) is commented out. The `__main__` block calls `main` with the label `has_malign_mass`.
- Building the SQL text with `str.format` and running it. The label is treated as a column name, not as text. Injection through the label and the database engine itself are not modelled. `run_db_statement` is not part of this model: its result is the input sequence of the loop method.
- `DoubleMatchQuery.Query`: the label is compared with the table's flag column names exactly as written. In the source the label is pasted into the SQL text, where unquoted identifiers ignore case and the label may be any expression (`HAS_MALIGN_MASS`, ` has_malign_mass `, `has_malign_mass OR has_benign_mass` all return rows), and whether a non-boolean column is rejected depends on the database engine. The model does not capture these cases: it fails for them.
- Exceptions raised by the database other than an unknown flag column (connection failures and the like). The source lets them propagate and does nothing else with them.
- NULL flag values: `flag = True` fails for NULL as it does for false, so the model records only the set of flag columns that are true.
- `diagnoses_dict`, which the tests import, is not part of this model. It is not defined in `src/scan.py`.
