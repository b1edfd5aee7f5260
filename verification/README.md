# Earthquake pipeline core in Dafny

This project models the core of an earthquake-ingestion pipeline. The pipeline pulls event
data per location from a public feed, stamps it, combines it, and pushes it to warehouse
tables. Three pieces are modelled:

- **The warehouse schema guard and write decision** (`check_bq_schema`, `push_data_to_bigquery`).
  A frame may be written only if every one of its columns is declared by the table. The type
  must match once both sides are lower-cased. The first column that fails decides the error.
  A frame that fails the guard is logged and dropped. A frame that passes but is empty is
  answered with a fixed message. Anything else is written once. The repository has two copies
  of this file with identical logic; both are modelled by one module (`bigquery.dfy`).
- **The count endpoint reader** (the parse-and-wrap part of `get_total_n_earthquakes`). The
  response body is stripped and read as a Python `int`. It is returned as a one-entry map
  keyed by the location name (`count_probe.dfy`).
- **The curated transform** (`combine_transform_data`). The caller's frame is stamped in place
  with:
  - the location;
  - one batch timestamp;
  - a per-row hash of every field except `id`.

  Without a prior frame, the stamped frame is returned as is. With one, the new rows are
  placed before the prior combined rows and the result is projected to the curated columns.
  This is in `curated_transform.dfy`, with the shared table model in `frames.dfy`.

A pandas DataFrame is modelled as an ordered list of column labels and a sequence of rows.
Each row maps every label to a cell. NaN, as filled in by concatenation, is the explicit
`Missing` cell. Text, integers and timestamps have cells of their own. Any other value, such as a
float, is an `Other` cell holding its text form.

Outside inputs become parameters:
- Python's `hash()` is a function parameter.
- `datetime.now()` is an integer parameter.
- The HTTP response is its body text.
- The warehouse is a map from table id to declared column types, plus a ghost log of the
  writes it received.

On these points the model follows the code as written:

- **The schema guard runs before the emptiness test.** An empty frame whose columns the table
  does not declare is dropped as a schema failure and never reaches the "empty" message (see
  `BigQuery.EmptyFrameMeetsGuardFirst`).
- **Absent tables are not created.** A missing table is not created before the guard:
  `client.get_table` raises "not found", nothing catches it, and the push propagates it.
- **The timestamp is per batch.** `inserted_at` is a single `now()` shared by the whole batch,
  not one per row.
- **`drop_duplicates` has no effect on the rows.** Its result is discarded, so duplicate ids
  survive. The call still raises `KeyError` when the stamped frame has rows but no `id` column.
  A batch with no rows is returned by pandas as a copy before the subset is looked at, so it
  passes without an `id` column.
- **`int()` has a digit limit.** From Python 3.11 on, and in the 3.7.14, 3.8.14, 3.9.14 and
  3.10.7 security releases, `int()` refuses a decimal literal with more than 4300 digits by
  default, with a `ValueError` of its own. A count that long is not read.
- **The explicit `strip()` is not redundant.** `str.strip()` discards every character
  `str.isspace()` accepts, the ASCII separators U+001C to U+001F among them. `int()` skips a
  narrower set around its literal: those four separators are not skipped. A body such as
  "5" followed by U+001F is read as 5 only because of the strip; `int()` alone refuses it (see
  `CountProbe.SeparatorRefused` and `CountProbe.SeparatorBodyExample`).

## Model

| member | source | states |
|---|---|---|
| BigQuery.CheckColumns | functions/bigquery_functions.py:54-60 | the loop over the frame's columns passes exactly when every column is declared with an equal lower-cased type |
| BigQuery.DictOfIdentity | functions/bigquery_functions.py:52 | the `df_schema` comprehension over distinct labels keeps every (label, dtype) pair in frame order |
| BigQuery.CheckBqSchema | functions/bigquery_functions.py:50-60 | the guard passes if and only if every frame column (the last dtype for a repeated label) is a table key whose type equals the dtype after lower-casing both; the second copy, functions/bigquery/bigquery_functions.py lines 78-89, is the same code |
| BigQuery.FirstFailingColumnDecides | functions/bigquery_functions.py:54-60 | with distinct labels, the first failing column in frame order decides the error: an undeclared label gives "not found", a declared one with another type gives the type mismatch naming both types; likewise for the second copy at lines 83-89 |
| BigQuery.TableOnlyColumnsIgnored | functions/bigquery_functions.py:54-57 | two table schemas that agree on the frame's labels give the same verdict, so columns only the table has never matter (subset, not equality) |
| BigQuery.SchemaGuardExamples | functions/bigquery_functions.py:55-60 | "string" against "STRING" passes; an undeclared label is not found; "string" against "INTEGER" is a type mismatch; a frame without columns passes |
| BigQuery.Warehouse.PushDataToBigQuery | functions/bigquery_functions.py:8-38 | an absent table raises "not found" with no write; a schema failure returns None with no write; a compatible empty frame returns the empty-frame message with no write; otherwise exactly one write of the frame to "project.dataset.table" with the given `if_exists` (default "append"), returning None; the second copy, functions/bigquery/bigquery_functions.py lines 24-50, decides the same |
| CountProbe.StripPadding | functions/helper_functions.py:31 | a trim, by `strip()`'s whitespace or by `int()`'s, removes exactly the whitespace around a core with no whitespace at either end |
| CountProbe.TrimSplit | functions/helper_functions.py:31 | a trim only cuts whitespace off the two ends: the text is the trimmed core with whitespace before and after it |
| CountProbe.StripIdempotent | functions/helper_functions.py:31 | stripping twice is stripping once |
| CountProbe.StrippedIsIntTrimmed | functions/helper_functions.py:31 | `int()` finds no whitespace of its own to skip at either end of what `strip()` leaves |
| CountProbe.GetTotalNEarthquakes | functions/helper_functions.py:31-33 | a successful read is a map with exactly the one key `location_name` |
| CountProbe.StrippedPyInt | functions/helper_functions.py:31 | `int(text.strip())` reads the stripped text itself as the literal; wherever `int(text)` reads a number or raises the digit-limit error, `int(text.strip())` gives the same outcome |
| CountProbe.LiteralTrimmed | functions/helper_functions.py:31 | a well-formed literal starts with a sign or a digit and ends with a digit, so no whitespace sits at either end |
| CountProbe.CountReadsBody | functions/helper_functions.py:31-33 | succeeds exactly when the text `strip()` leaves is a well-formed integer literal of at most 4300 digits; then `location_name` maps to that literal's value; otherwise the error is `int()`'s own on the stripped text, the invalid-literal error quoting it or the digit-limit error with its digit count |
| CountProbe.CountOf | functions/helper_functions.py:31-33 | whenever `int()` alone reads the body as `n`, the result is exactly `{location_name: n}`; the converse fails (see `CountProbe.SeparatorBodyExample`) |
| CountProbe.PaddedLiteral | functions/helper_functions.py:31 | a well-formed literal of at most 4300 digits with whitespace `int()` skips around it reads as the literal's value |
| CountProbe.ShowParses | functions/helper_functions.py:31 | reading back the decimal rendering of an integer gives that integer when it has at most 4300 digits, and the digit-limit error naming its digit count otherwise |
| CountProbe.CountRoundTrip | functions/helper_functions.py:31-33 | any integer rendered in decimal and padded with whitespace comes back as `{location_name: n}` when it has at most 4300 digits; a longer one raises the digit-limit error |
| CountProbe.PlainBodyExample | tests/test_get_total_n_earthquakes.py:23-33 | body "5" gives `{"TestLocation": 5}` |
| CountProbe.NewlineBodyExample | functions/helper_functions.py:31-33 | a trailing newline is stripped: "12\n" gives 12 |
| CountProbe.UnderscoreExample | functions/helper_functions.py:31 | underscores between digits are accepted: "1_000" gives 1000 |
| CountProbe.SeparatorRefused | functions/helper_functions.py:31 | `int()` alone refuses "5" followed by U+001F, quoting the whole text |
| CountProbe.SeparatorBodyExample | functions/helper_functions.py:31-33 | with the explicit strip, the same body gives `{"TestLocation": 5}` |
| CountProbe.BlankBodyRaises | functions/helper_functions.py:31 | a blank body raises the invalid-literal error on the empty string |
| CuratedTransform.AddLabel | functions/helper_functions.py:86-87 | a column assignment keeps the existing columns in order and in front, adds one label exactly when the name is new and none otherwise, and keeps labels distinct |
| CuratedTransform.WithColumn | functions/helper_functions.py:86-87 | a column assignment keeps the row count, sets that column on every row and leaves every other cell alone, and keeps a well-formed frame well-formed |
| CuratedTransform.HashKeyIgnoresId | functions/helper_functions.py:91 | the hashed tuple does not look at `id`: rows that agree on every other column give the same tuple |
| CuratedTransform.Stamped | functions/helper_functions.py:86-93 | the stamped frame keeps every row and the original columns in front, adds exactly `location`, `inserted_at` and `hashed_id`, and keeps a well-formed frame well-formed |
| CuratedTransform.StampColumns | functions/helper_functions.py:86-90 | the three assignments leave the columns followed by each of `location`, `inserted_at`, `hashed_id` that was missing, in that order |
| CuratedTransform.StampedColumns | functions/helper_functions.py:86-93 | the stamped frame's column list is exactly the original columns followed by the stamp labels it lacked, so at most three are added, and distinct labels stay distinct |
| CuratedTransform.StampedCell | functions/helper_functions.py:86-93 | every stamped row carries the location name, the one batch timestamp, and the hash of its non-`id` cells in column order (taken after the first two assignments); its other cells are unchanged |
| CuratedTransform.StampedByAssignments | functions/helper_functions.py:86-93 | the stamped frame is exactly what the three successive column assignments leave, the hash column computed on the frame after the first two |
| CuratedTransform.StampedHashAgrees | functions/helper_functions.py:90-93 | two rows of a batch that agree on every column except `id` (and the location and timestamp the batch shares), with none of those cells missing, get the same `hashed_id` |
| CuratedTransform.KeepFirst | functions/helper_functions.py:94 | deduplication keeps rows of the input with pairwise distinct keys, covering every key value exactly once |
| CuratedTransform.FirstWith | functions/helper_functions.py:94 | the position found for a key value holds that value, and no earlier row does |
| CuratedTransform.KeepFirstOrder | functions/helper_functions.py:94 | with `keep="first"`, each kept row is the row where its key value first occurs, and the kept rows are in the order of those first occurrences |
| CuratedTransform.DropDuplicates | functions/helper_functions.py:94 | `drop_duplicates(subset=["id"])` returns an empty frame unchanged; otherwise it raises `KeyError` exactly when the frame has no such column; when it does not raise, it keeps the columns, and on a non-empty frame it keeps the first row of each key value in order |
| CuratedTransform.UnionColumns | functions/helper_functions.py:99 | the concatenation's columns are the first frame's in order, then the other labels of the second; the label set is the union |
| CuratedTransform.Concat | functions/helper_functions.py:99 | `pd.concat([df, prior])` has `len(df) + len(prior)` rows on the union of columns; row `i` takes its cells from row `i` of `df`, then from row `i - len(df)` of `prior`, missing where that row lacks the column |
| CuratedTransform.Project | functions/helper_functions.py:100 | selecting `columns_to_keep` raises `KeyError`, naming the absent labels, exactly when some label is absent; otherwise the columns are exactly `columns_to_keep` in order, with every row kept and its cells copied |
| CuratedTransform.Combine | functions/helper_functions.py:85-102 | no frame gives the "Empty response received for location: ..." message and nothing else does; a frame with rows but without `id` raises `KeyError` (from `drop_duplicates`) |
| CuratedTransform.CombineFollowsDropDuplicates | functions/helper_functions.py:94 | `drop_duplicates` raises on the stamped frame exactly when the batch has rows but no `id`, and then the transform raises `KeyError` naming `id` |
| CuratedTransform.CombineSteps | functions/helper_functions.py:94-100 | with an `id` column or no rows, the stamped frame comes back when there is no prior frame; otherwise its concatenation with the prior frame is projected |
| CuratedTransform.CombineWithoutPrior | functions/helper_functions.py:96-97 | without a prior frame the result is unprojected: every original column first, the three new ones added, every row kept and stamped |
| CuratedTransform.CombineWithPrior | functions/helper_functions.py:99-100 | with a prior frame the result fails exactly when a curated label is in neither frame nor among the stamped columns; otherwise it has exactly the curated columns and `len(df) + len(prior)` rows |
| CuratedTransform.ProjectedConcatCell | functions/helper_functions.py:99-100 | each cell of the projected concatenation comes from the corresponding new row, then from the corresponding prior row |
| CuratedTransform.CombineNewRowsFirst | functions/helper_functions.py:99-100 | the first `len(df)` rows of the result are the stamped new rows, in order, on every curated column |
| CuratedTransform.CombineStampsNewRows | functions/helper_functions.py:86-100 | so each new row of the result carries the location name, the batch timestamp, the hash of its non-`id` cells, and its own cells elsewhere |
| CuratedTransform.CombinePriorRowsAfter | functions/helper_functions.py:99-100 | the prior rows follow, in order, unchanged on every curated column |
| CuratedTransform.CombineWithEmptyPrior | app.py:42 | starting from an empty combined frame, the first batch is projected too: it fails exactly when a curated label is not among the stamped columns, else it has one row per new row |
| CuratedTransform.DuplicateRowsSurvive | functions/helper_functions.py:94 | the discarded deduplication removes nothing: the result still has `len(df) + len(prior)` rows, and two identical new rows with no missing cell outside `id` keep equal `id` and equal `hashed_id` |
| CuratedTransform.DataFrame.Assign | functions/helper_functions.py:86-87 | the frame after `df[name] = values` is the column assignment of its previous contents |
| CuratedTransform.DataFrame.HashRows | functions/helper_functions.py:90-93 | the row-by-row apply yields, for each row, the hash of its non-`id` cells in column order |
| CuratedTransform.CombineTransformData | functions/helper_functions.py:65-102 | the caller's frame is left stamped in place, and the result is the combine outcome of its previous contents: the message for no frame, a `KeyError` for rows without `id`, the stamped frame without a prior frame, or the projected concatenation |

## Left out

- HTTP fetching: `extract_data_return_df`, the `requests.get` and `raise_for_status` calls and the pause between requests are network I/O. The response body is an input. pandas CSV parsing is not part of this model; a parsed frame is an input.
- `get_coordinates` is a wrapper over an external geocoder and is not part of this model.
- The warehouse client, its credentials and `pandas_gbq.to_gbq` are external services. The table schema is a map and writes are recorded in a ghost log. Failures inside `to_gbq` are not modelled.
- Logging is not modelled.
- The driver scripts are not modelled: the location loop, the count gate and the raw and curated pushes. Only the fact that the combined frame starts empty rather than absent is stated, by `CuratedTransform.CombineWithEmptyPrior`.
- BigQuery.Lower: lower-cases ASCII letters only. Python's `str.lower()` also maps other Unicode letters; table types and dtype names are ASCII.
- BigQuery.Warehouse.PushDataToBigQuery: table schemas are fixed across writes. Creating a table or changing its schema by a write is not modelled.
- CountProbe.GetTotalNEarthquakes: `int()` also accepts non-ASCII decimal digits. The model reads ASCII digits only.
- CountProbe.CountReadsBody: the digit limit is fixed at the default of 4300. It can be changed with `sys.set_int_max_str_digits` or the interpreter's settings, and Python releases before 3.11, other than the 3.7.14, 3.8.14, 3.9.14 and 3.10.7 security releases and later ones in those lines, have none.
- CountProbe.CountReadsBody: CPython tests the digit limit after scanning the digit run and before looking at what follows it. A malformed literal whose leading digit run already has more than 4300 digits therefore raises the digit-limit error; the model raises the invalid-literal error.
- Frame values: floats and coordinates are `Other` cells compared by their text form, so float arithmetic and equality across spellings are not modelled. Dtype strings are opaque inputs. The dtype upcasting pandas performs on concatenation is not modelled.
- Repeated column labels: a frame's columns are taken to be distinct (rows are maps). Repeated labels in `columns_to_keep` produce repeated columns with the same cells.
- CuratedTransform.CombineTransformData: the prior combined frame is a value. Aliasing between it and `df` is not modelled.
- CuratedTransform.StampedCell: Python's `hash()` is a parameter, a function of the cell values. From Python 3.10 on, a NaN hashes by the identity of its float object, so a row with a missing cell gets a `hashed_id` its values do not determine. For such rows the model's hash stands for one possible outcome.
- CuratedTransform.CombineStampsNewRows: the `hashed_id` it states is, for a row with a missing cell, one possible outcome only, as for StampedCell.
- CuratedTransform.DataFrame.HashRows: the hashes it returns are, for a row with a missing cell, one possible outcome only, as for StampedCell.
- CuratedTransform.StampedHashAgrees: promises equal hashes only for rows with no missing cell among the hashed columns, because NaN hashes by identity.
- CuratedTransform.DuplicateRowsSurvive: promises equal `hashed_id` only for identical rows with no missing cell outside `id`, for the same reason.
