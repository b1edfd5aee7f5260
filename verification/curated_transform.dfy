/** The curated-layer transform `combine_transform_data`: the caller's
    DataFrame is stamped in place with the location, one batch timestamp and
    a per-row hash of every field but `id`; then it is either returned as is
    (no prior frame) or placed before the prior combined rows and projected
    to the curated columns. Python's `hash()` and the clock are parameters. */
module CuratedTransform {
  import opened Frames

  const LOCATION := "location"
  const INSERTED_AT := "inserted_at"
  const HASHED_ID := "hashed_id"
  const ID := "id"

  function EmptyResponseMessage(locationName: string): string {
    "Empty response received for location: " + locationName + ".\n"
  }

  /** What `combine_transform_data` hands back: its message for a missing
      frame, a frame, or the `KeyError` pandas raises for absent labels. */
  datatype CombineResult =
    | EmptyResponse(message: string)
    | Combined(frame: Frame)
    | KeyError(labels: seq<string>)

  /** A scalar assigned to a column: the same value on every row. */
  function Broadcast(n: nat, v: Value): (r: seq<Value>)
    ensures |r| == n && forall i :: 0 <= i < n ==> r[i] == v
  {
    seq(n, _ => v)
  }

  /** The column index after `df[name] = ...`: an existing label stays
      where it is, a new one goes after the others. */
  function AddLabel(columns: seq<string>, name: string): (r: seq<string>)
    ensures |r| == |columns| + (if name in columns then 0 else 1)
    ensures r[..|columns|] == columns
    ensures forall c :: c in r <==> c in columns || c == name
    ensures Distinct(columns) ==> Distinct(r)
  {
    if name in columns then columns else columns + [name]
  }

  /** `df[name] = values`: the column is set on every row, nothing else changes. */
  function WithColumn(f: Frame, name: string, values: seq<Value>): (r: Frame)
    requires |values| == |f.rows|
    ensures |r.rows| == |f.rows|
    ensures forall i, c :: 0 <= i < |r.rows| ==>
      Cell(r.rows[i], c) == if c == name then values[i] else Cell(f.rows[i], c)
    ensures WellFormed(f) ==> WellFormed(r)
  {
    Frame(AddLabel(f.columns, name),
          seq(|f.rows|, i requires 0 <= i < |f.rows| => f.rows[i][name := values[i]]))
  }

  /** The tuple hashed for a row: its cells in column order, skipping `id`. */
  function HashKey(columns: seq<string>, row: Row): (r: seq<Value>)
    ensures |r| <= |columns|
    ensures ID !in columns ==> |r| == |columns|
  {
    if columns == [] then []
    else if columns[0] == ID then HashKey(columns[1..], row)
    else [Cell(row, columns[0])] + HashKey(columns[1..], row)
  }

  /** The column `df.apply(lambda x: hash(...), axis=1)` builds. */
  function HashColumn(f: Frame, hash: seq<Value> -> int): seq<Value> {
    seq(|f.rows|, i requires 0 <= i < |f.rows| => Int(hash(HashKey(f.columns, f.rows[i]))))
  }

  /** The hash key does not look at `id`: rows that agree on every other
      column have the same key. */
  lemma {:induction false} HashKeyIgnoresId(columns: seq<string>, r1: Row, r2: Row)
    requires forall c :: c in columns && c != ID ==> Cell(r1, c) == Cell(r2, c)
    ensures HashKey(columns, r1) == HashKey(columns, r2)
  {
    if columns != [] {
      HashKeyIgnoresId(columns[1..], r1, r2);
    }
  }

  /** The columns the hash sees: the frame's own, then the location and
      timestamp columns when they are new. */
  function TimedColumns(columns: seq<string>): seq<string> {
    AddLabel(AddLabel(columns, LOCATION), INSERTED_AT)
  }

  /** A row after the location and timestamp assignments. */
  function TimedRow(row: Row, locationName: string, now: int): Row {
    row[LOCATION := Text(locationName)][INSERTED_AT := Stamp(now)]
  }

  /** A row after all three assignments; the hash is taken over the row as
      it stands after the first two. */
  function StampedRow(columns: seq<string>, row: Row, locationName: string, now: int, hash: seq<Value> -> int): Row {
    var timed := TimedRow(row, locationName, now);
    timed[HASHED_ID := Int(hash(HashKey(TimedColumns(columns), timed)))]
  }

  /** `df` after the three assignments: location, then the batch timestamp,
      then the hash of each row. Every row is kept, the original columns stay
      in front and the three stamp columns are added. */
  function Stamped(f: Frame, locationName: string, now: int, hash: seq<Value> -> int): (r: Frame)
    ensures |r.rows| == |f.rows|
    ensures |r.columns| >= |f.columns| && r.columns[..|f.columns|] == f.columns
    ensures forall c :: c in r.columns <==> c in f.columns || c == LOCATION || c == INSERTED_AT || c == HASHED_ID
    ensures WellFormed(f) ==> WellFormed(r)
  {
    var columns := AddLabel(TimedColumns(f.columns), HASHED_ID);
    var rows := seq(|f.rows|, i requires 0 <= i < |f.rows| => StampedRow(f.columns, f.rows[i], locationName, now, hash));
    assert columns[..|f.columns|] == f.columns by {
      assert TimedColumns(f.columns)[..|f.columns|] == f.columns;
      assert columns[..|f.columns|] == TimedColumns(f.columns)[..|f.columns|];
    }
    Frame(columns, rows)
  }

  /** The three assignments add each stamp label the frame lacks, in the
      order location, timestamp, hash, after the existing columns. */
  lemma StampColumns(columns: seq<string>)
    ensures AddLabel(TimedColumns(columns), HASHED_ID) == columns + NewLabels(columns, [LOCATION, INSERTED_AT, HASHED_ID])
  {
    var labels := [LOCATION, INSERTED_AT, HASHED_ID];
    var n1 := if LOCATION in columns then [] else [LOCATION];
    var n2 := if INSERTED_AT in columns then [] else [INSERTED_AT];
    var n3 := if HASHED_ID in columns then [] else [HASHED_ID];
    assert [HASHED_ID][1..] == [];
    assert NewLabels(columns, [HASHED_ID]) == n3;
    assert [INSERTED_AT, HASHED_ID][1..] == [HASHED_ID];
    assert NewLabels(columns, [INSERTED_AT, HASHED_ID]) == n2 + n3;
    assert labels[1..] == [INSERTED_AT, HASHED_ID];
    assert NewLabels(columns, labels) == n1 + (n2 + n3);
    var c1 := AddLabel(columns, LOCATION);
    assert c1 == columns + n1;
    assert INSERTED_AT in c1 <==> INSERTED_AT in columns;
    var c2 := AddLabel(c1, INSERTED_AT);
    assert c2 == columns + n1 + n2;
    assert HASHED_ID in c2 <==> HASHED_ID in columns;
    assert TimedColumns(columns) == c2;
    assert AddLabel(c2, HASHED_ID) == columns + n1 + n2 + n3;
    Regroup(columns, n1, n2, n3);
  }

  lemma Regroup<T>(a: seq<T>, b: seq<T>, c: seq<T>, d: seq<T>)
    ensures a + b + c + d == a + (b + (c + d))
  {
    assert b + (c + d) == b + c + d;
    assert a + (b + c + d) == a + (b + c) + d;
    assert a + (b + c) == a + b + c;
  }

  /** The stamped frame's column list: its own columns, then each stamp label
      it lacked, in the order location, timestamp, hash; no label appears
      twice unless one already did. */
  lemma StampedColumns(f: Frame, locationName: string, now: int, hash: seq<Value> -> int)
    ensures Stamped(f, locationName, now, hash).columns == f.columns + NewLabels(f.columns, [LOCATION, INSERTED_AT, HASHED_ID])
    ensures |Stamped(f, locationName, now, hash).columns| <= |f.columns| + 3
    ensures Distinct(f.columns) ==> Distinct(Stamped(f, locationName, now, hash).columns)
  {
    StampColumns(f.columns);
  }

  /** Each stamped row carries the location name and the one batch
      timestamp, a hash of its other cells, and its own cells elsewhere. */
  lemma StampedCell(f: Frame, locationName: string, now: int, hash: seq<Value> -> int, i: nat, c: string)
    requires i < |f.rows|
    ensures Cell(Stamped(f, locationName, now, hash).rows[i], c)
         == if c == LOCATION then Text(locationName)
            else if c == INSERTED_AT then Stamp(now)
            else if c == HASHED_ID
              then Int(hash(HashKey(TimedColumns(f.columns), TimedRow(f.rows[i], locationName, now))))
            else Cell(f.rows[i], c)
  {
    assert Stamped(f, locationName, now, hash).rows[i] == StampedRow(f.columns, f.rows[i], locationName, now, hash);
  }

  /** The stamped frame is what the three column assignments leave. */
  lemma StampedByAssignments(f: Frame, locationName: string, now: int, hash: seq<Value> -> int)
    ensures var located := WithColumn(f, LOCATION, Broadcast(|f.rows|, Text(locationName)));
      var timed := WithColumn(located, INSERTED_AT, Broadcast(|f.rows|, Stamp(now)));
      Stamped(f, locationName, now, hash) == WithColumn(timed, HASHED_ID, HashColumn(timed, hash))
  {
    var located := WithColumn(f, LOCATION, Broadcast(|f.rows|, Text(locationName)));
    var timed := WithColumn(located, INSERTED_AT, Broadcast(|f.rows|, Stamp(now)));
    assert timed.columns == TimedColumns(f.columns);
    forall i | 0 <= i < |f.rows|
      ensures timed.rows[i] == TimedRow(f.rows[i], locationName, now)
    {
      assert located.rows[i] == f.rows[i][LOCATION := Text(locationName)];
    }
  }

  /** Two rows of a batch that agree on every column except `id` (and the
      location and timestamp, which the batch shares) get the same
      `hashed_id`, provided none of those cells is missing: Python hashes a
      NaN by its identity, so rows with missing cells are not covered. */
  lemma StampedHashAgrees(f: Frame, locationName: string, now: int, hash: seq<Value> -> int, i: nat, j: nat)
    requires i < |f.rows| && j < |f.rows|
    requires forall c :: c in f.columns && c != ID && c != LOCATION && c != INSERTED_AT ==>
      Cell(f.rows[i], c) == Cell(f.rows[j], c) && Cell(f.rows[i], c) != Missing
    ensures Cell(Stamped(f, locationName, now, hash).rows[i], HASHED_ID)
         == Cell(Stamped(f, locationName, now, hash).rows[j], HASHED_ID)
  {
    var columns := TimedColumns(f.columns);
    var ti, tj := TimedRow(f.rows[i], locationName, now), TimedRow(f.rows[j], locationName, now);
    forall c | c in columns && c != ID
      ensures Cell(ti, c) == Cell(tj, c)
    {
      if c != LOCATION && c != INSERTED_AT {
        assert c in f.columns;
      }
    }
    HashKeyIgnoresId(columns, ti, tj);
    StampedCell(f, locationName, now, hash, i, HASHED_ID);
    StampedCell(f, locationName, now, hash, j, HASHED_ID);
  }

  /** The key values present in `rows`. */
  function KeyValues(rows: seq<Row>, key: string): set<Value> {
    set i | 0 <= i < |rows| :: Cell(rows[i], key)
  }

  /** The rows whose key has not been seen, each kept at its first
      occurrence (`keep="first"`). */
  function KeepFirst(rows: seq<Row>, key: string, seen: set<Value>): (r: seq<Row>)
    ensures |r| <= |rows|
    ensures forall i :: 0 <= i < |r| ==> r[i] in rows && Cell(r[i], key) !in seen
    ensures forall i, j :: 0 <= i < j < |r| ==> Cell(r[i], key) != Cell(r[j], key)
    ensures KeyValues(r, key) == KeyValues(rows, key) - seen
    decreases |rows|
  {
    if rows == [] then []
    else
      var k := Cell(rows[0], key);
      if k in seen then
        var rest := KeepFirst(rows[1..], key, seen);
        KeyValuesCons(rows, key);
        rest
      else
        var rest := KeepFirst(rows[1..], key, seen + {k});
        KeyValuesCons(rows, key);
        KeyValuesCons([rows[0]] + rest, key);
        assert ([rows[0]] + rest)[1..] == rest;
        [rows[0]] + rest
  }

  lemma KeyValuesCons(rows: seq<Row>, key: string)
    requires rows != []
    ensures KeyValues(rows, key) == {Cell(rows[0], key)} + KeyValues(rows[1..], key)
  {
    forall v | v in KeyValues(rows, key)
      ensures v in {Cell(rows[0], key)} + KeyValues(rows[1..], key)
    {
      var i :| 0 <= i < |rows| && Cell(rows[i], key) == v;
      if i > 0 {
        assert rows[1..][i - 1] == rows[i];
      }
    }
    forall v | v in KeyValues(rows[1..], key)
      ensures v in KeyValues(rows, key)
    {
      var i :| 0 <= i < |rows[1..]| && Cell(rows[1..][i], key) == v;
      assert rows[i + 1] == rows[1..][i];
    }
  }

  /** The position of the first row of `rows` whose key is `v`. */
  function FirstWith(rows: seq<Row>, key: string, v: Value): (r: nat)
    requires v in KeyValues(rows, key)
    ensures r < |rows| && Cell(rows[r], key) == v
    ensures forall k :: 0 <= k < r ==> Cell(rows[k], key) != v
    decreases |rows|
  {
    KeyValuesCons(rows, key);
    if Cell(rows[0], key) == v then 0
    else
      var r := 1 + FirstWith(rows[1..], key, v);
      assert forall k :: 1 <= k < r ==> rows[k] == rows[1..][k - 1];
      r
  }

  /** A key other than the first row's is first met one row later than in
      the tail. */
  lemma FirstWithTail(rows: seq<Row>, key: string, v: Value)
    requires rows != [] && v in KeyValues(rows[1..], key) && v != Cell(rows[0], key)
    ensures v in KeyValues(rows, key)
    ensures FirstWith(rows, key, v) == 1 + FirstWith(rows[1..], key, v)
    ensures rows[FirstWith(rows, key, v)] == rows[1..][FirstWith(rows[1..], key, v)]
  {
    KeyValuesCons(rows, key);
  }

  /** Every row of `r` is the first row of `rows` with its key, and `r`
      lists them in the order those first rows occur. */
  predicate FirstRowsInOrder(r: seq<Row>, rows: seq<Row>, key: string) {
    && (forall i :: 0 <= i < |r| ==>
          Cell(r[i], key) in KeyValues(rows, key) && r[i] == rows[FirstWith(rows, key, Cell(r[i], key))])
    && (forall i, j :: 0 <= i < j < |r| ==>
          Cell(r[i], key) in KeyValues(rows, key) && Cell(r[j], key) in KeyValues(rows, key) &&
          FirstWith(rows, key, Cell(r[i], key)) < FirstWith(rows, key, Cell(r[j], key)))
  }

  /** First rows of the tail are first rows of the whole, one place later,
      when their keys differ from the head's. */
  lemma FirstRowsShift(rows: seq<Row>, key: string, rest: seq<Row>)
    requires rows != [] && FirstRowsInOrder(rest, rows[1..], key)
    requires forall i :: 0 <= i < |rest| ==> Cell(rest[i], key) != Cell(rows[0], key)
    ensures FirstRowsInOrder(rest, rows, key)
    ensures forall i :: 0 <= i < |rest| ==> FirstWith(rows, key, Cell(rest[i], key)) > 0
  {
    var tail := rows[1..];
    forall i | 0 <= i < |rest|
      ensures Cell(rest[i], key) in KeyValues(rows, key)
      ensures FirstWith(rows, key, Cell(rest[i], key)) == 1 + FirstWith(tail, key, Cell(rest[i], key))
      ensures rest[i] == rows[FirstWith(rows, key, Cell(rest[i], key))]
    {
      assert rest[i] == tail[FirstWith(tail, key, Cell(rest[i], key))];
      FirstWithTail(rows, key, Cell(rest[i], key));
    }
  }

  /** Putting the head in front of first rows that follow it keeps them first
      rows in order. */
  lemma FirstRowsCons(rows: seq<Row>, key: string, rest: seq<Row>)
    requires rows != [] && FirstRowsInOrder(rest, rows, key)
    requires forall i :: 0 <= i < |rest| ==> FirstWith(rows, key, Cell(rest[i], key)) > 0
    ensures FirstRowsInOrder([rows[0]] + rest, rows, key)
  {
    var r := [rows[0]] + rest;
    KeyValuesCons(rows, key);
    assert FirstWith(rows, key, Cell(rows[0], key)) == 0;
    forall i | 0 <= i < |r|
      ensures Cell(r[i], key) in KeyValues(rows, key) && r[i] == rows[FirstWith(rows, key, Cell(r[i], key))]
    {
      if i > 0 {
        assert r[i] == rest[i - 1];
      }
    }
    forall i, j | 0 <= i < j < |r|
      ensures Cell(r[i], key) in KeyValues(rows, key) && Cell(r[j], key) in KeyValues(rows, key)
      ensures FirstWith(rows, key, Cell(r[i], key)) < FirstWith(rows, key, Cell(r[j], key))
    {
      assert r[j] == rest[j - 1];
      if i > 0 {
        assert r[i] == rest[i - 1];
      }
    }
  }

  /** Deduplication keeps, for each key value not seen before, the row where
      that value first occurs, and keeps these rows in their input order. */
  lemma {:induction false} KeepFirstOrder(rows: seq<Row>, key: string, seen: set<Value>)
    ensures FirstRowsInOrder(KeepFirst(rows, key, seen), rows, key)
    decreases |rows|
  {
    if rows != [] {
      var k := Cell(rows[0], key);
      var seen' := if k in seen then seen else seen + {k};
      var rest := KeepFirst(rows[1..], key, seen');
      KeepFirstOrder(rows[1..], key, seen');
      FirstRowsShift(rows, key, rest);
      if k !in seen {
        FirstRowsCons(rows, key, rest);
      }
    }
  }

  /** `df.drop_duplicates(subset=[key])`: an empty frame comes back as a
      copy before the subset is looked at; otherwise `None` stands for the
      `KeyError` raised when the frame has no such column. */
  function DropDuplicates(f: Frame, key: string): (r: Option<Frame>)
    ensures r.None? <==> !IsEmpty(f) && key !in f.columns
    ensures IsEmpty(f) ==> r == Some(f)
    ensures r.Some? ==> r.value.columns == f.columns && |r.value.rows| <= |f.rows|
    ensures r.Some? && !IsEmpty(f) ==>
      && KeyValues(r.value.rows, key) == KeyValues(f.rows, key)
      && FirstRowsInOrder(r.value.rows, f.rows, key)
  {
    if IsEmpty(f) then Some(f)
    else if key in f.columns then
      KeepFirstOrder(f.rows, key, {});
      Some(Frame(f.columns, KeepFirst(f.rows, key, {})))
    else None
  }

  /** The labels of `b` that `a` lacks, in `b`'s order. */
  function NewLabels(a: seq<string>, b: seq<string>): (r: seq<string>)
    ensures forall c :: c in r <==> c in b && c !in a
  {
    if b == [] then []
    else if b[0] in a then NewLabels(a, b[1..])
    else [b[0]] + NewLabels(a, b[1..])
  }

  /** The column index of `pd.concat([a, b])`: `a`'s columns, then the new
      ones of `b`. */
  function UnionColumns(a: seq<string>, b: seq<string>): (r: seq<string>)
    ensures |r| >= |a| && r[..|a|] == a
    ensures forall c :: c in r <==> c in a || c in b
  {
    a + NewLabels(a, b)
  }

  /** A row laid out on `columns`; a column the row lacks reads as missing. */
  function Reindex(row: Row, columns: seq<string>): (r: Row)
    ensures forall c :: c in r <==> c in columns
    ensures forall c :: c in columns ==> c in r && r[c] == Cell(row, c)
  {
    map c | c in columns :: Cell(row, c)
  }

  function Reindexed(rows: seq<Row>, columns: seq<string>): (r: seq<Row>)
    ensures |r| == |rows|
    ensures forall i :: 0 <= i < |r| ==> r[i] == Reindex(rows[i], columns)
  {
    seq(|rows|, i requires 0 <= i < |rows| => Reindex(rows[i], columns))
  }

  /** `pd.concat([a, b], ignore_index=True)`: all of `a`'s rows, then all of
      `b`'s, on the union of their columns; a cell a side lacks is missing. */
  function Concat(a: Frame, b: Frame): (r: Frame)
    ensures |r.rows| == |a.rows| + |b.rows|
    ensures r.columns == UnionColumns(a.columns, b.columns)
    ensures forall i, c :: 0 <= i < |r.rows| && c in r.columns ==>
      Cell(r.rows[i], c) == Cell(if i < |a.rows| then a.rows[i] else b.rows[i - |a.rows|], c)
    ensures WellFormed(r)
  {
    var columns := UnionColumns(a.columns, b.columns);
    var n := |a.rows| + |b.rows|;
    var rows := seq(n, i requires 0 <= i < n => Reindex(if i < |a.rows| then a.rows[i] else b.rows[i - |a.rows|], columns));
    assert forall i :: 0 <= i < n ==> rows[i] == Reindex(if i < |a.rows| then a.rows[i] else b.rows[i - |a.rows|], columns);
    Frame(columns, rows)
  }

  /** The labels of `keep` that `columns` lacks, in `keep`'s order. */
  function AbsentLabels(columns: seq<string>, keep: seq<string>): (r: seq<string>)
    ensures forall c :: c in r <==> c in keep && c !in columns
  {
    NewLabels(columns, keep)
  }

  /** `f[keep]`: exactly the columns `keep`, in that order, or a `KeyError`
      naming the labels the frame lacks. */
  function Project(f: Frame, keep: seq<string>): (r: CombineResult)
    ensures r.Combined? || r.KeyError?
    ensures r.KeyError? <==> exists c :: c in keep && c !in f.columns
    ensures r.KeyError? ==> r.labels != [] && forall c :: c in r.labels <==> c in keep && c !in f.columns
    ensures r.Combined? ==> r.frame.columns == keep && |r.frame.rows| == |f.rows| && WellFormed(r.frame)
    ensures r.Combined? ==> forall i, c :: 0 <= i < |f.rows| && c in keep ==> r.frame.rows[i][c] == Cell(f.rows[i], c)
  {
    var absent := AbsentLabels(f.columns, keep);
    if absent != [] then
      assert absent[0] in absent;
      KeyError(absent)
    else
      Combined(Frame(keep, Reindexed(f.rows, keep)))
  }

  /** What `combine_transform_data` returns for the frame `f` (before
      stamping) and the prior combined frame. */
  function Combine(locationName: string, f: Option<Frame>, keep: seq<string>, prior: Option<Frame>,
                   now: int, hash: seq<Value> -> int): (r: CombineResult)
    ensures r.EmptyResponse? <==> f.None?
    ensures f.None? ==> r.message == EmptyResponseMessage(locationName)
    ensures f.Some? && ID !in f.value.columns && |f.value.rows| > 0 ==> r == KeyError([ID])
  {
    match f
    case None => EmptyResponse(EmptyResponseMessage(locationName))
    case Some(df) =>
      var stamped := Stamped(df, locationName, now, hash);
      // drop_duplicates(subset=["id"]) may raise here; its result is not used
      if ID !in stamped.columns && |stamped.rows| > 0 then KeyError([ID])
      else match prior
        case None => Combined(stamped)
        case Some(p) => Project(Concat(stamped, p), keep)
  }

  /** The `KeyError` without `id` is the one `drop_duplicates` raises on the
      stamped frame: it raises exactly when the frame has rows but no `id`. */
  lemma CombineFollowsDropDuplicates(locationName: string, df: Frame, keep: seq<string>, prior: Option<Frame>,
                                     now: int, hash: seq<Value> -> int)
    ensures var stamped := Stamped(df, locationName, now, hash);
      && (DropDuplicates(stamped, ID).None? <==> ID !in df.columns && |df.rows| > 0)
      && (DropDuplicates(stamped, ID).None? ==> Combine(locationName, Some(df), keep, prior, now, hash) == KeyError([ID]))
  {
    var stamped := Stamped(df, locationName, now, hash);
    assert ID in stamped.columns <==> ID in df.columns;
    assert IsEmpty(stamped) <==> |df.rows| == 0;
  }

  /** `drop_duplicates(subset=["id"])` does not raise on the stamped frame:
      it has an `id` column, or no rows at all. */
  predicate KeepsIdCheck(df: Frame) {
    ID in df.columns || |df.rows| == 0
  }

  /** With a frame that has an `id` column or no rows, the stamped frame is
      returned as is when there is no prior frame, and otherwise its
      concatenation with the prior frame is projected. */
  lemma CombineSteps(locationName: string, df: Frame, keep: seq<string>, prior: Option<Frame>, now: int, hash: seq<Value> -> int)
    requires KeepsIdCheck(df)
    ensures var stamped := Stamped(df, locationName, now, hash);
      Combine(locationName, Some(df), keep, prior, now, hash)
        == if prior.None? then Combined(stamped) else Project(Concat(stamped, prior.value), keep)
  {
    var stamped := Stamped(df, locationName, now, hash);
    assert ID in stamped.columns || IsEmpty(stamped);
  }

  /** Without a prior frame, the stamped frame itself comes back: every
      original column first, the three new ones after, no row dropped. */
  lemma CombineWithoutPrior(locationName: string, df: Frame, keep: seq<string>, now: int, hash: seq<Value> -> int)
    requires KeepsIdCheck(df)
    ensures var r := Combine(locationName, Some(df), keep, None, now, hash);
      && r.Combined?
      && |r.frame.rows| == |df.rows|
      && r.frame.columns[..|df.columns|] == df.columns
      && (forall c :: c in r.frame.columns <==> c in df.columns || c == LOCATION || c == INSERTED_AT || c == HASHED_ID)
      && (forall i :: 0 <= i < |df.rows| ==>
            Cell(r.frame.rows[i], LOCATION) == Text(locationName) && Cell(r.frame.rows[i], INSERTED_AT) == Stamp(now))
  {
    CombineSteps(locationName, df, keep, None, now, hash);
    forall i | 0 <= i < |df.rows|
      ensures var row := Stamped(df, locationName, now, hash).rows[i];
        Cell(row, LOCATION) == Text(locationName) && Cell(row, INSERTED_AT) == Stamp(now)
    {
      StampedCell(df, locationName, now, hash, i, LOCATION);
      StampedCell(df, locationName, now, hash, i, INSERTED_AT);
    }
  }

  /** With a prior frame, the result fails exactly when a curated label is in
      neither frame (nor among the stamped columns); otherwise it has exactly
      the curated columns and one row per new row plus one per prior row. */
  lemma CombineWithPrior(locationName: string, df: Frame, keep: seq<string>, prior: Frame, now: int, hash: seq<Value> -> int)
    requires KeepsIdCheck(df)
    ensures var r := Combine(locationName, Some(df), keep, Some(prior), now, hash);
      && (r.KeyError? <==> exists c :: c in keep && c !in df.columns && c !in prior.columns
                                       && c != LOCATION && c != INSERTED_AT && c != HASHED_ID)
      && (r.Combined? ==> r.frame.columns == keep && |r.frame.rows| == |df.rows| + |prior.rows|)
  {
    CombineSteps(locationName, df, keep, Some(prior), now, hash);
    var stamped := Stamped(df, locationName, now, hash);
    var all := Concat(stamped, prior);
  }

  /** A cell of a projected concatenation is the cell of the row it came
      from: one of `a`'s rows first, then one of `b`'s. */
  lemma ProjectedConcatCell(a: Frame, b: Frame, keep: seq<string>, i: nat, c: string)
    requires Project(Concat(a, b), keep).Combined?
    requires i < |a.rows| + |b.rows| && c in keep
    ensures Cell(Project(Concat(a, b), keep).frame.rows[i], c)
         == Cell(if i < |a.rows| then a.rows[i] else b.rows[i - |a.rows|], c)
  {
    var all := Concat(a, b);
    assert c in all.columns;
    assert Project(all, keep).frame.rows[i][c] == Cell(all.rows[i], c);
  }

  /** The new rows come first: row `i` of the result, for `i` below
      `len(df)`, is row `i` of the stamped frame on every curated column. */
  lemma CombineNewRowsFirst(locationName: string, df: Frame, keep: seq<string>, prior: Frame, now: int, hash: seq<Value> -> int)
    requires KeepsIdCheck(df)
    requires Combine(locationName, Some(df), keep, Some(prior), now, hash).Combined?
    ensures var rows := Combine(locationName, Some(df), keep, Some(prior), now, hash).frame.rows;
      forall i, c :: 0 <= i < |df.rows| && c in keep ==>
        Cell(rows[i], c) == Cell(Stamped(df, locationName, now, hash).rows[i], c)
  {
    CombineSteps(locationName, df, keep, Some(prior), now, hash);
    var stamped := Stamped(df, locationName, now, hash);
    var rows := Project(Concat(stamped, prior), keep).frame.rows;
    forall i, c | 0 <= i < |df.rows| && c in keep
      ensures Cell(rows[i], c) == Cell(stamped.rows[i], c)
    {
      ProjectedConcatCell(stamped, prior, keep, i, c);
    }
  }

  /** So the new rows carry this batch's location and timestamp, and their
      own cells on every other curated column. */
  lemma CombineStampsNewRows(locationName: string, df: Frame, keep: seq<string>, prior: Frame, now: int, hash: seq<Value> -> int,
                             i: nat, c: string)
    requires KeepsIdCheck(df)
    requires Combine(locationName, Some(df), keep, Some(prior), now, hash).Combined?
    requires i < |df.rows| && c in keep
    ensures var rows := Combine(locationName, Some(df), keep, Some(prior), now, hash).frame.rows;
      Cell(rows[i], c) == if c == LOCATION then Text(locationName)
                          else if c == INSERTED_AT then Stamp(now)
                          else if c == HASHED_ID
                            then Int(hash(HashKey(TimedColumns(df.columns), TimedRow(df.rows[i], locationName, now))))
                          else Cell(df.rows[i], c)
  {
    CombineNewRowsFirst(locationName, df, keep, prior, now, hash);
    StampedCell(df, locationName, now, hash, i, c);
  }

  /** The prior combined rows follow the new ones, unchanged on every
      curated column. */
  lemma CombinePriorRowsAfter(locationName: string, df: Frame, keep: seq<string>, prior: Frame, now: int, hash: seq<Value> -> int)
    requires KeepsIdCheck(df)
    requires Combine(locationName, Some(df), keep, Some(prior), now, hash).Combined?
    ensures var rows := Combine(locationName, Some(df), keep, Some(prior), now, hash).frame.rows;
      forall j, c :: 0 <= j < |prior.rows| && c in keep ==> Cell(rows[|df.rows| + j], c) == Cell(prior.rows[j], c)
  {
    CombineSteps(locationName, df, keep, Some(prior), now, hash);
    var stamped := Stamped(df, locationName, now, hash);
    forall j, c | 0 <= j < |prior.rows| && c in keep
      ensures var rows := Project(Concat(stamped, prior), keep).frame.rows;
        |df.rows| + j < |rows| && Cell(rows[|df.rows| + j], c) == Cell(prior.rows[j], c)
    {
      ProjectedConcatLater(stamped, prior, keep, j, c);
    }
  }

  /** The rows of `b` follow those of `a` in a projected concatenation. */
  lemma ProjectedConcatLater(a: Frame, b: Frame, keep: seq<string>, j: nat, c: string)
    requires Project(Concat(a, b), keep).Combined?
    requires j < |b.rows| && c in keep
    ensures var rows := Project(Concat(a, b), keep).frame.rows;
      |a.rows| + j < |rows| && Cell(rows[|a.rows| + j], c) == Cell(b.rows[j], c)
  {
    ProjectedConcatCell(a, b, keep, |a.rows| + j, c);
  }

  /** The scripts start from an empty combined frame rather than none, so
      the first batch is projected as well: it fails exactly when a curated
      label is not among the stamped columns. */
  lemma CombineWithEmptyPrior(locationName: string, df: Frame, keep: seq<string>, now: int, hash: seq<Value> -> int)
    requires KeepsIdCheck(df)
    ensures var r := Combine(locationName, Some(df), keep, Some(Frame([], [])), now, hash);
      && (r.KeyError? <==> exists c :: c in keep && c !in df.columns && c != LOCATION && c != INSERTED_AT && c != HASHED_ID)
      && (r.Combined? ==> r.frame.columns == keep && |r.frame.rows| == |df.rows|)
  {
    CombineWithPrior(locationName, df, keep, Frame([], []), now, hash);
  }

  /** The discarded `drop_duplicates` removes nothing: two identical new
      rows both reach the result, with the same id and the same hash. */
  lemma DuplicateRowsSurvive(locationName: string, df: Frame, keep: seq<string>, prior: Frame, now: int,
                             hash: seq<Value> -> int, i: nat, j: nat)
    requires KeepsIdCheck(df) && HASHED_ID in keep
    requires i < j < |df.rows| && df.rows[i] == df.rows[j]
    requires forall c :: c in df.columns && c != ID && c != LOCATION && c != INSERTED_AT ==> Cell(df.rows[i], c) != Missing
    requires Combine(locationName, Some(df), keep, Some(prior), now, hash).Combined?
    ensures var rows := Combine(locationName, Some(df), keep, Some(prior), now, hash).frame.rows;
      && |rows| == |df.rows| + |prior.rows|
      && Cell(rows[i], HASHED_ID) == Cell(rows[j], HASHED_ID)
      && (ID in keep ==> Cell(rows[i], ID) == Cell(rows[j], ID))
  {
    CombineWithPrior(locationName, df, keep, prior, now, hash);
    CombineNewRowsFirst(locationName, df, keep, prior, now, hash);
    StampedHashAgrees(df, locationName, now, hash, i, j);
    if ID in keep {
      CombineStampsNewRows(locationName, df, keep, prior, now, hash, i, ID);
      CombineStampsNewRows(locationName, df, keep, prior, now, hash, j, ID);
    }
  }

  /** A pandas DataFrame the transform updates in place. */
  class DataFrame {
    var columns: seq<string>
    var rows: seq<Row>

    function Contents(): Frame
      reads this
    {
      Frame(columns, rows)
    }

    constructor(f: Frame)
      ensures Contents() == f
    {
      columns := f.columns;
      rows := f.rows;
    }

    /** `df[name] = values`. */
    method Assign(name: string, values: seq<Value>)
      requires |values| == |rows|
      modifies this
      ensures Contents() == WithColumn(old(Contents()), name, values)
    {
      if name !in columns {
        columns := columns + [name];
      }
      var before := rows;
      rows := seq(|before|, i requires 0 <= i < |before| => before[i][name := values[i]]);
    }

    /** `df.apply(lambda x: hash(tuple(...)), axis=1)`, one row at a time. */
    method HashRows(hash: seq<Value> -> int) returns (hs: seq<Value>)
      ensures hs == HashColumn(Contents(), hash)
    {
      hs := [];
      var i := 0;
      while i < |rows|
        invariant 0 <= i <= |rows|
        invariant hs == HashColumn(Contents(), hash)[..i]
      {
        hs := hs + [Int(hash(HashKey(columns, rows[i])))];
        i := i + 1;
      }
    }
  }

  /** `combine_transform_data`: stamps `df` in place, then returns it or its
      concatenation with the prior frame projected to `columnsToKeep`. */
  method CombineTransformData(locationName: string, df: DataFrame?, columnsToKeep: seq<string>,
                              endCombined: Option<Frame>, now: int, hash: seq<Value> -> int)
    returns (r: CombineResult)
    modifies df
    ensures df != null ==> df.Contents() == Stamped(old(df.Contents()), locationName, now, hash)
    ensures r == Combine(locationName, if df == null then None else Some(old(df.Contents())),
                         columnsToKeep, endCombined, now, hash)
  {
    if df == null {
      return EmptyResponse(EmptyResponseMessage(locationName));
    }
    var n := |df.rows|;
    df.Assign(LOCATION, Broadcast(n, Text(locationName)));
    df.Assign(INSERTED_AT, Broadcast(n, Stamp(now)));
    var hashes := df.HashRows(hash);
    df.Assign(HASHED_ID, hashes);
    StampedByAssignments(old(df.Contents()), locationName, now, hash);
    var deduplicated := DropDuplicates(df.Contents(), ID);
    if deduplicated.None? {
      return KeyError([ID]);
    }
    match endCombined
    case None => r := Combined(df.Contents());
    case Some(prior) => r := Project(Concat(df.Contents(), prior), columnsToKeep);
  }
}
