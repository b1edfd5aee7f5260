/** The warehouse schema guard (`check_bq_schema`) and the write decision
    wrapped around it (`push_data_to_bigquery`). The repository carries two
    copies of this code, functions/bigquery_functions.py and
    functions/bigquery/bigquery_functions.py, with identical logic; this
    module models both. */
module BigQuery {
  import opened Frames

  const EMPTY_FRAME_MESSAGE := "Empty DataFrame received and moving to next location."
  const DEFAULT_IF_EXISTS := "append"

  /** The two `ValueError`s the guard raises. */
  datatype SchemaError =
    | ColumnNotFound(column: string)
    | TypeMismatch(column: string, frameType: string, tableType: string)

  datatype Outcome = Pass | Fail(error: SchemaError)

  /** `str.lower()` on one character, for the ASCII letters. */
  function LowerChar(c: char): char {
    if 'A' <= c <= 'Z' then (c as int + 32) as char else c
  }

  function Lower(s: string): (r: string)
    ensures |r| == |s|
    ensures forall i :: 0 <= i < |s| ==> r[i] == LowerChar(s[i])
  {
    seq(|s|, i requires 0 <= i < |s| => LowerChar(s[i]))
  }

  /** A frame column (label, dtype) passes when the table declares the label
      with a type equal to the dtype once both are lower-cased. */
  predicate ColumnOk(tableSchema: map<string, string>, column: (string, string)) {
    column.0 in tableSchema && Lower(tableSchema[column.0]) == Lower(column.1)
  }

  /** The error raised for a column that does not pass. */
  function ErrorFor(tableSchema: map<string, string>, column: (string, string)): SchemaError {
    if column.0 !in tableSchema then ColumnNotFound(column.0)
    else TypeMismatch(column.0, column.1, tableSchema[column.0])
  }

  /** The loop over `df_schema.items()`: the first column that does not pass
      raises, and the columns after it are not looked at. */
  function CheckColumns(tableSchema: map<string, string>, columns: seq<(string, string)>): (r: Outcome)
    ensures r.Pass? <==> forall i :: 0 <= i < |columns| ==> ColumnOk(tableSchema, columns[i])
    decreases |columns|
  {
    if columns == [] then Pass
    else if !ColumnOk(tableSchema, columns[0]) then Fail(ErrorFor(tableSchema, columns[0]))
    else CheckColumns(tableSchema, columns[1..])
  }

  /** No two items carry the same label. */
  predicate DistinctLabels(items: seq<(string, string)>) {
    forall i, j :: 0 <= i < j < |items| ==> items[i].0 != items[j].0
  }

  predicate HasLabel(items: seq<(string, string)>, name: string) {
    exists k :: 0 <= k < |items| && items[k].0 == name
  }

  /** Storing one entry in a Python dict, held as its ordered items: a label
      already present keeps its place and takes the new dtype; a new label
      goes last. */
  function Put(d: seq<(string, string)>, item: (string, string)): seq<(string, string)>
    decreases |d|
  {
    if d == [] then [item]
    else if d[0].0 == item.0 then [item] + d[1..]
    else [d[0]] + Put(d[1..], item)
  }

  /** `{col: str(dtype) for col, dtype in df.dtypes.items()}`. */
  function DictOf(items: seq<(string, string)>): seq<(string, string)>
    decreases |items|
  {
    if items == [] then [] else Put(DictOf(items[..|items| - 1]), items[|items| - 1])
  }

  /** Item `i` is the last one carrying its label, so its dtype is the one the dict keeps. */
  predicate LastOfLabel(items: seq<(string, string)>, i: int)
    requires 0 <= i < |items|
  {
    forall j :: i < j < |items| ==> items[j].0 != items[i].0
  }

  /** Every frame column, with the dtype the dict keeps for it, is declared
      by the table with an equal type up to case. Columns only the table has
      play no part. */
  ghost predicate Compatible(tableSchema: map<string, string>, frameSchema: seq<(string, string)>) {
    forall i :: 0 <= i < |frameSchema| && LastOfLabel(frameSchema, i) ==> ColumnOk(tableSchema, frameSchema[i])
  }

  lemma {:induction false} DistinctLabelsTail(d: seq<(string, string)>)
    requires d != [] && DistinctLabels(d)
    ensures DistinctLabels(d[1..]) && !HasLabel(d[1..], d[0].0)
  {
    forall i, j | 0 <= i < j < |d| - 1
      ensures d[1..][i].0 != d[1..][j].0
    {
      assert d[i + 1].0 != d[j + 1].0;
    }
    forall k | 0 <= k < |d| - 1
      ensures d[1..][k].0 != d[0].0
    {
      assert d[0].0 != d[k + 1].0;
    }
  }

  lemma {:induction false} PutMember(d: seq<(string, string)>, item: (string, string), x: (string, string))
    requires DistinctLabels(d)
    ensures x in Put(d, item) <==> x == item || (x in d && x.0 != item.0)
    decreases |d|
  {
    if d == [] {
    } else if d[0].0 == item.0 {
      assert Put(d, item) == [item] + d[1..];
      DistinctLabelsTail(d);
      if x in d[1..] {
        var k :| 0 <= k < |d| - 1 && d[1..][k] == x;
        assert HasLabel(d[1..], x.0);
      }
      if x in d && x.0 != item.0 {
        var k :| 0 <= k < |d| && d[k] == x;
        assert d[1..][k - 1] == x;
      }
    } else {
      DistinctLabelsTail(d);
      PutMember(d[1..], item, x);
      assert Put(d, item) == [d[0]] + Put(d[1..], item);
      assert d == [d[0]] + d[1..];
    }
  }

  lemma HasLabelCons(head: (string, string), tail: seq<(string, string)>, name: string)
    ensures HasLabel([head] + tail, name) <==> head.0 == name || HasLabel(tail, name)
  {
    var s := [head] + tail;
    if HasLabel(tail, name) {
      var k :| 0 <= k < |tail| && tail[k].0 == name;
      assert s[k + 1].0 == name;
    }
    if HasLabel(s, name) {
      var k :| 0 <= k < |s| && s[k].0 == name;
      if k > 0 {
        assert tail[k - 1].0 == name;
      }
    }
    assert s[0] == head;
  }

  lemma {:induction false} PutLabels(d: seq<(string, string)>, item: (string, string), name: string)
    ensures HasLabel(Put(d, item), name) <==> name == item.0 || HasLabel(d, name)
    decreases |d|
  {
    if d == [] {
      HasLabelCons(item, [], name);
      assert [item] + [] == [item];
    } else {
      assert d == [d[0]] + d[1..];
      HasLabelCons(d[0], d[1..], name);
      if d[0].0 == item.0 {
        HasLabelCons(item, d[1..], name);
      } else {
        PutLabels(d[1..], item, name);
        HasLabelCons(d[0], Put(d[1..], item), name);
      }
    }
  }

  lemma {:induction false} PutDistinct(d: seq<(string, string)>, item: (string, string))
    requires DistinctLabels(d)
    ensures DistinctLabels(Put(d, item))
    decreases |d|
  {
    var p := Put(d, item);
    if d == [] {
    } else if d[0].0 == item.0 {
      assert p == [item] + d[1..];
      forall i, j | 0 <= i < j < |p|
        ensures p[i].0 != p[j].0
      {
        assert d[i].0 != d[j].0;
      }
    } else {
      DistinctLabelsTail(d);
      PutDistinct(d[1..], item);
      var q := Put(d[1..], item);
      assert p == [d[0]] + q;
      forall i, j | 0 <= i < j < |p|
        ensures p[i].0 != p[j].0
      {
        if i == 0 {
          assert HasLabel(q, q[j - 1].0);
          PutLabels(d[1..], item, q[j - 1].0);
        } else {
          assert q[i - 1].0 != q[j - 1].0;
        }
      }
    }
  }

  lemma {:induction false} PutAppends(d: seq<(string, string)>, item: (string, string))
    requires !HasLabel(d, item.0)
    ensures Put(d, item) == d + [item]
    decreases |d|
  {
    if d != [] {
      assert d[0].0 != item.0;
      forall k | 0 <= k < |d| - 1
        ensures d[1..][k].0 != item.0
      {
        assert d[k + 1].0 != item.0;
      }
      PutAppends(d[1..], item);
      assert d == [d[0]] + d[1..];
    }
  }

  lemma {:induction false} DictOfDistinct(items: seq<(string, string)>)
    ensures DistinctLabels(DictOf(items))
    decreases |items|
  {
    if items != [] {
      DictOfDistinct(items[..|items| - 1]);
      PutDistinct(DictOf(items[..|items| - 1]), items[|items| - 1]);
    }
  }

  /** Everything in the dict is an item that is last with its label. */
  lemma {:induction false} DictOfMemberIsLast(items: seq<(string, string)>, x: (string, string))
    requires x in DictOf(items)
    ensures exists i :: 0 <= i < |items| && LastOfLabel(items, i) && items[i] == x
    decreases |items|
  {
    var n := |items|;
    var p, last := items[..n - 1], items[n - 1];
    DictOfDistinct(p);
    PutMember(DictOf(p), last, x);
    if x == last {
      assert LastOfLabel(items, n - 1) && items[n - 1] == x;
    } else {
      assert x in DictOf(p) && x.0 != last.0;
      DictOfMemberIsLast(p, x);
      var i :| 0 <= i < |p| && LastOfLabel(p, i) && p[i] == x;
      forall j | i < j < n
        ensures items[j].0 != items[i].0
      {
        if j < n - 1 { assert items[j] == p[j]; }
      }
      assert items[i] == x;
    }
  }

  /** Every item that is last with its label is in the dict. */
  lemma {:induction false} LastIsDictMember(items: seq<(string, string)>, i: int)
    requires 0 <= i < |items| && LastOfLabel(items, i)
    ensures items[i] in DictOf(items)
    decreases |items|
  {
    var n := |items|;
    var p, last := items[..n - 1], items[n - 1];
    DictOfDistinct(p);
    PutMember(DictOf(p), last, items[i]);
    if i < n - 1 {
      assert LastOfLabel(p, i) && p[i] == items[i];
      LastIsDictMember(p, i);
    }
  }

  /** When no label repeats, the dict is the item list itself, in frame order. */
  lemma {:induction false} DictOfIdentity(items: seq<(string, string)>)
    requires DistinctLabels(items)
    ensures DictOf(items) == items
    decreases |items|
  {
    if items != [] {
      var n := |items|;
      var p, last := items[..n - 1], items[n - 1];
      assert DistinctLabels(p) by {
        forall i, j | 0 <= i < j < |p|
          ensures p[i].0 != p[j].0
        {
          assert items[i].0 != items[j].0;
        }
      }
      DictOfIdentity(p);
      forall k | 0 <= k < |p|
        ensures p[k].0 != last.0
      {
        assert items[k].0 != items[n - 1].0;
      }
      PutAppends(p, last);
      assert items == p + [last];
    }
  }

  /** `check_bq_schema`: passes exactly when the frame is compatible with the table. */
  function CheckBqSchema(tableSchema: map<string, string>, frameSchema: seq<(string, string)>): (r: Outcome)
    ensures r.Pass? <==> Compatible(tableSchema, frameSchema)
  {
    var d := DictOf(frameSchema);
    assert CheckColumns(tableSchema, d).Pass? <==> Compatible(tableSchema, frameSchema) by {
      if CheckColumns(tableSchema, d).Pass? {
        forall i | 0 <= i < |frameSchema| && LastOfLabel(frameSchema, i)
          ensures ColumnOk(tableSchema, frameSchema[i])
        {
          LastIsDictMember(frameSchema, i);
        }
      }
      if Compatible(tableSchema, frameSchema) {
        forall k | 0 <= k < |d|
          ensures ColumnOk(tableSchema, d[k])
        {
          DictOfMemberIsLast(frameSchema, d[k]);
        }
      }
    }
    CheckColumns(tableSchema, d)
  }

  /** With the labels distinct (as every frame read from CSV has them), the
      columns are checked in frame order and the first failing column
      decides the error: an undeclared label raises "not found", a declared
      one with another type raises the type mismatch. */
  lemma {:induction false} FirstFailingColumnDecides(tableSchema: map<string, string>,
                                                     frameSchema: seq<(string, string)>, k: nat)
    requires DistinctLabels(frameSchema)
    requires k < |frameSchema| && !ColumnOk(tableSchema, frameSchema[k])
    requires forall j :: 0 <= j < k ==> ColumnOk(tableSchema, frameSchema[j])
    ensures frameSchema[k].0 !in tableSchema ==>
              CheckBqSchema(tableSchema, frameSchema) == Fail(ColumnNotFound(frameSchema[k].0))
    ensures frameSchema[k].0 in tableSchema ==>
              CheckBqSchema(tableSchema, frameSchema)
              == Fail(TypeMismatch(frameSchema[k].0, frameSchema[k].1, tableSchema[frameSchema[k].0]))
  {
    DictOfIdentity(frameSchema);
    FirstFailureInOrder(tableSchema, frameSchema, k);
  }

  lemma {:induction false} FirstFailureInOrder(tableSchema: map<string, string>,
                                               columns: seq<(string, string)>, k: nat)
    requires k < |columns| && !ColumnOk(tableSchema, columns[k])
    requires forall j :: 0 <= j < k ==> ColumnOk(tableSchema, columns[j])
    ensures CheckColumns(tableSchema, columns) == Fail(ErrorFor(tableSchema, columns[k]))
    decreases k
  {
    if k > 0 {
      FirstFailureInOrder(tableSchema, columns[1..], k - 1);
    }
  }

  /** The two schemas say the same about `column`. */
  predicate AgreeOn(t1: map<string, string>, t2: map<string, string>, column: string) {
    (column in t1 <==> column in t2) && (column in t1 ==> t1[column] == t2[column])
  }

  /** Columns the table has and the frame lacks are never looked at: two
      table schemas that agree on the frame's labels give the same verdict,
      so adding table-only columns changes nothing (a subset check, not an
      equality check). */
  lemma TableOnlyColumnsIgnored(t1: map<string, string>, t2: map<string, string>,
                                frameSchema: seq<(string, string)>)
    requires forall i :: 0 <= i < |frameSchema| ==> AgreeOn(t1, t2, frameSchema[i].0)
    ensures CheckBqSchema(t1, frameSchema) == CheckBqSchema(t2, frameSchema)
  {
    var d := DictOf(frameSchema);
    forall k | 0 <= k < |d|
      ensures AgreeOn(t1, t2, d[k].0)
    {
      DictOfMemberIsLast(frameSchema, d[k]);
    }
    CheckColumnsAgree(t1, t2, d);
  }

  lemma {:induction false} CheckColumnsAgree(t1: map<string, string>, t2: map<string, string>,
                                             columns: seq<(string, string)>)
    requires forall i :: 0 <= i < |columns| ==> AgreeOn(t1, t2, columns[i].0)
    ensures CheckColumns(t1, columns) == CheckColumns(t2, columns)
    decreases |columns|
  {
    if columns != [] {
      CheckColumnsAgree(t1, t2, columns[1..]);
    }
  }

  /** The guard's documented cases: "string" against "STRING" passes, an
      undeclared label is not found, "string" against "INTEGER" is a type
      mismatch, and a frame without columns passes whatever the table holds. */
  lemma SchemaGuardExamples()
    ensures CheckBqSchema(map["status" := "STRING"], [("status", "string")]) == Pass
    ensures CheckBqSchema(map["status" := "STRING"], [("new_field", "string")])
            == Fail(ColumnNotFound("new_field"))
    ensures CheckBqSchema(map["status" := "INTEGER"], [("status", "string")])
            == Fail(TypeMismatch("status", "string", "INTEGER"))
    ensures CheckBqSchema(map["status" := "STRING"], []) == Pass
  {
    assert Lower("STRING") == Lower("string");
    assert Lower("INTEGER")[0] != Lower("string")[0];
    FirstFailingColumnDecides(map["status" := "STRING"], [("new_field", "string")], 0);
    FirstFailingColumnDecides(map["status" := "INTEGER"], [("status", "string")], 0);
  }

  /** A write the warehouse received: `pandas_gbq.to_gbq(df, table_id, if_exists=...)`. */
  datatype Write = Write(tableId: string, frame: Frame, ifExists: string)

  /** How `push_data_to_bigquery` ends: it returns None (after a schema
      failure, and after a write), returns the empty-frame message, or
      propagates the "not found" error of `client.get_table`. */
  datatype PushResult = NoneReturned | EmptyMessage(text: string) | NotFoundRaised(tableId: string)

  function TableId(projectId: string, datasetId: string, tableName: string): string {
    projectId + "." + datasetId + "." + tableName
  }

  /** `df.dtypes.items()`: each column label paired with its dtype string. */
  function FrameSchema(df: Frame, dtypes: seq<string>): (items: seq<(string, string)>)
    requires |dtypes| == |df.columns|
    ensures |items| == |df.columns|
    ensures forall i :: 0 <= i < |items| ==> items[i] == (df.columns[i], dtypes[i])
  {
    seq(|dtypes|, i requires 0 <= i < |dtypes| => (df.columns[i], dtypes[i]))
  }

  /** The warehouse as the push sees it: the declared column types of each
      existing table, and the log of writes received. */
  class Warehouse {
    var schemas: map<string, map<string, string>>
    ghost var log: seq<Write>

    constructor (schemas: map<string, map<string, string>>)
      ensures this.schemas == schemas && log == []
    {
      this.schemas := schemas;
      log := [];
    }

    /** `push_data_to_bigquery`: the schema guard runs first, the emptiness
        test second, and only a compatible, non-empty frame is written, once,
        to "{project}.{dataset}.{table}". */
    method PushDataToBigQuery(df: Frame, dtypes: seq<string>, projectId: string, datasetId: string,
                              tableName: string, ifExists: string := DEFAULT_IF_EXISTS)
      returns (r: PushResult)
      requires |dtypes| == |df.columns|
      modifies this`log
      ensures var id := TableId(projectId, datasetId, tableName);
              id !in schemas ==> r == NotFoundRaised(id) && log == old(log)
      ensures var id := TableId(projectId, datasetId, tableName);
              id in schemas && CheckBqSchema(schemas[id], FrameSchema(df, dtypes)).Fail? ==>
                r == NoneReturned && log == old(log)
      ensures var id := TableId(projectId, datasetId, tableName);
              id in schemas && CheckBqSchema(schemas[id], FrameSchema(df, dtypes)).Pass? && IsEmpty(df) ==>
                r == EmptyMessage(EMPTY_FRAME_MESSAGE) && log == old(log)
      ensures var id := TableId(projectId, datasetId, tableName);
              id in schemas && CheckBqSchema(schemas[id], FrameSchema(df, dtypes)).Pass? && !IsEmpty(df) ==>
                r == NoneReturned && log == old(log) + [Write(id, df, ifExists)]
    {
      var id := TableId(projectId, datasetId, tableName);
      if id !in schemas {
        return NotFoundRaised(id);
      }
      var check := CheckBqSchema(schemas[id], FrameSchema(df, dtypes));
      if check.Fail? {
        // logged, then swallowed
        return NoneReturned;
      }
      if IsEmpty(df) {
        return EmptyMessage(EMPTY_FRAME_MESSAGE);
      }
      log := log + [Write(id, df, ifExists)];
      r := NoneReturned;
    }
  }

  /** A client: an empty frame whose only column the table does not declare
      meets the schema guard first, so the push returns None rather than the
      empty-frame message, and nothing is written. */
  method EmptyFrameMeetsGuardFirst() {
    var w := new Warehouse(map["p.raw.Tokyo" := map["time" := "STRING"]]);
    var df := Frame(["depth"], []);
    assert TableId("p", "raw", "Tokyo") == "p.raw.Tokyo";
    assert CheckBqSchema(w.schemas["p.raw.Tokyo"], FrameSchema(df, ["float64"])) == Fail(ColumnNotFound("depth")) by {
      FirstFailingColumnDecides(w.schemas["p.raw.Tokyo"], FrameSchema(df, ["float64"]), 0);
    }
    var r := w.PushDataToBigQuery(df, ["float64"], "p", "raw", "Tokyo");
    assert r == NoneReturned && w.log == [];
    var full := Frame(["time"], [map["time" := Text("2024-01-01")]]);
    assert CheckBqSchema(w.schemas["p.raw.Tokyo"], FrameSchema(full, ["string"])) == Pass by {
      assert Lower("STRING") == Lower("string");
    }
    r := w.PushDataToBigQuery(full, ["string"], "p", "raw", "Tokyo");
    assert r == NoneReturned && w.log == [Write("p.raw.Tokyo", full, "append")];
  }
}
