/** Tabular data shared by the warehouse guard and the curated transformer.
    A pandas DataFrame is seen as an ordered list of column labels and a
    sequence of rows; each row maps every column label to its cell. */
module Frames {

  datatype Option<T> = None | Some(value: T)

  /** A cell. `Missing` is the NaN pandas fills in where a concatenation
      meets a column that one side lacks (and an empty CSV field). Any other
      value, a float such as a magnitude or a coordinate among them, is
      `Other`, kept as its text form. */
  datatype Value =
    | Missing
    | Text(text: string)
    | Int(number: int)
    | Stamp(instant: int)
    | Other(repr: string)

  type Row = map<string, Value>

  datatype Frame = Frame(columns: seq<string>, rows: seq<Row>)

  /** Every row has a cell for exactly the frame's columns. */
  ghost predicate WellFormed(f: Frame) {
    forall i, c :: 0 <= i < |f.rows| ==> (c in f.rows[i] <==> c in f.columns)
  }

  /** The cell of `row` under `column`, or `Missing` when the row has none. */
  function Cell(row: Row, column: string): Value {
    if column in row then row[column] else Missing
  }

  /** `DataFrame.empty`: true as soon as either axis has length zero. */
  predicate IsEmpty(f: Frame) {
    |f.columns| == 0 || |f.rows| == 0
  }

  predicate Distinct<T(==)>(s: seq<T>) {
    forall i, j :: 0 <= i < j < |s| ==> s[i] != s[j]
  }
}
