/** Loosely typed input rows (one CSV or JSON record: column name to text)
    and the ways the pipeline reads a column from one. */
module Rows {
  import opened Wrappers
  import opened Text

  type Row = map<string, string>

  /** Why a stage stops: the exception it does not catch. */
  datatype StageError =
    | MissingColumn(column: string)              // KeyError
    | NotANumber(column: string, text: string)   // ValueError from float()
    | DivisionByZero(column: string)             // ZeroDivisionError

  /** `row[column]`, which raises when the column is absent: every
      unguarded lookup of an id or count column. */
  function Field(row: Row, column: string): (r: Result<string, StageError>)
    ensures r.Success? <==> column in row
    ensures r.Success? ==> r.value == row[column]
    ensures r.Failure? ==> r.error == MissingColumn(column)
  {
    if column in row then Success(row[column]) else Failure(MissingColumn(column))
  }

  /** `float(row[column])`, raising on an absent column or a non-number. */
  function ReadReal(row: Row, column: string): (r: Result<real, StageError>)
    ensures r.Success? <==> column in row && ParseFloat(row[column]).Some?
    ensures r.Success? ==> r.value == ParseFloat(row[column]).value
  {
    var text :- Field(row, column);
    match ParseFloat(text)
    case Some(x) => Success(x)
    case None => Failure(NotANumber(column, text))
  }

  /** `int(float(row[column]))`: the number truncated toward zero. */
  function ReadInt(row: Row, column: string): (r: Result<int, StageError>)
    ensures r.Success? <==> column in row && ParseFloat(row[column]).Some?
    ensures r.Success? ==> r.value == Trunc(ParseFloat(row[column]).value)
  {
    var x :- ReadReal(row, column);
    Success(Trunc(x))
  }

  /** `float_value(row, key, default)`: the column read as a number, the
      default when the column is absent or is not a number.  It never
      raises; the rate stages read every count this way. */
  function FloatValue(row: Row, key: string, default: real): (r: real)
    ensures key in row && ParseFloat(row[key]).Some? ==> r == ParseFloat(row[key]).value
    ensures key !in row || ParseFloat(row[key]).None? ==> r == default
  {
    if key in row then ParseFloat(row[key]).GetOr(default) else default
  }

  /** A column holding the decimal rendering of an integer reads back as
      that integer; an absent column reads as the default. */
  lemma FloatValueReadsRendered(row: Row, key: string, n: int, default: real)
    ensures FloatValue(row[key := IntToString(n)], key, default) == n as real
    ensures FloatValue(row - {key}, key, default) == default
  {
    ParseFloatOfIntToString(n);
  }

  /** Reads every row in order; the first row that cannot be read stops
      the stage. */
  function ReadAll<T>(rows: seq<Row>, read: Row -> Result<T, StageError>): (r: Result<seq<T>, StageError>)
    ensures r.Success? <==> forall i :: 0 <= i < |rows| ==> read(rows[i]).Success?
    ensures r.Success? ==> |r.value| == |rows|
    ensures r.Success? ==> forall i :: 0 <= i < |rows| ==> r.value[i] == read(rows[i]).value
  {
    if |rows| == 0 then Success([])
    else
      var n := |rows| - 1;
      assert forall i :: 0 <= i < n ==> rows[..n][i] == rows[i];
      match ReadAll(rows[..n], read)
      case Failure(e) => Failure(e)
      case Success(front) =>
        match read(rows[n])
        case Failure(e) => Failure(e)
        case Success(last) => Success(front + [last])
  }

  /** The `playerID` column, when the row has one. */
  function PlayerId(row: Row): Option<string> {
    if "playerID" in row then Some(row["playerID"]) else None
  }

  /** The ids of a list of rows, position by position. */
  function Ids(rows: seq<Row>): (ids: seq<Option<string>>)
    ensures |ids| == |rows|
    ensures forall i :: 0 <= i < |rows| ==> ids[i] == PlayerId(rows[i])
  {
    seq(|rows|, i requires 0 <= i < |rows| => PlayerId(rows[i]))
  }

  /** Position `i` is the last one holding id `k`. */
  predicate IsLastWith(ids: seq<Option<string>>, i: int, k: string) {
    && 0 <= i < |ids|
    && ids[i] == Some(k)
    && forall j :: i < j < |ids| ==> ids[j] != Some(k)
  }

  /** The last position holding id `k`, or -1 when none does. */
  function LastIndex(ids: seq<Option<string>>, k: string): (n: int)
    ensures -1 <= n < |ids|
    ensures n >= 0 ==> IsLastWith(ids, n, k)
    ensures n < 0 ==> forall i :: 0 <= i < |ids| ==> ids[i] != Some(k)
  {
    if |ids| == 0 then -1
    else if ids[|ids| - 1] == Some(k) then |ids| - 1
    else LastIndex(ids[..|ids| - 1], k)
  }

  /** Some position holds id `k`. */
  predicate HasId(ids: seq<Option<string>>, k: string) {
    exists i :: 0 <= i < |ids| && ids[i] == Some(k)
  }

  /** Dividing by a nonzero whole and multiplying back restores the part. */
  lemma ShareTimesWhole(part: real, whole: real)
    requires whole != 0.0
    ensures (part / whole) * whole == part
  {
  }

  /** A value that multiplied by a nonzero whole gives the part is the
      quotient of the part by the whole. */
  lemma ShareIsQuotient(share: real, whole: real, part: real)
    requires whole != 0.0 && share * whole == part
    ensures share == part / whole
  {
  }
}
