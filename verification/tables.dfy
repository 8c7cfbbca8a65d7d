/**
 * The table the review fetchers hold (a CSV file read into a data frame) and
 * the operations both fetchers apply to it: date conversion, the required
 * column check, `head`, the recent-by-date filter and the by-rating filter.
 */
module Tables {
  import opened Text
  import opened Seqs
  import opened Records

  /**
   * A cell after `read_csv`: missing (NaN/NaT), a number, a string, or a
   * converted date. A date is tz-aware when its text carried a UTC offset
   * or a "Z"; every other date is naive.
   */
  datatype Cell = Null | Num(n: int) | Str(s: string) | Time(t: Timestamp, aware: bool)

  /** What parsing one date text yields: the instant and whether it carries an offset. */
  datatype Moment = Moment(t: Timestamp, aware: bool)

  /** A row: column name to cell. */
  type Row = map<string, Cell>

  /** A data frame: its column labels and its rows, in file order. */
  datatype Table = Table(columns: seq<string>, rows: seq<Row>)

  /** `row[col]`, a missing cell when the row has no such column. */
  function Get(row: Row, col: string): Cell
  {
    if col in row then row[col] else Null
  }

  /** `df.empty`: no columns or no rows. */
  predicate IsEmpty(t: Table)
  {
    t.columns == [] || t.rows == []
  }

  /** An empty frame, `pd.DataFrame()`. */
  const EmptyTable: Table := Table([], [])

  // ----------------------------------------------------------------- loading

  /** How `pd.to_datetime` reads one cell that is neither missing nor a date already. */
  type DateParser = Cell -> Outcome<Moment>

  /** `pd.to_datetime` on one cell: missing stays missing (NaT), a date stays, anything else is parsed. */
  function ConvertCell(c: Cell, parse: DateParser): (r: Outcome<Cell>)
    ensures r.Ok? ==> r.value.Null? || r.value.Time?
    ensures c.Null? || c.Time? ==> r == Ok(c)
  {
    match c
    case Null => Ok(Null)
    case Time(_, _) => Ok(c)
    case _ =>
      match parse(c)
      case Ok(m) => Ok(Time(m.t, m.aware))
      case Fail(e) => Fail(e)
  }

  /** A date cell after conversion: a date, or missing (NaT). */
  predicate Converted(c: Cell)
  {
    c.Null? || c.Time?
  }

  /**
   * A date cell a comparison with a naive date (`datetime.now()` and what is
   * computed from it) accepts: a naive date, or missing (NaT). Comparing a
   * tz-aware date with a naive one raises.
   */
  predicate Comparable(c: Cell)
  {
    c.Null? || (c.Time? && !c.aware)
  }

  /**
   * `pd.to_datetime(df['date'])` over the rows: every date cell converted,
   * or the error of the first cell that cannot be.
   */
  function ConvertRows(rows: seq<Row>, parse: DateParser): (r: Outcome<seq<Row>>)
    ensures r.Ok? <==> forall i :: 0 <= i < |rows| ==> ConvertCell(Get(rows[i], "date"), parse).Ok?
    ensures r.Ok? ==> |r.value| == |rows|
    ensures r.Ok? ==> forall i :: 0 <= i < |rows| ==>
      r.value[i] == rows[i]["date" := ConvertCell(Get(rows[i], "date"), parse).value] &&
      Converted(Get(r.value[i], "date"))
    ensures r.Fail? ==> exists i :: 0 <= i < |rows| && ConvertCell(Get(rows[i], "date"), parse) == Fail(r.error)
  {
    if rows == [] then Ok([])
    else
      match ConvertCell(Get(rows[0], "date"), parse)
      case Fail(e) => Fail(e)
      case Ok(c) =>
        match ConvertRows(rows[1..], parse)
        case Fail(e) =>
          assert forall i :: 0 <= i < |rows| - 1 ==> rows[1..][i] == rows[i + 1];
          Fail(e)
        case Ok(rest) =>
          assert forall i :: 1 <= i < |rows| ==> rows[i] == rows[1..][i - 1];
          Ok([rows[0]["date" := c]] + rest)
  }

  /**
   * `df['date'] = pd.to_datetime(df['date'])`: the same columns, the date
   * column converted. A converted cell is naive or tz-aware as its text was.
   */
  function ConvertDates(t: Table, parse: DateParser): (r: Outcome<Table>)
    ensures r.Ok? ==> r.value.columns == t.columns && |r.value.rows| == |t.rows|
    ensures r.Ok? ==> DatesConverted(r.value.rows)
    ensures r.Ok? ==> forall i :: 0 <= i < |t.rows| ==>
      ConvertCell(Get(t.rows[i], "date"), parse).Ok? &&
      Get(r.value.rows[i], "date") == ConvertCell(Get(t.rows[i], "date"), parse).value
  {
    match ConvertRows(t.rows, parse)
    case Ok(rows) => Ok(Table(t.columns, rows))
    case Fail(e) => Fail(e)
  }

  /** The columns an uploaded file must have, in the order they are checked. */
  const RequiredColumns: seq<string> := ["date", "text", "rating"]

  /** The required columns a table lacks, in the order of `RequiredColumns`. */
  function MissingColumns(columns: seq<string>): (r: seq<string>)
    ensures IsSubsequence(r, RequiredColumns)
    ensures forall c :: c in r <==> c in RequiredColumns && c !in columns
  {
    KeepIsSubsequence(RequiredColumns, NotIn(columns));
    KeepMembers(RequiredColumns, NotIn(columns));
    Keep(RequiredColumns, NotIn(columns))
  }

  /** `col not in df.columns`. */
  function NotIn(columns: seq<string>): string -> bool
  {
    (c: string) => c !in columns
  }

  /** The text of the error naming the missing columns. */
  function MissingColumnsMessage(missing: seq<string>): string
  {
    "Missing required columns: " + Join(", ", missing)
  }

  // ----------------------------------------------------------------- queries

  /** `if limit:` on an optional integer: present and non-zero. */
  predicate Truthy(limit: Option<int>)
  {
    limit.Some? && limit.value != 0
  }

  /** `df.head(limit)` for a truthy limit, the whole frame otherwise. */
  function Limited(t: Table, limit: Option<int>): (r: Table)
    ensures r.columns == t.columns && r.rows <= t.rows
    ensures |r.rows| == if Truthy(limit) then TakeCount(limit.value, |t.rows|) else |t.rows|
    ensures Truthy(limit) && 0 < limit.value <= |t.rows| ==> |r.rows| == limit.value
  {
    if Truthy(limit) then Table(t.columns, t.rows[..TakeCount(limit.value, |t.rows|)]) else t
  }

  /** `df['date'] >= cutoff` for one row: a missing date compares false. */
  function OnOrAfter(cutoff: Timestamp): Row -> bool
  {
    (r: Row) => Get(r, "date").Time? && Get(r, "date").t >= cutoff
  }

  /** Every date cell of the rows is a date or missing. */
  predicate DatesConverted(rows: seq<Row>)
  {
    forall i :: 0 <= i < |rows| ==> Converted(Get(rows[i], "date"))
  }

  /** Every date cell of the rows can be compared with a naive date. */
  predicate DatesComparable(rows: seq<Row>)
  {
    forall i :: 0 <= i < |rows| ==> Comparable(Get(rows[i], "date"))
  }

  /**
   * The message of the exception raised by comparing a date column that is
   * unconverted or tz-aware with a naive date.
   */
  const InvalidComparison: string := "Invalid comparison between the date column and a naive date"

  /**
   * `df[df['date'] >= cutoff]` for a naive cutoff, the whole frame when
   * there is no date column. A date column that still holds strings or
   * numbers, or holds a tz-aware date, cannot be compared with it.
   */
  function Recent(t: Table, cutoff: Timestamp): (r: Outcome<Table>)
    ensures "date" !in t.columns ==> r == Ok(t)
    ensures "date" in t.columns ==> (r.Fail? <==> !DatesComparable(t.rows))
    ensures r.Fail? ==> r.error == TypeError(InvalidComparison)
    ensures r.Ok? ==> r.value.columns == t.columns && IsSubsequence(r.value.rows, t.rows)
    ensures r.Ok? && "date" in t.columns ==>
      (forall i :: 0 <= i < |r.value.rows| ==> OnOrAfter(cutoff)(r.value.rows[i])) &&
      |r.value.rows| == CountWhere(t.rows, OnOrAfter(cutoff))
  {
    if "date" !in t.columns then
      SubsequenceRefl(t.rows);
      Ok(t)
    else if !DatesComparable(t.rows) then Fail(TypeError(InvalidComparison))
    else
      KeepIsSubsequence(t.rows, OnOrAfter(cutoff));
      KeepMembers(t.rows, OnOrAfter(cutoff));
      KeepLength(t.rows, OnOrAfter(cutoff));
      Ok(Table(t.columns, Keep(t.rows, OnOrAfter(cutoff))))
  }

  /** `df['rating'] == rating` for one row: only a number equal to it matches. */
  function HasRating(rating: int): Row -> bool
  {
    (r: Row) => Get(r, "rating") == Num(rating)
  }

  /** `df[df['rating'] == rating]`, the whole frame when there is no rating column. */
  function WithRating(t: Table, rating: int): (r: Table)
    ensures "rating" !in t.columns ==> r == t
    ensures r.columns == t.columns && IsSubsequence(r.rows, t.rows)
    ensures "rating" in t.columns ==>
      (forall i :: 0 <= i < |r.rows| ==> Get(r.rows[i], "rating") == Num(rating)) &&
      |r.rows| == CountWhere(t.rows, HasRating(rating))
  {
    if "rating" !in t.columns then
      SubsequenceRefl(t.rows);
      t
    else
      KeepIsSubsequence(t.rows, HasRating(rating));
      KeepMembers(t.rows, HasRating(rating));
      KeepLength(t.rows, HasRating(rating));
      Table(t.columns, Keep(t.rows, HasRating(rating)))
  }

  /** The filters' promises pin their rows down: any subsequence with them is the filter's result. */
  lemma RecentIsExactlyTheWindow(t: Table, cutoff: Timestamp, rows: seq<Row>)
    requires "date" in t.columns && Recent(t, cutoff).Ok?
    requires IsSubsequence(rows, t.rows)
    requires forall i :: 0 <= i < |rows| ==> OnOrAfter(cutoff)(rows[i])
    requires |rows| == CountWhere(t.rows, OnOrAfter(cutoff))
    ensures Recent(t, cutoff).value.rows == rows
  {
    KeepUnique(rows, t.rows, OnOrAfter(cutoff));
  }

  /**
   * A date column converted by `ConvertDates` can be filtered by a naive
   * date exactly when no date text carried an offset: one tz-aware date
   * makes the comparison raise.
   */
  lemma ConvertedTableFiltersByDate(t: Table, parse: DateParser, cutoff: Timestamp)
    requires ConvertDates(t, parse).Ok?
    ensures var converted := ConvertDates(t, parse).value;
      Recent(converted, cutoff).Ok? <==>
        "date" !in t.columns ||
        forall i :: 0 <= i < |t.rows| ==> !ParsedAware(Get(t.rows[i], "date"), parse)
  {
    var converted := ConvertDates(t, parse).value;
    if "date" in t.columns {
      forall i | 0 <= i < |t.rows|
        ensures Comparable(Get(converted.rows[i], "date")) <==> !ParsedAware(Get(t.rows[i], "date"), parse)
      {
      }
    }
  }

  /** A date cell that is, or converts to, a tz-aware date. */
  predicate ParsedAware(c: Cell, parse: DateParser)
  {
    var r := ConvertCell(c, parse);
    r.Ok? && r.value.Time? && r.value.aware
  }
}
