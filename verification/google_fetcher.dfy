/**
 * The file-path `ReviewFetcher`: a table read once from a CSV file named at
 * construction, and three getters that answer from it without checking that
 * it holds anything.
 */
module GoogleFetcher {
  import opened Seqs
  import opened Records
  import opened Tables

  /** The text of the error for a file that does not exist. */
  function NotFoundMessage(path: string): string
  {
    "Reviews file '" + path + "' not found."
  }

  class ReviewFetcher {
    /** `file_path`. */
    const filePath: string
    /** `reviews_df`. */
    var reviews: Table

    /** A fetcher for `filePath` holding an empty frame, before `LoadReviewsFromFile` runs. */
    constructor(filePath: string)
      ensures this.filePath == filePath && reviews == EmptyTable
    {
      this.filePath := filePath;
      reviews := EmptyTable;
    }

    /**
     * `_load_reviews_from_file`, given whether the file exists and what
     * `read_csv` made of it. A missing file or an unreadable one leaves the
     * table as it was; a table whose dates cannot be converted has already
     * replaced it. Errors propagate unchanged. After a successful load every
     * date cell is a date or missing; a date is tz-aware when its text
     * carried an offset.
     */
    method LoadReviewsFromFile(fileExists: bool, parsed: Outcome<Table>, parse: DateParser) returns (r: Outcome<()>)
      modifies this
      ensures !fileExists ==> reviews == old(reviews) && r == Fail(FileNotFoundError(NotFoundMessage(filePath)))
      ensures fileExists && parsed.Fail? ==> reviews == old(reviews) && r == Fail(parsed.error)
      ensures fileExists && parsed.Ok? && "date" !in parsed.value.columns ==> reviews == parsed.value && r.Ok?
      ensures fileExists && parsed.Ok? && "date" in parsed.value.columns ==>
        var converted := ConvertDates(parsed.value, parse);
        (converted.Fail? ==> reviews == parsed.value && r == Fail(converted.error)) &&
        (converted.Ok? ==> reviews == converted.value && r.Ok?)
      ensures r.Ok? ==> "date" !in reviews.columns || DatesConverted(reviews.rows)
    {
      if !fileExists {
        return Fail(FileNotFoundError(NotFoundMessage(filePath)));
      }
      if parsed.Fail? {
        return Fail(parsed.error);
      }
      reviews := parsed.value;
      if "date" in reviews.columns {
        var converted := ConvertDates(reviews, parse);
        if converted.Fail? {
          return Fail(converted.error);
        }
        reviews := converted.value;
      }
      r := Ok(());
    }

    /** `get_reviews(limit)`: the first `limit` rows for a truthy limit, all of them otherwise; never an error. */
    function GetReviews(limit: Option<int>): (r: Table)
      reads this
      ensures r.columns == reviews.columns && r.rows <= reviews.rows
      ensures !Truthy(limit) ==> r == reviews
      ensures Truthy(limit) ==> |r.rows| == TakeCount(limit.value, |reviews.rows|)
    {
      Limited(reviews, limit)
    }

    /**
     * `get_recent_reviews(days)` at time `now`: the whole table without a
     * date column, else exactly the rows dated at or after `now - days`, in
     * order. It fails exactly when a date cell cannot be compared with the
     * naive cutoff: a date column never converted, or one holding a tz-aware
     * date.
     */
    function GetRecentReviews(days: int, now: Timestamp): (r: Outcome<Table>)
      reads this
      ensures "date" !in reviews.columns ==> r == Ok(reviews)
      ensures r.Ok? ==> r.value.columns == reviews.columns && IsSubsequence(r.value.rows, reviews.rows)
      ensures "date" in reviews.columns && DatesComparable(reviews.rows) ==>
        r.Ok? &&
        (forall i :: 0 <= i < |r.value.rows| ==> OnOrAfter(now - days * SecondsPerDay)(r.value.rows[i])) &&
        |r.value.rows| == CountWhere(reviews.rows, OnOrAfter(now - days * SecondsPerDay))
      ensures "date" in reviews.columns ==> (r.Fail? <==> !DatesComparable(reviews.rows))
      ensures r.Fail? ==> r.error == TypeError(InvalidComparison)
    {
      Recent(reviews, now - days * SecondsPerDay)
    }

    /**
     * `get_reviews_by_rating(rating)`: the whole table without a rating
     * column, else exactly the rows with that rating, in order.
     */
    function GetReviewsByRating(rating: int): (r: Table)
      reads this
      ensures "rating" !in reviews.columns ==> r == reviews
      ensures r.columns == reviews.columns && IsSubsequence(r.rows, reviews.rows)
      ensures "rating" in reviews.columns ==>
        (forall i :: 0 <= i < |r.rows| ==> Get(r.rows[i], "rating") == Num(rating)) &&
        |r.rows| == CountWhere(reviews.rows, HasRating(rating))
    {
      WithRating(reviews, rating)
    }
  }
}
