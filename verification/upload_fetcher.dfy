/**
 * The upload `ReviewFetcher`: a table replaced by each uploaded CSV file,
 * checked for the required columns, and three getters that refuse to answer
 * while the table is empty.
 */
module UploadFetcher {
  import opened Seqs
  import opened Records
  import opened Tables

  /** The text of every getter's error on an empty table. */
  const NoReviewsMessage: string := "No reviews loaded. Please upload a file first."

  /** How every exception raised while loading is reported. */
  function ProcessingError(e: Error): Error
  {
    ValueError("Error processing file: " + e.msg)
  }

  class ReviewFetcher {
    /** `reviews_df`. */
    var reviews: Table

    /** A fetcher holding an empty frame. */
    constructor()
      ensures reviews == EmptyTable
    {
      reviews := EmptyTable;
    }

    /**
     * `load_reviews_from_file` given what `read_csv` made of the bytes. The
     * table is replaced before its dates are converted and its columns are
     * checked, so a file that fails either step still replaces the table;
     * every failure is reported as one `ValueError`. Success means the new
     * table has every required column.
     */
    method LoadReviewsFromFile(parsed: Outcome<Table>, parse: DateParser) returns (r: Outcome<()>)
      modifies this
      ensures parsed.Fail? ==> reviews == old(reviews) && r == Fail(ProcessingError(parsed.error))
      ensures parsed.Ok? && "date" in parsed.value.columns && ConvertDates(parsed.value, parse).Fail? ==>
        reviews == parsed.value && r == Fail(ProcessingError(ConvertDates(parsed.value, parse).error))
      ensures parsed.Ok? && "date" in parsed.value.columns && ConvertDates(parsed.value, parse).Ok? ==>
        reviews == ConvertDates(parsed.value, parse).value
      ensures parsed.Ok? && "date" !in parsed.value.columns ==> reviews == parsed.value
      ensures parsed.Ok? && ("date" !in parsed.value.columns || ConvertDates(parsed.value, parse).Ok?) ==>
        var missing := MissingColumns(parsed.value.columns);
        (r.Ok? <==> missing == []) &&
        (r.Fail? ==> r.error == ProcessingError(ValueError(MissingColumnsMessage(missing))))
      ensures r.Ok? ==> forall c :: c in RequiredColumns ==> c in reviews.columns
    {
      if parsed.Fail? {
        return Fail(ProcessingError(parsed.error));
      }
      reviews := parsed.value;
      if "date" in reviews.columns {
        var converted := ConvertDates(reviews, parse);
        if converted.Fail? {
          return Fail(ProcessingError(converted.error));
        }
        reviews := converted.value;
      }
      var missing := MissingColumns(reviews.columns);
      if missing != [] {
        return Fail(ProcessingError(ValueError(MissingColumnsMessage(missing))));
      }
      r := Ok(());
      forall c | c in RequiredColumns ensures c in reviews.columns {
        assert c !in missing;
      }
    }

    /** `get_reviews(limit)`: an error on an empty table, else the first `limit` rows or all of them. */
    function GetReviews(limit: Option<int>): (r: Outcome<Table>)
      reads this
      ensures r.Fail? <==> IsEmpty(reviews)
      ensures r.Fail? ==> r.error == ValueError(NoReviewsMessage)
      ensures r.Ok? ==> r.value.columns == reviews.columns && r.value.rows <= reviews.rows
      ensures r.Ok? && !Truthy(limit) ==> r.value == reviews
      ensures r.Ok? && Truthy(limit) ==> |r.value.rows| == TakeCount(limit.value, |reviews.rows|)
    {
      if IsEmpty(reviews) then Fail(ValueError(NoReviewsMessage)) else Ok(Limited(reviews, limit))
    }

    /**
     * `get_recent_reviews(days)` at time `now`: an error on an empty table,
     * the whole table without a date column, else exactly the rows dated at
     * or after `now - days`, in order, or a `TypeError` when a date cell is
     * unconverted or tz-aware.
     */
    function GetRecentReviews(days: int, now: Timestamp): (r: Outcome<Table>)
      reads this
      ensures IsEmpty(reviews) ==> r == Fail(ValueError(NoReviewsMessage))
      ensures !IsEmpty(reviews) && "date" !in reviews.columns ==> r == Ok(reviews)
      ensures !IsEmpty(reviews) && "date" in reviews.columns && DatesComparable(reviews.rows) ==>
        r.Ok? && r.value.columns == reviews.columns && IsSubsequence(r.value.rows, reviews.rows) &&
        (forall i :: 0 <= i < |r.value.rows| ==> OnOrAfter(now - days * SecondsPerDay)(r.value.rows[i])) &&
        |r.value.rows| == CountWhere(reviews.rows, OnOrAfter(now - days * SecondsPerDay))
      ensures !IsEmpty(reviews) && "date" in reviews.columns && !DatesComparable(reviews.rows) ==>
        r == Fail(TypeError(InvalidComparison))
    {
      if IsEmpty(reviews) then Fail(ValueError(NoReviewsMessage)) else Recent(reviews, now - days * SecondsPerDay)
    }

    /**
     * `get_reviews_by_rating(rating)`: an error on an empty table, the whole
     * table without a rating column, else exactly the rows with that rating,
     * in order.
     */
    function GetReviewsByRating(rating: int): (r: Outcome<Table>)
      reads this
      ensures r.Fail? <==> IsEmpty(reviews)
      ensures r.Fail? ==> r.error == ValueError(NoReviewsMessage)
      ensures r.Ok? && "rating" !in reviews.columns ==> r.value == reviews
      ensures r.Ok? ==> r.value.columns == reviews.columns && IsSubsequence(r.value.rows, reviews.rows)
      ensures r.Ok? && "rating" in reviews.columns ==>
        (forall i :: 0 <= i < |r.value.rows| ==> Get(r.value.rows[i], "rating") == Num(rating)) &&
        |r.value.rows| == CountWhere(reviews.rows, HasRating(rating))
    {
      if IsEmpty(reviews) then Fail(ValueError(NoReviewsMessage)) else Ok(WithRating(reviews, rating))
    }
  }
}
