/**
 * The values the analyzer stores: a review row of `reviews_df`, the
 * classifier's prediction, and the entry it adds to the vector collection
 * (id, embedding, document and a metadata snapshot of the row).
 */
module Records {
  import opened Text

  datatype Option<T> = None | Some(value: T)

  /** The exceptions the analyzers and the fetchers raise or let through. */
  datatype Error = ValueError(msg: string) | FileNotFoundError(msg: string) | TypeError(msg: string) | KeyError(msg: string)

  /** A value, or the exception raised instead. */
  datatype Outcome<T> = Ok(value: T) | Fail(error: Error)

  /** A point in time, in seconds; `datetime` values are modelled this way. */
  type Timestamp = int

  const SecondsPerDay: int := 86400

  /** The calendar date of a timestamp (`.dt.date`), as a day number. */
  function Day(t: Timestamp): int
  {
    t / SecondsPerDay
  }

  /** The labels a sentiment pipeline emits. */
  datatype Label = Positive | Negative | Neutral

  /** One pipeline result: `{'label': ..., 'score': ...}`. */
  datatype Prediction = Prediction(polarity: Label, score: real)

  /** The classifier's stated contract: every confidence lies in [0, 1]. */
  ghost predicate ClassifierSound(classify: string -> Prediction)
  {
    forall t :: 0.0 <= classify(t).score <= 1.0
  }

  /**
   * A row of `reviews_df`. A missing date (`NaT`, as a converted table gives
   * for an empty date cell) is `None`.
   */
  datatype Review = Review(
    text: string,
    rating: int,
    date: Option<Timestamp>,
    sentiment: Label,
    sentimentScore: real,
    complaint: bool)

  /** The metadata stored with an index entry. */
  datatype Metadata = Metadata(rating: int, date: Option<Timestamp>, sentiment: Label, complaint: bool)

  /** An embedding vector. */
  type Vector = seq<real>

  /** One entry of the vector collection. */
  datatype IndexEntry = IndexEntry(id: string, embedding: Vector, document: string, metadata: Metadata)

  /** The metadata snapshot of a row at insertion time. */
  function Snapshot(r: Review): Metadata
  {
    Metadata(r.rating, r.date, r.sentiment, r.complaint)
  }

  /** The id `review_<n>` given to the n-th stored review. */
  function ReviewId(n: nat): string
  {
    "review_" + NatToString(n)
  }

  /** Distinct positions get distinct ids. */
  lemma ReviewIdInjective(a: nat, b: nat)
    requires ReviewId(a) == ReviewId(b)
    ensures a == b
  {
    assert NatToString(a) == ReviewId(a)[7..];
    assert NatToString(b) == ReviewId(b)[7..];
    NatToStringInjective(a, b);
  }

  /** The texts of a sequence of rows, in order (`reviews_df['text'].tolist()`). */
  function Texts(rows: seq<Review>): seq<string>
  {
    seq(|rows|, i requires 0 <= i < |rows| => rows[i].text)
  }
}
