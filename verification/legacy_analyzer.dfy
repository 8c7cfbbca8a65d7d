/**
 * The legacy `ReviewAnalyzer`: the same add pipeline, neighbour lookup and
 * complaint detector as the backend analyzer, but the stored score is the
 * classifier's confidence as it is, whatever the label.
 */
module LegacyAnalyzer {
  import opened Seqs
  import opened Records
  import opened VectorIndex
  import opened Sentiment
  import opened Complaint
  import opened Views
  import opened Analyzer

  /** The row the legacy `add_review` appends: the raw prediction and the complaint flag. */
  function LegacyRow(classify: string -> Prediction, tokenize: Tokenizer, text: string, rating: int,
                     date: Option<Timestamp>, similar: seq<string>): (r: Review)
    ensures r.text == text && r.rating == rating && r.date == date
    ensures Prediction(r.sentiment, r.sentimentScore) == AnalyzeSentimentLegacy(classify, text, similar)
    ensures r.complaint == DetectComplaint(tokenize, text, similar)
    ensures ClassifierSound(classify) ==> 0.0 <= r.sentimentScore <= 1.0
  {
    var s := AnalyzeSentimentLegacy(classify, text, similar);
    Review(text, rating, date, s.polarity, s.score, DetectComplaint(tokenize, text, similar))
  }

  /**
   * On the same inputs the two analyzers store the same row except for the
   * score, which the backend signs by the label and the legacy one does not.
   */
  lemma LegacyRowUnsigned(classify: string -> Prediction, tokenize: Tokenizer, text: string, rating: int,
                          date: Option<Timestamp>, similar: seq<string>)
    ensures var legacy := LegacyRow(classify, tokenize, text, rating, date, similar);
      AnalyzedRow(classify, tokenize, text, rating, date, similar) ==
        legacy.(sentimentScore := if legacy.sentiment == Positive then legacy.sentimentScore else -legacy.sentimentScore)
  {
    BackendSignsLegacy(classify, text, similar);
  }

  /** Every row's score is a confidence in [0, 1]. */
  predicate AllConfidences(rows: seq<Review>)
  {
    forall i :: 0 <= i < |rows| ==> 0.0 <= rows[i].sentimentScore <= 1.0
  }

  /** Appending a row whose score is a confidence keeps every score a confidence. */
  lemma AllConfidencesSnoc(rows: seq<Review>, row: Review)
    requires AllConfidences(rows) && 0.0 <= row.sentimentScore <= 1.0
    ensures AllConfidences(rows + [row])
  {
    assert forall i :: 0 <= i < |rows| ==> (rows + [row])[i] == rows[i];
  }

  class LegacyReviewAnalyzer {
    /** `reviews_df`, one row per `add_review` call. */
    var reviews: seq<Review>
    /** The vector collection's entries, in insertion order. */
    var collection: seq<IndexEntry>
    /** For each entry, the number of the row it was inserted for (the `n` of `review_<n>`). */
    ghost var positions: seq<nat>

    const encode: string -> Vector
    const classify: string -> Prediction
    const tokenize: Tokenizer
    const query: QueryOracle

    /** The oracles keep their stated contracts. */
    ghost predicate Sound()
    {
      ClassifierSound(classify) && QuerySound(query)
    }

    /** Every entry describes the row it was inserted for, and every stored score is a confidence in [0, 1]. */
    ghost predicate Valid()
      reads this
    {
      Sound() && Indexed(reviews, collection, positions, encode) && AllConfidences(reviews)
    }

    /** An analyzer with an empty table and an empty collection. */
    constructor(encode: string -> Vector, classify: string -> Prediction, tokenize: Tokenizer, query: QueryOracle)
      requires ClassifierSound(classify) && QuerySound(query)
      ensures reviews == [] && collection == []
      ensures this.encode == encode && this.classify == classify
      ensures this.tokenize == tokenize && this.query == query
      ensures Valid()
    {
      this.encode := encode;
      this.classify := classify;
      this.tokenize := tokenize;
      this.query := query;
      reviews := [];
      collection := [];
      positions := [];
    }

    /**
     * `get_similar_reviews(text, n_results)`, which `_get_similar_reviews`
     * serves: at most `nResults` stored documents, or none.
     */
    function GetSimilarReviews(text: string, nResults: nat): (r: seq<string>)
      requires Sound()
      reads this
      ensures |r| <= nResults
      ensures forall j :: 0 <= j < |r| ==> r[j] in Documents(collection)
      ensures collection == [] ==> r == []
    {
      SimilarOnEmpty(query, encode(text), nResults);
      Similar(query, collection, encode(text), nResults)
    }

    /**
     * `add_review`: neighbours first, then the row with the raw prediction,
     * then the entry `review_<new length>`. `addSucceeds` says whether
     * date rendering and the collection's `add` returned normally;
     * otherwise the exception propagates and the row stays without its entry.
     * Either way the new id was never stored and the invariant holds. A
     * missing date always makes the insert raise.
     */
    method AddReview(text: string, rating: int, date: Option<Timestamp>, addSucceeds: bool)
      requires Valid()
      modifies this
      ensures var row := LegacyRow(classify, tokenize, text, rating, date,
                                   Similar(query, old(collection), encode(text), 3));
        reviews == old(reviews) + [row] &&
        collection == Inserted(old(collection), EntryFor(encode, row, |reviews|), addSucceeds && date.Some?)
      ensures positions == Inserted(old(positions), |reviews|, addSucceeds && date.Some?)
      ensures ReviewId(|reviews|) !in Ids(old(collection))
      ensures Valid()
    {
      var similar := GetSimilarReviews(text, 3);
      var row := LegacyRow(classify, tokenize, text, rating, date, similar);
      NextIdIsFresh(reviews, collection, positions, encode);
      IndexedSnoc(reviews, collection, positions, encode, row);
      AllConfidencesSnoc(reviews, row);
      var rows := reviews + [row];
      if addSucceeds && date.Some? {
        reviews, collection, positions := rows, collection + [EntryFor(encode, row, |rows|)], positions + [|rows|];
      } else {
        reviews := rows;
      }
    }

    /** `get_complaints`: exactly the complaint rows, in store order. */
    function GetComplaints(): (r: seq<Review>)
      reads this
      ensures IsSubsequence(r, reviews)
      ensures forall i :: 0 <= i < |r| ==> r[i].complaint
      ensures |r| == CountWhere(reviews, IsComplaint)
    {
      Complaints(reviews)
    }
  }
}
