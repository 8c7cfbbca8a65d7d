/**
 * The backend `ReviewAnalyzer`: a review table and a vector collection that
 * `AddReview` extends, and the read-side operations over the table. The
 * classifier, the encoder, the tokenizer, the noun chunker and the
 * collection's ranking are fixed oracles supplied at construction.
 */
module Analyzer {
  import opened Text
  import opened Seqs
  import opened Records
  import opened VectorIndex
  import opened Sentiment
  import opened Complaint
  import opened Views
  import opened Themes

  /**
   * Row `i` of the table is entry `i` of the collection, stored under id
   * `review_<i+1>`; every row then has a date, since rendering a missing one
   * raises before the insert.
   */
  predicate InLockstep(reviews: seq<Review>, collection: seq<IndexEntry>, encode: string -> Vector)
  {
    |reviews| == |collection| &&
    forall i :: 0 <= i < |reviews| ==>
      reviews[i].date.Some? && collection[i] == IndexEntry(ReviewId(i + 1), encode(reviews[i].text), reviews[i].text, Snapshot(reviews[i]))
  }

  /** The signed score lies in [-1, 1] and has the sign of its label. */
  predicate SignMatchesLabel(r: Review)
  {
    -1.0 <= r.sentimentScore <= 1.0 &&
    (r.sentiment == Positive ==> r.sentimentScore >= 0.0) &&
    (r.sentiment != Positive ==> r.sentimentScore <= 0.0)
  }

  /** Every row's score is signed by its label. */
  predicate AllSigned(rows: seq<Review>)
  {
    forall i :: 0 <= i < |rows| ==> SignMatchesLabel(rows[i])
  }

  /** Appending a row whose score is signed by its label keeps every score signed. */
  lemma AllSignedSnoc(rows: seq<Review>, row: Review)
    requires AllSigned(rows) && SignMatchesLabel(row)
    ensures AllSigned(rows + [row])
  {
    assert forall i :: 0 <= i < |rows| ==> (rows + [row])[i] == rows[i];
  }

  /**
   * The row `add_review` appends for `text`, given the neighbours found
   * before anything was stored: signed sentiment and complaint flag, both
   * computed on the same context.
   */
  function AnalyzedRow(classify: string -> Prediction, tokenize: Tokenizer, text: string, rating: int,
                       date: Option<Timestamp>, similar: seq<string>): (r: Review)
    ensures r.text == text && r.rating == rating && r.date == date
    ensures Prediction(r.sentiment, r.sentimentScore) == AnalyzeSentiment(classify, text, similar)
    ensures r.complaint == DetectComplaint(tokenize, text, similar)
    ensures ClassifierSound(classify) ==> SignMatchesLabel(r)
  {
    var s := AnalyzeSentiment(classify, text, similar);
    Review(text, rating, date, s.polarity, s.score, DetectComplaint(tokenize, text, similar))
  }

  /** The entry `add_review` inserts for the row that brings the table to `n` rows. */
  function EntryFor(encode: string -> Vector, row: Review, n: nat): IndexEntry
  {
    IndexEntry(ReviewId(n), encode(row.text), row.text, Snapshot(row))
  }

  /** `1, 2, …, n`: the row numbers of a table of `n` rows, counted from 1. */
  function RowNumbers(n: nat): seq<nat>
  {
    seq(n, j requires 0 <= j < n => j + 1)
  }

  /**
   * Entry `j` of the collection was inserted for row number `positions[j]`
   * (counting from 1): it is stored under that number's id and describes
   * that row, which has a date. The row numbers strictly increase. A row
   * without an entry is one whose insert raised after the row had been
   * appended, as it does for every row with a missing date.
   */
  predicate Indexed(reviews: seq<Review>, collection: seq<IndexEntry>, positions: seq<nat>, encode: string -> Vector)
  {
    |positions| == |collection| &&
    (forall j :: 0 <= j < |collection| ==>
       1 <= positions[j] <= |reviews| && reviews[positions[j] - 1].date.Some? &&
       collection[j] == EntryFor(encode, reviews[positions[j] - 1], positions[j])) &&
    (forall j, j' :: 0 <= j < j' < |positions| ==> positions[j] < positions[j'])
  }

  /** Stores in lockstep are the indexed stores in which every row has its entry. */
  lemma LockstepIsIndexed(reviews: seq<Review>, collection: seq<IndexEntry>, encode: string -> Vector)
    ensures InLockstep(reviews, collection, encode) <==>
      |collection| == |reviews| && Indexed(reviews, collection, RowNumbers(|reviews|), encode)
  {
    var numbers := RowNumbers(|reviews|);
    assert forall j :: 0 <= j < |numbers| ==> numbers[j] == j + 1;
    if |collection| == |reviews| && Indexed(reviews, collection, numbers, encode) {
      forall i | 0 <= i < |reviews|
        ensures reviews[i].date.Some? &&
          collection[i] == IndexEntry(ReviewId(i + 1), encode(reviews[i].text), reviews[i].text, Snapshot(reviews[i]))
      {
        assert numbers[i] == i + 1;
      }
    }
  }

  /** Entry `e` is stored under the id of row number `n` and carries that row's embedding, text and fields. */
  predicate Describes(e: IndexEntry, encode: string -> Vector, reviews: seq<Review>, n: int)
  {
    1 <= n <= |reviews| && reviews[n - 1].date.Some? &&
    e.id == ReviewId(n) && e.embedding == encode(reviews[n - 1].text) &&
    e.document == reviews[n - 1].text &&
    e.metadata == Metadata(reviews[n - 1].rating, reviews[n - 1].date, reviews[n - 1].sentiment, reviews[n - 1].complaint)
  }

  /**
   * Every stored entry carries the id, embedding, document and metadata of
   * the row it was inserted for.
   */
  lemma {:induction false} EntriesDescribeRows(reviews: seq<Review>, collection: seq<IndexEntry>, positions: seq<nat>,
                                               encode: string -> Vector)
    requires Indexed(reviews, collection, positions, encode)
    ensures forall j :: 0 <= j < |collection| ==> Describes(collection[j], encode, reviews, positions[j])
  {
    forall j | 0 <= j < |collection|
      ensures Describes(collection[j], encode, reviews, positions[j])
    {
      var n := positions[j];
      assert collection[j] == EntryFor(encode, reviews[n - 1], n);
    }
  }

  /** Indexed stores never hold two entries under one id, whether or not every insert succeeded. */
  lemma {:induction false} IdsDistinct(reviews: seq<Review>, collection: seq<IndexEntry>, positions: seq<nat>,
                                       encode: string -> Vector)
    requires Indexed(reviews, collection, positions, encode)
    ensures forall j, j' :: 0 <= j < j' < |collection| ==> collection[j].id != collection[j'].id
  {
    forall j, j' | 0 <= j < j' < |collection|
      ensures collection[j].id != collection[j'].id
    {
      if collection[j].id == collection[j'].id {
        ReviewIdInjective(positions[j], positions[j']);
      }
    }
  }

  /** The id of the next row is not yet stored: every stored id numbers an existing row. */
  lemma {:induction false} NextIdIsFresh(reviews: seq<Review>, collection: seq<IndexEntry>, positions: seq<nat>,
                                         encode: string -> Vector)
    requires Indexed(reviews, collection, positions, encode)
    ensures ReviewId(|reviews| + 1) !in Ids(collection)
  {
    if ReviewId(|reviews| + 1) in Ids(collection) {
      var j :| 0 <= j < |collection| && Ids(collection)[j] == ReviewId(|reviews| + 1);
      ReviewIdInjective(positions[j], |reviews| + 1);
    }
  }

  /**
   * Appending a row keeps the stores indexed without its entry, and, when
   * the row has a date, with its entry `review_<new length>`.
   */
  lemma IndexedSnoc(reviews: seq<Review>, collection: seq<IndexEntry>, positions: seq<nat>,
                    encode: string -> Vector, row: Review)
    requires Indexed(reviews, collection, positions, encode)
    ensures Indexed(reviews + [row], collection, positions, encode)
    ensures row.date.Some? ==>
      Indexed(reviews + [row], collection + [EntryFor(encode, row, |reviews| + 1)], positions + [|reviews| + 1], encode)
  {
  }

  /** Appending a row and its entry keeps the stores in lockstep. */
  lemma LockstepSnoc(reviews: seq<Review>, collection: seq<IndexEntry>, encode: string -> Vector, row: Review)
    requires InLockstep(reviews, collection, encode) && row.date.Some?
    ensures InLockstep(reviews + [row], collection + [EntryFor(encode, row, |reviews| + 1)], encode)
  {
  }

  /** A store after an insert of `x`: extended when the insert returned normally, unchanged when it raised. */
  function Inserted<T>(s: seq<T>, x: T, ok: bool): seq<T>
  {
    if ok then s + [x] else s
  }

  /**
   * One `add_review` on indexed stores: the row is appended and, when the
   * insert returns normally, which it cannot for a row with a missing date,
   * its entry `review_<new length>` with it. The
   * new id was not stored, the stores stay indexed, and stores in lockstep
   * stay in lockstep when the insert succeeds.
   */
  lemma AddStep(reviews: seq<Review>, collection: seq<IndexEntry>, positions: seq<nat>, encode: string -> Vector,
                row: Review, ok: bool)
    requires Indexed(reviews, collection, positions, encode)
    requires ok ==> row.date.Some?
    ensures ReviewId(|reviews| + 1) !in Ids(collection)
    ensures Indexed(reviews + [row], Inserted(collection, EntryFor(encode, row, |reviews| + 1), ok),
                    Inserted(positions, |reviews| + 1, ok), encode)
    ensures InLockstep(reviews, collection, encode) && ok ==>
      InLockstep(reviews + [row], Inserted(collection, EntryFor(encode, row, |reviews| + 1), ok), encode)
  {
    NextIdIsFresh(reviews, collection, positions, encode);
    IndexedSnoc(reviews, collection, positions, encode, row);
    if InLockstep(reviews, collection, encode) && ok {
      LockstepSnoc(reviews, collection, encode, row);
    }
  }

  /**
   * The neighbours of a new review are texts of rows already stored: they
   * are read before the new row and its entry exist, so a review is never
   * part of its own context.
   */
  lemma {:induction false} NeighboursAreStoredTexts(query: QueryOracle, reviews: seq<Review>,
                                                    collection: seq<IndexEntry>, positions: seq<nat>,
                                                    encode: string -> Vector, v: Vector, k: nat)
    requires QuerySound(query) && Indexed(reviews, collection, positions, encode)
    ensures forall j :: 0 <= j < |Similar(query, collection, v, k)| ==> Similar(query, collection, v, k)[j] in Texts(reviews)
  {
    forall d | d in Documents(collection) ensures d in Texts(reviews) {
      var j :| 0 <= j < |collection| && Documents(collection)[j] == d;
      assert d == Texts(reviews)[positions[j] - 1];
    }
  }

  /** Rows whose signs match their labels have scores in [-1, 1], the premise of the bounded averages. */
  lemma SignedRowsInRange(reviews: seq<Review>)
    requires AllSigned(reviews)
    ensures ScoresInRange(reviews)
  {
  }

  /** `c` maps each of the five categories to its bucket of `texts`. */
  predicate BucketsOf(c: map<Category, seq<string>>, texts: seq<string>)
  {
    c.Keys == AllCategories && forall k :: k in c ==> c[k] == Bucket(texts, k)
  }

  /** Appending a text to its own bucket keeps the buckets those of the longer list. */
  lemma BucketsSnoc(c: map<Category, seq<string>>, texts: seq<string>, text: string)
    requires BucketsOf(c, texts)
    ensures BucketsOf(c[CategoryOf(text) := c[CategoryOf(text)] + [text]], texts + [text])
  {
    var cat := CategoryOf(text);
    forall k | k in AllCategories
      ensures Bucket(texts + [text], k) == Bucket(texts, k) + (if cat == k then [text] else [])
    {
      KeepAppend(texts, [text], InBucket(CategoryOf, k));
      assert Keep([text], InBucket(CategoryOf, k)) == (if cat == k then [text] else []);
    }
  }

  /**
   * The complaints section of the weekly report, built line by line: nothing
   * without complaints, else the heading and one preview line per complaint,
   * in order.
   */
  method SummarizeComplaints(complaints: seq<Review>) returns (section: string)
    ensures section == ComplaintsSection(complaints)
  {
    section := "";
    if complaints != [] {
      section := "Complaints Summary:\n";
      var i := 0;
      while i < |complaints|
        invariant 0 <= i <= |complaints|
        invariant section == "Complaints Summary:\n" + SummaryLines(complaints[..i])
      {
        assert complaints[..i + 1][..i] == complaints[..i];
        section := section + SummaryLine(complaints[i].text);
        i := i + 1;
      }
      assert complaints[..i] == complaints;
    }
  }

  class ReviewAnalyzer {
    /** `reviews_df`, one row per `add_review` call. */
    var reviews: seq<Review>
    /** The vector collection's entries, in insertion order. */
    var collection: seq<IndexEntry>
    /** For each entry, the number of the row it was inserted for (the `n` of `review_<n>`). */
    ghost var positions: seq<nat>

    const encode: string -> Vector
    const classify: string -> Prediction
    const tokenize: Tokenizer
    const nounChunks: string -> seq<string>
    const query: QueryOracle

    /** The oracles keep their stated contracts. */
    ghost predicate Sound()
    {
      ClassifierSound(classify) && QuerySound(query)
    }

    /**
     * The analyzer's invariant: every entry describes the row it was inserted
     * for, and every score is signed by its label.
     */
    ghost predicate Valid()
      reads this
    {
      Sound() && Indexed(reviews, collection, positions, encode) && AllSigned(reviews)
    }

    /** An analyzer with an empty table and an empty collection. */
    constructor(encode: string -> Vector, classify: string -> Prediction, tokenize: Tokenizer,
                nounChunks: string -> seq<string>, query: QueryOracle)
      requires ClassifierSound(classify) && QuerySound(query)
      ensures reviews == [] && collection == []
      ensures this.encode == encode && this.classify == classify && this.tokenize == tokenize
      ensures this.nounChunks == nounChunks && this.query == query
      ensures Valid()
    {
      this.encode := encode;
      this.classify := classify;
      this.tokenize := tokenize;
      this.nounChunks := nounChunks;
      this.query := query;
      reviews := [];
      collection := [];
      positions := [];
    }

    /** `_get_similar_reviews(text)`: up to `k` stored documents near the text's embedding. */
    function SimilarReviews(text: string, k: nat): (r: seq<string>)
      requires Sound()
      reads this
      ensures |r| <= k
      ensures forall j :: 0 <= j < |r| ==> r[j] in Documents(collection)
    {
      Similar(query, collection, encode(text), k)
    }

    /**
     * `add_review`: the neighbours are read first, the row is appended, then
     * the entry `review_<new length>` is inserted. `addSucceeds` says whether
     * rendering the date and the collection's `add`, which validates the
     * metadata, returned normally; when one of them raises, the exception propagates
     * and the table keeps the appended row without its entry. Either way the
     * new id was never stored before and the invariant holds. A missing
     * date always makes the insert raise, since `strftime` fails on `NaT`.
     * `AddStep` states the same step over values, with lockstep.
     */
    method AddReview(text: string, rating: int, date: Option<Timestamp>, addSucceeds: bool)
      requires Valid()
      modifies this
      ensures var row := AnalyzedRow(classify, tokenize, text, rating, date,
                                     Similar(query, old(collection), encode(text), 3));
        reviews == old(reviews) + [row] &&
        collection == Inserted(old(collection), EntryFor(encode, row, |reviews|), addSucceeds && date.Some?)
      ensures positions == Inserted(old(positions), |reviews|, addSucceeds && date.Some?)
      ensures ReviewId(|reviews|) !in Ids(old(collection))
      ensures Valid()
    {
      var similar := SimilarReviews(text, 3);
      var row := AnalyzedRow(classify, tokenize, text, rating, date, similar);
      NextIdIsFresh(reviews, collection, positions, encode);
      IndexedSnoc(reviews, collection, positions, encode, row);
      AllSignedSnoc(reviews, row);
      var rows := reviews + [row];
      if addSucceeds && date.Some? {
        reviews, collection, positions := rows, collection + [EntryFor(encode, row, |rows|)], positions + [|rows|];
      } else {
        reviews := rows;
      }
    }

    /** `get_complaints`: exactly the complaint rows, in store order. */
    function GetComplaints(): (r: seq<Review>)
      reads this
      ensures IsSubsequence(r, reviews)
      ensures forall i :: 0 <= i < |r| ==> r[i].complaint
      ensures |r| == CountWhere(reviews, IsComplaint)
    {
      Complaints(reviews)
    }

    /**
     * `get_sentiment_trends`: a `KeyError` on a table that never had a row,
     * else one mean per calendar date present.
     */
    function GetSentimentTrends(): (r: Outcome<map<int, real>>)
      reads this
      ensures r.Fail? <==> reviews == []
      ensures r.Fail? ==> r.error == KeyError("Column not found: sentiment_score")
      ensures r.Ok? ==> r.value.Keys == DaysOf(reviews)
    {
      TrendsRaiseOnEmptyStore(reviews);
      SentimentTrends(reviews)
    }

    /**
     * `categorize_reviews`: one pass over the table, each text appended to
     * the first bucket whose keywords its lower-cased form contains.
     */
    method CategorizeReviews() returns (c: map<Category, seq<string>>)
      ensures c.Keys == AllCategories
      ensures forall k :: k in c ==> c[k] == Bucket(Texts(reviews), k)
    {
      c := map[Service := [], Food := [], Ambiance := [], Price := [], Other := []];
      var texts := Texts(reviews);
      var i := 0;
      while i < |texts|
        invariant 0 <= i <= |texts|
        invariant BucketsOf(c, texts[..i])
      {
        var text := texts[i];
        var cat := CategoryOf(text);
        assert texts[..i + 1] == texts[..i] + [text];
        BucketsSnoc(c, texts[..i], text);
        c := c[cat := c[cat] + [text]];
        i := i + 1;
      }
      assert texts[..i] == texts;
    }

    /**
     * `generate_weekly_report` at time `now`: a `KeyError` on a table that
     * never had a row, else the window's figures and the complaints section
     * built line by line from the window's complaint rows.
     */
    method GenerateWeeklyReport(now: Timestamp) returns (report: Outcome<WeeklyReport>)
      ensures report == WeeklyReportOf(reviews, now)
    {
      if reviews == [] {
        return Fail(KeyError(ScoreColumn));
      }
      var weekly := Window(reviews, now);
      var complaints := Complaints(weekly);
      var section := SummarizeComplaints(complaints);
      report := Ok(WeeklyReport(|weekly|, Average(weekly), CountWhere(weekly, HasLabel(Positive)),
                                CountWhere(weekly, HasLabel(Negative)), Previews(complaints), section));
    }

    /**
     * `extract_top_themes(n)`: the multi-word noun chunks of all texts joined
     * by spaces, lower-cased, counted, and the `head(n)` of the counts.
     */
    method ExtractTopThemes(n: int) returns (top: seq<(string, nat)>)
      ensures var themes := ThemeList(nounChunks(Join(" ", Texts(reviews))));
        |top| == TakeCount(n, |Distinct(themes)|) &&
        (forall j :: 0 <= j < |top| ==> top[j].0 in themes && top[j].1 == multiset(themes)[top[j].0]) &&
        (forall j, j' :: 0 <= j < j' < |top| ==> top[j].0 != top[j'].0 && top[j].1 >= top[j'].1) &&
        (forall p, j :: p in themes && !Listed(top, p) && 0 <= j < |top| ==> multiset(themes)[p] <= top[j].1)
    {
      var chunks := nounChunks(Join(" ", Texts(reviews)));
      var themes := [];
      var i := 0;
      while i < |chunks|
        invariant 0 <= i <= |chunks|
        invariant themes == ThemeList(chunks[..i])
      {
        assert chunks[..i + 1][..i] == chunks[..i];
        if MultiWord(chunks[i]) {
          themes := themes + [Lower(chunks[i])];
        }
        i := i + 1;
      }
      assert chunks[..i] == chunks;
      top := TopThemes(themes, n);
    }
  }
}
