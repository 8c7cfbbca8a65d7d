/**
 * The read-side views of the backend analyzer, each a function of the stored
 * rows at call time: the complaint filter, the weekly report, the per-date
 * sentiment trend and the keyword categorisation.
 */
module Views {
  import opened Text
  import opened Seqs
  import opened Records

  // ---------------------------------------------------------------- complaints

  predicate IsComplaint(r: Review)
  {
    r.complaint
  }

  /** `get_complaints`: exactly the rows flagged as complaints, in store order. */
  function Complaints(reviews: seq<Review>): (r: seq<Review>)
    ensures IsSubsequence(r, reviews)
    ensures forall i :: 0 <= i < |r| ==> r[i].complaint
    ensures |r| == CountWhere(reviews, IsComplaint)
  {
    KeepIsSubsequence(reviews, IsComplaint);
    KeepLength(reviews, IsComplaint);
    KeepMembers(reviews, IsComplaint);
    Keep(reviews, IsComplaint)
  }

  // ------------------------------------------------------------ weekly report

  const WeekSeconds: int := 7 * SecondsPerDay

  /** `df['date'] >= now - timedelta(days=7)`: a missing date compares false. */
  function InLastWeek(now: Timestamp): Review -> bool
  {
    (r: Review) => r.date.Some? && r.date.value >= now - WeekSeconds
  }

  /** The rows of the last seven days, in store order. */
  function Window(reviews: seq<Review>, now: Timestamp): (w: seq<Review>)
    ensures IsSubsequence(w, reviews)
    ensures forall i :: 0 <= i < |w| ==> w[i].date.Some? && w[i].date.value >= now - WeekSeconds && w[i] in reviews
    ensures |w| == CountWhere(reviews, InLastWeek(now))
  {
    KeepIsSubsequence(reviews, InLastWeek(now));
    KeepLength(reviews, InLastWeek(now));
    KeepMembers(reviews, InLastWeek(now));
    Keep(reviews, InLastWeek(now))
  }

  /** `df['sentiment'] == label`. */
  function HasLabel(l: Label): Review -> bool
  {
    (r: Review) => r.sentiment == l
  }

  /** The sum of the stored scores. */
  function SumScores(rows: seq<Review>): real
  {
    if rows == [] then 0.0 else SumScores(rows[..|rows| - 1]) + rows[|rows| - 1].sentimentScore
  }

  /** Every stored score lies in [-1, 1]. */
  predicate ScoresInRange(rows: seq<Review>)
  {
    forall i :: 0 <= i < |rows| ==> -1.0 <= rows[i].sentimentScore <= 1.0
  }

  /** `df['sentiment_score'].mean()`: None (pandas' NaN) for no rows. */
  function Average(rows: seq<Review>): (r: Option<real>)
    ensures r.None? <==> rows == []
  {
    if rows == [] then None else Some(SumScores(rows) / |rows| as real)
  }

  lemma {:induction false} SumScoresBounded(rows: seq<Review>)
    requires ScoresInRange(rows)
    ensures -(|rows| as real) <= SumScores(rows) <= |rows| as real
  {
    if rows != [] {
      SumScoresBounded(rows[..|rows| - 1]);
    }
  }

  /** When every score lies in [-1, 1], so does their mean. */
  lemma AverageBounded(rows: seq<Review>)
    requires ScoresInRange(rows)
    ensures Average(rows).Some? ==> -1.0 <= Average(rows).value <= 1.0
  {
    if rows != [] {
      SumScoresBounded(rows);
      var n := |rows| as real;
      var m := SumScores(rows) / n;
      assert m * n == SumScores(rows);
    }
  }

  /** `row['text'][:100]`: the first 100 characters, or the whole of a shorter text. */
  function Preview(text: string): (p: string)
    ensures p <= text
    ensures |p| == if |text| <= 100 then |text| else 100
  {
    if |text| <= 100 then text else text[..100]
  }

  /** One line of the complaints section. */
  function SummaryLine(text: string): string
  {
    "- " + Preview(text) + "...\n"
  }

  /** The lines of the complaints section, one per row, in order. */
  function SummaryLines(rows: seq<Review>): string
  {
    if rows == [] then "" else SummaryLines(rows[..|rows| - 1]) + SummaryLine(rows[|rows| - 1].text)
  }

  /** The complaints section: omitted when there are no complaints. */
  function ComplaintsSection(complaints: seq<Review>): string
  {
    if complaints == [] then "" else "Complaints Summary:\n" + SummaryLines(complaints)
  }

  /** The previews of some rows, in order. */
  function Previews(rows: seq<Review>): seq<string>
  {
    seq(|rows|, i requires 0 <= i < |rows| => Preview(rows[i].text))
  }

  /** The figures and the complaints section of the weekly report. */
  datatype WeeklyReport = WeeklyReport(
    total: nat,
    averageSentiment: Option<real>,
    positive: nat,
    negative: nat,
    complaintPreviews: seq<string>,
    complaintsSection: string)

  /**
   * The column the table gains with its first row: the initial frame has no
   * `sentiment_score` column, and the first appended row brings it in.
   */
  const ScoreColumn: string := "sentiment_score"

  /** The report's figures over the rows of the last seven days. */
  function WeeklyFigures(reviews: seq<Review>, now: Timestamp): WeeklyReport
  {
    var w := Window(reviews, now);
    var cs := Complaints(w);
    WeeklyReport(|w|, Average(w), CountWhere(w, HasLabel(Positive)), CountWhere(w, HasLabel(Negative)),
                 Previews(cs), ComplaintsSection(cs))
  }

  /**
   * `generate_weekly_report` at time `now`, as a function of the stored rows:
   * the figures, or the `KeyError` raised by reading the score column of a
   * table that never had a row.
   */
  function WeeklyReportOf(reviews: seq<Review>, now: Timestamp): Outcome<WeeklyReport>
  {
    if reviews == [] then Fail(KeyError(ScoreColumn)) else Ok(WeeklyFigures(reviews, now))
  }

  /**
   * The report raises exactly on an empty store. A store with no row in the
   * last seven days, undated rows included, gets a report with total 0 and
   * an undefined (NaN) mean.
   */
  lemma WeeklyReportRaisesOnEmptyStore(reviews: seq<Review>, now: Timestamp)
    ensures WeeklyReportOf(reviews, now).Fail? <==> reviews == []
    ensures WeeklyReportOf(reviews, now).Fail? ==> WeeklyReportOf(reviews, now).error == KeyError("sentiment_score")
    ensures (reviews != [] &&
             forall i :: 0 <= i < |reviews| ==> reviews[i].date.None? || reviews[i].date.value < now - WeekSeconds) ==>
      WeeklyReportOf(reviews, now).value.total == 0 && WeeklyReportOf(reviews, now).value.averageSentiment.None?
  {
  }

  /** The positive and negative counts never exceed the window's total, nor the total the store. */
  lemma WeeklyCountsBounded(reviews: seq<Review>, now: Timestamp)
    ensures var out := WeeklyReportOf(reviews, now);
      out.Ok? ==> out.value.positive + out.value.negative <= out.value.total <= |reviews|
  {
    var w := Window(reviews, now);
    CountDisjoint(w, HasLabel(Positive), HasLabel(Negative));
    CountBound(reviews, InLastWeek(now));
  }

  /**
   * The report previews exactly the complaint rows of the window, in store
   * order: preview `i` is the first 100 characters of the `i`-th in-window
   * complaint, which is a stored complaint dated within the last seven days.
   */
  lemma WeeklyPreviewsAreWindowComplaints(reviews: seq<Review>, now: Timestamp)
    ensures var out := WeeklyReportOf(reviews, now);
      out.Ok? ==>
      var r := out.value;
      var cs := Complaints(Window(reviews, now));
      |r.complaintPreviews| == |cs| == CountWhere(Window(reviews, now), IsComplaint) &&
      forall i :: 0 <= i < |r.complaintPreviews| ==>
        r.complaintPreviews[i] == Preview(cs[i].text) &&
        exists k :: 0 <= k < |reviews| && reviews[k].complaint && InLastWeek(now)(reviews[k]) &&
          r.complaintPreviews[i] <= reviews[k].text
  {
    var w := Window(reviews, now);
    var cs := Complaints(w);
    KeepMembers(w, IsComplaint);
    var r := WeeklyFigures(reviews, now);
    forall i | 0 <= i < |r.complaintPreviews|
      ensures exists k :: (0 <= k < |reviews| && reviews[k].complaint && InLastWeek(now)(reviews[k]) &&
        r.complaintPreviews[i] <= reviews[k].text)
    {
      assert cs[i] in w;
      var j :| 0 <= j < |w| && w[j] == cs[i];
      assert w[j] in reviews;
      var k :| 0 <= k < |reviews| && reviews[k] == w[j];
      assert r.complaintPreviews[i] == Preview(reviews[k].text);
    }
  }

  /** The complaints section is omitted exactly when the window holds no complaint. */
  lemma ComplaintsSectionOmittedIffNone(reviews: seq<Review>, now: Timestamp)
    ensures var out := WeeklyReportOf(reviews, now);
      out.Ok? ==>
      (out.value.complaintsSection == "" <==> out.value.complaintPreviews == []) &&
      (out.value.complaintPreviews != [] ==> "Complaints Summary:\n" <= out.value.complaintsSection)
  {
  }

  /** When every stored score lies in [-1, 1], so does the weekly average. */
  lemma WeeklyAverageBounded(reviews: seq<Review>, now: Timestamp)
    requires ScoresInRange(reviews)
    ensures var out := WeeklyReportOf(reviews, now);
      out.Ok? && out.value.averageSentiment.Some? ==> -1.0 <= out.value.averageSentiment.value <= 1.0
  {
    var w := Window(reviews, now);
    forall i | 0 <= i < |w| ensures -1.0 <= w[i].sentimentScore <= 1.0 {
      assert w[i] in reviews;
    }
    AverageBounded(w);
  }

  // ----------------------------------------------------------- sentiment trend

  /** The rows dated on calendar day `d`; an undated row is on no day. */
  function OnDay(d: int): Review -> bool
  {
    (r: Review) => r.date.Some? && Day(r.date.value) == d
  }

  /** The calendar dates present in the store; grouping drops missing dates. */
  function DaysOf(reviews: seq<Review>): set<int>
  {
    set i | 0 <= i < |reviews| && reviews[i].date.Some? :: Day(reviews[i].date.value)
  }

  /** Every calendar date present in the store has at least one row. */
  lemma DayHasRows(reviews: seq<Review>, d: int)
    requires d in DaysOf(reviews)
    ensures Keep(reviews, OnDay(d)) != []
  {
    var i :| 0 <= i < |reviews| && reviews[i].date.Some? && Day(reviews[i].date.value) == d;
    KeepMembers(reviews, OnDay(d));
    assert OnDay(d)(reviews[i]);
  }

  /** Per calendar date present in the store, the mean score of that date's rows. */
  function DailyMeans(reviews: seq<Review>): (r: map<int, real>)
    ensures r.Keys == DaysOf(reviews)
  {
    map d | d in DaysOf(reviews) :: DayHasRows(reviews, d); Average(Keep(reviews, OnDay(d))).value
  }

  /**
   * The message of the `KeyError` raised when a grouped frame lacks the
   * selected column; it differs from the plain column lookup's.
   */
  const GroupedColumnMissing: string := "Column not found: " + ScoreColumn

  /**
   * `get_sentiment_trends`: the daily means, or the `KeyError` raised by
   * selecting the score column of a grouped table that never had a row.
   */
  function SentimentTrends(reviews: seq<Review>): Outcome<map<int, real>>
  {
    if reviews == [] then Fail(KeyError(GroupedColumnMissing)) else Ok(DailyMeans(reviews))
  }

  /**
   * The trend raises exactly on an empty store; otherwise it has one key per
   * date present, and none at all when every stored date is missing.
   */
  lemma TrendsRaiseOnEmptyStore(reviews: seq<Review>)
    ensures SentimentTrends(reviews).Fail? <==> reviews == []
    ensures SentimentTrends(reviews).Fail? ==> SentimentTrends(reviews).error == KeyError("Column not found: sentiment_score")
    ensures SentimentTrends(reviews).Ok? ==>
      SentimentTrends(reviews).value.Keys == DaysOf(reviews) &&
      (SentimentTrends(reviews).value.Keys == {} <==> forall i :: 0 <= i < |reviews| ==> reviews[i].date.None?)
  {
    if exists i :: 0 <= i < |reviews| && reviews[i].date.Some? {
      var i :| 0 <= i < |reviews| && reviews[i].date.Some?;
      assert Day(reviews[i].date.value) in DaysOf(reviews);
    }
  }

  /** A non-empty store whose rows all date from day `d` has the single key `d`. */
  lemma TrendsOfSingleDay(reviews: seq<Review>, d: int)
    requires reviews != []
    requires forall i :: 0 <= i < |reviews| ==> reviews[i].date.Some? && Day(reviews[i].date.value) == d
    ensures SentimentTrends(reviews).Ok? && SentimentTrends(reviews).value.Keys == {d}
  {
    assert Day(reviews[0].date.value) in DaysOf(reviews);
  }

  /**
   * A row with a missing date changes neither the weekly window nor the
   * trend's dates: `NaT >= cutoff` is false and grouping drops `NaT`.
   */
  lemma UndatedRowInNoView(reviews: seq<Review>, row: Review, now: Timestamp)
    requires row.date.None?
    ensures Window(reviews + [row], now) == Window(reviews, now)
    ensures DaysOf(reviews + [row]) == DaysOf(reviews)
  {
    KeepAppend(reviews, [row], InLastWeek(now));
    assert Keep([row], InLastWeek(now)) == [];
    assert forall i :: 0 <= i < |reviews| ==> (reviews + [row])[i] == reviews[i];
  }

  /** When every stored score lies in [-1, 1], so does every daily mean. */
  lemma TrendsBounded(reviews: seq<Review>)
    requires ScoresInRange(reviews)
    ensures SentimentTrends(reviews).Ok? ==>
      forall d :: d in SentimentTrends(reviews).value ==> -1.0 <= SentimentTrends(reviews).value[d] <= 1.0
  {
    forall d | d in DailyMeans(reviews)
      ensures -1.0 <= DailyMeans(reviews)[d] <= 1.0
    {
      var rows := Keep(reviews, OnDay(d));
      KeepMembers(reviews, OnDay(d));
      forall i | 0 <= i < |rows| ensures -1.0 <= rows[i].sentimentScore <= 1.0 {
        assert rows[i] in reviews;
      }
      AverageBounded(rows);
    }
  }

  // ------------------------------------------------------------ categories

  /** The five buckets of `categorize_reviews`. */
  datatype Category = Service | Food | Ambiance | Price | Other

  const ServiceWords: seq<string> := ["service", "staff", "server", "waiter", "waitress"]
  const FoodWords: seq<string> := ["food", "dish", "meal", "menu", "taste"]
  const AmbianceWords: seq<string> := ["ambiance", "atmosphere", "decor", "music", "noise"]
  const PriceWords: seq<string> := ["price", "cost", "expensive", "cheap", "value"]

  /** The bucket of one text: the first keyword list that matches, in priority order. */
  function CategoryOf(text: string): Category
  {
    var t := Lower(text);
    if ContainsAny(t, ServiceWords) then Service
    else if ContainsAny(t, FoodWords) then Food
    else if ContainsAny(t, AmbianceWords) then Ambiance
    else if ContainsAny(t, PriceWords) then Price
    else Other
  }

  /** The texts a categorisation `f` puts into bucket `c`. */
  function InBucket(f: string -> Category, c: Category): string -> bool
  {
    (t: string) => f(t) == c
  }

  /** The texts of category `c`, in store order. */
  function Bucket(texts: seq<string>, c: Category): seq<string>
  {
    Keep(texts, InBucket(CategoryOf, c))
  }

  /** The five category keys, always present. */
  const AllCategories: set<Category> := {Service, Food, Ambiance, Price, Other}

  /** Adding one text to exactly one of five buckets adds it once to their union. */
  lemma OneMoreInOneBucket(x: string, c: Category, s: seq<string>, fo: seq<string>, a: seq<string>,
                           pr: seq<string>, o: seq<string>, all: seq<string>)
    requires multiset(s) + multiset(fo) + multiset(a) + multiset(pr) + multiset(o) == multiset(all)
    ensures (if c == Service then multiset{x} else multiset{}) + multiset(s) +
            ((if c == Food then multiset{x} else multiset{}) + multiset(fo)) +
            ((if c == Ambiance then multiset{x} else multiset{}) + multiset(a)) +
            ((if c == Price then multiset{x} else multiset{}) + multiset(pr)) +
            ((if c == Other then multiset{x} else multiset{}) + multiset(o)) == multiset{x} + multiset(all)
  {
  }

  /** Any total assignment of texts to the five categories splits the texts without loss or repetition. */
  lemma {:induction false} PartitionBy(texts: seq<string>, f: string -> Category)
    ensures multiset(Keep(texts, InBucket(f, Service))) + multiset(Keep(texts, InBucket(f, Food))) +
            multiset(Keep(texts, InBucket(f, Ambiance))) + multiset(Keep(texts, InBucket(f, Price))) +
            multiset(Keep(texts, InBucket(f, Other))) == multiset(texts)
  {
    if texts != [] {
      var x, rest := texts[0], texts[1..];
      PartitionBy(rest, f);
      assert multiset(texts) == multiset{x} + multiset(rest) by {
        assert texts == [x] + rest;
      }
      MultisetKeepCons(texts, InBucket(f, Service));
      MultisetKeepCons(texts, InBucket(f, Food));
      MultisetKeepCons(texts, InBucket(f, Ambiance));
      MultisetKeepCons(texts, InBucket(f, Price));
      MultisetKeepCons(texts, InBucket(f, Other));
      OneMoreInOneBucket(x, f(x), Keep(rest, InBucket(f, Service)), Keep(rest, InBucket(f, Food)),
                         Keep(rest, InBucket(f, Ambiance)), Keep(rest, InBucket(f, Price)),
                         Keep(rest, InBucket(f, Other)), rest);
    }
  }

  /** The five buckets together hold every text exactly as often as the store does. */
  lemma CategoriesPartition(texts: seq<string>)
    ensures multiset(Bucket(texts, Service)) + multiset(Bucket(texts, Food)) +
            multiset(Bucket(texts, Ambiance)) + multiset(Bucket(texts, Price)) +
            multiset(Bucket(texts, Other)) == multiset(texts)
  {
    PartitionBy(texts, CategoryOf);
  }

  /** Consequently the bucket sizes add up to the number of stored rows. */
  lemma CategoriesCoverStore(texts: seq<string>)
    ensures |Bucket(texts, Service)| + |Bucket(texts, Food)| + |Bucket(texts, Ambiance)| +
            |Bucket(texts, Price)| + |Bucket(texts, Other)| == |texts|
  {
    CategoriesPartition(texts);
    assert |multiset(texts)| == |texts|;
  }

  /** A text mentioning both a service word and a food word goes to service only. */
  lemma ServiceBeatsFood(text: string)
    requires ContainsAny(Lower(text), ServiceWords) && ContainsAny(Lower(text), FoodWords)
    ensures CategoryOf(text) == Service && CategoryOf(text) != Food
  {
  }
}
