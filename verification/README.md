# Review analysis core, modelled in Dafny

This project models the bookkeeping core of a customer-review analysis
service. The core has three parts.

- **The backend `ReviewAnalyzer`.** It keeps two stores that grow together:
  - a review table with one row per review (text, rating, date, sentiment label, signed sentiment score, complaint flag);
  - a vector collection with one entry per review (id `review_<n>`, embedding, document, metadata snapshot).

  `add_review` runs these steps in order:
  1. it looks up at most three neighbour texts;
  2. it classifies the context, which is the neighbours followed by the new text;
  3. it turns the label and confidence into a signed score;
  4. it runs a lexical complaint check on the same context;
  5. it appends the row;
  6. it inserts the entry under the id `review_<table length>`.

  When `strftime` or the insert raises, the row stays in the table without an entry. Ids are still never reused. A review whose date is missing (`NaT`, from an empty date cell of an uploaded table) always ends this way, because `strftime` fails on it. Such a row is in no weekly window and on no trend date.

  On the read side, the analyzer answers:
  - a complaint filter;
  - a weekly report over the last seven days;
  - a per-date sentiment trend;
  - a first-match keyword categorisation into five buckets;
  - a top-n count of multi-word noun phrases.

  The report and the trend raise `KeyError` on an empty store, because the score column appears only with the first row.
- **The legacy `ReviewAnalyzer`.** It runs the same pipeline, but it stores the classifier's confidence unsigned, whatever the label.
- **Two `ReviewFetcher`s.** Each holds a table read from a CSV file and offers `head(limit)`, a recent-by-date filter and a by-rating filter. The upload fetcher also checks the required columns and refuses to answer while its table is empty.

The classifier, the sentence encoder, the tokenizer, the noun-chunk extractor
and the collection's nearest-neighbour ranking are function-valued oracles.
Their stated contracts are predicates the analyzers require:
- `ClassifierSound`: every confidence lies in [0, 1];
- `QuerySound`: a query returns at most `k` documents, all stored ones.

`now` is a parameter. Dates are integer seconds, and a calendar date is a
day number. A date cell of a fetcher's table also records whether it is
tz-aware, that is, whether its text carried a UTC offset. `now` is naive, so
comparing it with a tz-aware date raises. Tables are sequences of rows; rows are maps from column names to
cells.

Modules follow the program's structure:
- `Text`: ASCII lowering, `join`, substring search, decimal rendering;
- `Seqs`: order-preserving filtering, counting, subsequences, `head` counts;
- `Records`: rows, predictions, index entries, ids;
- `VectorIndex`: the collection's `add` and `query`;
- `Sentiment` and `Complaint`: the two scorers and the detector;
- `Views`: the read-side functions of the backend analyzer;
- `Themes`: noun-phrase counting and the top-n selection;
- `Analyzer` and `LegacyAnalyzer`: the two analyzer classes;
- `Tables`: data-frame operations shared by the fetchers;
- `UploadFetcher` and `GoogleFetcher`: the two fetcher classes.

## Model

| member | source | states |
|---|---|---|
| Text.ContainsAny | backend/review_analyzer.py:215 | True exactly when one of the patterns occurs as a substring of the text. The complaint phrases and the category word lists are tested with it. |
| Text.ContainsAt | backend/review_analyzer.py:215 | Python's substring test holds exactly when the pattern occurs at some position of the text. |
| Records.ReviewIdInjective | backend/review_analyzer.py:148 | Two ids of the form `review_<n>` are equal only when their numbers are equal. |
| VectorIndex.Similar | backend/review_analyzer.py:151-167 | The neighbour lookup returns at most `k` texts, each the document of a stored entry. It returns none when the query answers with no document list. |
| VectorIndex.SimilarOnEmpty | backend/review_analyzer.py:151-167 | A lookup in an empty collection returns no neighbours. |
| Sentiment.ContextShape | backend/review_analyzer.py:180-184 | Without neighbours the context is the text itself. Otherwise it is the neighbours joined by single spaces, then a space, then the text. |
| Sentiment.ClassifierInput | backend/review_analyzer.py:180-184 | Both branches of the classifier input equal the joined context, so the classifier sees neighbours first and the target last. |
| Sentiment.AnalyzeSentiment | backend/review_analyzer.py:169-194 | The label is the classifier's label. The score is the confidence or its negation. For a confidence in [0, 1] the score lies in [-1, 1]; it is at least 0 for POSITIVE and at most 0 for every other label. |
| Sentiment.NeutralIsNegated | backend/review_analyzer.py:189 | A NEUTRAL confidence is negated like a NEGATIVE one, not mapped to zero. |
| Sentiment.AnalyzeSentimentLegacy | review_analyzer.py:92-99 | The legacy result is the classifier's result on the context, unchanged. With a sound classifier its score lies in [0, 1]. |
| Sentiment.BackendSignsLegacy | backend/review_analyzer.py:189 | The backend result is the legacy result with the score negated for every label other than POSITIVE. |
| Sentiment.LegacyScoreIgnoresPolarity | review_analyzer.py:95-99 | For any classifier whose prediction on the context is not POSITIVE and has a positive confidence, the legacy analyzer stores a positive score and the backend one a negative score. |
| Complaint.AnyKeywordToken | backend/review_analyzer.py:214 | True exactly when some token, lower-cased, is a complaint keyword. |
| Complaint.DetectComplaint | backend/review_analyzer.py:196-217 | A complaint exactly when a lower-cased token of the context is a keyword or a phrase occurs in the lower-cased context. |
| Complaint.PhraseInTextFlagsComplaint | backend/review_analyzer.py:207-217 | A phrase found in the lower-cased text alone flags a complaint whatever the neighbours, because the text is a suffix of its context. |
| Complaint.SpacelessTokenMissesNeverAgain | backend/review_analyzer.py:210 | A token without a space never lower-cases to the keyword "never again". |
| Views.Complaints | backend/review_analyzer.py:261-268 | Exactly the complaint-flagged rows, in store order: a subsequence of the store, all flagged, as many as the store has flagged rows. |
| Views.Window | backend/review_analyzer.py:226-227 | Exactly the rows with a date at or after `now` minus seven days, in store order. A row whose date is missing is never in it. |
| Views.Average | backend/review_analyzer.py:229 | The mean is undefined (NaN) exactly when there are no rows. |
| Views.AverageBounded | backend/review_analyzer.py:229 | When every score lies in [-1, 1], so does the mean. |
| Views.Preview | backend/review_analyzer.py:245 | A preview is the prefix of the text of length 100, or the whole text when it is shorter: exactly `text[:100]`. |
| Views.WeeklyCountsBounded | backend/review_analyzer.py:230-232 | In a produced report, the positive plus the negative count is at most the window total, which is at most the number of stored rows. |
| Views.WeeklyPreviewsAreWindowComplaints | backend/review_analyzer.py:241-245 | In a produced report, preview `i` is the first 100 characters of the `i`-th in-window complaint in store order. There is one preview per such complaint, and each is a prefix of a stored complaint dated within the last seven days. |
| Views.ComplaintsSectionOmittedIffNone | backend/review_analyzer.py:242-245 | In a produced report, the complaints section is empty exactly when the window holds no complaint. Otherwise it starts with its heading. |
| Views.WeeklyReportRaisesOnEmptyStore | backend/review_analyzer.py:226-229 | The report raises KeyError('sentiment_score') exactly when the store is empty, because the initial frame has no score column. A non-empty store with no row dated in the last week, counting rows with a missing date, gets total 0 and an undefined mean. |
| Views.DayHasRows | backend/review_analyzer.py:257-258 | Every date present in the store has at least one row, so its daily mean is defined. |
| Views.WeeklyAverageBounded | backend/review_analyzer.py:229 | When every stored score lies in [-1, 1], the average of a produced report does too. |
| Views.DailyMeans | backend/review_analyzer.py:256-259 | The daily means have one key per calendar date present among the rows with a date. |
| Views.TrendsRaiseOnEmptyStore | backend/review_analyzer.py:256-259 | The trend raises KeyError('Column not found: sentiment_score') exactly on an empty store: the grouped column selection fails, with a message unlike the weekly report's. Otherwise it has one key per date present, and no key at all exactly when every stored date is missing. |
| Views.TrendsOfSingleDay | backend/review_analyzer.py:257-258 | A non-empty store whose rows are all dated on one day gets a trend with that day as its only key. |
| Views.UndatedRowInNoView | backend/review_analyzer.py:226-258 | A row with a missing date changes neither the weekly window nor the trend's dates: `NaT >= cutoff` is false, and grouping drops `NaT`. |
| Views.TrendsBounded | backend/review_analyzer.py:258 | When every stored score lies in [-1, 1], every daily mean of a produced trend does too. |
| Views.CategoriesPartition | backend/review_analyzer.py:298-319 | The five buckets together hold every stored text exactly as often as the store does: no text is lost or placed twice. |
| Views.CategoriesCoverStore | backend/review_analyzer.py:298-319 | The bucket sizes add up to the number of stored rows. |
| Views.OneMoreInOneBucket | backend/review_analyzer.py:308-317 | Adding one text to the bucket of its category, and to no other, adds it exactly once to the union of the five buckets. |
| Views.ServiceBeatsFood | backend/review_analyzer.py:308-311 | A text with both a service word and a food word goes to service and not to food. |
| Themes.NoSpaceAtMostOneWord | backend/review_analyzer.py:285 | A chunk without whitespace splits into at most one word, so it is never a theme. |
| Themes.ThemesAreMultiWordChunks | backend/review_analyzer.py:283-286 | The themes are exactly the lower-cased chunks of more than one word. |
| Themes.CountPhrases | backend/review_analyzer.py:288 | Every distinct phrase gets a key, and its count is its number of occurrences. |
| Themes.ListedSnoc | backend/review_analyzer.py:288-289 | A phrase is taken after one more selection exactly when it was taken before or is the one just selected. |
| Themes.SelectStep | backend/review_analyzer.py:288-289 | Taking a most frequent remaining phrase keeps the selection distinct, ranked, and ahead of every phrase still left. |
| Themes.SelectTop | backend/review_analyzer.py:288-289 | The selection takes `k` distinct phrases with their counts, in non-increasing count order. No phrase left out has a larger count than one taken. |
| Themes.TopThemes | backend/review_analyzer.py:288-289 | `head(n)` of the counts: as many distinct phrases as `head(n)` keeps, with their true counts, most frequent first. No omitted phrase is more frequent than one taken. |
| Analyzer.AnalyzedRow | backend/review_analyzer.py:114-133 | The appended row holds the given text, rating and date, the signed sentiment and the complaint flag of the same context. With a sound classifier its score has the sign of its label. |
| Analyzer.LockstepIsIndexed | backend/review_analyzer.py:133-148 | Stores in lockstep are exactly the indexed stores in which row `n` has its entry `review_<n>` for every `n`. |
| Analyzer.EntriesDescribeRows | backend/review_analyzer.py:136-149 | Every stored entry has the id `review_<n>` of the row it was inserted for, that row's embedding and text, and metadata holding its rating, date, label and complaint flag. That row has a date. |
| Analyzer.IdsDistinct | backend/review_analyzer.py:133-148 | No two entries share an id, even after inserts that raised and left rows without entries. |
| Analyzer.NextIdIsFresh | backend/review_analyzer.py:133-148 | Every stored id numbers an existing row, so the id of the next row is never already stored. |
| Analyzer.IndexedSnoc | backend/review_analyzer.py:133-148 | Appending a row keeps every entry describing its row when the row's own entry is not inserted. It does so also when the entry is inserted, if the row has a date. |
| Analyzer.AddStep | backend/review_analyzer.py:133-149 | One add on indexed stores: the new id was not stored, the stores stay indexed whether or not the insert raised, and stores in lockstep stay in lockstep when it succeeds. |
| Analyzer.AllSignedSnoc | backend/review_analyzer.py:186-194 | Appending a row whose score carries its label's sign keeps every stored score signed. |
| Analyzer.LockstepSnoc | backend/review_analyzer.py:133-148 | Appending a row and its entry `review_<new length>` keeps the stores in lockstep. |
| Analyzer.BucketsSnoc | backend/review_analyzer.py:308-319 | Appending one text to the bucket of its first matching category keeps every bucket equal to the category filter of the texts seen so far. |
| Analyzer.SummarizeComplaints | backend/review_analyzer.py:241-245 | The section built line by line is empty without complaints. Otherwise it is the heading, then one preview line per complaint, in order. |
| Analyzer.NeighboursAreStoredTexts | backend/review_analyzer.py:114-139 | The neighbours of a new review are texts of rows stored before it, also after earlier failed inserts. |
| Analyzer.SignedRowsInRange | backend/review_analyzer.py:186-194 | Rows whose scores carry their labels' signs have scores in [-1, 1], the premise of the bounded averages. |
| Analyzer.ReviewAnalyzer.constructor | backend/review_analyzer.py:56-75 | A new analyzer has an empty table and an empty collection, and is valid. |
| Analyzer.ReviewAnalyzer.SimilarReviews | backend/review_analyzer.py:151-167 | At most `k` neighbour texts, each a document of the collection. |
| Analyzer.ReviewAnalyzer.AddReview | backend/review_analyzer.py:104-149 | Neighbours are looked up in the collection as it was before the call. Exactly one row is always appended. The entry `review_<new length>` is inserted when the date is present and `strftime` and the collection's add succeed. It is missing when either raises, and always when the date is missing. Its id was never stored before. The invariant holds afterwards: entries describe their rows and scores are signed by their labels. |
| Analyzer.ReviewAnalyzer.GetComplaints | backend/review_analyzer.py:261-268 | Exactly the complaint rows, in store order: a subsequence of the store, all flagged, as many as the store has flagged rows. |
| Analyzer.ReviewAnalyzer.GetSentimentTrends | backend/review_analyzer.py:249-259 | A KeyError('Column not found: sentiment_score') exactly on an empty store. Otherwise one key per calendar date present. |
| Analyzer.ReviewAnalyzer.CategorizeReviews | backend/review_analyzer.py:291-319 | All five keys are present, and each bucket is the store-ordered list of texts whose first matching category is that key. |
| Analyzer.ReviewAnalyzer.GenerateWeeklyReport | backend/review_analyzer.py:219-247 | The report raises KeyError on an empty store, as `WeeklyReportRaisesOnEmptyStore` states. Otherwise its window total, average, positive and negative counts, previews and complaints section are those of the last seven days' rows. |
| Analyzer.ReviewAnalyzer.ExtractTopThemes | backend/review_analyzer.py:270-289 | The top themes of the joined texts' multi-word noun chunks, with the properties of `TopThemes`. |
| LegacyAnalyzer.LegacyRow | review_analyzer.py:44-63 | The appended row holds the raw prediction and the complaint flag of the same context. With a sound classifier its score lies in [0, 1]. |
| LegacyAnalyzer.LegacyRowUnsigned | review_analyzer.py:92-99 | On the same inputs the backend row equals the legacy row with its score negated for labels other than POSITIVE. |
| LegacyAnalyzer.AllConfidencesSnoc | review_analyzer.py:52-63 | Appending a row whose score is a confidence in [0, 1] keeps every stored score in [0, 1]. |
| LegacyAnalyzer.LegacyReviewAnalyzer.constructor | review_analyzer.py:19-39 | A new legacy analyzer has empty stores and is valid. |
| LegacyAnalyzer.LegacyReviewAnalyzer.GetSimilarReviews | review_analyzer.py:163-165 | At most `nResults` stored documents, none for an empty collection. |
| LegacyAnalyzer.LegacyReviewAnalyzer.AddReview | review_analyzer.py:41-81 | The backend pipeline with unsigned scores. One row is always appended. The entry `review_<new length>`, whose id was never stored, is inserted unless the date is missing or `strftime` or the add raises. The invariant holds afterwards: entries describe their rows and every score lies in [0, 1]. |
| LegacyAnalyzer.LegacyReviewAnalyzer.GetComplaints | review_analyzer.py:159-161 | Exactly the complaint rows, in store order: a subsequence of the store, all flagged, as many as the store has flagged rows. |
| Tables.ConvertCell | backend/review_fetcher.py:44-45 | Date conversion keeps missing cells and dates, and turns parsable cells into dates, naive or tz-aware as the parser reads them. |
| Tables.ConvertRows | backend/review_fetcher.py:44-45 | Conversion succeeds exactly when every date cell converts. It then changes only the date cells, which become dates or missing. On failure it reports a failing cell's error. |
| Tables.ConvertDates | backend/review_fetcher.py:44-45 | A converted table keeps its columns and row count. Every date cell is a date or missing, and it is the conversion of the original cell, so it is tz-aware exactly when that cell's text carried an offset. |
| Tables.MissingColumns | backend/review_fetcher.py:48-49 | The missing columns are exactly the required columns the table lacks, in the order date, text, rating. |
| Tables.Limited | backend/review_fetcher.py:69-71 | A truthy limit yields the prefix `head(limit)` keeps; `None` or 0 yields the whole table. |
| Tables.Recent | backend/review_fetcher.py:86-90 | Without a date column, the whole table. With one, either a TypeError when a date cell cannot be compared with the naive cutoff (unconverted or tz-aware), or exactly the rows dated at or after the cutoff, in order. |
| Tables.WithRating | backend/review_fetcher.py:105-108 | Without a rating column, the whole table. Otherwise exactly the rows whose rating equals the given one, in order. |
| Tables.RecentIsExactlyTheWindow | backend/review_fetcher.py:89-90 | Any order-preserving selection of in-window rows of the right size is the date filter's result. |
| Tables.ConvertedTableFiltersByDate | backend/google_reviews_fetcher.py:47-48 | A table whose dates were converted can be filtered by the naive cutoff exactly when no date cell converted to a tz-aware date. |
| UploadFetcher.ReviewFetcher.constructor | backend/review_fetcher.py:23-27 | A new fetcher holds an empty table. |
| UploadFetcher.ReviewFetcher.LoadReviewsFromFile | backend/review_fetcher.py:29-54 | An unreadable file leaves the table alone. Otherwise the table is replaced before its dates are converted and its columns are checked, so a failed conversion or a missing column still replaces it. Every failure is one ValueError, "Error processing file: " followed by the cause. The cause names all missing columns in order. Success means all required columns are present. |
| UploadFetcher.ReviewFetcher.GetReviews | backend/review_fetcher.py:56-71 | An error exactly when the table is empty. Otherwise the `head(limit)` prefix for a truthy limit, or the whole table. |
| UploadFetcher.ReviewFetcher.GetRecentReviews | backend/review_fetcher.py:73-90 | An error on an empty table. Otherwise, without a date column, the whole table; with one, a TypeError when a date cell is unconverted or tz-aware, else exactly the rows dated at or after `now - days`, in order, with the same columns. |
| UploadFetcher.ReviewFetcher.GetReviewsByRating | backend/review_fetcher.py:92-108 | An error exactly when the table is empty. Otherwise, without a rating column, the whole table; with one, exactly the rows with that rating, in order. |
| GoogleFetcher.ReviewFetcher.constructor | backend/google_reviews_fetcher.py:24-33 | A new fetcher remembers its path and holds an empty table until it is loaded. |
| GoogleFetcher.ReviewFetcher.LoadReviewsFromFile | backend/google_reviews_fetcher.py:35-48 | A missing file raises FileNotFoundError naming the path, and the table is kept. A read error propagates unchanged. A read table replaces the old one before date conversion. After success every date cell is a date or missing; tz-aware dates stay tz-aware. |
| GoogleFetcher.ReviewFetcher.GetReviews | backend/google_reviews_fetcher.py:50-62 | Never an error. The `head(limit)` prefix for a truthy limit, the whole table otherwise. |
| GoogleFetcher.ReviewFetcher.GetRecentReviews | backend/google_reviews_fetcher.py:64-78 | Without a date column, the whole table. Otherwise the order-preserving subsequence of rows dated at or after `now - days`. It raises a TypeError exactly when a date cell is unconverted or tz-aware. |
| GoogleFetcher.ReviewFetcher.GetReviewsByRating | backend/google_reviews_fetcher.py:80-93 | Without a rating column, the whole table. Otherwise the order-preserving subsequence of rows with that rating. |

## Left out

- Models. The sentiment pipeline, the sentence encoder and the NLP pipeline are oracles. A stated contract is assumed only for the classifier's confidence.
- Collection. Chroma's client and its distance ranking are the `QueryOracle`. Nothing about vectors or distances is modelled, and the order of the neighbours is the oracle's.
- Duplicate ids. No insert ever reuses an id (`NextIdIsFresh`), so Chroma's behaviour on a duplicate id is never reached and is not modelled.
- Text.Lower: lower-cases ASCII letters only; Unicode case mapping is not modelled.
- Themes.IsSpace: holds for the whitespace characters below 128 that `str.split()` separates on (space, `\t` to `\r`, 0x1C to 0x1F). The non-ASCII ones (0x85, 0xA0 and the Unicode spaces) are not modelled.
- Tokenisation and noun-chunk extraction are oracles. The model does not claim which tie order `value_counts` uses among equal counts; `TopThemes` leaves it open.
- Date rendering. The metadata keeps the row's timestamp instead of its `strftime` text. Calendar dates are day numbers instead of `date` objects. Times are whole seconds, so sub-second differences against `now` are not modelled.
- Weekly report text. The model covers its figures, previews and complaints section. It does not cover the title line, the "Generated on" line, or the `.2f` rendering of the average, which is undefined (NaN) for an empty window. The HTTP status into which the API layer turns the empty store's KeyError is not modelled.
- Views.DailyMeans: the result is a map, so the date order of the returned dictionary is not modelled.
- Floating point. Scores and means are reals; rounding is not modelled.
- JSON loading. Loading the initial reviews file in the backend analyzer's constructor, with its swallowed exceptions, is not part of this model. The constructor starts from empty stores.
- Legacy report. The legacy weekly report, which renders a PDF and a plot, is not part of this model.
- Other code. The HTTP layers, the Google Places clients, the sample and setup scripts, and `starbuck.py` are not part of this model.
- Reading a file. `read_csv` and the file system are parameters: a parsed table or its exception, and whether the file exists. How `pd.to_datetime` parses a cell is a `DateParser` oracle.
- Tables.ConvertRows: converts each date cell on its own with the `DateParser`. `pd.to_datetime` parses the whole column and infers one format from its first non-null value, so whether a cell converts can depend on the other cells. That column-wide inference is not modelled, and "succeeds exactly when every date cell converts" holds only relative to the per-cell parser. So is the error pandas raises for a column that mixes naive and tz-aware dates: each cell keeps its own awareness.
- Tables.Recent: the TypeError raised by comparing an unconverted date column carries a fixed placeholder message, not pandas' text.
- Views.Window: review dates are naive. A tz-aware `date` given to `add_review` makes the comparison with the naive `now - 7 days` raise a TypeError in the source (backend/review_analyzer.py:227). The model does not record awareness on review rows, so it has no such failure.
- Views.DailyMeans: likewise, `pd.to_datetime` over a date column that mixes naive and tz-aware review dates raises in the source (backend/review_analyzer.py:257). This failure is not modelled either.
- Construction. The file-path fetcher's constructor loads its file at once; a failing load there means no fetcher is made. The model separates the two steps: a constructor that holds an empty table, then `LoadReviewsFromFile`.
- LegacyAnalyzer.LegacyReviewAnalyzer.GetSimilarReviews: `n_results` is a natural number; a negative count is not modelled.
- Sentiment.AnalyzeSentiment: follows the code and negates the confidence of every label other than POSITIVE, including NEUTRAL. It does not map NEUTRAL to 0.
- Analyzer.ReviewAnalyzer.AddReview: validates nothing, as the code validates nothing. No validation error is modelled. A failure after the append is one parameter, `addSucceeds`. It stands for the steps that can raise there on a present date: `strftime` on a value that is not a date, passed directly by a caller, and the collection's validation of the metadata. A missing date always makes `strftime` raise; the method models that itself, from the `date` argument. The encoder already ran on the same text before the append, so it is not among them. The oracles before the append are total, so an exception there is not modelled; it would leave both stores unchanged.
- LegacyAnalyzer.LegacyReviewAnalyzer.AddReview: as for the backend, a failure after the append is the single parameter `addSucceeds`, and an exception before the append is not modelled.
- Complaint.DetectComplaint: the keyword "never again" can only match if the tokenizer yields a single token containing a space (see `SpacelessTokenMissesNeverAgain`); this is kept as written.
- Concurrency. None is modelled; every operation is sequential.
