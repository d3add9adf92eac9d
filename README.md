# Daraz review sentiment pipeline, modelled in Dafny

The system scrapes customer reviews from a Daraz product page with Selenium. It stores
them in SQLite and classifies each review into one of five star labels with a BERT
model. It then aggregates the labels into an average score, a percentage distribution
and a most common label. A Flask route (`/analyze`) runs the whole pipeline for a
submitted url and saves a snapshot of the result in an analysis history.

This project models that pipeline once the browser, the model and the database file are
replaced by abstract inputs. It proves what each step promises.

- `common.dfy`. `Wrappers` holds `Option` and `Result`. `Collections` holds counting,
  sums and the first maximal entry, which is how Python's `max` and
  `Counter.most_common` break ties. `Records` holds the review dicts that pass between
  the steps.
- `text.dfy` (`Text`). Python's `str.strip()` without arguments, and `str.split(sep)`
  on one character, with its inverse `join`.
- `analyzer.dfy` (`Polarity`). `analyze_review` of src/analyzer.py: the three-band rule
  on a TextBlob polarity, which is taken as a `real`.
- `sentiment.dfy` (`Sentiment`). It covers:
  - the five-label table of `evaluate_sentiment` and the score table;
  - `calculate_sentiment_stats`;
  - the two `process_reviews` loops.

  src/main.py and main.py contain the same `calculate_sentiment_stats` (lines 26-45 in
  both) and the same label table (lines 17-23), so one definition models both files.
  `process_reviews` differs: src/main.py returns the analysis, main.py prints it. The
  classifier is a parameter, a function from review text to a label index 0..4.
- `store.dfy` (`Store`). `DatabaseHandler` of src/db_handler.py and of db_handler.py.
  The model has two layers:
  - A value `Db` holds the tables as sequences in rowid order, the AUTOINCREMENT
    counters and a logical clock. Each handler operation is a function from one `Db` to
    the next, with its result.
  - A class `DatabaseHandler` holds the same state in fields. Each of its methods is
    proved to move that state exactly as the function does.

  The root db_handler.py has only the first four operations (`init_database`,
  `add_product`, `add_reviews`, `get_reviews`) and creates only the products and
  reviews tables. It creates them on every start, while the src handler creates all
  three tables only for a new file.
  The `Variant` argument of the constructor records which one is meant. A statement on a
  missing table fails and rolls back, as SQLite's `OperationalError` inside the `with`
  block does.
- `browser.dfy` (`Browser`). It covers:
  - the Chrome options `init_driver` builds, in StateUtilities.py and custom_driver.py;
  - the bounded retry loop, with an oracle saying what each construction attempt did;
  - the driver as a recorder of the actions performed on it;
  - `URLElement.to_dict`.
- `scraper.dfy` (`Scraper`). It covers:
  - `extract_review_data` and `scroll_to_load_reviews`;
  - `scrape_reviews`, from both Scraper.py and Scrapper.py;
  - the entry points `get_reviews` and `main`.

  The page is abstract. What navigation and the 60-second wait did is a `PageLoad`.
  Each review element went stale, lacks its `content` child, or has a text. Both files
  run the same steps, so one `ScrapePage` method produces an outcome, and two functions
  map that outcome to each file's return convention.
- `app.dfy` (`App`). The `POST /analyze` route of src/app.py: the 404 for no reviews,
  the analysis record, the save, and the two kinds of 500. It also has proofs tying the
  saved record to what `get_analyses` reads back.

The clock stands for `datetime.now()` and `CURRENT_TIMESTAMP`. It ticks once per
committed insert or update that stamps a row (a new product, a review batch, an
analysis), so "newest first" (`ORDER BY timestamp DESC`) is reverse insertion
order. That is stated as an invariant (`Store.Db.Valid`) and proved preserved by every
write.

## Model

| member | source | states |
|---|---|---|
| Collections.FirstMaxIndex | src/db_handler.py:136 | the index of a maximal value with every earlier value strictly smaller, i.e. the entry Python's `max` returns |
| Text.Strip | Scraper.py:15 | the result is a contiguous slice of the input with only whitespace cut at both ends, has no whitespace at either end, and is empty exactly when the input is all whitespace |
| Text.StripOfPadded | Scraper.py:15 | stripping whitespace-padded text with no whitespace at its ends gives back exactly that text |
| Text.StripIdempotent | Scraper.py:15 | stripping twice is stripping once |
| Text.Split | src/app.py:28 | `split` yields at least one piece and no piece contains the separator |
| Text.JoinSplit | src/app.py:28 | joining the pieces of a split with the separator rebuilds the string |
| Text.SplitJoin | src/app.py:28 | splitting a join of separator-free pieces gives back those pieces |
| Text.SplitSepFree | src/app.py:28 | a string without the separator splits into itself alone |
| Text.SplitAppend | src/app.py:28 | appending separator-plus-piece appends one piece to the split |
| Text.LastPieceIsSuffix | src/app.py:28 | the last piece of a split is a suffix of the string, preceded by the separator when shorter than it |
| Polarity.AnalyzeReview | src/analyzer.py:16-21 | 'Very Good' iff polarity > 0.1, 'Very Bad' iff polarity < -0.1, 'Neutral' iff it lies in [-0.1, 0.1]; always one of the three |
| Polarity.Rank | src/analyzer.py:16-21 | the position of a rating in worst-to-best order, defined exactly on the three ratings |
| Polarity.EdgesAreNeutral | src/analyzer.py:16-21 | both boundary values 0.1 and -0.1 are rated 'Neutral' |
| Polarity.AnalyzeReviewMonotone | src/analyzer.py:16-21 | a larger polarity never gets a worse rating |
| Sentiment.ScoreOf | src/main.py:29-37 | a score exists exactly for the five labels; it lies in 1..5 and is the label's position plus one; any other string is the KeyError |
| Sentiment.LabelTablesAgree | src/main.py:17-35 | the label of index i scores i + 1, and distinct indices give distinct labels (same tables in main.py:17-35) |
| Sentiment.Scores | src/main.py:37 | succeeds iff every sentiment is one of the five labels, giving one score per sentiment in order; otherwise fails naming the first unknown label of the input |
| Sentiment.SumOfScoresBounds | src/main.py:37-42 | scores in 1..5 sum to between n and 5n |
| Sentiment.Tally | src/main.py:38 | the counter has at most one entry per input and is non-empty for non-empty input |
| Sentiment.TallyIsCounter | src/main.py:38 | `Counter` as an insertion-ordered dict: distinct keys, exactly the occurring labels, each with its count, in first-occurrence order |
| Sentiment.TallySum | src/main.py:38-39 | the counts add up to the number of sentiments |
| Sentiment.Distribution | src/main.py:43 | one entry per counter entry, same key and order, value count / total * 100 |
| Sentiment.DistributionSum | src/main.py:43 | the percentages sum to (sum of counts / total) * 100 |
| Sentiment.CalculateSentimentStats | src/main.py:26-45 | succeeds iff the input is non-empty and every label is known; the empty list is the ZeroDivisionError, an unknown label the KeyError naming it (same function in main.py:26-45) |
| Sentiment.StatsComponents | src/main.py:37-45 | a successful result is built from the score list, the distribution of the counter and its most common entry |
| Sentiment.AverageIsMeanScore | src/main.py:42 | `average_score` is the sum of the mapped scores divided by the number of sentiments |
| Sentiment.AverageComponent | src/main.py:42 | `average_score` is the mean of the score list, which has one score per sentiment |
| Sentiment.AverageScoreInRange | src/main.py:37-42 | `average_score` lies in [1, 5] (also main.py:37-42) |
| Sentiment.DistributionShape | src/main.py:38-43 | the distribution has distinct keys, exactly the occurring labels, in first-occurrence order, each valued count * 100 / total (also main.py:38-43) |
| Sentiment.DistributionSumsTo100 | src/main.py:43 | the distribution values sum to exactly 100 (also main.py:43) |
| Sentiment.CounterModeIsFirst | src/main.py:44 | `most_common(1)` of an insertion-ordered counter is an occurring label of maximal count, the first one to appear among ties |
| Sentiment.MostCommonIsFirstMode | src/main.py:38-44 | `most_common` occurs in the input with maximal count and, among labels of equal count, appears first (also main.py:38-44) |
| Sentiment.ClassifiedLabelsAccepted | src/main.py:17-37 | any non-empty sequence of labels `evaluate_sentiment` can return is accepted by the statistics |
| Sentiment.TallyOfThreeDistinct | src/main.py:38 | three distinct labels count once each, in input order |
| Sentiment.StatsOfThreeSingletons | src/main.py:43-44 | three singleton counts give 100/3 percent each and the first label as most common |
| Sentiment.ThreeDistinctLabels | src/main.py:26-45 | three distinct labels scoring 5, 1, 3 give average 3, a third each, and the first as most common |
| Sentiment.ThreeReviewScenario | src/main.py:26-45 | the labels 5, 1 and 3 stars give average 3.0, 100/3 percent each, and "5 stars (very positive)" as most common |
| Sentiment.StatsFromParts | src/main.py:41-45 | the result is the mean of the scores, the percentages of the counter and its mode |
| Sentiment.Sentiments | src/main.py:54-63 | the sentiment of each processed review, in order |
| Sentiment.ProcessReviews | src/main.py:47-73 | `None` exactly when no reviews came back; otherwise one {text, sentiment} per review in order, with the classifier's label, and statistics computed over exactly those sentiments |
| Sentiment.Texts | main.py:57-59 | the text of each review, in order |
| Sentiment.ConsoleProcessReviews | main.py:47-71 | nothing is classified and nothing summarised when no reviews came back; otherwise each review's text is classified once, in order, and the printed statistics are those of the resulting labels |
| Store.IndexOfUrl | src/db_handler.py:63 | the position of the first product with that url, or the length when there is none |
| Store.NewRows | src/db_handler.py:70-73 | one review row per input, in order, with consecutive ids, the product id, the text, the rating (None when absent) and the current stamp |
| Store.Touch | src/db_handler.py:74-77 | exactly the products with that id get the new `last_scraped`; the others are unchanged |
| Store.ViewOf | src/db_handler.py:134-147 | a stored row as a dict: fails exactly on empty counts (`max` of an empty sequence); otherwise the stored counts unchanged and as most common the first key of maximal value |
| Store.OpeningKeepsData | db_handler.py:6-32 | opening an existing file keeps every row and table; the root handler always ends with its two tables, the src handler creates its three only for a new file and leaves an existing file as it is |
| Store.InitDatabaseIdempotent | db_handler.py:10-32 | running `init_database` again changes nothing (CREATE TABLE IF NOT EXISTS) |
| Store.EmptyIsValid | src/db_handler.py:14-51 | a new store satisfies the id, uniqueness and timestamp invariant |
| Store.AddProductReturnsItsRow | src/db_handler.py:55-64 | succeeds iff the products table exists, and then returns the id of a stored row with that url; a failure changes nothing |
| Store.AddProductIdempotent | src/db_handler.py:59-64 | a second `add_product` of the same url returns the same id and changes nothing, `last_scraped` included |
| Store.AddProductFresh | src/db_handler.py:55-64 | a new url appends exactly one product, stamped now, whose id differs from every existing id; other tables untouched |
| Store.AddProductKnown | db_handler.py:34-43 | a known url returns its stored id and leaves the store unchanged |
| Store.AddProductPreservesValid | src/db_handler.py:20-24 | `add_product` keeps ids increasing and below the counter, and urls unique |
| Store.ReviewsOfAppend | src/db_handler.py:84-91 | the reviews of a product in two concatenated tables are those of each, concatenated |
| Store.BatchViews | src/db_handler.py:88-91 | one {text, rating, timestamp} dict per review of the batch, in order |
| Store.ReviewsOfNewRows | src/db_handler.py:70-91 | a stored batch reads back under its own product id as the batch, and under any other id as nothing |
| Store.GetReviewsAfterAddReviews | src/db_handler.py:66-91 | after `add_reviews(pid, batch)`, `get_reviews(pid)` is the old list plus the batch in order; other products' lists are unchanged |
| Store.AddReviewsTouchesOnlyPid | src/db_handler.py:74-77 | only products with that id get the new `last_scraped`; an unknown id changes no product; history untouched |
| Store.AddReviewsPreservesValid | src/db_handler.py:66-78 | `add_reviews` keeps review ids increasing and timestamps in the past |
| Store.AddAnalysisAppendsOneRow | src/db_handler.py:93-114 | fails on the first missing key in the order product_name, sentiment_counts, average_rating, total_reviews, then on a missing table, changing nothing; otherwise it appends one row with exactly the given values, `reviews` defaulting to [], and a fresh id |
| Store.NewestFirstIsByTimestampDesc | src/db_handler.py:121-123 | reverse insertion order has the same rows and strictly decreasing timestamps, i.e. it is ORDER BY timestamp DESC |
| Store.ReverseSameElements | src/db_handler.py:121-123 | reversing keeps the same multiset of rows |
| Store.PageWindow | src/db_handler.py:118-125 | a page from 1 with positive size holds at most `per_page` rows, those from offset (page-1)*per_page on |
| Store.NonPositivePageIsFirstPage | src/db_handler.py:118-125 | a page number below 1 gives a negative OFFSET, which SQLite treats as 0, so it is the first page |
| Store.NegativeLimitIsUnbounded | src/db_handler.py:118-125 | a negative `per_page` is SQLite's unbounded LIMIT: every row from the offset on |
| Store.PaginationExample | src/db_handler.py:116-156 | 25 analyses at 10 per page: page 2 holds the 11th to 20th newest, and there are 3 pages |
| Store.TotalPagesIsCeiling | src/db_handler.py:150-156 | with a positive page size the page count is the ceiling of records / per_page |
| Store.PageNonEmptyIffWithinTotal | src/db_handler.py:116-156 | a page from 1 is non-empty exactly when it is at most the reported page count |
| Store.RemoveIdContents | src/db_handler.py:158-163 | the rows left are exactly those with another id |
| Store.RemoveAbsentId | src/db_handler.py:158-163 | deleting an id that is not stored changes nothing |
| Store.RemoveUniqueId | src/db_handler.py:158-163 | deleting a stored id among unique ids removes exactly one row |
| Store.RemoveIdSubsequence | src/db_handler.py:158-163 | deleting rows keeps ids and timestamps increasing |
| Store.DeleteAnalysisRemovesOnlyThatId | src/db_handler.py:158-163 | `delete_analysis` keeps exactly the rows with another id, removes one row when the id is stored and none otherwise, and leaves products and reviews alone |
| Store.DeleteAnalysisPreservesValid | src/db_handler.py:158-163 | `delete_analysis` keeps the store invariant |
| Store.RootHandlerStoresAndReturnsBatch | db_handler.py:6-70 | on any file the root handler can add a product and its batch, and `get_reviews` then ends with exactly that batch |
| Store.ReviewsOfMembers | src/db_handler.py:84-91 | as a multiset, `get_reviews(pid)` holds each view exactly as many times as there are stored rows with that product id and that view; so its members are exactly those views |
| Store.MatchingSnoc | src/db_handler.py:84-91 | appending a row adds one matching position exactly when it is stored under `pid` with that view |
| Store.DatabaseHandler.Open | src/db_handler.py:8-12 | the handler's state is the file's data after the variant's table creation (db_handler.py:6-8 for the root variant) |
| Store.DatabaseHandler.InitDatabase | src/db_handler.py:14-51 | adds the schema's tables and nothing else |
| Store.DatabaseHandler.AddProduct | src/db_handler.py:55-64 | moves the state and returns the id exactly as `Db.AddProduct` (db_handler.py:34-43 is the same) |
| Store.DatabaseHandler.AddReviews | src/db_handler.py:66-78 | moves the state exactly as `Db.AddReviews` (db_handler.py:45-57 is the same) |
| Store.DatabaseHandler.GetReviews | src/db_handler.py:80-91 | returns `Db.GetReviews`; as a collection, exactly the stored reviews of that product (db_handler.py:59-70 is the same) |
| Store.DatabaseHandler.AddAnalysis | src/db_handler.py:93-114 | moves the state exactly as `Db.AddAnalysis` |
| Store.DatabaseHandler.GetAnalyses | src/db_handler.py:116-148 | fails iff the table is missing or some row of the page has empty counts; otherwise one dict per row of the page, newest first, each `ViewOf` the row |
| Store.DatabaseHandler.GetTotalPages | src/db_handler.py:150-156 | returns `Db.TotalPages`, the ceiling of records / per_page for a positive size; zero size is the ZeroDivisionError |
| Store.DatabaseHandler.DeleteAnalysis | src/db_handler.py:158-163 | moves the state exactly as `Db.DeleteAnalysis` |
| Browser.StateUtilitiesOptions | StateUtilities.py:62-87 | headless, the user agent, eager loading and the six content prefs; the adblock extension is present iff the path is given, non-empty and exists |
| Browser.CustomDriverOptions | custom_driver.py:22-32 | not headless, the user agent, eager loading, no prefs and no extension |
| Browser.Driver.constructor | StateUtilities.py:90 | a new driver has the options it was built with and has done nothing yet |
| Browser.Driver.Perform | Scraper.py:32-42 | each call on the driver is appended to its action trace |
| Browser.FailuresFrom | StateUtilities.py:61-97 | counts consecutive WebDriverException attempts from a point, capped at 5; the attempt after them is not one |
| Browser.Failures | StateUtilities.py:58-97 | the number of leading WebDriverException attempts, at most 5 |
| Browser.StartCases | StateUtilities.py:89-99 | exactly one of: success on attempt `Failures`, a foreign exception on it, or five failures |
| Browser.FailuresFromOnlyFirstFive | StateUtilities.py:58-61 | the outcome depends only on the first five attempts |
| Browser.InitDriver | StateUtilities.py:58-99 | one 2 s pause per failure; a driver with that attempt's options iff attempt `Failures` < 5 succeeded; "Max retries reached" iff five failures; any other exception escapes on its attempt (custom_driver.py:18-44 is the same loop) |
| Browser.Lookup | StateUtilities.py:37-38 | a dict lookup finds a value iff the key is present, and the pair is in the dict |
| Browser.ToDictRoundTrip | StateUtilities.py:19-38 | `to_dict` has exactly the keys url, url_id and url_class, holding the values given to the constructor |
| Scraper.ExtractReviewData | Scraper.py:12-19 | None exactly for a stale element; any other exception escapes; otherwise the stripped text with rating None (Scrapper.py:14-22 is the same) |
| Scraper.CollectFailsIffMissingContent | Scraper.py:44-47 | the loop raises exactly when some element lacks its content child |
| Scraper.CollectCount | Scraper.py:44-47 | when the loop completes, the collected count is the element count minus stale minus blank elements |
| Scraper.CollectKeepsStrippedTexts | Scraper.py:44-47 | every collected review has a non-empty stripped text and no rating |
| Scraper.CollectAppend | Scraper.py:44-47 | collecting a concatenation concatenates the collections, in document order |
| Scraper.CollectFailsFromPrefix | Scraper.py:44-47 | once an element raised, the whole loop fails |
| Scraper.ScrollActions | Scraper.py:21-25 | `max_scrolls` scroll-and-2 s-sleep pairs, none for a non-positive count |
| Scraper.ScrollCount | Scraper.py:21-25 | exactly n scrolls and n sleeps of 2 s |
| Scraper.ScrollToLoadReviews | Scraper.py:21-25 | the driver performs exactly the scroll actions after what it did before (Scrapper.py:25-29 is the same) |
| Scraper.ScraperResult | Scraper.py:50-60 | Scraper.py returns a list exactly when scraping completed with a non-empty list, and then that list |
| Scraper.ScrapperResult | Scrapper.py:57-69 | Scrapper.py returns None exactly on a timeout (of `driver.get` or of the wait), [] on any other exception, and the collected list, possibly empty, otherwise |
| Scraper.ExtractAll | Scraper.py:41-48 | the loop over the elements computes `Collect` |
| Scraper.ScrapePage | Scraper.py:27-60 | the store, the outcome and the driver's actions are exactly those of `ScrapeSpec` (Scrapper.py:32-69 runs the same steps) |
| Scraper.ScrapeReviewSection | Scraper.py:39-56 | scrolling, finding, extracting and storing move store, outcome and actions exactly as `SectionSpec` |
| Scraper.ProductStoredOnceNavigated | Scraper.py:32-37 | once `driver.get` returned, the product row exists whatever follows, a timeout of the wait included |
| Scraper.ReviewsStoredIffScraperReturnsList | Scraper.py:50-53 | reviews are written iff a list is returned; then the rows appended are that list, in order, under the product's id; otherwise the reviews table is unchanged |
| Scraper.AppendedBatch | Scraper.py:50-51 | the rows `add_reviews` appends carry the product id, text and rating of each review of the list |
| Scraper.ScraperListCase | Scraper.py:50-53 | a returned list is the non-empty collected batch, stored by a successful `add_reviews` |
| Scraper.ScraperNoListCase | Scraper.py:54-60 | without a returned list no review row was written |
| Scraper.MissingContentStoresNothing | Scraper.py:44-60 | an element without content aborts the batch: nothing stored, Scraper.py returns None and Scrapper.py returns [] |
| Scraper.ScrapperReturnsCollected | Scrapper.py:57-66 | Scrapper.py returns the collected list once the page loaded, and None on a timeout of `driver.get` or of the wait |
| Scraper.NavigationTimeoutStoresNothing | Scrapper.py:37-66 | a `TimeoutException` from `driver.get` reaches the timeout handler before `add_product`: the store is unchanged and both scrapers return None (Scraper.py:32-33, 57-58) |
| Scraper.ScrapeNeverQuits | Scraper.py:27-60 | the scrape never quits the driver; a loaded page performs navigate, wait, five scroll pairs and the element search |
| Scraper.QuitExactlyOnce | Scraper.py:74-75 | with the `finally`, the driver is quit exactly once |
| Scraper.RunSession | Scraper.py:62-75 | a driver exists iff `init_driver` succeeded, and otherwise nothing else ran; then its actions are the scrape's followed by exactly one quit, the store is the scrape's and the result is the entry point's return value (Scrapper.py:72-91 with its fixed url) |
| App.ProductName | src/app.py:28 | the part after the last '/': no '/', a suffix of the url, the whole url iff it has no '/', empty iff the url is empty or ends in '/' |
| App.ProductNameAfterLastSlash | src/app.py:28 | whatever precedes the last '/', the product name is what follows it |
| App.DefaultProductName | src/app.py:28 | the default product url yields "-i433806826-s2091231443.html" |
| App.BuildAnalysisData | src/app.py:26-39 | url, product name and timestamp as given; `total_reviews` equals the number of snapshots and of processed reviews; order, text and sentiment kept; highlight iff the text is longer than 50; statistics copied unchanged |
| App.Analyze | src/app.py:14-53 | the store and the response are exactly those of `AnalyzeSpec` |
| App.AnalyzeResponses | src/app.py:20-53 | 404 with the fixed message iff nothing was found; 500 with the exception text when processing raised; otherwise 200 iff the save succeeded and 500 "Failed to save analysis" iff it failed; the status code is 404, 200 or 500 in exactly those cases; a non-200 leaves the store unchanged |
| App.SuccessAppendsRecord | src/app.py:41-46 | a 200 appends exactly one history row holding the url, product name, counts, average and a review count equal to its snapshots; products and reviews untouched |
| App.PercentOrder | src/db_handler.py:136 | scaling counts to percentages of a positive total keeps their order |
| App.FirstMaxOfPercentages | src/db_handler.py:135-136 | the first maximal percentage is at the position of the first maximal count |
| App.FirstMaxByOrderOnly | src/db_handler.py:136 | the first maximal entry depends only on how the values compare |
| App.ModeReadBack | src/db_handler.py:135-136 | the most common sentiment recomputed from the stored percentages is the one `calculate_sentiment_stats` picked |
| App.SavedAnalysisReadsBack | src/app.py:41-42 | a saved analysis reads back with the same most common sentiment, a review count equal to its snapshots, an average in [1, 5], and percentages summing to 100 under distinct keys |

## Left out

- Selenium is not modelled. Navigation, the 60-second wait and `find_elements` are one abstract `PageLoad`. Each element's fate is an `Element` value. `webdriver.Chrome` construction is an oracle over attempt numbers. The random user agent of each attempt is a parameter. `os.path.exists` is a predicate argument.
- The BERT classifier (tokenizer, model, argmax) and TextBlob polarity are foreign computations. They are a function parameter returning a label index, and a `real` argument.
- Floating point is not modelled. Averages and percentages are exact `real`s, so "sums to 100" holds exactly here and only up to rounding in Python.
- `datetime.now()` and CURRENT_TIMESTAMP: a logical clock that ticks once per committed insert or update that stamps a row stands for both; `delete_analysis` and `init_database` do not tick it. The formatted timestamp of the analysis record is a parameter of `App.Analyze`.
- Store.DatabaseHandler.GetAnalyses: the returned dicts have no `timestamp`. src/db_handler.py:130 parses `row[6]`, which is the `reviews` column, so the value is in practice always the `datetime.now()` fallback. The model has no wall clock to return.
- Store.Db.GetReviews: rows come back in rowid order, while the SQL has no ORDER BY. `Store.ReviewsOfMembers` states the order-free fact, multiset equality with the matching rows, that holds for any order.
- JSON text is not modelled. `json.dumps`/`json.loads` of the counts and of the review snapshots are one stored value, and a round trip is the identity.
- The SQLite file is not modelled: connections, the file-existence check racing with other processes, and the foreign key, which is not enforced.
- `print` output is left out. main.py's `process_reviews` is modelled through what it classifies and the statistics it prints.
- Sentiment.ProcessReviews and Sentiment.ConsoleProcessReviews take what `get_reviews` returned as a parameter. src/main.py imports it from a module `scraper` that is not part of this repository.
- A review dict without `text` cannot occur in the model. The scraper always sets the key, so the KeyError of `review['text']` is not modelled.
- A request without the `product_url` field (where `url` is None and `url.split` raises) is not modelled. The url is a string.
- Scraper.RunSession: the outer `except` of `get_reviews` and `main` is not modelled. It could only catch an exception from `scrape_reviews`, which catches everything itself.
- Scraper.RunSession opens the root store and uses the custom_driver.py options, which is what both scrapers import. The StateUtilities.py options are modelled by `Browser.StateUtilitiesOptions` but no entry point uses them.
- A `TimeoutException` from `driver.get` itself is the `NavigationTimedOut` load and reaches the timeout handler before the product is stored (`Scraper.NavigationTimeoutStoresNothing`). Any other exception raised while scraping (an `OperationalError`, a lost session, and so on) is the `NavigationFailed` or `PageError` load or a store failure. Each of those is mapped to the generic `except` branch.
- Store.DatabaseHandler: the root db_handler.py has no `add_analysis`, `get_analyses`, `get_total_pages` or `delete_analysis`. Calling them on that object raises `AttributeError`. The model's class offers them for both variants, and on a root store without the history table they fail with `NoSuchTable(HistoryTable)` instead. No modelled caller uses them on a root store.
- `URLElement.__str__`/`__repr__` and `get_current_ip` are formatting and I/O.
- src/custom_driver.py, src/database.py, src/utils/reset_db.py, Taqi.py, App.py and the other Flask routes are not part of this model. They hold no logic beyond library calls, templates and file deletion. Taqi.py's label table is the one already modelled.
