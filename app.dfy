/**
 * The `/analyze` POST route of src/app.py: run `process_reviews` on the submitted url,
 * answer 404 when it found nothing, otherwise build the analysis record, save it with
 * `add_analysis` and answer with it; a failing save is a 500 with a fixed message, any
 * other exception a 500 with the exception's text.
 *
 * What `process_reviews` did is a parameter (`Err(text)` when it raised), and so is the
 * formatted `datetime.now()`.
 */
module App {
  import opened Wrappers
  import opened Collections
  import opened Records
  import opened Text
  import opened Sentiment
  import Store

  /** `url.split('/')[-1]`. */
  function ProductName(url: string): (name: string)
    ensures '/' !in name
    ensures |name| <= |url| && url[|url| - |name|..] == name
    ensures name == url <==> '/' !in url
    ensures name == "" <==> url == "" || url[|url| - 1] == '/'
    ensures |name| < |url| ==> url[|url| - |name| - 1] == '/'
  {
    LastPieceIsSuffix(url, '/');
    var parts := Split(url, '/');
    var name := parts[|parts| - 1];
    assert name != [] ==> name[|name| - 1] == url[|url| - 1] && name[|name| - 1] in name;
    name
  }

  /** The name is everything after the last slash. */
  lemma ProductNameAfterLastSlash(prefix: string, name: string)
    requires '/' !in name
    ensures ProductName(prefix + "/" + name) == name
  {
    SplitAppend(prefix, name, '/');
    assert prefix + ['/'] + name == prefix + "/" + name;
  }

  /** The default product url yields its last path segment. */
  lemma DefaultProductName()
    ensures ProductName("https://www.daraz.pk/products/-i433806826-s2091231443.html") == "-i433806826-s2091231443.html"
  {
    var name := "-i433806826-s2091231443.html";
    DefaultSegmentHasNoSlash(name);
    DefaultUrlSplits(name);
    ProductNameAfterLastSlash("https://www.daraz.pk/products", name);
  }

  lemma DefaultSegmentHasNoSlash(name: string)
    requires name == "-i433806826-s2091231443.html"
    ensures '/' !in name
  {
  }

  lemma DefaultUrlSplits(name: string)
    requires name == "-i433806826-s2091231443.html"
    ensures "https://www.daraz.pk/products/-i433806826-s2091231443.html" == "https://www.daraz.pk/products" + "/" + name
  {
  }

  /** Reviews longer than this many characters are marked as highlights. */
  const HighlightLength: nat := 50

  /** The `analysis_data` dict the route builds and returns. */
  datatype AnalysisData = AnalysisData(
    url: string,
    productName: string,
    sentimentCounts: seq<(string, real)>,
    averageRating: real,
    totalReviews: int,
    reviews: seq<SnapshotReview>,
    mostCommonSentiment: string,
    timestamp: string)

  function SnapshotOf(p: ProcessedReview): SnapshotReview
  {
    SnapshotReview(p.text, p.sentiment, |p.text| > HighlightLength)
  }

  /**
   * The record of one analysis: one snapshot per processed review in the same order,
   * `total_reviews` their number, and the statistics carried over unchanged.
   */
  function BuildAnalysisData(url: string, a: Analysis, now: string): (data: AnalysisData)
    ensures data.url == url && data.productName == ProductName(url) && data.timestamp == now
    ensures data.totalReviews == |data.reviews| == |a.reviews|
    ensures forall i :: 0 <= i < |a.reviews| ==>
      data.reviews[i].text == a.reviews[i].text && data.reviews[i].sentiment == a.reviews[i].sentiment
      && (data.reviews[i].highlight <==> |a.reviews[i].text| > HighlightLength)
    ensures data.sentimentCounts == a.sentimentDistribution && data.averageRating == a.averageScore
    ensures data.mostCommonSentiment == a.mostCommon
  {
    var snapshots := seq(|a.reviews|, i requires 0 <= i < |a.reviews| => SnapshotOf(a.reviews[i]));
    AnalysisData(url, ProductName(url), a.sentimentDistribution, a.averageScore, |snapshots|, snapshots, a.mostCommon, now)
  }

  /** The dict handed to `add_analysis`: every key it reads is present. */
  function InputOf(data: AnalysisData): Store.AnalysisInput
  {
    Store.AnalysisInput(Some(data.productName), Some(data.sentimentCounts), Some(data.averageRating),
                        Some(data.totalReviews), Some(data.reviews))
  }

  const NoReviewsMessage: string := "No reviews found. Please check the URL and try again."
  const SaveFailedMessage: string := "Failed to save analysis"

  datatype Response =
    | Success(data: AnalysisData)   // 200 {'success': True, 'data': ...}
    | NotFound(message: string)     // 404 {'error': ...}
    | ServerError(message: string)  // 500 {'error': ...}

  function StatusCode(r: Response): int
  {
    match r
    case Success(_) => 200
    case NotFound(_) => 404
    case ServerError(_) => 500
  }

  /** The store after the request and the response sent. */
  datatype Served = Served(db: Store.Db, response: Response)

  function AnalyzeSpec(d: Store.Db, url: string, processed: Result<Option<Analysis>, string>, now: string): Served
  {
    match processed
    case Err(e) => Served(d, ServerError(e))
    case Ok(None) => Served(d, NotFound(NoReviewsMessage))
    case Ok(Some(a)) =>
      var data := BuildAnalysisData(url, a, now);
      var s := d.AddAnalysis(url, InputOf(data));
      if s.result.Err? then Served(s.db, ServerError(SaveFailedMessage)) else Served(s.db, Success(data))
  }

  method Analyze(url: string, processed: Result<Option<Analysis>, string>, now: string, db: Store.DatabaseHandler)
    returns (response: Response)
    modifies db
    ensures Served(db.State(), response) == AnalyzeSpec(old(db.State()), url, processed, now)
  {
    if processed.Err? {
      return ServerError(processed.error);
    }
    if processed.value.None? {
      return NotFound(NoReviewsMessage);
    }
    var data := BuildAnalysisData(url, processed.value.value, now);
    var saved := db.AddAnalysis(url, InputOf(data));
    if saved.Err? {
      return ServerError(SaveFailedMessage);
    }
    return Success(data);
  }

  // ---------------------------------------------------------------------------
  // Properties of the route

  /**
   * The three answers: 404 with the fixed message exactly when nothing was found, a 500
   * with the exception text when processing raised, and otherwise 200 exactly when the
   * analyses table exists (the save attempted once), 500 "Failed to save analysis" when not.
   * The status codes follow the same cases. A request that is not answered 200 leaves
   * the store as it was.
   */
  lemma AnalyzeResponses(d: Store.Db, url: string, processed: Result<Option<Analysis>, string>, now: string)
    ensures var served := AnalyzeSpec(d, url, processed, now);
      && (served.response == NotFound(NoReviewsMessage) <==> processed == Ok(None))
      && (processed.Err? ==> served.response == ServerError(processed.error))
      && (processed.Ok? && processed.value.Some? ==>
            && (served.response.Success? <==> Store.HistoryTable in d.tables)
            && (served.response == ServerError(SaveFailedMessage) <==> Store.HistoryTable !in d.tables))
      && (StatusCode(served.response) == 404 <==> processed == Ok(None))
      && (StatusCode(served.response) == 200 <==> processed.Ok? && processed.value.Some? && Store.HistoryTable in d.tables)
      && (StatusCode(served.response) == 500 <==> processed.Err? || (processed.value.Some? && Store.HistoryTable !in d.tables))
      && (!served.response.Success? ==> served.db == d)
  {
  }

  /**
   * A successful request appends exactly one history row: the url, the product name,
   * the counts and average of the analysis, and a review count equal to the number of
   * snapshots stored with it. Products and reviews are untouched.
   */
  lemma SuccessAppendsRecord(d: Store.Db, url: string, a: Analysis, now: string)
    requires d.Valid() && Store.HistoryTable in d.tables
    ensures var served := AnalyzeSpec(d, url, Ok(Some(a)), now);
      && served.response == Success(BuildAnalysisData(url, a, now))
      && |served.db.history| == |d.history| + 1
      && served.db.history[..|d.history|] == d.history
      && var row := served.db.history[|d.history|];
      && row.url == url && row.productName == ProductName(url)
      && row.sentimentCounts == a.sentimentDistribution && row.averageRating == a.averageScore
      && row.reviewCount == |row.reviews| == |a.reviews|
      && (forall i :: 0 <= i < |a.reviews| ==> row.reviews[i].text == a.reviews[i].text && row.reviews[i].sentiment == a.reviews[i].sentiment)
      && served.db.products == d.products && served.db.reviews == d.reviews
      && served.db.Valid()
  {
    Store.AddAnalysisAppendsOneRow(d, url, InputOf(BuildAnalysisData(url, a, now)));
  }

  /** Dividing by a positive total and scaling to percent keeps the order of two counts. */
  lemma PercentOrder(a: real, b: real, n: real)
    requires n > 0.0
    ensures (a / n) * 100.0 <= (b / n) * 100.0 <==> a <= b
  {
    var x, y := a / n, b / n;
    assert x * n == a && y * n == b;
    if x <= y { assert x * n <= y * n; }
    if a <= b { assert x * n <= y * n; }
  }

  /**
   * Scaling counts into percentages keeps the first maximal entry: the most common
   * label read back from the percentages is the one picked from the counts.
   */
  lemma FirstMaxOfPercentages(c: seq<(string, nat)>, n: nat)
    requires n > 0 && |c| > 0
    ensures FirstMaxIndex(Store.CountsOf(Distribution(c, n))) == FirstMaxIndex(CountValues(c))
  {
    PercentagesOrderLikeCounts(c, n);
    FirstMaxByOrderOnly(Store.CountsOf(Distribution(c, n)), CountValues(c));
  }

  lemma PercentagesOrderLikeCounts(c: seq<(string, nat)>, n: nat)
    requires n > 0
    ensures var u, v := Store.CountsOf(Distribution(c, n)), CountValues(c);
      |u| == |v| && forall i, l :: 0 <= i < |v| && 0 <= l < |v| ==> (u[i] <= u[l] <==> v[i] <= v[l])
  {
    var u, v := Store.CountsOf(Distribution(c, n)), CountValues(c);
    forall i, l | 0 <= i < |v| && 0 <= l < |v| ensures u[i] <= u[l] <==> v[i] <= v[l] {
      assert u[i] == (v[i] / n as real) * 100.0 && u[l] == (v[l] / n as real) * 100.0;
      PercentOrder(v[i], v[l], n as real);
    }
  }

  /** The first maximal index depends only on how the entries compare. */
  lemma FirstMaxByOrderOnly(u: seq<real>, v: seq<real>)
    requires |u| == |v| > 0
    requires forall i, l :: 0 <= i < |v| && 0 <= l < |v| ==> (u[i] <= u[l] <==> v[i] <= v[l])
    ensures FirstMaxIndex(u) == FirstMaxIndex(v)
  {
    var j, k := FirstMaxIndex(u), FirstMaxIndex(v);
    assert v[k] <= v[j] && v[j] <= v[k];
    assert u[j] <= u[k];
  }

  /**
   * The most common sentiment `get_analyses` recomputes from the stored percentages is
   * the one `calculate_sentiment_stats` picked from the counts.
   */
  lemma ModeReadBack(sentiments: seq<string>)
    requires CalculateSentimentStats(sentiments).Ok?
    ensures var st := CalculateSentimentStats(sentiments).value;
      st.distribution != [] && st.distribution[FirstMaxIndex(Store.CountsOf(st.distribution))].0 == st.mostCommon
  {
    StatsComponents(sentiments);
    var c := Tally(sentiments);
    TallyIsCounter(sentiments);
    assert |c| > 0 by {
      assert sentiments[0] in sentiments;
    }
    FirstMaxOfPercentages(c, |sentiments|);
  }

  /**
   * A saved analysis reads back through `get_analyses` with the same most common
   * sentiment the route answered with, a review count equal to its snapshots, an
   * average between 1 and 5, and percentages summing to 100 under distinct keys (as the
   * dict `json.loads` rebuilds has), provided the analysis is what `process_reviews`
   * computes from its reviews.
   */
  lemma SavedAnalysisReadsBack(d: Store.Db, url: string, a: Analysis, now: string)
    requires d.Valid() && Store.HistoryTable in d.tables
    requires CalculateSentimentStats(Sentiments(a.reviews)) == Ok(Stats(a.averageScore, a.sentimentDistribution, a.mostCommon))
    ensures var served := AnalyzeSpec(d, url, Ok(Some(a)), now);
      && |served.db.history| == |d.history| + 1
      && var view := Store.ViewOf(served.db.history[|d.history|]);
      && view.Ok?
      && view.value.mostCommonSentiment == a.mostCommon == served.response.data.mostCommonSentiment
      && view.value.reviewCount == |a.reviews|
      && 1.0 <= view.value.averageRating <= 5.0
      && SumValues(view.value.sentimentCounts) == 100.0
      && DistinctKeys(view.value.sentimentCounts)
  {
    var s := Sentiments(a.reviews);
    SuccessAppendsRecord(d, url, a, now);
    AverageScoreInRange(s);
    DistributionSumsTo100(s);
    DistributionShape(s);
    ModeReadBack(s);
  }
}
