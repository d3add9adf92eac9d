/**
 * The review store: `DatabaseHandler` of src/db_handler.py and its two-table subset in
 * db_handler.py, with the SQLite file replaced by an in-memory value.
 *
 * The value `Db` holds the three tables as sequences in insertion (rowid) order, the
 * AUTOINCREMENT counters and a logical clock standing for `datetime.now()` and
 * CURRENT_TIMESTAMP: every committed write stamps its rows with the next tick. A table
 * that was never created makes every statement on it fail (`NoSuchTable`), and a failed
 * operation leaves the state as it was, as the `with sqlite3.connect(...)` block rolls
 * back. The class `DatabaseHandler` keeps the same state in fields; each of its methods
 * is proved to move that state exactly as the corresponding `Db` function does.
 */
module Store {
  import opened Wrappers
  import opened Collections
  import opened Records

  datatype Table = ProductsTable | ReviewsTable | HistoryTable

  /** The tables `init_database` of db_handler.py creates. */
  const RootSchema: set<Table> := {ProductsTable, ReviewsTable}
  /** The tables `init_database` of src/db_handler.py creates. */
  const FullSchema: set<Table> := {ProductsTable, ReviewsTable, HistoryTable}

  datatype Product = Product(id: int, url: string, lastScraped: nat)
  datatype ReviewRow = ReviewRow(id: int, productId: int, text: string, rating: Option<int>, timestamp: nat)
  datatype AnalysisRow = AnalysisRow(
    id: int,
    url: string,
    productName: string,
    sentimentCounts: seq<(string, real)>,
    averageRating: real,
    reviewCount: int,
    reviews: seq<SnapshotReview>,
    timestamp: nat)

  /** One dict of the list `get_reviews` returns. */
  datatype ReviewView = ReviewView(text: string, rating: Option<int>, timestamp: nat)

  /** The `results` dict given to `add_analysis`; `None` is a missing key. */
  datatype AnalysisInput = AnalysisInput(
    productName: Option<string>,
    sentimentCounts: Option<seq<(string, real)>>,
    averageRating: Option<real>,
    totalReviews: Option<int>,
    reviews: Option<seq<SnapshotReview>>)

  /** One dict of the list `get_analyses` returns (its `timestamp` is not modelled). */
  datatype AnalysisView = AnalysisView(
    id: int,
    url: string,
    productName: string,
    sentimentCounts: seq<(string, real)>,
    mostCommonSentiment: string,
    averageRating: real,
    reviewCount: int)

  datatype DbError =
    | NoSuchTable(table: Table)   // sqlite3.OperationalError: no such table
    | MissingKey(key: string)     // KeyError on the results dict
    | EmptyMax                    // ValueError: max() of an empty sequence
    | ZeroDivision                // ZeroDivisionError in get_total_pages

  /** The handler of src/db_handler.py, or the one of db_handler.py. */
  datatype Variant = SrcHandler | RootHandler

  /** The new state and what the call returned or raised. */
  datatype Step<T> = Step(db: Db, result: Result<T, DbError>)

  // ---------------------------------------------------------------------------
  // Row-level helpers

  /** The position of the first product with this url, or `|ps|` when there is none. */
  function IndexOfUrl(ps: seq<Product>, url: string): (k: nat)
    ensures k <= |ps|
    ensures k < |ps| ==> ps[k].url == url
    ensures forall j :: 0 <= j < k ==> ps[j].url != url
  {
    if ps == [] then 0
    else if ps[0].url == url then 0
    else 1 + IndexOfUrl(ps[1..], url)
  }

  /** The rows `executemany` inserts: consecutive ids, the batch's texts and ratings, one stamp. */
  function NewRows(batch: seq<RawReview>, pid: int, firstId: int, stamp: nat): (rows: seq<ReviewRow>)
    ensures |rows| == |batch|
    ensures forall i :: 0 <= i < |batch| ==> rows[i] == ReviewRow(firstId + i, pid, batch[i].text, batch[i].rating, stamp)
  {
    seq(|batch|, i requires 0 <= i < |batch| => ReviewRow(firstId + i, pid, batch[i].text, batch[i].rating, stamp))
  }

  /** `UPDATE products SET last_scraped = stamp WHERE id = pid`. */
  function Touch(ps: seq<Product>, pid: int, stamp: nat): (qs: seq<Product>)
    ensures |qs| == |ps|
    ensures forall i :: 0 <= i < |ps| ==> qs[i] == if ps[i].id == pid then ps[i].(lastScraped := stamp) else ps[i]
  {
    seq(|ps|, i requires 0 <= i < |ps| => if ps[i].id == pid then ps[i].(lastScraped := stamp) else ps[i])
  }

  function ViewOfReview(r: ReviewRow): ReviewView
  {
    ReviewView(r.text, r.rating, r.timestamp)
  }

  /** `SELECT review_text, rating, timestamp FROM reviews WHERE product_id = pid`, in rowid order. */
  function ReviewsOf(rows: seq<ReviewRow>, pid: int): seq<ReviewView>
  {
    if rows == [] then []
    else
      var last := rows[|rows| - 1];
      ReviewsOf(rows[..|rows| - 1], pid) + (if last.productId == pid then [ViewOfReview(last)] else [])
  }

  /** `DELETE FROM analysis_history WHERE id = id`. */
  function RemoveId(rows: seq<AnalysisRow>, id: int): seq<AnalysisRow>
  {
    if rows == [] then []
    else
      var last := rows[|rows| - 1];
      RemoveId(rows[..|rows| - 1], id) + (if last.id == id then [] else [last])
  }

  /** The history newest first: `ORDER BY timestamp DESC` over strictly increasing stamps. */
  function Reverse<T>(s: seq<T>): (r: seq<T>)
    ensures |r| == |s|
    ensures forall k :: 0 <= k < |s| ==> r[k] == s[|s| - 1 - k]
  {
    seq(|s|, k requires 0 <= k < |s| => s[|s| - 1 - k])
  }

  /** The OFFSET SQLite applies: a negative offset counts as zero. */
  function Offset(page: int, perPage: int): nat
  {
    var o := (page - 1) * perPage;
    if o < 0 then 0 else o
  }

  /**
   * `LIMIT perPage OFFSET (page - 1) * perPage`: a negative limit means no limit, a
   * negative offset counts as zero.
   */
  function PageRows<T>(rows: seq<T>, page: int, perPage: int): seq<T>
  {
    var start := if Offset(page, perPage) < |rows| then Offset(page, perPage) else |rows|;
    var end := if perPage < 0 || start + perPage > |rows| then |rows| else start + perPage;
    rows[start..end]
  }

  /** Python's `a // b`, which rounds toward negative infinity. */
  function FloorDiv(a: int, b: int): int
    requires b != 0
  {
    if b > 0 then a / b else (-a) / (-b)
  }

  /** The count values `max` compares. */
  function CountsOf(entries: seq<(string, real)>): (vals: seq<real>)
    ensures |vals| == |entries| && forall i :: 0 <= i < |entries| ==> vals[i] == entries[i].1
  {
    seq(|entries|, i requires 0 <= i < |entries| => entries[i].1)
  }

  /**
   * One row of `get_analyses` as a dict: the stored counts unchanged, and as
   * `most_common_sentiment` the first key of maximal count; an empty dict raises.
   */
  function ViewOf(row: AnalysisRow): (r: Result<AnalysisView, DbError>)
    ensures r.Err? <==> row.sentimentCounts == []
    ensures r.Err? ==> r.error == EmptyMax
    ensures r.Ok? ==>
      var v := r.value;
      var c := row.sentimentCounts;
      && v.id == row.id && v.url == row.url && v.productName == row.productName
      && v.sentimentCounts == c && v.averageRating == row.averageRating && v.reviewCount == row.reviewCount
      && (exists k :: 0 <= k < |c| && c[k].0 == v.mostCommonSentiment
            && (forall i :: 0 <= i < |c| ==> c[i].1 <= c[k].1)
            && (forall i :: 0 <= i < k ==> c[i].1 < c[k].1))
  {
    var c := row.sentimentCounts;
    if c == [] then Err(EmptyMax)
    else
      var k := FirstMaxIndex(CountsOf(c));
      Ok(AnalysisView(row.id, row.url, row.productName, c, c[k].0, row.averageRating, row.reviewCount))
  }

  // ---------------------------------------------------------------------------
  // The store as a value

  datatype Db = Db(
    tables: set<Table>,
    products: seq<Product>,
    reviews: seq<ReviewRow>,
    history: seq<AnalysisRow>,
    nextProductId: int,
    nextReviewId: int,
    nextAnalysisId: int,
    clock: nat)
  {
    /** Product ids are increasing and below the counter, urls are unique, stamps are in the past. */
    ghost predicate ProductsValid()
    {
      && (forall i :: 0 <= i < |products| ==> 1 <= products[i].id < nextProductId && products[i].lastScraped <= clock)
      && (forall i, j :: 0 <= i < j < |products| ==> products[i].id < products[j].id && products[i].url != products[j].url)
    }

    ghost predicate ReviewsValid()
    {
      && (forall i :: 0 <= i < |reviews| ==> 1 <= reviews[i].id < nextReviewId && reviews[i].timestamp <= clock)
      && (forall i, j :: 0 <= i < j < |reviews| ==> reviews[i].id < reviews[j].id)
    }

    /** History ids and stamps both strictly increase, so newest first is reverse insertion order. */
    ghost predicate HistoryValid()
    {
      && (forall i :: 0 <= i < |history| ==> 1 <= history[i].id < nextAnalysisId && history[i].timestamp <= clock)
      && (forall i, j :: 0 <= i < j < |history| ==> history[i].id < history[j].id && history[i].timestamp < history[j].timestamp)
    }

    ghost predicate Valid()
    {
      nextProductId >= 1 && nextReviewId >= 1 && nextAnalysisId >= 1
      && ProductsValid() && ReviewsValid() && HistoryValid()
    }

    /** `CREATE TABLE IF NOT EXISTS` for each table of the schema. */
    function InitDatabase(schema: set<Table>): Db
    {
      this.(tables := tables + schema)
    }

    /**
     * `add_product`: `INSERT OR IGNORE` then `SELECT id ... WHERE url = ?`. A known url
     * changes nothing; a new one gets the next id and the current stamp.
     */
    function AddProduct(url: string): Step<int>
    {
      if ProductsTable !in tables then Step(this, Err(NoSuchTable(ProductsTable)))
      else
        var k := IndexOfUrl(products, url);
        if k < |products| then Step(this, Ok(products[k].id))
        else
          var stamp := clock + 1;
          Step(this.(products := products + [Product(nextProductId, url, stamp)],
                     nextProductId := nextProductId + 1, clock := stamp),
               Ok(nextProductId))
    }

    /**
     * `add_reviews`: insert one row per review, then stamp the product with that id
     * (no row when there is none). The insert runs first, so a missing reviews table is
     * reported before a missing products table; either failure rolls back both.
     */
    function AddReviews(pid: int, batch: seq<RawReview>): Step<()>
    {
      if ReviewsTable !in tables then Step(this, Err(NoSuchTable(ReviewsTable)))
      else if ProductsTable !in tables then Step(this, Err(NoSuchTable(ProductsTable)))
      else
        var stamp := clock + 1;
        Step(this.(reviews := reviews + NewRows(batch, pid, nextReviewId, stamp),
                   nextReviewId := nextReviewId + |batch|,
                   products := Touch(products, pid, stamp),
                   clock := stamp),
             Ok(()))
    }

    /** `get_reviews`. */
    function GetReviews(pid: int): Result<seq<ReviewView>, DbError>
    {
      if ReviewsTable !in tables then Err(NoSuchTable(ReviewsTable)) else Ok(ReviewsOf(reviews, pid))
    }

    /**
     * `add_analysis`: the four required keys are read in argument order (the first
     * missing one raises before anything is written), `reviews` defaults to the empty
     * list, and the row is stamped with the current tick.
     */
    function AddAnalysis(url: string, input: AnalysisInput): Step<()>
    {
      if input.productName.None? then Step(this, Err(MissingKey("product_name")))
      else if input.sentimentCounts.None? then Step(this, Err(MissingKey("sentiment_counts")))
      else if input.averageRating.None? then Step(this, Err(MissingKey("average_rating")))
      else if input.totalReviews.None? then Step(this, Err(MissingKey("total_reviews")))
      else if HistoryTable !in tables then Step(this, Err(NoSuchTable(HistoryTable)))
      else
        var stamp := clock + 1;
        var row := AnalysisRow(nextAnalysisId, url, input.productName.value, input.sentimentCounts.value,
                               input.averageRating.value, input.totalReviews.value, input.reviews.GetOr([]), stamp);
        Step(this.(history := history + [row], nextAnalysisId := nextAnalysisId + 1, clock := stamp), Ok(()))
    }

    /** The rows of one page of `get_analyses`, newest first. */
    function AnalysisPage(page: int, perPage: int): seq<AnalysisRow>
    {
      PageRows(Reverse(history), page, perPage)
    }

    /** `get_total_pages`: `(total + per_page - 1) // per_page`. */
    function TotalPages(perPage: int): Result<int, DbError>
    {
      if HistoryTable !in tables then Err(NoSuchTable(HistoryTable))
      else if perPage == 0 then Err(ZeroDivision)
      else Ok(FloorDiv(|history| + perPage - 1, perPage))
    }

    /** `delete_analysis`. */
    function DeleteAnalysis(id: int): Step<()>
    {
      if HistoryTable !in tables then Step(this, Err(NoSuchTable(HistoryTable)))
      else Step(this.(history := RemoveId(history, id)), Ok(()))
    }
  }

  /** A file that was never created: no tables, no rows, counters at their start. */
  const Empty: Db := Db({}, [], [], [], 1, 1, 1, 0)

  /**
   * The store a freshly constructed handler sees, given the file it opens (`None` when
   * the file does not exist). The src handler creates its three tables only for a new
   * file; the root handler runs its two `CREATE TABLE IF NOT EXISTS` every time.
   */
  function Opened(file: Option<Db>, variant: Variant): Db
  {
    match variant
    case SrcHandler => if file.None? then Empty.InitDatabase(FullSchema) else file.value
    case RootHandler => file.GetOr(Empty).InitDatabase(RootSchema)
  }

  // ---------------------------------------------------------------------------
  // Properties of the store

  /** Opening keeps every row of an existing file; only missing tables are created. */
  lemma OpeningKeepsData(file: Option<Db>, variant: Variant)
    ensures var d := Opened(file, variant);
      && (file.Some? ==> d.products == file.value.products && d.reviews == file.value.reviews && d.history == file.value.history)
      && (file.Some? ==> file.value.tables <= d.tables)
      && (variant == RootHandler ==> RootSchema <= d.tables)
      && (file.None? ==> d.products == [] && d.reviews == [] && d.history == [])
      && (file.None? && variant == SrcHandler ==> d.tables == FullSchema)
      && (file.Some? && variant == SrcHandler ==> d == file.value)
  {
  }

  /** Running `init_database` again changes nothing. */
  lemma InitDatabaseIdempotent(d: Db, schema: set<Table>)
    ensures d.InitDatabase(schema).InitDatabase(schema) == d.InitDatabase(schema)
  {
  }

  lemma EmptyIsValid()
    ensures Empty.Valid()
  {
  }

  /** `add_product` answers with the id of the product holding the url. */
  lemma AddProductReturnsItsRow(d: Db, url: string)
    ensures var s := d.AddProduct(url);
      && (s.result.Ok? <==> ProductsTable in d.tables)
      && (s.result.Err? ==> s.db == d && s.result.error == NoSuchTable(ProductsTable))
      && (s.result.Ok? ==> exists i :: 0 <= i < |s.db.products| && s.db.products[i].url == url && s.db.products[i].id == s.result.value)
  {
    var s := d.AddProduct(url);
    if ProductsTable in d.tables {
      var k := IndexOfUrl(d.products, url);
      if k == |d.products| {
        assert s.db.products[k].url == url;
      }
    }
  }

  /** A second `add_product` of the same url returns the same id and changes nothing. */
  lemma AddProductIdempotent(d: Db, url: string)
    ensures var s := d.AddProduct(url);
      s.db.AddProduct(url) == s
  {
    var s := d.AddProduct(url);
    if ProductsTable in d.tables && IndexOfUrl(d.products, url) == |d.products| {
      var ps := s.db.products;
      assert forall j :: 0 <= j < |d.products| ==> ps[j] == d.products[j];
      assert ps[|d.products|].url == url;
    }
  }

  /**
   * A url not yet stored creates exactly one product, stamped now, whose id differs from
   * every existing id; the other tables are untouched.
   */
  lemma AddProductFresh(d: Db, url: string)
    requires d.Valid() && ProductsTable in d.tables
    requires forall i :: 0 <= i < |d.products| ==> d.products[i].url != url
    ensures var s := d.AddProduct(url);
      && s.result.Ok?
      && s.db.products == d.products + [Product(s.result.value, url, d.clock + 1)]
      && (forall i :: 0 <= i < |d.products| ==> d.products[i].id != s.result.value)
      && s.db.reviews == d.reviews && s.db.history == d.history && s.db.tables == d.tables
  {
  }

  /** A known url returns the stored id and leaves the store exactly as it was. */
  lemma AddProductKnown(d: Db, url: string, i: nat)
    requires d.Valid() && ProductsTable in d.tables
    requires i < |d.products| && d.products[i].url == url
    ensures d.AddProduct(url) == Step(d, Ok(d.products[i].id))
  {
    var k := IndexOfUrl(d.products, url);
    assert k <= i;
  }

  lemma AddProductPreservesValid(d: Db, url: string)
    requires d.Valid()
    ensures d.AddProduct(url).db.Valid()
  {
    var s := d.AddProduct(url);
    if ProductsTable in d.tables && IndexOfUrl(d.products, url) == |d.products| {
      var ps := s.db.products;
      var n := |d.products|;
      assert forall i :: 0 <= i < n ==> ps[i] == d.products[i];
      assert ps[n] == Product(d.nextProductId, url, d.clock + 1);
      assert forall i :: 0 <= i < n ==> d.products[i].url != url;
      assert s.db.ProductsValid();
      assert s.db.ReviewsValid();
      assert s.db.HistoryValid();
    }
  }

  /** `ReviewsOf` distributes over appending rows. */
  lemma {:induction false} ReviewsOfAppend(a: seq<ReviewRow>, b: seq<ReviewRow>, pid: int)
    ensures ReviewsOf(a + b, pid) == ReviewsOf(a, pid) + ReviewsOf(b, pid)
  {
    if b == [] {
      assert a + b == a;
    } else {
      var b0 := b[..|b| - 1];
      assert (a + b)[..|a + b| - 1] == a + b0;
      assert (a + b)[|a + b| - 1] == b[|b| - 1];
      ReviewsOfAppend(a, b0, pid);
    }
  }

  /** The views `get_reviews` gives of a batch stored under `pid` with one stamp. */
  function BatchViews(batch: seq<RawReview>, stamp: nat): (vs: seq<ReviewView>)
    ensures |vs| == |batch|
    ensures forall i :: 0 <= i < |batch| ==> vs[i] == ReviewView(batch[i].text, batch[i].rating, stamp)
  {
    seq(|batch|, i requires 0 <= i < |batch| => ReviewView(batch[i].text, batch[i].rating, stamp))
  }

  lemma {:induction false} ReviewsOfNewRows(batch: seq<RawReview>, pid: int, firstId: int, stamp: nat, q: int)
    ensures ReviewsOf(NewRows(batch, pid, firstId, stamp), q) == if q == pid then BatchViews(batch, stamp) else []
  {
    if batch != [] {
      var init := batch[..|batch| - 1];
      ReviewsOfNewRows(init, pid, firstId, stamp, q);
      var rows := NewRows(batch, pid, firstId, stamp);
      assert rows[..|rows| - 1] == NewRows(init, pid, firstId, stamp);
      if q == pid {
        assert BatchViews(batch, stamp) == BatchViews(init, stamp) + [ViewOfReview(rows[|rows| - 1])];
      }
    }
  }

  /**
   * After `add_reviews(pid, batch)`, `get_reviews(pid)` gives what it gave before followed
   * by the batch in order, with rating `None` where the review had none; every other
   * product's reviews are unchanged.
   */
  lemma GetReviewsAfterAddReviews(d: Db, pid: int, batch: seq<RawReview>, q: int)
    requires d.AddReviews(pid, batch).result.Ok?
    ensures d.GetReviews(q).Ok? && d.AddReviews(pid, batch).db.GetReviews(q).Ok?
    ensures d.AddReviews(pid, batch).db.GetReviews(q).value
      == d.GetReviews(q).value + (if q == pid then BatchViews(batch, d.clock + 1) else [])
  {
    ReviewsOfAppend(d.reviews, NewRows(batch, pid, d.nextReviewId, d.clock + 1), q);
    ReviewsOfNewRows(batch, pid, d.nextReviewId, d.clock + 1, q);
  }

  /**
   * `add_reviews` stamps exactly the products whose id is `pid` and changes nothing else
   * about them; with an unknown id the products table is unchanged.
   */
  lemma AddReviewsTouchesOnlyPid(d: Db, pid: int, batch: seq<RawReview>)
    requires d.AddReviews(pid, batch).result.Ok?
    ensures var ps := d.AddReviews(pid, batch).db.products;
      && |ps| == |d.products|
      && (forall i :: 0 <= i < |ps| ==> ps[i].id == d.products[i].id && ps[i].url == d.products[i].url)
      && (forall i :: 0 <= i < |ps| ==> ps[i].lastScraped == if d.products[i].id == pid then d.clock + 1 else d.products[i].lastScraped)
      && ((forall i :: 0 <= i < |d.products| ==> d.products[i].id != pid) ==> ps == d.products)
      && d.AddReviews(pid, batch).db.history == d.history
  {
  }

  lemma AddReviewsPreservesValid(d: Db, pid: int, batch: seq<RawReview>)
    requires d.Valid()
    ensures d.AddReviews(pid, batch).db.Valid()
  {
    var s := d.AddReviews(pid, batch);
    if s.result.Ok? {
      var rows := NewRows(batch, pid, d.nextReviewId, d.clock + 1);
      var all := d.reviews + rows;
      assert forall i :: 0 <= i < |d.reviews| ==> all[i] == d.reviews[i];
      assert forall i :: |d.reviews| <= i < |all| ==> all[i] == rows[i - |d.reviews|];
      assert s.db.ReviewsValid();
      assert s.db.ProductsValid();
    }
  }

  /**
   * `add_analysis` fails on the first missing key, in the order product_name,
   * sentiment_counts, average_rating, total_reviews, then on a missing table; otherwise
   * it appends one row holding exactly the given values, with `reviews` defaulting to
   * the empty list and a fresh id.
   */
  lemma AddAnalysisAppendsOneRow(d: Db, url: string, input: AnalysisInput)
    requires d.Valid()
    ensures var s := d.AddAnalysis(url, input);
      && (s.result.Err? ==> s.db == d)
      && (input.productName.None? ==> s.result == Err(MissingKey("product_name")))
      && (input.productName.Some? && input.sentimentCounts.None? ==> s.result == Err(MissingKey("sentiment_counts")))
      && (input.productName.Some? && input.sentimentCounts.Some? && input.averageRating.None? ==> s.result == Err(MissingKey("average_rating")))
      && (input.productName.Some? && input.sentimentCounts.Some? && input.averageRating.Some? && input.totalReviews.None? ==> s.result == Err(MissingKey("total_reviews")))
      && (s.result.Ok? <==> (input.productName.Some? && input.sentimentCounts.Some? && input.averageRating.Some? && input.totalReviews.Some? && HistoryTable in d.tables))
      && (s.result.Ok? ==>
            && |s.db.history| == |d.history| + 1
            && s.db.history[..|d.history|] == d.history
            && var row := s.db.history[|d.history|];
            && row.url == url && row.productName == input.productName.value
            && row.sentimentCounts == input.sentimentCounts.value
            && row.averageRating == input.averageRating.value
            && row.reviewCount == input.totalReviews.value
            && row.reviews == (if input.reviews.Some? then input.reviews.value else [])
            && (forall i :: 0 <= i < |d.history| ==> d.history[i].id != row.id)
            && s.db.products == d.products && s.db.reviews == d.reviews)
      && s.db.Valid()
  {
    var s := d.AddAnalysis(url, input);
    if s.result.Ok? {
      assert s.db.history[..|d.history|] == d.history;
      assert forall i :: 0 <= i < |d.history| ==> s.db.history[i] == d.history[i];
      assert s.db.HistoryValid();
    }
  }

  /** Newest first is reverse insertion order, strictly decreasing in stamp. */
  lemma NewestFirstIsByTimestampDesc(d: Db)
    requires d.Valid()
    ensures var r := Reverse(d.history);
      && multiset(r) == multiset(d.history)
      && forall i, j :: 0 <= i < j < |r| ==> r[i].timestamp > r[j].timestamp
  {
    var h := d.history;
    var r := Reverse(h);
    ReverseSameElements(h);
    forall i, j | 0 <= i < j < |r| ensures r[i].timestamp > r[j].timestamp {
      assert r[i] == h[|h| - 1 - i] && r[j] == h[|h| - 1 - j];
    }
  }

  lemma {:induction false} ReverseSameElements<T>(s: seq<T>)
    ensures multiset(Reverse(s)) == multiset(s)
  {
    if s != [] {
      var t := s[1..];
      ReverseSameElements(t);
      assert Reverse(s) == Reverse(t) + [s[0]];
      assert s == [s[0]] + t;
    }
  }

  /**
   * For a positive page size and a page from 1: the page holds at most `perPage` rows,
   * namely those ranked `(page - 1) * perPage + 1` onwards.
   */
  lemma PageWindow<T>(rows: seq<T>, page: int, perPage: int)
    requires perPage > 0 && page >= 1
    ensures var p := PageRows(rows, page, perPage);
      var off := (page - 1) * perPage;
      && off >= 0
      && |p| == (if off >= |rows| then 0 else if off + perPage <= |rows| then perPage else |rows| - off)
      && forall k :: 0 <= k < |p| ==> p[k] == rows[off + k]
  {
    var off := (page - 1) * perPage;
    assert off >= 0 by { NonNegativeProduct(page - 1, perPage); }
  }

  /** A page number below 1 gives the first page: the offset it yields is clamped to zero. */
  lemma NonPositivePageIsFirstPage<T>(rows: seq<T>, page: int, perPage: int)
    requires perPage > 0 && page <= 1
    ensures PageRows(rows, page, perPage) == PageRows(rows, 1, perPage)
  {
    assert (page - 1) * perPage <= 0 by { NonNegativeProduct(1 - page, perPage); }
  }

  /** A negative page size removes the limit: everything from the offset on. */
  lemma NegativeLimitIsUnbounded<T>(rows: seq<T>, page: int, perPage: int)
    requires perPage < 0
    ensures var start := if Offset(page, perPage) < |rows| then Offset(page, perPage) else |rows|;
      PageRows(rows, page, perPage) == rows[start..]
  {
  }

  lemma NonNegativeProduct(a: int, b: int)
    requires a >= 0 && b >= 0
    ensures a * b >= 0
  {
  }

  /** Twenty-five analyses, ten per page: page 2 holds the 11th to 20th newest, and there are 3 pages. */
  lemma PaginationExample(d: Db)
    requires |d.history| == 25 && HistoryTable in d.tables
    ensures d.AnalysisPage(2, 10) == Reverse(d.history)[10..20]
    ensures forall k :: 0 <= k < 10 ==> d.AnalysisPage(2, 10)[k] == d.history[24 - 10 - k]
    ensures d.TotalPages(10) == Ok(3)
  {
  }

  /** `get_total_pages` with a positive size is the ceiling of the record count over it. */
  lemma TotalPagesIsCeiling(d: Db, perPage: int)
    requires HistoryTable in d.tables && perPage > 0
    ensures d.TotalPages(perPage).Ok?
    ensures var t, n := d.TotalPages(perPage).value, |d.history|;
      && t >= 0
      && t * perPage >= n
      && (t - 1) * perPage < n
  {
    var n := |d.history|;
    var m := n + perPage - 1;
    var t, r := m / perPage, m % perPage;
    assert m == t * perPage + r && 0 <= r < perPage;
    assert (t - 1) * perPage == t * perPage - perPage;
  }

  /** A page from 1 on is non-empty exactly up to the last page `get_total_pages` reports. */
  lemma PageNonEmptyIffWithinTotal(d: Db, page: int, perPage: int)
    requires HistoryTable in d.tables && perPage > 0 && page >= 1
    ensures d.TotalPages(perPage).Ok?
    ensures |d.AnalysisPage(page, perPage)| > 0 <==> page <= d.TotalPages(perPage).value
  {
    TotalPagesIsCeiling(d, perPage);
    var rows := Reverse(d.history);
    PageWindow(rows, page, perPage);
    var t := d.TotalPages(perPage).value;
    assert |rows| == |d.history|;
    OffsetBelowCeiling(|d.history|, perPage, t, page - 1);
  }

  /** With `t` the ceiling of `n / p`, the offset `x * p` falls inside `n` rows exactly when `x < t`. */
  lemma OffsetBelowCeiling(n: int, p: int, t: int, x: int)
    requires p > 0 && x >= 0 && t * p >= n && (t - 1) * p < n
    ensures x * p < n <==> x < t
  {
    if x < t {
      assert x * p <= (t - 1) * p by { NonNegativeProduct(t - 1 - x, p); assert (t - 1 - x) * p == (t - 1) * p - x * p; }
    } else {
      assert x * p >= t * p by { NonNegativeProduct(x - t, p); assert (x - t) * p == x * p - t * p; }
    }
  }

  lemma {:induction false} RemoveIdContents(rows: seq<AnalysisRow>, id: int)
    ensures forall r :: r in RemoveId(rows, id) <==> r in rows && r.id != id
    ensures |RemoveId(rows, id)| <= |rows|
  {
    if rows != [] {
      var init := rows[..|rows| - 1];
      RemoveIdContents(init, id);
      assert rows == init + [rows[|rows| - 1]];
    }
  }

  lemma {:induction false} RemoveAbsentId(rows: seq<AnalysisRow>, id: int)
    requires forall i :: 0 <= i < |rows| ==> rows[i].id != id
    ensures RemoveId(rows, id) == rows
  {
    if rows != [] {
      var init := rows[..|rows| - 1];
      RemoveAbsentId(init, id);
      assert rows == init + [rows[|rows| - 1]];
    }
  }

  /**
   * `delete_analysis(id)` keeps exactly the rows with another id, in order; since ids
   * are unique it removes one row when the id is stored and none otherwise.
   */
  lemma DeleteAnalysisRemovesOnlyThatId(d: Db, id: int)
    requires d.Valid() && HistoryTable in d.tables
    ensures var s := d.DeleteAnalysis(id);
      && s.result.Ok?
      && (forall r :: r in s.db.history <==> r in d.history && r.id != id)
      && (forall i :: 0 <= i < |d.history| && d.history[i].id == id ==> |s.db.history| == |d.history| - 1)
      && ((forall i :: 0 <= i < |d.history| ==> d.history[i].id != id) ==> s.db.history == d.history)
      && s.db.products == d.products && s.db.reviews == d.reviews
  {
    RemoveIdContents(d.history, id);
    if exists i :: 0 <= i < |d.history| && d.history[i].id == id {
      var i :| 0 <= i < |d.history| && d.history[i].id == id;
      RemoveUniqueId(d.history, id, i);
    } else {
      RemoveAbsentId(d.history, id);
    }
  }

  lemma {:induction false} RemoveUniqueId(rows: seq<AnalysisRow>, id: int, i: nat)
    requires i < |rows| && rows[i].id == id
    requires forall a, b :: 0 <= a < b < |rows| ==> rows[a].id < rows[b].id
    ensures |RemoveId(rows, id)| == |rows| - 1
  {
    var init, last := rows[..|rows| - 1], rows[|rows| - 1];
    if i == |rows| - 1 {
      RemoveAbsentId(init, id);
    } else {
      RemoveUniqueId(init, id, i);
      assert rows[i].id < last.id;
    }
  }

  lemma {:induction false} RemoveIdSubsequence(rows: seq<AnalysisRow>, id: int)
    requires forall a, b :: 0 <= a < b < |rows| ==> rows[a].id < rows[b].id && rows[a].timestamp < rows[b].timestamp
    ensures var r := RemoveId(rows, id);
      forall a, b :: 0 <= a < b < |r| ==> r[a].id < r[b].id && r[a].timestamp < r[b].timestamp
  {
    RemoveIdContents(rows, id);
    if rows != [] {
      var init, last := rows[..|rows| - 1], rows[|rows| - 1];
      RemoveIdSubsequence(init, id);
      RemoveIdContents(init, id);
      var r0 := RemoveId(init, id);
      forall a | 0 <= a < |r0| ensures r0[a].id < last.id && r0[a].timestamp < last.timestamp {
        assert r0[a] in init;
      }
    }
  }

  lemma DeleteAnalysisPreservesValid(d: Db, id: int)
    requires d.Valid()
    ensures d.DeleteAnalysis(id).db.Valid()
  {
    if HistoryTable in d.tables {
      RemoveIdContents(d.history, id);
      RemoveIdSubsequence(d.history, id);
      var h := RemoveId(d.history, id);
      forall i | 0 <= i < |h| ensures 1 <= h[i].id < d.nextAnalysisId && h[i].timestamp <= d.clock {
        assert h[i] in d.history;
      }
    }
  }

  /**
   * The root handler creates its tables on every start, so on any file a product can be
   * added and the batch stored under it is what `get_reviews` then returns at the end.
   */
  lemma RootHandlerStoresAndReturnsBatch(file: Option<Db>, url: string, batch: seq<RawReview>)
    ensures var d := Opened(file, RootHandler);
      var s := d.AddProduct(url);
      && s.result.Ok?
      && s.db.AddReviews(s.result.value, batch).result.Ok?
      && var e := s.db.AddReviews(s.result.value, batch).db;
      && e.GetReviews(s.result.value).Ok?
      && |e.GetReviews(s.result.value).value| >= |batch|
      && e.GetReviews(s.result.value).value[|e.GetReviews(s.result.value).value| - |batch|..] == BatchViews(batch, s.db.clock + 1)
  {
    var d := Opened(file, RootHandler);
    OpeningKeepsData(file, RootHandler);
    assert ProductsTable in d.tables && ReviewsTable in d.tables;
    var s := d.AddProduct(url);
    assert s.result.Ok? && s.db.tables == d.tables;
    var pid := s.result.value;
    var stamp := s.db.clock + 1;
    assert s.db.AddReviews(pid, batch).result.Ok?;
    GetReviewsAfterAddReviews(s.db, pid, batch, pid);
    var before := s.db.GetReviews(pid).value;
    assert (before + BatchViews(batch, stamp))[|before|..] == BatchViews(batch, stamp);
  }

  // ---------------------------------------------------------------------------
  // The handler object

  class DatabaseHandler {
    var tables: set<Table>
    var products: seq<Product>
    var reviews: seq<ReviewRow>
    var history: seq<AnalysisRow>
    var nextProductId: int
    var nextReviewId: int
    var nextAnalysisId: int
    var clock: nat

    /** The store this handler's connection sees. */
    function State(): Db
      reads this
    {
      Db(tables, products, reviews, history, nextProductId, nextReviewId, nextAnalysisId, clock)
    }

    /** `DatabaseHandler(db_name)` on the file `file` (`None`: the file does not exist). */
    constructor Open(file: Option<Db>, variant: Variant)
      ensures State() == Opened(file, variant)
    {
      var d := file.GetOr(Empty);
      tables, products, reviews, history := d.tables, d.products, d.reviews, d.history;
      nextProductId, nextReviewId, nextAnalysisId, clock := d.nextProductId, d.nextReviewId, d.nextAnalysisId, d.clock;
      new;
      if variant == RootHandler {
        InitDatabase(RootSchema);
      } else if file.None? {
        InitDatabase(FullSchema);
      }
    }

    method InitDatabase(schema: set<Table>)
      modifies this
      ensures State() == old(State()).InitDatabase(schema)
    {
      tables := tables + schema;
    }

    method AddProduct(url: string) returns (r: Result<int, DbError>)
      modifies this
      ensures Step(State(), r) == old(State()).AddProduct(url)
    {
      if ProductsTable !in tables {
        return Err(NoSuchTable(ProductsTable));
      }
      var k := 0;
      while k < |products| && products[k].url != url
        invariant k <= |products|
        invariant forall j :: 0 <= j < k ==> products[j].url != url
      {
        k := k + 1;
      }
      assert k == IndexOfUrl(products, url);
      if k < |products| {
        return Ok(products[k].id);
      }
      clock := clock + 1;
      products := products + [Product(nextProductId, url, clock)];
      r := Ok(nextProductId);
      nextProductId := nextProductId + 1;
    }

    method AddReviews(pid: int, batch: seq<RawReview>) returns (r: Result<(), DbError>)
      modifies this
      ensures Step(State(), r) == old(State()).AddReviews(pid, batch)
    {
      if ReviewsTable !in tables {
        return Err(NoSuchTable(ReviewsTable));
      }
      if ProductsTable !in tables {
        return Err(NoSuchTable(ProductsTable));
      }
      var stamp := clock + 1;
      var rows: seq<ReviewRow> := [];
      for i := 0 to |batch|
        invariant rows == NewRows(batch[..i], pid, nextReviewId, stamp)
      {
        rows := rows + [ReviewRow(nextReviewId + i, pid, batch[i].text, batch[i].rating, stamp)];
      }
      assert batch[..|batch|] == batch;
      var touched: seq<Product> := [];
      for i := 0 to |products|
        invariant touched == Touch(products[..i], pid, stamp)
      {
        touched := touched + [if products[i].id == pid then products[i].(lastScraped := stamp) else products[i]];
      }
      assert products[..|products|] == products;
      reviews, nextReviewId := reviews + rows, nextReviewId + |batch|;
      products, clock := touched, stamp;
      r := Ok(());
    }

    method GetReviews(pid: int) returns (r: Result<seq<ReviewView>, DbError>)
      ensures r == State().GetReviews(pid)
      ensures r.Ok? ==> forall v :: v in r.value <==> exists i :: 0 <= i < |reviews| && reviews[i].productId == pid && ViewOfReview(reviews[i]) == v
    {
      if ReviewsTable !in tables {
        return Err(NoSuchTable(ReviewsTable));
      }
      var views: seq<ReviewView> := [];
      for i := 0 to |reviews|
        invariant views == ReviewsOf(reviews[..i], pid)
      {
        assert reviews[..i + 1][..i] == reviews[..i];
        if reviews[i].productId == pid {
          views := views + [ViewOfReview(reviews[i])];
        }
      }
      assert reviews[..|reviews|] == reviews;
      ReviewsOfMembers(reviews, pid);
      r := Ok(views);
    }

    method AddAnalysis(url: string, input: AnalysisInput) returns (r: Result<(), DbError>)
      modifies this
      ensures Step(State(), r) == old(State()).AddAnalysis(url, input)
    {
      if input.productName.None? { return Err(MissingKey("product_name")); }
      if input.sentimentCounts.None? { return Err(MissingKey("sentiment_counts")); }
      if input.averageRating.None? { return Err(MissingKey("average_rating")); }
      if input.totalReviews.None? { return Err(MissingKey("total_reviews")); }
      var snapshot := if input.reviews.Some? then input.reviews.value else [];
      if HistoryTable !in tables {
        return Err(NoSuchTable(HistoryTable));
      }
      clock := clock + 1;
      history := history + [AnalysisRow(nextAnalysisId, url, input.productName.value, input.sentimentCounts.value,
                                        input.averageRating.value, input.totalReviews.value, snapshot, clock)];
      nextAnalysisId := nextAnalysisId + 1;
      r := Ok(());
    }

    /**
     * `get_analyses`: the page's rows, newest first, each turned into a dict; the first
     * row with an empty counts dict raises and no list is returned.
     */
    method GetAnalyses(page: int, perPage: int) returns (r: Result<seq<AnalysisView>, DbError>)
      ensures var rows := State().AnalysisPage(page, perPage);
        && (r.Err? <==> HistoryTable !in tables || exists i :: 0 <= i < |rows| && rows[i].sentimentCounts == [])
        && (r.Err? ==> r.error == if HistoryTable !in tables then NoSuchTable(HistoryTable) else EmptyMax)
        && (r.Ok? ==> |r.value| == |rows| && forall i :: 0 <= i < |rows| ==> Ok(r.value[i]) == ViewOf(rows[i]))
    {
      if HistoryTable !in tables {
        return Err(NoSuchTable(HistoryTable));
      }
      var rows := State().AnalysisPage(page, perPage);
      var views: seq<AnalysisView> := [];
      var i := 0;
      while i < |rows|
        invariant 0 <= i <= |rows| && |views| == i
        invariant forall j :: 0 <= j < i ==> rows[j].sentimentCounts != [] && Ok(views[j]) == ViewOf(rows[j])
      {
        var v := ViewOf(rows[i]);
        if v.Err? {
          return Err(v.error);
        }
        views := views + [v.value];
        i := i + 1;
      }
      r := Ok(views);
    }

    method GetTotalPages(perPage: int) returns (r: Result<int, DbError>)
      ensures r == State().TotalPages(perPage)
      ensures r.Ok? ==> perPage > 0 ==> r.value * perPage >= |history| && (r.value - 1) * perPage < |history|
    {
      if HistoryTable !in tables {
        return Err(NoSuchTable(HistoryTable));
      }
      if perPage == 0 {
        return Err(ZeroDivision);
      }
      r := Ok(FloorDiv(|history| + perPage - 1, perPage));
      if perPage > 0 {
        TotalPagesIsCeiling(State(), perPage);
      }
    }

    method DeleteAnalysis(id: int) returns (r: Result<(), DbError>)
      modifies this
      ensures Step(State(), r) == old(State()).DeleteAnalysis(id)
    {
      if HistoryTable !in tables {
        return Err(NoSuchTable(HistoryTable));
      }
      var kept: seq<AnalysisRow> := [];
      for i := 0 to |history|
        invariant kept == RemoveId(history[..i], id)
      {
        assert history[..i + 1][..i] == history[..i];
        if history[i].id != id {
          kept := kept + [history[i]];
        }
      }
      assert history[..|history|] == history;
      history := kept;
      r := Ok(());
    }
  }

  /** The positions of the rows stored under `pid` whose view is `v`. */
  ghost function Matching(rows: seq<ReviewRow>, pid: int, v: ReviewView): set<int>
  {
    set i | 0 <= i < |rows| && rows[i].productId == pid && ViewOfReview(rows[i]) == v
  }

  /**
   * What `ReviewsOf` returns, taken as a collection in any order: each view occurs as
   * many times as there are rows stored under `pid` with that view.
   */
  lemma {:induction false} ReviewsOfMembers(rows: seq<ReviewRow>, pid: int)
    ensures forall v :: multiset(ReviewsOf(rows, pid))[v] == |Matching(rows, pid, v)|
    ensures forall v :: v in ReviewsOf(rows, pid) <==> exists i :: 0 <= i < |rows| && rows[i].productId == pid && ViewOfReview(rows[i]) == v
  {
    if rows != [] {
      var init, last := rows[..|rows| - 1], rows[|rows| - 1];
      ReviewsOfMembers(init, pid);
      var extra := if last.productId == pid then [ViewOfReview(last)] else [];
      assert ReviewsOf(rows, pid) == ReviewsOf(init, pid) + extra;
      forall v ensures multiset(ReviewsOf(rows, pid))[v] == |Matching(rows, pid, v)| {
        MatchingSnoc(rows, pid, v);
      }
    }
    forall v ensures v in ReviewsOf(rows, pid) <==> exists i :: 0 <= i < |rows| && rows[i].productId == pid && ViewOfReview(rows[i]) == v {
      assert v in ReviewsOf(rows, pid) <==> multiset(ReviewsOf(rows, pid))[v] > 0;
      if exists i :: 0 <= i < |rows| && rows[i].productId == pid && ViewOfReview(rows[i]) == v {
        var i :| 0 <= i < |rows| && rows[i].productId == pid && ViewOfReview(rows[i]) == v;
        assert i in Matching(rows, pid, v);
      }
      if |Matching(rows, pid, v)| > 0 {
        var i :| i in Matching(rows, pid, v);
      }
    }
  }

  /** Appending a row adds its position to the matching set exactly when it matches. */
  lemma MatchingSnoc(rows: seq<ReviewRow>, pid: int, v: ReviewView)
    requires rows != []
    ensures var n := |rows| - 1;
      |Matching(rows, pid, v)| == |Matching(rows[..n], pid, v)| + (if rows[n].productId == pid && ViewOfReview(rows[n]) == v then 1 else 0)
  {
    var n := |rows| - 1;
    var init := rows[..n];
    var a, b := Matching(init, pid, v), Matching(rows, pid, v);
    assert n !in a;
    if rows[n].productId == pid && ViewOfReview(rows[n]) == v {
      assert b == a + {n};
    } else {
      assert b == a;
    }
  }
}
