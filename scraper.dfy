/**
 * Scraping one product page: `extract_review_data`, `scroll_to_load_reviews`,
 * `scrape_reviews` and the entry points `get_reviews` (Scraper.py) and `main`
 * (Scrapper.py). Both files run the same steps; they differ only in what
 * `scrape_reviews` returns, so one `ScrapePage` produces an outcome and two functions
 * map it to each file's return value.
 *
 * The page is abstract: what `driver.get` and the 60-second wait did is a `PageLoad`,
 * and each review element either went stale, lacks its `content` child, or has a text.
 */
module Scraper {
  import opened Wrappers
  import opened Collections
  import opened Records
  import opened Text
  import opened Browser
  import Store

  /** One element of class `item-content` as `extract_review_data` meets it. */
  datatype Element =
    | Stale                   // StaleElementReferenceException
    | MissingContent          // find_element raises NoSuchElementException
    | Content(text: string)   // the `content` child's text

  datatype Extracted = Skipped | Escaped | Extracted(review: RawReview)

  /**
   * `extract_review_data`: the stripped text with no rating; `None` (Skipped) for a
   * stale element; any other exception escapes (Escaped).
   */
  function ExtractReviewData(e: Element): (x: Extracted)
    ensures x.Skipped? <==> e.Stale?
    ensures x.Escaped? <==> e.MissingContent?
    ensures x.Extracted? ==> x.review.rating.None? && x.review.text == Strip(e.text) && Trimmed(x.review.text)
  {
    match e
    case Stale => Skipped
    case MissingContent => Escaped
    case Content(t) => Extracted(RawReview(Strip(t), None))
  }

  /** An element whose stripped text is empty, which the loop drops. */
  predicate Blank(e: Element)
  {
    e.Content? && Strip(e.text) == ""
  }

  /**
   * The loop of `scrape_reviews` over the elements: keeps each extracted review whose
   * text is non-empty, in document order; `None` when an extraction raised, which ends
   * the whole `try` block.
   */
  function Collect(es: seq<Element>): Option<seq<RawReview>>
  {
    if es == [] then Some([])
    else
      match Collect(es[..|es| - 1])
      case None => None
      case Some(rs) =>
        match ExtractReviewData(es[|es| - 1])
        case Escaped => None
        case Skipped => Some(rs)
        case Extracted(r) => if r.text != "" then Some(rs + [r]) else Some(rs)
  }

  function NumStale(es: seq<Element>): nat
  {
    if es == [] then 0 else NumStale(es[..|es| - 1]) + (if es[|es| - 1].Stale? then 1 else 0)
  }

  function NumBlank(es: seq<Element>): nat
  {
    if es == [] then 0 else NumBlank(es[..|es| - 1]) + (if Blank(es[|es| - 1]) then 1 else 0)
  }

  /** Some element lacks its content child. */
  ghost predicate SomeMissing(es: seq<Element>)
  {
    exists i :: 0 <= i < |es| && es[i].MissingContent?
  }

  /** The loop fails exactly when some element lacks its content child. */
  lemma {:induction false} CollectFailsIffMissingContent(es: seq<Element>)
    ensures Collect(es).None? <==> SomeMissing(es)
  {
    if es != [] {
      CollectFailsIffMissingContent(es[..|es| - 1]);
      CollectSnocFails(es);
      SomeMissingSnoc(es);
    }
  }

  lemma CollectSnocFails(es: seq<Element>)
    requires es != []
    ensures Collect(es).None? <==> Collect(es[..|es| - 1]).None? || es[|es| - 1].MissingContent?
  {
  }

  lemma SomeMissingSnoc(es: seq<Element>)
    requires es != []
    ensures SomeMissing(es) <==> SomeMissing(es[..|es| - 1]) || es[|es| - 1].MissingContent?
  {
    var init := es[..|es| - 1];
    if SomeMissing(es) {
      var i :| 0 <= i < |es| && es[i].MissingContent?;
      if i < |init| {
        assert init[i].MissingContent?;
      }
    }
    if SomeMissing(init) {
      var i :| 0 <= i < |init| && init[i].MissingContent?;
      assert es[i].MissingContent?;
    }
  }

  /** Every element is kept, stale or blank: the kept count is N minus stale minus blank. */
  lemma {:induction false} CollectCount(es: seq<Element>)
    requires Collect(es).Some?
    ensures |Collect(es).value| + NumStale(es) + NumBlank(es) == |es|
  {
    if es != [] {
      CollectCount(es[..|es| - 1]);
    }
  }

  /** Every kept review has a non-empty stripped text and no rating. */
  lemma {:induction false} CollectKeepsStrippedTexts(es: seq<Element>)
    requires Collect(es).Some?
    ensures forall r :: r in Collect(es).value ==> r.rating.None? && r.text != "" && Trimmed(r.text)
  {
    if es != [] {
      CollectKeepsStrippedTexts(es[..|es| - 1]);
    }
  }

  /** The loop over a concatenation is the loop over each part, joined. */
  lemma {:induction false} CollectAppend(a: seq<Element>, b: seq<Element>)
    ensures Collect(a + b) == if Collect(a).Some? && Collect(b).Some? then Some(Collect(a).value + Collect(b).value) else None
  {
    if b == [] {
      assert a + b == a;
      assert Collect(a).Some? ==> Collect(a).value + [] == Collect(a).value;
    } else {
      var b0 := b[..|b| - 1];
      assert (a + b)[..|a + b| - 1] == a + b0;
      assert (a + b)[|a + b| - 1] == b[|b| - 1];
      CollectAppend(a, b0);
      if Collect(a).Some? && Collect(b0).Some? {
        var x, y := Collect(a).value, Collect(b0).value;
        assert forall r: RawReview :: x + (y + [r]) == (x + y) + [r];
      }
    }
  }

  /** A failure in a prefix is a failure of the whole loop. */
  lemma CollectFailsFromPrefix(es: seq<Element>, i: nat)
    requires i <= |es| && Collect(es[..i]).None?
    ensures Collect(es).None?
  {
    CollectAppend(es[..i], es[i..]);
    assert es[..i] + es[i..] == es;
  }

  // ---------------------------------------------------------------------------
  // scroll_to_load_reviews

  /** `for _ in range(n)`: one scroll and a 2-second pause per iteration, none for n <= 0. */
  function ScrollActions(n: int): (acts: seq<Action>)
    ensures |acts| == if n <= 0 then 0 else 2 * n
    ensures forall k :: 0 <= k < |acts| ==> acts[k] == if k % 2 == 0 then ScrollToBottom else Pause(2)
  {
    seq(if n <= 0 then 0 else 2 * n, k => if k % 2 == 0 then ScrollToBottom else Pause(2))
  }

  /** Exactly `max_scrolls` scrolls, unconditionally. */
  lemma ScrollCount(n: nat)
    ensures Count(ScrollActions(n), ScrollToBottom) == n
    ensures Count(ScrollActions(n), Pause(2)) == n
  {
    ScrollCountFrom(ScrollActions(n), n);
  }

  lemma {:induction false} ScrollCountFrom(acts: seq<Action>, n: nat)
    requires |acts| == 2 * n
    requires forall k :: 0 <= k < |acts| ==> acts[k] == if k % 2 == 0 then ScrollToBottom else Pause(2)
    ensures Count(acts, ScrollToBottom) == n && Count(acts, Pause(2)) == n
  {
    if n > 0 {
      var rest := acts[..2 * n - 2];
      assert acts == rest + [ScrollToBottom, Pause(2)];
      ScrollCountFrom(rest, n - 1);
      assert multiset(acts) == multiset(rest) + multiset{ScrollToBottom, Pause(2)};
    }
  }

  method ScrollToLoadReviews(driver: Driver, maxScrolls: int)
    modifies driver
    ensures driver.actions == old(driver.actions) + ScrollActions(maxScrolls)
  {
    var i := 0;
    while i < maxScrolls
      invariant 0 <= i <= (if maxScrolls > 0 then maxScrolls else 0)
      invariant driver.actions == old(driver.actions) + ScrollActions(i)
    {
      driver.Perform(ScrollToBottom);
      driver.Perform(Pause(2));
      assert ScrollActions(i + 1) == ScrollActions(i) + [ScrollToBottom, Pause(2)];
      i := i + 1;
    }
    assert ScrollActions(i) == ScrollActions(maxScrolls);
  }

  // ---------------------------------------------------------------------------
  // scrape_reviews

  /** What `driver.get` and the wait for the review section did. */
  datatype PageLoad =
    | NavigationFailed          // driver.get raised something other than a timeout
    | NavigationTimedOut        // driver.get raised TimeoutException (page load timeout)
    | TimedOut                  // the 60-second wait raised TimeoutException
    | PageError                 // finding the review elements raised
    | Loaded(elements: seq<Element>)

  /** How the `try` block of `scrape_reviews` ended. */
  datatype ScrapeOutcome =
    | Timeout                        // the TimeoutException handler ran
    | Failure                        // the generic Exception handler ran
    | Done(reviews: seq<RawReview>)  // the block ran to its end with this list

  /** The new store, the outcome, and the actions performed on the driver. */
  datatype Run = Run(db: Store.Db, outcome: ScrapeOutcome, actions: seq<Action>)

  /** The scrolls `scrape_reviews` asks for: the default `max_scrolls` of 5. */
  const DefaultScrolls: nat := 5

  /** What is done to the driver once the review section has appeared. */
  const SectionActions: seq<Action> := ScrollActions(DefaultScrolls) + [FindReviewElements]

  function PageActions(url: string): seq<Action>
  {
    [Navigate(url), AwaitReviewSection] + SectionActions
  }

  /**
   * The part of `scrape_reviews` after the wait: scroll, find the elements (`None` when
   * that raised), extract, and store the collected reviews only when there are some.
   */
  function SectionSpec(d: Store.Db, pid: int, found: Option<seq<Element>>): Run
  {
    if found.None? then Run(d, Failure, SectionActions)
    else
      match Collect(found.value)
      case None => Run(d, Failure, SectionActions)
      case Some(rs) =>
        if rs == [] then Run(d, Done([]), SectionActions)
        else
          var s := d.AddReviews(pid, rs);
          if s.result.Err? then Run(d, Failure, SectionActions) else Run(s.db, Done(rs), SectionActions)
  }

  function FoundElements(load: PageLoad): Option<seq<Element>>
  {
    if load.Loaded? then Some(load.elements) else None
  }

  /**
   * `scrape_reviews`: navigate, store the product, wait for the review section, then
   * the rest as `SectionSpec`.
   */
  function ScrapeSpec(d: Store.Db, url: string, load: PageLoad): Run
  {
    if load.NavigationFailed? then Run(d, Failure, [Navigate(url)])
    else if load.NavigationTimedOut? then Run(d, Timeout, [Navigate(url)])
    else
      var p := d.AddProduct(url);
      if p.result.Err? then Run(d, Failure, [Navigate(url)])
      else if load.TimedOut? then Run(p.db, Timeout, [Navigate(url), AwaitReviewSection])
      else
        var r := SectionSpec(p.db, p.result.value, FoundElements(load));
        Run(r.db, r.outcome, [Navigate(url), AwaitReviewSection] + r.actions)
  }

  /** Scraper.py: the list when it is non-empty, `None` for an empty list and on any exception. */
  function ScraperResult(o: ScrapeOutcome): (r: Option<seq<RawReview>>)
    ensures r.Some? <==> o.Done? && o.reviews != []
    ensures r.Some? ==> r.value == o.reviews
  {
    if o.Done? && o.reviews != [] then Some(o.reviews) else None
  }

  /** Scrapper.py: the list, possibly empty; `None` after a timeout (no return there); `[]` on other exceptions. */
  function ScrapperResult(o: ScrapeOutcome): (r: Option<seq<RawReview>>)
    ensures r.None? <==> o.Timeout?
    ensures o.Failure? ==> r == Some([])
    ensures o.Done? ==> r == Some(o.reviews)
  {
    match o
    case Timeout => None
    case Failure => Some([])
    case Done(rs) => Some(rs)
  }

  /** The `for element in review_elements` loop, stopped by the first extraction that raises. */
  method ExtractAll(es: seq<Element>) returns (r: Option<seq<RawReview>>)
    ensures r == Collect(es)
  {
    var reviewsData: seq<RawReview> := [];
    for i := 0 to |es|
      invariant Collect(es[..i]) == Some(reviewsData)
    {
      assert es[..i + 1][..i] == es[..i] && es[..i + 1][i] == es[i];
      var x := ExtractReviewData(es[i]);
      if x.Escaped? {
        CollectFailsFromPrefix(es, i + 1);
        return None;
      }
      if x.Extracted? && x.review.text != "" {
        reviewsData := reviewsData + [x.review];
      }
    }
    assert es[..|es|] == es;
    return Some(reviewsData);
  }

  method ScrapePage(url: string, driver: Driver, db: Store.DatabaseHandler, load: PageLoad) returns (o: ScrapeOutcome)
    modifies driver, db
    ensures var run := ScrapeSpec(old(db.State()), url, load);
      db.State() == run.db && o == run.outcome && driver.actions == old(driver.actions) + run.actions
  {
    ghost var d0, a0 := db.State(), driver.actions;
    driver.Perform(Navigate(url));
    if load.NavigationFailed? {
      return Failure;
    }
    if load.NavigationTimedOut? {
      return Timeout;
    }
    var pid := db.AddProduct(url);
    ghost var p := d0.AddProduct(url);
    assert db.State() == p.db && pid == p.result;
    if pid.Err? {
      return Failure;
    }
    driver.Perform(AwaitReviewSection);
    if load.TimedOut? {
      return Timeout;
    }
    ghost var before := driver.actions;
    assert before == a0 + [Navigate(url), AwaitReviewSection];
    o := ScrapeReviewSection(driver, db, pid.value, FoundElements(load));
    ghost var r := SectionSpec(p.db, pid.value, FoundElements(load));
    assert ScrapeSpec(d0, url, load) == Run(r.db, r.outcome, [Navigate(url), AwaitReviewSection] + r.actions);
    assert before + r.actions == a0 + ([Navigate(url), AwaitReviewSection] + r.actions);
  }

  method ScrapeReviewSection(driver: Driver, db: Store.DatabaseHandler, pid: int, found: Option<seq<Element>>)
    returns (o: ScrapeOutcome)
    modifies driver, db
    ensures var run := SectionSpec(old(db.State()), pid, found);
      db.State() == run.db && o == run.outcome && driver.actions == old(driver.actions) + run.actions
  {
    ScrollToLoadReviews(driver, DefaultScrolls);
    driver.Perform(FindReviewElements);
    assert driver.actions == old(driver.actions) + SectionActions;
    if found.None? {
      return Failure;
    }
    var collected := ExtractAll(found.value);
    if collected.None? {
      return Failure;
    }
    var reviewsData := collected.value;
    if reviewsData != [] {
      var stored := db.AddReviews(pid, reviewsData);
      if stored.Err? {
        return Failure;
      }
    }
    return Done(reviewsData);
  }

  // ---------------------------------------------------------------------------
  // Properties of one scrape

  /**
   * The product row is written right after navigation, before the wait: it is in the
   * store whatever happens next, a timeout included.
   */
  lemma ProductStoredOnceNavigated(d: Store.Db, url: string, load: PageLoad)
    requires Store.ProductsTable in d.tables && !load.NavigationFailed? && !load.NavigationTimedOut?
    ensures var ps := ScrapeSpec(d, url, load).db.products;
      exists i :: 0 <= i < |ps| && ps[i].url == url
  {
    Store.AddProductReturnsItsRow(d, url);
    var p := d.AddProduct(url);
    var i :| 0 <= i < |p.db.products| && p.db.products[i].url == url && p.db.products[i].id == p.result.value;
    if load.Loaded? && Collect(load.elements).Some? && Collect(load.elements).value != [] {
      var s := p.db.AddReviews(p.result.value, Collect(load.elements).value);
      if s.result.Ok? {
        Store.AddReviewsTouchesOnlyPid(p.db, p.result.value, Collect(load.elements).value);
        assert s.db.products[i].url == url;
      }
    }
  }

  /**
   * Scraper.py writes reviews exactly when it returns a list; the rows written are the
   * returned reviews, in order, under the product's id. Otherwise the reviews table is
   * unchanged.
   */
  lemma ReviewsStoredIffScraperReturnsList(d: Store.Db, url: string, load: PageLoad)
    ensures var run := ScrapeSpec(d, url, load);
      && (ScraperResult(run.outcome).None? ==> run.db.reviews == d.reviews)
      && (ScraperResult(run.outcome).Some? ==>
            var l, pid := ScraperResult(run.outcome).value, d.AddProduct(url).result.value;
            && |run.db.reviews| == |d.reviews| + |l| > |d.reviews|
            && run.db.reviews[..|d.reviews|] == d.reviews
            && (forall i :: 0 <= i < |l| ==> (run.db.reviews[|d.reviews| + i].productId == pid && run.db.reviews[|d.reviews| + i].text == l[i].text && run.db.reviews[|d.reviews| + i].rating == l[i].rating)))
  {
    var run := ScrapeSpec(d, url, load);
    if ScraperResult(run.outcome).Some? {
      ScraperListCase(d, url, load);
      var p := d.AddProduct(url);
      var l := ScraperResult(run.outcome).value;
      assert run.db.reviews == d.reviews + Store.NewRows(l, p.result.value, p.db.nextReviewId, p.db.clock + 1);
      AppendedBatch(d.reviews, run.db.reviews, l, p.result.value, p.db.nextReviewId, p.db.clock + 1);
    } else {
      ScraperNoListCase(d, url, load);
    }
  }

  lemma AppendedBatch(before: seq<Store.ReviewRow>, after: seq<Store.ReviewRow>, l: seq<RawReview>, pid: int, firstId: int, stamp: nat)
    requires after == before + Store.NewRows(l, pid, firstId, stamp)
    ensures |after| == |before| + |l| && after[..|before|] == before
    ensures forall i :: 0 <= i < |l| ==> (after[|before| + i].productId == pid && after[|before| + i].text == l[i].text && after[|before| + i].rating == l[i].rating)
  {
    assert after[..|before|] == before;
    forall i | 0 <= i < |l| ensures after[|before| + i] == Store.NewRows(l, pid, firstId, stamp)[i] {
    }
  }

  /** A returned list is the collected batch, stored by one successful `add_reviews`. */
  lemma ScraperListCase(d: Store.Db, url: string, load: PageLoad)
    requires ScraperResult(ScrapeSpec(d, url, load).outcome).Some?
    ensures var l, p := ScraperResult(ScrapeSpec(d, url, load).outcome).value, d.AddProduct(url);
      && load.Loaded? && Collect(load.elements) == Some(l) && l != []
      && p.result.Ok? && p.db.reviews == d.reviews
      && p.db.AddReviews(p.result.value, l).result.Ok?
      && ScrapeSpec(d, url, load).db == p.db.AddReviews(p.result.value, l).db
  {
  }

  /** Without a returned list no review row was written. */
  lemma ScraperNoListCase(d: Store.Db, url: string, load: PageLoad)
    requires ScraperResult(ScrapeSpec(d, url, load).outcome).None?
    ensures ScrapeSpec(d, url, load).db.reviews == d.reviews
  {
  }

  /** An element without its content child aborts the batch: nothing is stored. */
  lemma MissingContentStoresNothing(d: Store.Db, url: string, es: seq<Element>)
    requires SomeMissing(es)
    ensures var run := ScrapeSpec(d, url, Loaded(es));
      && run.outcome == Failure
      && run.db.reviews == d.reviews
      && ScraperResult(run.outcome) == None
      && ScrapperResult(run.outcome) == Some([])
  {
    CollectFailsIffMissingContent(es);
  }

  /**
   * Scrapper.py returns the collected list once the page loaded, stored or not, empty or
   * not, provided storing it succeeded; a timeout gives `None`.
   */
  lemma ScrapperReturnsCollected(d: Store.Db, url: string, load: PageLoad)
    requires Store.ProductsTable in d.tables && Store.ReviewsTable in d.tables
    ensures load.TimedOut? || load.NavigationTimedOut? ==> ScrapperResult(ScrapeSpec(d, url, load).outcome) == None
    ensures load.Loaded? && Collect(load.elements).Some? ==>
      ScrapperResult(ScrapeSpec(d, url, load).outcome) == Some(Collect(load.elements).value)
  {
  }

  /**
   * A page load that times out inside `driver.get` reaches the timeout handler before
   * the product is stored: nothing is written and both scrapers return `None`.
   */
  lemma NavigationTimeoutStoresNothing(d: Store.Db, url: string)
    ensures var run := ScrapeSpec(d, url, NavigationTimedOut);
      && run.db == d && run.outcome == Timeout
      && ScraperResult(run.outcome) == None && ScrapperResult(run.outcome) == None
  {
  }

  /** The scrape itself never quits the driver. */
  lemma ScrapeNeverQuits(d: Store.Db, url: string, load: PageLoad)
    ensures Quit !in ScrapeSpec(d, url, load).actions
    ensures load.Loaded? && (d.AddProduct(url).result.Ok?) ==> ScrapeSpec(d, url, load).actions == PageActions(url)
  {
    var acts := ScrollActions(DefaultScrolls);
    assert forall k :: 0 <= k < |acts| ==> acts[k] != Quit;
  }

  // ---------------------------------------------------------------------------
  // get_reviews (Scraper.py) and main (Scrapper.py)

  /** The product page both entry points scrape by default. */
  const DefaultUrl: string := "https://www.daraz.pk/products/-i433806826-s2091231443.html"

  datatype EntryPoint = ScraperGetReviews | ScrapperMain

  /** The page scraped: `get_reviews` takes it as its argument, `main` always uses the default. */
  function TargetUrl(entry: EntryPoint, url: string): string
  {
    match entry
    case ScraperGetReviews => url
    case ScrapperMain => DefaultUrl
  }

  /** What the entry point returns for a scrape outcome. */
  function EntryResult(entry: EntryPoint, o: ScrapeOutcome): Option<seq<RawReview>>
  {
    match entry
    case ScraperGetReviews => ScraperResult(o)
    case ScrapperMain => ScrapperResult(o)
  }

  /**
   * The driver is quit exactly once, as the last action, whatever the scrape did.
   */
  lemma QuitExactlyOnce(d: Store.Db, url: string, load: PageLoad)
    ensures Count(ScrapeSpec(d, url, load).actions + [Quit], Quit) == 1
  {
    ScrapeNeverQuits(d, url, load);
    var acts := ScrapeSpec(d, url, load).actions;
    assert multiset(acts + [Quit]) == multiset(acts) + multiset{Quit};
  }

  /**
   * `get_reviews(url)` / `main()`: open the root store, start a driver with the
   * custom_driver.py options, scrape, and quit the driver in the `finally`. When no
   * driver could be started the exception propagates and nothing else runs.
   */
  method RunSession(entry: EntryPoint, file: Option<Store.Db>, url: string,
                    userAgent: nat -> string, attempt: nat -> StartOutcome, load: PageLoad)
    returns (r: Result<Option<seq<RawReview>>, StartFailure>, db: Store.DatabaseHandler, driver: Option<Driver>)
    ensures fresh(db)
    ensures r.Err? <==> driver.None?
    ensures r.Ok? <==> Failures(attempt) < MaxRetries && attempt(Failures(attempt)) == Started
    ensures r.Err? ==> db.State() == Store.Opened(file, Store.RootHandler)
    ensures driver.Some? ==>
      var run := ScrapeSpec(Store.Opened(file, Store.RootHandler), TargetUrl(entry, url), load);
      && fresh(driver.value)
      && driver.value.actions == run.actions + [Quit]
      && db.State() == run.db
      && r == Ok(EntryResult(entry, run.outcome))
  {
    db := new Store.DatabaseHandler.Open(file, Store.RootHandler);
    var started, pauses := InitDriver((i: nat) => CustomDriverOptions(userAgent(i)), attempt);
    if started.Err? {
      return Err(started.error), db, None;
    }
    var drv := started.value;
    ghost var run := ScrapeSpec(db.State(), TargetUrl(entry, url), load);
    var o := ScrapePage(TargetUrl(entry, url), drv, db, load);
    assert drv.actions == run.actions && o == run.outcome;
    drv.Perform(Quit);
    return Ok(EntryResult(entry, o)), db, Some(drv);
  }
}
