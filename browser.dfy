/**
 * The browser side of scraping: the Chrome options `init_driver` builds, its bounded
 * retry loop (StateUtilities.py and custom_driver.py), the driver as a recorder of
 * the actions performed on it, and `URLElement` of StateUtilities.py.
 *
 * Selenium itself is not modelled: whether constructing Chrome succeeds on the n-th
 * attempt is an oracle `attempt: nat -> StartOutcome`, the random user agent of the
 * n-th attempt is a parameter, and `os.path.exists` is a predicate on paths.
 */
module Browser {
  import opened Wrappers

  /** What the pipeline does to a driver, as far as the model records it. */
  datatype Action =
    | Navigate(url: string)   // driver.get(url)
    | AwaitReviewSection      // WebDriverWait(driver, 60).until(...)
    | ScrollToBottom          // execute_script("window.scrollTo(...)")
    | Pause(seconds: nat)     // time.sleep(seconds)
    | FindReviewElements      // driver.find_elements(By.CLASS_NAME, 'item-content')
    | Quit                    // driver.quit()

  datatype ChromeOptions = ChromeOptions(
    arguments: seq<string>,
    pageLoadStrategy: string,
    prefs: seq<(string, int)>,
    extensions: seq<string>)

  /** The content settings StateUtilities.py turns off (2) or keeps (1). */
  const ContentPrefs: seq<(string, int)> := [
    ("profile.managed_default_content_settings.images", 2),
    ("profile.managed_default_content_settings.stylesheets", 2),
    ("profile.managed_default_content_settings.cookies", 2),
    ("profile.managed_default_content_settings.javascript", 1),
    ("profile.managed_default_content_settings.plugins", 2),
    ("profile.managed_default_content_settings.popups", 2)
  ]

  /**
   * The options of one attempt in StateUtilities.py: headless, the user agent, the
   * content prefs, and the adblock extension only when a non-empty path was given and
   * that path exists.
   */
  function StateUtilitiesOptions(adblockPath: Option<string>, pathExists: string -> bool, userAgent: string): (o: ChromeOptions)
    ensures "--headless" in o.arguments && "user-agent=" + userAgent in o.arguments
    ensures o.pageLoadStrategy == "eager" && o.prefs == ContentPrefs
    ensures o.extensions == [] <==> adblockPath.None? || adblockPath.value == "" || !pathExists(adblockPath.value)
    ensures o.extensions != [] ==> o.extensions == [adblockPath.value]
  {
    var args := ["--headless", "--disable-gpu", "--no-sandbox", "--disable-dev-shm-usage", "user-agent=" + userAgent];
    assert args[0] == "--headless" && args[4] == "user-agent=" + userAgent;
    var ext := if adblockPath.Some? && adblockPath.value != "" && pathExists(adblockPath.value) then [adblockPath.value] else [];
    ChromeOptions(args, "eager", ContentPrefs, ext)
  }

  /** The options of one attempt in custom_driver.py: a visible browser, no prefs, no extension. */
  function CustomDriverOptions(userAgent: string): (o: ChromeOptions)
    ensures "--headless" !in o.arguments && "user-agent=" + userAgent in o.arguments
    ensures o.pageLoadStrategy == "eager" && o.prefs == [] && o.extensions == []
  {
    var args := ["--disable-gpu", "--no-sandbox", "--disable-dev-shm-usage", "user-agent=" + userAgent];
    assert args[3] == "user-agent=" + userAgent;
    assert args[3][0] == 'u';
    ChromeOptions(args, "eager", [], [])
  }

  /** A browser session: the options it was started with and everything done to it so far. */
  class Driver {
    const options: ChromeOptions
    var actions: seq<Action>

    constructor (options: ChromeOptions)
      ensures this.options == options && actions == []
    {
      this.options := options;
      actions := [];
    }

    method Perform(a: Action)
      modifies this
      ensures actions == old(actions) + [a]
    {
      actions := actions + [a];
    }
  }

  // ---------------------------------------------------------------------------
  // init_driver

  /** What constructing `webdriver.Chrome` did on one attempt. */
  datatype StartOutcome = Started | WebDriverException | OtherException

  const MaxRetries: nat := 5
  const RetryPauseSeconds: nat := 2

  datatype StartFailure =
    | MaxRetriesReached      // Exception("Max retries reached, unable to initialize a driver.")
    | Raised(attempt: nat)   // a non-WebDriver exception escaped on this attempt

  /** The number of leading attempts, from `from` on, that failed with a WebDriverException (capped). */
  function FailuresFrom(attempt: nat -> StartOutcome, from: nat): (k: nat)
    requires from <= MaxRetries
    ensures from <= k <= MaxRetries
    ensures forall i :: from <= i < k ==> attempt(i) == WebDriverException
    ensures k < MaxRetries ==> attempt(k) != WebDriverException
    decreases MaxRetries - from
  {
    if from == MaxRetries || attempt(from) != WebDriverException then from
    else FailuresFrom(attempt, from + 1)
  }

  /** How many attempts failed with a WebDriverException before the loop stopped. */
  function Failures(attempt: nat -> StartOutcome): (k: nat)
    ensures k <= MaxRetries
    ensures forall i :: 0 <= i < k ==> attempt(i) == WebDriverException
    ensures k < MaxRetries ==> attempt(k) != WebDriverException
  {
    FailuresFrom(attempt, 0)
  }

  /**
   * Exactly one of three things happens: a driver is built on attempt `Failures`, a
   * foreign exception escapes on that attempt, or all five attempts fail.
   */
  lemma StartCases(attempt: nat -> StartOutcome)
    ensures var k := Failures(attempt);
      || (k < MaxRetries && attempt(k) == Started)
      || (k < MaxRetries && attempt(k) == OtherException)
      || (k == MaxRetries && forall i :: 0 <= i < MaxRetries ==> attempt(i) == WebDriverException)
  {
  }

  /** `Failures` depends only on the first five outcomes. */
  lemma {:induction false} FailuresFromOnlyFirstFive(a: nat -> StartOutcome, b: nat -> StartOutcome, from: nat)
    requires from <= MaxRetries
    requires forall i :: from <= i < MaxRetries ==> a(i) == b(i)
    ensures FailuresFrom(a, from) == FailuresFrom(b, from)
    decreases MaxRetries - from
  {
    if from < MaxRetries && a(from) == WebDriverException {
      FailuresFromOnlyFirstFive(a, b, from + 1);
    }
  }

  /**
   * `init_driver`: up to five attempts; each WebDriverException counts one retry and
   * pauses 2 s; the first success returns its driver at once; any other exception stops
   * the loop; five failures raise "Max retries reached". `pauses` are the sleeps taken.
   */
  method InitDriver(optionsFor: nat -> ChromeOptions, attempt: nat -> StartOutcome)
    returns (r: Result<Driver, StartFailure>, pauses: seq<nat>)
    ensures |pauses| == Failures(attempt) && forall i :: 0 <= i < |pauses| ==> pauses[i] == RetryPauseSeconds
    ensures r.Ok? <==> Failures(attempt) < MaxRetries && attempt(Failures(attempt)) == Started
    ensures r.Ok? ==> fresh(r.value) && r.value.options == optionsFor(Failures(attempt)) && r.value.actions == []
    ensures r == Err(MaxRetriesReached) <==> Failures(attempt) == MaxRetries
    ensures r.Err? && r.error.Raised? ==> r.error.attempt == Failures(attempt) && attempt(r.error.attempt) == OtherException
  {
    var retries := 0;
    pauses := [];
    while retries < MaxRetries
      invariant retries <= MaxRetries
      invariant forall i :: 0 <= i < retries ==> attempt(i) == WebDriverException
      invariant |pauses| == retries && forall i :: 0 <= i < retries ==> pauses[i] == RetryPauseSeconds
      invariant FailuresFrom(attempt, retries) == Failures(attempt)
    {
      var options := optionsFor(retries);
      match attempt(retries)
      case Started =>
        var driver := new Driver(options);
        return Ok(driver), pauses;
      case OtherException =>
        return Err(Raised(retries)), pauses;
      case WebDriverException =>
        retries := retries + 1;
        pauses := pauses + [RetryPauseSeconds];
    }
    r := Err(MaxRetriesReached);
  }

  // ---------------------------------------------------------------------------
  // URLElement

  /** `URLElement(url, url_id, url_class)`. */
  datatype URLElement = URLElement(url: string, urlId: string, urlClass: string)
  {
    /** `to_dict`. */
    function ToDict(): seq<(string, string)>
    {
      [("url", url), ("url_id", urlId), ("url_class", urlClass)]
    }
  }

  /** The value stored under `key`: the first one when the key repeats, `None` when absent. */
  function Lookup(d: seq<(string, string)>, key: string): (v: Option<string>)
    ensures v.Some? <==> exists i :: 0 <= i < |d| && d[i].0 == key
    ensures v.Some? ==> (key, v.value) in d
  {
    if d == [] then None
    else if d[0].0 == key then Some(d[0].1)
    else
      assert forall i :: 0 <= i < |d| - 1 ==> d[1..][i] == d[i + 1];
      Lookup(d[1..], key)
  }

  /** Rebuilding an element from a dict with the three keys. */
  function FromDict(d: seq<(string, string)>): Option<URLElement>
  {
    match (Lookup(d, "url"), Lookup(d, "url_id"), Lookup(d, "url_class"))
    case (Some(u), Some(i), Some(c)) => Some(URLElement(u, i, c))
    case _ => None
  }

  /** `to_dict` holds exactly the three values the element was built with. */
  lemma ToDictRoundTrip(e: URLElement)
    ensures FromDict(e.ToDict()) == Some(e)
    ensures |e.ToDict()| == 3 && e.ToDict()[0].0 == "url" && e.ToDict()[1].0 == "url_id" && e.ToDict()[2].0 == "url_class"
  {
    var d := e.ToDict();
    assert "url" != "url_id" && "url" != "url_class" && "url_id" != "url_class";
    assert d[1..] == [("url_id", e.urlId), ("url_class", e.urlClass)];
    assert d[1..][1..] == [("url_class", e.urlClass)];
    assert Lookup(d, "url") == Some(e.url);
    assert Lookup(d, "url_id") == Lookup(d[1..], "url_id") == Some(e.urlId);
    assert Lookup(d, "url_class") == Lookup(d[1..], "url_class") == Lookup(d[1..][1..], "url_class") == Some(e.urlClass);
  }
}
