/** Failure-carrying wrappers used for the source's None returns and exceptions. */
module Wrappers {

  /** Python's `None` versus a present value. */
  datatype Option<+T> = None | Some(value: T) {
    function GetOr(default: T): T
    {
      match this
      case Some(v) => v
      case None => default
    }
  }

  /** A value, or the exception that the source raises instead. */
  datatype Result<+T, +E> = Ok(value: T) | Err(error: E)
}

/** Sequence helpers shared by the aggregation and the store. */
module Collections {

  /** Number of occurrences of `x` in `s`. */
  function Count<T(==)>(s: seq<T>, x: T): nat
  {
    multiset(s)[x]
  }

  /**
   * The index Python's `max(items, key=...)` picks: the first position whose
   * value is maximal (later equal values never replace the current maximum).
   */
  function FirstMaxIndex(vals: seq<real>): (k: nat)
    requires |vals| > 0
    ensures k < |vals|
    ensures forall i :: 0 <= i < |vals| ==> vals[i] <= vals[k]
    ensures forall i :: 0 <= i < k ==> vals[i] < vals[k]
  {
    if |vals| == 1 then 0
    else
      var k := FirstMaxIndex(vals[..|vals| - 1]);
      if vals[|vals| - 1] > vals[k] then |vals| - 1 else k
  }

  /** Python's `sum` over a list of integers. */
  function Sum(s: seq<int>): int
  {
    if s == [] then 0 else s[0] + Sum(s[1..])
  }

  /** Sum of the values of a list of (key, value) pairs. */
  function SumValues<K>(entries: seq<(K, real)>): real
  {
    if entries == [] then 0.0 else entries[0].1 + SumValues(entries[1..])
  }

  /** The keys of a list of (key, value) pairs, in order. */
  function Keys<K, V>(entries: seq<(K, V)>): (ks: seq<K>)
    ensures |ks| == |entries|
    ensures forall i :: 0 <= i < |entries| ==> ks[i] == entries[i].0
  {
    seq(|entries|, i requires 0 <= i < |entries| => entries[i].0)
  }

  /** No key occurs twice. */
  ghost predicate DistinctKeys<K, V>(entries: seq<(K, V)>)
  {
    forall i, j :: 0 <= i < j < |entries| ==> entries[i].0 != entries[j].0
  }
}

/** The review records that flow between the scraper, the store and the analysis. */
module Records {
  import opened Wrappers

  /** `{'text': ..., 'rating': ...}` as the scrapers build it and `add_reviews` reads it. */
  datatype RawReview = RawReview(text: string, rating: Option<int>)

  /** `{'text': ..., 'sentiment': ...}` as `process_reviews` builds it. */
  datatype ProcessedReview = ProcessedReview(text: string, sentiment: string)

  /** `{'text': ..., 'sentiment': ..., 'highlight': ...}` as the analysis history stores it. */
  datatype SnapshotReview = SnapshotReview(text: string, sentiment: string, highlight: bool)
}
