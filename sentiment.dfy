/**
 * The sentiment labels, `calculate_sentiment_stats` and the two `process_reviews`
 * loops (src/main.py and main.py). The classifier (tokenizer, model, argmax) is a
 * parameter: a function from review text to one of the five label indices.
 */
module Sentiment {
  import opened Wrappers
  import opened Collections
  import opened Records

  /** An index the argmax over the model's five logits can produce. */
  type LabelIndex = i: int | 0 <= i < 5

  /** The five labels, most negative first. */
  const Labels: seq<string> := [
    "1 star (very negative)",
    "2 stars (negative)",
    "3 stars (neutral)",
    "4 stars (positive)",
    "5 stars (very positive)"
  ]

  /** The `sentiment_mapping` table of `evaluate_sentiment`. */
  function LabelOf(i: LabelIndex): string
  {
    Labels[i]
  }

  /**
   * The `sentiment_to_score` lookup of `calculate_sentiment_stats`; `None` is the
   * KeyError raised for any other string.
   */
  function ScoreOf(name: string): (score: Option<int>)
    ensures score.Some? <==> name in Labels
    ensures score.Some? ==> 1 <= score.value <= 5 && Labels[score.value - 1] == name
  {
    if name == Labels[0] then Some(1)
    else if name == Labels[1] then Some(2)
    else if name == Labels[2] then Some(3)
    else if name == Labels[3] then Some(4)
    else if name == Labels[4] then Some(5)
    else None
  }

  /** The two tables agree: the label of index i scores i + 1, and no two indices share a label. */
  lemma LabelTablesAgree(i: LabelIndex, j: LabelIndex)
    ensures ScoreOf(LabelOf(i)) == Some(i + 1)
    ensures LabelOf(i) == LabelOf(j) ==> i == j
  {
    assert Labels[i] == LabelOf(i);
    assert Labels[j] == LabelOf(j);
  }

  datatype StatsError =
    | UnknownLabel(name: string)  // KeyError from the score lookup
    | EmptyInput                   // ZeroDivisionError from dividing by len(scores)

  /**
   * `[sentiment_to_score[s] for s in sentiments]`: fails on the first string that is
   * not one of the five labels.
   */
  function Scores(sentiments: seq<string>): (r: Result<seq<int>, StatsError>)
    ensures r.Ok? <==> forall i :: 0 <= i < |sentiments| ==> sentiments[i] in Labels
    ensures r.Ok? ==> |r.value| == |sentiments|
    ensures r.Ok? ==> forall i :: 0 <= i < |sentiments| ==> ScoreOf(sentiments[i]) == Some(r.value[i])
    ensures r.Err? ==> exists i :: (0 <= i < |sentiments| && sentiments[i] !in Labels && r.error == UnknownLabel(sentiments[i]) && forall j :: 0 <= j < i ==> sentiments[j] in Labels)
  {
    if sentiments == [] then Ok([])
    else
      match ScoreOf(sentiments[0])
      case None => Err(UnknownLabel(sentiments[0]))
      case Some(v) =>
        match Scores(sentiments[1..])
        case Err(e) =>
          assert forall i :: 0 <= i < |sentiments| - 1 ==> sentiments[1..][i] == sentiments[i + 1];
          Err(e)
        case Ok(rest) => Ok([v] + rest)
  }

  lemma {:induction false} SumOfScoresBounds(scores: seq<int>)
    requires forall i :: 0 <= i < |scores| ==> 1 <= scores[i] <= 5
    ensures |scores| <= Sum(scores) <= 5 * |scores|
  {
    if scores != [] {
      SumOfScoresBounds(scores[1..]);
    }
  }

  // ---------------------------------------------------------------------------
  // Counter

  /** The position of the first occurrence of `x` in `s`. */
  function FirstIndex<T(==)>(s: seq<T>, x: T): (k: nat)
    requires x in s
    ensures k < |s| && s[k] == x
    ensures forall j :: 0 <= j < k ==> s[j] != x
  {
    if x in s[..|s| - 1] then FirstIndex(s[..|s| - 1], x) else |s| - 1
  }

  /** One `Counter` increment: the existing entry grows, or a new entry is appended. */
  function Bump(c: seq<(string, nat)>, x: string): (r: seq<(string, nat)>)
    ensures |c| <= |r| <= |c| + 1
  {
    if c == [] then [(x, 1)]
    else if c[0].0 == x then [(x, c[0].1 + 1)] + c[1..]
    else [c[0]] + Bump(c[1..], x)
  }

  /** `Counter(sentiments)`: counts in insertion (first-occurrence) order. */
  function Tally(s: seq<string>): (c: seq<(string, nat)>)
    ensures |c| <= |s| && (s != [] ==> |c| > 0)
  {
    if s == [] then [] else Bump(Tally(s[..|s| - 1]), s[|s| - 1])
  }

  function SumCounts(c: seq<(string, nat)>): nat
  {
    if c == [] then 0 else c[0].1 + SumCounts(c[1..])
  }

  lemma {:induction false} BumpExisting(c: seq<(string, nat)>, x: string, k: nat)
    requires DistinctKeys(c) && k < |c| && c[k].0 == x
    ensures Bump(c, x) == c[k := (x, c[k].1 + 1)]
  {
    if k > 0 {
      assert c[0].0 != x;
      BumpExisting(c[1..], x, k - 1);
      assert c[k := (x, c[k].1 + 1)] == [c[0]] + c[1..][k - 1 := (x, c[k].1 + 1)];
    }
  }

  lemma {:induction false} BumpFresh(c: seq<(string, nat)>, x: string)
    requires forall i :: 0 <= i < |c| ==> c[i].0 != x
    ensures Bump(c, x) == c + [(x, 1)]
  {
    if c != [] {
      assert c[0].0 != x;
      BumpFresh(c[1..], x);
      assert c + [(x, 1)] == [c[0]] + (c[1..] + [(x, 1)]);
    }
  }

  lemma {:induction false} BumpSum(c: seq<(string, nat)>, x: string)
    ensures SumCounts(Bump(c, x)) == SumCounts(c) + 1
  {
    if c != [] && c[0].0 != x {
      BumpSum(c[1..], x);
      assert ([c[0]] + Bump(c[1..], x))[1..] == Bump(c[1..], x);
    } else if c != [] {
      assert ([(x, c[0].1 + 1)] + c[1..])[1..] == c[1..];
    }
  }

  /** `c` is what `Counter(s)` holds: one entry per distinct element, its count, first-occurrence order. */
  ghost predicate IsCounterOf(s: seq<string>, c: seq<(string, nat)>)
  {
    && DistinctKeys(c)
    && (forall i :: 0 <= i < |c| ==> c[i].0 in s && c[i].1 == Count(s, c[i].0))
    && (forall x :: x in s ==> exists i :: 0 <= i < |c| && c[i].0 == x)
    && (forall i, j :: 0 <= i < j < |c| ==> FirstIndex(s, c[i].0) < FirstIndex(s, c[j].0))
  }

  lemma FirstIndexSnoc(init: seq<string>, x: string, y: string)
    requires y in init
    ensures FirstIndex(init + [x], y) == FirstIndex(init, y)
  {
    assert (init + [x])[..|init|] == init;
  }

  lemma CounterStepExisting(init: seq<string>, x: string, c: seq<(string, nat)>, k: nat)
    requires IsCounterOf(init, c) && k < |c| && c[k].0 == x
    ensures IsCounterOf(init + [x], c[k := (x, c[k].1 + 1)])
  {
    var s, t := init + [x], c[k := (x, c[k].1 + 1)];
    assert multiset(s) == multiset(init) + multiset{x};
    forall i | 0 <= i < |t| ensures FirstIndex(s, t[i].0) == FirstIndex(init, c[i].0) {
      FirstIndexSnoc(init, x, c[i].0);
    }
  }

  lemma FreshCounts(init: seq<string>, x: string, c: seq<(string, nat)>)
    requires forall i :: 0 <= i < |c| ==> c[i].0 in init && c[i].1 == Count(init, c[i].0)
    requires x !in init
    ensures forall i :: 0 <= i < |c| + 1 ==> (c + [(x, 1)])[i].0 in init + [x] && (c + [(x, 1)])[i].1 == Count(init + [x], (c + [(x, 1)])[i].0)
  {
    var s, t := init + [x], c + [(x, 1)];
    assert multiset(s) == multiset(init) + multiset{x};
    forall i | 0 <= i < |t| ensures t[i].0 in s && t[i].1 == Count(s, t[i].0) {
      if i < |c| { assert t[i] == c[i]; assert c[i].0 != x; } else { assert t[i] == (x, 1); }
    }
  }

  lemma FreshOrder(init: seq<string>, x: string, c: seq<(string, nat)>)
    requires forall i :: 0 <= i < |c| ==> c[i].0 in init
    requires forall i, j :: 0 <= i < j < |c| ==> FirstIndex(init, c[i].0) < FirstIndex(init, c[j].0)
    requires x !in init
    ensures forall i, j :: 0 <= i < j < |c| + 1 ==> FirstIndex(init + [x], (c + [(x, 1)])[i].0) < FirstIndex(init + [x], (c + [(x, 1)])[j].0)
  {
    var s, t := init + [x], c + [(x, 1)];
    assert s[..|s| - 1] == init;
    assert FirstIndex(s, x) == |init|;
    forall i | 0 <= i < |c| ensures t[i] == c[i] && FirstIndex(s, t[i].0) == FirstIndex(init, c[i].0) < |init| {
      FirstIndexSnoc(init, x, c[i].0);
    }
  }

  lemma FreshCoverage(init: seq<string>, x: string, c: seq<(string, nat)>)
    requires forall y :: y in init ==> exists i :: 0 <= i < |c| && c[i].0 == y
    ensures forall y :: y in init + [x] ==> exists i :: 0 <= i < |c| + 1 && (c + [(x, 1)])[i].0 == y
  {
    var s, t := init + [x], c + [(x, 1)];
    forall y | y in s ensures exists i :: 0 <= i < |t| && t[i].0 == y {
      if y == x { assert t[|c|].0 == x; } else { var i :| 0 <= i < |c| && c[i].0 == y; assert t[i].0 == y; }
    }
  }

  lemma FreshKeys(init: seq<string>, x: string, c: seq<(string, nat)>)
    requires DistinctKeys(c) && (forall i :: 0 <= i < |c| ==> c[i].0 in init) && x !in init
    ensures DistinctKeys(c + [(x, 1)])
  {
    assert forall i :: 0 <= i < |c| ==> (c + [(x, 1)])[i] == c[i];
  }

  lemma CounterStepFresh(init: seq<string>, x: string, c: seq<(string, nat)>)
    requires IsCounterOf(init, c) && x !in init
    ensures IsCounterOf(init + [x], c + [(x, 1)])
  {
    FreshKeys(init, x, c);
    FreshCounts(init, x, c);
    FreshCoverage(init, x, c);
    FreshOrder(init, x, c);
  }

  /** Tally computes exactly Python's Counter. */
  lemma {:induction false} TallyIsCounter(s: seq<string>)
    ensures IsCounterOf(s, Tally(s))
  {
    if s != [] {
      var init, x := s[..|s| - 1], s[|s| - 1];
      assert s == init + [x];
      TallyIsCounter(init);
      var c := Tally(init);
      if x in init {
        var k :| 0 <= k < |c| && c[k].0 == x;
        BumpExisting(c, x, k);
        CounterStepExisting(init, x, c, k);
      } else {
        BumpFresh(c, x);
        CounterStepFresh(init, x, c);
      }
    }
  }

  /** Counter's counts add up to the number of elements counted. */
  lemma {:induction false} TallySum(s: seq<string>)
    ensures SumCounts(Tally(s)) == |s|
  {
    if s != [] {
      TallySum(s[..|s| - 1]);
      BumpSum(Tally(s[..|s| - 1]), s[|s| - 1]);
    }
  }

  // ---------------------------------------------------------------------------
  // calculate_sentiment_stats

  /** `{k: (v/total)*100 for k, v in sentiment_counts.items()}`. */
  function Distribution(c: seq<(string, nat)>, total: nat): (d: seq<(string, real)>)
    requires total > 0
    ensures |d| == |c|
    ensures forall i :: 0 <= i < |c| ==> d[i] == (c[i].0, (c[i].1 as real / total as real) * 100.0)
  {
    if c == [] then [] else [(c[0].0, (c[0].1 as real / total as real) * 100.0)] + Distribution(c[1..], total)
  }

  lemma {:induction false} DistributionSum(c: seq<(string, nat)>, total: nat)
    requires total > 0
    ensures SumValues(Distribution(c, total)) == (SumCounts(c) as real / total as real) * 100.0
  {
    if c != [] {
      DistributionSum(c[1..], total);
      assert Distribution(c, total)[1..] == Distribution(c[1..], total);
    }
  }

  /** The counts as the values `max` compares. */
  function CountValues(c: seq<(string, nat)>): (vals: seq<real>)
    ensures |vals| == |c| && forall i :: 0 <= i < |c| ==> vals[i] == c[i].1 as real
  {
    seq(|c|, i requires 0 <= i < |c| => c[i].1 as real)
  }

  datatype Stats = Stats(averageScore: real, distribution: seq<(string, real)>, mostCommon: string)

  /** `sum(scores) / len(scores)`. */
  function Average(scores: seq<int>): real
    requires |scores| > 0
  {
    Sum(scores) as real / |scores| as real
  }

  /** `sentiment_counts.most_common(1)[0][0]`: the first entry of maximal count. */
  function MostCommon(c: seq<(string, nat)>): string
    requires |c| > 0
  {
    c[FirstMaxIndex(CountValues(c))].0
  }

  /**
   * `calculate_sentiment_stats`: the scores are looked up first (KeyError on an unknown
   * label), then the average divides by their number (ZeroDivisionError when empty).
   */
  function CalculateSentimentStats(sentiments: seq<string>): (r: Result<Stats, StatsError>)
    ensures r.Ok? <==> |sentiments| > 0 && forall i :: 0 <= i < |sentiments| ==> sentiments[i] in Labels
    ensures r == Err(EmptyInput) <==> sentiments == []
    ensures r.Err? && r.error.UnknownLabel? ==> r.error.name in sentiments && r.error.name !in Labels
  {
    match Scores(sentiments)
    case Err(e) => Err(e)
    case Ok(scores) =>
      if |scores| == 0 then Err(EmptyInput)
      else
        var c := Tally(sentiments);
        Ok(Stats(Average(scores), Distribution(c, |sentiments|), MostCommon(c)))
  }

  /** The three components of a successful result. */
  lemma StatsComponents(sentiments: seq<string>)
    requires CalculateSentimentStats(sentiments).Ok?
    ensures Scores(sentiments).Ok? && |Scores(sentiments).value| == |sentiments| > 0
    ensures CalculateSentimentStats(sentiments).value
      == Stats(Average(Scores(sentiments).value), Distribution(Tally(sentiments), |sentiments|), MostCommon(Tally(sentiments)))
  {
  }

  lemma MeanBounds(total: real, n: real)
    requires n > 0.0 && n <= total <= 5.0 * n
    ensures 1.0 <= total / n <= 5.0
  {
  }

  lemma WholeIsHundredPercent(n: real)
    requires n > 0.0
    ensures (n / n) * 100.0 == 100.0
  {
  }

  lemma ScoresInRange(sentiments: seq<string>)
    requires Scores(sentiments).Ok?
    ensures forall i :: 0 <= i < |Scores(sentiments).value| ==> 1 <= Scores(sentiments).value[i] <= 5
  {
    var scores := Scores(sentiments).value;
    forall i | 0 <= i < |scores| ensures 1 <= scores[i] <= 5 {
      assert ScoreOf(sentiments[i]) == Some(scores[i]);
    }
  }

  lemma AverageInRange(scores: seq<int>)
    requires |scores| > 0 && forall i :: 0 <= i < |scores| ==> 1 <= scores[i] <= 5
    ensures 1.0 <= Average(scores) <= 5.0
  {
    SumOfScoresBounds(scores);
    MeanBounds(Sum(scores) as real, |scores| as real);
  }

  /** The average is the mean of the mapped scores. */
  lemma AverageIsMeanScore(sentiments: seq<string>)
    requires CalculateSentimentStats(sentiments).Ok?
    ensures CalculateSentimentStats(sentiments).value.averageScore == Sum(Scores(sentiments).value) as real / |sentiments| as real
  {
    AverageComponent(sentiments);
  }

  lemma AverageComponent(sentiments: seq<string>)
    requires CalculateSentimentStats(sentiments).Ok?
    ensures Scores(sentiments).Ok? && |Scores(sentiments).value| == |sentiments| > 0
    ensures CalculateSentimentStats(sentiments).value.averageScore == Average(Scores(sentiments).value)
  {
  }

  /** The average lies between the lowest and the highest score. */
  lemma AverageScoreInRange(sentiments: seq<string>)
    requires CalculateSentimentStats(sentiments).Ok?
    ensures 1.0 <= CalculateSentimentStats(sentiments).value.averageScore <= 5.0
  {
    StatsComponents(sentiments);
    ScoresInRange(sentiments);
    AverageInRange(Scores(sentiments).value);
  }

  /**
   * The distribution has exactly one key per occurring label, in first-occurrence order,
   * each with its count times 100 over the total.
   */
  lemma DistributionShape(sentiments: seq<string>)
    requires CalculateSentimentStats(sentiments).Ok?
    ensures var d := CalculateSentimentStats(sentiments).value.distribution;
      && DistinctKeys(d)
      && (forall l :: l in sentiments <==> l in Keys(d))
      && (forall i :: 0 <= i < |d| ==> d[i].0 in sentiments && d[i].1 == (Count(sentiments, d[i].0) as real / |sentiments| as real) * 100.0)
      && (forall i, j :: 0 <= i < j < |d| ==> FirstIndex(sentiments, d[i].0) < FirstIndex(sentiments, d[j].0))
  {
    StatsComponents(sentiments);
    TallyIsCounter(sentiments);
    var c := Tally(sentiments);
    var d := CalculateSentimentStats(sentiments).value.distribution;
    assert forall i :: 0 <= i < |d| ==> d[i].0 == c[i].0;
    forall l ensures l in sentiments <==> l in Keys(d) {
      if l in Keys(d) { var i :| 0 <= i < |d| && Keys(d)[i] == l; }
      if l in sentiments { var i :| 0 <= i < |c| && c[i].0 == l; assert Keys(d)[i] == l; }
    }
  }

  /** The percentages add up to exactly 100. */
  lemma DistributionSumsTo100(sentiments: seq<string>)
    requires CalculateSentimentStats(sentiments).Ok?
    ensures SumValues(CalculateSentimentStats(sentiments).value.distribution) == 100.0
  {
    var c := Tally(sentiments);
    assert CalculateSentimentStats(sentiments).value.distribution == Distribution(c, |sentiments|);
    TallySum(sentiments);
    DistributionSum(c, |sentiments|);
    WholeIsHundredPercent(|sentiments| as real);
  }

  /**
   * `most_common` occurs with maximal count; among labels of equal count it is the one
   * that appears first in the input.
   */
  lemma CounterModeIsFirst(s: seq<string>, c: seq<(string, nat)>)
    requires IsCounterOf(s, c) && |c| > 0
    ensures var m := MostCommon(c);
      && m in s
      && (forall l :: l in s ==> Count(s, l) <= Count(s, m))
      && (forall l :: l in s && Count(s, l) == Count(s, m) ==> FirstIndex(s, m) <= FirstIndex(s, l))
  {
    var vals := CountValues(c);
    var k := FirstMaxIndex(vals);
    var m := c[k].0;
    forall l | l in s
      ensures Count(s, l) <= Count(s, m)
      ensures Count(s, l) == Count(s, m) ==> FirstIndex(s, m) <= FirstIndex(s, l)
    {
      var i :| 0 <= i < |c| && c[i].0 == l;
      assert vals[i] <= vals[k];
      if Count(s, l) == Count(s, m) && i != k {
        assert vals[i] == vals[k];
        assert !(i < k);
      }
    }
  }

  /**
   * `most_common` occurs with maximal count; among labels of equal count it is the one
   * that appears first in the input.
   */
  lemma MostCommonIsFirstMode(sentiments: seq<string>)
    requires CalculateSentimentStats(sentiments).Ok?
    ensures var m := CalculateSentimentStats(sentiments).value.mostCommon;
      && m in sentiments
      && (forall l :: l in sentiments ==> Count(sentiments, l) <= Count(sentiments, m))
      && (forall l :: l in sentiments && Count(sentiments, l) == Count(sentiments, m) ==> FirstIndex(sentiments, m) <= FirstIndex(sentiments, l))
  {
    TallyIsCounter(sentiments);
    var c := Tally(sentiments);
    assert CalculateSentimentStats(sentiments).value.mostCommon == MostCommon(c);
    CounterModeIsFirst(sentiments, c);
  }

  /** Every label `evaluate_sentiment` can return is accepted by the statistics. */
  lemma ClassifiedLabelsAccepted(indices: seq<LabelIndex>)
    requires |indices| > 0
    ensures CalculateSentimentStats(seq(|indices|, i requires 0 <= i < |indices| => LabelOf(indices[i]))).Ok?
  {
  }

  lemma TallyOfThreeDistinct(a: string, b: string, c: string)
    requires a != b && a != c && b != c
    ensures Tally([a, b, c]) == [(a, 1), (b, 1), (c, 1)]
  {
    var s := [a, b, c];
    assert s[..2] == [a, b] && [a, b][..1] == [a] && [a][..0] == [];
    assert Tally([a]) == [(a, 1)];
    BumpFresh([(a, 1)], b);
    BumpFresh([(a, 1), (b, 1)], c);
  }

  lemma StatsOfThreeSingletons(a: string, b: string, c: string)
    ensures MostCommon([(a, 1), (b, 1), (c, 1)]) == a
    ensures Distribution([(a, 1), (b, 1), (c, 1)], 3) == [(a, 100.0 / 3.0), (b, 100.0 / 3.0), (c, 100.0 / 3.0)]
  {
    var vals := CountValues([(a, 1), (b, 1), (c, 1)]);
    assert vals == [1.0, 1.0, 1.0];
    assert vals[..2] == [1.0, 1.0] && vals[..2][..1] == [1.0];
    var d := Distribution([(a, 1), (b, 1), (c, 1)], 3);
    assert (1 as real / 3 as real) * 100.0 == 100.0 / 3.0;
    assert d[0] == (a, 100.0 / 3.0) && d[1] == (b, 100.0 / 3.0) && d[2] == (c, 100.0 / 3.0);
  }

  lemma ScoresOfThree()
    ensures Scores([Labels[4], Labels[0], Labels[2]]) == Ok([5, 1, 3])
  {
    var s := [Labels[4], Labels[0], Labels[2]];
    var r := Scores(s).value;
    assert ScoreOf(s[0]) == Some(5) && ScoreOf(s[1]) == Some(1) && ScoreOf(s[2]) == Some(3);
    assert r == [r[0], r[1], r[2]];
  }

  /** Three reviews rated 5, 1 and 3 stars: mean 3, a third each, the 5-star label wins the tie. */
  lemma ThreeReviewScenario()
    ensures CalculateSentimentStats([Labels[4], Labels[0], Labels[2]])
      == Ok(Stats(3.0, [(Labels[4], 100.0 / 3.0), (Labels[0], 100.0 / 3.0), (Labels[2], 100.0 / 3.0)], Labels[4]))
  {
    ThreeLabelsDistinct();
    ScoresOfThree();
    ThreeDistinctLabels(Labels[4], Labels[0], Labels[2], [5, 1, 3]);
  }

  /** Three distinct labels: each a third of the whole, the first one most common. */
  lemma ThreeDistinctLabels(a: string, b: string, c: string, scores: seq<int>)
    requires a != b && a != c && b != c
    requires Scores([a, b, c]) == Ok(scores) && scores == [5, 1, 3]
    ensures CalculateSentimentStats([a, b, c]) == Ok(Stats(3.0, [(a, 100.0 / 3.0), (b, 100.0 / 3.0), (c, 100.0 / 3.0)], a))
  {
    TallyOfThreeDistinct(a, b, c);
    StatsOfThreeSingletons(a, b, c);
    AverageOfThree(scores);
    StatsFromParts([a, b, c], scores, [(a, 1), (b, 1), (c, 1)]);
  }

  lemma AverageOfThree(scores: seq<int>)
    requires scores == [5, 1, 3]
    ensures Average(scores) == 3.0
  {
    assert scores[1..] == [1, 3] && scores[1..][1..] == [3] && scores[1..][1..][1..] == [];
    assert Sum(scores[1..][1..]) == 3;
    assert Sum(scores[1..]) == 4;
    assert Sum(scores) == 9;
  }

  lemma ThreeLabelsDistinct()
    ensures Labels[4] != Labels[0] && Labels[4] != Labels[2] && Labels[0] != Labels[2]
  {
    assert Labels[4][0] != Labels[0][0] && Labels[4][0] != Labels[2][0] && Labels[0][0] != Labels[2][0];
  }

  lemma StatsFromParts(s: seq<string>, scores: seq<int>, c: seq<(string, nat)>)
    requires Scores(s) == Ok(scores) && |scores| > 0 && Tally(s) == c && |c| > 0
    ensures CalculateSentimentStats(s) == Ok(Stats(Average(scores), Distribution(c, |s|), MostCommon(c)))
  {
  }

  // ---------------------------------------------------------------------------
  // process_reviews

  datatype Analysis = Analysis(
    averageScore: real,
    sentimentDistribution: seq<(string, real)>,
    mostCommon: string,
    reviews: seq<ProcessedReview>)

  function Sentiments(ps: seq<ProcessedReview>): (s: seq<string>)
    ensures |s| == |ps| && forall i :: 0 <= i < |ps| ==> s[i] == ps[i].sentiment
  {
    seq(|ps|, i requires 0 <= i < |ps| => ps[i].sentiment)
  }

  /**
   * `process_reviews` of src/main.py, given what `get_reviews` returned: `None` when
   * nothing came back; otherwise one {text, sentiment} per review, in order, and the
   * statistics over exactly those sentiments.
   */
  method ProcessReviews(reviews: Option<seq<RawReview>>, classify: string -> LabelIndex) returns (r: Option<Analysis>)
    ensures r.None? <==> reviews.None? || reviews.value == []
    ensures r.Some? ==> reviews.Some? && |r.value.reviews| == |reviews.value|
    ensures r.Some? ==> forall i :: 0 <= i < |reviews.value| ==> r.value.reviews[i] == ProcessedReview(reviews.value[i].text, LabelOf(classify(reviews.value[i].text)))
    ensures r.Some? ==> CalculateSentimentStats(Sentiments(r.value.reviews)) == Ok(Stats(r.value.averageScore, r.value.sentimentDistribution, r.value.mostCommon))
  {
    if reviews.None? || reviews.value == [] {
      return None;
    }
    var rs := reviews.value;
    var sentiments: seq<string> := [];
    var processed: seq<ProcessedReview> := [];
    for i := 0 to |rs|
      invariant |processed| == i && sentiments == Sentiments(processed)
      invariant forall j :: 0 <= j < i ==> processed[j] == ProcessedReview(rs[j].text, LabelOf(classify(rs[j].text)))
    {
      var sentiment := LabelOf(classify(rs[i].text));
      sentiments := sentiments + [sentiment];
      processed := processed + [ProcessedReview(rs[i].text, sentiment)];
    }
    var stats := CalculateSentimentStats(sentiments);
    r := Some(Analysis(stats.value.averageScore, stats.value.distribution, stats.value.mostCommon, processed));
  }

  /** The texts handed to the classifier, one per review. */
  function Texts(rs: seq<RawReview>): (ts: seq<string>)
    ensures |ts| == |rs| && forall i :: 0 <= i < |rs| ==> ts[i] == rs[i].text
  {
    seq(|rs|, i requires 0 <= i < |rs| => rs[i].text)
  }

  /**
   * `process_reviews` of main.py, which prints instead of returning: `classified` is the
   * sequence of texts passed to the classifier and `summary` the statistics it prints.
   * Nothing is classified when no reviews came back.
   */
  method ConsoleProcessReviews(reviews: Option<seq<RawReview>>, classify: string -> LabelIndex)
    returns (classified: seq<string>, summary: Option<Stats>)
    ensures reviews.None? || reviews.value == [] ==> classified == [] && summary == None
    ensures reviews.Some? && reviews.value != [] ==> classified == Texts(reviews.value) && summary.Some?
    ensures summary.Some? ==> reviews.Some? && CalculateSentimentStats(seq(|reviews.value|, i requires 0 <= i < |reviews.value| => LabelOf(classify(reviews.value[i].text)))) == Ok(summary.value)
  {
    classified, summary := [], None;
    if reviews.None? || reviews.value == [] {
      return;
    }
    var rs := reviews.value;
    var sentiments: seq<string> := [];
    for i := 0 to |rs|
      invariant |sentiments| == i && classified == Texts(rs[..i])
      invariant forall j :: 0 <= j < i ==> sentiments[j] == LabelOf(classify(rs[j].text))
    {
      classified := classified + [rs[i].text];
      sentiments := sentiments + [LabelOf(classify(rs[i].text))];
    }
    assert rs[..|rs|] == rs;
    assert sentiments == seq(|rs|, i requires 0 <= i < |rs| => LabelOf(classify(rs[i].text)));
    var stats := CalculateSentimentStats(sentiments);
    summary := Some(stats.value);
  }
}
