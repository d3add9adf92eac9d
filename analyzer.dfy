/**
 * `analyze_review` of src/analyzer.py: the TextBlob polarity of a review (a parameter
 * here, since the lexicon is not part of the model) bucketed into three ratings.
 */
module Polarity {

  const VeryGood: string := "Very Good"
  const Neutral: string := "Neutral"
  const VeryBad: string := "Very Bad"

  /** The band edge; polarities strictly beyond it in either direction leave Neutral. */
  const Threshold: real := 0.1

  /** The three ratings from worst to best. */
  const Ratings: seq<string> := [VeryBad, Neutral, VeryGood]

  /** The rating of a polarity: above 0.1 is good, below -0.1 bad, anything else neutral. */
  function AnalyzeReview(polarity: real): (rating: string)
    ensures rating in Ratings
    ensures rating == VeryGood <==> polarity > Threshold
    ensures rating == VeryBad <==> polarity < -Threshold
    ensures rating == Neutral <==> -Threshold <= polarity <= Threshold
  {
    if polarity > Threshold then VeryGood
    else if polarity < -Threshold then VeryBad
    else Neutral
  }

  /** The position of a rating in `Ratings`, worst first. */
  function Rank(rating: string): (r: int)
    ensures 0 <= r < |Ratings| <==> rating in Ratings
    ensures rating in Ratings ==> Ratings[r] == rating
  {
    if rating == VeryBad then 0
    else if rating == Neutral then 1
    else if rating == VeryGood then 2
    else -1
  }

  /** Both band edges are neutral. */
  lemma EdgesAreNeutral()
    ensures AnalyzeReview(0.1) == Neutral && AnalyzeReview(-0.1) == Neutral
  {
  }

  /** A larger polarity never gets a worse rating. */
  lemma AnalyzeReviewMonotone(p: real, q: real)
    requires p <= q
    ensures Rank(AnalyzeReview(p)) <= Rank(AnalyzeReview(q))
  {
  }
}
