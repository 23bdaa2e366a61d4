/** The rule-based scorer of analysis/sentiment_analysis.py: the score from
    the emotion features, the five-way label, the confidence, the class
    probability spread and the per-text analysis record. */
module SentimentScore {
  import opened Common
  import opened SentimentText

  // ----- the score -----

  /** `max(0.0, min(100.0, x))`. */
  function Clamp100(x: real): (r: real)
    ensures 0.0 <= r <= 100.0
    ensures 0.0 <= x <= 100.0 ==> r == x
  {
    Max(0.0, Min(100.0, x))
  }

  /** The clamped rule score: 5 for a swear word; otherwise 50, +20 for a
      positive word, -20 for a negative one, -35 for a very negative one,
      and for a positive text +10 with "!!" and +5 with "👍🏻". */
  function RuleScore(f: EmotionFeatures, bang: bool, thumbs: bool): real
  {
    if f.swear then 5.0
    else
      Clamp100(50.0 + (if f.positive then 20.0 else 0.0) - (if f.negative then 20.0 else 0.0)
               - (if f.veryNegative then 35.0 else 0.0)
               + (if f.positive && bang then 10.0 else 0.0)
               + (if f.positive && thumbs then 5.0 else 0.0))
  }

  /** A swear word fixes the score at 5 whatever else the text holds; any
      score lies in [0, 85]; a text with no dictionary word scores 50. */
  lemma RuleScoreFacts(f: EmotionFeatures, bang: bool, thumbs: bool)
    ensures f.swear ==> RuleScore(f, bang, thumbs) == 5.0
    ensures 0.0 <= RuleScore(f, bang, thumbs) <= 85.0
    ensures !f.swear && !f.positive && !f.negative && !f.veryNegative ==> RuleScore(f, bang, thumbs) == 50.0
    ensures !f.positive ==> RuleScore(f, bang, thumbs) <= 50.0
  {
  }

  /** A positive word never lowers the score, and a negative or very
      negative one never raises it. */
  lemma RuleScoreMonotone(f: EmotionFeatures, bang: bool, thumbs: bool)
    requires !f.swear
    ensures RuleScore(f.(positive := true), bang, thumbs) >= RuleScore(f.(positive := false), bang, thumbs)
    ensures RuleScore(f.(negative := true), bang, thumbs) <= RuleScore(f.(negative := false), bang, thumbs)
    ensures RuleScore(f.(veryNegative := true), bang, thumbs) <= RuleScore(f.(veryNegative := false), bang, thumbs)
  {
  }

  const Thumbs := "👍🏻"

  /** `_score_with_rules`: the score updated rule by rule. The "!!" and
      emoji tests look at the raw text, the dictionary at the prepared one. */
  method ScoreWithRules(d: EmotionDict, text: string) returns (score: real)
    ensures score == RuleScore(EmotionFeaturesOf(d, text), Contains(text, "!!") || Contains(text, "!!!!"),
                               Contains(text, Thumbs))
  {
    var f := EmotionFeaturesOf(d, text);
    score := 50.0;
    if f.swear {
      score := 5.0;
    } else {
      if f.positive {
        score := score + 20.0;
      }
      if f.negative {
        score := score - 20.0;
      }
      if f.veryNegative {
        score := score - 35.0;
      }
      if f.positive {
        if Contains(text, "!!") || Contains(text, "!!!!") {
          score := score + 10.0;
        }
        if Contains(text, Thumbs) {
          score := score + 5.0;
        }
      }
    }
    score := Max(0.0, Min(100.0, score));
  }

  // ----- labels and confidence -----

  /** `LABEL_MAPPING`'s five classes, by index 0..4. */
  datatype Label = Negative | SomewhatNegative | Neutral | SomewhatPositive | Positive

  function LabelIndex(l: Label): (i: nat)
    ensures i < 5
  {
    match l
    case Negative => 0
    case SomewhatNegative => 1
    case Neutral => 2
    case SomewhatPositive => 3
    case Positive => 4
  }

  function LabelAt(i: nat): (l: Label)
    requires i < 5
    ensures LabelIndex(l) == i
  {
    if i == 0 then Negative
    else if i == 1 then SomewhatNegative
    else if i == 2 then Neutral
    else if i == 3 then SomewhatPositive
    else Positive
  }

  /** The label's display text. */
  function LabelText(l: Label): string
  {
    match l
    case Negative => "부정"
    case SomewhatNegative => "다소 부정"
    case Neutral => "중립"
    case SomewhatPositive => "다소 긍정"
    case Positive => "긍정"
  }

  /** The labelling in `analyze_text`. A score of exactly 45 is not
      neutral (the neutral band is open) and is labelled somewhat negative. */
  function SentimentLabel(score: real): (l: Label)
    ensures l == Positive <==> score >= 75.0
    ensures l == SomewhatPositive <==> 55.0 <= score < 75.0
    ensures l == Neutral <==> 45.0 < score < 55.0
    ensures l == SomewhatNegative <==> 25.0 <= score <= 45.0
    ensures l == Negative <==> score < 25.0
  {
    if score >= 75.0 then Positive
    else if score >= 55.0 then SomewhatPositive
    else if score > 45.0 && score < 55.0 then Neutral
    else if score >= 25.0 then SomewhatNegative
    else Negative
  }

  /** A higher score never gets a lower class. */
  lemma LabelMonotone(a: real, b: real)
    requires a <= b
    ensures LabelIndex(SentimentLabel(a)) <= LabelIndex(SentimentLabel(b))
  {
  }

  datatype Confidence = High | Medium | Low

  function ConfidenceText(c: Confidence): string
  {
    match c
    case High => "높음"
    case Medium => "중간"
    case Low => "낮음"
  }

  /** "높음" when the score is more than 20 from the middle, else "중간". */
  function ConfidenceOf(score: real): (c: Confidence)
    ensures c == High <==> Abs(score - 50.0) > 20.0
    ensures c != Low
  {
    if Abs(score - 50.0) > 20.0 then High else Medium
  }

  /** A neutral score is never of high confidence, and a score of high
      confidence is on the same side of 50 as its class. */
  lemma ConfidenceAgreesWithLabel(score: real)
    ensures SentimentLabel(score) == Neutral ==> ConfidenceOf(score) == Medium
    ensures ConfidenceOf(score) == High ==>
      (score > 50.0 && LabelIndex(SentimentLabel(score)) >= 3) ||
      (score < 50.0 && LabelIndex(SentimentLabel(score)) <= 1)
  {
  }

  // ----- class probabilities -----

  /** The weight of class `i`: `max(0, 1.5 - |score / 25 - i|)`. */
  function Weight(score: real, i: nat): (w: real)
    ensures 0.0 <= w <= 1.5
  {
    Max(0.0, 1.5 - Abs(score / 25.0 - i as real))
  }

  /** The five weights. */
  function Weights(score: real): (w: seq<real>)
    ensures |w| == 5 && forall i :: 0 <= i < 5 ==> w[i] == Weight(score, i)
  {
    [Weight(score, 0), Weight(score, 1), Weight(score, 2), Weight(score, 3), Weight(score, 4)]
  }

  /** The loop appending one weight per class. */
  method ClassWeights(score: real) returns (weights: seq<real>)
    ensures weights == Weights(score)
  {
    weights := [];
    for i := 0 to 5
      invariant |weights| == i
      invariant forall k :: 0 <= k < i ==> weights[k] == Weight(score, k)
    {
      var dist := Abs(score / 25.0 - i as real);
      var w := Max(0.0, 1.5 - dist);
      weights := weights + [w];
    }
  }

  function WeightTotal(score: real): real
  {
    Sum(Weights(score))
  }

  lemma WeightTotalIs(score: real)
    ensures WeightTotal(score) ==
      Weight(score, 0) + Weight(score, 1) + Weight(score, 2) + Weight(score, 3) + Weight(score, 4)
  {
    var w := Weights(score);
    assert w[..4] == [w[0], w[1], w[2], w[3]];
    assert w[..4][..3] == [w[0], w[1], w[2]];
    assert w[..4][..3][..2] == [w[0], w[1]];
    assert w[..4][..3][..2][..1] == [w[0]];
    assert Sum(w) == Sum(w[..4]) + w[4];
    assert Sum(w[..4]) == Sum(w[..4][..3]) + w[3];
    assert Sum(w[..4][..3]) == Sum(w[..4][..3][..2]) + w[2];
    assert Sum(w[..4][..3][..2]) == Sum(w[..4][..3][..2][..1]) + w[1];
    assert Sum(w[..4][..3][..2][..1]) == Sum(w[..4][..3][..2][..1][..0]) + w[0];
  }

  /** For a score in [0, 100] the nearest class is at most half a class
      away and weighs at least 1, so the total weight is positive and the
      `or 1.0` guard is not what divides. */
  lemma WeightTotalPositive(score: real)
    requires 0.0 <= score <= 100.0
    ensures WeightTotal(score) >= 1.0
  {
    WeightTotalIs(score);
    var t := score / 25.0;
    assert 0.0 <= t <= 4.0;
    if t < 0.5 {
      assert Weight(score, 0) >= 1.0;
    } else if t < 1.5 {
      assert Weight(score, 1) >= 1.0;
    } else if t < 2.5 {
      assert Weight(score, 2) >= 1.0;
    } else if t < 3.5 {
      assert Weight(score, 3) >= 1.0;
    } else {
      assert Weight(score, 4) >= 1.0;
    }
  }

  /** `sum(weights) or 1.0`. */
  function Divider(score: real): (r: real)
    ensures r > 0.0
  {
    var t := WeightTotal(score);
    WeightTotalIs(score);
    if t == 0.0 then 1.0 else t
  }

  /** The class percentages, by class index (before Python's rounding to
      two decimals). */
  function ClassProbabilitiesOf(score: real): (r: seq<(Label, real)>)
    ensures |r| == 5
    ensures forall i :: 0 <= i < 5 ==> r[i].0 == LabelAt(i) && r[i].1 == Weight(score, i) / Divider(score) * 100.0
  {
    var d := Divider(score);
    [(Negative, Weight(score, 0) / d * 100.0), (SomewhatNegative, Weight(score, 1) / d * 100.0),
     (Neutral, Weight(score, 2) / d * 100.0), (SomewhatPositive, Weight(score, 3) / d * 100.0),
     (Positive, Weight(score, 4) / d * 100.0)]
  }

  /** Every percentage is non-negative, and for a score in [0, 100] they
      add up to 100. */
  lemma ClassProbabilitiesSpread(score: real)
    ensures forall i :: 0 <= i < 5 ==> ClassProbabilitiesOf(score)[i].1 >= 0.0
    ensures 0.0 <= score <= 100.0 ==>
      ClassProbabilitiesOf(score)[0].1 + ClassProbabilitiesOf(score)[1].1 + ClassProbabilitiesOf(score)[2].1 +
      ClassProbabilitiesOf(score)[3].1 + ClassProbabilitiesOf(score)[4].1 == 100.0
  {
    var d := Divider(score);
    var p := ClassProbabilitiesOf(score);
    forall i | 0 <= i < 5
      ensures p[i].1 >= 0.0
    {
      ShareNonNegative(Weight(score, i), d);
    }
    if 0.0 <= score <= 100.0 {
      WeightTotalIs(score);
      WeightTotalPositive(score);
      SharesOfTotal(Weight(score, 0), Weight(score, 1), Weight(score, 2), Weight(score, 3), Weight(score, 4), d);
    }
  }

  lemma ShareNonNegative(w: real, d: real)
    requires w >= 0.0 && d > 0.0
    ensures w / d * 100.0 >= 0.0
  {
  }

  /** Five parts of a positive total, as percentages of it, add up to 100. */
  lemma SharesOfTotal(w0: real, w1: real, w2: real, w3: real, w4: real, d: real)
    requires d > 0.0 && d == w0 + w1 + w2 + w3 + w4
    ensures w0 / d * 100.0 + w1 / d * 100.0 + w2 / d * 100.0 + w3 / d * 100.0 + w4 / d * 100.0 == 100.0
  {
    var k := 100.0 / d;
    assert d * k == 100.0;
    assert w0 / d * 100.0 == w0 * k;
    assert w1 / d * 100.0 == w1 * k;
    assert w2 / d * 100.0 == w2 * k;
    assert w3 / d * 100.0 == w3 * k;
    assert w4 / d * 100.0 == w4 * k;
    assert w0 * k + w1 * k + w2 * k + w3 * k + w4 * k == (w0 + w1 + w2 + w3 + w4) * k;
  }

  /** `_class_probabilities_from_score`: weights, total, percentages. */
  method ClassProbabilities(score: real) returns (probs: seq<(Label, real)>)
    ensures probs == ClassProbabilitiesOf(score)
  {
    var weights := ClassWeights(score);
    var total := Sum(weights);
    if total == 0.0 {
      total := 1.0;
    }
    assert total == Divider(score);
    probs := [];
    for i := 0 to 5
      invariant |probs| == i
      invariant forall k :: 0 <= k < i ==> probs[k] == (LabelAt(k), Weight(score, k) / total * 100.0)
    {
      probs := probs + [(LabelAt(i), weights[i] / total * 100.0)];
    }
  }

  // ----- the per-text analysis -----

  /** The record `analyze_text` returns; the fallback record carries no
      class probabilities. */
  datatype Analysis = Analysis(score: real, sentiment: Label, confidence: Confidence,
                               classProbabilities: Option<seq<(Label, real)>>)

  /** The fixed record of the `except` branch. */
  const FallbackAnalysis := Analysis(50.0, Neutral, Low, None)

  /** What `analyze_text` answers for a text; a value that is not a string
      (`None`) makes `lower()` raise and yields the fallback record. */
  function AnalysisOf(d: EmotionDict, text: Option<string>): Analysis
  {
    match text
    case None => FallbackAnalysis
    case Some(t) =>
      var s := RuleScore(EmotionFeaturesOf(d, t), Contains(t, "!!") || Contains(t, "!!!!"), Contains(t, Thumbs));
      Analysis(s, SentimentLabel(s), ConfidenceOf(s), Some(ClassProbabilitiesOf(s)))
  }

  /** `analyze_text`. */
  method AnalyzeText(d: EmotionDict, text: Option<string>) returns (r: Analysis)
    ensures r == AnalysisOf(d, text)
  {
    if text.None? {
      return FallbackAnalysis;
    }
    var baseScore := ScoreWithRules(d, text.value);
    var sentiment := SentimentLabel(baseScore);
    var classProbs := ClassProbabilities(baseScore);
    r := Analysis(baseScore, sentiment, ConfidenceOf(baseScore), Some(classProbs));
  }

  /** A string always gets a score in [0, 85], the label and confidence of
      that score and class percentages adding up to 100; only the fallback
      has low confidence. */
  lemma AnalysisFacts(d: EmotionDict, text: Option<string>)
    ensures var r := AnalysisOf(d, text);
      (text.Some? ==>
        0.0 <= r.score <= 85.0 && r.sentiment == SentimentLabel(r.score) &&
        r.confidence == ConfidenceOf(r.score) && r.classProbabilities.Some? &&
        r.classProbabilities.value[0].1 + r.classProbabilities.value[1].1 + r.classProbabilities.value[2].1 +
        r.classProbabilities.value[3].1 + r.classProbabilities.value[4].1 == 100.0) &&
      (r.confidence == Low <==> text.None?)
  {
    if text.Some? {
      var t := text.value;
      var f := EmotionFeaturesOf(d, t);
      var bang := Contains(t, "!!") || Contains(t, "!!!!");
      RuleScoreFacts(f, bang, Contains(t, Thumbs));
      ClassProbabilitiesSpread(RuleScore(f, bang, Contains(t, Thumbs)));
    }
  }
}
