/** The review-quality scoring of annotated (or machine-ascribed) product reviews:
    each review is filtered, its consumer values and ascribed features are turned
    into scores on a 0..5 scale, and three weighted credibility questions CQ1..CQ3
    and their minimum, the review quality, are computed from those scores.

    The JSON input is modelled by datatypes. A dictionary of annotation counts
    (label -> number of annotators) is a `Tally`, a list of (label, count) pairs in
    the dictionary's insertion order. Its keys are already classified as Python's
    `float()` would see them: the literal "n/a", a number, or any other text,
    which `float()` rejects. The `processed` dictionary is a `map<string, Value>`;
    the source mutates it in place and hands it back, the model returns the new map. */
module ReviewQuality {
  import opened Wrappers

  /** A key of an annotation tally. */
  datatype Label = NotApplicable | Numeric(v: real) | Other(text: string)

  type Tally = seq<(Label, nat)>

  /** One entry of `review[data_source]`: a tally of annotator answers, or a single
      machine-ascribed number (None stands for JSON null and for NaN). */
  datatype Field = Counts(tally: Tally) | Number(x: Option<real>)

  /** The fields of a review that the scoring reads. `sources` maps a data source
      ("summary_annotations", "ML Ascription") to its answers per feature;
      `history` is None when "reviewer_history" is absent or null, and holds None
      for an entry `int()` cannot convert. */
  datatype Review = Review(
    reviewerId: string,
    reviewTime: string,
    sources: map<string, map<string, Field>>,
    overall: Option<real>,
    verified: bool,
    image: bool,
    history: Option<seq<Option<int>>>)

  /** A value of the processed dictionary: the review ID is text, every score a number. */
  datatype Value = Text(s: string) | Num(x: real)

  /** The exceptions the source can raise: a missing dictionary key, a failing
      conversion or weight check, and an operation on a value of the wrong kind. */
  datatype Error = KeyError(key: string) | ValueError | TypeError

  const SummarySource := "summary_annotations"
  const MLSource := "ML Ascription"
  const PredictedRating := "Predicted Rating"
  const ProductRating := "Product Rating"

  /** `m[k]`, which raises KeyError when k is absent. */
  function Lookup<V>(m: map<string, V>, k: string): Result<V, Error>
  {
    if k in m then Success(m[k]) else Failure(KeyError(k))
  }

  function Abs(x: real): real {
    if x < 0.0 then -x else x
  }

  // ---------------------------------------------------------------------------
  // compute_CQ

  /** The first key of `fs` that `m` lacks, scanning from the front. */
  function MissingKey<V>(fs: seq<string>, m: map<string, V>): (r: Option<string>)
    ensures r.None? <==> forall f :: f in fs ==> f in m
    ensures r.Some? ==> r.value in fs && r.value !in m
  {
    if |fs| == 0 then None
    else if fs[0] !in m then Some(fs[0])
    else MissingKey(fs[1..], m)
  }

  /** When the first i keys are present and the i-th is not, the i-th is the missing one. */
  lemma {:induction false} MissingKeyAt<V>(fs: seq<string>, m: map<string, V>, i: nat)
    requires i < |fs| && fs[i] !in m
    requires forall j :: 0 <= j < i ==> fs[j] in m
    ensures MissingKey(fs, m) == Some(fs[i])
  {
    if i > 0 {
      MissingKeyAt(fs[1..], m, i - 1);
    }
  }

  /** The sum of the weights of the feature set, accumulated in list order. */
  function WeightSum(w: map<string, real>, fs: seq<string>): real
    requires forall f :: f in fs ==> f in w
  {
    if |fs| == 0 then 0.0 else WeightSum(w, fs[..|fs| - 1]) + w[fs[|fs| - 1]]
  }

  /** The weighted sum of the features of the set, accumulated in list order. */
  function WeightedSum(w: map<string, real>, features: map<string, real>, fs: seq<string>): real
    requires forall f :: f in fs ==> f in w && f in features
  {
    if |fs| == 0 then 0.0
    else WeightedSum(w, features, fs[..|fs| - 1]) + w[fs[|fs| - 1]] * features[fs[|fs| - 1]]
  }

  /** What `compute_CQ` returns or raises: KeyError for the first feature without a
      weight, ValueError unless the weights sum to exactly 1, KeyError for the first
      feature without a value, and otherwise the weighted sum over the weight sum. */
  function Cq(w: map<string, real>, features: map<string, real>, fs: seq<string>): (r: Result<real, Error>)
    ensures r.Success? <==>
      (forall f :: f in fs ==> f in w && f in features) && WeightSum(w, fs) == 1.0
    ensures r.Success? ==> r.value == WeightedSum(w, features, fs)
    ensures MissingKey(fs, w).Some? ==> r == Failure(KeyError(MissingKey(fs, w).value))
    ensures MissingKey(fs, w).None? && WeightSum(w, fs) != 1.0 ==> r == Failure(ValueError)
  {
    match MissingKey(fs, w)
    case Some(k) => Failure(KeyError(k))
    case None =>
      if WeightSum(w, fs) != 1.0 then Failure(ValueError)
      else match MissingKey(fs, features)
        case Some(k) => Failure(KeyError(k))
        case None => Success(WeightedSum(w, features, fs) / WeightSum(w, fs))
  }

  /** The two accumulator loops of `compute_CQ`. */
  method ComputeCQ(w: map<string, real>, features: map<string, real>, fs: seq<string>)
    returns (r: Result<real, Error>)
    ensures r == Cq(w, features, fs)
  {
    var denominator := 0.0;
    var i := 0;
    while i < |fs|
      invariant 0 <= i <= |fs|
      invariant forall j :: 0 <= j < i ==> fs[j] in w
      invariant denominator == WeightSum(w, fs[..i])
    {
      if fs[i] !in w {
        MissingKeyAt(fs, w, i);
        return Failure(KeyError(fs[i]));
      }
      assert fs[..i + 1][..i] == fs[..i];
      denominator := denominator + w[fs[i]];
      i := i + 1;
    }
    assert fs[..i] == fs;
    if denominator != 1.0 {
      return Failure(ValueError);
    }
    var numerator := 0.0;
    i := 0;
    while i < |fs|
      invariant 0 <= i <= |fs|
      invariant forall j :: 0 <= j < i ==> fs[j] in features
      invariant numerator == WeightedSum(w, features, fs[..i])
    {
      if fs[i] !in features {
        MissingKeyAt(fs, features, i);
        return Failure(KeyError(fs[i]));
      }
      assert fs[..i + 1][..i] == fs[..i];
      numerator := numerator + w[fs[i]] * features[fs[i]];
      i := i + 1;
    }
    assert fs[..i] == fs;
    r := Success(numerator / denominator);
  }

  /** The features, each lowered by d. */
  function Lowered(features: map<string, real>, d: real): (r: map<string, real>)
    ensures r.Keys == features.Keys
    ensures forall f :: f in r ==> r[f] == features[f] - d
  {
    map f | f in features :: features[f] - d
  }

  /** Lowering every feature by d lowers the weighted sum by d times the weight sum. */
  lemma {:induction false} LoweredSum(w: map<string, real>, features: map<string, real>, fs: seq<string>, d: real)
    requires forall f :: f in fs ==> f in w && f in features
    ensures WeightedSum(w, Lowered(features, d), fs) == WeightedSum(w, features, fs) - d * WeightSum(w, fs)
  {
    if |fs| > 0 {
      var init, f := fs[..|fs| - 1], fs[|fs| - 1];
      LoweredSum(w, features, init, d);
      Distribute(w[f], features[f], d, WeightSum(w, init), WeightSum(w, fs));
    }
  }

  lemma Distribute(c: real, x: real, d: real, n0: real, n: real)
    requires n == n0 + c
    ensures d * n == d * n0 + c * d && c * (x - d) == c * x - c * d
  {
  }

  lemma ProductSign(a: real, b: real)
    requires 0.0 <= a
    ensures 0.0 <= b ==> 0.0 <= a * b
    ensures b <= 0.0 ==> a * b <= 0.0
  {
  }

  /** With non-negative weights, non-negative features give a non-negative weighted sum. */
  lemma {:induction false} WeightedSumNonNegative(w: map<string, real>, features: map<string, real>, fs: seq<string>)
    requires forall f :: f in fs ==> f in w && f in features
    requires forall i :: 0 <= i < |fs| ==> 0.0 <= w[fs[i]] && 0.0 <= features[fs[i]]
    ensures 0.0 <= WeightedSum(w, features, fs)
  {
    if |fs| > 0 {
      var init, f := fs[..|fs| - 1], fs[|fs| - 1];
      WeightedSumNonNegative(w, features, init);
      ProductSign(w[f], features[f]);
    }
  }

  /** With non-negative weights, non-positive features give a non-positive weighted sum. */
  lemma {:induction false} WeightedSumNonPositive(w: map<string, real>, features: map<string, real>, fs: seq<string>)
    requires forall f :: f in fs ==> f in w && f in features
    requires forall i :: 0 <= i < |fs| ==> 0.0 <= w[fs[i]] && features[fs[i]] <= 0.0
    ensures WeightedSum(w, features, fs) <= 0.0
  {
    if |fs| > 0 {
      var init, f := fs[..|fs| - 1], fs[|fs| - 1];
      WeightedSumNonPositive(w, features, init);
      ProductSign(w[f], features[f]);
    }
  }

  /** A CQ with non-negative weights is a convex combination: it lies between the
      smallest and the largest value of its features. */
  lemma CqBetween(w: map<string, real>, features: map<string, real>, fs: seq<string>, lo: real, hi: real)
    requires Cq(w, features, fs).Success?
    requires forall f :: f in fs ==> 0.0 <= w[f] && lo <= features[f] <= hi
    ensures lo <= Cq(w, features, fs).value <= hi
  {
    LoweredSum(w, features, fs, lo);
    WeightedSumNonNegative(w, Lowered(features, lo), fs);
    LoweredSum(w, features, fs, hi);
    WeightedSumNonPositive(w, Lowered(features, hi), fs);
  }

  // ---------------------------------------------------------------------------
  // compute_quality

  const Cq1Features := ["FUrev", "ITrev", "CErev"]
  const Cq2Features := ["ARrev", "IErev", "Vrev"]
  const Cq3Features := ["CSrev", "PRrev"]

  /** The weights the scoring script is configured with. */
  const ConfiguredWeights: map<string, real> := map[
    "FUrev" := 0.023912, "ITrev" := 0.126529, "CErev" := 0.849559,
    "ARrev" := 0.761987, "IErev" := 0.023478, "Vrev" := 0.214535,
    "CSrev" := 0.195492, "PRrev" := 0.804508]

  /** In exact arithmetic the configured weights pass the weight check of every CQ. */
  lemma ConfiguredWeightsSumToOne()
    ensures WeightSum(ConfiguredWeights, Cq1Features) == 1.0
    ensures WeightSum(ConfiguredWeights, Cq2Features) == 1.0
    ensures WeightSum(ConfiguredWeights, Cq3Features) == 1.0
  {
    var w := ConfiguredWeights;
    assert WeightSum(w, Cq1Features[..1]) == w["FUrev"];
    assert WeightSum(w, Cq1Features[..2]) == w["FUrev"] + w["ITrev"];
    assert WeightSum(w, Cq2Features[..1]) == w["ARrev"];
    assert WeightSum(w, Cq2Features[..2]) == w["ARrev"] + w["IErev"];
    assert WeightSum(w, Cq3Features[..1]) == w["CSrev"];
  }

  /** No feature belongs to two CQs. */
  lemma FeatureSetsDisjoint()
    ensures forall f :: f in Cq1Features ==> f !in Cq2Features && f !in Cq3Features
    ensures forall f :: f in Cq2Features ==> f !in Cq3Features
  {
  }

  /** Python's `min(a, b, c)`: the first of the smallest. */
  function Min3(a: real, b: real, c: real): (r: real)
    ensures r <= a && r <= b && r <= c
    ensures r == a || r == b || r == c
  {
    var m := if b < a then b else a;
    if c < m then c else m
  }

  /** A numeric entry of the processed dictionary. */
  function NumberAt(entry: map<string, Value>, key: string): Result<real, Error>
  {
    if key !in entry then Failure(KeyError(key))
    else match entry[key]
      case Num(x) => Success(x)
      case Text(_) => Failure(TypeError)
  }

  /** The features dictionary of `compute_quality`, read from the processed entry. */
  function Features(entry: map<string, Value>): Result<map<string, real>, Error> {
    var fu :- NumberAt(entry, "Feature Usage");
    var it :- NumberAt(entry, "Interaction Time");
    var ce :- NumberAt(entry, "Context Experience");
    var ar :- NumberAt(entry, "Author Rating");
    var ie :- NumberAt(entry, "Image Exists");
    var v :- NumberAt(entry, "Verified");
    var cs :- NumberAt(entry, "Clarity of Sentiment");
    var pr :- NumberAt(entry, "Product Rating");
    Success(map["FUrev" := fu, "ITrev" := it, "CErev" := ce, "ARrev" := ar,
                "IErev" := ie, "Vrev" := v, "CSrev" := cs, "PRrev" := pr])
  }

  datatype QualityScores = QualityScores(cq1: real, cq2: real, cq3: real, quality: real)

  /** `compute_quality`: the three CQs of the entry and their minimum. */
  function ComputeQuality(entry: map<string, Value>, w: map<string, real>): (r: Result<QualityScores, Error>)
    ensures r.Success? <==> (
      && Features(entry).Success?
      && Cq(w, Features(entry).value, Cq1Features).Success?
      && Cq(w, Features(entry).value, Cq2Features).Success?
      && Cq(w, Features(entry).value, Cq3Features).Success?)
    ensures r.Success? ==> var s := r.value; var f := Features(entry).value;
      && s.cq1 == WeightedSum(w, f, Cq1Features)
      && s.cq2 == WeightedSum(w, f, Cq2Features)
      && s.cq3 == WeightedSum(w, f, Cq3Features)
      && s.quality <= s.cq1 && s.quality <= s.cq2 && s.quality <= s.cq3
      && (s.quality == s.cq1 || s.quality == s.cq2 || s.quality == s.cq3)
  {
    var features :- Features(entry);
    var cq1 :- Cq(w, features, Cq1Features);
    var cq2 :- Cq(w, features, Cq2Features);
    var cq3 :- Cq(w, features, Cq3Features);
    Success(QualityScores(cq1, cq2, cq3, Min3(cq1, cq2, cq3)))
  }

  /** The features of an entry whose scores are on the 0..5 scale are on that scale. */
  lemma FeaturesOnScale(entry: map<string, Value>)
    requires forall k :: k in entry && entry[k].Num? ==> 0.0 <= entry[k].x <= 5.0
    ensures Features(entry).Success? ==> forall k :: k in Features(entry).value ==> 0.0 <= Features(entry).value[k] <= 5.0
  {
  }

  /** With non-negative weights and every score on the 0..5 scale, each CQ and the
      quality are on that scale too. */
  lemma QualityOnScale(entry: map<string, Value>, w: map<string, real>)
    requires ComputeQuality(entry, w).Success?
    requires forall f :: f in w ==> 0.0 <= w[f]
    requires forall k :: k in entry && entry[k].Num? ==> 0.0 <= entry[k].x <= 5.0
    ensures var s := ComputeQuality(entry, w).value;
      0.0 <= s.cq1 <= 5.0 && 0.0 <= s.cq2 <= 5.0 && 0.0 <= s.cq3 <= 5.0 && 0.0 <= s.quality <= 5.0
  {
    var f := Features(entry).value;
    FeaturesOnScale(entry);
    CqBetween(w, f, Cq1Features, 0.0, 5.0);
    CqBetween(w, f, Cq2Features, 0.0, 5.0);
    CqBetween(w, f, Cq3Features, 0.0, 5.0);
  }

  // ---------------------------------------------------------------------------
  // return_key_info

  /** The summary record of one review: its category and ID, the three CQs,
      their sum and the quality. */
  function ReturnKeyInfo(category: string, entry: map<string, Value>, cq1: real, cq2: real, cq3: real, quality: real)
    : (r: Result<map<string, Value>, Error>)
    ensures r.Success? <==> "Review ID" in entry
    ensures r.Success? ==>
      && r.value.Keys == {"Product Category", "Review ID", "CQ1", "CQ2", "CQ3", "CQ Sum", "Review Quality"}
      && r.value["Review ID"] == entry["Review ID"]
      && r.value["CQ Sum"] == Num(cq1 + cq2 + cq3)
  {
    var id :- Lookup(entry, "Review ID");
    Success(map["Product Category" := Text(category), "Review ID" := id,
                "CQ1" := Num(cq1), "CQ2" := Num(cq2), "CQ3" := Num(cq3),
                "CQ Sum" := Num(cq1 + cq2 + cq3), "Review Quality" := Num(quality)])
  }

  /** For the scores of `compute_quality`, the recorded quality is at most a third
      of the recorded CQ sum: the minimum is at most the mean. */
  lemma KeyInfoOfQuality(category: string, entry: map<string, Value>, w: map<string, real>)
    requires ComputeQuality(entry, w).Success? && "Review ID" in entry
    ensures var s := ComputeQuality(entry, w).value;
      var info := ReturnKeyInfo(category, entry, s.cq1, s.cq2, s.cq3, s.quality);
      && info.Success?
      && info.value["Review Quality"] == Num(s.quality)
      && 3.0 * s.quality <= info.value["CQ Sum"].x
  {
  }

  // ---------------------------------------------------------------------------
  // ascription_scoring

  /** Whether a tally entry enters the mean: "n/a" is skipped for Predicted Rating. */
  predicate Included(l: Label, skipNotApplicable: bool) {
    !(l == NotApplicable && skipNotApplicable)
  }

  /** The number a label stands for: "n/a" counts as 0. */
  function LabelValue(l: Label): real {
    if l.Numeric? then l.v else 0.0
  }

  /** Every key of the tally can be converted by `float()` or is "n/a". */
  predicate Convertible(t: Tally) {
    forall i :: 0 <= i < |t| ==> !t[i].0.Other?
  }

  /** The count-weighted sum of the included labels, in list order. */
  function WeightedCount(t: Tally, skip: bool): real {
    if |t| == 0 then 0.0
    else
      var (l, c) := t[|t| - 1];
      WeightedCount(t[..|t| - 1], skip) + (if Included(l, skip) then LabelValue(l) * c as real else 0.0)
  }

  /** The number of answers with an included label. */
  function CountTotal(t: Tally, skip: bool): nat {
    if |t| == 0 then 0
    else
      var (l, c) := t[|t| - 1];
      CountTotal(t[..|t| - 1], skip) + (if Included(l, skip) then c else 0)
  }

  /** The count-weighted mean of the tally, 0 when nothing is counted. */
  function TallyMean(t: Tally, skip: bool): real {
    var total := CountTotal(t, skip);
    if total > 0 then WeightedCount(t, skip) / total as real else 0.0
  }

  /** The answers `ascription_scoring` reads: the OVERALL tally for Predicted Rating
      under the annotations, the feature's own entry otherwise. */
  function AscriptionOutput(review: Review, feature: string, source: string): Result<Field, Error> {
    var answers :- Lookup(review.sources, source);
    Lookup(answers, if source == SummarySource && feature == PredictedRating then "OVERALL" else feature)
  }

  /** The ascription score of the answers: the tally mean for the annotations, the
      number (None counting as 0) for the machine ascription. An unknown source
      raises ValueError, and so does a tally key `float()` rejects; answers of the
      other kind raise TypeError. */
  function AscriptionValue(output: Field, feature: string, source: string): (r: Result<real, Error>)
    ensures source != SummarySource && source != MLSource ==> r == Failure(ValueError)
    ensures source == MLSource && output.Number? ==>
      r == Success(if output.x.Some? then output.x.value else 0.0)
  {
    if source == SummarySource then
      match output
      case Counts(t) => TallyScore(t, feature == PredictedRating)
      case Number(_) => Failure(TypeError)
    else if source == MLSource then
      match output
      case Number(x) => Success(if x.Some? then x.value else 0.0)
      case Counts(_) => Failure(TypeError)
    else Failure(ValueError)
  }

  /** What `ascription_scoring` does to `processed`: Predicted Rating is stored as
      "Product Rating", 5 minus its distance to the reviewer's own rating; every
      other feature's score is stored under the feature's name. */
  function Ascription(review: Review, feature: string, processed: map<string, Value>, source: string)
    : (r: Result<map<string, Value>, Error>)
  {
    var output :- AscriptionOutput(review, feature, source);
    var score :- AscriptionValue(output, feature, source);
    if feature == PredictedRating then
      match review.overall
      case None => Failure(TypeError)
      case Some(o) => Success(processed[ProductRating := Num(5.0 - Abs(score - o))])
    else
      Success(processed[feature := Num(score)])
  }

  /** The key `ascription_scoring` writes for a feature. */
  function AscriptionKey(feature: string): string {
    if feature == PredictedRating then ProductRating else feature
  }

  /** `ascription_scoring` writes one numeric entry, under the feature's key, and
      keeps every other entry; the Product Rating it writes is never above 5. */
  lemma AscriptionWritesOneKey(review: Review, feature: string, processed: map<string, Value>, source: string)
    requires Ascription(review, feature, processed, source).Success?
    ensures var p := Ascription(review, feature, processed, source).value;
      && p.Keys == processed.Keys + {AscriptionKey(feature)}
      && p[AscriptionKey(feature)].Num?
      && (forall k :: k in processed && k != AscriptionKey(feature) ==> p[k] == processed[k])
      && (feature == PredictedRating ==> p[ProductRating].x <= 5.0)
  {
  }

  /** The count-weighted sum of the included labels' distances above d. */
  function Deviation(t: Tally, skip: bool, d: real): real {
    if |t| == 0 then 0.0
    else
      var (l, c) := t[|t| - 1];
      Deviation(t[..|t| - 1], skip, d) + (if Included(l, skip) then c as real * (LabelValue(l) - d) else 0.0)
  }

  /** The deviation from d is the weighted count less d times the count. */
  lemma {:induction false} DeviationIs(t: Tally, skip: bool, d: real)
    ensures Deviation(t, skip, d) == WeightedCount(t, skip) - d * CountTotal(t, skip) as real
  {
    if |t| > 0 {
      var init := t[..|t| - 1];
      var (l, c) := t[|t| - 1];
      DeviationIs(init, skip, d);
      if Included(l, skip) {
        Distribute(c as real, LabelValue(l), d, CountTotal(init, skip) as real, CountTotal(t, skip) as real);
      }
    }
  }

  /** Labels all at least d give a non-negative deviation from d. */
  lemma {:induction false} DeviationAbove(t: Tally, skip: bool, d: real)
    requires forall i :: 0 <= i < |t| && Included(t[i].0, skip) ==> d <= LabelValue(t[i].0)
    ensures 0.0 <= Deviation(t, skip, d)
  {
    if |t| > 0 {
      var init := t[..|t| - 1];
      var (l, c) := t[|t| - 1];
      assert forall i :: 0 <= i < |init| ==> init[i] == t[i];
      DeviationAbove(init, skip, d);
      ProductSign(c as real, LabelValue(l) - d);
    }
  }

  /** Labels all at most d give a non-positive deviation from d. */
  lemma {:induction false} DeviationBelow(t: Tally, skip: bool, d: real)
    requires forall i :: 0 <= i < |t| && Included(t[i].0, skip) ==> LabelValue(t[i].0) <= d
    ensures Deviation(t, skip, d) <= 0.0
  {
    if |t| > 0 {
      var init := t[..|t| - 1];
      var (l, c) := t[|t| - 1];
      assert forall i :: 0 <= i < |init| ==> init[i] == t[i];
      DeviationBelow(init, skip, d);
      ProductSign(c as real, LabelValue(l) - d);
    }
  }

  /** When anything is counted, the tally mean is a mean: it lies within the range
      of the counted values (on a 1..5 answer scale, within 1..5). */
  lemma TallyMeanBetween(t: Tally, skip: bool, lo: real, hi: real)
    requires CountTotal(t, skip) > 0
    requires forall i :: 0 <= i < |t| && Included(t[i].0, skip) ==> lo <= LabelValue(t[i].0) <= hi
    ensures lo <= TallyMean(t, skip) <= hi
  {
    MeanDeviation(t, skip, lo);
    DeviationAbove(t, skip, lo);
    MeanDeviation(t, skip, hi);
    DeviationBelow(t, skip, hi);
  }

  /** The mean lies above (below) d exactly when the deviation from d is
      non-negative (non-positive). */
  lemma MeanDeviation(t: Tally, skip: bool, d: real)
    requires CountTotal(t, skip) > 0
    ensures d <= TallyMean(t, skip) <==> 0.0 <= Deviation(t, skip, d)
    ensures TallyMean(t, skip) <= d <==> Deviation(t, skip, d) <= 0.0
  {
    DeviationIs(t, skip, d);
    QuotientSign(WeightedCount(t, skip), CountTotal(t, skip), d, Deviation(t, skip, d), TallyMean(t, skip));
  }

  /** The quotient s / count lies above d exactly when s - d * count is non-negative. */
  lemma QuotientSign(s: real, count: nat, d: real, dev: real, mean: real)
    requires 0 < count && dev == s - d * count as real && mean == s / count as real
    ensures d <= mean <==> 0.0 <= dev
    ensures mean <= d <==> dev <= 0.0
  {
    var n := count as real;
    assert mean - d == dev / n;
  }

  /** What the loop over the annotation tally yields: ValueError at a key `float()`
      rejects, and otherwise the tally mean. */
  function TallyScore(t: Tally, skip: bool): Result<real, Error> {
    if Convertible(t) then Success(TallyMean(t, skip)) else Failure(ValueError)
  }

  /** The loop of `ascription_scoring` over the annotation tally. */
  method ScoreTally(t: Tally, skip: bool) returns (r: Result<real, Error>)
    ensures r == TallyScore(t, skip)
  {
    var sumWeighted := 0.0;
    var totalCount := 0;
    var i := 0;
    while i < |t|
      invariant 0 <= i <= |t|
      invariant Convertible(t[..i])
      invariant sumWeighted == WeightedCount(t[..i], skip) && totalCount == CountTotal(t[..i], skip)
    {
      var (key, count) := t[i];
      assert t[..i + 1][..i] == t[..i];
      if key == NotApplicable && skip {
        i := i + 1;
        continue;
      }
      if key.Other? {
        assert !Convertible(t);
        return Failure(ValueError);
      }
      sumWeighted := sumWeighted + LabelValue(key) * count as real;
      totalCount := totalCount + count;
      i := i + 1;
    }
    assert t[..i] == t;
    r := Success(if totalCount > 0 then sumWeighted / totalCount as real else 0.0);
  }

  /** `ascription_scoring`. */
  method AscriptionScoring(review: Review, feature: string, processed: map<string, Value>, source: string)
    returns (r: Result<map<string, Value>, Error>)
    ensures r == Ascription(review, feature, processed, source)
  {
    var output :- AscriptionOutput(review, feature, source);
    var score: real;
    if source == SummarySource {
      if output.Number? {
        return Failure(TypeError);
      }
      score :- ScoreTally(output.tally, feature == PredictedRating);
    } else if source == MLSource {
      if output.Counts? {
        return Failure(TypeError);
      }
      score := if output.x.Some? then output.x.value else 0.0;
    } else {
      return Failure(ValueError);
    }
    if feature == PredictedRating {
      if review.overall.None? {
        return Failure(TypeError);
      }
      r := Success(processed[ProductRating := Num(5.0 - Abs(score - review.overall.value))]);
    } else {
      r := Success(processed[feature := Num(score)]);
    }
  }

  // ---------------------------------------------------------------------------
  // consumer_value_scoring

  /** The position of Python's `max(d, key=d.get)` on the tally: the first entry
      with the largest count. */
  function BestIndex(t: Tally): (b: nat)
    requires |t| > 0
    ensures b < |t|
    ensures forall j :: 0 <= j < |t| ==> t[j].1 <= t[b].1
    ensures forall j :: 0 <= j < b ==> t[j].1 < t[b].1
  {
    if |t| == 1 then 0
    else
      var b := BestIndex(t[..|t| - 1]);
      if t[|t| - 1].1 > t[b].1 then |t| - 1 else b
  }

  /** What `consumer_value_scoring` does to `processed`: 0 when the most-counted
      answer is "n/a" (or the machine value is missing), 5 otherwise. */
  function ConsumerValue(review: Review, value: string, processed: map<string, Value>, source: string)
    : (r: Result<map<string, Value>, Error>)
    ensures r.Success? ==>
      && r.value.Keys == processed.Keys + {value}
      && (r.value[value] == Num(0.0) || r.value[value] == Num(5.0))
      && forall k :: k in processed && k != value ==> r.value[k] == processed[k]
    ensures source != SummarySource && source != MLSource ==> r.Failure?
  {
    var answers :- Lookup(review.sources, source);
    var output :- Lookup(answers, value);
    if source == SummarySource then
      match output
      case Counts(t) =>
        if |t| == 0 then Failure(ValueError)
        else Success(processed[value := Num(if t[BestIndex(t)].0 == NotApplicable then 0.0 else 5.0)])
      case Number(_) => Failure(TypeError)
    else if source == MLSource then
      match output
      case Number(x) => Success(processed[value := Num(if x.None? then 0.0 else 5.0)])
      case Counts(_) => Failure(TypeError)
    else Failure(ValueError)
  }

  /** Under the annotations, a consumer value scores 0 exactly when "n/a" is the
      first of the most-counted answers. */
  lemma ConsumerValueZero(review: Review, value: string, processed: map<string, Value>)
    requires ConsumerValue(review, value, processed, SummarySource).Success?
    ensures var t := review.sources[SummarySource][value].tally;
      (ConsumerValue(review, value, processed, SummarySource).value[value] == Num(0.0) <==>
        exists b :: 0 <= b < |t| && t[b].0 == NotApplicable &&
          (forall j :: 0 <= j < |t| ==> t[j].1 <= t[b].1) && (forall j :: 0 <= j < b ==> t[j].1 < t[b].1))
  {
    var t := review.sources[SummarySource][value].tally;
    var best := BestIndex(t);
    assert forall b :: (0 <= b < |t| && (forall j :: 0 <= j < |t| ==> t[j].1 <= t[b].1) &&
      (forall j :: 0 <= j < b ==> t[j].1 < t[b].1)) ==> b == best;
  }

  /** Under the machine ascription, a consumer value scores 0 exactly when the value
      is missing. */
  lemma ConsumerValueZeroMachine(review: Review, value: string, processed: map<string, Value>)
    requires ConsumerValue(review, value, processed, MLSource).Success?
    ensures ConsumerValue(review, value, processed, MLSource).value[value] == Num(0.0) <==>
      review.sources[MLSource][value].x.None?
  {
  }

  /** The consumer-value loop of `process_review`, as a fold in list order. */
  function ConsumerValues(review: Review, values: seq<string>, processed: map<string, Value>, source: string)
    : Result<map<string, Value>, Error>
    decreases |values|
  {
    if |values| == 0 then Success(processed)
    else
      var p :- ConsumerValue(review, values[0], processed, source);
      ConsumerValues(review, values[1..], p, source)
  }

  /** After the consumer-value loop every consumer value scores 0 or 5, and every
      other entry is as it was. */
  lemma {:induction false} ConsumerValuesBinary(review: Review, values: seq<string>, processed: map<string, Value>, source: string)
    requires ConsumerValues(review, values, processed, source).Success?
    ensures var p := ConsumerValues(review, values, processed, source).value;
      && (forall v :: v in values ==> v in p && (p[v] == Num(0.0) || p[v] == Num(5.0)))
      && (forall k :: k in processed && k !in values ==> k in p && p[k] == processed[k])
    decreases |values|
  {
    if |values| > 0 {
      var p := ConsumerValue(review, values[0], processed, source).value;
      ConsumerValuesBinary(review, values[1..], p, source);
    }
  }

  /** The ascription loop of `process_review`, as a fold in list order. */
  function Ascriptions(review: Review, features: seq<string>, processed: map<string, Value>, source: string)
    : Result<map<string, Value>, Error>
    decreases |features|
  {
    if |features| == 0 then Success(processed)
    else
      var p :- Ascription(review, features[0], processed, source);
      Ascriptions(review, features[1..], p, source)
  }

  /** The ascription loop leaves every entry alone that no feature writes. */
  lemma {:induction false} AscriptionsKeep(review: Review, features: seq<string>, processed: map<string, Value>, source: string, k: string)
    requires Ascriptions(review, features, processed, source).Success?
    requires forall f :: f in features ==> AscriptionKey(f) != k
    ensures var p := Ascriptions(review, features, processed, source).value;
      (k in p <==> k in processed) && (k in processed ==> p[k] == processed[k])
    decreases |features|
  {
    if |features| > 0 {
      AscriptionWritesOneKey(review, features[0], processed, source);
      var p := Ascription(review, features[0], processed, source).value;
      AscriptionsKeep(review, features[1..], p, source, k);
    }
  }

  // ---------------------------------------------------------------------------
  // process_review

  /** The Review ID: reviewer ID and review time joined by an underscore. */
  function ReviewId(review: Review): string {
    review.reviewerId + "_" + review.reviewTime
  }

  /** A tally, or TypeError for a number where `.values()` or `[label]` is applied. */
  function TallyOf(f: Field): Result<Tally, Error> {
    match f
    case Counts(t) => Success(t)
    case Number(_) => Failure(TypeError)
  }

  /** The sum of all counts of a tally. */
  function TotalCount(t: Tally): nat {
    if |t| == 0 then 0 else TotalCount(t[..|t| - 1]) + t[|t| - 1].1
  }

  /** `d[label]` on a tally of flag names. */
  function FlagCount(t: Tally, flag: string): Result<nat, Error> {
    if |t| == 0 then Failure(KeyError(flag))
    else if t[0].0 == Other(flag) then Success(t[0].1)
    else FlagCount(t[1..], flag)
  }

  /** The two numbers the filter of `process_review` reads from the annotations:
      how many annotators judged Clarity of Sentiment, and how many flagged the
      review as a bot, as not aligned with its description, or as disingenuous. */
  function FilterCounts(review: Review): Result<(nat, nat), Error> {
    var summary :- Lookup(review.sources, SummarySource);
    var clarityField :- Lookup(summary, "Clarity of Sentiment");
    var clarity :- TallyOf(clarityField);
    var flaggedField :- Lookup(summary, "Review Flagged");
    var flagged :- TallyOf(flaggedField);
    var bot :- FlagCount(flagged, "Bot");
    var notAligned :- FlagCount(flagged, "Desc. not Aligned");
    var disingenuous :- FlagCount(flagged, "Disingenuous");
    Success((TotalCount(clarity), bot + notAligned + disingenuous))
  }

  /** A review is skipped when the data source is missing, nobody judged its
      clarity, or anybody flagged it as deceptive. */
  predicate Skipped(review: Review, source: string, counts: (nat, nat)) {
    source !in review.sources || counts.0 < 1 || counts.1 != 0
  }

  /** Author Rating: the mean of the reviewer's history capped at 5, plus the
      history's length capped at 5, halved; a history with an entry `int()` cannot
      convert counts as all zeros, an absent or empty history scores 0. */
  function AuthorRating(history: Option<seq<Option<int>>>): real {
    if history.None? || |history.value| == 0 then 0.0
    else
      var h := history.value;
      var n := |h|;
      var average := HistorySum(h) as real / n as real;
      ((if average <= 5.0 then average else 5.0) + (if n <= 5 then n as real else 5.0)) / 2.0
  }

  /** The Author Rating is at most 5; with a history of non-negative ratings it is
      at least 0, and a history that fails to convert scores only its length. */
  lemma AuthorRatingBounds(history: Option<seq<Option<int>>>)
    ensures AuthorRating(history) <= 5.0
    ensures history.Some? && (forall i :: 0 <= i < |history.value| ==> history.value[i].Some? ==> history.value[i].value >= 0)
      ==> 0.0 <= AuthorRating(history)
    ensures history.Some? && 0 < |history.value| && (exists i :: 0 <= i < |history.value| && history.value[i].None?)
      ==> AuthorRating(history) == (if |history.value| <= 5 then |history.value| as real else 5.0) / 2.0
  {
    if history.Some? && 0 < |history.value| {
      var h := history.value;
      if forall i :: 0 <= i < |h| ==> h[i].Some? ==> h[i].value >= 0 {
        SomeSumNonNegative(h);
        assert HistorySum(h) >= 0;
        assert HistorySum(h) as real / |h| as real >= 0.0;
      }
    }
  }

  lemma {:induction false} SomeSumNonNegative(h: seq<Option<int>>)
    requires forall i :: 0 <= i < |h| ==> h[i].Some? ==> h[i].value >= 0
    ensures SomeSum(h) >= 0
  {
    if |h| > 0 {
      SomeSumNonNegative(h[..|h| - 1]);
    }
  }

  /** The sum of the converted history: 0 when any entry fails to convert. */
  function HistorySum(h: seq<Option<int>>): int {
    if forall i :: 0 <= i < |h| ==> h[i].Some? then SomeSum(h) else 0
  }

  function SomeSum(h: seq<Option<int>>): int {
    if |h| == 0 then 0 else SomeSum(h[..|h| - 1]) + (if h[|h| - 1].Some? then h[|h| - 1].value else 0)
  }

  /** The scores `process_review` adds last: Verified and Image Exists as 0 or 5,
      and Author Rating, each only when asked for. */
  function NonAscriptions(review: Review, nonAscriptions: seq<string>, processed: map<string, Value>): map<string, Value> {
    var p1 := if "verified" in nonAscriptions then processed["Verified" := Num(if review.verified then 5.0 else 0.0)] else processed;
    var p2 := if "image" in nonAscriptions then p1["Image Exists" := Num(if review.image then 5.0 else 0.0)] else p1;
    if "reviewer_history" in nonAscriptions then p2["Author Rating" := Num(AuthorRating(review.history))] else p2
  }

  /** The processed dictionary before any score: the Review ID alone. */
  function InitialProcessed(review: Review): map<string, Value> {
    map["Review ID" := Text(ReviewId(review))]
  }

  /** The last three scores are exactly what the review says, and every other
      entry is kept. */
  lemma NonAscriptionScores(review: Review, nonAscriptions: seq<string>, processed: map<string, Value>)
    ensures var p := NonAscriptions(review, nonAscriptions, processed);
      && (forall k :: k in processed && k !in {"Verified", "Image Exists", "Author Rating"} ==> k in p && p[k] == processed[k])
      && ("verified" in nonAscriptions ==> p["Verified"] == Num(if review.verified then 5.0 else 0.0))
      && ("image" in nonAscriptions ==> p["Image Exists"] == Num(if review.image then 5.0 else 0.0))
      && ("reviewer_history" in nonAscriptions ==> p["Author Rating"] == Num(AuthorRating(review.history)))
  {
  }

  /** What `process_review` returns or raises: None for a skipped review, and
      otherwise the processed dictionary: the Review ID, the consumer values, the
      ascriptions and the other scores, in that order. */
  function ProcessedReview(review: Review, consumerValues: seq<string>, ascriptions: seq<string>,
                           nonAscriptions: seq<string>, source: string)
    : (r: Result<Option<map<string, Value>>, Error>)
    ensures FilterCounts(review).Failure? ==> r == Failure(FilterCounts(review).error)
    ensures FilterCounts(review).Success? && Skipped(review, source, FilterCounts(review).value) ==> r == Success(None)
    ensures FilterCounts(review).Success? && !Skipped(review, source, FilterCounts(review).value) ==>
      (r.Failure? || r.value.Some?)
    ensures r.Success? && r.value.Some? ==>
      && ConsumerValues(review, consumerValues, InitialProcessed(review), source).Success?
      && var p1 := ConsumerValues(review, consumerValues, InitialProcessed(review), source).value;
      && Ascriptions(review, ascriptions, p1, source).Success?
      && r.value.value == NonAscriptions(review, nonAscriptions, Ascriptions(review, ascriptions, p1, source).value)
  {
    var counts :- FilterCounts(review);
    if Skipped(review, source, counts) then Success(None)
    else
      var p1 :- ConsumerValues(review, consumerValues, InitialProcessed(review), source);
      var p2 :- Ascriptions(review, ascriptions, p1, source);
      Success(Some(NonAscriptions(review, nonAscriptions, p2)))
  }

  /** A processed review keeps its ID, unless a consumer value or an ascription
      overwrites that key; the consumer values that no later step overwrites score
      0 or 5. */
  lemma ProcessedScores(review: Review, consumerValues: seq<string>, ascriptions: seq<string>,
                        nonAscriptions: seq<string>, source: string)
    requires ProcessedReview(review, consumerValues, ascriptions, nonAscriptions, source).Success?
    requires ProcessedReview(review, consumerValues, ascriptions, nonAscriptions, source).value.Some?
    ensures var p := ProcessedReview(review, consumerValues, ascriptions, nonAscriptions, source).value.value;
      && (("Review ID" !in consumerValues && forall f :: f in ascriptions ==> AscriptionKey(f) != "Review ID") ==>
            "Review ID" in p && p["Review ID"] == Text(ReviewId(review)))
      && (forall v :: (v in consumerValues && (forall f :: f in ascriptions ==> AscriptionKey(f) != v)
            && v !in {"Verified", "Image Exists", "Author Rating"}) ==>
            v in p && (p[v] == Num(0.0) || p[v] == Num(5.0)))
  {
    var p0 := InitialProcessed(review);
    var p1 := ConsumerValues(review, consumerValues, p0, source).value;
    var p2 := Ascriptions(review, ascriptions, p1, source).value;
    ConsumerValuesBinary(review, consumerValues, p0, source);
    NonAscriptionScores(review, nonAscriptions, p2);
    if "Review ID" !in consumerValues && (forall f :: f in ascriptions ==> AscriptionKey(f) != "Review ID") {
      AscriptionsKeep(review, ascriptions, p1, source, "Review ID");
    }
    forall v | v in consumerValues && (forall f :: f in ascriptions ==> AscriptionKey(f) != v)
      ensures v in p2 && (p2[v] == Num(0.0) || p2[v] == Num(5.0))
    {
      AscriptionsKeep(review, ascriptions, p1, source, v);
    }
  }

  /** `process_review`, with its loops over the consumer values and the ascriptions. */
  method ProcessReview(review: Review, consumerValues: seq<string>, ascriptions: seq<string>,
                       nonAscriptions: seq<string>, source: string)
    returns (r: Result<Option<map<string, Value>>, Error>)
    ensures r == ProcessedReview(review, consumerValues, ascriptions, nonAscriptions, source)
  {
    var processed := InitialProcessed(review);
    var counts :- FilterCounts(review);
    if Skipped(review, source, counts) {
      return Success(None);
    }
    ghost var p0 := processed;
    var i := 0;
    while i < |consumerValues|
      invariant 0 <= i <= |consumerValues|
      invariant ConsumerValues(review, consumerValues[i..], processed, source) == ConsumerValues(review, consumerValues, p0, source)
    {
      var next := ConsumerValue(review, consumerValues[i], processed, source);
      assert consumerValues[i..][1..] == consumerValues[i + 1..];
      if next.Failure? {
        return Failure(next.error);
      }
      processed := next.value;
      i := i + 1;
    }
    ghost var p1 := processed;
    i := 0;
    while i < |ascriptions|
      invariant 0 <= i <= |ascriptions|
      invariant Ascriptions(review, ascriptions[i..], processed, source) == Ascriptions(review, ascriptions, p1, source)
    {
      var next := AscriptionScoring(review, ascriptions[i], processed, source);
      assert ascriptions[i..][1..] == ascriptions[i + 1..];
      if next.Failure? {
        return Failure(next.error);
      }
      processed := next.value;
      i := i + 1;
    }
    r := Success(Some(NonAscriptions(review, nonAscriptions, processed)));
  }
}
