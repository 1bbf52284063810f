/** The scoring formulas of a synthetic review (a "position to know" argument) and of
    a sample of reviews, as pure functions. The review and platform classes call
    these from the methods that store the results in their fields. */
module ReviewScores {
  import opened Sequences

  /** What the sample-dependent scores read from one review: its positive and net
      helpfulness votes, its quality Q and its rating. */
  datatype Standing = Standing(pos: int, net: int, q: real, rating: int)

  /** Python's `True`/`False` in arithmetic. */
  function Indicator(b: bool): real {
    if b then 1.0 else 0.0
  }

  /** CQ1, "is the author in a position to know": mean of interaction time and feature use. */
  function Cq1(interactionTime: real, featureUse: real): real {
    (interactionTime + featureUse) / 2.0
  }

  /** CQ2, "is the author a reliable source": mean of the author's position and a
      credibility that the deception risk `d` lowers twice for unvalidated reviews. */
  function Cq2(authorPos: real, validated: bool, d: real): real {
    (authorPos + (1.0 - d * (2.0 - Indicator(validated)))) / 2.0
  }

  /** The argument quality Q. */
  function Quality(cq1: real, cq2: real): real {
    cq1 + cq2 - 1.0
  }

  /** The source stops the run when |Q| > 1. */
  predicate QualityInRange(q: real) {
    -1.0 <= q <= 1.0
  }

  /** With usage signals and author position in [0, 1] and a deception risk of at most
      one half (the configured value is 0.2), Q never leaves [-1, 1]. */
  lemma QualityBounded(it: real, fu: real, ap: real, validated: bool, d: real)
    requires 0.0 <= it <= 1.0 && 0.0 <= fu <= 1.0 && 0.0 <= ap <= 1.0
    requires 0.0 <= d <= 0.5
    ensures 0.0 <= Cq1(it, fu) <= 1.0 && 0.0 <= Cq2(ap, validated, d) <= 1.0
    ensures QualityInRange(Quality(Cq1(it, fu), Cq2(ap, validated, d)))
  {
    if validated {
      assert Cq2(ap, validated, d) == (ap + 1.0 - d) / 2.0;
    } else {
      assert Cq2(ap, validated, d) == (ap + 1.0 - 2.0 * d) / 2.0;
    }
  }

  /** Validation raises CQ2, and so Q, by exactly half the deception risk. */
  lemma ValidationBonus(ap: real, d: real, cq1: real)
    ensures Quality(cq1, Cq2(ap, true, d)) - Quality(cq1, Cq2(ap, false, d)) == d / 2.0
  {
    assert Cq2(ap, true, d) == (ap + 1.0 - d) / 2.0;
    assert Cq2(ap, false, d) == (ap + 1.0 - 2.0 * d) / 2.0;
  }

  /** The rating drawn for a review of quality `q`, given the draw `u` (uniform on
      [-1, 1] in the source). */
  function RatingFor(q: real, expected: int, u: real): int {
    if u <= (1.0 + q) / 2.0 then expected else -expected
  }

  /** The rating is the ground truth or its negation, and it is the ground truth
      exactly when the draw is at most (1 + Q) / 2. */
  lemma RatingAgreement(q: real, expected: int, u: real)
    requires expected != 0
    ensures RatingFor(q, expected, u) == expected || RatingFor(q, expected, u) == -expected
    ensures RatingFor(q, expected, u) == expected <==> u <= (1.0 + q) / 2.0
  {
  }

  /** Because the draw ranges over [-1, 1] and the threshold (1 + Q) / 2 over [0, 1],
      the agreeing draws are [-1, (1 + Q) / 2]: an interval of length (3 + Q) / 2 out
      of 2, which always contains [-1, 0]. */
  lemma AgreementInterval(q: real, expected: int, u: real)
    requires QualityInRange(q) && -1.0 <= u <= 0.0
    ensures 0.0 <= (1.0 + q) / 2.0 <= 1.0
    ensures RatingFor(q, expected, u) == expected
  {
  }

  /** The largest doubled positive-vote count (the normaliser of the vote balance). */
  function MaxDoubledPos(s: seq<Standing>): (m: int)
    requires |s| > 0
    ensures forall k :: 0 <= k < |s| ==> 2 * s[k].pos <= m
  {
    if |s| == 1 then 2 * s[0].pos
    else
      var m := MaxDoubledPos(s[..|s| - 1]);
      assert forall k :: 0 <= k < |s| - 1 ==> s[..|s| - 1][k] == s[k];
      if 2 * s[|s| - 1].pos > m then 2 * s[|s| - 1].pos else m
  }

  /** The maximum is attained: it is the doubled count of some review of the list. */
  lemma {:induction false} MaxDoubledPosAttained(s: seq<Standing>) returns (k: nat)
    requires |s| > 0
    ensures k < |s| && MaxDoubledPos(s) == 2 * s[k].pos
  {
    if |s| == 1 {
      k := 0;
    } else {
      var p := s[..|s| - 1];
      k := MaxDoubledPosAttained(p);
      assert p[k] == s[k];
      if 2 * s[|s| - 1].pos > MaxDoubledPos(p) {
        k := |s| - 1;
      }
    }
  }

  /** The vote balance rho as the source computes it over a list of reviews: the net
      votes of the LAST review of the list over the largest doubled positive count,
      and 0 for an empty list or when that maximum is 0. */
  function VoteBalance(s: seq<Standing>): real {
    if |s| == 0 then 0.0
    else
      var m := MaxDoubledPos(s);
      if m > 0 then s[|s| - 1].net as real / m as real else 0.0
  }

  /** Since no review's net count exceeds its positive count, rho is at most 1/2. */
  lemma VoteBalanceAtMostHalf(s: seq<Standing>)
    requires forall k :: 0 <= k < |s| ==> s[k].net <= s[k].pos
    ensures VoteBalance(s) <= 0.5
  {
    if |s| > 0 {
      var m := MaxDoubledPos(s);
      if m > 0 {
        var n := s[|s| - 1].net as real;
        assert 2.0 * n <= m as real;
        assert n / m as real <= 0.5 by {
          DivAtMost(2.0 * n, m as real, 1.0);
        }
      }
    }
  }

  lemma DivAtMost(a: real, b: real, c: real)
    requires b > 0.0 && a <= c * b
    ensures a / b <= c
  {
    assert a / b * b == a;
  }

  lemma DivAtLeast(a: real, b: real, c: real)
    requires b > 0.0 && a >= c * b
    ensures a / b >= c
  {
    assert a / b * b == a;
  }

  /** How much one peer supports (or, with the opposite rating, attacks) a review. */
  function Support(peer: Standing, rho: real): real {
    peer.rating as real * (peer.q + rho) / 2.0
  }

  /** The interaction sum over the peers, accumulated in list order. */
  function PeerSum(peers: seq<Standing>, rho: real): real {
    if |peers| == 0 then 0.0
    else PeerSum(peers[..|peers| - 1], rho) + Support(peers[|peers| - 1], rho)
  }

  /** The support balance zeta: the review's rating times the mean support of its
      peers; 0 without peers. */
  function SupportBalance(rating: int, peers: seq<Standing>, rho: real): real {
    if |peers| == 0 then 0.0
    else RatedMean(rating, PeerSum(peers, rho), |peers|)
  }

  /** The rating times the mean of `n` summed supports. */
  function RatedMean(rating: int, sum: real, n: nat): real
    requires n > 0
  {
    rating as real * sum / n as real
  }

  predicate UnitRating(rating: int) {
    rating == 1 || rating == -1
  }

  /** Every rating of the list is 1 or -1. */
  predicate UnitStandings(st: seq<Standing>) {
    forall k :: 0 <= k < |st| ==> UnitRating(st[k].rating)
  }

  /** Peers with the same rating can only support: zeta is non-negative when every
      peer agrees with the review and its quality plus vote balance is non-negative. */
  lemma {:induction false} AgreeingPeersSupport(peers: seq<Standing>, rating: int, rho: real)
    requires UnitRating(rating)
    requires forall k :: 0 <= k < |peers| ==> peers[k].rating == rating && peers[k].q + rho >= 0.0
    ensures rating as real * PeerSum(peers, rho) >= 0.0
  {
    if |peers| > 0 {
      AgreeingPeersSupport(peers[..|peers| - 1], rating, rho);
      var last := peers[|peers| - 1];
      assert rating as real * Support(last, rho) == (last.q + rho) / 2.0 by {
        assert rating as real * rating as real == 1.0;
      }
    }
  }

  lemma {:induction false} PeerSumBounded(peers: seq<Standing>, rho: real)
    requires -1.0 <= rho <= 1.0
    requires forall k :: 0 <= k < |peers| ==> UnitRating(peers[k].rating) && QualityInRange(peers[k].q)
    ensures -(|peers| as real) <= PeerSum(peers, rho) <= |peers| as real
  {
    if |peers| > 0 {
      var init, last := peers[..|peers| - 1], peers[|peers| - 1];
      assert forall k :: 0 <= k < |init| ==> init[k] == peers[k];
      PeerSumBounded(init, rho);
      assert -1.0 <= Support(last, rho) <= 1.0 by {
        assert UnitRating(last.rating) && QualityInRange(last.q);
        if last.rating == 1 {
          assert Support(last, rho) == (last.q + rho) / 2.0;
        } else {
          assert Support(last, rho) == -(last.q + rho) / 2.0;
        }
      }
    }
  }

  /** With unit ratings, |Q| <= 1 and |rho| <= 1, zeta lies in [-1, 1]. */
  lemma SupportBalanceBounded(rating: int, peers: seq<Standing>, rho: real)
    requires UnitRating(rating) && -1.0 <= rho <= 1.0
    requires forall k :: 0 <= k < |peers| ==> UnitRating(peers[k].rating) && QualityInRange(peers[k].q)
    ensures -1.0 <= SupportBalance(rating, peers, rho) <= 1.0
  {
    if |peers| > 0 {
      var n := |peers| as real;
      PeerSumBounded(peers, rho);
      var p := rating as real * PeerSum(peers, rho);
      assert -n <= p <= n by {
        assert rating == 1 || rating == -1;
      }
      assert SupportBalance(rating, peers, rho) == p / n;
      DivAtMost(p, n, 1.0);
      DivAtLeast(p, n, -1.0);
    }
  }

  /** The interaction force G. */
  function InteractionForce(zeta: real, rho: real): real {
    (zeta + rho) / 2.0
  }

  /** The fitness Pi. */
  function Fitness(g: real, q: real): real {
    (g + q) / 2.0
  }

  /** Pi stays in [-1, 1] whenever zeta, rho and Q do. */
  lemma FitnessBounded(zeta: real, rho: real, q: real)
    requires -1.0 <= zeta <= 1.0 && -1.0 <= rho <= 1.0 && QualityInRange(q)
    ensures -1.0 <= InteractionForce(zeta, rho) <= 1.0
    ensures -1.0 <= Fitness(InteractionForce(zeta, rho), q) <= 1.0
  {
  }

  /** Sum of a list of reals, accumulated from the front. */
  function Sum(xs: seq<real>): real {
    if |xs| == 0 then 0.0 else Sum(xs[..|xs| - 1]) + xs[|xs| - 1]
  }

  /** The sum of the first k terms, accumulated from the front. */
  function SumTo(xs: seq<real>, k: nat): real
    requires k <= |xs|
  {
    if k == 0 then 0.0 else SumTo(xs, k - 1) + xs[k - 1]
  }

  /** Summing the first k terms is summing the prefix of length k. */
  lemma {:induction false} SumToPrefix(xs: seq<real>, k: nat)
    requires k <= |xs|
    ensures SumTo(xs, k) == Sum(xs[..k])
  {
    if k > 0 {
      SumToPrefix(xs, k - 1);
      assert xs[..k][..k - 1] == xs[..k - 1];
    }
  }

  /** Summing all the terms one by one gives the sum. */
  lemma SumToAll(xs: seq<real>)
    ensures SumTo(xs, |xs|) == Sum(xs)
  {
    SumToPrefix(xs, |xs|);
    assert xs[..|xs|] == xs;
  }

  function Mean(xs: seq<real>): real
    requires |xs| > 0
  {
    Average(Sum(xs), |xs|)
  }

  /** A sum of `n` terms divided by `n`. */
  function Average(sum: real, n: nat): real
    requires n > 0
  {
    sum / n as real
  }

  lemma {:induction false} SumWithin(xs: seq<real>, lo: real, hi: real)
    requires forall k :: 0 <= k < |xs| ==> lo <= xs[k] <= hi
    ensures lo * |xs| as real <= Sum(xs) <= hi * |xs| as real
  {
    if |xs| > 0 {
      SumWithin(xs[..|xs| - 1], lo, hi);
      assert lo * |xs| as real == lo * (|xs| - 1) as real + lo;
      assert hi * |xs| as real == hi * (|xs| - 1) as real + hi;
    }
  }

  /** A mean lies between any bounds of its terms. */
  lemma MeanWithin(xs: seq<real>, lo: real, hi: real)
    requires |xs| > 0
    requires forall k :: 0 <= k < |xs| ==> lo <= xs[k] <= hi
    ensures lo <= Mean(xs) <= hi
  {
    SumWithin(xs, lo, hi);
    DivAtMost(Sum(xs), |xs| as real, hi);
    DivAtLeast(Sum(xs), |xs| as real, lo);
  }

  /** The zeta of the k-th review of a sample: its peers are the other sampled
      reviews, and every peer's rho is the sample's vote balance. */
  function SampleZeta(st: seq<Standing>, k: nat): real
    requires k < |st|
  {
    SupportBalance(st[k].rating, RemoveAt(st, k), VoteBalance(st))
  }

  function SampleForce(st: seq<Standing>, k: nat): real
    requires k < |st|
  {
    InteractionForce(SampleZeta(st, k), VoteBalance(st))
  }

  function SampleFitnessAt(st: seq<Standing>, k: nat): real
    requires k < |st|
  {
    Fitness(SampleForce(st, k), st[k].q)
  }

  function Qualities(st: seq<Standing>): (r: seq<real>)
    ensures |r| == |st| && forall k :: 0 <= k < |st| ==> r[k] == st[k].q
  {
    seq(|st|, k requires 0 <= k < |st| => st[k].q)
  }

  function Ratings(st: seq<Standing>): (r: seq<real>)
    ensures |r| == |st| && forall k :: 0 <= k < |st| ==> r[k] == st[k].rating as real
  {
    seq(|st|, k requires 0 <= k < |st| => st[k].rating as real)
  }

  /** Pi times rating for each sampled review: what `sample_fitness` averages. */
  function SignedFitness(st: seq<Standing>): (r: seq<real>)
    ensures |r| == |st| && forall k :: 0 <= k < |st| ==> r[k] == SignedFitnessAt(st, k)
  {
    seq(|st|, k requires 0 <= k < |st| => SignedFitnessAt(st, k))
  }

  function SignedFitnessAt(st: seq<Standing>, k: nat): real
    requires k < |st|
  {
    Signed(SampleFitnessAt(st, k), st[k].rating)
  }

  /** A fitness counted in the direction of the review's rating. */
  function Signed(pi: real, rating: int): real {
    pi * rating as real
  }

  /** A review sampled alone has no peers, so its zeta is 0. */
  lemma SingletonSampleZeta(st: seq<Standing>)
    requires |st| == 1
    ensures SampleZeta(st, 0) == 0.0
  {
    assert |RemoveAt(st, 0)| == 0;
  }

  /** With unit ratings the sample rating lies in [-1, 1]. */
  lemma SampleRatingBounded(st: seq<Standing>)
    requires |st| > 0
    requires forall k :: 0 <= k < |st| ==> UnitRating(st[k].rating)
    ensures -1.0 <= Mean(Ratings(st)) <= 1.0
  {
    MeanWithin(Ratings(st), -1.0, 1.0);
  }

  /** With |Q| <= 1 for every review the sample quality lies in [-1, 1]. */
  lemma SampleQualityBounded(st: seq<Standing>)
    requires |st| > 0
    requires forall k :: 0 <= k < |st| ==> QualityInRange(st[k].q)
    ensures -1.0 <= Mean(Qualities(st)) <= 1.0
  {
    MeanWithin(Qualities(st), -1.0, 1.0);
  }

  /** When rho also stays in [-1, 1], every sampled review's Pi and the sample
      fitness lie in [-1, 1]. */
  lemma SampleFitnessBounded(st: seq<Standing>)
    requires |st| > 0 && -1.0 <= VoteBalance(st) <= 1.0
    requires forall k :: 0 <= k < |st| ==> UnitRating(st[k].rating) && QualityInRange(st[k].q)
    ensures forall k :: 0 <= k < |st| ==> -1.0 <= SampleFitnessAt(st, k) <= 1.0
    ensures -1.0 <= Mean(SignedFitness(st)) <= 1.0
  {
    forall k | 0 <= k < |st| ensures -1.0 <= SampleFitnessAt(st, k) <= 1.0 {
      var peers := RemoveAt(st, k);
      assert forall j :: 0 <= j < |peers| ==> peers[j] in st;
      SupportBalanceBounded(st[k].rating, peers, VoteBalance(st));
      FitnessBounded(SampleZeta(st, k), VoteBalance(st), st[k].q);
    }
    forall k | 0 <= k < |st| ensures -1.0 <= SignedFitnessAt(st, k) <= 1.0 {
      assert st[k].rating == 1 || st[k].rating == -1;
    }
    MeanWithin(SignedFitness(st), -1.0, 1.0);
  }
}
