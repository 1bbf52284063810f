/** The review platform: the history of reviews, how a new review is generated,
    how the sample shown to readers is chosen and scored, and one tick of the
    evolutionary game. */
module Platforms {
  import opened Wrappers
  import opened Sequences
  import opened StableSort
  import opened ReviewScores
  import opened Selection
  import opened Reviews
  import opened Agents

  /** Python's `max(a, b)`: `a` unless `b` is larger. */
  function Max(a: real, b: real): (r: real)
    ensures r >= a && r >= b && (r == a || r == b)
  {
    if b > a then b else a
  }

  /** The drawn attributes of a new review before it is scored. */
  datatype Draft = Draft(interactionTime: real, featureUse: real, validated: bool, authorPos: real)

  /** A new review drawn under a validation policy from the author-position draw,
      the interaction draw (uniform on [invite time, 1] when only validated reviews
      are accepted, on [0, 1] otherwise) and the feature-use draw. Without
      validation the author has no history: the position is reset to 0 after it
      has entered the interaction time and before it bounds the feature use. */
  function DraftFor(policy: ValidatePolicy, uAuthor: real, uInteract: real, uFeature: real): Draft {
    match policy
      case OnlyValidated => Draft((uInteract + uAuthor) / 2.0, Max(uFeature, uAuthor), true, uAuthor)
      case NoValidation => Draft((uInteract + uAuthor) / 2.0, Max(uFeature, 0.0), false, 0.0)
  }

  function DraftQuality(dr: Draft, d: real): real {
    Quality(Cq1(dr.interactionTime, dr.featureUse), Cq2(dr.authorPos, dr.validated, d))
  }

  /** With draws in their ranges, an invite time in [0, 1] and a deception risk of
      at most one half, every drafted attribute lies in [0, 1] and the quality guard
      never stops the run. */
  lemma DraftInRange(policy: ValidatePolicy, inviteReview: real, uAuthor: real, uInteract: real, uFeature: real, d: real)
    requires 0.0 <= inviteReview <= 1.0 && 0.0 <= d <= 0.5
    requires 0.0 <= uAuthor <= 1.0 && 0.0 <= uFeature <= 1.0
    requires policy == OnlyValidated ==> inviteReview <= uInteract <= 1.0
    requires policy == NoValidation ==> 0.0 <= uInteract <= 1.0
    ensures var dr := DraftFor(policy, uAuthor, uInteract, uFeature);
      && 0.0 <= dr.interactionTime <= 1.0 && 0.0 <= dr.featureUse <= 1.0 && 0.0 <= dr.authorPos <= 1.0
      && QualityInRange(DraftQuality(dr, d))
  {
    var dr := DraftFor(policy, uAuthor, uInteract, uFeature);
    QualityBounded(dr.interactionTime, dr.featureUse, dr.authorPos, dr.validated, d);
  }

  /** Without validation the drafted review is unvalidated and has author position
      0, whatever the draws; with validation it is validated and keeps the draw. */
  lemma DraftValidation(policy: ValidatePolicy, uAuthor: real, uInteract: real, uFeature: real)
    ensures var dr := DraftFor(policy, uAuthor, uInteract, uFeature);
      && (dr.validated <==> policy == OnlyValidated)
      && dr.authorPos == (if policy == OnlyValidated then uAuthor else 0.0)
      && dr.featureUse >= dr.authorPos
  {
  }

  /** A review of the history: scored, with a rating equal to the ground truth or
      its negation, and consistent vote counters. */
  predicate Scored(r: PositionToKnow, expectedRating: int)
    reads r`qArg, r`rating, r`reviewPos, r`reviewNeg, r`reviewNet
  {
    && r.qArg.Some? && QualityInRange(r.qArg.value)
    && (r.rating == Some(expectedRating) || r.rating == Some(-expectedRating))
    && r.VotesConsistent()
  }

  class Platform {
    const inviteReview: real
    const validatePolicy: string
    const helpfulPolicy: string
    const selectPolicy: string
    const expectedRating: int
    const m: nat
    const deceptionRisk: real
    var totalReviews: seq<PositionToKnow>
    var sampleQuality: Option<real>
    var sampleFitness: Option<real>
    var sampleRating: Option<real>

    /** The history holds no review twice, every review is scored, and the indices
        are distinct and below the history's length. */
    ghost predicate Valid()
      reads this`totalReviews, totalReviews`qArg, totalReviews`rating
      reads totalReviews`reviewPos, totalReviews`reviewNeg, totalReviews`reviewNet
    {
      && Indexed(totalReviews)
      && (forall r :: r in totalReviews ==> Scored(r, expectedRating))
    }

    /** An empty history; the sample scores are uncomputed. The deception risk is
        the model parameter the source reads from its parameter module. */
    constructor (inviteReview: real, validatePolicy: string, helpfulPolicy: string, selectPolicy: string,
                 expectedRating: int, m: nat, deceptionRisk: real)
      ensures this.inviteReview == inviteReview && this.validatePolicy == validatePolicy
      ensures this.helpfulPolicy == helpfulPolicy && this.selectPolicy == selectPolicy
      ensures this.expectedRating == expectedRating && this.m == m && this.deceptionRisk == deceptionRisk
      ensures totalReviews == [] && sampleQuality == None && sampleFitness == None && sampleRating == None
      ensures Valid()
    {
      this.inviteReview := inviteReview;
      this.validatePolicy := validatePolicy;
      this.helpfulPolicy := helpfulPolicy;
      this.selectPolicy := selectPolicy;
      this.expectedRating := expectedRating;
      this.m := m;
      this.deceptionRisk := deceptionRisk;
      totalReviews := [];
      sampleQuality, sampleFitness, sampleRating := None, None, None;
    }

    /** Draws, scores and appends one review. `ok` is false, and the history is
        unchanged, where the source stops the run: an unknown validation policy or
        a quality outside [-1, 1]. */
    method GenPositionToKnow(uAuthor: real, uInteract: real, uFeature: real, uRating: real)
      returns (ok: bool, newReview: PositionToKnow?)
      requires Valid()
      modifies this`totalReviews
      ensures Valid()
      ensures ok <==> (ParseValidatePolicy(validatePolicy).Some? &&
        QualityInRange(DraftQuality(DraftFor(ParseValidatePolicy(validatePolicy).value, uAuthor, uInteract, uFeature), deceptionRisk)))
      ensures !ok ==> totalReviews == old(totalReviews)
      ensures ok ==> newReview != null && fresh(newReview) && totalReviews == old(totalReviews) + [newReview]
      ensures ok ==> Generated(newReview, |old(totalReviews)|, uAuthor, uInteract, uFeature, uRating)
    {
      var parsed := ParseValidatePolicy(validatePolicy);
      if parsed.None? {
        return false, null;
      }
      var r := Draw(parsed.value, uAuthor, uInteract, uFeature);
      var inRange := r.CalcQArg(deceptionRisk);
      if !inRange {
        return false, null;
      }
      r.CalcRating(expectedRating, uRating);
      AppendKeepsValid(r);
      totalReviews := totalReviews + [r];
      ok, newReview := true, r;
    }

    /** The review `gen_position_to_know` appends as the n-th: the drafted inputs,
        its quality and rating computed, no votes and no sample-dependent score. */
    ghost predicate Generated(r: PositionToKnow, n: nat, uAuthor: real, uInteract: real, uFeature: real, uRating: real)
      reads r
    {
      && ParseValidatePolicy(validatePolicy).Some?
      && var dr := DraftFor(ParseValidatePolicy(validatePolicy).value, uAuthor, uInteract, uFeature);
      && r.idx == n
      && r.interactionTime == dr.interactionTime && r.featureUse == dr.featureUse
      && r.validated == dr.validated && r.authorPos == dr.authorPos
      && r.qArg == Some(DraftQuality(dr, deceptionRisk))
      && r.rating == Some(RatingFor(DraftQuality(dr, deceptionRisk), expectedRating, uRating))
      && r.reviewPos == 0 && r.reviewNeg == 0 && r.reviewNet == 0
      && r.gArg == None && r.rhoArg == None && r.zetaArg == None && r.piArg == None
    }

    /** The unscored review drawn under a validation policy, with the next index. */
    method Draw(policy: ValidatePolicy, uAuthor: real, uInteract: real, uFeature: real) returns (r: PositionToKnow)
      ensures fresh(r)
      ensures var dr := DraftFor(policy, uAuthor, uInteract, uFeature);
        && r.idx == |totalReviews|
        && r.interactionTime == dr.interactionTime && r.featureUse == dr.featureUse
        && r.validated == dr.validated && r.authorPos == dr.authorPos
      ensures r.reviewPos == 0 && r.reviewNeg == 0 && r.reviewNet == 0
      ensures r.cq1 == None && r.cq2 == None && r.qArg == None && r.gArg == None
      ensures r.rhoArg == None && r.zetaArg == None && r.rating == None && r.piArg == None
    {
      var authorPos := uAuthor;
      var validated: bool;
      var interactTime: real;
      if policy == OnlyValidated {
        validated := true;
        interactTime := (uInteract + authorPos) / 2.0;
      } else {
        validated := false;
        interactTime := (uInteract + authorPos) / 2.0;
        authorPos := 0.0;
      }
      var featUse := Max(uFeature, authorPos);
      r := new PositionToKnow(|totalReviews|, interactTime, featUse, validated, authorPos);
    }

    /** What appending a fresh, scored review with the next index needs. */
    lemma AppendKeepsValid(r: PositionToKnow)
      requires Valid() && r !in totalReviews
      requires r.idx == |totalReviews| && Scored(r, expectedRating)
      ensures var h := totalReviews + [r];
        Indexed(h) && forall x :: x in h ==> Scored(x, expectedRating)
    {
      var h := totalReviews + [r];
      assert forall k :: 0 <= k < |totalReviews| ==> h[k] == totalReviews[k];
      assert forall x :: x in h ==> x in totalReviews || x == r;
    }

    /** One tick of the game: the sample is drawn and scored, then the sampled
        history is answered, by a new review or by the reader's votes (see Respond).
        `scored` and `ok` are false where the source stops the run. */
    method GameStep(agent: PersonType, picks: seq<nat>, mu: real, uMutate: real,
                    uAuthor: real, uInteract: real, uFeature: real, uRating: real, voteDraws: seq<real>)
      returns (scored: bool, ok: bool, sample: seq<PositionToKnow>, ghost st: seq<Standing>)
      requires Valid()
      requires RandomPicks(picks)
      requires |voteDraws| >= |totalReviews|
      modifies this`totalReviews, this`sampleQuality, this`sampleFitness, this`sampleRating
      modifies totalReviews`zetaArg, totalReviews`rhoArg, totalReviews`gArg, totalReviews`piArg
      modifies totalReviews`reviewPos, totalReviews`reviewNeg, totalReviews`reviewNet
      ensures Valid()
      ensures scored <==> (ParseSelectPolicy(selectPolicy).Some? && |sample| > 0 && UnitRatings(sample))
      ensures ok ==> scored
      ensures ParseSelectPolicy(selectPolicy).None? ==> totalReviews == old(totalReviews)
      // the history after the sort, with the new review, if any, at its end
      ensures ParseSelectPolicy(selectPolicy).Some? ==> var policy := ParseSelectPolicy(selectPolicy).value;
        var sorted := Reorder(old(totalReviews), policy, old(PosKeys(totalReviews)), old(QualityKeys(totalReviews)));
        && sample == Select(sorted, policy, m, picks)
        && (if scored && uMutate <= mu && ok then |totalReviews| > 0 && totalReviews == sorted + [totalReviews[|totalReviews| - 1]]
            else totalReviews == sorted)
      // the scored sample, its scores and the sample means
      ensures scored ==> Distinct(sample) && |sample| <= |old(totalReviews)| && forall j :: 0 <= j < |sample| ==> sample[j] in old(totalReviews)
      ensures scored ==> st == old(Standings(sample))
      ensures scored ==> SampleScored(sample, st)
      ensures scored ==> forall j :: 0 <= j < |sample| ==> sample[j].piArg.Some?
      ensures var h0 := old(totalReviews); forall i | 0 <= i < |h0| && h0[i] !in sample ::
        h0[i].rhoArg == old(h0[i].rhoArg) && h0[i].zetaArg == old(h0[i].zetaArg) && h0[i].gArg == old(h0[i].gArg) && h0[i].piArg == old(h0[i].piArg)
      // a mutation draw: the new review
      ensures scored && uMutate <= mu ==> (ok <==> (ParseValidatePolicy(validatePolicy).Some? &&
        QualityInRange(DraftQuality(DraftFor(ParseValidatePolicy(validatePolicy).value, uAuthor, uInteract, uFeature), deceptionRisk))))
      ensures scored && uMutate <= mu && ok ==>
        |totalReviews| > 0 && Generated(totalReviews[|totalReviews| - 1], |old(totalReviews)|, uAuthor, uInteract, uFeature, uRating)
      // a vote draw: the votes
      ensures scored && mu < uMutate ==> (ok <==> ParseHelpfulPolicy(helpfulPolicy).Some?)
      ensures scored && mu < uMutate && ok ==>
        var votes := Votes(sample, voteDraws[..|sample|], ParseHelpfulPolicy(helpfulPolicy).value);
        forall k :: 0 <= k < |sample| ==>
          && sample[k].reviewPos == old(sample[k].reviewPos) + (if votes[k] == Up then 1 else 0)
          && sample[k].reviewNeg == old(sample[k].reviewNeg) + (if votes[k] == Down then 1 else 0)
          && sample[k].reviewNet == old(sample[k].reviewNet) + (if votes[k] == Up then 1 else 0) - (if votes[k] == Down then 1 else 0)
      ensures forall r: PositionToKnow |
        r in old(totalReviews) && (r !in sample || !(scored && mu < uMutate && ok) || ParseHelpfulPolicy(helpfulPolicy) == Some(NoFeedback)) ::
        r.reviewPos == old(r.reviewPos) && r.reviewNeg == old(r.reviewNeg) && r.reviewNet == old(r.reviewNet)
    {
      ok := false;
      scored, sample, st := UpdateSampleAttributes(picks);
      if !scored {
        return;
      }
      forall j | 0 <= j < |sample| ensures sample[j].piArg.Some? {
        assert ScoredAt(sample[j].rhoArg, sample[j].zetaArg, sample[j].gArg, sample[j].piArg, st, j);
      }
      ok := Respond(agent, sample, mu, uMutate, uAuthor, uInteract, uFeature, uRating, voteDraws[..|sample|],
                    old(totalReviews), st);
    }

    /** The second half of a tick, on a scored sample: if the mutation draw `uMutate`
        is at most `mu`, a new review is generated; otherwise the reader votes on
        the sample. */
    method Respond(agent: PersonType, sample: seq<PositionToKnow>, mu: real, uMutate: real,
                   uAuthor: real, uInteract: real, uFeature: real, uRating: real, draws: seq<real>,
                   ghost h0: seq<PositionToKnow>, ghost st: seq<Standing>)
      returns (ok: bool)
      requires Valid()
      requires Distinct(sample) && |draws| == |sample|
      requires forall j :: 0 <= j < |sample| ==> sample[j] in totalReviews && sample[j].piArg.Some?
      requires SampleScored(sample, st)
      modifies this`totalReviews, sample`reviewPos, sample`reviewNeg, sample`reviewNet
      ensures Valid()
      ensures UnitRatings(sample) == old(UnitRatings(sample))
      ensures SampleScored(sample, st)
      ensures forall j :: 0 <= j < |sample| ==> sample[j].piArg.Some?
      ensures forall i | 0 <= i < |h0| ::
        h0[i].rhoArg == old(h0[i].rhoArg) && h0[i].zetaArg == old(h0[i].zetaArg) && h0[i].gArg == old(h0[i].gArg) && h0[i].piArg == old(h0[i].piArg)
      ensures forall i | 0 <= i < |h0| && (h0[i] !in sample || !(mu < uMutate && ok) || ParseHelpfulPolicy(helpfulPolicy) == Some(NoFeedback)) ::
        h0[i].reviewPos == old(h0[i].reviewPos) && h0[i].reviewNeg == old(h0[i].reviewNeg) && h0[i].reviewNet == old(h0[i].reviewNet)
      ensures uMutate <= mu ==> (ok <==> (ParseValidatePolicy(validatePolicy).Some? &&
        QualityInRange(DraftQuality(DraftFor(ParseValidatePolicy(validatePolicy).value, uAuthor, uInteract, uFeature), deceptionRisk))))
      ensures uMutate <= mu && ok ==> |totalReviews| > 0 && totalReviews == old(totalReviews) + [totalReviews[|totalReviews| - 1]]
      ensures uMutate <= mu && ok ==> Generated(totalReviews[|totalReviews| - 1], |old(totalReviews)|, uAuthor, uInteract, uFeature, uRating)
      ensures !(uMutate <= mu && ok) ==> totalReviews == old(totalReviews)
      ensures mu < uMutate ==> (ok <==> ParseHelpfulPolicy(helpfulPolicy).Some?)
      ensures mu < uMutate && ok ==> var votes := Votes(sample, draws, ParseHelpfulPolicy(helpfulPolicy).value);
        forall k :: 0 <= k < |sample| ==>
          && sample[k].reviewPos == old(sample[k].reviewPos) + (if votes[k] == Up then 1 else 0)
          && sample[k].reviewNeg == old(sample[k].reviewNeg) + (if votes[k] == Down then 1 else 0)
          && sample[k].reviewNet == old(sample[k].reviewNet) + (if votes[k] == Up then 1 else 0) - (if votes[k] == Down then 1 else 0)
      ensures !(mu < uMutate && ok) || ParseHelpfulPolicy(helpfulPolicy) == Some(NoFeedback) ==> forall k :: 0 <= k < |sample| ==>
        && sample[k].reviewPos == old(sample[k].reviewPos)
        && sample[k].reviewNeg == old(sample[k].reviewNeg)
        && sample[k].reviewNet == old(sample[k].reviewNet)
    {
      if uMutate <= mu {
        var newReview;
        ok, newReview := GenPositionToKnow(uAuthor, uInteract, uFeature, uRating);
      } else {
        ok := ReadSample(agent, sample, draws);
      }
    }

    /** The sample scores `update_sample_attributes` leaves, for a sample whose
        standings were `st`: every sampled review's rho, zeta, G and Pi, and the
        means of Q, Pi * rating and rating. */
    ghost predicate SampleScored(sample: seq<PositionToKnow>, st: seq<Standing>)
      reads this`sampleQuality, this`sampleFitness, this`sampleRating
      reads sample`rhoArg, sample`zetaArg, sample`gArg, sample`piArg
    {
      && |st| == |sample| > 0
      && (forall k {:trigger ScoredAt(sample[k].rhoArg, sample[k].zetaArg, sample[k].gArg, sample[k].piArg, st, k)} :: 0 <= k < |sample| ==> ScoredAt(sample[k].rhoArg, sample[k].zetaArg, sample[k].gArg, sample[k].piArg, st, k))
      && sampleQuality == Some(Mean(Qualities(st)))
      && sampleFitness == Some(Mean(SignedFitness(st)))
      && sampleRating == Some(Mean(Ratings(st)))
    }

    /** The reader's votes on a scored sample of the history. Every sampled
        review's counters grow by its own vote, and the history stays valid. */
    method ReadSample(agent: PersonType, sample: seq<PositionToKnow>, draws: seq<real>) returns (ok: bool)
      requires Valid()
      requires Distinct(sample) && |draws| == |sample|
      requires forall j :: 0 <= j < |sample| ==> sample[j] in totalReviews && sample[j].piArg.Some?
      modifies sample`reviewPos, sample`reviewNeg, sample`reviewNet
      ensures Valid()
      ensures ok <==> ParseHelpfulPolicy(helpfulPolicy).Some?
      ensures ok ==> var votes := Votes(sample, draws, ParseHelpfulPolicy(helpfulPolicy).value);
        forall k :: 0 <= k < |sample| ==>
          && sample[k].reviewPos == old(sample[k].reviewPos) + (if votes[k] == Up then 1 else 0)
          && sample[k].reviewNeg == old(sample[k].reviewNeg) + (if votes[k] == Down then 1 else 0)
          && sample[k].reviewNet == old(sample[k].reviewNet) + (if votes[k] == Up then 1 else 0) - (if votes[k] == Down then 1 else 0)
      ensures !ok || ParseHelpfulPolicy(helpfulPolicy) == Some(NoFeedback) ==> forall k :: 0 <= k < |sample| ==>
        && sample[k].reviewPos == old(sample[k].reviewPos)
        && sample[k].reviewNeg == old(sample[k].reviewNeg)
        && sample[k].reviewNet == old(sample[k].reviewNet)
    {
      assert forall j :: 0 <= j < |sample| ==> sample[j].VotesConsistent() by {
        forall j | 0 <= j < |sample| ensures sample[j].VotesConsistent() {
          assert Scored(sample[j], expectedRating);
        }
      }
      ok := agent.HelpfulReview(sample, helpfulPolicy, draws);
      forall r | r in totalReviews ensures Scored(r, expectedRating) {
        assert old(Scored(r, expectedRating));
        assert r.qArg == old(r.qArg) && r.rating == old(r.rating);
        if r in sample {
          var k :| 0 <= k < |sample| && sample[k] == r;
        }
      }
      if ok {
        var votes := Votes(sample, draws, ParseHelpfulPolicy(helpfulPolicy).value);
        forall k | 0 <= k < |sample|
          ensures Count(sample, votes, sample[k], Up) == if votes[k] == Up then 1 else 0
          ensures Count(sample, votes, sample[k], Down) == if votes[k] == Down then 1 else 0
        {
          CountOfDistinct(sample, votes, k, Up);
          CountOfDistinct(sample, votes, k, Down);
        }
      }
    }

    /** Re-sorts the history for Most Helpful and Best Quality and takes the sample.
        `ok` is false, with nothing changed, for an unknown selection policy. */
    method GetReviewOrder(picks: seq<nat>) returns (ok: bool, sample: seq<PositionToKnow>)
      requires Valid()
      requires RandomPicks(picks)
      modifies this`totalReviews
      ensures Valid()
      ensures ok <==> ParseSelectPolicy(selectPolicy).Some?
      ensures !ok ==> totalReviews == old(totalReviews)
      ensures ok ==> var policy := ParseSelectPolicy(selectPolicy).value;
        && totalReviews == Reorder(old(totalReviews), policy, old(PosKeys(totalReviews)), old(QualityKeys(totalReviews)))
        && (policy == Random && |totalReviews| > m ==> RandomDraw(picks, |totalReviews|, m))
        && sample == Select(totalReviews, policy, m, picks)
      ensures multiset(totalReviews) == multiset(old(totalReviews))
      ensures var h0 := old(totalReviews); forall i | 0 <= i < |h0| ::
        h0[i].rhoArg == old(h0[i].rhoArg) && h0[i].zetaArg == old(h0[i].zetaArg) && h0[i].gArg == old(h0[i].gArg) && h0[i].piArg == old(h0[i].piArg)
      ensures forall r: PositionToKnow :: r in old(totalReviews) ==>
        r.reviewPos == old(r.reviewPos) && r.reviewNeg == old(r.reviewNeg) && r.reviewNet == old(r.reviewNet)
      ensures ok ==> Distinct(sample) && |sample| <= |totalReviews| == |old(totalReviews)|
      ensures ok ==> forall j :: 0 <= j < |sample| ==>
        sample[j] in totalReviews && sample[j] in old(totalReviews) && sample[j].qArg.Some?
      ensures ok ==> Standings(sample) == old(Standings(sample))
    {
      var parsed := ParseSelectPolicy(selectPolicy);
      if parsed.None? {
        return false, [];
      }
      var policy := parsed.value;
      var h := totalReviews;
      ReorderPermutes(h, policy, PosKeys(h), QualityKeys(h));
      totalReviews := Reorder(h, policy, PosKeys(h), QualityKeys(h));
      PermutationKeepsValid(h);
      sample := Select(totalReviews, policy, m, picks);
      SampleOfHistory(h, policy, picks, sample);
      StandingsUnchanged(sample);
      ok := true;
    }

    /** Takes the sample, scores every sampled review against the others (rho, zeta,
        G and Pi) and sets the sample's mean quality, signed fitness and rating.
        `ok` is false for an unknown selection policy, an empty sample and a sampled
        rating other than 1 or -1; the simulation stops there. */
    method UpdateSampleAttributes(picks: seq<nat>) returns (ok: bool, sample: seq<PositionToKnow>, ghost st: seq<Standing>)
      requires Valid()
      requires RandomPicks(picks)
      modifies this`totalReviews, this`sampleQuality, this`sampleFitness, this`sampleRating
      modifies totalReviews`zetaArg, totalReviews`rhoArg, totalReviews`gArg, totalReviews`piArg
      ensures Valid()
      ensures ok <==> (ParseSelectPolicy(selectPolicy).Some? && |sample| > 0 && UnitRatings(sample))
      ensures multiset(totalReviews) == multiset(old(totalReviews))
      ensures ParseSelectPolicy(selectPolicy).None? ==> totalReviews == old(totalReviews)
      ensures ParseSelectPolicy(selectPolicy).Some? ==> var policy := ParseSelectPolicy(selectPolicy).value;
        && totalReviews == Reorder(old(totalReviews), policy, old(PosKeys(totalReviews)), old(QualityKeys(totalReviews)))
        && (policy == Random && |totalReviews| > m ==> RandomDraw(picks, |totalReviews|, m))
        && sample == Select(totalReviews, policy, m, picks)
      ensures var h0 := old(totalReviews); forall i | 0 <= i < |h0| && h0[i] !in sample ::
        h0[i].rhoArg == old(h0[i].rhoArg) && h0[i].zetaArg == old(h0[i].zetaArg) && h0[i].gArg == old(h0[i].gArg) && h0[i].piArg == old(h0[i].piArg)
      ensures forall r: PositionToKnow :: r in old(totalReviews) ==>
        r.reviewPos == old(r.reviewPos) && r.reviewNeg == old(r.reviewNeg) && r.reviewNet == old(r.reviewNet)
      ensures ok ==> Distinct(sample) && |sample| <= |totalReviews| == |old(totalReviews)|
      ensures ok ==> forall j :: 0 <= j < |sample| ==> sample[j] in totalReviews && sample[j] in old(totalReviews)
      ensures ok ==> st == old(Standings(sample))
      ensures ok ==> SampleScored(sample, st)
    {
      ghost var h0 := totalReviews;
      st := [];
      ok, sample := GetReviewOrder(picks);
      if ok && |sample| > 0 {
        st := Standings(sample);
        StandingsAll(sample);
        ok := ScoreSample(sample, st, h0);
        if ok {
          StandingsAll(sample);
          CarriedFitnessOfScored(sample, st);
        }
      } else {
        ok := false;
      }
    }

    /** The loop of `update_sample_attributes` over a non-empty, duplicate-free
        sample whose standings are `st`. */
    method ScoreSample(sample: seq<PositionToKnow>, ghost st: seq<Standing>, ghost h0: seq<PositionToKnow>) returns (ok: bool)
      requires |sample| > 0 && Distinct(sample)
      requires forall j :: 0 <= j < |sample| ==> sample[j].qArg.Some?
      requires |st| == |sample| && forall j {:trigger sample[j].Standing()} :: 0 <= j < |sample| ==> sample[j].Standing() == st[j]
      requires Valid()
      modifies this`sampleQuality, this`sampleFitness, this`sampleRating
      modifies sample`zetaArg, sample`rhoArg, sample`gArg, sample`piArg
      ensures Valid() && totalReviews == old(totalReviews)
      ensures Standings(sample) == st
      ensures forall i | 0 <= i < |h0| && h0[i] !in sample ::
        h0[i].rhoArg == old(h0[i].rhoArg) && h0[i].zetaArg == old(h0[i].zetaArg) && h0[i].gArg == old(h0[i].gArg) && h0[i].piArg == old(h0[i].piArg)
      ensures forall r: PositionToKnow :: r in h0 ==>
        r.reviewPos == old(r.reviewPos) && r.reviewNeg == old(r.reviewNeg) && r.reviewNet == old(r.reviewNet)
      ensures ok <==> UnitRatings(sample)
      ensures ok ==>
        && (forall k {:trigger ScoredAt(sample[k].rhoArg, sample[k].zetaArg, sample[k].gArg, sample[k].piArg, st, k)} :: 0 <= k < |sample| ==> ScoredAt(sample[k].rhoArg, sample[k].zetaArg, sample[k].gArg, sample[k].piArg, st, k))
        && sampleQuality == Some(Mean(Qualities(st)))
        && sampleFitness == Some(Mean(CarriedFitness(sample)))
        && sampleRating == Some(Mean(Ratings(st)))
    {
      var n := |sample|;
      var sumQ, sumF, sumR;
      ok, sumQ, sumF, sumR := ScoreLoop(sample, st);
      assert forall r: PositionToKnow :: r in h0 ==>
        r.reviewPos == old(r.reviewPos) && r.reviewNeg == old(r.reviewNeg) && r.reviewNet == old(r.reviewNet);
      StandingsOf(sample, st);
      UnitRatingsOf(sample, st);
      if ok {
        SetSampleScores(Some(Average(sumQ, n)), Some(Average(sumF, n)), Some(Average(sumR, n)));
      }
    }

    /** Records the sample's mean quality, signed fitness and rating. */
    method SetSampleScores(q: Option<real>, f: Option<real>, r: Option<real>)
      requires Valid()
      modifies this`sampleQuality, this`sampleFitness, this`sampleRating
      ensures Valid() && totalReviews == old(totalReviews)
      ensures sampleQuality == q && sampleFitness == f && sampleRating == r
    {
      sampleQuality, sampleFitness, sampleRating := q, f, r;
    }

    /** The sample of a valid history holds no review twice, and every sampled
        review is scored and was in the history `h0` it was reordered from. */
    lemma SampleOfHistory(h0: seq<PositionToKnow>, policy: SelectPolicy, picks: seq<nat>, sample: seq<PositionToKnow>)
      requires Valid()
      requires multiset(totalReviews) == multiset(h0)
      requires policy == Random && |totalReviews| > m ==> RandomDraw(picks, |totalReviews|, m)
      requires sample == Select(totalReviews, policy, m, picks)
      ensures Distinct(sample) && |sample| <= |totalReviews| == |h0|
      ensures forall j :: 0 <= j < |sample| ==> sample[j] in totalReviews && sample[j] in h0 && sample[j].qArg.Some?
    {
      SelectIsSubsample(totalReviews, policy, m, picks);
      assert |multiset(totalReviews)| == |multiset(h0)|;
      forall j | 0 <= j < |sample| ensures sample[j] in totalReviews && sample[j] in h0 && sample[j].qArg.Some? {
        assert sample[j] in sample;
        assert sample[j] in multiset(totalReviews);
      }
    }

    /** The draws for `random.sample` are valid whenever Random is in force and the
        history is longer than the sample. */
    ghost predicate RandomPicks(picks: seq<nat>)
      reads this`totalReviews
    {
      ParseSelectPolicy(selectPolicy) == Some(Random) && |totalReviews| > m ==> RandomDraw(picks, |totalReviews|, m)
    }

    /** A reordering of a valid history, with no field changed, is valid. */
    lemma PermutationKeepsValid(h: seq<PositionToKnow>)
      requires multiset(totalReviews) == multiset(h)
      requires Indexed(h) && forall r :: r in h ==> Scored(r, expectedRating)
      ensures Valid()
    {
      IndexedPermutation(h, totalReviews);
    }
  }

  /** No review twice, and the reviews' indices distinct and below the length. */
  ghost predicate Indexed(h: seq<PositionToKnow>) {
    && Distinct(h)
    && (forall r :: r in h ==> r.idx < |h|)
    && (forall r, q :: r in h && q in h && r != q ==> r.idx != q.idx)
  }

  /** A reordering keeps the members, and with them the indexing. */
  lemma IndexedPermutation(a: seq<PositionToKnow>, b: seq<PositionToKnow>)
    requires Indexed(a) && multiset(a) == multiset(b)
    ensures Indexed(b) && forall r :: r in b <==> r in a
  {
    DistinctPermutation(a, b);
    assert |a| == |multiset(a)| == |multiset(b)| == |b|;
    forall r ensures r in b <==> r in a {
      assert r in a <==> r in multiset(a);
      assert r in b <==> r in multiset(b);
    }
  }

  /** The sort keys of the history's members when the sort starts. */
  function PosKeys(s: seq<PositionToKnow>): (keys: map<PositionToKnow, real>)
    reads s`reviewPos
  {
    map r | r in s :: r.reviewPos as real
  }

  function QualityKeys(s: seq<PositionToKnow>): (keys: map<PositionToKnow, real>)
    reads s`qArg
  {
    map r | r in s :: if r.qArg.Some? then r.qArg.value else 0.0
  }

  function KeyOf(keys: map<PositionToKnow, real>): PositionToKnow -> real {
    r => if r in keys then keys[r] else 0.0
  }

  /** The history after `get_review_order`'s in-place sort: by positive votes for
      Most Helpful, by quality for Best Quality, untouched otherwise. */
  function Reorder(h: seq<PositionToKnow>, policy: SelectPolicy, posKeys: map<PositionToKnow, real>,
                   qualityKeys: map<PositionToKnow, real>): seq<PositionToKnow> {
    match policy
      case MostHelpful => SortDesc(h, KeyOf(posKeys))
      case BestQuality => SortDesc(h, KeyOf(qualityKeys))
      case Random => h
      case MostRecent => h
  }

  lemma ReorderPermutes(h: seq<PositionToKnow>, policy: SelectPolicy, posKeys: map<PositionToKnow, real>,
                        qualityKeys: map<PositionToKnow, real>)
    ensures multiset(Reorder(h, policy, posKeys, qualityKeys)) == multiset(h)
  {
    match policy
      case MostHelpful => SortDescPermutes(h, KeyOf(posKeys));
      case BestQuality => SortDescPermutes(h, KeyOf(qualityKeys));
      case Random =>
      case MostRecent =>
  }

  /** Most Helpful ranks by positive votes and Best Quality by quality, highest first. */
  lemma ReorderRanks(h: seq<PositionToKnow>, policy: SelectPolicy, s: seq<PositionToKnow>)
    requires forall r :: r in h ==> r.qArg.Some?
    requires s == Reorder(h, policy, PosKeys(h), QualityKeys(h))
    ensures
      && (policy == MostHelpful ==> forall i, j :: 0 <= i < j < |s| ==> s[i].reviewPos >= s[j].reviewPos)
      && (policy == BestQuality ==> forall i, j :: 0 <= i < j < |s| ==>
            s[i].qArg.Some? && s[j].qArg.Some? && s[i].qArg.value >= s[j].qArg.value)
  {
    ReorderPermutes(h, policy, PosKeys(h), QualityKeys(h));
    assert forall k :: 0 <= k < |s| ==> s[k] in h by {
      forall k | 0 <= k < |s| ensures s[k] in h {
        assert s[k] in multiset(s);
      }
    }
    if policy == MostHelpful {
      SortDescOrdered(h, KeyOf(PosKeys(h)));
    } else if policy == BestQuality {
      SortDescOrdered(h, KeyOf(QualityKeys(h)));
    }
  }

  /** The sort is stable: reviews with the same key keep their order in the history. */
  lemma ReorderStable(h: seq<PositionToKnow>, policy: SelectPolicy, posKeys: map<PositionToKnow, real>,
                      qualityKeys: map<PositionToKnow, real>, v: real)
    ensures policy == MostHelpful ==>
      WithKey(Reorder(h, policy, posKeys, qualityKeys), KeyOf(posKeys), v) == WithKey(h, KeyOf(posKeys), v)
    ensures policy == BestQuality ==>
      WithKey(Reorder(h, policy, posKeys, qualityKeys), KeyOf(qualityKeys), v) == WithKey(h, KeyOf(qualityKeys), v)
    ensures policy == Random || policy == MostRecent ==> Reorder(h, policy, posKeys, qualityKeys) == h
  {
    if policy == MostHelpful {
      SortDescStable(h, KeyOf(posKeys), v);
    } else if policy == BestQuality {
      SortDescStable(h, KeyOf(qualityKeys), v);
    }
  }

  /** What the sample scoring leaves on the k-th sampled review, given its rho,
      zeta, G and Pi, with `st` the sample's standings. */
  ghost predicate ScoredAt(rho: Option<real>, zeta: Option<real>, g: Option<real>, pi: Option<real>,
                           st: seq<Standing>, k: nat)
    requires k < |st|
  {
    && rho == Some(VoteBalance(st))
    && zeta == Some(SampleZeta(st, k))
    && g == Some(SampleForce(st, k))
    && pi == Some(SampleFitnessAt(st, k))
  }

  /** One pass of the sample loop: zeta, then G and Pi, for the k-th review. */
  method ScoreInSample(sample: seq<PositionToKnow>, k: nat, ghost st: seq<Standing>) returns (ok: bool)
    requires k < |sample| && Distinct(sample)
    requires |st| == |sample| && forall j {:trigger sample[j].Standing()} :: 0 <= j < |sample| ==> sample[j].Standing() == st[j]
    requires forall j :: 0 <= j < |sample| ==> sample[j].qArg.Some?
    requires forall j :: 0 <= j < k ==> ScoredAt(sample[j].rhoArg, sample[j].zetaArg, sample[j].gArg, sample[j].piArg, st, j)
    modifies {sample[k]}`zetaArg, sample`rhoArg, {sample[k]}`gArg, {sample[k]}`piArg
    ensures forall j {:trigger sample[j].Standing()} :: 0 <= j < |sample| ==> sample[j].Standing() == st[j]
    ensures ok <==> UnitStandings(st)
    ensures ok ==> forall j :: 0 <= j <= k ==> ScoredAt(sample[j].rhoArg, sample[j].zetaArg, sample[j].gArg, sample[j].piArg, st, j)
  {
    var r := sample[k];
    if |sample| == 1 {
      ZetaAlone(sample, st);
    } else {
      ok := ZetaAgainst(sample, k, st);
      if !ok {
        return;
      }
    }
    ok := RhoAndForce(sample, k, st);
    if !ok {
      return;
    }
    r.CalcPiArg();
    assert r.Standing() == st[k];
    assert ScoredAt(r.rhoArg, r.zetaArg, r.gArg, r.piArg, st, k);
    forall j | 0 <= j < k ensures ScoredAt(sample[j].rhoArg, sample[j].zetaArg, sample[j].gArg, sample[j].piArg, st, j) {
      assert sample[j] != r;
    }
  }

  /** A review sampled alone is scored against nobody: its zeta is 0. */
  method ZetaAlone(sample: seq<PositionToKnow>, ghost st: seq<Standing>)
    requires |sample| == 1 && |st| == 1 && sample[0].Standing() == st[0]
    modifies {sample[0]}`zetaArg
    ensures sample[0].zetaArg == Some(SampleZeta(st, 0))
  {
    var ok := sample[0].CalcZetaArg([]);
    SingletonSampleZeta(st);
  }

  /** zeta of the k-th review against the rest of the sample. Every other sampled
      review's rho becomes the sample's vote balance on the way. */
  method ZetaAgainst(sample: seq<PositionToKnow>, k: nat, ghost st: seq<Standing>) returns (ok: bool)
    requires k < |sample| && 1 < |sample| && Distinct(sample)
    requires |st| == |sample| && forall j {:trigger sample[j].Standing()} :: 0 <= j < |sample| ==> sample[j].Standing() == st[j]
    requires forall j :: 0 <= j < |sample| ==> sample[j].qArg.Some?
    modifies {sample[k]}`zetaArg, sample`rhoArg
    ensures ok <==> UnitStandings(st)
    ensures ok ==> sample[k].zetaArg == Some(SampleZeta(st, k))
    ensures ok ==> forall j :: 0 <= j < |sample| && j != k ==> sample[j].rhoArg == Some(VoteBalance(st))
  {
    SamplePeers(sample, k, st);
    ok := sample[k].CalcZetaArg(sample);
    if ok {
      OthersRho(sample, k, VoteBalance(st));
    }
  }

  /** The peers of the k-th review of a duplicate-free sample are the others, and
      its zeta over them is the sample's. */
  lemma SamplePeers(sample: seq<PositionToKnow>, k: nat, st: seq<Standing>)
    requires k < |sample| && Distinct(sample)
    requires |st| == |sample| && forall j {:trigger sample[j].Standing()} :: 0 <= j < |sample| ==> sample[j].Standing() == st[j]
    ensures RemoveFirst(sample, sample[k]) == RemoveAt(sample, k)
    ensures Standings(sample) == st
    ensures UnitRatings(sample) <==> UnitStandings(st)
    ensures SampleZeta(st, k) == SupportBalance(sample[k].Standing().rating,
      Standings(RemoveFirst(sample, sample[k])), VoteBalance(Standings(sample)))
  {
    StandingsOf(sample, st);
    UnitRatingsOf(sample, st);
    RemoveFirstOfDistinct(sample, k);
    StandingsRemoveAt(sample, k);
  }

  /** What holds of every member of the sample but the k-th holds at every other position. */
  lemma OthersRho(sample: seq<PositionToKnow>, k: nat, v: real)
    requires k < |sample|
    requires forall r :: r in RemoveAt(sample, k) ==> r.rhoArg == Some(v)
    ensures forall j :: 0 <= j < |sample| && j != k ==> sample[j].rhoArg == Some(v)
  {
    forall j | 0 <= j < |sample| && j != k ensures sample[j].rhoArg == Some(v) {
      if j < k {
        assert sample[j] == RemoveAt(sample, k)[j];
      } else {
        assert sample[j] == RemoveAt(sample, k)[j - 1];
      }
    }
  }

  /** rho over the sample and then G, for the k-th review. */
  method RhoAndForce(sample: seq<PositionToKnow>, k: nat, ghost st: seq<Standing>) returns (ok: bool)
    requires k < |sample| && sample[k].zetaArg.Some?
    requires |st| == |sample| && forall j {:trigger sample[j].Standing()} :: 0 <= j < |sample| ==> sample[j].Standing() == st[j]
    modifies {sample[k]}`rhoArg, {sample[k]}`gArg
    ensures ok <==> UnitStandings(st)
    ensures ok ==> sample[k].rhoArg == Some(VoteBalance(st))
    ensures ok ==> sample[k].gArg == Some(InteractionForce(sample[k].zetaArg.value, VoteBalance(st)))
  {
    StandingsOf(sample, st);
    UnitRatingsOf(sample, st);
    ok := sample[k].CalcGArg(sample);
  }

  /** One pass of the sample loop, with what the k-th review adds to the sums of
      quality, signed fitness and rating. */
  method ScoreStep(sample: seq<PositionToKnow>, k: nat, ghost st: seq<Standing>)
    returns (ok: bool, q: real, f: real, rt: real)
    requires k < |sample| && Distinct(sample)
    requires |st| == |sample| && forall j {:trigger sample[j].Standing()} :: 0 <= j < |sample| ==> sample[j].Standing() == st[j]
    requires forall j :: 0 <= j < |sample| ==> sample[j].qArg.Some?
    requires forall j {:trigger ScoredAt(sample[j].rhoArg, sample[j].zetaArg, sample[j].gArg, sample[j].piArg, st, j)} :: 0 <= j < k ==> ScoredAt(sample[j].rhoArg, sample[j].zetaArg, sample[j].gArg, sample[j].piArg, st, j)
    modifies sample`zetaArg, sample`rhoArg, sample`gArg, sample`piArg
    ensures forall j {:trigger sample[j].Standing()} :: 0 <= j < |sample| ==> sample[j].Standing() == st[j]
    ensures ok <==> UnitStandings(st)
    ensures ok ==> forall j {:trigger ScoredAt(sample[j].rhoArg, sample[j].zetaArg, sample[j].gArg, sample[j].piArg, st, j)} :: 0 <= j <= k ==> ScoredAt(sample[j].rhoArg, sample[j].zetaArg, sample[j].gArg, sample[j].piArg, st, j)
    ensures ok ==> q == st[k].q && f == FitnessOf(sample[k]) && rt == st[k].rating as real
    ensures forall j :: 0 <= j < k ==> sample[j].piArg == old(sample[j].piArg)
  {
    q, f, rt := 0.0, 0.0, 0.0;
    ok := ScoreInSample(sample, k, st);
    if !ok {
      return;
    }
    var r := sample[k];
    assert r.Standing() == st[k];
    q, f, rt := r.qArg.value, Signed(r.piArg.value, r.rating.value), r.rating.value as real;
  }

  /** The loop over the sample, with the running sums of quality, signed fitness
      and rating. */
  method ScoreLoop(sample: seq<PositionToKnow>, ghost st: seq<Standing>)
    returns (ok: bool, sumQ: real, sumF: real, sumR: real)
    requires Distinct(sample)
    requires |st| == |sample| && forall j {:trigger sample[j].Standing()} :: 0 <= j < |sample| ==> sample[j].Standing() == st[j]
    requires forall j :: 0 <= j < |sample| ==> sample[j].qArg.Some?
    modifies sample`zetaArg, sample`rhoArg, sample`gArg, sample`piArg
    ensures forall j {:trigger sample[j].Standing()} :: 0 <= j < |sample| ==> sample[j].Standing() == st[j]
    ensures ok <==> |sample| == 0 || UnitStandings(st)
    ensures ok ==> forall k {:trigger ScoredAt(sample[k].rhoArg, sample[k].zetaArg, sample[k].gArg, sample[k].piArg, st, k)} :: 0 <= k < |sample| ==> ScoredAt(sample[k].rhoArg, sample[k].zetaArg, sample[k].gArg, sample[k].piArg, st, k)
    ensures ok ==> sumQ == Sum(Qualities(st)) && sumF == Sum(CarriedFitness(sample)) && sumR == Sum(Ratings(st))
  {
    var n := |sample|;
    sumQ, sumF, sumR := 0.0, 0.0, 0.0;
    ghost var qs, rs := Qualities(st), Ratings(st);
    ghost var carried: seq<real> := [];
    var k := 0;
    while k < n
      invariant 0 <= k <= n
      invariant forall j {:trigger sample[j].Standing()} :: 0 <= j < n ==> sample[j].Standing() == st[j]
      invariant forall j {:trigger ScoredAt(sample[j].rhoArg, sample[j].zetaArg, sample[j].gArg, sample[j].piArg, st, j)} :: 0 <= j < k ==> ScoredAt(sample[j].rhoArg, sample[j].zetaArg, sample[j].gArg, sample[j].piArg, st, j)
      invariant |carried| == k && forall j :: 0 <= j < k ==> carried[j] == FitnessOf(sample[j])
      invariant sumQ == SumTo(qs, k) && sumF == Sum(carried) && sumR == SumTo(rs, k)
      invariant 0 < k ==> UnitStandings(st)
    {
      var q, f, rt;
      ok, q, f, rt := ScoreStep(sample, k, st);
      if !ok {
        return;
      }
      sumQ, sumF, sumR := sumQ + q, sumF + f, sumR + rt;
      assert (carried + [f])[..k] == carried;
      carried := carried + [f];
      k := k + 1;
    }
    SumToAll(qs);
    SumToAll(rs);
    CarriedFitnessOf(sample, carried);
    ok := true;
  }

  /** What a sampled review adds to the sample's fitness: its Pi times its rating,
      each counted as 0 while unset. */
  function FitnessOf(r: PositionToKnow): real
    reads r`piArg, r`rating
  {
    Signed(if r.piArg.Some? then r.piArg.value else 0.0, if r.rating.Some? then r.rating.value else 0)
  }

  /** The fitness contributions of a list of reviews, position by position. */
  function CarriedFitness(s: seq<PositionToKnow>): (fs: seq<real>)
    reads s`piArg, s`rating
    ensures |fs| == |s|
  {
    if |s| == 0 then [] else CarriedFitness(s[..|s| - 1]) + [FitnessOf(s[|s| - 1])]
  }

  /** The contributions of a list are the values `fs` when they agree entry by entry. */
  lemma CarriedFitnessOf(s: seq<PositionToKnow>, fs: seq<real>)
    requires |fs| == |s| && forall j :: 0 <= j < |s| ==> fs[j] == FitnessOf(s[j])
    ensures CarriedFitness(s) == fs
  {
    forall j | 0 <= j < |s| ensures CarriedFitness(s)[j] == fs[j] {
      CarriedFitnessAt(s, j);
    }
  }

  lemma {:induction false} CarriedFitnessAt(s: seq<PositionToKnow>, k: nat)
    requires k < |s|
    ensures CarriedFitness(s)[k] == FitnessOf(s[k])
  {
    if k < |s| - 1 {
      CarriedFitnessAt(s[..|s| - 1], k);
    }
  }

  /** Once the sample is scored, the contributions its reviews carry are the signed
      fitnesses of its standings. */
  lemma CarriedFitnessOfScored(sample: seq<PositionToKnow>, st: seq<Standing>)
    requires |st| == |sample| && forall j {:trigger sample[j].Standing()} :: 0 <= j < |sample| ==> sample[j].Standing() == st[j]
    requires forall k {:trigger ScoredAt(sample[k].rhoArg, sample[k].zetaArg, sample[k].gArg, sample[k].piArg, st, k)} :: 0 <= k < |sample| ==> ScoredAt(sample[k].rhoArg, sample[k].zetaArg, sample[k].gArg, sample[k].piArg, st, k)
    ensures CarriedFitness(sample) == SignedFitness(st)
  {
    forall k | 0 <= k < |sample| ensures CarriedFitness(sample)[k] == SignedFitness(st)[k] {
      CarriedFitnessAt(sample, k);
      assert sample[k].Standing() == st[k];
      assert ScoredAt(sample[k].rhoArg, sample[k].zetaArg, sample[k].gArg, sample[k].piArg, st, k);
    }
  }
}
