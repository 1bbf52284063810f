# Online product reviews: an evolutionary review platform and a review-quality score

This project is a Dafny model of two parts of a research code base on the credibility of online product reviews.

1. **The voluntary argumentation game** (`Review_EAA.py`). A platform holds a growing history of synthetic reviews. Each review is an "argument from position to know" and scores itself in place:
   - two critical questions CQ1 and CQ2;
   - a quality Q;
   - a rating that agrees or disagrees with the ground truth;
   - a vote balance rho, a support balance zeta, an interaction force G and a fitness Pi.

   On every tick the platform shows a sample under one of four selection policies (Random, Most Helpful, Most Recent, Best Quality); under Most Helpful and Best Quality it first re-sorts the history, and under Random and Most Recent it leaves the order alone. It then scores the sample and averages its quality, fitness and rating. Finally it either generates a new review (the mutation step) or lets a reader vote on the sample under a helpfulness policy (No Feedback, Positive, Both).
   - Modules: `Reviews` (class `PositionToKnow`), `Agents` (class `PersonType`), `Platforms` (class `Platform`).
   - The formulas are pure functions in `ReviewScores`. The sample rule is in `Selection`. Python's stable `list.sort` is in `StableSort`, and list facts (`list.remove`, duplicate-free lists) are in `Sequences`.
   - The classes keep the source's fields and update them in place.
   - Random draws are parameters: one uniform value per draw, and the list of indices `random.sample` picks.
   - An `assert` or `sys.exit` in the source becomes a `false` status result. Where the caller must make sure the condition holds, it becomes a precondition.
2. **The review-quality score of annotated reviews** (`s13_review_quality_v2_2.py`, module `ReviewQuality`). One review goes through these steps:
   - It is filtered: there must be at least one annotator for clarity of sentiment, and no review flagged as a bot, as not aligned with its description, or as disingenuous.
   - Its consumer values become 0 or 5 by majority vote.
   - Its ascribed features become count-weighted means. A Predicted Rating becomes a Product Rating of 5 minus its distance to the reviewer's star rating.
   - Verified, image and reviewer-history scores are added.
   - The three weighted credibility questions CQ1..CQ3 are computed. The review quality is their minimum.
   - Python exceptions are `Failure` results: `KeyError`, `ValueError`, `TypeError`.
   - The `processed` dictionary is a `map<string, Value>`.
   - The accumulating loops of `compute_CQ`, `ascription_scoring` and `process_review` are methods. Each is proved equal to a specification function, and the properties are lemmas about that function.

Python floats are modelled as `real`, and Python ints as `int`.

## Model

| member | source | states |
|---|---|---|
| Reviews.PositionToKnow.constructor | Review_EAA.py:186-202 | a new review keeps its inputs, has zero vote counters, and every score uncomputed |
| Reviews.PositionToKnow.Cq1Reliability | Review_EAA.py:227-228 | CQ1 is set to the mean of interaction time and feature use |
| Reviews.PositionToKnow.Cq2Reliability | Review_EAA.py:233-235 | CQ2 is set to (author position + 1 - D*(2 - validated))/2 |
| Reviews.PositionToKnow.CalcQArg | Review_EAA.py:218-224 | CQ1 and CQ2 are computed first; Q = CQ1 + CQ2 - 1; it succeeds exactly when abs(Q) <= 1, and otherwise the source exits |
| Reviews.PositionToKnow.CalcRating | Review_EAA.py:205-210 | needs Q to be computed; the rating is the expected rating exactly when the draw is at most (1+Q)/2, and its negation otherwise |
| Reviews.PositionToKnow.CalcPiArg | Review_EAA.py:213-214 | the fitness Pi is set to (G + Q)/2 |
| Reviews.PositionToKnow.CalcGArg | Review_EAA.py:239-241 | rho is computed over the list first, then G = (zeta + rho)/2; it fails exactly when a rating in a non-empty list is not +-1 |
| Reviews.PositionToKnow.CalcRhoArg | Review_EAA.py:244-256 | rho is 0 for an empty list; otherwise it is the vote balance of the list: the last element's net votes over the maximum of 2*pos, or 0 when that maximum is 0; it fails exactly when some rating is not +-1 |
| Reviews.PositionToKnow.CalcZetaArg | Review_EAA.py:262-275 | the peers are the list with one occurrence of self removed; zeta = rating * mean over the peers of rating*(Q + rho)/2, and 0 with no peers; every peer's rho is overwritten with the vote balance of the whole list, and nothing else changes |
| Reviews.PositionToKnow.ZetaOver | Review_EAA.py:270-275 | over a non-empty list of peers, zeta is the support balance and every peer's rho is the list's vote balance |
| Reviews.InteractionSum | Review_EAA.py:270-274 | the loop's sum is the sum of the peers' supports rating*(Q + rho)/2, with every peer's rho set first |
| Reviews.MaxVotes | Review_EAA.py:250 | the loop computes the maximum of 2*review_pos over a non-empty list |
| Reviews.LastBalance | Review_EAA.py:251-256 | the loop leaves the last element's net votes over the maximum, or 0 when the maximum is 0, and fails when any rating is not +-1 |
| Reviews.Interaction | Review_EAA.py:273-274 | one step of the zeta loop: a peer's rho is recomputed; no vote count, quality or rating changes |
| ReviewScores.QualityBounded | Review_EAA.py:218-235 | with inputs in [0,1] and D at most 1/2, CQ1 and CQ2 lie in [0,1] and abs(Q) <= 1, so the exit in calc_Q_arg cannot happen |
| ReviewScores.ValidationBonus | Review_EAA.py:233-235 | a validated review's Q exceeds an unvalidated one's by exactly D/2 |
| ReviewScores.RatingAgreement | Review_EAA.py:205-210 | the rating is always +-expected, and equals expected exactly when u <= (1+Q)/2 |
| ReviewScores.AgreementInterval | Review_EAA.py:207 | for abs(Q) <= 1, the threshold (1+Q)/2 lies in [0,1], so every draw in [-1,0] agrees with the ground truth |
| ReviewScores.MaxDoubledPos | Review_EAA.py:250 | the maximum of 2*review_pos is at least every element's 2*review_pos |
| ReviewScores.MaxDoubledPosAttained | Review_EAA.py:250 | that maximum is attained by some element |
| ReviewScores.VoteBalanceAtMostHalf | Review_EAA.py:250-256 | when net <= pos for every review, rho is at most 1/2 |
| ReviewScores.AgreeingPeersSupport | Review_EAA.py:270-275 | peers with the review's rating and Q + rho >= 0 give a support sum of the review's sign |
| ReviewScores.PeerSumBounded | Review_EAA.py:270-274 | with ratings +-1, abs(Q) <= 1 and abs(rho) <= 1, the support sum over n peers lies in [-n, n] |
| ReviewScores.SupportBalanceBounded | Review_EAA.py:262-275 | under the same bounds zeta lies in [-1, 1] |
| ReviewScores.FitnessBounded | Review_EAA.py:213-241 | zeta, rho and Q in [-1,1] give G and Pi in [-1,1] |
| ReviewScores.MeanWithin | Review_EAA.py:140-145 | a mean of values in [lo, hi] lies in [lo, hi] |
| ReviewScores.SingletonSampleZeta | Review_EAA.py:131-132 | in a one-review sample, zeta is 0 |
| ReviewScores.SampleRatingBounded | Review_EAA.py:142-145 | with ratings +-1, the mean sample rating lies in [-1, 1] |
| ReviewScores.SampleQualityBounded | Review_EAA.py:140-144 | with abs(Q) <= 1, the mean sample quality lies in [-1, 1] |
| ReviewScores.SampleFitnessBounded | Review_EAA.py:141-143 | when the sample's vote balance rho lies in [-1, 1], ratings are +-1 and abs(Q) <= 1, every sampled Pi lies in [-1, 1], and so does the mean of Pi*rating |
| Sequences.RemoveFirst | Review_EAA.py:265 | `list.remove` shortens a list that holds the element by one and adds nothing to it; the absent case, where Python raises ValueError, keeps the list (see Left out) |
| Sequences.FirstIndex | Review_EAA.py:265 | the position `list.remove` acts on holds the element, and no earlier position does |
| Sequences.RemoveFirstAt | Review_EAA.py:265 | `list.remove` deletes exactly the first occurrence: the result is the list before that position followed by the list after it, in order |
| Sequences.RemoveFirstOfDistinct | Review_EAA.py:263-265 | in a duplicate-free list, removing the element at k is deleting position k |
| StableSort.SortDescPermutes | Review_EAA.py:105-108 | the sort of the history is a permutation of it |
| StableSort.SortDescOrdered | Review_EAA.py:105-108 | the sorted list is non-increasing by the key |
| StableSort.SortDescStable | Review_EAA.py:105-108 | elements with equal keys keep their relative order |
| StableSort.SortDescLength | Review_EAA.py:105-108 | sorting keeps the length |
| Selection.PolicySpellings | Review_EAA.py:64-68 | exactly the spellings the source accepts parse, for each policy |
| Selection.SelectIsSubsample | Review_EAA.py:109-121 | the sample has no more elements than the history, takes them from the history, and has no duplicates |
| Selection.SelectShortHistory | Review_EAA.py:110-111 | a history of at most M reviews is shown whole |
| Selection.SelectMostRecent | Review_EAA.py:116-117 | Most Recent shows the last M reviews in list order |
| Selection.SelectRandom | Review_EAA.py:112-113 | Random shows the M distinct reviews at the drawn indices |
| Selection.SelectTopRanked | Review_EAA.py:114-115 | Most Helpful and Best Quality show the first M reviews of the sorted history |
| Selection.SelectEmpty | Review_EAA.py:109-117 | the sample is empty exactly when the history is, or when M = 0 and the policy is not Most Recent |
| Agents.UpVoteCondition | Review_EAA.py:170-174 | an upvote needs Pi > 0 and a policy other than No Feedback; under those it happens exactly when the draw is at most Pi |
| Agents.DownVoteCondition | Review_EAA.py:175-179 | a downvote needs Pi <= 0 and policy Both; then it happens exactly when the draw is at most abs(Pi) |
| Agents.PolicyLimitsVotes | Review_EAA.py:168-179 | Positive never downvotes; No Feedback never votes |
| Agents.VotesAt | Review_EAA.py:169-179 | the k-th vote is decided by the k-th review's Pi and the k-th draw |
| Agents.PolicyVotes | Review_EAA.py:172-177 | over a whole sample, no downvote unless the policy is Both, and no upvote under No Feedback |
| Agents.CountedVotes | Review_EAA.py:169-179 | a review that gains an upvote is in the sample, has Pi > 0, and the policy allows upvotes; one that gains a downvote has Pi <= 0 and the policy is Both |
| Agents.PersonType.constructor | Review_EAA.py:162-164 | the agent keeps its type |
| Agents.PersonType.HelpfulReview | Review_EAA.py:167-180 | an unknown policy changes nothing; otherwise each review's pos and neg grow by the number of up- and downvotes it receives, and net = pos - neg holds afterwards |
| Agents.VoteStep | Review_EAA.py:169-180 | one loop step adds one vote and keeps the counters consistent with the votes counted so far |
| Agents.VoteOn | Review_EAA.py:170-179 | one vote changes only the voted review's pos or neg by one, and net by the same amount |
| Platforms.Max | Review_EAA.py:88 | the larger of two values |
| Platforms.DraftInRange | Review_EAA.py:76-88 | draws in range give interaction time, feature use and author position in [0,1], and abs(Q) <= 1 |
| Platforms.DraftValidation | Review_EAA.py:78-88 | the draft is validated exactly under Only Validated; under None the author position is 0; feature use is at least the author position |
| Platforms.Platform.constructor | Review_EAA.py:64-74 | the platform keeps its parameters, the history is empty and the sample scores are uncomputed |
| Platforms.Platform.GenPositionToKnow | Review_EAA.py:76-93 | it fails, with the history unchanged, for an unknown validation policy or abs(Q) > 1; otherwise it appends one fresh review whose index is the old history length, with the drawn inputs, Q and rating |
| Platforms.Platform.Draw | Review_EAA.py:77-89 | the drawn review has the draft's inputs, the next index, zero votes and no scores |
| Platforms.Platform.AppendKeepsValid | Review_EAA.py:92 | appending a scored review with the next index keeps the history duplicate-free, with distinct indices |
| Platforms.Platform.GameStep | Review_EAA.py:95-100 | the history is re-sorted by the policy and the sample is the selection from it; the sample is scored: every sampled review's rho, zeta, G and Pi and the three sample means are those of the prior standings, and unsampled reviews keep rho, zeta, G and Pi; a mutation draw (at most mu) appends exactly one review generated from the draws with the next index, or fails with the history only re-sorted; a vote draw adds each sampled review's own up- or downvote to pos, neg and net; every other review's counters, and all counters under No Feedback or a mutation draw, are unchanged |
| Platforms.Platform.Respond | Review_EAA.py:97-100 | on a scored sample: a draw at most mu appends exactly one generated review or fails leaving the history unchanged; a larger draw adds each sampled review's vote to its counters, No Feedback changing none; no review's rho, zeta, G or Pi and none of the sample means change |
| Platforms.Platform.ReadSample | Review_EAA.py:100 | an unknown helpfulness policy fails; otherwise each sampled review's pos, neg and net grow by its own vote, No Feedback changing none, and the history stays valid |
| Platforms.Platform.GetReviewOrder | Review_EAA.py:103-121 | an unknown policy changes nothing; otherwise the history is re-sorted by the policy's key and the sample is the selection from it, distinct reviews of the history; the history stays a permutation of itself, and no review's scores, counters or standing change |
| Platforms.Platform.UpdateSampleAttributes | Review_EAA.py:123-146 | it fails on an unknown policy, an empty sample or a rating other than +-1; the sample is the selection from the re-sorted history; each sampled review gets the rho, zeta, G and Pi of the standings it had before; the sample quality, fitness and rating are the means of Q, Pi*rating and rating; unsampled reviews keep rho, zeta, G and Pi, and no vote counter changes |
| Platforms.Platform.ScoreSample | Review_EAA.py:127-145 | with ratings +-1, every sampled review is scored from the standings and the loop's sums, divided by the sample size, are the three sample means; unsampled reviews keep rho, zeta, G and Pi, and no counter changes |
| Platforms.Platform.SetSampleScores | Review_EAA.py:127-145 | the three sample fields take the given values, which are the final means lines 143-145 leave (the model keeps the running sums in locals instead of resetting the fields at 127-129 and adding into them), and the history is untouched |
| Platforms.Platform.SampleOfHistory | Review_EAA.py:109-120 | a selection from a permuted history is distinct members of the original history, each with a Q |
| Platforms.Platform.PermutationKeepsValid | Review_EAA.py:105-108 | re-sorting the history keeps it valid |
| Platforms.IndexedPermutation | Review_EAA.py:105-108 | a permutation of a duplicate-free, indexed history has the same members and stays duplicate-free and indexed |
| Platforms.ReorderPermutes | Review_EAA.py:105-108 | the re-sorted history is a permutation of the old one |
| Platforms.ReorderRanks | Review_EAA.py:105-108 | Most Helpful orders by non-increasing review_pos; Best Quality orders by non-increasing Q |
| Platforms.ReorderStable | Review_EAA.py:105-108 | the sort is stable; Random and Most Recent leave the order alone |
| Platforms.ScoreInSample | Review_EAA.py:131-139 | one loop step scores the k-th sampled review; quality and rating are unchanged |
| Platforms.ZetaAlone | Review_EAA.py:131-132 | a review alone in the sample gets zeta that equals the sample formula's value, 0 |
| Platforms.ZetaAgainst | Review_EAA.py:137 | a review in a larger sample gets the sample formula's zeta, and every other sampled review gets the sample's rho |
| Platforms.SamplePeers | Review_EAA.py:263-265 | removing a review from a duplicate-free sample leaves its peers, and the sample zeta is the support balance over them |
| Platforms.OthersRho | Review_EAA.py:273 | the rho written to all peers holds at every other position of the sample |
| Platforms.RhoAndForce | Review_EAA.py:138 | a sampled review gets the sample's rho and G = (zeta + rho)/2 |
| Platforms.ScoreStep | Review_EAA.py:130-142 | one loop step scores a review and returns its Q, Pi*rating and rating; earlier reviews keep their Pi |
| Platforms.ScoreLoop | Review_EAA.py:130-142 | the loop scores every sampled review and accumulates exactly the sums of Q, Pi*rating and rating |
| Platforms.CarriedFitnessOfScored | Review_EAA.py:141 | the Pi*rating values the reviews carry after scoring are the sample formula's values |
| ReviewQuality.MissingKey | s13_review_quality_v2_2.py:65-66 | no key is missing exactly when every feature has a weight; a reported key is missing |
| ReviewQuality.MissingKeyAt | s13_review_quality_v2_2.py:65-66 | the reported key is the first missing one in list order |
| ReviewQuality.Cq | s13_review_quality_v2_2.py:61-79 | CQ succeeds exactly when every feature has a weight and a value and the weights sum to 1.0; its value is the weighted sum; it raises KeyError for the first missing weight and ValueError for a bad sum |
| ReviewQuality.ComputeCQ | s13_review_quality_v2_2.py:61-79 | the two accumulating loops compute exactly CQ, including its errors |
| ReviewQuality.CqBetween | s13_review_quality_v2_2.py:70-77 | with non-negative weights, CQ lies between any lower and upper bound of the feature values |
| ReviewQuality.ConfiguredWeightsSumToOne | s13_review_quality_v2_2.py:330 | the configured weights of each of CQ1, CQ2 and CQ3 sum to exactly 1 |
| ReviewQuality.FeatureSetsDisjoint | s13_review_quality_v2_2.py:96-98 | the three feature sets are disjoint |
| ReviewQuality.Min3 | s13_review_quality_v2_2.py:100 | `min` of three values is at most each and equals one of them |
| ReviewQuality.ComputeQuality | s13_review_quality_v2_2.py:82-101 | it succeeds exactly when the eight features are read and the three CQs succeed; each CQ is its weighted sum, and the quality is at most each CQ and equal to one of them |
| ReviewQuality.FeaturesOnScale | s13_review_quality_v2_2.py:84-93 | scores on the 0..5 scale give features on the 0..5 scale |
| ReviewQuality.QualityOnScale | s13_review_quality_v2_2.py:82-101 | with non-negative weights and scores in [0,5], every CQ and the quality lie in [0,5] |
| ReviewQuality.ReturnKeyInfo | s13_review_quality_v2_2.py:207-216 | it succeeds exactly when the entry has a Review ID; the result has exactly the seven keys, copies the Review ID, and stores CQ1+CQ2+CQ3 as CQ Sum |
| ReviewQuality.KeyInfoOfQuality | s13_review_quality_v2_2.py:207-216 | for a computed quality, the stored Review Quality is that quality and is at most a third of the CQ Sum |
| ReviewQuality.AscriptionValue | s13_review_quality_v2_2.py:26-49 | an unknown data source raises ValueError; a machine ascription gives its number, with None/NaN counting as 0 |
| ReviewQuality.AscriptionWritesOneKey | s13_review_quality_v2_2.py:52-56 | `ascription_scoring` adds one numeric entry, under "Product Rating" for Predicted Rating and under the feature otherwise; every other entry is kept; the Product Rating is at most 5 |
| ReviewQuality.TallyMeanBetween | s13_review_quality_v2_2.py:26-43 | when something is counted, the count-weighted mean of the tally lies between any bounds of the included label values (n/a counts as 0 and is skipped for Predicted Rating) |
| ReviewQuality.ScoreTally | s13_review_quality_v2_2.py:26-43 | the accumulating loop computes the tally mean, 0 for a zero total, and raises ValueError for a key float() cannot convert |
| ReviewQuality.AscriptionScoring | s13_review_quality_v2_2.py:18-58 | the method computes exactly the ascription of the specification function, including its errors |
| ReviewQuality.BestIndex | s13_review_quality_v2_2.py:111 | `max(output, key=...)` picks a maximal count, and the first one on ties |
| ReviewQuality.ConsumerValue | s13_review_quality_v2_2.py:104-120 | on success it adds one entry, 0 or 5, under the consumer value and keeps every other entry; an unknown data source fails |
| ReviewQuality.ConsumerValueZero | s13_review_quality_v2_2.py:109-112 | under the annotations the score is 0 exactly when the first most-counted key is n/a |
| ReviewQuality.ConsumerValueZeroMachine | s13_review_quality_v2_2.py:114-115 | under the machine ascription the score is 0 exactly when the value is None/NaN |
| ReviewQuality.ConsumerValuesBinary | s13_review_quality_v2_2.py:165-166 | after all consumer values, each is 0 or 5 and every other entry is kept |
| ReviewQuality.AscriptionsKeep | s13_review_quality_v2_2.py:169-170 | the ascription loop leaves alone every key it does not write |
| ReviewQuality.AuthorRatingBounds | s13_review_quality_v2_2.py:189-202 | the Author Rating is at most 5, at least 0 for non-negative histories, and a history that fails to convert scores min(n,5)/2 |
| ReviewQuality.NonAscriptionScores | s13_review_quality_v2_2.py:173-202 | the Verified and Image Exists scores are 5 or 0 as the review says, the Author Rating is the history formula, and every other entry is kept |
| ReviewQuality.ProcessedReview | s13_review_quality_v2_2.py:150-204 | filter errors propagate; a skipped review (source missing, no clarity annotator, a deception flag) gives None; otherwise the result is the consumer values, then the ascriptions, then the last three scores applied to the Review ID entry |
| ReviewQuality.ProcessedScores | s13_review_quality_v2_2.py:154-204 | a processed review keeps its Review ID "reviewerID_unixReviewTime", and every consumer value that no later step overwrites is 0 or 5 |
| ReviewQuality.ProcessReview | s13_review_quality_v2_2.py:150-204 | the method with its two loops computes exactly the processed review |

## Left out

- Randomness. Every `np.random.uniform` draw and the indices of `random.sample` are parameters. The draws are assumed to be in range where a lemma needs it. Distributions and seeds are not modelled.
- Floating point. Floats are reals, so rounding is not modelled. NaN is modelled only as the missing value None of a machine ascription. The `!= 1.0` test of `compute_CQ` is exact: `ConfiguredWeightsSumToOne` holds over the reals, and a float sum of the same constants may differ from 1.0.
- Python's `list.sort` algorithm is replaced by a stable insertion sort with the same result.
- The parameters `mu` and `D` are arguments, not module constants. `D` is the platform's `deceptionRisk`.
- The exits in `gen_position_to_know`, `calc_Q_arg`, `get_review_order` and `helpful_review`, and the assertion on ratings in `calc_rho_arg`, stop the program in the source. The model returns a `false` status instead and leaves the state as the contract says.
- Sequences.RemoveFirst: when the element is absent the model returns the list unchanged, whereas Python's `list.remove` raises ValueError (Review_EAA.py:265). `calc_zeta_arg` only removes a review from a list that contains it (`Reviews.PositionToKnow.CalcZetaArg` requires it), so the case does not arise there.
- `Platforms.Platform.UpdateSampleAttributes`: when the sample is empty or a rating is not +-1, the model does not state the sample fields. The source stops the program at that point.
- `Agents.PersonType.HelpfulReview` and `Platforms.Platform.GameStep` need one vote draw per sampled review (`|voteDraws| >= |totalReviews|`), since the agent draws once per review.
- `calc_rating` draws u uniformly from [-1, 1] and compares it with (1+Q)/2, so the chance that a review agrees with the ground truth is (3+Q)/4. The model follows the code.
- `calc_rho_arg` computes the value from the last element of the list, not from the review itself. The model follows the code.
- The experiment driver, plotting, the GUI, file I/O, `main`, `plot_cq_distributions` and `write_outputs` are not modelled.
- `calc_mean_rating` is commented out in the source and not modelled.
- `processed` is passed by value. The source mutates the caller's dictionary and returns it. No other reference to that dictionary is read in the source, so nothing depends on the aliasing.
- `float()` parsing of tally keys is abstracted. A key is already classified as n/a, a number, or text that `float()` rejects.
- Python's `AttributeError` (`.items()` or `.values()` on a number) is folded into `TypeError`.
- `ReviewQuality.ComputeQuality`: the eight scores are read before any CQ is computed, so a non-numeric score raises `TypeError` before the weight check. The source would raise it only inside the numerator loop.
- `ReviewQuality.AuthorRatingBounds`: a history entry is an `Option<int>`. `None` stands for any value `int()` rejects: `ValueError`, which the source catches. The `TypeError` that `int(None)` raises is not caught by the source and is not distinguished. The truncation `int()` applies to a float entry is not modelled.
- Tallies are lists of (key, count) pairs in insertion order. A list may repeat a key, which a Python dictionary cannot. `FlagCount` reads the first occurrence.
- `reviewerID` and `unixReviewTime` are always present. `unixReviewTime` is given as the text it is formatted to.
