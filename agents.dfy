/** The reader agent: it reads the sampled reviews and casts helpfulness votes,
    upvoting a review of positive fitness and downvoting one of non-positive
    fitness with probability |Pi|, as far as the platform's helpfulness policy
    allows. */
module Agents {
  import opened Wrappers
  import opened Sequences
  import opened Selection
  import opened Reviews

  datatype Vote = Up | Down | Abstain

  /** The vote on a review of fitness `pi` given the draw `u` (uniform on [0, 1]). */
  function Decide(pi: real, u: real, policy: HelpfulPolicy): Vote {
    if pi > 0.0 then
      if u <= pi && (policy == Positive || policy == Both) then Up else Abstain
    else
      if u <= -pi && policy == Both then Down else Abstain
  }

  /** An upvote needs positive fitness and a policy that takes positive feedback;
      given those, it is cast exactly when the draw is at most Pi. */
  lemma UpVoteCondition(pi: real, u: real, policy: HelpfulPolicy)
    ensures Decide(pi, u, policy) == Up ==> pi > 0.0 && policy != NoFeedback
    ensures pi > 0.0 && policy != NoFeedback ==> (Decide(pi, u, policy) == Up <==> u <= pi)
  {
  }

  /** A downvote needs non-positive fitness and the "Both" policy; given those, it
      is cast exactly when the draw is at most |Pi|. */
  lemma DownVoteCondition(pi: real, u: real, policy: HelpfulPolicy)
    ensures Decide(pi, u, policy) == Down ==> pi <= 0.0 && policy == Both
    ensures pi <= 0.0 && policy == Both ==> (Decide(pi, u, policy) == Down <==> u <= -pi)
  {
  }

  /** Under "Positive" no review is ever downvoted; under "No Feedback" no vote is cast. */
  lemma PolicyLimitsVotes(pi: real, u: real)
    ensures Decide(pi, u, Positive) != Down
    ensures Decide(pi, u, NoFeedback) == Abstain
  {
  }

  /** The votes cast on a list of reviews, one per entry, from one draw per entry. */
  function Votes(sel: seq<PositionToKnow>, draws: seq<real>, policy: HelpfulPolicy): (v: seq<Vote>)
    requires |draws| == |sel| && forall k :: 0 <= k < |sel| ==> sel[k].piArg.Some?
    reads sel`piArg
    ensures |v| == |sel|
  {
    if |sel| == 0 then []
    else
      var n := |sel| - 1;
      Votes(sel[..n], draws[..n], policy) + [Decide(sel[n].piArg.value, draws[n], policy)]
  }

  lemma {:induction false} VotesAt(sel: seq<PositionToKnow>, draws: seq<real>, policy: HelpfulPolicy, k: nat)
    requires |draws| == |sel| && forall j :: 0 <= j < |sel| ==> sel[j].piArg.Some?
    requires k < |sel|
    ensures Votes(sel, draws, policy)[k] == Decide(sel[k].piArg.value, draws[k], policy)
  {
    var n := |sel| - 1;
    if k < n {
      VotesAt(sel[..n], draws[..n], policy, k);
    }
  }

  /** How many entries of `sel` are the review `r` and received the vote `x`. */
  function Count(sel: seq<PositionToKnow>, votes: seq<Vote>, r: PositionToKnow, x: Vote): (c: nat)
    requires |votes| == |sel|
    ensures c <= |sel|
  {
    if |sel| == 0 then 0
    else
      var n := |sel| - 1;
      Count(sel[..n], votes[..n], r, x) + (if sel[n] == r && votes[n] == x then 1 else 0)
  }

  lemma CountPrefix(sel: seq<PositionToKnow>, votes: seq<Vote>, r: PositionToKnow, x: Vote, i: nat)
    requires |votes| == |sel| && i < |sel|
    ensures Count(sel[..i + 1], votes[..i + 1], r, x)
         == Count(sel[..i], votes[..i], r, x) + (if sel[i] == r && votes[i] == x then 1 else 0)
  {
    assert sel[..i + 1][..i] == sel[..i];
    assert votes[..i + 1][..i] == votes[..i];
  }

  /** A vote kind that is never cast is counted for no review. */
  lemma {:induction false} CountAbsent(sel: seq<PositionToKnow>, votes: seq<Vote>, r: PositionToKnow, x: Vote)
    requires |votes| == |sel| && forall k :: 0 <= k < |votes| ==> votes[k] != x
    ensures Count(sel, votes, r, x) == 0
  {
    if |sel| > 0 {
      var n := |sel| - 1;
      CountAbsent(sel[..n], votes[..n], r, x);
    }
  }

  lemma {:induction false} CountMissing(sel: seq<PositionToKnow>, votes: seq<Vote>, r: PositionToKnow, x: Vote)
    requires |votes| == |sel| && r !in sel
    ensures Count(sel, votes, r, x) == 0
  {
    if |sel| > 0 {
      var n := |sel| - 1;
      assert forall y :: y in sel[..n] ==> y in sel;
      CountMissing(sel[..n], votes[..n], r, x);
    }
  }

  /** In a list without repeats, which is what the platform samples, each review
      gets exactly the one vote of its own entry. */
  lemma {:induction false} CountOfDistinct(sel: seq<PositionToKnow>, votes: seq<Vote>, k: nat, x: Vote)
    requires |votes| == |sel| && Distinct(sel) && k < |sel|
    ensures Count(sel, votes, sel[k], x) == if votes[k] == x then 1 else 0
  {
    var n := |sel| - 1;
    var p := sel[..n];
    if k < n {
      assert Distinct(p);
      assert p[k] == sel[k];
      CountOfDistinct(p, votes[..n], k, x);
    } else {
      assert sel[n] !in p by {
        forall j | 0 <= j < n ensures p[j] != sel[n] {
          assert p[j] == sel[j];
        }
      }
      CountMissing(p, votes[..n], sel[n], x);
    }
  }

  /** Under "No Feedback" and "Positive" the vote list holds no downvote, and
      under "No Feedback" no upvote either. */
  lemma {:induction false} PolicyVotes(sel: seq<PositionToKnow>, draws: seq<real>, policy: HelpfulPolicy)
    requires |draws| == |sel| && forall k :: 0 <= k < |sel| ==> sel[k].piArg.Some?
    ensures policy != Both ==> forall k :: 0 <= k < |sel| ==> Votes(sel, draws, policy)[k] != Down
    ensures policy == NoFeedback ==> forall k :: 0 <= k < |sel| ==> Votes(sel, draws, policy)[k] != Up
  {
    forall k | 0 <= k < |sel|
      ensures policy != Both ==> Votes(sel, draws, policy)[k] != Down
      ensures policy == NoFeedback ==> Votes(sel, draws, policy)[k] != Up
    {
      VotesAt(sel, draws, policy, k);
    }
  }

  /** A review collects an upvote only if it was sampled, has positive fitness and
      the policy takes positive feedback, and a downvote only if it was sampled,
      has non-positive fitness and the policy is "Both". */
  lemma {:induction false} CountedVotes(sel: seq<PositionToKnow>, draws: seq<real>, policy: HelpfulPolicy, r: PositionToKnow)
    requires |draws| == |sel| && forall k :: 0 <= k < |sel| ==> sel[k].piArg.Some?
    ensures Count(sel, Votes(sel, draws, policy), r, Up) > 0 ==>
      r in sel && r.piArg.Some? && r.piArg.value > 0.0 && policy != NoFeedback
    ensures Count(sel, Votes(sel, draws, policy), r, Down) > 0 ==>
      r in sel && r.piArg.Some? && r.piArg.value <= 0.0 && policy == Both
  {
    if |sel| > 0 {
      var n := |sel| - 1;
      var init := sel[..n];
      var votes := Votes(sel, draws, policy);
      assert votes[..n] == Votes(init, draws[..n], policy);
      assert forall y :: y in init ==> y in sel;
      CountedVotes(init, draws[..n], policy, r);
      UpVoteCondition(sel[n].piArg.value, draws[n], policy);
      DownVoteCondition(sel[n].piArg.value, draws[n], policy);
    }
  }

  class PersonType {
    const idType: string

    constructor (idType: string)
      ensures this.idType == idType
    {
      this.idType := idType;
    }

    /** Casts one vote per sampled review. `ok` is false, and nothing changes, for
        a policy outside the three the platform knows. Every review's counters
        grow by the votes the list gave it, and net stays positive minus
        negative, which is what the source asserts after each review. */
    method HelpfulReview(selected: seq<PositionToKnow>, helpfulPolicy: string, draws: seq<real>) returns (ok: bool)
      requires |draws| == |selected|
      requires forall k :: 0 <= k < |selected| ==> selected[k].piArg.Some? && selected[k].VotesConsistent()
      modifies selected`reviewPos, selected`reviewNeg, selected`reviewNet
      ensures ok <==> ParseHelpfulPolicy(helpfulPolicy).Some?
      ensures !ok ==> forall k :: 0 <= k < |selected| ==>
        selected[k].reviewPos == old(selected[k].reviewPos) &&
        selected[k].reviewNeg == old(selected[k].reviewNeg) &&
        selected[k].reviewNet == old(selected[k].reviewNet)
      ensures ok ==> var votes := Votes(selected, draws, ParseHelpfulPolicy(helpfulPolicy).value);
        forall k :: 0 <= k < |selected| ==>
          selected[k].reviewPos == old(selected[k].reviewPos) + Count(selected, votes, selected[k], Up) &&
          selected[k].reviewNeg == old(selected[k].reviewNeg) + Count(selected, votes, selected[k], Down) &&
          selected[k].VotesConsistent()
      ensures ParseHelpfulPolicy(helpfulPolicy) == Some(NoFeedback) ==> forall k :: 0 <= k < |selected| ==>
        selected[k].reviewPos == old(selected[k].reviewPos) &&
        selected[k].reviewNeg == old(selected[k].reviewNeg) &&
        selected[k].reviewNet == old(selected[k].reviewNet)
      ensures ParseHelpfulPolicy(helpfulPolicy) == Some(Positive) ==> forall k :: 0 <= k < |selected| ==>
        selected[k].reviewNeg == old(selected[k].reviewNeg)
    {
      var parsed := ParseHelpfulPolicy(helpfulPolicy);
      if parsed.None? {
        return false;
      }
      var policy := parsed.value;
      ghost var votes := Votes(selected, draws, policy);
      ghost var pos0 := seq(|selected|, k reads selected requires 0 <= k < |selected| => selected[k].reviewPos);
      ghost var neg0 := seq(|selected|, k reads selected requires 0 <= k < |selected| => selected[k].reviewNeg);
      var i := 0;
      while i < |selected|
        invariant 0 <= i <= |selected|
        invariant forall k :: 0 <= k < |selected| ==> pos0[k] == old(selected[k].reviewPos) && neg0[k] == old(selected[k].reviewNeg)
        invariant Votes(selected, draws, policy) == votes
        invariant Counted(selected, votes, pos0, neg0, i)
      {
        VoteStep(selected, draws, policy, votes, pos0, neg0, i);
        i := i + 1;
      }
      assert selected[..i] == selected && votes[..i] == votes;
      if policy != Both {
        PolicyVotes(selected, draws, policy);
        forall k | 0 <= k < |selected|
          ensures Count(selected, votes, selected[k], Down) == 0
          ensures policy == NoFeedback ==> Count(selected, votes, selected[k], Up) == 0
        {
          CountAbsent(selected, votes, selected[k], Down);
          if policy == NoFeedback {
            CountAbsent(selected, votes, selected[k], Up);
          }
        }
      }
      ok := true;
    }
  }

  /** After the loop has passed the first i entries: every review's counters are
      their starting values `pos0`, `neg0` plus the votes of those entries, and
      net is positive minus negative. */
  ghost predicate Counted(selected: seq<PositionToKnow>, votes: seq<Vote>, pos0: seq<int>, neg0: seq<int>, i: nat)
    reads selected`reviewPos, selected`reviewNeg, selected`reviewNet
  {
    && |votes| == |selected| == |pos0| == |neg0| && i <= |selected|
    && forall k :: 0 <= k < |selected| ==>
      && selected[k].reviewPos == pos0[k] + Count(selected[..i], votes[..i], selected[k], Up)
      && selected[k].reviewNeg == neg0[k] + Count(selected[..i], votes[..i], selected[k], Down)
      && selected[k].VotesConsistent()
  }

  /** One turn of the helpfulness loop, from the counters after i entries to those
      after i + 1. */
  method VoteStep(selected: seq<PositionToKnow>, draws: seq<real>, policy: HelpfulPolicy, ghost votes: seq<Vote>,
                  ghost pos0: seq<int>, ghost neg0: seq<int>, i: nat)
    requires |draws| == |selected| && i < |selected|
    requires forall k :: 0 <= k < |selected| ==> selected[k].piArg.Some?
    requires votes == Votes(selected, draws, policy)
    requires Counted(selected, votes, pos0, neg0, i)
    modifies {selected[i]}`reviewPos, {selected[i]}`reviewNeg, {selected[i]}`reviewNet
    ensures Counted(selected, votes, pos0, neg0, i + 1)
  {
    VoteOn(selected, draws, policy, votes, i);
    forall k | 0 <= k < |selected|
      ensures Count(selected[..i + 1], votes[..i + 1], selected[k], Up)
           == Count(selected[..i], votes[..i], selected[k], Up) + (if selected[k] == selected[i] && votes[i] == Up then 1 else 0)
      ensures Count(selected[..i + 1], votes[..i + 1], selected[k], Down)
           == Count(selected[..i], votes[..i], selected[k], Down) + (if selected[k] == selected[i] && votes[i] == Down then 1 else 0)
    {
      CountPrefix(selected, votes, selected[k], Up, i);
      CountPrefix(selected, votes, selected[k], Down, i);
    }
  }

  /** The vote on `selected[i]`: the step of the helpfulness loop. */
  method VoteOn(selected: seq<PositionToKnow>, draws: seq<real>, policy: HelpfulPolicy, ghost votes: seq<Vote>, i: nat)
    requires |draws| == |selected| && i < |selected|
    requires forall k :: 0 <= k < |selected| ==> selected[k].piArg.Some?
    requires votes == Votes(selected, draws, policy)
    modifies {selected[i]}`reviewPos, {selected[i]}`reviewNeg, {selected[i]}`reviewNet
    ensures forall k :: 0 <= k < |selected| ==>
      selected[k].reviewPos == old(selected[k].reviewPos) + (if selected[k] == selected[i] && votes[i] == Up then 1 else 0) &&
      selected[k].reviewNeg == old(selected[k].reviewNeg) + (if selected[k] == selected[i] && votes[i] == Down then 1 else 0) &&
      selected[k].reviewNet - selected[k].reviewPos + selected[k].reviewNeg
        == old(selected[k].reviewNet - selected[k].reviewPos + selected[k].reviewNeg)
  {
    var review := selected[i];
    var u := draws[i];
    VotesAt(selected, draws, policy, i);
    if review.piArg.value > 0.0 {
      if u <= review.piArg.value {
        if policy == Positive || policy == Both {
          review.reviewPos := review.reviewPos + 1;
          review.reviewNet := review.reviewNet + 1;
        }
      }
    } else {
      if u <= -review.piArg.value {
        if policy == Both {
          review.reviewNeg := review.reviewNeg + 1;
          review.reviewNet := review.reviewNet - 1;
        }
      }
    }
  }
}
