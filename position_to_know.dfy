/** A synthetic review, the "argument from position to know". Its scores start
    uncomputed ('None' in the source, `None` here) and its methods fill them in
    place; the peers' vote balances are overwritten by the support-balance
    computation, as in the source. */
module Reviews {
  import opened Wrappers
  import opened Sequences
  import opened ReviewScores

  class PositionToKnow {
    const idx: nat
    const interactionTime: real
    const featureUse: real
    const validated: bool
    const authorPos: real
    var cq1: Option<real>
    var cq2: Option<real>
    var reviewPos: nat
    var reviewNeg: nat
    var reviewNet: int
    var qArg: Option<real>
    var gArg: Option<real>
    var rhoArg: Option<real>
    var zetaArg: Option<real>
    var rating: Option<int>
    var piArg: Option<real>

    /** The invariant the source checks after every vote. */
    predicate VotesConsistent()
      reads this`reviewPos, this`reviewNeg, this`reviewNet
    {
      reviewNet == reviewPos - reviewNeg
    }

    /** What the sample-dependent scores read from this review (0 for an uncomputed
        quality or rating). */
    function Standing(): ReviewScores.Standing
      reads this`reviewPos, this`reviewNet, this`qArg, this`rating
    {
      ReviewScores.Standing(
        reviewPos, reviewNet,
        if qArg.Some? then qArg.value else 0.0,
        if rating.Some? then rating.value else 0)
    }

    /** A fresh review: no votes, every score uncomputed. (The source's constructor
        also takes the helpfulness policy and ignores it.) */
    constructor (idx: nat, interactionTime: real, featureUse: real, validated: bool, authorPos: real)
      ensures this.idx == idx && this.interactionTime == interactionTime
      ensures this.featureUse == featureUse && this.validated == validated
      ensures this.authorPos == authorPos
      ensures reviewPos == 0 && reviewNeg == 0 && reviewNet == 0
      ensures cq1 == None && cq2 == None && qArg == None && gArg == None
      ensures rhoArg == None && zetaArg == None && rating == None && piArg == None
    {
      this.idx := idx;
      this.interactionTime := interactionTime;
      this.featureUse := featureUse;
      this.validated := validated;
      this.authorPos := authorPos;
      reviewPos, reviewNeg, reviewNet := 0, 0, 0;
      cq1, cq2, qArg, gArg := None, None, None, None;
      rhoArg, zetaArg, rating, piArg := None, None, None, None;
    }

    method Cq1Reliability()
      modifies this`cq1
      ensures cq1 == Some(Cq1(interactionTime, featureUse))
    {
      cq1 := Some(Cq1(interactionTime, featureUse));
    }

    method Cq2Reliability(d: real)
      modifies this`cq2
      ensures cq2 == Some(Cq2(authorPos, validated, d))
    {
      cq2 := Some(Cq2(authorPos, validated, d));
    }

    /** Computes CQ1, CQ2 and Q; `ok` is false where the source stops the run
        because |Q| > 1. */
    method CalcQArg(d: real) returns (ok: bool)
      modifies this`cq1, this`cq2, this`qArg
      ensures cq1 == Some(Cq1(interactionTime, featureUse))
      ensures cq2 == Some(Cq2(authorPos, validated, d))
      ensures qArg == Some(Quality(cq1.value, cq2.value))
      ensures ok <==> QualityInRange(qArg.value)
    {
      Cq1Reliability();
      Cq2Reliability(d);
      var q := Quality(cq1.value, cq2.value);
      qArg := Some(q);
      ok := !(q > 1.0 || q < -1.0);
    }

    /** Draws the rating against the ground truth with the draw `u`. */
    method CalcRating(expectedRating: int, u: real)
      requires qArg.Some?
      modifies this`rating
      ensures rating == Some(RatingFor(qArg.value, expectedRating, u))
      ensures expectedRating != 0 ==>
        (rating == Some(expectedRating) <==> u <= (1.0 + qArg.value) / 2.0)
    {
      if u <= (1.0 + qArg.value) / 2.0 {
        rating := Some(expectedRating);
      } else {
        rating := Some(-expectedRating);
      }
    }

    method CalcPiArg()
      requires gArg.Some? && qArg.Some?
      modifies this`piArg
      ensures piArg == Some(Fitness(gArg.value, qArg.value))
    {
      piArg := Some(Fitness(gArg.value, qArg.value));
    }

    /** Computes rho over `reviews` and, from it and zeta, G. */
    method CalcGArg(reviews: seq<PositionToKnow>) returns (ok: bool)
      requires zetaArg.Some?
      modifies this`rhoArg, this`gArg
      ensures ok <==> |reviews| == 0 || old(UnitRatings(reviews))
      ensures ok ==> rhoArg == Some(VoteBalance(old(Standings(reviews))))
      ensures ok ==> gArg == Some(InteractionForce(zetaArg.value, rhoArg.value))
    {
      ok := CalcRhoArg(reviews);
      if ok {
        gArg := Some(InteractionForce(zetaArg.value, rhoArg.value));
      }
    }

    /** The vote balance, computed as the source does: the maximum doubled positive
        count first, then a pass over the list that overwrites rho for every entry,
        so that the last entry's net count decides. `ok` is false where the source's
        assertion that every rating is 1 or -1 fails. */
    method CalcRhoArg(reviews: seq<PositionToKnow>) returns (ok: bool)
      modifies this`rhoArg
      ensures ok <==> |reviews| == 0 || old(UnitRatings(reviews))
      ensures ok ==> rhoArg == Some(VoteBalance(old(Standings(reviews))))
    {
      var n := |reviews|;
      if n == 0 {
        rhoArg := Some(0.0);
        return true;
      }
      ghost var st := Standings(reviews);
      StandingsAt(reviews, n - 1);
      var maxVotes := MaxVotes(reviews);
      var rho;
      ok, rho := LastBalance(reviews, maxVotes);
      assert ok ==> rho == VoteBalance(st);
      if ok {
        rhoArg := Some(rho);
      }
    }

    /** The support balance over the sampled list: self is removed (first
        occurrence, as `list.remove` does) and, for every remaining peer, the peer's
        own rho is recomputed over the whole list and stored in the peer before it
        enters the sum. `ok` is false where that recomputation's rating assertion
        fails. */
    method CalcZetaArg(selected: seq<PositionToKnow>) returns (ok: bool)
      requires selected == [] || this in selected
      requires forall r :: r in selected ==> r.qArg.Some?
      modifies this`zetaArg, selected`rhoArg
      ensures var peers := RemoveFirst(selected, this);
        ok <==> |peers| == 0 || old(UnitRatings(selected))
      ensures var peers := RemoveFirst(selected, this);
        ok ==> zetaArg == Some(SupportBalance(old(Standing().rating), old(Standings(peers)), VoteBalance(old(Standings(selected)))))
      ensures var peers := RemoveFirst(selected, this);
        ok ==> forall r :: r in peers ==> r.rhoArg == Some(VoteBalance(old(Standings(selected))))
      ensures var peers := RemoveFirst(selected, this);
        forall r :: r in selected && r !in peers ==> r.rhoArg == old(r.rhoArg)
    {
      var peers := RemoveFirst(selected, this);
      var n := |peers|;
      if n == 0 {
        zetaArg := Some(0.0);
        return true;
      }
      assert forall k :: 0 <= k < n ==> peers[k] in peers;
      ok := ZetaOver(peers, selected);
    }

    /** The support balance over a non-empty list of peers taken from `selected`. */
    method ZetaOver(peers: seq<PositionToKnow>, selected: seq<PositionToKnow>) returns (ok: bool)
      requires |peers| > 0 && this in selected
      requires forall k :: 0 <= k < |peers| ==> peers[k] in selected && peers[k].qArg.Some?
      modifies this`zetaArg, peers`rhoArg
      ensures ok <==> old(UnitRatings(selected))
      ensures ok ==> zetaArg == Some(SupportBalance(old(Standing().rating), old(Standings(peers)), VoteBalance(old(Standings(selected)))))
      ensures ok ==> forall r :: r in peers ==> r.rhoArg == Some(VoteBalance(old(Standings(selected))))
    {
      ghost var pst, sst := Standings(peers), Standings(selected);
      var interactionSum;
      ok, interactionSum := InteractionSum(peers, selected);
      if ok {
        assert forall r :: r in peers ==> exists k :: 0 <= k < |peers| && peers[k] == r;
        ghost var me := Standing().rating;
        assert me == rating.value by {
          assert this in selected;
        }
        zetaArg := Some(RatedMean(rating.value, interactionSum, |peers|));
      }
    }
  }

  /** The loop of the support balance: every peer's rho is recomputed over the
      whole sampled list and stored before its support enters the sum. */
  method InteractionSum(peers: seq<PositionToKnow>, selected: seq<PositionToKnow>) returns (ok: bool, sum: real)
    requires |peers| > 0
    requires forall k :: 0 <= k < |peers| ==> peers[k] in selected && peers[k].qArg.Some?
    modifies peers`rhoArg
    ensures ok <==> old(UnitRatings(selected))
    ensures ok ==> sum == PeerSum(old(Standings(peers)), VoteBalance(old(Standings(selected))))
    ensures ok ==> forall k :: 0 <= k < |peers| ==> peers[k].rhoArg == Some(VoteBalance(old(Standings(selected))))
  {
    ghost var sst, pst := Standings(selected), Standings(peers);
    ghost var rho := VoteBalance(sst);
    ghost var unit := UnitRatings(selected);
    sum := 0.0;
    var j := 0;
    while j < |peers|
      invariant 0 <= j <= |peers|
      invariant Standings(peers) == pst
      invariant Standings(selected) == sst
      invariant sum == PeerSum(pst[..j], rho)
      invariant forall k :: 0 <= k < j ==> peers[k].rhoArg == Some(rho)
      invariant UnitRatings(selected) == unit
      invariant 0 < j ==> unit
    {
      var support;
      ok, support := Interaction(peers, j, selected, rho);
      if !ok {
        return false, sum;
      }
      assert pst[..j + 1][..j] == pst[..j];
      sum := sum + support;
      j := j + 1;
    }
    assert pst[..j] == pst;
    ok := true;
  }

  /** The first pass of the vote balance: the largest doubled positive count. */
  method MaxVotes(reviews: seq<PositionToKnow>) returns (maxVotes: int)
    requires |reviews| > 0
    ensures maxVotes == MaxDoubledPos(Standings(reviews))
  {
    ghost var st := Standings(reviews);
    StandingsAt(reviews, 0);
    maxVotes := reviews[0].reviewPos + reviews[0].reviewPos;
    var i := 1;
    while i < |reviews|
      invariant 1 <= i <= |reviews|
      invariant maxVotes == MaxDoubledPos(st[..i])
    {
      assert st[..i + 1][..i] == st[..i];
      StandingsAt(reviews, i);
      var votes := reviews[i].reviewPos + reviews[i].reviewPos;
      if votes > maxVotes {
        maxVotes := votes;
      }
      i := i + 1;
    }
    assert st[..i] == st;
  }

  /** The second pass of the vote balance: it checks every rating and keeps
      overwriting rho, so the last review's net count is what remains. */
  method LastBalance(reviews: seq<PositionToKnow>, maxVotes: int) returns (ok: bool, rho: real)
    requires |reviews| > 0
    ensures ok <==> UnitRatings(reviews)
    ensures ok ==> rho == if maxVotes > 0 then reviews[|reviews| - 1].reviewNet as real / maxVotes as real else 0.0
  {
    rho := 0.0;
    var i := 0;
    while i < |reviews|
      invariant 0 <= i <= |reviews|
      invariant forall k :: 0 <= k < i ==> reviews[k].rating == Some(1) || reviews[k].rating == Some(-1)
      invariant 0 < i ==> rho == if maxVotes > 0 then reviews[i - 1].reviewNet as real / maxVotes as real else 0.0
    {
      if !(reviews[i].rating == Some(1) || reviews[i].rating == Some(-1)) {
        assert reviews[i] in reviews;
        return false, rho;
      }
      if maxVotes > 0 {
        rho := reviews[i].reviewNet as real / maxVotes as real;
      } else {
        rho := 0.0;
      }
      i := i + 1;
    }
    ok := true;
  }

  /** One peer's turn in the support balance: the rho of `peers[j]` is recomputed
      over the whole list and stored, and its support is what enters the
      interaction sum. Nothing either list's standings read is changed. */
  method Interaction(peers: seq<PositionToKnow>, j: nat, selected: seq<PositionToKnow>, ghost rho: real)
    returns (ok: bool, support: real)
    requires j < |peers| && peers[j] in selected && peers[j].qArg.Some?
    requires rho == VoteBalance(Standings(selected))
    requires forall k :: 0 <= k < j ==> peers[k].rhoArg == Some(rho)
    modifies {peers[j]}`rhoArg
    ensures Standings(peers) == old(Standings(peers)) && Standings(selected) == old(Standings(selected))
    ensures UnitRatings(selected) == old(UnitRatings(selected))
    ensures ok <==> old(UnitRatings(selected))
    ensures ok ==> forall k :: 0 <= k < j + 1 ==> peers[k].rhoArg == Some(rho)
    ensures ok ==> support == Support(Standings(peers)[j], rho)
  {
    var alt := peers[j];
    StandingsAt(peers, j);
    ghost var before := alt.Standing();
    ok := alt.CalcRhoArg(selected);
    assert alt.Standing() == before;
    if ok {
      support := Support(alt.Standing(), alt.rhoArg.value);
    } else {
      support := 0.0;
    }
  }

  predicate UnitRatings(s: seq<PositionToKnow>)
    reads s`rating
  {
    forall k :: 0 <= k < |s| ==> s[k].rating == Some(1) || s[k].rating == Some(-1)
  }

  /** The standings of a list of reviews, position by position. */
  function Standings(s: seq<PositionToKnow>): (st: seq<Standing>)
    reads s`reviewPos, s`reviewNet, s`qArg, s`rating
    ensures |st| == |s|
  {
    if |s| == 0 then [] else Standings(s[..|s| - 1]) + [s[|s| - 1].Standing()]
  }

  /** Standings depend on the votes, the quality and the rating only: where those
      fields are as they were, so are the standings. */
  twostate lemma {:induction false} StandingsUnchanged(s: seq<PositionToKnow>)
    requires forall j :: 0 <= j < |s| ==>
      && s[j].reviewPos == old(s[j].reviewPos) && s[j].reviewNet == old(s[j].reviewNet)
      && s[j].qArg == old(s[j].qArg) && s[j].rating == old(s[j].rating)
    ensures Standings(s) == old(Standings(s))
  {
    if |s| > 0 {
      StandingsUnchanged(s[..|s| - 1]);
    }
  }

  /** The standing at position k is that of the k-th review. */
  lemma {:induction false} StandingsAt(s: seq<PositionToKnow>, k: nat)
    requires k < |s|
    ensures Standings(s)[k] == s[k].Standing()
  {
    if k < |s| - 1 {
      StandingsAt(s[..|s| - 1], k);
    }
  }

  /** Dropping a position commutes with taking the standings. */
  lemma StandingsRemoveAt(s: seq<PositionToKnow>, k: nat)
    requires k < |s|
    ensures Standings(RemoveAt(s, k)) == RemoveAt(Standings(s), k)
  {
    var r := RemoveAt(s, k);
    forall i | 0 <= i < |r| ensures Standings(r)[i] == RemoveAt(Standings(s), k)[i] {
      StandingsAt(r, i);
      if i < k {
        StandingsAt(s, i);
      } else {
        StandingsAt(s, i + 1);
      }
    }
  }

  /** The standings of a list are fixed by the standing of each of its entries. */
  lemma StandingsOf(s: seq<PositionToKnow>, st: seq<ReviewScores.Standing>)
    requires |s| == |st|
    requires forall j {:trigger s[j].Standing()} :: 0 <= j < |s| ==> s[j].Standing() == st[j]
    ensures Standings(s) == st
  {
    forall j | 0 <= j < |s| ensures Standings(s)[j] == st[j] {
      StandingsAt(s, j);
    }
  }

  /** Every entry of the standings is that of the review at its position. */
  lemma StandingsAll(s: seq<PositionToKnow>)
    ensures forall j {:trigger s[j].Standing()} :: 0 <= j < |s| ==> s[j].Standing() == Standings(s)[j]
  {
    forall j | 0 <= j < |s| ensures s[j].Standing() == Standings(s)[j] {
      StandingsAt(s, j);
    }
  }

  /** The ratings of a list are all 1 or -1 exactly when its standings' are: a
      missing rating stands as 0. */
  lemma UnitRatingsOf(s: seq<PositionToKnow>, st: seq<ReviewScores.Standing>)
    requires |s| == |st|
    requires forall j {:trigger s[j].Standing()} :: 0 <= j < |s| ==> s[j].Standing() == st[j]
    ensures UnitRatings(s) <==> UnitStandings(st)
  {
    forall j | 0 <= j < |s| ensures s[j].rating == Some(1) || s[j].rating == Some(-1) <==> UnitRating(st[j].rating) {
      assert s[j].Standing() == st[j];
    }
  }
}
