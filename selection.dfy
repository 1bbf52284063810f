/** The platform's three policies, spelled as in the source, and the rule that picks
    the per-tick sample from the (possibly just re-sorted) history. */
module Selection {
  import opened Wrappers
  import opened Sequences

  datatype ValidatePolicy = OnlyValidated | NoValidation
  datatype HelpfulPolicy = NoFeedback | Positive | Both
  datatype SelectPolicy = Random | MostHelpful | MostRecent | BestQuality

  function ParseValidatePolicy(s: string): Option<ValidatePolicy> {
    if s == "Only Validated" then Some(OnlyValidated)
    else if s == "None" then Some(NoValidation)
    else None
  }

  function ParseHelpfulPolicy(s: string): Option<HelpfulPolicy> {
    if s == "No Feedback" then Some(NoFeedback)
    else if s == "Positive" then Some(Positive)
    else if s == "Both" then Some(Both)
    else None
  }

  function ParseSelectPolicy(s: string): Option<SelectPolicy> {
    if s == "Random" then Some(Random)
    else if s == "Most Helpful" then Some(MostHelpful)
    else if s == "Most Recent" then Some(MostRecent)
    else if s == "Best Quality" then Some(BestQuality)
    else None
  }

  /** Only the spellings the source compares against are accepted. */
  lemma PolicySpellings(s: string)
    ensures ParseValidatePolicy(s).Some? <==> s in ["Only Validated", "None"]
    ensures ParseHelpfulPolicy(s).Some? <==> s in ["No Feedback", "Positive", "Both"]
    ensures ParseSelectPolicy(s).Some? <==> s in ["Random", "Most Helpful", "Most Recent", "Best Quality"]
  {
  }

  /** What `random.sample(history, m)` can return, as positions: m distinct positions
      of the history, in the order drawn. */
  ghost predicate RandomDraw(picks: seq<nat>, n: nat, m: nat) {
    && |picks| == m
    && (forall k :: 0 <= k < |picks| ==> picks[k] < n)
    && Distinct(picks)
  }

  /** The sample taken from the history `h` (already re-sorted for Most Helpful and
      Best Quality). Python's `h[-0:]` is the whole list, hence the `m == 0` case of
      Most Recent. */
  function Select<T>(h: seq<T>, policy: SelectPolicy, m: nat, picks: seq<nat>): seq<T>
    requires policy == Random && |h| > m ==> RandomDraw(picks, |h|, m)
  {
    if |h| <= m then h
    else match policy
      case Random => seq(m, k requires 0 <= k < m => h[picks[k]])
      case MostHelpful => h[..m]
      case BestQuality => h[..m]
      case MostRecent => if m == 0 then h else h[|h| - m..]
  }

  /** Every policy samples members of the history, never more than it holds, and
      never the same member twice. */
  lemma SelectIsSubsample<T>(h: seq<T>, policy: SelectPolicy, m: nat, picks: seq<nat>)
    requires policy == Random && |h| > m ==> RandomDraw(picks, |h|, m)
    requires Distinct(h)
    ensures var s := Select(h, policy, m, picks);
      && |s| <= |h|
      && (forall x :: x in s ==> x in h)
      && Distinct(s)
  {
    var s := Select(h, policy, m, picks);
    if |h| > m && policy == Random {
      forall i, j | 0 <= i < j < |s| ensures s[i] != s[j] {
        assert picks[i] != picks[j];
      }
    }
  }

  /** A history no longer than m is sampled whole, in its current order. */
  lemma SelectShortHistory<T>(h: seq<T>, policy: SelectPolicy, m: nat, picks: seq<nat>)
    requires |h| <= m
    ensures Select(h, policy, m, picks) == h
  {
  }

  /** Most Recent on a longer history is its last m members, in list order. */
  lemma SelectMostRecent<T>(h: seq<T>, m: nat, picks: seq<nat>)
    requires 0 < m < |h|
    ensures var s := Select(h, MostRecent, m, picks);
      |s| == m && forall k :: 0 <= k < m ==> s[k] == h[|h| - m + k]
  {
  }

  /** Random on a longer history is m distinct members, the k-th at position picks[k]. */
  lemma SelectRandom<T>(h: seq<T>, m: nat, picks: seq<nat>)
    requires m < |h| && RandomDraw(picks, |h|, m) && Distinct(h)
    ensures var s := Select(h, Random, m, picks);
      && |s| == m
      && (forall k :: 0 <= k < m ==> s[k] == h[picks[k]])
      && Distinct(s)
  {
    SelectIsSubsample(h, Random, m, picks);
  }

  /** Most Helpful and Best Quality on a longer history are its first m members. */
  lemma SelectTopRanked<T>(h: seq<T>, policy: SelectPolicy, m: nat, picks: seq<nat>)
    requires policy == MostHelpful || policy == BestQuality
    requires m < |h|
    ensures var s := Select(h, policy, m, picks);
      |s| == m && forall k :: 0 <= k < m ==> s[k] == h[k]
  {
  }

  /** The sample is empty exactly when the history is empty or m is 0 under a policy
      other than Most Recent; the source aborts on an empty sample. */
  lemma SelectEmpty<T>(h: seq<T>, policy: SelectPolicy, m: nat, picks: seq<nat>)
    requires policy == Random && |h| > m ==> RandomDraw(picks, |h|, m)
    ensures |Select(h, policy, m, picks)| == 0 <==> |h| == 0 || (m == 0 && policy != MostRecent)
  {
  }
}
