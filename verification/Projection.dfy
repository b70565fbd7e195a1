/**
 * internal/submission/contest_projection_repository.go: the row that summarises one
 * user's submissions to one contest problem.
 */
module Projection {
  import opened Wrappers
  import opened Sorting
  import opened Submissions

  datatype ResultStatus = NoResult | AttemptedResult | AcceptedResult

  datatype ProblemResult = ProblemResult(
    status: ResultStatus,
    attempts: nat,
    acceptedAt: Option<Time>,
    penalty: int,
    lastSubmission: Option<int>,
    bestSubmission: Option<int>,
    bestAttempt: Option<int>,
    lastAttempt: Option<int>)

  const EMPTY_RESULT := ProblemResult(NoResult, 0, None, 0, None, None, None, None)

  /** The projection of submissions already in scoring order. */
  function OrderedProjection(start: Time, s: seq<Submission>): ProblemResult {
    var k := FirstAccepted(s);
    if k < |s| then
      var best := s[k];
      ProblemResult(AcceptedResult, k + 1, Some(best.submittedAt),
                    WholeMinutes(best.submittedAt - start) + k * 20,
                    Some(best.id), Some(best.id), best.attempt, best.attempt)
    else if s == [] then EMPTY_RESULT
    else
      var last := s[|s| - 1];
      ProblemResult(AttemptedResult, |s|, None, 0, Some(last.id), None, None, last.attempt)
  }

  function ProjectionOf(start: Time, s: seq<Submission>): ProblemResult {
    OrderedProjection(start, Sort(SubmittedBefore, s))
  }

  method BuildContestProblemProjection(contestStart: Time, submissions: seq<Submission>) returns (projection: ProblemResult)
    ensures projection == ProjectionOf(contestStart, submissions)
  {
    var ordered := Sort(SubmittedBefore, submissions);
    projection := EMPTY_RESULT;
    for i := 0 to |ordered|
      invariant forall j | 0 <= j < i :: !ordered[j].status.Accepted?
      invariant projection == if i == 0 then EMPTY_RESULT else
        ProblemResult(AttemptedResult, i, None, 0, Some(ordered[i - 1].id), None, None, ordered[i - 1].attempt)
    {
      var submission := ordered[i];
      projection := projection.(
        status := AttemptedResult,
        attempts := projection.attempts + 1,
        lastSubmission := Some(submission.id),
        lastAttempt := submission.attempt);
      if submission.status.Accepted? {
        projection := projection.(
          status := AcceptedResult,
          acceptedAt := Some(submission.submittedAt),
          penalty := WholeMinutes(submission.submittedAt - contestStart) + (projection.attempts - 1) * 20,
          bestSubmission := Some(submission.id),
          bestAttempt := submission.attempt);
        assert FirstAccepted(ordered) == i;
        break;
      }
    }
  }

  /** Rows come back in whatever order; the projection does not depend on it. */
  lemma ProjectionForgetsOrder(start: Time, a: seq<Submission>, b: seq<Submission>)
    requires DistinctIds(a) && multiset(a) == multiset(b)
    ensures ProjectionOf(start, a) == ProjectionOf(start, b)
  {
    SubmittedBeforeIsLinear(a);
    SortForgetsOrder(SubmittedBefore, a, b);
  }

  /** Submissions scored no later than `x`. */
  function UpTo(x: Submission): Submission -> bool {
    (s: Submission) => SubmittedBefore(s, x)
  }

  lemma {:induction false} UpToPrefix(s: seq<Submission>, k: nat)
    requires k < |s| && Ordered(SubmittedBefore, s) && NoTies(SubmittedBefore, s) && DistinctIds(s)
    ensures |Filter(UpTo(s[k]), s)| == k + 1
    decreases k
  {
    var keep := UpTo(s[k]);
    assert s == s[..k + 1] + s[k + 1..];
    FilterConcat(keep, s[..k + 1], s[k + 1..]);
    FilterAll(keep, s[..k + 1]);
    forall x | x in s[k + 1..] ensures !keep(x) {
      var j :| 0 <= j < |s[k + 1..]| && s[k + 1..][j] == x;
      assert s[k + 1 + j] == x && SubmittedBefore(s[k], x);
      assert s[k].id != s[k + 1 + j].id;
    }
    FilterNothing(keep, s[k + 1..]);
  }

  lemma SortKeepsIds(s: seq<Submission>)
    requires DistinctIds(s)
    ensures DistinctIds(Sort(SubmittedBefore, s))
  {
    PermutedKeyed((x: Submission) => x.id, s, Sort(SubmittedBefore, s));
  }

  ghost predicate EarliestAccepted(best: Submission, s: seq<Submission>) {
    && best in s && best.status.Accepted?
    && forall x | x in s && x.status.Accepted? :: SubmittedBefore(best, x)
  }

  /** The scoring order, as facts about the sorted sequence. */
  lemma ScoringOrder(s: seq<Submission>)
    requires DistinctIds(s)
    ensures var t := Sort(SubmittedBefore, s);
      && Ordered(SubmittedBefore, t) && NoTies(SubmittedBefore, t) && DistinctIds(t)
      && (forall x :: x in s <==> x in t)
  {
    SubmittedBeforeIsLinear(s);
    SortOrdered(SubmittedBefore, s);
    SameMembers(s, Sort(SubmittedBefore, s));
    NoTiesSubset(SubmittedBefore, s, Sort(SubmittedBefore, s));
    SortKeepsIds(s);
  }

  lemma SortedFirstAccepted(s: seq<Submission>)
    requires DistinctIds(s)
    ensures var t := Sort(SubmittedBefore, s); var k := FirstAccepted(t);
      && (k < |t| <==> exists x :: x in s && x.status.Accepted?)
      && (k < |t| ==> EarliestAccepted(t[k], s) && |Filter(UpTo(t[k]), s)| == k + 1)
  {
    var t := Sort(SubmittedBefore, s);
    var k := FirstAccepted(t);
    ScoringOrder(s);
    if k < |t| {
      assert |Filter(UpTo(t[k]), s)| == k + 1 by {
        UpToPrefix(t, k);
        FilterPermuted(UpTo(t[k]), s, t);
        assert |Filter(UpTo(t[k]), s)| == |multiset(Filter(UpTo(t[k]), s))| == |multiset(Filter(UpTo(t[k]), t))|;
      }
      assert t[k] in s;
      forall x | x in s && x.status.Accepted? ensures SubmittedBefore(t[k], x) {
        var j :| 0 <= j < |t| && t[j] == x;
        assert k <= j;
      }
    } else {
      forall x | x in s ensures !x.status.Accepted? {
        assert x in t;
      }
    }
  }

  /** The last of the submissions in scoring order. */
  ghost predicate LastSubmitted(last: Submission, s: seq<Submission>) {
    last in s && forall x | x in s :: SubmittedBefore(x, last)
  }

  lemma SortedLast(s: seq<Submission>)
    requires DistinctIds(s) && s != []
    ensures var t := Sort(SubmittedBefore, s); |t| == |s| && LastSubmitted(t[|t| - 1], s)
  {
    var t := Sort(SubmittedBefore, s);
    ScoringOrder(s);
    assert t[|t| - 1] in t;
    forall x | x in s ensures SubmittedBefore(x, t[|t| - 1]) {
      var j :| 0 <= j < |t| && t[j] == x;
      assert j < |t| - 1 ==> SubmittedBefore(t[j], t[|t| - 1]);
    }
  }

  lemma AcceptedIff(start: Time, s: seq<Submission>)
    ensures ProjectionOf(start, s).status.AcceptedResult? <==> exists x :: x in s && x.status == Accepted
    ensures ProjectionOf(start, s).status.NoResult? <==> s == []
  {
    var t := Sort(SubmittedBefore, s);
    SameMembers(s, t);
    var k := FirstAccepted(t);
    if k < |t| {
      assert t[k] in t;
    } else {
      forall x | x in s ensures x.status != Accepted {
        assert x in t;
      }
    }
  }

  /** Those made before `best`, by time and then by id. */
  function Earlier(some: set<Submission>, best: Submission): (r: set<Submission>)
    ensures forall x :: x in r <==>
              x in some && (x.submittedAt < best.submittedAt || (x.submittedAt == best.submittedAt && x.id < best.id))
  {
    set x | x in some && (x.submittedAt < best.submittedAt || (x.submittedAt == best.submittedAt && x.id < best.id))
  }

  lemma NoLater(s: seq<Submission>, some: set<Submission>, best: Submission, x: Submission)
    requires DistinctIds(s) && (forall y :: y in some <==> y in s) && best in s && x in s
    ensures SubmittedBefore(x, best) <==> x in Earlier(some, best) || x == best
    ensures best !in Earlier(some, best)
  {
  }

  lemma EarlierCount(s: seq<Submission>, some: set<Submission>, best: Submission)
    requires DistinctIds(s) && (forall y :: y in some <==> y in s) && best in s
    ensures |Filter(UpTo(best), s)| == |Earlier(some, best)| + 1
  {
    NoLater(s, some, best, best);
    forall x ensures x in Earlier(some, best) + {best} <==> x in s && UpTo(best)(x) {
      if x in s {
        NoLater(s, some, best, x);
      }
    }
    FilterCounts((x: Submission) => x.id, UpTo(best), s, Earlier(some, best) + {best});
  }

  /** Twenty minutes for each earlier attempt, and the minutes since the start, cut off toward zero. */
  ghost predicate PenaltyIs(penalty: int, d: int, wrong: int) {
    var m := penalty - 20 * wrong;
    && (d >= 0 ==> m * 60_000_000_000 <= d < (m + 1) * 60_000_000_000)
    && (d <= 0 ==> (m - 1) * 60_000_000_000 < d <= m * 60_000_000_000)
  }

  /** The first acceptance, by time and then by id. */
  ghost predicate IsFirst(best: Submission, some: set<Submission>) {
    && best in some && best.status == Accepted
    && forall x | x in some && x.status == Accepted ::
         best.submittedAt < x.submittedAt || (best.submittedAt == x.submittedAt && best.id <= x.id)
  }

  lemma AcceptedInNumbers(start: Time, s: seq<Submission>, all: set<Submission>) returns (best: Submission)
    requires DistinctIds(s) && (forall y :: y in all <==> y in s) && ProjectionOf(start, s).status.AcceptedResult?
    ensures IsFirst(best, all)
    ensures var p := ProjectionOf(start, s);
      && p == ProblemResult(AcceptedResult, |Earlier(all, best)| + 1, Some(best.submittedAt), p.penalty,
                            Some(best.id), Some(best.id), best.attempt, best.attempt)
      && PenaltyIs(p.penalty, best.submittedAt - start, |Earlier(all, best)|)
  {
    SortedFirstAccepted(s);
    var t := Sort(SubmittedBefore, s);
    best := t[FirstAccepted(t)];
    EarlierCount(s, all, best);
  }

  /** The last submission, by time and then by id. */
  ghost predicate IsLast(last: Submission, all: set<Submission>) {
    && last in all
    && forall x | x in all :: x.submittedAt < last.submittedAt || (x.submittedAt == last.submittedAt && x.id <= last.id)
  }

  lemma AttemptedInNumbers(start: Time, s: seq<Submission>) returns (last: Submission)
    requires DistinctIds(s) && ProjectionOf(start, s).status.AttemptedResult?
    ensures last in s && forall x | x in s :: SubmittedBefore(x, last)
    ensures ProjectionOf(start, s) == ProblemResult(AttemptedResult, |s|, None, 0, Some(last.id), None, None, last.attempt)
  {
    AcceptedIff(start, s);
    SortedLast(s);
    var t := Sort(SubmittedBefore, s);
    last := t[|t| - 1];
  }

  /**
   * What the projection says, on times, ids and nanoseconds: it is accepted exactly when some
   * submission is; then the best one is the first accepted and also the last one counted, the
   * attempts are the submissions made up to it, and every earlier attempt costs twenty minutes
   * on top of the whole minutes since the start. Otherwise all are counted and the last one is named.
   */
  lemma ProjectionMeaning(start: Time, s: seq<Submission>, all: set<Submission>)
    requires DistinctIds(s) && forall y :: y in all <==> y in s
    ensures var p := ProjectionOf(start, s);
      && (p.status.AcceptedResult? <==> exists x :: x in s && x.status == Accepted)
      && (s == [] <==> p == EMPTY_RESULT) && (s == [] <==> p.status.NoResult?)
      && (p.status.AttemptedResult? ==> exists last ::
            && IsLast(last, all)
            && p == ProblemResult(AttemptedResult, |s|, None, 0, Some(last.id), None, None, last.attempt))
      && (p.status.AcceptedResult? ==> exists best ::
            && IsFirst(best, all)
            && p == ProblemResult(AcceptedResult, |Earlier(all, best)| + 1, Some(best.submittedAt), p.penalty,
                                  Some(best.id), Some(best.id), best.attempt, best.attempt)
            && PenaltyIs(p.penalty, best.submittedAt - start, |Earlier(all, best)|))
  {
    AcceptedIff(start, s);
    if ProjectionOf(start, s).status.AcceptedResult? {
      var best := AcceptedInNumbers(start, s, all);
    } else if ProjectionOf(start, s).status.AttemptedResult? {
      var last := AttemptedInNumbers(start, s);
      assert IsLast(last, all);
    }
  }
}
