/** The submission row and the order the contest code scores it in. */
module Submissions {
  import opened Wrappers
  import opened Sorting

  /** Nanoseconds since an arbitrary origin, as Go's `time.Time`. */
  type Time = int

  datatype Status =
    | Queued | Running
    | Accepted | WrongAnswer | CompileError | RuntimeError | TimeLimit | MemoryLimit | OutputLimit
    | SystemError | Canceled

  predicate Terminal(status: Status) {
    !status.Queued? && !status.Running?
  }

  /** A submission's judge task. */
  datatype TaskStatus = Pending | Dispatching | Dispatched | TaskRunning | Done | Dead

  predicate InFlight(t: TaskStatus) {
    t.Dispatching? || t.Dispatched? || t.TaskRunning?
  }

  datatype Submission = Submission(
    id: int,
    user: int,
    problem: int,
    status: Status,
    submittedAt: Time,
    judgedAt: Time,
    firstJudgedAt: Option<Time>,
    attempt: Option<int>)

  /** Submission time, then id: the comparison both scoring algorithms sort with. */
  predicate SubmittedBefore(a: Submission, b: Submission) {
    if a.submittedAt == b.submittedAt then a.id <= b.id else a.submittedAt < b.submittedAt
  }

  ghost predicate DistinctIds(s: seq<Submission>) {
    forall i, j | 0 <= i < j < |s| :: s[i].id != s[j].id
  }

  lemma SubmittedBeforeIsLinear(s: seq<Submission>)
    requires DistinctIds(s)
    ensures Preorder(SubmittedBefore) && NoTies(SubmittedBefore, s)
  {
  }

  /** The submissions of one scoreboard cell. */
  function Matching(user: int, problem: int): Submission -> bool {
    (s: Submission) => s.user == user && s.problem == problem
  }

  const NANOS_PER_MINUTE := 60_000_000_000

  /** `int32(d.Minutes())`: the conversion truncates toward zero. */
  function WholeMinutes(d: int): (m: int)
    ensures d >= 0 ==> m * 60_000_000_000 <= d < (m + 1) * 60_000_000_000
    ensures d <= 0 ==> (m - 1) * 60_000_000_000 < d <= m * 60_000_000_000
  {
    if d >= 0 then d / NANOS_PER_MINUTE else -((-d) / NANOS_PER_MINUTE)
  }

  /** The index of the first accepted submission, or the length when there is none. */
  function FirstAccepted(s: seq<Submission>): (k: nat)
    ensures k <= |s|
    ensures k < |s| ==> s[k].status.Accepted?
    ensures forall i | 0 <= i < k :: !s[i].status.Accepted?
  {
    if s == [] || s[0].status.Accepted? then 0 else 1 + FirstAccepted(s[1..])
  }
}
