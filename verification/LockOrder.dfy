/**
 * Row locks of judge tasks, attempts and submissions, as the five transactions take them:
 * internal/submission/judge_repository.go, rejudge_repository.go, judge_task_repository.go.
 * A transaction keeps every lock until it ends, and taking a lock again is free.
 */
module LockOrder {
  import opened Wrappers
  import opened Sorting

  datatype Table = TaskRow | AttemptRow | SubmissionRow

  datatype Lock = Lock(table: Table, id: int)

  datatype Target = Target(task: int, submission: int)

  datatype BatchItem = BatchItem(id: int, task: int, submission: int)

  datatype Transaction =
    | CompleteResult(taskOf: Option<int>, attempt: int, submission: int)
    | CreateBatch(targets: seq<Target>)
    | CancelBatch(queued: seq<BatchItem>, canceled: seq<BatchItem>)
    | MarkDead(task: int, submission: int)
    | Recover(task: int, submission: int)

  function Class(t: Table): nat {
    match t case TaskRow => 0 case AttemptRow => 1 case SubmissionRow => 2
  }

  predicate Below(a: Lock, b: Lock) {
    Class(a.table) < Class(b.table) || (a.table == b.table && a.id < b.id)
  }

  // ----- the four orders given to sort.Slice -----

  predicate TargetByTask(a: Target, b: Target) {
    if a.task != b.task then a.task < b.task else a.submission <= b.submission
  }

  predicate TargetBySubmission(a: Target, b: Target) {
    if a.submission != b.submission then a.submission < b.submission else a.task <= b.task
  }

  predicate ItemByTask(a: BatchItem, b: BatchItem) {
    if a.task != b.task then a.task < b.task else a.id <= b.id
  }

  predicate ItemBySubmission(a: BatchItem, b: BatchItem) {
    if a.submission != b.submission then a.submission < b.submission else a.id <= b.id
  }

  // ----- the locks a transaction asks for, in order -----

  function TaskOfTarget(t: Target): Lock { Lock(TaskRow, t.task) }
  function SubmissionOfTarget(t: Target): Lock { Lock(SubmissionRow, t.submission) }
  function TaskOfItem(i: BatchItem): Lock { Lock(TaskRow, i.task) }
  function SubmissionOfItem(i: BatchItem): Lock { Lock(SubmissionRow, i.submission) }

  /** The explicit row locks. */
  function Acquired(t: Transaction): seq<Lock> {
    match t
    case CompleteResult(taskOf, attempt, submission) =>
      (match taskOf case None => [] case Some(task) => [Lock(TaskRow, task)])
      + [Lock(AttemptRow, attempt), Lock(SubmissionRow, submission)]
    case CreateBatch(targets) =>
      MapSeq(TaskOfTarget, Sort(TargetByTask, targets)) + MapSeq(SubmissionOfTarget, Sort(TargetBySubmission, targets))
    case CancelBatch(queued, _) =>
      MapSeq(TaskOfItem, Sort(ItemByTask, queued)) + MapSeq(SubmissionOfItem, Sort(ItemBySubmission, queued))
    case MarkDead(task, submission) => [Lock(TaskRow, task), Lock(SubmissionRow, submission)]
    case Recover(task, submission) => [Lock(TaskRow, task), Lock(SubmissionRow, submission)]
  }

  function TouchedByTargets(targets: seq<Target>): seq<Lock> {
    if targets == [] then []
    else [TaskOfTarget(targets[0]), SubmissionOfTarget(targets[0])] + TouchedByTargets(targets[1..])
  }

  function TouchedByItems(items: seq<BatchItem>): seq<Lock> {
    if items == [] then []
    else [TaskOfItem(items[0]), SubmissionOfItem(items[0])] + TouchedByItems(items[1..])
  }

  /** The rows updated afterwards, whose locks an update takes as well. */
  function Touched(t: Transaction): seq<Lock> {
    match t
    case CompleteResult(taskOf, attempt, submission) =>
      [Lock(SubmissionRow, submission), Lock(AttemptRow, attempt)] + (match taskOf case None => [] case Some(task) => [Lock(TaskRow, task)])
    case CreateBatch(targets) => TouchedByTargets(Sort(TargetBySubmission, targets))
    case CancelBatch(_, canceled) => TouchedByItems(canceled)
    case MarkDead(_, submission) => [Lock(SubmissionRow, submission)]
    case Recover(task, submission) => [Lock(TaskRow, task), Lock(SubmissionRow, submission)]
  }

  function Program(t: Transaction): seq<Lock> {
    Acquired(t) + Touched(t)
  }

  /** An item that is queued when the batch is cancelled was queued when its locks were chosen. */
  predicate Sound(t: Transaction) {
    t.CancelBatch? ==> forall i | i in t.canceled :: i in t.queued
  }

  // ----- programs follow one order -----

  /** Each lock is one already taken or above all taken before. */
  ghost predicate InOrder(p: seq<Lock>) {
    forall k | 0 <= k < |p| :: p[k] in p[..k] || forall j | 0 <= j < k :: Below(p[j], p[k])
  }

  ghost predicate Ascending(p: seq<Lock>) {
    forall j, k | 0 <= j < k < |p| :: p[j] == p[k] || Below(p[j], p[k])
  }

  lemma AscendingThenTouched(p: seq<Lock>, q: seq<Lock>)
    requires Ascending(p) && forall l | l in q :: l in p
    ensures InOrder(p + q)
  {
    var r := p + q;
    forall k | 0 <= k < |r| ensures r[k] in r[..k] || forall j | 0 <= j < k :: Below(r[j], r[k]) {
      if k < |p| {
        if j :| 0 <= j < k && r[j] == r[k] {
          assert r[..k][j] == r[k];
        }
      } else {
        assert r[k] == q[k - |p|] && r[k] in q;
        var j :| 0 <= j < |p| && p[j] == r[k];
        assert r[..k][j] == r[k];
      }
    }
  }

  lemma TaskOrders()
    ensures Preorder(TargetByTask) && Preorder(TargetBySubmission) && Preorder(ItemByTask) && Preorder(ItemBySubmission)
  {
  }

  lemma CreateAscends(targets: seq<Target>)
    ensures Ascending(Acquired(CreateBatch(targets)))
  {
    TaskOrders();
    SortOrdered(TargetByTask, targets);
    SortOrdered(TargetBySubmission, targets);
  }

  lemma CancelAscends(queued: seq<BatchItem>, canceled: seq<BatchItem>)
    ensures Ascending(Acquired(CancelBatch(queued, canceled)))
  {
    TaskOrders();
    SortOrdered(ItemByTask, queued);
    SortOrdered(ItemBySubmission, queued);
  }

  lemma {:induction false} TouchedTargets(targets: seq<Target>, l: Lock)
    requires l in TouchedByTargets(targets)
    ensures exists t :: t in targets && (l == TaskOfTarget(t) || l == SubmissionOfTarget(t))
  {
    if l == TaskOfTarget(targets[0]) || l == SubmissionOfTarget(targets[0]) {
      assert targets[0] in targets;
    } else {
      TouchedTargets(targets[1..], l);
    }
  }

  lemma {:induction false} TouchedItems(items: seq<BatchItem>, l: Lock)
    requires l in TouchedByItems(items)
    ensures exists i :: i in items && (l == TaskOfItem(i) || l == SubmissionOfItem(i))
  {
    if l == TaskOfItem(items[0]) || l == SubmissionOfItem(items[0]) {
      assert items[0] in items;
    } else {
      TouchedItems(items[1..], l);
    }
  }

  lemma InMapped<T(!new)>(f: T -> Lock, s: seq<T>, x: T)
    requires x in s
    ensures f(x) in MapSeq(f, s)
  {
    var k :| 0 <= k < |s| && s[k] == x;
    assert MapSeq(f, s)[k] == f(x);
  }

  lemma CreateTouches(targets: seq<Target>, l: Lock)
    requires l in Touched(CreateBatch(targets))
    ensures l in Acquired(CreateBatch(targets))
  {
    TouchedTargets(Sort(TargetBySubmission, targets), l);
    var t :| t in Sort(TargetBySubmission, targets) && (l == TaskOfTarget(t) || l == SubmissionOfTarget(t));
    SameMembers(Sort(TargetBySubmission, targets), Sort(TargetByTask, targets));
    InMapped(TaskOfTarget, Sort(TargetByTask, targets), t);
    InMapped(SubmissionOfTarget, Sort(TargetBySubmission, targets), t);
  }

  lemma CancelTouches(queued: seq<BatchItem>, canceled: seq<BatchItem>, l: Lock)
    requires l in TouchedByItems(canceled) && forall i | i in canceled :: i in queued
    ensures l in Acquired(CancelBatch(queued, canceled))
  {
    TouchedItems(canceled, l);
    var i :| i in canceled && (l == TaskOfItem(i) || l == SubmissionOfItem(i));
    SameMembers(queued, Sort(ItemByTask, queued));
    SameMembers(queued, Sort(ItemBySubmission, queued));
    InMapped(TaskOfItem, Sort(ItemByTask, queued), i);
    InMapped(SubmissionOfItem, Sort(ItemBySubmission, queued), i);
  }

  /** Every one of the transactions takes its locks in the one order. */
  lemma ProgramInOrder(t: Transaction)
    requires Sound(t)
    ensures InOrder(Program(t))
  {
    match t
    case CreateBatch(targets) =>
      CreateAscends(targets);
      forall l | l in Touched(t) ensures l in Acquired(t) {
        CreateTouches(targets, l);
      }
      AscendingThenTouched(Acquired(t), Touched(t));
    case CancelBatch(queued, canceled) =>
      CancelAscends(queued, canceled);
      forall l | l in Touched(t) ensures l in Acquired(t) {
        CancelTouches(queued, canceled, l);
      }
      AscendingThenTouched(Acquired(t), Touched(t));
    case _ =>
      AscendingThenTouched(Acquired(t), Touched(t));
  }

  /** Locks the rows one after the other. */
  method LockEach<T(!new)>(rows: array<T>, lockOf: T -> Lock) returns (asked: seq<Lock>)
    ensures asked == MapSeq(lockOf, rows[..])
  {
    asked := [];
    for i := 0 to rows.Length
      invariant |asked| == i && forall k | 0 <= k < i :: asked[k] == lockOf(rows[k])
    {
      asked := asked + [lockOf(rows[i])];
    }
  }

  /** The second sort gives the same order as sorting the input. */
  lemma TargetsResorted(targets: seq<Target>)
    ensures Sort(TargetBySubmission, Sort(TargetByTask, targets)) == Sort(TargetBySubmission, targets)
  {
    TaskOrders();
    SortForgetsOrder(TargetBySubmission, targets, Sort(TargetByTask, targets));
  }

  lemma ItemsResorted(items: seq<BatchItem>)
    requires forall i, j | 0 <= i < j < |items| :: items[i].id != items[j].id
    ensures Sort(ItemBySubmission, Sort(ItemByTask, items)) == Sort(ItemBySubmission, items)
  {
    TaskOrders();
    SortForgetsOrder(ItemBySubmission, items, Sort(ItemByTask, items));
  }

  /** The locking part of CreateRejudgeBatchWithItems, which sorts its targets twice in place. */
  method LockTargets(targets: array<Target>) returns (asked: seq<Lock>)
    modifies targets
    ensures asked == Acquired(CreateBatch(old(targets[..])))
    ensures targets[..] == Sort(TargetBySubmission, old(targets[..]))
  {
    TargetsResorted(targets[..]);
    SortInPlace(targets, TargetByTask);
    var tasks := LockEach(targets, TaskOfTarget);
    SortInPlace(targets, TargetBySubmission);
    var submissions := LockEach(targets, SubmissionOfTarget);
    asked := tasks + submissions;
  }

  /** The locking part of CancelRejudgeBatch. */
  method LockQueuedItems(items: array<BatchItem>) returns (asked: seq<Lock>)
    requires forall i, j | 0 <= i < j < items.Length :: items[i].id != items[j].id
    modifies items
    ensures forall canceled :: asked == Acquired(CancelBatch(old(items[..]), canceled))
    ensures items[..] == Sort(ItemBySubmission, old(items[..]))
  {
    ItemsResorted(items[..]);
    SortInPlace(items, ItemByTask);
    var tasks := LockEach(items, TaskOfItem);
    SortInPlace(items, ItemBySubmission);
    var submissions := LockEach(items, SubmissionOfItem);
    asked := tasks + submissions;
  }

  // ----- any number of them at once -----

  datatype Process = Process(transaction: Transaction, taken: nat, ended: bool)

  function Wants(p: Process): Option<Lock> {
    if !p.ended && p.taken < |Program(p.transaction)| then Some(Program(p.transaction)[p.taken]) else None
  }

  predicate Holds(p: Process, l: Lock) {
    !p.ended && p.taken <= |Program(p.transaction)| && l in Program(p.transaction)[..p.taken]
  }

  datatype Step = Begin(t: Transaction) | Take(i: nat) | End(i: nat)

  predicate HeldByOther(s: seq<Process>, i: nat, l: Lock) {
    exists j :: 0 <= j < |s| && j != i && Holds(s[j], l)
  }

  /** A transaction may end anywhere: at an early return, by an error, or at its commit. */
  predicate Enabled(s: seq<Process>, x: Step) {
    match x
    case Begin(t) => Sound(t)
    case Take(i) => i < |s| && Wants(s[i]).Some? && !HeldByOther(s, i, Wants(s[i]).value)
    case End(i) => i < |s| && !s[i].ended
  }

  function After(s: seq<Process>, x: Step): seq<Process>
    requires Enabled(s, x)
  {
    match x
    case Begin(t) => s + [Process(t, 0, false)]
    case Take(i) => s[i := s[i].(taken := s[i].taken + 1)]
    case End(i) => s[i := s[i].(ended := true)]
  }

  ghost predicate Inv(s: seq<Process>) {
    && (forall i | 0 <= i < |s| :: Sound(s[i].transaction) && s[i].taken <= |Program(s[i].transaction)|)
    && (forall i, j, l | 0 <= i < j < |s| && Holds(s[i], l) :: !Holds(s[j], l))
  }

  ghost predicate Run(trace: seq<seq<Process>>, steps: seq<Step>) {
    && |trace| == |steps| + 1
    && trace[0] == []
    && forall n | 0 <= n < |steps| :: Enabled(trace[n], steps[n]) && trace[n + 1] == After(trace[n], steps[n])
  }

  lemma TakeHolds(p: Process, l: Lock)
    requires Wants(p).Some?
    ensures Holds(p.(taken := p.taken + 1), l) <==> Holds(p, l) || l == Wants(p).value
  {
    var program := Program(p.transaction);
    assert program[..p.taken + 1] == program[..p.taken] + [program[p.taken]];
  }

  lemma StepKeeps(s: seq<Process>, x: Step)
    requires Inv(s) && Enabled(s, x)
    ensures Inv(After(s, x))
  {
    var t := After(s, x);
    match x
    case Begin(_) =>
    case End(_) =>
    case Take(k) =>
      forall i, j, l | 0 <= i < j < |t| && Holds(t[i], l) ensures !Holds(t[j], l) {
        TakeHolds(s[k], l);
      }
  }

  lemma {:induction false} RunKeeps(trace: seq<seq<Process>>, steps: seq<Step>, n: nat)
    requires Run(trace, steps) && n < |trace|
    ensures Inv(trace[n])
  {
    if n > 0 {
      RunKeeps(trace, steps, n - 1);
      StepKeeps(trace[n - 1], steps[n - 1]);
    }
  }

  // ----- nobody waits in a circle -----

  predicate WaitsFor(s: seq<Process>, i: nat, j: nat)
    requires i < |s| && j < |s|
  {
    i != j && Wants(s[i]).Some? && Holds(s[j], Wants(s[i]).value)
  }

  /** Someone who waits and is waited for wants a higher lock than its waiter does. */
  lemma WaitersClimb(s: seq<Process>, i: nat, j: nat)
    requires Inv(s) && i < |s| && j < |s| && WaitsFor(s, i, j)
    requires Wants(s[j]).Some? && HeldByOther(s, j, Wants(s[j]).value)
    ensures Below(Wants(s[i]).value, Wants(s[j]).value)
  {
    ProgramInOrder(s[j].transaction);
    var program, wanted := Program(s[j].transaction), Wants(s[j]).value;
    var k :| 0 <= k < |s| && k != j && Holds(s[k], wanted);
    assert !Holds(s[j], wanted);
    assert wanted !in program[..s[j].taken];
    var m :| 0 <= m < s[j].taken && program[..s[j].taken][m] == Wants(s[i]).value;
    assert program[m] == Wants(s[i]).value;
  }

  /** Each process on the path waits for the next. */
  ghost predicate WaitPath(s: seq<Process>, path: seq<nat>) {
    && (forall k | 0 <= k < |path| :: path[k] < |s|)
    && (|path| >= 2 ==> WaitsFor(s, path[0], path[1]) && WaitPath(s, path[1..]))
  }

  lemma {:induction false} PathClimbs(s: seq<Process>, path: seq<nat>)
    requires Inv(s) && |path| >= 2 && WaitPath(s, path) && Wants(s[path[|path| - 1]]).Some?
    requires HeldByOther(s, path[|path| - 1], Wants(s[path[|path| - 1]]).value)
    ensures Below(Wants(s[path[0]]).value, Wants(s[path[|path| - 1]]).value)
  {
    var rest := path[1..];
    assert rest[|rest| - 1] == path[|path| - 1];
    if |rest| >= 2 {
      assert WaitsFor(s, rest[0], rest[1]);
      PathClimbs(s, rest);
    }
    WaitersClimb(s, path[0], path[1]);
  }

  /** The wait-for graph has no cycle in any reachable state. */
  lemma NoDeadlock(trace: seq<seq<Process>>, steps: seq<Step>, n: nat, path: seq<nat>)
    requires Run(trace, steps) && n < |trace| && |path| >= 2 && WaitPath(trace[n], path)
    ensures path[0] != path[|path| - 1]
  {
    RunKeeps(trace, steps, n);
    if path[0] == path[|path| - 1] {
      assert WaitsFor(trace[n], path[0], path[1]);
      PathClimbs(trace[n], path);
      assert false;
    }
  }

  function Indices(n: nat): (r: set<nat>)
    ensures forall j: nat :: j in r <==> j < n
  {
    if n == 0 then {} else Indices(n - 1) + {n - 1}
  }

  /** It has every lock, or can take the next. */
  ghost predicate CanMove(s: seq<Process>, k: nat) {
    k < |s| && !s[k].ended && (Wants(s[k]).Some? ==> !HeldByOther(s, k, Wants(s[k]).value))
  }

  /** Only members of `above` can be stuck wanting more than `l`. */
  ghost predicate StuckIn(s: seq<Process>, l: Lock, above: set<nat>) {
    forall j | 0 <= j < |s| && !s[j].ended && !CanMove(s, j) && Below(l, Wants(s[j]).value) :: j in above
  }

  /** A stuck transaction waits for one that can move or is stuck wanting more. */
  lemma StuckOnHigher(s: seq<Process>, i: nat) returns (j: nat)
    requires Inv(s) && i < |s| && !s[i].ended && !CanMove(s, i)
    ensures j < |s| && !s[j].ended
    ensures !CanMove(s, j) ==> Wants(s[j]).Some? && Below(Wants(s[i]).value, Wants(s[j]).value)
  {
    j :| 0 <= j < |s| && j != i && Holds(s[j], Wants(s[i]).value);
    if !CanMove(s, j) {
      WaitersClimb(s, i, j);
    }
  }

  /** Following waits upwards ends at a transaction that can go on. */
  lemma {:induction false} SomeoneMoves(s: seq<Process>, i: nat, above: set<nat>) returns (k: nat)
    requires Inv(s) && i < |s| && !s[i].ended
    requires !CanMove(s, i) ==> StuckIn(s, Wants(s[i]).value, above)
    ensures CanMove(s, k)
    decreases |above|
  {
    k := i;
    if !CanMove(s, i) {
      k := StuckOnHigher(s, i);
      if !CanMove(s, k) {
        assert k in above;
        k := SomeoneMoves(s, k, above - {k});
      }
    }
  }

  /** While a transaction is unfinished, some transaction has a lock it can take or has them all. */
  lemma Progress(trace: seq<seq<Process>>, steps: seq<Step>, n: nat, i: nat) returns (k: nat)
    requires Run(trace, steps) && n < |trace| && i < |trace[n]| && !trace[n][i].ended
    ensures k < |trace[n]| && !trace[n][k].ended
    ensures Enabled(trace[n], Take(k)) || trace[n][k].taken == |Program(trace[n][k].transaction)|
  {
    RunKeeps(trace, steps, n);
    k := SomeoneMoves(trace[n], i, Indices(|trace[n]|));
  }
}
