/**
 * The dashboard's stat cards: how many tasks there are, per status, and how
 * many are overdue. Every count is a `filter(…).length` over the listing.
 */
module Dashboard {
  import opened Clock
  import opened Counting
  import opened UseTasks

  /**
   * The stat cards' rule: a due date in the past, not today, and not
   * completed. With calendar days this is exactly a due date on an earlier
   * day than today: a task without a due date, a completed task, and a task
   * due today or later never is overdue.
   */
  function IsOverdue(t: Task, now: Instant): (overdue: bool)
    ensures overdue <==> t.dueDate.Some? && DayOf(t.dueDate.value) < DayOf(now) && t.status != Completed
  {
    if t.dueDate.Some? then
      PastNotTodayIsEarlierDay(t.dueDate.value, now);
      IsPast(t.dueDate.value, now) && !IsToday(t.dueDate.value, now) && t.status != Completed
    else false
  }

  function StatusIs(s: TaskStatus): Task -> bool
  {
    (t: Task) => HasStatus(t, s)
  }

  function OverdueAt(now: Instant): Task -> bool
  {
    (t: Task) => IsOverdue(t, now)
  }

  datatype Stats = Stats(total: nat, pending: nat, inProgress: nat, completed: nat, overdue: nat)

  /** The five numbers of the stat cards. */
  function ComputeStats(tasks: seq<Task>, now: Instant): (s: Stats)
    ensures s.total == |tasks|
    ensures s.pending == Count(tasks, StatusIs(Pending))
    ensures s.inProgress == Count(tasks, StatusIs(InProgress))
    ensures s.completed == Count(tasks, StatusIs(Completed))
    ensures s.overdue == Count(tasks, OverdueAt(now))
    ensures s.pending + s.inProgress + s.completed == s.total
    ensures s.overdue <= s.total - s.completed
  {
    StatusPartition(tasks);
    OverdueNotCompleted(tasks, now);
    Stats(
      |tasks|,
      Count(tasks, StatusIs(Pending)),
      Count(tasks, StatusIs(InProgress)),
      Count(tasks, StatusIs(Completed)),
      Count(tasks, OverdueAt(now)))
  }

  /** Every task has exactly one of the three statuses. */
  lemma {:induction false} StatusPartition(tasks: seq<Task>)
    ensures Count(tasks, StatusIs(Pending)) + Count(tasks, StatusIs(InProgress))
          + Count(tasks, StatusIs(Completed)) == |tasks|
  {
    if tasks != [] {
      StatusPartition(tasks[1..]);
    }
  }

  /** Overdue and completed tasks are disjoint, so together they are at most all tasks. */
  lemma OverdueNotCompleted(tasks: seq<Task>, now: Instant)
    ensures Count(tasks, OverdueAt(now)) + Count(tasks, StatusIs(Completed)) <= |tasks|
  {
    var either := (t: Task) => IsOverdue(t, now) || HasStatus(t, Completed);
    CountDisjoint(tasks, OverdueAt(now), StatusIs(Completed), either);
  }

  /** The numbers do not depend on the order of the tasks. */
  lemma StatsIgnoreOrder(a: seq<Task>, b: seq<Task>, now: Instant)
    requires multiset(a) == multiset(b)
    ensures ComputeStats(a, now) == ComputeStats(b, now)
  {
    assert |a| == |multiset(a)| == |b|;
    CountPermutation(a, b, StatusIs(Pending));
    CountPermutation(a, b, StatusIs(InProgress));
    CountPermutation(a, b, StatusIs(Completed));
    CountPermutation(a, b, OverdueAt(now));
  }
}
