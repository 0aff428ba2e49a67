/**
 * The dashboard's two charts: the status distribution (pie) and the number
 * of tasks created on each of the last seven days (bars).
 */
module DashboardCharts {
  import opened Clock
  import opened Counting
  import opened UseTasks
  import opened Dashboard

  /** One slice of the status pie. */
  datatype Slice = Slice(name: string, value: nat, color: string)

  const PendingColor := "hsl(38, 92%, 50%)"
  const InProgressColor := "hsl(217, 91%, 60%)"
  const CompletedColor := "hsl(142, 71%, 45%)"

  /**
   * The three slices before empty ones are dropped: one per status, in the
   * fixed order, each counting the tasks with its status, so that together
   * they add up to the number of tasks.
   */
  function AllSlices(tasks: seq<Task>): (all: seq<Slice>)
    ensures |all| == 3 && InStatusOrder(all)
    ensures all[0].name == "Pending" && all[0].value == Count(tasks, StatusIs(Pending))
    ensures all[1].name == "In Progress" && all[1].value == Count(tasks, StatusIs(InProgress))
    ensures all[2].name == "Completed" && all[2].value == Count(tasks, StatusIs(Completed))
    ensures SumValues(all) == |tasks|
  {
    var all := [ Slice("Pending", Count(tasks, StatusIs(Pending)), PendingColor),
      Slice("In Progress", Count(tasks, StatusIs(InProgress)), InProgressColor),
      Slice("Completed", Count(tasks, StatusIs(Completed)), CompletedColor) ];
    assert SumValues(all[2..]) == all[2].value + SumValues([]);
    assert SumValues(all[1..]) == all[1].value + SumValues(all[2..]);
    StatusPartition(tasks);
    all
  }

  /** Whether the slices are in the pie's fixed status order. */
  predicate InStatusOrder(slices: seq<Slice>)
  {
    forall i, j :: 0 <= i < j < |slices| ==> Rank(slices[i].name) < Rank(slices[j].name)
  }

  /** `.filter(d => d.value > 0)`. */
  function KeepPositive(slices: seq<Slice>): (kept: seq<Slice>)
    ensures |kept| <= |slices|
    ensures forall s :: s in kept <==> s in slices && s.value > 0
    ensures InStatusOrder(slices) ==> InStatusOrder(kept)
  {
    if slices == [] then []
    else
      var rest := KeepPositive(slices[1..]);
      assert InStatusOrder(slices) ==> InStatusOrder(slices[1..]);
      assert InStatusOrder(slices) ==> forall x :: x in slices[1..] ==> Rank(slices[0].name) < Rank(x.name);
      if slices[0].value > 0 then [slices[0]] + rest else rest
  }

  function SumValues(slices: seq<Slice>): nat
  {
    if slices == [] then 0 else slices[0].value + SumValues(slices[1..])
  }

  lemma {:induction false} KeepPositiveSum(slices: seq<Slice>)
    ensures SumValues(KeepPositive(slices)) == SumValues(slices)
  {
    if slices != [] {
      KeepPositiveSum(slices[1..]);
    }
  }

  /** The position of a status name in the pie's fixed order. */
  function Rank(name: string): nat
  {
    if name == "Pending" then 0 else if name == "In Progress" then 1 else 2
  }

  /**
   * The status pie's data: at most one slice per status, in the order
   * Pending, In Progress, Completed, a slice exactly for each status some
   * task has, and the slices add up to the number of tasks.
   */
  function StatusData(tasks: seq<Task>): (d: seq<Slice>)
    ensures |d| <= 3
    ensures forall i :: 0 <= i < |d| ==> d[i].value > 0
    ensures forall s :: s in AllSlices(tasks) ==> (s in d <==> s.value > 0)
    ensures forall s :: s in d ==> s in AllSlices(tasks)
    ensures InStatusOrder(d)
    ensures SumValues(d) == |tasks|
    ensures d == [] <==> tasks == []
  {
    var all := AllSlices(tasks);
    KeepPositiveSum(all);
    var d := KeepPositive(all);
    assert forall i :: 0 <= i < |d| ==> d[i] in d;
    assert d != [] ==> SumValues(d) >= d[0].value > 0;
    assert d == [] ==> SumValues(d) == 0;
    assert SumValues(d) == |tasks|;
    d
  }

  /** The pie shows "No tasks yet" instead of a chart. */
  predicate ShowsNoTasksYet(tasks: seq<Task>)
  {
    |StatusData(tasks)| == 0
  }

  lemma NoTasksYetExactlyWhenEmpty(tasks: seq<Task>)
    ensures ShowsNoTasksYet(tasks) <==> tasks == []
  {
  }

  // ---------------------------------------------------------------------
  // Tasks created per day over the last seven days
  // ---------------------------------------------------------------------

  /** One bar: its calendar day and the number of tasks created that day. */
  datatype DayBucket = DayBucket(day: int, tasks: nat)

  function CreatedOn(day: int): Task -> bool
  {
    (t: Task) => DayOf(t.createdAt) == day
  }

  function CreatedIn(days: seq<int>): Task -> bool
  {
    (t: Task) => DayOf(t.createdAt) in days
  }

  /**
   * `last7Days`: bucket `i` is the day `6 - i` days before today, so the
   * buckets run oldest first and end at today; each counts the tasks
   * created on its day.
   */
  function Last7Days(tasks: seq<Task>, now: Instant): (b: seq<DayBucket>)
    ensures |b| == 7
    ensures forall i :: 0 <= i < 7 ==> b[i].day == DayOf(now) - (6 - i)
    ensures forall i :: 0 <= i < 7 ==> b[i].tasks == Count(tasks, CreatedOn(b[i].day))
  {
    var b := seq(7, i requires 0 <= i < 7 =>
      var day := DayOf(SubDays(now, 6 - i));
      DayBucket(day, Count(tasks, CreatedOn(day))));
    assert forall i :: 0 <= i < 7 ==> b[i].day == DayOf(now) - (6 - i) by {
      forall i | 0 <= i < 7 ensures b[i].day == DayOf(now) - (6 - i) {
        DayOfSubDays(now, 6 - i);
      }
    }
    b
  }

  /** The seven calendar days the chart covers, oldest first. */
  function Week(today: int): (days: seq<int>)
    ensures |days| == 7
  {
    seq(7, i requires 0 <= i < 7 => today - (6 - i))
  }

  function BucketCounts(b: seq<DayBucket>): seq<nat>
  {
    seq(|b|, i requires 0 <= i < |b| => b[i].tasks)
  }

  function CountsOn(tasks: seq<Task>, days: seq<int>): seq<nat>
  {
    seq(|days|, i requires 0 <= i < |days| => Count(tasks, CreatedOn(days[i])))
  }

  predicate DistinctDays(days: seq<int>)
  {
    forall i, j :: 0 <= i < j < |days| ==> days[i] != days[j]
  }

  /** Summing the per-day counts over distinct days counts the tasks created on any of them. */
  lemma {:induction false} CountsOnSum(tasks: seq<Task>, days: seq<int>)
    requires DistinctDays(days)
    ensures Sum(CountsOn(tasks, days)) == Count(tasks, CreatedIn(days))
  {
    if days == [] {
      CountMonotonic(tasks, CreatedIn(days), (t: Task) => false);
      assert Count(tasks, (t: Task) => false) == 0;
    } else {
      var rest := days[1..];
      assert CountsOn(tasks, days)[1..] == CountsOn(tasks, rest);
      CountsOnSum(tasks, rest);
      assert days == [days[0]] + rest;
      assert days[0] !in rest;
      CountDisjoint(tasks, CreatedOn(days[0]), CreatedIn(rest), CreatedIn(days));
    }
  }

  lemma BucketsAreWeekCounts(tasks: seq<Task>, now: Instant)
    ensures BucketCounts(Last7Days(tasks, now)) == CountsOn(tasks, Week(DayOf(now)))
  {
    var b, c := BucketCounts(Last7Days(tasks, now)), CountsOn(tasks, Week(DayOf(now)));
    assert |b| == |c| == 7;
    forall i | 0 <= i < 7 ensures b[i] == c[i] {
      assert Week(DayOf(now))[i] == Last7Days(tasks, now)[i].day;
    }
  }

  /**
   * A task lands in at most one bucket: the bars add up to the number of
   * tasks created within the week, which is at most the number of tasks.
   */
  lemma HistogramSum(tasks: seq<Task>, now: Instant)
    ensures Sum(BucketCounts(Last7Days(tasks, now))) == Count(tasks, CreatedIn(Week(DayOf(now))))
    ensures Sum(BucketCounts(Last7Days(tasks, now))) <= |tasks|
  {
    var week := Week(DayOf(now));
    BucketsAreWeekCounts(tasks, now);
    assert DistinctDays(week);
    CountsOnSum(tasks, week);
  }

  /** A task created more than six days ago, or after today, changes no bar. */
  lemma OutsideWeekInNoBucket(tasks: seq<Task>, t: Task, now: Instant)
    requires DayOf(t.createdAt) < DayOf(now) - 6 || DayOf(t.createdAt) > DayOf(now)
    ensures Last7Days(tasks + [t], now) == Last7Days(tasks, now)
  {
    var before, after := Last7Days(tasks, now), Last7Days(tasks + [t], now);
    forall i | 0 <= i < 7 ensures after[i] == before[i] {
      CountAppend(tasks, [t], CreatedOn(before[i].day));
      assert Count([t], CreatedOn(before[i].day)) == 0;
    }
  }
}
