/**
 * The calendar arithmetic the views borrow from date-fns, on integer
 * instants. An instant is a count of milliseconds on the viewer's local
 * clock; its calendar day is the floor of the instant divided by the length
 * of a day (Dafny's `/` on a positive divisor is the floor).
 */
module Clock {

  type Instant = int

  const MsPerDay: nat := 86_400_000

  /** The local calendar day of an instant: `startOfDay`, `format(…, "yyyy-MM-dd")`. */
  function DayOf(t: Instant): int
  {
    t / MsPerDay
  }

  /** date-fns `isPast`: strictly before now. */
  predicate IsPast(t: Instant, now: Instant)
  {
    t < now
  }

  /** date-fns `isToday`: on the same local calendar day as now. */
  predicate IsToday(t: Instant, now: Instant)
  {
    DayOf(t) == DayOf(now)
  }

  /** date-fns `subDays`: the instant `k` whole days earlier. */
  function SubDays(now: Instant, k: int): Instant
  {
    now - k * MsPerDay
  }

  /** "In the past and not today" is exactly "on an earlier calendar day". */
  lemma PastNotTodayIsEarlierDay(t: Instant, now: Instant)
    ensures IsPast(t, now) && !IsToday(t, now) <==> DayOf(t) < DayOf(now)
  {
    var dt, dn := DayOf(t), DayOf(now);
    assert dt * MsPerDay <= t < dt * MsPerDay + MsPerDay;
    assert dn * MsPerDay <= now < dn * MsPerDay + MsPerDay;
    if dt < dn {
      assert dt + 1 <= dn;
      assert (dt + 1) * MsPerDay <= dn * MsPerDay;
    }
  }

  /** Going back `k` whole days lands on the calendar day `k` earlier. */
  lemma DayOfSubDays(now: Instant, k: int)
    ensures DayOf(SubDays(now, k)) == DayOf(now) - k
  {
    var d := DayOf(now);
    var m := now % MsPerDay;
    assert now == d * MsPerDay + m && 0 <= m < MsPerDay;
    assert SubDays(now, k) == (d - k) * MsPerDay + m;
  }
}
