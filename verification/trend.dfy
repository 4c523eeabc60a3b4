/**
 The seven-day submission trend on the client analytics page and the
 per-application dashboard: submissions created since `now - 7 days` are
 grouped by calendar day, and the last seven days (oldest first, ending today)
 are listed with the count of their group, or 0 for a day with no group.
 */
module Trend {
  import opened CallTime

  /** A calendar day, the `%Y-%m-%d` label of a bucket. */
  datatype Day = Day(year: int, month: int, day: int)

  function DayOf(t: DateTime): Day {
    Day(t.year, t.month, t.day)
  }

  predicate DayBefore(a: Day, b: Day) {
    || a.year < b.year
    || (a.year == b.year && a.month < b.month)
    || (a.year == b.year && a.month == b.month && a.day < b.day)
  }

  /** A day of the proleptic Gregorian calendar. */
  predicate ValidDay(d: Day) {
    1 <= d.month <= 12 && 1 <= d.day <= DaysInMonth(d.year, d.month)
  }

  /** The day before `d` (as `d - timedelta(days=1)`). */
  function PrevDay(d: Day): (r: Day)
    ensures DayBefore(r, d)
    ensures ValidDay(d) ==> ValidDay(r)
  {
    if d.day > 1 then Day(d.year, d.month, d.day - 1)
    else if d.month > 1 then Day(d.year, d.month - 1, DaysInMonth(d.year, d.month - 1))
    else Day(d.year - 1, 12, 31)
  }

  /** The day after `d` (as `d + timedelta(days=1)`), an independent reference for `PrevDay`. */
  function NextDay(d: Day): (r: Day)
    ensures DayBefore(d, r)
    ensures ValidDay(d) ==> ValidDay(r)
  {
    if d.day < DaysInMonth(d.year, d.month) then Day(d.year, d.month, d.day + 1)
    else if d.month < 12 then Day(d.year, d.month + 1, 1)
    else Day(d.year + 1, 1, 1)
  }

  /** Going back a day and then forward a day, or forward and then back, returns to the same valid day. */
  lemma PrevNextInverse(d: Day)
    requires ValidDay(d)
    ensures NextDay(PrevDay(d)) == d
    ensures PrevDay(NextDay(d)) == d
  {
  }

  /** No valid day lies strictly between `PrevDay(d)` and `d`. */
  lemma PrevDayImmediate(d: Day, e: Day)
    requires ValidDay(d) && ValidDay(e)
    ensures !(DayBefore(PrevDay(d), e) && DayBefore(e, d))
  {
  }

  /** `d - timedelta(days=n)`. */
  function DaysBack(d: Day, n: nat): Day {
    if n == 0 then d else PrevDay(DaysBack(d, n - 1))
  }

  lemma {:induction false} DaysBackOrder(d: Day, m: nat, n: nat)
    requires m < n
    ensures DayBefore(DaysBack(d, n), DaysBack(d, m))
    decreases n
  {
    if n - 1 > m {
      DaysBackOrder(d, m, n - 1);
    }
  }

  /** `now - timedelta(days=7)`: the same clock time seven days earlier. */
  function WindowStart(now: DateTime): DateTime {
    var d := DaysBack(DayOf(now), 7);
    now.(year := d.year, month := d.month, day := d.day)
  }

  /** One `$group` result: a day and the number of submissions created on it. */
  datatype Bucket = Bucket(day: Day, count: nat)

  /** How many of `days` equal `d`. */
  function Occurrences(days: seq<Day>, d: Day): nat {
    if |days| == 0 then 0
    else Occurrences(days[..|days| - 1], d) + (if days[|days| - 1] == d then 1 else 0)
  }

  /** Counts one more submission on day `d`. */
  function Bump(buckets: seq<Bucket>, d: Day): seq<Bucket> {
    if |buckets| == 0 then [Bucket(d, 1)]
    else if buckets[0].day == d then [buckets[0].(count := buckets[0].count + 1)] + buckets[1..]
    else [buckets[0]] + Bump(buckets[1..], d)
  }

  /** The `$group` stage: one bucket per distinct day. */
  function Group(days: seq<Day>): seq<Bucket> {
    if |days| == 0 then [] else Bump(Group(days[..|days| - 1]), days[|days| - 1])
  }

  /** `next((x["count"] for x in raw if x["_id"] == d), 0)`. */
  function CountFor(buckets: seq<Bucket>, d: Day): nat {
    if |buckets| == 0 then 0
    else if buckets[0].day == d then buckets[0].count
    else CountFor(buckets[1..], d)
  }

  lemma {:induction false} CountForBump(buckets: seq<Bucket>, d: Day, e: Day)
    ensures CountFor(Bump(buckets, d), e) == CountFor(buckets, e) + (if e == d then 1 else 0)
  {
    if |buckets| > 0 && buckets[0].day != d {
      CountForBump(buckets[1..], d, e);
    }
  }

  /** Grouping then looking up a day gives the number of submissions on that day. */
  lemma {:induction false} CountForGroup(days: seq<Day>, e: Day)
    ensures CountFor(Group(days), e) == Occurrences(days, e)
  {
    if |days| > 0 {
      CountForGroup(days[..|days| - 1], e);
      CountForBump(Group(days[..|days| - 1]), days[|days| - 1], e);
    }
  }

  /** The days of the creation times the `$match` stage keeps (`created_at >= start`). */
  function DaysFrom(created: seq<DateTime>, start: DateTime): seq<Day> {
    if |created| == 0 then []
    else
      var last := created[|created| - 1];
      DaysFrom(created[..|created| - 1], start) + (if AtOrBefore(start, last) then [DayOf(last)] else [])
  }

  /** The days of all creation times. */
  function AllDays(created: seq<DateTime>): seq<Day> {
    if |created| == 0 then [] else AllDays(created[..|created| - 1]) + [DayOf(created[|created| - 1])]
  }

  lemma OccurrencesAppend(days: seq<Day>, more: seq<Day>, d: Day)
    requires |more| <= 1
    ensures Occurrences(days + more, d) == Occurrences(days, d) + Occurrences(more, d)
  {
    if |more| == 1 {
      assert (days + more)[..|days + more| - 1] == days;
    } else {
      assert days + more == days;
    }
  }

  /** The window drops no submission made on a day after the window's first day. */
  lemma {:induction false} WindowKeepsLaterDays(created: seq<DateTime>, start: DateTime, d: Day)
    requires DayBefore(DayOf(start), d)
    ensures Occurrences(DaysFrom(created, start), d) == Occurrences(AllDays(created), d)
  {
    if |created| > 0 {
      var init := created[..|created| - 1];
      var last := created[|created| - 1];
      WindowKeepsLaterDays(init, start, d);
      var kept := if AtOrBefore(start, last) then [DayOf(last)] else [];
      OccurrencesAppend(DaysFrom(init, start), kept, d);
      OccurrencesAppend(AllDays(init), [DayOf(last)], d);
      if DayOf(last) == d {
        assert Before(start, last);
      }
    }
  }

  /** The seven day labels, oldest first: `today - 6`, ..., `today`. */
  function Labels(today: Day): (r: seq<Day>)
    ensures |r| == 7
    ensures r[6] == today
    ensures forall i :: 0 <= i < 6 ==> r[i] == PrevDay(r[i + 1])
  {
    seq(7, i requires 0 <= i < 7 => DaysBack(today, 6 - i))
  }

  /**
   The zero-filled trend over the creation times of the submissions in view
   (a client's, or one application's): for each of the last seven days, the
   number of those submissions created on that day.
   */
  function SevenDayTrend(created: seq<DateTime>, now: DateTime): (r: (seq<Day>, seq<nat>))
    ensures r.0 == Labels(DayOf(now))
    ensures |r.1| == 7
    ensures forall i :: 0 <= i < 7 ==> r.1[i] == Occurrences(AllDays(created), r.0[i])
  {
    var labels := Labels(DayOf(now));
    var start := WindowStart(now);
    var raw := Group(DaysFrom(created, start));
    var values := seq(7, i requires 0 <= i < 7 => CountFor(raw, labels[i]));
    assert forall i :: 0 <= i < 7 ==> values[i] == Occurrences(AllDays(created), labels[i]) by {
      forall i | 0 <= i < 7
        ensures values[i] == Occurrences(AllDays(created), labels[i])
      {
        CountForGroup(DaysFrom(created, start), labels[i]);
        DaysBackOrder(DayOf(now), 6 - i, 7);
        assert DayOf(start) == DaysBack(DayOf(now), 7);
        WindowKeepsLaterDays(created, start, labels[i]);
      }
    }
    (labels, values)
  }
}
