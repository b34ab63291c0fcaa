/** Frames per day: a cursor moves over the events, back a little and forward again for every day. */
module DayCounts {
  import opened Options
  import opened RunningSums

  datatype Day = Day(end: int, n: nat)

  /** The whole second of an event. */
  function Unix(e: Event): int {
    e.time / 1000
  }

  /** How many of the first `k` events are renderings that came back in [a, b). */
  function Returns(events: seq<Event>, a: int, b: int, k: nat): nat
    requires k <= |events|
  {
    if k == 0 then 0
    else
      var e := events[k - 1];
      Returns(events, a, b, k - 1) + if e.lease < 0 && a <= Unix(e) < b then 1 else 0
  }

  /** How many days end before `to`, beginning with one that ends at `first`. */
  function Days(first: int, to: int): nat {
    if first >= to then 0 else (to - first - 1) / 86400 + 1
  }

  function DayEnd(first: int, k: int): int {
    first + 86400 * k
  }

  lemma DaysEndBefore(first: int, to: int, k: nat)
    ensures k < Days(first, to) <==> DayEnd(first, k) < to
  {
  }

  /** The loop reads an event that is not there: there is none, or all of them are before the last day. */
  ghost predicate RunsOut(events: seq<Event>, first: int, to: int) {
    var n := Days(first, to);
    n > 0 && (events == [] || (n > 1 && Unix(events[|events| - 1]) < DayEnd(first, n - 2)))
  }

  /** Before the first day the cursor can only leave out one event. */
  function Skipped(events: seq<Event>, t: int): nat {
    if |events| > 1 && Unix(events[0]) < t then 1 else 0
  }

  /** How many of the events from `cur` up to `k` are renderings that came back before `t`. */
  function Early(events: seq<Event>, cur: nat, t: int, k: nat): nat
    requires k <= |events|
  {
    if k <= cur then 0 else Early(events, cur, t, k - 1) + if events[k - 1].lease < 0 && Unix(events[k - 1]) < t then 1 else 0
  }

  lemma {:induction false} NoneEarly(events: seq<Event>, cur: nat, t: int, k: nat)
    requires k <= |events|
    ensures Early(events, cur, t, k) == 0 <==> forall i :: cur <= i < k && events[i].lease < 0 ==> Unix(events[i]) >= t
  {
    if k > cur {
      NoneEarly(events, cur, t, k - 1);
    }
  }

  lemma {:induction false} ReturnsNone(events: seq<Event>, a: int, b: int, k: nat)
    requires k <= |events| && forall i :: 0 <= i < k ==> Unix(events[i]) < a
    ensures Returns(events, a, b, k) == 0
  {
    if k > 0 {
      ReturnsNone(events, a, b, k - 1);
    }
  }

  lemma {:induction false} ReturnsNoMore(events: seq<Event>, a: int, b: int, k: nat, l: nat)
    requires k <= l <= |events| && forall i :: k <= i < l ==> Unix(events[i]) >= b
    ensures Returns(events, a, b, l) == Returns(events, a, b, k)
  {
    if k < l {
      ReturnsNoMore(events, a, b, k, l - 1);
    }
  }

  lemma UnixIsSorted(events: seq<Event>)
    requires SortedEvents(events)
    ensures forall i, j :: 0 <= i <= j < |events| ==> Unix(events[i]) <= Unix(events[j])
  {
  }

  /** `cur` is where the events before second `t` end. */
  ghost predicate Splits(events: seq<Event>, t: int, cur: nat) {
    && cur <= |events|
    && (forall i :: 0 <= i < cur ==> Unix(events[i]) < t)
    && (forall i :: cur <= i < |events| ==> Unix(events[i]) >= t)
  }

  /** Back to before the day and then one forward again. Between days the cursor ends where it was. */
  method StepBack(events: seq<Event>, cur: nat, rfrom: int) returns (cur': nat)
    requires SortedEvents(events) && cur < |events| && (cur == 0 || Splits(events, rfrom, cur))
    ensures Splits(events, rfrom, cur) ==> cur' == cur
    ensures cur == 0 ==> cur' == Skipped(events, rfrom)
  {
    cur' := cur;
    UnixIsSorted(events);
    while cur' > 0 && Unix(events[cur']) > rfrom
      invariant cur - 1 <= cur' <= cur
      invariant cur' == cur - 1 ==> Unix(events[cur]) > rfrom
    {
      cur' := cur' - 1;
    }
    if Unix(events[cur']) < rfrom && |events| > cur' + 1 {
      cur' := cur' + 1;
    }
  }

  /** Forward over the day, and over what comes before it from the cursor on. */
  method CountDay(events: seq<Event>, cur: nat, rfrom: int, rto: int) returns (cur': nat, n: nat)
    requires SortedEvents(events) && rfrom <= rto
    requires cur <= |events| && forall i :: 0 <= i < cur ==> Unix(events[i]) < rfrom
    ensures Splits(events, rto, cur')
    ensures n == Returns(events, rfrom, rto, |events|) + Early(events, cur, rfrom, |events|)
  {
    cur', n := cur, 0;
    ReturnsNone(events, rfrom, rto, cur);
    while cur' < |events| && Unix(events[cur']) < rto
      invariant cur <= cur' <= |events|
      invariant forall i :: 0 <= i < cur' ==> Unix(events[i]) < rto
      invariant n == Returns(events, rfrom, rto, cur') + Early(events, cur, rfrom, cur')
    {
      if events[cur'].lease < 0 {
        n := n + 1;
      }
      cur' := cur' + 1;
    }
    UnixIsSorted(events);
    ReturnsNoMore(events, rfrom, rto, cur', |events|);
    EarlyNoMore(events, cur, rfrom, cur', |events|);
  }

  lemma {:induction false} EarlyNoMore(events: seq<Event>, cur: nat, t: int, k: nat, l: nat)
    requires cur <= k <= l <= |events| && forall i :: k <= i < l ==> Unix(events[i]) >= t
    ensures Early(events, cur, t, l) == Early(events, cur, t, k)
  {
    if k < l {
      EarlyNoMore(events, cur, t, k, l - 1);
    }
  }

  /** What the first day has too much. */
  function Excess(events: seq<Event>, first: int): nat {
    var t := DayEnd(first, -1);
    Early(events, Skipped(events, t), t, |events|)
  }

  /** Each day has the number of renderings that came back on it, and the first one perhaps some more. */
  ghost predicate AreDays(events: seq<Event>, first: int, data: seq<Day>) {
    forall k :: 0 <= k < |data| ==>
      && data[k].end == DayEnd(first, k)
      && data[k].n == OnDay(events, first, k) + if k == 0 then Excess(events, first) else 0
  }

  /** The brute force count. */
  function OnDay(events: seq<Event>, first: int, k: nat): nat {
    Returns(events, DayEnd(first, k - 1), DayEnd(first, k), |events|)
  }

  method NextDay(events: seq<Event>, cur: nat, i: int, ghost first: int, ghost k: nat) returns (cur': nat, n: nat)
    requires SortedEvents(events) && cur < |events| && i == DayEnd(first, k)
    requires Ready(events, first, k, cur)
    ensures Ready(events, first, k + 1, cur')
    ensures n == OnDay(events, first, k) + if k == 0 then Excess(events, first) else 0
  {
    var rfrom, rto := i - 86400, i;
    cur' := StepBack(events, cur, rfrom);
    ghost var from := cur';
    cur', n := CountDay(events, cur', rfrom, rto);
    if k > 0 {
      NoneEarly(events, from, rfrom, |events|);
    }
  }

  lemma AddDay(events: seq<Event>, first: int, days: seq<Day>, n: nat)
    requires AreDays(events, first, days)
    requires n == OnDay(events, first, |days|) + if |days| == 0 then Excess(events, first) else 0
    ensures AreDays(events, first, days + [Day(DayEnd(first, |days|), n)])
  {
  }

  /** Where the cursor is before day `k`. */
  ghost predicate Ready(events: seq<Event>, first: int, k: nat, cur: nat) {
    && (if k == 0 then cur == 0 else Splits(events, DayEnd(first, k - 1), cur))
    && (k > 0 ==> events != [])
    && (k > 1 ==> Unix(events[|events| - 1]) >= DayEnd(first, k - 2))
  }

  lemma OutBefore(events: seq<Event>, first: int, to: int, k: nat)
    requires DayEnd(first, k) < to && Ready(events, first, k, |events|)
    ensures RunsOut(events, first, to)
  {
    DaysEndBefore(first, to, k);
    if events != [] {
      assert Unix(events[|events| - 1]) < DayEnd(first, k - 1);
    }
  }

  lemma NeverOut(events: seq<Event>, first: int, to: int, k: nat, cur: nat)
    requires k == Days(first, to) && Ready(events, first, k, cur)
    ensures !RunsOut(events, first, to)
  {
  }

  /** The loop over the days. There is no result if it crashes. */
  method CountDays(events: seq<Event>, first: int, to: int) returns (data: Option<seq<Day>>)
    requires SortedEvents(events)
    ensures data.None? <==> RunsOut(events, first, to)
    ensures data.Some? ==> |data.value| == Days(first, to) && AreDays(events, first, data.value)
    ensures data.Some? ==> first + 86400 * |data.value| >= to
    ensures data.Some? ==> forall k :: 0 <= k < |data.value| ==> data.value[k].end == first + 86400 * k < to
  {
    var days: seq<Day> := [];
    var cur: nat := 0;
    var i := first;
    while i < to
      invariant i == DayEnd(first, |days|) && |days| <= Days(first, to)
      invariant cur <= |events| && Ready(events, first, |days|, cur)
      invariant AreDays(events, first, days)
      decreases Days(first, to) - |days|
    {
      ghost var k := |days|;
      DaysEndBefore(first, to, k);
      if cur == |events| {
        // The first look at events[cur] is out of range.
        OutBefore(events, first, to, k);
        return None;
      }
      var n;
      cur, n := NextDay(events, cur, i, first, k);
      AddDay(events, first, days, n);
      days := days + [Day(i, n)];
      i := i + 86400;
    }
    DaysEndBefore(first, to, |days|);
    NeverOut(events, first, to, |days|, cur);
    return Some(days);
  }

  // All days together

  function Total(data: seq<Day>, k: nat): nat
    requires k <= |data|
  {
    if k == 0 then 0 else Total(data, k - 1) + data[k - 1].n
  }

  lemma {:induction false} ReturnsAdd(events: seq<Event>, a: int, b: int, c: int, k: nat)
    requires a <= b <= c && k <= |events|
    ensures Returns(events, a, b, k) + Returns(events, b, c, k) == Returns(events, a, c, k)
  {
    if k > 0 {
      ReturnsAdd(events, a, b, c, k - 1);
    }
  }

  /** The days have every rendering that came back before the last of them ended, and have it once. */
  lemma {:induction false} EachReturnOnce(events: seq<Event>, first: int, data: seq<Day>, k: nat)
    requires AreDays(events, first, data) && k <= |data|
    ensures Total(data, k) ==
            Returns(events, DayEnd(first, -1), DayEnd(first, k - 1), |events|) + if k == 0 then 0 else Excess(events, first)
  {
    if k == 0 {
      NoneIn(events, DayEnd(first, -1), |events|);
    } else {
      EachReturnOnce(events, first, data, k - 1);
      ReturnsAdd(events, DayEnd(first, -1), DayEnd(first, k - 2), DayEnd(first, k - 1), |events|);
    }
  }

  /**
   The counts are right just when nothing came back before the first day began, except perhaps with the first of
   several events. The source's first day begins before 1970.
   */
  lemma CountsAreRight(events: seq<Event>, first: int, data: seq<Day>)
    requires AreDays(events, first, data) && data != []
    ensures (forall k :: 0 <= k < |data| ==> data[k].n == OnDay(events, first, k)) <==>
            forall i :: Skipped(events, DayEnd(first, -1)) <= i < |events| && events[i].lease < 0 ==>
                          Unix(events[i]) >= DayEnd(first, -1)
  {
    var t := DayEnd(first, -1);
    NoneEarly(events, Skipped(events, t), t, |events|);
    assert data[0].n == OnDay(events, first, 0) + Excess(events, first);
  }

  lemma {:induction false} NoneIn(events: seq<Event>, a: int, k: nat)
    requires k <= |events|
    ensures Returns(events, a, a, k) == 0
  {
    if k > 0 {
      NoneIn(events, a, k - 1);
    }
  }

  // Jobs

  /** The job's end is one of the returns that are counted. */
  predicate EndsIn(j: Job, a: int, b: int) {
    a <= j.end / 1000 < b
  }

  /** The same count, over the events in the order in which the jobs made them. */
  function ReturnsBy(jobs: seq<Job>, seen: set<nat>, a: int, b: int, n: nat): nat
    requires n <= |jobs|
  {
    if n == 0 then 0
    else ReturnsBy(jobs, seen, a, b, n - 1) + if 2 * (n - 1) + 1 in seen && EndsIn(jobs[n - 1], a, b) then 1 else 0
  }

  lemma {:induction false} ReturnsByAfter(jobs: seq<Job>, seen: set<nat>, a: int, b: int, x: nat, n: nat)
    requires n <= |jobs| && x !in seen
    ensures ReturnsBy(jobs, seen + {x}, a, b, n) ==
            ReturnsBy(jobs, seen, a, b, n) + if x / 2 < n && x % 2 == 1 && EndsIn(jobs[x / 2], a, b) then 1 else 0
  {
    if n > 0 {
      ReturnsByAfter(jobs, seen, a, b, x, n - 1);
      assert x == 2 * (x / 2) + x % 2;
    }
  }

  lemma {:induction false} ReturnsBySeen(jobs: seq<Job>, events: seq<Event>, order: seq<nat>, a: int, b: int, k: nat)
    requires AreSorted(jobs, events, order) && k <= |events|
    ensures Returns(events, a, b, k) == ReturnsBy(jobs, Seen(order, k), a, b, |jobs|)
  {
    if k == 0 {
      assert Seen(order, 0) == {};
      NoReturns(jobs, a, b, |jobs|);
    } else {
      ReturnsBySeen(jobs, events, order, a, b, k - 1);
      assert Seen(order, k) == Seen(order, k - 1) + {order[k - 1]};
      ReturnsByAfter(jobs, Seen(order, k - 1), a, b, order[k - 1], |jobs|);
      assert events[k - 1] == EventOf(jobs, order[k - 1]);
    }
  }

  lemma {:induction false} NoReturns(jobs: seq<Job>, a: int, b: int, n: nat)
    requires n <= |jobs|
    ensures ReturnsBy(jobs, {}, a, b, n) == 0
  {
    if n > 0 {
      NoReturns(jobs, a, b, n - 1);
    }
  }

  function JobsEnding(jobs: seq<Job>, a: int, b: int, n: nat): nat
    requires n <= |jobs|
  {
    if n == 0 then 0 else JobsEnding(jobs, a, b, n - 1) + if EndsIn(jobs[n - 1], a, b) then 1 else 0
  }

  lemma {:induction false} AllSeen(jobs: seq<Job>, seen: set<nat>, a: int, b: int, n: nat)
    requires n <= |jobs| && forall x :: 0 <= x < 2 * |jobs| ==> x in seen
    ensures ReturnsBy(jobs, seen, a, b, n) == JobsEnding(jobs, a, b, n)
  {
    if n > 0 {
      AllSeen(jobs, seen, a, b, n - 1);
    }
  }

  /** A day's number is that of the jobs that ended on it, in whatever order events of one time were sorted. */
  lemma DayCountsJobs(jobs: seq<Job>, events: seq<Event>, order: seq<nat>, a: int, b: int)
    requires AreSorted(jobs, events, order)
    ensures Returns(events, a, b, |events|) == JobsEnding(jobs, a, b, |jobs|)
  {
    ReturnsBySeen(jobs, events, order, a, b, |events|);
    forall x | 0 <= x < 2 * |jobs|
      ensures x in Seen(order, |events|)
    {
      OrderIsOnto(order, |order|, x);
    }
    AllSeen(jobs, Seen(order, |events|), a, b, |jobs|);
  }

  ghost function EndedIn(jobs: seq<Job>, a: int, b: int, n: nat): set<nat>
    requires n <= |jobs|
  {
    set j | 0 <= j < n && 1000 * a <= jobs[j].end < 1000 * b
  }

  lemma {:induction false} JobsAreCounted(jobs: seq<Job>, a: int, b: int, n: nat)
    requires n <= |jobs|
    ensures JobsEnding(jobs, a, b, n) == |EndedIn(jobs, a, b, n)|
  {
    if n == 0 {
      assert EndedIn(jobs, a, b, 0) == {};
    } else {
      JobsAreCounted(jobs, a, b, n - 1);
      var before := EndedIn(jobs, a, b, n - 1);
      assert EndedIn(jobs, a, b, n) == if EndsIn(jobs[n - 1], a, b) then before + {n - 1} else before;
    }
  }

  /**
   The table in terms of the jobs: entry `k` has the number of jobs that ended
   in the 86400 seconds up to its end. Only the first can have more.
   */
  lemma DaysCountJobs(jobs: seq<Job>, events: seq<Event>, order: seq<nat>, first: int, data: seq<Day>, k: nat)
    requires AreSorted(jobs, events, order) && AreDays(events, first, data) && k < |data|
    ensures
      var end := first + 86400 * k;
      && data[k].end == end
      && data[k].n >= |EndedIn(jobs, end - 86400, end, |jobs|)|
      && (k > 0 ==> data[k].n == |EndedIn(jobs, end - 86400, end, |jobs|)|)
  {
    var end := first + 86400 * k;
    DayCountsJobs(jobs, events, order, end - 86400, end);
    JobsAreCounted(jobs, end - 86400, end, |jobs|);
    assert DayEnd(first, k - 1) == end - 86400;
  }

  // When it crashes

  ghost predicate AllBefore(jobs: seq<Job>, t: int) {
    forall j :: 0 <= j < |jobs| ==> jobs[j].start / 1000 < t && jobs[j].end / 1000 < t
  }

  lemma LastIsLatest(jobs: seq<Job>, events: seq<Event>, order: seq<nat>, t: int)
    requires AreSorted(jobs, events, order) && events != []
    ensures Unix(events[|events| - 1]) < t <==> AllBefore(jobs, t)
  {
    UnixIsSorted(events);
    if Unix(events[|events| - 1]) < t {
      forall j | 0 <= j < |jobs|
        ensures jobs[j].start / 1000 < t && jobs[j].end / 1000 < t
      {
        EventTimes(jobs, j);
        OrderIsOnto(order, |order|, 2 * j);
        OrderIsOnto(order, |order|, 2 * j + 1);
        var p :| 0 <= p < |order| && order[p] == 2 * j;
        var q :| 0 <= q < |order| && order[q] == 2 * j + 1;
        assert Unix(events[p]) < t && Unix(events[q]) < t;
      }
    } else {
      var x := order[|events| - 1];
      assert events[|events| - 1] == EventOf(jobs, x);
      assert !AllBefore(jobs, t) by {
        assert jobs[x / 2].start / 1000 >= t || jobs[x / 2].end / 1000 >= t;
      }
    }
  }

  /** On the events of any jobs the loop crashes iff there are days and no jobs, or all jobs were over before the last of several days. */
  lemma CrashesIff(jobs: seq<Job>, events: seq<Event>, order: seq<nat>, first: int, to: int)
    requires AreSorted(jobs, events, order)
    ensures
      var n := Days(first, to);
      RunsOut(events, first, to) <==> n > 0 && (jobs == [] || (n > 1 && AllBefore(jobs, DayEnd(first, n - 2))))
  {
    if events != [] {
      LastIsLatest(jobs, events, order, DayEnd(first, Days(first, to) - 2));
    }
  }

  const QUIET_JOBS := [Job(0, 1000, 0, 0, "x86_64")]
  const QUIET_EVENTS := [Event(0, 0, "x86_64", 1), Event(1000, 0, "x86_64", -1)]

  /** For example, when one job took a second on the first day, and then two days and a second go by. */
  lemma QuietDaysCrash()
    ensures AreSorted(QUIET_JOBS, QUIET_EVENTS, [0, 1])
    ensures RunsOut(QUIET_EVENTS, 0, 172801)
  {
    assert Rate(QUIET_JOBS[0]) == 0;
    assert Days(0, 172801) == 3;
  }

  const EARLY_JOBS := [Job(-90_000_000, -89_000_000, 0, 0, "x86_64")]
  const EARLY_EVENTS := [Event(-90_000_000, 0, "x86_64", 1), Event(-89_000_000, 0, "x86_64", -1)]

  /** A job that was over before the first day began is counted on it. */
  lemma EarlyReturnIsCounted()
    ensures AreSorted(EARLY_JOBS, EARLY_EVENTS, [0, 1]) && !RunsOut(EARLY_EVENTS, 0, 1)
    ensures OnDay(EARLY_EVENTS, 0, 0) == 0 && Excess(EARLY_EVENTS, 0) == 1
  {
    var t := DayEnd(0, -1);
    assert Rate(EARLY_JOBS[0]) == 0;
    assert Days(0, 1) == 1;
    ReturnsNone(EARLY_EVENTS, t, 0, 2);
    assert Early(EARLY_EVENTS, 1, t, 1) == 0;
    assert Early(EARLY_EVENTS, 1, t, 2) == 1;
  }
}
