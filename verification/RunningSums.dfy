/** How many renderings ran, and how fast, over time: sums over the starts and ends of all jobs. */
module RunningSums {
  import opened Options
  import opened Merge

  /** What a finished rendering reports about itself. The times are in milliseconds, the usage in microseconds. */
  datatype Job = Job(start: int, end: int, utime: int, stime: int, arch: string)

  datatype Event = Event(time: int, cpuRate: int, arch: string, lease: int)

  /** The source's division, which rounds towards zero. */
  function Quotient(a: int, b: int): (q: int)
    requires b != 0
    ensures a >= 0 && b > 0 ==> q >= 0
  {
    if a >= 0 then a / b else -((-a) / b)
  }

  function Rate(j: Job): (r: int)
    requires j.end != j.start
    ensures j.start < j.end && j.utime >= 0 && j.stime >= 0 ==> r >= 0
  {
    Quotient(Quotient(j.utime + j.stime, 1000), j.end - j.start)
  }

  /** `q` is `a` over `b`, cut off towards zero: the rest is smaller than `b`, and has the sign of `a` if any. */
  predicate IsQuotient(q: int, a: int, b: int) {
    && (a >= 0 ==> 0 <= a - q * b)
    && (a <= 0 ==> a - q * b <= 0)
    && -(if b < 0 then -b else b) < a - q * b < (if b < 0 then -b else b)
  }

  lemma NegatedProduct(x: int, y: int)
    ensures (-x) * y == -(x * y)
  {
  }

  lemma Rest(a: nat, b: int)
    requires b != 0
    ensures 0 <= a - (a / b) * b < if b < 0 then -b else b
  {
    assert a == (a / b) * b + a % b;
  }

  lemma QuotientIs(a: int, b: int)
    requires b != 0
    ensures IsQuotient(Quotient(a, b), a, b)
  {
    if a >= 0 {
      Rest(a, b);
    } else {
      Rest(-a, b);
      NegatedProduct(-a / b, b);
    }
  }

  /** CPU seconds of both kinds per second: the usage in milliseconds, cut off, over the milliseconds that the job took, cut off again. */
  ghost predicate IsRate(j: Job, r: int) {
    IsQuotientInMs(r, j.utime + j.stime, j.end - j.start)
  }

  ghost predicate IsQuotientInMs(r: int, usage: int, d: int) {
    exists ms :: IsQuotient(ms, usage, 1000) && IsQuotient(r, ms, d)
  }

  lemma RateIs(j: Job)
    requires j.end != j.start
    ensures IsRate(j, Rate(j))
  {
    var ms := Quotient(j.utime + j.stime, 1000);
    QuotientIs(j.utime + j.stime, 1000);
    QuotientIs(ms, j.end - j.start);
    assert IsQuotient(ms, j.utime + j.stime, 1000) && IsQuotient(Rate(j), ms, j.end - j.start);
  }

  lemma TwiceCutOff(total: int, ms: int, d: int, r: int)
    requires 1000 * ms <= total < 1000 * (ms + 1)
    requires r * d <= ms < r * d + d
    ensures 1000 * (r * d) <= total < 1000 * (r * d + d)
  {
  }

  /** Cutting off twice loses no more than cutting off once: the rate is the whole part of the usage over the time. */
  lemma RateIsWhole(j: Job)
    requires j.start < j.end && j.utime >= 0 && j.stime >= 0
    ensures
      var d := j.end - j.start;
      1000 * (Rate(j) * d) <= j.utime + j.stime < 1000 * (Rate(j) * d + d)
  {
    var total, d := j.utime + j.stime, j.end - j.start;
    var ms := Quotient(total, 1000);
    QuotientIs(total, 1000);
    QuotientIs(ms, d);
    TwiceCutOff(total, ms, d, Rate(j));
  }

  /** The two events of a job: one machine and its rate come, and go. */
  ghost predicate AreEventsOf(j: Job, start: Event, end: Event) {
    && IsRate(j, start.cpuRate)
    && start.time == j.start && start.arch == j.arch && start.lease == 1
    && end.time == j.end && end.arch == j.arch && end.lease == -1 && end.cpuRate == -start.cpuRate
  }

  ghost predicate AllLast(jobs: seq<Job>) {
    forall j :: 0 <= j < |jobs| ==> jobs[j].start != jobs[j].end
  }

  /** Events 2j and 2j+1 are the start and the end of job j. */
  function EventOf(jobs: seq<Job>, x: nat): Event
    requires AllLast(jobs) && x < 2 * |jobs|
  {
    var j := jobs[x / 2];
    if x % 2 == 0 then Event(j.start, Rate(j), j.arch, 1) else Event(j.end, -Rate(j), j.arch, -1)
  }

  /** The loop over the jobs, which divides by zero if a job took no time. */
  method MakeEvents(jobs: seq<Job>) returns (events: Option<seq<Event>>)
    ensures events.Some? <==> AllLast(jobs)
    ensures events.Some? ==> |events.value| == 2 * |jobs| && forall x :: 0 <= x < 2 * |jobs| ==> events.value[x] == EventOf(jobs, x)
    ensures events.Some? ==> forall j :: 0 <= j < |jobs| ==> AreEventsOf(jobs[j], events.value[2 * j], events.value[2 * j + 1])
  {
    var es: seq<Event> := [];
    for i := 0 to |jobs|
      invariant forall j :: 0 <= j < i ==> jobs[j].start != jobs[j].end
      invariant |es| == 2 * i
      invariant forall j :: 0 <= j < i ==> es[2 * j] == Event(jobs[j].start, Rate(jobs[j]), jobs[j].arch, 1)
      invariant forall j :: 0 <= j < i ==> es[2 * j + 1] == Event(jobs[j].end, -Rate(jobs[j]), jobs[j].arch, -1)
    {
      var meta := jobs[i];
      if meta.end == meta.start {
        return None;
      }
      var cpuRate := Rate(meta);
      es := es + [Event(meta.start, cpuRate, meta.arch, 1), Event(meta.end, -cpuRate, meta.arch, -1)];
    }
    forall x | 0 <= x < 2 * |jobs|
      ensures es[x] == EventOf(jobs, x)
    {
      assert x == 2 * (x / 2) + x % 2;
    }
    forall j | 0 <= j < |jobs|
      ensures AreEventsOf(jobs[j], es[2 * j], es[2 * j + 1])
    {
      RateIs(jobs[j]);
    }
    return Some(es);
  }

  // Sorting: the order of events of the same time is not specified, so it can be any.

  ghost predicate IsOrder(order: seq<nat>, n: nat) {
    && |order| == n
    && (forall k :: 0 <= k < n ==> order[k] < n)
    && (forall k, l :: 0 <= k < l < n ==> order[k] != order[l])
  }

  ghost predicate SortedEvents(events: seq<Event>) {
    forall k, l :: 0 <= k < l < |events| ==> events[k].time <= events[l].time
  }

  /** The events of the jobs, in an order that sorting by time may leave them in. */
  ghost predicate AreSorted(jobs: seq<Job>, events: seq<Event>, order: seq<nat>) {
    && AllLast(jobs)
    && IsOrder(order, 2 * |jobs|)
    && |events| == |order|
    && (forall k :: 0 <= k < |order| ==> events[k] == EventOf(jobs, order[k]))
    && SortedEvents(events)
  }

  // The graphs

  datatype Graph = CpuRate | Leases

  function Extract(g: Graph, e: Event): int {
    match g
    case CpuRate => e.cpuRate
    case Leases => e.lease
  }

  /** The value of a line after the first `k` events. */
  function Sum(g: Graph, events: seq<Event>, arch: string, k: nat): int
    requires k <= |events|
  {
    if k == 0 then 0 else Sum(g, events, arch, k - 1) + if events[k - 1].arch == arch then Extract(g, events[k - 1]) else 0
  }

  /** A line has the value before and after every event. */
  function Line(g: Graph, events: seq<Event>, arch: string, k: nat): seq<Point>
    requires k <= |events|
  {
    if k == 0 then []
    else if events[k - 1].arch == arch then
      var t := events[k - 1].time;
      Line(g, events, arch, k - 1) + [Point(t, Sum(g, events, arch, k - 1)), Point(t, Sum(g, events, arch, k))]
    else Line(g, events, arch, k - 1)
  }

  /** The events of one architecture. */
  function EventsOf(events: seq<Event>, arch: string, k: nat): seq<Event>
    requires k <= |events|
  {
    if k == 0 then []
    else if events[k - 1].arch == arch then EventsOf(events, arch, k - 1) + [events[k - 1]]
    else EventsOf(events, arch, k - 1)
  }

  /** Two points for each event, at its time: the line goes on from where it was, at first from zero, and jumps by what the event says. */
  predicate IsStaircase(g: Graph, own: seq<Event>, line: Series) {
    if own == [] then line == []
    else
      && |line| >= 2
      && var e, earlier, before, after := own[|own| - 1], line[..|line| - 2], line[|line| - 2], line[|line| - 1];
      && IsStaircase(g, own[..|own| - 1], earlier)
      && before == Point(e.time, if earlier == [] then 0 else earlier[|earlier| - 1].value)
      && after == Point(e.time, before.value + if g == Leases then e.lease else e.cpuRate)
  }

  lemma MoreStairs(g: Graph, own: seq<Event>, line: Series, e: Event, from: int)
    requires IsStaircase(g, own, line) && from == if line == [] then 0 else line[|line| - 1].value
    ensures IsStaircase(g, own + [e], line + [Point(e.time, from), Point(e.time, from + Extract(g, e))])
  {
    var own', line' := own + [e], line + [Point(e.time, from), Point(e.time, from + Extract(g, e))];
    assert own'[..|own|] == own && line'[..|line|] == line;
  }

  ghost predicate Occurs(events: seq<Event>, arch: string, k: nat)
    requires k <= |events|
  {
    exists i :: 0 <= i < k && events[i].arch == arch
  }

  /** The architectures of the first `k` events, each once. */
  ghost predicate AreTitles(events: seq<Event>, k: nat, titles: seq<string>)
    requires k <= |events|
  {
    && (forall i, j :: 0 <= i < j < |titles| ==> titles[i] != titles[j])
    && (forall n :: 0 <= n < |titles| ==> Occurs(events, titles[n], k))
    && (forall i :: 0 <= i < k ==> events[i].arch in titles)
  }

  lemma {:induction false} AbsentIsEmpty(g: Graph, events: seq<Event>, arch: string, k: nat)
    requires k <= |events| && !Occurs(events, arch, k)
    ensures Line(g, events, arch, k) == [] && Sum(g, events, arch, k) == 0
  {
    if k > 0 {
      AbsentIsEmpty(g, events, arch, k - 1);
    }
  }

  /** One graph's slices while the loop runs: the current values and the lines so far. */
  ghost predicate AreLines(g: Graph, events: seq<Event>, k: nat, titles: seq<string>, state: seq<int>, data: seq<Series>)
    requires k <= |events|
  {
    && |state| == |data| == |titles|
    && forall n :: 0 <= n < |titles| ==>
      state[n] == Sum(g, events, titles[n], k) && data[n] == Line(g, events, titles[n], k)
  }

  ghost predicate AreTheLines(g: Graph, events: seq<Event>, titles: seq<string>, ts: seq<Series>) {
    |ts| == |titles| && forall n :: 0 <= n < |ts| ==> ts[n] == Line(g, events, titles[n], |events|)
  }

  /** One event in one graph. */
  method Plot(g: Graph, events: seq<Event>, k: nat, ghost titles: seq<string>, n: nat, state: seq<int>, data: seq<Series>)
    returns (state': seq<int>, data': seq<Series>)
    requires k < |events| && AreLines(g, events, k, titles, state, data)
    requires n < |titles| && titles[n] == events[k].arch
    requires forall i, j :: 0 <= i < j < |titles| ==> titles[i] != titles[j]
    ensures AreLines(g, events, k + 1, titles, state', data')
  {
    var e := events[k];
    data' := data[n := data[n] + [Point(e.time, state[n])]];
    state' := state[n := state[n] + Extract(g, e)];
    data' := data'[n := data'[n] + [Point(e.time, state'[n])]];
    forall i | 0 <= i < |titles|
      ensures state'[i] == Sum(g, events, titles[i], k + 1) && data'[i] == Line(g, events, titles[i], k + 1)
    {
      if i == n {
        assert data'[n] == data[n] + [Point(e.time, state[n]), Point(e.time, state'[n])];
      } else {
        assert titles[i] != titles[n];
      }
    }
  }

  lemma NewLine(g: Graph, events: seq<Event>, k: nat, titles: seq<string>, state: seq<int>, data: seq<Series>, arch: string)
    requires k <= |events| && AreTitles(events, k, titles) && AreLines(g, events, k, titles, state, data) && arch !in titles
    ensures AreLines(g, events, k, titles + [arch], state + [0], data + [[]])
  {
    AbsentIsEmpty(g, events, arch, k);
  }

  ghost predicate Indexed(titles: seq<string>, pos: map<string, nat>) {
    && |pos| == |titles|
    && (forall a :: a in pos ==> pos[a] < |titles| && titles[pos[a]] == a)
    && (forall n :: 0 <= n < |titles| ==> titles[n] in pos && pos[titles[n]] == n)
  }

  lemma IndexedMore(titles: seq<string>, pos: map<string, nat>, arch: string)
    requires Indexed(titles, pos)
    ensures arch in pos <==> arch in titles
    ensures forall i, j :: 0 <= i < j < |titles| ==> titles[i] != titles[j]
    ensures arch !in pos ==> Indexed(titles + [arch], pos[arch := |pos|])
  {
  }

  lemma MoreTitles(events: seq<Event>, k: nat, titles: seq<string>, titles': seq<string>)
    requires k < |events| && AreTitles(events, k, titles)
    requires titles' == if events[k].arch in titles then titles else titles + [events[k].arch]
    ensures AreTitles(events, k + 1, titles')
  {
    forall n | 0 <= n < |titles'|
      ensures Occurs(events, titles'[n], k + 1)
    {
      if n < |titles| {
        var i :| 0 <= i < k && events[i].arch == titles[n];
      } else {
        assert events[k].arch == titles'[n];
      }
    }
  }

  /** The lines of both graphs, one for each title. */
  datatype Plots = Plots(titles: seq<string>, cpuRate: seq<Series>, leases: seq<Series>)

  method PlotAll(events: seq<Event>) returns (plots: Plots)
    ensures AreTitles(events, |events|, plots.titles)
    ensures AreTheLines(CpuRate, events, plots.titles, plots.cpuRate)
    ensures AreTheLines(Leases, events, plots.titles, plots.leases)
  {
    var pos: map<string, nat> := map[];
    var rate: seq<int>, lease: seq<int> := [], [];
    var titles: seq<string> := [];
    var cpuLines: seq<Series>, leaseLines: seq<Series> := [], [];
    for k := 0 to |events|
      invariant AreTitles(events, k, titles) && Indexed(titles, pos)
      invariant AreLines(CpuRate, events, k, titles, rate, cpuLines)
      invariant AreLines(Leases, events, k, titles, lease, leaseLines)
    {
      var arch := events[k].arch;
      ghost var before := titles;
      IndexedMore(titles, pos, arch);
      if arch !in pos {
        NewLine(CpuRate, events, k, titles, rate, cpuLines, arch);
        NewLine(Leases, events, k, titles, lease, leaseLines, arch);
        pos := pos[arch := |pos|];
        titles := titles + [arch];
        rate, cpuLines := rate + [0], cpuLines + [[]];
        lease, leaseLines := lease + [0], leaseLines + [[]];
        IndexedMore(titles, pos, arch);
      }
      var n := pos[arch];
      MoreTitles(events, k, before, titles);
      rate, cpuLines := Plot(CpuRate, events, k, titles, n, rate, cpuLines);
      lease, leaseLines := Plot(Leases, events, k, titles, n, lease, leaseLines);
    }
    return Plots(titles, cpuLines, leaseLines);
  }

  // What a line means

  /** What job `j` adds to a line while it runs. */
  function Weight(g: Graph, jobs: seq<Job>, arch: string, j: nat): int
    requires AllLast(jobs) && j < |jobs|
  {
    if jobs[j].arch != arch then 0
    else match g
      case CpuRate => Rate(jobs[j])
      case Leases => 1
  }

  function TotalWeight(g: Graph, jobs: seq<Job>, arch: string, n: nat): int
    requires AllLast(jobs) && n <= |jobs|
  {
    if n == 0 then 0 else TotalWeight(g, jobs, arch, n - 1) + Weight(g, jobs, arch, n - 1)
  }

  /** The jobs that have started and not ended, by the events in `seen`. */
  function Running(g: Graph, jobs: seq<Job>, arch: string, seen: set<nat>, n: nat): int
    requires AllLast(jobs) && n <= |jobs|
  {
    if n == 0 then 0
    else
      var w := Weight(g, jobs, arch, n - 1);
      Running(g, jobs, arch, seen, n - 1)
      + (if 2 * (n - 1) in seen then w else 0)
      - (if 2 * (n - 1) + 1 in seen then w else 0)
  }

  lemma {:induction false} RunningAfter(g: Graph, jobs: seq<Job>, arch: string, seen: set<nat>, x: nat, n: nat)
    requires AllLast(jobs) && n <= |jobs| && x < 2 * |jobs| && x !in seen
    ensures Running(g, jobs, arch, seen + {x}, n) == Running(g, jobs, arch, seen, n) +
            if x / 2 >= n then 0 else if x % 2 == 0 then Weight(g, jobs, arch, x / 2) else -Weight(g, jobs, arch, x / 2)
  {
    if n > 0 {
      RunningAfter(g, jobs, arch, seen, x, n - 1);
      assert x == 2 * (x / 2) + x % 2;
    }
  }

  function Seen(order: seq<nat>, k: nat): set<nat>
    requires k <= |order|
  {
    set i | 0 <= i < k :: order[i]
  }

  lemma {:induction false} NothingRuns(g: Graph, jobs: seq<Job>, arch: string, n: nat)
    requires AllLast(jobs) && n <= |jobs|
    ensures Running(g, jobs, arch, {}, n) == 0
  {
    if n > 0 {
      NothingRuns(g, jobs, arch, n - 1);
    }
  }

  /** In any order of events, the sum is over the jobs that have started and not ended. */
  lemma {:induction false} SumIsRunning(g: Graph, jobs: seq<Job>, events: seq<Event>, order: seq<nat>, arch: string, k: nat)
    requires AreSorted(jobs, events, order) && k <= |events|
    ensures Sum(g, events, arch, k) == Running(g, jobs, arch, Seen(order, k), |jobs|)
  {
    if k == 0 {
      assert Seen(order, 0) == {};
      NothingRuns(g, jobs, arch, |jobs|);
    } else {
      SumIsRunning(g, jobs, events, order, arch, k - 1);
      var x := order[k - 1];
      assert Seen(order, k) == Seen(order, k - 1) + {x};
      assert x !in Seen(order, k - 1);
      RunningAfter(g, jobs, arch, Seen(order, k - 1), x, |jobs|);
      EventWeight(g, jobs, arch, x);
    }
  }

  lemma EventWeight(g: Graph, jobs: seq<Job>, arch: string, x: nat)
    requires AllLast(jobs) && x < 2 * |jobs|
    ensures x / 2 < |jobs|
    ensures var e := EventOf(jobs, x);
            (if e.arch == arch then Extract(g, e) else 0) ==
            if x % 2 == 0 then Weight(g, jobs, arch, x / 2) else -Weight(g, jobs, arch, x / 2)
  {
  }

  /** The jobs are as they should be: they end after they start, and have used something or nothing. */
  ghost predicate AreProper(jobs: seq<Job>) {
    forall j :: 0 <= j < |jobs| ==> jobs[j].start < jobs[j].end && jobs[j].utime >= 0 && jobs[j].stime >= 0
  }

  lemma OrderIsOnto(order: seq<nat>, n: nat, x: nat)
    requires IsOrder(order, n) && x < n
    ensures x in order
  {
    ImageSize(order, n);
    RangeSize(n);
    SameSize(Seen(order, n), Upto(n));
    assert x in Seen(order, n);
  }

  lemma {:induction false} ImageSize(order: seq<nat>, k: nat)
    requires k <= |order| && forall i, j :: 0 <= i < j < |order| ==> order[i] != order[j]
    ensures |Seen(order, k)| == k
  {
    if k > 0 {
      ImageSize(order, k - 1);
      assert Seen(order, k) == Seen(order, k - 1) + {order[k - 1]};
    } else {
      assert Seen(order, 0) == {};
    }
  }

  function Upto(n: nat): set<nat> {
    if n == 0 then {} else Upto(n - 1) + {n - 1}
  }

  lemma {:induction false} RangeSize(n: nat)
    ensures |Upto(n)| == n && forall i: nat :: i in Upto(n) <==> i < n
  {
    if n > 0 {
      RangeSize(n - 1);
    }
  }

  lemma SameSize<T>(s: set<T>, t: set<T>)
    requires s <= t && |s| == |t|
    ensures s == t
  {
    assert |t - s| == 0;
    assert t == s + (t - s);
  }

  /** No job is seen to end before it is seen to start, however events of one time are ordered. */
  lemma StartsFirst(jobs: seq<Job>, events: seq<Event>, order: seq<nat>, j: nat, k: nat)
    requires AreSorted(jobs, events, order) && AreProper(jobs) && j < |jobs| && k <= |events|
    requires 2 * j + 1 in Seen(order, k)
    ensures 2 * j in Seen(order, k)
  {
    var q :| 0 <= q < k && order[q] == 2 * j + 1;
    OrderIsOnto(order, |order|, 2 * j);
    var p :| 0 <= p < |order| && order[p] == 2 * j;
    EventTimes(jobs, j);
    assert events[p] == EventOf(jobs, 2 * j) && events[q] == EventOf(jobs, 2 * j + 1);
    assert p < q;
  }

  lemma EventTimes(jobs: seq<Job>, j: nat)
    requires AllLast(jobs) && j < |jobs|
    ensures EventOf(jobs, 2 * j).time == jobs[j].start && EventOf(jobs, 2 * j + 1).time == jobs[j].end
  {
  }

  lemma {:induction false} RunningIsBounded(g: Graph, jobs: seq<Job>, arch: string, seen: set<nat>, n: nat)
    requires AllLast(jobs) && AreProper(jobs) && n <= |jobs|
    requires forall j :: 0 <= j < |jobs| && 2 * j + 1 in seen ==> 2 * j in seen
    ensures 0 <= Running(g, jobs, arch, seen, n) <= TotalWeight(g, jobs, arch, n)
  {
    if n > 0 {
      RunningIsBounded(g, jobs, arch, seen, n - 1);
    }
  }

  /** A line never falls below zero, nor rises above what all jobs of its architecture have together. */
  lemma SumIsBounded(g: Graph, jobs: seq<Job>, events: seq<Event>, order: seq<nat>, arch: string, k: nat)
    requires AreSorted(jobs, events, order) && AreProper(jobs) && k <= |events|
    ensures 0 <= Sum(g, events, arch, k) <= TotalWeight(g, jobs, arch, |jobs|)
  {
    SumIsRunning(g, jobs, events, order, arch, k);
    forall j | 0 <= j < |jobs| && 2 * j + 1 in Seen(order, k)
      ensures 2 * j in Seen(order, k)
    {
      StartsFirst(jobs, events, order, j, k);
    }
    RunningIsBounded(g, jobs, arch, Seen(order, k), |jobs|);
  }

  function JobsOf(jobs: seq<Job>, arch: string, n: nat): nat
    requires n <= |jobs|
  {
    if n == 0 then 0 else JobsOf(jobs, arch, n - 1) + if jobs[n - 1].arch == arch then 1 else 0
  }

  lemma {:induction false} LeaseWeight(jobs: seq<Job>, arch: string, n: nat)
    requires AllLast(jobs) && n <= |jobs|
    ensures TotalWeight(Leases, jobs, arch, n) == JobsOf(jobs, arch, n)
  {
    if n > 0 {
      LeaseWeight(jobs, arch, n - 1);
    }
  }

  lemma {:induction false} AllEnded(g: Graph, jobs: seq<Job>, arch: string, seen: set<nat>, n: nat)
    requires AllLast(jobs) && n <= |jobs| && forall x :: 0 <= x < 2 * |jobs| ==> x in seen
    ensures Running(g, jobs, arch, seen, n) == 0
  {
    if n > 0 {
      AllEnded(g, jobs, arch, seen, n - 1);
    }
  }

  /** In the end all lines are back at zero, whatever the times of the jobs are. */
  lemma SumEndsAtZero(g: Graph, jobs: seq<Job>, events: seq<Event>, order: seq<nat>, arch: string)
    requires AreSorted(jobs, events, order)
    ensures Sum(g, events, arch, |events|) == 0
  {
    SumIsRunning(g, jobs, events, order, arch, |events|);
    forall x | 0 <= x < 2 * |jobs|
      ensures x in Seen(order, |events|)
    {
      OrderIsOnto(order, |order|, x);
    }
    AllEnded(g, jobs, arch, Seen(order, |events|), |jobs|);
  }

  // The lines and the table made of them

  predicate AllUntil(t: seq<Point>, time: int) {
    forall i :: 0 <= i < |t| ==> t[i].time <= time
  }

  lemma SortedMore(t: seq<Point>, until: int, p: Point, q: Point)
    requires Sorted(t) && AllUntil(t, until) && until <= p.time == q.time
    ensures Sorted(t + [p, q]) && AllUntil(t + [p, q], p.time)
  {
  }

  lemma {:induction false} LineIsSorted(g: Graph, events: seq<Event>, arch: string, k: nat)
    requires k <= |events| && SortedEvents(events)
    ensures Sorted(Line(g, events, arch, k))
    ensures if k == 0 then Line(g, events, arch, k) == [] else AllUntil(Line(g, events, arch, k), events[k - 1].time)
  {
    if k > 0 {
      LineIsSorted(g, events, arch, k - 1);
      var e, from := events[k - 1], Sum(g, events, arch, k - 1);
      if e.arch == arch {
        LineGrows(g, events, arch, k);
        SortedMore(Line(g, events, arch, k - 1), if k == 1 then e.time else events[k - 2].time,
                   Point(e.time, from), Point(e.time, from + Extract(g, e)));
      } else {
        LineStays(g, events, arch, k);
      }
    }
  }

  ghost predicate IsSum(g: Graph, events: seq<Event>, arch: string, v: int) {
    exists l :: 0 <= l <= |events| && v == Sum(g, events, arch, l)
  }

  /** Where a line's points come from; the last one is the value after all events. */
  lemma {:induction false} LineIsSums(g: Graph, events: seq<Event>, arch: string, k: nat)
    requires k <= |events|
    ensures forall p :: p in Line(g, events, arch, k) ==> IsSum(g, events, arch, p.value)
    ensures var line := Line(g, events, arch, k);
            if line == [] then Sum(g, events, arch, k) == 0 else line[|line| - 1].value == Sum(g, events, arch, k)
  {
    if k > 0 {
      LineIsSums(g, events, arch, k - 1);
    }
  }

  lemma NoStairs(g: Graph)
    ensures IsStaircase(g, [], [])
  {
  }

  lemma LineStays(g: Graph, events: seq<Event>, arch: string, k: nat)
    requires 0 < k <= |events| && events[k - 1].arch != arch
    ensures EventsOf(events, arch, k) == EventsOf(events, arch, k - 1)
    ensures Line(g, events, arch, k) == Line(g, events, arch, k - 1)
  {
  }

  lemma LineGrows(g: Graph, events: seq<Event>, arch: string, k: nat)
    requires 0 < k <= |events| && events[k - 1].arch == arch
    ensures
      var e, from := events[k - 1], Sum(g, events, arch, k - 1);
      && EventsOf(events, arch, k) == EventsOf(events, arch, k - 1) + [e]
      && Line(g, events, arch, k) == Line(g, events, arch, k - 1) + [Point(e.time, from), Point(e.time, from + Extract(g, e))]
  {
  }

  lemma StaircaseGrows(g: Graph, events: seq<Event>, arch: string, k: nat)
    requires 0 < k <= |events| && events[k - 1].arch == arch
    requires IsStaircase(g, EventsOf(events, arch, k - 1), Line(g, events, arch, k - 1))
    ensures IsStaircase(g, EventsOf(events, arch, k), Line(g, events, arch, k))
  {
    LineIsSums(g, events, arch, k - 1);
    LineGrows(g, events, arch, k);
    MoreStairs(g, EventsOf(events, arch, k - 1), Line(g, events, arch, k - 1), events[k - 1], Sum(g, events, arch, k - 1));
  }

  /** Every line is such a staircase of its architecture's events. */
  lemma {:induction false} LineIsStaircase(g: Graph, events: seq<Event>, arch: string, k: nat)
    requires k <= |events|
    ensures IsStaircase(g, EventsOf(events, arch, k), Line(g, events, arch, k))
  {
    if k == 0 {
      NoStairs(g);
    } else {
      LineIsStaircase(g, events, arch, k - 1);
      if events[k - 1].arch == arch {
        StaircaseGrows(g, events, arch, k);
      } else {
        LineStays(g, events, arch, k);
      }
    }
  }

  lemma {:induction false} PresentIsNot(g: Graph, events: seq<Event>, arch: string, k: nat)
    requires k <= |events| && Occurs(events, arch, k)
    ensures |Line(g, events, arch, k)| >= 2
  {
    if Occurs(events, arch, k - 1) {
      PresentIsNot(g, events, arch, k - 1);
    }
  }

  /** The lines are fit to be merged: nothing crashes and the table is in the order of time. */
  lemma LinesAreMergeable(g: Graph, events: seq<Event>, titles: seq<string>, ts: seq<Series>)
    requires SortedEvents(events) && AreTitles(events, |events|, titles) && AreTheLines(g, events, titles, ts)
    ensures NonEmpty(ts) && AllSorted(ts)
  {
    forall n | 0 <= n < |ts|
      ensures ts[n] != [] && Sorted(ts[n])
    {
      LineIsSorted(g, events, titles[n], |events|);
      PresentIsNot(g, events, titles[n], |events|);
    }
  }

  /** No number in a table is below zero, and the leases of an architecture are never more than its jobs. */
  lemma TableIsBounded(g: Graph, jobs: seq<Job>, events: seq<Event>, order: seq<nat>, titles: seq<string>, ts: seq<Series>,
                       clock: nat -> int, who: seq<nat>, rows: seq<Row>, k: nat, n: nat)
    requires AreSorted(jobs, events, order) && AreProper(jobs) && AreTitles(events, |events|, titles) && AreTheLines(g, events, titles, ts)
    requires AreRows(ts, clock, who, rows) && k < |rows| && n < |ts|
    ensures |rows[k].values| == |ts|
    ensures 0 <= rows[k].values[n] <= TotalWeight(g, jobs, titles[n], |jobs|)
  {
    LinesAreMergeable(g, events, titles, ts);
    RowsAreWide(ts, clock, who, rows);
    var arch := titles[n];
    if k > 0 {
      assert IsRow(ts, who[..k], rows[k]);
    }
    var p := ts[n][Pos(who[..k], n)];
    assert p in Line(g, events, arch, |events|);
    LineIsSums(g, events, arch, |events|);
    var l :| 0 <= l <= |events| && p.value == Sum(g, events, arch, l);
    SumIsBounded(g, jobs, events, order, arch, l);
  }

  lemma LineEndsAtZero(g: Graph, jobs: seq<Job>, events: seq<Event>, order: seq<nat>, arch: string)
    requires AreSorted(jobs, events, order) && Line(g, events, arch, |events|) != []
    ensures var line := Line(g, events, arch, |events|); line[|line| - 1].value == 0
  {
    LineIsSums(g, events, arch, |events|);
    SumEndsAtZero(g, jobs, events, order, arch);
  }

  /** Once everything is in the past, the last row of a table is all zeros. */
  lemma TableEndsAtZero(g: Graph, jobs: seq<Job>, events: seq<Event>, order: seq<nat>, titles: seq<string>, ts: seq<Series>,
                        clock: nat -> int, who: seq<nat>, rows: seq<Row>, n: nat)
    requires AreSorted(jobs, events, order) && AreTitles(events, |events|, titles) && AreTheLines(g, events, titles, ts)
    requires AreRows(ts, clock, who, rows) && Stuck(ts, who, clock(|who|)) && AllPast(ts, clock, |who|)
    requires rows != [] && n < |ts|
    ensures |rows[|rows| - 1].values| == |ts| && rows[|rows| - 1].values[n] == 0
  {
    LinesAreMergeable(g, events, titles, ts);
    EndsWithLast(ts, clock, who, rows, n);
    LineEndsAtZero(g, jobs, events, order, titles[n]);
  }
}
