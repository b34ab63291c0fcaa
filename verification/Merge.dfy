/** Several time series become one table, with a row for every change of one of them. */
module Merge {
  import opened Options

  datatype Point = Point(time: int, value: int)

  type Series = seq<Point>

  datatype Row = Row(time: int, values: seq<int>)

  // Which streams advanced, in order, says everything about a run of the loop.

  /** How many times stream `n` has advanced. */
  function Pos(who: seq<nat>, n: nat): (p: nat)
    ensures p <= |who|
  {
    if who == [] then 0 else Pos(who[..|who| - 1], n) + if who[|who| - 1] == n then 1 else 0
  }

  /** Stream `n` has a next point, and it is in the past. */
  predicate CanAdvance(ts: seq<Series>, who: seq<nat>, now: int, n: nat) {
    n < |ts| && Pos(who, n) + 1 < |ts[n]| && ts[n][Pos(who, n) + 1].time < now
  }

  function NextTime(ts: seq<Series>, who: seq<nat>, n: nat): int
    requires n < |ts| && Pos(who, n) + 1 < |ts[n]|
  {
    ts[n][Pos(who, n) + 1].time
  }

  /** Stream `s` has the earliest next point, and is the first such stream. */
  ghost predicate IsNext(ts: seq<Series>, who: seq<nat>, now: int, s: nat) {
    && CanAdvance(ts, who, now, s)
    && forall n :: 0 <= n < |ts| && CanAdvance(ts, who, now, n) ==>
      NextTime(ts, who, s) < NextTime(ts, who, n) || (NextTime(ts, who, s) == NextTime(ts, who, n) && s <= n)
  }

  ghost predicate Stuck(ts: seq<Series>, who: seq<nat>, now: int) {
    forall n :: 0 <= n < |ts| ==> !CanAdvance(ts, who, now, n)
  }

  /** The time is asked for anew before each step. */
  ghost predicate IsRun(ts: seq<Series>, clock: nat -> int, who: seq<nat>) {
    who == [] || (
      var k := |who| - 1;
      IsRun(ts, clock, who[..k]) && IsNext(ts, who[..k], clock(k), who[k]))
  }

  ghost predicate NonEmpty(ts: seq<Series>) {
    forall n :: 0 <= n < |ts| ==> ts[n] != []
  }

  ghost predicate Inside(ts: seq<Series>, who: seq<nat>) {
    forall n :: 0 <= n < |ts| ==> Pos(who, n) < |ts[n]|
  }

  function Values(ts: seq<Series>, who: seq<nat>): seq<int>
    requires Inside(ts, who)
  {
    seq(|ts|, n requires 0 <= n < |ts| => ts[n][Pos(who, n)].value)
  }

  /** The row for the last of the steps. */
  function RowAfter(ts: seq<Series>, who: seq<nat>): Row
    requires Inside(ts, who) && who != [] && who[|who| - 1] < |ts|
  {
    var s := who[|who| - 1];
    Row(ts[s][Pos(who, s)].time, Values(ts, who))
  }

  function FirstRow(ts: seq<Series>, s: nat): Row
    requires Inside(ts, []) && s < |ts|
  {
    Row(ts[s][0].time, Values(ts, []))
  }

  lemma {:induction false} RunStaysInside(ts: seq<Series>, clock: nat -> int, who: seq<nat>)
    requires NonEmpty(ts) && IsRun(ts, clock, who)
    ensures Inside(ts, who)
  {
    if who != [] {
      RunStaysInside(ts, clock, who[..|who| - 1]);
    }
  }

  lemma {:induction false} PrefixIsRun(ts: seq<Series>, clock: nat -> int, who: seq<nat>, k: nat)
    requires IsRun(ts, clock, who) && k <= |who|
    ensures IsRun(ts, clock, who[..k])
    ensures k < |who| ==> IsNext(ts, who[..k], clock(k), who[k])
  {
    if k < |who| {
      var last := |who| - 1;
      assert who[..last][..k] == who[..k];
      PrefixIsRun(ts, clock, who[..last], k);
      if k < last {
        assert who[..last][k] == who[k];
      }
    } else {
      assert who[..k] == who;
    }
  }

  /** The rows are those of the run, one for each step and one before the first. */
  ghost predicate AreRows(ts: seq<Series>, clock: nat -> int, who: seq<nat>, rows: seq<Row>) {
    && IsRun(ts, clock, who)
    && if who == [] then rows == [] else
       && |rows| == |who| + 1
       && who[0] < |ts| && Inside(ts, []) && rows[0] == FirstRow(ts, who[0])
       && forall k :: 0 < k < |rows| ==> IsRow(ts, who[..k], rows[k])
  }

  ghost predicate IsRow(ts: seq<Series>, who: seq<nat>, row: Row) {
    Inside(ts, who) && who != [] && who[|who| - 1] < |ts| && row == RowAfter(ts, who)
  }

  lemma NextMeans(ts: seq<Series>, who: seq<nat>, now: int, s: nat, n: nat)
    requires IsNext(ts, who, now, s) && n < |ts| && Pos(who, n) + 1 < |ts[n]|
    ensures s < |ts| && Pos(who, s) + 1 < |ts[s]|
    ensures
      var min, time := ts[s][Pos(who, s) + 1].time, ts[n][Pos(who, n) + 1].time;
      min < now && (min < time || (min == time && s <= n))
  {
    if CanAdvance(ts, who, now, n) {
      assert NextTime(ts, who, s) < NextTime(ts, who, n) || (NextTime(ts, who, s) == NextTime(ts, who, n) && s <= n);
    }
  }

  lemma StuckMeans(ts: seq<Series>, who: seq<nat>, now: int, n: nat)
    requires Stuck(ts, who, now) && n < |ts| && Pos(who, n) + 1 < |ts[n]|
    ensures ts[n][Pos(who, n) + 1].time >= now
  {
    assert !CanAdvance(ts, who, now, n);
  }

  // flip

  /** The search for the stream to advance. */
  method FindNext(ts: seq<Series>, pos: array<nat>, ghost who: seq<nat>, now: int) returns (minStream: int, min: int)
    requires pos.Length == |ts| && forall n :: 0 <= n < |ts| ==> pos[n] == Pos(who, n)
    ensures minStream == -1 ==> Stuck(ts, who, now)
    ensures minStream != -1 ==> 0 <= minStream && IsNext(ts, who, now, minStream) && min == NextTime(ts, who, minStream)
    ensures minStream == -1 ==> forall n :: 0 <= n < |ts| && pos[n] + 1 < |ts[n]| ==> ts[n][pos[n] + 1].time >= now
    ensures minStream != -1 ==>
      && minStream < |ts| && pos[minStream] + 1 < |ts[minStream]|
      && min == ts[minStream][pos[minStream] + 1].time && min < now
      && forall n :: 0 <= n < |ts| && pos[n] + 1 < |ts[n]| ==>
           min < ts[n][pos[n] + 1].time || (min == ts[n][pos[n] + 1].time && minStream <= n)
  {
    minStream, min := -1, now;
    for n := 0 to |ts|
      invariant minStream == -1 ==> min == now && forall j :: 0 <= j < n ==> !CanAdvance(ts, who, now, j)
      invariant minStream != -1 ==> 0 <= minStream < n && CanAdvance(ts, who, now, minStream) && min == NextTime(ts, who, minStream)
      invariant minStream != -1 ==> forall j :: 0 <= j < n && CanAdvance(ts, who, now, j) ==>
        min < NextTime(ts, who, j) || (min == NextTime(ts, who, j) && minStream <= j)
    {
      var try := pos[n] + 1;
      if try < |ts[n]| && min > ts[n][try].time {
        minStream := n;
        min := ts[n][try].time;
      }
    }
    forall n | 0 <= n < |ts| && pos[n] + 1 < |ts[n]|
      ensures minStream == -1 ==> ts[n][pos[n] + 1].time >= now
      ensures minStream != -1 ==> min < ts[n][pos[n] + 1].time || (min == ts[n][pos[n] + 1].time && minStream <= n)
    {
      if minStream == -1 {
        StuckMeans(ts, who, now, n);
      } else {
        NextMeans(ts, who, now, minStream, n);
      }
    }
  }

  method ReadValues(ts: seq<Series>, pos: array<nat>, ghost who: seq<nat>) returns (vs: seq<int>)
    requires pos.Length == |ts| && forall n :: 0 <= n < |ts| ==> pos[n] == Pos(who, n)
    requires Inside(ts, who)
    ensures vs == Values(ts, who)
  {
    vs := [];
    for n := 0 to |ts|
      invariant vs == Values(ts, who)[..n]
    {
      vs := vs + [ts[n][pos[n]].value];
    }
  }

  /** How many steps are left at most. */
  function Left(ts: seq<Series>, who: seq<nat>, k: nat): int
    requires k <= |ts|
  {
    if k == 0 then 0 else Left(ts, who, k - 1) + |ts[k - 1]| - 1 - Pos(who, k - 1)
  }

  lemma {:induction false} LeftAfter(ts: seq<Series>, who: seq<nat>, s: nat, k: nat)
    requires k <= |ts|
    ensures Left(ts, who + [s], k) == Left(ts, who, k) - if s < k then 1 else 0
  {
    if k > 0 {
      LeftAfter(ts, who, s, k - 1);
      assert (who + [s])[..|who|] == who;
    }
  }

  lemma {:induction false} LeftIsNat(ts: seq<Series>, who: seq<nat>, k: nat)
    requires k <= |ts| && Inside(ts, who)
    ensures Left(ts, who, k) >= 0
  {
    if k > 0 {
      LeftIsNat(ts, who, k - 1);
    }
  }

  lemma OneMoreStep(ts: seq<Series>, clock: nat -> int, who: seq<nat>, s: nat)
    requires NonEmpty(ts) && IsRun(ts, clock, who) && IsNext(ts, who, clock(|who|), s)
    ensures IsRun(ts, clock, who + [s]) && Inside(ts, who + [s])
    ensures forall n :: 0 <= n < |ts| ==> Pos(who + [s], n) == Pos(who, n) + if n == s then 1 else 0
  {
    assert (who + [s])[..|who|] == who;
    RunStaysInside(ts, clock, who + [s]);
  }

  lemma OneMoreRow(ts: seq<Series>, clock: nat -> int, who: seq<nat>, rows: seq<Row>, s: nat, first: Row, row: Row)
    requires AreRows(ts, clock, who, rows) && IsRun(ts, clock, who + [s])
    requires IsRow(ts, who + [s], row)
    requires who == [] ==> Inside(ts, []) && s < |ts| && first == FirstRow(ts, s)
    ensures AreRows(ts, clock, who + [s], (if who == [] then [first] else rows) + [row])
  {
    var more := who + [s];
    var rows' := (if who == [] then [first] else rows) + [row];
    forall k | 0 < k < |rows'|
      ensures IsRow(ts, more[..k], rows'[k])
    {
      if k <= |who| {
        assert more[..k] == who[..k];
      } else {
        assert more[..k] == more;
      }
    }
  }

  /**
   The outer loop. With an empty stream it crashes as soon as any stream can advance.
   */
  method Flip(ts: seq<Series>, clock: nat -> int) returns (rows: Option<seq<Row>>, ghost who: seq<nat>)
    ensures rows.None? <==> !NonEmpty(ts) && !Stuck(ts, [], clock(0))
    ensures rows.Some? ==> AreRows(ts, clock, who, rows.value) && Stuck(ts, who, clock(|who|))
  {
    who := [];
    var pos := new nat[|ts|](_ => 0);
    var ret: seq<Row> := [];
    var first, step := true, 0;
    while true
      invariant step == |who|
      invariant pos.Length == |ts| && forall n :: 0 <= n < |ts| ==> pos[n] == Pos(who, n)
      invariant first <==> who == []
      invariant who != [] ==> NonEmpty(ts)
      invariant NonEmpty(ts) ==> Inside(ts, who)
      invariant AreRows(ts, clock, who, ret)
      decreases if who == [] then 1 else 0, Left(ts, who, |ts|)
    {
      var minStream, min := FindNext(ts, pos, who, clock(step));
      if minStream == -1 {
        return Some(ret), who;
      }
      if IsEmptyStream(ts) {
        return None, who;
      }
      ghost var before := who;
      OneMoreStep(ts, clock, who, minStream);
      LeftAfter(ts, who, minStream, |ts|);
      who := who + [minStream];
      LeftIsNat(ts, who, |ts|);
      var start: seq<Row> := ret;
      if first {
        var vs := ReadValues(ts, pos, before);
        start := [Row(ts[minStream][pos[minStream]].time, vs)];
      }
      pos[minStream] := pos[minStream] + 1;
      var vs := ReadValues(ts, pos, who);
      OneMoreRow(ts, clock, before, ret, minStream, if first then start[0] else FirstRow(ts, minStream), Row(min, vs));
      ret := start + [Row(min, vs)];
      first, step := false, step + 1;
    }
  }

  /** Reading the current value of an empty stream is what would crash. */
  predicate IsEmptyStream(ts: seq<Series>)
    ensures IsEmptyStream(ts) <==> !NonEmpty(ts)
  {
    exists n :: 0 <= n < |ts| && ts[n] == []
  }

  /** An empty series does not come alone when it makes the merge crash. */
  lemma AloneIsSafe(t: Series, now: int)
    ensures NonEmpty([t]) || Stuck([t], [], now)
  {
  }

  const CRASHING := [[], [Point(0, 1), Point(1, 2)]]

  lemma EmptySeriesCrashes()
    ensures !NonEmpty(CRASHING) && !Stuck(CRASHING, [], 2)
  {
    assert CRASHING[0] == [];
    assert CanAdvance(CRASHING, [], 2, 1);
  }

  // What the table says

  predicate Sorted(t: seq<Point>) {
    forall i, j :: 0 <= i < j < |t| ==> t[i].time <= t[j].time
  }

  ghost predicate AllSorted(ts: seq<Series>) {
    forall n :: 0 <= n < |ts| ==> Sorted(ts[n])
  }

  lemma PosAfter(who: seq<nat>, k: nat, n: nat)
    requires k < |who|
    ensures Pos(who[..k + 1], n) == Pos(who[..k], n) + if who[k] == n then 1 else 0
  {
    assert who[..k + 1][..k] == who[..k];
  }

  /** Two steps in a row go to points in the order of time, even if the clock was read in between. */
  lemma TwoSteps(ts: seq<Series>, who: seq<nat>, now: int, r: nat, who': seq<nat>, now': int, s: nat)
    requires AllSorted(ts) && IsNext(ts, who, now, r) && IsNext(ts, who', now', s)
    requires Pos(who', s) == Pos(who, s) + if r == s then 1 else 0
    ensures NextTime(ts, who, r) <= NextTime(ts, who', s)
  {
    if r == s {
      assert Sorted(ts[s]);
    } else if CanAdvance(ts, who, now, s) {
      assert NextTime(ts, who', s) == NextTime(ts, who, s);
    }
  }

  /** The time of a row is that of the point to which its step went. */
  lemma RowTime(ts: seq<Series>, clock: nat -> int, who: seq<nat>, rows: seq<Row>, k: nat)
    requires NonEmpty(ts) && AreRows(ts, clock, who, rows) && k + 1 < |rows|
    ensures IsNext(ts, who[..k], clock(k), who[k])
    ensures rows[k + 1].time == NextTime(ts, who[..k], who[k])
  {
    PrefixIsRun(ts, clock, who, k);
    PosAfter(who, k, who[k]);
    assert IsRow(ts, who[..k + 1], rows[k + 1]);
    assert who[..k + 1][k] == who[k];
  }

  lemma FirstRowTime(ts: seq<Series>, clock: nat -> int, who: seq<nat>, rows: seq<Row>)
    requires NonEmpty(ts) && AreRows(ts, clock, who, rows) && rows != []
    ensures who[0] < |ts| && rows[0].time == ts[who[0]][0].time
  {
  }

  /** The first step goes to the second point of its stream. */
  lemma FirstStep(ts: seq<Series>, now: int, s: nat)
    requires NonEmpty(ts) && AllSorted(ts) && IsNext(ts, [], now, s)
    ensures ts[s][0].time <= NextTime(ts, [], s)
  {
    assert Sorted(ts[s]);
  }

  /** The rows are in the order of time. */
  lemma RowsAreSorted(ts: seq<Series>, clock: nat -> int, who: seq<nat>, rows: seq<Row>, k: nat)
    requires NonEmpty(ts) && AllSorted(ts) && AreRows(ts, clock, who, rows) && k + 1 < |rows|
    ensures rows[k].time <= rows[k + 1].time
  {
    RowTime(ts, clock, who, rows, k);
    if k > 0 {
      RowTime(ts, clock, who, rows, k - 1);
      PosAfter(who, k - 1, who[k]);
      TwoSteps(ts, who[..k - 1], clock(k - 1), who[k - 1], who[..k], clock(k), who[k]);
    } else {
      assert who[..0] == [];
      FirstRowTime(ts, clock, who, rows);
      FirstStep(ts, clock(0), who[0]);
    }
  }

  /** Each row differs from the one before in the one stream that advanced, by one point. */
  lemma OneStreamMoves(ts: seq<Series>, clock: nat -> int, who: seq<nat>, rows: seq<Row>, k: nat, n: nat)
    requires NonEmpty(ts) && AreRows(ts, clock, who, rows) && k + 1 < |rows| && n < |ts|
    ensures |rows[k].values| == |rows[k + 1].values| == |ts|
    ensures n != who[k] ==> rows[k + 1].values[n] == rows[k].values[n]
    ensures n == who[k] ==> Pos(who[..k], n) + 1 < |ts[n]| && rows[k + 1].values[n] == ts[n][Pos(who[..k], n) + 1].value
    ensures n == who[k] ==> rows[k + 1].time == ts[n][Pos(who[..k], n) + 1].time
  {
    PrefixIsRun(ts, clock, who, k);
    PosAfter(who, k, n);
    assert IsRow(ts, who[..k + 1], rows[k + 1]);
    assert who[..k + 1][k] == who[k];
    if k > 0 {
      assert IsRow(ts, who[..k], rows[k]);
    } else {
      assert who[..0] == [];
    }
  }

  /**
   Each step goes to the earliest of the points that come next, in the first
   of the streams that have it, and that point is in the past.
   */
  lemma EarliestMoves(ts: seq<Series>, clock: nat -> int, who: seq<nat>, rows: seq<Row>, k: nat, n: nat)
    requires NonEmpty(ts) && AreRows(ts, clock, who, rows) && k + 1 < |rows|
    ensures rows[k + 1].time < clock(k)
    ensures n < |ts| && Pos(who[..k], n) + 1 < |ts[n]| ==>
      var next := ts[n][Pos(who[..k], n) + 1].time;
      rows[k + 1].time < next || (rows[k + 1].time == next && who[k] <= n)
  {
    RowTime(ts, clock, who, rows, k);
    if n < |ts| && Pos(who[..k], n) + 1 < |ts[n]| {
      NextMeans(ts, who[..k], clock(k), who[k], n);
    }
  }

  /** What the rows below `k` that advance stream `n` have in its column, with their times. */
  function Column(rows: seq<Row>, who: seq<nat>, n: nat, k: nat): seq<Point>
    requires 0 < k <= |rows| == |who| + 1
    requires forall j :: 0 <= j < |rows| ==> n < |rows[j].values|
  {
    if k == 1 then []
    else if who[k - 2] == n then Column(rows, who, n, k - 1) + [Point(rows[k - 1].time, rows[k - 1].values[n])]
    else Column(rows, who, n, k - 1)
  }

  lemma RowsAreWide(ts: seq<Series>, clock: nat -> int, who: seq<nat>, rows: seq<Row>)
    requires AreRows(ts, clock, who, rows)
    ensures forall j :: 0 <= j < |rows| ==> |rows[j].values| == |ts|
  {
    forall j | 0 <= j < |rows|
      ensures |rows[j].values| == |ts|
    {
      if j > 0 {
        assert IsRow(ts, who[..j], rows[j]);
      }
    }
  }

  /** The column has the points of the stream up to where it is, each at its own time. */
  ghost predicate ColumnIs(ts: seq<Series>, who: seq<nat>, rows: seq<Row>, n: nat, k: nat)
    requires 0 < k <= |rows| == |who| + 1 && n < |ts|
    requires forall j :: 0 <= j < |rows| ==> |rows[j].values| == |ts|
  {
    && Pos(who[..k - 1], n) < |ts[n]|
    && Column(rows, who, n, k) == ts[n][1..Pos(who[..k - 1], n) + 1]
  }

  lemma ColumnNext(ts: seq<Series>, who: seq<nat>, rows: seq<Row>, n: nat, k: nat)
    requires 0 < k < |rows| == |who| + 1 && n < |ts|
    requires forall j :: 0 <= j < |rows| ==> |rows[j].values| == |ts|
    requires ColumnIs(ts, who, rows, n, k)
    requires n == who[k - 1] ==>
      && Pos(who[..k - 1], n) + 1 < |ts[n]|
      && Point(rows[k].time, rows[k].values[n]) == ts[n][Pos(who[..k - 1], n) + 1]
    ensures ColumnIs(ts, who, rows, n, k + 1)
  {
    PosAfter(who, k - 1, n);
    if who[k - 1] == n {
      NextPoint(ts[n], Pos(who[..k - 1], n));
    }
  }

  /** Below the first row, the column has the points of the stream up to where it is. */
  lemma {:induction false} ColumnIsStream(ts: seq<Series>, clock: nat -> int, who: seq<nat>, rows: seq<Row>, n: nat, k: nat)
    requires NonEmpty(ts) && AreRows(ts, clock, who, rows) && n < |ts| && 0 < k <= |rows|
    ensures forall j :: 0 <= j < |rows| ==> |rows[j].values| == |ts|
    ensures rows[0].values[n] == ts[n][0].value
    ensures ColumnIs(ts, who, rows, n, k)
  {
    RowsAreWide(ts, clock, who, rows);
    if k == 1 {
      assert who[..0] == [];
    } else {
      ColumnIsStream(ts, clock, who, rows, n, k - 1);
      OneStreamMoves(ts, clock, who, rows, k - 2, n);
      ColumnNext(ts, who, rows, n, k - 1);
    }
  }

  lemma NextPoint(t: seq<Point>, p: nat)
    requires p + 1 < |t|
    ensures t[1..p + 2] == t[1..p + 1] + [Point(t[p + 1].time, t[p + 1].value)]
  {
  }

  // How long it goes on

  ghost predicate AllPast(ts: seq<Series>, clock: nat -> int, steps: nat) {
    forall n, i :: 0 <= n < |ts| && 0 <= i < |ts[n]| ==> ts[n][i].time < clock(steps)
  }

  function Steps(ts: seq<Series>, k: nat): int
    requires k <= |ts|
  {
    if k == 0 then 0 else Steps(ts, k - 1) + |ts[k - 1]| - 1
  }

  lemma {:induction false} StepsAreLeft(ts: seq<Series>, clock: nat -> int, who: seq<nat>)
    requires IsRun(ts, clock, who)
    ensures Left(ts, who, |ts|) == Steps(ts, |ts|) - |who|
  {
    if who == [] {
      AllLeft(ts, |ts|);
    } else {
      var k := |who| - 1;
      StepsAreLeft(ts, clock, who[..k]);
      assert who[..k] + [who[k]] == who;
      LeftAfter(ts, who[..k], who[k], |ts|);
    }
  }

  lemma {:induction false} AllLeft(ts: seq<Series>, k: nat)
    requires k <= |ts|
    ensures Left(ts, [], k) == Steps(ts, k)
  {
    if k > 0 {
      AllLeft(ts, k - 1);
    }
  }

  lemma {:induction false} NoneLeft(ts: seq<Series>, who: seq<nat>, k: nat)
    requires k <= |ts| && forall n :: 0 <= n < |ts| ==> Pos(who, n) == |ts[n]| - 1
    ensures Left(ts, who, k) == 0
  {
    if k > 0 {
      NoneLeft(ts, who, k - 1);
    }
  }

  /** If all points are in the past when the run ends, every stream was followed to its end, and the rows are as many. */
  lemma MergeIsComplete(ts: seq<Series>, clock: nat -> int, who: seq<nat>, rows: seq<Row>)
    requires NonEmpty(ts) && AreRows(ts, clock, who, rows) && Stuck(ts, who, clock(|who|)) && AllPast(ts, clock, |who|)
    ensures forall n :: 0 <= n < |ts| ==> Pos(who, n) == |ts[n]| - 1
    ensures |who| == Steps(ts, |ts|)
    ensures |rows| == if Steps(ts, |ts|) == 0 then 0 else 1 + Steps(ts, |ts|)
  {
    RunStaysInside(ts, clock, who);
    forall n | 0 <= n < |ts|
      ensures Pos(who, n) == |ts[n]| - 1
    {
      assert !CanAdvance(ts, who, clock(|who|), n);
    }
    NoneLeft(ts, who, |ts|);
    StepsAreLeft(ts, clock, who);
  }

  /** The last row has the last value of every stream. */
  lemma EndsWithLast(ts: seq<Series>, clock: nat -> int, who: seq<nat>, rows: seq<Row>, n: nat)
    requires NonEmpty(ts) && AreRows(ts, clock, who, rows) && Stuck(ts, who, clock(|who|)) && AllPast(ts, clock, |who|)
    requires rows != [] && n < |ts|
    ensures |rows[|rows| - 1].values| == |ts| && rows[|rows| - 1].values[n] == ts[n][|ts[n]| - 1].value
  {
    MergeIsComplete(ts, clock, who, rows);
    assert IsRow(ts, who[..|rows| - 1], rows[|rows| - 1]);
    assert who[..|rows| - 1] == who;
  }

  /** So each column is its whole stream. */
  lemma ColumnsAreStreams(ts: seq<Series>, clock: nat -> int, who: seq<nat>, rows: seq<Row>, n: nat)
    requires NonEmpty(ts) && AreRows(ts, clock, who, rows) && Stuck(ts, who, clock(|who|)) && AllPast(ts, clock, |who|)
    requires n < |ts| && rows != []
    ensures forall j :: 0 <= j < |rows| ==> |rows[j].values| == |ts|
    ensures rows[0].values[n] == ts[n][0].value && Column(rows, who, n, |rows|) == ts[n][1..]
  {
    MergeIsComplete(ts, clock, who, rows);
    ColumnIsStream(ts, clock, who, rows, n, |rows|);
    assert who[..|who|] == who;
  }
}
