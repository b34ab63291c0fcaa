/**
 The query behind `Orders`, which joins two kinds of leases to each order and
 counts them in one go, so that the joins multiply the counts.
 */
module OrdersQuery {
  import opened Options
  import opened Tables
  import GetQuery

  datatype Filter = Filter(active: bool, done: bool, unstarted: bool)

  datatype OrderStat = OrderStat(order: Id, batch: Option<Id>, active: nat, done: nat)

  type OrderAndActive = (OrderRow, Option<LeaseRow>)
  type JoinedRow = (OrderAndActive, Option<LeaseRow>)

  // ----- The query

  ghost function ActiveLeases(db: Db, now: Time): set<LeaseRow> {
    set r | r in LeasesTable(db) && r.1.expires > now && !r.1.done
  }

  ghost function DoneLeases(db: Db): set<LeaseRow> {
    set r | r in LeasesTable(db) && r.1.done
  }

  ghost function Joined(db: Db, now: Time): set<JoinedRow> {
    LeftJoin(
      LeftJoin(OrdersTable(db), ActiveLeases(db, now), (o: OrderRow, l: LeaseRow) => o.0 == l.1.order),
      DoneLeases(db),
      (oa: OrderAndActive, l: LeaseRow) => oa.0.0 == l.1.order)
  }

  /** COUNT(activeleases.lease_id) of one group: the rows in which it is not NULL. */
  ghost function CountActive(db: Db, now: Time, order: Id): nat {
    |set r | r in Joined(db, now) && r.0.0.0 == order && r.0.1.Some?|
  }

  /** COUNT(doneleases.lease_id) of one group. */
  ghost function CountDone(db: Db, now: Time, order: Id): nat {
    |set r | r in Joined(db, now) && r.0.0.0 == order && r.1.Some?|
  }

  /** The HAVING clause that the request's flags are turned into. */
  predicate Having(f: Filter, active: nat, done: nat) {
    || (f.active && active > 0)
    || (f.done && done > 0)
    || (f.unstarted && active == 0 && done == 0)
  }

  /** SELECT ... GROUP BY orders.order_id HAVING ... */
  ghost function Selected(db: Db, now: Time, f: Filter): set<OrderStat> {
    set o | o in (set r | r in Joined(db, now) :: r.0.0.0) && o in db.orders
          && Having(f, CountActive(db, now, o), CountDone(db, now, o))
      :: OrderStat(o, db.orders[o].batch, CountActive(db, now, o), CountDone(db, now, o))
  }

  /** `out` is the selected rows in some order that ORDER BY done DESC, active DESC admits. */
  ghost predicate IsReply(db: Db, now: Time, f: Filter, out: seq<OrderStat>) {
    && (forall s :: s in out <==> s in Selected(db, now, f))
    && (forall i, j :: 0 <= i < j < |out| ==> out[i] != out[j])
    && (forall i, j :: 0 <= i < j < |out| ==>
          out[i].done > out[j].done || (out[i].done == out[j].done && out[i].active >= out[j].active))
  }

  // ----- What it counts

  ghost function ActiveOf(db: Db, now: Time, order: Id): set<LeaseRow> {
    set r | r in ActiveLeases(db, now) && r.1.order == order
  }

  ghost function DoneOf(db: Db, order: Id): set<LeaseRow> {
    set r | r in DoneLeases(db) && r.1.order == order
  }

  function AtLeastOne(n: nat): nat {
    if n == 0 then 1 else n
  }

  ghost function Pairs<X(!new), Y(!new)>(xs: set<X>, ys: set<Y>): set<(X, Y)> {
    set x, y | x in xs && y in ys :: (x, y)
  }

  lemma {:induction false} PairsCard<X(!new), Y(!new)>(xs: set<X>, ys: set<Y>)
    ensures |Pairs(xs, ys)| == |xs| * |ys|
  {
    if xs == {} {
      assert Pairs(xs, ys) == {};
    } else {
      var x :| x in xs;
      PairsCard(xs - {x}, ys);
      SplitPairs(xs, ys, x);
      OneMoreTimes(|xs - {x}|, |ys|);
    }
  }

  lemma SplitPairs<X(!new), Y(!new)>(xs: set<X>, ys: set<Y>, x: X)
    requires x in xs
    ensures |Pairs(xs, ys)| == |Pairs(xs - {x}, ys)| + |ys|
  {
    var slice := set y | y in ys :: (x, y);
    ImageCard(ys, (y: Y) => (x, y), slice);
    assert Pairs(xs, ys) == Pairs(xs - {x}, ys) + slice;
    assert Pairs(xs - {x}, ys) !! slice;
  }

  lemma OneMoreTimes(n: nat, c: nat)
    ensures (n + 1) * c == n * c + c
  {
  }

  lemma {:induction false} ImageCard<X(!new), Y(!new)>(xs: set<X>, f: X -> Y, image: set<Y>)
    requires forall x, x' :: x in xs && x' in xs && f(x) == f(x') ==> x == x'
    requires forall y :: y in image <==> exists x :: x in xs && f(x) == y
    ensures |image| == |xs|
  {
    if xs == {} {
      assert image == {};
    } else {
      var x :| x in xs;
      var image' := image - {f(x)};
      forall y | y in image' ensures exists x' :: x' in xs - {x} && f(x') == y {
        var x' :| x' in xs && f(x') == y;
        assert x' in xs - {x};
      }
      ImageCard(xs - {x}, f, image');
    }
  }

  /** The value of the joined column: every match, or one NULL if there is none. */
  ghost function Column(rows: set<LeaseRow>): set<Option<LeaseRow>> {
    if rows == {} then {None} else set r | r in rows :: Some(r)
  }

  lemma ColumnCard(rows: set<LeaseRow>)
    ensures |Column(rows)| == AtLeastOne(|rows|)
  {
    if rows != {} {
      ImageCard(rows, (r: LeaseRow) => Some(r), Column(rows));
    }
  }

  lemma JoinedRows(db: Db, now: Time, r: JoinedRow)
    ensures r in Joined(db, now) <==>
      && r.0.0 in OrdersTable(db)
      && r.0.1 in Column(ActiveOf(db, now, r.0.0.0))
      && r.1 in Column(DoneOf(db, r.0.0.0))
  {
    var o := r.0.0.0;
    var left := LeftJoin(OrdersTable(db), ActiveLeases(db, now), (o: OrderRow, l: LeaseRow) => o.0 == l.1.order);
    NoMatch(ActiveLeases(db, now), ActiveOf(db, now, o), o);
    NoMatch(DoneLeases(db), DoneOf(db, o), o);
    assert r.0 in left <==> r.0.0 in OrdersTable(db) && r.0.1 in Column(ActiveOf(db, now, o));
  }

  lemma NoMatch(rows: set<LeaseRow>, matching: set<LeaseRow>, order: Id)
    requires forall l :: l in matching <==> l in rows && l.1.order == order
    ensures (forall l | l in rows :: order != l.1.order) <==> matching == {}
  {
    if l :| l in rows && order == l.1.order {
      assert l in matching;
    }
  }

  lemma RowsOfOrder(db: Db, now: Time, order: Id, r: JoinedRow)
    requires order in db.orders
    ensures r in Joined(db, now) && r.0.0.0 == order <==>
      && r.0.0 == (order, db.orders[order])
      && r.0.1 in Column(ActiveOf(db, now, order))
      && r.1 in Column(DoneOf(db, order))
  {
    JoinedRows(db, now, r);
  }

  lemma CountsActive(db: Db, now: Time, order: Id)
    requires order in db.orders
    ensures CountActive(db, now, order) == |ActiveOf(db, now, order)| * AtLeastOne(|DoneOf(db, order)|)
  {
    var active, done := ActiveOf(db, now, order), DoneOf(db, order);
    var row := (order, db.orders[order]);
    var some := set l | l in active :: (row, Some(l));
    ImageCard(active, (l: LeaseRow) => (row, Some(l)), some);
    PairsCard(some, Column(done));
    ColumnCard(done);
    var counted := set r | r in Joined(db, now) && r.0.0.0 == order && r.0.1.Some?;
    forall r: JoinedRow ensures r in counted <==> r in Pairs(some, Column(done)) {
      RowsOfOrder(db, now, order, r);
    }
    assert counted == Pairs(some, Column(done));
  }

  lemma CountsDone(db: Db, now: Time, order: Id)
    requires order in db.orders
    ensures CountDone(db, now, order) == |DoneOf(db, order)| * AtLeastOne(|ActiveOf(db, now, order)|)
  {
    var active, done := ActiveOf(db, now, order), DoneOf(db, order);
    var row := (order, db.orders[order]);
    var any := set c | c in Column(active) :: (row, c);
    ImageCard(Column(active), (c: Option<LeaseRow>) => (row, c), any);
    ColumnCard(active);
    var some := set l | l in done :: Some(l);
    ImageCard(done, (l: LeaseRow) => Some(l), some);
    PairsCard(any, some);
    var counted := set r | r in Joined(db, now) && r.0.0.0 == order && r.1.Some?;
    forall r: JoinedRow ensures r in counted <==> r in Pairs(any, some) {
      RowsOfOrder(db, now, order, r);
    }
    assert counted == Pairs(any, some);
    Commute(|any|, |some|);
  }

  lemma Commute(a: int, b: int)
    ensures a * b == b * a
  {
  }

  /** With a active and d done leases, the joins report a * max(d, 1) and d * max(a, 1). */
  lemma JoinsMultiply(db: Db, now: Time, order: Id)
    requires order in db.orders
    ensures CountActive(db, now, order) == |ActiveOf(db, now, order)| * AtLeastOne(|DoneOf(db, order)|)
    ensures CountDone(db, now, order) == |DoneOf(db, order)| * AtLeastOne(|ActiveOf(db, now, order)|)
  {
    CountsActive(db, now, order);
    CountsDone(db, now, order);
  }

  // ----- What it lists

  lemma Listed(db: Db, now: Time, f: Filter, out: seq<OrderStat>, order: Id)
    requires IsReply(db, now, f, out)
    ensures (exists s :: s in out && s.order == order) <==>
      && order in db.orders
      && Having(f, CountActive(db, now, order), CountDone(db, now, order))
  {
    if order in db.orders {
      var row: JoinedRow := (((order, db.orders[order]),
                              if ActiveOf(db, now, order) == {} then None else SomeRow(ActiveOf(db, now, order))),
                             if DoneOf(db, order) == {} then None else SomeRow(DoneOf(db, order)));
      JoinedRows(db, now, row);
      assert row in Joined(db, now);
      assert row.0.0.0 == order;
      if Having(f, CountActive(db, now, order), CountDone(db, now, order)) {
        var s := OrderStat(order, db.orders[order].batch, CountActive(db, now, order), CountDone(db, now, order));
        assert s in Selected(db, now, f);
        assert s in out;
      }
    }
  }

  ghost function SomeRow(rows: set<LeaseRow>): (r: Option<LeaseRow>)
    requires rows != {}
    ensures r.Some? && r.value in rows
  {
    var l :| l in rows;
    Some(l)
  }

  /** Although the counts are multiplied, an order is listed exactly when its true counts say so. */
  lemma ListedByTrueCounts(db: Db, now: Time, f: Filter, out: seq<OrderStat>, order: Id)
    requires IsReply(db, now, f, out)
    ensures (exists s :: s in out && s.order == order) <==>
      && order in db.orders
      && Having(f, |ActiveOf(db, now, order)|, |DoneOf(db, order)|)
  {
    Listed(db, now, f, out, order);
    if order in db.orders {
      JoinsMultiply(db, now, order);
      ProductPositive(|ActiveOf(db, now, order)|, AtLeastOne(|DoneOf(db, order)|));
      ProductPositive(|DoneOf(db, order)|, AtLeastOne(|ActiveOf(db, now, order)|));
    }
  }

  /** The order's leases that are not done and expire in the future. */
  ghost function Running(db: Db, now: Time, order: Id): set<Id> {
    set l | l in db.leases && db.leases[l].order == order && !db.leases[l].done && db.leases[l].expires > now
  }

  /** Those that are done. */
  ghost function Finished(db: Db, order: Id): set<Id> {
    set l | l in db.leases && db.leases[l].order == order && db.leases[l].done
  }

  lemma RunningAreCounted(db: Db, now: Time, order: Id)
    ensures |ActiveOf(db, now, order)| == |Running(db, now, order)|
  {
    var rows := ActiveOf(db, now, order);
    forall l | l in Running(db, now, order) ensures (l, db.leases[l]) in rows {
      assert (l, db.leases[l]) in LeasesTable(db);
    }
    ImageCard(rows, (r: LeaseRow) => r.0, Running(db, now, order));
  }

  lemma FinishedAreCounted(db: Db, order: Id)
    ensures |DoneOf(db, order)| == |Finished(db, order)|
  {
    var rows := DoneOf(db, order);
    forall l | l in Finished(db, order) ensures (l, db.leases[l]) in rows {
      assert (l, db.leases[l]) in LeasesTable(db);
    }
    ImageCard(rows, (r: LeaseRow) => r.0, Finished(db, order));
  }

  /** Which orders are listed, for any flags, and what is reported of each. */
  lemma WhatIsListed(db: Db, now: Time, f: Filter, out: seq<OrderStat>, order: Id)
    requires IsReply(db, now, f, out)
    ensures
      var running, finished := |Running(db, now, order)|, |Finished(db, order)|;
      && ((exists s :: s in out && s.order == order) <==>
            order in db.orders
            && ((f.active && running > 0) || (f.done && finished > 0) || (f.unstarted && running == 0 && finished == 0)))
      && (forall s :: s in out && s.order == order ==>
            && order in db.orders && s.batch == db.orders[order].batch
            && s.active == running * (if finished == 0 then 1 else finished)
            && s.done == finished * (if running == 0 then 1 else running))
  {
    ListedByTrueCounts(db, now, f, out, order);
    RunningAreCounted(db, now, order);
    FinishedAreCounted(db, order);
    forall s | s in out && s.order == order
      ensures order in db.orders && s.batch == db.orders[order].batch
      ensures s.active == CountActive(db, now, order) && s.done == CountDone(db, now, order)
    {
      assert s in Selected(db, now, f);
    }
    if order in db.orders {
      JoinsMultiply(db, now, order);
    }
  }

  lemma ProductPositive(a: nat, b: nat)
    requires b > 0
    ensures a * b > 0 <==> a > 0
  {
  }

  /** No order is listed twice, and with all three flags every order is listed. */
  lemma ListedOnce(db: Db, now: Time, f: Filter, out: seq<OrderStat>)
    requires IsReply(db, now, f, out)
    ensures forall i, j :: 0 <= i < j < |out| ==> out[i].order != out[j].order
    ensures f == Filter(true, true, true) ==> forall o :: o in db.orders ==> exists s :: s in out && s.order == o
  {
    forall i, j | 0 <= i < j < |out| ensures out[i].order != out[j].order {
      assert out[i] in Selected(db, now, f) && out[j] in Selected(db, now, f);
    }
    if f == Filter(true, true, true) {
      forall o | o in db.orders ensures exists s :: s in out && s.order == o {
        Listed(db, now, f, out, o);
      }
    }
  }

  /** Listed as unstarted: no lease is done and none outlives this instant. */
  lemma UnstartedMeans(db: Db, now: Time, out: seq<OrderStat>, order: Id)
    requires IsReply(db, now, Filter(false, false, true), out)
    requires order in db.orders
    ensures (exists s :: s in out && s.order == order) <==>
      forall l :: l in db.leases && db.leases[l].order == order ==> !db.leases[l].done && db.leases[l].expires <= now
  {
    ListedByTrueCounts(db, now, Filter(false, false, true), out, order);
    forall l | l in db.leases && db.leases[l].order == order
      ensures (l, db.leases[l]) in ActiveOf(db, now, order) <==> !db.leases[l].done && db.leases[l].expires > now
      ensures (l, db.leases[l]) in DoneOf(db, order) <==> db.leases[l].done
    {
      assert (l, db.leases[l]) in LeasesTable(db);
    }
  }

  /**
   Every order that `Get` could hand out is listed as unstarted. The converse
   holds exactly unless the order has a lease that expires at this very
   instant: `Get` wants it strictly in the past, `Orders` strictly in the future.
   */
  lemma UnstartedVersusEligible(db: Db, now: Time, out: seq<OrderStat>, order: Id)
    requires IsReply(db, now, Filter(false, false, true), out)
    requires order in db.orders
    ensures GetQuery.Eligible(db, now, order) ==> exists s :: s in out && s.order == order
    ensures (exists s :: s in out && s.order == order) ==>
      (GetQuery.Eligible(db, now, order) <==>
         forall l :: l in db.leases && db.leases[l].order == order ==> db.leases[l].expires != now)
  {
    UnstartedMeans(db, now, out, order);
  }

  /** The order is in every listing of unstarted orders. */
  ghost predicate ListedAsUnstarted(db: Db, now: Time, order: Id) {
    forall out: seq<OrderStat> :: IsReply(db, now, Filter(false, false, true), out) ==> exists s :: s in out && s.order == order
  }

  lemma EligibleIsListed(db: Db, now: Time, order: Id)
    requires GetQuery.Eligible(db, now, order)
    ensures ListedAsUnstarted(db, now, order)
  {
    forall out: seq<OrderStat> | IsReply(db, now, Filter(false, false, true), out)
      ensures exists s :: s in out && s.order == order
    {
      UnstartedVersusEligible(db, now, out, order);
    }
  }

  // ----- The two queries do disagree

  const WITNESS_DB := Db(map[], map["o" := Order(None, None)], map["a" := Lease("o", false, false, 0, 0, 10, None)])
  const WITNESS_REPLY := [OrderStat("o", None, 0, 0)]

  /** At the instant at which its lease expires an order is listed as unstarted, but not handed out. */
  lemma ExpiringNow()
    ensures IsReply(WITNESS_DB, 10, Filter(false, false, true), WITNESS_REPLY)
    ensures forall o :: !GetQuery.Eligible(WITNESS_DB, 10, o)
  {
    var f := Filter(false, false, true);
    assert "a" in WITNESS_DB.leases;
    assert ActiveOf(WITNESS_DB, 10, "o") == {} && DoneOf(WITNESS_DB, "o") == {};
    JoinsMultiply(WITNESS_DB, 10, "o");
    var row: JoinedRow := ((("o", WITNESS_DB.orders["o"]), None), None);
    JoinedRows(WITNESS_DB, 10, row);
    assert row in Joined(WITNESS_DB, 10) && row.0.0.0 == "o";
    forall s
      ensures s in Selected(WITNESS_DB, 10, f) <==> s in WITNESS_REPLY
    {
      assert OrderStat("o", None, 0, 0) in Selected(WITNESS_DB, 10, f);
    }
  }
}
