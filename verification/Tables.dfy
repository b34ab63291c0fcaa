/** The scheduler's three tables and the operators that its queries are made of. */
module Tables {
  import opened Options

  /** Identifiers, as the text that the database casts a uuid to. */
  type Id = string

  /** Nanoseconds, as Go's clock counts them. */
  type Time = int

  /** `file` is the one field of the order's definition that matters here; None is a definition that does not parse. */
  datatype Order = Order(batch: Option<Id>, file: Option<string>)

  datatype Lease = Lease(
    order: Id,
    done: bool,
    failed: bool,
    created: Time,
    updated: Time,
    expires: Time,
    metadata: Option<string>)
  {
    /** The guard on every UPDATE of the table. */
    predicate Active() {
      !done && !failed
    }

    /** Neither done nor expired; note that a failed lease can be live. */
    predicate Live(now: Time) {
      !done && expires >= now
    }
  }

  /** `batches` maps a batch to its ctime. */
  datatype Db = Db(batches: map<Id, Time>, orders: map<Id, Order>, leases: map<Id, Lease>)

  /** What the schema's foreign keys demand. */
  predicate ForeignKeys(db: Db) {
    && (forall l :: l in db.leases ==> db.leases[l].order in db.orders)
    && (forall o :: o in db.orders && db.orders[o].batch.Some? ==> db.orders[o].batch.value in db.batches)
  }

  type OrderRow = (Id, Order)
  type BatchRow = (Id, Time)
  type LeaseRow = (Id, Lease)

  function OrdersTable(db: Db): set<OrderRow> {
    set o | o in db.orders :: (o, db.orders[o])
  }

  function BatchTable(db: Db): set<BatchRow> {
    set b | b in db.batches :: (b, db.batches[b])
  }

  function LeasesTable(db: Db): set<LeaseRow> {
    set l | l in db.leases :: (l, db.leases[l])
  }

  /** LEFT OUTER JOIN: every left row, with each right row it matches or with NULLs. */
  ghost function LeftJoin<A(!new), B(!new)>(xs: set<A>, ys: set<B>, on: (A, B) -> bool): set<(A, Option<B>)> {
    (set x, y | x in xs && y in ys && on(x, y) :: (x, Some(y)))
    + (set x | x in xs && (forall y | y in ys :: !on(x, y)) :: (x, None))
  }

  // ----- Text order

  /** The order in which MIN compares text. */
  predicate TextLe(a: string, b: string) {
    a == "" || (b != "" && (a[0] < b[0] || (a[0] == b[0] && TextLe(a[1..], b[1..]))))
  }

  lemma {:induction false} TextLeTotal(a: string, b: string)
    ensures TextLe(a, b) || TextLe(b, a)
  {
    if a != "" && b != "" && a[0] == b[0] {
      TextLeTotal(a[1..], b[1..]);
    }
  }

  lemma {:induction false} TextLeAntisymmetric(a: string, b: string)
    requires TextLe(a, b) && TextLe(b, a)
    ensures a == b
  {
    if a != "" {
      TextLeAntisymmetric(a[1..], b[1..]);
      assert a == [a[0]] + a[1..];
      assert b == [b[0]] + b[1..];
    }
  }

  lemma {:induction false} TextLeTransitive(a: string, b: string, c: string)
    requires TextLe(a, b) && TextLe(b, c)
    ensures TextLe(a, c)
  {
    if a != "" && a[0] == b[0] == c[0] {
      TextLeTransitive(a[1..], b[1..], c[1..]);
    }
  }

  /** `a` begins `b`, or is less where they first differ. */
  ghost predicate NotAfter(a: string, b: string) {
    a <= b || exists k :: 0 <= k < |a| && k < |b| && a[..k] == b[..k] && a[k] < b[k]
  }

  lemma FirstLess(a: string, b: string)
    requires a != "" && b != "" && a[0] < b[0]
    ensures NotAfter(a, b)
  {
    assert a[..0] == b[..0];
  }

  lemma RestNotAfter(a: string, b: string)
    requires a != "" && b != "" && a[0] == b[0] && NotAfter(a[1..], b[1..])
    ensures NotAfter(a, b)
  {
    var a', b' := a[1..], b[1..];
    if a' <= b' {
      assert a == [a[0]] + a' && b == [b[0]] + b';
    } else {
      var k :| 0 <= k < |a'| && k < |b'| && a'[..k] == b'[..k] && a'[k] < b'[k];
      assert a[..k + 1] == [a[0]] + a'[..k] && b[..k + 1] == [b[0]] + b'[..k];
      assert a[k + 1] == a'[k] && b[k + 1] == b'[k];
    }
  }

  lemma {:induction false} TextLeIsNotAfter(a: string, b: string)
    requires TextLe(a, b)
    ensures NotAfter(a, b)
  {
    if a == "" {
      assert a <= b;
    } else if a[0] < b[0] {
      FirstLess(a, b);
    } else {
      TextLeIsNotAfter(a[1..], b[1..]);
      RestNotAfter(a, b);
    }
  }

  lemma {:induction false} NotAfterIsTextLe(a: string, b: string)
    requires NotAfter(a, b)
    ensures TextLe(a, b)
  {
    if a != "" {
      if a <= b {
        assert a[1..] <= b[1..];
        NotAfterIsTextLe(a[1..], b[1..]);
      } else {
        var k :| 0 <= k < |a| && k < |b| && a[..k] == b[..k] && a[k] < b[k];
        if k > 0 {
          assert a[0] == a[..k][0] == b[..k][0] == b[0];
          LaterDifference(a, b, k);
          NotAfterIsTextLe(a[1..], b[1..]);
        }
      }
    }
  }

  lemma LaterDifference(a: string, b: string, k: nat)
    requires 0 < k < |a| && k < |b| && a[..k] == b[..k] && a[k] < b[k]
    ensures NotAfter(a[1..], b[1..])
  {
    assert a[1..][..k - 1] == a[..k][1..] && b[1..][..k - 1] == b[..k][1..];
    assert a[1..][k - 1] == a[k] && b[1..][k - 1] == b[k];
  }

  ghost predicate IsMinText(m: Id, s: set<Id>) {
    m in s && forall x :: x in s ==> TextLe(m, x)
  }

  /** MIN over text. */
  ghost function MinText(s: set<Id>): (m: Id)
    requires s != {}
    ensures IsMinText(m, s)
  {
    var x :| x in s;
    TextLeTotal(x, x);
    if s == {x} then x
    else
      var rest := s - {x};
      assert rest != {} by {
        assert exists y :: y in s && y != x;
      }
      var m := MinText(rest);
      TextLeTotal(x, m);
      if TextLe(x, m) then
        assert forall y | y in s :: TextLe(x, y) by {
          forall y | y in s ensures TextLe(x, y) {
            if y != x { TextLeTransitive(x, m, y); }
          }
        }
        x
      else m
  }

  lemma MinTextUnique(m: Id, s: set<Id>)
    requires IsMinText(m, s)
    ensures m == MinText(s)
  {
    TextLeAntisymmetric(m, MinText(s));
  }

  // ----- Aggregates

  /** MAX(f) over the rows of a group. */
  ghost function MaxOver(rows: set<Id>, f: Id -> int): (m: int)
    requires rows != {}
    ensures exists x :: x in rows && f(x) == m
    ensures forall x :: x in rows ==> f(x) <= m
  {
    var x :| x in rows;
    if rows == {x} then f(x)
    else
      var rest := rows - {x};
      assert rest != {} by {
        assert exists y :: y in rows && y != x;
      }
      var m := MaxOver(rest, f);
      assert forall y :: y in rows ==> y == x || y in rest;
      if f(x) > m then f(x) else m
  }
}
