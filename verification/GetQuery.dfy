/**
 The query by which `Get` chooses the next order, operator by operator, and
 the simple rule that it amounts to.
 */
module GetQuery {
  import opened Options
  import opened Tables

  // ----- The query

  /** One row of the sub-select active_or_done. */
  datatype Attempt = Attempt(order: Id, done: bool, expires: Time)

  type JoinedRow = ((OrderRow, Option<BatchRow>), Option<Attempt>)

  ghost function LeasesOf(db: Db, order: Id): set<Id> {
    set l | l in db.leases && db.leases[l].order == order
  }

  /** SELECT order_id, MAX(CAST(done AS INT))>0, MAX(expires) of one group. */
  ghost function AttemptOf(db: Db, order: Id): Attempt
    requires LeasesOf(db, order) != {}
  {
    var rows := LeasesOf(db, order);
    Attempt(
      order,
      MaxOver(rows, l => if l in db.leases && db.leases[l].done then 1 else 0) > 0,
      MaxOver(rows, l => if l in db.leases then db.leases[l].expires else 0))
  }

  /** FROM leases GROUP BY order_id */
  ghost function Attempts(db: Db): set<Attempt> {
    set o | o in (set l | l in db.leases :: db.leases[l].order) && LeasesOf(db, o) != {} :: AttemptOf(db, o)
  }

  ghost function Joined(db: Db): set<JoinedRow> {
    LeftJoin(
      LeftJoin(OrdersTable(db), BatchTable(db), (o: OrderRow, b: BatchRow) => o.1.batch == Some(b.0)),
      Attempts(db),
      (ob: (OrderRow, Option<BatchRow>), a: Attempt) => ob.0.0 == a.order)
  }

  /** The WHERE clause. */
  predicate Wanted(r: JoinedRow, now: Time) {
    || r.1.None?
    || (!r.1.value.done && r.1.value.expires < now)
  }

  ghost function Candidates(db: Db, now: Time): set<JoinedRow> {
    set r | r in Joined(db) && Wanted(r, now)
  }

  /** GROUP BY batch.batch_id; the NULLs of all orders without a batch form one group. */
  ghost function Groups(db: Db, now: Time): set<Option<BatchRow>> {
    set r | r in Candidates(db, now) :: r.0.1
  }

  ghost function Members(db: Db, now: Time, group: Option<BatchRow>): set<Id> {
    set r | r in Candidates(db, now) && r.0.1 == group :: r.0.0.0
  }

  /** ORDER BY batch.ctime, where the database puts NULLs last. */
  predicate CtimeLe(a: Option<BatchRow>, b: Option<BatchRow>) {
    b.None? || (a.Some? && a.value.1 <= b.value.1)
  }

  ghost predicate FirstGroup(db: Db, now: Time, group: Option<BatchRow>) {
    && group in Groups(db, now)
    && forall g :: g in Groups(db, now) ==> CtimeLe(group, g)
  }

  /** `out` is an answer of the query; LIMIT 1 may pick any of several groups that tie. */
  ghost predicate NextOrder(db: Db, now: Time, out: Option<Id>) {
    match out
    case None => Groups(db, now) == {}
    case Some(o) =>
      exists g :: FirstGroup(db, now, g) && Members(db, now, g) != {} && o == MinText(Members(db, now, g))
  }

  // ----- The rule

  /** Nobody finished the order, and nobody still holds it. */
  ghost predicate Eligible(db: Db, now: Time, order: Id) {
    && order in db.orders
    && forall l :: l in db.leases && db.leases[l].order == order ==>
         !db.leases[l].done && db.leases[l].expires < now
  }

  function BatchOf(db: Db, order: Id): Option<BatchRow>
    requires order in db.orders
  {
    match db.orders[order].batch
    case None => None
    case Some(b) => if b in db.batches then Some((b, db.batches[b])) else None
  }

  predicate HasBatch(db: Db, order: Id) {
    order in db.orders && db.orders[order].batch.Some? && db.orders[order].batch.value in db.batches
  }

  /** The two orders have the same batch, or neither has any. */
  predicate SameBatch(db: Db, a: Id, b: Id)
    requires a in db.orders && b in db.orders
  {
    if HasBatch(db, a) then db.orders[b].batch == db.orders[a].batch else !HasBatch(db, b)
  }

  /** Oldest batch first and batchless orders last; within a batch, the textually least order. */
  ghost predicate FirstInLine(db: Db, now: Time, order: Id) {
    && Eligible(db, now, order)
    && (forall o :: Eligible(db, now, o) && HasBatch(db, o) ==>
          HasBatch(db, order) && db.batches[db.orders[order].batch.value] <= db.batches[db.orders[o].batch.value])
    && (forall o :: Eligible(db, now, o) && SameBatch(db, order, o) ==> NotAfter(order, o))
  }

  /** The same in terms of groups. */
  ghost predicate FirstByGroup(db: Db, now: Time, order: Id) {
    && Eligible(db, now, order)
    && forall o :: Eligible(db, now, o) ==>
         && CtimeLe(BatchOf(db, order), BatchOf(db, o))
         && (BatchOf(db, order) == BatchOf(db, o) ==> TextLe(order, o))
  }

  lemma FirstByGroupMeans(db: Db, now: Time, order: Id)
    ensures FirstByGroup(db, now, order) <==> FirstInLine(db, now, order)
  {
    if Eligible(db, now, order) {
      forall o | Eligible(db, now, o)
        ensures CtimeLe(BatchOf(db, order), BatchOf(db, o)) <==>
          (HasBatch(db, o) ==> HasBatch(db, order) && db.batches[db.orders[order].batch.value] <= db.batches[db.orders[o].batch.value])
        ensures BatchOf(db, order) == BatchOf(db, o) <==> SameBatch(db, order, o)
        ensures TextLe(order, o) <==> NotAfter(order, o)
      {
        if TextLe(order, o) {
          TextLeIsNotAfter(order, o);
        }
        if NotAfter(order, o) {
          NotAfterIsTextLe(order, o);
        }
      }
    }
  }

  ghost predicate Rule(db: Db, now: Time, out: Option<Id>) {
    match out
    case None => forall o :: !Eligible(db, now, o)
    case Some(o) => FirstInLine(db, now, o)
  }

  // ----- The query implements the rule

  ghost function RowOf(db: Db, order: Id): JoinedRow
    requires order in db.orders
  {
    (((order, db.orders[order]), BatchOf(db, order)),
     if LeasesOf(db, order) == {} then None else Some(AttemptOf(db, order)))
  }

  lemma AttemptsByOrder(db: Db, a: Attempt)
    ensures a in Attempts(db) <==> LeasesOf(db, a.order) != {} && a == AttemptOf(db, a.order)
  {
    if LeasesOf(db, a.order) != {} {
      var l :| l in LeasesOf(db, a.order);
      assert db.leases[l].order == a.order;
    }
  }

  /** The joins neither drop nor duplicate an order. */
  lemma OneRowPerOrder(db: Db, r: JoinedRow)
    ensures r in Joined(db) <==> r.0.0.0 in db.orders && r == RowOf(db, r.0.0.0)
  {
    forall a: Attempt ensures a in Attempts(db) <==> LeasesOf(db, a.order) != {} && a == AttemptOf(db, a.order) {
      AttemptsByOrder(db, a);
    }
    var left := LeftJoin(OrdersTable(db), BatchTable(db), (o: OrderRow, b: BatchRow) => o.1.batch == Some(b.0));
    assert r.0 in left <==> r.0.0.0 in db.orders && r.0 == ((r.0.0.0, db.orders[r.0.0.0]), BatchOf(db, r.0.0.0)) by {
      BatchJoin(db, r.0);
    }
    var o := r.0.0.0;
    if LeasesOf(db, o) != {} {
      assert AttemptOf(db, o) in Attempts(db) by { AttemptsByOrder(db, AttemptOf(db, o)); }
    }
  }

  lemma BatchJoin(db: Db, ob: (OrderRow, Option<BatchRow>))
    ensures ob in LeftJoin(OrdersTable(db), BatchTable(db), (o: OrderRow, b: BatchRow) => o.1.batch == Some(b.0))
       <==> ob.0.0 in db.orders && ob == ((ob.0.0, db.orders[ob.0.0]), BatchOf(db, ob.0.0))
  {
    var o := ob.0.0;
    if o in db.orders {
      assert (o, db.orders[o]) in OrdersTable(db);
      if db.orders[o].batch.Some? && db.orders[o].batch.value in db.batches {
        var b := db.orders[o].batch.value;
        assert (b, db.batches[b]) in BatchTable(db);
      }
    }
  }

  lemma WantedMeansEligible(db: Db, now: Time, order: Id)
    requires order in db.orders
    ensures Wanted(RowOf(db, order), now) <==> Eligible(db, now, order)
  {
    assert forall l :: l in db.leases && db.leases[l].order == order ==> l in LeasesOf(db, order);
  }

  lemma CandidatesAreEligible(db: Db, now: Time, r: JoinedRow)
    ensures r in Candidates(db, now) <==> Eligible(db, now, r.0.0.0) && r == RowOf(db, r.0.0.0)
  {
    OneRowPerOrder(db, r);
    if r.0.0.0 in db.orders {
      WantedMeansEligible(db, now, r.0.0.0);
    }
  }

  lemma MembersAreEligible(db: Db, now: Time, group: Option<BatchRow>, o: Id)
    ensures o in Members(db, now, group) <==> Eligible(db, now, o) && BatchOf(db, o) == group
  {
    forall r: JoinedRow ensures r in Candidates(db, now) <==> Eligible(db, now, r.0.0.0) && r == RowOf(db, r.0.0.0) {
      CandidatesAreEligible(db, now, r);
    }
    if Eligible(db, now, o) {
      assert RowOf(db, o) in Candidates(db, now);
    }
  }

  lemma GroupsAreBatches(db: Db, now: Time, group: Option<BatchRow>)
    ensures group in Groups(db, now) <==> exists o :: Eligible(db, now, o) && BatchOf(db, o) == group
  {
    if group in Groups(db, now) {
      var r :| r in Candidates(db, now) && r.0.1 == group;
      CandidatesAreEligible(db, now, r);
      assert Eligible(db, now, r.0.0.0) && BatchOf(db, r.0.0.0) == group;
    }
    if o :| Eligible(db, now, o) && BatchOf(db, o) == group {
      CandidatesAreEligible(db, now, RowOf(db, o));
      assert RowOf(db, o) in Candidates(db, now);
    }
  }

  /** The nested aggregate query and the rule admit exactly the same answers. */
  lemma QueryIsRule(db: Db, now: Time, out: Option<Id>)
    ensures NextOrder(db, now, out) <==> Rule(db, now, out)
  {
    forall g ensures g in Groups(db, now) <==> exists o :: Eligible(db, now, o) && BatchOf(db, o) == g {
      GroupsAreBatches(db, now, g);
    }
    match out
    case None =>
      if o :| Eligible(db, now, o) {
        assert BatchOf(db, o) in Groups(db, now);
      }
    case Some(o) =>
      FirstByGroupMeans(db, now, o);
      if NextOrder(db, now, out) { QueryObeysRule(db, now, o); }
      if Rule(db, now, out) { RuleIsAnswer(db, now, o); }
  }

  lemma AnswerObeysRule(db: Db, now: Time, out: Option<Id>)
    requires NextOrder(db, now, out)
    ensures out.None? <==> forall o :: !Eligible(db, now, o)
    ensures out.Some? ==> FirstInLine(db, now, out.value)
  {
    QueryIsRule(db, now, out);
  }

  lemma QueryObeysRule(db: Db, now: Time, o: Id)
    requires NextOrder(db, now, Some(o))
    ensures FirstByGroup(db, now, o)
  {
    var g :| FirstGroup(db, now, g) && Members(db, now, g) != {} && o == MinText(Members(db, now, g));
    MembersAreEligible(db, now, g, o);
    forall o' | Eligible(db, now, o')
      ensures CtimeLe(BatchOf(db, o), BatchOf(db, o'))
      ensures BatchOf(db, o) == BatchOf(db, o') ==> TextLe(o, o')
    {
      GroupsAreBatches(db, now, BatchOf(db, o'));
      MembersAreEligible(db, now, g, o');
    }
  }

  lemma RuleIsAnswer(db: Db, now: Time, o: Id)
    requires FirstByGroup(db, now, o)
    ensures NextOrder(db, now, Some(o))
  {
    var g := BatchOf(db, o);
    GroupsAreBatches(db, now, g);
    forall g' | g' in Groups(db, now) ensures CtimeLe(g, g') {
      GroupsAreBatches(db, now, g');
    }
    forall o' ensures o' in Members(db, now, g) <==> Eligible(db, now, o') && BatchOf(db, o') == g {
      MembersAreEligible(db, now, g, o');
    }
    assert o in Members(db, now, g);
    MinTextUnique(o, Members(db, now, g));
    assert FirstGroup(db, now, g);
  }

  /** The query never leaves eligible work waiting: when there is any, it answers with an order. */
  lemma QueryFindsWork(db: Db, now: Time)
    ensures (exists o :: Eligible(db, now, o)) <==> (exists o :: NextOrder(db, now, Some(o)))
  {
    if o :| Eligible(db, now, o) {
      GroupsAreBatches(db, now, BatchOf(db, o));
      var g := FirstOf(Groups(db, now));
      GroupsAreBatches(db, now, g);
      var o' :| Eligible(db, now, o') && BatchOf(db, o') == g;
      MembersAreEligible(db, now, g, o');
      assert FirstGroup(db, now, g);
      assert NextOrder(db, now, Some(MinText(Members(db, now, g))));
    }
    if o :| NextOrder(db, now, Some(o)) {
      QueryObeysRule(db, now, o);
    }
  }

  lemma FirstOf(groups: set<Option<BatchRow>>) returns (first: Option<BatchRow>)
    requires groups != {}
    ensures first in groups
    ensures forall g :: g in groups ==> CtimeLe(first, g)
  {
    first :| first in groups;
    var rest := groups - {first};
    assert forall g :: g in groups ==> g == first || g in rest;
    if rest != {} {
      var other := FirstOf(rest);
      if CtimeLe(other, first) {
        first := other;
      }
    }
  }

  /** An order of which some lease is done, or is still live, is not handed out. */
  lemma NotHandedOut(db: Db, now: Time, lease: Id)
    requires lease in db.leases
    requires db.leases[lease].done || db.leases[lease].Live(now)
    ensures !NextOrder(db, now, Some(db.leases[lease].order))
  {
    QueryIsRule(db, now, Some(db.leases[lease].order));
  }
}
