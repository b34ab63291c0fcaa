/**
 The scheduler's RPC handlers, which edit the tables and the cloud storage in
 place. What other handlers do in between is interference, bounded by what
 every step of the state machine keeps.
 */
module SchedulerRpcs {
  import opened Options
  import opened Tables
  import opened ObjectPaths
  import opened LeaseMachine
  import opened Interference
  import GetQuery
  import OrdersQuery

  function AddIn(db: Db, order: Id, row: Order): Db {
    db.(orders := db.orders[order := row])
  }

  /** A new order waits to be handed out, and makes no difference to the others. */
  lemma AddedOrderWaits(db: Db, now: Time, order: Id, row: Order)
    requires order !in db.orders && ForeignKeys(db)
    ensures GetQuery.Eligible(AddIn(db, order, row), now, order)
    ensures OrdersQuery.ListedAsUnstarted(AddIn(db, order, row), now, order)
    ensures forall o :: o != order ==> (GetQuery.Eligible(AddIn(db, order, row), now, o) <==> GetQuery.Eligible(db, now, o))
  {
    OrdersQuery.EligibleIsListed(AddIn(db, order, row), now, order);
  }

  /** How the calls that leave the process turn out, and in which order the two uploads take their steps. */
  datatype Outcomes = Outcomes(renewed: bool, checked: bool, located: bool, png: Put, meta: Put, turns: seq<Part>, commit: Commit)

  /** Whether looking for the object succeeds, whether writing it takes effect, and whether the writer is told so. */
  datatype Put = Put(found: bool, lands: bool, ok: bool)

  datatype Commit = Commit(applied: bool, ok: bool)

  /** How many steps an upload still takes at most. */
  function Rest(up: Upload): nat {
    match up
    case Probing => 2
    case Writing => 1
    case Stored => 0
    case Broken => 0
  }

  predicate IsOpen(db: Db, lease: Id) {
    lease in db.leases && !db.leases[lease].done && !db.leases[lease].failed
  }

  /** Only the row of `lease` may differ. */
  predicate OnlyRow(db: Db, db': Db, lease: Id) {
    && db'.batches == db.batches && db'.orders == db.orders
    && db'.leases.Keys == db.leases.Keys
    && forall id :: id in db.leases && id != lease ==> db'.leases[id] == db.leases[id]
  }

  /** The lease that the last step found open is done, with these statistics and that step's time. */
  predicate Recorded(db: Db, lease: Id, stats: string, trace: seq<Took>) {
    && trace != []
    && var last := trace[|trace| - 1];
       && lease in db.leases && lease in last.before.db.leases
       && (IsOpen(last.before.db, lease) ==>
             db.leases[lease] == last.before.db.leases[lease].(done := true, updated := last.before.now, metadata := Some(stats)))
       && (!IsOpen(last.before.db, lease) ==> db.leases[lease] == last.before.db.leases[lease])
  }

  class Scheduler {
    const config: Config
    var db: Db
    var store: set<Path>
    var now: Time

    constructor (config: Config, batches: map<Id, Time>, now: Time)
      ensures this.config == config && this.now == now
      ensures db == Db(batches, map[], map[]) && store == {}
    {
      this.config := config;
      this.db := Db(batches, map[], map[]);
      this.store := {};
      this.now := now;
    }

    ghost function View(): Shared
      reads this
    {
      Shared(db, store, now)
    }

    /** Time passes, and other handlers run. All that callers know about it is this contract. */
    method Others()
      modifies this
      ensures Rely(old(View()), View())
    {
    }

    /** The database refuses an order of a batch that it does not know. */
    method Add(order: Id, row: Order) returns (ok: bool)
      requires order !in db.orders
      modifies this`db
      ensures ok <==> (row.batch.Some? ==> row.batch.value in old(db).batches)
      ensures db == if ok then old(db).(orders := old(db).orders[order := row]) else old(db)
      ensures ok ==> IsCall(config, Step.Add(order, row), old(View()), View())
      ensures ForeignKeys(old(db)) ==> ForeignKeys(db)
      ensures ForeignKeys(old(db)) && ok ==> GetQuery.Eligible(db, now, order) && OrdersQuery.ListedAsUnstarted(db, now, order)
      ensures forall o :: o != order ==> (GetQuery.Eligible(db, now, o) <==> GetQuery.Eligible(old(db), now, o))
    {
      ok := row.batch.Some? ==> row.batch.value in db.batches;
      if ok {
        if ForeignKeys(db) {
          AddedOrderWaits(db, now, order, row);
        }
        db := db.(orders := db.orders[order := row]);
      }
    }

    /** `picked` is the database's answer to the query. */
    method Get(lease: Id, picked: Option<Id>) returns (reply: Option<(Id, Id)>)
      requires lease !in db.leases
      requires GetQuery.NextOrder(db, now, picked)
      modifies this`db
      ensures reply.None? <==> forall o :: !GetQuery.Eligible(old(db), now, o)
      ensures reply.None? ==> db == old(db)
      ensures reply.Some? ==>
        && reply.value.0 == lease
        && GetQuery.FirstInLine(old(db), now, reply.value.1)
        && db == old(db).(leases := old(db).leases[lease := Lease(reply.value.1, false, false, now, now, now + config.defaultLease, None)])
        && IsCall(config, Step.Get(lease, reply.value.1), old(View()), View())
    {
      GetQuery.AnswerObeysRule(db, now, picked);
      if picked.None? {
        return None;
      }
      assert GetQuery.Eligible(db, now, picked.value);
      Issue(lease, picked.value);
      reply := Some((lease, picked.value));
    }

    /** The new lease is inserted. */
    method Issue(lease: Id, picked: Id)
      requires lease !in db.leases && GetQuery.NextOrder(db, now, Some(picked))
      modifies this`db
      ensures db == old(db).(leases := old(db).leases[lease := Lease(picked, false, false, now, now, now + config.defaultLease, None)])
      ensures IsCall(config, Step.Get(lease, picked), old(View()), View())
    {
      GetIsCall(config, View(), lease, picked);
      var row := Lease(picked, false, false, now, now, now + config.defaultLease, None);
      db := db.(leases := db.leases[lease := row]);
    }

    /** `applied` says whether the database carried the statement out. */
    method RenewLease(lease: Id, secs: int, applied: bool) returns (until: Time)
      modifies this`db
      ensures exists granted :: MayGrant(config, secs, granted) && until == now + 1_000_000_000 * granted
      ensures until == RenewedUntil(config, secs, now)
      ensures OnlyRow(old(db), db, lease)
      ensures applied && IsOpen(old(db), lease) ==> db.leases[lease] == old(db).leases[lease].(expires := until, updated := now)
      ensures !applied || !IsOpen(old(db), lease) ==> db == old(db)
      ensures db == if applied then RenewIn(old(db), lease, until, now) else old(db)
    {
      var granted := secs;
      if granted <= 0 {
        granted := WholeSeconds(config.defaultLease);
      }
      if granted > WholeSeconds(config.maxRenew) {
        granted := WholeSeconds(config.maxRenew);
      }
      if granted < WholeSeconds(config.minRenew) {
        granted := WholeSeconds(config.minRenew);
      }
      until := now + SECOND * granted;
      GrantedMay(config, secs);
      if applied && lease in db.leases && !db.leases[lease].done && !db.leases[lease].failed {
        var row := db.leases[lease].(updated := now, expires := until);
        db := db.(leases := db.leases[lease := row]);
      }
    }

    /** The reply carries the new expiry in whole seconds, cut off towards zero. */
    method Renew(lease: Id, secs: int) returns (newTimeoutSec: int)
      modifies this`db
      ensures exists granted ::
        && MayGrant(config, secs, granted)
        && IsWhole(newTimeoutSec, now + 1_000_000_000 * granted)
        && (IsOpen(old(db), lease) ==>
              lease in db.leases
              && db.leases[lease] == old(db).leases[lease].(expires := now + 1_000_000_000 * granted, updated := now))
      ensures OnlyRow(old(db), db, lease)
      ensures !IsOpen(old(db), lease) ==> db == old(db)
      ensures db == RenewIn(old(db), lease, RenewedUntil(config, secs, now), now)
      ensures IsCall(config, Step.Renew(lease, secs), old(View()), View())
    {
      var until := RenewLease(lease, secs, true);
      newTimeoutSec := WholeSeconds(until);
      WholeIsUnique(newTimeoutSec, until);
    }

    method Failed(lease: Id)
      modifies this`db
      ensures OnlyRow(old(db), db, lease)
      ensures IsOpen(old(db), lease) ==> db.leases[lease] == old(db).leases[lease].(failed := true, updated := now)
      ensures !IsOpen(old(db), lease) ==> db == old(db)
      ensures IsCall(config, Step.Failed(lease), old(View()), View())
    {
      if lease in db.leases && !db.leases[lease].done && !db.leases[lease].failed {
        var row := db.leases[lease].(failed := true, updated := now);
        db := db.(leases := db.leases[lease := row]);
      }
    }

    /** One step of one upload of saveToCloud: look for the object, or write it if it was not there. */
    method UploadStep(name: Path, up: Upload, put: Put) returns (up': Upload)
      requires up in {Probing, Writing}
      modifies this`store
      ensures up == Probing ==> store == old(store) && up' == if put.found && name in store then Stored else Writing
      ensures up == Writing ==>
        && store == (if put.lands then old(store) + {name} else old(store))
        && up' == if put.ok && put.lands then Stored else Broken
      ensures up' == Stored ==> name in store
    {
      if up == Probing {
        up' := if put.found && name in store then Stored else Writing;
      } else {
        if put.lands {
          store := store + {name};
        }
        up' := if put.ok && put.lands then Stored else Broken;
      }
    }

    method MarkDone(lease: Id, stats: string, commit: Commit) returns (ok: bool)
      modifies this`db
      ensures db == if commit.applied then FinishIn(old(db), lease, stats, now) else old(db)
      ensures OnlyRow(old(db), db, lease)
      ensures commit.applied && IsOpen(old(db), lease) ==>
        db.leases[lease] == old(db).leases[lease].(done := true, updated := now, metadata := Some(stats))
      ensures !commit.applied || !IsOpen(old(db), lease) ==> db == old(db)
      ensures ok <==> commit.ok && commit.applied
    {
      if commit.applied && lease in db.leases && !db.leases[lease].done && !db.leases[lease].failed {
        var row := db.leases[lease].(done := true, updated := now, metadata := Some(stats));
        db := db.(leases := db.leases[lease := row]);
      }
      ok := commit.ok && commit.applied;
    }

    /** The first half of `Done`: renew, check, and find out where the results go. */
    method Prepare(lease: Id, stats: string, o: Outcomes, ghost call: nat)
      returns (stop: Option<Reply>, png: Path, meta: Path, ghost trace: seq<Took>, ghost me: Call)
      modifies this
      ensures Thread(config, call, old(View()), Call(lease, stats, Renewing), trace, View(), me)
      ensures me == Call(lease, stats, if stop.Some? then Returned(stop.value) else Uploading(png, meta, Probing, Probing))
      ensures stop.None? ==> ArePaths(db, lease, png, meta)
      ensures stop.Some? ==> stop.value in {Internal, AlreadyExists, NotFound}
      ensures stop == Some(AlreadyExists) ==> lease in db.leases && !db.leases[lease].Active()
      ensures lease in old(db).leases && !old(db).leases[lease].Active() && o.checked ==> stop == Some(AlreadyExists)
      ensures stop.None? ==> o.checked && o.located && lease in db.leases
      ensures !o.checked ==> stop == Some(Internal)
      ensures stop == Some(NotFound) ==> o.checked
    {
      png, meta, trace := [], [], [];
      ghost var start, first := View(), Call(lease, stats, Renewing);
      me := first;
      Others();
      ghost var was := View();
      var _ := RenewLease(lease, -1, o.renewed);
      RenewIsStep(config, call, was, me, o.renewed);
      trace, me := Note(call, start, first, trace, was, me, DoneRenew(call, o.renewed), me.(pc := Checking));
      Wait(call, start, first, trace, me);
      ghost var at := View();
      CheckIsStep(config, call, at, me, o.checked);
      trace, me := Note(call, start, first, trace, at, me, DoneCheck(call, o.checked), me.(pc := AfterCheck(db, lease, o.checked)));
      ThreadKeepsRely(config, call, start, first, trace, View(), me);
      if !o.checked || lease !in db.leases {
        return Some(Internal), png, meta, trace, me;
      }
      if db.leases[lease].done || db.leases[lease].failed {
        return Some(AlreadyExists), png, meta, trace, me;
      }
      Wait(call, start, first, trace, me);
      at := View();
      LocateIsStep(config, call, at, me, o.located);
      trace, me := Note(call, start, first, trace, at, me, DoneLocate(call, o.located), me.(pc := AfterLocate(db, lease, o.located)));
      var file := FileOf(db, lease);
      if !o.located || file.None? {
        return Some(NotFound), png, meta, trace, me;
      }
      var base := DoneBase(file.value);
      png := PngName(BatchIdOf(db, lease), lease, base);
      meta := MetaName(BatchIdOf(db, lease), lease, base);
      stop := None;
    }

    /** The handler waits while others run. */
    method Wait(ghost call: nat, ghost start: Shared, ghost first: Call, ghost trace: seq<Took>, ghost me: Call)
      requires Thread(config, call, start, first, trace, View(), me)
      modifies this
      ensures Thread(config, call, start, first, trace, View(), me)
      ensures Rely(old(View()), View())
    {
      ghost var was := View();
      Others();
      ThreadWaits(config, call, start, first, trace, was, me, View());
    }

    /** The step just taken is noted down. */
    lemma Note(call: nat, start: Shared, first: Call, trace: seq<Took>, was: Shared, me: Call, step: Step, next: Call)
      returns (trace': seq<Took>, me': Call)
      requires Thread(config, call, start, first, trace, was, me)
      requires IsStep(config, step, call, was, me, View(), next)
      ensures trace' == trace + [Took(step, was, me, View(), next)]
      ensures me' == next && Thread(config, call, start, first, trace', View(), me')
    {
      ThreadSteps(config, call, start, first, trace, was, me, step, View(), next);
      trace', me' := trace + [Took(step, was, me, View(), next)], next;
    }

    /** One step of either upload, by a handler. */
    method UploadPart(part: Part, name: Path, up: Upload, put: Put, ghost call: nat, ghost start: Shared, ghost first: Call,
                      ghost trace: seq<Took>, ghost me: Call)
      returns (up': Upload, ghost trace': seq<Took>, ghost me': Call)
      requires up in {Probing, Writing}
      requires me.pc.Uploading? && PartName(me.pc, part) == name && PartUp(me.pc, part) == up
      requires Thread(config, call, start, first, trace, View(), me)
      modifies this`store
      ensures Thread(config, call, start, first, trace', View(), me')
      ensures me' == me.(pc := SetPart(me.pc, part, up'))
      ensures old(store) <= store && (up' == Stored ==> name in store)
      ensures Rest(up') < Rest(up)
    {
      ghost var was := View();
      up' := UploadStep(name, up, put);
      ghost var next := me.(pc := SetPart(me.pc, part, up'));
      if up == Probing {
        ProbeIsStep(config, call, was, me, part, up' == Stored);
        trace', me' := Note(call, start, first, trace, was, me, DoneProbe(call, part, up' == Stored), next);
      } else {
        WriteIsStep(config, call, was, me, part, put.lands, up' == Stored);
        trace', me' := Note(call, start, first, trace, was, me, DoneWrite(call, part, put.lands, up' == Stored), next);
      }
    }

    /** saveToCloud: two uploads side by side, whose steps may alternate in any way; both objects, or an error. */
    method SaveToCloud(png: Path, meta: Path, o: Outcomes, ghost call: nat, ghost start: Shared, ghost first: Call,
                       ghost trace: seq<Took>, ghost me: Call)
      returns (ok: bool, ghost trace': seq<Took>, ghost me': Call)
      requires Thread(config, call, start, first, trace, View(), me)
      requires me.pc == Uploading(png, meta, Probing, Probing)
      modifies this
      ensures Thread(config, call, start, first, trace', View(), me')
      ensures me' == me.(pc := if ok then Committing else Returned(Internal))
      ensures Rely(old(View()), View())
      ensures ok ==> png in store && meta in store
    {
      var p, m := Probing, Probing;
      var k := 0;
      trace', me' := trace, me;
      while Rest(p) > 0 || Rest(m) > 0
        invariant Thread(config, call, start, first, trace', View(), me')
        invariant me' == me.(pc := Uploading(png, meta, p, m))
        invariant Rely(old(View()), View())
        invariant p == Stored ==> png in store
        invariant m == Stored ==> meta in store
        decreases Rest(p) + Rest(m)
      {
        ghost var before := View();
        Wait(call, start, first, trace', me');
        RelyTransitive(old(View()), before, View());
        ghost var between := View();
        if Rest(p) > 0 && (Rest(m) == 0 || (k < |o.turns| && o.turns[k] == Png)) {
          p, trace', me' := UploadPart(Png, png, p, o.png, call, start, first, trace', me');
        } else {
          m, trace', me' := UploadPart(Meta, meta, m, o.meta, call, start, first, trace', me');
        }
        RelyTransitive(old(View()), between, View());
        k := k + 1;
      }
      ok := p == Stored && m == Stored;
      ghost var here := View();
      JoinIsStep(config, call, here, me');
      trace', me' := Note(call, start, first, trace', here, me', DoneJoin(call), me'.(pc := if ok then Committing else Returned(Internal)));
    }

    /** The last step of the handler. */
    method Finish(lease: Id, stats: string, commit: Commit, ghost call: nat, ghost start: Shared, ghost first: Call,
                  ghost trace: seq<Took>, ghost me: Call)
      returns (reply: Reply, ghost trace': seq<Took>, ghost me': Call)
      requires Thread(config, call, start, first, trace, View(), me)
      requires me == Call(lease, stats, Committing) && lease in db.leases
      modifies this`db
      ensures Thread(config, call, start, first, trace', View(), me')
      ensures me' == Call(lease, stats, Returned(reply))
      ensures reply == if commit.applied && commit.ok then Ok else Internal
      ensures Rely(old(View()), View())
      ensures reply == Ok ==> lease in db.leases && !db.leases[lease].Active() && Recorded(db, lease, stats, trace')
    {
      ghost var was := View();
      var ok := MarkDone(lease, stats, commit);
      CommitIsStep(config, call, was, me, commit.applied, ok);
      ghost var step, next := DoneCommit(call, commit.applied, ok), me.(pc := Returned(if ok then Ok else Internal));
      TookKeepsRely(config, call, Took(step, was, me, View(), next));
      trace', me' := Note(call, start, first, trace, was, me, step, next);
      reply := if ok then Ok else Internal;
    }

    /**
     The whole handler. It is a thread of the state machine: each of its steps
     is one that the machine takes, and between any two of them the others may
     run. So an OK means a closed lease and stored results, "already exists"
     means a closed lease, and a closed lease is answered with "already
     exists". Every closed lease, this one or another, is left as it was.
     */
    method Done(lease: Id, stats: string, o: Outcomes, ghost call: nat) returns (reply: Reply, ghost trace: seq<Took>)
      modifies this
      ensures Thread(config, call, old(View()), Call(lease, stats, Renewing), trace, View(), Call(lease, stats, Returned(reply)))
      ensures Rely(old(View()), View())
      ensures reply == Ok || reply == AlreadyExists ==> lease in db.leases && !db.leases[lease].Active()
      ensures reply == Ok ==> Recorded(db, lease, stats, trace)
      ensures reply == Ok ==> o.checked && o.located && o.commit.applied && o.commit.ok
      ensures !o.checked ==> reply == Internal
      ensures reply == NotFound ==> o.checked
      ensures reply == Ok ==> StoredAt(db, store, lease)
      ensures lease in old(db).leases && !old(db).leases[lease].Active() && o.checked ==> reply == AlreadyExists
    {
      ghost var start, first := View(), Call(lease, stats, Renewing);
      var stop, png, meta;
      ghost var me;
      stop, png, meta, trace, me := Prepare(lease, stats, o, call);
      ThreadKeepsRely(config, call, start, first, trace, View(), me);
      if stop.Some? {
        return stop.value, trace;
      }
      var saved;
      ghost var prepared := View();
      saved, trace, me := SaveToCloud(png, meta, o, call, start, first, trace, me);
      ThreadKeepsRely(config, call, start, first, trace, View(), me);
      if !saved {
        return Internal, trace;
      }
      ghost var stored := View();
      PathsStay(prepared, stored, lease, png, meta);
      Wait(call, start, first, trace, me);
      ghost var last := View();
      PathsStay(stored, last, lease, png, meta);
      reply, trace, me := Finish(lease, stats, o.commit, call, start, first, trace, me);
      PathsStay(last, View(), lease, png, meta);
      ThreadKeepsRely(config, call, start, first, trace, View(), me);
    }
  }
}
