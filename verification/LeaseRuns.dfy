/** What every interleaving of the scheduler's steps keeps. */
module LeaseRuns {
  import opened Options
  import opened Tables
  import opened Chains
  import opened LeaseMachine
  import GetQuery

  // ----- Leases persist, and are frozen once closed

  /** The last statement of a `Done` call for the lease is carried out. */
  predicate Finishes(s: State, step: Step, id: Id) {
    step.DoneCommit? && step.applied && step.call in s.calls && s.calls[step.call].lease == id
  }

  /** What one step can do to a lease that exists. */
  lemma StepOnLease(c: Config, s: State, step: Step, id: Id)
    requires Enabled(s, step) && id in s.db.leases
    ensures id in Apply(c, s, step).db.leases
    ensures
      var l, l' := s.db.leases[id], Apply(c, s, step).db.leases[id];
      && l'.order == l.order && l'.created == l.created
      && (!l.Active() ==> l' == l)
      && !(l'.done && l'.failed && l.Active())
      && (l'.expires != l.expires ==>
            Renews(s, step) == Some(id) && l'.expires == RenewedUntil(c, RenewSecs(step), s.now))
      && (Renews(s, step) == Some(id) && l.Active() ==> l'.expires == RenewedUntil(c, RenewSecs(step), s.now) && l'.Active())
      && (!step.Failed? && !step.DoneCommit? ==> l'.done == l.done && l'.failed == l.failed)
  {
  }

  /** The row of a new lease, and what becomes of any other row: all that is ever written to the table. */
  ghost predicate RowBecomes(c: Config, s: State, step: Step, id: Id, l': Lease) {
    if id !in s.db.leases then
      && step.Get? && step.lease == id
      && l' == Lease(step.picked, false, false, s.now, s.now, s.now + c.defaultLease, None)
    else
      var l := s.db.leases[id];
      if l.done || l.failed then l' == l
      else if Renews(s, step) == Some(id) then
        exists granted ::
          && MayGrant(c, if step.Renew? then step.secs else -1, granted)
          && l' == l.(expires := s.now + 1_000_000_000 * granted, updated := s.now)
      else if step == Failed(id) then l' == l.(failed := true, updated := s.now)
      else if Finishes(s, step, id) then
        l' == l.(done := true, updated := s.now, metadata := Some(s.calls[step.call].stats))
      else l' == l
  }

  lemma StepOnRow(c: Config, s: State, step: Step, id: Id)
    requires Enabled(s, step) && id in Apply(c, s, step).db.leases
    ensures RowBecomes(c, s, step, id, Apply(c, s, step).db.leases[id])
  {
    GrantedMay(c, RenewSecs(step));
  }

  lemma RunStepOnRow(c: Config, states: seq<State>, steps: seq<Step>, i: nat, id: Id)
    requires IsRun(c, states, steps) && i < |steps| && id in states[i + 1].db.leases
    ensures RowBecomes(c, states[i], steps[i], id, states[i + 1].db.leases[id])
  {
    assert Enabled(states[i], steps[i]) && states[i + 1] == Apply(c, states[i], steps[i]);
    StepOnRow(c, states[i], steps[i], id);
  }

  /** The lease is the same one, and has not changed since it was closed. */
  predicate Keeps(db: Db, db': Db, id: Id) {
    && id in db.leases && id in db'.leases
    && db'.leases[id].order == db.leases[id].order
    && db'.leases[id].created == db.leases[id].created
    && (!db.leases[id].Active() ==> db'.leases[id] == db.leases[id])
  }

  lemma KeepsNext(c: Config, db: Db, s: State, step: Step, id: Id)
    requires Enabled(s, step) && Keeps(db, s.db, id)
    ensures Keeps(db, Apply(c, s, step).db, id)
  {
    StepOnLease(c, s, step, id);
  }

  lemma LeasePersists(c: Config, states: seq<State>, steps: seq<Step>, i: nat, j: nat, id: Id)
    requires IsRun(c, states, steps) && i <= j <= |steps|
    requires id in states[i].db.leases
    ensures id in states[j].db.leases
    ensures states[j].db.leases[id].order == states[i].db.leases[id].order
    ensures states[j].db.leases[id].created == states[i].db.leases[id].created
    ensures !states[i].db.leases[id].Active() ==> states[j].db.leases[id] == states[i].db.leases[id]
  {
    var db := states[i].db;
    var inv := (s: State) => Keeps(db, s.db, id);
    forall k | i <= k < j && inv(states[k])
      ensures inv(states[k + 1])
    {
      KeepsNext(c, db, states[k], steps[k], id);
    }
    Always(states, inv, i, j);
  }

  ghost predicate Closes(states: seq<State>, k: nat, id: Id) {
    && k + 1 < |states|
    && id in states[k].db.leases && id in states[k + 1].db.leases
    && states[k].db.leases[id].Active()
    && !states[k + 1].db.leases[id].Active()
  }

  predicate IsBoth(s: State, id: Id) {
    id in s.db.leases && s.db.leases[id].done && s.db.leases[id].failed
  }

  lemma NeverBothNext(c: Config, s: State, step: Step, id: Id)
    requires Enabled(s, step) && !IsBoth(s, id)
    ensures !IsBoth(Apply(c, s, step), id)
  {
    if id in s.db.leases {
      StepOnLease(c, s, step, id);
    }
  }

  lemma NeverBoth(c: Config, states: seq<State>, steps: seq<Step>, i: nat, id: Id)
    requires IsRun(c, states, steps) && Init(states[0]) && i <= |steps|
    requires id in states[i].db.leases
    ensures !(states[i].db.leases[id].done && states[i].db.leases[id].failed)
  {
    var inv := (s: State) => !IsBoth(s, id);
    forall k | 0 <= k < i && inv(states[k])
      ensures inv(states[k + 1])
    {
      NeverBothNext(c, states[k], steps[k], id);
    }
    Always(states, inv, 0, i);
  }

  /**
   Terminality under races: however Done, Failed and Renew interleave, a lease
   leaves the open state at most once, is never both done and failed, and
   from then on its whole row, with expiry and metadata, stays as it is.
   */
  lemma ClosedOnceAndForGood(c: Config, states: seq<State>, steps: seq<Step>, i: nat, id: Id)
    requires IsRun(c, states, steps) && Init(states[0]) && i <= |steps|
    requires id in states[i].db.leases && !states[i].db.leases[id].Active()
    ensures states[i].db.leases[id].done != states[i].db.leases[id].failed
    ensures forall j :: i <= j <= |steps| ==> id in states[j].db.leases && states[j].db.leases[id] == states[i].db.leases[id]
    ensures forall k: nat, k': nat :: Closes(states, k, id) && Closes(states, k', id) ==> k == k'
  {
    NeverBoth(c, states, steps, i, id);
    forall j | i <= j <= |steps| ensures id in states[j].db.leases && states[j].db.leases[id] == states[i].db.leases[id] {
      LeasePersists(c, states, steps, i, j, id);
    }
    forall k: nat, k': nat | Closes(states, k, id) && Closes(states, k', id) ensures k == k' {
      if k < k' {
        LeasePersists(c, states, steps, k + 1, k', id);
      } else if k' < k {
        LeasePersists(c, states, steps, k' + 1, k, id);
      }
    }
  }

  // ----- What a closed lease records

  /** Step `k` finishes the lease, and found it open. */
  ghost predicate FinishedAt(states: seq<State>, steps: seq<Step>, k: nat, id: Id) {
    && k < |steps| && k < |states|
    && Finishes(states[k], steps[k], id)
    && id in states[k].db.leases && states[k].db.leases[id].Active()
  }

  /** Step `k` marks the lease failed, and found it open. */
  ghost predicate FailedAt(states: seq<State>, steps: seq<Step>, k: nat, id: Id) {
    && k < |steps| && k < |states|
    && steps[k] == Failed(id)
    && id in states[k].db.leases && states[k].db.leases[id].Active()
  }

  /** The call was started by a request for this lease with these statistics. */
  ghost predicate AskedBy(steps: seq<Step>, k: nat, call: nat, id: Id, stats: string) {
    exists j :: 0 <= j < k && j < |steps| && steps[j] == DoneStart(call, id, stats)
  }

  lemma {:induction false} CallsAreAsked(c: Config, states: seq<State>, steps: seq<Step>, i: nat, call: nat)
    requires IsRun(c, states, steps) && Init(states[0]) && i <= |steps|
    requires call in states[i].calls
    ensures AskedBy(steps, i, call, states[i].calls[call].lease, states[i].calls[call].stats)
  {
    if i > 0 {
      var s, step := states[i - 1], steps[i - 1];
      assert Enabled(s, step) && states[i] == Apply(c, s, step);
      if call in s.calls {
        CallsAreAsked(c, states, steps, i - 1, call);
        CallStays(c, s, step, call);
      } else {
        NewCall(c, s, step, call);
      }
    }
  }

  lemma CallStays(c: Config, s: State, step: Step, call: nat)
    requires Enabled(s, step) && call in s.calls
    ensures
      var s' := Apply(c, s, step);
      call in s'.calls && s'.calls[call].lease == s.calls[call].lease && s'.calls[call].stats == s.calls[call].stats
  {
  }

  lemma NewCall(c: Config, s: State, step: Step, call: nat)
    requires Enabled(s, step) && call !in s.calls && call in Apply(c, s, step).calls
    ensures step == DoneStart(call, Apply(c, s, step).calls[call].lease, Apply(c, s, step).calls[call].stats)
  {
  }

  /** What the row of a lease says about the past: the statistics it was finished with, and when it was closed. */
  ghost predicate Recorded(states: seq<State>, steps: seq<Step>, i: nat, id: Id, l: Lease) {
    && (!l.done ==> l.metadata == None)
    && (l.done ==> exists k, stats ::
          && 0 <= k < i && FinishedAt(states, steps, k, id)
          && AskedBy(steps, k, steps[k].call, id, stats)
          && l.metadata == Some(stats) && l.updated == states[k].now)
    && (l.failed ==> exists k :: 0 <= k < i && FailedAt(states, steps, k, id) && l.updated == states[k].now)
  }

  lemma FinishIsRecorded(states: seq<State>, steps: seq<Step>, k: nat, id: Id, stats: string, l: Lease)
    requires FinishedAt(states, steps, k, id) && AskedBy(steps, k, steps[k].call, id, stats)
    requires l.done && !l.failed && l.metadata == Some(stats) && l.updated == states[k].now
    ensures Recorded(states, steps, k + 1, id, l)
  {
  }

  lemma StillRecorded(states: seq<State>, steps: seq<Step>, i: nat, id: Id, l: Lease, l': Lease)
    requires Recorded(states, steps, i, id, l)
    requires l'.done == l.done && l'.failed == l.failed && l'.metadata == l.metadata
    requires !l.Active() ==> l'.updated == l.updated
    ensures Recorded(states, steps, i + 1, id, l')
  {
  }

  lemma FailureIsRecorded(states: seq<State>, steps: seq<Step>, k: nat, id: Id, l: Lease)
    requires FailedAt(states, steps, k, id)
    requires !l.done && l.failed && l.metadata == None && l.updated == states[k].now
    ensures Recorded(states, steps, k + 1, id, l)
  {
  }

  lemma RecordedNext(c: Config, states: seq<State>, steps: seq<Step>, k: nat, id: Id, l': Lease)
    requires k < |steps| < |states| && RowBecomes(c, states[k], steps[k], id, l')
    requires id in states[k].db.leases ==> Recorded(states, steps, k, id, states[k].db.leases[id])
    requires Finishes(states[k], steps[k], id) ==> AskedBy(steps, k, steps[k].call, id, states[k].calls[steps[k].call].stats)
    ensures Recorded(states, steps, k + 1, id, l')
  {
    var s, step := states[k], steps[k];
    if id in s.db.leases && s.db.leases[id].Active() && Finishes(s, step, id) {
      FinishIsRecorded(states, steps, k, id, s.calls[step.call].stats, l');
    } else if id in s.db.leases && s.db.leases[id].Active() && step == Failed(id) {
      FailureIsRecorded(states, steps, k, id, l');
    } else if id in s.db.leases {
      StillRecorded(states, steps, k, id, s.db.leases[id], l');
    }
  }

  /** What the row of a lease that exists at `i` says about the steps before. */
  ghost predicate RecordedAt(states: seq<State>, steps: seq<Step>, i: nat, id: Id) {
    i < |states| && id in states[i].db.leases ==> Recorded(states, steps, i, id, states[i].db.leases[id])
  }

  lemma RunStepRecorded(c: Config, states: seq<State>, steps: seq<Step>, k: nat, id: Id)
    requires IsRun(c, states, steps) && Init(states[0]) && k < |steps|
    requires RecordedAt(states, steps, k, id)
    ensures RecordedAt(states, steps, k + 1, id)
  {
    if id in states[k + 1].db.leases {
      RunStepOnRow(c, states, steps, k, id);
      FinishIsAsked(c, states, steps, k, id);
      RecordedNext(c, states, steps, k, id, states[k + 1].db.leases[id]);
    }
  }

  lemma FinishIsAsked(c: Config, states: seq<State>, steps: seq<Step>, k: nat, id: Id)
    requires IsRun(c, states, steps) && Init(states[0]) && k < |steps|
    ensures Finishes(states[k], steps[k], id) ==> AskedBy(steps, k, steps[k].call, id, states[k].calls[steps[k].call].stats)
  {
    if Finishes(states[k], steps[k], id) {
      CallsAreAsked(c, states, steps, k, steps[k].call);
    }
  }

  /**
   In every run, a lease that is done carries the statistics of the request
   whose last statement closed it, and the time of that statement; a lease
   that has failed carries the time at which it was marked so.
   */
  lemma {:induction false} ClosedLeaseRecords(c: Config, states: seq<State>, steps: seq<Step>, i: nat, id: Id)
    requires IsRun(c, states, steps) && Init(states[0]) && i <= |steps|
    ensures RecordedAt(states, steps, i, id)
  {
    if i > 0 {
      ClosedLeaseRecords(c, states, steps, i - 1, id);
      RunStepRecorded(c, states, steps, i - 1, id);
    }
  }

  /** And the other way round: the first such statement that finds the lease open decides what the lease is from then on. */
  lemma FinishedForGood(c: Config, states: seq<State>, steps: seq<Step>, k: nat, i: nat, id: Id)
    requires IsRun(c, states, steps) && k < i <= |steps|
    requires FinishedAt(states, steps, k, id)
    ensures id in states[i].db.leases
    ensures
      var l := states[i].db.leases[id];
      l.done && !l.failed && l.metadata == Some(states[k].calls[steps[k].call].stats) && l.updated == states[k].now
  {
    assert Enabled(states[k], steps[k]) && states[k + 1] == Apply(c, states[k], steps[k]);
    StepOnLease(c, states[k], steps[k], id);
    StepOnRow(c, states[k], steps[k], id);
    LeasePersists(c, states, steps, k + 1, i, id);
  }

  /** Once a lease is done, its order is never handed out again. */
  lemma DoneOrdersStayDone(c: Config, states: seq<State>, steps: seq<Step>, i: nat, j: nat, id: Id)
    requires IsRun(c, states, steps) && i <= j < |steps|
    requires id in states[i].db.leases && states[i].db.leases[id].done
    ensures steps[j].Get? ==> steps[j].picked != states[i].db.leases[id].order
  {
    LeasePersists(c, states, steps, i, j, id);
    if steps[j].Get? {
      GetQuery.NotHandedOut(states[j].db, states[j].now, id);
    }
  }

  lemma ForeignKeysNext(c: Config, s: State, step: Step)
    requires Enabled(s, step) && ForeignKeys(s.db)
    ensures ForeignKeys(Apply(c, s, step).db)
  {
    if step.Get? {
      GetQuery.QueryIsRule(s.db, s.now, Some(step.picked));
    }
  }

  /** No call ever refers to an order or a batch that does not exist. */
  lemma ForeignKeysAlways(c: Config, states: seq<State>, steps: seq<Step>, i: nat)
    requires IsRun(c, states, steps) && ForeignKeys(states[0].db) && i <= |steps|
    ensures ForeignKeys(states[i].db)
  {
    var inv := (s: State) => ForeignKeys(s.db);
    forall k | 0 <= k < i && inv(states[k])
      ensures inv(states[k + 1])
    {
      ForeignKeysNext(c, states[k], steps[k]);
    }
    Always(states, inv, 0, i);
  }

  // ----- Exclusive leases

  /** No order has two leases that are both neither done nor expired. */
  ghost predicate Exclusive(s: State) {
    forall a, b :: a in s.db.leases && b in s.db.leases && a != b && s.db.leases[a].order == s.db.leases[b].order ==>
      !(s.db.leases[a].Live(s.now) && s.db.leases[b].Live(s.now))
  }

  /** Somebody else holds the order of `lease` now. */
  ghost predicate Superseded(s: State, lease: Id)
    requires lease in s.db.leases
  {
    exists b :: b in s.db.leases && b != lease && s.db.leases[b].order == s.db.leases[lease].order && s.db.leases[b].Live(s.now)
  }

  /** A renewal that brings an expired lease back to life after its order went to somebody else. */
  ghost predicate HarmfulRevival(c: Config, s: State, step: Step) {
    exists lease ::
      && LateRenewal(s, step, lease)
      && RenewedUntil(c, RenewSecs(step), s.now) >= s.now
      && Superseded(s, lease)
  }

  lemma ExclusiveStep(c: Config, s: State, step: Step)
    requires Enabled(s, step) && Exclusive(s)
    ensures Exclusive(Apply(c, s, step)) <==> !HarmfulRevival(c, s, step)
  {
    var s' := Apply(c, s, step);
    if HarmfulRevival(c, s, step) {
      var lease :| LateRenewal(s, step, lease) && Superseded(s, lease) && RenewedUntil(c, RenewSecs(step), s.now) >= s.now;
      var b :| b in s.db.leases && b != lease && s.db.leases[b].order == s.db.leases[lease].order && s.db.leases[b].Live(s.now);
      StepOnLease(c, s, step, lease);
      StepOnLease(c, s, step, b);
      assert s'.db.leases[lease].Live(s'.now) && s'.db.leases[b].Live(s'.now);
    } else {
      forall a, b | a in s'.db.leases && b in s'.db.leases && a != b && s'.db.leases[a].order == s'.db.leases[b].order
        ensures !(s'.db.leases[a].Live(s'.now) && s'.db.leases[b].Live(s'.now))
      {
        if step.Get? {
          OtherLeasesAreOver(s, step);
        } else {
          PairStaysExclusive(c, s, step, a, b);
        }
      }
    }
  }

  /** When `Get` hands an order out, every earlier lease on it has expired. */
  lemma OtherLeasesAreOver(s: State, step: Step)
    requires Enabled(s, step) && step.Get?
    ensures forall b :: b in s.db.leases && s.db.leases[b].order == step.picked ==> !s.db.leases[b].Live(s.now)
    ensures forall b :: b in s.db.leases && s.db.leases[b].order == step.picked ==> s.db.leases[b].expires < s.now
  {
    GetQuery.QueryIsRule(s.db, s.now, Some(step.picked));
  }

  /** Only the renewal of an expired lease can make a lease live again. */
  lemma ComesAlive(c: Config, s: State, step: Step, id: Id)
    requires Enabled(s, step) && id in s.db.leases
    requires !s.db.leases[id].Live(s.now) && Apply(c, s, step).db.leases[id].Live(Apply(c, s, step).now)
    ensures LateRenewal(s, step, id) && RenewedUntil(c, RenewSecs(step), s.now) >= s.now
  {
    StepOnLease(c, s, step, id);
  }

  lemma PairStaysExclusive(c: Config, s: State, step: Step, a: Id, b: Id)
    requires Enabled(s, step) && !step.Get?
    requires a in s.db.leases && b in s.db.leases && a != b && s.db.leases[a].order == s.db.leases[b].order
    requires Exclusive(s) && !HarmfulRevival(c, s, step)
    ensures
      var s' := Apply(c, s, step);
      a in s'.db.leases && b in s'.db.leases && !(s'.db.leases[a].Live(s'.now) && s'.db.leases[b].Live(s'.now))
  {
    var s' := Apply(c, s, step);
    StepOnLease(c, s, step, a);
    StepOnLease(c, s, step, b);
    if s'.db.leases[a].Live(s'.now) && s'.db.leases[b].Live(s'.now) {
      if !s.db.leases[a].Live(s.now) {
        ComesAlive(c, s, step, a);
      } else {
        ComesAlive(c, s, step, b);
      }
    }
  }

  /**
   Exactly when leases are exclusive: in a run from the start, no order ever
   has two live leases if and only if no renewal revives an expired lease
   whose order has meanwhile gone to somebody else.
   */
  lemma ExclusiveIff(c: Config, states: seq<State>, steps: seq<Step>)
    requires IsRun(c, states, steps) && Init(states[0])
    ensures (forall i :: 0 <= i <= |steps| ==> Exclusive(states[i]))
       <==> (forall i :: 0 <= i < |steps| ==> !HarmfulRevival(c, states[i], steps[i]))
  {
    if forall i :: 0 <= i <= |steps| ==> Exclusive(states[i]) {
      forall i | 0 <= i < |steps| ensures !HarmfulRevival(c, states[i], steps[i]) {
        ExclusiveStep(c, states[i], steps[i]);
        assert Exclusive(states[i + 1]);
      }
    }
    if forall i :: 0 <= i < |steps| ==> !HarmfulRevival(c, states[i], steps[i]) {
      forall i | 0 <= i <= |steps| ensures Exclusive(states[i]) {
        ExclusiveSoFar(c, states, steps, i);
      }
    }
  }

  lemma {:induction false} ExclusiveSoFar(c: Config, states: seq<State>, steps: seq<Step>, i: nat)
    requires IsRun(c, states, steps) && Init(states[0]) && i <= |steps|
    requires forall j :: 0 <= j < |steps| ==> !HarmfulRevival(c, states[j], steps[j])
    ensures Exclusive(states[i])
  {
    if i > 0 {
      ExclusiveSoFar(c, states, steps, i - 1);
      ExclusiveStep(c, states[i - 1], steps[i - 1]);
    }
  }

  /** If every renewal lands before the expiry, no order ever has two live leases. */
  lemma TimelyRenewalsAreSafe(c: Config, states: seq<State>, steps: seq<Step>, i: nat)
    requires IsRun(c, states, steps) && Init(states[0]) && i <= |steps|
    requires forall j, id :: 0 <= j < |steps| ==> !LateRenewal(states[j], steps[j], id)
    ensures Exclusive(states[i])
  {
    ExclusiveIff(c, states, steps);
  }

  // ----- Who is to blame

  /** One of the two leases was over before the other was issued. */
  predicate Disjoint(a: Lease, b: Lease) {
    a.expires < b.created || b.expires < a.created
  }

  ghost predicate RevivedBefore(states: seq<State>, steps: seq<Step>, i: nat, id: Id)
    requires i <= |steps| < |states|
  {
    exists j :: 0 <= j < i && LateRenewal(states[j], steps[j], id)
  }

  predicate IsPast(s: State, id: Id) {
    id in s.db.leases ==> s.db.leases[id].created <= s.now
  }

  lemma PastNext(c: Config, s: State, step: Step, id: Id)
    requires Enabled(s, step) && IsPast(s, id)
    ensures IsPast(Apply(c, s, step), id)
  {
    if id in s.db.leases {
      StepOnLease(c, s, step, id);
    }
  }

  lemma CreatedInThePast(c: Config, states: seq<State>, steps: seq<Step>, i: nat, id: Id)
    requires IsRun(c, states, steps) && Init(states[0]) && i <= |steps|
    requires id in states[i].db.leases
    ensures states[i].db.leases[id].created <= states[i].now
  {
    var inv := (s: State) => IsPast(s, id);
    forall k | 0 <= k < i && inv(states[k])
      ensures inv(states[k + 1])
    {
      PastNext(c, states[k], steps[k], id);
    }
    Always(states, inv, 0, i);
  }

  /** A renewal in time does not bring two lifetimes together. */
  lemma StayDisjoint(c: Config, s: State, step: Step, a: Id, b: Id)
    requires Enabled(s, step) && a in s.db.leases && b in s.db.leases
    requires Disjoint(s.db.leases[a], s.db.leases[b])
    requires s.db.leases[a].created <= s.now && s.db.leases[b].created <= s.now
    requires !LateRenewal(s, step, a) && !LateRenewal(s, step, b)
    ensures a in Apply(c, s, step).db.leases && b in Apply(c, s, step).db.leases
    ensures Disjoint(Apply(c, s, step).db.leases[a], Apply(c, s, step).db.leases[b])
  {
    StepOnLease(c, s, step, a);
    StepOnLease(c, s, step, b);
  }

  lemma NewIsDisjoint(c: Config, s: State, step: Step, a: Id, b: Id)
    requires Enabled(s, step) && (a !in s.db.leases || b !in s.db.leases) && a != b
    requires a in Apply(c, s, step).db.leases && b in Apply(c, s, step).db.leases
    requires Apply(c, s, step).db.leases[a].order == Apply(c, s, step).db.leases[b].order
    ensures Disjoint(Apply(c, s, step).db.leases[a], Apply(c, s, step).db.leases[b])
  {
    OtherLeasesAreOver(s, step);
  }

  lemma {:induction false} LifetimesDisjoint(c: Config, states: seq<State>, steps: seq<Step>, i: nat, a: Id, b: Id)
    requires IsRun(c, states, steps) && Init(states[0]) && i <= |steps|
    requires a in states[i].db.leases && b in states[i].db.leases && a != b
    requires states[i].db.leases[a].order == states[i].db.leases[b].order
    requires !RevivedBefore(states, steps, i, a) && !RevivedBefore(states, steps, i, b)
    ensures Disjoint(states[i].db.leases[a], states[i].db.leases[b])
  {
    if i > 0 {
      var s, step := states[i - 1], steps[i - 1];
      assert Enabled(s, step) && states[i] == Apply(c, s, step);
      if a in s.db.leases && b in s.db.leases {
        LeasePersists(c, states, steps, i - 1, i, a);
        LeasePersists(c, states, steps, i - 1, i, b);
        LifetimesDisjoint(c, states, steps, i - 1, a, b);
        CreatedInThePast(c, states, steps, i - 1, a);
        CreatedInThePast(c, states, steps, i - 1, b);
        StayDisjoint(c, s, step, a, b);
      } else {
        NewIsDisjoint(c, s, step, a, b);
      }
    }
  }

  /**
   Two live leases on one order: one of these two was renewed, at some point
   of the run, after it had already expired.
   */
  lemma TwoLiveLeases(c: Config, states: seq<State>, steps: seq<Step>, i: nat, a: Id, b: Id)
    requires IsRun(c, states, steps) && Init(states[0]) && i <= |steps|
    requires a in states[i].db.leases && b in states[i].db.leases && a != b
    requires states[i].db.leases[a].order == states[i].db.leases[b].order
    requires states[i].db.leases[a].Live(states[i].now) && states[i].db.leases[b].Live(states[i].now)
    ensures RevivedBefore(states, steps, i, a) || RevivedBefore(states, steps, i, b)
  {
    if !RevivedBefore(states, steps, i, a) && !RevivedBefore(states, steps, i, b) {
      LifetimesDisjoint(c, states, steps, i, a, b);
      CreatedInThePast(c, states, steps, i, a);
      CreatedInThePast(c, states, steps, i, b);
    }
  }

  // ----- It does happen: get, expire, get again, and the first client renews after all

  const WITNESS_CONFIG := Config(SECOND, 10 * SECOND, SECOND)
  const WITNESS_STEPS := [Get("a", "o"), Tick(2 * SECOND), Get("b", "o"), Renew("a", 1)]

  function WitnessState(leases: map<Id, Lease>, now: Time): State {
    State(Db(map[], map["o" := Order(None, Some("a.pov"))], leases), {}, now, map[])
  }

  function WitnessLease(created: Time, updated: Time, expires: Time): Lease {
    Lease("o", false, false, created, updated, expires, None)
  }

  function WitnessStates(): seq<State> {
    var a, b := WitnessLease(0, 0, SECOND), WitnessLease(2 * SECOND, 2 * SECOND, 3 * SECOND);
    var a' := WitnessLease(0, 2 * SECOND, 3 * SECOND);
    [WitnessState(map[], 0),
     WitnessState(map["a" := a], 0),
     WitnessState(map["a" := a], 2 * SECOND),
     WitnessState(map["a" := a, "b" := b], 2 * SECOND),
     WitnessState(map["a" := a', "b" := b], 2 * SECOND)]
  }

  lemma OnlyOrder(s: State)
    requires s.db.orders.Keys == {"o"} && GetQuery.Eligible(s.db, s.now, "o")
    ensures GetQuery.NextOrder(s.db, s.now, Some("o"))
  {
    TextLeTotal("o", "o");
    GetQuery.QueryIsRule(s.db, s.now, Some("o"));
  }

  lemma WitnessGets(leases: map<Id, Lease>, now: Time, id: Id)
    requires id !in leases
    requires forall l :: l in leases ==> !leases[l].done && leases[l].expires < now
    ensures Enabled(WitnessState(leases, now), Get(id, "o"))
    ensures Apply(WITNESS_CONFIG, WitnessState(leases, now), Get(id, "o"))
         == WitnessState(leases[id := WitnessLease(now, now, now + SECOND)], now)
  {
    WitnessIsNext(leases, now);
  }

  lemma WitnessIsNext(leases: map<Id, Lease>, now: Time)
    requires forall l :: l in leases ==> !leases[l].done && leases[l].expires < now
    ensures GetQuery.NextOrder(WitnessState(leases, now).db, now, Some("o"))
  {
    OnlyOrder(WitnessState(leases, now));
  }

  lemma WitnessRenews(leases: map<Id, Lease>, now: Time, id: Id)
    requires id in leases && leases[id].Active()
    ensures Apply(WITNESS_CONFIG, WitnessState(leases, now), Renew(id, 1))
         == WitnessState(leases[id := leases[id].(expires := now + SECOND, updated := now)], now)
  {
    assert Granted(WITNESS_CONFIG, 1) == 1;
  }

  lemma WitnessStep(i: nat)
    requires i < 4
    ensures Enabled(WitnessStates()[i], WITNESS_STEPS[i])
    ensures WitnessStates()[i + 1] == Apply(WITNESS_CONFIG, WitnessStates()[i], WITNESS_STEPS[i])
  {
    var a, b := WitnessLease(0, 0, SECOND), WitnessLease(2 * SECOND, 2 * SECOND, 3 * SECOND);
    if i == 0 {
      WitnessGets(map[], 0, "a");
      assert map["a" := a] == map[]["a" := a];
    } else if i == 2 {
      WitnessGets(map["a" := a], 2 * SECOND, "b");
      assert map["a" := a, "b" := b] == map["a" := a]["b" := b];
    } else if i == 3 {
      WitnessRenews(map["a" := a, "b" := b], 2 * SECOND, "a");
      var a' := WitnessLease(0, 2 * SECOND, 3 * SECOND);
      assert map["a" := a', "b" := b] == map["a" := a, "b" := b]["a" := a'];
    }
  }

  lemma WitnessRun()
    ensures IsRun(WITNESS_CONFIG, WitnessStates(), WITNESS_STEPS)
  {
    forall i | 0 <= i < 4
      ensures Enabled(WitnessStates()[i], WITNESS_STEPS[i])
      ensures WitnessStates()[i + 1] == Apply(WITNESS_CONFIG, WitnessStates()[i], WITNESS_STEPS[i])
    {
      WitnessStep(i);
    }
  }

  /** So exclusion without a condition is not something the scheduler guarantees. */
  lemma LateRenewalBreaksExclusion()
    ensures exists c, states, steps :: IsRun(c, states, steps) && Init(states[0]) && !Exclusive(states[|steps|])
  {
    WitnessRun();
    var states := WitnessStates();
    var s := states[4];
    assert "a" in s.db.leases && "b" in s.db.leases && s.db.leases["a"].Live(s.now) && s.db.leases["b"].Live(s.now);
    assert !Exclusive(s);
    assert Init(states[0]);
    assert |WITNESS_STEPS| == 4;
  }
}
