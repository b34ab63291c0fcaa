/**
 A handler among others: the data they share, what the others may do to it, and
 which atomic steps of the state machine a handler takes in between.
 */
module Interference {
  import opened Options
  import opened Tables
  import opened ObjectPaths
  import opened LeaseMachine
  import opened Chains
  import GetQuery
  import LeaseRuns

  /** The part of the state that all handlers share. */
  datatype Shared = Shared(db: Db, store: set<Path>, now: Time)

  function SharedOf(s: State): Shared {
    Shared(s.db, s.store, s.now)
  }

  ghost predicate OrdersKept(db: Db, db': Db) {
    forall o :: o in db.orders ==> o in db'.orders && db'.orders[o] == db.orders[o]
  }

  ghost predicate LeasesKept(db: Db, db': Db) {
    forall id :: id in db.leases ==>
      && id in db'.leases && db'.leases[id].order == db.leases[id].order
      && (!db.leases[id].Active() ==> db'.leases[id] == db.leases[id])
  }

  /** What the other handlers may do to the shared data: add orders and leases, change open leases, store objects. */
  ghost predicate Rely(s: Shared, s': Shared) {
    && OrdersKept(s.db, s'.db)
    && LeasesKept(s.db, s'.db)
    && s.store <= s'.store
    && s.now <= s'.now
  }

  /** A lease keeps the names of its objects. */
  lemma PathsStay(s: Shared, s': Shared, id: Id, png: Path, meta: Path)
    requires Rely(s, s') && ArePaths(s.db, id, png, meta)
    ensures ArePaths(s'.db, id, png, meta)
  {
  }

  lemma RelyTransitive(a: Shared, b: Shared, c: Shared)
    requires Rely(a, b) && Rely(b, c)
    ensures Rely(a, c)
  {
  }

  lemma StepKeepsRely(c: Config, s: State, step: Step)
    requires Enabled(s, step)
    ensures Rely(SharedOf(s), SharedOf(Apply(c, s, step)))
  {
    forall id | id in s.db.leases
      ensures
        var s' := Apply(c, s, step);
        && id in s'.db.leases && s'.db.leases[id].order == s.db.leases[id].order
        && (!s.db.leases[id].Active() ==> s'.db.leases[id] == s.db.leases[id])
    {
      LeaseRuns.StepOnLease(c, s, step, id);
    }
  }

  lemma RunStepKeepsRely(c: Config, states: seq<State>, steps: seq<Step>, i: nat)
    requires IsRun(c, states, steps) && i < |steps|
    ensures Rely(SharedOf(states[i]), SharedOf(states[i + 1]))
  {
    assert Enabled(states[i], steps[i]) && states[i + 1] == Apply(c, states[i], steps[i]);
    assert Rely(SharedOf(states[i]), SharedOf(states[i + 1])) by {
      StepKeepsRely(c, states[i], steps[i]);
    }
  }

  /** Any stretch of any run stays within the interference that the handlers below put up with. */
  lemma RunsKeepRely(c: Config, states: seq<State>, steps: seq<Step>, i: nat, j: nat)
    requires IsRun(c, states, steps) && i <= j <= |steps|
    ensures Rely(SharedOf(states[i]), SharedOf(states[j]))
  {
    var before := SharedOf(states[i]);
    var inv := (s: State) => Rely(before, SharedOf(s));
    forall k | i <= k < j && inv(states[k])
      ensures inv(states[k + 1])
    {
      RunStepKeepsRely(c, states, steps, k);
      RelyTransitive(before, SharedOf(states[k]), SharedOf(states[k + 1]));
    }
    Always(states, inv, i, j);
  }

  // ----- Steps of a handler

  /** The state in which call `call` stands at `me`, next to any others. */
  function Resume(sh: Shared, call: nat, me: Call, others: map<nat, Call>): State {
    State(sh.db, sh.store, sh.now, others[call := me])
  }

  ghost predicate Takes(c: Config, step: Step, s: State, s': State) {
    Enabled(s, step) && Apply(c, s, step) == s'
  }

  /** Whatever other calls there are, the machine can take `step`, and it leads to just that. */
  ghost predicate IsStep(c: Config, step: Step, call: nat, before: Shared, me: Call, after: Shared, me': Call) {
    forall others: map<nat, Call> :: Takes(c, step, Resume(before, call, me, others), Resume(after, call, me', others))
  }

  /** The same for a step that is a whole call. */
  ghost predicate IsCall(c: Config, step: Step, before: Shared, after: Shared) {
    forall calls: map<nat, Call> ::
      Takes(c, step, State(before.db, before.store, before.now, calls), State(after.db, after.store, after.now, calls))
  }

  function Issued(c: Config, sh: Shared, lease: Id, picked: Id): Shared {
    sh.(db := sh.db.(leases := sh.db.leases[lease := Lease(picked, false, false, sh.now, sh.now, sh.now + c.defaultLease, None)]))
  }

  lemma GetIsTaken(c: Config, s: State, lease: Id, picked: Id)
    requires lease !in s.db.leases && GetQuery.NextOrder(s.db, s.now, Some(picked))
    ensures Takes(c, Get(lease, picked), s, s.(db := Issued(c, SharedOf(s), lease, picked).db))
  {
  }

  lemma GetIsCall(c: Config, sh: Shared, lease: Id, picked: Id)
    requires lease !in sh.db.leases && GetQuery.NextOrder(sh.db, sh.now, Some(picked))
    ensures IsCall(c, Get(lease, picked), sh, Issued(c, sh, lease, picked))
  {
    forall calls: map<nat, Call>
      ensures Takes(c, Get(lease, picked), State(sh.db, sh.store, sh.now, calls),
                    State(Issued(c, sh, lease, picked).db, sh.store, sh.now, calls))
    {
      GetIsTaken(c, State(sh.db, sh.store, sh.now, calls), lease, picked);
    }
  }

  lemma GotoResumed(sh: Shared, call: nat, me: Call, others: map<nat, Call>, pc: Pc)
    ensures Goto(Resume(sh, call, me, others), call, pc) == Resume(sh, call, me.(pc := pc), others)
  {
    assert others[call := me][call := me.(pc := pc)] == others[call := me.(pc := pc)];
  }

  function Renewed(c: Config, sh: Shared, lease: Id, applied: bool): Shared {
    if applied then sh.(db := RenewIn(sh.db, lease, RenewedUntil(c, -1, sh.now), sh.now)) else sh
  }

  lemma RenewIsStep(c: Config, call: nat, sh: Shared, me: Call, applied: bool)
    requires me.pc.Renewing?
    ensures IsStep(c, DoneRenew(call, applied), call, sh, me, Renewed(c, sh, me.lease, applied), me.(pc := Checking))
  {
    forall others: map<nat, Call>
      ensures Takes(c, DoneRenew(call, applied), Resume(sh, call, me, others),
                    Resume(Renewed(c, sh, me.lease, applied), call, me.(pc := Checking), others))
    {
      GotoResumed(Renewed(c, sh, me.lease, applied), call, me, others, Checking);
    }
  }

  lemma CheckIsStep(c: Config, call: nat, sh: Shared, me: Call, ok: bool)
    requires me.pc.Checking?
    ensures IsStep(c, DoneCheck(call, ok), call, sh, me, sh, me.(pc := AfterCheck(sh.db, me.lease, ok)))
  {
    forall others: map<nat, Call>
      ensures Takes(c, DoneCheck(call, ok), Resume(sh, call, me, others),
                    Resume(sh, call, me.(pc := AfterCheck(sh.db, me.lease, ok)), others))
    {
      GotoResumed(sh, call, me, others, AfterCheck(sh.db, me.lease, ok));
    }
  }

  lemma LocateIsStep(c: Config, call: nat, sh: Shared, me: Call, ok: bool)
    requires me.pc.Locating?
    ensures IsStep(c, DoneLocate(call, ok), call, sh, me, sh, me.(pc := AfterLocate(sh.db, me.lease, ok)))
  {
    forall others: map<nat, Call>
      ensures Takes(c, DoneLocate(call, ok), Resume(sh, call, me, others),
                    Resume(sh, call, me.(pc := AfterLocate(sh.db, me.lease, ok)), others))
    {
      GotoResumed(sh, call, me, others, AfterLocate(sh.db, me.lease, ok));
    }
  }

  lemma ProbeIsStep(c: Config, call: nat, sh: Shared, me: Call, part: Part, seen: bool)
    requires me.pc.Uploading? && PartUp(me.pc, part).Probing? && (seen ==> PartName(me.pc, part) in sh.store)
    ensures IsStep(c, DoneProbe(call, part, seen), call, sh, me, sh,
                   me.(pc := SetPart(me.pc, part, if seen then Stored else Writing)))
  {
    var pc := SetPart(me.pc, part, if seen then Stored else Writing);
    forall others: map<nat, Call>
      ensures Takes(c, DoneProbe(call, part, seen), Resume(sh, call, me, others), Resume(sh, call, me.(pc := pc), others))
    {
      GotoResumed(sh, call, me, others, pc);
    }
  }

  function Written(sh: Shared, name: Path, lands: bool): Shared {
    if lands then sh.(store := sh.store + {name}) else sh
  }

  lemma WriteIsStep(c: Config, call: nat, sh: Shared, me: Call, part: Part, lands: bool, ok: bool)
    requires me.pc.Uploading? && PartUp(me.pc, part).Writing? && (ok ==> lands)
    ensures IsStep(c, DoneWrite(call, part, lands, ok), call, sh, me, Written(sh, PartName(me.pc, part), lands),
                   me.(pc := SetPart(me.pc, part, if ok then Stored else Broken)))
  {
    var sh', pc := Written(sh, PartName(me.pc, part), lands), SetPart(me.pc, part, if ok then Stored else Broken);
    forall others: map<nat, Call>
      ensures Takes(c, DoneWrite(call, part, lands, ok), Resume(sh, call, me, others), Resume(sh', call, me.(pc := pc), others))
    {
      GotoResumed(sh', call, me, others, pc);
    }
  }

  lemma JoinIsStep(c: Config, call: nat, sh: Shared, me: Call)
    requires me.pc.Uploading? && me.pc.pngUp in {Stored, Broken} && me.pc.metaUp in {Stored, Broken}
    ensures IsStep(c, DoneJoin(call), call, sh, me, sh,
                   me.(pc := if me.pc.pngUp == Stored && me.pc.metaUp == Stored then Committing else Returned(Internal)))
  {
    var pc := if me.pc.pngUp == Stored && me.pc.metaUp == Stored then Committing else Returned(Internal);
    forall others: map<nat, Call>
      ensures Takes(c, DoneJoin(call), Resume(sh, call, me, others), Resume(sh, call, me.(pc := pc), others))
    {
      GotoResumed(sh, call, me, others, pc);
    }
  }

  function Finished(sh: Shared, me: Call, applied: bool): Shared {
    if applied then sh.(db := FinishIn(sh.db, me.lease, me.stats, sh.now)) else sh
  }

  lemma CommitIsStep(c: Config, call: nat, sh: Shared, me: Call, applied: bool, ok: bool)
    requires me.pc.Committing? && (ok ==> applied)
    ensures IsStep(c, DoneCommit(call, applied, ok), call, sh, me, Finished(sh, me, applied),
                   me.(pc := Returned(if ok then Ok else Internal)))
  {
    var sh', pc := Finished(sh, me, applied), Returned(if ok then Ok else Internal);
    forall others: map<nat, Call>
      ensures Takes(c, DoneCommit(call, applied, ok), Resume(sh, call, me, others), Resume(sh', call, me.(pc := pc), others))
    {
      GotoResumed(sh', call, me, others, pc);
    }
  }

  // ----- Threads

  /** A step that the handler took. */
  datatype Took = Took(step: Step, before: Shared, me: Call, after: Shared, me': Call)

  /**
   From `start` and `first` the handler has got to `here` and `me` by the steps
   in `trace`: each is one that the machine can take and leads to just what the
   machine says, and between them there is only interference.
   */
  ghost predicate Thread(c: Config, call: nat, start: Shared, first: Call, trace: seq<Took>, here: Shared, me: Call) {
    if trace == [] then Rely(start, here) && me == first
    else
      var t := trace[|trace| - 1];
      && IsStep(c, t.step, call, t.before, t.me, t.after, t.me')
      && Rely(t.after, here) && me == t.me'
      && Thread(c, call, start, first, trace[..|trace| - 1], t.before, t.me)
  }

  lemma ThreadWaits(c: Config, call: nat, start: Shared, first: Call, trace: seq<Took>, here: Shared, me: Call, later: Shared)
    requires Thread(c, call, start, first, trace, here, me) && Rely(here, later)
    ensures Thread(c, call, start, first, trace, later, me)
  {
    RelyTransitive(if trace == [] then start else trace[|trace| - 1].after, here, later);
  }

  lemma ThreadSteps(c: Config, call: nat, start: Shared, first: Call, trace: seq<Took>, here: Shared, me: Call,
                    step: Step, after: Shared, me': Call)
    requires Thread(c, call, start, first, trace, here, me) && IsStep(c, step, call, here, me, after, me')
    ensures Thread(c, call, start, first, trace + [Took(step, here, me, after, me')], after, me')
  {
    var more := trace + [Took(step, here, me, after, me')];
    assert more[..|more| - 1] == trace;
  }

  /** A whole thread is itself no more than interference to the other handlers. */
  lemma {:induction false} ThreadKeepsRely(c: Config, call: nat, start: Shared, first: Call, trace: seq<Took>, here: Shared, me: Call)
    requires Thread(c, call, start, first, trace, here, me)
    ensures Rely(start, here)
  {
    if trace != [] {
      var t := trace[|trace| - 1];
      ThreadKeepsRely(c, call, start, first, trace[..|trace| - 1], t.before, t.me);
      TookKeepsRely(c, call, t);
      RelyTransitive(start, t.before, t.after);
      RelyTransitive(start, t.after, here);
    }
  }

  lemma TookKeepsRely(c: Config, call: nat, t: Took)
    requires IsStep(c, t.step, call, t.before, t.me, t.after, t.me')
    ensures Rely(t.before, t.after)
  {
    var s, s' := Resume(t.before, call, t.me, map[]), Resume(t.after, call, t.me', map[]);
    assert Takes(c, t.step, s, s');
    StepKeepsRely(c, s, t.step);
    assert SharedOf(s) == t.before && SharedOf(s') == t.after;
  }
}
