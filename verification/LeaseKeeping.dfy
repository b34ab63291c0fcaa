/**
 A render client together with the scheduler and everybody else: as long as
 the client has not run out of time by its own reckoning, its lease is live,
 and nobody else is given its order.
 */
module LeaseKeeping {
  import opened Options
  import opened Tables
  import opened LeaseMachine
  import opened Refresh
  import opened Chains
  import GetQuery
  import LeaseRuns

  /** `refreshTime` is the client's, `expiredRenewal` its fallback. */
  datatype Setup = Setup(config: Config, refreshTime: Time, expiredRenewal: Time)

  /** `Handled` is a renewal that the scheduler has carried out, but not yet been heard of. */
  datatype Phase = Sleeping(fireAt: Time) | Asking | Handled(at: Time, until: Time)

  datatype Client = Client(lease: Id, deadline: Time, phase: Phase, fellBack: bool)

  datatype World = World(server: State, client: Client)

  datatype Event =
    | Others(step: Step)
    | Pass(dt: nat)
    | Fire
    | Arrive
    | Answer(ok: bool)

  /** The request carries the refresh time in seconds. */
  function AskedSecs(e: Setup): int {
    WholeSeconds(e.refreshTime)
  }

  /**
   The holder alone knows the lease, and while it renders it only renews. A
   renewal that it gave up on may still turn up later, and is not excluded.
   */
  predicate Touches(e: Setup, s: State, step: Step, lease: Id) {
    || (Renews(s, step) == Some(lease) && step != Renew(lease, AskedSecs(e)))
    || step == Failed(lease)
    || (step.DoneCommit? && step.call in s.calls && s.calls[step.call].lease == lease)
  }

  /**
   The timing assumption: a renewal reaches the scheduler, or fails, before the
   deadline that the client believes in when it sets its timer. Its answer may
   take any time.
   */
  predicate InTime(w: World, dt: nat) {
    w.client.phase.Handled? || w.server.now + dt <= w.client.deadline
  }

  ghost predicate Possible(e: Setup, w: World, ev: Event) {
    match ev
    case Others(step) => !step.Tick? && Enabled(w.server, step) && !Touches(e, w.server, step, w.client.lease)
    case Pass(dt) => w.client.fellBack || InTime(w, dt)
    case Fire => w.client.phase.Sleeping? && w.server.now >= w.client.phase.fireAt
    case Arrive => w.client.phase.Asking?
    case Answer(ok) => if ok then w.client.phase.Handled? else !w.client.phase.Sleeping?
  }

  /** The answer carries the expiry in whole seconds, and a 0 counts as no expiry at all. */
  function HeardOf(e: Setup, until: Time, now: Time): Time {
    if WholeSeconds(until) == 0 then now + e.refreshTime else SECOND * WholeSeconds(until)
  }

  /** What the event is to the scheduler. */
  function ServerStep(e: Setup, w: World, ev: Event): Step {
    match ev
    case Others(step) => step
    case Pass(dt) => Tick(dt)
    case Arrive => Renew(w.client.lease, AskedSecs(e))
    case Fire => Tick(0)
    case Answer(_) => Tick(0)
  }

  function NextClient(e: Setup, w: World, ev: Event): Client
    requires ev == Answer(true) ==> w.client.phase.Handled?
  {
    var me, now := w.client, w.server.now;
    match ev
    case Others(_) => me
    case Pass(_) => me
    case Fire => me.(phase := Asking)
    case Arrive => me.(phase := Handled(now, RenewedUntil(e.config, AskedSecs(e), now)))
    case Answer(ok) =>
      var b := Conclude(now, me.deadline, if ok then Some(HeardOf(e, me.phase.until, now)) else None, e.expiredRenewal);
      me.(deadline := b.deadline, phase := Sleeping(now + Half(b.deadline - now)), fellBack := me.fellBack || b.fellBack)
  }

  ghost function Next(e: Setup, w: World, ev: Event): World
    requires Possible(e, w, ev)
  {
    World(Apply(e.config, w.server, ServerStep(e, w, ev)), NextClient(e, w, ev))
  }

  ghost predicate IsHistory(e: Setup, ws: seq<World>, evs: seq<Event>) {
    && |ws| == |evs| + 1
    && forall i :: 0 <= i < |evs| ==> Possible(e, ws[i], evs[i]) && ws[i + 1] == Next(e, ws[i], evs[i])
  }

  /** The refresh time is whole seconds, and not more than the scheduler grants. */
  predicate Sensible(e: Setup) {
    && e.refreshTime > 0
    && e.refreshTime % SECOND == 0
    && e.refreshTime <= e.config.maxRenew
  }

  /** The lease was issued at `issued`, after the clock's zero, and the client heard of it soon enough. */
  predicate JustIssued(e: Setup, w: World, issued: Time) {
    var now := w.server.now;
    && w.client.lease in w.server.db.leases
    && w.server.db.leases[w.client.lease] == NewLease(e.config, w.server.db.leases[w.client.lease].order, issued)
    && 0 <= issued <= now
    && now - issued <= e.config.defaultLease - e.refreshTime
    && w.client == Client(w.client.lease, now + e.refreshTime, Sleeping(now + Half(e.refreshTime)), false)
  }

  /** What holds until the client falls back on pretending. */
  predicate Kept(e: Setup, w: World) {
    var me, now := w.client, w.server.now;
    && 0 <= now
    && me.lease in w.server.db.leases
    && var l := w.server.db.leases[me.lease];
    && l.Active()
    && me.deadline <= l.expires
    && me.deadline <= now + SECOND * Granted(e.config, AskedSecs(e))
    && match me.phase
       case Sleeping(_) => now <= me.deadline
       case Asking => now <= me.deadline
       case Handled(at, until) => 0 <= at <= now && until <= l.expires && until == RenewedUntil(e.config, AskedSecs(e), at)
  }

  /** The answer to a renewal has taken longer than the time that the renewal granted. */
  predicate Overdue(w: World) {
    w.client.phase.Handled? && w.client.phase.until < w.server.now
  }

  lemma GrantIsEnough(e: Setup)
    requires Sensible(e)
    ensures SECOND * Granted(e.config, AskedSecs(e)) >= e.refreshTime
  {
    assert WholeSeconds(e.refreshTime) * SECOND == e.refreshTime;
    assert WholeSeconds(e.config.maxRenew) >= WholeSeconds(e.refreshTime);
  }

  lemma KeptAtFirst(e: Setup, w: World, issued: Time)
    requires Sensible(e) && JustIssued(e, w, issued)
    ensures Kept(e, w)
  {
    GrantIsEnough(e);
  }

  lemma OthersKeep(e: Setup, w: World, step: Step)
    requires Sensible(e) && Kept(e, w) && Possible(e, w, Others(step))
    ensures Kept(e, Next(e, w, Others(step)))
  {
    LeaseRuns.StepOnLease(e.config, w.server, step, w.client.lease);
    assert Next(e, w, Others(step)).server.now == w.server.now;
  }

  lemma KeptNext(e: Setup, w: World, ev: Event)
    requires Sensible(e) && Kept(e, w) && !w.client.fellBack && Possible(e, w, ev)
    ensures Next(e, w, ev).client.fellBack || Kept(e, Next(e, w, ev))
    ensures ev.Arrive? ==> !LateRenewal(w.server, ServerStep(e, w, ev), w.client.lease)
  {
    GrantIsEnough(e);
    if ev.Others? {
      OthersKeep(e, w, ev.step);
    }
  }

  lemma KeptUnlessFallenBack(e: Setup, w: World, ev: Event, w': World)
    requires Sensible(e) && Possible(e, w, ev) && w' == Next(e, w, ev)
    requires w.client.fellBack || Kept(e, w)
    ensures w'.client.fellBack || Kept(e, w')
    ensures w.client.fellBack ==> w'.client.fellBack
    ensures w'.client.lease == w.client.lease
  {
    if !w.client.fellBack {
      KeptNext(e, w, ev);
    }
  }

  lemma KeptThroughout(e: Setup, ws: seq<World>, evs: seq<Event>, issued: Time, i: nat)
    requires Sensible(e) && IsHistory(e, ws, evs) && JustIssued(e, ws[0], issued) && i <= |evs|
    ensures ws[i].client.fellBack || Kept(e, ws[i])
    ensures ws[i].client.lease == ws[0].client.lease
  {
    var id := ws[0].client.lease;
    var inv := (w: World) => (w.client.fellBack || Kept(e, w)) && w.client.lease == id;
    KeptAtFirst(e, ws[0], issued);
    forall k | 0 <= k < i && inv(ws[k])
      ensures inv(ws[k + 1])
    {
      KeptUnlessFallenBack(e, ws[k], evs[k], ws[k + 1]);
    }
    Always(ws, inv, 0, i);
  }

  /**
   Client and scheduler composed. Until the client first falls back, the
   deadline it believes in is no later than the scheduler's, its lease is open,
   and each renewal comes while the lease is still live. The lease itself is
   live at all times but those at which the client waits for the answer to a
   renewal that the scheduler has carried out; then it is live iff the expiry,
   which is at least the granted time after the renewal, has not passed.
   */
  lemma ClientKeepsItsLease(e: Setup, ws: seq<World>, evs: seq<Event>, issued: Time, i: nat)
    requires Sensible(e) && IsHistory(e, ws, evs) && JustIssued(e, ws[0], issued) && i <= |evs|
    requires !ws[i].client.fellBack
    ensures
      var id, me, now := ws[0].client.lease, ws[i].client, ws[i].server.now;
      && id in ws[i].server.db.leases
      && var l := ws[i].server.db.leases[id];
      && l.Active()
      && me.deadline <= l.expires
      && (me.phase.Handled? ==> me.phase.at + SECOND * Granted(e.config, AskedSecs(e)) <= l.expires)
      && (l.Live(now) <==> (me.phase.Handled? ==> now <= l.expires))
    ensures i < |evs| && evs[i].Arrive? ==>
      !LateRenewal(ws[i].server, ServerStep(e, ws[i], evs[i]), ws[0].client.lease)
  {
    KeptThroughout(e, ws, evs, issued, i);
    if i < |evs| {
      KeptNext(e, ws[i], evs[i]);
    }
  }

  /** The lease is kept, and the leases on its order are those that there were at first. */
  ghost predicate KeptAlone(e: Setup, first: World, w: World) {
    && Kept(e, w) && w.client.lease == first.client.lease
    && var id := first.client.lease;
    && id in first.server.db.leases
    && var order := first.server.db.leases[id].order;
    && w.server.db.leases[id].order == order
    && GetQuery.LeasesOf(w.server.db, order) == GetQuery.LeasesOf(first.server.db, order)
  }

  lemma KeptAloneNext(e: Setup, first: World, w: World, ev: Event)
    requires Sensible(e) && Possible(e, w, ev) && !Overdue(w)
    requires w.client.fellBack || KeptAlone(e, first, w)
    ensures Next(e, w, ev).client.fellBack || KeptAlone(e, first, Next(e, w, ev))
  {
    KeptUnlessFallenBack(e, w, ev, Next(e, w, ev));
    if !w.client.fellBack {
      NoneIssued(e, w, ev);
    }
  }

  /** As long as no answer takes longer than the time granted, no second lease is issued for its order. */
  lemma NoSecondLease(e: Setup, ws: seq<World>, evs: seq<Event>, issued: Time, i: nat)
    requires Sensible(e) && IsHistory(e, ws, evs) && JustIssued(e, ws[0], issued) && i <= |evs|
    requires !ws[i].client.fellBack
    requires forall j :: 0 <= j < i ==> !Overdue(ws[j])
    ensures
      var id := ws[0].client.lease;
      && id in ws[i].server.db.leases
      && ws[i].server.db.leases[id].order == ws[0].server.db.leases[id].order
      && GetQuery.LeasesOf(ws[i].server.db, ws[0].server.db.leases[id].order)
           == GetQuery.LeasesOf(ws[0].server.db, ws[0].server.db.leases[id].order)
  {
    var first := ws[0];
    var inv := (w: World) => w.client.fellBack || KeptAlone(e, first, w);
    KeptAtFirst(e, first, issued);
    forall k | 0 <= k < i && inv(ws[k])
      ensures inv(ws[k + 1])
    {
      KeptAloneNext(e, first, ws[k], evs[k]);
    }
    Always(ws, inv, 0, i);
  }

  lemma NoneIssued(e: Setup, w: World, ev: Event)
    requires Possible(e, w, ev) && Kept(e, w) && !Overdue(w)
    ensures
      var id := w.client.lease;
      var order := w.server.db.leases[id].order;
      && id in Next(e, w, ev).server.db.leases
      && Next(e, w, ev).server.db.leases[id].order == order
      && GetQuery.LeasesOf(Next(e, w, ev).server.db, order) == GetQuery.LeasesOf(w.server.db, order)
  {
    var step := ServerStep(e, w, ev);
    var s, s' := w.server, Next(e, w, ev).server;
    GetQuery.NotHandedOut(s.db, s.now, w.client.lease);
    LeaseRuns.StepOnLease(e.config, s, step, w.client.lease);
    forall l | l in s.db.leases ensures l in s'.db.leases && s'.db.leases[l].order == s.db.leases[l].order {
      LeaseRuns.StepOnLease(e.config, s, step, l);
    }
    assert forall l :: l in s'.db.leases && l !in s.db.leases ==> step.Get? && s'.db.leases[l].order == step.picked;
  }

  // ----- A client that hears in time

  /**
   A success comes before the new expiry, in whole seconds, has passed; a
   failure before the deadline has that the client believes in.
   */
  ghost predicate HeardInTime(w: World, ok: bool) {
    if ok then
      w.client.phase.Handled? && exists k :: IsWhole(k, w.client.phase.until) && w.server.now <= 1_000_000_000 * k
    else w.server.now <= w.client.deadline
  }

  /** The client takes the new expiry for a number of whole seconds, and a refresh time from now if that number is 0. */
  lemma HeardOfIs(e: Setup, until: Time, now: Time, k: int)
    requires IsWhole(k, until)
    ensures HeardOf(e, until, now) == if k == 0 then now + e.refreshTime else 1_000_000_000 * k
  {
    WholeIsUnique(k, until);
  }

  lemma HeardIsWhole(e: Setup, w: World)
    requires Sensible(e) && Kept(e, w) && w.client.phase.Handled?
    ensures exists k :: IsWhole(k, w.client.phase.until) && HeardOf(e, w.client.phase.until, w.server.now) == 1_000_000_000 * k
    ensures forall k :: IsWhole(k, w.client.phase.until) ==> HeardOf(e, w.client.phase.until, w.server.now) == 1_000_000_000 * k
  {
    var until := w.client.phase.until;
    GrantIsEnough(e);
    assert until >= SECOND;
    forall k | IsWhole(k, until) ensures k == WholeSeconds(until) {
      WholeIsUnique(k, until);
    }
    WholeIsUnique(WholeSeconds(until), until);
  }

  /** What an answer does to a client that has not fallen back: it falls back just if it did not hear in time. */
  lemma AnswerMeans(e: Setup, w: World, ok: bool)
    requires Sensible(e) && Kept(e, w) && !w.client.fellBack && Possible(e, w, Answer(ok))
    ensures
      var me, me', now := w.client, Next(e, w, Answer(ok)).client, w.server.now;
      && (me'.fellBack <==> !HeardInTime(w, ok))
      && (me'.fellBack ==> me'.deadline == now + e.expiredRenewal)
      && (!me'.fellBack && !ok ==> me'.deadline == me.deadline)
      && (!me'.fellBack && ok ==> exists k :: IsWhole(k, me.phase.until) && me'.deadline == 1_000_000_000 * k)
      && (!me'.fellBack ==> me'.deadline >= now && me'.phase == Sleeping(now + (me'.deadline - now) / 2))
  {
    if ok {
      HeardIsWhole(e, w);
    }
  }

  lemma FallsBackAt(e: Setup, w: World, ev: Event)
    requires Sensible(e) && Possible(e, w, ev) && (w.client.fellBack || Kept(e, w))
    ensures Next(e, w, ev).client.fellBack <==> w.client.fellBack || (ev.Answer? && !HeardInTime(w, ev.ok))
  {
    if ev.Answer? && !w.client.fellBack {
      AnswerMeans(e, w, ev.ok);
    }
  }

  ghost predicate Missed(ws: seq<World>, evs: seq<Event>, j: nat) {
    j < |evs| && j < |ws| && evs[j].Answer? && !HeardInTime(ws[j], evs[j].ok)
  }

  /** Over whole histories, of any number of turns: the client falls back if and only if some answer was not heard in time. */
  lemma {:induction false} FallsBackIff(e: Setup, ws: seq<World>, evs: seq<Event>, issued: Time, i: nat)
    requires Sensible(e) && IsHistory(e, ws, evs) && JustIssued(e, ws[0], issued) && i <= |evs|
    ensures ws[i].client.fellBack <==> exists j: nat :: j < i && Missed(ws, evs, j)
  {
    if i > 0 {
      FallsBackIff(e, ws, evs, issued, i - 1);
      KeptThroughout(e, ws, evs, issued, i - 1);
      FallsBackAt(e, ws[i - 1], evs[i - 1]);
      assert Missed(ws, evs, i - 1) <==> evs[i - 1].Answer? && !HeardInTime(ws[i - 1], evs[i - 1].ok);
    }
  }

  /** Every answer before `i` is a success, and is heard in time. */
  ghost predicate Punctual(ws: seq<World>, evs: seq<Event>, i: nat)
    requires i <= |evs| <= |ws|
  {
    forall j :: 0 <= j < i && evs[j].Answer? ==> evs[j].ok && HeardInTime(ws[j], true)
  }

  lemma OverdueStays(e: Setup, w: World, ev: Event)
    requires Sensible(e) && Kept(e, w) && Possible(e, w, ev) && Overdue(w)
    requires ev.Answer? ==> ev.ok && HeardInTime(w, true)
    ensures Overdue(Next(e, w, ev))
  {
    GrantIsEnough(e);
    assert w.client.phase.until >= 0;
  }

  lemma NeverOverdue(e: Setup, ws: seq<World>, evs: seq<Event>, issued: Time, i: nat, j: nat)
    requires Sensible(e) && IsHistory(e, ws, evs) && JustIssued(e, ws[0], issued) && j <= i <= |evs|
    requires Punctual(ws, evs, i) && !Overdue(ws[i])
    ensures !Overdue(ws[j])
  {
    if Overdue(ws[j]) {
      var inv := (w: World) => Overdue(w);
      forall k | j <= k < i && inv(ws[k])
        ensures inv(ws[k + 1])
      {
        FallsBackIff(e, ws, evs, issued, k);
        KeptThroughout(e, ws, evs, issued, k);
        OverdueStays(e, ws[k], evs[k]);
      }
      Always(ws, inv, j, i);
    }
  }

  /**
   A client all of whose renewals are answered, and heard of in time, however
   many there are: it never falls back, its lease is open and live, and nobody
   else is given its order.
   */
  lemma PunctualClient(e: Setup, ws: seq<World>, evs: seq<Event>, issued: Time, i: nat)
    requires Sensible(e) && IsHistory(e, ws, evs) && JustIssued(e, ws[0], issued) && i <= |evs|
    requires Punctual(ws, evs, i) && !Overdue(ws[i])
    ensures !ws[i].client.fellBack
    ensures
      var id := ws[0].client.lease;
      && id in ws[i].server.db.leases
      && var l := ws[i].server.db.leases[id];
      && l.Active() && l.Live(ws[i].server.now) && ws[i].client.deadline <= l.expires
      && GetQuery.LeasesOf(ws[i].server.db, l.order) == GetQuery.LeasesOf(ws[0].server.db, l.order)
  {
    FallsBackIff(e, ws, evs, issued, i);
    ClientKeepsItsLease(e, ws, evs, issued, i);
    forall j | 0 <= j < i ensures !Overdue(ws[j]) {
      NeverOverdue(e, ws, evs, issued, i, j);
    }
    NoSecondLease(e, ws, evs, issued, i);
    KeptThroughout(e, ws, evs, issued, i);
  }

  // ----- It does happen: the answer is slow, the lease expires, and the order goes to somebody else

  const SLOW := Setup(Config(SECOND, 10 * SECOND, 2 * SECOND), SECOND, SECOND)
  const HALF := 500_000_000

  const SLOW_EVENTS := [Pass(HALF), Fire, Arrive, Pass(3 * HALF), Others(Get("b", "o"))]

  function SlowWorlds(): seq<World> {
    var a, a' := LeaseRuns.WitnessLease(0, 0, 2 * SECOND), LeaseRuns.WitnessLease(0, HALF, 3 * HALF);
    var b := LeaseRuns.WitnessLease(2 * SECOND, 2 * SECOND, 4 * SECOND);
    var asleep := Client("a", SECOND, Sleeping(HALF), false);
    var waiting := Client("a", SECOND, Handled(HALF, 3 * HALF), false);
    [World(LeaseRuns.WitnessState(map["a" := a], 0), asleep),
     World(LeaseRuns.WitnessState(map["a" := a], HALF), asleep),
     World(LeaseRuns.WitnessState(map["a" := a], HALF), asleep.(phase := Asking)),
     World(LeaseRuns.WitnessState(map["a" := a'], HALF), waiting),
     World(LeaseRuns.WitnessState(map["a" := a'], 2 * SECOND), waiting),
     World(LeaseRuns.WitnessState(map["a" := a', "b" := b], 2 * SECOND), waiting)]
  }

  lemma SlowRenewal(a: Lease)
    requires a.Active()
    ensures Apply(SLOW.config, LeaseRuns.WitnessState(map["a" := a], HALF), Renew("a", 1))
         == LeaseRuns.WitnessState(map["a" := a.(expires := 3 * HALF, updated := HALF)], HALF)
  {
    assert Granted(SLOW.config, 1) == 1;
    assert map["a" := a]["a" := a.(expires := 3 * HALF, updated := HALF)] == map["a" := a.(expires := 3 * HALF, updated := HALF)];
  }

  lemma SlowGet(a: Lease)
    requires !a.done && a.order == "o" && a.expires < 2 * SECOND
    ensures
      var s := LeaseRuns.WitnessState(map["a" := a], 2 * SECOND);
      var b := LeaseRuns.WitnessLease(2 * SECOND, 2 * SECOND, 4 * SECOND);
      && Enabled(s, Get("b", "o"))
      && Apply(SLOW.config, s, Get("b", "o")) == LeaseRuns.WitnessState(map["a" := a, "b" := b], 2 * SECOND)
  {
    var b := LeaseRuns.WitnessLease(2 * SECOND, 2 * SECOND, 4 * SECOND);
    LeaseRuns.OnlyOrder(LeaseRuns.WitnessState(map["a" := a], 2 * SECOND));
    assert map["a" := a]["b" := b] == map["a" := a, "b" := b];
  }

  lemma SlowStep(i: nat)
    requires i < 5
    ensures Possible(SLOW, SlowWorlds()[i], SLOW_EVENTS[i])
    ensures SlowWorlds()[i + 1] == Next(SLOW, SlowWorlds()[i], SLOW_EVENTS[i])
  {
    if i == 2 {
      SlowRenewal(LeaseRuns.WitnessLease(0, 0, 2 * SECOND));
    } else if i == 4 {
      SlowGet(LeaseRuns.WitnessLease(0, HALF, 3 * HALF));
    }
  }

  /** The client has not fallen back, and yet its order has been handed out again. */
  predicate LostOrder(w: World) {
    && !w.client.fellBack
    && w.client.lease in w.server.db.leases
    && exists b :: b in w.server.db.leases && b != w.client.lease
         && w.server.db.leases[b].order == w.server.db.leases[w.client.lease].order && w.server.db.leases[b].Live(w.server.now)
  }

  lemma SlowAnswerLosesOrder()
    ensures Sensible(SLOW) && IsHistory(SLOW, SlowWorlds(), SLOW_EVENTS) && JustIssued(SLOW, SlowWorlds()[0], 0)
    ensures LostOrder(SlowWorlds()[|SLOW_EVENTS|])
  {
    forall i | 0 <= i < 5
      ensures Possible(SLOW, SlowWorlds()[i], SLOW_EVENTS[i])
      ensures SlowWorlds()[i + 1] == Next(SLOW, SlowWorlds()[i], SLOW_EVENTS[i])
    {
      SlowStep(i);
    }
    assert |SLOW_EVENTS| == 5;
    var w := SlowWorlds()[5];
    assert "b" in w.server.db.leases;
  }

  function Servers(ws: seq<World>): seq<State> {
    seq(|ws|, i requires 0 <= i < |ws| => ws[i].server)
  }

  function ServerSteps(e: Setup, ws: seq<World>, evs: seq<Event>): seq<Step>
    requires |ws| == |evs| + 1
  {
    seq(|evs|, i requires 0 <= i < |evs| => ServerStep(e, ws[i], evs[i]))
  }

  /** The history of the world is a run of the scheduler, so all that holds of runs holds here. */
  lemma HistoryIsRun(e: Setup, ws: seq<World>, evs: seq<Event>)
    requires IsHistory(e, ws, evs)
    ensures IsRun(e.config, Servers(ws), ServerSteps(e, ws, evs))
  {
    forall i | 0 <= i < |evs|
      ensures Enabled(ws[i].server, ServerStep(e, ws[i], evs[i]))
      ensures ws[i + 1].server == Apply(e.config, ws[i].server, ServerStep(e, ws[i], evs[i]))
    {
      assert Possible(e, ws[i], evs[i]) && ws[i + 1] == Next(e, ws[i], evs[i]);
    }
  }
}
