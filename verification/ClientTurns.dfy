/**
 The client's half of a history with the scheduler is a run of its keep-alive
 loop, so that what holds of the loop alone holds in any history.
 */
module ClientTurns {
  import opened Options
  import opened Tables
  import opened LeaseMachine
  import opened Refresh
  import opened LeaseKeeping
  import GetQuery

  /** What the client has believed so far, the turns it took, and when its timer last fired. */
  datatype Record = Record(log: seq<Belief>, turns: seq<Turn>, fired: Time)

  function LastBelief(r: Record): Belief
    requires r.log != []
  {
    r.log[|r.log| - 1]
  }

  /** When the timer that was set with belief `b` is due. */
  function Due(b: Belief): Time {
    b.now + Sleep(Half(b.deadline - b.now))
  }

  function EndTurn(r: Record, now: Time, renewed: Option<Time>, expiredRenewal: Time): (r': Record)
    requires r.log != []
    ensures r'.log != []
  {
    var b := LastBelief(r);
    Record(r.log + [Conclude(now, b.deadline, renewed, expiredRenewal)],
           r.turns + [Turn(Sleep(r.fired - Due(b)), Sleep(now - r.fired), renewed)], r.fired)
  }

  /** An answer ends a turn. */
  function Observe(e: Setup, r: Record, w: World, ev: Event): (r': Record)
    requires r.log != []
    ensures r'.log != []
  {
    match ev
    case Fire => r.(fired := w.server.now)
    case Answer(ok) =>
      var now := w.server.now;
      EndTurn(r, now, if ok && w.client.phase.Handled? then Some(HeardOf(e, w.client.phase.until, now)) else None, e.expiredRenewal)
    case _ => r
  }

  function RecordOf(e: Setup, ws: seq<World>, evs: seq<Event>, k: nat): (r: Record)
    requires |ws| == |evs| + 1 && k <= |evs|
    ensures r.log != []
  {
    if k == 0 then Record([Belief(ws[0].server.now, ws[0].client.deadline, false)], [], ws[0].server.now)
    else Observe(e, RecordOf(e, ws, evs, k - 1), ws[k - 1], evs[k - 1])
  }

  predicate FellBack(log: seq<Belief>) {
    exists i :: 0 <= i < |log| && log[i].fellBack
  }

  /** The record tells what the client knows now. */
  predicate IsCurrent(w: World, r: Record)
    requires r.log != []
  {
    var b, now := LastBelief(r), w.server.now;
    && b.deadline == w.client.deadline && b.now <= now
    && match w.client.phase
       case Sleeping(fireAt) => fireAt == b.now + Half(b.deadline - b.now)
       case Asking => Due(b) <= r.fired <= now
       case Handled(_, _) => Due(b) <= r.fired <= now
  }

  /** And it is one of the loop. */
  predicate Follows(e: Setup, w: World, r: Record)
    requires r.log != []
  {
    && IsLog(r.log, r.turns, e.expiredRenewal)
    && (w.client.fellBack <==> FellBack(r.log))
    && IsCurrent(w, r)
  }

  lemma ClockTicks(e: Setup, w: World, ev: Event)
    requires Possible(e, w, ev)
    ensures Next(e, w, ev).server.now == w.server.now + if ev.Pass? then ev.dt else 0
  {
  }

  lemma LogExtends(log: seq<Belief>, turns: seq<Turn>, expiredRenewal: Time, t: Turn)
    requires IsLog(log, turns, expiredRenewal)
    ensures IsLog(log + [After(log[|log| - 1], t, expiredRenewal)], turns + [t], expiredRenewal)
  {
  }

  lemma FellBackExtends(log: seq<Belief>, b: Belief)
    ensures FellBack(log + [b]) <==> FellBack(log) || b.fellBack
  {
    var more := log + [b];
    if FellBack(log) {
      var i :| 0 <= i < |log| && log[i].fellBack;
      assert more[i].fellBack;
    }
    if b.fellBack {
      assert more[|log|].fellBack;
    }
  }

  lemma TurnEnds(b: Belief, fired: Time, now: Time, renewed: Option<Time>, expiredRenewal: Time)
    requires Due(b) <= fired <= now
    ensures After(b, Turn(Sleep(fired - Due(b)), Sleep(now - fired), renewed), expiredRenewal)
         == Conclude(now, b.deadline, renewed, expiredRenewal)
  {
  }

  lemma EndTurnIsLogged(r: Record, now: Time, renewed: Option<Time>, expiredRenewal: Time)
    requires r.log != [] && IsLog(r.log, r.turns, expiredRenewal) && Due(LastBelief(r)) <= r.fired <= now
    ensures
      var r' := EndTurn(r, now, renewed, expiredRenewal);
      IsLog(r'.log, r'.turns, expiredRenewal) && (FellBack(r'.log) <==> FellBack(r.log) || LastBelief(r').fellBack)
  {
    var b := LastBelief(r);
    TurnEnds(b, r.fired, now, renewed, expiredRenewal);
    LogExtends(r.log, r.turns, expiredRenewal, Turn(Sleep(r.fired - Due(b)), Sleep(now - r.fired), renewed));
    FellBackExtends(r.log, Conclude(now, b.deadline, renewed, expiredRenewal));
  }

  /** `w'` is any world in which the client has just heard the answer. */
  lemma AnswerIsCurrent(e: Setup, w: World, r: Record, ok: bool, w': World)
    requires r.log != [] && IsCurrent(w, r) && (ok ==> w.client.phase.Handled?)
    requires w'.server.now == w.server.now && w'.client == NextClient(e, w, Answer(ok))
    ensures
      var r' := Observe(e, r, w, Answer(ok));
      IsCurrent(w', r') && (w'.client.fellBack <==> w.client.fellBack || LastBelief(r').fellBack)
  {
  }

  lemma FollowsNext(e: Setup, w: World, ev: Event, r: Record)
    requires r.log != [] && Follows(e, w, r) && Possible(e, w, ev)
    ensures Follows(e, Next(e, w, ev), Observe(e, r, w, ev))
  {
    ClockTicks(e, w, ev);
    if ev.Answer? {
      var now := w.server.now;
      var renewed := if ev.ok then Some(HeardOf(e, w.client.phase.until, now)) else None;
      EndTurnIsLogged(r, now, renewed, e.expiredRenewal);
      AnswerIsCurrent(e, w, r, ev.ok, Next(e, w, ev));
    }
  }

  lemma FollowsAtFirst(e: Setup, ws: seq<World>, evs: seq<Event>, issued: Time)
    requires |ws| == |evs| + 1 && JustIssued(e, ws[0], issued)
    ensures Follows(e, ws[0], RecordOf(e, ws, evs, 0))
  {
  }

  /** In every history the client does what its loop does, turn by turn. */
  lemma {:induction false} HistoryIsLog(e: Setup, ws: seq<World>, evs: seq<Event>, issued: Time, k: nat)
    requires IsHistory(e, ws, evs) && JustIssued(e, ws[0], issued) && k <= |evs|
    ensures
      var r := RecordOf(e, ws, evs, k);
      && Follows(e, ws[k], r)
      && r.log[0] == Belief(ws[0].server.now, ws[0].server.now + e.refreshTime, false)
  {
    if k == 0 {
      FollowsAtFirst(e, ws, evs, issued);
    } else {
      HistoryIsLog(e, ws, evs, issued, k - 1);
      FollowsNext(e, ws[k - 1], evs[k - 1], RecordOf(e, ws, evs, k - 1));
    }
  }

  /**
   A client whose renewals all fail, in a history with the scheduler: before it
   falls back, which is within floor(log2(refresh time + 1)) + 1 turns, it still
   has its lease, and as long as no failure takes longer to be told than the time
   that was granted, nobody else is given its order.
   */
  lemma FailingClient(e: Setup, ws: seq<World>, evs: seq<Event>, issued: Time, k: nat)
    requires Sensible(e) && IsHistory(e, ws, evs) && JustIssued(e, ws[0], issued) && k <= |evs|
    requires AllFail(RecordOf(e, ws, evs, k).turns) && !ws[k].client.fellBack
    ensures |RecordOf(e, ws, evs, k).turns| <= Log2(e.refreshTime + 1)
    ensures
      var id := ws[0].client.lease;
      id in ws[k].server.db.leases && ws[k].server.db.leases[id].Active()
    ensures (forall j :: 0 <= j < k ==> !Overdue(ws[j])) ==>
      var order := ws[0].server.db.leases[ws[0].client.lease].order;
      GetQuery.LeasesOf(ws[k].server.db, order) == GetQuery.LeasesOf(ws[0].server.db, order)
  {
    HistoryIsLog(e, ws, evs, issued, k);
    FewTurns(e, RecordOf(e, ws, evs, k));
    ClientKeepsItsLease(e, ws, evs, issued, k);
    if forall j :: 0 <= j < k ==> !Overdue(ws[j]) {
      NoSecondLease(e, ws, evs, issued, k);
    }
  }

  lemma FewTurns(e: Setup, r: Record)
    requires IsLog(r.log, r.turns, e.expiredRenewal) && AllFail(r.turns) && !FellBack(r.log) && e.refreshTime > 0
    requires r.log[0].deadline - r.log[0].now == e.refreshTime
    ensures |r.turns| <= Log2(e.refreshTime + 1)
  {
    if |r.turns| > Log2(e.refreshTime + 1) {
      FewAttempts(r.log, r.turns, e.expiredRenewal, 0);
      assert false;
    }
  }
}
