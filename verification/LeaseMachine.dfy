/**
 The scheduler as a state machine whose steps are its atomic actions: one
 database statement or transaction, one cloud storage call, or the clock.

 `Get` is one step, because it is a serializable transaction. `Done` is many,
 and any other step may fall between two of them.
 */
module LeaseMachine {
  import opened Options
  import opened Tables
  import opened ObjectPaths
  import GetQuery

  const SECOND: Time := 1_000_000_000

  /** The flags min_lease_renew_time, max_lease_renew_time and default_lease_time. */
  datatype Config = Config(minRenew: Time, maxRenew: Time, defaultLease: Time)

  /** One of the two uploads of a `Done`: look whether the object exists, write it if not. */
  datatype Upload = Probing | Writing | Stored | Broken

  datatype Part = Png | Meta

  datatype Reply = Ok | AlreadyExists | NotFound | Internal

  /** Where a `Done` call stands. */
  datatype Pc =
    | Renewing
    | Checking
    | Locating
    | Uploading(png: Path, meta: Path, pngUp: Upload, metaUp: Upload)
    | Committing
    | Returned(reply: Reply)

  datatype Call = Call(lease: Id, stats: string, pc: Pc)

  datatype State = State(db: Db, store: set<Path>, now: Time, calls: map<nat, Call>)

  datatype Step =
    | Tick(dt: nat)
    | Add(order: Id, row: Order)
    | Get(lease: Id, picked: Id)
    | Renew(lease: Id, secs: int)
    | Failed(lease: Id)
    | DoneStart(call: nat, lease: Id, stats: string)
    | DoneRenew(call: nat, applied: bool)
    | DoneCheck(call: nat, ok: bool)
    | DoneLocate(call: nat, ok: bool)
    | DoneProbe(call: nat, part: Part, seen: bool)
    | DoneWrite(call: nat, part: Part, lands: bool, ok: bool)
    | DoneJoin(call: nat)
    | DoneCommit(call: nat, applied: bool, ok: bool)

  // ----- Effects

  /** A duration in seconds, cut off towards zero. */
  function WholeSeconds(d: Time): int {
    if d >= 0 then d / SECOND else -(-d / SECOND)
  }

  /** How many seconds `renew` grants when asked for `secs`. */
  function Granted(c: Config, secs: int): int {
    var wanted := if secs <= 0 then WholeSeconds(c.defaultLease) else secs;
    var capped := if wanted > WholeSeconds(c.maxRenew) then WholeSeconds(c.maxRenew) else wanted;
    if capped < WholeSeconds(c.minRenew) then WholeSeconds(c.minRenew) else capped
  }

  /** `k` is `d` in whole seconds, cut off towards zero. */
  predicate IsWhole(k: int, d: Time) {
    if d >= 0 then k * 1_000_000_000 <= d < (k + 1) * 1_000_000_000
    else (k - 1) * 1_000_000_000 < d <= k * 1_000_000_000
  }

  /**
   What may be granted: what was asked for, or the default if that is not
   positive, but no more than the longest renewal, and no less than the
   shortest even if that is longer than the longest.
   */
  ghost predicate MayGrant(c: Config, secs: int, granted: int) {
    forall least, most, default_ | IsWhole(least, c.minRenew) && IsWhole(most, c.maxRenew) && IsWhole(default_, c.defaultLease) ::
      var wanted := if secs > 0 then secs else default_;
      && (least <= wanted <= most ==> granted == wanted)
      && (least <= most < wanted ==> granted == most)
      && (wanted < least || most < least ==> granted == least)
  }

  lemma WholeIsUnique(k: int, d: Time)
    ensures IsWhole(k, d) <==> k == WholeSeconds(d)
  {
  }

  lemma GrantedMay(c: Config, secs: int)
    ensures MayGrant(c, secs, Granted(c, secs))
  {
    forall least, most, default_ | IsWhole(least, c.minRenew) && IsWhole(most, c.maxRenew) && IsWhole(default_, c.defaultLease)
      ensures least == WholeSeconds(c.minRenew) && most == WholeSeconds(c.maxRenew) && default_ == WholeSeconds(c.defaultLease)
    {
      WholeIsUnique(least, c.minRenew);
      WholeIsUnique(most, c.maxRenew);
      WholeIsUnique(default_, c.defaultLease);
    }
  }

  function RenewedUntil(c: Config, secs: int, now: Time): Time {
    now + SECOND * Granted(c, secs)
  }

  /** UPDATE leases SET ... WHERE lease_id=id AND done=FALSE AND failed=FALSE */
  function UpdateActive(db: Db, id: Id, row: Lease -> Lease): Db {
    if id in db.leases && db.leases[id].Active()
    then db.(leases := db.leases[id := row(db.leases[id])])
    else db
  }

  function RenewIn(db: Db, id: Id, until: Time, now: Time): Db {
    UpdateActive(db, id, (l: Lease) => l.(expires := until, updated := now))
  }

  function FailIn(db: Db, id: Id, now: Time): Db {
    UpdateActive(db, id, (l: Lease) => l.(failed := true, updated := now))
  }

  function FinishIn(db: Db, id: Id, stats: string, now: Time): Db {
    UpdateActive(db, id, (l: Lease) => l.(done := true, updated := now, metadata := Some(stats)))
  }

  function NewLease(c: Config, order: Id, now: Time): Lease {
    Lease(order, false, false, now, now, now + c.defaultLease, None)
  }

  function AfterCheck(db: Db, id: Id, ok: bool): Pc {
    if !ok || id !in db.leases then Returned(Internal)
    else if !db.leases[id].Active() then Returned(AlreadyExists)
    else Locating
  }

  /** The order's file, if the lease, the order and a readable definition exist. */
  function FileOf(db: Db, id: Id): Option<string> {
    if id in db.leases && db.leases[id].order in db.orders
    then db.orders[db.leases[id].order].file
    else None
  }

  function BatchIdOf(db: Db, id: Id): Option<Id> {
    if id in db.leases && db.leases[id].order in db.orders
    then db.orders[db.leases[id].order].batch
    else None
  }

  function PngOf(db: Db, id: Id): Path
    requires FileOf(db, id).Some?
  {
    PngName(BatchIdOf(db, id), id, DoneBase(FileOf(db, id).value))
  }

  function MetaOf(db: Db, id: Id): Path
    requires FileOf(db, id).Some?
  {
    MetaName(BatchIdOf(db, id), id, DoneBase(FileOf(db, id).value))
  }

  /** The lease's order has a file, and these are the names of the image and the metadata, made from its batch, the lease and the file. */
  predicate ArePaths(db: Db, id: Id, png: Path, meta: Path) {
    && id in db.leases && db.leases[id].order in db.orders
    && var order := db.orders[db.leases[id].order];
    && order.file.Some?
    && png == PngName(order.batch, id, DoneBase(order.file.value))
    && meta == MetaName(order.batch, id, DoneBase(order.file.value))
  }

  /** Both objects are in the store, under those names. */
  ghost predicate StoredAt(db: Db, store: set<Path>, id: Id) {
    exists png, meta :: ArePaths(db, id, png, meta) && png in store && meta in store
  }

  function AfterLocate(db: Db, id: Id, ok: bool): Pc {
    if ok && FileOf(db, id).Some?
    then Uploading(PngOf(db, id), MetaOf(db, id), Probing, Probing)
    else Returned(NotFound)
  }

  function PartName(pc: Pc, part: Part): Path
    requires pc.Uploading?
  {
    if part == Png then pc.png else pc.meta
  }

  function PartUp(pc: Pc, part: Part): Upload
    requires pc.Uploading?
  {
    if part == Png then pc.pngUp else pc.metaUp
  }

  function SetPart(pc: Pc, part: Part, up: Upload): Pc
    requires pc.Uploading?
  {
    if part == Png then pc.(pngUp := up) else pc.(metaUp := up)
  }

  function Goto(s: State, call: nat, pc: Pc): State
    requires call in s.calls
  {
    s.(calls := s.calls[call := s.calls[call].(pc := pc)])
  }

  // ----- Steps

  predicate At(s: State, call: nat, where: Pc -> bool) {
    call in s.calls && where(s.calls[call].pc)
  }

  ghost predicate Enabled(s: State, step: Step) {
    match step
    case Tick(_) => true
    case Add(order, row) => order !in s.db.orders && (row.batch.Some? ==> row.batch.value in s.db.batches)
    case Get(lease, picked) => lease !in s.db.leases && GetQuery.NextOrder(s.db, s.now, Some(picked))
    case Renew(_, _) => true
    case Failed(_) => true
    case DoneStart(call, _, _) => call !in s.calls
    case DoneRenew(call, _) => At(s, call, (pc: Pc) => pc.Renewing?)
    case DoneCheck(call, _) => At(s, call, (pc: Pc) => pc.Checking?)
    case DoneLocate(call, _) => At(s, call, (pc: Pc) => pc.Locating?)
    case DoneProbe(call, part, seen) =>
      && At(s, call, (pc: Pc) => pc.Uploading? && PartUp(pc, part).Probing?)
      && (seen ==> PartName(s.calls[call].pc, part) in s.store)
    case DoneWrite(call, part, lands, ok) =>
      && At(s, call, (pc: Pc) => pc.Uploading? && PartUp(pc, part).Writing?)
      && (ok ==> lands)
    case DoneJoin(call) =>
      At(s, call, (pc: Pc) => pc.Uploading? && pc.pngUp in {Stored, Broken} && pc.metaUp in {Stored, Broken})
    case DoneCommit(call, applied, ok) =>
      && At(s, call, (pc: Pc) => pc.Committing?)
      && (ok ==> applied)
  }

  ghost function Apply(c: Config, s: State, step: Step): State
    requires Enabled(s, step)
  {
    match step
    case Tick(dt) => s.(now := s.now + dt)
    case Add(order, row) => s.(db := s.db.(orders := s.db.orders[order := row]))
    case Get(lease, picked) => s.(db := s.db.(leases := s.db.leases[lease := NewLease(c, picked, s.now)]))
    case Renew(lease, secs) => s.(db := RenewIn(s.db, lease, RenewedUntil(c, secs, s.now), s.now))
    case Failed(lease) => s.(db := FailIn(s.db, lease, s.now))
    case DoneStart(call, lease, stats) => s.(calls := s.calls[call := Call(lease, stats, Renewing)])
    case DoneRenew(call, applied) =>
      var s' := if applied then s.(db := RenewIn(s.db, s.calls[call].lease, RenewedUntil(c, -1, s.now), s.now)) else s;
      Goto(s', call, Checking)
    case DoneCheck(call, ok) => Goto(s, call, AfterCheck(s.db, s.calls[call].lease, ok))
    case DoneLocate(call, ok) => Goto(s, call, AfterLocate(s.db, s.calls[call].lease, ok))
    case DoneProbe(call, part, seen) =>
      Goto(s, call, SetPart(s.calls[call].pc, part, if seen then Stored else Writing))
    case DoneWrite(call, part, lands, ok) =>
      var s' := if lands then s.(store := s.store + {PartName(s.calls[call].pc, part)}) else s;
      Goto(s', call, SetPart(s.calls[call].pc, part, if ok then Stored else Broken))
    case DoneJoin(call) =>
      var pc := s.calls[call].pc;
      Goto(s, call, if pc.pngUp == Stored && pc.metaUp == Stored then Committing else Returned(Internal))
    case DoneCommit(call, applied, ok) =>
      var me := s.calls[call];
      var s' := if applied then s.(db := FinishIn(s.db, me.lease, me.stats, s.now)) else s;
      Goto(s', call, Returned(if ok then Ok else Internal))
  }

  // ----- Runs

  /** No lease has been issued yet, and no `Done` is under way. */
  predicate Init(s: State) {
    s.db.leases == map[] && s.calls == map[]
  }

  /** `states` is what the machine goes through when `steps` happen one after the other. */
  ghost predicate IsRun(c: Config, states: seq<State>, steps: seq<Step>) {
    && |states| == |steps| + 1
    && forall i :: 0 <= i < |steps| ==> Enabled(states[i], steps[i]) && states[i + 1] == Apply(c, states[i], steps[i])
  }

  /** Some run from the start ends in `s`. */
  ghost predicate Reachable(c: Config, s: State) {
    exists states, steps :: IsRun(c, states, steps) && Init(states[0]) && states[|steps|] == s
  }

  lemma ReachableNext(c: Config, s: State, step: Step)
    requires Reachable(c, s) && Enabled(s, step)
    ensures Reachable(c, Apply(c, s, step))
  {
    var states, steps :| IsRun(c, states, steps) && Init(states[0]) && states[|steps|] == s;
    var states', steps' := states + [Apply(c, s, step)], steps + [step];
    forall i | 0 <= i < |steps'|
      ensures Enabled(states'[i], steps'[i]) && states'[i + 1] == Apply(c, states'[i], steps'[i])
    {
      if i < |steps| {
        assert Enabled(states[i], steps[i]) && states[i + 1] == Apply(c, states[i], steps[i]);
      }
    }
    assert IsRun(c, states', steps');
  }

  lemma InitIsReachable(c: Config, s: State)
    requires Init(s)
    ensures Reachable(c, s)
  {
    assert IsRun(c, [s], []);
  }

  /** The lease whose expiry the step moves, if it is a renewal that the database carries out. */
  function Renews(s: State, step: Step): Option<Id> {
    match step
    case Renew(lease, _) => Some(lease)
    case DoneRenew(call, applied) => if applied && call in s.calls then Some(s.calls[call].lease) else None
    case _ => None
  }

  function RenewSecs(step: Step): int {
    if step.Renew? then step.secs else -1
  }

  /** The renewal finds a lease that is still open but has expired. */
  predicate LateRenewal(s: State, step: Step, lease: Id) {
    && Renews(s, step) == Some(lease)
    && lease in s.db.leases
    && s.db.leases[lease].Active()
    && s.db.leases[lease].expires < s.now
  }
}
