/** Nothing is marked done before its results are in cloud storage. */
module Uploads {
  import opened Options
  import opened Tables
  import opened ObjectPaths
  import opened LeaseMachine
  import opened Chains
  import LeaseRuns
  import ObjectDirs

  /** The lease belongs to an order with a file, and both its objects exist. */
  predicate ResultStored(s: State, id: Id) {
    && FileOf(s.db, id).Some?
    && PngOf(s.db, id) in s.store
    && MetaOf(s.db, id) in s.store
  }

  predicate Closed(s: State, id: Id) {
    id in s.db.leases && !s.db.leases[id].Active()
  }

  /** What a `Done` call knows at each point, whatever the others are doing. */
  predicate CallKnows(s: State, me: Call) {
    match me.pc
    case Renewing => true
    case Checking => true
    case Locating => me.lease in s.db.leases
    case Uploading(png, meta, pngUp, metaUp) =>
      && FileOf(s.db, me.lease).Some?
      && png == PngOf(s.db, me.lease)
      && meta == MetaOf(s.db, me.lease)
      && (pngUp == Stored ==> png in s.store)
      && (metaUp == Stored ==> meta in s.store)
    case Committing => ResultStored(s, me.lease)
    case Returned(Ok) => Closed(s, me.lease) && ResultStored(s, me.lease)
    case Returned(AlreadyExists) => Closed(s, me.lease)
    case Returned(_) => true
  }

  ghost predicate Inv(s: State) {
    && (forall id :: id in s.db.leases && s.db.leases[id].done ==> ResultStored(s, id))
    && (forall call :: call in s.calls ==> CallKnows(s, s.calls[call]))
  }

  /** Orders are never edited and leases never deleted, so a lease keeps its files; objects are never deleted. */
  lemma FilesStay(c: Config, s: State, step: Step, id: Id)
    requires Enabled(s, step)
    requires FileOf(s.db, id).Some?
    ensures
      var s' := Apply(c, s, step);
      && FileOf(s'.db, id) == FileOf(s.db, id)
      && PngOf(s'.db, id) == PngOf(s.db, id)
      && MetaOf(s'.db, id) == MetaOf(s.db, id)
    ensures s.store <= Apply(c, s, step).store
  {
    LeaseRuns.StepOnLease(c, s, step, id);
  }

  /** The call in which the step happens, if any. */
  function CallOf(step: Step): Option<nat> {
    match step
    case DoneStart(call, _, _) => Some(call)
    case DoneRenew(call, _) => Some(call)
    case DoneCheck(call, _) => Some(call)
    case DoneLocate(call, _) => Some(call)
    case DoneProbe(call, _, _) => Some(call)
    case DoneWrite(call, _, _, _) => Some(call)
    case DoneJoin(call) => Some(call)
    case DoneCommit(call, _, _) => Some(call)
    case _ => None
  }

  /** Interference: no step of another call, or of any other RPC, takes away what a call knows. */
  lemma KnowledgeIsStable(c: Config, s: State, step: Step, me: Call)
    requires Enabled(s, step) && CallKnows(s, me)
    ensures CallKnows(Apply(c, s, step), me)
  {
    if FileOf(s.db, me.lease).Some? {
      FilesStay(c, s, step, me.lease);
    }
    if me.lease in s.db.leases {
      LeaseRuns.StepOnLease(c, s, step, me.lease);
    }
  }

  lemma OwnStep(c: Config, s: State, step: Step, call: nat)
    requires Enabled(s, step) && CallOf(step) == Some(call)
    requires call in s.calls ==> CallKnows(s, s.calls[call])
    ensures call in Apply(c, s, step).calls && CallKnows(Apply(c, s, step), Apply(c, s, step).calls[call])
  {
    if call in s.calls {
      var me := s.calls[call];
      if FileOf(s.db, me.lease).Some? {
        FilesStay(c, s, step, me.lease);
      }
    }
  }

  lemma DoneLeasesStored(c: Config, s: State, step: Step, id: Id)
    requires Enabled(s, step) && Inv(s)
    requires id in Apply(c, s, step).db.leases && Apply(c, s, step).db.leases[id].done
    ensures ResultStored(Apply(c, s, step), id)
  {
    if id in s.db.leases {
      LeaseRuns.StepOnLease(c, s, step, id);
      if !s.db.leases[id].done {
        assert step.DoneCommit? && s.calls[step.call].lease == id;
      }
      FilesStay(c, s, step, id);
    }
  }

  lemma InvStep(c: Config, s: State, step: Step)
    requires Enabled(s, step) && Inv(s)
    ensures Inv(Apply(c, s, step))
  {
    var s' := Apply(c, s, step);
    forall id | id in s'.db.leases && s'.db.leases[id].done ensures ResultStored(s', id) {
      DoneLeasesStored(c, s, step, id);
    }
    forall call | call in s'.calls ensures CallKnows(s', s'.calls[call]) {
      if CallOf(step) == Some(call) {
        OwnStep(c, s, step, call);
      } else {
        assert call in s.calls && s'.calls[call] == s.calls[call];
        KnowledgeIsStable(c, s, step, s.calls[call]);
      }
    }
  }

  lemma InvAlways(c: Config, states: seq<State>, steps: seq<Step>, i: nat)
    requires IsRun(c, states, steps) && Init(states[0]) && i <= |steps|
    ensures Inv(states[i])
  {
    var inv := (s: State) => Inv(s);
    forall k | 0 <= k < i && inv(states[k])
      ensures inv(states[k + 1])
    {
      InvStep(c, states[k], steps[k]);
    }
    Always(states, inv, 0, i);
  }

  /** Whatever happens in between, a call that uploads has the image's name for the image and the metadata's for the metadata. */
  lemma UploadNames(c: Config, states: seq<State>, steps: seq<Step>, i: nat, call: nat)
    requires IsRun(c, states, steps) && Init(states[0]) && i <= |steps|
    requires call in states[i].calls && states[i].calls[call].pc.Uploading?
    ensures
      var me := states[i].calls[call];
      ArePaths(states[i].db, me.lease, me.pc.png, me.pc.meta)
  {
    InvAlways(c, states, steps, i);
    assert CallKnows(states[i], states[i].calls[call]);
  }

  lemma StoredHere(s: State, id: Id)
    requires ResultStored(s, id)
    ensures StoredAt(s.db, s.store, id)
  {
    assert ArePaths(s.db, id, PngOf(s.db, id), MetaOf(s.db, id));
  }

  /**
   Upload before commit: in every reachable state, with any number of retried,
   concurrent and broken `Done` calls, a done lease has both its objects, and
   if its order's file ends in ".pov" the image is where `Result` looks for it.
   */
  lemma DoneMeansStored(c: Config, states: seq<State>, steps: seq<Step>, i: nat, id: Id)
    requires IsRun(c, states, steps) && Init(states[0]) && i <= |steps|
    requires id in states[i].db.leases && states[i].db.leases[id].done
    ensures StoredAt(states[i].db, states[i].store, id)
    ensures
      var order := states[i].db.orders[states[i].db.leases[id].order];
      EndsWith(order.file.value, ".pov") ==> PngName(order.batch, id, ResultBase(order.file.value)) in states[i].store
  {
    InvAlways(c, states, steps, i);
    StoredHere(states[i], id);
    var file := FileOf(states[i].db, id).value;
    if EndsWith(file, ".pov") {
      PovFilesAreFound(BatchIdOf(states[i].db, id), id, file);
    }
  }

  /**
   The objects that two leases need are four different ones, if neither order's
   file leads out of its directory; then neither lease can be done with the
   other's results.
   */
  lemma ResultsAreApart(db: Db, a: Id, b: Id)
    requires FileOf(db, a).Some? && FileOf(db, b).Some? && a != b
    requires ObjectDirs.IsName(a) && ObjectDirs.IsOptName(BatchIdOf(db, a))
    requires ObjectDirs.IsName(b) && ObjectDirs.IsOptName(BatchIdOf(db, b))
    requires ObjectDirs.StaysInside(FileOf(db, a).value) && ObjectDirs.StaysInside(FileOf(db, b).value)
    ensures {PngOf(db, a), MetaOf(db, a)} !! {PngOf(db, b), MetaOf(db, b)}
    ensures PngOf(db, a) != MetaOf(db, a)
  {
    var f, g := FileOf(db, a).value, FileOf(db, b).value;
    var x, y := BatchIdOf(db, a), BatchIdOf(db, b);
    ObjectDirs.NamesDiffer(x, a, f, ".png", y, b, g, ".png");
    ObjectDirs.NamesDiffer(x, a, f, ".png", y, b, g, ".meta.pb.gz");
    ObjectDirs.NamesDiffer(x, a, f, ".meta.pb.gz", y, b, g, ".png");
    ObjectDirs.NamesDiffer(x, a, f, ".meta.pb.gz", y, b, g, ".meta.pb.gz");
    PngIsNotMeta(x, a, DoneBase(f), x, a, DoneBase(f));
  }

  /** The client's wrapper takes "already exists" for success. */
  predicate ClientSucceeds(reply: Reply) {
    reply == Ok || reply == AlreadyExists
  }

  /**
   A client that stops retrying leaves nothing behind: its lease is closed,
   now and ever after, and unless somebody declared it failed, it is done and
   its results are stored. A plain OK means stored results in any case.
   */
  lemma ClientMayStop(c: Config, states: seq<State>, steps: seq<Step>, i: nat, j: nat, call: nat)
    requires IsRun(c, states, steps) && Init(states[0]) && i <= j <= |steps|
    requires call in states[i].calls && states[i].calls[call].pc.Returned?
    requires ClientSucceeds(states[i].calls[call].pc.reply)
    ensures
      var id := states[i].calls[call].lease;
      && Closed(states[i], id)
      && Closed(states[j], id) && states[j].db.leases[id] == states[i].db.leases[id]
      && (states[i].calls[call].pc.reply == Ok || !states[j].db.leases[id].failed ==> StoredAt(states[j].db, states[j].store, id))
  {
    InvAlways(c, states, steps, i);
    InvAlways(c, states, steps, j);
    var id := states[i].calls[call].lease;
    LeaseRuns.LeasePersists(c, states, steps, i, j, id);
    if states[i].calls[call].pc.reply == Ok {
      StoredForGood(c, states, steps, i, j, id);
    }
    if states[i].calls[call].pc.reply == Ok || !states[j].db.leases[id].failed {
      StoredHere(states[j], id);
    }
  }

  lemma StoredNext(c: Config, s: State, step: Step, id: Id)
    requires Enabled(s, step) && ResultStored(s, id)
    ensures ResultStored(Apply(c, s, step), id)
  {
    FilesStay(c, s, step, id);
  }

  lemma StoredForGood(c: Config, states: seq<State>, steps: seq<Step>, i: nat, j: nat, id: Id)
    requires IsRun(c, states, steps) && i <= j <= |steps|
    requires ResultStored(states[i], id)
    ensures ResultStored(states[j], id)
  {
    var inv := (s: State) => ResultStored(s, id);
    forall k | i <= k < j && inv(states[k])
      ensures inv(states[k + 1])
    {
      StoredNext(c, states[k], steps[k], id);
    }
    Always(states, inv, i, j);
  }

  /**
   `Done` does not look at how many rows its last statement changed. It has
   closed the lease either way, but the lease is done exactly if nobody
   declared it failed between the check and this statement.
   */
  lemma CommitOutcome(c: Config, states: seq<State>, steps: seq<Step>, i: nat)
    requires IsRun(c, states, steps) && Init(states[0]) && i < |steps|
    requires steps[i].DoneCommit? && steps[i].applied
    ensures
      var id := states[i].calls[steps[i].call].lease;
      && id in states[i].db.leases && Closed(states[i + 1], id)
      && (states[i + 1].db.leases[id].done <==> !states[i].db.leases[id].failed)
  {
    InvAlways(c, states, steps, i);
    var id := states[i].calls[steps[i].call].lease;
    assert ResultStored(states[i], id);
    LeaseRuns.NeverBoth(c, states, steps, i, id);
  }

  // ----- It does happen: a failure is declared while Done is about to commit, and Done answers OK all the same

  function RacePng(): Path {
    PngName(None, "a", DoneBase("a.pov"))
  }

  function RaceMeta(): Path {
    MetaName(None, "a", DoneBase("a.pov"))
  }

  const RACE_LEASE := LeaseRuns.WitnessLease(0, 0, SECOND)

  /** One lease, one call for it, and nothing else. */
  function RaceState(lease: Lease, store: set<Path>, pc: Pc): State {
    LeaseRuns.WitnessState(map["a" := lease], 0).(store := store, calls := map[0 := Call("a", "stats", pc)])
  }

  function RaceUploading(png: Upload, meta: Upload): Pc {
    Uploading(RacePng(), RaceMeta(), png, meta)
  }

  lemma RaceGoto(lease: Lease, store: set<Path>, pc: Pc, pc': Pc)
    ensures Goto(RaceState(lease, store, pc), 0, pc') == RaceState(lease, store, pc')
  {
    var me := Call("a", "stats", pc);
    assert map[0 := me][0 := me.(pc := pc')] == map[0 := me.(pc := pc')];
  }

  ghost predicate CanBe(s: State) {
    Reachable(LeaseRuns.WITNESS_CONFIG, s)
  }

  lemma CanBeNext(s: State, step: Step, s': State)
    requires CanBe(s) && Enabled(s, step) && s' == Apply(LeaseRuns.WITNESS_CONFIG, s, step)
    ensures CanBe(s')
  {
    ReachableNext(LeaseRuns.WITNESS_CONFIG, s, step);
  }

  lemma RaceGet()
    ensures CanBe(LeaseRuns.WitnessState(map["a" := RACE_LEASE], 0))
  {
    var s := LeaseRuns.WitnessState(map[], 0);
    InitIsReachable(LeaseRuns.WITNESS_CONFIG, s);
    LeaseRuns.WitnessGets(map[], 0, "a");
    assert map["a" := RACE_LEASE] == map[]["a" := RACE_LEASE];
    CanBeNext(s, Get("a", "o"), LeaseRuns.WitnessState(map["a" := RACE_LEASE], 0));
  }

  lemma RaceStart(l: Lease)
    requires CanBe(LeaseRuns.WitnessState(map["a" := l], 0))
    ensures CanBe(RaceState(l, {}, Renewing))
  {
    assert map[][0 := Call("a", "stats", Renewing)] == map[0 := Call("a", "stats", Renewing)];
    CanBeNext(LeaseRuns.WitnessState(map["a" := l], 0), DoneStart(0, "a", "stats"), RaceState(l, {}, Renewing));
  }

  lemma RaceRenew()
    requires CanBe(RaceState(RACE_LEASE, {}, Renewing))
    ensures CanBe(RaceState(RACE_LEASE, {}, Checking))
  {
    var l := RACE_LEASE;
    assert Granted(LeaseRuns.WITNESS_CONFIG, -1) == 1;
    assert map["a" := l]["a" := l.(expires := SECOND, updated := 0)] == map["a" := l];
    RaceGoto(l, {}, Renewing, Checking);
    CanBeNext(RaceState(l, {}, Renewing), DoneRenew(0, true), RaceState(l, {}, Checking));
  }

  lemma RaceCheck(l: Lease)
    requires l.Active() && l.order == "o" && CanBe(RaceState(l, {}, Checking))
    ensures CanBe(RaceState(l, {}, Locating))
  {
    RaceGoto(l, {}, Checking, Locating);
    CanBeNext(RaceState(l, {}, Checking), DoneCheck(0, true), RaceState(l, {}, Locating));
  }

  lemma RaceLocate(l: Lease)
    requires l.order == "o" && CanBe(RaceState(l, {}, Locating))
    ensures CanBe(RaceState(l, {}, RaceUploading(Probing, Probing)))
  {
    RaceGoto(l, {}, Locating, RaceUploading(Probing, Probing));
    CanBeNext(RaceState(l, {}, Locating), DoneLocate(0, true), RaceState(l, {}, RaceUploading(Probing, Probing)));
  }

  lemma RaceUpload(l: Lease, store: set<Path>, pc: Pc, part: Part)
    requires pc.Uploading? && PartUp(pc, part) == Probing && CanBe(RaceState(l, store, pc))
    ensures CanBe(RaceState(l, store + {PartName(pc, part)}, SetPart(pc, part, Stored)))
  {
    var writing := SetPart(pc, part, Writing);
    RaceGoto(l, store, pc, writing);
    CanBeNext(RaceState(l, store, pc), DoneProbe(0, part, false), RaceState(l, store, writing));
    RaceWrite(l, store, writing, part);
  }

  lemma RaceWrite(l: Lease, store: set<Path>, pc: Pc, part: Part)
    requires pc.Uploading? && PartUp(pc, part) == Writing && CanBe(RaceState(l, store, pc))
    ensures CanBe(RaceState(l, store + {PartName(pc, part)}, SetPart(pc, part, Stored)))
  {
    var store' := store + {PartName(pc, part)};
    RaceGoto(l, store', pc, SetPart(pc, part, Stored));
    CanBeNext(RaceState(l, store, pc), DoneWrite(0, part, true, true), RaceState(l, store', SetPart(pc, part, Stored)));
  }

  lemma RaceJoin(l: Lease, store: set<Path>)
    requires CanBe(RaceState(l, store, RaceUploading(Stored, Stored)))
    ensures CanBe(RaceState(l, store, Committing))
  {
    RaceGoto(l, store, RaceUploading(Stored, Stored), Committing);
    CanBeNext(RaceState(l, store, RaceUploading(Stored, Stored)), DoneJoin(0), RaceState(l, store, Committing));
  }

  lemma RaceFail(l: Lease, store: set<Path>)
    requires l.Active() && l.updated == 0 && CanBe(RaceState(l, store, Committing))
    ensures CanBe(RaceState(l.(failed := true), store, Committing))
  {
    assert map["a" := l]["a" := l.(failed := true, updated := 0)] == map["a" := l.(failed := true)];
    CanBeNext(RaceState(l, store, Committing), Failed("a"), RaceState(l.(failed := true), store, Committing));
  }

  lemma RaceCommit(l: Lease, store: set<Path>)
    requires l.failed && CanBe(RaceState(l, store, Committing))
    ensures CanBe(RaceState(l, store, Returned(Ok)))
  {
    RaceGoto(l, store, Committing, Returned(Ok));
    CanBeNext(RaceState(l, store, Committing), DoneCommit(0, true, true), RaceState(l, store, Returned(Ok)));
  }

  /** A state that runs do reach, in which Done has answered OK, although its lease is failed and not done. */
  lemma OkAlthoughFailed() returns (s: State)
    ensures Reachable(LeaseRuns.WITNESS_CONFIG, s)
    ensures 0 in s.calls && s.calls[0] == Call("a", "stats", Returned(Ok))
    ensures "a" in s.db.leases && s.db.leases["a"].failed && !s.db.leases["a"].done
  {
    var l := RACE_LEASE;
    RaceGet();
    RaceStart(l);
    RaceRenew();
    RaceCheck(l);
    RaceLocate(l);
    RaceUpload(l, {}, RaceUploading(Probing, Probing), Png);
    var png := {} + {RacePng()};
    RaceUpload(l, png, RaceUploading(Stored, Probing), Meta);
    var both := png + {RaceMeta()};
    RaceJoin(l, both);
    RaceFail(l, both);
    RaceCommit(l.(failed := true), both);
    s := RaceState(l.(failed := true), both, Returned(Ok));
  }
}
