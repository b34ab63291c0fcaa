/** A whole demo, block by block: which frames come out, and what they show. */
module DemoRun {
  import opened Options
  import opened DemoMessages
  import opened Interpolation
  import opened DemoScene
  import opened FrameGrid

  datatype Block = Block(viewAngle: Vertex, messages: seq<Message>)

  /** `scene` is None if the server has not named its models yet; such a frame is counted, but not written. */
  datatype Frame = Frame(num: nat, time: real, scene: Option<Scene>)

  /** The converter between two blocks: the snapshot, the current scene, and the frames so far. */
  datatype Converter = Converter(snap: Option<Scene>, cur: Scene, frames: seq<Frame>)

  predicate IsConverter(c: Converter) {
    && IsScene(c.cur)
    && (c.snap.Some? ==> IsScene(c.snap.value))
  }

  predicate IsBlock(b: Block) {
    AllInRange(b.messages)
  }

  predicate IsDemo(blocks: seq<Block>) {
    forall i :: 0 <= i < |blocks| ==> IsBlock(blocks[i])
  }

  function Start(): (c: Converter)
    ensures IsConverter(c)
  {
    Converter(None, NewScene(), [])
  }

  predicate HasTime(ms: seq<Message>) {
    exists i :: 0 <= i < |ms| && ms[i].Time?
  }

  /** The scene after the messages of a block. */
  function AfterMessages(s: Scene, b: Block): (s': Scene)
    requires IsScene(s) && IsBlock(b)
    ensures IsScene(s')
  {
    AppliedAll(if s.cameraSetViewAngle then s else s.(viewAngle := b.viewAngle), b.messages)
  }

  /** The scene at the end of a block in which frames are made. */
  function Now(c: Converter, b: Block): (s: Scene)
    requires IsConverter(c) && IsBlock(b)
    ensures IsScene(s)
  {
    Marked(AfterMessages(c.cur, b))
  }

  function FrameAt(snap: Scene, cur: Scene, num: nat, t: real): Frame
    requires IsScene(snap) && IsScene(cur)
  {
    Frame(num, t, if cur.server.models == [] || cur.time == snap.time then None else Some(FrameScene(snap, cur, t)))
  }

  /** The frames for the times `ts`, numbered from `first`. */
  function FramesAt(snap: Scene, cur: Scene, first: nat, ts: seq<real>): (fs: seq<Frame>)
    requires IsScene(snap) && IsScene(cur)
    ensures |fs| == |ts|
  {
    seq(|ts|, i requires 0 <= i < |ts| => FrameAt(snap, cur, first + i, ts[i]))
  }

  function Due(c: Converter, marked: Scene, fps: real): seq<real>
    requires fps > 0.0
  {
    if c.snap.None? then [] else Grid(c.snap.value.time, marked.time, fps)
  }

  /** The old snapshot is kept for as long as no frame comes out of it. */
  function AfterBlock(c: Converter, b: Block, fps: real): (c': Converter)
    requires IsConverter(c) && IsBlock(b) && fps > 0.0
    ensures IsConverter(c')
  {
    var s := AfterMessages(c.cur, b);
    if !HasTime(b.messages) then c.(cur := s)
    else
      var marked := Marked(s);
      var ts := Due(c, marked, fps);
      var frames := if c.snap.None? then c.frames else c.frames + FramesAt(c.snap.value, marked, |c.frames|, ts);
      if c.snap.None? || ts != []
      then Converter(Some(Copied(marked)), marked.(seen := {}), frames)
      else Converter(c.snap, marked, frames)
  }

  function RunDemo(blocks: seq<Block>, fps: real): (c: Converter)
    requires IsDemo(blocks) && fps > 0.0
    ensures IsConverter(c)
  {
    if blocks == [] then Start()
    else AfterBlock(RunDemo(blocks[..|blocks| - 1], fps), blocks[|blocks| - 1], fps)
  }

  // ----- The frame grid over a whole demo

  /** The last time that a list of messages sets. */
  function LastTime(ms: seq<Message>): real
    requires HasTime(ms)
  {
    var m := ms[|ms| - 1];
    if m.Time? then m.time else LastTime(ms[..|ms| - 1])
  }

  /** The times at the ends of the blocks that set one. */
  function BlockTimes(blocks: seq<Block>): seq<real> {
    if blocks == [] then []
    else
      var b := blocks[|blocks| - 1];
      BlockTimes(blocks[..|blocks| - 1]) + if HasTime(b.messages) then [LastTime(b.messages)] else []
  }

  function MaxReal(ts: seq<real>): real
    requires ts != []
  {
    if |ts| == 1 then ts[0]
    else
      var m := MaxReal(ts[..|ts| - 1]);
      if ts[|ts| - 1] > m then ts[|ts| - 1] else m
  }

  lemma {:induction false} TimeAfterMessages(s: Scene, ms: seq<Message>)
    requires IsScene(s) && AllInRange(ms)
    ensures AppliedAll(s, ms).time == if HasTime(ms) then LastTime(ms) else s.time
  {
    if ms != [] {
      var init, m := ms[..|ms| - 1], ms[|ms| - 1];
      TimeAfterMessages(s, init);
      if m.Time? {
        assert ms[|ms| - 1].Time?;
      } else {
        assert HasTime(ms) <==> HasTime(init);
      }
    }
  }

  /** Frame `j` is number `j`, and is due at grid point `k0 + j`. */
  ghost predicate Numbered(frames: seq<Frame>, k0: int, fps: real)
    requires fps > 0.0
  {
    forall j :: 0 <= j < |frames| ==> frames[j].num == j && frames[j].time == GridTime(k0 + j, fps)
  }

  /** The frames from grid point `k0` up to `m` are out, and the snapshot leads on to `m`. */
  ghost predicate OnGrid(c: Converter, k0: int, m: int, fps: real)
    requires fps > 0.0
  {
    && c.snap.Some?
    && FrameNo(c.snap.value.time, fps) == m
    && |c.frames| == m - k0
    && Numbered(c.frames, k0, fps)
  }

  lemma AddsFrames(frames: seq<Frame>, snap: Scene, marked: Scene, k0: int, m: int, k: int, fps: real)
    requires fps > 0.0 && IsScene(snap) && IsScene(marked)
    requires |frames| == m - k0 && Numbered(frames, k0, fps)
    ensures
      var all := frames + FramesAt(snap, marked, |frames|, GridRange(m, k, fps));
      |all| == (if k > m then k else m) - k0 && Numbered(all, k0, fps)
  {
  }

  lemma TimeAfterBlock(c: Converter, b: Block)
    requires IsConverter(c) && IsBlock(b) && HasTime(b.messages)
    ensures Now(c, b).time == LastTime(b.messages)
  {
    TimeAfterMessages(if c.cur.cameraSetViewAngle then c.cur else c.cur.(viewAngle := b.viewAngle), b.messages);
  }

  lemma BlockOnGrid(c: Converter, b: Block, k0: int, m: int, fps: real)
    requires fps > 0.0 && IsConverter(c) && IsBlock(b) && HasTime(b.messages) && OnGrid(c, k0, m, fps)
    ensures
      var k := FrameNo(LastTime(b.messages), fps);
      OnGrid(AfterBlock(c, b, fps), k0, if k > m then k else m, fps)
  {
    TimeAfterBlock(c, b);
    var marked := Now(c, b);
    var k := FrameNo(marked.time, fps);
    assert Due(c, marked, fps) == GridRange(m, k, fps);
    AddsFrames(c.frames, c.snap.value, marked, k0, m, k, fps);
  }

  lemma FirstBlockOnGrid(c: Converter, b: Block, fps: real)
    requires fps > 0.0 && IsConverter(c) && IsBlock(b) && HasTime(b.messages) && c.snap.None? && c.frames == []
    ensures var k := FrameNo(LastTime(b.messages), fps); OnGrid(AfterBlock(c, b, fps), k, k, fps)
  {
    TimeAfterBlock(c, b);
  }

  /** The number of the grid point that a list of times has got to. */
  ghost function Reached(ts: seq<real>, fps: real): int
    requires ts != []
  {
    FrameNo(MaxReal(ts), fps)
  }

  lemma ReachedNext(ts: seq<real>, t: real, fps: real)
    requires ts != [] && fps > 0.0
    ensures Reached(ts + [t], fps) == if FrameNo(t, fps) > Reached(ts, fps) then FrameNo(t, fps) else Reached(ts, fps)
  {
    var all := ts + [t];
    assert all[..|all| - 1] == ts;
    if t > MaxReal(ts) {
      FrameNoMonotone(MaxReal(ts), t, fps);
    } else {
      FrameNoMonotone(t, MaxReal(ts), fps);
    }
  }

  lemma {:induction false} GridInvariant(blocks: seq<Block>, fps: real)
    requires IsDemo(blocks) && fps > 0.0
    ensures
      var c, ts := RunDemo(blocks, fps), BlockTimes(blocks);
      if ts == [] then c.snap.None? && c.frames == []
      else OnGrid(c, FrameNo(ts[0], fps), Reached(ts, fps), fps)
  {
    if blocks != [] {
      var init, b := blocks[..|blocks| - 1], blocks[|blocks| - 1];
      var c, ts := RunDemo(init, fps), BlockTimes(init);
      GridInvariant(init, fps);
      if HasTime(b.messages) {
        var t := LastTime(b.messages);
        assert BlockTimes(blocks) == ts + [t];
        if ts == [] {
          FirstBlockOnGrid(c, b, fps);
          assert ts + [t] == [t];
        } else {
          BlockOnGrid(c, b, FrameNo(ts[0], fps), Reached(ts, fps), fps);
          ReachedNext(ts, t, fps);
        }
      } else {
        assert BlockTimes(blocks) == ts;
      }
    }
  }

  /**
   However time is cut into blocks, and even if it runs backwards: with t0 the
   first time and M the largest so far, exactly the frames number
   ceil(t0 * fps) up to ceil(M * fps) of the grid have come out, each once
   and in order.
   */
  lemma FrameGridOverDemo(blocks: seq<Block>, fps: real)
    requires IsDemo(blocks) && fps > 0.0
    ensures
      var frames, ts := RunDemo(blocks, fps).frames, BlockTimes(blocks);
      if ts == [] then frames == []
      else
        && |frames| == FrameNo(MaxReal(ts), fps) - FrameNo(ts[0], fps)
        && forall j :: 0 <= j < |frames| ==>
             frames[j].num == j && frames[j].time == GridTime(FrameNo(ts[0], fps) + j, fps)
  {
    GridInvariant(blocks, fps);
  }

  // ----- What the frames of one block show

  /** The block produces frames from the snapshot in `c`. */
  predicate Emits(c: Converter, b: Block, fps: real)
    requires IsConverter(c) && IsBlock(b) && fps > 0.0
  {
    HasTime(b.messages) && Due(c, Now(c, b), fps) != []
  }

  predicate TakesSnapshot(c: Converter, b: Block, fps: real)
    requires IsConverter(c) && IsBlock(b) && fps > 0.0
  {
    HasTime(b.messages) && (c.snap.None? || Emits(c, b, fps))
  }

  /** How many blocks there are up to and including the last one after which a snapshot was taken. */
  function SinceSnapshot(blocks: seq<Block>, fps: real): (k: nat)
    requires IsDemo(blocks) && fps > 0.0
    ensures k <= |blocks|
  {
    if blocks == [] then 0
    else
      var init := blocks[..|blocks| - 1];
      if TakesSnapshot(RunDemo(init, fps), blocks[|blocks| - 1], fps) then |blocks| else SinceSnapshot(init, fps)
  }

  /** Some message of the blocks updates entity `n`. */
  predicate Updated(blocks: seq<Block>, n: nat) {
    exists i, j :: 0 <= i < |blocks| && 0 <= j < |blocks[i].messages|
      && blocks[i].messages[j].Move? && blocks[i].messages[j].update.entity == n
  }

  predicate UpdatedIn(ms: seq<Message>, n: nat) {
    exists j :: 0 <= j < |ms| && ms[j].Move? && ms[j].update.entity == n
  }

  lemma {:induction false} SeenAfterMessages(s: Scene, ms: seq<Message>, n: nat)
    requires IsScene(s) && AllInRange(ms)
    ensures n in AppliedAll(s, ms).seen <==> n in s.seen || UpdatedIn(ms, n)
  {
    if ms != [] {
      var init := ms[..|ms| - 1];
      SeenAfterMessages(s, init, n);
      if UpdatedIn(init, n) {
        var j :| 0 <= j < |init| && init[j].Move? && init[j].update.entity == n;
        assert ms[j].Move? && ms[j].update.entity == n;
      }
      if UpdatedIn(ms, n) {
        var j :| 0 <= j < |ms| && ms[j].Move? && ms[j].update.entity == n;
        assert j < |ms| - 1 ==> init[j].Move?;
      }
      if ms[|ms| - 1].Move? && ms[|ms| - 1].update.entity == n {
        assert UpdatedIn(ms, n);
      }
    }
  }

  lemma UpdatedByLast(blocks: seq<Block>, n: nat)
    requires blocks != []
    ensures Updated(blocks, n) <==> Updated(blocks[..|blocks| - 1], n) || UpdatedIn(blocks[|blocks| - 1].messages, n)
  {
    var init, b := blocks[..|blocks| - 1], blocks[|blocks| - 1];
    if Updated(blocks, n) {
      var i, j :| 0 <= i < |blocks| && 0 <= j < |blocks[i].messages|
        && blocks[i].messages[j].Move? && blocks[i].messages[j].update.entity == n;
      assert i < |init| ==> init[i].messages[j].Move?;
    }
    if Updated(init, n) {
      var i, j :| 0 <= i < |init| && 0 <= j < |init[i].messages|
        && init[i].messages[j].Move? && init[i].messages[j].update.entity == n;
      assert blocks[i].messages[j].Move?;
    }
    if UpdatedIn(b.messages, n) {
      var j :| 0 <= j < |b.messages| && b.messages[j].Move? && b.messages[j].update.entity == n;
      assert blocks[|blocks| - 1].messages[j].Move?;
    }
  }

  lemma SeenAfterBlock(c: Converter, b: Block, fps: real, n: nat)
    requires IsConverter(c) && IsBlock(b) && fps > 0.0
    ensures n in AfterBlock(c, b, fps).cur.seen <==>
      !TakesSnapshot(c, b, fps) && (n in c.cur.seen || UpdatedIn(b.messages, n))
  {
    SeenAfterBlockMessages(c, b, n);
  }

  /** The seen set is what was updated since the last snapshot. */
  lemma {:induction false} SeenSinceSnapshot(blocks: seq<Block>, fps: real, n: nat)
    requires IsDemo(blocks) && fps > 0.0
    ensures n in RunDemo(blocks, fps).cur.seen <==> Updated(blocks[SinceSnapshot(blocks, fps)..], n)
  {
    if blocks != [] {
      var init, b := blocks[..|blocks| - 1], blocks[|blocks| - 1];
      var c := RunDemo(init, fps);
      var k := SinceSnapshot(init, fps);
      SeenSinceSnapshot(init, fps, n);
      SeenAfterBlock(c, b, fps, n);
      if !TakesSnapshot(c, b, fps) {
        UpdatedByLast(blocks[k..], n);
        assert blocks[k..][..|blocks[k..]| - 1] == init[k..];
      }
    }
  }

  lemma SeenAfterBlockMessages(c: Converter, b: Block, n: nat)
    requires IsConverter(c) && IsBlock(b)
    ensures n in AfterMessages(c.cur, b).seen <==> n in c.cur.seen || UpdatedIn(b.messages, n)
  {
    SeenAfterMessages(if c.cur.cameraSetViewAngle then c.cur else c.cur.(viewAngle := b.viewAngle), b.messages, n);
  }

  /** The block adds a frame number `i` of its own to the output. */
  predicate Adds(c: Converter, b: Block, fps: real, i: nat) {
    && IsConverter(c) && IsBlock(b) && fps > 0.0
    && HasTime(b.messages) && c.snap.Some?
    && i < |Due(c, Now(c, b), fps)|
  }

  function NewFrame(c: Converter, b: Block, fps: real, i: nat): Frame
    requires Adds(c, b, fps, i)
  {
    FrameAt(c.snap.value, Now(c, b), |c.frames| + i, Due(c, Now(c, b), fps)[i])
  }

  /** A new frame lies between the snapshot and the end of the block, as a fraction in [0, 1). */
  lemma FrameTime(c: Converter, b: Block, fps: real, i: nat)
    requires Adds(c, b, fps, i)
    ensures
      var snap, now, t := c.snap.value, Now(c, b), NewFrame(c, b, fps, i).time;
      && snap.time <= t < now.time
      && 0.0 <= Progress(snap, now, t) < 1.0
  {
    var snap, now := c.snap.value, Now(c, b);
    var t := Due(c, now, fps)[i];
    GridIsComplete(snap.time, now.time, fps, t);
    ProgressInRange(snap, now, t);
  }

  lemma FrameIsOutput(c: Converter, b: Block, fps: real, i: nat)
    requires Adds(c, b, fps, i)
    ensures
      && |c.frames| + i < |AfterBlock(c, b, fps).frames|
      && AfterBlock(c, b, fps).frames[|c.frames| + i] == NewFrame(c, b, fps, i)
  {
  }

  /** The frame is written, and entity `n` does not jump in it because of a new model. */
  predicate Glides(c: Converter, b: Block, fps: real, i: nat, n: nat)
    requires Adds(c, b, fps, i) && n < MAX_ENTITIES
  {
    NewFrame(c, b, fps, i).scene.Some? && c.snap.value.entities[n].model == Now(c, b).entities[n].model
  }

  /** In a written frame an entity that keeps its model is between its old and its new place, and as visible as it is now. */
  lemma FrameShows(c: Converter, b: Block, fps: real, i: nat, n: nat)
    requires Adds(c, b, fps, i) && n < MAX_ENTITIES
    ensures Glides(c, b, fps, i, n) ==>
      var e0, e1, e := c.snap.value.entities[n], Now(c, b).entities[n], NewFrame(c, b, fps, i).scene.value.entities[n];
      PlacedBetween(e, e0, e1) && e.visible == e1.visible
  {
    var e0, e1 := c.snap.value.entities[n], Now(c, b).entities[n];
    FrameTime(c, b, fps, i);
    if e0.model == e1.model {
      EntityBetween(e0, e1, Progress(c.snap.value, Now(c, b), NewFrame(c, b, fps, i).time));
    }
  }

  /** So it is visible in the frame if it is the world, or was updated since the last snapshot, and only then. */
  lemma VisibleInFrame(blocks: seq<Block>, b: Block, fps: real, i: nat, n: nat)
    requires IsDemo(blocks) && fps > 0.0 && Adds(RunDemo(blocks, fps), b, fps, i) && n < MAX_ENTITIES
    ensures var c := RunDemo(blocks, fps);
      Glides(c, b, fps, i, n) ==>
        (NewFrame(c, b, fps, i).scene.value.entities[n].visible <==>
          n == 0 || Updated((blocks + [b])[SinceSnapshot(blocks, fps)..], n))
  {
    FrameShows(RunDemo(blocks, fps), b, fps, i, n);
    VisibleIffUpdated(blocks, b, fps, n);
  }

  predicate PlacedBetween(e: Entity, e0: Entity, e1: Entity) {
    && Between(e.pos.x, e0.pos.x, e1.pos.x)
    && Between(e.pos.y, e0.pos.y, e1.pos.y)
    && Between(e.pos.z, e0.pos.z, e1.pos.z)
  }

  lemma ProgressInRange(snap: Scene, cur: Scene, t: real)
    requires snap.time <= t < cur.time
    ensures 0.0 <= Progress(snap, cur, t) < 1.0
  {
    Fraction(t - snap.time, cur.time - snap.time);
  }

  lemma EntityBetween(e0: Entity, e1: Entity, ival: real)
    requires 0.0 <= ival < 1.0 && e0.model == e1.model
    ensures
      var e := Tween(e0, e1, ival);
      PlacedBetween(e, e0, e1) && e.visible == e1.visible
  {
    MixIsBetween(e0.pos.x, e1.pos.x, ival);
    MixIsBetween(e0.pos.y, e1.pos.y, ival);
    MixIsBetween(e0.pos.z, e1.pos.z, ival);
  }

  lemma VisibleIffUpdated(blocks: seq<Block>, b: Block, fps: real, n: nat)
    requires IsDemo(blocks) && IsBlock(b) && fps > 0.0 && n < MAX_ENTITIES
    ensures Now(RunDemo(blocks, fps), b).entities[n].visible
       <==> n == 0 || Updated((blocks + [b])[SinceSnapshot(blocks, fps)..], n)
  {
    var k := SinceSnapshot(blocks, fps);
    SeenSinceSnapshot(blocks, fps, n);
    SeenAfterBlockMessages(RunDemo(blocks, fps), b, n);
    var tail := (blocks + [b])[k..];
    UpdatedByLast(tail, n);
    assert tail[..|tail| - 1] == blocks[k..];
  }

  // ----- The camera

  /**
   Fast cameras are meant to jump instead of glide, and their direction does.
   Their position is set for the jump too, but then overwritten along with
   all other entities: the camera is where the jump would put it exactly if
   its entity changed its model, did not move, or the frame is at the very
   start of the interval.
   */
  lemma CameraPositionJumpsIff(snap: Scene, cur: Scene, t: real)
    requires IsScene(snap) && IsScene(cur) && snap.time <= t < cur.time
    requires TooFast(snap, cur)
    ensures
      var ival, cam := Progress(snap, cur, t), cur.cameraEnt;
      var nearest := if ival < 0.5 then snap else cur;
      && FrameScene(snap, cur, t).viewAngle == nearest.viewAngle
      && (FrameScene(snap, cur, t).entities[cam].pos == nearest.entities[cam].pos <==>
            || snap.entities[cam].model != cur.entities[cam].model
            || snap.entities[cam].pos == cur.entities[cam].pos
            || ival == 0.0)
  {
    var ival, cam := Progress(snap, cur, t), cur.cameraEnt;
    var p, q := snap.entities[cam].pos, cur.entities[cam].pos;
    ProgressInRange(snap, cur, t);
    MixEnds(p.x, q.x, ival);
    MixEnds(p.y, q.y, ival);
    MixEnds(p.z, q.z, ival);
  }

  const FAST_SERVER := NO_SERVER.(models := [[97]])
  const FAST_MOVE := Update(0, None, None, None, None, None, Some(100.0), None, None, None, None, None)

  /** A demo in which the camera, which is with entity 0, moves by 100 in a second. */
  const FAST_START := Block(ORIGIN, [Server(FAST_SERVER), Time(0.0)])
  const FAST_END := Block(ORIGIN, [Move(FAST_MOVE), Time(1.0)])

  /** The scene of that demo with the camera at `x`, at time `t`. */
  function FastScene(x: real, t: real, seen: set<nat>): (s: Scene)
    ensures IsScene(s)
  {
    Marked(NewScene().(
      time := t, server := FAST_SERVER, seen := seen,
      entities := NewScene().entities[0 := NEW_ENTITY.(pos := Vertex(x, 0.0, 0.0))]))
  }

  lemma AppliedPair(s: Scene, m: Message, m': Message)
    requires IsScene(s) && InRange(m) && InRange(m')
    ensures AppliedAll(s, [m, m']) == Applied(Applied(s, m), m')
  {
    assert [m, m'][..1] == [m] && [m][..0] == [];
    assert AppliedAll(s, [m]) == Applied(s, m);
  }

  lemma FastStartScene()
    ensures RunDemo([FAST_START], 4.0) == Converter(Some(FastScene(0.0, 0.0, {})), FastScene(0.0, 0.0, {}), [])
  {
    assert [FAST_START][..0] == [];
    AppliedPair(NewScene(), Server(FAST_SERVER), Time(0.0));
    assert FAST_START.messages[1].Time?;
    assert NewScene().(viewAngle := ORIGIN) == NewScene();
    assert Now(Start(), FAST_START) == FastScene(0.0, 0.0, {});
  }

  lemma FastEndScene()
    ensures Now(RunDemo([FAST_START], 4.0), FAST_END) == FastScene(100.0, 1.0, {0})
  {
    FastStartScene();
    var s := FastScene(0.0, 0.0, {});
    AppliedPair(s, Move(FAST_MOVE), Time(1.0));
    assert s.(viewAngle := ORIGIN) == s;
    assert Now(RunDemo([FAST_START], 4.0), FAST_END).entities == FastScene(100.0, 1.0, {0}).entities;
  }

  /**
   The camera is too fast, and yet in the second of the four frames, a quarter
   of the way, it is a quarter of the way.
   */
  lemma FastCameraGlides()
    ensures IsDemo([FAST_START, FAST_END])
    ensures
      var c := RunDemo([FAST_START], 4.0);
      c.snap.Some? && TooFast(c.snap.value, Now(c, FAST_END))
    ensures
      var frames := RunDemo([FAST_START, FAST_END], 4.0).frames;
      && |frames| == 4 && frames[1].time == 0.25
      && frames[1].scene.Some? && IsScene(frames[1].scene.value) && frames[1].scene.value.cameraEnt == 0
      && frames[1].scene.value.entities[0].pos == Vertex(25.0, 0.0, 0.0)
  {
    var blocks := [FAST_START, FAST_END];
    FastStartScene();
    FastEndScene();
    assert blocks[..1] == [FAST_START];
    assert FAST_END.messages[1].Time?;
    var c := RunDemo([FAST_START], 4.0);
    var snap, cur := c.snap.value, Now(c, FAST_END);
    assert SquaredDistance(snap.entities[0].pos, cur.entities[0].pos) == 10000.0;
    assert FrameNo(0.0, 4.0) == 0 && FrameNo(1.0, 4.0) == 4;
    assert Due(c, cur, 4.0)[1] == 0.25;
    FrameIsOutput(c, FAST_END, 4.0, 1);
    assert Progress(snap, cur, 0.25) == 0.25;
  }

  lemma MixEnds(a: real, b: real, t: real)
    ensures Mix(a, b, t) == a <==> t == 0.0 || a == b
    ensures Mix(a, b, t) == b <==> t == 1.0 || a == b
  {
    var d := b - a;
    ZeroProduct(t, d);
    ZeroProduct(1.0 - t, d);
    Distributes(t, d);
  }

  lemma ZeroProduct(x: real, y: real)
    ensures x * y == 0.0 <==> x == 0.0 || y == 0.0
  {
  }
}
