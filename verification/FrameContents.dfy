/**
 What a written frame shows of the two scenes that it lies between, number by
 number, and what the converter remembers from block to block.
 */
module FrameContents {
  import opened Options
  import opened DemoMessages
  import opened Interpolation
  import opened DemoScene
  import opened DemoRun

  // ----- Between two numbers

  /** `x` is the fraction `t` of the way from `a` to `b`. */
  predicate OnTheWay(a: real, b: real, x: real, t: real) {
    x - a == t * (b - a)
  }

  predicate PlaceOnTheWay(v: Vertex, w: Vertex, x: Vertex, t: real) {
    OnTheWay(v.x, w.x, x.x, t) && OnTheWay(v.y, w.y, x.y, t) && OnTheWay(v.z, w.z, x.z, t)
  }

  /** `x` is the direction at the fraction `t` of the arc from `a` to `b`. */
  ghost predicate OnTheArc(a: real, b: real, x: real, t: real) {
    SameDirection(x, ArcStart(a, b) + t * ArcLength(a, b))
  }

  ghost predicate AngleOnTheArc(v: Vertex, w: Vertex, x: Vertex, t: real) {
    OnTheArc(v.x, w.x, x.x, t) && OnTheArc(v.y, w.y, x.y, t) && OnTheArc(v.z, w.z, x.z, t)
  }

  lemma TurnsOnTheArc(v: Vertex, w: Vertex, t: real)
    ensures AngleOnTheArc(v, w, InterpolateAngle(v, w, t), t)
  {
    FollowsArc(v.x, w.x, t);
    FollowsArc(v.y, w.y, t);
    FollowsArc(v.z, w.z, t);
  }

  /** All three angles are as the converter writes them. */
  predicate IsNormal(v: Vertex) {
    -180.0 < v.x <= 180.0 && -180.0 < v.y <= 180.0 && -180.0 < v.z <= 180.0
  }

  lemma NothingOf(t: real)
    ensures t * 0.0 == 0.0
  {
  }

  lemma StaysOnTheSpot(a: real, t: real)
    requires -180.0 < a <= 180.0
    ensures Turn(a, a, t) == a
  {
    NothingOf(t);
    assert InterA(PosAngle(a), PosAngle(a), t) == PosAngle(a);
    if a < 0.0 {
      assert Wrap(a + 360.0 - 360.0) == a;
    }
  }

  // ----- What a frame shows

  /** An entity that keeps its model moves and turns, and takes the looks of the nearer scene; another one is the nearer one. */
  ghost predicate Shows(e0: Entity, e1: Entity, e: Entity, t: real) {
    var near := if t < 0.5 then e0 else e1;
    if e0.model != e1.model then e == near
    else
      && e.model == e0.model && e.visible == e1.visible
      && e.frame == near.frame && e.skin == near.skin && e.color == near.color
      && PlaceOnTheWay(e0.pos, e1.pos, e.pos, t)
      && AngleOnTheArc(e0.angle, e1.angle, e.angle, t)
      && (e0.angle == e1.angle && IsNormal(e0.angle) ==> e.angle == e0.angle)
  }

  lemma StaysTurned(v: Vertex, t: real)
    requires IsNormal(v)
    ensures InterpolateAngle(v, v, t) == v
  {
    StaysOnTheSpot(v.x, t);
    StaysOnTheSpot(v.y, t);
    StaysOnTheSpot(v.z, t);
  }

  lemma TweenShows(e0: Entity, e1: Entity, t: real)
    ensures Shows(e0, e1, Tween(e0, e1, t), t)
  {
    TurnsOnTheArc(e0.angle, e1.angle, t);
    if e0.angle == e1.angle && IsNormal(e0.angle) {
      StaysTurned(e0.angle, t);
    }
  }

  predicate Further(v: Vertex, w: Vertex, limit: real) {
    (v.x - w.x) * (v.x - w.x) + (v.y - w.y) * (v.y - w.y) + (v.z - w.z) * (v.z - w.z) > limit * limit
  }

  /** A camera that is more than 50 away, or more than 45 degrees, looks as in the nearer scene; another one turns. */
  ghost predicate Looks(snap: Scene, now: Scene, x: Vertex, t: real)
    requires IsScene(snap) && IsScene(now)
  {
    if Further(snap.entities[snap.cameraEnt].pos, now.entities[now.cameraEnt].pos, 50.0)
       || Further(snap.viewAngle, now.viewAngle, 45.0)
    then x == if t < 0.5 then snap.viewAngle else now.viewAngle
    else
      && AngleOnTheArc(snap.viewAngle, now.viewAngle, x, t)
      && (snap.viewAngle == now.viewAngle && IsNormal(snap.viewAngle) ==> x == snap.viewAngle)
  }

  lemma FastIsFurther(snap: Scene, now: Scene)
    requires IsScene(snap) && IsScene(now)
    ensures TooFast(snap, now) <==>
      || Further(snap.entities[snap.cameraEnt].pos, now.entities[now.cameraEnt].pos, 50.0)
      || Further(snap.viewAngle, now.viewAngle, 45.0)
  {
  }

  lemma FrameLooks(snap: Scene, now: Scene, t: real)
    requires IsScene(snap) && IsScene(now)
    ensures Looks(snap, now, FrameAngle(snap, now, t), t)
  {
    FastIsFurther(snap, now);
    TurnsOnTheArc(snap.viewAngle, now.viewAngle, t);
    if snap.viewAngle == now.viewAngle && IsNormal(snap.viewAngle) {
      StaysTurned(snap.viewAngle, t);
    }
  }

  /** The scene of a frame at `time`, which is the fraction `t` of the way from `snap` to `now`. */
  ghost predicate IsFrameScene(snap: Scene, now: Scene, time: real, t: real, s: Scene)
    requires IsScene(snap) && IsScene(now)
  {
    && IsScene(s)
    && s.time == time && s.cameraEnt == now.cameraEnt && s.server == now.server && s.clientState == now.clientState
    && Looks(snap, now, s.viewAngle, t)
    && forall n :: 0 <= n < MAX_ENTITIES ==> Shows(snap.entities[n], now.entities[n], s.entities[n], t)
  }

  /**
   The frames that a block adds to the output: their numbers go on from the last
   one, each is written exactly if the server has named its models, and then shows
   every entity and the camera at its fraction of the way from the snapshot to the
   end of the block.
   */
  lemma FrameIsBetween(c: Converter, b: Block, fps: real, i: nat)
    requires Adds(c, b, fps, i)
    ensures |c.frames| + i < |AfterBlock(c, b, fps).frames|
    ensures
      var snap, now, f := c.snap.value, Now(c, b), AfterBlock(c, b, fps).frames[|c.frames| + i];
      && f.num == |c.frames| + i
      && snap.time <= f.time < now.time
      && (f.scene.Some? <==> now.server.models != [])
      && (f.scene.Some? ==> IsFrameScene(snap, now, f.time, (f.time - snap.time) / (now.time - snap.time), f.scene.value))
  {
    var snap, now, f := c.snap.value, Now(c, b), NewFrame(c, b, fps, i);
    FrameIsOutput(c, b, fps, i);
    FrameTime(c, b, fps, i);
    if now.server.models != [] {
      SceneIsFrameScene(snap, now, f.time);
    }
  }

  lemma SceneIsFrameScene(snap: Scene, now: Scene, time: real)
    requires IsScene(snap) && IsScene(now) && snap.time != now.time
    ensures IsFrameScene(snap, now, time, (time - snap.time) / (now.time - snap.time), FrameScene(snap, now, time))
  {
    var t := (time - snap.time) / (now.time - snap.time);
    FrameLooks(snap, now, t);
    forall n | 0 <= n < MAX_ENTITIES
      ensures Shows(snap.entities[n], now.entities[n], FrameScene(snap, now, time).entities[n], t)
    {
      TweenShows(snap.entities[n], now.entities[n], t);
    }
  }

  // ----- From block to block

  /** At the end of a block, only whether the entities are visible is set anew. */
  lemma NowIsMarked(c: Converter, b: Block)
    requires IsConverter(c) && IsBlock(b)
    ensures
      var s, now := AfterMessages(c.cur, b), Now(c, b);
      && now == s.(entities := now.entities)
      && forall n :: 0 <= n < MAX_ENTITIES ==> now.entities[n] == s.entities[n].(visible := n == 0 || n in s.seen)
  {
  }

  /**
   What is remembered: a block without a time changes nothing but the current
   scene; one with a time takes a snapshot of it, without the sounds, if there is
   none yet or if frames come out, and then forgets what was seen.
   */
  lemma Remembers(c: Converter, b: Block, fps: real)
    requires IsConverter(c) && IsBlock(b) && fps > 0.0
    ensures
      var c', now := AfterBlock(c, b, fps), Now(c, b);
      && c.frames <= c'.frames
      && (if !HasTime(b.messages) then c'.snap == c.snap && c'.cur == AfterMessages(c.cur, b) && c'.frames == c.frames
          else if c.snap.None? then c'.snap == Some(now.(sounds := [])) && c'.cur == now.(seen := {}) && c'.frames == c.frames
          else if c'.frames == c.frames then c'.snap == c.snap && c'.cur == now
          else c'.snap == Some(now.(sounds := [])) && c'.cur == now.(seen := {}))
  {
  }

  /** The message writes to entity `n`. */
  predicate IsAbout(m: Message, n: nat) {
    (m.Move? && m.update.entity == n) || (m.SpawnBaseline? && m.entity == n)
  }

  lemma {:induction false} UntouchedStays(s: Scene, ms: seq<Message>, j: nat, n: nat)
    requires IsScene(s) && AllInRange(ms) && j <= |ms| && n < MAX_ENTITIES
    requires forall i :: j <= i < |ms| ==> !IsAbout(ms[i], n)
    ensures AppliedAll(s, ms).entities[n] == AppliedAll(s, ms[..j]).entities[n]
  {
    if j == |ms| {
      assert ms[..j] == ms;
    } else {
      var init := ms[..|ms| - 1];
      assert init[..j] == ms[..j];
      UntouchedStays(s, init, j, n);
      AppliedMeans(AppliedAll(s, init), ms[|ms| - 1]);
    }
  }

  /** Messages take effect in their order: the last update of an entity is what it shows in the end. */
  lemma LastUpdateStays(s: Scene, ms: seq<Message>, j: nat)
    requires IsScene(s) && AllInRange(ms) && j < |ms| && ms[j].Move?
    requires forall i :: j < i < |ms| ==> !IsAbout(ms[i], ms[j].update.entity)
    ensures ms[j].update.entity < MAX_ENTITIES
    ensures
      var n := ms[j].update.entity;
      MovedBy(AppliedAll(s, ms[..j]).entities[n], ms[j].update, AppliedAll(s, ms).entities[n])
  {
    assert ms[j] in ms;
    var upto := ms[..j + 1];
    assert upto[..|upto| - 1] == ms[..j];
    AppliedMeans(AppliedAll(s, ms[..j]), ms[j]);
    UntouchedStays(s, ms, j + 1, ms[j].update.entity);
  }

  predicate TurnsCamera(m: Message) {
    m.CameraOrientation? || m.Intermission? || m.Finale?
  }

  lemma {:induction false} CameraKeepsAngle(s: Scene, ms: seq<Message>)
    requires IsScene(s) && AllInRange(ms)
    requires forall i :: 0 <= i < |ms| ==> !TurnsCamera(ms[i])
    ensures AppliedAll(s, ms).viewAngle == s.viewAngle
    ensures AppliedAll(s, ms).cameraSetViewAngle == s.cameraSetViewAngle
  {
    if ms != [] {
      CameraKeepsAngle(s, ms[..|ms| - 1]);
      AppliedMeans(AppliedAll(s, ms[..|ms| - 1]), ms[|ms| - 1]);
    }
  }

  /** Where no message turns the camera, it looks as the header of the block says, or goes on as it is after the game is over. */
  lemma HeaderTurnsCamera(s: Scene, b: Block)
    requires IsScene(s) && IsBlock(b)
    requires forall i :: 0 <= i < |b.messages| ==> !TurnsCamera(b.messages[i])
    ensures AfterMessages(s, b).viewAngle == if s.cameraSetViewAngle then s.viewAngle else b.viewAngle
  {
    CameraKeepsAngle(if s.cameraSetViewAngle then s else s.(viewAngle := b.viewAngle), b.messages);
  }
}
