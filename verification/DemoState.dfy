/**
 The converter as it is: one mutable state, a snapshot of it that is shared in
 part, and messages that write to the state in place. It is proved to produce
 the frames that the value model says, which it could not if writing to the
 state ever reached the snapshot.
 */
module DemoState {
  import opened Options
  import opened DemoMessages
  import opened Interpolation
  import opened FrameGrid
  import opened DemoScene
  import opened DemoRun

  /** A Go map from entity numbers to true; copying the variable that holds it does not copy the map. */
  class SeenMap {
    var keys: set<nat>

    constructor ()
      ensures keys == {}
    {
      keys := {};
    }
  }

  class State {
    var time: real
    var entities: array<Entity>
    var seenEntity: SeenMap
    var clientState: int
    var cameraEnt: nat
    var cameraViewAngle: Vertex
    var cameraSetViewAngle: bool
    var viewAngle: Vertex
    var serverInfo: ServerInfo
    var sounds: seq<SoundEvent>

    ghost predicate Valid()
      reads this
    {
      entities.Length == MAX_ENTITIES && cameraEnt < MAX_ENTITIES
    }

    function View(): Scene
      reads this, entities, seenEntity
    {
      Scene(time, entities[..], seenEntity.keys, clientState, cameraEnt, cameraViewAngle, cameraSetViewAngle, viewAngle,
            serverInfo, sounds)
    }

    /** NewState */
    constructor ()
      ensures Valid() && fresh(entities) && fresh(seenEntity)
      ensures View() == NewScene()
      ensures entities.Length == 1000
    {
      time := 0.0;
      entities := new Entity[MAX_ENTITIES](_ => NEW_ENTITY);
      seenEntity := new SeenMap();
      clientState, cameraEnt := 0, 0;
      cameraViewAngle, cameraSetViewAngle, viewAngle := ORIGIN, false, ORIGIN;
      serverInfo := NO_SERVER;
      sounds := [];
    }

    /** The entities are copied one by one, the map of seen entities is shared. */
    method Copy() returns (n: State)
      requires Valid()
      ensures fresh(n) && fresh(n.entities) && n.seenEntity == seenEntity
      ensures n.Valid() && n.View() == View().(sounds := [])
    {
      n := new State();
      n.time := time;
      for i := 0 to n.entities.Length
        invariant n.Valid() && fresh(n) && fresh(n.entities)
        invariant n.time == time && n.sounds == []
        invariant forall j :: 0 <= j < i ==> n.entities[j] == entities[j]
      {
        n.entities[i] := entities[i];
      }
      assert n.entities[..] == entities[..];
      n.cameraViewAngle := cameraViewAngle;
      n.cameraSetViewAngle := cameraSetViewAngle;
      n.cameraEnt := cameraEnt;
      n.clientState := clientState;
      n.viewAngle := viewAngle;
      n.seenEntity := seenEntity;
      n.serverInfo := serverInfo;
    }

    /** MsgUpdate.Apply */
    method ApplyUpdate(u: Update)
      requires Valid() && u.entity < MAX_ENTITIES
      modifies seenEntity, entities
      ensures Valid() && View() == Applied(old(View()), Move(u))
      ensures MovedBy(old(entities[u.entity]), u, entities[u.entity])
    {
      MovedMeans(entities[u.entity], u);
      seenEntity.keys := seenEntity.keys + {u.entity};
      var placed := Place(entities[u.entity], u);
      var moved := Dress(placed, u);
      entities[u.entity] := moved;
    }

    /** The Apply methods of all messages. No message makes the state refer to another array or map. */
    method Apply(m: Message)
      requires Valid() && InRange(m)
      modifies this, seenEntity, entities
      ensures Valid() && entities == old(entities) && seenEntity == old(seenEntity)
      ensures View() == Applied(old(View()), m)
    {
      match m {
        case Move(u) => ApplyUpdate(u);
        case SpawnBaseline(n, model, frame, color, skin, pos, angle) =>
          var e := entities[n];
          entities[n] := e.(pos := pos, angle := angle, model := model, frame := frame, color := color, skin := skin);
        case PlaySound(sound) => sounds := sounds + [SoundEvent(time, sound)];
        case CameraPos(entity) => cameraEnt := entity;
        case CameraOrientation(angle) =>
          cameraViewAngle := angle;
          viewAngle := cameraViewAngle;
        case Server(info) => serverInfo := info;
        case Time(t) => time := t;
        case ClientState(state) => clientState := state;
        case Intermission(_) =>
          cameraSetViewAngle := true;
          viewAngle := cameraViewAngle;
        case Finale(_) =>
          cameraSetViewAngle := true;
          viewAngle := cameraViewAngle;
        case _ =>
      }
    }

    /** Visibility before frames are made. */
    method MarkVisible()
      requires Valid()
      modifies entities
      ensures Valid() && View() == Marked(old(View()))
    {
      for n := 0 to entities.Length
        invariant forall j :: 0 <= j < n ==> entities[j] == old(entities[j]).(visible := j in seenEntity.keys)
        invariant forall j :: n <= j < entities.Length ==> entities[j] == old(entities[j])
      {
        entities[n] := entities[n].(visible := n in seenEntity.keys);
      }
      entities[0] := entities[0].(visible := true);
      assert entities[..] == Marked(old(View())).entities;
    }
  }

  method Overwrite(v: Vertex, x: Option<real>, y: Option<real>, z: Option<real>) returns (w: Vertex)
    ensures w == Vertex(Or(x, v.x), Or(y, v.y), Or(z, v.z))
  {
    w := v;
    if x.Some? { w := w.(x := x.value); }
    if y.Some? { w := w.(y := y.value); }
    if z.Some? { w := w.(z := z.value); }
  }

  /** The fields of an update that say where an entity is. */
  method Place(e: Entity, u: Update) returns (e': Entity)
    ensures e' == e.(pos := Vertex(Or(u.x, e.pos.x), Or(u.y, e.pos.y), Or(u.z, e.pos.z)),
                     angle := Vertex(Or(u.a, e.angle.x), Or(u.b, e.angle.y), Or(u.c, e.angle.z)))
  {
    var pos := Overwrite(e.pos, u.x, u.y, u.z);
    var angle := Overwrite(e.angle, u.a, u.b, u.c);
    e' := e.(pos := pos, angle := angle);
  }

  /** The fields of an update that say what it looks like. */
  method Dress(e: Entity, u: Update) returns (e': Entity)
    ensures e'.pos == e.pos && e'.angle == e.angle && e'.visible == e.visible
    ensures e'.model == Moved(e, u).model && e'.skin == Moved(e, u).skin
    ensures e'.color == Moved(e, u).color && e'.frame == Moved(e, u).frame
  {
    e' := e;
    if u.model.Some? {
      e' := e'.(model := u.model.value, skin := 0, color := 0, frame := 0);
    }
    if u.skin.Some? { e' := e'.(skin := u.skin.value); }
    if u.color.Some? { e' := e'.(color := u.color.value); }
    if u.frame.Some? { e' := e'.(frame := u.frame.value); }
  }

  /** One entity of generateFrame's loop. */
  method TweenInPlace(snap: State, cur: State, frame: State, n: nat, ival: real)
    requires snap.Valid() && cur.Valid() && frame.Valid() && n < MAX_ENTITIES
    requires frame.entities != snap.entities && frame.entities != cur.entities
    requires frame.entities[n].visible == cur.entities[n].visible
    modifies frame.entities
    ensures frame.entities[n] == Tween(snap.entities[n], cur.entities[n], ival)
    ensures forall j :: 0 <= j < MAX_ENTITIES && j != n ==> frame.entities[j] == old(frame.entities[j])
  {
    if snap.entities[n].model != cur.entities[n].model {
      if ival < 0.5 {
        frame.entities[n] := snap.entities[n];
      } else {
        frame.entities[n] := cur.entities[n];
      }
      return;
    }
    var angle := ComputeAngle(snap.entities[n].angle, cur.entities[n].angle, ival);
    frame.entities[n] := frame.entities[n].(
      model := snap.entities[n].model,
      pos := Interpolate(snap.entities[n].pos, cur.entities[n].pos, ival),
      angle := angle);
    if ival < 0.5 {
      frame.entities[n] := frame.entities[n].(
        frame := snap.entities[n].frame, skin := snap.entities[n].skin, color := snap.entities[n].color);
    } else {
      frame.entities[n] := frame.entities[n].(
        frame := cur.entities[n].frame, skin := cur.entities[n].skin, color := cur.entities[n].color);
    }
  }

  /** The camera part of generateFrame. It also snaps the camera entity, which TweenAll undoes unless its model changed. */
  method TurnCamera(snap: State, cur: State, frame: State, ival: real)
    requires snap.Valid() && cur.Valid() && frame.Valid()
    requires frame != snap && frame != cur && frame.entities != snap.entities && frame.entities != cur.entities
    requires frame.entities[..] == cur.entities[..]
    modifies frame`viewAngle, frame.entities
    ensures frame.viewAngle == FrameAngle(snap.View(), cur.View(), ival)
    ensures forall j :: 0 <= j < MAX_ENTITIES ==> frame.entities[j].visible == cur.entities[j].visible
  {
    frame.viewAngle := ComputeAngle(snap.viewAngle, cur.viewAngle, ival);
    assert forall j :: 0 <= j < MAX_ENTITIES ==> frame.entities[j] == frame.entities[..][j];
    if TooFastNow(snap, cur) {
      var cam := frame.cameraEnt;
      if ival < 0.5 {
        frame.viewAngle := snap.viewAngle;
        frame.entities[cam] := frame.entities[cam].(pos := snap.entities[cam].pos);
      } else {
        frame.viewAngle := cur.viewAngle;
        frame.entities[cam] := frame.entities[cam].(pos := cur.entities[cam].pos);
      }
    }
  }

  /** The loop of generateFrame. */
  method TweenAll(snap: State, cur: State, frame: State, ival: real)
    requires snap.Valid() && cur.Valid() && frame.Valid()
    requires frame.entities != snap.entities && frame.entities != cur.entities
    requires forall j :: 0 <= j < MAX_ENTITIES ==> frame.entities[j].visible == cur.entities[j].visible
    modifies frame.entities
    ensures forall j :: 0 <= j < MAX_ENTITIES ==> frame.entities[j] == Tween(snap.entities[j], cur.entities[j], ival)
  {
    for n := 0 to MAX_ENTITIES
      invariant forall j :: 0 <= j < n ==> frame.entities[j] == Tween(snap.entities[j], cur.entities[j], ival)
      invariant forall j :: n <= j < MAX_ENTITIES ==> frame.entities[j].visible == cur.entities[j].visible
    {
      TweenInPlace(snap, cur, frame, n, ival);
    }
  }

  /** generateFrame, up to the writing of the file. */
  method GenerateFrame(snap: State, cur: State, num: nat, t: real) returns (f: Frame)
    requires snap.Valid() && cur.Valid() && snap.time != cur.time
    ensures f == FrameAt(snap.View(), cur.View(), num, t)
  {
    if cur.serverInfo.models == [] {
      return Frame(num, t, None);
    }
    var ival := (t - snap.time) / (cur.time - snap.time);
    var frame := cur.Copy();
    frame.time := t;
    TurnCamera(snap, cur, frame, ival);
    TweenAll(snap, cur, frame, ival);
    ghost var shown := FrameScene(snap.View(), cur.View(), t);
    assert frame.entities[..] == shown.entities;
    return Frame(num, t, Some(frame.View()));
  }

  predicate TooFastNow(snap: State, cur: State)
    requires snap.Valid() && cur.Valid()
    reads snap, cur, snap.entities, cur.entities, snap.seenEntity, cur.seenEntity
    ensures TooFastNow(snap, cur) == TooFast(snap.View(), cur.View())
  {
    || SquaredDistance(snap.entities[snap.cameraEnt].pos, cur.entities[cur.cameraEnt].pos) > MAX_SPEED * MAX_SPEED
    || SquaredDistance(snap.viewAngle, cur.viewAngle) > MAX_ANGLE_SPEED * MAX_ANGLE_SPEED
  }

  /** The snapshot shares neither the entities nor, by the time anything is written, the seen map. */
  ghost predicate Apart(snap: State?, cur: State)
    reads snap, cur
  {
    snap != null ==> snap != cur && snap.entities != cur.entities && snap.seenEntity != cur.seenEntity
  }

  ghost function ViewOf(snap: State?, cur: State, frames: seq<Frame>): Converter
    reads snap, cur, cur.entities, cur.seenEntity
    reads if snap == null then {} else {snap.entities as object, snap.seenEntity}
  {
    Converter(if snap == null then None else Some(snap.View()), cur.View(), frames)
  }

  /** The messages of a block. Whatever they do, the snapshot stays what it was. */
  method ApplyBlock(snap: State?, cur: State, b: Block) returns (seenTime: bool)
    requires cur.Valid() && IsBlock(b) && Apart(snap, cur)
    modifies cur, cur.entities, cur.seenEntity
    ensures cur.Valid() && cur.entities == old(cur.entities) && cur.seenEntity == old(cur.seenEntity)
    ensures cur.View() == AfterMessages(old(cur.View()), b)
    ensures snap != null ==> snap.View() == old(snap.View()) && snap.entities == old(snap.entities) && snap.seenEntity == old(snap.seenEntity)
    ensures seenTime <==> HasTime(b.messages)
  {
    if !cur.cameraSetViewAngle {
      cur.viewAngle := b.viewAngle;
    }
    ghost var first := cur.View();
    seenTime := false;
    for i := 0 to |b.messages|
      invariant cur.Valid() && cur.entities == old(cur.entities) && cur.seenEntity == old(cur.seenEntity)
      invariant AllInRange(b.messages[..i]) && cur.View() == AppliedAll(first, b.messages[..i])
      invariant seenTime <==> HasTime(b.messages[..i])
    {
      var m := b.messages[i];
      assert m in b.messages;
      assert b.messages[..i + 1][..i] == b.messages[..i];
      cur.Apply(m);
      HasTimeNext(b.messages, i);
      if m.Time? {
        seenTime := true;
      }
    }
    assert b.messages[..|b.messages|] == b.messages;
  }

  lemma HasTimeNext(ms: seq<Message>, i: nat)
    requires i < |ms|
    ensures HasTime(ms[..i + 1]) <==> HasTime(ms[..i]) || ms[i].Time?
  {
    if HasTime(ms[..i]) {
      var j :| 0 <= j < i && ms[..i][j].Time?;
      assert ms[..i + 1][j].Time?;
    }
    if ms[i].Time? {
      assert ms[..i + 1][i].Time?;
    }
  }

  method EmitFrames(snap: State, cur: State, first: nat, fps: real) returns (frames: seq<Frame>)
    requires snap.Valid() && cur.Valid() && fps > 0.0
    ensures frames == FramesAt(snap.View(), cur.View(), first, Grid(snap.time, cur.time, fps))
  {
    var ts := GenTimeFrames(snap.time, cur.time, fps);
    frames := [];
    for i := 0 to |ts|
      invariant |frames| == i
      invariant forall j :: 0 <= j < i ==> frames[j] == FrameAt(snap.View(), cur.View(), first + j, ts[j])
    {
      GridIsComplete(snap.time, cur.time, fps, ts[i]);
      var f := GenerateFrame(snap, cur, first + i, ts[i]);
      frames := frames + [f];
    }
  }

  /** One turn of the block loop. */
  method ConvertBlock(snap: State?, cur: State, b: Block, frames: seq<Frame>, fps: real) returns (snap': State?, frames': seq<Frame>)
    requires cur.Valid() && IsBlock(b) && Apart(snap, cur) && fps > 0.0
    requires snap != null ==> snap.Valid()
    modifies cur, cur.entities, cur.seenEntity
    ensures cur.Valid() && cur.entities == old(cur.entities)
    ensures cur.seenEntity == old(cur.seenEntity) || fresh(cur.seenEntity)
    ensures snap' != null ==> snap'.Valid()
    ensures Apart(snap', cur)
    ensures ViewOf(snap', cur, frames') == AfterBlock(old(ViewOf(snap, cur, frames)), b, fps)
  {
    frames' := frames;
    snap' := snap;
    var seenTime := ApplyBlock(snap, cur, b);
    if seenTime {
      cur.MarkVisible();
      var anyFrame := false;
      if snap != null {
        var more := EmitFrames(snap, cur, |frames|, fps);
        anyFrame := |more| > 0;
        frames' := frames + more;
      }
      if snap == null || anyFrame {
        snap' := cur.Copy();
        cur.seenEntity := new SeenMap();
      }
    }
  }

  /** convert, without sound and files. */
  method Convert(blocks: seq<Block>, fps: real) returns (frames: seq<Frame>)
    requires IsDemo(blocks) && fps > 0.0
    ensures frames == RunDemo(blocks, fps).frames
  {
    var snap: State? := null;
    var cur := new State();
    frames := [];
    for i := 0 to |blocks|
      invariant cur.Valid() && fresh(cur) && fresh(cur.entities) && fresh(cur.seenEntity)
      invariant snap != null ==> snap.Valid()
      invariant Apart(snap, cur)
      invariant IsDemo(blocks[..i]) && ViewOf(snap, cur, frames) == RunDemo(blocks[..i], fps)
    {
      assert blocks[..i + 1][..i] == blocks[..i];
      snap, frames := ConvertBlock(snap, cur, blocks[i], frames, fps);
    }
    assert blocks[..|blocks|] == blocks;
  }
}
