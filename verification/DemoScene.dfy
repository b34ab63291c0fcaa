/** The world of a demo as a value, what messages do to it, and the frame between two of them. */
module DemoScene {
  import opened Options
  import opened Bytes
  import opened DemoMessages
  import opened Interpolation

  const MAX_ENTITIES := 1000

  datatype Entity = Entity(pos: Vertex, angle: Vertex, model: Byte, frame: Byte, skin: Byte, color: int, visible: bool)

  datatype SoundEvent = SoundEvent(time: real, sound: Sound)

  datatype Scene = Scene(
    time: real,
    entities: seq<Entity>,
    seen: set<nat>,
    clientState: int,
    cameraEnt: nat,
    cameraViewAngle: Vertex,
    cameraSetViewAngle: bool,
    viewAngle: Vertex,
    server: ServerInfo,
    sounds: seq<SoundEvent>)

  predicate IsScene(s: Scene) {
    |s.entities| == MAX_ENTITIES && s.cameraEnt < MAX_ENTITIES
  }

  const NEW_ENTITY := Entity(ORIGIN, ORIGIN, 0, 0, 0, 0, false)

  function NewScene(): (s: Scene)
    ensures IsScene(s)
  {
    Scene(0.0, seq(MAX_ENTITIES, _ => NEW_ENTITY), {}, 0, 0, ORIGIN, false, ORIGIN, NO_SERVER, [])
  }

  /** The message refers to entities that exist; the source would crash on others. */
  predicate InRange(m: Message) {
    match m
    case Move(u) => u.entity < MAX_ENTITIES
    case SpawnBaseline(entity, _, _, _, _, _, _) => entity < MAX_ENTITIES
    case CameraPos(entity) => entity < MAX_ENTITIES
    case _ => true
  }

  function Or<T>(v: Option<T>, otherwise: T): T {
    if v.Some? then v.value else otherwise
  }

  /** A new model starts with the default looks, before the other fields of the same update. */
  function Moved(e: Entity, u: Update): Entity {
    var remodel := u.model.Some?;
    Entity(
      Vertex(Or(u.x, e.pos.x), Or(u.y, e.pos.y), Or(u.z, e.pos.z)),
      Vertex(Or(u.a, e.angle.x), Or(u.b, e.angle.y), Or(u.c, e.angle.z)),
      Or(u.model, e.model),
      Or(u.frame, if remodel then 0 else e.frame),
      Or(u.skin, if remodel then 0 else e.skin),
      if u.color.Some? then u.color.value else if remodel then 0 else e.color,
      e.visible)
  }

  function Applied(s: Scene, m: Message): (s': Scene)
    requires IsScene(s) && InRange(m)
    ensures IsScene(s')
  {
    match m
    case Move(u) =>
      s.(seen := s.seen + {u.entity}, entities := s.entities[u.entity := Moved(s.entities[u.entity], u)])
    case SpawnBaseline(n, model, frame, color, skin, pos, angle) =>
      s.(entities := s.entities[n := Entity(pos, angle, model, frame, skin, color, s.entities[n].visible)])
    case PlaySound(sound) => s.(sounds := s.sounds + [SoundEvent(s.time, sound)])
    case CameraPos(entity) => s.(cameraEnt := entity)
    case CameraOrientation(angle) => s.(cameraViewAngle := angle, viewAngle := angle)
    case Server(info) => s.(server := info)
    case Time(t) => s.(time := t)
    case ClientState(state) => s.(clientState := state)
    case Intermission(_) => s.(cameraSetViewAngle := true, viewAngle := s.cameraViewAngle)
    case Finale(_) => s.(cameraSetViewAngle := true, viewAngle := s.cameraViewAngle)
    case _ => s
  }

  /** What `field` of an update makes of a number that it sets or leaves alone. */
  predicate SetsOrKeeps<T(==)>(field: Option<T>, old_: T, new_: T) {
    && (field.Some? ==> new_ == field.value)
    && (field.None? ==> new_ == old_)
  }

  /** A part of the looks: set by the update, or else 0 with a new model, or else kept. */
  predicate SetsOrResets(field: Option<Byte>, remodelled: bool, old_: int, new_: int) {
    && (field.Some? ==> new_ == field.value as int)
    && (field.None? && remodelled ==> new_ == 0)
    && (field.None? && !remodelled ==> new_ == old_)
  }

  /** What an update makes of an entity, field by field. */
  predicate MovedBy(e: Entity, u: Update, e': Entity) {
    && SetsOrKeeps(u.x, e.pos.x, e'.pos.x) && SetsOrKeeps(u.y, e.pos.y, e'.pos.y) && SetsOrKeeps(u.z, e.pos.z, e'.pos.z)
    && SetsOrKeeps(u.a, e.angle.x, e'.angle.x) && SetsOrKeeps(u.b, e.angle.y, e'.angle.y) && SetsOrKeeps(u.c, e.angle.z, e'.angle.z)
    && SetsOrKeeps(u.model, e.model, e'.model)
    && SetsOrResets(u.frame, u.model.Some?, e.frame as int, e'.frame as int)
    && SetsOrResets(u.skin, u.model.Some?, e.skin as int, e'.skin as int)
    && SetsOrResets(u.color, u.model.Some?, e.color, e'.color)
    && e'.visible == e.visible
  }

  lemma MovedMeans(e: Entity, u: Update)
    ensures MovedBy(e, u, Moved(e, u))
  {
  }

  /** The entities after a message: one may have been moved or replaced, and all others are as they were. */
  predicate EntitiesAfter(s: Scene, m: Message, s': Scene)
    requires IsScene(s) && IsScene(s') && InRange(m)
  {
    && (m.Move? ==>
          && MovedBy(s.entities[m.update.entity], m.update, s'.entities[m.update.entity])
          && forall n :: 0 <= n < MAX_ENTITIES && n != m.update.entity ==> s'.entities[n] == s.entities[n])
    && (m.SpawnBaseline? ==>
          && s'.entities[m.entity].pos == m.pos && s'.entities[m.entity].angle == m.angle
          && s'.entities[m.entity].model == m.model && s'.entities[m.entity].frame == m.frame
          && s'.entities[m.entity].skin == m.skin && s'.entities[m.entity].color == m.color as int
          && s'.entities[m.entity].visible == s.entities[m.entity].visible
          && forall n :: 0 <= n < MAX_ENTITIES && n != m.entity ==> s'.entities[n] == s.entities[n])
    && (!m.Move? && !m.SpawnBaseline? ==> s'.entities == s.entities)
  }

  /** The rest of the scene after a message, field by field: which messages write to it. */
  predicate RestAfter(s: Scene, m: Message, s': Scene) {
    && s'.seen == (if m.Move? then s.seen + {m.update.entity} else s.seen)
    && s'.sounds == (if m.PlaySound? then s.sounds + [SoundEvent(s.time, m.sound)] else s.sounds)
    && s'.time == (if m.Time? then m.time else s.time)
    && s'.server == (if m.Server? then m.info else s.server)
    && s'.clientState == (if m.ClientState? then m.state as int else s.clientState)
    && s'.cameraEnt == (if m.CameraPos? then m.entity else s.cameraEnt)
    && s'.cameraViewAngle == (if m.CameraOrientation? then m.angle else s.cameraViewAngle)
    && s'.cameraSetViewAngle == (s.cameraSetViewAngle || m.Intermission? || m.Finale?)
    && s'.viewAngle == (if m.CameraOrientation? then m.angle
                        else if m.Intermission? || m.Finale? then s.cameraViewAngle
                        else s.viewAngle)
  }

  lemma AppliedMeans(s: Scene, m: Message)
    requires IsScene(s) && InRange(m)
    ensures EntitiesAfter(s, m, Applied(s, m)) && RestAfter(s, m, Applied(s, m))
  {
    if m.Move? {
      MovedMeans(s.entities[m.update.entity], m.update);
    }
  }

  predicate AllInRange(ms: seq<Message>) {
    forall m :: m in ms ==> InRange(m)
  }

  function AppliedAll(s: Scene, ms: seq<Message>): (s': Scene)
    requires IsScene(s) && AllInRange(ms)
    ensures IsScene(s')
  {
    if ms == [] then s else Applied(AppliedAll(s, ms[..|ms| - 1]), ms[|ms| - 1])
  }

  /** State.Copy; the sounds are not copied. */
  function Copied(s: Scene): Scene {
    s.(sounds := [])
  }

  /** An entity is visible if it was seen, and the world is always visible. */
  function Marked(s: Scene): (s': Scene)
    requires IsScene(s)
    ensures IsScene(s')
  {
    s.(entities := seq(MAX_ENTITIES, n requires 0 <= n < MAX_ENTITIES => s.entities[n].(visible := n == 0 || n in s.seen)))
  }

  function SquaredDistance(v: Vertex, w: Vertex): real {
    (v.x - w.x) * (v.x - w.x) + (v.y - w.y) * (v.y - w.y) + (v.z - w.z) * (v.z - w.z)
  }

  const MAX_SPEED := 50.0
  const MAX_ANGLE_SPEED := 45.0

  /** Distances are compared by their squares. */
  predicate TooFast(s0: Scene, s1: Scene)
    requires IsScene(s0) && IsScene(s1)
  {
    || SquaredDistance(s0.entities[s0.cameraEnt].pos, s1.entities[s1.cameraEnt].pos) > MAX_SPEED * MAX_SPEED
    || SquaredDistance(s0.viewAngle, s1.viewAngle) > MAX_ANGLE_SPEED * MAX_ANGLE_SPEED
  }

  /** How far `t` is from the old to the new time. */
  function Progress(snap: Scene, cur: Scene, t: real): real
    requires cur.time != snap.time
  {
    (t - snap.time) / (cur.time - snap.time)
  }

  /** One entity of a frame: halfway through, its looks, or if it changed its model all of it, jump. */
  function Tween(e0: Entity, e1: Entity, ival: real): Entity {
    var nearest := if ival < 0.5 then e0 else e1;
    if e0.model != e1.model then nearest
    else Entity(Interpolate(e0.pos, e1.pos, ival), InterpolateAngle(e0.angle, e1.angle, ival),
                e0.model, nearest.frame, nearest.skin, nearest.color, e1.visible)
  }

  function FrameAngle(snap: Scene, cur: Scene, ival: real): Vertex
    requires IsScene(snap) && IsScene(cur)
  {
    if !TooFast(snap, cur) then InterpolateAngle(snap.viewAngle, cur.viewAngle, ival)
    else if ival < 0.5 then snap.viewAngle
    else cur.viewAngle
  }

  /** What generateFrame writes out for time `t`. */
  function FrameScene(snap: Scene, cur: Scene, t: real): (s: Scene)
    requires IsScene(snap) && IsScene(cur) && cur.time != snap.time
    ensures IsScene(s)
  {
    var ival := Progress(snap, cur, t);
    Copied(cur).(
      time := t,
      viewAngle := FrameAngle(snap, cur, ival),
      entities := seq(MAX_ENTITIES, n requires 0 <= n < MAX_ENTITIES => Tween(snap.entities[n], cur.entities[n], ival)))
  }
}
