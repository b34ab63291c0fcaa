/** The decoder for the messages of a demo block, as a function of the bytes. */
module DemoCodec {
  import opened Options
  import opened Bytes
  import opened DemoMessages

  /** A decoded message and the bytes after it, an error, or the end of the program. */
  datatype Outcome = Got(message: Message, rest: seq<Byte>) | Error | Fatal

  const U_MOREBITS := 0x0001
  const U_ORIGIN1 := 0x0002
  const U_ORIGIN2 := 0x0004
  const U_ORIGIN3 := 0x0008
  const U_ANGLE2 := 0x0010
  const U_FRAME := 0x0040
  const U_ANGLE1 := 0x0100
  const U_ANGLE3 := 0x0200
  const U_MODEL := 0x0400
  const U_COLORMAP := 0x0800
  const U_SKIN := 0x1000
  const U_EFFECTS := 0x2000
  const U_LONGENTITY := 0x4000

  const SU_VIEWHEIGHT := 0x0001
  const SU_IDEALPITCH := 0x0002
  const SU_PUNCH1 := 0x0004
  const SU_PUNCH2 := 0x0008
  const SU_PUNCH3 := 0x0010
  const SU_VELOCITY1 := 0x0020
  const SU_VELOCITY2 := 0x0040
  const SU_VELOCITY3 := 0x0080
  const SU_ITEMS := 0x0200
  const SU_WEAPONFRAME := 0x1000
  const SU_ARMOR := 0x2000
  const SU_WEAPON := 0x4000

  const VERSION_15 := 15
  const VERSION_QUAKE_SPASM := 666

  /** `mask & bit != 0`, for a `bit` that is a power of two. */
  predicate Has(mask: nat, bit: nat)
    requires bit > 0
    decreases mask + bit
  {
    if bit == 1 then mask % 2 == 1 else Has(mask / 2, bit / 2)
  }

  // ----- Decoding

  function DecodePlayerState(b: seq<Byte>): (r: Outcome)
    ensures r.Got? ==> |r.rest| <= |b|
  {
    var key := TakeUint8(b);
    var value := TakeUint(4, key.rest);
    Got(PlayerState(key.value, value.value), value.rest)
  }

  /** A byte that counts as zero if it is absent. */
  function TakeFlagged(present: bool, b: seq<Byte>): (r: Read<Byte>)
    ensures |r.rest| <= |b|
  {
    if present then TakeUint8(b) else Read(0, true, b)
  }

  function DecodeSound(b: seq<Byte>): (r: Outcome)
    ensures r.Got? ==> |r.rest| <= |b|
  {
    var mask := TakeUint8(b);
    if !mask.ok then Error else
    var volume := TakeFlagged(Has(mask.value, 1), mask.rest);
    if !volume.ok then Error else
    var attenuation := TakeFlagged(Has(mask.value, 2), volume.rest);
    if !attenuation.ok then Error else
    DecodeSoundSource(volume.value, attenuation.value, attenuation.rest)
  }

  function DecodeSoundSource(volume: Byte, attenuation: Byte, b: seq<Byte>): (r: Outcome)
    ensures r.Got? ==> |r.rest| <= |b|
  {
    var packed := TakeUint(2, b);
    if !packed.ok then Error else
    var sound := TakeUint8(packed.rest);
    if !sound.ok then Error else
    var x := TakeInt16(sound.rest);
    if !x.ok then Error else
    var y := TakeInt16(x.rest);
    if !y.ok then Error else
    var z := TakeInt16(y.rest);
    if !z.ok then Error else
    Got(PlaySound(Sound(sound.value, Vertex(Coord(x.value), Coord(y.value), Coord(z.value)),
                        packed.value % 8, packed.value / 8 % 0x2000, volume, attenuation)),
        z.rest)
  }

  function DecodeTime(b: seq<Byte>): (r: Outcome)
    ensures r.Got? ==> |r.rest| <= |b|
  {
    var t := TakeUint(4, b);
    if t.ok then Got(Time(Float32(t.value)), t.rest) else Error
  }

  function DecodeText(b: seq<Byte>): (r: Outcome)
    ensures r.Got? ==> |r.rest| <= |b|
  {
    var s := TakeString(b);
    if s.ok then Got(Nop, s.rest) else Error
  }

  function DecodeOrientation(b: seq<Byte>): (r: Outcome)
    ensures r.Got? ==> |r.rest| <= |b|
  {
    var x := TakeInt8(b);
    if !x.ok then Error else
    var y := TakeInt8(x.rest);
    if !y.ok then Error else
    var z := TakeInt8(y.rest);
    if !z.ok then Error else
    Got(CameraOrientation(Vertex(Angle(x.value), Angle(y.value), Angle(z.value))), z.rest)
  }

  /** Strings up to the first empty one. */
  function TakeStrings(b: seq<Byte>): (r: Read<seq<Text>>)
    ensures |r.rest| <= |b|
    decreases |b|
  {
    var s := TakeString(b);
    if !s.ok then Read([], false, s.rest)
    else if s.value == [] then Read([], true, s.rest)
    else
      var more := TakeStrings(s.rest);
      Read([s.value] + more.value, more.ok, more.rest)
  }

  /** The first model is listed twice. */
  function ModelList(names: seq<Text>): seq<Text> {
    if names == [] then [] else [names[0]] + names
  }

  function DecodeServerInfo(b: seq<Byte>): (r: Outcome)
    ensures r.Got? ==> |r.rest| <= |b|
  {
    var version := TakeUint(4, b);
    if !version.ok || version.value !in {VERSION_15, VERSION_QUAKE_SPASM} then Fatal else
    var maxClients := TakeUint8(version.rest);
    if !maxClients.ok then Fatal else
    var gameType := TakeUint8(maxClients.rest);
    if !gameType.ok then Fatal else
    DecodeServerLists(version.value, maxClients.value, gameType.value, gameType.rest)
  }

  function DecodeServerLists(version: nat, maxClients: Byte, gameType: Byte, b: seq<Byte>): (r: Outcome)
    ensures r.Got? ==> |r.rest| <= |b|
  {
    var level := TakeString(b);
    if !level.ok then Fatal else
    var models := TakeStrings(level.rest);
    if !models.ok then Fatal else
    var sounds := TakeStrings(models.rest);
    if !sounds.ok then Fatal else
    Got(Server(ServerInfo(version, maxClients, gameType, level.value, ModelList(models.value), [[]] + sounds.value)),
        sounds.rest)
  }

  function DecodeNamed(b: seq<Byte>, style: bool): (r: Outcome)
    ensures r.Got? ==> |r.rest| <= |b|
  {
    var index := TakeUint8(b);
    if !index.ok then Error else
    var s := TakeString(index.rest);
    if !s.ok then Error else
    Got(if style then LightStyle(index.value, s.value) else PlayerName(index.value, s.value), s.rest)
  }

  function DecodeFrags(b: seq<Byte>): (r: Outcome)
    ensures r.Got? ==> |r.rest| <= |b|
  {
    var player := TakeUint8(b);
    if !player.ok then Error else
    var frags := TakeUint(2, player.rest);
    if !frags.ok then Error else
    Got(Frags(player.value, frags.value), frags.rest)
  }

  /** The size of four fields that may be absent: one of `first` bytes, and three of one byte. */
  function FourSize(first: nat, a: bool, b: bool, c: bool, d: bool): nat {
    (if a then first else 0) + (if b then 1 else 0) + (if c then 1 else 0) + (if d then 1 else 0)
  }

  function ViewSize(mask: nat): nat {
    FourSize(1, Has(mask, SU_VIEWHEIGHT), Has(mask, SU_IDEALPITCH), Has(mask, SU_PUNCH1), Has(mask, SU_VELOCITY1))
  }

  function MotionSize(mask: nat): nat {
    FourSize(1, Has(mask, SU_PUNCH2), Has(mask, SU_VELOCITY2), Has(mask, SU_PUNCH3), Has(mask, SU_VELOCITY3))
  }

  function ItemsSize(mask: nat): nat {
    FourSize(4, Has(mask, SU_ITEMS), Has(mask, SU_WEAPONFRAME), Has(mask, SU_ARMOR), Has(mask, SU_WEAPON))
  }

  /** How many bytes the optional part of the client data takes. */
  function ClientDataSize(mask: nat): nat {
    ViewSize(mask) + MotionSize(mask) + ItemsSize(mask)
  }

  /** Health in two bytes, then ammo, shells, nails, rockets, cells and weapon in one each. */
  const CLIENT_DATA_TAIL := 8

  function DecodeClientData(b: seq<Byte>): (r: Outcome)
    ensures r.Got? ==> |r.rest| <= |b|
  {
    var mask := TakeUint(2, b);
    if !mask.ok then Error else
    var tail := Skip(ClientDataSize(mask.value), mask.rest);
    if |tail| < CLIENT_DATA_TAIL then Error else Got(Nop, Skip(CLIENT_DATA_TAIL, tail))
  }

  function DecodeBaseline(b: seq<Byte>): (r: Outcome)
    ensures r.Got? ==> |r.rest| <= |b|
  {
    var entity := TakeUint(2, b);
    var model := TakeUint8(entity.rest);
    var frame := TakeUint8(model.rest);
    var color := TakeUint8(frame.rest);
    var skin := TakeUint8(color.rest);
    var place := TakePlace(skin.rest);
    Got(SpawnBaseline(entity.value, model.value, frame.value, color.value, skin.value, place.value.0, place.value.1), place.rest)
  }

  /** Position and angle, coordinate by coordinate. */
  function TakePlace(b: seq<Byte>): (r: Read<(Vertex, Vertex)>)
    ensures |r.rest| <= |b|
  {
    var x := TakeInt16(b);
    var a := TakeInt8(x.rest);
    var y := TakeInt16(a.rest);
    var b := TakeInt8(y.rest);
    var z := TakeInt16(b.rest);
    var c := TakeInt8(z.rest);
    Read((Vertex(Coord(x.value), Coord(y.value), Coord(z.value)), Vertex(Angle(a.value), Angle(b.value), Angle(c.value))),
         true, c.rest)
  }

  /** The size of a temporary entity of each kind: a point, two points and an owner, or a coloured point. */
  function TempEntitySize(kind: Byte): Option<nat> {
    if kind in {0, 1, 2, 3, 4, 7, 8, 10, 11, 14} then Some(6)
    else if kind in {5, 6, 9, 13, 15} then Some(14)
    else if kind == 12 then Some(8)
    else None
  }

  function DecodeTempEntity(b: seq<Byte>): (r: Outcome)
    ensures r.Got? ==> |r.rest| <= |b|
  {
    var kind := TakeUint8(b);
    match TempEntitySize(kind.value)
    case None => Error
    case Some(n) => Got(Nop, Skip(n, kind.rest))
  }

  /** The sizes of the messages that are read and forgotten. */
  function IgnoredSize(typ: Byte): Option<nat> {
    match typ
    case 0x10 => Some(2)   // stop sound
    case 0x11 => Some(2)   // set colors
    case 0x12 => Some(11)  // particle
    case 0x13 => Some(8)   // damage
    case 0x14 => Some(13)  // spawn static
    case 0x18 => Some(1)   // set pause
    case 0x1b => Some(0)   // killed monster
    case 0x1c => Some(0)   // found secret
    case 0x1d => Some(9)   // spawn static sound
    case 0x20 => Some(2)   // CD track
    case 0x21 => Some(0)   // sell screen
    case _ => None
  }

  function TakeOptUint8(present: bool, b: seq<Byte>): (r: Read<Option<Byte>>)
    ensures |r.rest| <= |b|
  {
    if !present then Read(None, true, b)
    else
      var r := TakeUint8(b);
      Read(Some(r.value), r.ok, r.rest)
  }

  function TakeOptCoord(present: bool, b: seq<Byte>): (r: Read<Option<real>>)
    ensures |r.rest| <= |b|
  {
    if !present then Read(None, true, b)
    else
      var r := TakeInt16(b);
      Read(Some(Coord(r.value)), r.ok, r.rest)
  }

  function TakeOptAngle(present: bool, b: seq<Byte>): (r: Read<Option<real>>)
    ensures |r.rest| <= |b|
  {
    if !present then Read(None, true, b)
    else
      var r := TakeInt8(b);
      Read(Some(Angle(r.value)), r.ok, r.rest)
  }

  function TakeMask(typ: Byte, b: seq<Byte>): (r: Read<nat>)
    ensures |r.rest| <= |b|
  {
    var low := typ % 0x80;
    if Has(low, U_MOREBITS) then
      var high := TakeUint8(b);
      Read(low + 0x100 * high.value as int, true, high.rest)
    else Read(low, true, b)
  }

  function TakeEntity(mask: nat, b: seq<Byte>): (r: Read<nat>)
    ensures |r.rest| <= |b|
  {
    if Has(mask, U_LONGENTITY) then TakeUint(2, b)
    else
      var r := TakeUint8(b);
      Read(r.value, r.ok, r.rest)
  }

  function DecodeUpdate(typ: Byte, b: seq<Byte>): (r: Outcome)
    ensures r.Got? ==> |r.rest| <= |b|
  {
    var mask := TakeMask(typ, b);
    var entity := TakeEntity(mask.value, mask.rest);
    DecodeLooks(mask.value, entity.value, entity.rest)
  }

  function DecodeLooks(mask: nat, entity: nat, b: seq<Byte>): (r: Outcome)
    ensures r.Got? ==> |r.rest| <= |b|
  {
    var model := TakeOptUint8(Has(mask, U_MODEL), b);
    if !model.ok then Fatal else
    var frame := TakeOptUint8(Has(mask, U_FRAME), model.rest);
    if !frame.ok then Fatal else
    var color := TakeOptUint8(Has(mask, U_COLORMAP), frame.rest);
    var skin := TakeOptUint8(Has(mask, U_SKIN), color.rest);
    var effects := TakeOptUint8(Has(mask, U_EFFECTS), skin.rest);
    DecodePlace(mask, Update(entity, model.value, frame.value, color.value, skin.value, effects.value,
                             None, None, None, None, None, None), effects.rest)
  }

  function DecodePlace(mask: nat, u: Update, b: seq<Byte>): (r: Outcome)
    ensures r.Got? ==> |r.rest| <= |b|
  {
    var x := TakeOptCoord(Has(mask, U_ORIGIN1), b);
    if !x.ok then Fatal else
    var a := TakeOptAngle(Has(mask, U_ANGLE1), x.rest);
    var y := TakeOptCoord(Has(mask, U_ORIGIN2), a.rest);
    DecodePlaceEnd(mask, u.(x := x.value, a := a.value, y := y.value), y.rest)
  }

  function DecodePlaceEnd(mask: nat, u: Update, b: seq<Byte>): (r: Outcome)
    ensures r.Got? ==> |r.rest| <= |b|
  {
    var b := TakeOptAngle(Has(mask, U_ANGLE2), b);
    var z := TakeOptCoord(Has(mask, U_ORIGIN3), b.rest);
    var c := TakeOptAngle(Has(mask, U_ANGLE3), z.rest);
    Got(Move(u.(b := b.value, z := z.value, c := c.value)), c.rest)
  }

  /** A message takes at least one byte. */
  function Decode(b: seq<Byte>): (r: Outcome)
    ensures r.Got? ==> |r.rest| < |b|
  {
    if b == [] then Fatal
    else if b[0] >= 0x80 then DecodeUpdate(b[0], b[1..])
    else DecodeBody(b[0], b[1..])
  }

  /** What follows a type byte other than that of an update. */
  function DecodeBody(typ: Byte, r: seq<Byte>): (o: Outcome)
    ensures o.Got? ==> |o.rest| <= |r|
  {
    if typ == 0x01 then Got(Nop, r)
    else if typ == 0x02 then Got(Disconnect, r)
    else if typ == 0x03 then DecodePlayerState(r)
    else if typ == 0x05 then (var e := TakeUint(2, r); Got(CameraPos(e.value), e.rest))
    else if typ == 0x06 then DecodeSound(r)
    else if typ == 0x07 then DecodeTime(r)
    else if typ == 0x08 || typ == 0x09 then DecodeText(r)
    else if typ == 0x0A then DecodeOrientation(r)
    else if typ == 0x0B then DecodeServerInfo(r)
    else if typ == 0x0C then DecodeNamed(r, true)
    else if typ == 0x0D then DecodeNamed(r, false)
    else if typ == 0x0E then DecodeFrags(r)
    else if typ == 0x0F then DecodeClientData(r)
    else if IgnoredSize(typ).Some? then Got(Nop, Skip(IgnoredSize(typ).value, r))
    else if typ == 0x16 then DecodeBaseline(r)
    else if typ == 0x17 then DecodeTempEntity(r)
    else if typ == 0x19 then (var s := TakeUint8(r); Got(ClientState(s.value), s.rest))
    else if typ == 0x1A then Got(Nop, TakeString(r).rest)
    else if typ == 0x1E then (var t := TakeString(r); Got(Intermission(t.value), t.rest))
    else if typ == 0x1F then (var t := TakeString(r); Got(Finale(t.value), t.rest))
    else Error
  }

  lemma DecodesUpdate(b: seq<Byte>)
    requires b != [] && b[0] >= 0x80
    ensures Decode(b) == DecodeUpdate(b[0], b[1..])
  {
  }

  // ----- Whole blocks

  datatype Outcomes = AllGot(messages: seq<Message>) | Broken | Died

  /** All messages of a block, or the first failure. */
  function DecodeAll(b: seq<Byte>): Outcomes
    decreases |b|
  {
    if b == [] then AllGot([]) else
    match Decode(b)
    case Error => Broken
    case Fatal => Died
    case Got(m, rest) =>
      match DecodeAll(rest)
      case AllGot(ms) => AllGot([m] + ms)
      case Broken => Broken
      case Died => Died
  }
}
