/**
 The wire format of demo messages, as a reference encoder with numbers of its
 own, and the proof that the decoder inverts it.
 */
module WireFormat {
  import opened Options
  import opened Bytes
  import opened DemoMessages
  import opened DemoCodec

  // ----- The wire format

  /** The fields of an update that are sent, as raw numbers, and the bits that say nothing about fields. */
  datatype WireUpdate = WireUpdate(
    moreBits: bool, noLerp: bool, longEntity: bool, spare: bool, entity: nat,
    model: Option<Byte>, frame: Option<Byte>, color: Option<Byte>, skin: Option<Byte>, effects: Option<Byte>,
    x: Option<int>, a: Option<int>, y: Option<int>, b: Option<int>, z: Option<int>, c: Option<int>)

  /** The state of the player; what is not an option is always sent. */
  datatype ClientData = ClientData(
    viewHeight: Option<Byte>, idealPitch: Option<Byte>,
    punch1: Option<Byte>, punch2: Option<Byte>, punch3: Option<Byte>,
    velocity1: Option<Byte>, velocity2: Option<Byte>, velocity3: Option<Byte>,
    items: Option<nat>, weaponFrame: Option<Byte>, armor: Option<Byte>, weapon: Option<Byte>,
    aimEnt: bool, onGround: bool, inWater: bool, spare: bool,
    health: nat, ammo: Byte, shells: Byte, nails: Byte, rockets: Byte, cells: Byte, held: Byte)

  datatype Ignored =
    | StopSound(what: nat)
    | SetColors(player: Byte, color: Byte)
    | Particle(x: int, y: int, z: int, vx: int, vy: int, vz: int, count: Byte, color: Byte)
    | Damage(armor: Byte, health: Byte, x: int, y: int, z: int)
    | SpawnStatic(model: Byte, frame: Byte, color: Byte, skin: Byte, x: int, a: int, y: int, b: int, z: int, c: int)
    | SetPause(on: Byte)
    | KilledMonster
    | FoundSecret
    | SpawnStaticSound(x: int, y: int, z: int, num: Byte, volume: Byte, attenuation: Byte)
    | CdTrack(from: Byte, to: Byte)
    | SellScreen

  datatype TempEntity =
    | Point(kind: Byte, x: int, y: int, z: int)
    | Beam(kind: Byte, entity: nat, x: int, y: int, z: int, x': int, y': int, z': int)
    | Explosion2(x: int, y: int, z: int, color: Byte, range: Byte)

  datatype WireMessage =
    | WNop
    | WDisconnect
    | WPlayerState(key: Byte, value: nat)
    | WCameraPos(entity: nat)
    | WSound(volume: Option<Byte>, attenuation: Option<Byte>, spare: nat, entity: nat, channel: nat, sound: Byte, x: int, y: int, z: int)
    | WTime(negative: bool, exponent: nat, fraction: nat)
    | WText(stuff: bool, text: Text)
    | WOrientation(x: int, y: int, z: int)
    | WServerInfo(version: nat, maxClients: Byte, gameType: Byte, level: Text, models: seq<Text>, sounds: seq<Text>)
    | WNamed(style: bool, index: Byte, text: Text)
    | WFrags(player: Byte, frags: nat)
    | WClientData(data: ClientData)
    | WIgnored(ignored: Ignored)
    | WBaseline(entity: nat, model: Byte, frame: Byte, color: Byte, skin: Byte, x: int, a: int, y: int, b: int, z: int, c: int)
    | WTempEntity(temp: TempEntity)
    | WClientState(state: Byte)
    | WCenterPrint(text: Text)
    | WIntermission(text: Text)
    | WFinale(text: Text)
    | WUpdate(update: WireUpdate)

  predicate IsText(s: Text) {
    0 !in s
  }

  predicate AreNames(names: seq<Text>) {
    forall s :: s in names ==> s != [] && IsText(s)
  }

  predicate OptInt16(v: Option<int>) {
    v.Some? ==> IsInt16(v.value)
  }

  predicate OptInt8(v: Option<int>) {
    v.Some? ==> IsInt8(v.value)
  }

  /** The bits of the second mask byte can only be set if there is one. */
  predicate WellFormedUpdate(u: WireUpdate) {
    && (!u.moreBits ==> HighBits(u) == 0)
    && u.entity < (if u.longEntity then 0x1_0000 else 0x100)
    && OptInt16(u.x) && OptInt8(u.a) && OptInt16(u.y) && OptInt8(u.b) && OptInt16(u.z) && OptInt8(u.c)
  }

  predicate WellFormedIgnored(i: Ignored) {
    match i
    case StopSound(what) => what < 0x1_0000
    case Particle(x, y, z, vx, vy, vz, _, _) => AreInt16(x, y, z) && IsInt8(vx) && IsInt8(vy) && IsInt8(vz)
    case Damage(_, _, x, y, z) => AreInt16(x, y, z)
    case SpawnStatic(_, _, _, _, x, a, y, b, z, c) => AreInt16(x, y, z) && IsInt8(a) && IsInt8(b) && IsInt8(c)
    case SpawnStaticSound(x, y, z, _, _, _) => AreInt16(x, y, z)
    case _ => true
  }

  predicate WellFormedTemp(t: TempEntity) {
    match t
    case Point(kind, x, y, z) => kind in {0, 1, 2, 3, 4, 7, 8, 10, 11, 14} && AreInt16(x, y, z)
    case Beam(kind, entity, x, y, z, x', y', z') =>
      kind in {5, 6, 9, 13, 15} && entity < 0x1_0000 && AreInt16(x, y, z) && AreInt16(x', y', z')
    case Explosion2(x, y, z, _, _) => AreInt16(x, y, z)
  }

  predicate AreInt16(x: int, y: int, z: int) {
    IsInt16(x) && IsInt16(y) && IsInt16(z)
  }

  predicate WellFormed(w: WireMessage) {
    match w
    case WNop => true
    case WDisconnect => true
    case WPlayerState(_, value) => value < 0x1_0000_0000
    case WCameraPos(entity) => entity < 0x1_0000
    case WSound(_, _, spare, entity, channel, _, x, y, z) => spare < 64 && entity < 0x2000 && channel < 8 && AreInt16(x, y, z)
    case WTime(_, exponent, fraction) => exponent < 0x100 && fraction < 0x80_0000
    case WText(_, text) => IsText(text)
    case WOrientation(x, y, z) => IsInt8(x) && IsInt8(y) && IsInt8(z)
    case WServerInfo(version, _, _, level, models, sounds) =>
      version in {15, 666} && IsText(level) && AreNames(models) && AreNames(sounds)
    case WNamed(_, _, text) => IsText(text)
    case WFrags(_, frags) => frags < 0x1_0000
    case WClientData(data) => (data.items.Some? ==> data.items.value < 0x1_0000_0000) && data.health < 0x1_0000
    case WIgnored(ignored) => WellFormedIgnored(ignored)
    case WBaseline(entity, _, _, _, _, x, a, y, b, z, c) =>
      entity < 0x1_0000 && IsInt16(x) && IsInt8(a) && IsInt16(y) && IsInt8(b) && IsInt16(z) && IsInt8(c)
    case WTempEntity(temp) => WellFormedTemp(temp)
    case WClientState(_) => true
    case WCenterPrint(text) => IsText(text)
    case WIntermission(text) => IsText(text)
    case WFinale(text) => IsText(text)
    case WUpdate(u) => WellFormedUpdate(u)
  }

  function PutStrings(names: seq<Text>, rest: seq<Byte>): seq<Byte> {
    if names == [] then PutString([], rest) else PutString(names[0], PutStrings(names[1..], rest))
  }

  function PutOptUint8(v: Option<Byte>, rest: seq<Byte>): seq<Byte> {
    if v.Some? then [v.value] + rest else rest
  }

  /** A bit of the given weight. */
  function Bit(set_: bool, weight: nat): nat {
    if set_ then weight else 0
  }

  /** The first byte of the mask, below the bit that marks an update. */
  function LowBits(u: WireUpdate): (n: nat)
    ensures n < 0x80
  {
    Bit(u.moreBits, 1) + Bit(u.x.Some?, 2) + Bit(u.y.Some?, 4) + Bit(u.z.Some?, 8)
    + Bit(u.b.Some?, 0x10) + Bit(u.noLerp, 0x20) + Bit(u.frame.Some?, 0x40)
  }

  /** The second byte of the mask. */
  function HighBits(u: WireUpdate): (n: nat)
    ensures n < 0x100
  {
    Bit(u.a.Some?, 1) + Bit(u.c.Some?, 2) + Bit(u.model.Some?, 4) + Bit(u.color.Some?, 8)
    + Bit(u.skin.Some?, 0x10) + Bit(u.effects.Some?, 0x20) + Bit(u.longEntity, 0x40) + Bit(u.spare, 0x80)
  }

  function MaskOf(u: WireUpdate): nat {
    LowBits(u) + 0x100 * HighBits(u)
  }

  function SoundMask(volume: Option<Byte>, attenuation: Option<Byte>, spare: nat): (n: nat)
    requires spare < 64
    ensures n < 0x100
  {
    Bit(volume.Some?, 1) + Bit(attenuation.Some?, 2) + 4 * spare
  }

  function LowFlags(d: ClientData): (n: nat)
    ensures n < 0x100
  {
    Bit(d.viewHeight.Some?, 1) + Bit(d.idealPitch.Some?, 2) + Bit(d.punch1.Some?, 4) + Bit(d.punch2.Some?, 8)
    + Bit(d.punch3.Some?, 0x10) + Bit(d.velocity1.Some?, 0x20) + Bit(d.velocity2.Some?, 0x40) + Bit(d.velocity3.Some?, 0x80)
  }

  function HighFlags(d: ClientData): (n: nat)
    ensures n < 0x100
  {
    Bit(d.aimEnt, 1) + Bit(d.items.Some?, 2) + Bit(d.onGround, 4) + Bit(d.inWater, 8)
    + Bit(d.weaponFrame.Some?, 0x10) + Bit(d.armor.Some?, 0x20) + Bit(d.weapon.Some?, 0x40) + Bit(d.spare, 0x80)
  }

  function FlagsOf(d: ClientData): nat {
    LowFlags(d) + 0x100 * HighFlags(d)
  }

  function OptByte(v: Option<Byte>): seq<Byte> {
    if v.Some? then [v.value] else []
  }

  /** The fields that may be absent, in the order of the format. */
  function Optional(d: ClientData): seq<Byte>
    requires d.items.Some? ==> d.items.value < 0x1_0000_0000
  {
    View(d) + Motion(d) + Items(d)
  }

  function View(d: ClientData): seq<Byte> {
    OptByte(d.viewHeight) + OptByte(d.idealPitch) + OptByte(d.punch1) + OptByte(d.velocity1)
  }

  function Motion(d: ClientData): seq<Byte> {
    OptByte(d.punch2) + OptByte(d.velocity2) + OptByte(d.punch3) + OptByte(d.velocity3)
  }

  function Items(d: ClientData): seq<Byte>
    requires d.items.Some? ==> d.items.value < 0x1_0000_0000
  {
    (if d.items.Some? then PutUint32(d.items.value, []) else [])
    + OptByte(d.weaponFrame) + OptByte(d.armor) + OptByte(d.weapon)
  }

  /** The fields that are always there. */
  function Always(d: ClientData): seq<Byte>
    requires d.health < 0x1_0000
  {
    PutUint16(d.health, [d.ammo, d.shells, d.nails, d.rockets, d.cells, d.held])
  }

  function IgnoredType(i: Ignored): Byte {
    match i
    case StopSound(_) => 0x10
    case SetColors(_, _) => 0x11
    case Particle(_, _, _, _, _, _, _, _) => 0x12
    case Damage(_, _, _, _, _) => 0x13
    case SpawnStatic(_, _, _, _, _, _, _, _, _, _) => 0x14
    case SetPause(_) => 0x18
    case KilledMonster => 0x1b
    case FoundSecret => 0x1c
    case SpawnStaticSound(_, _, _, _, _, _) => 0x1d
    case CdTrack(_, _) => 0x20
    case SellScreen => 0x21
  }

  function PutPoint(x: int, y: int, z: int, rest: seq<Byte>): seq<Byte>
    requires AreInt16(x, y, z)
  {
    PutInt16(x, PutInt16(y, PutInt16(z, rest)))
  }

  function IgnoredBody(i: Ignored): seq<Byte>
    requires WellFormedIgnored(i)
  {
    match i
    case StopSound(what) => PutUint16(what, [])
    case SetColors(player, color) => [player, color]
    case Particle(x, y, z, vx, vy, vz, count, color) =>
      PutPoint(x, y, z, PutInt8(vx, PutInt8(vy, PutInt8(vz, [count, color]))))
    case Damage(armor, health, x, y, z) => [armor, health] + PutPoint(x, y, z, [])
    case SpawnStatic(model, frame, color, skin, x, a, y, b, z, c) =>
      PutBytes(model, frame, color, skin, PutVertices(x, a, y, b, z, c, []))
    case SetPause(on) => [on]
    case KilledMonster => []
    case FoundSecret => []
    case SpawnStaticSound(x, y, z, num, volume, attenuation) => PutPoint(x, y, z, [num, volume, attenuation])
    case CdTrack(from, to) => [from, to]
    case SellScreen => []
  }

  function TempKind(t: TempEntity): Byte {
    match t
    case Point(kind, _, _, _) => kind
    case Beam(kind, _, _, _, _, _, _, _) => kind
    case Explosion2(_, _, _, _, _) => 12
  }

  function TempBody(t: TempEntity): seq<Byte>
    requires WellFormedTemp(t)
  {
    match t
    case Point(_, x, y, z) => PutPoint(x, y, z, [])
    case Beam(_, entity, x, y, z, x', y', z') => PutUint16(entity, PutPoint(x, y, z, PutPoint(x', y', z', [])))
    case Explosion2(x, y, z, color, range) => PutPoint(x, y, z, [color, range])
  }

  /** The bits of a float. */
  function FloatBits(negative: bool, exponent: nat, fraction: nat): (n: nat)
    requires exponent < 0x100 && fraction < 0x80_0000
    ensures n < 0x1_0000_0000
  {
    Bit(negative, 0x8000_0000) + 0x80_0000 * exponent + fraction
  }

  function PutOptCoord(v: Option<int>, rest: seq<Byte>): seq<Byte>
    requires v.Some? ==> IsInt16(v.value)
  {
    if v.Some? then PutInt16(v.value, rest) else rest
  }

  function PutOptAngle(v: Option<int>, rest: seq<Byte>): seq<Byte>
    requires v.Some? ==> IsInt8(v.value)
  {
    if v.Some? then PutInt8(v.value, rest) else rest
  }

  function PutPlace(u: WireUpdate, rest: seq<Byte>): seq<Byte>
    requires WellFormedUpdate(u)
  {
    PutOptCoord(u.x, PutOptAngle(u.a, PutOptCoord(u.y, PutPlaceEnd(u, rest))))
  }

  function PutPlaceEnd(u: WireUpdate, rest: seq<Byte>): seq<Byte>
    requires WellFormedUpdate(u)
  {
    PutOptAngle(u.b, PutOptCoord(u.z, PutOptAngle(u.c, rest)))
  }

  function PutLooks(u: WireUpdate, rest: seq<Byte>): seq<Byte>
    requires WellFormedUpdate(u)
  {
    PutOptUint8(u.model, PutOptUint8(u.frame, PutOptUint8(u.color, PutOptUint8(u.skin, PutOptUint8(u.effects, rest)))))
  }

  function PutEntity(u: WireUpdate, rest: seq<Byte>): seq<Byte>
    requires WellFormedUpdate(u)
  {
    if u.longEntity then PutUint16(u.entity, rest) else [u.entity] + rest
  }

  function PutMask(u: WireUpdate, rest: seq<Byte>): seq<Byte>
    requires WellFormedUpdate(u)
  {
    [0x80 + LowBits(u)] + if u.moreBits then [HighBits(u)] + rest else rest
  }

  function PutSoundSource(entity: nat, channel: nat, sound: Byte, x: int, y: int, z: int, rest: seq<Byte>): seq<Byte>
    requires entity < 0x2000 && channel < 8 && IsInt16(x) && IsInt16(y) && IsInt16(z)
  {
    PutUint16(8 * entity + channel, [sound] + PutInt16(x, PutInt16(y, PutInt16(z, rest))))
  }

  function PutBytes(a: Byte, b: Byte, c: Byte, d: Byte, rest: seq<Byte>): seq<Byte> {
    [a] + ([b] + ([c] + ([d] + rest)))
  }

  function PutVertices(x: int, a: int, y: int, b: int, z: int, c: int, rest: seq<Byte>): seq<Byte>
    requires IsInt16(x) && IsInt8(a) && IsInt16(y) && IsInt8(b) && IsInt16(z) && IsInt8(c)
  {
    PutInt16(x, PutInt8(a, PutInt16(y, PutInt8(b, PutInt16(z, PutInt8(c, rest))))))
  }

  /** The bytes of `w`, followed by `rest`. */
  function Encode(w: WireMessage, rest: seq<Byte>): seq<Byte>
    requires WellFormed(w)
  {
    match w
    case WNop => [0x01] + rest
    case WDisconnect => [0x02] + rest
    case WPlayerState(key, value) => [0x03, key] + PutUint32(value, rest)
    case WCameraPos(entity) => [0x05] + PutUint16(entity, rest)
    case WSound(volume, attenuation, spare, entity, channel, sound, x, y, z) =>
      [0x06, SoundMask(volume, attenuation, spare)]
      + PutOptUint8(volume, PutOptUint8(attenuation, PutSoundSource(entity, channel, sound, x, y, z, rest)))
    case WTime(negative, exponent, fraction) => [0x07] + PutUint32(FloatBits(negative, exponent, fraction), rest)
    case WText(stuff, text) => [if stuff then 0x09 else 0x08] + PutString(text, rest)
    case WOrientation(x, y, z) => [0x0A] + PutInt8(x, PutInt8(y, PutInt8(z, rest)))
    case WServerInfo(version, maxClients, gameType, level, models, sounds) =>
      [0x0B] + PutUint32(version, [maxClients, gameType] + PutString(level, PutStrings(models, PutStrings(sounds, rest))))
    case WNamed(style, index, text) => [if style then 0x0C else 0x0D, index] + PutString(text, rest)
    case WFrags(player, frags) => [0x0E, player] + PutUint16(frags, rest)
    case WClientData(data) => [0x0F, LowFlags(data), HighFlags(data)] + (Optional(data) + (Always(data) + rest))
    case WIgnored(ignored) => [IgnoredType(ignored)] + (IgnoredBody(ignored) + rest)
    case WBaseline(entity, model, frame, color, skin, x, a, y, b, z, c) =>
      [0x16] + PutUint16(entity, PutBytes(model, frame, color, skin, PutVertices(x, a, y, b, z, c, rest)))
    case WTempEntity(temp) => [0x17, TempKind(temp)] + (TempBody(temp) + rest)
    case WClientState(state) => [0x19, state] + rest
    case WCenterPrint(text) => [0x1A] + PutString(text, rest)
    case WIntermission(text) => [0x1E] + PutString(text, rest)
    case WFinale(text) => [0x1F] + PutString(text, rest)
    case WUpdate(u) => PutMask(u, PutEntity(u, PutLooks(u, PutPlace(u, rest))))
  }

  /** What the raw numbers mean: eighths, and 256ths of a turn. */
  function Eighths(raw: int): real {
    raw as real / 8.0
  }

  function Degrees(raw: int): real {
    360.0 * raw as real / 256.0
  }

  function MaybeEighths(raw: Option<int>): Option<real> {
    if raw.Some? then Some(Eighths(raw.value)) else None
  }

  function MaybeDegrees(raw: Option<int>): Option<real> {
    if raw.Some? then Some(Degrees(raw.value)) else None
  }

  function Eight(x: int, y: int, z: int): Vertex {
    Vertex(Eighths(x), Eighths(y), Eighths(z))
  }

  function TwoTo(k: int): (r: real)
    ensures r > 0.0
    decreases if k < 0 then -k else k
  {
    if k == 0 then 1.0 else if k > 0 then 2.0 * TwoTo(k - 1) else TwoTo(k + 1) / 2.0
  }

  /** IEEE 754: the exponent is biased by 127, and the fraction, in 2^23rds, follows a 1 unless the exponent is 0. */
  function FloatValue(negative: bool, exponent: nat, fraction: nat): real {
    var f := fraction as real / 8388608.0;
    var size := if exponent == 0 then f else 1.0 + f;
    (if negative then 0.0 - size else size) * TwoTo((if exponent == 0 then 1 else exponent) - 127)
  }

  /** What the message says to the converter. */
  function Meaning(w: WireMessage): Message
    requires WellFormed(w)
  {
    match w
    case WNop => Nop
    case WDisconnect => Disconnect
    case WPlayerState(key, value) => PlayerState(key, value)
    case WCameraPos(entity) => CameraPos(entity)
    case WSound(volume, attenuation, _, entity, channel, sound, x, y, z) =>
      PlaySound(Sound(sound, Eight(x, y, z), channel, entity,
                      if volume.Some? then volume.value else 0, if attenuation.Some? then attenuation.value else 0))
    case WTime(negative, exponent, fraction) => Time(FloatValue(negative, exponent, fraction))
    case WText(_, _) => Nop
    case WOrientation(x, y, z) => CameraOrientation(Vertex(Degrees(x), Degrees(y), Degrees(z)))
    case WServerInfo(version, maxClients, gameType, level, models, sounds) =>
      Server(ServerInfo(version, maxClients, gameType, level, if models == [] then [] else [models[0]] + models, [[]] + sounds))
    case WNamed(style, index, text) => if style then LightStyle(index, text) else PlayerName(index, text)
    case WFrags(player, frags) => Frags(player, frags)
    case WClientData(_) => Nop
    case WIgnored(_) => Nop
    case WBaseline(entity, model, frame, color, skin, x, a, y, b, z, c) =>
      SpawnBaseline(entity, model, frame, color, skin, Eight(x, y, z), Vertex(Degrees(a), Degrees(b), Degrees(c)))
    case WTempEntity(_) => Nop
    case WClientState(state) => ClientState(state)
    case WCenterPrint(_) => Nop
    case WIntermission(text) => Intermission(text)
    case WFinale(text) => Finale(text)
    case WUpdate(u) =>
      Move(Update(u.entity, u.model, u.frame, u.color, u.skin, u.effects,
                  MaybeEighths(u.x), MaybeDegrees(u.a), MaybeEighths(u.y), MaybeDegrees(u.b), MaybeEighths(u.z), MaybeDegrees(u.c)))
  }

  // ----- Bits

  /** Four binary digits, the lowest first, below the others. */
  function Nibble(b0: bool, b1: bool, b2: bool, b3: bool, above: nat): nat {
    Bit(b0, 1) + Bit(b1, 2) + Bit(b2, 4) + Bit(b3, 8) + 0x10 * above
  }

  lemma FirstDigit(n: nat, b: bool, rest: nat)
    requires n == Bit(b, 1) + 2 * rest
    ensures Has(n, 1) == b
  {
  }

  lemma NextDigit(n: nat, b: bool, rest: nat, weight: nat)
    requires n == Bit(b, 1) + 2 * rest && weight > 0
    ensures Has(n, 2 * weight) == Has(rest, weight)
  {
    assert n / 2 == rest;
  }

  lemma NibbleDigits(n: nat, b0: bool, b1: bool, b2: bool, b3: bool, above: nat)
    requires n == Nibble(b0, b1, b2, b3, above)
    ensures Has(n, 1) == b0 && Has(n, 2) == b1 && Has(n, 4) == b2 && Has(n, 8) == b3
  {
    var n3 := Bit(b3, 1) + 2 * above;
    var n2 := Bit(b2, 1) + 2 * n3;
    var n1 := Bit(b1, 1) + 2 * n2;
    FirstDigit(n, b0, n1);
    FirstDigit(n1, b1, n2);
    FirstDigit(n2, b2, n3);
    FirstDigit(n3, b3, above);
    NextDigit(n, b0, n1, 1);
    NextDigit(n, b0, n1, 2);
    NextDigit(n, b0, n1, 4);
    NextDigit(n1, b1, n2, 1);
    NextDigit(n1, b1, n2, 2);
    NextDigit(n2, b2, n3, 1);
  }

  lemma AboveNibble(n: nat, b0: bool, b1: bool, b2: bool, b3: bool, above: nat, weight: nat)
    requires n == Nibble(b0, b1, b2, b3, above) && weight > 0
    ensures Has(n, 0x10 * weight) == Has(above, weight)
  {
    var n3 := Bit(b3, 1) + 2 * above;
    var n2 := Bit(b2, 1) + 2 * n3;
    var n1 := Bit(b1, 1) + 2 * n2;
    NextDigit(n, b0, n1, 8 * weight);
    NextDigit(n1, b1, n2, 4 * weight);
    NextDigit(n2, b2, n3, 2 * weight);
    NextDigit(n3, b3, above, weight);
  }

  /** The bits of two bytes. */
  predicate AreDigits(n: nat, b0: bool, b1: bool, b2: bool, b3: bool, b4: bool, b5: bool, b6: bool, b7: bool, b8: bool, b9: bool, b10: bool, b11: bool, b12: bool, b13: bool, b14: bool, b15: bool) {
    && Has(n, 1) == b0 && Has(n, 2) == b1 && Has(n, 4) == b2 && Has(n, 8) == b3
    && Has(n, 0x10) == b4 && Has(n, 0x20) == b5 && Has(n, 0x40) == b6 && Has(n, 0x80) == b7
    && Has(n, 0x100) == b8 && Has(n, 0x200) == b9 && Has(n, 0x400) == b10 && Has(n, 0x800) == b11
    && Has(n, 0x1000) == b12 && Has(n, 0x2000) == b13 && Has(n, 0x4000) == b14 && Has(n, 0x8000) == b15
  }

  lemma SecondNibble(n: nat, b0: bool, b1: bool, b2: bool, b3: bool, b4: bool, b5: bool, b6: bool, b7: bool, n1: nat, above: nat)
    requires n == Nibble(b0, b1, b2, b3, n1) && n1 == Nibble(b4, b5, b6, b7, above)
    ensures Has(n, 0x10) == b4 && Has(n, 0x20) == b5 && Has(n, 0x40) == b6 && Has(n, 0x80) == b7
  {
    NibbleDigits(n1, b4, b5, b6, b7, above);
    AboveNibble(n, b0, b1, b2, b3, n1, 1);
    AboveNibble(n, b0, b1, b2, b3, n1, 2);
    AboveNibble(n, b0, b1, b2, b3, n1, 4);
    AboveNibble(n, b0, b1, b2, b3, n1, 8);
  }

  lemma AboveByte(n: nat, b0: bool, b1: bool, b2: bool, b3: bool, b4: bool, b5: bool, b6: bool, b7: bool, n1: nat, above: nat, weight: nat)
    requires n == Nibble(b0, b1, b2, b3, n1) && n1 == Nibble(b4, b5, b6, b7, above) && weight > 0
    ensures Has(n, 0x100 * weight) == Has(above, weight)
  {
    AboveNibble(n, b0, b1, b2, b3, n1, 0x10 * weight);
    AboveNibble(n1, b4, b5, b6, b7, above, weight);
  }

  lemma HighByte(n: nat, b0: bool, b1: bool, b2: bool, b3: bool, b4: bool, b5: bool, b6: bool, b7: bool, n1: nat, above: nat)
    requires n == Nibble(b0, b1, b2, b3, n1) && n1 == Nibble(b4, b5, b6, b7, above)
    ensures Has(n, 0x100) == Has(above, 1) && Has(n, 0x200) == Has(above, 2)
    ensures Has(n, 0x400) == Has(above, 4) && Has(n, 0x800) == Has(above, 8)
    ensures Has(n, 0x1000) == Has(above, 0x10) && Has(n, 0x2000) == Has(above, 0x20)
    ensures Has(n, 0x4000) == Has(above, 0x40) && Has(n, 0x8000) == Has(above, 0x80)
  {
    AboveByte(n, b0, b1, b2, b3, b4, b5, b6, b7, n1, above, 1);
    AboveByte(n, b0, b1, b2, b3, b4, b5, b6, b7, n1, above, 2);
    AboveByte(n, b0, b1, b2, b3, b4, b5, b6, b7, n1, above, 4);
    AboveByte(n, b0, b1, b2, b3, b4, b5, b6, b7, n1, above, 8);
    AboveByte(n, b0, b1, b2, b3, b4, b5, b6, b7, n1, above, 0x10);
    AboveByte(n, b0, b1, b2, b3, b4, b5, b6, b7, n1, above, 0x20);
    AboveByte(n, b0, b1, b2, b3, b4, b5, b6, b7, n1, above, 0x40);
    AboveByte(n, b0, b1, b2, b3, b4, b5, b6, b7, n1, above, 0x80);
  }

  lemma DigitsAre(n: nat, b0: bool, b1: bool, b2: bool, b3: bool, b4: bool, b5: bool, b6: bool, b7: bool, b8: bool, b9: bool, b10: bool, b11: bool, b12: bool, b13: bool, b14: bool, b15: bool, n1: nat, n2: nat, n3: nat)
    requires n == Nibble(b0, b1, b2, b3, n1) && n1 == Nibble(b4, b5, b6, b7, n2)
    requires n2 == Nibble(b8, b9, b10, b11, n3) && n3 == Nibble(b12, b13, b14, b15, 0)
    ensures AreDigits(n, b0, b1, b2, b3, b4, b5, b6, b7, b8, b9, b10, b11, b12, b13, b14, b15)
  {
    NibbleDigits(n, b0, b1, b2, b3, n1);
    SecondNibble(n, b0, b1, b2, b3, b4, b5, b6, b7, n1, n2);
    HighByte(n, b0, b1, b2, b3, b4, b5, b6, b7, n1, n2);
    NibbleDigits(n2, b8, b9, b10, b11, n3);
    SecondNibble(n2, b8, b9, b10, b11, b12, b13, b14, b15, n3, 0);
  }

  lemma TwoBytes(n: nat, low: nat, high: nat, b0: bool, b1: bool, b2: bool, b3: bool, b4: bool, b5: bool, b6: bool, b7: bool, b8: bool, b9: bool, b10: bool, b11: bool, b12: bool, b13: bool, b14: bool, b15: bool)
    requires n == low + 0x100 * high
    requires low == Nibble(b0, b1, b2, b3, Nibble(b4, b5, b6, b7, 0))
    requires high == Nibble(b8, b9, b10, b11, Nibble(b12, b13, b14, b15, 0))
    ensures AreDigits(n, b0, b1, b2, b3, b4, b5, b6, b7, b8, b9, b10, b11, b12, b13, b14, b15)
  {
    DigitsAre(n, b0, b1, b2, b3, b4, b5, b6, b7, b8, b9, b10, b11, b12, b13, b14, b15,
              Nibble(b4, b5, b6, b7, high), high, Nibble(b12, b13, b14, b15, 0));
  }

  // ----- Decoding what was encoded

  lemma OneByte(v: Byte, rest: seq<Byte>)
    ensures TakeUint8([v] + rest) == Read(v, true, rest)
  {
    assert ([v] + rest)[1..] == rest;
  }

  lemma SkipsBody(body: seq<Byte>, rest: seq<Byte>)
    ensures Skip(|body|, body + rest) == rest
  {
  }

  /** An eighth is 0.125. */
  lemma CoordIsEighths(x: int)
    ensures Coord(x) == Eighths(x)
  {
  }

  lemma SoundSourceRoundTrip(volume: Byte, attenuation: Byte, entity: nat, channel: nat, sound: Byte, x: int, y: int, z: int, rest: seq<Byte>)
    requires entity < 0x2000 && channel < 8 && AreInt16(x, y, z)
    ensures DecodeSoundSource(volume, attenuation, PutSoundSource(entity, channel, sound, x, y, z, rest))
         == Got(PlaySound(Sound(sound, Eight(x, y, z), channel, entity, volume, attenuation)), rest)
  {
    var packed := 8 * entity + channel;
    var coords := PutInt16(x, PutInt16(y, PutInt16(z, rest)));
    ReadsUint16(packed, [sound] + coords);
    Unpacked(entity, channel);
    OneByte(sound, coords);
    ReadsInt16(x, PutInt16(y, PutInt16(z, rest)));
    ReadsInt16(y, PutInt16(z, rest));
    ReadsInt16(z, rest);
    CoordIsEighths(x);
    CoordIsEighths(y);
    CoordIsEighths(z);
  }

  lemma Unpacked(entity: nat, channel: nat)
    requires entity < 0x2000 && channel < 8
    ensures (8 * entity + channel) % 8 == channel && (8 * entity + channel) / 8 % 0x2000 == entity
  {
  }

  lemma FlaggedRoundTrip(v: Option<Byte>, rest: seq<Byte>)
    ensures TakeFlagged(v.Some?, PutOptUint8(v, rest)) == Read(if v.Some? then v.value else 0, true, rest)
  {
    if v.Some? {
      OneByte(v.value, rest);
    }
  }

  lemma SoundFlags(volume: Option<Byte>, attenuation: Option<Byte>, spare: nat)
    requires spare < 64
    ensures Has(SoundMask(volume, attenuation, spare), 1) <==> volume.Some?
    ensures Has(SoundMask(volume, attenuation, spare), 2) <==> attenuation.Some?
  {
  }

  lemma SoundBodyRoundTrip(w: WireMessage, rest: seq<Byte>)
    requires w.WSound? && WellFormed(w)
    ensures DecodeSound(Encode(w, rest)[1..]) == Got(Meaning(w), rest)
  {
    var mask := SoundMask(w.volume, w.attenuation, w.spare);
    var source := PutSoundSource(w.entity, w.channel, w.sound, w.x, w.y, w.z, rest);
    var att := PutOptUint8(w.attenuation, source);
    var vol := PutOptUint8(w.volume, att);
    assert Encode(w, rest)[1..] == [mask] + vol;
    OneByte(mask, vol);
    SoundFlags(w.volume, w.attenuation, w.spare);
    FlaggedRoundTrip(w.volume, att);
    FlaggedRoundTrip(w.attenuation, source);
    SoundSourceRoundTrip(if w.volume.Some? then w.volume.value else 0, if w.attenuation.Some? then w.attenuation.value else 0,
                         w.entity, w.channel, w.sound, w.x, w.y, w.z, rest);
  }

  /** Whatever the mask says about volume and attenuation, and for every packed entity and channel. */
  lemma SoundRoundTrip(w: WireMessage, rest: seq<Byte>)
    requires w.WSound? && WellFormed(w)
    ensures Decode(Encode(w, rest)) == Got(Meaning(w), rest)
  {
    SoundBodyRoundTrip(w, rest);
    assert Encode(w, rest)[0] == 0x06;
  }

  lemma {:induction false} StringsRoundTrip(names: seq<Text>, rest: seq<Byte>)
    requires AreNames(names)
    ensures TakeStrings(PutStrings(names, rest)) == Read(names, true, rest)
  {
    if names == [] {
      ReadsString([], rest);
    } else {
      assert names[0] in names;
      ReadsString(names[0], PutStrings(names[1..], rest));
      StringsRoundTrip(names[1..], rest);
      assert [names[0]] + names[1..] == names;
    }
  }

  lemma ServerListsRoundTrip(w: WireMessage, rest: seq<Byte>)
    requires w.WServerInfo? && WellFormed(w)
    ensures DecodeServerLists(w.version, w.maxClients, w.gameType,
                              PutString(w.level, PutStrings(w.models, PutStrings(w.sounds, rest))))
         == Got(Meaning(w), rest)
  {
    var sounds := PutStrings(w.sounds, rest);
    ReadsString(w.level, PutStrings(w.models, sounds));
    StringsRoundTrip(w.models, sounds);
    StringsRoundTrip(w.sounds, rest);
  }

  lemma ServerInfoBodyRoundTrip(w: WireMessage, rest: seq<Byte>)
    requires w.WServerInfo? && WellFormed(w)
    ensures DecodeServerInfo(Encode(w, rest)[1..]) == Got(Meaning(w), rest)
  {
    var level := PutString(w.level, PutStrings(w.models, PutStrings(w.sounds, rest)));
    assert Encode(w, rest)[1..] == PutUint32(w.version, [w.maxClients, w.gameType] + level);
    ReadsUint32(w.version, [w.maxClients, w.gameType] + level);
    assert [w.maxClients, w.gameType] + level == [w.maxClients] + ([w.gameType] + level);
    OneByte(w.maxClients, [w.gameType] + level);
    OneByte(w.gameType, level);
    ServerListsRoundTrip(w, rest);
  }

  lemma ServerInfoRoundTrip(w: WireMessage, rest: seq<Byte>)
    requires w.WServerInfo? && WellFormed(w)
    ensures Decode(Encode(w, rest)) == Got(Meaning(w), rest)
  {
    ServerInfoBodyRoundTrip(w, rest);
    assert Encode(w, rest)[0] == 0x0B;
  }

  /** Which fields are sent is what the decoder reads in the flags. */
  predicate ClientFlags(mask: nat, d: ClientData) {
    && Has(mask, SU_VIEWHEIGHT) == d.viewHeight.Some? && Has(mask, SU_IDEALPITCH) == d.idealPitch.Some?
    && Has(mask, SU_PUNCH1) == d.punch1.Some? && Has(mask, SU_PUNCH2) == d.punch2.Some? && Has(mask, SU_PUNCH3) == d.punch3.Some?
    && Has(mask, SU_VELOCITY1) == d.velocity1.Some? && Has(mask, SU_VELOCITY2) == d.velocity2.Some?
    && Has(mask, SU_VELOCITY3) == d.velocity3.Some?
    && Has(mask, SU_ITEMS) == d.items.Some? && Has(mask, SU_WEAPONFRAME) == d.weaponFrame.Some?
    && Has(mask, SU_ARMOR) == d.armor.Some? && Has(mask, SU_WEAPON) == d.weapon.Some?
  }

  predicate AreClientDigits(n: nat, d: ClientData) {
    AreDigits(n, d.viewHeight.Some?, d.idealPitch.Some?, d.punch1.Some?, d.punch2.Some?,
              d.punch3.Some?, d.velocity1.Some?, d.velocity2.Some?, d.velocity3.Some?,
              d.aimEnt, d.items.Some?, d.onGround, d.inWater, d.weaponFrame.Some?, d.armor.Some?, d.weapon.Some?, d.spare)
  }

  lemma ClientDigitsMean(n: nat, d: ClientData)
    requires AreClientDigits(n, d)
    ensures ClientFlags(n, d)
  {
  }

  lemma ClientNibbles(d: ClientData)
    ensures LowFlags(d) == Nibble(d.viewHeight.Some?, d.idealPitch.Some?, d.punch1.Some?, d.punch2.Some?,
                                  Nibble(d.punch3.Some?, d.velocity1.Some?, d.velocity2.Some?, d.velocity3.Some?, 0))
    ensures HighFlags(d) == Nibble(d.aimEnt, d.items.Some?, d.onGround, d.inWater,
                                   Nibble(d.weaponFrame.Some?, d.armor.Some?, d.weapon.Some?, d.spare, 0))
  {
  }

  lemma ClientFlagsMean(d: ClientData)
    ensures ClientFlags(FlagsOf(d), d)
  {
    ClientNibbles(d);
    TwoBytes(FlagsOf(d), LowFlags(d), HighFlags(d), d.viewHeight.Some?, d.idealPitch.Some?, d.punch1.Some?, d.punch2.Some?,
              d.punch3.Some?, d.velocity1.Some?, d.velocity2.Some?, d.velocity3.Some?,
              d.aimEnt, d.items.Some?, d.onGround, d.inWater, d.weaponFrame.Some?, d.armor.Some?, d.weapon.Some?, d.spare);
    ClientDigitsMean(FlagsOf(d), d);
  }

  lemma OptionalSize(d: ClientData)
    requires d.items.Some? ==> d.items.value < 0x1_0000_0000
    ensures |Optional(d)| == ClientDataSize(FlagsOf(d))
  {
    ClientFlagsMean(d);
    SizeByFlags(d, FlagsOf(d));
  }

  lemma SizeByFlags(d: ClientData, mask: nat)
    requires d.items.Some? ==> d.items.value < 0x1_0000_0000
    requires ClientFlags(mask, d)
    ensures |Optional(d)| == ClientDataSize(mask)
  {
    ViewSizeIs(d, mask);
    MotionSizeIs(d, mask);
    ItemsSizeIs(d, mask);
  }

  lemma ViewSizeIs(d: ClientData, mask: nat)
    requires Has(mask, SU_VIEWHEIGHT) == d.viewHeight.Some? && Has(mask, SU_IDEALPITCH) == d.idealPitch.Some?
    requires Has(mask, SU_PUNCH1) == d.punch1.Some? && Has(mask, SU_VELOCITY1) == d.velocity1.Some?
    ensures |View(d)| == ViewSize(mask)
  {
    FourBytes(d.viewHeight, d.idealPitch, d.punch1, d.velocity1);
  }

  lemma MotionSizeIs(d: ClientData, mask: nat)
    requires Has(mask, SU_PUNCH2) == d.punch2.Some? && Has(mask, SU_VELOCITY2) == d.velocity2.Some?
    requires Has(mask, SU_PUNCH3) == d.punch3.Some? && Has(mask, SU_VELOCITY3) == d.velocity3.Some?
    ensures |Motion(d)| == MotionSize(mask)
  {
    FourBytes(d.punch2, d.velocity2, d.punch3, d.velocity3);
  }

  lemma ItemsSizeIs(d: ClientData, mask: nat)
    requires d.items.Some? ==> d.items.value < 0x1_0000_0000
    requires Has(mask, SU_ITEMS) == d.items.Some? && Has(mask, SU_WEAPONFRAME) == d.weaponFrame.Some?
    requires Has(mask, SU_ARMOR) == d.armor.Some? && Has(mask, SU_WEAPON) == d.weapon.Some?
    ensures |Items(d)| == ItemsSize(mask)
  {
    ItemBytes(d);
  }

  lemma FourBytes(a: Option<Byte>, b: Option<Byte>, c: Option<Byte>, d: Option<Byte>)
    ensures |OptByte(a) + OptByte(b) + OptByte(c) + OptByte(d)| == FourSize(1, a.Some?, b.Some?, c.Some?, d.Some?)
  {
  }

  lemma ItemBytes(d: ClientData)
    requires d.items.Some? ==> d.items.value < 0x1_0000_0000
    ensures |Items(d)| == FourSize(4, d.items.Some?, d.weaponFrame.Some?, d.armor.Some?, d.weapon.Some?)
  {
  }

  lemma ClientDataBody(mask: nat, optional: seq<Byte>, tail: seq<Byte>, rest: seq<Byte>)
    requires mask < 0x1_0000 && |optional| == ClientDataSize(mask) && |tail| == 8
    ensures DecodeClientData(PutUint16(mask, optional + (tail + rest))) == Got(Nop, rest)
  {
    ReadsUint16(mask, optional + (tail + rest));
    SkipsBody(optional, tail + rest);
    SkipsBody(tail, rest);
  }

  lemma DecodesClientData(b: seq<Byte>)
    requires b != [] && b[0] == 0x0F
    ensures Decode(b) == DecodeClientData(b[1..])
  {
  }

  lemma FlagBytes(low: Byte, high: Byte, body: seq<Byte>)
    ensures ([0x0F, low, high] + body)[1..] == PutUint16(low as nat + 0x100 * high as nat, body)
  {
    TwoDigits(low, high);
    assert ([0x0F, low, high] + body)[1..] == [low, high] + body;
  }

  lemma EncodedClientData(w: WireMessage, rest: seq<Byte>)
    requires w.WClientData? && WellFormed(w)
    ensures
      var b, body := Encode(w, rest), Optional(w.data) + (Always(w.data) + rest);
      b != [] && b[0] == 0x0F && FlagsOf(w.data) < 0x1_0000 && b[1..] == PutUint16(FlagsOf(w.data), body)
  {
    FlagBytes(LowFlags(w.data), HighFlags(w.data), Optional(w.data) + (Always(w.data) + rest));
  }

  lemma TwoDigits(low: nat, high: nat)
    requires low < 0x100 && high < 0x100
    ensures (low + 0x100 * high) % 256 == low && (low + 0x100 * high) / 256 == high
  {
  }

  lemma ClientDataRoundTrip(w: WireMessage, rest: seq<Byte>)
    requires w.WClientData? && WellFormed(w)
    ensures Decode(Encode(w, rest)) == Got(Meaning(w), rest)
  {
    EncodedClientData(w, rest);
    OptionalSize(w.data);
    ClientDataBody(FlagsOf(w.data), Optional(w.data), Always(w.data), rest);
    DecodesClientData(Encode(w, rest));
  }

  lemma VerticesRoundTrip(x: int, a: int, y: int, b: int, z: int, c: int, rest: seq<Byte>)
    requires IsInt16(x) && IsInt8(a) && IsInt16(y) && IsInt8(b) && IsInt16(z) && IsInt8(c)
    ensures TakePlace(PutVertices(x, a, y, b, z, c, rest))
         == Read((Eight(x, y, z), Vertex(Degrees(a), Degrees(b), Degrees(c))), true, rest)
  {
    var fromC := PutInt8(c, rest);
    var fromZ := PutInt16(z, fromC);
    var fromB := PutInt8(b, fromZ);
    var fromY := PutInt16(y, fromB);
    ReadsInt16(x, PutInt8(a, fromY));
    ReadsInt8(a, fromY);
    ReadsInt16(y, fromB);
    ReadsInt8(b, fromZ);
    ReadsInt16(z, fromC);
    ReadsInt8(c, rest);
  }

  lemma BaselineBodyRoundTrip(w: WireMessage, rest: seq<Byte>)
    requires w.WBaseline? && WellFormed(w)
    ensures DecodeBaseline(Encode(w, rest)[1..]) == Got(Meaning(w), rest)
  {
    var place := PutVertices(w.x, w.a, w.y, w.b, w.z, w.c, rest);
    var looks := PutBytes(w.model, w.frame, w.color, w.skin, place);
    assert Encode(w, rest)[1..] == PutUint16(w.entity, looks);
    ReadsUint16(w.entity, looks);
    OneByte(w.model, [w.frame] + ([w.color] + ([w.skin] + place)));
    OneByte(w.frame, [w.color] + ([w.skin] + place));
    OneByte(w.color, [w.skin] + place);
    OneByte(w.skin, place);
    VerticesRoundTrip(w.x, w.a, w.y, w.b, w.z, w.c, rest);
  }

  lemma DecodesBaseline(b: seq<Byte>)
    requires b != [] && b[0] == 0x16
    ensures Decode(b) == DecodeBaseline(b[1..])
  {
  }

  lemma BaselineRoundTrip(w: WireMessage, rest: seq<Byte>)
    requires w.WBaseline? && WellFormed(w)
    ensures Decode(Encode(w, rest)) == Got(Meaning(w), rest)
  {
    BaselineBodyRoundTrip(w, rest);
    DecodesBaseline(Encode(w, rest));
  }

  lemma OptUint8RoundTrip(v: Option<Byte>, rest: seq<Byte>)
    ensures TakeOptUint8(v.Some?, PutOptUint8(v, rest)) == Read(v, true, rest)
  {
    if v.Some? { OneByte(v.value, rest); }
  }

  lemma OptCoordRoundTrip(v: Option<int>, rest: seq<Byte>)
    requires v.Some? ==> IsInt16(v.value)
    ensures TakeOptCoord(v.Some?, PutOptCoord(v, rest)) == Read(MaybeEighths(v), true, rest)
  {
    if v.Some? { ReadsInt16(v.value, rest); }
  }

  lemma OptAngleRoundTrip(v: Option<int>, rest: seq<Byte>)
    requires v.Some? ==> IsInt8(v.value)
    ensures TakeOptAngle(v.Some?, PutOptAngle(v, rest)) == Read(MaybeDegrees(v), true, rest)
  {
    if v.Some? { ReadsInt8(v.value, rest); }
  }

  /** Which fields are sent is what the decoder reads in the mask. */
  predicate PlaceFlags(mask: nat, w: WireUpdate) {
    && Has(mask, U_ORIGIN1) == w.x.Some? && Has(mask, U_ORIGIN2) == w.y.Some? && Has(mask, U_ORIGIN3) == w.z.Some?
    && Has(mask, U_ANGLE1) == w.a.Some? && Has(mask, U_ANGLE2) == w.b.Some? && Has(mask, U_ANGLE3) == w.c.Some?
  }

  predicate LooksFlags(mask: nat, w: WireUpdate) {
    && Has(mask, U_MODEL) == w.model.Some? && Has(mask, U_FRAME) == w.frame.Some? && Has(mask, U_COLORMAP) == w.color.Some?
    && Has(mask, U_SKIN) == w.skin.Some? && Has(mask, U_EFFECTS) == w.effects.Some?
  }

  predicate AreUpdateDigits(n: nat, u: WireUpdate) {
    AreDigits(n, u.moreBits, u.x.Some?, u.y.Some?, u.z.Some?, u.b.Some?, u.noLerp, u.frame.Some?, false,
              u.a.Some?, u.c.Some?, u.model.Some?, u.color.Some?, u.skin.Some?, u.effects.Some?, u.longEntity, u.spare)
  }

  lemma UpdateDigitsMean(n: nat, u: WireUpdate)
    requires AreUpdateDigits(n, u)
    ensures PlaceFlags(n, u) && LooksFlags(n, u) && Has(n, U_LONGENTITY) == u.longEntity
  {
  }

  lemma UpdateNibbles(u: WireUpdate)
    ensures LowBits(u) == Nibble(u.moreBits, u.x.Some?, u.y.Some?, u.z.Some?, Nibble(u.b.Some?, u.noLerp, u.frame.Some?, false, 0))
    ensures HighBits(u) == Nibble(u.a.Some?, u.c.Some?, u.model.Some?, u.color.Some?,
                                  Nibble(u.skin.Some?, u.effects.Some?, u.longEntity, u.spare, 0))
  {
  }

  lemma UpdateFlagsMean(u: WireUpdate)
    ensures PlaceFlags(MaskOf(u), u) && LooksFlags(MaskOf(u), u)
    ensures Has(MaskOf(u), U_LONGENTITY) == u.longEntity
  {
    UpdateNibbles(u);
    TwoBytes(MaskOf(u), LowBits(u), HighBits(u), u.moreBits, u.x.Some?, u.y.Some?, u.z.Some?, u.b.Some?, u.noLerp, u.frame.Some?, false,
              u.a.Some?, u.c.Some?, u.model.Some?, u.color.Some?, u.skin.Some?, u.effects.Some?, u.longEntity, u.spare);
    UpdateDigitsMean(MaskOf(u), u);
  }

  lemma PlaceEndRoundTrip(mask: nat, w: WireUpdate, u: Update, rest: seq<Byte>)
    requires WellFormedUpdate(w) && PlaceFlags(mask, w)
    ensures DecodePlaceEnd(mask, u, PutPlaceEnd(w, rest))
         == Got(Move(u.(b := MaybeDegrees(w.b), z := MaybeEighths(w.z), c := MaybeDegrees(w.c))), rest)
  {
    var c := PutOptAngle(w.c, rest);
    OptAngleRoundTrip(w.b, PutOptCoord(w.z, c));
    OptCoordRoundTrip(w.z, c);
    OptAngleRoundTrip(w.c, rest);
  }

  lemma PlaceRoundTrip(mask: nat, w: WireUpdate, u: Update, rest: seq<Byte>)
    requires WellFormedUpdate(w) && PlaceFlags(mask, w)
    ensures DecodePlace(mask, u, PutPlace(w, rest))
         == Got(Move(u.(x := MaybeEighths(w.x), a := MaybeDegrees(w.a), y := MaybeEighths(w.y),
                        b := MaybeDegrees(w.b), z := MaybeEighths(w.z), c := MaybeDegrees(w.c))), rest)
  {
    var end := PutPlaceEnd(w, rest);
    var y := PutOptCoord(w.y, end);
    OptCoordRoundTrip(w.x, PutOptAngle(w.a, y));
    OptAngleRoundTrip(w.a, y);
    OptCoordRoundTrip(w.y, end);
    PlaceEndRoundTrip(mask, w, u.(x := MaybeEighths(w.x), a := MaybeDegrees(w.a), y := MaybeEighths(w.y)), rest);
  }

  lemma LooksRoundTrip(mask: nat, w: WireUpdate, rest: seq<Byte>)
    requires WellFormedUpdate(w) && PlaceFlags(mask, w) && LooksFlags(mask, w)
    ensures DecodeLooks(mask, w.entity, PutLooks(w, PutPlace(w, rest))) == Got(Meaning(WUpdate(w)), rest)
  {
    var place := PutPlace(w, rest);
    var effects := PutOptUint8(w.effects, place);
    var skin := PutOptUint8(w.skin, effects);
    var color := PutOptUint8(w.color, skin);
    var frame := PutOptUint8(w.frame, color);
    OptUint8RoundTrip(w.model, frame);
    OptUint8RoundTrip(w.frame, color);
    OptUint8RoundTrip(w.color, skin);
    OptUint8RoundTrip(w.skin, effects);
    OptUint8RoundTrip(w.effects, place);
    PlaceRoundTrip(mask, w, Update(w.entity, w.model, w.frame, w.color, w.skin, w.effects, None, None, None, None, None, None), rest);
  }

  /** The first bit of the first byte says whether there is a second one. */
  lemma FirstBit(u: WireUpdate)
    ensures (0x80 + LowBits(u)) % 0x80 == LowBits(u)
    ensures Has(LowBits(u), 1) == u.moreBits
  {
  }

  lemma MaskRoundTrip(w: WireUpdate, rest: seq<Byte>)
    requires WellFormedUpdate(w)
    ensures
      var b := PutMask(w, rest);
      b != [] && b[0] >= 0x80 && TakeMask(b[0], b[1..]) == Read(MaskOf(w), true, rest)
  {
    var b := PutMask(w, rest);
    FirstBit(w);
    if w.moreBits {
      assert b[1..] == [HighBits(w)] + rest;
      OneByte(HighBits(w), rest);
    } else {
      assert b[1..] == rest;
    }
  }

  lemma EntityRoundTrip(mask: nat, w: WireUpdate, rest: seq<Byte>)
    requires WellFormedUpdate(w) && Has(mask, U_LONGENTITY) == w.longEntity
    ensures TakeEntity(mask, PutEntity(w, rest)) == Read(w.entity, true, rest)
  {
    if w.longEntity {
      ReadsUint16(w.entity, rest);
    } else {
      OneByte(w.entity, rest);
    }
  }

  /** Every choice of fields, with or without a second mask byte and a long entity number. */
  lemma UpdateRoundTrip(w: WireUpdate, rest: seq<Byte>)
    requires WellFormedUpdate(w)
    ensures
      var b := Encode(WUpdate(w), rest);
      b != [] && b[0] >= 0x80 && DecodeUpdate(b[0], b[1..]) == Got(Meaning(WUpdate(w)), rest)
  {
    var looks := PutLooks(w, PutPlace(w, rest));
    MaskRoundTrip(w, PutEntity(w, looks));
    UpdateFlagsMean(w);
    EntityRoundTrip(MaskOf(w), w, looks);
    LooksRoundTrip(MaskOf(w), w, rest);
  }

  // ----- Floats

  lemma {:induction false} SamePower(k: nat)
    ensures TwoTo(k) == Exp2(k)
  {
    if k > 0 {
      SamePower(k - 1);
    }
  }

  lemma HalfOfTwice(t: real, e: real)
    requires t * e == 1.0
    ensures (t / 2.0) * (2.0 * e) == 1.0
  {
  }

  lemma {:induction false} InversePower(k: nat)
    ensures TwoTo(0 - k) * Exp2(k) == 1.0
  {
    if k > 0 {
      InversePower(k - 1);
      assert 0 - k + 1 == 0 - (k - 1);
      HalfOfTwice(TwoTo(0 - (k - 1)), Exp2(k - 1));
    }
  }

  lemma ByInverse(p: real, e: real, t: real)
    requires e > 0.0 && t * e == 1.0
    ensures p / e == p * t
  {
    var q := p / e;
    assert q * e == p;
    assert p * t == (q * e) * t == q * (t * e);
  }

  lemma FloatParts(negative: bool, exponent: nat, fraction: nat)
    requires exponent < 0x100 && fraction < 0x80_0000
    ensures
      var bits := FloatBits(negative, exponent, fraction);
      bits / 0x8000_0000 == Bit(negative, 1) && bits / 0x80_0000 % 0x100 == exponent && bits % 0x80_0000 == fraction
  {
  }

  lemma Divided(p: real, k: nat)
    ensures p / Exp2(k) == p * TwoTo(0 - k)
  {
    InversePower(k);
    ByInverse(p, Exp2(k), TwoTo(0 - k));
  }

  lemma ScaledByPower(p: real, k: int)
    ensures Scaled(p, k) == p * TwoTo(k)
  {
    if k < 0 {
      Divided(p, 0 - k);
      assert 0 - (0 - k) == k;
    } else {
      SamePower(k);
    }
  }

  lemma SameFloat(negative: bool, exponent: nat, fraction: nat)
    ensures FloatOf(negative, exponent, fraction) == FloatValue(negative, exponent, fraction)
  {
    var f := fraction as real / 8388608.0;
    var size := if exponent == 0 then f else 1.0 + f;
    ScaledByPower(if negative then 0.0 - size else size, (if exponent == 0 then 1 else exponent) - 127);
  }

  /** The float that is decoded is the one that was meant. */
  lemma FloatIsValue(negative: bool, exponent: nat, fraction: nat)
    requires exponent < 0x100 && fraction < 0x80_0000
    ensures Float32(FloatBits(negative, exponent, fraction)) == FloatValue(negative, exponent, fraction)
  {
    FloatParts(negative, exponent, fraction);
    SameFloat(negative, exponent, fraction);
  }

  lemma PlainRoundTrip(w: WireMessage, rest: seq<Byte>)
    requires w.WNop? || w.WDisconnect? || w.WClientState? || w.WCameraPos?
    requires WellFormed(w)
    ensures Decode(Encode(w, rest)) == Got(Meaning(w), rest)
  {
    var b := Encode(w, rest);
    if w.WClientState? {
      assert b[1..] == [w.state] + rest;
      OneByte(w.state, rest);
    } else if w.WCameraPos? {
      assert b[1..] == PutUint16(w.entity, rest);
      ReadsUint16(w.entity, rest);
    } else {
      assert b[1..] == rest;
    }
  }

  lemma NumbersRoundTrip(w: WireMessage, rest: seq<Byte>)
    requires w.WPlayerState? || w.WTime? || w.WFrags?
    requires WellFormed(w)
    ensures Decode(Encode(w, rest)) == Got(Meaning(w), rest)
  {
    var b := Encode(w, rest);
    if w.WPlayerState? {
      assert b[1..] == [w.key] + PutUint32(w.value, rest);
      OneByte(w.key, PutUint32(w.value, rest));
      ReadsUint32(w.value, rest);
    } else if w.WTime? {
      var bits := FloatBits(w.negative, w.exponent, w.fraction);
      assert b[1..] == PutUint32(bits, rest);
      ReadsUint32(bits, rest);
      FloatIsValue(w.negative, w.exponent, w.fraction);
    } else {
      assert b[1..] == [w.player] + PutUint16(w.frags, rest);
      OneByte(w.player, PutUint16(w.frags, rest));
      ReadsUint16(w.frags, rest);
    }
  }

  lemma OrientationRoundTrip(w: WireMessage, rest: seq<Byte>)
    requires w.WOrientation? && WellFormed(w)
    ensures Decode(Encode(w, rest)) == Got(Meaning(w), rest)
  {
    assert Encode(w, rest)[1..] == PutInt8(w.x, PutInt8(w.y, PutInt8(w.z, rest)));
    ReadsInt8(w.x, PutInt8(w.y, PutInt8(w.z, rest)));
    ReadsInt8(w.y, PutInt8(w.z, rest));
    ReadsInt8(w.z, rest);
  }

  lemma TextRoundTrip(w: WireMessage, rest: seq<Byte>)
    requires w.WText? || w.WCenterPrint?
    requires WellFormed(w)
    ensures Decode(Encode(w, rest)) == Got(Meaning(w), rest)
  {
    assert Encode(w, rest)[1..] == PutString(w.text, rest);
    ReadsString(w.text, rest);
  }

  lemma IntermissionRoundTrip(w: WireMessage, rest: seq<Byte>)
    requires w.WIntermission? && WellFormed(w)
    ensures Decode(Encode(w, rest)) == Got(Meaning(w), rest)
  {
    assert Encode(w, rest)[1..] == PutString(w.text, rest);
    ReadsString(w.text, rest);
  }

  lemma FinaleRoundTrip(w: WireMessage, rest: seq<Byte>)
    requires w.WFinale? && WellFormed(w)
    ensures Decode(Encode(w, rest)) == Got(Meaning(w), rest)
  {
    assert Encode(w, rest)[1..] == PutString(w.text, rest);
    ReadsString(w.text, rest);
  }

  lemma NamedRoundTrip(w: WireMessage, rest: seq<Byte>)
    requires w.WNamed? && WellFormed(w)
    ensures Decode(Encode(w, rest)) == Got(Meaning(w), rest)
  {
    assert Encode(w, rest)[1..] == [w.index] + PutString(w.text, rest);
    OneByte(w.index, PutString(w.text, rest));
    ReadsString(w.text, rest);
    assert Decode(Encode(w, rest)) == DecodeNamed(Encode(w, rest)[1..], w.style);
  }

  lemma DecodesIgnored(b: seq<Byte>)
    requires b != [] && IgnoredSize(b[0]).Some?
    ensures Decode(b) == Got(Nop, Skip(IgnoredSize(b[0]).value, b[1..]))
  {
    assert b[0] in {0x10, 0x11, 0x12, 0x13, 0x14, 0x18, 0x1b, 0x1c, 0x1d, 0x20, 0x21};
  }

  lemma SizeOfIgnored(i: Ignored)
    requires WellFormedIgnored(i)
    ensures IgnoredSize(IgnoredType(i)) == Some(|IgnoredBody(i)|)
  {
  }

  lemma SizeOfTemp(t: TempEntity)
    requires WellFormedTemp(t)
    ensures TempEntitySize(TempKind(t)) == Some(|TempBody(t)|)
  {
  }

  lemma IgnoredRoundTrip(w: WireMessage, rest: seq<Byte>)
    requires w.WIgnored? && WellFormed(w)
    ensures Decode(Encode(w, rest)) == Got(Meaning(w), rest)
  {
    var b := Encode(w, rest);
    var body := IgnoredBody(w.ignored);
    assert b[0] == IgnoredType(w.ignored) && b[1..] == body + rest;
    SizeOfIgnored(w.ignored);
    DecodesIgnored(b);
    SkipsBody(body, rest);
  }

  lemma TempEntityRoundTrip(w: WireMessage, rest: seq<Byte>)
    requires w.WTempEntity? && WellFormed(w)
    ensures Decode(Encode(w, rest)) == Got(Meaning(w), rest)
  {
    var b := Encode(w, rest);
    var kind, body := TempKind(w.temp), TempBody(w.temp);
    assert b[1..] == [kind] + (body + rest);
    SizeOfTemp(w.temp);
    OneByte(kind, body + rest);
    SkipsBody(body, rest);
    assert DecodeTempEntity(b[1..]) == Got(Nop, rest);
  }

  lemma MoveRoundTrip(w: WireMessage, rest: seq<Byte>)
    requires w.WUpdate? && WellFormed(w)
    ensures Decode(Encode(w, rest)) == Got(Meaning(w), rest)
  {
    UpdateRoundTrip(w.update, rest);
    DecodesUpdate(Encode(w, rest));
  }

  /** Decoding inverts encoding, for every well-formed message, and leaves exactly what follows it. */
  lemma RoundTrip(w: WireMessage, rest: seq<Byte>)
    requires WellFormed(w)
    ensures Decode(Encode(w, rest)) == Got(Meaning(w), rest)
  {
    if w.WUpdate? {
      MoveRoundTrip(w, rest);
    } else if w.WSound? {
      SoundRoundTrip(w, rest);
    } else if w.WServerInfo? {
      ServerInfoRoundTrip(w, rest);
    } else if w.WClientData? {
      ClientDataRoundTrip(w, rest);
    } else if w.WBaseline? {
      BaselineRoundTrip(w, rest);
    } else if w.WNamed? {
      NamedRoundTrip(w, rest);
    } else if w.WIgnored? {
      IgnoredRoundTrip(w, rest);
    } else if w.WTempEntity? {
      TempEntityRoundTrip(w, rest);
    } else if w.WText? || w.WCenterPrint? {
      TextRoundTrip(w, rest);
    } else if w.WIntermission? {
      IntermissionRoundTrip(w, rest);
    } else if w.WFinale? {
      FinaleRoundTrip(w, rest);
    } else if w.WOrientation? {
      OrientationRoundTrip(w, rest);
    } else if w.WPlayerState? || w.WTime? || w.WFrags? {
      NumbersRoundTrip(w, rest);
    } else {
      PlainRoundTrip(w, rest);
    }
  }

  // ----- Whole blocks

  predicate AllWellFormed(ws: seq<WireMessage>) {
    forall i :: 0 <= i < |ws| ==> WellFormed(ws[i])
  }

  /** The encodings of the messages, one after the other. */
  function EncodeAll(ws: seq<WireMessage>): seq<Byte>
    requires AllWellFormed(ws)
  {
    if ws == [] then [] else Encode(ws[0], []) + EncodeAll(ws[1..])
  }

  function Meanings(ws: seq<WireMessage>): seq<Message>
    requires AllWellFormed(ws)
  {
    seq(|ws|, i requires 0 <= i < |ws| => Meaning(ws[i]))
  }

  lemma DecodesFirst(b: seq<Byte>, m: Message, rest: seq<Byte>, ms: seq<Message>)
    requires Decode(b) == Got(m, rest) && DecodeAll(rest) == AllGot(ms)
    ensures DecodeAll(b) == AllGot([m] + ms)
  {
  }

  lemma FirstOfBlock(w: WireMessage, rest: seq<Byte>)
    requires WellFormed(w)
    ensures Decode(Encode(w, []) + rest) == Got(Meaning(w), rest)
  {
    EncodeAppends(w, [], rest);
    assert [] + rest == rest;
    RoundTrip(w, rest);
  }

  lemma DecodesBlock(ws: seq<WireMessage>, ms: seq<Message>)
    requires AllWellFormed(ws) && ws != []
    requires DecodeAll(EncodeAll(ws[1..])) == AllGot(ms)
    ensures DecodeAll(EncodeAll(ws)) == AllGot([Meaning(ws[0])] + ms)
  {
    var rest := EncodeAll(ws[1..]);
    FirstOfBlock(ws[0], rest);
    DecodesFirst(EncodeAll(ws), Meaning(ws[0]), rest, ms);
  }

  lemma MoreMeanings(ws: seq<WireMessage>)
    requires AllWellFormed(ws) && ws != []
    ensures Meanings(ws) == [Meaning(ws[0])] + Meanings(ws[1..])
  {
  }

  /** A block made of well-formed encodings yields just those messages, in order. */
  lemma {:induction false} BlockRoundTrip(ws: seq<WireMessage>)
    requires AllWellFormed(ws)
    ensures DecodeAll(EncodeAll(ws)) == AllGot(Meanings(ws))
  {
    if ws == [] {
      assert Meanings(ws) == [];
    } else {
      BlockRoundTrip(ws[1..]);
      DecodesBlock(ws, Meanings(ws[1..]));
      MoreMeanings(ws);
    }
  }

  // ----- What follows a message does not change its bytes

  lemma {:induction false} StringsAppend(names: seq<Text>, r: seq<Byte>, t: seq<Byte>)
    ensures PutStrings(names, r + t) == PutStrings(names, r) + t
  {
    if names != [] {
      StringsAppend(names[1..], r, t);
    }
  }

  lemma CoordAppends(v: Option<int>, r: seq<Byte>, t: seq<Byte>)
    requires v.Some? ==> IsInt16(v.value)
    ensures PutOptCoord(v, r + t) == PutOptCoord(v, r) + t
  {
    if v.Some? {
      assert PutInt16(v.value, r + t) == PutInt16(v.value, r) + t;
    }
  }

  lemma AngleAppends(v: Option<int>, r: seq<Byte>, t: seq<Byte>)
    requires v.Some? ==> IsInt8(v.value)
    ensures PutOptAngle(v, r + t) == PutOptAngle(v, r) + t
  {
    if v.Some? {
      assert PutInt8(v.value, r + t) == PutInt8(v.value, r) + t;
    }
  }

  lemma PlaceAppends(u: WireUpdate, r: seq<Byte>, t: seq<Byte>)
    requires WellFormedUpdate(u)
    ensures PutPlace(u, r + t) == PutPlace(u, r) + t
  {
    var c := PutOptAngle(u.c, r);
    var z := PutOptCoord(u.z, c);
    var b := PutOptAngle(u.b, z);
    var y := PutOptCoord(u.y, b);
    AngleAppends(u.c, r, t);
    CoordAppends(u.z, c, t);
    AngleAppends(u.b, z, t);
    CoordAppends(u.y, b, t);
    AngleAppends(u.a, y, t);
    CoordAppends(u.x, PutOptAngle(u.a, y), t);
  }

  lemma LooksAppend(u: WireUpdate, r: seq<Byte>, t: seq<Byte>)
    requires WellFormedUpdate(u)
    ensures PutLooks(u, r + t) == PutLooks(u, r) + t
  {
    var effects, effects' := PutOptUint8(u.effects, r), PutOptUint8(u.effects, r + t);
    var skin, skin' := PutOptUint8(u.skin, effects), PutOptUint8(u.skin, effects');
    var color, color' := PutOptUint8(u.color, skin), PutOptUint8(u.color, skin');
    var frame, frame' := PutOptUint8(u.frame, color), PutOptUint8(u.frame, color');
    assert effects' == effects + t;
    assert skin' == skin + t;
    assert color' == color + t;
    assert frame' == frame + t;
  }

  lemma UpdateAppends(u: WireUpdate, r: seq<Byte>, t: seq<Byte>)
    requires WellFormedUpdate(u)
    ensures Encode(WUpdate(u), r + t) == Encode(WUpdate(u), r) + t
  {
    var place := PutPlace(u, r);
    var looks := PutLooks(u, place);
    var entity := PutEntity(u, looks);
    PlaceAppends(u, r, t);
    LooksAppend(u, place, t);
    EntityAppends(u, looks, t);
    MaskAppends(u, entity, t);
  }

  lemma EntityAppends(u: WireUpdate, r: seq<Byte>, t: seq<Byte>)
    requires WellFormedUpdate(u)
    ensures PutEntity(u, r + t) == PutEntity(u, r) + t
  {
  }

  lemma MaskAppends(u: WireUpdate, r: seq<Byte>, t: seq<Byte>)
    requires WellFormedUpdate(u)
    ensures PutMask(u, r + t) == PutMask(u, r) + t
  {
    var head: seq<Byte> := [0x80 + LowBits(u)];
    if u.moreBits {
      Concat([HighBits(u)], r, t);
      Concat(head, [HighBits(u)] + r, t);
    } else {
      Concat(head, r, t);
    }
  }

  lemma VerticesAppend(x: int, a: int, y: int, b: int, z: int, c: int, r: seq<Byte>, t: seq<Byte>)
    requires IsInt16(x) && IsInt8(a) && IsInt16(y) && IsInt8(b) && IsInt16(z) && IsInt8(c)
    ensures PutVertices(x, a, y, b, z, c, r + t) == PutVertices(x, a, y, b, z, c, r) + t
  {
    var fromC := PutInt8(c, r);
    var fromZ := PutInt16(z, fromC);
    var fromB := PutInt8(b, fromZ);
    var fromY := PutInt16(y, fromB);
    AngleAppends(Some(c), r, t);
    CoordAppends(Some(z), fromC, t);
    AngleAppends(Some(b), fromZ, t);
    CoordAppends(Some(y), fromB, t);
    AngleAppends(Some(a), fromY, t);
    CoordAppends(Some(x), PutInt8(a, fromY), t);
  }

  lemma BaselineAppends(w: WireMessage, r: seq<Byte>, t: seq<Byte>)
    requires w.WBaseline? && WellFormed(w)
    ensures Encode(w, r + t) == Encode(w, r) + t
  {
    var place := PutVertices(w.x, w.a, w.y, w.b, w.z, w.c, r);
    VerticesAppend(w.x, w.a, w.y, w.b, w.z, w.c, r, t);
    assert PutBytes(w.model, w.frame, w.color, w.skin, place + t) == PutBytes(w.model, w.frame, w.color, w.skin, place) + t;
  }

  lemma OptUint8Appends(v: Option<Byte>, r: seq<Byte>, t: seq<Byte>)
    ensures PutOptUint8(v, r + t) == PutOptUint8(v, r) + t
  {
    if v.Some? {
      Concat([v.value], r, t);
    }
  }

  lemma SoundAppends(w: WireMessage, r: seq<Byte>, t: seq<Byte>)
    requires w.WSound? && WellFormed(w)
    ensures Encode(w, r + t) == Encode(w, r) + t
  {
    var fromZ := PutInt16(w.z, r);
    CoordAppends(Some(w.z), r, t);
    CoordAppends(Some(w.y), fromZ, t);
    CoordAppends(Some(w.x), PutInt16(w.y, fromZ), t);
    var source := PutSoundSource(w.entity, w.channel, w.sound, w.x, w.y, w.z, r);
    assert PutSoundSource(w.entity, w.channel, w.sound, w.x, w.y, w.z, r + t) == source + t;
    var att := PutOptUint8(w.attenuation, source);
    OptUint8Appends(w.attenuation, source, t);
    OptUint8Appends(w.volume, att, t);
    Concat([0x06, SoundMask(w.volume, w.attenuation, w.spare)], PutOptUint8(w.volume, att), t);
  }

  lemma ServerInfoAppends(w: WireMessage, r: seq<Byte>, t: seq<Byte>)
    requires w.WServerInfo? && WellFormed(w)
    ensures Encode(w, r + t) == Encode(w, r) + t
  {
    var sounds := PutStrings(w.sounds, r);
    var models := PutStrings(w.models, sounds);
    StringsAppend(w.sounds, r, t);
    StringsAppend(w.models, sounds, t);
    assert PutString(w.level, models + t) == PutString(w.level, models) + t;
  }

  lemma EncodeAppends(w: WireMessage, r: seq<Byte>, t: seq<Byte>)
    requires WellFormed(w)
    ensures Encode(w, r + t) == Encode(w, r) + t
  {
    if w.WUpdate? {
      UpdateAppends(w.update, r, t);
    } else if w.WSound? {
      SoundAppends(w, r, t);
    } else if w.WServerInfo? {
      ServerInfoAppends(w, r, t);
    } else if w.WBaseline? {
      BaselineAppends(w, r, t);
    } else if w.WOrientation? {
      OrientationAppends(w, r, t);
    } else if w.WClientData? {
      ClientDataAppends(w, r, t);
    } else if w.WPlayerState? || w.WTime? || w.WFrags? || w.WCameraPos? {
      NumbersAppend(w, r, t);
    } else if w.WIgnored? || w.WTempEntity? {
      BodyAppends(w, r, t);
    } else if w.WNop? || w.WDisconnect? || w.WClientState? {
      PlainAppends(w, r, t);
    } else {
      TextAppends(w, r, t);
    }
  }

  lemma PlainAppends(w: WireMessage, r: seq<Byte>, t: seq<Byte>)
    requires WellFormed(w)
    requires w.WNop? || w.WDisconnect? || w.WClientState?
    ensures Encode(w, r + t) == Encode(w, r) + t
  {
    Concat(if w.WNop? then [0x01] else if w.WDisconnect? then [0x02] else [0x19, w.state], r, t);
  }

  lemma TextAppends(w: WireMessage, r: seq<Byte>, t: seq<Byte>)
    requires WellFormed(w)
    requires w.WText? || w.WNamed? || w.WCenterPrint? || w.WIntermission? || w.WFinale?
    ensures Encode(w, r + t) == Encode(w, r) + t
  {
    var head: seq<Byte> :=
      if w.WNamed? then [if w.style then 0x0C else 0x0D, w.index]
      else [if w.WText? then (if w.stuff then 0x09 else 0x08) else if w.WCenterPrint? then 0x1A else if w.WIntermission? then 0x1E else 0x1F];
    Concat(w.text + [0], r, t);
    assert Encode(w, r) == head + PutString(w.text, r);
    Concat(head, PutString(w.text, r), t);
  }

  lemma BodyAppends(w: WireMessage, r: seq<Byte>, t: seq<Byte>)
    requires WellFormed(w)
    requires w.WIgnored? || w.WTempEntity?
    ensures Encode(w, r + t) == Encode(w, r) + t
  {
    var body := if w.WIgnored? then IgnoredBody(w.ignored) else TempBody(w.temp);
    Concat(body, r, t);
    Concat(if w.WIgnored? then [IgnoredType(w.ignored)] else [0x17, TempKind(w.temp)], body + r, t);
  }

  lemma Concat(a: seq<Byte>, b: seq<Byte>, c: seq<Byte>)
    ensures a + (b + c) == a + b + c
  {
  }

  lemma OrientationAppends(w: WireMessage, r: seq<Byte>, t: seq<Byte>)
    requires w.WOrientation? && WellFormed(w)
    ensures Encode(w, r + t) == Encode(w, r) + t
  {
    AngleAppends(Some(w.z), r, t);
    AngleAppends(Some(w.y), PutInt8(w.z, r), t);
  }

  lemma ClientDataAppends(w: WireMessage, r: seq<Byte>, t: seq<Byte>)
    requires w.WClientData? && WellFormed(w)
    ensures Encode(w, r + t) == Encode(w, r) + t
  {
    var d := w.data;
    Concat(Always(d), r, t);
    Concat(Optional(d), Always(d) + r, t);
    Concat([0x0F, LowFlags(d), HighFlags(d)], Optional(d) + (Always(d) + r), t);
  }

  lemma NumbersAppend(w: WireMessage, r: seq<Byte>, t: seq<Byte>)
    requires w.WPlayerState? || w.WTime? || w.WFrags? || w.WCameraPos?
    requires WellFormed(w)
    ensures Encode(w, r + t) == Encode(w, r) + t
  {
    if w.WPlayerState? {
      Uint32Appends(w.value, r, t);
      Concat([0x03, w.key], PutUint32(w.value, r), t);
    } else if w.WTime? {
      var bits := FloatBits(w.negative, w.exponent, w.fraction);
      Uint32Appends(bits, r, t);
      Concat([0x07], PutUint32(bits, r), t);
    } else if w.WFrags? {
      Uint16Appends(w.frags, r, t);
      Concat([0x0E, w.player], PutUint16(w.frags, r), t);
    } else {
      Uint16Appends(w.entity, r, t);
      Concat([0x05], PutUint16(w.entity, r), t);
    }
  }

  lemma Uint16Appends(v: nat, r: seq<Byte>, t: seq<Byte>)
    requires v < 0x1_0000
    ensures PutUint16(v, r + t) == PutUint16(v, r) + t
  {
  }

  lemma Uint32Appends(v: nat, r: seq<Byte>, t: seq<Byte>)
    requires v < 0x1_0000_0000
    ensures PutUint32(v, r + t) == PutUint32(v, r) + t
  {
  }
}
