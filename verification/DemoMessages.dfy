/** What the blocks of a Quake demo say, once decoded. */
module DemoMessages {
  import opened Options
  import opened Bytes

  type Text = seq<Byte>

  datatype Vertex = Vertex(x: real, y: real, z: real)

  const ORIGIN := Vertex(0.0, 0.0, 0.0)

  datatype ServerInfo = ServerInfo(version: nat, maxClients: Byte, gameType: Byte, level: Text, models: seq<Text>, sounds: seq<Text>)

  const NO_SERVER := ServerInfo(0, 0, 0, [], [], [])

  /** The fields of an update that are present. */
  datatype Update = Update(
    entity: nat,
    model: Option<Byte>, frame: Option<Byte>, color: Option<Byte>, skin: Option<Byte>, effects: Option<Byte>,
    x: Option<real>, a: Option<real>, y: Option<real>, b: Option<real>, z: Option<real>, c: Option<real>)

  datatype Sound = Sound(sound: Byte, pos: Vertex, channel: nat, entity: nat, volume: Byte, attenuation: Byte)

  datatype Message =
    | Nop
    | Disconnect
    | PlayerState(key: Byte, value: nat)
    | CameraPos(entity: nat)
    | PlaySound(sound: Sound)
    | Time(time: real)
    | CameraOrientation(angle: Vertex)
    | Server(info: ServerInfo)
    | LightStyle(index: Byte, style: Text)
    | PlayerName(index: Byte, name: Text)
    | Frags(player: Byte, frags: nat)
    | SpawnBaseline(entity: nat, model: Byte, frame: Byte, color: Byte, skin: Byte, pos: Vertex, angle: Vertex)
    | ClientState(state: Byte)
    | Intermission(text: Text)
    | Finale(text: Text)
    | Move(update: Update)

  /** A coordinate counts eighths. */
  function Coord(raw: int): real {
    raw as real * 0.125
  }

  /** An angle counts 256ths of a full turn. */
  function Angle(raw: int): real {
    raw as real / 256.0 * 360.0
  }

  function Exp2(k: nat): (r: real)
    ensures r >= 1.0
  {
    if k == 0 then 1.0 else 2.0 * Exp2(k - 1)
  }

  /** The number that 32 bits of IEEE 754 stand for; the infinities and NaNs are not part of this model. */
  function Float32(bits: nat): real
    requires bits < 0x1_0000_0000
  {
    FloatOf(bits / 0x8000_0000 == 1, bits / 0x80_0000 % 0x100, bits % 0x80_0000)
  }

  function FloatOf(negative: bool, exponent: nat, fraction: nat): real {
    var m := (if exponent == 0 then 0.0 else 1.0) + fraction as real / 8388608.0;
    var e := if exponent == 0 then 1 else exponent;
    Scaled(if negative then -m else m, e - 127)
  }

  /** `p` times two to the power of `k`. */
  function Scaled(p: real, k: int): real {
    if k < 0 then p / Exp2(-k) else p * Exp2(k)
  }
}
