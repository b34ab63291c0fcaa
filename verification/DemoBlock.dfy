/**
 A block of a demo file, consumed in place: every read takes its bytes off the
 front of the buffer. The decoder here is proved to do what DemoCodec says.
 */
module DemoBlock {
  import opened Options
  import opened Bytes
  import opened DemoMessages
  import opened DemoCodec

  /** `Fail` is an error returned to the caller, `Exit` the end of the program. */
  datatype Decoded = Decoded(message: Message) | Fail | Exit

  datatype DecodedAll = DecodedAll(messages: seq<Message>) | FailAll | ExitAll

  predicate Agrees(d: Decoded, left: seq<Byte>, o: Outcome) {
    match o
    case Got(m, rest) => d == Decoded(m) && left == rest
    case Error => d == Fail
    case Fatal => d == Exit
  }

  lemma SkipTwice(a: nat, b: nat, all: seq<Byte>)
    ensures Skip(b, Skip(a, all)) == Skip(a + b, all)
  {
    if |all| >= a + b {
      assert all[a..][b..] == all[a + b..];
    }
  }

  lemma SkipThrice(a: nat, b: nat, c: nat, all: seq<Byte>)
    ensures Skip(c, Skip(b, Skip(a, all))) == Skip(a + b + c, all)
  {
    SkipTwice(a, b, all);
    SkipTwice(a + b, c, all);
  }

  class Block {
    var buf: seq<Byte>

    constructor (data: seq<Byte>)
      ensures buf == data
    {
      buf := data;
    }

    method ReadUint8() returns (v: Byte, ok: bool)
      modifies this
      ensures Read(v, ok, buf) == TakeUint8(old(buf))
    {
      if |buf| == 0 {
        return 0, false;
      }
      v, ok := buf[0], true;
      buf := buf[1..];
    }

    /** binary.Read of a little-endian number of `n` bytes. */
    method ReadUint(n: nat) returns (v: nat, ok: bool)
      modifies this
      ensures Read(v, ok, buf) == TakeUint(n, old(buf))
    {
      if |buf| < n {
        buf := [];
        return 0, false;
      }
      v, ok := Little(buf[..n]), true;
      buf := buf[n..];
    }

    method ReadInt16() returns (v: int, ok: bool)
      modifies this
      ensures Read(v, ok, buf) == TakeInt16(old(buf))
    {
      var raw;
      raw, ok := ReadUint(2);
      v := Signed(0x8000, raw);
    }

    method ReadInt8() returns (v: int, ok: bool)
      modifies this
      ensures Read(v, ok, buf) == TakeInt8(old(buf))
    {
      var raw;
      raw, ok := ReadUint(1);
      v := Signed(0x80, raw);
    }

    method ReadString() returns (s: Text, ok: bool)
      modifies this
      ensures Read(s, ok, buf) == TakeString(old(buf))
    {
      s := [];
      assert forall v: Text :: [] + v == v;
      while true
        invariant
          var r, now := TakeString(old(buf)), TakeString(buf);
          r == if now.ok then Read(s + now.value, true, now.rest) else now
        decreases |buf|
      {
        var b, got := ReadUint8();
        if !got {
          return [], false;
        }
        if b == 0 {
          assert s + [] == s;
          return s, true;
        }
        assert forall v: Text :: s + ([b] + v) == s + [b] + v;
        s := s + [b];
      }
    }

    method ReadStrings() returns (names: seq<Text>, ok: bool)
      modifies this
      ensures TakeStrings(old(buf)).ok == ok
      ensures ok ==> Read(names, ok, buf) == TakeStrings(old(buf))
    {
      names := [];
      assert forall v: seq<Text> :: [] + v == v;
      while true
        invariant
          var r, now := TakeStrings(old(buf)), TakeStrings(buf);
          r.ok == now.ok && r.rest == now.rest && r.value == names + now.value
        decreases |buf|
      {
        var s, got := ReadString();
        if !got {
          return [], false;
        }
        if s == [] {
          assert names + [] == names;
          return names, true;
        }
        assert forall v: seq<Text> :: names + ([s] + v) == names + [s] + v;
        names := names + [s];
      }
    }

    method SkipBytes(n: nat)
      modifies this
      ensures buf == Skip(n, old(buf))
    {
      if |buf| < n {
        buf := [];
      } else {
        buf := buf[n..];
      }
    }

    method DecodeSoundMessage() returns (d: Decoded)
      modifies this
      ensures Agrees(d, buf, DecodeSound(old(buf)))
    {
      var mask, ok := ReadUint8();
      if !ok { return Fail; }
      var volume: Byte, attenuation: Byte := 0, 0;
      if Has(mask, 1) {
        volume, ok := ReadUint8();
        if !ok { return Fail; }
      }
      if Has(mask, 2) {
        attenuation, ok := ReadUint8();
        if !ok { return Fail; }
      }
      d := DecodeSoundRest(volume, attenuation);
    }

    method DecodeSoundRest(volume: Byte, attenuation: Byte) returns (d: Decoded)
      modifies this
      ensures Agrees(d, buf, DecodeSoundSource(volume, attenuation, old(buf)))
    {
      var packed, ok := ReadUint(2);
      if !ok { return Fail; }
      var sound;
      sound, ok := ReadUint8();
      if !ok { return Fail; }
      var x, y, z;
      x, ok := ReadInt16();
      if !ok { return Fail; }
      y, ok := ReadInt16();
      if !ok { return Fail; }
      z, ok := ReadInt16();
      if !ok { return Fail; }
      return Decoded(PlaySound(Sound(sound, Vertex(Coord(x), Coord(y), Coord(z)),
                                     packed % 8, packed / 8 % 0x2000, volume, attenuation)));
    }

    method DecodeServerMessage() returns (d: Decoded)
      modifies this
      ensures Agrees(d, buf, DecodeServerInfo(old(buf)))
    {
      var version, ok := ReadUint(4);
      if !ok || (version != VERSION_15 && version != VERSION_QUAKE_SPASM) { return Exit; }
      var maxClients, gameType;
      maxClients, ok := ReadUint8();
      if !ok { return Exit; }
      gameType, ok := ReadUint8();
      if !ok { return Exit; }
      var level;
      level, ok := ReadString();
      if !ok { return Exit; }
      var models, sounds;
      models, ok := ReadStrings();
      if !ok { return Exit; }
      sounds, ok := ReadStrings();
      if !ok { return Exit; }
      return Decoded(Server(ServerInfo(version, maxClients, gameType, level, ModelList(models), [[]] + sounds)));
    }

    method DecodeOrientationMessage() returns (d: Decoded)
      modifies this
      ensures Agrees(d, buf, DecodeOrientation(old(buf)))
    {
      var x, ok := ReadInt8();
      if !ok { return Fail; }
      var y, z;
      y, ok := ReadInt8();
      if !ok { return Fail; }
      z, ok := ReadInt8();
      if !ok { return Fail; }
      return Decoded(CameraOrientation(Vertex(Angle(x), Angle(y), Angle(z))));
    }

    method DecodeNamedMessage(style: bool) returns (d: Decoded)
      modifies this
      ensures Agrees(d, buf, DecodeNamed(old(buf), style))
    {
      var index, ok := ReadUint8();
      if !ok { return Fail; }
      var s;
      s, ok := ReadString();
      if !ok { return Fail; }
      return Decoded(if style then LightStyle(index, s) else PlayerName(index, s));
    }

    method DecodeFragsMessage() returns (d: Decoded)
      modifies this
      ensures Agrees(d, buf, DecodeFrags(old(buf)))
    {
      var player, ok := ReadUint8();
      if !ok { return Fail; }
      var frags;
      frags, ok := ReadUint(2);
      if !ok { return Fail; }
      return Decoded(Frags(player, frags));
    }

    /** Skips four fields, each if it is present. */
    method SkipFour(first: nat, a: bool, b: bool, c: bool, d: bool)
      modifies this
      ensures buf == Skip(FourSize(first, a, b, c, d), old(buf))
    {
      if a { SkipBytes(first); }
      if b { SkipBytes(1); }
      if c { SkipBytes(1); }
      if d { SkipBytes(1); }
    }

    method SkipView(mask: nat)
      modifies this
      ensures buf == Skip(ViewSize(mask), old(buf))
    {
      SkipFour(1, Has(mask, SU_VIEWHEIGHT), Has(mask, SU_IDEALPITCH), Has(mask, SU_PUNCH1), Has(mask, SU_VELOCITY1));
    }

    method SkipMotion(mask: nat)
      modifies this
      ensures buf == Skip(MotionSize(mask), old(buf))
    {
      SkipFour(1, Has(mask, SU_PUNCH2), Has(mask, SU_VELOCITY2), Has(mask, SU_PUNCH3), Has(mask, SU_VELOCITY3));
    }

    method SkipItems(mask: nat)
      modifies this
      ensures buf == Skip(ItemsSize(mask), old(buf))
    {
      SkipFour(4, Has(mask, SU_ITEMS), Has(mask, SU_WEAPONFRAME), Has(mask, SU_ARMOR), Has(mask, SU_WEAPON));
    }

    method DecodeClientDataMessage() returns (d: Decoded)
      modifies this
      ensures Agrees(d, buf, DecodeClientData(old(buf)))
    {
      var mask, ok := ReadUint(2);
      if !ok { return Fail; }
      ghost var all := buf;
      SkipView(mask);
      SkipMotion(mask);
      SkipItems(mask);
      SkipThrice(ViewSize(mask), MotionSize(mask), ItemsSize(mask), all);
      if |buf| < CLIENT_DATA_TAIL { return Fail; }
      SkipBytes(CLIENT_DATA_TAIL);
      return Decoded(Nop);
    }

    method DecodeBaselineMessage() returns (d: Decoded)
      modifies this
      ensures Agrees(d, buf, DecodeBaseline(old(buf)))
    {
      var entity, _ := ReadUint(2);
      var model, _ := ReadUint8();
      var frame, _ := ReadUint8();
      var color, _ := ReadUint8();
      var skin, _ := ReadUint8();
      var pos, angle := ReadPlace();
      return Decoded(SpawnBaseline(entity, model, frame, color, skin, pos, angle));
    }

    method ReadPlace() returns (pos: Vertex, angle: Vertex)
      modifies this
      ensures Read((pos, angle), true, buf) == TakePlace(old(buf))
    {
      var x, _ := ReadInt16();
      var a, _ := ReadInt8();
      var y, _ := ReadInt16();
      var b, _ := ReadInt8();
      var z, _ := ReadInt16();
      var c, _ := ReadInt8();
      return Vertex(Coord(x), Coord(y), Coord(z)), Vertex(Angle(a), Angle(b), Angle(c));
    }

    method DecodeTempEntityMessage() returns (d: Decoded)
      modifies this
      ensures Agrees(d, buf, DecodeTempEntity(old(buf)))
    {
      var kind, _ := ReadUint8();
      if TempEntitySize(kind).None? { return Fail; }
      SkipBytes(TempEntitySize(kind).value);
      return Decoded(Nop);
    }

    method ReadOptUint8(present: bool) returns (v: Option<Byte>, ok: bool)
      modifies this
      ensures Read(v, ok, buf) == TakeOptUint8(present, old(buf))
    {
      if !present { return None, true; }
      var raw;
      raw, ok := ReadUint8();
      v := Some(raw);
    }

    method ReadOptCoord(present: bool) returns (v: Option<real>, ok: bool)
      modifies this
      ensures Read(v, ok, buf) == TakeOptCoord(present, old(buf))
    {
      if !present { return None, true; }
      var raw;
      raw, ok := ReadInt16();
      v := Some(Coord(raw));
    }

    method ReadOptAngle(present: bool) returns (v: Option<real>, ok: bool)
      modifies this
      ensures Read(v, ok, buf) == TakeOptAngle(present, old(buf))
    {
      if !present { return None, true; }
      var raw;
      raw, ok := ReadInt8();
      v := Some(Angle(raw));
    }

    method DecodeUpdateMessage(typ: Byte) returns (d: Decoded)
      modifies this
      ensures Agrees(d, buf, DecodeUpdate(typ, old(buf)))
    {
      var mask: nat := typ % 0x80;
      if Has(mask, U_MOREBITS) {
        var high, _ := ReadUint8();
        mask := mask + 0x100 * high as int;
      }
      var entity: nat;
      if Has(mask, U_LONGENTITY) {
        var e, _ := ReadUint(2);
        entity := e;
      } else {
        var e, _ := ReadUint8();
        entity := e;
      }
      d := DecodeUpdateLooks(mask, entity);
    }

    method DecodeUpdateLooks(mask: nat, entity: nat) returns (d: Decoded)
      modifies this
      ensures Agrees(d, buf, DecodeLooks(mask, entity, old(buf)))
    {
      var u := Update(entity, None, None, None, None, None, None, None, None, None, None, None);
      var v, ok := ReadOptUint8(Has(mask, U_MODEL));
      if !ok { return Exit; }
      u := u.(model := v);
      v, ok := ReadOptUint8(Has(mask, U_FRAME));
      if !ok { return Exit; }
      u := u.(frame := v);
      v, ok := ReadOptUint8(Has(mask, U_COLORMAP));
      u := u.(color := v);
      v, ok := ReadOptUint8(Has(mask, U_SKIN));
      u := u.(skin := v);
      v, ok := ReadOptUint8(Has(mask, U_EFFECTS));
      u := u.(effects := v);
      d := DecodeUpdatePlace(mask, u);
    }

    method DecodeUpdatePlace(mask: nat, update: Update) returns (d: Decoded)
      modifies this
      ensures Agrees(d, buf, DecodePlace(mask, update, old(buf)))
    {
      var u := update;
      var v, ok := ReadOptCoord(Has(mask, U_ORIGIN1));
      if !ok { return Exit; }
      u := u.(x := v);
      v, ok := ReadOptAngle(Has(mask, U_ANGLE1));
      u := u.(a := v);
      v, ok := ReadOptCoord(Has(mask, U_ORIGIN2));
      u := u.(y := v);
      v, ok := ReadOptAngle(Has(mask, U_ANGLE2));
      u := u.(b := v);
      v, ok := ReadOptCoord(Has(mask, U_ORIGIN3));
      u := u.(z := v);
      v, ok := ReadOptAngle(Has(mask, U_ANGLE3));
      u := u.(c := v);
      return Decoded(Move(u));
    }

    /** The messages that carry nothing but text. */
    method DecodeTextMessage(typ: Byte) returns (d: Decoded)
      requires typ in {0x08, 0x09, 0x1A, 0x1E, 0x1F}
      modifies this
      ensures Agrees(d, buf, Decode([typ] + old(buf)))
    {
      assert ([typ] + buf)[1..] == buf;
      var s, ok := ReadString();
      if !ok && (typ == 0x08 || typ == 0x09) { return Fail; }
      return Decoded(if typ == 0x1E then Intermission(s) else if typ == 0x1F then Finale(s) else Nop);
    }

    method DecodeMessage() returns (d: Decoded)
      modifies this
      ensures Agrees(d, buf, Decode(old(buf)))
    {
      if |buf| == 0 { return Exit; }
      var typ, _ := ReadUint8();
      assert old(buf) == [typ] + buf;
      if typ >= 0x80 {
        d := DecodeUpdateMessage(typ);
      } else {
        d := DecodeBodyMessage(typ);
      }
    }

    method DecodeBodyMessage(typ: Byte) returns (d: Decoded)
      modifies this
      ensures Agrees(d, buf, DecodeBody(typ, old(buf)))
    {
      match typ {
        case 0x01 => d := Decoded(Nop);
        case 0x02 => d := Decoded(Disconnect);
        case 0x03 =>
          var key, _ := ReadUint8();
          var value, _ := ReadUint(4);
          d := Decoded(PlayerState(key, value));
        case 0x05 =>
          var entity, _ := ReadUint(2);
          d := Decoded(CameraPos(entity));
        case 0x06 => d := DecodeSoundMessage();
        case 0x07 =>
          var bits, ok := ReadUint(4);
          d := if ok then Decoded(Time(Float32(bits))) else Fail;
        case 0x08 => d := DecodeTextMessage(typ);
        case 0x09 => d := DecodeTextMessage(typ);
        case 0x0A => d := DecodeOrientationMessage();
        case 0x0B => d := DecodeServerMessage();
        case 0x0C => d := DecodeNamedMessage(true);
        case 0x0D => d := DecodeNamedMessage(false);
        case 0x0E => d := DecodeFragsMessage();
        case 0x0F => d := DecodeClientDataMessage();
        case 0x16 => d := DecodeBaselineMessage();
        case 0x17 => d := DecodeTempEntityMessage();
        case 0x19 =>
          var state, _ := ReadUint8();
          d := Decoded(ClientState(state));
        case 0x1A => d := DecodeTextMessage(typ);
        case 0x1E => d := DecodeTextMessage(typ);
        case 0x1F => d := DecodeTextMessage(typ);
        case _ =>
          if IgnoredSize(typ).Some? {
            SkipBytes(IgnoredSize(typ).value);
            d := Decoded(Nop);
          } else {
            d := Fail;
          }
      }
    }

    /** Terminates, because each message takes at least one byte off the buffer. */
    method Messages() returns (r: DecodedAll)
      modifies this
      ensures match DecodeAll(old(buf))
              case AllGot(ms) => r == DecodedAll(ms) && buf == []
              case Broken => r == FailAll
              case Died => r == ExitAll
    {
      var messages := [];
      while true
        invariant match DecodeAll(buf)
                  case AllGot(ms) => DecodeAll(old(buf)) == AllGot(messages + ms)
                  case Broken => DecodeAll(old(buf)) == Broken
                  case Died => DecodeAll(old(buf)) == Died
        decreases |buf|
      {
        if |buf| == 0 {
          assert messages + [] == messages;
          return DecodedAll(messages);
        }
        var d := DecodeMessage();
        match d {
          case Fail => return FailAll;
          case Exit => return ExitAll;
          case Decoded(m) =>
            assert forall ms: seq<Message> :: messages + ([m] + ms) == messages + [m] + ms;
            messages := messages + [m];
        }
      }
    }
  }
}
