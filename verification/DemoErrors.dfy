/**
 What the decoder refuses: types that it does not know, and messages that are
 cut off. Some types are read without looking at errors; those are taken as if
 the missing bytes were zero, and are not the subject here.
 */
module DemoErrors {
  import opened Options
  import opened Bytes
  import opened DemoMessages
  import opened DemoCodec
  import opened WireFormat

  /** A read that succeeds does not depend on what follows. */
  ghost predicate Carries<T>(r: Read<T>, r': Read<T>, t: seq<Byte>) {
    r.ok ==> r' == Read(r.value, true, r.rest + t)
  }

  lemma Uint8More(b: seq<Byte>, t: seq<Byte>)
    ensures Carries(TakeUint8(b), TakeUint8(b + t), t)
  {
    if b != [] {
      assert (b + t)[1..] == b[1..] + t;
    }
  }

  lemma UintMore(n: nat, b: seq<Byte>, t: seq<Byte>)
    ensures Carries(TakeUint(n, b), TakeUint(n, b + t), t)
  {
    if |b| >= n {
      assert (b + t)[..n] == b[..n] && (b + t)[n..] == b[n..] + t;
    }
  }

  lemma Int16More(b: seq<Byte>, t: seq<Byte>)
    ensures Carries(TakeInt16(b), TakeInt16(b + t), t)
  {
    UintMore(2, b, t);
  }

  lemma Int8More(b: seq<Byte>, t: seq<Byte>)
    ensures Carries(TakeInt8(b), TakeInt8(b + t), t)
  {
    UintMore(1, b, t);
  }

  lemma {:induction false} StringMore(b: seq<Byte>, t: seq<Byte>)
    ensures Carries(TakeString(b), TakeString(b + t), t)
  {
    if b != [] {
      assert (b + t)[1..] == b[1..] + t;
      if b[0] != 0 {
        StringMore(b[1..], t);
      }
    }
  }

  lemma {:induction false} StringsMore(b: seq<Byte>, t: seq<Byte>)
    ensures Carries(TakeStrings(b), TakeStrings(b + t), t)
    decreases |b|
  {
    var s := TakeString(b);
    StringMore(b, t);
    if s.ok && s.value != [] {
      StringsMore(s.rest, t);
    }
  }

  lemma FlaggedMore(present: bool, b: seq<Byte>, t: seq<Byte>)
    ensures Carries(TakeFlagged(present, b), TakeFlagged(present, b + t), t)
  {
    Uint8More(b, t);
  }

  // ----- Messages

  /** So does a message that is decoded. */
  ghost predicate Extends(o: Outcome, o': Outcome, t: seq<Byte>) {
    o.Got? ==> o' == Got(o.message, o.rest + t)
  }

  lemma SoundSourceMore(volume: Byte, attenuation: Byte, b: seq<Byte>, t: seq<Byte>)
    ensures Extends(DecodeSoundSource(volume, attenuation, b), DecodeSoundSource(volume, attenuation, b + t), t)
  {
    var packed := TakeUint(2, b);
    var sound := TakeUint8(packed.rest);
    var x := TakeInt16(sound.rest);
    var y := TakeInt16(x.rest);
    UintMore(2, b, t);
    Uint8More(packed.rest, t);
    Int16More(sound.rest, t);
    Int16More(x.rest, t);
    Int16More(y.rest, t);
  }

  lemma SoundMore(b: seq<Byte>, t: seq<Byte>)
    ensures Extends(DecodeSound(b), DecodeSound(b + t), t)
  {
    var mask := TakeUint8(b);
    var volume := TakeFlagged(Has(mask.value, 1), mask.rest);
    var attenuation := TakeFlagged(Has(mask.value, 2), volume.rest);
    Uint8More(b, t);
    FlaggedMore(Has(mask.value, 1), mask.rest, t);
    FlaggedMore(Has(mask.value, 2), volume.rest, t);
    SoundSourceMore(volume.value, attenuation.value, attenuation.rest, t);
  }

  lemma OrientationMore(b: seq<Byte>, t: seq<Byte>)
    ensures Extends(DecodeOrientation(b), DecodeOrientation(b + t), t)
  {
    var x := TakeInt8(b);
    var y := TakeInt8(x.rest);
    Int8More(b, t);
    Int8More(x.rest, t);
    Int8More(y.rest, t);
  }

  lemma ServerListsMore(version: nat, maxClients: Byte, gameType: Byte, b: seq<Byte>, t: seq<Byte>)
    ensures Extends(DecodeServerLists(version, maxClients, gameType, b), DecodeServerLists(version, maxClients, gameType, b + t), t)
  {
    var level := TakeString(b);
    var models := TakeStrings(level.rest);
    StringMore(b, t);
    StringsMore(level.rest, t);
    StringsMore(models.rest, t);
  }

  lemma ServerInfoMore(b: seq<Byte>, t: seq<Byte>)
    ensures Extends(DecodeServerInfo(b), DecodeServerInfo(b + t), t)
  {
    var version := TakeUint(4, b);
    var maxClients := TakeUint8(version.rest);
    var gameType := TakeUint8(maxClients.rest);
    UintMore(4, b, t);
    Uint8More(version.rest, t);
    Uint8More(maxClients.rest, t);
    ServerListsMore(version.value, maxClients.value, gameType.value, gameType.rest, t);
  }

  lemma NamedMore(b: seq<Byte>, style: bool, t: seq<Byte>)
    ensures Extends(DecodeNamed(b, style), DecodeNamed(b + t, style), t)
  {
    Uint8More(b, t);
    StringMore(TakeUint8(b).rest, t);
  }

  lemma FragsMore(b: seq<Byte>, t: seq<Byte>)
    ensures Extends(DecodeFrags(b), DecodeFrags(b + t), t)
  {
    Uint8More(b, t);
    UintMore(2, TakeUint8(b).rest, t);
  }

  lemma SkipMore(n: nat, b: seq<Byte>, t: seq<Byte>)
    requires |b| >= n
    ensures Skip(n, b + t) == Skip(n, b) + t
  {
  }

  lemma ClientDataMore(b: seq<Byte>, t: seq<Byte>)
    ensures Extends(DecodeClientData(b), DecodeClientData(b + t), t)
  {
    var mask := TakeUint(2, b);
    UintMore(2, b, t);
    if DecodeClientData(b).Got? {
      var n := ClientDataSize(mask.value);
      assert |mask.rest| >= n;
      SkipMore(n, mask.rest, t);
      SkipMore(8, Skip(n, mask.rest), t);
    }
  }

  /** The types from sound to client data: what they read is checked. */
  predicate IsChecked(typ: Byte) {
    0x06 <= typ <= 0x0F
  }

  lemma CheckedMore(typ: Byte, r: seq<Byte>, t: seq<Byte>)
    requires IsChecked(typ)
    ensures Extends(DecodeBody(typ, r), DecodeBody(typ, r + t), t)
  {
    if typ == 0x06 { SoundMore(r, t); }
    else if typ == 0x07 { UintMore(4, r, t); }
    else if typ <= 0x09 { StringMore(r, t); }
    else if typ == 0x0A { OrientationMore(r, t); }
    else if typ == 0x0B { ServerInfoMore(r, t); }
    else if typ <= 0x0D { NamedMore(r, typ == 0x0C, t); }
    else if typ == 0x0E { FragsMore(r, t); }
    else { ClientDataMore(r, t); }
  }

  lemma ServerInfoDies(r: seq<Byte>)
    ensures DecodeServerInfo(r) != Error
  {
  }

  lemma CheckedFails(typ: Byte, r: seq<Byte>)
    requires IsChecked(typ) && !DecodeBody(typ, r).Got?
    ensures DecodeBody(typ, r) == if typ == 0x0B then Fatal else Error
  {
    if typ == 0x0B {
      ServerInfoDies(r);
    }
  }

  /**
   A message of these types that is cut off anywhere is an error, and it ends
   the program if it is the server's description of itself. So no such message
   is the beginning of another.
   */
  lemma CutOffFails(w: WireMessage, k: nat)
    requires WellFormed(w) && 0 < k < |Encode(w, [])| && IsChecked(Encode(w, [])[0])
    ensures Decode(Encode(w, [])[..k]) == if w.WServerInfo? then Fatal else Error
  {
    var full := Encode(w, []);
    var b, t := full[..k], full[k..];
    assert b[1..] + t == full[1..];
    RoundTrip(w, []);
    CheckedMore(b[0], b[1..], t);
    assert |t| > 0;
    assert !DecodeBody(b[0], b[1..]).Got?;
    CheckedFails(b[0], b[1..]);
    FirstByte(w);
  }

  lemma FirstByte(w: WireMessage)
    requires WellFormed(w) && IsChecked(Encode(w, [])[0])
    ensures Encode(w, [])[0] == 0x0B <==> w.WServerInfo?
  {
  }

  // ----- Unknown types

  /** The types that no message has. */
  lemma UnknownTypeFails(b: seq<Byte>)
    requires b != [] && (b[0] == 0 || b[0] == 4 || b[0] == 0x15 || 0x22 <= b[0] < 0x80)
    ensures Decode(b) == Error
  {
  }

  /** An unknown kind of temporary entity is an error too, and a server of an unknown version ends the program. */
  lemma UnknownKindFails(b: seq<Byte>)
    requires |b| >= 2 && b[0] == 0x17 && b[1] > 15
    ensures Decode(b) == Error
  {
  }

  lemma UnknownVersionDies(version: nat, rest: seq<Byte>)
    requires version < 0x1_0000_0000 && version != 15 && version != 666
    ensures Decode([0x0B] + PutUint32(version, rest)) == Fatal
  {
    var b := [0x0B] + PutUint32(version, rest);
    assert b[1..] == PutUint32(version, rest);
    ReadsUint32(version, rest);
  }

  lemma BreaksBlock(b: seq<Byte>)
    requires b != []
    ensures Decode(b) == Error ==> DecodeAll(b) == Broken
    ensures Decode(b) == Fatal ==> DecodeAll(b) == Died
  {
  }

  lemma StillBroken(b: seq<Byte>, m: Message, rest: seq<Byte>)
    requires Decode(b) == Got(m, rest) && !DecodeAll(rest).AllGot?
    ensures DecodeAll(b) == DecodeAll(rest)
  {
  }

  lemma BrokenAfter(w: WireMessage, rest: seq<Byte>)
    requires WellFormed(w) && !DecodeAll(rest).AllGot?
    ensures DecodeAll(Encode(w, []) + rest) == DecodeAll(rest)
  {
    FirstOfBlock(w, rest);
    StillBroken(Encode(w, []) + rest, Meaning(w), rest);
  }

  /** A block that breaks somewhere breaks, however many good messages come first: none of them is used. */
  lemma {:induction false} BrokenBlock(ws: seq<WireMessage>, b: seq<Byte>)
    requires AllWellFormed(ws) && !DecodeAll(b).AllGot?
    ensures DecodeAll(EncodeAll(ws) + b) == DecodeAll(b)
  {
    if ws == [] {
      assert EncodeAll(ws) + b == b;
    } else {
      var rest := EncodeAll(ws[1..]) + b;
      BrokenBlock(ws[1..], b);
      BrokenAfter(ws[0], rest);
      assert EncodeAll(ws) + b == Encode(ws[0], []) + rest;
    }
  }
}
