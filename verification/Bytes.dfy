/** Little-endian numbers and zero-terminated strings at the front of a byte sequence. */
module Bytes {
  type Byte = x: int | 0 <= x < 256

  /** What a read yields: a value, zero if there were too few bytes, and what is left. */
  datatype Read<+T> = Read(value: T, ok: bool, rest: seq<Byte>)

  function TakeUint8(b: seq<Byte>): (r: Read<Byte>)
    ensures |r.rest| <= |b|
  {
    if b == [] then Read(0, false, []) else Read(b[0], true, b[1..])
  }

  function Little(b: seq<Byte>): (v: nat)
    ensures |b| <= 1 ==> v < 0x100
    ensures |b| <= 2 ==> v < 0x1_0000
    ensures |b| <= 3 ==> v < 0x100_0000
    ensures |b| <= 4 ==> v < 0x1_0000_0000
  {
    if b == [] then 0 else (b[0] as int) + 256 * Little(b[1..])
  }

  /** binary.Read of an unsigned number of `n` bytes; a short read uses up what there is. */
  function TakeUint(n: nat, b: seq<Byte>): (r: Read<nat>)
    ensures |r.rest| <= |b|
  {
    if |b| < n then Read(0, false, []) else Read(Little(b[..n]), true, b[n..])
  }

  function Signed(bound: nat, v: nat): int {
    if v < bound then v else v - 2 * bound
  }

  function TakeInt16(b: seq<Byte>): (r: Read<int>)
    ensures |r.rest| <= |b|
  {
    var r := TakeUint(2, b);
    Read(Signed(0x8000, r.value), r.ok, r.rest)
  }

  function TakeInt8(b: seq<Byte>): (r: Read<int>)
    ensures |r.rest| <= |b|
  {
    var r := TakeUint(1, b);
    Read(Signed(0x80, r.value), r.ok, r.rest)
  }

  function TakeString(b: seq<Byte>): (r: Read<seq<Byte>>)
    ensures r.ok ==> |r.rest| < |b|
    ensures |r.rest| <= |b|
  {
    if b == [] then Read([], false, [])
    else if b[0] == 0 then Read([], true, b[1..])
    else
      var r := TakeString(b[1..]);
      if r.ok then Read([b[0]] + r.value, true, r.rest) else r
  }

  /** Reads whose results are thrown away. */
  function Skip(n: nat, b: seq<Byte>): (rest: seq<Byte>)
    ensures |rest| <= |b|
  {
    if |b| < n then [] else b[n..]
  }

  // ----- The reference encoder, which puts a value in front of what follows

  function PutUint16(v: nat, rest: seq<Byte>): seq<Byte>
    requires v < 0x1_0000
  {
    [v % 256, v / 256] + rest
  }

  function PutUint32(v: nat, rest: seq<Byte>): seq<Byte>
    requires v < 0x1_0000_0000
  {
    [v % 256, v / 0x100 % 256, v / 0x1_0000 % 256, v / 0x100_0000] + rest
  }

  predicate IsInt16(v: int) {
    -0x8000 <= v < 0x8000
  }

  predicate IsInt8(v: int) {
    -0x80 <= v < 0x80
  }

  function PutInt16(v: int, rest: seq<Byte>): seq<Byte>
    requires IsInt16(v)
  {
    PutUint16(if v < 0 then v + 0x1_0000 else v, rest)
  }

  function PutInt8(v: int, rest: seq<Byte>): seq<Byte>
    requires IsInt8(v)
  {
    [if v < 0 then v + 0x100 else v] + rest
  }

  function PutString(s: seq<Byte>, rest: seq<Byte>): seq<Byte> {
    s + [0] + rest
  }

  // ----- Reading back what was put

  lemma ReadsUint16(v: nat, rest: seq<Byte>)
    requires v < 0x1_0000
    ensures TakeUint(2, PutUint16(v, rest)) == Read(v, true, rest)
  {
    var b := PutUint16(v, rest);
    assert b[..2] == [v % 256, v / 256] && b[2..] == rest;
    LittlePair(v % 256, v / 256);
  }

  lemma ReadsUint32(v: nat, rest: seq<Byte>)
    requires v < 0x1_0000_0000
    ensures TakeUint(4, PutUint32(v, rest)) == Read(v, true, rest)
  {
    var b := PutUint32(v, rest);
    assert b[..4] == [v % 256, v / 0x100 % 256, v / 0x1_0000 % 256, v / 0x100_0000] && b[4..] == rest;
    LittleQuad(v % 256, v / 0x100 % 256, v / 0x1_0000 % 256, v / 0x100_0000);
    Digits(v);
  }

  lemma Digits(v: nat)
    ensures v == v % 256 + 0x100 * (v / 0x100 % 256) + 0x1_0000 * (v / 0x1_0000 % 256) + 0x100_0000 * (v / 0x100_0000)
  {
    assert v / 0x1_0000 == v / 0x100 / 0x100;
    assert v / 0x100_0000 == v / 0x1_0000 / 0x100;
  }

  lemma LittleOne(a: Byte)
    ensures Little([a]) == a
  {
    assert [a][1..] == [];
  }

  lemma LittlePair(a: Byte, b: Byte)
    ensures Little([a, b]) == a + 256 * b
  {
    assert [a, b][1..] == [b];
    LittleOne(b);
  }

  lemma LittleQuad(a: Byte, b: Byte, c: Byte, d: Byte)
    ensures Little([a, b, c, d]) == a + 0x100 * b + 0x1_0000 * c + 0x100_0000 * d
  {
    assert [a, b, c, d][1..] == [b, c, d] && [b, c, d][1..] == [c, d];
    LittlePair(c, d);
  }

  lemma ReadsInt16(v: int, rest: seq<Byte>)
    requires IsInt16(v)
    ensures TakeInt16(PutInt16(v, rest)) == Read(v, true, rest)
  {
    ReadsUint16(if v < 0 then v + 0x1_0000 else v, rest);
  }

  lemma ReadsInt8(v: int, rest: seq<Byte>)
    requires IsInt8(v)
    ensures TakeInt8(PutInt8(v, rest)) == Read(v, true, rest)
  {
    var b := PutInt8(v, rest);
    assert b[..1] == [b[0]] && b[1..] == rest;
    LittleOne(b[0]);
  }

  lemma {:induction false} ReadsString(s: seq<Byte>, rest: seq<Byte>)
    requires 0 !in s
    ensures TakeString(PutString(s, rest)) == Read(s, true, rest)
  {
    var b := PutString(s, rest);
    if s == [] {
      assert b == [0] + rest;
      assert b[1..] == rest;
    } else {
      assert b[1..] == PutString(s[1..], rest);
      ReadsString(s[1..], rest);
      assert [s[0]] + s[1..] == s;
    }
  }
}
