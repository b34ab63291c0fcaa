/** The angles of a whole demo: none is more than half a turn, so that everything that turns in a frame goes the short way round. */
module DemoAngles {
  import opened Options
  import opened Bytes
  import opened DemoMessages
  import opened DemoCodec
  import opened DemoScene
  import opened DemoRun
  import opened Interpolation

  predicate HalfTurns(v: Vertex) {
    IsHalfTurn(v.x) && IsHalfTurn(v.y) && IsHalfTurn(v.z)
  }

  predicate MessageTurns(m: Message) {
    match m
    case Move(u) => OptTurn(u.a) && OptTurn(u.b) && OptTurn(u.c)
    case SpawnBaseline(_, _, _, _, _, _, angle) => HalfTurns(angle)
    case CameraOrientation(angle) => HalfTurns(angle)
    case _ => true
  }

  predicate OptTurn(a: Option<real>) {
    a.Some? ==> IsHalfTurn(a.value)
  }

  // ----- What the decoder yields

  lemma TakesHalfTurn(b: seq<Byte>)
    ensures IsHalfTurn(Angle(TakeInt8(b).value))
  {
    assert TakeUint(1, b).value < 0x100;
  }

  lemma TakesOptTurn(present: bool, b: seq<Byte>)
    ensures OptTurn(TakeOptAngle(present, b).value)
  {
    TakesHalfTurn(b);
  }

  lemma OrientationTurns(b: seq<Byte>)
    ensures DecodeOrientation(b).Got? ==> MessageTurns(DecodeOrientation(b).message)
  {
    var x := TakeInt8(b);
    var y := TakeInt8(x.rest);
    TakesHalfTurn(b);
    TakesHalfTurn(x.rest);
    TakesHalfTurn(y.rest);
  }

  lemma PlaceTurns(b: seq<Byte>)
    ensures HalfTurns(TakePlace(b).value.1)
  {
    var x := TakeInt16(b);
    var a := TakeInt8(x.rest);
    var y := TakeInt16(a.rest);
    var c := TakeInt8(y.rest);
    var z := TakeInt16(c.rest);
    TakesHalfTurn(x.rest);
    TakesHalfTurn(y.rest);
    TakesHalfTurn(z.rest);
  }

  lemma BaselineTurns(b: seq<Byte>)
    ensures DecodeBaseline(b).Got? ==> MessageTurns(DecodeBaseline(b).message)
  {
    var entity := TakeUint(2, b);
    var model := TakeUint8(entity.rest);
    var frame := TakeUint8(model.rest);
    var color := TakeUint8(frame.rest);
    var skin := TakeUint8(color.rest);
    PlaceTurns(skin.rest);
  }

  lemma PlaceEndTurns(mask: nat, u: Update, b: seq<Byte>)
    requires OptTurn(u.a)
    ensures DecodePlaceEnd(mask, u, b).Got? ==> MessageTurns(DecodePlaceEnd(mask, u, b).message)
  {
    var y := TakeOptAngle(Has(mask, U_ANGLE2), b);
    var z := TakeOptCoord(Has(mask, U_ORIGIN3), y.rest);
    TakesOptTurn(Has(mask, U_ANGLE2), b);
    TakesOptTurn(Has(mask, U_ANGLE3), z.rest);
  }

  lemma UpdatePlaceTurns(mask: nat, u: Update, b: seq<Byte>)
    ensures DecodePlace(mask, u, b).Got? ==> MessageTurns(DecodePlace(mask, u, b).message)
  {
    var x := TakeOptCoord(Has(mask, U_ORIGIN1), b);
    var a := TakeOptAngle(Has(mask, U_ANGLE1), x.rest);
    var y := TakeOptCoord(Has(mask, U_ORIGIN2), a.rest);
    TakesOptTurn(Has(mask, U_ANGLE1), x.rest);
    PlaceEndTurns(mask, u.(x := x.value, a := a.value, y := y.value), y.rest);
  }

  lemma LooksTurn(mask: nat, entity: nat, b: seq<Byte>)
    ensures DecodeLooks(mask, entity, b).Got? ==> MessageTurns(DecodeLooks(mask, entity, b).message)
  {
    var model := TakeOptUint8(Has(mask, U_MODEL), b);
    var frame := TakeOptUint8(Has(mask, U_FRAME), model.rest);
    var color := TakeOptUint8(Has(mask, U_COLORMAP), frame.rest);
    var skin := TakeOptUint8(Has(mask, U_SKIN), color.rest);
    var effects := TakeOptUint8(Has(mask, U_EFFECTS), skin.rest);
    UpdatePlaceTurns(mask, Update(entity, model.value, frame.value, color.value, skin.value, effects.value,
                                  None, None, None, None, None, None), effects.rest);
  }

  lemma UpdateTurns(typ: Byte, b: seq<Byte>)
    ensures DecodeUpdate(typ, b).Got? ==> MessageTurns(DecodeUpdate(typ, b).message)
  {
    var mask := TakeMask(typ, b);
    var entity := TakeEntity(mask.value, mask.rest);
    LooksTurn(mask.value, entity.value, entity.rest);
  }

  lemma EarlyTypesTurn(typ: Byte, r: seq<Byte>)
    requires typ < 0x0A
    ensures DecodeBody(typ, r).Got? ==> MessageTurns(DecodeBody(typ, r).message)
  {
    var sound := DecodeSound(r);
    assert sound.Got? ==> sound.message.PlaySound?;
  }

  lemma MiddleTypesTurn(typ: Byte, r: seq<Byte>)
    requires 0x0A <= typ < 0x10
    ensures DecodeBody(typ, r).Got? ==> MessageTurns(DecodeBody(typ, r).message)
  {
    if typ == 0x0A {
      OrientationTurns(r);
    } else {
      var info := DecodeServerInfo(r);
      assert info.Got? ==> info.message.Server?;
    }
  }

  lemma LateTypesTurn(typ: Byte, r: seq<Byte>)
    requires 0x10 <= typ && typ != 0x16
    ensures DecodeBody(typ, r).Got? ==> MessageTurns(DecodeBody(typ, r).message)
  {
  }

  lemma BodyTurns(typ: Byte, r: seq<Byte>)
    ensures DecodeBody(typ, r).Got? ==> MessageTurns(DecodeBody(typ, r).message)
  {
    if typ < 0x0A {
      EarlyTypesTurn(typ, r);
    } else if typ < 0x10 {
      MiddleTypesTurn(typ, r);
    } else if typ == 0x16 {
      BaselineTurns(r);
    } else {
      LateTypesTurn(typ, r);
    }
  }

  /** The angles of any decoded message are at most half a turn, since they come in a signed byte. */
  lemma DecodedTurns(b: seq<Byte>)
    ensures Decode(b).Got? ==> MessageTurns(Decode(b).message)
  {
    if b == [] {
      assert Decode(b) == Fatal;
    } else if b[0] < 0x80 {
      BodyTurns(b[0], b[1..]);
    } else {
      UpdateTurns(b[0], b[1..]);
      DecodesUpdate(b);
    }
  }

  predicate AllTurn(ms: seq<Message>) {
    forall i :: 0 <= i < |ms| ==> MessageTurns(ms[i])
  }

  lemma {:induction false} AllDecodedTurn(b: seq<Byte>)
    ensures DecodeAll(b).AllGot? ==> AllTurn(DecodeAll(b).messages)
    decreases |b|
  {
    if b != [] {
      DecodedTurns(b);
      if Decode(b).Got? {
        AllDecodedTurn(Decode(b).rest);
      }
    }
  }

  // ----- What becomes of it

  predicate SceneTurns(s: Scene) {
    && HalfTurns(s.viewAngle) && HalfTurns(s.cameraViewAngle)
    && forall n :: 0 <= n < |s.entities| ==> HalfTurns(s.entities[n].angle)
  }

  predicate BlockTurns(b: Block) {
    HalfTurns(b.viewAngle) && AllTurn(b.messages)
  }

  predicate DemoTurns(blocks: seq<Block>) {
    forall i :: 0 <= i < |blocks| ==> BlockTurns(blocks[i])
  }

  lemma AppliedTurns(s: Scene, m: Message)
    requires IsScene(s) && InRange(m) && SceneTurns(s) && MessageTurns(m)
    ensures SceneTurns(Applied(s, m))
  {
  }

  lemma {:induction false} AppliedAllTurns(s: Scene, ms: seq<Message>)
    requires IsScene(s) && AllInRange(ms) && SceneTurns(s) && AllTurn(ms)
    ensures SceneTurns(AppliedAll(s, ms))
  {
    if ms != [] {
      AppliedAllTurns(s, ms[..|ms| - 1]);
      AppliedTurns(AppliedAll(s, ms[..|ms| - 1]), ms[|ms| - 1]);
    }
  }

  predicate ConverterTurns(c: Converter) {
    SceneTurns(c.cur) && (c.snap.Some? ==> SceneTurns(c.snap.value))
  }

  lemma NowTurns(c: Converter, b: Block)
    requires IsConverter(c) && IsBlock(b) && ConverterTurns(c) && BlockTurns(b)
    ensures SceneTurns(AfterMessages(c.cur, b)) && SceneTurns(Now(c, b))
  {
    AppliedAllTurns(if c.cur.cameraSetViewAngle then c.cur else c.cur.(viewAngle := b.viewAngle), b.messages);
  }

  lemma AfterBlockTurns(c: Converter, b: Block, fps: real)
    requires IsConverter(c) && IsBlock(b) && fps > 0.0 && ConverterTurns(c) && BlockTurns(b)
    ensures ConverterTurns(AfterBlock(c, b, fps))
  {
    NowTurns(c, b);
  }

  /** If the headers of the blocks have such angles too, so have all entities and cameras throughout the demo. */
  lemma {:induction false} RunTurns(blocks: seq<Block>, fps: real)
    requires IsDemo(blocks) && fps > 0.0 && DemoTurns(blocks)
    ensures ConverterTurns(RunDemo(blocks, fps))
  {
    if blocks != [] {
      var init := blocks[..|blocks| - 1];
      RunTurns(init, fps);
      AfterBlockTurns(RunDemo(init, fps), blocks[|blocks| - 1], fps);
    }
  }

  /** From `v` to `w` all three angles go the short way round, and are at `x` in between. */
  predicate ShortWay(v: Vertex, w: Vertex, x: Vertex) {
    && Abs(ArcLength(v.x, w.x)) <= 180.0 && -180.0 < x.x <= 180.0
    && Abs(ArcLength(v.y, w.y)) <= 180.0 && -180.0 < x.y <= 180.0
    && Abs(ArcLength(v.z, w.z)) <= 180.0 && -180.0 < x.z <= 180.0
  }

  lemma TurnsShortWay(v: Vertex, w: Vertex, t: real)
    requires HalfTurns(v) && HalfTurns(w) && 0.0 <= t <= 1.0
    ensures ShortWay(v, w, InterpolateAngle(v, w, t))
  {
    ShortWayRound(v.x, w.x, t);
    ShortWayRound(v.y, w.y, t);
    ShortWayRound(v.z, w.z, t);
  }

  /** The frame is written, and the camera does not jump in it because it is too fast. */
  predicate CameraTurns(c: Converter, b: Block, fps: real, i: nat)
    requires Adds(c, b, fps, i)
  {
    NewFrame(c, b, fps, i).scene.Some? && !TooFast(c.snap.value, Now(c, b))
  }

  /** In every written frame of such a demo, every entity that keeps its model turns the short way, and so does a camera that does not jump. */
  lemma FramesTurnShortWay(blocks: seq<Block>, b: Block, fps: real, i: nat, n: nat)
    requires IsDemo(blocks) && fps > 0.0 && DemoTurns(blocks) && BlockTurns(b)
    requires Adds(RunDemo(blocks, fps), b, fps, i) && n < MAX_ENTITIES
    ensures
      var c := RunDemo(blocks, fps);
      Glides(c, b, fps, i, n) ==>
        ShortWay(c.snap.value.entities[n].angle, Now(c, b).entities[n].angle, NewFrame(c, b, fps, i).scene.value.entities[n].angle)
    ensures
      var c := RunDemo(blocks, fps);
      CameraTurns(c, b, fps, i) ==>
        ShortWay(c.snap.value.viewAngle, Now(c, b).viewAngle, NewFrame(c, b, fps, i).scene.value.viewAngle)
  {
    RunTurns(blocks, fps);
    FrameTurnsShortWay(RunDemo(blocks, fps), b, fps, i, n);
  }

  lemma FrameTurnsShortWay(c: Converter, b: Block, fps: real, i: nat, n: nat)
    requires Adds(c, b, fps, i) && n < MAX_ENTITIES && ConverterTurns(c) && BlockTurns(b)
    ensures Glides(c, b, fps, i, n) ==>
      ShortWay(c.snap.value.entities[n].angle, Now(c, b).entities[n].angle, NewFrame(c, b, fps, i).scene.value.entities[n].angle)
    ensures CameraTurns(c, b, fps, i) ==>
      ShortWay(c.snap.value.viewAngle, Now(c, b).viewAngle, NewFrame(c, b, fps, i).scene.value.viewAngle)
  {
    var snap, now := c.snap.value, Now(c, b);
    NowTurns(c, b);
    FrameTime(c, b, fps, i);
    var t := Progress(snap, now, NewFrame(c, b, fps, i).time);
    TurnsShortWay(snap.entities[n].angle, now.entities[n].angle, t);
    TurnsShortWay(snap.viewAngle, now.viewAngle, t);
  }
}
