/**
 * The mouse payload provider of logitacker_tx_payload_provider_mouse.c.
 *
 * The firmware keeps one static provider context and one static vtable; every new
 * mouse task re-initialises them in place. `MouseProvider` is that static object.
 * `MouseCtx` is its value, and `InjectStep`, `SequenceStep`, `ResetCtx` and
 * `NewCtx` are the reference semantics its methods are proved against.
 *
 * The `count` field is a `uint32_t *`: the encoders test it against NULL, step it
 * with `count--` and `reset` stores NULL into it; the value it points to is never
 * read. It is modelled as a pointer counted in 32-bit words, 0 being NULL, so that
 * `count--` is a subtraction of one word.
 */
module MousePayloadProvider {
  import opened Wire
  import opened MouseFrames

  const NULL: nat := 0

  /** `logitacker_tx_payload_provider_mouse_ctx_t`, plus which `get_next` the vtable holds. */
  datatype MouseCtx = MouseCtx(
    mouseMap: MouseMap,
    count: nat,
    appendRelease: bool,
    keyComboTransmitted: bool,
    releaseTransmitted: bool,
    useUsb: bool,
    lightspeed: bool)

  /** The context, the caller's payload and the boolean result after one call. */
  datatype Step = Step(ctx: MouseCtx, payload: Payload, produced: bool)

  /** The zero-initialised static context. */
  function InitialCtx(): MouseCtx
  {
    MouseCtx(MouseMap(0, 0, 0, false, false), NULL, false, false, false, false, false)
  }

  function EncodeFrame(m: MouseMap, lightspeed: bool): seq<byte>
  {
    if lightspeed then LightspeedFrame(m) else ClassicFrame(m)
  }

  /** The inner encoder: nothing while the count pointer is NULL, otherwise one staged frame and `count--`. */
  function InjectStep(c: MouseCtx, p: Payload, lightspeed: bool): Step
  {
    if c.count == NULL then Step(c, p, false)
    else Step(c.(count := c.count - 1), WriteFrame(p, EncodeFrame(c.mouseMap, lightspeed)), true)
  }

  /** The two-flag sequencer: the action frame, then (if a release is appended) the release frame, then nothing. */
  function SequenceStep(c: MouseCtx, p: Payload, lightspeed: bool): Step
  {
    if c.keyComboTransmitted then
      if c.appendRelease && !c.releaseTransmitted then InjectStep(c.(releaseTransmitted := true), p, lightspeed)
      else Step(c, p, false)
    else
      InjectStep(c.(keyComboTransmitted := true), p, lightspeed)
  }

  /** The `p_get_next` entry of the vtable. */
  function NextStep(c: MouseCtx, p: Payload): Step
  {
    SequenceStep(c, p, c.lightspeed)
  }

  /** `provider_mouse_reset`: the count pointer becomes NULL; the flags are kept. */
  function ResetCtx(c: MouseCtx): MouseCtx
  {
    c.(count := NULL)
  }

  /** `new_payload_provider_mouse`. */
  function NewCtx(useUsb: bool, mouseMap: MouseMap, count: nat, isLightspeed: bool): MouseCtx
  {
    MouseCtx(mouseMap, count, true, false, false, useUsb, isLightspeed)
  }

  /** The number of frames produced by `n` successive `get_next` calls. */
  function FramesProduced(c: MouseCtx, p: Payload, n: nat): nat
    decreases n
  {
    if n == 0 then 0
    else
      var s := NextStep(c, p);
      (if s.produced then 1 else 0) + FramesProduced(s.ctx, s.payload, n - 1)
  }

  /** `provider_mouse_inject_get_next`'s local frame, filled field by field. */
  method EncodeClassic(m: MouseMap) returns (frame: seq<byte>)
    ensures frame == ClassicFrame(m)
  {
    var a := new byte[CLASSIC_FRAME_LENGTH](i => if i == 1 then 0xC2 else 0x00);
    a[2] := 0x00;
    if m.leftClick {
      a[2] := 0x01;
    }
    if m.rightClick {
      a[2] := 0x02;
    }
    if m.leftClick && m.rightClick {
      a[2] := 0x03;
    }
    assert a[2] == ClickCode(m.leftClick, m.rightClick);
    var x := m.xMove;
    if x > CLASSIC_MOVE_BOUND {
      x := CLASSIC_MOVE_BOUND - x;
    }
    var y := m.yMove;
    if y > CLASSIC_MOVE_BOUND {
      y := CLASSIC_MOVE_BOUND - y;
    }
    assert x == Substitute(m.xMove, CLASSIC_MOVE_BOUND) && y == Substitute(m.yMove, CLASSIC_MOVE_BOUND);
    // & 0xFFF keeps the low 12 bits of the two's-complement value
    var cursorVelocity := (y % 0x1000) * 0x1000 + x % 0x1000;
    // three-byte memcpy from a little-endian uint32_t
    a[4] := cursorVelocity % 0x100;
    a[5] := cursorVelocity / 0x100 % 0x100;
    a[6] := cursorVelocity / 0x1_0000 % 0x100;
    frame := a[..];
  }

  /** `provider_mouse_inject_get_next_lightspeed`'s local frame, filled field by field. */
  method EncodeLightspeed(m: MouseMap) returns (frame: seq<byte>)
    ensures frame == LightspeedFrame(m)
  {
    var a := new byte[LIGHTSPEED_FRAME_LENGTH](i => if i == 0 then 0x02 else 0x00);
    a[1] := 0x00;
    if m.leftClick {
      a[1] := 0x01;
    }
    if m.rightClick {
      a[1] := 0x02;
    }
    if m.leftClick && m.rightClick {
      a[1] := 0x03;
    }
    assert a[1] == ClickCode(m.leftClick, m.rightClick);
    var x := m.xMove;
    if x > LIGHTSPEED_MOVE_BOUND {
      x := LIGHTSPEED_MOVE_BOUND - x;
    }
    var y := m.yMove;
    if y > LIGHTSPEED_MOVE_BOUND {
      y := LIGHTSPEED_MOVE_BOUND - y;
    }
    assert x == Substitute(m.xMove, LIGHTSPEED_MOVE_BOUND) && y == Substitute(m.yMove, LIGHTSPEED_MOVE_BOUND);
    // (v & 0xFF00) >> 8 and v & 0xFF of the sign-extended value
    a[3] := x % 0x1_0000 / 0x100;
    a[4] := x % 0x100;
    a[5] := y % 0x1_0000 / 0x100;
    a[6] := y % 0x100;
    a[7] := m.scrollV % 0x100;
    frame := a[..];
  }

  /** The static provider context and vtable. */
  class MouseProvider {
    var mouseMap: MouseMap
    var count: nat
    var appendRelease: bool
    var keyComboTransmitted: bool
    var releaseTransmitted: bool
    var useUsb: bool
    var lightspeed: bool

    function Ctx(): MouseCtx
      reads this
    {
      MouseCtx(mouseMap, count, appendRelease, keyComboTransmitted, releaseTransmitted, useUsb, lightspeed)
    }

    /** Static storage starts zeroed. */
    constructor ()
      ensures Ctx() == InitialCtx()
    {
      mouseMap := MouseMap(0, 0, 0, false, false);
      count := NULL;
      appendRelease, keyComboTransmitted, releaseTransmitted := false, false, false;
      useUsb, lightspeed := false, false;
    }

    /** `new_payload_provider_mouse`: re-initialises the static context and picks the `get_next` variant. */
    method New(useUsb: bool, mouseMap: MouseMap, count: nat, isLightspeed: bool)
      modifies this
      ensures Ctx() == NewCtx(useUsb, mouseMap, count, isLightspeed)
    {
      this.mouseMap := mouseMap;
      this.count := count;
      appendRelease := true;
      keyComboTransmitted := false;
      releaseTransmitted := false;
      this.useUsb := useUsb;
      lightspeed := isLightspeed;
    }

    /** `provider_mouse_inject_get_next`. */
    method InjectGetNext(p: Payload) returns (ok: bool, q: Payload)
      modifies this
      ensures Step(Ctx(), q, ok) == InjectStep(old(Ctx()), p, false)
    {
      if count == NULL {
        return false, p;
      }
      var frame := EncodeClassic(mouseMap);
      q := p.(data := frame + p.data[CLASSIC_FRAME_LENGTH..]);
      q := q.(length := CLASSIC_FRAME_LENGTH);
      q := q.(pipe := 0);
      count := count - 1;
      ok := true;
    }

    /** `provider_mouse_inject_get_next_lightspeed`. */
    method InjectGetNextLightspeed(p: Payload) returns (ok: bool, q: Payload)
      modifies this
      ensures Step(Ctx(), q, ok) == InjectStep(old(Ctx()), p, true)
    {
      if count == NULL {
        return false, p;
      }
      var frame := EncodeLightspeed(mouseMap);
      q := p.(data := frame + p.data[LIGHTSPEED_FRAME_LENGTH..]);
      q := q.(length := LIGHTSPEED_FRAME_LENGTH);
      q := q.(pipe := 0);
      count := count - 1;
      ok := true;
    }

    /** `provider_mouse_inject_reset`. */
    method InjectReset()
      modifies this
      ensures Ctx() == ResetCtx(old(Ctx()))
    {
      count := NULL;
    }

    /** `provider_mouse_get_next`. */
    method GetNext(p: Payload) returns (ok: bool, q: Payload)
      modifies this
      ensures Step(Ctx(), q, ok) == SequenceStep(old(Ctx()), p, false)
    {
      if keyComboTransmitted {
        if appendRelease && !releaseTransmitted {
          releaseTransmitted := true;
          ok, q := InjectGetNext(p);
        } else {
          ok, q := false, p;
        }
      } else {
        keyComboTransmitted := true;
        ok, q := InjectGetNext(p);
      }
    }

    /** `provider_mouse_get_next_lightspeed`. */
    method GetNextLightspeed(p: Payload) returns (ok: bool, q: Payload)
      modifies this
      ensures Step(Ctx(), q, ok) == SequenceStep(old(Ctx()), p, true)
    {
      if keyComboTransmitted {
        if appendRelease && !releaseTransmitted {
          releaseTransmitted := true;
          ok, q := InjectGetNextLightspeed(p);
        } else {
          ok, q := false, p;
        }
      } else {
        keyComboTransmitted := true;
        ok, q := InjectGetNextLightspeed(p);
      }
    }

    /** The vtable's `p_get_next`. */
    method Next(p: Payload) returns (ok: bool, q: Payload)
      modifies this
      ensures Step(Ctx(), q, ok) == NextStep(old(Ctx()), p)
    {
      if lightspeed {
        ok, q := GetNextLightspeed(p);
      } else {
        ok, q := GetNext(p);
      }
    }

    /** `provider_mouse_reset`, the vtable's `p_reset`. */
    method Reset()
      modifies this
      ensures Ctx() == ResetCtx(old(Ctx()))
    {
      InjectReset();
    }
  }

  // ---------------------------------------------------------------------------
  // Properties of the sequencer

  /** The constructor always appends a release and starts with neither flag set. */
  lemma NewCtxStartsFresh(useUsb: bool, m: MouseMap, count: nat, isLightspeed: bool)
    ensures var c := NewCtx(useUsb, m, count, isLightspeed);
      c.appendRelease && !c.keyComboTransmitted && !c.releaseTransmitted && c.count == count
  {
  }

  /** The inner encoder produces a frame iff the count pointer is not NULL. */
  lemma InjectStepIffNotNull(c: MouseCtx, p: Payload, lightspeed: bool)
    ensures InjectStep(c, p, lightspeed).produced <==> c.count != NULL
    ensures !InjectStep(c, p, lightspeed).produced ==> InjectStep(c, p, lightspeed).payload == p
    ensures InjectStep(c, p, lightspeed).produced ==>
      InjectStep(c, p, lightspeed).payload == WriteFrame(p, EncodeFrame(c.mouseMap, lightspeed))
  {
  }

  /**
   * The first call sets the combo flag, the second the release flag; the second
   * frame encodes the same mouse map, so it is byte-identical to the first.
   */
  lemma TwoIdenticalFrames(useUsb: bool, m: MouseMap, count: nat, isLightspeed: bool, p: Payload)
    requires count >= 2
    ensures var c0 := NewCtx(useUsb, m, count, isLightspeed);
      var s1 := NextStep(c0, p);
      var s2 := NextStep(s1.ctx, s1.payload);
      var s3 := NextStep(s2.ctx, s2.payload);
      && s1.produced && s1.ctx.keyComboTransmitted && !s1.ctx.releaseTransmitted
      && s2.produced && s2.ctx.keyComboTransmitted && s2.ctx.releaseTransmitted
      && s1.payload == WriteFrame(p, EncodeFrame(m, isLightspeed))
      && s2.payload == s1.payload
      && !s3.produced && s3.payload == s2.payload && s3.ctx == s2.ctx
  {
    var frame := EncodeFrame(m, isLightspeed);
    var s1 := NextStep(NewCtx(useUsb, m, count, isLightspeed), p);
    assert |frame| <= ESB_PAYLOAD_CAPACITY;
    assert s1.payload.data == frame + p.data[|frame|..];
    assert WriteFrame(s1.payload, frame).data == frame + s1.payload.data[|frame|..];
    assert s1.payload.data[|frame|..] == p.data[|frame|..];
  }

  /** Once both flags are set, every call returns false and leaves context and payload untouched. */
  lemma ExhaustedStaysExhausted(c: MouseCtx, p: Payload)
    requires c.keyComboTransmitted && c.releaseTransmitted
    ensures NextStep(c, p) == Step(c, p, false)
  {
  }

  /**
   * After a reset the count pointer is NULL, so no call produces a frame again,
   * although the outer call still sets its flags.
   */
  lemma ResetSilencesProvider(c: MouseCtx, p: Payload)
    ensures var s := NextStep(ResetCtx(c), p);
      && !s.produced && s.payload == p && s.ctx.count == NULL
      && s.ctx.keyComboTransmitted
      && (c.keyComboTransmitted && c.appendRelease ==> s.ctx.releaseTransmitted)
  {
  }

  /** From a NULL count pointer no number of calls produces a frame. */
  lemma {:induction false} NullNeverProduces(c: MouseCtx, p: Payload, n: nat)
    requires c.count == NULL
    ensures FramesProduced(c, p, n) == 0
    decreases n
  {
    if n > 0 {
      var s := NextStep(c, p);
      assert !s.produced && s.ctx.count == NULL;
      NullNeverProduces(s.ctx, s.payload, n - 1);
    }
  }

  /** After a reset no number of calls produces a frame. */
  lemma ResetNeverProduces(c: MouseCtx, p: Payload, n: nat)
    ensures FramesProduced(ResetCtx(c), p, n) == 0
  {
    NullNeverProduces(ResetCtx(c), p, n);
  }

  /** With a count pointer of at least two words, any number of calls yields at most two frames. */
  lemma {:induction false} AtMostTwoFrames(useUsb: bool, m: MouseMap, count: nat, isLightspeed: bool, p: Payload, n: nat)
    requires count >= 2
    ensures FramesProduced(NewCtx(useUsb, m, count, isLightspeed), p, n) == if n < 2 then n else 2
  {
    var c0 := NewCtx(useUsb, m, count, isLightspeed);
    if n >= 1 {
      var s1 := NextStep(c0, p);
      if n >= 2 {
        var s2 := NextStep(s1.ctx, s1.payload);
        assert s2.produced && s2.ctx.keyComboTransmitted && s2.ctx.releaseTransmitted;
        ExhaustedNeverProduces(s2.ctx, s2.payload, n - 2);
        assert FramesProduced(s1.ctx, s1.payload, n - 1) == 1 + FramesProduced(s2.ctx, s2.payload, n - 2);
      } else {
        assert FramesProduced(s1.ctx, s1.payload, 0) == 0;
      }
    }
  }

  lemma {:induction false} ExhaustedNeverProduces(c: MouseCtx, p: Payload, n: nat)
    requires c.keyComboTransmitted && c.releaseTransmitted
    ensures FramesProduced(c, p, n) == 0
  {
    if n > 0 {
      ExhaustedStaysExhausted(c, p);
      ExhaustedNeverProduces(c, p, n - 1);
    }
  }

  /** A count pointer one word above NULL steps to NULL after the first frame, so the release frame is not produced. */
  lemma PointerSteppedToNull(useUsb: bool, m: MouseMap, isLightspeed: bool, p: Payload)
    ensures var s1 := NextStep(NewCtx(useUsb, m, 1, isLightspeed), p);
      var s2 := NextStep(s1.ctx, s1.payload);
      s1.produced && s1.ctx.count == NULL && !s2.produced && s2.ctx.releaseTransmitted
  {
  }
}
