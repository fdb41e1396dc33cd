/**
 * Reference definitions of the two radio mouse frames built by the mouse payload
 * provider (logitacker_tx_payload_provider_mouse.c): the classic 10-byte frame and
 * the lightspeed 9-byte frame, byte for byte, with the decoders that read them back.
 */
module MouseFrames {
  import opened Wire

  /** `logitacker_mouse_map_t`, the mouse action the provider encodes. */
  datatype MouseMap = MouseMap(xMove: int16, yMove: int16, scrollV: int8, leftClick: bool, rightClick: bool)

  const CLASSIC_FRAME_LENGTH: nat := 10
  const LIGHTSPEED_FRAME_LENGTH: nat := 9
  const CLASSIC_MOVE_BOUND: int16 := 1000
  const LIGHTSPEED_MOVE_BOUND: int16 := 16383

  /** The pre-send overflow step: a movement above the bound becomes `bound - v`; nothing else changes. */
  function Substitute(v: int16, bound: int16): int16
    requires bound >= 0
  {
    if v > bound then bound - v else v
  }

  /** The click byte: 0 neither, 1 left only, 2 right only, 3 both. */
  function ClickCode(leftClick: bool, rightClick: bool): byte
  {
    if leftClick && rightClick then 3
    else if rightClick then 2
    else if leftClick then 1
    else 0
  }

  /** `((uint32_t)y & 0xFFF) << 12 | (x & 0xFFF)` for two's-complement x and y. */
  function ClassicVelocity(x: int, y: int): nat
  {
    (y % 0x1000) * 0x1000 + x % 0x1000
  }

  /** The classic frame: the velocity goes into bytes 4-6 little-endian; no scroll is written. */
  function ClassicFrame(m: MouseMap): seq<byte>
  {
    var x := Substitute(m.xMove, CLASSIC_MOVE_BOUND);
    var y := Substitute(m.yMove, CLASSIC_MOVE_BOUND);
    var v := ClassicVelocity(x, y);
    [0x00, 0xC2, ClickCode(m.leftClick, m.rightClick), 0x00,
     v % 0x100, v / 0x100 % 0x100, v / 0x1_0000 % 0x100,
     0x00, 0x00, 0x00]
  }

  /** The lightspeed frame: x and y big-endian in bytes 3-4 and 5-6, vertical scroll in byte 7. */
  function LightspeedFrame(m: MouseMap): seq<byte>
  {
    var x := Substitute(m.xMove, LIGHTSPEED_MOVE_BOUND);
    var y := Substitute(m.yMove, LIGHTSPEED_MOVE_BOUND);
    [0x02, ClickCode(m.leftClick, m.rightClick), 0x00,
     HighByte16(x), LowByte(x), HighByte16(y), LowByte(y),
     LowByte(m.scrollV), 0x00]
  }

  /** A receiver's reading of the click byte. */
  function DecodeClicks(b: byte): (bool, bool)
  {
    if b == 1 then (true, false)
    else if b == 2 then (false, true)
    else if b == 3 then (true, true)
    else (false, false)
  }

  /** The 24-bit velocity field of a classic frame, least significant byte first. */
  function ClassicPackedVelocity(frame: seq<byte>): nat
    requires |frame| >= 7
  {
    frame[4] as int + 0x100 * (frame[5] as int) + 0x1_0000 * (frame[6] as int)
  }

  /** The two signed 12-bit movements of a classic frame: x in the low bits, y in the high bits. */
  function ClassicMovement(frame: seq<byte>): (int, int)
    requires |frame| >= 7
  {
    var v := ClassicPackedVelocity(frame);
    (SignExtend12(v % 0x1000), SignExtend12(v / 0x1000 % 0x1000))
  }

  /** What survives of v in a signed 12-bit field. */
  function Wrap12(v: int): int
  {
    SignExtend12(v % 0x1000)
  }

  /** The two signed 16-bit movements of a lightspeed frame. */
  function LightspeedMovement(frame: seq<byte>): (int16, int16)
    requires |frame| >= 7
  {
    (SignedBigEndian16(frame[3], frame[4]), SignedBigEndian16(frame[5], frame[6]))
  }

  lemma SubstituteBelowBound(v: int16, bound: int16)
    requires 0 <= bound && v <= bound
    ensures Substitute(v, bound) == v
  {
  }

  /** Above the bound the result is `bound - v`, a negative value, not a two's-complement wrap. */
  lemma SubstituteAboveBound(v: int16, bound: int16)
    requires 0 <= bound < v
    ensures Substitute(v, bound) == bound - v < 0
  {
  }

  /** Decoding the click byte gives back both buttons, for all four combinations. */
  lemma ClickCodeRoundTrip(leftClick: bool, rightClick: bool)
    ensures DecodeClicks(ClickCode(leftClick, rightClick)) == (leftClick, rightClick)
    ensures ClickCode(leftClick, rightClick) == (if leftClick then 1 else 0) + (if rightClick then 2 else 0)
  {
  }

  /** Length 10, byte 0 is 0x00, byte 1 is 0xC2, byte 3 and bytes 7-9 are zero. */
  lemma ClassicFrameLayout(m: MouseMap)
    ensures var f := ClassicFrame(m);
      && |f| == CLASSIC_FRAME_LENGTH
      && f[0] == 0x00 && f[1] == 0xC2 && f[2] == ClickCode(m.leftClick, m.rightClick)
      && f[3] == 0x00 && f[7] == 0x00 && f[8] == 0x00 && f[9] == 0x00
  {
  }

  /** Two 12-bit fields packed high-then-low come apart again. */
  lemma Unpack12(lo: int, hi: int)
    requires 0 <= lo < 0x1000 && 0 <= hi < 0x1000
    ensures (hi * 0x1000 + lo) % 0x1000 == lo
    ensures (hi * 0x1000 + lo) / 0x1000 == hi
    ensures hi * 0x1000 + lo < 0x100_0000
  {
  }

  /** Within the signed 12-bit range a value wraps to itself. */
  lemma Wrap12Exact(v: int)
    requires -0x800 <= v < 0x800
    ensures Wrap12(v) == v
  {
    if v < 0 {
      assert v % 0x1000 == v + 0x1000;
    }
  }

  /** Bytes 4-6 of a classic frame read back as the packed velocity. */
  lemma ClassicVelocityBytes(m: MouseMap)
    ensures ClassicPackedVelocity(ClassicFrame(m))
         == ClassicVelocity(Substitute(m.xMove, CLASSIC_MOVE_BOUND), Substitute(m.yMove, CLASSIC_MOVE_BOUND))
  {
    var v := ClassicVelocity(Substitute(m.xMove, CLASSIC_MOVE_BOUND), Substitute(m.yMove, CLASSIC_MOVE_BOUND));
    var f := ClassicFrame(m);
    Unpack12(Substitute(m.xMove, CLASSIC_MOVE_BOUND) % 0x1000, Substitute(m.yMove, CLASSIC_MOVE_BOUND) % 0x1000);
    Split24(v);
    assert f[4] as int == v % 0x100 && f[5] as int == v / 0x100 % 0x100 && f[6] as int == v / 0x1_0000 % 0x100;
  }

  /**
   * Bytes 4-6 of a classic frame are the little-endian 24-bit value
   * `(y & 0xFFF) << 12 | (x & 0xFFF)` of the substituted movements, so the frame
   * decodes to their 12-bit wraps.
   */
  lemma ClassicVelocityField(m: MouseMap)
    ensures var x := Substitute(m.xMove, CLASSIC_MOVE_BOUND);
      var y := Substitute(m.yMove, CLASSIC_MOVE_BOUND);
      && ClassicPackedVelocity(ClassicFrame(m)) == (y % 0x1000) * 0x1000 + x % 0x1000
      && ClassicMovement(ClassicFrame(m)) == (Wrap12(x), Wrap12(y))
  {
    var x := Substitute(m.xMove, CLASSIC_MOVE_BOUND);
    var y := Substitute(m.yMove, CLASSIC_MOVE_BOUND);
    var lo, hi := x % 0x1000, y % 0x1000;
    ClassicVelocityBytes(m);
    Unpack12(lo, hi);
    var v := ClassicPackedVelocity(ClassicFrame(m));
    assert v % 0x1000 == lo && v / 0x1000 % 0x1000 == hi;
  }

  /** Within -2048..1000 the classic frame carries the movements exactly. */
  lemma ClassicRoundTrip(m: MouseMap)
    requires -0x800 <= m.xMove <= CLASSIC_MOVE_BOUND && -0x800 <= m.yMove <= CLASSIC_MOVE_BOUND
    ensures ClassicMovement(ClassicFrame(m)) == (m.xMove as int, m.yMove as int)
    ensures DecodeClicks(ClassicFrame(m)[2]) == (m.leftClick, m.rightClick)
  {
    ClassicVelocityField(m);
    SubstituteBelowBound(m.xMove, CLASSIC_MOVE_BOUND);
    SubstituteBelowBound(m.yMove, CLASSIC_MOVE_BOUND);
    Wrap12Exact(m.xMove as int);
    Wrap12Exact(m.yMove as int);
    ClickCodeRoundTrip(m.leftClick, m.rightClick);
  }

  /**
   * Length 9: byte 0 is 0x02, byte 1 the click code, byte 2 zero, bytes 3-4 and
   * 5-6 the substituted x and y big-endian, byte 7 the vertical scroll, byte 8 zero.
   */
  lemma LightspeedFrameLayout(m: MouseMap)
    ensures var f := LightspeedFrame(m);
      && |f| == LIGHTSPEED_FRAME_LENGTH
      && f[0] == 0x02 && f[1] == ClickCode(m.leftClick, m.rightClick) && f[2] == 0x00 && f[8] == 0x00
      && LightspeedMovement(f) == (Substitute(m.xMove, LIGHTSPEED_MOVE_BOUND), Substitute(m.yMove, LIGHTSPEED_MOVE_BOUND))
      && f[7] == LowByte(m.scrollV)
  {
    BigEndian16RoundTrip(Substitute(m.xMove, LIGHTSPEED_MOVE_BOUND));
    BigEndian16RoundTrip(Substitute(m.yMove, LIGHTSPEED_MOVE_BOUND));
  }

  /** At or below 16383 the lightspeed frame carries the movements exactly. */
  lemma LightspeedRoundTrip(m: MouseMap)
    requires m.xMove <= LIGHTSPEED_MOVE_BOUND && m.yMove <= LIGHTSPEED_MOVE_BOUND
    ensures LightspeedMovement(LightspeedFrame(m)) == (m.xMove, m.yMove)
    ensures DecodeClicks(LightspeedFrame(m)[1]) == (m.leftClick, m.rightClick)
  {
    LightspeedFrameLayout(m);
    ClickCodeRoundTrip(m.leftClick, m.rightClick);
  }

  /** One unit above the classic bound, x = 1001 is sent as -1. */
  lemma ClassicJustAboveBound(m: MouseMap)
    requires m.xMove == CLASSIC_MOVE_BOUND + 1
    ensures ClassicMovement(ClassicFrame(m)).0 == -1
  {
    ClassicVelocityField(m);
  }
}
