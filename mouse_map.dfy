/**
 * The classic HID mouse packer of logitacker_mouse_map.c. The C function fills a
 * local 10-byte array and returns its first four bytes reinterpreted as a
 * little-endian `uint32_t`; it has no other state, so it is modelled as pure
 * functions over the buffer.
 */
module MouseMapReport {
  import opened Wire

  /** `mouse_payload[2]` after `if (leftClick) ... = 1; if (rightClick) ... |= 1 << 1;`. */
  function ClickByte(leftClick: bool, rightClick: bool): byte
  {
    var afterLeft: bv8 := if leftClick then 1 else 0;
    var afterRight: bv8 := if rightClick then afterLeft | 2 else afterLeft;
    afterRight as int
  }

  /**
   * `((uint32_t)y_move & 0xFFF) << 12 | (x_move & 0xFFF)`: the two masked 12-bit
   * fields occupy disjoint bits, so the OR is a sum.
   */
  function CursorVelocity(xMove: uint16, yMove: uint16): nat
  {
    (yMove % 0x1000) * 0x1000 + xMove % 0x1000
  }

  /** The 10-byte buffer: velocity stored by a 3-byte little-endian `memcpy` at offset 4, scrolls at 7 and 8. */
  function HidReportBuffer(xMove: uint16, yMove: uint16, scrollV: byte, scrollH: byte,
                           leftClick: bool, rightClick: bool): seq<byte>
  {
    var v := CursorVelocity(xMove, yMove);
    [0x00, 0xC2, ClickByte(leftClick, rightClick), 0x00,
     v % 0x100, v / 0x100 % 0x100, v / 0x1_0000 % 0x100,
     scrollV, scrollH, 0x00]
  }

  /** `logitacker_mouse_map_to_hid_report`: bytes 0-3 of the buffer read as a little-endian `uint32_t`. */
  function ToHidReport(xMove: uint16, yMove: uint16, scrollV: byte, scrollH: byte,
                       leftClick: bool, rightClick: bool): (r: uint32)
    ensures r == 0xC200 + 0x1_0000 * ((if leftClick then 1 else 0) + (if rightClick then 2 else 0))
  {
    var buf := HidReportBuffer(xMove, yMove, scrollV, scrollH, leftClick, rightClick);
    ClickByteBits(leftClick, rightClick);
    LittleEndianFour(buf[..4]);
    LittleEndian(buf[..4])
  }

  lemma LittleEndianFour(s: seq<byte>)
    requires |s| == 4
    ensures LittleEndian(s) == s[0] as int + 0x100 * (s[1] as int) + 0x1_0000 * (s[2] as int) + 0x100_0000 * (s[3] as int)
  {
    LittleEndianThree(s[1..]);
  }

  lemma LittleEndianThree(s: seq<byte>)
    requires |s| == 3
    ensures LittleEndian(s) == s[0] as int + 0x100 * (s[1] as int) + 0x1_0000 * (s[2] as int)
  {
    assert s[1..][1..][1..] == [];
    assert LittleEndian(s[2..]) == s[2];
  }

  /** Bit 0 of byte 2 is the left button and bit 1 the right button; both set gives 3. */
  lemma ClickByteBits(leftClick: bool, rightClick: bool)
    ensures ClickByte(leftClick, rightClick) == (if leftClick then 1 else 0) + (if rightClick then 2 else 0)
    ensures ClickByte(leftClick, rightClick) % 2 == (if leftClick then 1 else 0)
    ensures ClickByte(leftClick, rightClick) / 2 == (if rightClick then 1 else 0)
  {
  }

  /** The fixed bytes, the click bits and the scroll bytes of the buffer. */
  lemma HidReportBufferLayout(xMove: uint16, yMove: uint16, scrollV: byte, scrollH: byte,
                              leftClick: bool, rightClick: bool)
    ensures var buf := HidReportBuffer(xMove, yMove, scrollV, scrollH, leftClick, rightClick);
      && |buf| == 10
      && buf[0] == 0x00 && buf[1] == 0xC2 && buf[3] == 0x00 && buf[9] == 0x00
      && buf[2] == (if leftClick then 1 else 0) + (if rightClick then 2 else 0)
      && buf[7] == scrollV && buf[8] == scrollH
  {
    ClickByteBits(leftClick, rightClick);
  }

  /**
   * Bytes 4-6 hold the 24-bit little-endian value whose low 12 bits are x and
   * whose high 12 bits are y, each reduced modulo 4096 (no overflow substitution).
   */
  lemma HidReportVelocity(xMove: uint16, yMove: uint16, scrollV: byte, scrollH: byte,
                          leftClick: bool, rightClick: bool)
    ensures var buf := HidReportBuffer(xMove, yMove, scrollV, scrollH, leftClick, rightClick);
      && LittleEndian(buf[4..7]) == (yMove % 0x1000) * 0x1000 + xMove % 0x1000
      && LittleEndian(buf[4..7]) % 0x1000 == xMove % 0x1000
      && LittleEndian(buf[4..7]) / 0x1000 == yMove % 0x1000
  {
    var buf := HidReportBuffer(xMove, yMove, scrollV, scrollH, leftClick, rightClick);
    var v := CursorVelocity(xMove, yMove);
    assert v < 0x100_0000;
    LittleEndianThree(buf[4..7]);
    assert buf[4..7] == [v % 0x100, v / 0x100 % 0x100, v / 0x1_0000 % 0x100];
    Split24(v);
  }

  /** Movements that differ by a multiple of 4096 give the same buffer. */
  lemma HidReportBufferPeriodic(x1: uint16, x2: uint16, y1: uint16, y2: uint16,
                                scrollV: byte, scrollH: byte, leftClick: bool, rightClick: bool)
    requires (x1 - x2) % 0x1000 == 0 && (y1 - y2) % 0x1000 == 0
    ensures HidReportBuffer(x1, y1, scrollV, scrollH, leftClick, rightClick)
         == HidReportBuffer(x2, y2, scrollV, scrollH, leftClick, rightClick)
  {
    assert x1 % 0x1000 == x2 % 0x1000;
    assert y1 % 0x1000 == y2 % 0x1000;
  }
}
