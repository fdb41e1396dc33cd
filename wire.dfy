/** Machine integers, optional values and the ESB radio payload record shared by the firmware modules. */
module Wire {

  type byte = x: int | 0 <= x < 0x100
  type int8 = x: int | -0x80 <= x < 0x80
  type int16 = x: int | -0x8000 <= x < 0x8000
  type uint16 = x: int | 0 <= x < 0x1_0000
  type uint32 = x: int | 0 <= x < 0x1_0000_0000

  datatype Option<+T> = None | Some(value: T)

  /** The low 8 bits of a two's-complement value: what a C assignment to `uint8_t` keeps. */
  function LowByte(v: int): byte
  {
    v % 0x100
  }

  /** Reads two bytes, most significant first, as a signed 16-bit value. */
  function SignedBigEndian16(hi: byte, lo: byte): int16
  {
    var u := hi * 0x100 + lo;
    if u >= 0x8000 then u - 0x1_0000 else u
  }

  /** Bits 8-15 of a two's-complement value: `(v & 0xFF00) >> 8`, or the first byte of `to_be_bytes`. */
  function HighByte16(v: int): byte
  {
    v % 0x1_0000 / 0x100
  }

  /** The two bytes of a 16-bit value, most significant first, read back as the value itself. */
  lemma BigEndian16RoundTrip(v: int16)
    ensures SignedBigEndian16(HighByte16(v), LowByte(v)) == v
  {
    var u := v % 0x1_0000;
    assert u / 0x100 * 0x100 + u % 0x100 == u;
    assert u % 0x100 == v % 0x100;
    assert v >= 0 ==> u == v;
    assert v < 0 ==> u == v + 0x1_0000;
  }

  /** Reads a 12-bit field as a two's-complement signed value. */
  function SignExtend12(u: int): int
    requires 0 <= u < 0x1000
  {
    if u >= 0x800 then u - 0x1000 else u
  }

  /** Reads bytes least significant first (the byte order of the nRF52 target). */
  function LittleEndian(s: seq<byte>): nat
  {
    if s == [] then 0 else s[0] + 0x100 * LittleEndian(s[1..])
  }

  /** The three bytes of a 24-bit value, least significant first, add back up to it. */
  lemma Split24(v: nat)
    requires v < 0x100_0000
    ensures v % 0x100 + 0x100 * (v / 0x100 % 0x100) + 0x1_0000 * (v / 0x1_0000 % 0x100) == v
  {
    var a, b, c := v % 0x100, v / 0x100 % 0x100, v / 0x1_0000;
    assert v == a + 0x100 * (v / 0x100);
    assert v / 0x100 == b + 0x100 * c;
    assert c < 0x100;
  }

  /** Capacity of the data buffer of an `nrf_esb_payload_t`. */
  const ESB_PAYLOAD_CAPACITY: nat := 32

  type PayloadData = s: seq<byte> | |s| == ESB_PAYLOAD_CAPACITY
    witness seq(32, i => 0)

  /** `nrf_esb_payload_t`: the frame staged for the radio or the USB report writer. */
  datatype Payload = Payload(length: nat, pipe: nat, data: PayloadData)

  /** The payload after `memset(&payload, 0, sizeof(payload))`. */
  function ZeroPayload(): Payload
  {
    Payload(0, 0, seq(ESB_PAYLOAD_CAPACITY, i => 0))
  }

  /** A provider's write of a frame: `memcpy` into the data buffer, then length and pipe 0. */
  function WriteFrame(p: Payload, frame: seq<byte>): (q: Payload)
    requires |frame| <= ESB_PAYLOAD_CAPACITY
    ensures q.length == |frame| && q.pipe == 0
    ensures q.data[..|frame|] == frame && q.data[|frame|..] == p.data[|frame|..]
  {
    Payload(|frame|, 0, frame + p.data[|frame|..])
  }
}
