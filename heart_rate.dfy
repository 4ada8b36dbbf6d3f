/**
 * The Heart Rate Measurement characteristic (UUID 0x2A37) of the Bluetooth
 * Heart Rate Service, as decoded by `parse_heart_rate`: a Flags byte whose
 * bit 0 (Heart Rate Value Format) selects a UINT8 value at offset 1 or a
 * little-endian UINT16 value at offsets 1 and 2. Nothing else in the payload
 * is interpreted.
 */
module HeartRateMeasurement {
  import opened Wrappers

  /** An element of the payload: Python reads a `bytearray` as ints in 0..255. */
  type byte = x: int | 0 <= x < 0x100

  /** Bit 0 of the Flags field: set when the heart-rate value is a UINT16. */
  predicate IsUint16Format(flags: byte) {
    flags % 2 == 1
  }

  /** Number of bytes the heart-rate value occupies after the Flags byte. */
  function ValueWidth(flags: byte): (w: nat)
    ensures w == 1 || w == 2
  {
    if IsUint16Format(flags) then 2 else 1
  }

  /** `struct.unpack("<H", b)`: two bytes read least significant first. */
  function UnpackUint16Le(b: seq<byte>): (v: nat)
    requires |b| == 2
    ensures v < 0x1_0000
    ensures v % 0x100 == b[0] && v / 0x100 == b[1]
  {
    b[0] as int + 0x100 * b[1] as int
  }

  /** The inverse of `UnpackUint16Le`: a 16-bit value as two little-endian bytes. */
  function PackUint16Le(v: nat): (b: seq<byte>)
    requires v < 0x1_0000
    ensures |b| == 2 && UnpackUint16Le(b) == v
  {
    [v % 0x100, v / 0x100]
  }

  lemma PackUnpack(b: seq<byte>)
    requires |b| == 2
    ensures PackUint16Le(UnpackUint16Le(b)) == b
  {
  }

  /**
   * `parse_heart_rate`: the beats-per-minute value of a notification payload,
   * or `None` when the payload is too short for the format its Flags announce.
   */
  function ParseHeartRate(data: seq<byte>): (r: Option<nat>)
    ensures r.None? <==> |data| < 2 || (IsUint16Format(data[0]) && |data| < 3)
    ensures r.Some? ==> r.value < 0x1_0000
    ensures r.Some? && !IsUint16Format(data[0]) ==> r.value < 0x100
  {
    if |data| < 2 then
      None
    else if IsUint16Format(data[0]) then
      if |data| >= 3 then Some(UnpackUint16Le(data[1..3])) else None
    else
      Some(data[1])
  }

  lemma ShortPayloadHasNoValue(data: seq<byte>)
    requires |data| < 2
    ensures ParseHeartRate(data) == None
  {
  }

  lemma Uint16Value(data: seq<byte>)
    requires |data| >= 2 && IsUint16Format(data[0])
    ensures |data| == 2 ==> ParseHeartRate(data) == None
    ensures |data| >= 3 ==> ParseHeartRate(data) == Some(data[1] as int + 256 * data[2] as int)
  {
  }

  lemma Uint8Value(data: seq<byte>)
    requires |data| >= 2 && !IsUint16Format(data[0])
    ensures ParseHeartRate(data) == Some(data[1])
  {
  }

  /** Only bit 0 of the Flags byte matters: the other flag bits may be anything. */
  lemma OtherFlagsIgnored(data: seq<byte>, flags: byte)
    requires |data| >= 1
    requires flags % 2 == data[0] % 2
    ensures ParseHeartRate([flags] + data[1..]) == ParseHeartRate(data)
  {
  }

  /** Bytes after the heart-rate value (energy expended, RR intervals) are never read. */
  lemma TrailingBytesIgnored(data: seq<byte>, tail: seq<byte>)
    requires ParseHeartRate(data).Some?
    ensures ParseHeartRate(data + tail) == ParseHeartRate(data)
  {
  }

  /** A measurement built from a Flags byte, a heart-rate value and any trailing fields. */
  function EncodeMeasurement(flags: byte, bpm: nat, tail: seq<byte>): (data: seq<byte>)
    requires bpm < if IsUint16Format(flags) then 0x1_0000 else 0x100
    ensures |data| == 1 + ValueWidth(flags) + |tail|
    ensures data[0] == flags
  {
    [flags] + (if IsUint16Format(flags) then PackUint16Le(bpm) else [bpm]) + tail
  }

  /** Decoding recovers the value that was encoded, whatever the other flags and the tail. */
  lemma DecodeEncode(flags: byte, bpm: nat, tail: seq<byte>)
    requires bpm < if IsUint16Format(flags) then 0x1_0000 else 0x100
    ensures ParseHeartRate(EncodeMeasurement(flags, bpm, tail)) == Some(bpm)
  {
  }

  /** Every payload that decodes is the encoding of its Flags, its value and its tail. */
  lemma EncodeDecode(data: seq<byte>)
    requires ParseHeartRate(data).Some?
    ensures var end := 1 + ValueWidth(data[0]);
      end <= |data| && data == EncodeMeasurement(data[0], ParseHeartRate(data).value, data[end..])
  {
  }
}
