/**
 * The 32-bit status code (`OSStatus`) and its byte layout.
 *
 * `OSStatus` is a signed 32-bit integer. `CheckError` stores it into a char
 * buffer through `CFSwapInt32HostToBig`, which puts the two's-complement bits
 * of the value in memory most-significant byte first, whatever the host's byte
 * order. This module gives that layout as a function and proves that it can be
 * read back.
 */
module Status {

  const TwoTo32: int := 0x1_0000_0000

  /** `OSStatus`: a signed 32-bit integer. */
  newtype int32 = x: int | -0x8000_0000 <= x < 0x8000_0000

  /** `UInt32`, the type the status is reinterpreted as for the store. */
  newtype uint32 = x: int | 0 <= x < 0x1_0000_0000

  /** One byte of memory, as an unsigned value. */
  newtype byte = x: int | 0 <= x < 256

  /** `noErr`: the status that means success. */
  const NoErr: int32 := 0

  /** The bits of a signed status read as unsigned (the cast to `UInt32`). */
  function ToUInt32(e: int32): (u: uint32)
    ensures (u as int - e as int) % TwoTo32 == 0
    ensures e >= 0 ==> u as int == e as int
  {
    if e < 0 then (e as int + TwoTo32) as uint32 else e as uint32
  }

  /** The bits of an unsigned word read back as a signed status. */
  function FromUInt32(u: uint32): (e: int32)
    ensures (u as int - e as int) % TwoTo32 == 0
    ensures u < 0x8000_0000 ==> e as int == u as int
  {
    if u >= 0x8000_0000 then (u as int - TwoTo32) as int32 else u as int32
  }

  /**
   * The four bytes that the store at `errorString + 1` puts in memory, in
   * address order: the most significant byte of the status comes first, so
   * reassembling them in that order gives back the status's unsigned bits.
   */
  function StatusBytes(e: int32): (b: seq<byte>)
    ensures |b| == 4
    ensures BigEndianValue(b) == ToUInt32(e)
  {
    var u := ToUInt32(e) as int;
    var q1 := u / 256;
    var q2 := q1 / 256;
    assert u == q1 * 256 + u % 256;
    assert q1 == q2 * 256 + q1 % 256;
    assert q2 == (q2 / 256) * 256 + q2 % 256;
    assert u / 0x1_0000 == q2;
    assert u / 0x100_0000 == q2 / 256;
    [(u / 0x100_0000) as byte, (u / 0x1_0000 % 256) as byte, (u / 0x100 % 256) as byte, (u % 256) as byte]
  }

  /** Reassembles four bytes, the first one the most significant. */
  function BigEndianValue(b: seq<byte>): (u: uint32)
    requires |b| == 4
  {
    (((b[0] as int * 256 + b[1] as int) * 256 + b[2] as int) * 256 + b[3] as int) as uint32
  }

  /** The signed value survives the round trip through its unsigned bits. */
  lemma SignedRoundTrip(e: int32)
    ensures FromUInt32(ToUInt32(e)) == e
  {
  }

  /** The status is recovered from its four stored bytes. */
  lemma StatusFromBytes(e: int32)
    ensures FromUInt32(BigEndianValue(StatusBytes(e))) == e
  {
    SignedRoundTrip(e);
  }

  /**
   * If the first stored byte is below 0x80 the status is not negative, and it
   * is at least the first byte times 2^24.
   */
  lemma LeadingByteBoundsStatus(e: int32)
    ensures StatusBytes(e)[0] < 0x80 ==> e >= 0
    ensures StatusBytes(e)[0] < 0x80 ==> e as int >= StatusBytes(e)[0] as int * 0x100_0000
  {
  }
}
