/**
 * The wire representation of the shutdown command's single field.
 *
 * `ExitMessage(val exitCode: Int)` carries a Kotlin `Int`, a signed 32-bit
 * integer. The transport serialises it with its own codec, which is not part
 * of this model; in its place this module fixes a four-byte, big-endian,
 * two's-complement encoding and proves that it round-trips every 32-bit
 * value, negative ones and zero included.
 */
module Int32Wire {

  newtype int32 = x: int | -0x8000_0000 <= x < 0x8000_0000
  newtype uint8 = x: int | 0 <= x < 0x100

  datatype Option<+T> = None | Some(value: T)

  const TWO_POW_32: int := 0x1_0000_0000

  /** The two's-complement bit pattern of `v`, read as an unsigned number. */
  function Unsigned(v: int32): (u: int)
    ensures 0 <= u < TWO_POW_32
    ensures (u - v as int) % TWO_POW_32 == 0
    ensures v >= 0 <==> u < 0x8000_0000
  {
    if v < 0 then v as int + TWO_POW_32 else v as int
  }

  /** The signed value whose bit pattern is the unsigned number `u`. */
  function Signed(u: int): (v: int32)
    requires 0 <= u < TWO_POW_32
    ensures Unsigned(v) == u
  {
    if u < 0x8000_0000 then u as int32 else (u - TWO_POW_32) as int32
  }

  /** Most significant byte first. */
  function EncodeInt32(v: int32): (b: seq<uint8>)
    ensures |b| == 4
  {
    var u := Unsigned(v);
    var q1 := u / 0x100;
    var q2 := q1 / 0x100;
    var q3 := q2 / 0x100;
    [q3 as uint8, (q2 % 0x100) as uint8, (q1 % 0x100) as uint8, (u % 0x100) as uint8]
  }

  /** The number whose big-endian bytes are `b`. */
  function BigEndian(b: seq<uint8>): (u: int)
    requires |b| == 4
    ensures 0 <= u < TWO_POW_32
  {
    ((b[0] as int * 0x100 + b[1] as int) * 0x100 + b[2] as int) * 0x100 + b[3] as int
  }

  /** Any payload that is not exactly four bytes long is malformed. */
  function DecodeInt32(b: seq<uint8>): (r: Option<int32>)
    ensures r.Some? <==> |b| == 4
  {
    if |b| != 4 then None else Some(Signed(BigEndian(b)))
  }

  lemma DecodeEncodeInt32(v: int32)
    ensures DecodeInt32(EncodeInt32(v)) == Some(v)
  {
    var u := Unsigned(v);
    var q1 := u / 0x100;
    var q2 := q1 / 0x100;
    var q3 := q2 / 0x100;
    assert u == q1 * 0x100 + u % 0x100;
    assert q1 == q2 * 0x100 + q1 % 0x100;
    assert q2 == q3 * 0x100 + q2 % 0x100;
    assert BigEndian(EncodeInt32(v)) == u;
    assert Unsigned(Signed(u)) == u;
  }

  lemma EncodeDecodeInt32(b: seq<uint8>)
    requires |b| == 4
    ensures EncodeInt32(DecodeInt32(b).value) == b
  {
    var u := BigEndian(b);
    var q2 := b[0] as int * 0x100 + b[1] as int;
    var q1 := q2 * 0x100 + b[2] as int;
    assert u == q1 * 0x100 + b[3] as int;
    assert u / 0x100 == q1 && u % 0x100 == b[3] as int;
    assert q1 / 0x100 == q2 && q1 % 0x100 == b[2] as int;
    assert q2 / 0x100 == b[0] as int && q2 % 0x100 == b[1] as int;
    assert Unsigned(Signed(u)) == u;
  }
}
