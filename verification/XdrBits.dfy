/**
 Bytes and machine words as `Xdr` splits and joins them (backend/include/OpenEXR/ImfXdr.h): the
 shifts, masks, casts and sign extensions of the C++ code on bit vectors, and what they mean as
 numbers.  A signed word is carried by its two's-complement bits.
 */
module XdrBits {

  type byte = bv8

  /** The number a byte string stands for when its least significant byte comes first. */
  function LittleEndian(b: seq<byte>): nat {
    if b == [] then 0 else b[0] as nat + 256 * LittleEndian(b[1..])
  }

  // ---------------------------------------------------------------------------------------------
  // 16-bit words
  // ---------------------------------------------------------------------------------------------

  /** The cast of a word to (signed or unsigned) char: its low byte. */
  function Low16(x: bv16): byte {
    (x & 0xff) as bv8
  }

  function BytesU16(v: bv16): seq<byte> {
    [Low16(v), Low16(v >> 8)]
  }

  /** Integer promotion of a signed short. */
  function Promote16(v: bv16): bv32 {
    if v & 0x8000 != 0 then (v as bv32) | 0xffff_0000 else v as bv32
  }

  /** The promoted short shifted right, which fills with the sign. */
  function BytesS16(v: bv16): seq<byte> {
    var i := Promote16(v);
    [Low32(i), Low32(ShiftRight32(i, 1))]
  }

  function OfU16(b: seq<byte>): bv16
    requires |b| == 2
  {
    ((b[0] as bv16) & 0x00ff) |
    ((b[1] as bv16) << 8)
  }

  lemma PromotionIsCutOff(v: bv16)
    ensures Low32(Promote16(v)) == Low16(v)
    ensures Low32(ShiftRight32(Promote16(v), 1)) == Low16(v >> 8)
  {
  }

  lemma SignedBytes16(v: bv16)
    ensures BytesS16(v) == BytesU16(v)
  {
    PromotionIsCutOff(v);
  }

  lemma JoinOfSplit16(v: bv16)
    ensures (((Low16(v) as bv16) & 0x00ff) |
             ((Low16(v >> 8) as bv16) << 8)) == v
  {
  }

  /** Splitting and joining are inverse, both ways: every byte string is the bytes of one word. */
  lemma Inverse16(v: bv16, b: seq<byte>)
    requires |b| == 2
    ensures OfU16(BytesU16(v)) == v
    ensures BytesU16(OfU16(b)) == b
  {
    JoinOfSplit16(v);
  }

  lemma JoinAsNumber16(b0: byte, b1: byte)
    ensures (((b0 as bv16) & 0x00ff) |
             ((b1 as bv16) << 8)) as int ==
            b0 as int + 0x100 * (b1 as int)
  {
  }

  /** The joined word is the little-endian value of its bytes. */
  lemma JoinIsLittleEndian16(b: seq<byte>)
    requires |b| == 2
    ensures OfU16(b) as int == LittleEndian(b)
  {
    JoinAsNumber16(b[0], b[1]);
    Unfold2(b);
  }

  lemma Unfold2(b: seq<byte>)
    requires |b| >= 2
    ensures LittleEndian(b) == b[0] as int + 0x100 * (b[1] as int) + 0x10000 * LittleEndian(b[2..])
  {
    assert b[1..][1..] == b[2..];
  }

  // ---------------------------------------------------------------------------------------------
  // 32-bit words
  // ---------------------------------------------------------------------------------------------

  /** The cast of a word to (signed or unsigned) char: its low byte. */
  function Low32(x: bv32): byte {
    (x & 0xff) as bv8
  }

  function BytesU32(v: bv32): seq<byte> {
    [Low32(v), Low32(v >> 8), Low32(v >> 16), Low32(v >> 24)]
  }

  /** `v >> 8 * k` on a signed word: the sign fills from the left. */
  function ShiftRight32(x: bv32, k: nat): bv32
    requires k < 4
  {
    var negative := x & 0x8000_0000 != 0;
    match k
    case 0 => x
    case 1 => if negative then !(!x >> 8) else x >> 8
    case 2 => if negative then !(!x >> 16) else x >> 16
    case _ => if negative then !(!x >> 24) else x >> 24
  }

  function BytesS32(v: bv32): seq<byte> {
    [Low32(v), Low32(ShiftRight32(v, 1)), Low32(ShiftRight32(v, 2)), Low32(ShiftRight32(v, 3))]
  }

  function OfU32(b: seq<byte>): bv32
    requires |b| == 4
  {
    ((b[0] as bv32) & 0x000000ff) |
    (((b[1] as bv32) << 8) & 0x0000ff00) |
    (((b[2] as bv32) << 16) & 0x00ff0000) |
    ((b[3] as bv32) << 24)
  }

  lemma ShiftFillIsCutOff32(v: bv32)
    ensures Low32(ShiftRight32(v, 1)) == Low32(v >> 8)
    ensures Low32(ShiftRight32(v, 2)) == Low32(v >> 16)
    ensures Low32(ShiftRight32(v, 3)) == Low32(v >> 24)
  {
  }

  lemma SignedBytes32(v: bv32)
    ensures BytesS32(v) == BytesU32(v)
  {
    ShiftFillIsCutOff32(v);
  }

  lemma JoinOfSplit32(v: bv32)
    ensures (((Low32(v) as bv32) & 0x000000ff) |
             (((Low32(v >> 8) as bv32) << 8) & 0x0000ff00) |
             (((Low32(v >> 16) as bv32) << 16) & 0x00ff0000) |
             ((Low32(v >> 24) as bv32) << 24)) == v
  {
  }

  /** Splitting and joining are inverse, both ways: every byte string is the bytes of one word. */
  lemma Inverse32(v: bv32, b: seq<byte>)
    requires |b| == 4
    ensures OfU32(BytesU32(v)) == v
    ensures BytesU32(OfU32(b)) == b
  {
    JoinOfSplit32(v);
  }

  lemma JoinAsNumber32(b0: byte, b1: byte, b2: byte, b3: byte)
    ensures (((b0 as bv32) & 0x000000ff) |
             (((b1 as bv32) << 8) & 0x0000ff00) |
             (((b2 as bv32) << 16) & 0x00ff0000) |
             ((b3 as bv32) << 24)) as int ==
            b0 as int + 0x100 * (b1 as int) + 0x10000 * (b2 as int) + 0x1000000 * (b3 as int)
  {
  }

  /** The joined word is the little-endian value of its bytes. */
  lemma JoinIsLittleEndian32(b: seq<byte>)
    requires |b| == 4
    ensures OfU32(b) as int == LittleEndian(b)
  {
    JoinAsNumber32(b[0], b[1], b[2], b[3]);
    Unfold4(b);
  }

  lemma Unfold4(b: seq<byte>)
    requires |b| >= 4
    ensures LittleEndian(b) == b[0] as int + 0x100 * (b[1] as int) + 0x10000 * (b[2] as int)
                               + 0x1000000 * (b[3] as int) + 0x100000000 * LittleEndian(b[4..])
  {
    Unfold2(b);
    Unfold2(b[2..]);
    assert b[2..][2..] == b[4..];
  }

  // ---------------------------------------------------------------------------------------------
  // 64-bit words
  // ---------------------------------------------------------------------------------------------

  /** The cast of a word to (signed or unsigned) char: its low byte. */
  function Low64(x: bv64): byte {
    (x & 0xff) as bv8
  }

  function BytesU64(v: bv64): seq<byte> {
    [Low64(v), Low64(v >> 8), Low64(v >> 16), Low64(v >> 24),
     Low64(v >> 32), Low64(v >> 40), Low64(v >> 48), Low64(v >> 56)]
  }

  /** `v >> 8 * k` on a signed word: the sign fills from the left. */
  function ShiftRight64(x: bv64, k: nat): bv64
    requires k < 8
  {
    var negative := x & 0x8000_0000_0000_0000 != 0;
    match k
    case 0 => x
    case 1 => if negative then !(!x >> 8) else x >> 8
    case 2 => if negative then !(!x >> 16) else x >> 16
    case 3 => if negative then !(!x >> 24) else x >> 24
    case 4 => if negative then !(!x >> 32) else x >> 32
    case 5 => if negative then !(!x >> 40) else x >> 40
    case 6 => if negative then !(!x >> 48) else x >> 48
    case _ => if negative then !(!x >> 56) else x >> 56
  }

  function BytesS64(v: bv64): seq<byte> {
    [Low64(v), Low64(ShiftRight64(v, 1)), Low64(ShiftRight64(v, 2)), Low64(ShiftRight64(v, 3)),
     Low64(ShiftRight64(v, 4)), Low64(ShiftRight64(v, 5)), Low64(ShiftRight64(v, 6)), Low64(ShiftRight64(v, 7))]
  }

  function OfU64(b: seq<byte>): bv64
    requires |b| == 8
  {
    ((b[0] as bv64) & 0x00000000000000ff) |
    (((b[1] as bv64) << 8) & 0x000000000000ff00) |
    (((b[2] as bv64) << 16) & 0x0000000000ff0000) |
    (((b[3] as bv64) << 24) & 0x00000000ff000000) |
    (((b[4] as bv64) << 32) & 0x000000ff00000000) |
    (((b[5] as bv64) << 40) & 0x0000ff0000000000) |
    (((b[6] as bv64) << 48) & 0x00ff000000000000) |
    ((b[7] as bv64) << 56)
  }

  /** The cast of a signed char to a 64-bit integer. */
  function Extend(b: byte): bv64 {
    if b & 0x80 != 0 then (b as bv64) | 0xffff_ffff_ffff_ff00 else b as bv64
  }

  function OfS64(b: seq<byte>): bv64
    requires |b| == 8
  {
    (Extend(b[0]) & 0x00000000000000ff) |
    ((Extend(b[1]) << 8) & 0x000000000000ff00) |
    ((Extend(b[2]) << 16) & 0x0000000000ff0000) |
    ((Extend(b[3]) << 24) & 0x00000000ff000000) |
    ((Extend(b[4]) << 32) & 0x000000ff00000000) |
    ((Extend(b[5]) << 40) & 0x0000ff0000000000) |
    ((Extend(b[6]) << 48) & 0x00ff000000000000) |
    (Extend(b[7]) << 56)
  }

  lemma ExtendMaskedLow(b0: byte, b1: byte, b2: byte, b3: byte)
    ensures Extend(b0) & 0x00000000000000ff == (b0 as bv64) & 0x00000000000000ff
    ensures (Extend(b1) << 8) & 0x000000000000ff00 == ((b1 as bv64) << 8) & 0x000000000000ff00
    ensures (Extend(b2) << 16) & 0x0000000000ff0000 == ((b2 as bv64) << 16) & 0x0000000000ff0000
    ensures (Extend(b3) << 24) & 0x00000000ff000000 == ((b3 as bv64) << 24) & 0x00000000ff000000
  {
  }

  lemma ExtendMaskedHigh(b4: byte, b5: byte, b6: byte, b7: byte)
    ensures (Extend(b4) << 32) & 0x000000ff00000000 == ((b4 as bv64) << 32) & 0x000000ff00000000
    ensures (Extend(b5) << 40) & 0x0000ff0000000000 == ((b5 as bv64) << 40) & 0x0000ff0000000000
    ensures (Extend(b6) << 48) & 0x00ff000000000000 == ((b6 as bv64) << 48) & 0x00ff000000000000
    ensures (Extend(b7) << 56) == ((b7 as bv64) << 56)
  {
  }

  /** The masks cut the sign extension off again. */
  lemma SignedJoin64(b: seq<byte>)
    requires |b| == 8
    ensures OfS64(b) == OfU64(b)
  {
    ExtendMaskedLow(b[0], b[1], b[2], b[3]);
    ExtendMaskedHigh(b[4], b[5], b[6], b[7]);
  }

  lemma ShiftFillIsCutOff64(v: bv64)
    ensures Low64(ShiftRight64(v, 1)) == Low64(v >> 8)
    ensures Low64(ShiftRight64(v, 2)) == Low64(v >> 16)
    ensures Low64(ShiftRight64(v, 3)) == Low64(v >> 24)
    ensures Low64(ShiftRight64(v, 4)) == Low64(v >> 32)
    ensures Low64(ShiftRight64(v, 5)) == Low64(v >> 40)
    ensures Low64(ShiftRight64(v, 6)) == Low64(v >> 48)
    ensures Low64(ShiftRight64(v, 7)) == Low64(v >> 56)
  {
  }

  lemma SignedBytes64(v: bv64)
    ensures BytesS64(v) == BytesU64(v)
  {
    ShiftFillIsCutOff64(v);
  }

  lemma JoinOfSplit64(v: bv64)
    ensures (((Low64(v) as bv64) & 0x00000000000000ff) |
             (((Low64(v >> 8) as bv64) << 8) & 0x000000000000ff00) |
             (((Low64(v >> 16) as bv64) << 16) & 0x0000000000ff0000) |
             (((Low64(v >> 24) as bv64) << 24) & 0x00000000ff000000) |
             (((Low64(v >> 32) as bv64) << 32) & 0x000000ff00000000) |
             (((Low64(v >> 40) as bv64) << 40) & 0x0000ff0000000000) |
             (((Low64(v >> 48) as bv64) << 48) & 0x00ff000000000000) |
             ((Low64(v >> 56) as bv64) << 56)) == v
  {
  }

  /** Splitting and joining are inverse, both ways: every byte string is the bytes of one word. */
  lemma Inverse64(v: bv64, b: seq<byte>)
    requires |b| == 8
    ensures OfU64(BytesU64(v)) == v
    ensures BytesU64(OfU64(b)) == b
  {
    JoinOfSplit64(v);
  }

  lemma JoinAsNumber64(b0: byte, b1: byte, b2: byte, b3: byte, b4: byte, b5: byte, b6: byte, b7: byte)
    ensures (((b0 as bv64) & 0x00000000000000ff) |
             (((b1 as bv64) << 8) & 0x000000000000ff00) |
             (((b2 as bv64) << 16) & 0x0000000000ff0000) |
             (((b3 as bv64) << 24) & 0x00000000ff000000) |
             (((b4 as bv64) << 32) & 0x000000ff00000000) |
             (((b5 as bv64) << 40) & 0x0000ff0000000000) |
             (((b6 as bv64) << 48) & 0x00ff000000000000) |
             ((b7 as bv64) << 56)) as int ==
            b0 as int + 0x100 * (b1 as int) + 0x10000 * (b2 as int) + 0x1000000 * (b3 as int)
            + 0x100000000 * (b4 as int) + 0x10000000000 * (b5 as int)
            + 0x1000000000000 * (b6 as int) + 0x100000000000000 * (b7 as int)
  {
  }

  /** The joined word is the little-endian value of its bytes. */
  lemma JoinIsLittleEndian64(b: seq<byte>)
    requires |b| == 8
    ensures OfU64(b) as int == LittleEndian(b)
  {
    JoinAsNumber64(b[0], b[1], b[2], b[3], b[4], b[5], b[6], b[7]);
    Unfold8(b);
  }

  lemma Unfold8(b: seq<byte>)
    requires |b| == 8
    ensures LittleEndian(b) == b[0] as int + 0x100 * (b[1] as int) + 0x10000 * (b[2] as int)
                               + 0x1000000 * (b[3] as int) + 0x100000000 * (b[4] as int) + 0x10000000000 * (b[5] as int)
                               + 0x1000000000000 * (b[6] as int) + 0x100000000000000 * (b[7] as int)
  {
    Unfold4(b);
    Unfold4(b[4..]);
    assert b[4..][4..] == [];
  }
}
