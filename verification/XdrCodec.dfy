/**
 `Xdr` values and their byte strings (backend/include/OpenEXR/ImfXdr.h): what each typed `write`
 emits, what each typed `read` makes of it, and the sizes `size<S>` promises.
 */
module XdrCodec {
  import opened Options
  import opened XdrBits

  /** A value of one of the overloaded types.  Signed integers and floating-point numbers are their bits. */
  datatype Value =
    | Bool(truth: bool)
    | Char(c: byte)
    | SignedChar(sc: byte)
    | UnsignedChar(uc: byte)
    | Short(s16: bv16)
    | UShort(u16: bv16)
    | Int(s32: bv32)
    | UInt(u32: bv32)
    | Int64(s64: bv64)
    | UInt64(u64: bv64)
    | Float(f32: bv32)
    | Double(f64: bv64)
    | Half(f16: bv16)

  datatype Kind =
    | KBool | KChar | KSignedChar | KUnsignedChar | KShort | KUShort | KInt | KUInt | KInt64 | KUInt64
    | KFloat | KDouble | KHalf

  function KindOf(v: Value): Kind {
    match v
    case Bool(_) => KBool
    case Char(_) => KChar
    case SignedChar(_) => KSignedChar
    case UnsignedChar(_) => KUnsignedChar
    case Short(_) => KShort
    case UShort(_) => KUShort
    case Int(_) => KInt
    case UInt(_) => KUInt
    case Int64(_) => KInt64
    case UInt64(_) => KUInt64
    case Float(_) => KFloat
    case Double(_) => KDouble
    case Half(_) => KHalf
  }

  /** `size<S>()`. */
  function Size(k: Kind): nat {
    match k
    case KBool => 1
    case KChar => 1
    case KSignedChar => 1
    case KUnsignedChar => 1
    case KShort => 2
    case KUShort => 2
    case KHalf => 2
    case KInt => 4
    case KUInt => 4
    case KFloat => 4
    case KInt64 => 8
    case KUInt64 => 8
    case KDouble => 8
  }

  /** The bytes a typed `write` emits. */
  function Encode(v: Value): seq<byte> {
    match v
    case Bool(truth) => [if truth then 1 else 0]
    case Char(c) => [c]
    case SignedChar(c) => [c]
    case UnsignedChar(c) => [c]
    case Short(w) => BytesS16(w)
    case UShort(w) => BytesU16(w)
    case Int(w) => BytesS32(w)
    case UInt(w) => BytesU32(w)
    case Int64(w) => BytesS64(w)
    case UInt64(w) => BytesU64(w)
    case Float(w) => BytesU32(w)
    case Double(w) => BytesU64(w)
    case Half(w) => BytesU16(w)
  }

  /** The value a typed `read` makes of the bytes it got. */
  function Decode(k: Kind, b: seq<byte>): Value
    requires |b| == Size(k)
  {
    match k
    case KBool => Bool(b[0] != 0)
    case KChar => Char(b[0])
    case KSignedChar => SignedChar(b[0])
    case KUnsignedChar => UnsignedChar(b[0])
    case KShort => Short(OfU16(b))
    case KUShort => UShort(OfU16(b))
    case KInt => Int(OfU32(b))
    case KUInt => UInt(OfU32(b))
    case KInt64 => Int64(OfS64(b))
    case KUInt64 => UInt64(OfU64(b))
    case KFloat => Float(OfU32(b))
    case KDouble => Double(OfU64(b))
    case KHalf => Half(OfU16(b))
  }

  lemma WordRoundTrip16(w: bv16)
    ensures OfU16(BytesS16(w)) == w && OfU16(BytesU16(w)) == w
    ensures |BytesS16(w)| == |BytesU16(w)| == 2
  {
    SignedBytes16(w);
    Inverse16(w, BytesU16(w));
  }

  lemma WordRoundTrip32(w: bv32)
    ensures OfU32(BytesS32(w)) == w && OfU32(BytesU32(w)) == w
    ensures |BytesS32(w)| == |BytesU32(w)| == 4
  {
    SignedBytes32(w);
    Inverse32(w, BytesU32(w));
  }

  lemma WordRoundTrip64(w: bv64)
    ensures OfS64(BytesS64(w)) == w && OfU64(BytesU64(w)) == w
    ensures |BytesS64(w)| == |BytesU64(w)| == 8
  {
    SignedBytes64(w);
    SignedJoin64(BytesU64(w));
    Inverse64(w, BytesU64(w));
  }

  lemma ByteRoundTrip(v: Value)
    requires Size(KindOf(v)) == 1
    ensures |Encode(v)| == 1 && Decode(KindOf(v), Encode(v)) == v
  {
  }

  lemma NarrowRoundTrip(v: Value)
    requires Size(KindOf(v)) == 2
    ensures |Encode(v)| == 2 && Decode(KindOf(v), Encode(v)) == v
  {
    WordRoundTrip16(if v.Short? then v.s16 else if v.UShort? then v.u16 else v.f16);
  }

  lemma MiddleRoundTrip(v: Value)
    requires Size(KindOf(v)) == 4
    ensures |Encode(v)| == 4 && Decode(KindOf(v), Encode(v)) == v
  {
    WordRoundTrip32(if v.Int? then v.s32 else if v.UInt? then v.u32 else v.f32);
  }

  lemma WideRoundTrip(v: Value)
    requires Size(KindOf(v)) == 8
    ensures |Encode(v)| == 8 && Decode(KindOf(v), Encode(v)) == v
  {
    WordRoundTrip64(if v.Int64? then v.s64 else if v.UInt64? then v.u64 else v.f64);
  }

  /** Write then read gives the value back, and `size` says how many bytes it took. */
  lemma ValueRoundTrip(v: Value)
    ensures |Encode(v)| == Size(KindOf(v))
    ensures Decode(KindOf(v), Encode(v)) == v
  {
    var n := Size(KindOf(v));
    if n == 1 {
      ByteRoundTrip(v);
    } else if n == 2 {
      NarrowRoundTrip(v);
    } else if n == 4 {
      MiddleRoundTrip(v);
    } else {
      WideRoundTrip(v);
    }
  }

  lemma WordBytes(b: seq<byte>)
    ensures |b| == 2 ==> BytesS16(OfU16(b)) == b && BytesU16(OfU16(b)) == b
    ensures |b| == 4 ==> BytesS32(OfU32(b)) == b && BytesU32(OfU32(b)) == b
  {
    if |b| == 2 {
      SignedBytes16(OfU16(b));
      Inverse16(0, b);
    } else if |b| == 4 {
      SignedBytes32(OfU32(b));
      Inverse32(0, b);
    }
  }

  lemma WordBytes64(b: seq<byte>)
    requires |b| == 8
    ensures BytesS64(OfS64(b)) == b && BytesU64(OfU64(b)) == b
  {
    SignedJoin64(b);
    SignedBytes64(OfU64(b));
    Inverse64(0, b);
  }

  lemma NarrowBytesBack(k: Kind, b: seq<byte>)
    requires |b| == Size(k) == 2
    ensures Encode(Decode(k, b)) == b
  {
    WordBytes(b);
  }

  lemma MiddleBytesBack(k: Kind, b: seq<byte>)
    requires |b| == Size(k) == 4
    ensures Encode(Decode(k, b)) == b
  {
    WordBytes(b);
  }

  lemma WideBytesBack(k: Kind, b: seq<byte>)
    requires |b| == Size(k) == 8
    ensures Encode(Decode(k, b)) == b
  {
    WordBytes64(b);
  }

  lemma ByteBack(k: Kind, b: seq<byte>)
    requires |b| == Size(k) == 1
    ensures Encode(Decode(k, b)) == b <==> !(k.KBool? && b[0] != 0 && b[0] != 1)
  {
    assert b == [b[0]];
  }

  /** Read then write gives the bytes back, except that a `bool` normalises any non-zero byte to 1. */
  lemma BytesRoundTrip(k: Kind, b: seq<byte>)
    requires |b| == Size(k)
    ensures Encode(Decode(k, b)) == b <==> !(k.KBool? && b[0] != 0 && b[0] != 1)
  {
    if Size(k) == 1 {
      ByteBack(k, b);
    } else if Size(k) == 2 {
      NarrowBytesBack(k, b);
    } else if Size(k) == 4 {
      MiddleBytesBack(k, b);
    } else {
      WideBytesBack(k, b);
    }
  }

  /** The number an integer value stands for; None for the other types. */
  function Number(v: Value): Option<int> {
    match v
    case Short(w) => Some(TwosComplement(w as int, 2))
    case UShort(w) => Some(w as int)
    case Int(w) => Some(TwosComplement(w as int, 4))
    case UInt(w) => Some(w as int)
    case Int64(w) => Some(TwosComplement(w as int, 8))
    case UInt64(w) => Some(w as int)
    case _ => None
  }

  /** The two's-complement reading of a little-endian number of `n` bytes. */
  function TwosComplement(u: nat, n: nat): int {
    var half := if n == 2 then 0x8000 else if n == 4 then 0x8000_0000 else 0x8000_0000_0000_0000;
    if u < half then u else u - 2 * half
  }

  /** What the external form is: least significant byte first, two's complement, no padding. */
  lemma ExternalFormIsLittleEndian(k: Kind, b: seq<byte>)
    requires |b| == Size(k)
    ensures k.KUShort? || k.KUInt? || k.KUInt64? ==> Number(Decode(k, b)) == Some(LittleEndian(b))
    ensures k.KShort? || k.KInt? || k.KInt64? ==> Number(Decode(k, b)) == Some(TwosComplement(LittleEndian(b), |b|))
  {
    match k
    case KShort => JoinIsLittleEndian16(b);
    case KUShort => JoinIsLittleEndian16(b);
    case KInt => JoinIsLittleEndian32(b);
    case KUInt => JoinIsLittleEndian32(b);
    case KInt64 => SignedJoin64(b); JoinIsLittleEndian64(b);
    case KUInt64 => JoinIsLittleEndian64(b);
    case _ =>
  }

  lemma WordsAreLittleEndian16(w: bv16)
    ensures LittleEndian(BytesU16(w)) == w as int && LittleEndian(BytesS16(w)) == w as int
  {
    WordRoundTrip16(w);
    SignedBytes16(w);
    JoinIsLittleEndian16(BytesU16(w));
  }

  lemma WordsAreLittleEndian32(w: bv32)
    ensures LittleEndian(BytesU32(w)) == w as int && LittleEndian(BytesS32(w)) == w as int
  {
    WordRoundTrip32(w);
    SignedBytes32(w);
    JoinIsLittleEndian32(BytesU32(w));
  }

  lemma WordsAreLittleEndian64(w: bv64)
    ensures LittleEndian(BytesU64(w)) == w as int && LittleEndian(BytesS64(w)) == w as int
  {
    WordRoundTrip64(w);
    SignedBytes64(w);
    JoinIsLittleEndian64(BytesU64(w));
  }

  /** One byte: a bool is 1 or 0 and any byte but 0 is true; a character is its byte. */
  lemma BytesMean(truth: bool, c: byte)
    ensures Encode(Bool(truth)) == if truth then [1] else [0]
    ensures Decode(KBool, [c]) == Bool(c != 0)
    ensures Encode(Char(c)) == Encode(SignedChar(c)) == Encode(UnsignedChar(c)) == [c]
    ensures Decode(KChar, [c]) == Char(c) && Decode(KSignedChar, [c]) == SignedChar(c)
    ensures Decode(KUnsignedChar, [c]) == UnsignedChar(c)
  {
  }

  /** Every wider type is its bits, least significant byte first: halves, shorts. */
  lemma NarrowWordsMean(w: bv16)
    ensures |Encode(Short(w))| == |Encode(UShort(w))| == |Encode(Half(w))| == 2
    ensures LittleEndian(Encode(Short(w))) == LittleEndian(Encode(UShort(w))) == w as int
    ensures LittleEndian(Encode(Half(w))) == w as int
  {
    WordsAreLittleEndian16(w);
  }

  /** Floats, ints. */
  lemma MiddleWordsMean(w: bv32)
    ensures |Encode(Int(w))| == |Encode(UInt(w))| == |Encode(Float(w))| == 4
    ensures LittleEndian(Encode(Int(w))) == LittleEndian(Encode(UInt(w))) == w as int
    ensures LittleEndian(Encode(Float(w))) == w as int
  {
    WordsAreLittleEndian32(w);
  }

  /** Doubles, 64-bit integers. */
  lemma WideWordsMean(w: bv64)
    ensures |Encode(Int64(w))| == |Encode(UInt64(w))| == |Encode(Double(w))| == 8
    ensures LittleEndian(Encode(Int64(w))) == LittleEndian(Encode(UInt64(w))) == w as int
    ensures LittleEndian(Encode(Double(w))) == w as int
  {
    WordsAreLittleEndian64(w);
  }

  // ---------------------------------------------------------------------------------------------
  // Sequences of mixed types
  // ---------------------------------------------------------------------------------------------

  function KindsOf(vs: seq<Value>): seq<Kind> {
    if vs == [] then [] else [KindOf(vs[0])] + KindsOf(vs[1..])
  }

  function TotalSize(ks: seq<Kind>): nat {
    if ks == [] then 0 else Size(ks[0]) + TotalSize(ks[1..])
  }

  function EncodeAll(vs: seq<Value>): seq<byte> {
    if vs == [] then [] else Encode(vs[0]) + EncodeAll(vs[1..])
  }

  /** Reading values of the given types from the front of `b`; None when a read finds too few bytes. */
  function DecodeAll(ks: seq<Kind>, b: seq<byte>): Option<(seq<Value>, seq<byte>)> {
    if ks == [] then Some(([], b))
    else if |b| < Size(ks[0]) then None
    else
      var v := Decode(ks[0], b[..Size(ks[0])]);
      match DecodeAll(ks[1..], b[Size(ks[0])..])
      case None => None
      case Some((vs, rest)) => Some(([v] + vs, rest))
  }

  lemma DecodeCons(k: Kind, ks: seq<Kind>, e: seq<byte>, b: seq<byte>)
    requires |e| == Size(k)
    ensures DecodeAll([k] + ks, e + b) ==
            match DecodeAll(ks, b)
            case None => None
            case Some((vs, rest)) => Some(([Decode(k, e)] + vs, rest))
  {
    assert ([k] + ks)[1..] == ks;
    assert (e + b)[..Size(k)] == e && (e + b)[Size(k)..] == b;
  }

  /** Any list of values survives being written and read back, whatever follows it. */
  lemma {:induction false} ListRoundTrip(vs: seq<Value>, rest: seq<byte>)
    ensures DecodeAll(KindsOf(vs), EncodeAll(vs) + rest) == Some((vs, rest))
    ensures |EncodeAll(vs)| == TotalSize(KindsOf(vs))
  {
    if vs == [] {
      assert EncodeAll(vs) + rest == rest;
    } else {
      var k, ks, tail := KindOf(vs[0]), KindsOf(vs[1..]), EncodeAll(vs[1..]);
      ValueRoundTrip(vs[0]);
      ListRoundTrip(vs[1..], rest);
      DecodeCons(k, ks, Encode(vs[0]), tail + rest);
      assert (Encode(vs[0]) + tail) + rest == Encode(vs[0]) + (tail + rest);
      assert ([k] + ks)[1..] == ks;
      assert vs == [vs[0]] + vs[1..];
    }
  }

  /** Reading fails exactly when fewer bytes are left than the types add up to, and else takes exactly those. */
  lemma {:induction false} ListReadConsumes(ks: seq<Kind>, b: seq<byte>)
    ensures DecodeAll(ks, b).None? <==> |b| < TotalSize(ks)
    ensures DecodeAll(ks, b).Some? ==> DecodeAll(ks, b).value.1 == b[TotalSize(ks)..]
  {
    if ks != [] && |b| >= Size(ks[0]) {
      ListReadConsumes(ks[1..], b[Size(ks[0])..]);
    }
  }
}
