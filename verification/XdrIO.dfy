/**
 The cursors `Xdr` writes to and reads from (backend/include/OpenEXR/ImfIO.h), with the byte loops of
 `CharPtrIO`, the documented contract of `IStream::read` behind `StreamIO`, and the `Xdr` routines
 that drive them.
 */
module XdrIO {
  import opened Options
  import opened XdrBits
  import opened XdrCodec
  import opened XdrStrings

  lemma Spliced(s: seq<byte>, front: seq<byte>, x: byte, back: seq<byte>)
    requires s == front + [x] + back
    ensures s[..|front| + 1] == front + [x] && s[|front| + 1..] == back && s[|front|] == x
  {
  }

  /** `char*& op` over a caller's buffer. */
  class OutCursor {
    const buf: array<byte>
    var op: nat

    ghost predicate Valid()
      reads this
    {
      op <= buf.Length
    }

    /** What has been written so far. */
    function Written(): seq<byte>
      reads this, buf
      requires op <= buf.Length
    {
      buf[..op]
    }

    /** Nothing from the cursor on differs from the contents `before`. */
    predicate Beyond(before: seq<byte>)
      reads this, buf
    {
      |before| == buf.Length && forall k :: op <= k < buf.Length ==> buf[k] == before[k]
    }

    constructor (buf: array<byte>)
      ensures this.buf == buf && op == 0 && Valid()
    {
      this.buf, op := buf, 0;
    }

    /** `CharPtrIO::writeChars`. */
    method WriteChars(c: array<byte>, n: nat)
      requires Valid() && c != buf && n <= c.Length && n <= buf.Length - op
      modifies this`op, buf
      ensures Valid() && op == old(op) + n
      ensures Written() == old(Written()) + c[..n]
      ensures Beyond(old(buf[..]))
    {
      var left, i := n, 0;
      while left > 0
        invariant i + left == n && op == old(op) + i && Valid()
        invariant buf[..op] == old(buf[..op]) + c[..i]
        invariant Beyond(old(buf[..]))
        decreases left
      {
        buf[op] := c[i];
        op, i, left := op + 1, i + 1, left - 1;
      }
    }

    method WriteByte(c: byte)
      requires Valid() && op < buf.Length
      modifies this`op, buf
      ensures Valid() && op == old(op) + 1
      ensures Written() == old(Written()) + [c]
      ensures Beyond(old(buf[..]))
    {
      var b := new byte[1](_ => c);
      WriteChars(b, 1);
      assert b[..1] == [c];
    }

    method Write16(b0: byte, b1: byte)
      requires Valid() && 2 <= buf.Length - op
      modifies this`op, buf
      ensures Valid() && op == old(op) + 2
      ensures Written() == old(Written()) + [b0, b1]
      ensures Beyond(old(buf[..]))
    {
      var b := new byte[] [b0, b1];
      WriteChars(b, 2);
      assert b[..2] == [b0, b1];
    }

    method Write32(b0: byte, b1: byte, b2: byte, b3: byte)
      requires Valid() && 4 <= buf.Length - op
      modifies this`op, buf
      ensures Valid() && op == old(op) + 4
      ensures Written() == old(Written()) + [b0, b1, b2, b3]
      ensures Beyond(old(buf[..]))
    {
      var b := new byte[] [b0, b1, b2, b3];
      WriteChars(b, 4);
      assert b[..4] == [b0, b1, b2, b3];
    }

    method Write64(b0: byte, b1: byte, b2: byte, b3: byte, b4: byte, b5: byte, b6: byte, b7: byte)
      requires Valid() && 8 <= buf.Length - op
      modifies this`op, buf
      ensures Valid() && op == old(op) + 8
      ensures Written() == old(Written()) + [b0, b1, b2, b3, b4, b5, b6, b7]
      ensures Beyond(old(buf[..]))
    {
      var b := new byte[] [b0, b1, b2, b3, b4, b5, b6, b7];
      WriteChars(b, 8);
      assert b[..8] == [b0, b1, b2, b3, b4, b5, b6, b7];
    }

    method WriteShorts(v: Value)
      requires v.Short? || v.UShort? || v.Half?
      requires Valid() && Size(KindOf(v)) <= buf.Length - op
      modifies this`op, buf
      ensures Valid() && op == old(op) + Size(KindOf(v))
      ensures Written() == old(Written()) + Encode(v)
      ensures Beyond(old(buf[..]))
    {
      match v
      case Short(w) => Write16(Low32(Promote16(w)), Low32(ShiftRight32(Promote16(w), 1)));
      case UShort(w) => Write16(Low16(w), Low16(w >> 8));
      case Half(w) => Write16(Low16(w), Low16(w >> 8));
    }

    method WriteInts(v: Value)
      requires v.Int? || v.UInt? || v.Float?
      requires Valid() && Size(KindOf(v)) <= buf.Length - op
      modifies this`op, buf
      ensures Valid() && op == old(op) + Size(KindOf(v))
      ensures Written() == old(Written()) + Encode(v)
      ensures Beyond(old(buf[..]))
    {
      match v
      case Int(w) =>
        Write32(Low32(w), Low32(ShiftRight32(w, 1)), Low32(ShiftRight32(w, 2)), Low32(ShiftRight32(w, 3)));
      case UInt(w) => Write32(Low32(w), Low32(w >> 8), Low32(w >> 16), Low32(w >> 24));
      case Float(w) => Write32(Low32(w), Low32(w >> 8), Low32(w >> 16), Low32(w >> 24));
    }

    method WriteSigned64(w: bv64)
      requires Valid() && 8 <= buf.Length - op
      modifies this`op, buf
      ensures Valid() && op == old(op) + 8
      ensures Written() == old(Written()) + BytesS64(w)
      ensures Beyond(old(buf[..]))
    {
      Write64(Low64(w), Low64(ShiftRight64(w, 1)), Low64(ShiftRight64(w, 2)), Low64(ShiftRight64(w, 3)),
              Low64(ShiftRight64(w, 4)), Low64(ShiftRight64(w, 5)),
              Low64(ShiftRight64(w, 6)), Low64(ShiftRight64(w, 7)));
    }

    method WriteUnsigned64(w: bv64)
      requires Valid() && 8 <= buf.Length - op
      modifies this`op, buf
      ensures Valid() && op == old(op) + 8
      ensures Written() == old(Written()) + BytesU64(w)
      ensures Beyond(old(buf[..]))
    {
      Write64(Low64(w), Low64(w >> 8), Low64(w >> 16), Low64(w >> 24),
              Low64(w >> 32), Low64(w >> 40), Low64(w >> 48), Low64(w >> 56));
    }

    method WriteLongs(v: Value)
      requires v.Int64? || v.UInt64? || v.Double?
      requires Valid() && Size(KindOf(v)) <= buf.Length - op
      modifies this`op, buf
      ensures Valid() && op == old(op) + Size(KindOf(v))
      ensures Written() == old(Written()) + Encode(v)
      ensures Beyond(old(buf[..]))
    {
      match v
      case Int64(w) => WriteSigned64(w);
      case UInt64(w) => WriteUnsigned64(w);
      case Double(w) => WriteUnsigned64(w);
    }

    /** The typed `write` overloads. */
    method Write(v: Value)
      requires Valid() && Size(KindOf(v)) <= buf.Length - op
      modifies this`op, buf
      ensures Valid() && op == old(op) + Size(KindOf(v))
      ensures Written() == old(Written()) + Encode(v)
      ensures Beyond(old(buf[..]))
    {
      if v.Short? || v.UShort? || v.Half? {
        WriteShorts(v);
      } else if v.Int? || v.UInt? || v.Float? {
        WriteInts(v);
      } else if v.Int64? || v.UInt64? || v.Double? {
        WriteLongs(v);
      } else {
        var c := match v
          case Bool(truth) => if truth then 1 else 0
          case Char(c) => c
          case SignedChar(c) => c
          case UnsignedChar(c) => c;
        WriteByte(c);
      }
    }

    /** A run of writes of any types. */
    method WriteAll(vs: seq<Value>)
      requires Valid() && TotalSize(KindsOf(vs)) <= buf.Length - op
      modifies this`op, buf
      ensures Valid() && op == old(op) + TotalSize(KindsOf(vs))
      ensures Written() == old(Written()) + EncodeAll(vs)
      ensures Beyond(old(buf[..]))
    {
      var i := 0;
      while i < |vs|
        invariant 0 <= i <= |vs| && Valid()
        invariant TotalSize(KindsOf(vs[i..])) <= buf.Length - op
        invariant op + TotalSize(KindsOf(vs[i..])) == old(op) + TotalSize(KindsOf(vs))
        invariant Written() + EncodeAll(vs[i..]) == old(Written()) + EncodeAll(vs)
        invariant Beyond(old(buf[..]))
      {
        assert vs[i..][1..] == vs[i + 1..];
        KindsUnfold(vs[i..]);
        Concat(Written(), Encode(vs[i]), EncodeAll(vs[i + 1..]));
        Write(vs[i]);
        i := i + 1;
      }
      assert vs[i..] == [];
    }

    /** The zero-terminated `write`: characters up to and including the NUL. */
    method WriteString(v: array<byte>)
      requires Valid() && v != buf && 0 in v[..] && |CString(v[..])| + 1 <= buf.Length - op
      modifies this`op, buf
      ensures Valid() && op == old(op) + |CString(v[..])| + 1
      ensures Written() == old(Written()) + CString(v[..]) + [0]
      ensures Beyond(old(buf[..]))
    {
      ghost var s := CString(v[..]);
      CStringIsPrefix(v[..]);
      assert forall k :: 0 <= k < |s| ==> v[k] == v[..][k] == s[k];
      var i := 0;
      while v[i] != 0
        invariant 0 <= i <= |s| && Valid() && op == old(op) + i
        invariant Written() == old(Written()) + s[..i]
        invariant Beyond(old(buf[..]))
        decreases |s| - i
      {
        WriteByte(v[i]);
        i := i + 1;
      }
      assert s[..i] == s;
      WriteByte(v[i]);
    }

    /** `pad`: as many zero bytes as asked for. */
    method Pad(n: int)
      requires Valid() && n <= buf.Length - op
      modifies this`op, buf
      ensures Valid() && op == old(op) + (if n < 0 then 0 else n)
      ensures Written() == old(Written()) + Zeros(if n < 0 then 0 else n)
      ensures forall k :: old(op) <= k < op ==> buf[k] == 0
      ensures Beyond(old(buf[..]))
    {
      var i := 0;
      while i < n
        invariant 0 <= i <= (if n < 0 then 0 else n) && Valid() && op == old(op) + i
        invariant Written() == old(Written()) + Zeros(i)
        invariant forall k :: old(op) <= k < op ==> buf[k] == 0
        invariant Beyond(old(buf[..]))
      {
        WriteByte(0);
        i := i + 1;
      }
    }
  }

  function Zeros(n: nat): seq<byte> {
    seq(n, _ => 0)
  }

  /** A skip undoes a pad: what is left is what followed the padding, for every count. */
  lemma SkipUndoesPad(n: int, rest: seq<byte>)
    ensures var padding := Zeros(if n < 0 then 0 else n);
            var data := padding + rest;
            SkipChunks(|data|, n) == Some(|padding|) && data[|padding|..] == rest
  {
    var padding := Zeros(if n < 0 then 0 else n);
    SkipConsumesExactly(|padding + rest|, n);
  }

  lemma Concat(a: seq<byte>, b: seq<byte>, c: seq<byte>)
    ensures a + (b + c) == (a + b) + c
  {
  }

  lemma KindsUnfold(vs: seq<Value>)
    requires vs != []
    ensures KindsOf(vs)[1..] == KindsOf(vs[1..]) && KindsOf(vs)[0] == KindOf(vs[0])
    ensures TotalSize(KindsOf(vs)) == Size(KindOf(vs[0])) + TotalSize(KindsOf(vs[1..]))
  {
  }

  /** What `readChars` reports: false only from a stream whose last byte it took, or an exception. */
  datatype Outcome = More | Last | Thrown

  /** `const char*& ip` over a buffer, or an `IStream&`: `stream` says which back end reads. */
  class InCursor {
    const data: seq<byte>
    const stream: bool
    var ip: nat

    ghost predicate Valid()
      reads this
    {
      ip <= |data|
    }

    function Left(): seq<byte>
      reads this
      requires ip <= |data|
    {
      data[ip..]
    }

    constructor (data: seq<byte>, stream: bool)
      ensures this.data == data && this.stream == stream && ip == 0 && Valid()
    {
      this.data, this.stream, ip := data, stream, 0;
    }

    /**
     `readChars` into `c[at..]`.  A stream throws when too few bytes are left, which leaves its
     position unspecified; a bare pointer must not be asked for more than the buffer holds.
     */
    method ReadChars(c: array<byte>, at: nat, n: nat) returns (r: Outcome)
      requires Valid() && at + n <= c.Length && (!stream ==> n <= |data| - ip)
      modifies this`ip, c
      ensures Valid()
      ensures r.Thrown? <==> n > old(|Left()|)
      ensures r.Last? <==> stream && 0 < n == old(|Left()|)
      ensures !r.Thrown? ==> ip == old(ip) + n && c[..] == old(c[..at]) + old(Left())[..n] + old(c[at + n..])
    {
      if n > |data| - ip {
        var anywhere :| 0 <= anywhere <= |data|;
        ip := anywhere;
        return Thrown;
      }
      r := if stream && 0 < n == |data| - ip then Last else More;
      var left, i := n, 0;
      while left > 0
        invariant i + left == n && ip == old(ip) + i && ip + left <= |data|
        invariant c[..] == old(c[..at]) + old(Left())[..i] + old(c[at + i..])
        decreases left
      {
        c[at + i] := data[ip];
        ip, i, left := ip + 1, i + 1, left - 1;
      }
    }

    /** The typed `read` overloads. */
    method Read(k: Kind) returns (v: Option<Value>)
      requires Valid() && (!stream ==> Size(k) <= |data| - ip)
      modifies this`ip
      ensures Valid()
      ensures v.None? <==> |old(Left())| < Size(k)
      ensures v.Some? ==> ip == old(ip) + Size(k) && v.value == Decode(k, old(Left())[..Size(k)])
    {
      var b := new byte[Size(k)];
      var r := ReadChars(b, 0, Size(k));
      if r.Thrown? {
        return None;
      }
      assert b[..] == old(Left())[..Size(k)];
      v := Some(Decode(k, b[..]));
    }

    /** A run of reads of any types; None as soon as one throws. */
    method ReadAll(ks: seq<Kind>) returns (vs: Option<seq<Value>>)
      requires Valid() && (!stream ==> TotalSize(ks) <= |data| - ip)
      modifies this`ip
      ensures Valid()
      ensures vs.None? <==> DecodeAll(ks, old(Left())).None?
      ensures vs.Some? ==> DecodeAll(ks, old(Left())) == Some((vs.value, Left()))
    {
      var got, i := [], 0;
      ghost var all := DecodeAll(ks, Left());
      ListReadConsumes(ks, Left());
      PrependNothing(all);
      assert ks[0..] == ks;
      while i < |ks|
        invariant 0 <= i <= |ks| && Valid()
        invariant !stream ==> TotalSize(ks[i..]) <= |data| - ip
        invariant all == Prepend(got, DecodeAll(ks[i..], Left()))
      {
        assert ks[i..][1..] == ks[i + 1..];
        ghost var left := Left();
        var v := Read(ks[i]);
        if v.None? {
          return None;
        }
        assert Left() == left[Size(ks[i])..];
        PrependOne(got, v.value, DecodeAll(ks[i + 1..], Left()));
        got, i := got + [v.value], i + 1;
      }
      assert ks[i..] == [] && got + [] == got;
      vs := Some(got);
    }

    /** The zero-terminated `read`: what it stores, it consumed; a buffer of `n + 1` cells is enough. */
    method ReadString(n: int, v: array<byte>) returns (ok: bool)
      requires Valid() && v.Length >= n + 1 && (!stream ==> XdrStrings.ReadString(Left(), n).Some?)
      modifies this`ip, v
      ensures Valid()
      ensures ok <==> XdrStrings.ReadString(old(Left()), n).Some?
      ensures ok ==> var t := XdrStrings.ReadString(old(Left()), n).value;
                     ip == old(ip) + |t| && |t| <= v.Length && v[..] == t + old(v[..])[|t|..]
    {
      var m, i := n, 0;
      ghost var all, before := XdrStrings.ReadString(Left(), n), v[..];
      PrependNoBytes(all);
      while m >= 0
        invariant m + i == n && 0 <= i <= v.Length && (n >= 0 ==> i <= n + 1) && Valid() && ip == old(ip) + i
        invariant all == PrependBytes(v[..i], XdrStrings.ReadString(Left(), m))
        invariant v[i..] == before[i..]
        decreases m + 1
      {
        ghost var left, got := Left(), v[..i];
        assert v[i + 1..] == v[i..][1..] == before[i + 1..];
        var r := ReadChars(v, i, 1);
        if r.Thrown? {
          return false;
        }
        assert Left() == left[1..] && left[..1] == [left[0]];
        Spliced(v[..], got, left[0], before[i + 1..]);
        if v[i] == 0 {
          assert v[..] == v[..i + 1] + v[i + 1..];
          return true;
        }
        PrependByte(got, left[0], XdrStrings.ReadString(Left(), m - 1));
        m, i := m - 1, i + 1;
      }
      assert v[..i] + [] == v[..i] && v[..] == v[..i] + v[i..];
      ok := true;
    }

    /** `skip`: chunks of 1024, then the rest; a chunk that takes the last byte of a stream ends it early. */
    method Skip(n: int) returns (ok: bool)
      requires Valid() && (!stream ==> n <= |data| - ip)
      modifies this`ip
      ensures Valid()
      ensures stream ==> (ok <==> SkipChunks(|old(Left())|, n).Some?)
      ensures stream && ok ==> ip == old(ip) + SkipChunks(|old(Left())|, n).value
      ensures n <= |old(Left())| ==> ok && ip == old(ip) + (if n < 0 then 0 else n)
    {
      var c := new byte[CHUNK];
      var m := n;
      ghost var all := SkipChunks(|Left()|, n);
      SkipChunksMeans(|Left()|, n);
      while m >= CHUNK
        invariant Valid() && old(ip) <= ip && ip - old(ip) == n - m
        invariant m != n ==> m >= 0
        invariant !stream ==> m <= |data| - ip
        invariant stream ==> all == Plus(ip - old(ip), SkipChunks(|data| - ip, m))
        decreases m
      {
        var r := ReadChars(c, 0, CHUNK);
        if r.Thrown? {
          return false;
        }
        if r.Last? {
          return true;
        }
        m := m - CHUNK;
      }
      if m >= 1 {
        var r := ReadChars(c, 0, m);
        return !r.Thrown?;
      }
      ok := true;
    }
  }

  function Plus(k: nat, s: Skipped): Skipped {
    if s.None? then None else Some(k + s.value)
  }

  function Prepend(vs: seq<Value>, r: Option<(seq<Value>, seq<byte>)>): Option<(seq<Value>, seq<byte>)> {
    if r.None? then None else Some((vs + r.value.0, r.value.1))
  }

  lemma PrependNothing(r: Option<(seq<Value>, seq<byte>)>)
    ensures Prepend([], r) == r
  {
    if r.Some? {
      assert [] + r.value.0 == r.value.0;
    }
  }

  lemma PrependOne(vs: seq<Value>, v: Value, r: Option<(seq<Value>, seq<byte>)>)
    ensures Prepend(vs, Prepend([v], r)) == Prepend(vs + [v], r)
  {
    if r.Some? {
      assert vs + ([v] + r.value.0) == (vs + [v]) + r.value.0;
    }
  }

  function PrependBytes(b: seq<byte>, r: Option<seq<byte>>): Option<seq<byte>> {
    if r.None? then None else Some(b + r.value)
  }

  lemma PrependNoBytes(r: Option<seq<byte>>)
    ensures PrependBytes([], r) == r
  {
    if r.Some? {
      assert [] + r.value == r.value;
    }
  }

  lemma PrependByte(b: seq<byte>, c: byte, r: Option<seq<byte>>)
    ensures PrependBytes(b, PrependBytes([c], r)) == PrependBytes(b + [c], r)
  {
    if r.Some? {
      Concat(b, [c], r.value);
    }
  }

  method WriteInto(vs: seq<Value>, buf: array<byte>) returns (output: OutCursor)
    requires TotalSize(KindsOf(vs)) <= buf.Length
    modifies buf
    ensures output.buf == buf && output.op == TotalSize(KindsOf(vs))
    ensures buf[..] == EncodeAll(vs) + old(buf[..])[TotalSize(KindsOf(vs))..]
  {
    output := new OutCursor(buf);
    output.WriteAll(vs);
    ghost var n := TotalSize(KindsOf(vs));
    assert buf[..n] == EncodeAll(vs) && buf[n..] == old(buf[..])[n..];
    assert buf[..] == buf[..n] + buf[n..];
  }

  method ReadBack(vs: seq<Value>, data: seq<byte>, stream: bool, ghost rest: seq<byte>)
    returns (got: Option<seq<Value>>, input: InCursor)
    requires data == EncodeAll(vs) + rest
    ensures got == Some(vs)
    ensures input.data == data && input.stream == stream && input.ip == TotalSize(KindsOf(vs))
  {
    ListRoundTrip(vs, rest);
    input := new InCursor(data, stream);
    assert input.Left() == data;
    got := input.ReadAll(KindsOf(vs));
    assert |input.Left()| == |rest|;
  }

  /**
   The round trip on the cursors themselves: what one writes into a buffer, the other reads back from
   it, over either back end, and both end up just past it.
   */
  method WriteThenRead(vs: seq<Value>, buf: array<byte>, stream: bool)
    returns (got: Option<seq<Value>>, output: OutCursor, input: InCursor)
    requires TotalSize(KindsOf(vs)) <= buf.Length
    modifies buf
    ensures got == Some(vs)
    ensures output.buf == buf && input.data == buf[..] && input.stream == stream
    ensures output.op == input.ip == TotalSize(KindsOf(vs))
    ensures buf[..] == EncodeAll(vs) + old(buf[..])[TotalSize(KindsOf(vs))..]
  {
    output := WriteInto(vs, buf);
    got, input := ReadBack(vs, buf[..], stream, old(buf[..])[TotalSize(KindsOf(vs))..]);
  }
}
