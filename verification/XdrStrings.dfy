/**
 Zero-terminated strings, padding and skipping in `Xdr` (backend/include/OpenEXR/ImfXdr.h), as
 functions of the bytes that are left to read.
 */
module XdrStrings {
  import opened Options
  import opened XdrBits

  // ---------------------------------------------------------------------------------------------
  // Strings
  // ---------------------------------------------------------------------------------------------

  predicate NulFree(s: seq<byte>) {
    0 !in s
  }

  /** The characters of the C string that starts `v`: everything before its first NUL. */
  function CString(v: seq<byte>): seq<byte>
    requires 0 in v
  {
    if v[0] == 0 then [] else [v[0]] + CString(v[1..])
  }

  /**
   What `read(in, n, v)` stores, which is also what it consumes: bytes up to and including the first
   NUL, but never more than `n + 1`.  None when the source runs out first.
   */
  function ReadString(left: seq<byte>, n: int): Option<seq<byte>>
    decreases |left|
  {
    if n < 0 then Some([])
    else if left == [] then None
    else if left[0] == 0 then Some([0])
    else
      match ReadString(left[1..], n - 1)
      case None => None
      case Some(t) => Some([left[0]] + t)
  }

  lemma {:induction false} CStringIsPrefix(v: seq<byte>)
    requires 0 in v
    ensures |CString(v)| < |v| && v[..|CString(v)|] == CString(v) && v[|CString(v)|] == 0 && NulFree(CString(v))
    ensures forall i :: 0 <= i < |CString(v)| ==> v[i] != 0
  {
    if v[0] != 0 {
      CStringIsPrefix(v[1..]);
      var t := CString(v[1..]);
      assert v[..|t| + 1] == [v[0]] + t;
    }
  }

  /** What is stored is what was next in the source, never more than `n + 1` bytes of it. */
  lemma {:induction false} ReadStringTakesPrefix(left: seq<byte>, n: int)
    ensures var r := ReadString(left, n);
            r.Some? ==> r.value <= left && |r.value| <= (if n < 0 then 0 else n + 1)
    decreases |left|
  {
    if n >= 0 && left != [] && left[0] != 0 {
      ReadStringTakesPrefix(left[1..], n - 1);
      var r := ReadString(left[1..], n - 1);
      if r.Some? {
        assert left[..1 + |r.value|] == [left[0]] + left[1..][..|r.value|];
      }
    }
  }

  /**
   The whole read in closed form: up to and including the first NUL if it is among the next `n + 1`
   bytes, else those `n + 1` bytes; and it fails exactly when there are neither.
   */
  lemma {:induction false} ReadStringMeans(left: seq<byte>, n: int)
    ensures n < 0 ==> ReadString(left, n) == Some([])
    ensures n >= 0 && 0 in left && |CString(left)| <= n ==> ReadString(left, n) == Some(CString(left) + [0])
    ensures n >= 0 && |left| > n && 0 !in left[..n + 1] ==> ReadString(left, n) == Some(left[..n + 1])
    ensures ReadString(left, n).None? <==> n >= |left| && 0 !in left
    decreases |left|
  {
    if n >= 0 && left != [] && left[0] != 0 {
      ReadStringMeans(left[1..], n - 1);
      assert left == [left[0]] + left[1..];
      if |left| > n {
        assert left[..n + 1] == [left[0]] + left[1..][..n];
      }
      if 0 in left {
        assert CString(left) + [0] == [left[0]] + (CString(left[1..]) + [0]);
      }
    } else if left != [] && left[0] == 0 {
      assert CString(left) + [0] == [0];
    }
  }

  /** A NUL-free string followed by its terminator: read whole if it fits, else cut after `n + 1` bytes. */
  lemma {:induction false} ReadOfTerminated(s: seq<byte>, rest: seq<byte>, n: int)
    requires NulFree(s) && n >= 0
    ensures |s| <= n ==> ReadString(s + [0] + rest, n) == Some(s + [0])
    ensures |s| > n ==> ReadString(s + [0] + rest, n) == Some(s[..n + 1])
    decreases |s|
  {
    var left := s + [0] + rest;
    if s == [] {
      assert left[0] == 0 && s + [0] == [0];
    } else {
      assert left[0] == s[0] && s[0] in s;
      assert left[1..] == s[1..] + [0] + rest;
      if n > 0 {
        ReadOfTerminated(s[1..], rest, n - 1);
        assert s + [0] == [s[0]] + (s[1..] + [0]);
        assert |s| > n ==> s[..n + 1] == [s[0]] + s[1..][..n];
      } else {
        assert ReadString(left[1..], -1) == Some([]);
        assert s[..1] == [s[0]] + [];
      }
    }
  }

  /**
   A string written with its terminator comes back, as a terminated string, exactly when it fits in
   `n` characters; otherwise the buffer is left without a terminator.
   */
  lemma StringSurvivesExactlyWhenItFits(s: seq<byte>, rest: seq<byte>, n: int)
    requires NulFree(s) && n >= 0
    ensures var r := ReadString(s + [0] + rest, n);
            && r.Some?
            && (r.value == s + [0] <==> |s| <= n)
            && (0 in r.value <==> |s| <= n)
  {
    ReadOfTerminated(s, rest, n);
    if |s| > n {
      assert forall i :: 0 <= i < n + 1 ==> s[i] in s;
    } else {
      assert (s + [0])[|s|] == 0;
    }
  }

  // ---------------------------------------------------------------------------------------------
  // Skipping
  // ---------------------------------------------------------------------------------------------

  const CHUNK := 1024

  /** The bytes a skip consumed, or None if it threw. */
  type Skipped = Option<nat>

  /** Skipping one byte at a time from a stream with `left` bytes. */
  function SkipBytes(left: nat, n: int): Skipped
    decreases left
  {
    if n <= 0 then Some(0)
    else if left == 0 then None
    else match SkipBytes(left - 1, n - 1)
      case None => None
      case Some(k) => Some(k + 1)
  }

  /** Skipping in chunks, stopping early when a chunk took the last byte of the stream. */
  function SkipChunks(left: nat, n: int): Skipped
    decreases left
  {
    if n >= CHUNK then
      if left < CHUNK then None
      else if left == CHUNK then Some(CHUNK)
      else match SkipChunks(left - CHUNK, n - CHUNK)
        case None => None
        case Some(k) => Some(k + CHUNK)
    else if n >= 1 then
      if left < n then None else Some(n)
    else Some(0)
  }

  lemma {:induction false} SkipBytesMeans(left: nat, n: int)
    ensures SkipBytes(left, n) == if n <= 0 then Some(0) else if n <= left then Some(n) else None
    decreases left
  {
    if n > 0 && left > 0 {
      SkipBytesMeans(left - 1, n - 1);
    }
  }

  /** A stream that runs dry at the end of a chunk: the loop returns as if it had skipped everything. */
  predicate RunsDryAtChunkEnd(left: nat, n: int) {
    n > left > 0 && left % 1024 == 0
  }

  lemma {:induction false} SkipChunksMeans(left: nat, n: int)
    ensures SkipChunks(left, n) ==
            if n <= 0 then Some(0)
            else if n <= left then Some(n)
            else if left > 0 && left % 1024 == 0 then Some(left)
            else None
    decreases left
  {
    if n >= CHUNK && left > CHUNK {
      SkipChunksMeans(left - CHUNK, n - CHUNK);
    }
  }

  /** With enough bytes left, the chunked skip consumes exactly `max(n, 0)`, as byte-at-a-time skipping does. */
  lemma SkipConsumesExactly(left: nat, n: int)
    requires n <= left
    ensures SkipChunks(left, n) == SkipBytes(left, n) == Some(if n <= 0 then 0 else n)
  {
    SkipChunksMeans(left, n);
    SkipBytesMeans(left, n);
  }

  /** With too few, the two agree unless the stream runs dry at the end of a chunk; then the error is missed. */
  lemma ChunkedSkipAgreesExactlyWhen(left: nat, n: int)
    ensures SkipChunks(left, n) == SkipBytes(left, n) <==> !RunsDryAtChunkEnd(left, n)
  {
    SkipChunksMeans(left, n);
    SkipBytesMeans(left, n);
  }

  /** 1024 bytes left and 1025 to skip: no exception, one byte short. */
  lemma ShortSkipGoesUnnoticed()
    ensures SkipChunks(1024, 1025) == Some(1024) && SkipBytes(1024, 1025) == None
  {
    SkipChunksMeans(1024, 1025);
    SkipBytesMeans(1024, 1025);
  }
}
