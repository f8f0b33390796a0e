/** Integers as bytes: the shortest two's-complement form for SQL_C_BINARY and the 16-byte magnitude of SQL_C_NUMERIC. */
module NumericEncoding {
  import opened SqlTypes

  const SQL_MAX_NUMERIC_LEN := 16

  function Pow256(n: nat): (p: nat)
    ensures p > 0
  {
    if n == 0 then 1 else 256 * Pow256(n - 1)
  }

  /** The number that bytes denote, least significant first. */
  function Magnitude(b: seq<byte>): nat {
    if b == [] then 0 else b[0] + 256 * Magnitude(b[1..])
  }

  /** The low n bytes of an integer, least significant first; shifts of negative numbers are arithmetic. */
  function LowBytes(v: int, n: nat): (b: seq<byte>)
    ensures |b| == n
    decreases n
  {
    if n == 0 then [] else [v % 256] + LowBytes(v / 256, n - 1)
  }

  /** What remains of a natural number above its n low bytes. */
  function Above(v: nat, n: nat): nat {
    if n == 0 then v else Above(v / 256, n - 1)
  }

  lemma {:induction false} MagnitudeBound(b: seq<byte>)
    ensures Magnitude(b) < Pow256(|b|)
  {
    if b == [] {
    } else {
      MagnitudeBound(b[1..]);
    }
  }

  /** The low bytes denote the number iff it is small enough, which is when nothing remains above them. */
  lemma {:induction false} LowBytesHoldIff(v: nat, n: nat)
    ensures Magnitude(LowBytes(v, n)) == v <==> v < Pow256(n)
    ensures Above(v, n) == 0 <==> v < Pow256(n)
  {
    if n == 0 {
    } else {
      LowBytesHoldIff(v / 256, n - 1);
      assert LowBytes(v, n)[1..] == LowBytes(v / 256, n - 1);
    }
  }

  lemma {:induction false} LowBytesOfZero(n: nat)
    ensures LowBytes(0, n) == Zeros(n) && Above(0, n) == 0
  {
    if n == 0 {
    } else {
      LowBytesOfZero(n - 1);
    }
  }

  // SQL_C_NUMERIC

  /** The shifting loop over val[]; it ends early, or with something left over. */
  method FillMagnitude(v: nat, val: array<byte>) returns (overflow: bool)
    requires val[..] == Zeros(val.Length)
    modifies val
    ensures val[..] == LowBytes(v, val.Length)
    ensures overflow <==> v >= Pow256(val.Length)
  {
    var rest, i := v, 0;
    while rest > 0 && i < val.Length
      invariant 0 <= i <= val.Length
      invariant Partly(val[..i], rest, val.Length - i, v)
      invariant val[i..] == Zeros(val.Length - i)
    {
      PartlyMore(val[..i], rest, val.Length - i, v);
      assert val[i..][1..] == val[i + 1..] == Zeros(val.Length - i - 1);
      WriteByte(val, i, rest % 256);
      i, rest := i + 1, rest / 256;
    }
    overflow := rest > 0;
    PartlyDone(val[..i], rest, val.Length - i, v);
    assert val[..] == val[..i] + val[i..];
  }

  method WriteByte(buf: array<byte>, i: nat, b: byte)
    requires i < buf.Length
    modifies buf
    ensures buf[..i + 1] == old(buf[..i]) + [b] && buf[i + 1..] == old(buf[i + 1..])
  {
    buf[i] := b;
  }

  /** What is written together with the low bytes of what is left are the low bytes of v. */
  ghost predicate Partly(written: seq<byte>, rest: nat, n: nat, v: nat) {
    && written + LowBytes(rest, n) == LowBytes(v, |written| + n)
    && Above(rest, n) == Above(v, |written| + n)
  }

  lemma PartlyMore(written: seq<byte>, rest: nat, n: nat, v: nat)
    requires Partly(written, rest, n, v) && n > 0
    ensures Partly(written + [rest % 256], rest / 256, n - 1, v)
  {
    assert written + LowBytes(rest, n) == written + [rest % 256] + LowBytes(rest / 256, n - 1);
  }

  lemma PartlyDone(written: seq<byte>, rest: nat, n: nat, v: nat)
    requires Partly(written, rest, n, v) && (rest == 0 || n == 0)
    ensures written + Zeros(n) == LowBytes(v, |written| + n)
    ensures rest > 0 <==> v >= Pow256(|written| + n)
  {
    LowBytesHoldIff(v, |written| + n);
    if rest == 0 {
      LowBytesOfZero(n);
    }
  }

  /** A signed 64-bit integer; negating the smallest one wraps to itself. */
  function Wrap64(x: int): (r: int)
    ensures -0x8000_0000_0000_0000 <= r < 0x8000_0000_0000_0000
  {
    (x + 0x8000_0000_0000_0000) % 0x1_0000_0000_0000_0000 - 0x8000_0000_0000_0000
  }

  function Unsigned64(x: int): (r: nat)
    ensures r < 0x1_0000_0000_0000_0000
  {
    x % 0x1_0000_0000_0000_0000
  }

  lemma SixtyFourBitsFit()
    ensures Pow256(8) == 0x1_0000_0000_0000_0000 && Pow256(8) < Pow256(16)
  {
    assert Pow256(4) == 0x1_0000_0000;
    assert Pow256(12) == 256 * (256 * (256 * (256 * Pow256(8))));
    assert Pow256(16) == 256 * (256 * (256 * (256 * Pow256(12))));
  }

  /** A 64-bit source value: sign, and a magnitude that always fits, even for the smallest value. */
  method ConvertToNumeric(v: int, val: array<byte>) returns (sign: nat, overflow: bool)
    requires val.Length == SQL_MAX_NUMERIC_LEN && val[..] == Zeros(val.Length)
    requires -0x8000_0000_0000_0000 <= v < 0x8000_0000_0000_0000
    modifies val
    ensures !overflow && Magnitude(val[..]) == (if v < 0 then -v else v)
    ensures sign == if v < 0 then 0 else 1
    ensures forall i :: 8 <= i < 16 ==> val[i] == 0
  {
    sign := if v < 0 then 0 else 1;
    var magnitude := Unsigned64(if v < 0 then Wrap64(-v) else v);
    MagnitudeIsExact(v);
    overflow := FillMagnitude(magnitude, val);
    FitsEightBytes(magnitude, val.Length);
  }

  lemma MagnitudeIsExact(v: int)
    requires -0x8000_0000_0000_0000 <= v < 0x8000_0000_0000_0000
    ensures Unsigned64(if v < 0 then Wrap64(-v) else v) == if v < 0 then -v else v
  {
  }

  lemma FitsEightBytes(v: nat, n: nat)
    requires v < 0x1_0000_0000_0000_0000 && n == 16
    ensures v < Pow256(n) && Magnitude(LowBytes(v, n)) == v
    ensures forall i :: 8 <= i < n ==> LowBytes(v, n)[i] == 0
  {
    SixtyFourBitsFit();
    LowBytesHoldIff(v, n);
    HighBytesZero(v, 8, n);
  }

  lemma {:induction false} HighBytesZero(v: nat, k: nat, n: nat)
    requires v < Pow256(k) && k <= n
    ensures forall i :: k <= i < n ==> LowBytes(v, n)[i] == 0
  {
    if k == 0 {
      LowBytesOfZero(n);
    } else {
      HighBytesZero(v / 256, k - 1, n - 1);
    }
  }

  // SQL_C_BINARY

  predicate Int32(v: int) {
    -0x8000_0000 <= v < 0x8000_0000
  }

  /** The number that bytes denote in two's complement, least significant first: the last byte carries the sign. */
  function Signed(b: seq<byte>): int
    requires b != []
  {
    var low: int := b[0];
    if |b| > 1 then low + 256 * Signed(b[1..]) else if low < 128 then low else low - 256
  }

  /** The least count by the ranges of signed integers of 1, 2, 3 and 4 bytes. */
  function ByteCount(v: int): nat {
    if -128 <= v <= 127 then 1
    else if -32768 <= v <= 32767 then 2
    else if -8388608 <= v <= 8388607 then 3
    else 4
  }

  /** An arithmetic shift right by 8i bits. */
  function ShiftRight(v: int, i: nat): int
    requires i <= 4
  {
    match i case 0 => v case 1 => v / 256 case 2 => v / 0x1_0000 case 3 => v / 0x100_0000 case _ => v / 0x1_0000_0000
  }

  lemma ShiftOneMore(v: int, i: nat)
    requires i < 4
    ensures ShiftRight(v, i + 1) == ShiftRight(v, i) / 256
  {
  }

  /** Refused with 22003 and nothing written iff the buffer is too small for the shortest form. */
  method ConvertToBinary(v: int, buf: array<byte>, buflen: int) returns (tooSmall: bool, resultLen: nat)
    requires Int32(v) && buflen <= buf.Length
    modifies buf
    ensures tooSmall <==> buflen < ByteCount(v)
    ensures tooSmall ==> buf[..] == old(buf[..])
    ensures !tooSmall ==>
              && resultLen == ByteCount(v) && buf[..resultLen] == LowBytes(v, resultLen)
              && buf[resultLen..] == old(buf[resultLen..])
  {
    var byteCount := ByteCount(v);
    if buflen < byteCount {
      return true, 0;
    }
    var i := 0;
    while i < byteCount
      invariant 0 <= i <= byteCount
      invariant SignedPartly(buf[..i], ShiftRight(v, i), byteCount - i, v)
      invariant buf[i..] == old(buf[i..])
    {
      var rest := ShiftRight(v, i);
      SignedPartlyMore(buf[..i], rest, byteCount - i, v);
      ShiftOneMore(v, i);
      assert buf[i..][1..] == buf[i + 1..] && old(buf[i..])[1..] == old(buf[i + 1..]);
      WriteByte(buf, i, rest % 256);
      i := i + 1;
    }
    SignedPartlyDone(buf[..i], ShiftRight(v, i), v);
    return false, byteCount;
  }

  /** What is written together with the bytes of what is left are the bytes of v. */
  ghost predicate SignedPartly(written: seq<byte>, rest: int, n: nat, v: int) {
    written + LowBytes(rest, n) == LowBytes(v, |written| + n)
  }

  lemma SignedPartlyDone(written: seq<byte>, rest: int, v: int)
    requires SignedPartly(written, rest, 0, v)
    ensures written == LowBytes(v, |written|)
  {
    assert written + [] == written;
  }

  lemma SignedPartlyMore(written: seq<byte>, rest: int, n: nat, v: int)
    requires SignedPartly(written, rest, n, v) && n > 0
    ensures SignedPartly(written + [rest % 256], rest / 256, n - 1, v)
  {
    assert written + LowBytes(rest, n) == written + [rest % 256] + LowBytes(rest / 256, n - 1);
  }

  /** n bytes sign-extend back to a value iff the signed range of n bytes holds it. */
  lemma {:induction false} SignedBytesHoldIff(v: int, n: nat)
    requires n > 0
    ensures Signed(LowBytes(v, n)) == v <==> -128 * Pow256(n - 1) <= v < 128 * Pow256(n - 1)
    decreases n
  {
    if n == 1 {
      assert Pow256(0) == 1;
    } else {
      SignedBytesHoldIff(v / 256, n - 1);
      assert LowBytes(v, n)[1..] == LowBytes(v / 256, n - 1);
    }
  }

  lemma {:induction false} SignedRange(b: seq<byte>)
    requires b != []
    ensures -128 * Pow256(|b| - 1) <= Signed(b) < 128 * Pow256(|b| - 1)
  {
    if |b| <= 1 {
    } else {
      SignedRange(b[1..]);
    }
  }

  lemma CountHolds(v: int)
    requires Int32(v)
    ensures
      var n := ByteCount(v);
      -128 * Pow256(n - 1) <= v < 128 * Pow256(n - 1)
      && (n > 1 ==> !(-128 * Pow256(n - 2) <= v < 128 * Pow256(n - 2)))
  {
    assert Pow256(0) == 1 && Pow256(1) == 256 && Pow256(2) == 0x1_0000 && Pow256(3) == 0x100_0000;
  }

  lemma {:induction false} RangesGrow(m: nat, n: nat)
    requires m <= n
    ensures Pow256(m) <= Pow256(n)
  {
    if m >= n {
    } else {
      RangesGrow(m, n - 1);
    }
  }

  /** The delivered bytes sign-extend back to the value, and no shorter byte string does. */
  lemma BinaryIsShortest(v: int, b: seq<byte>)
    requires Int32(v)
    ensures Signed(LowBytes(v, ByteCount(v))) == v
    ensures b != [] && Signed(b) == v ==> ByteCount(v) <= |b|
  {
    var n := ByteCount(v);
    CountHolds(v);
    SignedBytesHoldIff(v, n);
    if b != [] && Signed(b) == v && |b| < n {
      SignedRange(b);
      RangesGrow(|b| - 1, n - 2);
      assert false;
    }
  }
}
