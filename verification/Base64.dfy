/** Binary values arrive as base64 text and leave as bytes, by way of a hexadecimal copy. */
module Base64 {
  import opened SqlTypes

  // Bit strings, two bits at a time: a byte is four pairs and a base64 digit three.

  datatype Pair = P0 | P1 | P2 | P3 {
    function Value(): nat {
      match this case P0 => 0 case P1 => 1 case P2 => 2 case P3 => 3
    }
  }

  function PairOf(n: nat): (p: Pair)
    ensures n < 4 ==> p.Value() == n
  {
    match n case 0 => P0 case 1 => P1 case 2 => P2 case _ => P3
  }

  function Pow4(n: nat): (p: nat)
    ensures p > 0
  {
    if n == 0 then 1 else 4 * Pow4(n - 1)
  }

  /** The number that pairs denote, the first one being the most significant. */
  function Number(ps: seq<Pair>): nat
    decreases |ps|
  {
    if ps == [] then 0 else 4 * Number(ps[..|ps| - 1]) + ps[|ps| - 1].Value()
  }

  /** A number as n pairs. */
  function Pairs(v: nat, n: nat): (ps: seq<Pair>)
    ensures |ps| == n
    decreases v, n
  {
    if n == 0 then [] else Pairs(v / 4, n - 1) + [PairOf(v % 4)]
  }

  lemma {:induction false} NumberOfPairs(v: nat, n: nat)
    requires v < Pow4(n)
    ensures Number(Pairs(v, n)) == v
    decreases n
  {
    if n == 0 {
    } else {
      NumberOfPairs(v / 4, n - 1);
      assert Pairs(v, n)[..n - 1] == Pairs(v / 4, n - 1);
    }
  }

  lemma {:induction false} PairsOfNumber(ps: seq<Pair>)
    ensures Number(ps) < Pow4(|ps|) && Pairs(Number(ps), |ps|) == ps
    decreases |ps|
  {
    if ps == [] {
    } else {
      var front, last := ps[..|ps| - 1], ps[|ps| - 1];
      PairsOfNumber(front);
      Quarter(Number(front), last);
      assert front + [last] == ps;
    }
  }

  lemma Quarter(n: nat, p: Pair)
    ensures (4 * n + p.Value()) / 4 == n && PairOf((4 * n + p.Value()) % 4) == p
  {
  }

  lemma {:induction false} NumberOfJoined(a: seq<Pair>, b: seq<Pair>)
    ensures Number(a + b) == Number(a) * Pow4(|b|) + Number(b)
    decreases |b|
  {
    if b == [] {
      assert a + b == a;
    } else {
      var front := b[..|b| - 1];
      NumberOfJoined(a, front);
      assert (a + b)[..|a + b| - 1] == a + front;
      assert 4 * (Number(a) * Pow4(|front|)) == Number(a) * (4 * Pow4(|front|));
    }
  }

  lemma SmallPowers()
    ensures Pow4(0) == 1 && Pow4(1) == 4 && Pow4(2) == 16 && Pow4(3) == 64 && Pow4(4) == 256
    ensures Pow4(5) == 1024 && Pow4(6) == 4096
  {
  }

  // Section 4 of RFC 4648

  const PAD: byte := 61

  function CharOf(x: nat): byte
    requires x < 64
  {
    if x < 26 then 65 + x else if x < 52 then 71 + x else if x < 62 then x - 4 else if x == 62 then 43 else 47
  }

  /** The position of a character in the alphabet, if it is there. */
  function Find(c: byte): (x: Option<nat>)
    ensures x.Some? ==> x.value < 64
  {
    if 65 <= c <= 90 then Some(c - 65)
    else if 97 <= c <= 122 then Some(c - 71)
    else if 48 <= c <= 57 then Some(c + 4)
    else if c == 43 then Some(62)
    else if c == 47 then Some(63)
    else None
  }

  lemma FindInvertsCharOf(c: byte, x: nat)
    requires x < 64
    ensures Find(c) == Some(x) <==> CharOf(x) == c
  {
  }

  /** The bits of a byte string. */
  function Unpack(b: seq<byte>): seq<Pair> {
    if b == [] then [] else Pairs(b[0], 4) + Unpack(b[1..])
  }

  function Digit(ps: seq<Pair>): byte
    requires |ps| == 3
  {
    PairsOfNumber(ps);
    SmallPowers();
    CharOf(Number(ps))
  }

  /** Six bits make a character; a rest of two or four bits is filled with zeros, and the text padded. */
  function EncodeBits(ps: seq<Pair>): seq<byte> {
    if ps == [] then []
    else if |ps| == 1 then [Digit(ps + [P0, P0])] + [PAD, PAD]
    else if |ps| == 2 then [Digit(ps + [P0])] + [PAD]
    else [Digit(ps[..3])] + EncodeBits(ps[3..])
  }

  function Encode(b: seq<byte>): seq<byte> {
    EncodeBits(Unpack(b))
  }

  // Decoding

  /** The bits of a character; those outside the alphabet have none. */
  function CharBits(c: byte): seq<Pair> {
    if Find(c).Some? then Pairs(Find(c).value, 3) else []
  }

  function TextBits(text: seq<byte>): seq<Pair> {
    if text == [] then [] else CharBits(text[0]) + TextBits(text[1..])
  }

  function ByteOf(ps: seq<Pair>): byte
    requires |ps| == 4
  {
    PairsOfNumber(ps);
    SmallPowers();
    Number(ps)
  }

  /** Eight bits make a byte; a rest is dropped. */
  function Pack(ps: seq<Pair>): seq<byte> {
    if |ps| < 4 then [] else [ByteOf(ps[..4])] + Pack(ps[4..])
  }

  function Dropped(ps: seq<Pair>): seq<Pair> {
    if |ps| < 4 then ps else Dropped(ps[4..])
  }

  function Decode(text: seq<byte>): seq<byte> {
    Pack(TextBits(text))
  }

  // The accumulator

  lemma WrapSubtracts(x: int) returns (wraps: int)
    ensures Wrap32(x) == x - wraps * 0x1_0000_0000
  {
    wraps := (x + 0x8000_0000) / 0x1_0000_0000;
  }

  /** The accumulator stands for the waiting pairs; its higher bits are left over, or lost, and never matter. */
  predicate Holds(val: int, valB: int, waiting: seq<Pair>) {
    valB + 8 == 2 * |waiting| && val % Pow4(|waiting|) == Number(waiting)
  }

  lemma Remainder(v: int, q: int, r: nat, unit: nat)
    requires unit in {1, 4, 16, 64, 256, 1024, 4096} && r < unit && v == unit * q + r
    ensures v % unit == r && v / unit == q
  {
  }

  /** Shifting in six bits. */
  lemma ShiftKeepsLowBits(val: int, x: nat, n: nat, low: nat)
    requires n < 4 && x < 64 && val % Pow4(n) == low
    ensures low * 64 + x < Pow4(n + 3) && Wrap32(val * 64 + x) % Pow4(n + 3) == low * 64 + x
  {
    SmallPowers();
    var q := val / Pow4(n);
    var wraps := WrapSubtracts(val * 64 + x);
    match n {
      case 0 => Remainder(Wrap32(val * 64 + x), q - wraps * 0x400_0000, low * 64 + x, 64);
      case 1 => Remainder(Wrap32(val * 64 + x), q - wraps * 0x100_0000, low * 64 + x, 256);
      case 2 => Remainder(Wrap32(val * 64 + x), q - wraps * 0x40_0000, low * 64 + x, 1024);
      case _ => Remainder(Wrap32(val * 64 + x), q - wraps * 0x10_0000, low * 64 + x, 4096);
    }
  }

  /** Taking a byte out: with j pairs below it. */
  lemma ByteAbove(val: int, all: nat, high: nat, low: nat, j: nat)
    requires j < 3 && high < 256 && low < Pow4(j) && all == high * Pow4(j) + low && val % Pow4(4 + j) == all
    ensures val / Pow4(j) % 256 == high && val % Pow4(j) == low
  {
    SmallPowers();
    var q := val / Pow4(4 + j);
    match j {
      case 0 => Remainder(val, 256 * q + high, low, 1);
      case 1 => Remainder(val, 256 * q + high, low, 4);
      case _ => Remainder(val, 256 * q + high, low, 16);
    }
    Remainder(256 * q + high, q, high, 256);
  }

  /** One character of the alphabet: shifts it in, and takes a byte out once there are eight bits. */
  method TakeDigit(v: int, b: int, x: nat, ghost waiting: seq<Pair>) returns (val: int, valB: int, out: seq<byte>)
    requires Holds(v, b, waiting) && |waiting| < 4 && x < 64
    ensures out == Completed(waiting, Pairs(x, 3)) && Holds(val, valB, Left(waiting, Pairs(x, 3)))
  {
    ghost var all := waiting + Pairs(x, 3);
    SmallPowers();
    NumberOfPairs(x, 3);
    NumberOfJoined(waiting, Pairs(x, 3));
    ShiftKeepsLowBits(v, x, |waiting|, Number(waiting));
    val, valB, out := Wrap32(v * 64 + x), b + 6, [];
    if valB >= 0 {
      SplitNumber(all);
      ByteAbove(val, Number(all), ByteOf(all[..4]), Number(all[4..]), |all| - 4);
      out := [val / Shift(valB) % 256];
      valB := valB - 8;
    }
  }

  /** The divisor of a shift right by an even number of bits. */
  function Shift(bits: int): nat
    requires bits in {0, 2, 4}
    ensures Shift(bits) == Pow4(bits / 2)
  {
    SmallPowers();
    match bits case 0 => 1 case 2 => 4 case _ => 16
  }

  lemma SplitNumber(all: seq<Pair>)
    requires 4 <= |all| <= 6
    ensures Number(all) == ByteOf(all[..4]) * Pow4(|all| - 4) + Number(all[4..]) && Number(all[4..]) < Pow4(|all| - 4)
  {
    NumberOfJoined(all[..4], all[4..]);
    assert all[..4] + all[4..] == all;
    PairsOfNumber(all[4..]);
  }

  /** The decoder with its wrapping accumulator computes the bytes of the text. */
  method Base64Decode(text: seq<byte>) returns (source: seq<byte>)
    ensures source == Decode(text)
  {
    source := [];
    var val, valB := 0, -8;
    ghost var waiting: seq<Pair> := [];
    var i := 0;
    NothingAdded(TextBits(text));
    while i < |text|
      invariant 0 <= i <= |text| && |waiting| < 4 && Holds(val, valB, waiting)
      invariant source + Pack(waiting + TextBits(text[i..])) == Decode(text)
    {
      var c := text[i];
      if Find(c).None? {
        TextBitsFrom(text, i);
        NothingAdded(TextBits(text[i + 1..]));
        i := i + 1;
        continue;
      }
      TakeChar(waiting, text, i, source);
      var out;
      val, valB, out := TakeDigit(val, valB, Find(c).value, waiting);
      source := source + out;
      waiting := Left(waiting, CharBits(c));
      i := i + 1;
    }
  }

  /** The pairs that wait after a character, and the byte that it completes. */
  function Left(waiting: seq<Pair>, bits: seq<Pair>): seq<Pair> {
    var all := waiting + bits;
    if |all| < 4 then all else all[4..]
  }

  function Completed(waiting: seq<Pair>, bits: seq<Pair>): seq<byte> {
    var all := waiting + bits;
    if |all| < 4 then [] else [ByteOf(all[..4])]
  }

  lemma TextBitsFrom(text: seq<byte>, i: nat)
    requires i < |text|
    ensures TextBits(text[i..]) == CharBits(text[i]) + TextBits(text[i + 1..])
  {
    assert text[i..][1..] == text[i + 1..];
  }

  lemma TakeChar(waiting: seq<Pair>, text: seq<byte>, i: nat, source: seq<byte>)
    requires i < |text| && |waiting| < 4
    ensures
      var bits, rest := CharBits(text[i]), TextBits(text[i + 1..]);
      source + Pack(waiting + TextBits(text[i..])) == source + Completed(waiting, bits) + Pack(Left(waiting, bits) + rest)
  {
    var bits, rest := CharBits(text[i]), TextBits(text[i + 1..]);
    TextBitsFrom(text, i);
    PackOneMore(waiting, bits, rest);
    Regroup(source, Completed(waiting, bits), Pack(Left(waiting, bits) + rest));
  }

  lemma PackOneMore(waiting: seq<Pair>, bits: seq<Pair>, rest: seq<Pair>)
    requires |waiting| < 4 && |bits| < 4
    ensures Pack(waiting + (bits + rest)) == Completed(waiting, bits) + Pack(Left(waiting, bits) + rest)
  {
    var all := waiting + bits;
    assert waiting + (bits + rest) == all + rest;
    if |all| >= 4 {
      assert (all + rest)[..4] == all[..4] && (all + rest)[4..] == all[4..] + rest;
    } else {
      NothingAdded(Pack(all + rest));
    }
  }

  // Round trips

  /** The zeros that fill the last character. */
  function Fill(ps: seq<Pair>): seq<Pair> {
    if ps == [] then [] else if |ps| == 1 then [P0, P0] else if |ps| == 2 then [P0] else Fill(ps[3..])
  }

  lemma DigitBits(ps: seq<Pair>)
    requires |ps| == 3
    ensures CharBits(Digit(ps)) == ps
  {
    PairsOfNumber(ps);
    SmallPowers();
    FindInvertsCharOf(Digit(ps), Number(ps));
  }

  lemma {:induction false} BitsOfEncoded(ps: seq<Pair>)
    ensures TextBits(EncodeBits(ps)) == ps + Fill(ps)
  {
    if |ps| >= 3 {
      BitsOfEncoded(ps[3..]);
      BitsOfDigitThen(ps[..3], EncodeBits(ps[3..]));
      Regroup(ps[..3], ps[3..], Fill(ps));
      assert ps[..3] + ps[3..] == ps;
    } else if |ps| == 2 {
      BitsOfDigitThen(ps + [P0], [PAD]);
      PaddingHasNoBits();
      NothingAdded(ps + [P0]);
    } else if |ps| == 1 {
      BitsOfDigitThen(ps + [P0, P0], [PAD, PAD]);
      PaddingHasNoBits();
      NothingAdded(ps + [P0, P0]);
    }
  }

  lemma BitsOfDigitThen(ps: seq<Pair>, rest: seq<byte>)
    requires |ps| == 3
    ensures TextBits([Digit(ps)] + rest) == ps + TextBits(rest)
  {
    DigitBits(ps);
    assert ([Digit(ps)] + rest)[1..] == rest;
  }

  lemma PaddingHasNoBits()
    ensures TextBits([PAD]) == [] && TextBits([PAD, PAD]) == []
  {
    assert [PAD][1..] == [] && [PAD, PAD][1..] == [PAD];
  }

  lemma {:induction false} PackUndoesUnpack(b: seq<byte>, rest: seq<Pair>)
    requires |rest| < 4
    ensures Pack(Unpack(b) + rest) == b
  {
    if b == [] {
      assert Unpack(b) + rest == rest;
    } else {
      var all := Unpack(b) + rest;
      PackUndoesUnpack(b[1..], rest);
      SmallPowers();
      NumberOfPairs(b[0], 4);
      assert all[..4] == Pairs(b[0], 4) && all[4..] == Unpack(b[1..]) + rest;
    }
  }

  lemma {:induction false} FillIsShort(ps: seq<Pair>)
    ensures |Fill(ps)| < 3 && forall i :: 0 <= i < |Fill(ps)| ==> Fill(ps)[i] == P0
  {
    if |ps| < 3 {
    } else {
      FillIsShort(ps[3..]);
    }
  }

  /** Any text with the bits of an encoding, whatever other characters are interleaved, decodes to what was encoded. */
  lemma DecodeUndoesEncode(b: seq<byte>, text: seq<byte>)
    requires TextBits(text) == TextBits(Encode(b))
    ensures Decode(text) == b
  {
    BitsOfEncoded(Unpack(b));
    FillIsShort(Unpack(b));
    PackUndoesUnpack(b, Fill(Unpack(b)));
  }

  lemma {:induction false} UnpackUndoesPack(ps: seq<Pair>)
    ensures ps == Unpack(Pack(ps)) + Dropped(ps) && |Dropped(ps)| < 4
  {
    if |ps| < 4 {
    } else {
      UnpackUndoesPack(ps[4..]);
      PairsOfNumber(ps[..4]);
      assert Pack(ps)[1..] == Pack(ps[4..]);
      assert ps == ps[..4] + (Unpack(Pack(ps[4..])) + Dropped(ps[4..]));
    }
  }

  /** The bits of a text come three pairs at a time. */
  predicate Whole(ps: seq<Pair>) {
    ps == [] || (|ps| >= 3 && Whole(ps[3..]))
  }

  lemma {:induction false} TextIsWhole(text: seq<byte>)
    ensures Whole(TextBits(text))
  {
    if text == [] {
    } else {
      TextIsWhole(text[1..]);
      assert |CharBits(text[0])| == 3 ==> TextBits(text)[3..] == TextBits(text[1..]);
      assert CharBits(text[0]) == [] ==> TextBits(text) == TextBits(text[1..]);
    }
  }

  lemma {:induction false} FillMatches(a: seq<Pair>, d: seq<Pair>)
    requires Whole(a + d) && |d| < 4
    ensures |Fill(a)| == if |d| == 3 then 0 else |d|
  {
    if |a| >= 3 {
      assert (a + d)[3..] == a[3..] + d;
      FillMatches(a[3..], d);
    } else if |a + d| >= 3 {
      assert |(a + d)[3..]| < 4;
    }
  }

  /** Only zeros are dropped, and no whole character. */
  predicate OnlyFillDropped(ps: seq<Pair>) {
    |Dropped(ps)| < 3 && forall i :: 0 <= i < |Dropped(ps)| ==> Dropped(ps)[i] == P0
  }

  /** A text has the bits of the encoding of what it decodes to iff decoding drops nothing but fill. */
  lemma EncodeUndoesDecodeIff(text: seq<byte>)
    ensures TextBits(Encode(Decode(text))) == TextBits(text)
      <==> OnlyFillDropped(TextBits(text))
  {
    var bits := TextBits(text);
    var kept, dropped := Unpack(Decode(text)), Dropped(bits);
    BitsOfEncoded(kept);
    UnpackUndoesPack(bits);
    TextIsWhole(text);
    FillMatches(kept, dropped);
    FillIsShort(kept);
    SameBehind(kept, Fill(kept), dropped);
  }

  // The hexadecimal copy

  /** Characters that are no hexadecimal digit count as zero; none occurs here. */
  function HexCharToByte(c: byte): (n: int)
    ensures 0 <= n < 16
  {
    if HexValue(c).Some? then HexValue(c).value else 0
  }

  function ToHex(b: seq<byte>): seq<byte> {
    if b == [] then [] else [HexDigit(b[0] / 16), HexDigit(b[0] % 16)] + ToHex(b[1..])
  }

  function FromHex(h: seq<byte>): seq<byte> {
    if |h| < 2 then [] else [HexCharToByte(h[0]) * 16 + HexCharToByte(h[1])] + FromHex(h[2..])
  }

  lemma {:induction false} FromHexUndoesToHex(b: seq<byte>)
    ensures FromHex(ToHex(b)) == b
  {
    if b == [] {
    } else {
      FromHexUndoesToHex(b[1..]);
      assert ToHex(b)[2..] == ToHex(b[1..]);
    }
  }

  /** The text of the digits 0 to 9 and A to F. */
  const DIGITS: seq<byte> := [48, 49, 50, 51, 52, 53, 54, 55, 56, 57, 65, 66, 67, 68, 69, 70]

  /** The digits of byte k stand at 2k, the high one first. */
  lemma {:induction false} ToHexAt(b: seq<byte>, k: nat)
    requires k < |b|
    ensures |ToHex(b)| == 2 * |b|
    ensures ToHex(b)[2 * k] == DIGITS[b[k] / 16] && ToHex(b)[2 * k + 1] == DIGITS[b[k] % 16]
  {
    var pair, rest := [HexDigit(b[0] / 16), HexDigit(b[0] % 16)], b[1..];
    assert ToHex(b) == pair + ToHex(rest);
    if rest == [] {
    } else if k == 0 {
      ToHexAt(rest, 0);
    } else {
      ToHexAt(rest, k - 1);
      assert b[k] == rest[k - 1];
    }
  }

  /** Reading accepts both cases, and takes any other character for zero. */
  lemma HexCharIs(c: byte)
    ensures 48 <= c <= 57 ==> HexCharToByte(c) == c - 48
    ensures 65 <= c <= 70 ==> HexCharToByte(c) == c - 55
    ensures 97 <= c <= 102 ==> HexCharToByte(c) == c - 87
    ensures HexCharToByte(c) > 0 ==> 49 <= c <= 57 || 65 <= c <= 70 || 97 <= c <= 102
  {
  }

  method Base64ToASCIIHexFormat(bytes: seq<byte>) returns (output: seq<byte>)
    ensures output == ToHex(bytes)
  {
    output := [];
    var i := 0;
    while i < |bytes|
      invariant 0 <= i <= |bytes|
      invariant output + ToHex(bytes[i..]) == ToHex(bytes)
    {
      var pair := [HexDigit(bytes[i] / 16), HexDigit(bytes[i] % 16)];
      assert ToHex(bytes[i..]) == pair + ToHex(bytes[i + 1..]);
      output := output + pair;
      i := i + 1;
    }
  }

  method HexToBytes(hex: seq<byte>) returns (binary: seq<byte>)
    ensures binary == FromHex(hex)
  {
    binary := [];
    var i := 0;
    while i + 1 < |hex|
      invariant 0 <= i <= |hex|
      invariant binary + FromHex(hex[i..]) == FromHex(hex)
    {
      var b := HexCharToByte(hex[i]) * 16 + HexCharToByte(hex[i + 1]);
      assert FromHex(hex[i..]) == [b] + FromHex(hex[i + 2..]);
      binary := binary + [b];
      i := i + 2;
    }
  }

  /** Delivers the longest prefix of the decoded value that fits; 01004 iff that is not all of it. */
  method ConvertBytesToBinary(text: seq<byte>, buf: array<byte>, buflen: nat) returns (truncated: bool, resultLen: nat)
    requires buflen <= buf.Length
    modifies buf
    ensures
      var value := Decode(text);
      && resultLen == (if buflen < |value| then buflen else |value|)
      && (truncated <==> resultLen < |value|)
      && buf[..] == value[..resultLen] + old(buf[resultLen..])
  {
    var decoded := Base64Decode(text);
    var hex := Base64ToASCIIHexFormat(decoded);
    var binary := HexToBytes(hex);
    FromHexUndoesToHex(decoded);
    truncated := buflen < |binary|;
    resultLen := if truncated then buflen else |binary|;
    MemCpy(buf, 0, binary[..resultLen]);
  }

  datatype Delivered = HY090 | Value(truncated: bool, resultLen: nat)

  /** The conversion of BYTES to SQL_C_BINARY: what it refuses is what the copying relies on. */
  method ConvertFromBytesDSValue(text: seq<byte>, buf: array?<byte>, buflen: int) returns (d: Delivered)
    requires buf != null ==> buflen <= buf.Length
    modifies if buf == null then {} else {buf}
    ensures d == HY090 <==> buf == null || buflen < 0
    ensures d == HY090 && buf != null ==> buf[..] == old(buf[..])
    ensures d.Value? ==>
              var value := Decode(text);
              && d.resultLen == (if buflen < |value| then buflen else |value|)
              && (d.truncated <==> d.resultLen < |value|)
              && buf[..] == value[..d.resultLen] + old(buf[d.resultLen..])
  {
    if buf == null || buflen < 0 {
      return HY090;
    }
    var truncated, resultLen := ConvertBytesToBinary(text, buf, buflen);
    return Value(truncated, resultLen);
  }
}
