/** Percent-encoding of one URL path segment, as section 2.1 of RFC 3986 describes it. */
module UrlSegment {
  import opened SqlTypes

  const PERCENT: byte := 37

  predicate IsAlnum(c: byte) {
    48 <= c <= 57 || 65 <= c <= 90 || 97 <= c <= 122
  }

  /** Characters copied as they are: '-', '_', '~' and alphanumerics. A dot, though unreserved, is not among them. */
  predicate Plain(c: byte) {
    IsAlnum(c) || c == 45 || c == 95 || c == 126
  }

  /** std::hex with std::uppercase, a field width of 2 and '0' as fill. */
  function Padded(c: byte): seq<byte> {
    if c < 16 then [48, HexDigit(c)] else [HexDigit(c / 16), HexDigit(c % 16)]
  }

  function EncodeChar(c: byte): seq<byte> {
    if Plain(c) then [c] else [PERCENT] + Padded(c)
  }

  function Encode(value: seq<byte>): seq<byte> {
    if value == [] then [] else EncodeChar(value[0]) + Encode(value[1..])
  }

  lemma EncodeFrom(value: seq<byte>, i: nat)
    requires i < |value|
    ensures Encode(value[i..]) == EncodeChar(value[i]) + Encode(value[i + 1..])
  {
    assert value[i..][1..] == value[i + 1..];
  }

  method UrlEncodeSegment(value: seq<byte>) returns (os: seq<byte>)
    ensures os == Encode(value)
  {
    os := [];
    var i := 0;
    NothingAdded(Encode(value));
    while i < |value|
      invariant 0 <= i <= |value|
      invariant os + Encode(value[i..]) == Encode(value)
    {
      var c := value[i];
      EncodeFrom(value, i);
      Regroup(os, EncodeChar(c), Encode(value[i + 1..]));
      if IsAlnum(c) || c == 45 || c == 95 || c == 126 {
        os := os + [c];
      } else {
        Regroup(os, [PERCENT], Padded(c));
        os := os + [PERCENT];
        os := os + Padded(c);
      }
      i := i + 1;
    }
  }

  // Percent-decoding

  predicate Triplet(s: seq<byte>) {
    |s| >= 3 && s[0] == PERCENT && HexValue(s[1]).Some? && HexValue(s[2]).Some?
  }

  function TripletValue(s: seq<byte>): byte
    requires Triplet(s)
  {
    HexValue(s[1]).value * 16 + HexValue(s[2]).value
  }

  /** Replaces every well-formed triplet by its byte. */
  function Decode(s: seq<byte>): seq<byte> {
    if s == [] then []
    else if Triplet(s) then [TripletValue(s)] + Decode(s[3..])
    else [s[0]] + Decode(s[1..])
  }

  lemma TripletOfChar(c: byte, rest: seq<byte>)
    requires !Plain(c)
    ensures Triplet(EncodeChar(c) + rest) && TripletValue(EncodeChar(c) + rest) == c
    ensures (EncodeChar(c) + rest)[3..] == rest
  {
    assert c == c / 16 * 16 + c % 16;
  }

  lemma DecodeOneChar(c: byte, rest: seq<byte>)
    ensures Decode(EncodeChar(c) + rest) == [c] + Decode(rest)
  {
    if Plain(c) {
      assert (EncodeChar(c) + rest)[1..] == rest;
    } else {
      TripletOfChar(c, rest);
    }
  }

  lemma {:induction false} DecodeUndoesEncode(value: seq<byte>)
    ensures Decode(Encode(value)) == value
  {
    if value == [] {
    } else {
      DecodeUndoesEncode(value[1..]);
      DecodeOneChar(value[0], Encode(value[1..]));
    }
  }

  /** Percent-decoding inverts the encoder on every byte string, so different names give different segments. */
  lemma EncodeIsInjective(a: seq<byte>, b: seq<byte>)
    ensures Decode(Encode(a)) == a
    ensures Encode(a) == Encode(b) <==> a == b
  {
    DecodeUndoesEncode(a);
    DecodeUndoesEncode(b);
  }

  /** A segment: plain characters and upper-case triplets for bytes that are not plain, nothing else. */
  predicate Segment(s: seq<byte>) {
    if s == [] then true
    else if Plain(s[0]) then Segment(s[1..])
    else Triplet(s) && s[1..3] == Padded(TripletValue(s)) && !Plain(TripletValue(s)) && Segment(s[3..])
  }

  /** The encoder's image is exactly the segments; no '/', '.', '%' or other delimiter escapes. */
  lemma SegmentIff(s: seq<byte>)
    ensures Segment(s) <==> exists value :: Encode(value) == s
  {
    if Segment(s) {
      EncodeUndoesDecode(s);
    }
    forall value | Encode(value) == s ensures Segment(s) {
      EncodesToSegment(value);
    }
  }

  lemma {:induction false} EncodeUndoesDecode(s: seq<byte>)
    requires Segment(s)
    ensures Encode(Decode(s)) == s
  {
    if s == [] {
    } else if Plain(s[0]) {
      EncodeUndoesDecode(s[1..]);
      assert !Triplet(s) && Decode(s)[1..] == Decode(s[1..]);
    } else {
      EncodeUndoesDecode(s[3..]);
      assert Decode(s)[1..] == Decode(s[3..]);
      assert s == [s[0]] + s[1..3] + s[3..];
    }
  }

  lemma {:induction false} EncodesToSegment(value: seq<byte>)
    ensures Segment(Encode(value))
  {
    if value == [] {
    } else {
      var c, rest := value[0], Encode(value[1..]);
      EncodesToSegment(value[1..]);
      if Plain(c) {
        assert ([c] + rest)[1..] == rest;
      } else {
        TripletOfChar(c, rest);
        assert (EncodeChar(c) + rest)[1..3] == Padded(c);
      }
    }
  }

  predicate IsIn(c: byte, first: char, last: char) {
    first as int <= c <= last as int
  }

  /** A byte is copied as it is iff it is a letter or a digit of ASCII, a hyphen, an underscore or a tilde. */
  lemma CopiedIff(c: byte)
    ensures Encode([c]) == [c] <==>
              IsIn(c, 'A', 'Z') || IsIn(c, 'a', 'z') || IsIn(c, '0', '9') || IsIn(c, '-', '-') || IsIn(c, '_', '_')
              || IsIn(c, '~', '~')
  {
    EncodeOne(c);
  }

  lemma EncodeOne(c: byte)
    ensures Encode([c]) == EncodeChar(c)
  {
    assert [c][1..] == [];
    NothingAdded(EncodeChar(c));
  }

  /** What would end or change a path segment is never copied: slash, dot, colon, percent, question mark and hash. */
  lemma DelimitersAreEncoded(c: byte)
    requires c in {47, 46, 58, 37, 63, 35}
    ensures Encode([c]) == [37, HexDigit(c / 16), HexDigit(c % 16)]
  {
    EncodeOne(c);
  }
}
