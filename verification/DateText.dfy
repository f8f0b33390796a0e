/** Dates and times as text: three numbers printed with snprintf and read back from a stream. */
module DateText {
  import opened SqlTypes

  // Decimal numbers

  predicate IsDigit(c: char) {
    '0' <= c <= '9'
  }

  predicate AllDigits(s: string) {
    forall i :: 0 <= i < |s| ==> IsDigit(s[i])
  }

  function Digit(n: nat): (c: char)
    requires n < 10
    ensures IsDigit(c)
  {
    '0' + n as char
  }

  /** The number that decimal digits denote. */
  function Value(s: string): (v: int)
    requires AllDigits(s)
    ensures v >= 0
    decreases |s|
  {
    if s == "" then 0 else 10 * Value(s[..|s| - 1]) + (s[|s| - 1] as int - '0' as int)
  }

  function Decimal(n: nat): (s: string)
    ensures s != "" && AllDigits(s) && Value(s) == n
  {
    var d := [Digit(n % 10)];
    if n < 10 then
      assert d[..0] == "";
      d
    else
      assert (Decimal(n / 10) + d)[..|Decimal(n / 10)|] == Decimal(n / 10);
      Decimal(n / 10) + d
  }

  function Zeroes(n: nat): (s: string)
    ensures |s| == n && AllDigits(s) && Value(s) == 0
  {
    if n == 0 then "" else
      assert (Zeroes(n - 1) + "0")[..n - 1] == Zeroes(n - 1);
      Zeroes(n - 1) + "0"
  }

  lemma {:induction false} LeadingZeroes(z: string, s: string)
    requires AllDigits(z) && Value(z) == 0 && AllDigits(s)
    ensures AllDigits(z + s) && Value(z + s) == Value(s)
    decreases |s|
  {
    if s == "" {
      assert z + s == z;
    } else {
      var front := s[..|s| - 1];
      LeadingZeroes(z, front);
      assert (z + s)[..|z + s| - 1] == z + front;
    }
  }

  /** %0wd of a number that is not negative. */
  function Padded(n: nat, width: nat): (s: string)
    ensures s != "" && AllDigits(s) && Value(s) == n && |s| >= width
  {
    var d := Decimal(n);
    var z := Zeroes(if |d| < width then width - |d| else 0);
    LeadingZeroes(z, d);
    z + d
  }

  /** %0wd: the sign counts towards the width. */
  function Printed(n: int, width: nat): (s: string)
    ensures s != ""
  {
    if n < 0 then "-" + Padded(-n, if width > 0 then width - 1 else 0) else Padded(n, width)
  }

  /** Cutting digits off the end leaves at most a tenth of the number. */
  lemma {:induction false} CutIsSmaller(s: string, k: nat)
    requires AllDigits(s) && k < |s|
    ensures AllDigits(s[..k]) && 10 * Value(s[..k]) <= Value(s)
    decreases |s|
  {
    var front := s[..|s| - 1];
    if k < |front| {
      CutIsSmaller(front, k);
      assert front[..k] == s[..k];
    } else {
      assert s[..k] == front;
    }
  }

  // Reading from a stream

  predicate IsSpace(c: char) {
    c == ' ' || c == '\t' || c == '\n' || c == '\r' || c == '\U{000B}' || c == '\U{000C}'
  }

  function SkipSpace(s: string): (r: string)
    ensures s == "" || !IsSpace(s[0]) ==> r == s
  {
    if s != "" && IsSpace(s[0]) then SkipSpace(s[1..]) else s
  }

  function DigitCount(s: string): (n: nat)
    ensures n <= |s| && AllDigits(s[..n])
    ensures n < |s| ==> !IsDigit(s[n])
  {
    if s != "" && IsDigit(s[0]) then
      assert s[1..][..DigitCount(s[1..])] == s[1..1 + DigitCount(s[1..])];
      1 + DigitCount(s[1..])
    else 0
  }

  /** ss >> int: an optional sign and digits; fails without digits or outside 32 bits. */
  function ReadInt(stream: string): Option<(int, string)> {
    var s := SkipSpace(stream);
    if s != "" && s[0] == '-' then ReadDigits(s[1..], true)
    else if s != "" && s[0] == '+' then ReadDigits(s[1..], false)
    else ReadDigits(s, false)
  }

  function ReadDigits(s: string, negative: bool): Option<(int, string)> {
    var k := DigitCount(s);
    var v := if negative then -Value(s[..k]) else Value(s[..k]);
    if k > 0 && -0x8000_0000 <= v < 0x8000_0000 then Some((v, s[k..])) else None
  }

  /** ss >> char. */
  function ReadChar(stream: string): Option<(char, string)> {
    var s := SkipSpace(stream);
    if s == "" then None else Some((s[0], s[1..]))
  }

  lemma ReadThese(d: string, rest: string, negative: bool)
    requires d != "" && AllDigits(d) && Value(d) < 0x8000_0000 && (rest != "" ==> !IsDigit(rest[0]))
    ensures ReadDigits(d + rest, negative) == Some((if negative then -Value(d) else Value(d), rest))
  {
    CountThese(d, rest);
    assert (d + rest)[..|d|] == d && (d + rest)[|d|..] == rest;
  }

  lemma {:induction false} CountThese(d: string, rest: string)
    requires AllDigits(d) && (rest != "" ==> !IsDigit(rest[0]))
    ensures DigitCount(d + rest) == |d|
  {
    if d == "" {
      assert d + rest == rest;
    } else {
      assert (d + rest)[1..] == d[1..] + rest;
      CountThese(d[1..], rest);
    }
  }

  lemma ReadUnsigned(d: string, rest: string)
    requires d != "" && AllDigits(d) && Value(d) < 0x8000_0000 && (rest != "" ==> !IsDigit(rest[0]))
    ensures ReadInt(d + rest) == Some((Value(d), rest))
  {
    ReadThese(d, rest, false);
    assert IsDigit(d[0]) && (d + rest)[0] == d[0];
  }

  /** The text of a number as printed: digits, behind a sign if it is negative. */
  predicate Numeral(a: string, n: int) {
    if n < 0 then |a| > 1 && a[0] == '-' && AllDigits(a[1..]) && Value(a[1..]) == -n
    else a != "" && AllDigits(a) && Value(a) == n
  }

  lemma PrintedIsNumeral(n: int, width: nat)
    ensures Numeral(Printed(n, width), n)
  {
    if n < 0 {
      var d := Padded(-n, if width > 0 then width - 1 else 0);
      assert ("-" + d)[1..] == d;
    }
  }

  lemma ReadNumeral(a: string, n: int, rest: string)
    requires Numeral(a, n) && -0x8000_0000 < n < 0x8000_0000 && (rest != "" ==> !IsDigit(rest[0]))
    ensures ReadInt(a + rest) == Some((n, rest))
  {
    if n < 0 {
      ReadThese(a[1..], rest, true);
      assert (a + rest)[1..] == a[1..] + rest;
      assert (a + rest)[0] == '-';
    } else {
      ReadUnsigned(a, rest);
    }
  }

  // Three numbers with separators

  datatype Style = Date | Time {
    function Separator(): char { if Date? then '-' else ':' }

    function Width(): nat { if Date? then 4 else 2 }

    /** SQL_DATE_LEN and kTimeCharLength. */
    function Length(): nat { if Date? then 10 else 8 }

    /** The year is signed. */
    predicate Holds(f: Fields) {
      && (if Date? then -0x8000 <= f.a < 0x8000 else 0 <= f.a < 0x1_0000)
      && f.b < 0x1_0000 && f.c < 0x1_0000
    }
  }

  /** The fields of DATE_STRUCT or TIME_STRUCT, 16 bits each. */
  datatype Fields = Fields(a: int, b: nat, c: nat)

  function After(s: Style, digits: string): string {
    [s.Separator()] + digits
  }

  function Join(a: string, b: string, c: string, s: Style): string {
    a + (After(s, b) + After(s, c))
  }

  function Text(f: Fields, s: Style): string {
    Join(Printed(f.a, s.Width()), Padded(f.b, 2), Padded(f.c, 2), s)
  }

  /** Storing an int in a 16-bit field. */
  function Narrow(v: int, isSigned: bool): int {
    var low := v % 0x1_0000;
    if isSigned && low >= 0x8000 then low - 0x1_0000 else low
  }

  function ReadSeparated(stream: string, s: Style): Option<(int, string)> {
    var c := ReadChar(stream);
    if c.Some? && c.value.0 == s.Separator() then ReadInt(c.value.1) else None
  }

  /** Reads number, separator, number, separator, number; what follows is not looked at. */
  function Parse(text: string, s: Style): Option<Fields> {
    var a := ReadInt(text);
    if a.None? then None else ParseRest(a.value.0, a.value.1, s)
  }

  function ParseRest(a: int, stream: string, s: Style): Option<Fields> {
    var b := ReadSeparated(stream, s);
    if b.None? then None
    else
      var c := ReadSeparated(b.value.1, s);
      if c.None? then None
      else Some(Fields(Narrow(a, s.Date?), Narrow(b.value.0, false), Narrow(c.value.0, false)))
  }

  lemma ReadCharOf(c: char, rest: string)
    requires !IsSpace(c)
    ensures ReadChar([c] + rest) == Some((c, rest))
  {
    assert ([c] + rest)[1..] == rest;
  }

  lemma ReadSeparatedOf(d: string, rest: string, s: Style)
    requires d != "" && AllDigits(d) && Value(d) < 0x1_0000 && (rest != "" ==> !IsDigit(rest[0]))
    ensures ReadSeparated(After(s, d) + rest, s) == Some((Value(d), rest))
  {
    ReadUnsigned(d, rest);
    ReadCharOf(s.Separator(), d + rest);
    AfterJoins(s, d, rest);
  }

  lemma AfterJoins(s: Style, d: string, rest: string)
    ensures After(s, d) + rest == [s.Separator()] + (d + rest)
  {
  }

  lemma NarrowKeeps(f: Fields, s: Style)
    requires s.Holds(f)
    ensures Fields(Narrow(f.a, s.Date?), Narrow(f.b, false), Narrow(f.c, false)) == f
  {
  }

  /** Two more numbers, given by their digits. */
  lemma ParseRestOf(a: int, d: string, e: string, s: Style)
    requires d != "" && AllDigits(d) && Value(d) < 0x1_0000
    requires e != "" && AllDigits(e) && Value(e) < 0x1_0000
    ensures ParseRest(a, After(s, d) + After(s, e), s)
         == Some(Fields(Narrow(a, s.Date?), Narrow(Value(d), false), Narrow(Value(e), false)))
  {
    ReadSeparatedOf(d, After(s, e), s);
    ReadSeparatedOf(e, "", s);
    assert After(s, e) + "" == After(s, e);
  }

  /** The pieces of a text for some fields. */
  predicate Pieces(a: string, b: string, c: string, f: Fields, s: Style) {
    && s.Holds(f) && Numeral(a, f.a)
    && b != "" && AllDigits(b) && Value(b) == f.b
    && c != "" && AllDigits(c) && Value(c) == f.c
  }

  lemma ParseJoin(a: string, b: string, c: string, f: Fields, s: Style)
    requires Pieces(a, b, c, f, s)
    ensures Parse(Join(a, b, c, s), s) == Some(f)
  {
    ReadNumeral(a, f.a, After(s, b) + After(s, c));
    ParseRestOf(f.a, b, c, s);
    NarrowKeeps(f, s);
  }

  /** Reading back the whole text gives the same fields. */
  lemma ParseUndoesText(f: Fields, s: Style)
    requires s.Holds(f)
    ensures Parse(Text(f, s), s) == Some(f)
  {
    PrintedIsNumeral(f.a, s.Width());
    ParseJoin(Printed(f.a, s.Width()), Padded(f.b, 2), Padded(f.c, 2), f, s);
  }

  // Cut texts

  lemma ReadNothing(s: Style)
    ensures ReadInt("") == None && ReadChar("") == None && ReadSeparated("", s) == None
    ensures ReadSeparated([s.Separator()], s) == None
  {
    assert [s.Separator()] == [s.Separator()] + "";
    ReadCharOf(s.Separator(), "");
  }

  /** Where the text stops at the second separator or before, the third number cannot be read. */
  lemma CutBeforeLast(a: int, d: string, k: nat, s: Style)
    requires d != "" && AllDigits(d) && Value(d) < 0x1_0000 && k <= |After(s, d)| + 1
    ensures ParseRest(a, (After(s, d) + [s.Separator()])[..k], s) == None
  {
    ReadNothing(s);
    if k == 0 {
    } else if k == 1 {
      assert (After(s, d) + [s.Separator()])[..1] == [s.Separator()];
    } else if k <= |After(s, d)| {
      var e := d[..k - 1];
      CutIsSmallerOrSame(d, k - 1);
      assert (After(s, d) + [s.Separator()])[..k] == After(s, e) + "";
      ReadSeparatedOf(e, "", s);
    } else {
      assert (After(s, d) + [s.Separator()])[..k] == After(s, d) + [s.Separator()];
      ReadSeparatedOf(d, [s.Separator()], s);
    }
  }

  lemma CutIsSmallerOrSame(d: string, k: nat)
    requires AllDigits(d) && k <= |d|
    ensures AllDigits(d[..k]) && Value(d[..k]) <= Value(d)
  {
    if k < |d| {
      CutIsSmaller(d, k);
    } else {
      assert d[..k] == d;
    }
  }

  /** A text cut inside the first number, or just behind it, has no second number. */
  lemma CutInFirst(a: string, n: int, k: nat, s: Style)
    requires Numeral(a, n) && k <= |a|
    ensures Parse(a[..k], s) == None
  {
    ReadNothing(s);
    if n < 0 && k > 0 {
      assert a[..k][1..] == a[1..][..k - 1];
      NothingLeft(a[1..][..k - 1], true);
    } else {
      NothingLeft(a[..k], false);
    }
    var r := ReadInt(a[..k]);
    if r.Some? {
      assert ParseRest(r.value.0, "", s) == None;
    }
  }

  lemma NothingLeft(d: string, negative: bool)
    requires AllDigits(d)
    ensures var r := ReadDigits(d, negative); r.Some? ==> r.value.1 == ""
    ensures var r := ReadInt(d); r.Some? ==> r.value.1 == ""
  {
    assert d + "" == d;
    CountThese(d, "");
  }

  lemma CutInSecond(a: string, b: string, c: string, f: Fields, s: Style, k: nat)
    requires Pieces(a, b, c, f, s) && 0 < k <= |After(s, b)| + 1
    ensures Parse(a + (After(s, b) + [s.Separator()])[..k], s) == None
  {
    ReadNumeral(a, f.a, (After(s, b) + [s.Separator()])[..k]);
    CutBeforeLast(f.a, b, k, s);
  }

  /** Cut behind some digits of the last number, the text gives a number at most a tenth as large. */
  lemma CutInThirdIff(a: string, b: string, c: string, f: Fields, s: Style, j: nat)
    requires Pieces(a, b, c, f, s) && 0 < j < |c|
    ensures Parse(Join(a, b, c[..j], s), s) == Some(f) <==> f.c == 0
  {
    var d := c[..j];
    CutIsSmaller(c, j);
    assert Value(d) == f.c <==> f.c == 0;
    ParseJoin(a, b, d, f.(c := Value(d)), s);
  }

  lemma CutOfJoin(a: string, b: string, c: string, s: Style, k: nat)
    requires k <= |Join(a, b, c, s)|
    ensures Join(a, b, c, s)[..k]
         == if k <= |a| then a[..k]
            else if k <= |a| + |b| + 2 then a + (After(s, b) + [s.Separator()])[..k - |a|]
            else Join(a, b, c[..k - |a| - |b| - 2], s)
  {
    var rest := After(s, b) + After(s, c);
    if k <= |a| {
    } else if k <= |a| + |b| + 2 {
      assert (a + rest)[..k] == a + rest[..k - |a|];
      assert rest[..k - |a|] == (After(s, b) + [s.Separator()])[..k - |a|];
    } else {
      assert (a + rest)[..k] == a + rest[..k - |a|];
      assert rest[..k - |a|] == After(s, b) + After(s, c[..k - |a| - |b| - 2]);
    }
  }

  /** A cut text reads back as the same fields only if the last number is zero and one of its digits is left. */
  lemma CutTextIff(a: string, b: string, c: string, f: Fields, s: Style, k: nat)
    requires Pieces(a, b, c, f, s) && k < |Join(a, b, c, s)|
    ensures Parse(Join(a, b, c, s)[..k], s) == Some(f) <==> f.c == 0 && k > |Join(a, b, c, s)| - |c|
  {
    CutOfJoin(a, b, c, s, k);
    if k <= |a| {
      CutInFirst(a, f.a, k, s);
    } else if k <= |a| + |b| + 2 {
      CutInSecond(a, b, c, f, s, k - |a|);
    } else {
      CutInThirdIff(a, b, c, f, s, k - |a| - |b| - 2);
    }
  }

  // The buffer

  function Pattern(s: Style): (p: string)
    ensures |p| == s.Length()
  {
    if s.Date? then "YYYY-MM-DD" else "HH:MM:SS"
  }

  datatype Status = Ok | Truncated | BadLength

  /** What the buffer holds as a C string: the pattern, if the driver refuses the length, or what snprintf lets fit. */
  function Delivered(f: Fields, s: Style, buflen: nat): (t: string)
    requires buflen > 0
    ensures |t| < buflen
  {
    if buflen < s.Length() then Pattern(s)[..buflen - 1]
    else if |Text(f, s)| < buflen then Text(f, s)
    else Text(f, s)[..buflen - 1]
  }

  /** The buffer holds a C string, and behind it what was there before. */
  predicate IsCString(now: seq<char>, t: string, before: seq<char>) {
    && |t| < |now| == |before|
    && now[..|t|] == t && now[|t|] == '\0' && now[|t| + 1..] == before[|t| + 1..]
  }

  method CopyString(src: string, buf: array<char>)
    requires |src| < buf.Length
    modifies buf
    ensures IsCString(buf[..], src, old(buf[..]))
  {
    var i := 0;
    while i < |src|
      invariant 0 <= i <= |src|
      invariant buf[..i] == src[..i] && buf[i..] == old(buf[i..])
    {
      buf[i] := src[i];
      i := i + 1;
    }
    buf[i] := '\0';
  }

  /** SQL_C_CHAR from a date or a time; the length reported is that of the pattern, whatever was printed. */
  method PrintFields(f: Fields, s: Style, buf: array<char>, buflen: int) returns (status: Status, resultLen: int)
    requires buflen <= buf.Length
    modifies buf
    ensures status == if buflen <= 0 then BadLength else if buflen < s.Length() then Truncated else Ok
    ensures buflen > 0 ==> IsCString(buf[..], Delivered(f, s, buflen), old(buf[..]))
    ensures
      0 < buflen < (if s.Date? then 10 else 8) ==>
        IsCString(buf[..], (if s.Date? then "YYYY-MM-DD" else "HH:MM:SS")[..buflen - 1], old(buf[..]))
    ensures buflen <= 0 ==> buf[..] == old(buf[..])
    ensures buflen > 0 ==> resultLen == if buflen < s.Length() then buflen else s.Length()
  {
    if buflen <= 0 {
      return BadLength, 0;
    }
    if buflen < s.Length() {
      var cut := Pattern(s)[..buflen - 1];
      CopyString(cut, buf);
      return Truncated, buflen;
    }
    var text := Text(f, s);
    if |text| >= buflen {
      text := text[..buflen - 1];
    }
    assert text == Delivered(f, s, buflen);
    CopyString(text, buf);
    return Ok, s.Length();
  }

  /**
   What was delivered with success reads back unchanged iff the buffer had room for the terminator too, or only zeros
   of a last number that is zero are missing.
   */
  lemma RoundTripIff(f: Fields, s: Style, buflen: nat)
    requires s.Holds(f) && buflen >= s.Length()
    ensures Parse(Delivered(f, s, buflen), s) == Some(f)
      <==> buflen > |Text(f, s)| || (f.c == 0 && buflen > |Text(f, s)| - |Padded(f.c, 2)| + 1)
  {
    if buflen > |Text(f, s)| {
      ParseUndoesText(f, s);
    } else {
      PrintedIsNumeral(f.a, s.Width());
      CutTextIff(Printed(f.a, s.Width()), Padded(f.b, 2), Padded(f.c, 2), f, s, buflen - 1);
    }
  }

  lemma {:induction false} DecimalLength(n: nat)
    ensures |Decimal(n)| == if n < 10 then 1 else 1 + |Decimal(n / 10)|
  {
  }

  lemma PaddedLength(n: nat, width: nat)
    requires if width == 4 then n < 10000 else width == 2 && n < 100
    ensures |Padded(n, width)| == width
  {
    DecimalLength(n);
    if n >= 10 {
      DecimalLength(n / 10);
      if n >= 100 {
        DecimalLength(n / 100);
        DecimalLength(n / 1000);
        assert n / 10 / 10 == n / 100 && n / 100 / 10 == n / 1000;
      }
    }
  }

  /** Fields of the usual widths print to exactly the length of the pattern, one less than a buffer needs. */
  lemma UsualTextLength(f: Fields, s: Style)
    requires 0 <= f.a < (if s.Date? then 10000 else 100) && f.b < 100 && f.c < 100
    ensures |Text(f, s)| == s.Length()
  {
    PaddedLength(f.a, s.Width());
    PaddedLength(f.b, 2);
    PaddedLength(f.c, 2);
  }

  /** The last digits of a number, leading zeros included. */
  function LastDigits(n: nat, count: nat): string {
    if count == 0 then "" else LastDigits(n / 10, count - 1) + [Digit(n % 10)]
  }

  /** A text of digits is determined by its length and the number it denotes. */
  lemma {:induction false} DigitsOf(t: string)
    requires AllDigits(t)
    ensures t == LastDigits(Value(t), |t|)
    decreases |t|
  {
    if t == "" {
    } else {
      var front, last := t[..|t| - 1], t[|t| - 1];
      assert IsDigit(last) && Value(t) == 10 * Value(front) + (last as int - '0' as int);
      DigitsOf(front);
    }
  }

  lemma PaddedDigits(n: nat, width: nat)
    requires if width == 4 then n < 10000 else width == 2 && n < 100
    ensures Padded(n, width) == LastDigits(n, width)
  {
    PaddedLength(n, width);
    DigitsOf(Padded(n, width));
  }

  /** Fields of the usual widths are printed as YYYY-MM-DD and HH:MM:SS. */
  lemma UsualText(f: Fields, s: Style)
    requires 0 <= f.a < (if s.Date? then 10000 else 100) && f.b < 100 && f.c < 100
    ensures
      var a, b, c := LastDigits(f.a, if s.Date? then 4 else 2), LastDigits(f.b, 2), LastDigits(f.c, 2);
      Text(f, s) == if s.Date? then a + (("-" + b) + ("-" + c)) else a + ((":" + b) + (":" + c))
  {
    PaddedDigits(f.a, s.Width());
    PaddedDigits(f.b, 2);
    PaddedDigits(f.c, 2);
  }

  /** Years before the common era: the sign counts towards the four characters. */
  lemma SignedYear(n: nat)
    requires 0 < n < 1000
    ensures Printed(0 - n, 4) == "-" + LastDigits(n, 3)
  {
    DecimalLength(n);
    if n >= 10 {
      DecimalLength(n / 10);
      if n >= 100 {
        DecimalLength(n / 100);
        assert n / 10 / 10 == n / 100;
      }
    }
    DigitsOf(Padded(n, 3));
  }

  /** In front of a number the stream takes white space and a plus sign. */
  lemma ReadSkips(c: char, rest: string)
    ensures IsSpace(c) ==> ReadInt([c] + rest) == ReadInt(rest)
    ensures rest != "" && IsDigit(rest[0]) ==> ReadInt("+" + rest) == ReadInt(rest)
    ensures rest == "" || (!IsDigit(rest[0]) && !IsSpace(rest[0]) && rest[0] != '+' && rest[0] != '-') ==>
              ReadInt(rest).None?
  {
    assert ([c] + rest)[1..] == rest && ("+" + rest)[1..] == rest;
  }

  /** A number outside 32 bits is not read. */
  lemma ReadsInRangeIff(d: string, negative: bool)
    requires d != "" && AllDigits(d)
    ensures ReadDigits(d, negative).Some? <==> Value(d) <= if negative then 0x8000_0000 else 0x7fff_ffff
  {
    CountThese(d, "");
    assert d + "" == d && d[..|d|] == d;
  }

  /** A buffer of 10 bytes for a date, or 8 for a time, loses the last digit and is reported as success. */
  lemma LastDigitIsLost(f: Fields, s: Style)
    requires 0 <= f.a < (if s.Date? then 10000 else 100) && f.b < 100 && 0 < f.c < 100
    ensures Parse(Delivered(f, s, s.Length()), s) != Some(f)
    ensures Parse(Delivered(f, s, s.Length() + 1), s) == Some(f)
  {
    UsualTextLength(f, s);
    RoundTripIff(f, s, s.Length());
    RoundTripIff(f, s, s.Length() + 1);
  }
}
