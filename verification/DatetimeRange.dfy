/** Fractions of a RANGE of DATETIME values are brought to six digits inside the string that holds both ends. */
module DatetimeRange {
  import opened SqlTypes

  /** std::string::find from a position; None is npos. */
  function Find(s: string, c: char, from: nat): (r: Option<nat>)
    ensures r.Some? ==> from <= r.value < |s| && s[r.value] == c
    ensures r.Some? ==> forall k :: from <= k < r.value ==> s[k] != c
    ensures r.None? ==> forall k :: from <= k < |s| ==> s[k] != c
    decreases |s| - from
  {
    if from >= |s| then None else if s[from] == c then Some(from) else Find(s, c, from + 1)
  }

  function Repeat(c: char, n: nat): (s: string)
    ensures |s| == n && forall i :: 0 <= i < n ==> s[i] == c
  {
    seq(n, i => c)
  }

  function Insert(s: string, at: nat, t: string): string
    requires at <= |s|
  {
    s[..at] + t + s[at..]
  }

  function Erase(s: string, at: nat, n: nat): string
    requires at <= |s|
  {
    if at + n <= |s| then s[..at] + s[at + n..] else s[..at]
  }

  /** Pads or cuts the digits between the dot and the end of a fraction. */
  function Adjust(s: string, dot: nat, end: nat): string
    requires dot < end <= |s|
  {
    var digits := end - dot - 1;
    if digits < 6 then Insert(s, end, Repeat('0', 6 - digits))
    else if digits > 6 then Erase(s, dot + 7, digits - 6)
    else s
  }

  /** The unsigned subtraction wraps below nine, to a position behind every string. */
  function FirstDot(s: string, comma: nat): Option<nat> {
    if comma < 9 then None else Find(s, '.', comma - 9)
  }

  function FixedFirst(s: string, comma: nat): string
    requires comma < |s|
  {
    var dot := FirstDot(s, comma);
    if dot.Some? && dot.value < comma then Adjust(s, dot.value, comma) else s
  }

  /** Without a closing parenthesis everything from seven characters behind the dot goes, or erase() throws. */
  function FixedSecond(s: string, comma: nat): Option<string> {
    var dot, close := Find(s, '.', comma + 9), Find(s, ')', comma + 1);
    if dot.None? then Some(s)
    else if close.None? then
      if dot.value + 7 <= |s| then Some(s[..dot.value + 7]) else None
    else if dot.value < close.value then Some(Adjust(s, dot.value, close.value))
    else Some(s)
  }

  /** The string after normalisation; None when erase() throws. */
  function Normalized(s: string): Option<string> {
    var comma := Find(s, ',', 0);
    if comma.None? then Some(s)
    else
      var first := FixedFirst(s, comma.value);
      FixedSecond(first, comma.value + |first| - |s|)
  }

  method NormalizeDatetimeRange(src: string) returns (str: Option<string>)
    ensures str == Normalized(src)
  {
    var commaPos := Find(src, ',', 0);
    if commaPos.None? {
      return Some(src);
    }
    var s, comma := NormalizeFirst(src, commaPos.value);
    str := NormalizeSecond(s, comma);
  }

  method NormalizeFirst(src: string, commaPos: nat) returns (s: string, comma: nat)
    requires commaPos < |src|
    ensures s == FixedFirst(src, commaPos) && comma == commaPos + |s| - |src|
  {
    s, comma := src, commaPos;
    var firstFraction := if comma >= 9 then Find(s, '.', comma - 9) else None;
    if firstFraction.Some? && firstFraction.value < comma {
      var digits := comma - firstFraction.value - 1;
      if digits < 6 {
        s := Insert(s, comma, Repeat('0', 6 - digits));
        comma := comma + (6 - digits);
      } else if digits > 6 {
        s := Erase(s, firstFraction.value + 7, digits - 6);
        comma := comma - (digits - 6);
      }
    }
  }

  method NormalizeSecond(src: string, comma: nat) returns (str: Option<string>)
    ensures str == FixedSecond(src, comma)
  {
    var s := src;
    var secondFraction, close := Find(s, '.', comma + 9), Find(s, ')', comma + 1);
    if secondFraction.Some? && (close.None? || secondFraction.value < close.value) {
      var dot := secondFraction.value;
      if close.None? {
        // npos - dot - 1 exceeds 6, and erase() is asked for more than there is
        if dot + 7 > |s| {
          return None;
        }
        return Some(s[..dot + 7]);
      }
      var digits := close.value - dot - 1;
      if digits < 6 {
        s := Insert(s, close.value, Repeat('0', 6 - digits));
      } else if digits > 6 {
        s := Erase(s, dot + 7, digits - 6);
      }
    }
    return Some(s);
  }

  // What it does to a range

  /** The text cut where the searches look: what stands behind each dot, up to the comma and up to the parenthesis. */
  datatype Parts = Parts(head: string, first: Option<string>, mid: string, second: Option<string>, tail: string)

  function Fraction(f: Option<string>): string {
    if f.Some? then "." + f.value else ""
  }

  function Left(p: Parts): string { p.head + Fraction(p.first) }

  function Written(p: Parts): string {
    Joined(Left(p), p)
  }

  predicate Without(s: string, c: char) {
    forall i :: 0 <= i < |s| ==> s[i] != c
  }

  predicate AreParts(p: Parts) {
    && Without(p.head, '.') && Without(p.head, ',') && Without(p.mid, '.') && Without(p.mid, ')')
    && (p.first.Some? ==> Without(p.first.value, '.') && Without(p.first.value, ','))
    && (p.second.Some? ==> Without(p.second.value, '.') && Without(p.second.value, ')'))
  }

  /** Six digits: cut, or padded with zeros. */
  function Six(digits: string): (s: string)
    ensures |s| == 6
  {
    if |digits| <= 6 then digits + Repeat('0', 6 - |digits|) else digits[..6]
  }

  /** Whether the search for the first dot, which starts nine characters before the comma, meets it. */
  predicate FirstSeen(p: Parts) {
    p.first.Some? && |p.first.value| <= 8 && |Left(p)| >= 9
  }

  predicate SecondSeen(p: Parts) {
    p.second.Some? && |p.mid| >= 8
  }

  function WithSix(p: Parts): Parts {
    p.(first := if FirstSeen(p) then Some(Six(p.first.value)) else p.first,
       second := if SecondSeen(p) then Some(Six(p.second.value)) else p.second)
  }

  lemma FindAt(s: string, c: char, from: nat, k: nat)
    requires from <= k < |s| && s[k] == c && forall i :: from <= i < k ==> s[i] != c
    ensures Find(s, c, from) == Some(k)
  {
  }

  /**
   Without a closing parenthesis the text ends behind the sixth character of the second fraction, and what is shorter
   makes erase() throw; without a second fraction nothing happens.
   */
  lemma UnclosedIsCut(s: string, comma: nat, dot: nat)
    requires comma + 9 <= dot < |s| && s[comma] == ',' && s[dot] == '.'
    requires forall i :: 0 <= i < comma ==> s[i] != ',' && (i >= comma - 9 ==> s[i] != '.')
    requires forall i :: comma < i < |s| ==> s[i] != ')' && (comma + 9 <= i < dot ==> s[i] != '.')
    ensures Normalized(s) == if |s| - dot > 6 then Some(s[..dot + 7]) else None
  {
    FindAt(s, ',', 0, comma);
    FindAt(s, '.', comma + 9, dot);
  }

  /** Adjusting a fraction that sits between two known parts. */
  lemma AdjustBetween(before: string, digits: string, after: string)
    ensures
      var dot, end := |before|, |before| + 1 + |digits|;
      Adjust(before + "." + digits + after, dot, end) == before + "." + Six(digits) + after
  {
    var s, dot, end := before + "." + digits + after, |before|, |before| + 1 + |digits|;
    assert s[end..] == after && s[..end] == before + "." + digits;
    if |digits| > 6 {
      assert s[..dot + 7] == before + "." + digits[..6];
      assert Erase(s, dot + 7, |digits| - 6) == s[..dot + 7] + s[end..];
    }
  }

  /** A search finds the character behind a part that, from the start of the search on, does not have it. */
  lemma FindBehind(before: string, c: char, after: string, from: nat)
    requires from <= |before| && forall i :: from <= i < |before| ==> before[i] != c
    ensures Find(before + [c] + after, c, from) == Some(|before|)
  {
    FindAt(before + [c] + after, c, from, |before|);
  }

  lemma NoneBefore(before: string, c: char, after: string, from: nat)
    requires forall i :: from <= i < |before| ==> before[i] != c
    ensures var found := Find(before + after, c, from); found.None? || found.value >= |before|
  {
    var found := Find(before + after, c, from);
    assert forall i :: from <= i < |before| ==> (before + after)[i] == before[i];
  }

  lemma FirstIsFixed(head: string, digits: string, after: string)
    requires Without(head, '.') && |digits| <= 8 && |head| + 1 + |digits| >= 9 && after != ""
    ensures FixedFirst(head + "." + digits + after, |head| + 1 + |digits|) == head + "." + Six(digits) + after
  {
    var comma := |head| + 1 + |digits|;
    assert head + "." + digits + after == head + "." + (digits + after);
    FindBehind(head, '.', digits + after, comma - 9);
    AdjustBetween(head, digits, after);
  }

  lemma FirstIsMissed(left: string, after: string)
    requires after != "" && (|left| >= 9 ==> forall i :: |left| - 9 <= i < |left| ==> left[i] != '.')
    ensures FixedFirst(left + after, |left|) == left + after
  {
    if |left| >= 9 {
      NoneBefore(left, '.', after, |left| - 9);
    }
  }

  lemma LateDotMissed(head: string, first: Option<string>)
    requires Without(head, '.') && (first.Some? ==> Without(first.value, '.') && |first.value| > 8)
    ensures
      var left := head + Fraction(first);
      |left| >= 9 ==> forall i :: |left| - 9 <= i < |left| ==> left[i] != '.'
  {
  }

  lemma SeenFractionFixed(p: Parts, after: string)
    requires AreParts(p) && after != "" && FirstSeen(p)
    ensures FixedFirst(Left(p) + after, |Left(p)|) == Left(WithSix(p)) + after
  {
    FirstIsFixed(p.head, p.first.value, after);
    FractionJoins(p.head, p.first.value);
    FractionJoins(p.head, Six(p.first.value));
  }

  lemma FirstFractionFixed(p: Parts, after: string)
    requires AreParts(p) && after != ""
    ensures FixedFirst(Left(p) + after, |Left(p)|) == Left(WithSix(p)) + after
  {
    if FirstSeen(p) {
      SeenFractionFixed(p, after);
    } else {
      if |Left(p)| >= 9 {
        LateDotMissed(p.head, p.first);
      }
      FirstIsMissed(Left(p), after);
    }
  }

  lemma FractionJoins(before: string, digits: string)
    ensures before + Fraction(Some(digits)) == before + "." + digits
  {
  }

  lemma SecondIsFixed(before: string, digits: string, tail: string, comma: nat)
    requires Without(digits, ')') && comma + 9 <= |before|
    requires forall i :: comma < i < |before| ==> before[i] != ')'
    requires forall i :: comma + 9 <= i < |before| ==> before[i] != '.'
    ensures FixedSecond(before + "." + digits + (")" + tail), comma) == Some(before + "." + Six(digits) + (")" + tail))
  {
    var s := before + "." + digits + (")" + tail);
    SecondIsFound(before, digits, tail, comma, s);
    AdjustBetween(before, digits, ")" + tail);
  }

  lemma SecondIsFound(before: string, digits: string, tail: string, comma: nat, s: string)
    requires Without(digits, ')') && comma + 9 <= |before| && s == before + "." + digits + (")" + tail)
    requires forall i :: comma < i < |before| ==> before[i] != ')'
    requires forall i :: comma + 9 <= i < |before| ==> before[i] != '.'
    ensures Find(s, '.', comma + 9) == Some(|before|) && Find(s, ')', comma + 1) == Some(|before| + 1 + |digits|)
  {
    FindAt(s, '.', comma + 9, |before|);
    FindAt(s, ')', comma + 1, |before| + 1 + |digits|);
  }

  lemma SecondIsMissed(text: string, tail: string, comma: nat)
    requires comma < |text|
    requires forall i :: comma < i < |text| ==> text[i] != ')'
    requires forall i :: comma + 9 <= i < |text| ==> text[i] != '.'
    ensures FixedSecond(text + ")" + tail, comma) == Some(text + ")" + tail)
  {
    FindBehind(text, ')', tail, comma + 1);
    NoneBefore(text + ")", '.', tail, comma + 9);
  }

  function Joined(left: string, p: Parts): string {
    left + "," + p.mid + Fraction(p.second) + ")" + p.tail
  }

  lemma SecondFractionFixed(left: string, p: Parts)
    requires AreParts(p)
    ensures FixedSecond(Joined(left, p), |left|) == Some(Joined(left, WithSix(p)))
  {
    var before := left + "," + p.mid;
    assert forall i :: |left| < i < |before| ==> before[i] == p.mid[i - |left| - 1];
    if SecondSeen(p) {
      SecondIsFixed(before, p.second.value, p.tail, |left|);
      FractionJoins(before, p.second.value);
      FractionJoins(before, Six(p.second.value));
      Regroup(before + Fraction(p.second), ")", p.tail);
      Regroup(before + Fraction(Some(Six(p.second.value))), ")", p.tail);
    } else {
      SecondIsMissed(before + Fraction(p.second), p.tail, |left|);
    }
  }

  lemma JoinedSplits(left: string, p: Parts)
    ensures
      var rest := p.mid + Fraction(p.second) + ")" + p.tail;
      Joined(left, p) == left + "," + rest == left + ("," + rest)
  {
  }

  lemma CommaOf(p: Parts)
    requires AreParts(p)
    ensures Find(Written(p), ',', 0) == Some(|Left(p)|)
  {
    JoinedSplits(Left(p), p);
    FindBehind(Left(p), ',', p.mid + Fraction(p.second) + ")" + p.tail, 0);
  }

  lemma FirstStep(p: Parts)
    requires AreParts(p)
    ensures FixedFirst(Written(p), |Left(p)|) == Joined(Left(WithSix(p)), p)
  {
    var rest := p.mid + Fraction(p.second) + ")" + p.tail;
    JoinedSplits(Left(p), p);
    JoinedSplits(Left(WithSix(p)), p);
    FirstFractionFixed(p, "," + rest);
  }

  lemma JoinedLength(left: string, p: Parts)
    ensures |Joined(left, p)| == |left| + 1 + |p.mid| + |Fraction(p.second)| + 1 + |p.tail|
  {
  }

  /** Each fraction the searches meet gets six digits, and no other character changes, shifted as it may be. */
  lemma NormalizedParts(p: Parts)
    requires AreParts(p)
    ensures Normalized(Written(p)) == Some(Written(WithSix(p)))
  {
    var left := Left(WithSix(p));
    CommaOf(p);
    FirstStep(p);
    JoinedLength(Left(p), p);
    JoinedLength(left, p);
    SecondFractionFixed(left, p);
  }

  lemma SixStays(digits: string)
    ensures Six(Six(digits)) == Six(digits)
  {
    assert Six(digits) + [] == Six(digits);
  }

  /** A second normalisation changes nothing. */
  lemma NormalizedTwice(p: Parts)
    requires AreParts(p)
    ensures AreParts(WithSix(p)) && Normalized(Written(WithSix(p))) == Some(Written(WithSix(p)))
  {
    var n := WithSix(p);
    if n.first.Some? && FirstSeen(p) {
      SixStays(p.first.value);
    }
    if n.second.Some? {
      SixStays(p.second.value);
    }
    NormalizedParts(n);
  }

  lemma CloseOf(p: Parts)
    requires AreParts(p)
    ensures Find(Written(p), ')', |Left(p)| + 1) == Some(|Left(p)| + 1 + |p.mid| + |Fraction(p.second)|)
  {
    FindBehind(Left(p) + "," + p.mid + Fraction(p.second), ')', p.tail, |Left(p)| + 1);
  }

  /** The text determines its first end, and the length of its second fraction. */
  lemma SameTextSameParts(a: Parts, b: Parts)
    requires AreParts(a) && AreParts(b) && a.mid == b.mid && Written(a) == Written(b)
    ensures Left(a) == Left(b) && |Fraction(a.second)| == |Fraction(b.second)|
  {
    CommaOf(a);
    CommaOf(b);
    CloseOf(a);
    CloseOf(b);
    JoinedSplits(Left(a), a);
    JoinedSplits(Left(b), b);
    assert Left(a) == Written(a)[..|Left(a)|] && Left(b) == Written(b)[..|Left(b)|];
  }

  // Ranges of datetimes

  /** As the caller's pattern admits them: a fraction is absent, or a dot and digits; white space may precede the comma. */
  datatype Range =
    Range(head: string, first: Option<string>, gap: string, mid: string, second: Option<string>, tail: string)

  predicate IsDigit(c: char) {
    '0' <= c <= '9'
  }

  predicate IsSpace(c: char) {
    c == ' ' || c == '\t' || c == '\n' || c == '\r' || c as int == 12
  }

  predicate AllDigits(s: string) {
    forall i :: 0 <= i < |s| ==> IsDigit(s[i])
  }

  predicate AllSpace(s: string) {
    forall i :: 0 <= i < |s| ==> IsSpace(s[i])
  }

  predicate IsRange(r: Range) {
    && Without(r.head, '.') && Without(r.head, ',') && AllSpace(r.gap) && Without(r.mid, '.') && Without(r.mid, ')')
    && (r.first.Some? ==> AllDigits(r.first.value)) && (r.second.Some? ==> AllDigits(r.second.value))
  }

  /** What a match of the pattern adds: a bracket, a date and a time come before each fraction. */
  predicate IsMatch(r: Range) {
    IsRange(r) && |r.head| == 20 && |r.mid| >= 19 && r.tail == ""
  }

  function Text(r: Range): string {
    r.head + Fraction(r.first) + r.gap + "," + r.mid + Fraction(r.second) + ")" + r.tail
  }

  /** The searches take white space before the comma for a part of the fraction. */
  function PartsOf(r: Range): Parts {
    if r.first.Some? then Parts(r.head, Some(r.first.value + r.gap), r.mid, r.second, r.tail)
    else Parts(r.head + r.gap, None, r.mid, r.second, r.tail)
  }

  lemma LeftOf(r: Range)
    ensures Left(PartsOf(r)) == r.head + Fraction(r.first) + r.gap
  {
    if r.first.Some? {
      Regroup(".", r.first.value, r.gap);
      Regroup(r.head, Fraction(r.first), r.gap);
    } else {
      NothingAdded(r.head);
      NothingAdded(r.head + r.gap);
    }
  }

  lemma TextOf(r: Range)
    requires IsRange(r)
    ensures Written(PartsOf(r)) == Text(r) && AreParts(PartsOf(r))
  {
    LeftOf(r);
  }

  predicate FirstMet(r: Range) {
    r.first.Some? && |r.first.value| + |r.gap| <= 8 && |r.head| + 1 + |r.first.value| + |r.gap| >= 9
  }

  predicate SecondMet(r: Range) {
    r.second.Some? && |r.mid| >= 8
  }

  /**
   The result, for every range: a first fraction that is met gets six characters, white space among them; a second one
   that is met gets six digits; nothing else changes.
   */
  lemma NormalizedRange(r: Range)
    requires IsRange(r)
    ensures
      var first := if FirstMet(r) then "." + Six(r.first.value + r.gap) else Fraction(r.first) + r.gap;
      var second := if SecondMet(r) then "." + Six(r.second.value) else Fraction(r.second);
      Normalized(Text(r)) == Some(r.head + first + "," + r.mid + second + ")" + r.tail)
  {
    var p := PartsOf(r);
    TextOf(r);
    LeftOf(r);
    NormalizedParts(p);
    Regroup(r.head, Fraction(r.first), r.gap);
    assert FirstSeen(p) <==> FirstMet(r);
    assert SecondSeen(p) <==> SecondMet(r);
  }

  /** What the function is for: every fraction with six digits. */
  function AllSix(r: Range): Range {
    r.(first := if r.first.Some? then Some(Six(r.first.value)) else None,
       second := if r.second.Some? then Some(Six(r.second.value)) else None)
  }

  /** The result is the range with six digits at each end, whatever white space remains before the comma. */
  ghost predicate GetsSix(r: Range) {
    exists gap :: AllSpace(gap) && Normalized(Text(r)) == Some(Text(AllSix(r).(gap := gap)))
  }

  predicate FirstFits(r: Range) {
    r.first.Some? ==> if FirstMet(r) then r.gap == "" || |r.first.value| >= 6 else |r.first.value| == 6
  }

  predicate SecondFits(r: Range) {
    r.second.Some? ==> SecondMet(r) || |r.second.value| == 6
  }

  lemma SixIsIdentity(digits: string)
    ensures |digits| == 6 ==> Six(digits) == digits
  {
    NothingAdded(digits);
  }

  lemma SixOfPrefix(digits: string, gap: string)
    ensures gap == "" || |digits| >= 6 ==> Six(digits + gap) == Six(digits)
  {
    NothingAdded(digits);
    if |digits| == 6 {
      assert (digits + gap)[..6] == digits;
    } else if |digits| > 6 {
      assert (digits + gap)[..6] == digits[..6];
    }
    SixIsIdentity(digits);
  }

  /** Six digits and white space are what a fraction has become only if it was met in time, or had them. */
  lemma SixDigitsIff(digits: string, gap: string, left: string, rest: string)
    requires AllDigits(digits) && AllSpace(gap) && AllSpace(rest) && Six(digits) + rest == left
    ensures left == digits + gap ==> |digits| == 6
    ensures left == Six(digits + gap) ==> gap == "" || |digits| >= 6
  {
    if |digits| < 6 {
      assert left[|digits|] == '0';
      if gap != "" {
        assert (digits + gap)[|digits|] == gap[0] && IsSpace(gap[0]);
      }
    } else if |digits| > 6 {
      assert IsDigit(digits[6]) && (digits + gap)[6] == digits[6];
      assert rest != "" ==> left[6] == rest[0];
    }
  }

  lemma FittingGetsSix(r: Range)
    requires IsRange(r) && FirstFits(r) && SecondFits(r)
    ensures GetsSix(r)
  {
    NormalizedRange(r);
    var gap := if FirstMet(r) then "" else r.gap;
    if r.first.Some? {
      SixOfPrefix(r.first.value, r.gap);
      SixIsIdentity(r.first.value);
    }
    if r.second.Some? {
      SixIsIdentity(r.second.value);
    }
    FirstEnd(r, gap);
    assert AllSpace(gap) && Normalized(Text(r)) == Some(Text(AllSix(r).(gap := gap)));
  }

  lemma FirstEnd(r: Range, gap: string)
    requires r.first.Some? && FirstMet(r) ==> gap == "" && Six(r.first.value + r.gap) == Six(r.first.value)
    requires !FirstMet(r) ==> gap == r.gap && (r.first.Some? ==> Six(r.first.value) == r.first.value)
    ensures
      var first := if FirstMet(r) then "." + Six(r.first.value + r.gap) else Fraction(r.first) + r.gap;
      r.head + first == r.head + Fraction(AllSix(r).first) + gap
  {
    Regroup(r.head, Fraction(r.first), r.gap);
    NothingAdded(r.head + Fraction(AllSix(r).first));
  }

  lemma GetsSixFits(r: Range, gap: string)
    requires IsRange(r) && AllSpace(gap) && Normalized(Text(r)) == Some(Text(AllSix(r).(gap := gap)))
    ensures FirstFits(r) && SecondFits(r)
  {
    var p, goal := PartsOf(r), AllSix(r).(gap := gap);
    TextOf(r);
    TextOf(goal);
    NormalizedParts(p);
    NormalizedTwice(p);
    SameTextSameParts(WithSix(p), PartsOf(goal));
    if r.first.Some? {
      var digits := r.first.value;
      FirstParts(r.head, WithSix(p).first.value, Six(digits) + gap);
      SixDigitsIff(digits, r.gap, Six(digits) + gap, gap);
    }
  }

  lemma FirstParts(head: string, a: string, b: string)
    requires head + Fraction(Some(a)) == head + Fraction(Some(b))
    ensures a == b
  {
    SameBehind(head, Fraction(Some(a)), Fraction(Some(b)));
    SameBehind(".", a, b);
  }

  /**
   Both ends get six digits iff each fraction is met by its search or had six digits to begin with, and no white space
   that is met follows fewer than six digits.
   */
  lemma NormalizesAllIff(r: Range)
    requires IsRange(r)
    ensures GetsSix(r) <==> FirstFits(r) && SecondFits(r)
  {
    if FirstFits(r) && SecondFits(r) {
      FittingGetsSix(r);
    }
    if gap :| AllSpace(gap) && Normalized(Text(r)) == Some(Text(AllSix(r).(gap := gap))) {
      GetsSixFits(r, gap);
    }
  }

  /** For the texts that the caller's pattern lets through only the first fraction and the gap behind it matter. */
  lemma MatchGetsSixIff(r: Range)
    requires IsMatch(r)
    ensures GetsSix(r) <==>
              (r.first.Some? ==>
                 var digits, spaces := |r.first.value|, |r.gap|;
                 if digits + spaces <= 8 then spaces == 0 || digits >= 6 else digits == 6)
  {
    NormalizesAllIff(r);
  }

  /** A first fraction of nine digits or more is not met by the search, and the first end stays as it is. */
  lemma NineDigitsStay(r: Range)
    requires IsRange(r) && r.first.Some? && |r.first.value| >= 9
    ensures Normalized(Text(r)) == Some(Text(r.(second := if SecondMet(r) then Some(Six(r.second.value)) else r.second)))
  {
    NormalizedRange(r);
    Regroup(r.head, Fraction(r.first), r.gap);
  }

  /** White space behind fewer than six digits: the zeros come behind the white space. */
  lemma ZerosBehindSpace(r: Range)
    requires IsMatch(r) && r.first.Some? && r.gap != "" && |r.first.value| + |r.gap| <= 6
    ensures
      var first := "." + (r.first.value + r.gap + Repeat('0', 6 - |r.first.value + r.gap|));
      var second := if SecondMet(r) then "." + Six(r.second.value) else Fraction(r.second);
      Normalized(Text(r)) == Some(r.head + first + "," + r.mid + second + ")" + r.tail)
    ensures !GetsSix(r)
  {
    NormalizedRange(r);
    MatchGetsSixIff(r);
  }

  /** For one: ".123 " becomes ".123 00". */
  lemma SpaceInFraction(r: Range)
    requires r == Range("[2024-02-20T12:30:45", Some("123"), " ", " 2024-03-20T14:15:30", None, "")
    ensures IsMatch(r) && !GetsSix(r)
  {
    ZerosBehindSpace(r);
  }
}
