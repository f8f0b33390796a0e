/** What an application gets from any number of SQLGetData calls on one column and C type. */
module Reassembly {
  import opened SqlTypes
  import opened ChunkedGetData

  /** One call: the buffer length, and what the caller's memory held before it. */
  datatype Call = Call(len: nat, mem: seq<byte>)

  /** A call whose buffer takes at least one byte (or wide character) of payload. */
  predicate Usable(c: Call, ctype: int, w: Wide) {
    Legal(ctype, c.len, w) && Roomy(c.mem, c.len) && ChunkBytes(ctype, c.len, w) > 0
  }

  predicate AllUsable(calls: seq<Call>, ctype: int, w: Wide) {
    forall i :: 0 <= i < |calls| ==> Usable(calls[i], ctype, w)
  }

  /** The payloads read back from caller memory, up to the first call that is not 01004. */
  function Collect(s: Stash, tr: Translator, cell: Cell, column: int, ctype: int, w: Wide,
                   calls: seq<Call>): (r: (seq<byte>, bool))
    requires AllUsable(calls, ctype, w) && s.offset <= |s.data|
    decreases |calls|
  {
    if calls == [] then ([], false)
    else
      var len := calls[0].len;
      var mem := StepMemory(s, tr, cell, column, ctype, len, w, calls[0].mem);
      match StepOutcome(s, tr, cell, column, ctype, len, w)
      case Partial =>
        StepKeepsValid(s, tr, cell, column, ctype, len, w);
        var rest := Collect(StepStash(s, tr, cell, column, ctype, len, w), tr, cell, column, ctype, w, calls[1..]);
        (mem[..ChunkBytes(ctype, len, w)] + rest.0, rest.1)
      case Final(total) => (mem[..total - s.offset], true)
      case _ => ([], true)
  }

  /** The widths are those of one, two and four bytes. */
  lemma WidthArithmetic(w: Width, n: nat)
    ensures w.Times(n) == w.Bytes() * n && w.Per(n) == n / w.Bytes() && (w.Divides(n) <==> n % w.Bytes() == 0)
    ensures w.Bytes() == match w case One => 1 case Two => 2 case Four => 4
  {
  }

  /** The bytes that a cell takes in the caller's buffer if each of its own is a character on the wire. */
  function CellBytes(cell: Cell, ctype: int, w: Wide): nat {
    if ctype == SQL_C_WCHAR then w.wire.Times(|cell.value|) else |cell.value|
  }

  /** On a fresh stash or a new column the buffer is filled directly iff the cell cannot be chunked, or fits. */
  lemma DirectIff(s: Stash, tr: Translator, cell: Cell, column: int, ctype: int, len: nat, w: Wide)
    requires s.offset == 0 || s.column != column
    ensures StepOutcome(s, tr, cell, column, ctype, len, w) == Direct
      <==> !cell.chunkable || CellBytes(cell, ctype, w) <= len
  {
  }

  /** Otherwise it is answered from the translation: 01004 with a part of it, or its length and nothing copied. */
  lemma FirstAnswer(s: Stash, tr: Translator, cell: Cell, column: int, ctype: int, len: nat, w: Wide)
    requires (s.offset == 0 || s.column != column) && cell.chunkable && CellBytes(cell, ctype, w) > len
    ensures
      var value := tr(cell, ctype).bytes;
      StepOutcome(s, tr, cell, column, ctype, len, w) == if |value| >= len then Partial else Skipped(|value|)
  {
    DirectIff(s, tr, cell, column, ctype, len, w);
  }

  /** In the middle of a value: refused for another C type, 01004 iff the rest does not fit with a byte to spare. */
  lemma LaterAnswer(s: Stash, tr: Translator, cell: Cell, column: int, ctype: int, len: nat, w: Wide)
    requires s.column == column && 0 < s.offset <= |s.data|
    ensures StepOutcome(s, tr, cell, column, ctype, len, w)
         == if s.ctype != ctype then Refused else if |s.data| - s.offset >= len then Partial else Final(|s.data|)
  {
  }

  /** A part is as large as the buffer allows: all of it, all but a byte, or whole characters with room for one more. */
  lemma PartIsLargest(ctype: int, len: nat, w: Wide)
    requires Legal(ctype, len, w)
    ensures
      var n := ChunkBytes(ctype, len, w);
      if ctype == SQL_C_BINARY then n == len
      else if ctype == SQL_C_WCHAR then
        w.wire.Divides(n) && n + w.wire.Bytes() <= len < n + 2 * w.wire.Bytes()
      else n == len - 1
  {
  }

  /** Where nothing is copied, the start of the buffer has been cleared: as many bytes as it holds characters. */
  lemma SkippedClears(s: Stash, tr: Translator, cell: Cell, column: int, ctype: int, len: nat, w: Wide, mem: seq<byte>)
    requires Legal(ctype, len, w) && Roomy(mem, len) && s.offset <= |s.data|
    requires StepOutcome(s, tr, cell, column, ctype, len, w).Skipped?
    ensures
      var after := StepMemory(s, tr, cell, column, ctype, len, w, mem);
      && |after| == |mem|
      && forall i :: 0 <= i < |mem| ==>
           after[i] == if i < (if ctype == SQL_C_WCHAR then len / w.wire.Bytes() else len) then 0 else mem[i]
  {
    WidthArithmetic(w.wire, len);
  }

  /** The last part is copied whole, and but for binary data one byte more; nothing behind it changes. */
  lemma FinalWrites(s: Stash, tr: Translator, cell: Cell, column: int, ctype: int, len: nat, w: Wide, mem: seq<byte>)
    requires Legal(ctype, len, w) && Roomy(mem, len) && s.offset <= |s.data|
    requires StepOutcome(s, tr, cell, column, ctype, len, w).Final?
    ensures
      var after, n := StepMemory(s, tr, cell, column, ctype, len, w, mem), |s.data| - s.offset;
      && |after| == |mem| > n && after[..n] == s.data[s.offset..]
      && (ctype != SQL_C_BINARY ==> after[n] == s.tail)
      && after[if ctype == SQL_C_BINARY then n else n + 1..] == mem[if ctype == SQL_C_BINARY then n else n + 1..]
  {
  }

  /** SQLGetData itself leaves the buffer alone when GetColumnData is to fill it, and when it refuses the C type. */
  lemma OthersLeaveMemory(s: Stash, tr: Translator, cell: Cell, column: int, ctype: int, len: nat, w: Wide,
                          mem: seq<byte>)
    requires Legal(ctype, len, w) && Roomy(mem, len) && s.offset <= |s.data|
    requires StepOutcome(s, tr, cell, column, ctype, len, w) in {Direct, Refused}
    ensures StepMemory(s, tr, cell, column, ctype, len, w, mem) == mem
  {
  }

  lemma PreparedIsValid(s: Stash, tr: Translator, cell: Cell, column: int, ctype: int, len: nat, w: Wide)
    requires s.offset <= |s.data|
    ensures
      var p := Prepared(s, tr, cell, column, ctype, len, w);
      p.offset <= |p.data| && p.column == column && (ValidStash(s, w) ==> ValidStash(p, w))
  {
  }

  lemma AdvancedIsValid(p: Stash, ctype: int, len: nat, w: Wide)
    requires Legal(ctype, len, w) && p.offset <= |p.data|
    ensures
      var t := Advanced(p, ctype, len, w);
      && t.offset <= |t.data| && t.column == p.column && t.data == p.data
      && (ValidStash(p, w) ==> ValidStash(t, w))
      && (Delivery(p, ctype, len) == Partial ==> t.offset == p.offset + ChunkBytes(ctype, len, w))
  {
    var n := ChunkBytes(ctype, len, w);
    if Delivery(p, ctype, len) == Partial && ctype == SQL_C_WCHAR {
      BoundariesAdd(w.wire, p.offset, n);
    }
  }

  lemma BoundariesAdd(w: Width, a: nat, b: nat)
    requires w.Divides(b)
    ensures w.Divides(a) ==> w.Divides(a + b)
  {
  }

  /** Every call keeps the offset inside the value and wide offsets on a character boundary. */
  lemma StepKeepsValid(s: Stash, tr: Translator, cell: Cell, column: int, ctype: int, len: nat, w: Wide)
    requires Legal(ctype, len, w) && s.offset <= |s.data|
    ensures
      var t := StepStash(s, tr, cell, column, ctype, len, w);
      && t.offset <= |t.data|
      && (ValidStash(s, w) ==> ValidStash(t, w))
      && t.column == column
      && (StepOutcome(s, tr, cell, column, ctype, len, w) == Partial ==>
            var p := Prepared(s, tr, cell, column, ctype, len, w);
            && p.data == t.data && t.offset == p.offset + ChunkBytes(ctype, len, w)
            && (ChunkBytes(ctype, len, w) > 0 ==> |t.data| - t.offset < |p.data| - p.offset))
  {
    PreparedIsValid(s, tr, cell, column, ctype, len, w);
    AdvancedIsValid(Prepared(s, tr, cell, column, ctype, len, w), ctype, len, w);
  }

  /** No call writes behind the caller's buffer, provided SQLWCHAR is no wider than a character on the wire. */
  lemma CallStaysInBuffer(s: Stash, tr: Translator, cell: Cell, column: int, ctype: int, len: nat, w: Wide,
                          mem: seq<byte>)
    requires Legal(ctype, len, w) && Roomy(mem, len) && s.offset <= |s.data|
    requires ctype == SQL_C_WCHAR ==> w.sqlwchar.Bytes() <= w.wire.Bytes()
    ensures StepMemory(s, tr, cell, column, ctype, len, w, mem)[len..] == mem[len..]
  {
    var p := Prepared(s, tr, cell, column, ctype, len, w);
    var cleared := Cleared(mem, ctype, len, w);
    assert cleared[len..] == mem[len..];
    DeliveryStaysInBuffer(p, ctype, len, w, cleared);
    DeliveryStaysInBuffer(p, ctype, len, w, mem);
  }

  lemma DeliveryStaysInBuffer(p: Stash, ctype: int, len: nat, w: Wide, mem: seq<byte>)
    requires Legal(ctype, len, w) && Roomy(mem, len) && p.offset <= |p.data|
    requires ctype == SQL_C_WCHAR ==> w.sqlwchar.Bytes() <= w.wire.Bytes()
    ensures DeliveredMemory(p, ctype, len, w, mem)[len..] == mem[len..]
  {
  }

  /** A part keeps its bytes iff those on which a narrower SQLWCHAR puts the terminator are zero anyway. */
  predicate PartIntact(payload: seq<byte>, ctype: int, len: nat, w: Wide)
    requires Legal(ctype, len, w) && |payload| == ChunkBytes(ctype, len, w)
  {
    ctype == SQL_C_WCHAR ==>
      var at := TerminatorAt(len, w);
      at + w.sqlwchar.Bytes() <= |payload| ==> payload[at..at + w.sqlwchar.Bytes()] == Zeros(w.sqlwchar.Bytes())
  }

  lemma WideEnoughKeepsPart(payload: seq<byte>, ctype: int, len: nat, w: Wide)
    requires Legal(ctype, len, w) && |payload| == ChunkBytes(ctype, len, w)
    requires ctype == SQL_C_WCHAR ==> w.sqlwchar.Bytes() >= w.wire.Bytes()
    ensures PartIntact(payload, ctype, len, w)
  {
  }

  /** Writing into or behind a prefix leaves it as it was iff what is written inside it was there before. */
  lemma SpliceKeepsIff(mem: seq<byte>, at: nat, src: seq<byte>, prefix: seq<byte>)
    requires at + |src| <= |mem| && |prefix| <= |mem| && mem[..|prefix|] == prefix
    requires at + |src| <= |prefix| || at >= |prefix|
    ensures Splice(mem, at, src)[..|prefix|] == prefix
       <==> (at + |src| <= |prefix| ==> prefix[at..at + |src|] == src)
  {
    var r := Splice(mem, at, src);
    if at + |src| <= |prefix| {
      assert r[..|prefix|][at..at + |src|] == src;
      if prefix[at..at + |src|] == src {
        forall i | 0 <= i < |prefix| ensures r[i] == prefix[i] {
          if at <= i < at + |src| {
            assert prefix[at..at + |src|][i - at] == prefix[i];
          }
        }
      }
    }
  }

  /** A truncated copy leaves its payload at the start of the buffer iff the terminator leaves it intact. */
  lemma TruncatedWriteDelivers(mem: seq<byte>, payload: seq<byte>, ctype: int, len: nat, w: Wide)
    requires Legal(ctype, len, w) && Roomy(mem, len) && |payload| == ChunkBytes(ctype, len, w)
    ensures TruncatedWrite(mem, payload, ctype, len, w)[..|payload|] == payload <==> PartIntact(payload, ctype, len, w)
  {
    if ctype == SQL_C_WCHAR {
      var at, m := TerminatorAt(len, w), Splice(mem, 0, payload);
      assert at + w.sqlwchar.Bytes() <= |payload| || at >= |payload|;
      SpliceKeepsIff(m, at, Zeros(w.sqlwchar.Bytes()), payload);
    }
  }

  /** Every part of the value behind `offset`, as these buffers cut it, keeps its bytes. */
  predicate AllIntact(data: seq<byte>, offset: nat, calls: seq<Call>, ctype: int, w: Wide)
    requires AllUsable(calls, ctype, w) && offset <= |data|
    decreases |calls|
  {
    calls == [] || |data| - offset < calls[0].len ||
    var n := ChunkBytes(ctype, calls[0].len, w);
    PartIntact(data[offset..offset + n], ctype, calls[0].len, w) && AllIntact(data, offset + n, calls[1..], ctype, w)
  }

  lemma {:induction false} WideEnoughKeepsAll(data: seq<byte>, offset: nat, calls: seq<Call>, ctype: int, w: Wide)
    requires AllUsable(calls, ctype, w) && offset <= |data|
    requires ctype == SQL_C_WCHAR ==> w.sqlwchar.Bytes() >= w.wire.Bytes()
    ensures AllIntact(data, offset, calls, ctype, w)
    decreases |calls|
  {
    if calls == [] || |data| - offset < calls[0].len {
    } else {
      var n := ChunkBytes(ctype, calls[0].len, w);
      WideEnoughKeepsPart(data[offset..offset + n], ctype, calls[0].len, w);
      WideEnoughKeepsAll(data, offset + n, calls[1..], ctype, w);
    }
  }

  lemma SamePieces(a: seq<byte>, b: seq<byte>, c: seq<byte>, d: seq<byte>)
    requires |a| == |c|
    ensures a + b == c + d <==> a == c && b == d
  {
    assert a == (a + b)[..|a|] && c == (c + d)[..|c|];
    SameBehind(a, b, d);
  }

  /** The calls came to an end and brought as many bytes as the value has, and its own bytes iff `intact`. */
  predicate Brings(r: (seq<byte>, bool), value: seq<byte>, intact: bool) {
    r.1 && |r.0| == |value| && (r.0 == value <==> intact)
  }

  lemma JoinBrings(front: seq<byte>, rest: (seq<byte>, bool), a: seq<byte>, b: seq<byte>, fits: bool, follows: bool)
    requires |front| == |a| && (front == a <==> fits) && Brings(rest, b, follows)
    ensures Brings((front + rest.0, rest.1), a + b, fits && follows)
  {
    SamePieces(front, rest.0, a, b);
  }

  /** What a truncated call leaves at the start of the caller's memory. */
  function Front(s: Stash, tr: Translator, cell: Cell, column: int, ctype: int, w: Wide, c: Call): (r: seq<byte>)
    requires Usable(c, ctype, w) && s.offset <= |s.data|
    ensures |r| == ChunkBytes(ctype, c.len, w)
  {
    StepMemory(s, tr, cell, column, ctype, c.len, w, c.mem)[..ChunkBytes(ctype, c.len, w)]
  }

  /** A truncated call: `part` is what it has to deliver, and `next` the stash that it leaves. */
  predicate Delivers(s: Stash, tr: Translator, cell: Cell, column: int, ctype: int, w: Wide, c: Call, part: seq<byte>,
                     next: Stash)
    requires Usable(c, ctype, w) && s.offset <= |s.data|
  {
    && StepOutcome(s, tr, cell, column, ctype, c.len, w) == Partial
    && next == StepStash(s, tr, cell, column, ctype, c.len, w) && next.offset <= |next.data|
    && |part| == ChunkBytes(ctype, c.len, w) <= next.offset && part == next.data[next.offset - |part|..next.offset]
  }

  lemma DeliversPrepared(s: Stash, tr: Translator, cell: Cell, column: int, ctype: int, w: Wide, c: Call,
                         part: seq<byte>, next: Stash)
    requires Usable(c, ctype, w) && s.offset <= |s.data| && Delivers(s, tr, cell, column, ctype, w, c, part, next)
    ensures
      var p, n := Prepared(s, tr, cell, column, ctype, c.len, w), ChunkBytes(ctype, c.len, w);
      Delivery(p, ctype, c.len) == Partial && p.offset + n <= |p.data| && part == p.data[p.offset..p.offset + n]
  {
  }

  /** What the call leaves at the start of memory is what it has to deliver iff that is intact. */
  lemma FrontIntactIff(s: Stash, tr: Translator, cell: Cell, column: int, ctype: int, w: Wide, c: Call,
                       part: seq<byte>, next: Stash)
    requires Usable(c, ctype, w) && s.offset <= |s.data| && Delivers(s, tr, cell, column, ctype, w, c, part, next)
    ensures Front(s, tr, cell, column, ctype, w, c) == part <==> PartIntact(part, ctype, c.len, w)
  {
    var p := Prepared(s, tr, cell, column, ctype, c.len, w);
    var mem := if p.offset == 0 then Cleared(c.mem, ctype, c.len, w) else c.mem;
    DeliversPrepared(s, tr, cell, column, ctype, w, c, part, next);
    TruncatedWriteDelivers(mem, part, ctype, c.len, w);
  }

  lemma SplitAt(data: seq<byte>, a: nat, b: nat)
    requires a <= b <= |data|
    ensures data[a..] == data[a..b] + data[b..]
  {
  }

  lemma IntactFirst(data: seq<byte>, offset: nat, calls: seq<Call>, ctype: int, w: Wide)
    requires AllUsable(calls, ctype, w) && calls != [] && offset + calls[0].len <= |data|
    ensures
      var n := ChunkBytes(ctype, calls[0].len, w);
      AllIntact(data, offset, calls, ctype, w)
      <==> PartIntact(data[offset..offset + n], ctype, calls[0].len, w)
           && AllIntact(data, offset + n, calls[1..], ctype, w)
  {
  }

  /** A truncated call's buffer stands in front of what the other calls collect, from the stash `next` that it leaves. */
  lemma FrontCollects(s: Stash, tr: Translator, cell: Cell, column: int, ctype: int, w: Wide, calls: seq<Call>,
                      next: Stash)
    requires AllUsable(calls, ctype, w) && calls != [] && s.offset <= |s.data|
    requires StepOutcome(s, tr, cell, column, ctype, calls[0].len, w) == Partial
    requires next == StepStash(s, tr, cell, column, ctype, calls[0].len, w) && next.offset <= |next.data|
    ensures
      var rest := Collect(next, tr, cell, column, ctype, w, calls[1..]);
      Collect(s, tr, cell, column, ctype, w, calls)
      == (Front(s, tr, cell, column, ctype, w, calls[0]) + rest.0, rest.1)
  {
  }

  /** That front part holds its bytes iff it is intact. */
  lemma PartialCollects(s: Stash, tr: Translator, cell: Cell, column: int, ctype: int, w: Wide, calls: seq<Call>,
                        part: seq<byte>, next: Stash) returns (front: seq<byte>)
    requires AllUsable(calls, ctype, w) && calls != [] && s.offset <= |s.data|
    requires Delivers(s, tr, cell, column, ctype, w, calls[0], part, next)
    ensures |front| == |part| && (front == part <==> PartIntact(part, ctype, calls[0].len, w))
    ensures
      var rest := Collect(next, tr, cell, column, ctype, w, calls[1..]);
      Collect(s, tr, cell, column, ctype, w, calls) == (front + rest.0, rest.1)
  {
    front := Front(s, tr, cell, column, ctype, w, calls[0]);
    FrontIntactIff(s, tr, cell, column, ctype, w, calls[0], part, next);
    FrontCollects(s, tr, cell, column, ctype, w, calls, next);
  }

  /** One more call in front of those that bring the rest. */
  lemma CollectsOn(s: Stash, tr: Translator, cell: Cell, column: int, ctype: int, w: Wide, calls: seq<Call>,
                   part: seq<byte>, next: Stash, follows: bool)
    requires AllUsable(calls, ctype, w) && calls != [] && s.offset <= |s.data|
    requires Delivers(s, tr, cell, column, ctype, w, calls[0], part, next)
    requires Brings(Collect(next, tr, cell, column, ctype, w, calls[1..]), next.data[next.offset..], follows)
    ensures Brings(Collect(s, tr, cell, column, ctype, w, calls), part + next.data[next.offset..],
                   PartIntact(part, ctype, calls[0].len, w) && follows)
  {
    var front := PartialCollects(s, tr, cell, column, ctype, w, calls, part, next);
    JoinBrings(front, Collect(next, tr, cell, column, ctype, w, calls[1..]), part, next.data[next.offset..],
               PartIntact(part, ctype, calls[0].len, w), follows);
  }

  lemma FinalCollects(s: Stash, tr: Translator, cell: Cell, column: int, ctype: int, w: Wide, calls: seq<Call>)
    requires AllUsable(calls, ctype, w) && calls != []
    requires s.column == column && s.ctype == ctype && 0 < s.offset <= |s.data| && |s.data| - s.offset < calls[0].len
    ensures Collect(s, tr, cell, column, ctype, w, calls) == (s.data[s.offset..], true)
  {
    FinalCallRepeats(s, tr, cell, column, ctype, calls[0].len, w, calls[0].mem);
  }

  /** From any offset inside the value, enough calls collect as many bytes as are left, and the same ones iff intact. */
  lemma {:induction false} CollectsTheRest(s: Stash, tr: Translator, cell: Cell, column: int, ctype: int, w: Wide,
                                          calls: seq<Call>)
    requires AllUsable(calls, ctype, w)
    requires s.column == column && s.ctype == ctype && 0 < s.offset <= |s.data|
    requires |calls| > |s.data| - s.offset
    ensures Brings(Collect(s, tr, cell, column, ctype, w, calls), s.data[s.offset..],
                   AllIntact(s.data, s.offset, calls, ctype, w))
    decreases |calls|
  {
    if |s.data| - s.offset >= calls[0].len {
      var t := s.(offset := s.offset + ChunkBytes(ctype, calls[0].len, w));
      var part, follows := s.data[s.offset..t.offset], AllIntact(s.data, t.offset, calls[1..], ctype, w);
      CollectsTheRest(t, tr, cell, column, ctype, w, calls[1..]);
      CollectsOn(s, tr, cell, column, ctype, w, calls, part, t, follows);
      IntactFirst(s.data, s.offset, calls, ctype, w);
      SplitAt(s.data, s.offset, t.offset);
    } else {
      FinalCollects(s, tr, cell, column, ctype, w, calls);
    }
  }

  /**
   The central promise of SQLGetData: a value read in parts, through buffers of any sizes, arrives whole.
   It is kept exactly when the translated value is empty, or does not fit the first buffer with room to spare and every
   part is left intact; a shorter value takes the branch that copies nothing.
   */
  lemma ReassemblyIff(s: Stash, tr: Translator, cell: Cell, column: int, ctype: int, w: Wide, calls: seq<Call>)
    requires AllUsable(calls, ctype, w) && s.offset <= |s.data|
    requires s.offset == 0 || s.column != column
    requires |calls| > |tr(cell, ctype).bytes| && cell.chunkable && CellBytes(cell, ctype, w) > calls[0].len
    ensures
      var value, r := tr(cell, ctype).bytes, Collect(s, tr, cell, column, ctype, w, calls);
      && r.1
      && (r.0 == value <==> value == [] || (|value| >= calls[0].len && AllIntact(value, 0, calls, ctype, w)))
  {
    if |tr(cell, ctype).bytes| >= calls[0].len {
      LongValueIff(s, tr, cell, column, ctype, w, calls, tr(cell, ctype).bytes);
    }
  }

  lemma LongValueIff(s: Stash, tr: Translator, cell: Cell, column: int, ctype: int, w: Wide, calls: seq<Call>,
                     value: seq<byte>)
    requires AllUsable(calls, ctype, w) && s.offset <= |s.data| && (s.offset == 0 || s.column != column)
    requires value == tr(cell, ctype).bytes && calls != []
    requires cell.chunkable && CellBytes(cell, ctype, w) > calls[0].len
    requires |calls| > |value| >= calls[0].len
    ensures Brings(Collect(s, tr, cell, column, ctype, w, calls), value, AllIntact(value, 0, calls, ctype, w))
  {
    var p := Prepared(s, tr, cell, column, ctype, calls[0].len, w);
    var next := p.(offset := ChunkBytes(ctype, calls[0].len, w));
    var part, follows := value[0..next.offset], AllIntact(value, next.offset, calls[1..], ctype, w);
    CollectsTheRest(next, tr, cell, column, ctype, w, calls[1..]);
    CollectsOn(s, tr, cell, column, ctype, w, calls, part, next, follows);
    IntactFirst(value, 0, calls, ctype, w);
    SplitAt(value, 0, next.offset);
  }

  /** With an SQLWCHAR no narrower than a character on the wire, parts are always intact. */
  lemma WideEnoughReassemblesIff(s: Stash, tr: Translator, cell: Cell, column: int, ctype: int, w: Wide,
                                 calls: seq<Call>)
    requires AllUsable(calls, ctype, w) && s.offset <= |s.data|
    requires s.offset == 0 || s.column != column
    requires |calls| > |tr(cell, ctype).bytes| && cell.chunkable && CellBytes(cell, ctype, w) > calls[0].len
    requires ctype == SQL_C_WCHAR ==> w.sqlwchar.Bytes() >= w.wire.Bytes()
    ensures
      var value := tr(cell, ctype).bytes;
      Collect(s, tr, cell, column, ctype, w, calls) == (value, true) <==> value == [] || |value| >= calls[0].len
  {
    ReassemblyIff(s, tr, cell, column, ctype, w, calls);
    WideEnoughKeepsAll(tr(cell, ctype).bytes, 0, calls, ctype, w);
  }

  /** A concrete loss: the Base64 text of one byte meets a two-byte buffer, and nothing is delivered. */
  lemma ShortTranslationIsLost(w: Wide, mem: seq<byte>)
    requires Roomy(mem, 2)
    ensures
      var cell, tr := Cell([81, 81, 61, 61], true), (c: Cell, t: int) => Translation([65], 0);
      && StepOutcome(Stash([], 0, 0, -1, 0), tr, cell, 1, SQL_C_BINARY, 2, w) == Skipped(1)
      && StepMemory(Stash([], 0, 0, -1, 0), tr, cell, 1, SQL_C_BINARY, 2, w, mem)[0] == 0
  {
  }

  /**
   Widths that differ break wide reads. The terminator passes the end of the buffer exactly when SQLWCHAR is the
   wider one, and it can overwrite delivered characters exactly when SQLWCHAR is the narrower one.
   */
  lemma WideTerminatorIff(len: nat, w: Wide)
    requires len >= 2 * w.wire.Bytes()
    ensures TerminatorAt(len, w) + w.sqlwchar.Bytes() > len <==> w.sqlwchar.Bytes() > w.wire.Bytes()
    ensures TerminatorAt(len, w) < ChunkBytes(SQL_C_WCHAR, len, w) <==> w.sqlwchar.Bytes() < w.wire.Bytes()
    ensures
      var n := ChunkBytes(SQL_C_WCHAR, len, w);
      var ones := seq(4 * len, i => 255);
      var after := TruncatedWrite(ones, ones[..n], SQL_C_WCHAR, len, w);
      && (after[len..] == ones[len..] <==> w.sqlwchar.Bytes() <= w.wire.Bytes())
      && (after[..n] == ones[..n] <==> w.sqlwchar.Bytes() >= w.wire.Bytes())
  {
    var n := ChunkBytes(SQL_C_WCHAR, len, w);
    var ones: seq<byte> := seq(4 * len, i => 255);
    var after := TruncatedWrite(ones, ones[..n], SQL_C_WCHAR, len, w);
    var at := TerminatorAt(len, w);
    assert after[at] == 0;
    var last := at + w.sqlwchar.Bytes() - 1;
    assert after[last] == 0;
    if last >= len {
      assert after[len..][last - len] == 0 && ones[len..][last - len] == 255;
    } else {
      assert after[len..] == ones[len..];
    }
    if at < n {
      assert after[..n][at] == 0 && ones[..n][at] == 255;
    } else {
      assert after[..n] == ones[..n];
    }
  }

  /** Once SQL_SUCCESS was returned the offset stays, so the same call yields the same tail again. */
  lemma FinalCallRepeats(s: Stash, tr: Translator, cell: Cell, column: int, ctype: int, len: nat, w: Wide, mem: seq<byte>)
    requires Legal(ctype, len, w) && Roomy(mem, len) && s.offset <= |s.data|
    requires StepOutcome(s, tr, cell, column, ctype, len, w).Final?
    ensures StepStash(s, tr, cell, column, ctype, len, w) == s
    ensures StepOutcome(s, tr, cell, column, ctype, len, w) == Final(|s.data|)
    ensures StepMemory(s, tr, cell, column, ctype, len, w, mem)[..|s.data| - s.offset] == s.data[s.offset..]
    ensures StepMemory(s, tr, cell, column, ctype, len, w, mem)[len..] == mem[len..]
  {
    var rest := s.data[s.offset..];
    assert Splice(mem, 0, rest)[..|rest|] == rest;
    assert Splice(mem, 0, rest + [s.tail])[..|rest|] == rest;
  }
}
