/**
 SQLGetData: a long value is translated once into a stash kept with the result set and handed out
 over several calls, each into a buffer of the caller's choosing.
 */
module ChunkedGetData {
  import opened SqlTypes

  const SQL_C_BINARY: int := -2
  const SQL_C_WCHAR: int := -8

  /** A cell of the current row: its stored bytes, and whether its BigQuery type is one that may be chunked. */
  datatype Cell = Cell(value: seq<byte>, chunkable: bool)

  /** What GetColumnData writes for a cell: the value, and the byte it leaves just behind it. */
  datatype Translation = Translation(bytes: seq<byte>, tail: byte)

  type Translator = (Cell, int) -> Translation

  /** A character width in bytes; arithmetic by cases keeps the proofs linear. */
  datatype Width = One | Two | Four {
    function Bytes(): nat {
      match this case One => 1 case Two => 2 case Four => 4
    }

    /** The bytes that `n` characters take. */
    function Times(n: nat): nat {
      match this case One => n case Two => 2 * n case Four => 4 * n
    }

    /** The whole characters that fit `n` bytes. */
    function Per(n: nat): nat {
      match this case One => n case Two => n / 2 case Four => n / 4
    }

    predicate Divides(n: nat) {
      match this case One => true case Two => n % 2 == 0 case Four => n % 4 == 0
    }
  }

  /** Widths of a wide character: as configured for the wire, and of the compiled SQLWCHAR type. */
  datatype Wide = Wide(wire: Width, sqlwchar: Width)

  datatype Stash = Stash(data: seq<byte>, tail: byte, offset: nat, column: int, ctype: int)

  datatype Outcome =
    | Direct               // GetColumnData fills the caller's buffer itself
    | Refused              // HY000: the C type changed between parts
    | Partial              // 01004, length indicator SQL_NO_TOTAL
    | Final(total: nat)    // SQL_SUCCESS with the rest of the value
    | Skipped(total: nat)  // the status of GetColumnData, with nothing copied

  /** Buffer lengths for which the copy arithmetic is defined. */
  predicate Legal(ctype: int, len: nat, w: Wide) {
    len >= 1 && (ctype == SQL_C_WCHAR ==> len >= w.wire.Bytes())
  }

  /** Payload bytes that a truncated call delivers. */
  function ChunkBytes(ctype: int, len: nat, w: Wide): (n: nat)
    requires Legal(ctype, len, w)
    ensures n <= len
    ensures ctype == SQL_C_WCHAR ==> w.wire.Divides(n) && n + w.wire.Bytes() <= len
  {
    if ctype == SQL_C_BINARY then len
    else if ctype == SQL_C_WCHAR then w.wire.Times(w.wire.Per(len) - 1)
    else len - 1
  }

  predicate TakesStash(cell: Cell, ctype: int, len: nat, w: Wide)
  {
    cell.chunkable && |cell.value| > (if ctype == SQL_C_WCHAR then w.wire.Per(len) else len)
  }

  /** The stash once column tracking and the first-call translation have been applied. */
  function Prepared(s: Stash, tr: Translator, cell: Cell, column: int, ctype: int, len: nat, w: Wide): Stash
  {
    var s1 := if s.column != column then s.(offset := 0, column := column) else s;
    if s1.offset == 0 && TakesStash(cell, ctype, len, w) then
      var t := tr(cell, ctype);
      s1.(data := t.bytes, tail := t.tail, ctype := ctype)
    else s1
  }

  /** Whether the call is answered from the stash rather than by GetColumnData directly. */
  predicate FromStash(s: Stash, cell: Cell, column: int, ctype: int, len: nat, w: Wide) {
    (s.column == column && s.offset != 0) || TakesStash(cell, ctype, len, w)
  }

  function Delivery(p: Stash, ctype: int, len: nat): Outcome {
    if p.ctype != ctype then Refused
    else if |p.data| - p.offset >= len then Partial
    else if p.offset != 0 then Final(|p.data|)
    else Skipped(|p.data|)
  }

  function StepOutcome(s: Stash, tr: Translator, cell: Cell, column: int, ctype: int, len: nat, w: Wide): Outcome {
    if FromStash(s, cell, column, ctype, len, w)
    then Delivery(Prepared(s, tr, cell, column, ctype, len, w), ctype, len)
    else Direct
  }

  function Advanced(p: Stash, ctype: int, len: nat, w: Wide): Stash
    requires Legal(ctype, len, w)
  {
    if Delivery(p, ctype, len) == Partial then p.(offset := p.offset + ChunkBytes(ctype, len, w)) else p
  }

  function StepStash(s: Stash, tr: Translator, cell: Cell, column: int, ctype: int, len: nat, w: Wide): Stash
    requires Legal(ctype, len, w)
  {
    var p := Prepared(s, tr, cell, column, ctype, len, w);
    if FromStash(s, cell, column, ctype, len, w) then Advanced(p, ctype, len, w) else p
  }

  /** What the offset means: it lies within the value, on a character boundary for wide text. */
  predicate ValidStash(s: Stash, w: Wide) {
    && s.offset <= |s.data|
    && (s.ctype == SQL_C_WCHAR ==> w.wire.Divides(s.offset))
  }

  /** Caller memory from the start of the target buffer on; it must reach past the widest terminator. */
  predicate Roomy(mem: seq<byte>, len: nat) {
    |mem| >= 4 * len
  }

  /** Caller memory after the truncated copy of `payload`, with the terminator that wide text gets. */
  function TruncatedWrite(mem: seq<byte>, payload: seq<byte>, ctype: int, len: nat, w: Wide): (r: seq<byte>)
    requires Legal(ctype, len, w) && Roomy(mem, len) && |payload| == ChunkBytes(ctype, len, w)
    ensures |r| == |mem|
  {
    var m := Splice(mem, 0, payload);
    if ctype == SQL_C_WCHAR then
      Splice(m, TerminatorAt(len, w), Zeros(w.sqlwchar.Bytes()))
    else m
  }

  /** The terminator is stored through a pointer to SQLWCHAR, so it is indexed in units of that type. */
  function TerminatorAt(len: nat, w: Wide): (at: nat)
    requires len >= w.wire.Bytes()
    ensures at + w.sqlwchar.Bytes() <= 4 * len
  {
    w.sqlwchar.Times(w.wire.Per(len) - 1)
  }

  /** The memset of the first call: as many bytes as the buffer holds characters. */
  function Cleared(mem: seq<byte>, ctype: int, len: nat, w: Wide): (r: seq<byte>)
    requires Roomy(mem, len)
    ensures |r| == |mem|
  {
    Splice(mem, 0, Zeros(if ctype == SQL_C_WCHAR then w.wire.Per(len) else len))
  }

  function DeliveredMemory(p: Stash, ctype: int, len: nat, w: Wide, mem: seq<byte>): (r: seq<byte>)
    requires Legal(ctype, len, w) && Roomy(mem, len) && p.offset <= |p.data|
    ensures |r| == |mem|
  {
    match Delivery(p, ctype, len)
    case Partial => TruncatedWrite(mem, p.data[p.offset..p.offset + ChunkBytes(ctype, len, w)], ctype, len, w)
    case Final(_) => Splice(mem, 0, if ctype == SQL_C_BINARY then p.data[p.offset..] else p.data[p.offset..] + [p.tail])
    case _ => mem
  }

  function StepMemory(s: Stash, tr: Translator, cell: Cell, column: int, ctype: int, len: nat, w: Wide,
                      mem: seq<byte>): (r: seq<byte>)
    requires Legal(ctype, len, w) && Roomy(mem, len) && s.offset <= |s.data|
    ensures |r| == |mem|
  {
    var p := Prepared(s, tr, cell, column, ctype, len, w);
    if !FromStash(s, cell, column, ctype, len, w) then mem
    else DeliveredMemory(p, ctype, len, w, if p.offset == 0 then Cleared(mem, ctype, len, w) else mem)
  }

  /** The truncated copies of the three C types; returns the bytes by which the offset advances. */
  method CopyTruncated(data: seq<byte>, offset: nat, ctype: int, target: array<byte>, len: nat, w: Wide)
    returns (n: nat)
    requires Legal(ctype, len, w) && Roomy(target[..], len) && offset + len <= |data|
    modifies target
    ensures n == ChunkBytes(ctype, len, w)
    ensures target[..] == TruncatedWrite(old(target[..]), data[offset..offset + n], ctype, len, w)
  {
    if ctype == SQL_C_BINARY {
      MemCpy(target, 0, data[offset..offset + len]);
      n := len;
    } else if ctype == SQL_C_WCHAR {
      n := CopyTruncatedWide(data, offset, target, len, w);
    } else {
      MemCpy(target, 0, data[offset..offset + len - 1]);
      n := len - 1;
    }
  }

  method CopyTruncatedWide(data: seq<byte>, offset: nat, target: array<byte>, len: nat, w: Wide) returns (n: nat)
    requires Legal(SQL_C_WCHAR, len, w) && Roomy(target[..], len) && offset + len <= |data|
    modifies target
    ensures n == ChunkBytes(SQL_C_WCHAR, len, w)
    ensures target[..] == TruncatedWrite(old(target[..]), data[offset..offset + n], SQL_C_WCHAR, len, w)
  {
    // remainChars subtracts a character count from a byte count; the caller's guard makes it harmless.
    var maxBuffChars := w.wire.Per(len);
    var offsetChars := w.wire.Per(offset);
    var remainChars := if |data| > offsetChars then |data| - offsetChars else 0;
    var copyChars := if remainChars >= maxBuffChars then maxBuffChars - 1 else remainChars;
    assert copyChars == w.wire.Per(len) - 1;
    n := w.wire.Times(copyChars);
    MemCpy(target, 0, data[offset..offset + n]);
    MemCpy(target, w.sqlwchar.Times(copyChars), Zeros(w.sqlwchar.Bytes()));
  }

  /** The part of the result set that SQLGetData updates in place. */
  class TranslatedData {
    var data: seq<byte>
    var tail: byte
    var rowOffset: nat
    var lastColumnIndex: int
    var lastTargetCType: int

    constructor ()
      ensures Contents() == Stash([], 0, 0, -1, 0)
    {
      data, tail, rowOffset, lastColumnIndex, lastTargetCType := [], 0, 0, -1, 0;
    }

    ghost function Contents(): Stash
      reads this
    {
      Stash(data, tail, rowOffset, lastColumnIndex, lastTargetCType)
    }

    /** The chunking part of SQLGetDataInternal, for arguments that passed its checks. */
    method GetData(tr: Translator, cell: Cell, column: int, ctype: int, target: array<byte>, len: nat, w: Wide)
      returns (o: Outcome)
      requires Legal(ctype, len, w) && Roomy(target[..], len) && Contents().offset <= |Contents().data|
      modifies this, target
      ensures o == StepOutcome(old(Contents()), tr, cell, column, ctype, len, w)
      ensures Contents() == StepStash(old(Contents()), tr, cell, column, ctype, len, w)
      ensures target[..] == StepMemory(old(Contents()), tr, cell, column, ctype, len, w, old(target[..]))
    {
      if lastColumnIndex != column {
        rowOffset := 0;
      }
      lastColumnIndex := column;
      if rowOffset == 0 {
        var targetBuffLen := if ctype == SQL_C_WCHAR then w.wire.Per(len) else len;
        if |cell.value| > targetBuffLen && cell.chunkable {
          lastTargetCType := ctype;
          var t := tr(cell, ctype);
          data, tail := t.bytes, t.tail;
          MemCpy(target, 0, Zeros(targetBuffLen));
        } else {
          return Direct;
        }
      }
      o := Deliver(ctype, target, len, w);
    }

    method Deliver(ctype: int, target: array<byte>, len: nat, w: Wide) returns (o: Outcome)
      requires Legal(ctype, len, w) && Roomy(target[..], len) && Contents().offset <= |Contents().data|
      modifies this`rowOffset, target
      ensures o == Delivery(old(Contents()), ctype, len)
      ensures Contents() == Advanced(old(Contents()), ctype, len, w)
      ensures target[..] == DeliveredMemory(old(Contents()), ctype, len, w, old(target[..]))
    {
      var offset := rowOffset;
      if lastTargetCType != ctype {
        return Refused;
      }
      if |data| - offset >= len {
        var n := CopyTruncated(data, offset, ctype, target, len, w);
        rowOffset := offset + n;
        return Partial;
      }
      if offset != 0 {
        if ctype == SQL_C_BINARY {
          MemCpy(target, 0, data[offset..]);
        } else {
          MemCpy(target, 0, data[offset..] + [tail]);
        }
        return Final(|data|);
      }
      return Skipped(|data|);
    }
  }
}
