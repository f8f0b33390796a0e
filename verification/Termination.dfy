/** Which parts of a text that SQLGetData delivers end in a null character. */
module Termination {
  import opened SqlTypes
  import opened ChunkedGetData

  /** `width` zero bytes stand at `at`. */
  predicate Terminated(mem: seq<byte>, at: nat, width: nat)
    requires at + width <= |mem|
  {
    forall k :: at <= k < at + width ==> mem[k] == 0
  }

  /** The bytes of text that a call delivers. */
  function Part(s: Stash, tr: Translator, cell: Cell, column: int, ctype: int, len: nat, w: Wide): nat
    requires Legal(ctype, len, w) && s.offset <= |s.data|
  {
    var p := Prepared(s, tr, cell, column, ctype, len, w);
    if StepOutcome(s, tr, cell, column, ctype, len, w) == Partial then ChunkBytes(ctype, len, w) else |p.data| - p.offset
  }

  /** A truncated part of SQL_C_CHAR is terminated iff it is the first, or the caller's last byte was zero before. */
  lemma TruncatedCharsIff(s: Stash, tr: Translator, cell: Cell, column: int, ctype: int, len: nat, w: Wide,
                          mem: seq<byte>)
    requires Legal(ctype, len, w) && Roomy(mem, len) && s.offset <= |s.data|
    requires ctype != SQL_C_BINARY && ctype != SQL_C_WCHAR
    requires StepOutcome(s, tr, cell, column, ctype, len, w) == Partial
    ensures
      var n, after := Part(s, tr, cell, column, ctype, len, w), StepMemory(s, tr, cell, column, ctype, len, w, mem);
      && n == len - 1
      && (Terminated(after, n, 1)
          <==> Prepared(s, tr, cell, column, ctype, len, w).offset == 0 || mem[len - 1] == 0)
  {
  }

  /** A final part of SQL_C_CHAR is terminated iff the translation left a zero behind the value. */
  lemma LastCharsIff(s: Stash, tr: Translator, cell: Cell, column: int, ctype: int, len: nat, w: Wide, mem: seq<byte>)
    requires Legal(ctype, len, w) && Roomy(mem, len) && s.offset <= |s.data|
    requires ctype != SQL_C_BINARY && ctype != SQL_C_WCHAR
    requires StepOutcome(s, tr, cell, column, ctype, len, w).Final?
    ensures
      var n, after := Part(s, tr, cell, column, ctype, len, w), StepMemory(s, tr, cell, column, ctype, len, w, mem);
      n < len && (Terminated(after, n, 1) <==> s.tail == 0)
  {
    var n := Part(s, tr, cell, column, ctype, len, w);
    var after := StepMemory(s, tr, cell, column, ctype, len, w, mem);
    assert after == Splice(mem, 0, s.data[s.offset..] + [s.tail]);
    assert after[n] == s.tail;
  }

  /** Caller memory when the copy starts: on a first call it has been cleared in part. */
  function Before(s: Stash, tr: Translator, cell: Cell, column: int, ctype: int, len: nat, w: Wide, mem: seq<byte>)
    : (r: seq<byte>)
    requires Roomy(mem, len)
    ensures |r| == |mem|
  {
    if Prepared(s, tr, cell, column, ctype, len, w).offset == 0 then Cleared(mem, ctype, len, w) else mem
  }

  /** A truncated part of wide text, for any widths: iff what the terminator misses of the next character is zero anyway. */
  lemma TruncatedWideIff(s: Stash, tr: Translator, cell: Cell, column: int, len: nat, w: Wide, mem: seq<byte>)
    requires Legal(SQL_C_WCHAR, len, w) && Roomy(mem, len) && s.offset <= |s.data|
    requires StepOutcome(s, tr, cell, column, SQL_C_WCHAR, len, w) == Partial
    ensures
      var n, at := Part(s, tr, cell, column, SQL_C_WCHAR, len, w), TerminatorAt(len, w);
      var before := Before(s, tr, cell, column, SQL_C_WCHAR, len, w, mem);
      && n + w.wire.Bytes() <= len
      && (Terminated(StepMemory(s, tr, cell, column, SQL_C_WCHAR, len, w, mem), n, w.wire.Bytes())
          <==> forall k :: n <= k < n + w.wire.Bytes() && !(at <= k < at + w.sqlwchar.Bytes()) ==> before[k] == 0)
  {
    var n, at := Part(s, tr, cell, column, SQL_C_WCHAR, len, w), TerminatorAt(len, w);
    var before := Before(s, tr, cell, column, SQL_C_WCHAR, len, w, mem);
    var after := StepMemory(s, tr, cell, column, SQL_C_WCHAR, len, w, mem);
    assert forall k :: n <= k < n + w.wire.Bytes() ==>
        after[k] == if at <= k < at + w.sqlwchar.Bytes() then 0 else before[k];
  }

  /** A truncated part of wide text is always terminated, if SQLWCHAR is as wide as a character on the wire. */
  lemma TruncatedWideIsTerminated(s: Stash, tr: Translator, cell: Cell, column: int, len: nat, w: Wide, mem: seq<byte>)
    requires Legal(SQL_C_WCHAR, len, w) && Roomy(mem, len) && s.offset <= |s.data| && w.sqlwchar == w.wire
    requires StepOutcome(s, tr, cell, column, SQL_C_WCHAR, len, w) == Partial
    ensures
      var n := Part(s, tr, cell, column, SQL_C_WCHAR, len, w);
      var after := StepMemory(s, tr, cell, column, SQL_C_WCHAR, len, w, mem);
      n + w.wire.Bytes() <= len && Terminated(after, n, w.wire.Bytes())
  {
  }

  /** A final part of wide text gets one byte of its terminator; the others must have been zero before. */
  lemma LastWideIff(s: Stash, tr: Translator, cell: Cell, column: int, len: nat, w: Wide, mem: seq<byte>)
    requires Legal(SQL_C_WCHAR, len, w) && Roomy(mem, len) && s.offset <= |s.data|
    requires StepOutcome(s, tr, cell, column, SQL_C_WCHAR, len, w).Final?
    ensures
      var n := Part(s, tr, cell, column, SQL_C_WCHAR, len, w);
      var after := StepMemory(s, tr, cell, column, SQL_C_WCHAR, len, w, mem);
      && n + w.wire.Bytes() <= |after|
      && (Terminated(after, n, w.wire.Bytes())
          <==> s.tail == 0 && forall k :: n < k < n + w.wire.Bytes() ==> mem[k] == 0)
  {
    var n := Part(s, tr, cell, column, SQL_C_WCHAR, len, w);
    var after := StepMemory(s, tr, cell, column, SQL_C_WCHAR, len, w, mem);
    assert after == Splice(mem, 0, s.data[s.offset..] + [s.tail]);
    assert after[n] == s.tail;
    assert forall k :: n < k < n + w.wire.Bytes() ==> after[k] == mem[k];
  }

  /** The second part of a text, read into a buffer that was not cleared: its last byte is the caller's. */
  lemma SecondPartRunsOn(cell: Cell, mem: seq<byte>, w: Wide)
    requires |mem| == 16 && mem[3] == 255
    ensures
      var tr := (c: Cell, t: int) => Translation([65, 66, 67, 68, 69, 70, 71, 72], 0);
      var s := Stash(tr(cell, 1).bytes, 0, 3, 1, 1);
      && StepOutcome(s, tr, cell, 1, 1, 4, w) == Partial
      && StepMemory(s, tr, cell, 1, 1, 4, w, mem)[..4] == [68, 69, 70, 255]
  {
    var tr := (c: Cell, t: int) => Translation([65, 66, 67, 68, 69, 70, 71, 72], 0);
    var s := Stash(tr(cell, 1).bytes, 0, 3, 1, 1);
    assert s.data[3..6] == [68, 69, 70];
  }
}
