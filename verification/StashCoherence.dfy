/** The stash as a cache of the current cell, over every interleaving of SQLGetData with the fetch calls. */
module StashCoherence {
  import opened SqlTypes
  import opened ChunkedGetData

  /** The row under the cursor and the stash of its result set. */
  datatype Cursor = Cursor(row: seq<Cell>, stash: Stash)

  datatype Op =
    | Get(column: int, ctype: int, len: nat)
    | Fetch(row: seq<Cell>)    // SQLFetch or SQLFetchScroll, also when it leaves the cursor where it was
    | NewPage(row: seq<Cell>)  // a fetch that replaced the result set

  const EMPTY := Stash([], 0, 0, -1, 0)

  predicate Allowed(c: Cursor, op: Op, w: Wide) {
    op.Get? ==> 1 <= op.column <= |c.row| && Legal(op.ctype, op.len, w)
  }

  function Apply(c: Cursor, op: Op, tr: Translator, w: Wide): Cursor
    requires Allowed(c, op, w)
  {
    match op
    case Get(column, ctype, len) => c.(stash := StepStash(c.stash, tr, c.row[column - 1], column, ctype, len, w))
    case Fetch(row) => Cursor(row, c.stash.(offset := 0, data := [], ctype := 0))
    case NewPage(row) => Cursor(row, EMPTY)
  }

  /** A non-zero offset says that the stash is the translation of the cell it was taken from. */
  predicate Coherent(c: Cursor, tr: Translator, w: Wide) {
    && ValidStash(c.stash, w)
    && (c.stash.offset != 0 ==>
          && 1 <= c.stash.column <= |c.row|
          && c.stash.data == tr(c.row[c.stash.column - 1], c.stash.ctype).bytes)
  }

  predicate AllowedRun(c: Cursor, ops: seq<Op>, tr: Translator, w: Wide)
    decreases |ops|
  {
    ops == [] || (Allowed(c, ops[0], w) && AllowedRun(Apply(c, ops[0], tr, w), ops[1..], tr, w))
  }

  function Run(c: Cursor, ops: seq<Op>, tr: Translator, w: Wide): Cursor
    requires AllowedRun(c, ops, tr, w)
    decreases |ops|
  {
    if ops == [] then c else Run(Apply(c, ops[0], tr, w), ops[1..], tr, w)
  }

  /** A run is its calls one after the other. */
  lemma {:induction false} RunOfMore(c: Cursor, ops: seq<Op>, op: Op, tr: Translator, w: Wide)
    requires AllowedRun(c, ops + [op], tr, w)
    ensures AllowedRun(c, ops, tr, w) && Allowed(Run(c, ops, tr, w), op, w)
    ensures Run(c, ops + [op], tr, w) == Apply(Run(c, ops, tr, w), op, tr, w)
    decreases |ops|
  {
    if ops == [] {
      NothingAdded([op]);
    } else {
      assert (ops + [op])[1..] == ops[1..] + [op];
      RunOfMore(Apply(c, ops[0], tr, w), ops[1..], op, tr, w);
    }
  }

  lemma ApplyKeepsCoherent(c: Cursor, op: Op, tr: Translator, w: Wide)
    requires Coherent(c, tr, w) && Allowed(c, op, w)
    ensures Coherent(Apply(c, op, tr, w), tr, w)
  {
  }

  lemma {:induction false} RunKeepsCoherent(c: Cursor, ops: seq<Op>, tr: Translator, w: Wide)
    requires Coherent(c, tr, w) && AllowedRun(c, ops, tr, w)
    ensures Coherent(Run(c, ops, tr, w), tr, w)
    decreases |ops|
  {
    if ops == [] {
    } else {
      ApplyKeepsCoherent(c, ops[0], tr, w);
      RunKeepsCoherent(Apply(c, ops[0], tr, w), ops[1..], tr, w);
    }
  }

  /** The bytes a call hands out: a slice of the stash. */
  function Delivered(c: Cursor, op: Op, tr: Translator, w: Wide): (r: seq<byte>)
    requires op.Get? && Allowed(c, op, w) && Coherent(c, tr, w)
  {
    var p := Prepared(c.stash, tr, c.row[op.column - 1], op.column, op.ctype, op.len, w);
    match StepOutcome(c.stash, tr, c.row[op.column - 1], op.column, op.ctype, op.len, w)
    case Partial => p.data[p.offset..p.offset + ChunkBytes(op.ctype, op.len, w)]
    case Final(_) => p.data[p.offset..]
    case _ => []
  }

  /**
   Whatever happened before, a call never hands out bytes of another row, column or C type: they are a slice of the
   translation of the cell now asked for. A column change or a fetch starts that value from its first byte.
   */
  lemma NoStaleBytes(start: Cursor, ops: seq<Op>, op: Op, tr: Translator, w: Wide)
    requires start.stash == EMPTY && AllowedRun(start, ops, tr, w)
    requires op.Get? && Allowed(Run(start, ops, tr, w), op, w)
    ensures
      var c := Run(start, ops, tr, w);
      var value := tr(c.row[op.column - 1], op.ctype).bytes;
      && Coherent(c, tr, w)
      && var at := if c.stash.column == op.column then c.stash.offset else 0;
      && (Delivered(c, op, tr, w) != [] ==>
            at + |Delivered(c, op, tr, w)| <= |value|
            && Delivered(c, op, tr, w) == value[at..at + |Delivered(c, op, tr, w)|])
  {
    RunKeepsCoherent(start, ops, tr, w);
  }

  /** After a fetch, and on another column, the next call behaves as on a fresh stash. */
  lemma RestartsAtZero(c: Cursor, row: seq<Cell>, op: Op, tr: Translator, w: Wide)
    requires op.Get? && 1 <= op.column <= |row| && Legal(op.ctype, op.len, w)
    ensures
      var cell := row[op.column - 1];
      var fetched := Apply(c, Fetch(row), tr, w).stash;
      && fetched == Stash([], c.stash.tail, 0, c.stash.column, 0)
      && StepOutcome(fetched, tr, cell, op.column, op.ctype, op.len, w)
         == StepOutcome(EMPTY, tr, cell, op.column, op.ctype, op.len, w)
      && (c.stash.column != op.column ==>
            StepOutcome(c.stash, tr, cell, op.column, op.ctype, op.len, w)
            == StepOutcome(EMPTY, tr, cell, op.column, op.ctype, op.len, w))
      && (StepOutcome(fetched, tr, cell, op.column, op.ctype, op.len, w) == Partial ==>
            StepStash(fetched, tr, cell, op.column, op.ctype, op.len, w)
            == StepStash(EMPTY, tr, cell, op.column, op.ctype, op.len, w))
  {
  }

  /** In the middle of a value another C type is refused and nothing moves; the old type then continues. */
  lemma TypeChangeIsRefused(c: Cursor, op: Op, tr: Translator, w: Wide)
    requires op.Get? && Allowed(c, op, w)
    requires c.stash.column == op.column && c.stash.offset != 0
    ensures
      var cell := c.row[op.column - 1];
      && (StepOutcome(c.stash, tr, cell, op.column, op.ctype, op.len, w) == Refused <==> op.ctype != c.stash.ctype)
      && (op.ctype != c.stash.ctype ==> Apply(c, op, tr, w) == c)
  {
  }
}
