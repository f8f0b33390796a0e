/** Conservation of rows over runs of SQLFetch. */
module RowsetDelivery {
  import opened SqlTypes
  import opened RowsetFetch

  /** The rows that pages still to come will bring, as each is cut on arrival; nothing follows a failure. */
  function Deliverable(server: seq<Response>, limit: Limit): seq<Row> {
    if limit.Barred? || server == [] || server[0].Failure? then []
    else Trim(server[0].rows, limit.most) + Deliverable(server[1..], limit)
  }

  /** The rows from the cursor on. */
  function Ahead(s: State, limit: Limit): seq<Row> {
    if !s.ready then []
    else
      var from := if s.cursor < 0 then 0 else s.cursor;
      (if from <= |s.rows| then s.rows[from..] else []) + Deliverable(s.server, limit)
  }

  /** Between calls the cursor rests on the last row delivered. */
  function Pending(s: State, limit: Limit): seq<Row> {
    Ahead(s.(cursor := s.cursor + 1), limit)
  }

  /** The cursor is below -1 only after a rowset that ended on an empty page. */
  predicate AtRest(s: State) {
    s.cursor >= -2 && (s.cursor == -2 ==> s.rows == [])
  }

  predicate OnTheMove(s: State) {
    s.ready && s.cursor >= -1 && (s.cursor == -1 ==> s.rows == [])
  }

  lemma TakeOne(s: State, limit: Limit)
    requires s.ready && 0 <= s.cursor < |s.rows|
    ensures Ahead(s, limit) == [s.rows[s.cursor]] + Pending(s, limit)
  {
  }

  /** Turning the page keeps what is ahead; only a failure loses it, with the result set. */
  lemma NextPageConserves(s: State, limit: Limit)
    requires s.ready && s.cursor >= |s.rows|
    ensures
      var (p, status) := NextPage(s, limit);
      && (status == Success || status == NoData || status == PageError)
      && (status == Success ==>
            p.ready && p.cursor == -1 && p.rows != [] && Ahead(s, limit) == Ahead(p.(cursor := 0), limit))
      && (status == NoData ==>
            && p.ready && (p == s || (p.rows == [] && p.cursor == -1))
            && Ahead(s, limit) == Ahead(p, limit) == Pending(p, limit))
      && (status == PageError ==> !p.ready && p.rows == [] && p.cursor == s.cursor && Ahead(s, limit) == [])
  {
    PastEnd(s, limit);
    var p := NextPage(s, limit).0;
    NothingAdded(Deliverable(p.server, limit));
  }

  lemma PastEnd(s: State, limit: Limit)
    requires s.ready && s.cursor >= |s.rows|
    ensures Ahead(s, limit) == Deliverable(s.server, limit)
  {
    NothingAdded(Deliverable(s.server, limit));
  }

  lemma AdvanceConserves(s: State, convertible: Row -> bool, limit: Limit)
    requires OnTheMove(s)
    ensures
      var (q, status) := Advance(s, convertible, limit);
      && status != SequenceError
      && Ahead(s, limit) == Ahead(q, limit)
      && (status == PageError <==> !q.ready)
      && (status != PageError ==> OnTheMove(q) && OnTheMove(q.(cursor := q.cursor + 1)))
      && (status == Success || status == RowError ==> 0 <= q.cursor < |q.rows|)
      && (status == NoData ==> Ahead(q, limit) == Pending(q, limit))
      && (status == PageError ==> q.rows == [] && q.cursor == s.cursor >= 0)
  {
    if s.cursor >= |s.rows| {
      NextPageConserves(s, limit);
    }
  }

  /** Writing the row under the cursor moves it from what is ahead to what is written. */
  lemma WriteOne(q: State, written: seq<Row>, limit: Limit)
    requires q.ready && 0 <= q.cursor < |q.rows|
    ensures written + Ahead(q, limit)
         == (written + [q.rows[q.cursor]]) + Ahead(q.(cursor := q.cursor + 1), limit)
  {
    TakeOne(q, limit);
    Regroup(written, [q.rows[q.cursor]], Pending(q, limit));
  }

  lemma AdvanceMoves(s: State, convertible: Row -> bool, limit: Limit)
    requires OnTheMove(s)
    ensures
      var (q, status) := Advance(s, convertible, limit);
      && (status == NoData ==> (q.rows == [] && q.cursor == -1) || (q.rows == s.rows && q.cursor == s.cursor))
      && (status == Success ==> 0 <= q.cursor < |q.rows| && OnTheMove(q.(cursor := q.cursor + 1)))
  {
  }

  /** The rows written and those ahead. */
  function Rows(written: seq<Row>, s: State, limit: Limit): seq<Row> {
    written + Ahead(s, limit)
  }

  /** One row of a rowset: where the loop goes on, and with what. */
  lemma FillStep(s: State, need: nat, written: seq<Row>, convertible: Row -> bool, limit: Limit)
    returns (next: State, more: seq<Row>)
    requires OnTheMove(s) && need > 0 && Advance(s, convertible, limit).1 == Success
    ensures OnTheMove(next) && next.cursor > 0 && |more| == |written| + 1
    ensures next == Advance(s, convertible, limit).0.(cursor := next.cursor)
    ensures Fill(s, need, written, convertible, limit) == Fill(next, need - 1, more, convertible, limit)
    ensures Rows(written, s, limit) == Rows(more, next, limit)
  {
    var q := Advance(s, convertible, limit).0;
    AdvanceMoves(s, convertible, limit);
    AdvanceConserves(s, convertible, limit);
    WriteOne(q, written, limit);
    next, more := q.(cursor := q.cursor + 1), written + [q.rows[q.cursor]];
  }

  lemma FillEnds(s: State, need: nat, written: seq<Row>, convertible: Row -> bool, limit: Limit)
    requires OnTheMove(s) && need > 0 && Advance(s, convertible, limit).1 != Success
    ensures
      var (q, status) := Advance(s, convertible, limit);
      && Fill(s, need, written, convertible, limit) == Rowset(q, written, status)
      && Rows(written, s, limit) == Rows(written, q, limit)
  {
    AdvanceConserves(s, convertible, limit);
  }

  /** How many rows `Fill` writes. */
  lemma {:induction false} FillCounts(s: State, need: nat, written: seq<Row>, convertible: Row -> bool, limit: Limit)
    requires OnTheMove(s)
    ensures
      var r := Fill(s, need, written, convertible, limit);
      && |written| <= |r.written| <= |written| + need
      && (r.status == Success <==> |r.written| == |written| + need)
    decreases need
  {
    if need == 0 {
    } else if Advance(s, convertible, limit).1 == Success {
      var next, more := FillStep(s, need, written, convertible, limit);
      FillCounts(next, need - 1, more, convertible, limit);
    } else {
      FillEnds(s, need, written, convertible, limit);
    }
  }

  /** What `Fill` leaves of the rows that were ahead of it. */
  lemma {:induction false} FillKeepsRows(s: State, need: nat, written: seq<Row>, convertible: Row -> bool, limit: Limit)
    requires OnTheMove(s)
    ensures
      var r := Fill(s, need, written, convertible, limit);
      Rows(written, s, limit) == Rows(r.written, r.state, limit)
    decreases need
  {
    if need == 0 {
    } else if Advance(s, convertible, limit).1 == Success {
      var next, more := FillStep(s, need, written, convertible, limit);
      FillKeepsRows(next, need - 1, more, convertible, limit);
    } else {
      FillEnds(s, need, written, convertible, limit);
    }
  }

  lemma FillConserves(s: State, need: nat, written: seq<Row>, convertible: Row -> bool, limit: Limit)
    requires OnTheMove(s)
    ensures
      var r := Fill(s, need, written, convertible, limit);
      && written + Ahead(s, limit) == r.written + Ahead(r.state, limit)
      && |written| <= |r.written| <= |written| + need
      && (r.status == Success <==> |r.written| == |written| + need)
  {
    FillKeepsRows(s, need, written, convertible, limit);
    FillCounts(s, need, written, convertible, limit);
  }

  /** The cursor is just behind the last row written, unless an empty page has taken the rows away. */
  predicate BehindLast(s: State, written: seq<Row>)
    requires written != []
  {
    if s.rows == [] then s.cursor == -1
    else 0 < s.cursor <= |s.rows| && s.rows[s.cursor - 1] == written[|written| - 1]
  }

  /** Where `Fill` leaves the cursor. */
  lemma {:induction false} FillStops(s: State, need: nat, written: seq<Row>, convertible: Row -> bool, limit: Limit)
    requires OnTheMove(s)
    ensures
      var r := Fill(s, need, written, convertible, limit);
      && r.status != SequenceError
      && r.state.cursor >= -1 && (r.state.cursor == -1 ==> r.state.rows == [])
      && (r.status == PageError <==> !r.state.ready)
      && (r.status == RowError ==> 0 <= r.state.cursor < |r.state.rows|)
      && (r.status == NoData ==> Ahead(r.state, limit) == Pending(r.state, limit))
    decreases need
  {
    if need == 0 {
    } else {
      AdvanceConserves(s, convertible, limit);
      var (q, status) := Advance(s, convertible, limit);
      if status == Success {
        FillStops(q.(cursor := q.cursor + 1), need - 1, written + [q.rows[q.cursor]], convertible, limit);
      }
    }
  }

  lemma WrittenBehind(q: State, written: seq<Row>)
    requires 0 <= q.cursor < |q.rows|
    ensures BehindLast(q.(cursor := q.cursor + 1), written + [q.rows[q.cursor]])
  {
  }

  lemma NoDataStaysBehind(s: State, written: seq<Row>, convertible: Row -> bool, limit: Limit)
    requires OnTheMove(s) && written != [] && BehindLast(s, written)
    requires Advance(s, convertible, limit).1 == NoData
    ensures BehindLast(Advance(s, convertible, limit).0, written)
  {
    AdvanceMoves(s, convertible, limit);
  }

  lemma StepBehind(s: State, need: nat, written: seq<Row>, convertible: Row -> bool, limit: Limit)
    returns (next: State, more: seq<Row>)
    requires OnTheMove(s) && need > 0 && Advance(s, convertible, limit).1 == Success
    ensures OnTheMove(next) && more != [] && BehindLast(next, more)
    ensures Fill(s, need, written, convertible, limit) == Fill(next, need - 1, more, convertible, limit)
  {
    var q := Advance(s, convertible, limit).0;
    AdvanceMoves(s, convertible, limit);
    WrittenBehind(q, written);
    next, more := q.(cursor := q.cursor + 1), written + [q.rows[q.cursor]];
  }

  lemma {:induction false} FillEndsBehind(s: State, need: nat, written: seq<Row>, convertible: Row -> bool, limit: Limit)
    requires OnTheMove(s)
    requires written != [] ==> BehindLast(s, written)
    ensures
      var r := Fill(s, need, written, convertible, limit);
      r.written != [] && (r.status == Success || r.status == NoData) ==> BehindLast(r.state, r.written)
    decreases need
  {
    if need == 0 {
    } else if Advance(s, convertible, limit).1 == Success {
      var next, more := StepBehind(s, need, written, convertible, limit);
      FillEndsBehind(next, need - 1, more, convertible, limit);
    } else {
      FillEnds(s, need, written, convertible, limit);
      if Advance(s, convertible, limit).1 == NoData && written != [] {
        NoDataStaysBehind(s, written, convertible, limit);
      }
    }
  }

  /** The row that a failed conversion at the start of a rowset skips for good. */
  function Lost(r: Rowset): seq<Row> {
    if r.status == RowError && r.written == [] && 0 <= r.state.cursor < |r.state.rows|
    then [r.state.rows[r.state.cursor]] else []
  }

  /** The last step of WriteRowset takes the cursor back by one, unless the rowset is empty. */
  lemma StepBack(f: State, limit: Limit)
    ensures Pending(f.(cursor := f.cursor - 1), limit) == Ahead(f, limit)
  {
  }

  lemma WriteRowsetStops(s: State, size: nat, convertible: Row -> bool, limit: Limit)
    requires OnTheMove(s) && size > 0
    ensures
      var r := WriteRowset(s, size, convertible, limit);
      && AtRest(r.state) && |r.written| <= size && r.status != SequenceError
      && (r.status == PageError <==> !r.state.ready)
      && (r.status == Success ==> r.written != [])
      && (r.status == NoData ==> r.written == [])
  {
    FillConserves(s, size, [], convertible, limit);
    FillStops(s, size, [], convertible, limit);
  }

  lemma WriteRowsetConserves(s: State, size: nat, convertible: Row -> bool, limit: Limit)
    requires OnTheMove(s) && size > 0
    ensures
      var r := WriteRowset(s, size, convertible, limit);
      Ahead(s, limit) == r.written + (Lost(r) + Pending(r.state, limit))
  {
    FillConserves(s, size, [], convertible, limit);
    FillStops(s, size, [], convertible, limit);
    var f, r := Fill(s, size, [], convertible, limit), WriteRowset(s, size, convertible, limit);
    NothingAdded(Ahead(s, limit));
    NothingAdded(Pending(r.state, limit));
    if f.written != [] {
      StepBack(f.state, limit);
    } else {
      EmptyRowsetConserves(f, limit);
      NothingAdded(Ahead(f.state, limit));
    }
  }

  lemma EmptyRowsetConserves(f: Rowset, limit: Limit)
    requires f.written == [] && f.status != Success && f.status != SequenceError
    requires f.status == PageError ==> !f.state.ready
    requires f.status == RowError ==> 0 <= f.state.cursor < |f.state.rows|
    requires f.status == NoData ==> Ahead(f.state, limit) == Pending(f.state, limit)
    ensures Ahead(f.state, limit) == if !f.state.ready then [] else Lost(f) + Pending(f.state, limit)
    ensures !f.state.ready ==> Pending(f.state, limit) == []
    ensures f.status == PageError ==> Lost(f) == []
  {
    if f.status == RowError && f.state.ready {
      TakeOne(f.state, limit);
    }
  }

  lemma StartOnNextPage(s: State, limit: Limit)
    requires s.ready && 0 <= s.cursor && s.cursor >= |s.rows|
    ensures
      var (p, status) := NextPage(s, limit);
      && (status == Success ==> OnTheMove(p.(cursor := 0)) && Ahead(s, limit) == Ahead(p.(cursor := 0), limit))
      && (status != Success ==> Ahead(s, limit) == Pending(p, limit) && AtRest(p))
      && (status == PageError <==> !p.ready) && (status == Success || status == NoData || status == PageError)
      && (status == Success ==> p.cursor == -1)
  {
    NextPageConserves(s, limit);
    FailedPageIsEmpty(NextPage(s, limit).0, limit);
  }

  lemma StartConserves(s: State, limit: Limit)
    requires AtRest(s) && s.ready
    ensures
      var (q, status) := Started(s, limit);
      && (status == Success ==> OnTheMove(q) && Pending(s, limit) == Ahead(q, limit))
      && (status != Success ==> Pending(s, limit) == Pending(q, limit) && AtRest(q))
      && (status == PageError <==> !q.ready) && (status == Success || status == NoData || status == PageError)
  {
    var s1 := s.(cursor := s.cursor + 1);
    assert Pending(s, limit) == Ahead(s1, limit);
    if s1.cursor >= |s1.rows| {
      StartOnNextPage(s1, limit);
    }
  }

  lemma FailedPageIsEmpty(p: State, limit: Limit)
    ensures !p.ready ==> Pending(p, limit) == []
  {
  }

  /**
   One SQLFetch neither loses nor repeats a row, whatever the rowset size, the pages and the failures; the one
   exception is a row whose conversion fails first in its rowset.
   */
  lemma FetchConserves(s: State, size: nat, convertible: Row -> bool, limit: Limit)
    requires AtRest(s) && s.ready && size > 0
    ensures
      var r := Fetch(s, size, convertible, limit);
      && Pending(s, limit) == r.written + (Lost(r) + Pending(r.state, limit))
      && AtRest(r.state) && |r.written| <= size
      && (r.status == PageError <==> !r.state.ready)
      && (r.status == Success ==> r.written != [])
      && (r.status == NoData ==> r.written == [])
      && r.status != SequenceError
  {
    StartConserves(s, limit);
    var (q, status) := Started(s, limit);
    if status == Success {
      WriteRowsetConserves(q, size, convertible, limit);
      WriteRowsetStops(q, size, convertible, limit);
    } else {
      NothingAdded(Pending(q, limit));
    }
  }

  /** After a successful rowset the cursor, from which SQLGetData reads, is on its last row iff rows remain at hand. */
  lemma CursorOnLastRow(s: State, size: nat, convertible: Row -> bool, limit: Limit)
    requires AtRest(s) && s.ready && size > 0
    requires Fetch(s, size, convertible, limit).status == Success
    ensures
      var r := Fetch(s, size, convertible, limit);
      && r.written != []
      && (r.state.rows != [] <==> 0 <= r.state.cursor < |r.state.rows|)
      && (r.state.rows != [] ==> r.state.rows[r.state.cursor] == r.written[|r.written| - 1])
      && (size == 1 ==> r.state.rows != [])
  {
    StartConserves(s, limit);
    WriteRowsetStops(Started(s, limit).0, size, convertible, limit);
    CursorBehindRowset(Started(s, limit).0, size, convertible, limit);
  }

  lemma CursorBehindRowset(s: State, size: nat, convertible: Row -> bool, limit: Limit)
    requires OnTheMove(s) && size > 0
    ensures
      var f := Fill(s, size, [], convertible, limit);
      && (f.written != [] && (f.status == Success || f.status == NoData) ==> BehindLast(f.state, f.written))
      && (f.written != [] && size == 1 ==> f.state.rows != [] && f.status == Success)
  {
    FillEndsBehind(s, size, [], convertible, limit);
    FillConserves(s, size, [], convertible, limit);
    if size == 1 {
      AdvanceConserves(s, convertible, limit);
    }
  }

  predicate NoFailures(server: seq<Response>) {
    forall i :: 0 <= i < |server| ==> server[i].Page?
  }

  /** Rowset after rowset, with any sizes: the rows the application received. */
  function FetchAll(s: State, sizes: seq<nat>, convertible: Row -> bool, limit: Limit): (State, seq<Row>)
    decreases |sizes|
  {
    if sizes == [] then (s, [])
    else
      var r := Fetch(s, sizes[0], convertible, limit);
      var (t, rest) := FetchAll(r.state, sizes[1..], convertible, limit);
      (t, r.written + rest)
  }

  /** Falls with every call while rows are pending: each delivers a row or uses up an (empty) page. */
  function Remaining(s: State, limit: Limit): nat {
    |Pending(s, limit)| + 2 * |s.server| + if s.cursor == -2 then 1 else 0
  }

  lemma AdvanceKeepsServer(s: State, convertible: Row -> bool, limit: Limit)
    requires OnTheMove(s) && NoFailures(s.server)
    requires forall r :: convertible(r)
    ensures
      var (q, status) := Advance(s, convertible, limit);
      && NoFailures(q.server) && |q.server| <= |s.server|
      && (status == Success || status == NoData)
      && (status == NoData ==> Ahead(s, limit) == [] || |q.server| < |s.server| || (s.cursor == -1 && q == s))
      && (q.cursor == -1 ==> |q.server| < |s.server| || q == s)
  {
    var q := Advance(s, convertible, limit).0;
    if 0 <= q.cursor < |q.rows| {
      var row := q.rows[q.cursor];
      assert convertible(row);
    }
  }

  lemma {:induction false} FillKeepsServer(s: State, need: nat, written: seq<Row>, convertible: Row -> bool, limit: Limit)
    requires OnTheMove(s) && NoFailures(s.server)
    requires forall r :: convertible(r)
    ensures
      var r := Fill(s, need, written, convertible, limit);
      && NoFailures(r.state.server) && |r.state.server| <= |s.server|
      && (r.status == Success || r.status == NoData)
      && (r.state.cursor == -1 ==> |r.state.server| < |s.server| || r.state == s)
    decreases need
  {
    if need == 0 {
    } else {
      AdvanceKeepsServer(s, convertible, limit);
      AdvanceConserves(s, convertible, limit);
      var (q, status) := Advance(s, convertible, limit);
      if status == Success {
        FillKeepsServer(q.(cursor := q.cursor + 1), need - 1, written + [q.rows[q.cursor]], convertible, limit);
      }
    }
  }

  /** A rowset without rows: the first step already came to nothing. */
  lemma EmptyRowset(s: State, need: nat, convertible: Row -> bool, limit: Limit)
    requires OnTheMove(s) && NoFailures(s.server) && need > 0
    requires forall r :: convertible(r)
    requires Fill(s, need, [], convertible, limit).written == []
    ensures
      var r := Fill(s, need, [], convertible, limit);
      Ahead(s, limit) == [] || |r.state.server| < |s.server| || (s.cursor == -1 && r.state == s)
  {
    AdvanceKeepsServer(s, convertible, limit);
    AdvanceConserves(s, convertible, limit);
    var (q, status) := Advance(s, convertible, limit);
    if status == Success {
      FillConserves(q.(cursor := q.cursor + 1), need - 1, [] + [q.rows[q.cursor]], convertible, limit);
    }
  }

  lemma StartKeepsServer(s: State, limit: Limit)
    requires AtRest(s) && s.ready && NoFailures(s.server)
    ensures
      var (q, status) := Started(s, limit);
      && NoFailures(q.server) && |q.server| <= |s.server| && (status == Success || status == NoData)
      && (status == NoData ==> q.cursor >= -1 && (q.server == s.server ==> Pending(s, limit) == []))
      && (status == Success ==> q.cursor >= -1 && (q.cursor == -1 ==> s.cursor == -2 && q.server == s.server))
  {
  }

  /** A call that delivers nothing although rows are pending uses up a page, or leaves the cursor on no row at all. */
  lemma FetchKeepsServer(s: State, size: nat, convertible: Row -> bool, limit: Limit)
    requires AtRest(s) && s.ready && size > 0 && NoFailures(s.server)
    requires forall r :: convertible(r)
    ensures
      var r := Fetch(s, size, convertible, limit);
      && NoFailures(r.state.server) && |r.state.server| <= |s.server| && (r.status == Success || r.status == NoData)
      && (r.state.cursor == -2 ==> |r.state.server| < |s.server|)
      && (r.written == [] && Pending(s, limit) != [] ==>
            |r.state.server| < |s.server| || (s.cursor == -2 && r.state.cursor != -2))
  {
    StartKeepsServer(s, limit);
    StartConserves(s, limit);
    var (q, status) := Started(s, limit);
    if status == Success {
      FillKeepsServer(q, size, [], convertible, limit);
      FillConserves(q, size, [], convertible, limit);
      if Fill(q, size, [], convertible, limit).written == [] {
        EmptyRowset(q, size, convertible, limit);
      }
    }
  }

  lemma FetchProgresses(s: State, size: nat, convertible: Row -> bool, limit: Limit)
    requires AtRest(s) && s.ready && size > 0 && NoFailures(s.server)
    requires forall r :: convertible(r)
    ensures
      var r := Fetch(s, size, convertible, limit);
      && r.state.ready && AtRest(r.state) && NoFailures(r.state.server)
      && Pending(s, limit) == r.written + Pending(r.state, limit)
      && (Pending(s, limit) != [] ==> Remaining(r.state, limit) < Remaining(s, limit))
  {
    FetchConserves(s, size, convertible, limit);
    FetchKeepsServer(s, size, convertible, limit);
    var r := Fetch(s, size, convertible, limit);
    assert Lost(r) == [];
    NothingAdded(Pending(r.state, limit));
  }

  /** Enough calls, of whatever rowset sizes, deliver every pending row exactly once and in order. */
  lemma {:induction false} DeliversEverything(s: State, sizes: seq<nat>, convertible: Row -> bool, limit: Limit)
    requires AtRest(s) && s.ready && NoFailures(s.server)
    requires forall r :: convertible(r)
    requires |sizes| >= Remaining(s, limit) && forall i :: 0 <= i < |sizes| ==> sizes[i] > 0
    ensures FetchAll(s, sizes, convertible, limit).1 == Pending(s, limit)
    decreases |sizes|
  {
    if sizes == [] {
    } else {
      FetchProgresses(s, sizes[0], convertible, limit);
      var r := Fetch(s, sizes[0], convertible, limit);
      if Pending(s, limit) == [] {
        NothingMore(s, sizes, convertible, limit);
      } else {
        DeliversEverything(r.state, sizes[1..], convertible, limit);
      }
    }
  }

  lemma {:induction false} NothingMore(s: State, sizes: seq<nat>, convertible: Row -> bool, limit: Limit)
    requires AtRest(s) && s.ready && NoFailures(s.server)
    requires forall r :: convertible(r)
    requires Pending(s, limit) == [] && forall i :: 0 <= i < |sizes| ==> sizes[i] > 0
    ensures FetchAll(s, sizes, convertible, limit).1 == []
    decreases |sizes|
  {
    if sizes == [] {
    } else {
      FetchProgresses(s, sizes[0], convertible, limit);
      NothingMore(Fetch(s, sizes[0], convertible, limit).state, sizes[1..], convertible, limit);
    }
  }
}
