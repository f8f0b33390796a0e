/** What an application receives that stops fetching at the first answer other than success. */
module RowsetStops {
  import opened SqlTypes
  import opened RowsetFetch
  import opened RowsetDelivery
  import RowsetLimit

  function FetchUntilEnd(s: State, sizes: seq<nat>, convertible: Row -> bool, limit: Limit): seq<Row>
    decreases |sizes|
  {
    if sizes == [] then []
    else
      var r := Fetch(s, sizes[0], convertible, limit);
      r.written + if r.status == Success then FetchUntilEnd(r.state, sizes[1..], convertible, limit) else []
  }

  predicate AllEmpty(server: seq<Response>)
    requires NoFailures(server)
  {
    forall i :: 0 <= i < |server| ==> server[i].rows == []
  }

  /** No empty page precedes a page with rows. */
  predicate NoGap(server: seq<Response>)
    requires NoFailures(server)
  {
    forall i, j :: 0 <= i < j < |server| && server[i].rows == [] ==> server[j].rows == []
  }

  /** Between calls: at -2 the cursor is on an empty page that ended a rowset, and the next call finds no row there. */
  predicate EndsComplete(s: State, limit: Limit)
    requires NoFailures(s.server)
  {
    limit.Barred? || if s.cursor == -2 then AllEmpty(s.server) else NoGap(s.server)
  }

  /** The same inside a call, one row further. */
  predicate WillComplete(s: State, limit: Limit)
    requires NoFailures(s.server)
  {
    limit.Barred? || if s.cursor == -1 then AllEmpty(s.server) else NoGap(s.server)
  }

  lemma GapAhead(server: seq<Response>)
    requires NoFailures(server) && server != []
    ensures NoGap(server) <==> if server[0].rows == [] then AllEmpty(server[1..]) else NoGap(server[1..])
  {
    var rest := server[1..];
    assert forall i :: 0 <= i < |rest| ==> rest[i] == server[i + 1];
    assert forall i :: 0 < i < |server| ==> server[i] == rest[i - 1];
  }

  lemma {:induction false} NothingComesIff(server: seq<Response>, limit: Limit)
    requires NoFailures(server) && !limit.Barred?
    ensures Deliverable(server, limit) == [] <==> AllEmpty(server)
    decreases |server|
  {
    if server == [] {
    } else {
      NothingComesIff(server[1..], limit);
      var rest := server[1..];
      assert forall i :: 0 < i < |server| ==> server[i] == rest[i - 1];
    }
  }

  /** Turning the page: success keeps the condition, and the end of data decides it. */
  lemma PageDecides(s: State, limit: Limit)
    requires s.ready && s.cursor >= |s.rows| && NoFailures(s.server)
    ensures
      var (p, status) := NextPage(s, limit);
      var holds := limit.Barred? || NoGap(s.server);
      && NoFailures(p.server) && (status == Success || status == NoData)
      && (status == Success ==> (holds <==> limit.Barred? || NoGap(p.server)))
      && (status == NoData ==> (Ahead(s, limit) == [] <==> holds))
  {
    PastEnd(s, limit);
    if s.server != [] && !limit.Barred? {
      GapAhead(s.server);
      NothingComesIff(s.server[1..], limit);
    }
  }

  /** An empty page in the middle of a rowset: what was the gap in front is the cursor on the empty page. */
  lemma EmptyPageDecides(s: State, limit: Limit)
    requires s.ready && s.cursor >= |s.rows| && NoFailures(s.server)
    ensures
      var (p, status) := NextPage(s, limit);
      && NoFailures(p.server)
      && (status == NoData && p != s ==> p.cursor == -1 && (WillComplete(p, limit) <==> WillComplete(s, limit)))
  {
    if s.server != [] && !limit.Barred? {
      GapAhead(s.server);
    }
  }

  lemma AdvanceDecides(s: State, convertible: Row -> bool, limit: Limit)
    requires OnTheMove(s) && NoFailures(s.server)
    requires forall r :: convertible(r)
    ensures
      var (q, status) := Advance(s, convertible, limit);
      && NoFailures(q.server) && (status == Success || status == NoData)
      && (WillComplete(s, limit) <==> WillComplete(q, limit))
      && (status == Success ==> q.cursor >= 0)
      && (status == NoData ==> (Ahead(s, limit) == [] <==> WillComplete(s, limit)))
  {
    AdvanceKeepsServer(s, convertible, limit);
    if s.cursor >= |s.rows| {
      PageDecides(s, limit);
      EmptyPageDecides(s, limit);
    } else if s.cursor == -1 && !limit.Barred? {
      NothingComesIff(s.server, limit);
    }
  }

  /** One row of a rowset, or what ends it, leaves the condition as it is. */
  lemma RowKeepsEnd(s: State, need: nat, written: seq<Row>, convertible: Row -> bool, limit: Limit)
    returns (next: State, more: seq<Row>)
    requires OnTheMove(s) && NoFailures(s.server) && need > 0 && Advance(s, convertible, limit).1 == Success
    requires forall r :: convertible(r)
    ensures OnTheMove(next) && NoFailures(next.server) && (WillComplete(s, limit) <==> WillComplete(next, limit))
    ensures Fill(s, need, written, convertible, limit) == Fill(next, need - 1, more, convertible, limit)
  {
    AdvanceDecides(s, convertible, limit);
    next, more := FillStep(s, need, written, convertible, limit);
    CursorDecides(Advance(s, convertible, limit).0, next, limit);
  }

  lemma LastKeepsEnd(s: State, need: nat, written: seq<Row>, convertible: Row -> bool, limit: Limit)
    requires OnTheMove(s) && NoFailures(s.server) && need > 0 && Advance(s, convertible, limit).1 != Success
    requires forall r :: convertible(r)
    ensures
      var r := Fill(s, need, written, convertible, limit);
      NoFailures(r.state.server) && (WillComplete(s, limit) <==> WillComplete(r.state, limit))
  {
    AdvanceDecides(s, convertible, limit);
    FillEnds(s, need, written, convertible, limit);
  }

  lemma {:induction false} FillKeepsEnd(s: State, need: nat, written: seq<Row>, convertible: Row -> bool, limit: Limit)
    requires OnTheMove(s) && NoFailures(s.server)
    requires forall r :: convertible(r)
    ensures
      var r := Fill(s, need, written, convertible, limit);
      && NoFailures(r.state.server)
      && (WillComplete(s, limit) <==> WillComplete(r.state, limit))
    decreases need
  {
    if need == 0 {
    } else if Advance(s, convertible, limit).1 == Success {
      var next, more := RowKeepsEnd(s, need, written, convertible, limit);
      FillKeepsEnd(next, need - 1, more, convertible, limit);
    } else {
      LastKeepsEnd(s, need, written, convertible, limit);
    }
  }

  /** On a row, the condition does not depend on which. */
  lemma CursorDecides(q: State, next: State, limit: Limit)
    requires NoFailures(q.server) && q.cursor >= 0 && next == q.(cursor := next.cursor)
    requires next.cursor >= 0
    ensures WillComplete(q, limit) <==> WillComplete(next, limit)
  {
  }

  /** A rowset without rows: its first step met the end of data. */
  lemma EmptyRowsetDecides(s: State, need: nat, convertible: Row -> bool, limit: Limit)
    requires OnTheMove(s) && NoFailures(s.server) && need > 0
    requires forall r :: convertible(r)
    requires Fill(s, need, [], convertible, limit).written == []
    ensures Ahead(s, limit) == [] <==> WillComplete(s, limit)
  {
    AdvanceDecides(s, convertible, limit);
    AdvanceMoves(s, convertible, limit);
    var (q, status) := Advance(s, convertible, limit);
    if status == Success {
      FillConserves(q.(cursor := q.cursor + 1), need - 1, [] + [q.rows[q.cursor]], convertible, limit);
    }
  }

  lemma RowsetDecides(s: State, size: nat, convertible: Row -> bool, limit: Limit)
    requires OnTheMove(s) && NoFailures(s.server) && size > 0
    requires forall r :: convertible(r)
    ensures
      var r := WriteRowset(s, size, convertible, limit);
      && NoFailures(r.state.server)
      && (r.status == Success ==> (WillComplete(s, limit) <==> EndsComplete(r.state, limit)))
      && (r.status == NoData ==> (Ahead(s, limit) == [] <==> WillComplete(s, limit)))
  {
    FillKeepsEnd(s, size, [], convertible, limit);
    WriteRowsetStops(s, size, convertible, limit);
    if Fill(s, size, [], convertible, limit).written == [] {
      EmptyRowsetDecides(s, size, convertible, limit);
    }
  }

  lemma StartDecides(s: State, limit: Limit)
    requires AtRest(s) && s.ready && NoFailures(s.server)
    ensures
      var (q, status) := Started(s, limit);
      && NoFailures(q.server)
      && (status == Success ==> (EndsComplete(s, limit) <==> WillComplete(q, limit)))
      && (status == NoData ==> (Pending(s, limit) == [] <==> EndsComplete(s, limit)))
  {
    var s1 := s.(cursor := s.cursor + 1);
    if s1.cursor >= |s1.rows| {
      PageDecides(s1, limit);
      NextPageConserves(s1, limit);
    }
  }

  /** A successful call leaves the question as it was; the end of data answers it. */
  lemma FetchDecides(s: State, size: nat, convertible: Row -> bool, limit: Limit)
    requires AtRest(s) && s.ready && NoFailures(s.server) && size > 0
    requires forall r :: convertible(r)
    ensures
      var r := Fetch(s, size, convertible, limit);
      && NoFailures(r.state.server)
      && (r.status == Success ==> (EndsComplete(s, limit) <==> EndsComplete(r.state, limit)))
      && (r.status == NoData ==> (Pending(s, limit) == [] <==> EndsComplete(s, limit)))
  {
    StartDecides(s, limit);
    StartConserves(s, limit);
    var (q, status) := Started(s, limit);
    if status == Success {
      RowsetDecides(q, size, convertible, limit);
    }
  }

  /**
   An application that stops at the first SQL_NO_DATA has received every pending row iff no empty page precedes a page
   with rows.
   */
  lemma {:induction false} StopsWithEverythingIff(s: State, sizes: seq<nat>, convertible: Row -> bool, limit: Limit)
    requires AtRest(s) && s.ready && NoFailures(s.server)
    requires forall r :: convertible(r)
    requires |sizes| > |Pending(s, limit)| && forall i :: 0 <= i < |sizes| ==> sizes[i] > 0
    ensures FetchUntilEnd(s, sizes, convertible, limit) == Pending(s, limit) <==> EndsComplete(s, limit)
    decreases |sizes|
  {
    var r := Fetch(s, sizes[0], convertible, limit);
    FetchConserves(s, sizes[0], convertible, limit);
    FetchProgresses(s, sizes[0], convertible, limit);
    FetchKeepsServer(s, sizes[0], convertible, limit);
    FetchDecides(s, sizes[0], convertible, limit);
    if r.status != Success {
    } else {
      StopsWithEverythingIff(r.state, sizes[1..], convertible, limit);
      SameBehind(r.written, FetchUntilEnd(r.state, sizes[1..], convertible, limit), Pending(r.state, limit));
    }
  }

  /** A whole result: the first page may be empty, the others not before one with rows. */
  lemma StoppedResultIff(firstPage: seq<Row>, server: seq<Response>, sizes: seq<nat>, maxRows: nat)
    requires NoFailures(server) && forall i :: 0 <= i < |sizes| ==> sizes[i] > 0
    requires |sizes| > |firstPage| + |Deliverable(server, LimitOf(maxRows))|
    ensures FetchUntilEnd(RowsetLimit.Opened(firstPage, server, maxRows), sizes, r => true, LimitOf(maxRows))
         == Trim(firstPage, maxRows) + Deliverable(server, LimitOf(maxRows))
       <==> LimitOf(maxRows).Barred? || NoGap(server)
  {
    RowsetLimit.OpenedPending(firstPage, server, maxRows);
    StopsWithEverythingIff(RowsetLimit.Opened(firstPage, server, maxRows), sizes, r => true, LimitOf(maxRows));
  }

  /** On the last row of a page, with an empty page before the next row: no data, and the row is still to come. */
  lemma EmptyPageHidesRow(s: State)
    requires s == State([1], 0, [Page([]), Page([2])], true)
    ensures Fetch(s, 1, r => true, AtMost(0)).status == NoData
    ensures Pending(Fetch(s, 1, r => true, AtMost(0)).state, AtMost(0)) == [2]
  {
    var r := Fetch(s, 1, r => true, AtMost(0));
    assert r.state == State([], -1, [Page([2])], true);
    assert Deliverable(r.state.server, AtMost(0)) == [2] + Deliverable([], AtMost(0));
  }
}
