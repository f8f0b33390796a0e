/** Which rows one SQLFetch writes, and with which status, for any conversion: from rows, pages and size alone. */
module RowsetWrites {
  import opened SqlTypes
  import opened RowsetFetch
  import opened RowsetDelivery

  /** The rows of the pages to come up to the first that is empty or fails. */
  function Arriving(server: seq<Response>, limit: Limit): seq<Row> {
    if limit.Barred? || server == [] || server[0].Failure? || server[0].rows == [] then []
    else Trim(server[0].rows, limit.most) + Arriving(server[1..], limit)
  }

  /** What ends them is a failure. */
  predicate Breaks(server: seq<Response>, limit: Limit) {
    !limit.Barred? && server != [] && (server[0].Failure? || (server[0].rows != [] && Breaks(server[1..], limit)))
  }

  /** The rows that one call can get at from the cursor on; none if the cursor is in front of an empty page. */
  function Reach(s: State, limit: Limit): seq<Row> {
    if s.cursor < 0 then []
    else (if s.cursor <= |s.rows| then s.rows[s.cursor..] else []) + Arriving(s.server, limit)
  }

  /** What ends them is a failure. */
  predicate ReachBreaks(s: State, limit: Limit) {
    s.cursor >= 0 && Breaks(s.server, limit)
  }

  /** The rows in front of the first that cannot be converted. */
  function Good(rows: seq<Row>, convertible: Row -> bool): (n: nat)
    ensures n <= |rows| && (forall i :: 0 <= i < n ==> convertible(rows[i])) && (n < |rows| ==> !convertible(rows[n]))
  {
    if rows == [] || !convertible(rows[0]) then 0 else 1 + Good(rows[1..], convertible)
  }

  function Least(a: nat, b: nat): nat {
    if a <= b then a else b
  }

  // One step

  lemma ReachTurnsPage(s: State, limit: Limit)
    requires s.ready && s.cursor >= 0 && s.cursor >= |s.rows|
    ensures
      var (p, status) := NextPage(s, limit);
      if status == Success
      then p.rows != [] && Reach(s, limit) == Reach(p.(cursor := 0), limit)
           && (ReachBreaks(s, limit) <==> ReachBreaks(p.(cursor := 0), limit))
      else Reach(s, limit) == [] && status == if ReachBreaks(s, limit) then PageError else NoData
  {
    NothingAdded(Arriving(s.server, limit));
    if NextPage(s, limit).1 == Success {
      assert NextPage(s, limit).0.rows[0..] == NextPage(s, limit).0.rows;
    }
  }

  lemma AdvanceReaches(s: State, convertible: Row -> bool, limit: Limit)
    requires OnTheMove(s)
    ensures
      var (q, status) := Advance(s, convertible, limit);
      var reach := Reach(s, limit);
      if reach == [] then status == if ReachBreaks(s, limit) then PageError else NoData
      else
        && status == (if convertible(reach[0]) then Success else RowError)
        && 0 <= q.cursor < |q.rows| && q.rows[q.cursor] == reach[0]
        && Reach(q.(cursor := q.cursor + 1), limit) == reach[1..]
        && (ReachBreaks(q.(cursor := q.cursor + 1), limit) <==> ReachBreaks(s, limit))
  {
    if s.cursor >= |s.rows| {
      ReachTurnsPage(s, limit);
      var (p, status) := NextPage(s, limit);
      if status == Success {
        ReachTakesOne(p.(cursor := 0), limit);
      }
    } else if s.cursor >= 0 {
      ReachTakesOne(s, limit);
    }
  }

  lemma ReachTakesOne(s: State, limit: Limit)
    requires 0 <= s.cursor < |s.rows|
    ensures Reach(s, limit) != [] && Reach(s, limit)[0] == s.rows[s.cursor]
    ensures Reach(s.(cursor := s.cursor + 1), limit) == Reach(s, limit)[1..]
    ensures ReachBreaks(s.(cursor := s.cursor + 1), limit) <==> ReachBreaks(s, limit)
  {
  }

  // The loop

  lemma FillReached(s: State, need: nat, written: seq<Row>, convertible: Row -> bool, limit: Limit)
    returns (next: State, more: seq<Row>)
    requires OnTheMove(s) && need > 0 && Reach(s, limit) != [] && convertible(Reach(s, limit)[0])
    ensures OnTheMove(next) && Reach(next, limit) == Reach(s, limit)[1..] && more == written + [Reach(s, limit)[0]]
    ensures ReachBreaks(next, limit) <==> ReachBreaks(s, limit)
    ensures Fill(s, need, written, convertible, limit) == Fill(next, need - 1, more, convertible, limit)
  {
    AdvanceReaches(s, convertible, limit);
    AdvanceMoves(s, convertible, limit);
    var q := Advance(s, convertible, limit).0;
    next, more := q.(cursor := q.cursor + 1), written + [q.rows[q.cursor]];
  }

  lemma FillStopped(s: State, need: nat, written: seq<Row>, convertible: Row -> bool, limit: Limit)
    requires OnTheMove(s) && need > 0 && (Reach(s, limit) == [] || !convertible(Reach(s, limit)[0]))
    ensures
      var r := Fill(s, need, written, convertible, limit);
      && r.written == written
      && r.status == (if Reach(s, limit) != [] then RowError else if ReachBreaks(s, limit) then PageError else NoData)
  {
    AdvanceReaches(s, convertible, limit);
  }

  /** What ends a loop over these rows. */
  function EndOf(reach: seq<Row>, need: nat, convertible: Row -> bool, breaks: bool): Status {
    var good := Good(reach, convertible);
    if need <= good then Success else if good < |reach| then RowError else if breaks then PageError else NoData
  }

  lemma OneLess(reach: seq<Row>, need: nat, convertible: Row -> bool, breaks: bool)
    requires reach != [] && convertible(reach[0]) && need > 0
    ensures Least(need, Good(reach, convertible)) == 1 + Least(need - 1, Good(reach[1..], convertible))
    ensures EndOf(reach, need, convertible, breaks) == EndOf(reach[1..], need - 1, convertible, breaks)
  {
  }

  /** What the loop writes, and what ends it. */
  lemma {:induction false} FillWrites(s: State, need: nat, written: seq<Row>, convertible: Row -> bool, limit: Limit)
    requires OnTheMove(s)
    ensures
      var r, reach := Fill(s, need, written, convertible, limit), Reach(s, limit);
      && r.written == written + reach[..Least(need, Good(reach, convertible))]
      && r.status == EndOf(reach, need, convertible, ReachBreaks(s, limit))
    decreases need
  {
    var reach := Reach(s, limit);
    if need == 0 {
      NothingAdded(written);
    } else if reach != [] && convertible(reach[0]) {
      var next, more := FillReached(s, need, written, convertible, limit);
      FillWrites(next, need - 1, more, convertible, limit);
      OneLess(reach, need, convertible, ReachBreaks(s, limit));
      OneInFront(written, reach, Least(need - 1, Good(reach[1..], convertible)));
    } else {
      FillStopped(s, need, written, convertible, limit);
      NothingAdded(written);
    }
  }

  lemma OneInFront(written: seq<Row>, reach: seq<Row>, n: nat)
    requires reach != [] && n <= |reach| - 1
    ensures written + [reach[0]] + reach[1..][..n] == written + reach[..n + 1]
  {
    assert [reach[0]] + reach[1..][..n] == reach[..n + 1];
    Regroup(written, [reach[0]], reach[1..][..n]);
  }

  // The call

  lemma StartReaches(s: State, limit: Limit)
    requires AtRest(s) && s.ready
    ensures
      var s1, (q, status) := s.(cursor := s.cursor + 1), Started(s, limit);
      if status == Success
      then OnTheMove(q) && Reach(q, limit) == Reach(s1, limit) && (ReachBreaks(q, limit) <==> ReachBreaks(s1, limit))
      else Reach(s1, limit) == [] && status == if ReachBreaks(s1, limit) then PageError else NoData
  {
    var s1 := s.(cursor := s.cursor + 1);
    if s1.cursor >= |s1.rows| {
      ReachTurnsPage(s1, limit);
    }
  }

  /**
   SQLFetch writes the rows within reach that stand in front of the first that cannot be converted, up to the size. The
   status says what stopped it: a full rowset, that row, a page that failed, or the end, which behind a row is success.
   */
  lemma FetchWrites(s: State, size: nat, convertible: Row -> bool, limit: Limit)
    requires AtRest(s) && s.ready && size > 0
    ensures
      var s1 := s.(cursor := s.cursor + 1);
      var r, reach := Fetch(s, size, convertible, limit), Reach(s1, limit);
      var good := Good(reach, convertible);
      && r.written == reach[..Least(size, good)]
      && r.status == (if size <= good then Success else if good < |reach| then RowError
                      else if ReachBreaks(s1, limit) then PageError else if good == 0 then NoData else Success)
  {
    StartReaches(s, limit);
    var (q, status) := Started(s, limit);
    if status == Success {
      FillWrites(q, size, [], convertible, limit);
      var reach := Reach(q, limit);
      NothingAdded(reach[..Least(size, Good(reach, convertible))]);
    }
  }

  /** The rows within reach are the first of those pending. */
  lemma ReachIsPending(s: State, limit: Limit)
    requires AtRest(s) && s.ready
    ensures Reach(s.(cursor := s.cursor + 1), limit) <= Pending(s, limit)
  {
    var s1 := s.(cursor := s.cursor + 1);
    ArrivingIsDeliverable(s.server, limit);
    if s1.cursor >= 0 {
      var front := if s1.cursor <= |s1.rows| then s1.rows[s1.cursor..] else [];
      PrefixBehind(front, Arriving(s.server, limit), Deliverable(s.server, limit));
    }
  }

  lemma {:induction false} ArrivingIsDeliverable(server: seq<Response>, limit: Limit)
    ensures Arriving(server, limit) <= Deliverable(server, limit)
    decreases |server|
  {
    if limit.Barred? || server == [] || server[0].Failure? || server[0].rows == [] {
    } else {
      ArrivingIsDeliverable(server[1..], limit);
      PrefixBehind(Trim(server[0].rows, limit.most), Arriving(server[1..], limit), Deliverable(server[1..], limit));
    }
  }

  lemma PrefixBehind(a: seq<Row>, b: seq<Row>, c: seq<Row>)
    requires b <= c
    ensures a + b <= a + c
  {
    assert c == b + c[|b|..];
    Regroup(a, b, c[|b|..]);
  }

  /**
   A conversion error is reported iff one of the next `size` rows within reach cannot be converted; then the rows in front
   of the first such are written, and every written row was converted.
   */
  lemma RowErrorIff(s: State, size: nat, convertible: Row -> bool, limit: Limit)
    requires AtRest(s) && s.ready && size > 0
    ensures
      var r, reach := Fetch(s, size, convertible, limit), Reach(s.(cursor := s.cursor + 1), limit);
      && (forall i :: 0 <= i < |r.written| ==> convertible(r.written[i]))
      && r.written <= Pending(s, limit)
      && (r.status == RowError <==> exists k :: 0 <= k < size && k < |reach| && !convertible(reach[k]))
      && (r.status == RowError ==> |r.written| < |reach| && !convertible(reach[|r.written|]))
  {
    FetchWrites(s, size, convertible, limit);
    ReachIsPending(s, limit);
    var reach := Reach(s.(cursor := s.cursor + 1), limit);
    var good := Good(reach, convertible);
    if good < size && good < |reach| {
      assert !convertible(reach[good]);
    }
  }

  lemma ErrorLoses(s: State, size: nat, convertible: Row -> bool, limit: Limit)
    requires AtRest(s) && s.ready && size > 0 && Fetch(s, size, convertible, limit).status == RowError
    ensures
      var r := Fetch(s, size, convertible, limit);
      |Lost(r)| == if r.written == [] then 1 else 0
  {
    StartConserves(s, limit);
    FillStops(Started(s, limit).0, size, [], convertible, limit);
  }

  /** A row that cannot be converted stays pending behind rows that could, and is skipped for good in front of a rowset. */
  lemma ErrorLeaves(s: State, size: nat, convertible: Row -> bool, limit: Limit)
    requires AtRest(s) && s.ready && size > 0 && Fetch(s, size, convertible, limit).status == RowError
    ensures
      var r, pending := Fetch(s, size, convertible, limit), Pending(s, limit);
      && pending != [] && |r.written| <= |pending|
      && Pending(r.state, limit) == if r.written == [] then pending[1..] else pending[|r.written|..]
  {
    var r := Fetch(s, size, convertible, limit);
    FetchConserves(s, size, convertible, limit);
    ErrorLoses(s, size, convertible, limit);
    LostLeaves(Pending(s, limit), r.written, Lost(r), Pending(r.state, limit));
  }

  lemma LostLeaves(pending: seq<Row>, written: seq<Row>, lost: seq<Row>, rest: seq<Row>)
    requires pending == written + (lost + rest) && |lost| == if written == [] then 1 else 0
    ensures rest == if written == [] then pending[1..] else pending[|written|..]
  {
  }
}
