/**
 SQLFetch over a paged result: a cursor inside the page at hand, rowsets of any size that may span pages, and pages
 fetched from the server on demand. The first page is cut to SQL_ATTR_MAX_ROWS, later ones to its conversion to int.
 */
module RowsetFetch {
  import opened SqlTypes

  type Row = int

  /** The server's answers to page requests, in order; no answers left means an empty page token. */
  datatype Response = Page(rows: seq<Row>) | Failure

  datatype Status = Success | NoData | PageError | RowError | SequenceError

  /** `ready` is the statement state in which a result set is open. */
  datatype State = State(rows: seq<Row>, cursor: int, server: seq<Response>, ready: bool)

  function Trim(rows: seq<Row>, maxRows: nat): seq<Row> {
    if maxRows > 0 && maxRows < |rows| then rows[..maxRows] else rows
  }

  /** What the limit comes to behind the first page: no page is fetched any more, or each is cut; zero for no limit. */
  datatype Limit = Barred | AtMost(most: nat)

  function LimitOf(maxRows: nat): Limit {
    if maxRows == 0 then AtMost(0) else if Wrap32(maxRows) <= 0 then Barred else AtMost(Wrap32(maxRows))
  }

  function NextPage(s: State, limit: Limit): (State, Status) {
    if limit.Barred? || s.server == [] then (s, NoData)
    else match s.server[0]
      case Failure => (s.(rows := [], server := s.server[1..], ready := false), PageError)
      case Page(rows) =>
        (State(Trim(rows, limit.most), -1, s.server[1..], s.ready), if rows == [] then NoData else Success)
  }

  /** One rowset's result: the state, the rows written to the bound buffers, and how the rowset ended. */
  datatype Rowset = Rowset(state: State, written: seq<Row>, status: Status)

  /** Moves to the next row of the rowset, turning the page when the one at hand is used up. */
  function Advance(s: State, convertible: Row -> bool, limit: Limit): (State, Status) {
    var (p, status) := if s.cursor >= |s.rows| then NextPage(s, limit) else (s, Success);
    if status != Success then (p, status)
    else
      var q := if s.cursor >= |s.rows| then p.(cursor := p.cursor + 1) else p;
      if q.cursor < 0 || q.cursor >= |q.rows| then (q, NoData)
      else (q, if convertible(q.rows[q.cursor]) then Success else RowError)
  }

  /** Writes up to `need` rows behind `written`; the status says what ended the rowset early, if anything did. */
  function Fill(s: State, need: nat, written: seq<Row>, convertible: Row -> bool, limit: Limit): Rowset
    decreases need
  {
    if need == 0 then Rowset(s, written, Success)
    else
      var (q, status) := Advance(s, convertible, limit);
      if status != Success then Rowset(q, written, status)
      else Fill(q.(cursor := q.cursor + 1), need - 1, written + [q.rows[q.cursor]], convertible, limit)
  }

  lemma FillUnfolds(s: State, need: nat, written: seq<Row>, convertible: Row -> bool, limit: Limit)
    requires need > 0
    ensures
      var (q, status) := Advance(s, convertible, limit);
      Fill(s, need, written, convertible, limit)
      == if status != Success then Rowset(q, written, status)
         else Fill(q.(cursor := q.cursor + 1), need - 1, written + [q.rows[q.cursor]], convertible, limit)
  {
  }

  function WriteRowset(s: State, size: nat, convertible: Row -> bool, limit: Limit): Rowset {
    var r := Fill(s, size, [], convertible, limit);
    if r.written == [] then r
    else Rowset(r.state.(cursor := r.state.cursor - 1), r.written, if r.status == NoData then Success else r.status)
  }

  /** The step to the row behind the last rowset, on the next page if need be. */
  function Started(s: State, limit: Limit): (State, Status) {
    var s1 := s.(cursor := s.cursor + 1);
    if s1.cursor < |s1.rows| then (s1, Success)
    else
      var (p, status) := NextPage(s1, limit);
      (if status == Success then p.(cursor := p.cursor + 1) else p, status)
  }

  function Fetch(s: State, size: nat, convertible: Row -> bool, limit: Limit): Rowset {
    if !s.ready then Rowset(s, [], SequenceError)
    else
      var (q, status) := Started(s, limit);
      if status != Success then Rowset(q, [], status) else WriteRowset(q, size, convertible, limit)
  }

  /** The statement handle as far as fetching updates it. */
  class Statement {
    var rows: seq<Row>
    var cursor: int
    var server: seq<Response>
    var ready: bool

    ghost function Contents(): State
      reads this
    {
      State(rows, cursor, server, ready)
    }

    constructor (firstPage: seq<Row>, server: seq<Response>, maxRows: nat)
      ensures Contents() == State(Trim(firstPage, maxRows), -1, server, true)
    {
      this.rows := if maxRows > 0 && maxRows < |firstPage| then firstPage[..maxRows] else firstPage;
      this.cursor, this.server, this.ready := -1, server, true;
    }

    method FetchNextResultSet(maxRows: nat) returns (status: Status)
      modifies this
      ensures (Contents(), status) == NextPage(old(Contents()), LimitOf(maxRows))
    {
      // the count of rows fetched so far, which would be subtracted, is always zero
      var limit := Wrap32(maxRows);
      if maxRows > 0 && limit <= 0 {
        return NoData;
      }
      if server == [] {
        return NoData;
      }
      var response := server[0];
      server := server[1..];
      rows := [];
      if response.Failure? {
        ready := false;
        return PageError;
      }
      rows, cursor := response.rows, -1;
      if rows == [] {
        return NoData;
      }
      if maxRows > 0 && limit < |rows| {
        rows := rows[..limit];
      }
      return Success;
    }

    method NextRow(convertible: Row -> bool, maxRows: nat) returns (status: Status)
      modifies this
      ensures (Contents(), status) == Advance(old(Contents()), convertible, LimitOf(maxRows))
    {
      if cursor >= |rows| {
        status := FetchNextResultSet(maxRows);
        if status != Success {
          return;
        }
        cursor := cursor + 1;
      }
      if cursor < 0 || cursor >= |rows| {
        return NoData;
      }
      status := if convertible(rows[cursor]) then Success else RowError;
    }

    method WriteRows(size: nat, convertible: Row -> bool, maxRows: nat) returns (written: seq<Row>, status: Status)
      requires size > 0
      modifies this
      ensures Rowset(Contents(), written, status) == WriteRowset(old(Contents()), size, convertible, LimitOf(maxRows))
    {
      ghost var limit := LimitOf(maxRows);
      ghost var all := Fill(Contents(), size, [], convertible, limit);
      written, status := [], Success;
      while |written| < size && status == Success
        invariant |written| <= size
        invariant all == if status == Success then Fill(Contents(), size - |written|, written, convertible, limit)
                         else Rowset(Contents(), written, status)
        decreases size - |written|, status == Success
      {
        FillUnfolds(Contents(), size - |written|, written, convertible, limit);
        status := NextRow(convertible, maxRows);
        if status == Success {
          written := written + [rows[cursor]];
          cursor := cursor + 1;
        }
      }
      if written != [] {
        cursor := cursor - 1;
        if status == NoData {
          status := Success;
        }
      }
    }

    method SQLFetch(size: nat, convertible: Row -> bool, maxRows: nat) returns (written: seq<Row>, status: Status)
      requires size > 0
      modifies this
      ensures Rowset(Contents(), written, status) == Fetch(old(Contents()), size, convertible, LimitOf(maxRows))
    {
      if !ready {
        return [], SequenceError;
      }
      cursor := cursor + 1;
      if cursor >= |rows| {
        status := FetchNextResultSet(maxRows);
        if status != Success {
          return [], status;
        }
        cursor := cursor + 1;
      }
      written, status := WriteRows(size, convertible, maxRows);
    }
  }
}
