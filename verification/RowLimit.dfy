/** SQL_ATTR_MAX_ROWS in the catalog functions: five loops and cuts that should all keep the first rows. */
module RowLimit {
  import opened SqlTypes

  type Row = int

  /** All rows when the limit is zero, else the first `max` of them. */
  function FirstRows(rows: seq<Row>, max: nat): seq<Row> {
    if max == 0 || |rows| <= max then rows else rows[..max]
  }

  /** The rows of the objects that could be read. */
  function AllRows(parts: seq<Option<seq<Row>>>): seq<Row>
    decreases |parts|
  {
    if parts == [] then []
    else AllRows(parts[..|parts| - 1]) + if parts[|parts| - 1].Some? then parts[|parts| - 1].value else []
  }

  lemma AllRowsOfOneMore(parts: seq<Option<seq<Row>>>, i: nat)
    requires i < |parts|
    ensures AllRows(parts[..i + 1]) == AllRows(parts[..i]) + if parts[i].Some? then parts[i].value else []
  {
    assert parts[..i + 1][..i] == parts[..i];
  }

  predicate Full(rows: seq<Row>, max: nat) {
    max != 0 && |rows| >= max
  }

  lemma FullIsEnough(rows: seq<Row>, more: seq<Row>, max: nat)
    requires Full(FirstRows(rows, max), max)
    ensures FirstRows(rows + more, max) == FirstRows(rows, max)
  {
  }

  lemma LimitOfSum(rows: seq<Row>, more: seq<Row>, max: nat)
    ensures FirstRows(FirstRows(rows, max) + more, max) == FirstRows(rows + more, max)
  {
    if max != 0 && |rows| > max {
      assert (rows[..max] + more)[..max] == rows[..max];
    }
  }

  /** The inner loop with its break. */
  method PushRows(rows: seq<Row>, more: seq<Row>, max: nat) returns (r: seq<Row>)
    requires rows == FirstRows(rows, max)
    ensures r == FirstRows(rows + more, max)
  {
    r := rows;
    for i := 0 to |more|
      invariant r == FirstRows(rows + more[..i], max)
    {
      if max != 0 && |r| >= max {
        assert rows + more == rows + more[..i] + more[i..];
        FullIsEnough(rows + more[..i], more[i..], max);
        break;
      }
      r := r + [more[i]];
      assert rows + more[..i + 1] == rows + more[..i] + [more[i]];
    }
    assert more[..|more|] == more;
  }

  /** The first object that cannot be read. */
  predicate FailsAt(parts: seq<Option<seq<Row>>>, k: nat) {
    k < |parts| && parts[k].None? && forall j :: 0 <= j < k ==> parts[j].Some?
  }

  /** An object fails before the limit is reached. */
  predicate FailsInTime(parts: seq<Option<seq<Row>>>, k: nat, max: nat) {
    FailsAt(parts, k) && !Full(AllRows(parts[..k]), max)
  }

  /** SQLColumns: breaks out of both loops, so objects behind the limit are not read, and cannot fail. */
  method SQLColumnsRows(parts: seq<Option<seq<Row>>>, max: nat) returns (r: Option<seq<Row>>)
    ensures r.Some? ==> r.value == FirstRows(AllRows(parts), max)
    ensures r.None? <==> exists k: nat :: FailsInTime(parts, k, max)
  {
    var rows: seq<Row> := [];
    for i := 0 to |parts|
      invariant rows == FirstRows(AllRows(parts[..i]), max)
      invariant forall j :: 0 <= j < i ==> parts[j].Some?
      invariant !Full(rows, max)
    {
      AllRowsOfOneMore(parts, i);
      if parts[i].None? {
        assert FailsInTime(parts, i, max);
        return None;
      }
      if parts[i].value != [] {
        var before := rows;
        rows := PushRows(before, parts[i].value, max);
        LimitOfSum(AllRows(parts[..i]), parts[i].value, max);
        if max != 0 && |rows| >= max {
          EnoughRows(parts, i + 1, max);
          return Some(rows);
        }
      } else {
        assert AllRows(parts[..i]) + [] == AllRows(parts[..i]);
      }
    }
    assert parts[..|parts|] == parts;
    assert forall k: nat :: !FailsAt(parts, k);
    return Some(rows);
  }

  /** Once the limit is reached the remaining objects add nothing, and none of them is the first to fail before it. */
  lemma EnoughRows(parts: seq<Option<seq<Row>>>, i: nat, max: nat)
    requires i <= |parts| && Full(FirstRows(AllRows(parts[..i]), max), max)
    requires forall j :: 0 <= j < i ==> parts[j].Some?
    ensures FirstRows(AllRows(parts), max) == FirstRows(AllRows(parts[..i]), max)
    ensures forall k: nat :: !FailsInTime(parts, k, max)
  {
    MoreRows(parts, i, |parts|, max);
    assert parts[..|parts|] == parts;
    forall k: nat | FailsAt(parts, k) ensures Full(AllRows(parts[..k]), max) {
      MoreRows(parts, i, k, max);
    }
  }

  lemma {:induction false} MoreRows(parts: seq<Option<seq<Row>>>, i: nat, k: nat, max: nat)
    requires i <= k <= |parts| && Full(FirstRows(AllRows(parts[..i]), max), max)
    ensures FirstRows(AllRows(parts[..k]), max) == FirstRows(AllRows(parts[..i]), max)
    decreases k - i
  {
    if i >= k {
    } else {
      MoreRows(parts, i, k - 1, max);
      AllRowsOfOneMore(parts, k - 1);
      FullIsEnough(AllRows(parts[..k - 1]), if parts[k - 1].Some? then parts[k - 1].value else [], max);
    }
  }

  /** SQLProcedureColumns: breaks out of the inner loop only, so every object is read and any may fail. */
  method SQLProcedureColumnsRows(parts: seq<Option<seq<Row>>>, max: nat) returns (r: Option<seq<Row>>)
    ensures r.Some? ==> r.value == FirstRows(AllRows(parts), max)
    ensures r.None? <==> exists k :: 0 <= k < |parts| && parts[k].None?
  {
    var rows: seq<Row> := [];
    for i := 0 to |parts|
      invariant rows == FirstRows(AllRows(parts[..i]), max)
      invariant forall j :: 0 <= j < i ==> parts[j].Some?
    {
      AllRowsOfOneMore(parts, i);
      if parts[i].None? {
        return None;
      }
      var before := rows;
      rows := PushRows(before, parts[i].value, max);
      LimitOfSum(AllRows(parts[..i]), parts[i].value, max);
    }
    assert parts[..|parts|] == parts;
    return Some(rows);
  }

  /** SQLGetTypeInfo for all types: counts the rows, with a break in each loop. */
  method SQLGetTypeInfoRows(groups: seq<seq<Row>>, max: nat) returns (r: seq<Row>)
    ensures r == FirstRows(AllRows(Wrapped(groups)), max)
  {
    r := [];
    var parts, count := Wrapped(groups), 0;
    for i := 0 to |groups|
      invariant count == |r| && r == FirstRows(AllRows(parts[..i]), max)
    {
      AllRowsOfOneMore(parts, i);
      var before := r;
      r, count := PushCounted(before, count, groups[i], max);
      LimitOfSum(AllRows(parts[..i]), groups[i], max);
      if max != 0 && count >= max {
        EnoughRows(parts, i + 1, max);
        return;
      }
    }
    assert parts[..|parts|] == parts;
  }

  function Wrapped(groups: seq<seq<Row>>): (parts: seq<Option<seq<Row>>>)
    ensures |parts| == |groups| && forall i :: 0 <= i < |groups| ==> parts[i] == Some(groups[i])
  {
    seq(|groups|, i requires 0 <= i < |groups| => Some(groups[i]))
  }

  method PushCounted(rows: seq<Row>, rowCount: nat, more: seq<Row>, max: nat) returns (r: seq<Row>, count: nat)
    requires rows == FirstRows(rows, max) && rowCount == |rows|
    ensures r == FirstRows(rows + more, max) && count == |r|
  {
    r, count := rows, rowCount;
    for i := 0 to |more|
      invariant r == FirstRows(rows + more[..i], max) && count == |r|
    {
      if max != 0 && count >= max {
        assert rows + more == rows + more[..i] + more[i..];
        FullIsEnough(rows + more[..i], more[i..], max);
        break;
      }
      r, count := r + [more[i]], count + 1;
      assert rows + more[..i + 1] == rows + more[..i] + [more[i]];
    }
    assert more[..|more|] == more;
  }

  /** SQLPrimaryKeys: erases the tail. */
  method SQLPrimaryKeysRows(rows: seq<Row>, max: nat) returns (r: seq<Row>)
    ensures r == FirstRows(rows, max)
  {
    r := rows;
    if max > 0 && max < |r| {
      r := r[..max];
    }
  }

  /** SQLStatistics: resizes, and takes an unreadable limit as none. */
  method SQLStatisticsRows(rows: seq<Row>, limit: Option<nat>) returns (r: seq<Row>)
    ensures r == FirstRows(rows, if limit.Some? then limit.value else 0)
  {
    r := rows;
    var max := if limit.Some? then limit.value else 0;
    if max != 0 && |r| > max {
      r := r[..max];
    }
  }

  /** SQLColumns and SQLProcedureColumns agree unless an object that cannot be read lies behind the limit. */
  lemma FormsAgreeIff(parts: seq<Option<seq<Row>>>, max: nat)
    ensures
      ((exists k: nat :: FailsInTime(parts, k, max)) <==> exists k :: 0 <= k < |parts| && parts[k].None?)
      <==> forall k: nat :: FailsAt(parts, k) ==> FailsInTime(parts, k, max)
  {
    if k :| 0 <= k < |parts| && parts[k].None? {
      var first := FirstFailure(parts, k);
      assert forall j: nat :: FailsAt(parts, j) ==> j == first;
    }
  }

  lemma {:induction false} FirstFailure(parts: seq<Option<seq<Row>>>, k: nat) returns (first: nat)
    requires k < |parts| && parts[k].None?
    ensures FailsAt(parts, first)
  {
    if j :| 0 <= j < k && parts[j].None? {
      first := FirstFailure(parts, j);
    } else {
      first := k;
    }
  }
}
