/** Executing a statement once for each row of a parameter array. */
module ParamArray {
  import opened SqlTypes

  type ErrorId = int

  /** What a row comes to: its parameters cannot be built, the query fails, or it yields results. */
  datatype Row = BuildError(error: ErrorId) | RunError(error: ErrorId) | Ran(results: Results)

  /** Results as the client hands them out, with the number of rows a DML statement touched. */
  datatype Results = Results(payload: int, affected: int)

  datatype ParamStatus = ParamSuccess | ParamError | Untouched

  datatype Kind = Select | Dml | Script | OtherKind

  datatype Outcome =
    | Failed(error: ErrorId)   // the status of the last row that failed, or of a step behind the rows
    | NoData                   // SQL_NO_DATA
    | ErrorInRow               // 01S01
    | Success

  /** The state that the statement is left in; the first is the one in which it executes. */
  datatype StmtState = StillExecuting | FailureState | WithResults | WithoutResults

  /**
   The steps behind the rows. For a script: whether its sub-statements are known already, the error of finding them and
   whether there are any then, and whether the first is a query. For every statement: the error of turning the results
   into rows.
   */
  datatype Aftermath = Aftermath(known: bool, findError: Option<ErrorId>, found: bool, query: bool,
                                 processError: Option<ErrorId>)

  /** What the loop has come to after n rows. */
  datatype Tally = Tally(anySuccess: bool, hasErrors: bool, lastError: ErrorId, combined: Results, total: int)

  const NOTHING := Results(0, 0)

  function RowError(r: Row): ErrorId
    requires !r.Ran?
  {
    match r case BuildError(e) => e case RunError(e) => e
  }

  function Count(t: Tally, r: Row): Tally {
    if r.Ran? then t.(anySuccess := true, combined := r.results, total := t.total + r.results.affected)
    else t.(hasErrors := true, lastError := RowError(r))
  }

  function TallyOf(rows: seq<Row>, n: nat): Tally
    requires n <= |rows|
  {
    if n == 0 then Tally(false, false, 0, NOTHING, 0) else Count(TallyOf(rows, n - 1), rows[n - 1])
  }

  /** SQL_ATTR_PARAMSET_SIZE counts only with parameters, and not when it is zero. */
  function ArraySize(hasParams: bool, declared: nat): (n: nat)
    ensures n >= 1 && (hasParams && declared > 0 ==> n == declared) && (!hasParams || declared == 0 ==> n == 1)
  {
    var size := if !hasParams then 1 else declared;
    if size == 0 then 1 else size
  }

  /** The loop over the rows; both arrays belong to the application and may be absent. */
  method RunRows(rows: seq<Row>, status: array?<ParamStatus>, processed: array?<nat>) returns (t: Tally)
    requires status != null ==> status.Length >= |rows|
    requires processed != null ==> processed.Length == 1
    modifies if status == null then {} else {status}, if processed == null then {} else {processed}
    ensures t == TallyOf(rows, |rows|)
    ensures status != null ==>
              && (forall i :: 0 <= i < |rows| ==> status[i] == if rows[i].Ran? then ParamSuccess else ParamError)
              && forall i :: |rows| <= i < status.Length ==> status[i] == old(status[i])
    ensures processed != null ==> processed[0] == |rows|
  {
    if processed != null {
      processed[0] := 0;
    }
    t := Tally(false, false, 0, NOTHING, 0);
    for i := 0 to |rows|
      invariant t == TallyOf(rows, i)
      invariant processed != null ==> processed[0] == i
      invariant status != null ==> forall k :: 0 <= k < i ==> status[k] == if rows[k].Ran? then ParamSuccess else ParamError
      invariant status != null ==> forall k :: i <= k < status.Length ==> status[k] == old(status[k])
    {
      match rows[i] {
        case BuildError(e) =>
          Note(status, processed, i, ParamError);
          t := t.(hasErrors := true, lastError := e);
        case RunError(e) =>
          Note(status, processed, i, ParamError);
          t := t.(hasErrors := true, lastError := e);
        case Ran(r) =>
          t := t.(anySuccess := true, combined := r);
          Note(status, processed, i, ParamSuccess);
          t := t.(total := t.total + r.affected);
      }
    }
  }

  method Note(status: array?<ParamStatus>, processed: array?<nat>, i: nat, s: ParamStatus)
    requires status != null ==> i < status.Length
    requires processed != null ==> processed.Length == 1
    modifies if status == null then {} else {status}, if processed == null then {} else {processed}
    ensures status != null ==> status[..] == old(status[..])[i := s]
    ensures processed != null ==> processed[0] == i + 1
  {
    if status != null {
      status[i] := s;
    }
    if processed != null {
      processed[0] := i + 1;
    }
  }

  /** The error of the first step behind the rows that fails. */
  function AfterError(kind: Kind, a: Aftermath): Option<ErrorId> {
    if kind == Script && !a.known && a.findError.Some? then a.findError
    else a.processError
  }

  predicate YieldsRows(kind: Kind, a: Aftermath) {
    kind == Select || (kind == Script && (a.known || a.found) && a.query)
  }

  /** The status that SQLExecute gets, the results that are stored in the statement, and the state it is left in. */
  datatype Report = Report(outcome: Outcome, stored: Option<Results>, state: StmtState)

  function Reported(t: Tally, kind: Kind, a: Aftermath): Report {
    if !t.anySuccess && t.hasErrors then Report(Failed(t.lastError), None, FailureState)
    else
      var stored, error := Some(t.combined.(affected := t.total)), AfterError(kind, a);
      var outcome := if t.hasErrors then ErrorInRow else Success;
      if error.Some? then Report(Failed(error.value), stored, FailureState)
      else if YieldsRows(kind, a) then Report(outcome, stored, WithResults)
      else Report(if kind == Dml && t.total == 0 then NoData else outcome, stored, WithoutResults)
  }

  /** One execution for each of the declared rows; `rows` is what each of them comes to. */
  method ProcessExecute(hasParams: bool, declared: nat, rows: seq<Row>, kind: Kind, a: Aftermath,
                        status: array?<ParamStatus>, processed: array?<nat>)
    returns (o: Outcome, stored: Option<Results>, state: StmtState)
    requires |rows| == ArraySize(hasParams, declared)
    requires status != null ==> status.Length >= |rows|
    requires processed != null ==> processed.Length == 1
    modifies if status == null then {} else {status}, if processed == null then {} else {processed}
    ensures Report(o, stored, state) == Reported(TallyOf(rows, |rows|), kind, a) && state != StillExecuting
    ensures status != null ==> forall i :: 0 <= i < |rows| ==> status[i] == if rows[i].Ran? then ParamSuccess else ParamError
    ensures processed != null ==> processed[0] == |rows|
  {
    state, stored := StillExecuting, None;
    var t := RunRows(rows, status, processed);
    if !t.anySuccess && t.hasErrors {
      return Failed(t.lastError), None, FailureState;
    }
    var combined := t.combined.(affected := t.total);
    stored := Some(combined);
    var hasJobs, subQuery := a.known, false;
    if kind == Script && !hasJobs {
      if a.findError.Some? {
        return Failed(a.findError.value), stored, FailureState;
      }
      hasJobs := a.found;
    }
    if kind == Script && hasJobs {
      // the first sub-statement can be taken, since there is one
      subQuery := a.query;
    }
    if a.processError.Some? {
      return Failed(a.processError.value), stored, FailureState;
    }
    if kind == Select || (kind == Script && subQuery) {
      state := WithResults;
    } else {
      state := WithoutResults;
      if kind == Dml && combined.affected == 0 {
        return NoData, stored, state;
      }
    }
    o := if t.hasErrors then ErrorInRow else Success;
  }

  // What the application gets

  function Affected(rows: seq<Row>, n: nat): int
    requires n <= |rows|
  {
    if n == 0 then 0
    else Affected(rows, n - 1) + if rows[n - 1].Ran? then rows[n - 1].results.affected else 0
  }

  /** The last of the first n rows that ran, or that failed. */
  function Last(rows: seq<Row>, n: nat, ran: bool): (k: Option<nat>)
    requires n <= |rows|
    ensures k.Some? ==> k.value < n && rows[k.value].Ran? == ran
    ensures forall j :: (if k.Some? then k.value + 1 else 0) <= j < n ==> rows[j].Ran? != ran
  {
    if n == 0 then None else if rows[n - 1].Ran? == ran then Some(n - 1) else Last(rows, n - 1, ran)
  }

  lemma {:induction false} TallyMeans(rows: seq<Row>, n: nat)
    requires n <= |rows|
    ensures
      var t, ran, failed := TallyOf(rows, n), Last(rows, n, true), Last(rows, n, false);
      && t.anySuccess == ran.Some? && t.hasErrors == failed.Some? && t.total == Affected(rows, n)
      && (ran.Some? ==> t.combined == rows[ran.value].results)
      && (failed.Some? ==> t.lastError == RowError(rows[failed.value]))
  {
    if n == 0 {
    } else {
      TallyMeans(rows, n - 1);
    }
  }

  predicate NoneRan(rows: seq<Row>) {
    forall k :: 0 <= k < |rows| ==> !rows[k].Ran?
  }

  /** Failure is reported iff no row ran, with the error of the last row, or a step behind the rows failed. */
  lemma FailsIff(rows: seq<Row>, kind: Kind, a: Aftermath)
    requires rows != []
    ensures
      var r := Reported(TallyOf(rows, |rows|), kind, a);
      && (r.outcome.Failed? <==> NoneRan(rows) || AfterError(kind, a).Some?)
      && (NoneRan(rows) ==> r == Report(Failed(RowError(rows[|rows| - 1])), None, FailureState))
      && (r.stored.None? <==> NoneRan(rows))
  {
    TallyMeans(rows, |rows|);
    assert Last(rows, |rows|, true).None? ==> Last(rows, |rows|, false) == Some(|rows| - 1);
    assert Last(rows, |rows|, true).Some? || Last(rows, |rows|, false).Some?;
  }

  /** A step behind the rows that fails is what is reported, whatever became of the rows. */
  lemma FailedWith(rows: seq<Row>, kind: Kind, a: Aftermath)
    requires rows != [] && !NoneRan(rows) && AfterError(kind, a).Some?
    ensures Reported(TallyOf(rows, |rows|), kind, a).outcome == Failed(AfterError(kind, a).value)
  {
    FailsIff(rows, kind, a);
  }

  /** The state that is left: never that of executing, and the other three by outcome and kind. */
  lemma StateLeft(rows: seq<Row>, kind: Kind, a: Aftermath)
    requires rows != []
    ensures
      var r := Reported(TallyOf(rows, |rows|), kind, a);
      && r.state != StillExecuting
      && (r.state == FailureState <==> NoneRan(rows) || AfterError(kind, a).Some?)
      && (r.state == WithResults <==>
            && !NoneRan(rows) && AfterError(kind, a).None?
            && (kind == Select || (kind == Script && (a.known || a.found) && a.query)))
  {
    FailsIff(rows, kind, a);
  }

  /** Otherwise the last success's results are stored, with the affected rows of all successes. */
  lemma StoresLastSuccess(rows: seq<Row>, kind: Kind, a: Aftermath, k: nat)
    requires k < |rows| && rows[k].Ran? && forall j :: k < j < |rows| ==> !rows[j].Ran?
    ensures Reported(TallyOf(rows, |rows|), kind, a).stored
         == Some(rows[k].results.(affected := Affected(rows, |rows|)))
  {
    TallyMeans(rows, |rows|);
    assert Last(rows, |rows|, true) == Some(k);
  }

  /** SQL_NO_DATA is reported iff some row ran, no later step failed, and a DML statement touched no row in total. */
  lemma NoDataIff(rows: seq<Row>, kind: Kind, a: Aftermath)
    requires rows != []
    ensures Reported(TallyOf(rows, |rows|), kind, a).outcome == NoData
      <==> !NoneRan(rows) && AfterError(kind, a).None? && kind == Dml && Affected(rows, |rows|) == 0
  {
    TallyMeans(rows, |rows|);
    FailsIff(rows, kind, a);
  }

  /** Success is reported iff every row ran, no later step failed, and it is not a DML statement that touched nothing. */
  lemma SuccessIff(rows: seq<Row>, kind: Kind, a: Aftermath)
    requires rows != []
    ensures Reported(TallyOf(rows, |rows|), kind, a).outcome == Success
      <==> (forall k :: 0 <= k < |rows| ==> rows[k].Ran?) && AfterError(kind, a).None?
           && !(kind == Dml && Affected(rows, |rows|) == 0)
  {
    TallyMeans(rows, |rows|);
    FailsIff(rows, kind, a);
    var failed := Last(rows, |rows|, false);
    assert failed.Some? ==> !rows[failed.value].Ran?;
    assert rows[0].Ran? || !rows[0].Ran?;
  }

  /** The error of a later step: finding a script's sub-statements comes first, then turning results into rows. */
  lemma AfterErrorIs(kind: Kind, a: Aftermath)
    ensures kind != Script || a.known || a.findError.None? ==> AfterError(kind, a) == a.processError
    ensures kind == Script && !a.known && a.findError.Some? ==> AfterError(kind, a) == a.findError
  {
  }

  /**
   Failed rows are reported as 01S01 iff another row ran and the steps behind the rows went well, unless the statement
   is DML and touched no row in total.
   */
  lemma ErrorInRowIff(rows: seq<Row>, kind: Kind, a: Aftermath)
    ensures Reported(TallyOf(rows, |rows|), kind, a).outcome == ErrorInRow
      <==> !NoneRan(rows) && (exists k :: 0 <= k < |rows| && !rows[k].Ran?) && AfterError(kind, a).None?
           && !(kind == Dml && Affected(rows, |rows|) == 0)
  {
    TallyMeans(rows, |rows|);
    var ran, failed := Last(rows, |rows|, true), Last(rows, |rows|, false);
    assert ran.Some? ==> rows[ran.value].Ran?;
    assert failed.Some? ==> !rows[failed.value].Ran?;
  }
}
