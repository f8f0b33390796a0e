/** The states of a statement over calls that prepare, execute, cancel and close it, without asynchronous execution. */
module StatementStates {
  import opened SqlTypes
  import BindParameter
  import ParamArray

  datatype Phase =
    | NotPrepared
    | Prepared
    | StillExecuting
    | ExecutedWithoutRs
    | ExecutedWithRs
    | NeedsParams
    | NeedsPutData

  /** `prepared` records that SQLPrepare was called; `canceled` that SQLCancel was. */
  datatype State = State(phase: Phase, prepared: bool, canceled: bool)

  const NEW := State(NotPrepared, false, false)

  /** The SQLSTATE that stands for SQL_NEED_DATA among the errors of a row. */
  const NEED_DATA: ParamArray.ErrorId := 99

  /** What executing comes to: the rows, the kind of statement and the steps behind the rows. */
  datatype Execution = Execution(rows: seq<ParamArray.Row>, kind: ParamArray.Kind, aftermath: ParamArray.Aftermath)

  function ReportOf(x: Execution): ParamArray.Report {
    ParamArray.Reported(ParamArray.TallyOf(x.rows, |x.rows|), x.kind, x.aftermath)
  }

  /** What SQLExecDirect meets before it executes: the begin of a transaction, and with parameter 1 bound the dry run. */
  datatype Setup = Setup(bound: bool, begins: bool, reply: BindParameter.Reply)

  predicate SetsUp(s: Setup) {
    s.begins && (s.bound ==> BindParameter.RefillsIpd(s.reply))
  }

  datatype Call =
    | Prepare(valid: bool, begins: bool, reply: BindParameter.Reply)
    | Execute(x: Execution)
    | ExecDirect(valid: bool, setup: Setup, x: Execution)
    | Bind(announcesData: bool)
    | CloseCursor
    | Cancel

  datatype Outcome =
    | Refused          // HY090, HY000, HY010 or 24000
    | Skipped          // success without doing anything, after SQLCancel
    | SetupFailed
    | PrepareFailed
    | NeedData
    | Ran(outcome: ParamArray.Outcome)
    | Done

  /** The statement's phase behind an execution; `failure` is what the caller asked for in case it fails. */
  function PhaseAfter(x: Execution, failure: Phase): Phase {
    var r := ReportOf(x);
    if r.outcome == ParamArray.Failed(NEED_DATA) then NeedsParams
    else match r.state
      case StillExecuting => StillExecuting
      case FailureState => failure
      case WithResults => ExecutedWithRs
      case WithoutResults => ExecutedWithoutRs
  }

  function OutcomeOf(x: Execution): Outcome {
    if ReportOf(x).outcome == ParamArray.Failed(NEED_DATA) then NeedData else Ran(ReportOf(x).outcome)
  }

  function Next(st: State, call: Call): (State, Outcome) {
    match call
    case Prepare(valid, begins, reply) =>
      if !valid then (st, Refused)
      else if st.canceled && st.phase == Prepared then (st.(phase := NotPrepared, canceled := false), Skipped)
      else
        (st.(phase := Prepared, prepared := true),
         if begins && BindParameter.RefillsIpd(reply) then Done else PrepareFailed)
    case Execute(x) =>
      if st.phase == NotPrepared || (st.phase == StillExecuting && !st.canceled) || st.phase == ExecutedWithRs
      then (st, Refused)
      else if st.phase == StillExecuting then (st.(phase := Prepared, canceled := false), Skipped)
      else (st.(phase := PhaseAfter(x, Prepared)), OutcomeOf(x))
    case ExecDirect(valid, setup, x) =>
      if !valid || st.phase == ExecutedWithRs then (st, Refused)
      else if st.canceled then (st.(phase := NotPrepared, canceled := false), Skipped)
      else if !SetsUp(setup) then (st.(phase := StillExecuting), SetupFailed)
      else (st.(phase := PhaseAfter(x, NotPrepared)), OutcomeOf(x))
    case Bind(announcesData) => (if announcesData then st.(phase := NeedsParams) else st, Done)
    case CloseCursor => (st.(phase := if st.prepared then Prepared else NotPrepared), Done)
    case Cancel =>
      (if st.phase in {Prepared, StillExecuting, NeedsParams, NeedsPutData} then st.(canceled := true) else st, Done)
  }

  class Statement {
    var phase: Phase
    var prepared: bool
    var canceled: bool

    ghost function Contents(): State
      reads this
    {
      State(phase, prepared, canceled)
    }

    constructor ()
      ensures Contents() == NEW
    {
      phase, prepared, canceled := NotPrepared, false, false;
    }

    method SQLPrepareInternal(valid: bool, begins: bool, reply: BindParameter.Reply) returns (o: Outcome)
      modifies this
      ensures (Contents(), o) == Next(old(Contents()), Prepare(valid, begins, reply))
    {
      if !valid {
        return Refused;
      }
      if canceled && phase == Prepared {
        canceled, phase := false, NotPrepared;
        return Skipped;
      }
      // whatever PrepareQuery returned
      phase := Prepared;
      prepared := true;
      o := if begins && BindParameter.RefillsIpd(reply) then Done else PrepareFailed;
    }

    method SQLExecuteInternal(x: Execution) returns (o: Outcome)
      modifies this
      ensures (Contents(), o) == Next(old(Contents()), Execute(x))
    {
      if phase == NotPrepared {
        return Refused;
      }
      if !canceled && phase == StillExecuting {
        return Refused;
      }
      if phase == ExecutedWithRs {
        return Refused;
      }
      if canceled && phase == StillExecuting {
        canceled, phase := false, Prepared;
        return Skipped;
      }
      o := ActuallyProcessExecute(x, Prepared);
    }

    /** Executing, and what both callers do about SQL_NEED_DATA. */
    method ActuallyProcessExecute(x: Execution, failure: Phase) returns (o: Outcome)
      modifies this
      ensures Contents() == old(Contents()).(phase := PhaseAfter(x, failure)) && o == OutcomeOf(x)
    {
      phase := StillExecuting;
      var r := ReportOf(x);
      match r.state {
        case StillExecuting =>
        case FailureState => phase := failure;
        case WithResults => phase := ExecutedWithRs;
        case WithoutResults => phase := ExecutedWithoutRs;
      }
      if r.outcome == ParamArray.Failed(NEED_DATA) {
        phase := NeedsParams;
        return NeedData;
      }
      return Ran(r.outcome);
    }

    method SQLExecDirectInternal(valid: bool, setup: Setup, x: Execution) returns (o: Outcome)
      modifies this
      ensures (Contents(), o) == Next(old(Contents()), ExecDirect(valid, setup, x))
    {
      if !valid || phase == ExecutedWithRs {
        return Refused;
      }
      if canceled {
        canceled, phase := false, NotPrepared;
        return Skipped;
      }
      phase := StillExecuting;
      if !setup.bound {
        if !setup.begins {
          return SetupFailed;
        }
      } else if !setup.begins || !BindParameter.RefillsIpd(setup.reply) {
        return SetupFailed;
      }
      o := ActuallyProcessExecute(x, NotPrepared);
    }

    method CloseTheCursor()
      modifies this
      ensures Contents() == Next(old(Contents()), CloseCursor).0
    {
      if prepared {
        phase := Prepared;
      } else {
        phase := NotPrepared;
      }
    }

    method SQLCancelInternal()
      modifies this
      ensures Contents() == Next(old(Contents()), Cancel).0
    {
      if phase == Prepared || phase == StillExecuting || phase == NeedsParams || phase == NeedsPutData {
        canceled := true;
      }
    }
  }

  // What each call answers and leaves

  /** An execution's phase and answer by its rows and the steps behind them; 99 is SQL_NEED_DATA. */
  lemma ExecutionLeaves(x: Execution, failure: Phase)
    requires x.rows != [] && failure in {NotPrepared, Prepared}
    ensures
      var none, after, kind := ParamArray.NoneRan(x.rows), ParamArray.AfterError(x.kind, x.aftermath), x.kind;
      var last := x.rows[|x.rows| - 1];
      var needs := if none then ParamArray.RowError(last) == 99 else after == Some(99);
      && (PhaseAfter(x, failure) == NeedsParams <==> needs) && (OutcomeOf(x) == NeedData <==> needs)
      && (PhaseAfter(x, failure) == failure <==> (none || after.Some?) && !needs)
      && (PhaseAfter(x, failure) == ExecutedWithRs <==>
            && !none && after.None?
            && (kind == ParamArray.Select
                || (kind == ParamArray.Script && (x.aftermath.known || x.aftermath.found) && x.aftermath.query)))
      && PhaseAfter(x, failure) in {NeedsParams, failure, ExecutedWithRs, ExecutedWithoutRs}
      && (!needs ==> OutcomeOf(x) == Ran(ReportOf(x).outcome))
  {
    ParamArray.StateLeft(x.rows, x.kind, x.aftermath);
    ParamArray.FailsIff(x.rows, x.kind, x.aftermath);
    if !ParamArray.NoneRan(x.rows) && ParamArray.AfterError(x.kind, x.aftermath).Some? {
      ParamArray.FailedWith(x.rows, x.kind, x.aftermath);
    }
  }

  lemma PrepareLeaves(st: State, valid: bool, begins: bool, reply: BindParameter.Reply)
    ensures
      var (next, o), skips := Next(st, Prepare(valid, begins, reply)), st.canceled && st.phase == Prepared;
      && (o == Refused <==> !valid) && (o == Skipped <==> valid && skips)
      && (o == Done <==> valid && !skips && begins && BindParameter.RefillsIpd(reply))
      && (o == PrepareFailed <==> valid && !skips && !(begins && BindParameter.RefillsIpd(reply)))
      && next == (if !valid then st else if skips then State(NotPrepared, st.prepared, false)
                  else State(Prepared, true, st.canceled))
  {
  }

  lemma ExecuteLeaves(st: State, x: Execution)
    ensures
      var (next, o) := Next(st, Execute(x));
      && (o == Refused <==> st.phase in {NotPrepared, ExecutedWithRs} || (st.phase == StillExecuting && !st.canceled))
      && (o == Skipped <==> st.phase == StillExecuting && st.canceled)
      && o != SetupFailed && (o !in {Refused, Skipped} ==> o == OutcomeOf(x))
      && next == (if o == Refused then st else if o == Skipped then State(Prepared, st.prepared, false)
                  else State(PhaseAfter(x, Prepared), st.prepared, st.canceled))
  {
  }

  lemma ExecDirectLeaves(st: State, valid: bool, setup: Setup, x: Execution)
    ensures
      var (next, o), refused := Next(st, ExecDirect(valid, setup, x)), !valid || st.phase == ExecutedWithRs;
      var ready := setup.begins && (setup.bound ==> BindParameter.RefillsIpd(setup.reply));
      && (o == Refused <==> refused) && (o == Skipped <==> !refused && st.canceled)
      && (o == SetupFailed <==> !refused && !st.canceled && !ready)
      && (o !in {Refused, Skipped, SetupFailed} ==> o == OutcomeOf(x))
      && next == (if o == Refused then st else if o == Skipped then State(NotPrepared, st.prepared, false)
                  else if o == SetupFailed then State(StillExecuting, st.prepared, false)
                  else State(PhaseAfter(x, NotPrepared), st.prepared, false))
  {
  }

  /** The calls that are always accepted. */
  lemma OthersLeave(st: State, announcesData: bool)
    ensures Next(st, Bind(announcesData))
         == (State(if announcesData then NeedsParams else st.phase, st.prepared, st.canceled), Done)
    ensures Next(st, CloseCursor)
         == (State(if st.prepared then Prepared else NotPrepared, st.prepared, st.canceled), Done)
    ensures
      var running := st.phase in {Prepared, StillExecuting, NeedsParams, NeedsPutData};
      Next(st, Cancel) == (State(st.phase, st.prepared, st.canceled || running), Done)
  {
  }

  // A statement that counts as executing although nothing executes

  lemma ExecutionEnds(x: Execution, failure: Phase)
    requires failure != StillExecuting
    ensures PhaseAfter(x, failure) != StillExecuting
  {
    if x.rows != [] {
      ParamArray.StateLeft(x.rows, x.kind, x.aftermath);
    }
  }

  /** Comes as far as setting the state, and then fails. */
  predicate Strands(st: State, call: Call) {
    call.ExecDirect? && call.valid && st.phase != ExecutedWithRs && !st.canceled && !SetsUp(call.setup)
  }

  /** Calls that leave a stranded statement stranded. */
  predicate LeavesStranded(st: State, call: Call) {
    match call
    case Prepare(valid, _, _) => !valid
    case Execute(_) => !st.canceled
    case ExecDirect(valid, _, _) => !valid
    case Bind(announcesData) => !announcesData
    case CloseCursor => false
    case Cancel => true
  }

  /**
   Between calls a statement counts as executing iff SQLExecDirect could not begin the transaction, or not prepare the
   query with parameter 1 bound, and no call since then has freed it.
   */
  lemma StrandedIff(st: State, call: Call)
    ensures Next(st, call).0.phase == StillExecuting
      <==> Strands(st, call) || (st.phase == StillExecuting && LeavesStranded(st, call))
  {
    match call
    case Execute(x) => ExecutionEnds(x, Prepared);
    case ExecDirect(_, _, x) => ExecutionEnds(x, NotPrepared);
    case _ =>
  }

  function Run(st: State, calls: seq<Call>): State
    decreases |calls|
  {
    if calls == [] then st else Run(Next(st, calls[0]).0, calls[1..])
  }

  /** Some call strands the statement and every later one leaves it so. */
  ghost predicate Stranded(st: State, calls: seq<Call>) {
    exists k: nat :: k < |calls| && StrandedAt(st, calls, k)
  }

  ghost predicate StrandedAt(st: State, calls: seq<Call>, k: nat)
    requires k < |calls|
  {
    Strands(Run(st, calls[..k]), calls[k]) && forall i :: k < i < |calls| ==> LeavesStranded(Run(st, calls[..i]), calls[i])
  }

  lemma {:induction false} RunOfMore(st: State, calls: seq<Call>, call: Call)
    ensures Run(st, calls + [call]) == Next(Run(st, calls), call).0
    decreases |calls|
  {
    if calls == [] {
      NothingAdded([call]);
    } else {
      RunOfMore(Next(st, calls[0]).0, calls[1..], call);
      assert (calls + [call])[1..] == calls[1..] + [call];
    }
  }

  /** Over every run from a state that is not stranded. */
  lemma {:induction false} RunStrandedIff(st: State, calls: seq<Call>)
    requires st.phase != StillExecuting
    ensures Run(st, calls).phase == StillExecuting <==> Stranded(st, calls)
    decreases |calls|
  {
    if calls == [] {
    } else {
      var n := |calls| - 1;
      var front, last := calls[..n], calls[n];
      assert calls == front + [last];
      RunStrandedIff(st, front);
      RunOfMore(st, front, last);
      StrandedIff(Run(st, front), last);
      OneCallMore(st, front, last);
    }
  }

  lemma OneCallMore(st: State, front: seq<Call>, last: Call)
    ensures Stranded(st, front + [last])
      <==> Strands(Run(st, front), last) || (Stranded(st, front) && LeavesStranded(Run(st, front), last))
  {
    var calls, n := front + [last], |front|;
    assert calls[..n] == front && calls[n] == last;
    forall k: nat | k < n
      ensures StrandedAt(st, calls, k) <==> StrandedAt(st, front, k) && LeavesStranded(Run(st, front), last)
    {
      EarlierStrand(st, front, last, k);
    }
    if Strands(Run(st, front), last) {
      assert StrandedAt(st, calls, n);
    } else {
      assert !StrandedAt(st, calls, n);
    }
  }

  lemma EarlierStrand(st: State, front: seq<Call>, last: Call, k: nat)
    requires k < |front|
    ensures StrandedAt(st, front + [last], k)
      <==> StrandedAt(st, front, k) && LeavesStranded(Run(st, front), last)
  {
    var calls, n := front + [last], |front|;
    assert calls[..n] == front && calls[n] == last;
    assert forall i :: 0 <= i < n ==> calls[..i] == front[..i] && calls[i] == front[i];
  }

  /** While stranded, SQLExecute answers HY010 however often it is called, until SQLCancel, and never executes. */
  lemma {:induction false} StrandedRefuses(st: State, xs: seq<Execution>)
    requires st.phase == StillExecuting && !st.canceled
    ensures forall i :: 0 <= i < |xs| ==> Next(Run(st, Executes(xs[..i])), Execute(xs[i])) == (st, Refused)
    decreases |xs|
  {
    forall i | 0 <= i < |xs| ensures Next(Run(st, Executes(xs[..i])), Execute(xs[i])) == (st, Refused) {
      StaysStranded(st, xs[..i]);
    }
  }

  function Executes(xs: seq<Execution>): seq<Call> {
    seq(|xs|, i requires 0 <= i < |xs| => Execute(xs[i]))
  }

  lemma {:induction false} StaysStranded(st: State, xs: seq<Execution>)
    requires st.phase == StillExecuting && !st.canceled
    ensures Run(st, Executes(xs)) == st
    decreases |xs|
  {
    if xs == [] {
    } else {
      assert Executes(xs)[1..] == Executes(xs[1..]);
      StaysStranded(st, xs[1..]);
    }
  }

  /** A prepared statement; SQLExecDirect that cannot begin a transaction; SQLExecute of the prepared query is refused. */
  lemma PreparedIsStranded(setup: Setup, x: Execution)
    requires !setup.begins
    ensures
      var st := State(Prepared, true, false);
      Next(Next(st, ExecDirect(true, setup, x)).0, Execute(x)).1 == Refused
  {
  }

  // A failed preparation counts

  /** SQLExecute goes on to execute iff the statement is in none of three phases; a failed SQLPrepare leads out of each. */
  lemma ExecutesIff(st: State, x: Execution)
    ensures Next(st, Execute(x)).1 in {NeedData} || Next(st, Execute(x)).1.Ran?
      <==> st.phase != NotPrepared && st.phase != StillExecuting && st.phase != ExecutedWithRs
  {
  }

  lemma FailedPrepareExecutes(st: State, begins: bool, reply: BindParameter.Reply, x: Execution)
    requires !(st.canceled && st.phase == Prepared)
    ensures
      var next := Next(st, Prepare(true, begins, reply));
      && (next.1 == PrepareFailed <==> !begins || !BindParameter.RefillsIpd(reply))
      && (Next(next.0, Execute(x)).1 == NeedData || Next(next.0, Execute(x)).1.Ran?)
  {
    ExecutesIff(Next(st, Prepare(true, begins, reply)).0, x);
  }
}
