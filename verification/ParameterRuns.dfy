/** Whether parameters of the APD and records of the IPD stay in step over calls that bind, reset, prepare and look up. */
module ParameterRuns {
  import opened SqlTypes
  import opened BindParameter

  // The numbers of a query's parameters

  /** A record number that one of n parameters takes; from 32768 on numbers wrap. */
  predicate IsNumber(k: short, n: nat) {
    1 <= k <= n || (k <= 0 && k + 0x1_0000 <= n)
  }

  lemma NumberOfNext(n: nat, k: short)
    ensures IsNumber(k, n + 1) <==> IsNumber(k, n) || k == Short(n + 1)
  {
  }

  lemma {:induction false} FilledNumbers(d: Desc, params: seq<Record>, n: nat, k: short)
    requires n <= |params|
    ensures k in Filled(d, params, n).records <==> IsNumber(k, n)
    decreases n
  {
    if n == 0 {
    } else {
      FilledNumbers(d, params, n - 1, k);
      NumberOfNext(n - 1, k);
    }
  }

  /** A refilled IPD has a record for every parameter of the query and for no other. */
  lemma PreparedNumbers(st: State, reply: Reply)
    requires RefillsIpd(reply)
    ensures forall k :: k in Prepare(st, reply).ipd.records <==> IsNumber(k, |reply.params|)
  {
    forall k ensures k in Prepare(st, reply).ipd.records <==> IsNumber(k, |reply.params|) {
      FilledNumbers(st.ipd, reply.params, |reply.params|, k);
    }
  }

  // Operations

  /** The lookups of the other calls: SQLParamData looks up APD records, SQLPutData and the execution IPD records. */
  datatype Op =
    | BindOp(args: Args, checks: Checks)
    | ResetOp
    | PrepareOp(reply: Reply)
    | ExecDirectOp(begins: bool, reply: Reply)
    | ApdLookUp(n: int)
    | IpdLookUp(n: int)

  function Apply(st: State, op: Op): State {
    match op
    case BindOp(a, checks) => Bind(st, a, checks)
    case ResetOp => st.(apd := Reset(st.apd))
    case PrepareOp(reply) => Prepare(st, reply)
    case ExecDirectOp(begins, reply) => ExecDirect(st, begins, reply)
    case ApdLookUp(n) => if 1 <= n <= ParamCount(st) then st.(apd := LookUp(st.apd, n)) else st
    case IpdLookUp(n) => st.(ipd := LookUp(st.ipd, n))
  }

  /** The answer that an operation hands to PrepareQuery, if it comes to that. */
  function Asked(st: State, op: Op): Reply {
    match op
    case PrepareOp(reply) => reply
    case ExecDirectOp(begins, reply) => if begins && HasBoundParams(st) then reply else NoAnswer
    case _ => NoAnswer
  }

  // Pairs

  /**
   Preparing a query keeps the pairs iff the APD has no number but those of the query's parameters; executing directly
   without a preparation iff nothing is bound; a lookup in the APD iff one of the descriptors has the record.
   */
  predicate KeepsPairs(st: State, op: Op) {
    if RefillsIpd(Asked(st, op)) then forall k :: k in st.apd.records ==> IsNumber(k, |Asked(st, op).params|)
    else match op
      case ExecDirectOp(begins, _) => begins && !HasBoundParams(st) ==> st.apd.records == map[]
      case ApdLookUp(n) =>
        1 <= n <= ParamCount(st) ==> Short(n) in st.apd.records || Short(n) in st.ipd.records
      case _ => true
  }

  lemma PrepareKeepsPairedIff(st: State, reply: Reply)
    requires Paired(st)
    ensures Paired(Prepare(st, reply)) <==> KeepsPairs(st, PrepareOp(reply))
  {
    if RefillsIpd(reply) {
      PreparedNumbers(st, reply);
    }
  }

  lemma ExecDirectKeepsPairedIff(st: State, begins: bool, reply: Reply)
    requires Paired(st)
    ensures Paired(ExecDirect(st, begins, reply)) <==> KeepsPairs(st, ExecDirectOp(begins, reply))
  {
    if HasBoundParams(st) {
      if begins {
        PrepareKeepsPairedIff(st, reply);
      }
    } else if st.apd.records != map[] {
      var k :| k in st.apd.records;
    }
  }

  lemma ApplyKeepsPairedIff(st: State, op: Op)
    requires Paired(st)
    ensures Paired(Apply(st, op)) <==> KeepsPairs(st, op)
  {
    match op
    case PrepareOp(reply) => PrepareKeepsPairedIff(st, reply);
    case ExecDirectOp(begins, reply) => ExecDirectKeepsPairedIff(st, begins, reply);
    case ApdLookUp(n) => assert Short(n) in LookUp(st.apd, n).records;
    case _ =>
  }

  /** Every parameter of the APD has its IPD record after each operation. */
  predicate PairedThroughout(st: State, ops: seq<Op>)
    decreases |ops|
  {
    Paired(st) && (ops == [] || PairedThroughout(Apply(st, ops[0]), ops[1..]))
  }

  predicate AllKeepPairs(st: State, ops: seq<Op>)
    decreases |ops|
  {
    ops == [] || (KeepsPairs(st, ops[0]) && AllKeepPairs(Apply(st, ops[0]), ops[1..]))
  }

  lemma {:induction false} RunKeepsPairedIff(st: State, ops: seq<Op>)
    requires Paired(st)
    ensures PairedThroughout(st, ops) <==> AllKeepPairs(st, ops)
    decreases |ops|
  {
    if ops == [] {
    } else {
      ApplyKeepsPairedIff(st, ops[0]);
      if KeepsPairs(st, ops[0]) {
        RunKeepsPairedIff(Apply(st, ops[0]), ops[1..]);
      }
    }
  }

  // What SQLParamData looks up

  /** The IPD has a record for every number that SQLParamData looks up in the APD. */
  predicate Covered(st: State) {
    forall k: short :: 1 <= k <= ParamCount(st) ==> k in st.ipd.records
  }

  /** A preparation that ends at a column without an SQL type has taken over the parameters but not refilled the IPD. */
  predicate KeepsCover(st: State, op: Op) {
    var reply := Asked(st, op);
    TakesParams(reply) && !RefillsIpd(reply) ==>
      forall k: short :: 1 <= k <= Short(|reply.params|) ==> k in st.ipd.records
  }

  lemma PrepareKeepsCoverIff(st: State, reply: Reply)
    requires Covered(st)
    ensures Covered(Prepare(st, reply)) <==> KeepsCover(st, PrepareOp(reply))
  {
    if RefillsIpd(reply) {
      PreparedNumbers(st, reply);
    }
  }

  lemma ApplyKeepsCoverIff(st: State, op: Op)
    requires Covered(st)
    ensures Covered(Apply(st, op)) <==> KeepsCover(st, op)
  {
    match op
    case PrepareOp(reply) => PrepareKeepsCoverIff(st, reply);
    case ExecDirectOp(begins, reply) => if begins && HasBoundParams(st) { PrepareKeepsCoverIff(st, reply); }
    case _ =>
  }

  predicate AllKeepCover(st: State, ops: seq<Op>)
    decreases |ops|
  {
    ops == [] || (KeepsCover(st, ops[0]) && AllKeepCover(Apply(st, ops[0]), ops[1..]))
  }

  predicate CoveredThroughout(st: State, ops: seq<Op>)
    decreases |ops|
  {
    Covered(st) && (ops == [] || CoveredThroughout(Apply(st, ops[0]), ops[1..]))
  }

  lemma {:induction false} RunKeepsCoverIff(st: State, ops: seq<Op>)
    requires Covered(st)
    ensures CoveredThroughout(st, ops) <==> AllKeepCover(st, ops)
    decreases |ops|
  {
    if ops == [] {
    } else {
      ApplyKeepsCoverIff(st, ops[0]);
      if KeepsCover(st, ops[0]) {
        RunKeepsCoverIff(Apply(st, ops[0]), ops[1..]);
      }
    }
  }

  /** SQLParamData can look up a record that breaks the pairs iff the IPD is not covered. */
  lemma LookUpsKeepPairsIff(st: State)
    requires Paired(st)
    ensures (forall n :: KeepsPairs(st, ApdLookUp(n))) <==> Covered(st)
  {
    if k: short :| 1 <= k <= ParamCount(st) && k !in st.ipd.records {
      assert Short(k) == k && !KeepsPairs(st, ApdLookUp(k));
    }
  }

  // Inputs

  const NULL_COLUMN := Column(NullType, false)

  const FRESH := State(Desc(map[], 0), Desc(map[], 0), false, 0)

  /** Over every run from a new statement. */
  lemma RunFromFresh(ops: seq<Op>)
    ensures PairedThroughout(FRESH, ops) <==> AllKeepPairs(FRESH, ops)
    ensures CoveredThroughout(FRESH, ops) <==> AllKeepCover(FRESH, ops)
  {
    RunKeepsPairedIff(FRESH, ops);
    RunKeepsCoverIff(FRESH, ops);
  }

  /** Parameters 1 and 2 bound, then a query with one marker prepared or executed: parameter 2 has no IPD record. */
  lemma PrepareDropsSecond(st: State, r: Record, op: Op)
    requires st.apd.records.Keys == {1, 2} && st.ipd.records.Keys == {1, 2}
    requires op == PrepareOp(Answer([], [r])) || op == ExecDirectOp(true, Answer([], [r]))
    ensures Paired(st) && !Paired(Apply(st, op))
  {
    assert 2 in st.apd.records && !IsNumber(2, 1);
    ApplyKeepsPairedIff(st, op);
  }

  /** A query with two markers and a column of type NULL, parameter 1 bound, parameter 2 looked up: 2 is in the APD only. */
  lemma NullColumnUncovers(r: Record, a: Args, checks: Checks)
    requires a.number == 1 && BindOutcome(FRESH.(params := 2), a, checks) == Bound
    ensures
      var prepared := Apply(FRESH, PrepareOp(Answer([NULL_COLUMN], [r, r])));
      var bound := Apply(prepared, BindOp(a, checks));
      Paired(bound) && !Covered(bound) && !Paired(Apply(bound, ApdLookUp(2)))
  {
    var columns := [NULL_COLUMN];
    var prepared := Apply(FRESH, PrepareOp(Answer(columns, [r, r])));
    assert columns[0].columnType == NullType && !columns[0].repeated;
    assert prepared == FRESH.(params := 2);
    var bound := Apply(prepared, BindOp(a, checks));
    BoundInBoth(prepared, a, checks);
    assert 2 !in bound.ipd.records && ParamCount(bound) == 2;
  }
}
