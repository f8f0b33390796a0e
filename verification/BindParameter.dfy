/**
 SQLBindParameter writes a record into the APD and one into the IPD; SQL_RESET_PARAMS clears the APD only; preparing a
 query, also as a part of SQLExecDirect, refills the IPD.
 */
module BindParameter {
  import opened SqlTypes

  /** SQLSMALLINT, in which descriptor records are numbered. */
  type short = x: int | -0x8000 <= x < 0x8000

  /** Conversion to SQLSMALLINT. */
  function Short(x: int): short {
    (x + 0x8000) % 0x1_0000 - 0x8000
  }

  const SQL_DATA_AT_EXEC: int := -2

  /** A descriptor record: what the type checks produce, and the four fields that only the APD record gets. */
  datatype Record = Record(typing: int, dataPtr: int, octetLength: int, octetLengthPtr: int, indicatorPtr: int)

  const DEFAULT := Record(0, 0, 0, 0, 0)

  type Records = map<short, Record>

  datatype Desc = Desc(records: Records, count: short)

  datatype Args = Args(number: int, bufferLength: int, typing: int, dataPtr: int, lengthPtr: int)

  /** SetParameterType, SetConciseType and ConfigureIpdRecord: new APD and IPD records, or an error. */
  type Checks = (Record, Record, Args) -> Option<(Record, Record)>

  datatype Outcome = Bound | E07009 | HY090 | TypeError

  /** `params` is the number of parameters of the query at hand. */
  datatype State = State(apd: Desc, ipd: Desc, needsParams: bool, params: nat)

  // Records and their count

  predicate IsMax(keys: set<short>, m: short) {
    m in keys && forall k :: k in keys ==> k <= m
  }

  /** The last key of an ordered map. */
  function MaxKey(keys: set<short>): (m: short)
    requires keys != {}
    ensures IsMax(keys, m)
  {
    HasMax(keys);
    var m: short :| IsMax(keys, m);
    m
  }

  lemma {:induction false} HasMax(keys: set<short>)
    requires keys != {}
    ensures exists m: short :: IsMax(keys, m)
    decreases keys
  {
    var x :| x in keys;
    var rest := keys - {x};
    assert forall k :: k in keys ==> k in rest || k == x;
    if rest == {} {
      assert IsMax(keys, x);
    } else {
      HasMax(rest);
      var m: short :| IsMax(rest, m);
      assert IsMax(keys, if x <= m then m else x);
    }
  }

  function CountOf(records: Records): short {
    if records == map[] then 0 else MaxKey(records.Keys)
  }

  /** SQL_DESC_COUNT is the highest record number. */
  predicate Counted(d: Desc) {
    d.count == CountOf(d.records)
  }

  function BindRecord(d: Desc, index: int, r: Record): Desc {
    var records := d.records[Short(index) := r];
    Desc(records, CountOf(records))
  }

  /** Looking up a record that is not there creates it; the count is not touched. */
  function LookUp(d: Desc, index: int): Desc {
    if Short(index) in d.records then d else d.(records := d.records[Short(index) := DEFAULT])
  }

  function Start(d: Desc, index: int): Record {
    if Short(index) in d.records then d.records[Short(index)] else DEFAULT
  }

  /** The statement's state changes before the other arguments are checked. */
  predicate AnnouncesData(a: Args) {
    a.dataPtr != 0 && Wrap32(a.dataPtr) == SQL_DATA_AT_EXEC
  }

  function Checked(st: State, a: Args, checks: Checks): Option<(Record, Record)> {
    var known := Short(a.number) in st.apd.records;
    checks(Start(st.apd, a.number), if known then Start(st.ipd, a.number) else DEFAULT, a)
  }

  function BindOutcome(st: State, a: Args, checks: Checks): Outcome {
    if a.number < 1 then E07009
    else if a.bufferLength < 0 then HY090
    else if Checked(st, a, checks).None? then TypeError
    else Bound
  }

  function Bind(st: State, a: Args, checks: Checks): State {
    if a.number < 1 || a.bufferLength < 0 then st
    else
      // the IPD record is looked up iff the APD has one
      var ipd := if Short(a.number) in st.apd.records then LookUp(st.ipd, a.number) else st.ipd;
      var needs := st.needsParams || AnnouncesData(a);
      match Checked(st, a, checks)
      case None => st.(ipd := ipd, needsParams := needs)
      case Some((x, y)) =>
        State(BindRecord(st.apd, a.number, WithPointers(x, a)), BindRecord(ipd, a.number, y), needs, st.params)
  }

  function WithPointers(r: Record, a: Args): Record {
    r.(dataPtr := a.dataPtr, octetLength := a.bufferLength, octetLengthPtr := a.lengthPtr, indicatorPtr := a.lengthPtr)
  }

  function Without(records: Records, last: int): Records {
    map k | k in records && !(0 < k <= last) :: records[k]
  }

  /** The loop variable of the erasing loop after n steps. */
  function IndexAfter(n: nat): short {
    if n == 0 then 1 else Short(IndexAfter(n - 1) + 1)
  }

  /** What the first `n` turns of the erasing loop leave. */
  function Erased(records: Records, n: nat): Records {
    if n == 0 then records else Erased(records, n - 1) - {IndexAfter(n - 1)}
  }

  lemma {:induction false} IndexCountsUp(n: nat)
    requires n < 0x7fff
    ensures IndexAfter(n) == n + 1
  {
    if n == 0 {
    } else {
      IndexCountsUp(n - 1);
    }
  }

  lemma {:induction false} ErasedCountsUp(records: Records, n: nat)
    requires n < 0x7fff
    ensures Erased(records, n) == Without(records, n)
  {
    if n == 0 {
      assert Without(records, n) == records;
    } else {
      ErasedCountsUp(records, n - 1);
      IndexCountsUp(n - 1);
      assert Without(records, n) == Without(records, n - 1) - {n};
    }
  }

  /** Erases records 1 to the count. */
  function Reset(d: Desc): Desc {
    var records := Without(d.records, d.count);
    Desc(records, CountOf(records))
  }

  // Preparing a query

  /** The type of a result column: one in both of the driver's tables, NULL, which one table lacks, or neither. */
  datatype ColumnType = Known | NullType | Unknown

  /** A column that is an array has an SQL type whatever its element type. */
  datatype Column = Column(columnType: ColumnType, repeated: bool)

  /** The answer to the dry run: none, also if no transaction could be begun, or result columns and parameters. */
  datatype Reply = NoAnswer | Answer(columns: seq<Column>, params: seq<Record>)

  predicate AllInResultTable(columns: seq<Column>) {
    forall i :: 0 <= i < |columns| ==> columns[i].columnType != Unknown
  }

  predicate AllHaveSqlType(columns: seq<Column>) {
    forall i :: 0 <= i < |columns| ==> columns[i].columnType == Known || columns[i].repeated
  }

  /** Far enough to take over the number of parameters, and far enough to refill the IPD. */
  predicate TakesParams(reply: Reply) {
    reply.Answer? && AllInResultTable(reply.columns)
  }

  predicate RefillsIpd(reply: Reply) {
    TakesParams(reply) && AllHaveSqlType(reply.columns)
  }

  /** The IPD cleared, its count left alone, and filled again record by record. */
  function Filled(d: Desc, params: seq<Record>, n: nat): Desc
    requires n <= |params|
  {
    if n == 0 then d.(records := map[]) else BindRecord(Filled(d, params, n - 1), n, params[n - 1])
  }

  lemma {:induction false} FilledClears(d: Desc, params: seq<Record>, n: nat)
    requires n <= |params|
    ensures Filled(d.(records := map[]), params, n) == Filled(d, params, n)
    decreases n
  {
    if n == 0 {
    } else {
      FilledClears(d, params, n - 1);
    }
  }

  function Prepare(st: State, reply: Reply): State {
    if !TakesParams(reply) then st
    else if !RefillsIpd(reply) then st.(params := |reply.params|)
    else st.(params := |reply.params|, ipd := Filled(st.ipd, reply.params, |reply.params|))
  }

  /** Whether SQLExecDirect takes the statement to have parameters: record 1 of the APD. */
  predicate HasBoundParams(st: State) {
    1 in st.apd.records
  }

  /** Without them the dry run is spared: once a transaction is begun, the query counts as one without parameters. */
  function ExecDirect(st: State, begins: bool, reply: Reply): State {
    if HasBoundParams(st) then if begins then Prepare(st, reply) else st
    else if begins then st.(params := 0, ipd := st.ipd.(records := map[])) else st
  }

  /** SQLSMALLINT again: what SQLParamData takes for the number of parameters. */
  function ParamCount(st: State): short {
    Short(st.params)
  }

  /** The erasing loop, at most so many turns of it. */
  method EraseTurns(start: Records, last: short, turns: nat) returns (records: Records, i: short, done: nat)
    ensures i == IndexAfter(done) && records == Erased(start, done) && done <= turns && (i <= last ==> done == turns)
    ensures last < 0x7fff ==> done == 0 || done <= last
    ensures last < 0x7fff ==> i == done + 1
  {
    records, i, done := start, 1, 0;
    while i <= last && done < turns
      invariant i == IndexAfter(done) && records == Erased(start, done) && done <= turns
      invariant last < 0x7fff ==> done == 0 || done <= last
      decreases turns - done
    {
      if last < 0x7fff {
        TurnCounts(last, done);
      }
      records := records - {i};
      i, done := Short(i + 1), done + 1;
    }
    if last < 0x7fff {
      TurnCounts(last, done);
    }
  }

  /** Each column's type, array or not, must be in the driver's table of result types. */
  method PopulateResultSet(columns: seq<Column>) returns (ok: bool)
    ensures ok == AllInResultTable(columns)
  {
    for i := 0 to |columns|
      invariant forall k :: 0 <= k < i ==> columns[k].columnType != Unknown
    {
      if columns[i].columnType == Unknown {
        return false;
      }
    }
    return true;
  }

  /** And each must have an SQL type, where NULL has none. */
  method PopulateIrd(columns: seq<Column>) returns (ok: bool)
    ensures ok == AllHaveSqlType(columns)
  {
    for i := 0 to |columns|
      invariant forall k :: 0 <= k < i ==> columns[k].columnType == Known || columns[k].repeated
    {
      if columns[i].columnType != Known && !columns[i].repeated {
        return false;
      }
    }
    return true;
  }

  class Statement {
    var apd: Desc
    var ipd: Desc
    var needsParams: bool
    var params: nat

    ghost function Contents(): State
      reads this
    {
      State(apd, ipd, needsParams, params)
    }

    method SQLBindParameterInternal(a: Args, checks: Checks) returns (o: Outcome)
      modifies this
      ensures o == BindOutcome(old(Contents()), a, checks) && Contents() == Bind(old(Contents()), a, checks)
    {
      if a.number < 1 {
        return E07009;
      }
      if a.bufferLength < 0 {
        return HY090;
      }
      if a.dataPtr != 0 && Wrap32(a.dataPtr) == SQL_DATA_AT_EXEC {
        needsParams := true;
      }
      var apdRecord, ipdRecord := DEFAULT, DEFAULT;
      if Short(a.number) in apd.records {
        apdRecord := apd.records[Short(a.number)];
        ipd := LookUp(ipd, a.number);
        ipdRecord := ipd.records[Short(a.number)];
      }
      var checked := checks(apdRecord, ipdRecord, a);
      if checked.None? {
        return TypeError;
      }
      apdRecord, ipdRecord := checked.value.0, checked.value.1;
      apdRecord := WithPointers(apdRecord, a);
      apd := BindRecord(apd, a.number, apdRecord);
      ipd := BindRecord(ipd, a.number, ipdRecord);
      return Bound;
    }

    /** The checks of PrepareQuery behind the server's answer, in order, and the refilling of the IPD. */
    method PrepareQuery(reply: Reply) returns (ok: bool)
      modifies this
      ensures Contents() == Prepare(old(Contents()), reply) && ok == RefillsIpd(reply)
    {
      if reply.NoAnswer? {
        return false;
      }
      ok := PopulateResultSet(reply.columns);
      if !ok {
        return;
      }
      params := |reply.params|;
      ok := PopulateIrd(reply.columns);
      if !ok {
        return;
      }
      FilledClears(ipd, reply.params, |reply.params|);
      ipd := ipd.(records := map[]);
      PopulateIpd(reply.params);
    }

    method PopulateIpd(records: seq<Record>)
      requires ipd.records == map[]
      modifies this`ipd
      ensures ipd == Filled(old(ipd), records, |records|)
    {
      for i := 0 to |records|
        invariant ipd == Filled(old(ipd), records, i)
      {
        ipd := BindRecord(ipd, i + 1, records[i]);
      }
    }

    /** What SQLExecDirect does to the descriptors before it executes. */
    method ActuallyProcessExecDirect(begins: bool, reply: Reply) returns (ok: bool)
      modifies this
      ensures Contents() == ExecDirect(old(Contents()), begins, reply)
      ensures ok == (begins && (HasBoundParams(old(Contents())) ==> RefillsIpd(reply)))
    {
      if 1 !in apd.records {
        if !begins {
          return false;
        }
        params := 0;
        ipd := ipd.(records := map[]);
        return true;
      }
      ok := PrepareQuery(if begins then reply else NoAnswer);
    }

    /**
     SQL_RESET_PARAMS, watched for a number of turns of its loop. With a count of 32767 the loop variable wraps at the
     end and no number of turns is enough.
     */
    method ResetParams(turns: nat) returns (ended: bool)
      modifies this
      ensures ended <==> old(apd.count) < 0x7fff && old(apd.count) <= turns
      ensures Contents() == old(Contents()).(apd :=
                if ended then Reset(old(apd)) else old(apd).(records := Erased(old(apd.records), turns)))
    {
      var last := apd.count;
      var records, i, done := EraseTurns(apd.records, last, turns);
      if i <= last {
        apd := apd.(records := records);
        return false;
      }
      LoopErases(apd.records, last, done);
      apd := Desc(records, CountOf(records));
      return true;
    }
  }

  lemma TurnCounts(last: short, done: nat)
    requires last < 0x7fff && (done == 0 || done <= last)
    ensures IndexAfter(done) == done + 1
  {
    IndexCountsUp(done);
  }

  lemma LoopErases(records: Records, last: short, done: nat)
    requires last < 0x7fff && (done == 0 || done <= last) && IndexAfter(done) > last
    ensures Erased(records, done) == Without(records, last)
  {
    TurnCounts(last, done);
    ErasedCountsUp(records, done);
  }

  // All or nothing

  /** The lookup that tests the APD and reads the IPD finds a record. */
  predicate Paired(st: State) {
    st.apd.records.Keys <= st.ipd.records.Keys
  }

  /** A refused call leaves both descriptors as they were iff the IPD has a record for a parameter that the APD has. */
  lemma RefusedChangesNothingIff(st: State, a: Args, checks: Checks)
    requires BindOutcome(st, a, checks) != Bound
    ensures Bind(st, a, checks).apd == st.apd
    ensures Bind(st, a, checks).ipd == st.ipd
      <==> a.number < 1 || a.bufferLength < 0
           || (Short(a.number) in st.apd.records ==> Short(a.number) in st.ipd.records)
  {
  }

  /**
   Which record goes where, for a call that the checks accept: the APD gets the first one with the four fields of the
   call, the IPD the second as it is. The checks see the APD's old record, or a new one, and the IPD's if the APD had one.
   */
  lemma RecordsBound(st: State, a: Args, checks: Checks, apdBefore: Record, ipdBefore: Record, x: Record, y: Record)
    requires a.number >= 1 && a.bufferLength >= 0
    requires apdBefore == if Short(a.number) in st.apd.records then st.apd.records[Short(a.number)] else DEFAULT
    requires Short(a.number) in st.apd.records && Short(a.number) in st.ipd.records ==>
               ipdBefore == st.ipd.records[Short(a.number)]
    requires Short(a.number) !in st.apd.records || Short(a.number) !in st.ipd.records ==> ipdBefore == DEFAULT
    requires checks(apdBefore, ipdBefore, a) == Some((x, y))
    ensures
      var n, next := Short(a.number), Bind(st, a, checks);
      && BindOutcome(st, a, checks) == Bound
      && n in next.apd.records && n in next.ipd.records
      && next.apd.records[n].typing == x.typing && next.apd.records[n].dataPtr == a.dataPtr
      && next.apd.records[n].octetLength == a.bufferLength && next.apd.records[n].octetLengthPtr == a.lengthPtr
      && next.apd.records[n].indicatorPtr == a.lengthPtr
      && next.ipd.records[n] == y
      && next.params == st.params
      && (next.needsParams <==> st.needsParams || (a.dataPtr != 0 && Wrap32(a.dataPtr) == -2))
  {
  }

  /** The order of the refusals, and the state that they leave: only the last comes behind the state change. */
  lemma RefusalsIff(st: State, a: Args, checks: Checks)
    ensures BindOutcome(st, a, checks) == E07009 <==> a.number < 1
    ensures BindOutcome(st, a, checks) == HY090 <==> a.number >= 1 && a.bufferLength < 0
    ensures a.number < 1 || a.bufferLength < 0 ==> Bind(st, a, checks) == st
    ensures a.number >= 1 && a.bufferLength >= 0 ==>
              (Bind(st, a, checks).needsParams <==> st.needsParams || (a.dataPtr != 0 && Wrap32(a.dataPtr) == -2))
  {
  }

  /** An accepted call binds the parameter in both descriptors and no other parameter in either. */
  lemma BoundInBoth(st: State, a: Args, checks: Checks)
    requires BindOutcome(st, a, checks) == Bound
    ensures
      var n, next := Short(a.number), Bind(st, a, checks);
      && next.apd.records.Keys == st.apd.records.Keys + {n} && next.ipd.records.Keys == st.ipd.records.Keys + {n}
      && (forall k :: k in st.apd.records && k != n ==> next.apd.records[k] == st.apd.records[k])
      && (forall k :: k in st.ipd.records && k != n ==> next.ipd.records[k] == st.ipd.records[k])
      && Counted(next.apd) && Counted(next.ipd)
      && next.apd.records[n].dataPtr == a.dataPtr && next.apd.records[n].indicatorPtr == a.lengthPtr
  {
  }

  // Preparing

  /** The IPD is refilled iff the server answers and every result column is of a known type, or an array of NULL. */
  lemma RefillsIff(reply: Reply)
    ensures RefillsIpd(reply)
      <==> reply.Answer? && forall c :: c in reply.columns ==>
             c.columnType == Known || (c.columnType == NullType && c.repeated)
  {
    if reply.Answer? {
      forall i | 0 <= i < |reply.columns| ensures reply.columns[i] in reply.columns {
      }
    }
  }

  /** The parameters are taken over iff the server answers and no column's type is missing from the table of result types. */
  lemma TakesIff(reply: Reply)
    ensures TakesParams(reply)
      <==> reply.Answer? && Column(Unknown, true) !in reply.columns && Column(Unknown, false) !in reply.columns
  {
    if reply.Answer? {
      forall i | 0 <= i < |reply.columns|
        ensures reply.columns[i].columnType == Unknown
          <==> reply.columns[i] in {Column(Unknown, true), Column(Unknown, false)}
      {
      }
    }
  }

  /** SQLExecDirect leaves the APD alone; the IPD and the number of parameters are those of a preparation, or cleared. */
  lemma ExecDirectLeaves(st: State, begins: bool, reply: Reply)
    ensures ExecDirect(st, begins, reply).apd == st.apd && ExecDirect(st, begins, reply).needsParams == st.needsParams
    ensures !begins ==> ExecDirect(st, begins, reply) == st
    ensures begins && 1 in st.apd.records ==> ExecDirect(st, begins, reply) == Prepare(st, reply)
    ensures begins && 1 !in st.apd.records ==>
              ExecDirect(st, begins, reply).ipd.records == map[] && ExecDirect(st, begins, reply).params == 0
  {
  }

  // Resetting

  /** Resetting unbinds every parameter iff each has a number from 1 to SQL_DESC_COUNT. */
  lemma ResetUnbindsAllIff(d: Desc)
    ensures Reset(d).records == map[] <==> forall k :: k in d.records ==> 0 < k <= d.count
    ensures forall n :: 1 <= n <= 0xffff ==>
              (Short(n) in Reset(d).records <==> Short(n) in d.records && (n >= 0x8000 || n > d.count))
    ensures Reset(d).records == map[] ==> Reset(d).count == 0
  {
    if k: short :| k in d.records && !(0 < k <= d.count) {
      assert k in Reset(d).records;
    } else {
      assert Reset(d).records == map[];
    }
  }

  /** Binding makes the count the highest number; then only a number of 32768 or more, a negative short, stays. */
  lemma CountedResetIff(d: Desc)
    requires Counted(d)
    ensures Reset(d).records == map[] <==> forall k :: k in d.records ==> k > 0
  {
    ResetUnbindsAllIff(d);
  }

  /** A lookup above the count leaves a record that resetting does not reach: parameter 1 bound, parameter 2 looked up. */
  lemma LookedUpSurvives(d: Desc, n: int)
    requires d == Desc(map[1 := DEFAULT], 1) && n == 2
    ensures Counted(d) && Reset(LookUp(d, n)).records == map[2 := DEFAULT]
  {
    assert d.records.Keys == {1};
    assert IsMax(d.records.Keys, CountOf(d.records));
    assert Short(n) == 2;
    assert Reset(LookUp(d, n)).records == map[2 := DEFAULT];
  }

  /** The loop condition becomes false after some number of steps iff the count is below 32767. */
  lemma ResetEndsIff(d: Desc)
    ensures (exists n: nat :: IndexAfter(n) > d.count) <==> d.count < 0x7fff
  {
    if d.count < 0x7fff {
      var n := if d.count < 1 then 0 else d.count;
      if n < 0x7fff {
        IndexCountsUp(n);
      }
      assert IndexAfter(n) > d.count;
    }
  }
}
