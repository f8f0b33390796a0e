/** Data-at-execution: SQLParamData asks for parameters one by one, SQLPutData delivers each in pieces. */
module DataAtExec {
  import opened SqlTypes

  const SQL_NULL_DATA: int := -1
  const SQL_DATA_AT_EXEC: int := -2
  const SQL_NTS: int := -3
  const SQL_LEN_DATA_AT_EXEC_OFFSET: int := -100

  function LenDataAtExec(n: int): int { -n + SQL_LEN_DATA_AT_EXEC_OFFSET }

  /** What the two calls see of a parameter: indicator, pointer and buffer from the APD, the length from the IPD. */
  datatype Param = Param(indicator: Option<int>, dataPtr: int, buffer: seq<byte>, length: int)

  /** The record that looking up an unbound parameter creates. */
  const UNBOUND := Param(None, 0, [], 0)

  datatype Phase = NeedsParams | NeedsPutData | Other

  datatype State = State(phase: Phase, current: nat, partial: bool, count: nat, params: map<nat, Param>)

  datatype PutOutcome = Accepted | HY009 | HY010 | HY000 | E07002 | HY090 | E22001

  /** How the execution that follows the last parameter ends; it reads the parameters as they then are. */
  datatype Execution = Done | Failed

  type Executor = map<nat, Param> -> Execution

  datatype Ask = NeedData(dataPtr: int) | Executed(result: Execution) | SequenceError | OutOfBounds

  // SQLPutData

  /** The declared size of the value, or -1. */
  function ColumnSize(p: Param): int
    requires p.indicator.Some?
  {
    if p.indicator.value <= SQL_LEN_DATA_AT_EXEC_OFFSET then -(p.indicator.value - SQL_LEN_DATA_AT_EXEC_OFFSET)
    else if p.indicator.value == SQL_DATA_AT_EXEC && p.length > 0 then p.length
    else -1
  }

  /** A null pointer, or memory from which the given number of bytes can be read. */
  predicate Readable(data: Option<seq<byte>>, len: int) {
    data.Some? && len > 0 ==> len <= |data.value|
  }

  /** SQLPutData dereferences the indicator that made SQLParamData ask. */
  predicate Asked(st: State) {
    st.phase == NeedsPutData && st.current in st.params ==> st.params[st.current].indicator.Some?
  }

  function PutCheck(st: State, data: Option<seq<byte>>, len: int): PutOutcome
    requires Asked(st)
  {
    if data.None? && len > 0 then HY009
    else if st.phase != NeedsPutData then HY010
    else if st.current > st.count then HY000
    else if st.current !in st.params then E07002
    else if data.Some? && len < 0 && len != SQL_NTS && len != SQL_NULL_DATA then HY090
    else if len == SQL_NULL_DATA || (len == 0 && data.Some?) then Accepted
    else
      var size := ColumnSize(st.params[st.current]);
      if size != -1 && |st.params[st.current].buffer| + len > size then E22001 else Accepted
  }

  function Put(st: State, data: Option<seq<byte>>, len: int): State
    requires Asked(st) && Readable(data, len)
  {
    if PutCheck(st, data, len) != Accepted then st
    else
      var p := st.params[st.current];
      if len == SQL_NULL_DATA || (len == 0 && data.Some?) then
        // the size of an enumeration, not of the value
        st.(params := st.params[st.current := p.(buffer := Zeros(4))], partial := true)
      else
        var full := ColumnSize(p) != -1 && |p.buffer| + len == ColumnSize(p);
        var added := if data.Some? && len > 0 then data.value[..len] else [];
        st.(params := st.params[st.current := p.(buffer := p.buffer + added)], partial := true,
            phase := if full then NeedsParams else st.phase)
  }

  // SQLParamData

  /** Any indicator but a null pointer and SQL_NTS makes SQLParamData ask. */
  predicate Wants(params: map<nat, Param>, n: nat) {
    n in params && params[n].indicator.Some? && params[n].indicator.value != SQL_NTS
  }

  function LookUp(params: map<nat, Param>, n: nat): map<nat, Param> {
    if n in params then params else params[n := UNBOUND]
  }

  /** The search from parameter n on: records created by looking up, and the first parameter that is asked for. */
  function Search(params: map<nat, Param>, n: nat, count: nat): (r: (map<nat, Param>, Option<nat>))
    ensures r.1.Some? ==> n <= r.1.value <= count && Wants(r.0, r.1.value)
    decreases count + 1 - n
  {
    if n > count then (params, None)
    else if Wants(LookUp(params, n), n) then (LookUp(params, n), Some(n))
    else Search(LookUp(params, n), n + 1, count)
  }

  predicate MayAsk(st: State) {
    st.phase == NeedsParams || st.partial
  }

  function AskResult(st: State, execute: Executor): Ask {
    if !MayAsk(st) then SequenceError
    else if st.current > st.count then OutOfBounds
    else
      var (params, next) := Search(st.params, st.current + 1, st.count);
      if next.Some? then NeedData(params[next.value].dataPtr) else Executed(execute(params))
  }

  /** The execution leaves the statement in a state of its own, and everything else as it is. */
  function AskState(st: State): State {
    if !MayAsk(st) || st.current > st.count then st
    else
      var (params, next) := Search(st.params, st.current + 1, st.count);
      if next.Some? then State(NeedsPutData, next.value, false, st.count, params)
      else st.(phase := Other, params := params)
  }

  class Statement {
    var phase: Phase
    var current: nat
    var partial: bool
    var count: nat
    var params: map<nat, Param>

    ghost function Contents(): State
      reads this
    {
      State(phase, current, partial, count, params)
    }

    method SQLPutDataInternal(data: Option<seq<byte>>, len: int) returns (o: PutOutcome)
      requires Asked(Contents()) && Readable(data, len)
      modifies this
      ensures o == PutCheck(old(Contents()), data, len) && Contents() == Put(old(Contents()), data, len)
    {
      if data.None? && len > 0 {
        return HY009;
      }
      if phase != NeedsPutData {
        return HY010;
      }
      if current > count {
        return HY000;
      }
      if current !in params {
        return E07002;
      }
      if data.Some? && len < 0 && len != SQL_NTS && len != SQL_NULL_DATA {
        return HY090;
      }
      if len == SQL_NULL_DATA || (len == 0 && data.Some?) {
        params := params[current := params[current].(buffer := Zeros(4))];
        partial := true;
        return Accepted;
      }
      var columnSize := -1;
      var indicator := params[current].indicator.value;
      if indicator <= SQL_LEN_DATA_AT_EXEC_OFFSET {
        columnSize := -(indicator - SQL_LEN_DATA_AT_EXEC_OFFSET);
      } else if indicator == SQL_DATA_AT_EXEC && params[current].length > 0 {
        columnSize := params[current].length;
      }
      if columnSize != -1 {
        var buffered := |params[current].buffer| + len;
        if buffered > columnSize {
          return E22001;
        }
        if buffered == columnSize {
          phase := NeedsParams;
        }
      }
      var added := if data.Some? && len > 0 then data.value[..len] else [];
      params := params[current := params[current].(buffer := params[current].buffer + added)];
      partial := true;
      return Accepted;
    }

    /** The loop of SQLParamData, which looks records up and thereby creates them. */
    method FindWanted(first: nat) returns (found: Option<nat>)
      modifies this`params
      ensures (params, found) == Search(old(params), first, count)
    {
      var n := first;
      while n <= count
        invariant Search(params, n, count) == Search(old(params), first, count)
        decreases count + 1 - n
      {
        params := LookUp(params, n);
        var param := params[n];
        if param.indicator.None? || param.indicator.value == SQL_NTS {
          n := n + 1;
          continue;
        }
        return Some(n);
      }
      return None;
    }

    method SQLParamDataInternal(execute: Executor) returns (a: Ask)
      modifies this
      ensures a == AskResult(old(Contents()), execute) && Contents() == AskState(old(Contents()))
    {
      if phase != NeedsParams && !partial {
        return SequenceError;
      }
      if current > count {
        return OutOfBounds;
      }
      var found := FindWanted(current + 1);
      if found.Some? {
        current, phase, partial := found.value, NeedsPutData, false;
        return NeedData(params[current].dataPtr);
      }
      phase := Other;
      return Executed(execute(params));
    }
  }
}
