/** Whole data-at-execution sessions: what accumulates in a parameter's buffer, and which parameters are asked for. */
module DataAtExecRuns {
  import opened SqlTypes
  import opened DataAtExec

  // One parameter

  function Concat(pieces: seq<seq<byte>>): seq<byte> {
    if pieces == [] then [] else pieces[0] + Concat(pieces[1..])
  }

  /** The pieces that are accepted: those that fit the declared size, until it is reached. */
  function Taken(have: nat, size: int, pieces: seq<seq<byte>>): seq<seq<byte>>
    decreases |pieces|
  {
    if pieces == [] then []
    else if size == -1 || have + |pieces[0]| < size then [pieces[0]] + Taken(have + |pieces[0]|, size, pieces[1..])
    else if have + |pieces[0]| == size then [pieces[0]]
    else Taken(have, size, pieces[1..])
  }

  function PutAll(st: State, pieces: seq<seq<byte>>): State
    requires Asked(st)
    decreases |pieces|
  {
    if pieces == [] then st else PutAll(Put(st, Some(pieces[0]), |pieces[0]|), pieces[1..])
  }

  predicate Expecting(st: State) {
    && st.phase == NeedsPutData && st.current <= st.count && st.current in st.params
    && st.params[st.current].indicator.Some?
  }

  lemma RefusedOnceFull(st: State, pieces: seq<seq<byte>>)
    requires st.phase != NeedsPutData
    ensures PutAll(st, pieces) == st
    decreases |pieces|
  {
    if pieces != [] {
      RefusedOnceFull(Put(st, Some(pieces[0]), |pieces[0]|), pieces[1..]);
    }
  }

  /** The state once `bytes` have been appended for the current parameter, by at least one accepted call. */
  function Appended(st: State, bytes: seq<byte>): State
    requires Expecting(st)
  {
    var p := st.params[st.current];
    State(if |p.buffer| + |bytes| == ColumnSize(p) then NeedsParams else NeedsPutData, st.current, true, st.count,
          st.params[st.current := p.(buffer := p.buffer + bytes)])
  }

  /** One piece is appended iff it does not exceed the declared size. */
  lemma PutOne(st: State, piece: seq<byte>)
    requires Expecting(st) && piece != []
    ensures
      var p := st.params[st.current];
      Put(st, Some(piece), |piece|)
      == if ColumnSize(p) != -1 && |p.buffer| + |piece| > ColumnSize(p) then st else Appended(st, piece)
  {
    assert piece[..|piece|] == piece;
  }

  lemma AppendedTwice(st: State, a: seq<byte>, b: seq<byte>)
    requires Expecting(st) && Expecting(Appended(st, a))
    ensures Appended(Appended(st, a), b) == Appended(st, a + b)
  {
    var p := st.params[st.current];
    assert p.buffer + a + b == p.buffer + (a + b);
  }

  /** The buffer ends up with the accepted pieces behind what it held, and the state says whether the size is reached. */
  lemma {:induction false} PutAccumulates(st: State, pieces: seq<seq<byte>>)
    requires Expecting(st) && forall i :: 0 <= i < |pieces| ==> pieces[i] != []
    ensures
      var p := st.params[st.current];
      var taken := Taken(|p.buffer|, ColumnSize(p), pieces);
      PutAll(st, pieces) == if taken == [] then st else Appended(st, Concat(taken))
    decreases |pieces|
  {
    if pieces == [] {
    } else {
      var p, piece, rest := st.params[st.current], pieces[0], pieces[1..];
      var size, next := ColumnSize(p), Put(st, Some(piece), |piece|);
      PutOne(st, piece);
      if size == -1 || |p.buffer| + |piece| < size {
        PutAccumulates(next, rest);
        var taken := Taken(|p.buffer| + |piece|, size, rest);
        if taken == [] {
          ConcatOne(piece);
        } else {
          AppendedTwice(st, piece, Concat(taken));
        }
        assert ([piece] + taken)[1..] == taken;
      } else if |p.buffer| + |piece| == size {
        RefusedOnceFull(next, rest);
        ConcatOne(piece);
      } else {
        PutAccumulates(next, rest);
      }
    }
  }

  lemma ConcatOne(piece: seq<byte>)
    ensures Concat([piece]) == piece
  {
    assert [piece][1..] == [];
  }

  /** A buffer within the declared size stays within it. */
  lemma {:induction false} TakenFits(have: nat, size: int, pieces: seq<seq<byte>>)
    requires have <= size
    ensures have + |Concat(Taken(have, size, pieces))| <= size
    decreases |pieces|
  {
    if pieces == [] {
    } else {
      var p := pieces[0];
      if have + |p| < size {
        TakenFits(have + |p|, size, pieces[1..]);
      } else if have + |p| == size {
        assert Concat([p]) == p + Concat([]);
      } else {
        TakenFits(have, size, pieces[1..]);
      }
    }
  }

  /** With no declared size every piece is accepted; with one, all are iff their total does not exceed it. */
  lemma {:induction false} AllTakenIff(have: nat, size: int, pieces: seq<seq<byte>>)
    requires size == -1 || have <= size
    requires forall i :: 0 <= i < |pieces| ==> pieces[i] != []
    ensures Taken(have, size, pieces) == pieces <==> size == -1 || have + |Concat(pieces)| <= size
    decreases |pieces|
  {
    if pieces == [] {
    } else {
      var p, rest := pieces[0], pieces[1..];
      assert pieces == [p] + rest;
      if size == -1 || have + |p| < size {
        AllTakenIff(have + |p|, size, rest);
        assert ([p] + Taken(have + |p|, size, rest))[1..] == Taken(have + |p|, size, rest);
      } else if have + |p| == size {
        assert rest != [] ==> |Concat(rest)| > 0;
      } else {
        TakenIsShorter(have, size, rest);
      }
    }
  }

  lemma {:induction false} TakenIsShorter(have: nat, size: int, pieces: seq<seq<byte>>)
    ensures |Taken(have, size, pieces)| <= |pieces|
    decreases |pieces|
  {
    if pieces == [] {
    } else {
      TakenIsShorter(have + |pieces[0]|, size, pieces[1..]);
      TakenIsShorter(have, size, pieces[1..]);
    }
  }

  /** A length that the application encodes with SQL_LEN_DATA_AT_EXEC is the size that SQLPutData enforces. */
  lemma DeclaredSizeReturns(n: nat, p: Param)
    requires p.indicator == Some(LenDataAtExec(n))
    ensures ColumnSize(p) == n
  {
  }

  /** The indicators that declare a size: -100 and below their distance to it, -2 the length of the IPD unless zero. */
  lemma DeclaredSizeIs(p: Param)
    requires p.indicator.Some?
    ensures
      var v := p.indicator.value;
      && (v <= -100 ==> ColumnSize(p) == -100 - v)
      && (v == -2 && p.length > 0 ==> ColumnSize(p) == p.length)
      && (ColumnSize(p) == -1 <==> v > -100 && (v == -2 ==> p.length <= 0))
  {
  }

  /** What an accepted call adds: null data, or a Some of no bytes, replaces the buffer; anything else is appended. */
  lemma AcceptedPut(st: State, data: Option<seq<byte>>, len: int)
    requires Asked(st) && Readable(data, len) && PutCheck(st, data, len) == Accepted
    ensures
      var p, after, next := st.params[st.current], Put(st, data, len), st.current;
      var drops := len == -1 || (len == 0 && data.Some?);
      && next in after.params && after.partial && after.current == st.current && after.count == st.count
      && after.params.Keys == st.params.Keys
      && (forall k :: k in st.params && k != next ==> after.params[k] == st.params[k])
      && after.params[next] == p.(buffer := after.params[next].buffer)
      && after.params[next].buffer
         == (if drops then [0, 0, 0, 0] else if data.Some? && len > 0 then p.buffer + data.value[..len] else p.buffer)
      && after.phase == (if !drops && ColumnSize(p) >= 0 && |p.buffer| + len == ColumnSize(p) then NeedsParams
                         else NeedsPutData)
  {
    DeclaredSizeIs(st.params[st.current]);
    if data.None? || len <= 0 {
      NothingAdded(st.params[st.current].buffer);
    }
  }

  /** A call is accepted iff data is wanted for a bound parameter, pointer and length agree, and the data fits. */
  lemma AcceptedIff(st: State, data: Option<seq<byte>>, len: int)
    requires Asked(st)
    ensures PutCheck(st, data, len) == Accepted
      <==> && st.phase == NeedsPutData && st.current <= st.count && st.current in st.params
           && (data.None? ==> len <= 0) && (data.Some? ==> len >= 0 || len == -1 || len == -3)
           && (len != -1 && (len != 0 || data.None?) ==>
                 var p := st.params[st.current];
                 ColumnSize(p) < 0 || |p.buffer| + len <= ColumnSize(p))
  {
    if st.phase == NeedsPutData && st.current in st.params {
      DeclaredSizeIs(st.params[st.current]);
    }
  }

  /** Which error a refused call gets: the checks in the order in which they are met. */
  lemma RefusedWith(st: State, data: Option<seq<byte>>, len: int)
    requires Asked(st)
    ensures
      var o, pointer := PutCheck(st, data, len), data.None? && len > 0;
      && (o == HY009 <==> pointer)
      && (o == HY010 <==> !pointer && st.phase != NeedsPutData)
      && (o == HY000 <==> !pointer && st.phase == NeedsPutData && st.current > st.count)
      && (o == E07002 <==>
            !pointer && st.phase == NeedsPutData && st.current <= st.count && st.current !in st.params)
      && (o == HY090 <==>
            && st.phase == NeedsPutData && st.current <= st.count && st.current in st.params
            && data.Some? && len < 0 && len != -3 && len != -1)
  {
  }

  /** From an empty buffer, under SQL_LEN_DATA_AT_EXEC(n): never more than n bytes, all of the data iff they fit. */
  lemma DeclaredSizeHolds(st: State, n: nat, pieces: seq<seq<byte>>)
    requires Expecting(st) && forall i :: 0 <= i < |pieces| ==> pieces[i] != []
    requires st.params[st.current].indicator == Some(LenDataAtExec(n)) && st.params[st.current].buffer == []
    ensures
      var after := PutAll(st, pieces);
      && st.current in after.params && |after.params[st.current].buffer| <= n
      && (n > 0 ==> (after.phase == NeedsParams <==> |after.params[st.current].buffer| == n))
      && (|Concat(pieces)| <= n ==> after.params[st.current].buffer == Concat(pieces))
  {
    DeclaredSizeReturns(n, st.params[st.current]);
    PutAccumulates(st, pieces);
    TakenFits(0, n, pieces);
    AllTakenIff(0, n, pieces);
    NothingAdded(Concat(Taken(0, n, pieces)));
  }

  /** A refused piece changes nothing, and a null-terminated one is accepted without being stored. */
  lemma RefusedOrIgnored(st: State, data: Option<seq<byte>>, len: int)
    requires Asked(st) && Readable(data, len)
    ensures PutCheck(st, data, len) != Accepted ==> Put(st, data, len) == st
    ensures PutCheck(st, data, len) == Accepted && len == SQL_NTS ==>
              Put(st, data, len).params == st.params && Put(st, data, len).partial
  {
    if PutCheck(st, data, len) == Accepted && len == SQL_NTS {
      var p := st.params[st.current];
      assert p.buffer + [] == p.buffer;
      assert st.params[st.current := p] == st.params;
    }
  }

  /** Null data drops the pieces so far and leaves four zero bytes, behind which later pieces are appended. */
  lemma NullDataLeavesFourZeros(st: State, pieces: seq<seq<byte>>)
    requires Expecting(st) && forall i :: 0 <= i < |pieces| ==> pieces[i] != []
    ensures
      var after := PutAll(Put(st, None, SQL_NULL_DATA), pieces);
      var size := ColumnSize(st.params[st.current]);
      && st.current in after.params
      && after.params[st.current].buffer == Zeros(4) + Concat(Taken(4, size, pieces))
  {
    PutAccumulates(Put(st, None, SQL_NULL_DATA), pieces);
    NothingAdded(Zeros(4));
  }

  // All parameters

  /** The search returns the first parameter that is asked for, and creates only records of unbound parameters. */
  lemma {:induction false} SearchFinds(params: map<nat, Param>, n: nat, count: nat)
    ensures
      var (p, next) := Search(params, n, count);
      && (next.Some? ==> n <= next.value <= count && Wants(params, next.value))
      && (forall k :: n <= k < (if next.Some? then next.value else count + 1) ==> !Wants(params, k))
      && (forall k :: k in params ==> k in p && p[k] == params[k])
      && (forall k :: k in p && k !in params ==> n <= k <= count && p[k] == Param(None, 0, [], 0))
      && (forall k :: n <= k <= (if next.Some? then next.value else count) ==> k in p)
    decreases count + 1 - n
  {
    if n > count || Wants(LookUp(params, n), n) {
    } else {
      assert forall k :: Wants(LookUp(params, n), k) <==> Wants(params, k);
      SearchFinds(LookUp(params, n), n + 1, count);
    }
  }

  /** The parameters behind `current` that are asked for, in order. */
  function WantedAfter(params: map<nat, Param>, current: nat, count: nat): (ns: seq<nat>)
    ensures forall i :: 0 <= i < |ns| ==> current < ns[i] <= count && Wants(params, ns[i])
    ensures forall i, j :: 0 <= i < j < |ns| ==> ns[i] < ns[j]
    ensures forall k :: current < k <= count && Wants(params, k) ==> k in ns
    decreases count - current
  {
    if current >= count then []
    else if Wants(params, current + 1) then [current + 1] + WantedAfter(params, current + 1, count)
    else WantedAfter(params, current + 1, count)
  }

  lemma {:induction false} WantedSkips(params: map<nat, Param>, current: nat, next: nat, count: nat)
    requires current < next <= count + 1 && forall k :: current < k < next ==> !Wants(params, k)
    ensures WantedAfter(params, current, count)
         == if next > count then []
            else if Wants(params, next) then [next] + WantedAfter(params, next, count)
            else WantedAfter(params, next, count)
    decreases next - current
  {
    if next == current + 1 {
    } else {
      WantedSkips(params, current + 1, next, count);
    }
  }

  lemma {:induction false} SameWants(params: map<nat, Param>, params': map<nat, Param>, current: nat, count: nat)
    requires forall k :: Wants(params, k) <==> Wants(params', k)
    ensures WantedAfter(params, current, count) == WantedAfter(params', current, count)
    decreases count - current
  {
    if current >= count {
    } else {
      SameWants(params, params', current + 1, count);
    }
  }

  /** The call is in order: in sequence, and not behind the last parameter. */
  predicate MayContinue(st: State) {
    MayAsk(st) && st.current <= st.count
  }

  /** It finds a parameter to ask for. */
  predicate AsksFor(st: State) {
    MayContinue(st) && Search(st.params, st.current + 1, st.count).1.Some?
  }

  /** SQLParamData moves strictly forward, to the next wanted parameter, or executes when there is none left. */
  lemma AskAdvances(st: State, execute: Executor)
    ensures
      var wanted, a, next := WantedAfter(st.params, st.current, st.count), AskResult(st, execute), AskState(st);
      && (a.NeedData? || a.Executed? <==> MayContinue(st)) && (a.NeedData? <==> AsksFor(st))
      && (a.NeedData? ==> next.current in st.params && a.dataPtr == st.params[next.current].dataPtr)
      && (a.NeedData? ==>
            && st.current < next.current <= st.count && Expecting(next) && !next.partial && next.count == st.count
            && wanted == [next.current] + WantedAfter(st.params, next.current, st.count))
      && (a.Executed? ==>
            && wanted == [] && next == st.(phase := Other, params := next.params) && a.result == execute(next.params))
      && (!MayContinue(st) ==> next == st)
      && (a == SequenceError <==> st.phase != NeedsParams && !st.partial)
      && (a == OutOfBounds <==> (st.phase == NeedsParams || st.partial) && st.current > st.count)
  {
    SearchFinds(st.params, st.current + 1, st.count);
    var next := Search(st.params, st.current + 1, st.count).1;
    if st.current <= st.count {
      WantedSkips(st.params, st.current, if next.Some? then next.value else st.count + 1, st.count);
    }
  }

  /** Looking parameters up creates the records that are missing, and none behind the one that is asked for. */
  lemma AskCreates(st: State)
    requires MayContinue(st)
    ensures
      var next, last := AskState(st), if AsksFor(st) then AskState(st).current else st.count;
      forall k :: k in next.params <==> k in st.params || st.current < k <= last
  {
    SearchFinds(st.params, st.current + 1, st.count);
    SearchStops(st.params, st.current + 1, st.count);
  }

  lemma {:induction false} SearchStops(params: map<nat, Param>, n: nat, count: nat)
    ensures
      var (p, next) := Search(params, n, count);
      next.Some? ==> forall k :: k in p && k !in params ==> k <= next.value
    decreases count + 1 - n
  {
    if n > count || Wants(LookUp(params, n), n) {
    } else {
      SearchStops(LookUp(params, n), n + 1, count);
    }
  }

  /** It may create records of unbound parameters, which are not wanted, and changes none. */
  lemma AskKeepsParams(st: State)
    ensures
      var next := AskState(st);
      && (forall k :: k in st.params ==> k in next.params && next.params[k] == st.params[k])
      && (forall k :: Wants(st.params, k) <==> Wants(next.params, k))
  {
    SearchFinds(st.params, st.current + 1, st.count);
  }

  /** What the application delivers for each parameter; every piece has at least one byte. */
  type Feed = f: nat -> seq<seq<byte>> | forall n, i :: 0 <= i < |f(n)| ==> f(n)[i] != [] witness (n: nat) => []

  /** The state after asking and delivering the pieces for the parameter that is asked for. */
  function Turn(st: State, feed: Feed): State
    requires AsksFor(st)
  {
    PutAll(AskState(st), feed(AskState(st).current))
  }

  /** The pieces of parameter n that are accepted. */
  function Delivered(params: map<nat, Param>, n: nat, feed: Feed): seq<seq<byte>> {
    if Wants(params, n) then Taken(|params[n].buffer|, ColumnSize(params[n]), feed(n)) else []
  }

  /** Each of these parameters gets something. */
  predicate AllFed(params: map<nat, Param>, ns: seq<nat>, feed: Feed) {
    forall i :: 0 <= i < |ns| ==> Delivered(params, ns[i], feed) != []
  }

  /** A turn gives the next wanted parameter the pieces that are accepted. */
  lemma TurnDelivers(st: State, feed: Feed)
    requires AsksFor(st)
    ensures
      var n, after := AskState(st).current, Turn(st, feed);
      && n in after.params && Wants(st.params, n) && Wants(after.params, n)
      && after.params[n].buffer == st.params[n].buffer + Concat(Delivered(st.params, n, feed))
      && (forall k :: k in st.params && k != n ==> k in after.params && after.params[k] == st.params[k])
      && (forall k :: k != n ==> (Wants(st.params, k) <==> Wants(after.params, k)))
  {
    var here := AskState(st);
    AskKeepsParams(st);
    PutAccumulates(here, feed(here.current));
    NothingAdded(st.params[here.current].buffer);
  }

  /** The session can go on iff some piece was accepted. */
  lemma TurnMoves(st: State, feed: Feed)
    requires AsksFor(st)
    ensures
      var n, after := AskState(st).current, Turn(st, feed);
      && st.current < n == after.current <= st.count == after.count
      && (MayContinue(after) <==> Delivered(st.params, n, feed) != [])
      && (MayContinue(after) ==> after.partial)
  {
    var here := AskState(st);
    AskKeepsParams(st);
    PutAccumulates(here, feed(here.current));
  }

  lemma TurnWants(st: State, feed: Feed)
    requires AsksFor(st)
    ensures
      var n, after := AskState(st).current, Turn(st, feed);
      WantedAfter(st.params, st.current, st.count) == [n] + WantedAfter(after.params, n, st.count)
  {
    TurnDelivers(st, feed);
    AskAdvances(st, p => Done);
    SameWants(st.params, Turn(st, feed).params, AskState(st).current, st.count);
  }

  /** What other parameters get is the same before and after a turn. */
  lemma TurnKeepsFeeding(st: State, feed: Feed, k: nat)
    requires AsksFor(st) && k != AskState(st).current
    ensures Delivered(st.params, k, feed) == Delivered(Turn(st, feed).params, k, feed)
  {
    TurnDelivers(st, feed);
  }

  lemma FedFirst(params: map<nat, Param>, n: nat, ns: seq<nat>, feed: Feed)
    ensures AllFed(params, [n] + ns, feed) <==> Delivered(params, n, feed) != [] && AllFed(params, ns, feed)
  {
    var all := [n] + ns;
    assert all[0] == n && forall i :: 0 <= i < |ns| ==> all[i + 1] == ns[i];
    if AllFed(params, all, feed) {
      forall i | 0 <= i < |ns| ensures Delivered(params, ns[i], feed) != [] {
        assert Delivered(params, all[i + 1], feed) != [];
      }
    }
  }

  lemma FedAfterTurn(st: State, feed: Feed)
    requires AsksFor(st)
    ensures
      var n, after := AskState(st).current, Turn(st, feed);
      AllFed(st.params, WantedAfter(st.params, st.current, st.count), feed)
      <==> Delivered(st.params, n, feed) != [] && AllFed(after.params, WantedAfter(after.params, n, st.count), feed)
  {
    var n, after := AskState(st).current, Turn(st, feed);
    var rest := WantedAfter(after.params, n, st.count);
    TurnWants(st, feed);
    FedFirst(st.params, n, rest, feed);
    forall i | 0 <= i < |rest| ensures Delivered(st.params, rest[i], feed) == Delivered(after.params, rest[i], feed) {
      TurnKeepsFeeding(st, feed, rest[i]);
    }
  }

  /** The parameters asked for, the pointers handed out for them, the answer that ended the session, and its state. */
  datatype Outcome = Outcome(asked: seq<nat>, pointers: seq<int>, end: Ask, state: State)

  /** A session: ask, deliver the pieces for that parameter, ask again. */
  function Session(st: State, feed: Feed, execute: Executor): Outcome
    decreases st.count - st.current
  {
    if AsksFor(st) then
      TurnMoves(st, feed);
      var rest := Session(Turn(st, feed), feed, execute);
      rest.(asked := [AskState(st).current] + rest.asked, pointers := [AskResult(st, execute).dataPtr] + rest.pointers)
    else Outcome([], [], AskResult(st, execute), AskState(st))
  }

  /** A session comes to executing iff its first call is in order and every parameter it asks for gets something. */
  lemma {:induction false} SessionExecutesIff(st: State, feed: Feed, execute: Executor)
    ensures Session(st, feed, execute).end.Executed?
      <==> MayContinue(st) && AllFed(st.params, WantedAfter(st.params, st.current, st.count), feed)
    decreases st.count - st.current
  {
    AskAdvances(st, execute);
    if !AsksFor(st) {
    } else {
      TurnMoves(st, feed);
      FedAfterTurn(st, feed);
      SessionExecutesIff(Turn(st, feed), feed, execute);
    }
  }

  /** It asks for wanted parameters in order, skipping none; when it comes to executing it has asked for all. */
  lemma {:induction false} SessionAsksWanted(st: State, feed: Feed, execute: Executor)
    ensures
      var wanted, r := WantedAfter(st.params, st.current, st.count), Session(st, feed, execute);
      r.asked <= wanted && (r.end.Executed? ==> r.asked == wanted)
    decreases st.count - st.current
  {
    AskAdvances(st, execute);
    if !AsksFor(st) {
    } else {
      TurnMoves(st, feed);
      TurnWants(st, feed);
      SessionAsksWanted(Turn(st, feed), feed, execute);
    }
  }

  /** Delivering data leaves the pointer that identifies each parameter to the application. */
  lemma TurnKeepsPointers(st: State, feed: Feed, k: nat)
    requires AsksFor(st) && k in st.params
    ensures k in Turn(st, feed).params && Turn(st, feed).params[k].dataPtr == st.params[k].dataPtr
  {
    var here := AskState(st);
    AskKeepsParams(st);
    PutAccumulates(here, feed(here.current));
  }

  /** The pointers handed out are those bound for the parameters asked for, in order. */
  lemma {:induction false} SessionPointers(st: State, feed: Feed, execute: Executor)
    ensures
      var r := Session(st, feed, execute);
      && |r.pointers| == |r.asked|
      && forall i :: 0 <= i < |r.asked| ==>
           r.asked[i] in st.params && r.pointers[i] == st.params[r.asked[i]].dataPtr
    decreases st.count - st.current
  {
    if AsksFor(st) {
      TurnMoves(st, feed);
      SessionPointers(Turn(st, feed), feed, execute);
      AskAdvances(st, execute);
      LaterPointers(st, feed, execute);
    } else {
    }
  }

  lemma LaterPointers(st: State, feed: Feed, execute: Executor)
    requires AsksFor(st) && Turn(st, feed).current == AskState(st).current > st.current
    requires Turn(st, feed).count == st.count
    ensures
      var rest := Session(Turn(st, feed), feed, execute);
      forall i :: 0 <= i < |rest.asked| ==>
        && rest.asked[i] in st.params && rest.asked[i] in Turn(st, feed).params
        && st.params[rest.asked[i]].dataPtr == Turn(st, feed).params[rest.asked[i]].dataPtr
  {
    var rest := Session(Turn(st, feed), feed, execute);
    forall i | 0 <= i < |rest.asked|
      ensures rest.asked[i] in st.params
      ensures rest.asked[i] in Turn(st, feed).params
      ensures st.params[rest.asked[i]].dataPtr == Turn(st, feed).params[rest.asked[i]].dataPtr
    {
      SessionDelivers(Turn(st, feed), feed, execute, rest.asked[i]);
      TurnDelivers(st, feed);
      TurnKeepsPointers(st, feed, rest.asked[i]);
    }
  }

  lemma WantsNoneBeforeIff(params: map<nat, Param>, current: nat, count: nat)
    ensures WantedAfter(params, current, count) == WantedAfter(params, 0, count)
      <==> forall k :: 0 < k <= current && k <= count ==> !Wants(params, k)
  {
    var all := WantedAfter(params, 0, count);
    if forall k :: 0 < k <= current && k <= count ==> !Wants(params, k) {
      var next := if current <= count then current + 1 else count + 1;
      WantedSkips(params, 0, next, count);
      if current <= count {
        WantedSkips(params, current, next, count);
      }
    }
  }

  /**
   The search starts behind the parameter asked for last. So a session asks for every wanted parameter and executes iff
   it is in order, none is wanted before its start, and each gets something.
   */
  lemma AsksAllIff(st: State, feed: Feed, execute: Executor)
    ensures
      var all, r := WantedAfter(st.params, 0, st.count), Session(st, feed, execute);
      r.asked == all && r.end.Executed?
      <==> MayContinue(st) && (forall k :: 0 < k <= st.current ==> !Wants(st.params, k)) && AllFed(st.params, all, feed)
  {
    SessionExecutesIff(st, feed, execute);
    SessionAsksWanted(st, feed, execute);
    WantsNoneBeforeIff(st.params, st.current, st.count);
  }

  lemma {:induction false} AskedInOrder(st: State, feed: Feed, execute: Executor)
    ensures forall i :: 0 <= i < |Session(st, feed, execute).asked| ==> st.current < Session(st, feed, execute).asked[i]
    decreases st.count - st.current
  {
    if AsksFor(st) {
      TurnMoves(st, feed);
      AskedInOrder(Turn(st, feed), feed, execute);
    } else {
    }
  }

  /** A parameter that is not asked for keeps its record. */
  lemma {:induction false} OthersKept(st: State, feed: Feed, execute: Executor, k: nat)
    requires k in st.params && k !in Session(st, feed, execute).asked
    ensures
      var last := Session(st, feed, execute).state;
      k in last.params && last.params[k] == st.params[k]
    decreases st.count - st.current
  {
    AskKeepsParams(st);
    if AsksFor(st) {
      TurnMoves(st, feed);
      TurnDelivers(st, feed);
      OthersKept(Turn(st, feed), feed, execute, k);
    } else {
    }
  }

  /** One that is asked for ends up with the pieces accepted in this session behind what it held. */
  lemma {:induction false} SessionDelivers(st: State, feed: Feed, execute: Executor, n: nat)
    requires n in Session(st, feed, execute).asked
    ensures
      var last := Session(st, feed, execute).state;
      && Wants(st.params, n) && n in last.params
      && last.params[n].buffer == st.params[n].buffer + Concat(Delivered(st.params, n, feed))
    decreases st.count - st.current
  {
    TurnMoves(st, feed);
    TurnDelivers(st, feed);
    if n == AskState(st).current {
      AskedInOrder(Turn(st, feed), feed, execute);
      OthersKept(Turn(st, feed), feed, execute, n);
    } else {
      TurnKeepsFeeding(st, feed, n);
      SessionDelivers(Turn(st, feed), feed, execute, n);
    }
  }

  /** Nothing resets the position or the flag: what an executed session leaves. */
  lemma {:induction false} ExecutedLeaves(st: State, feed: Feed, execute: Executor)
    requires Session(st, feed, execute).end.Executed?
    ensures
      var r := Session(st, feed, execute);
      && r.end.result == execute(r.state.params) && r.state.phase == Other
      && r.state.current <= r.state.count && WantedAfter(r.state.params, r.state.current, r.state.count) == []
      && (r.state.partial <==> st.partial || r.asked != [])
    decreases st.count - st.current
  {
    AskAdvances(st, execute);
    if AsksFor(st) {
      TurnMoves(st, feed);
      SessionExecutesIff(Turn(st, feed), feed, execute);
      ExecutedLeaves(Turn(st, feed), feed, execute);
    } else {
      AskKeepsParams(st);
      SameWants(st.params, AskState(st).params, st.current, st.count);
    }
  }

  /** So executing a second time asks for none of the parameters, whatever they are bound to. */
  lemma SecondSessionAsksNone(st: State, feed: Feed, execute: Executor, feed': Feed, execute': Executor)
    requires Session(st, feed, execute).end.Executed?
    ensures
      var again := Session(Session(st, feed, execute).state.(phase := NeedsParams), feed', execute');
      again.asked == [] && again.end.Executed?
  {
    ExecutedLeaves(st, feed, execute);
    AskAdvances(Session(st, feed, execute).state.(phase := NeedsParams), execute');
  }

  /** Nor is the flag: one more SQLParamData executes again iff a parameter has been asked for, or the flag was set. */
  lemma AskingAgainExecutesIff(st: State, feed: Feed, execute: Executor, execute': Executor)
    requires Session(st, feed, execute).end.Executed?
    ensures AskResult(Session(st, feed, execute).state, execute').Executed?
      <==> st.partial || Session(st, feed, execute).asked != []
  {
    ExecutedLeaves(st, feed, execute);
    AskAdvances(Session(st, feed, execute).state, execute');
  }

  /** What SQL_DATA_AT_EXEC and SQL_LEN_DATA_AT_EXEC announce. */
  predicate AtExec(p: Param) {
    p.indicator.Some? && (p.indicator.value == SQL_DATA_AT_EXEC || p.indicator.value <= SQL_LEN_DATA_AT_EXEC_OFFSET)
  }

  /** The parameters asked for are those announced iff no other indicator is an ordinary length or SQL_NULL_DATA. */
  lemma AskedAreAnnouncedIff(params: map<nat, Param>, count: nat)
    ensures (forall k :: 0 < k <= count ==> (k in WantedAfter(params, 0, count) <==> k in params && AtExec(params[k])))
      <==> forall k :: 0 < k <= count && k in params && params[k].indicator.Some? ==>
             params[k].indicator.value == SQL_NTS || AtExec(params[k])
  {
    forall k | 0 < k <= count ensures k in WantedAfter(params, 0, count) <==> Wants(params, k) {
      var ns := WantedAfter(params, 0, count);
      if k in ns {
        var i :| 0 <= i < |ns| && ns[i] == k;
      }
    }
    forall k | 0 < k <= count && k in params && AtExec(params[k]) ensures Wants(params, k) {
    }
  }
}
