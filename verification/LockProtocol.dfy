/** Any number of threads making API calls: a transition system in which lock() blocks until the mutex is free. */
module LockProtocol {
  import opened SqlTypes
  import opened HandleGraph
  import opened HandleLifetimes
  import opened HandleDriver
  import opened HandleLocking

  /** A call that changes the handle graph, or any other call on a handle. */
  datatype Request = Alter(op: Op) | Use(handle: AnyHandle, handleType: int)

  /** Where a thread is: between calls, inside lock(), in the body of a call, or on the way out. */
  datatype Place =
    | Idle
    | Waiting(req: Request, mutex: Mutex)
    | Inside(req: Request, held: Option<Mutex>)
    | Leaving(held: Option<Mutex>)

  datatype State = State(g: Graph, owner: map<Mutex, Thread>, at: seq<Place>)

  datatype Step =
    | Enter(t: Thread, req: Request)  // resolve the handle; afterwards wait for its mutex
    | Grant(t: Thread)                // lock() returns
    | Act(t: Thread)                  // the body of the call
    | Exit(t: Thread)                 // the scoped lock is released

  function TypeOf(h: AnyHandle): int {
    match h
    case Null => 0
    case EnvH(_) => SQL_HANDLE_ENV
    case DbcH(_) => SQL_HANDLE_DBC
    case StmtH(_) => SQL_HANDLE_STMT
    case DescH(_) => SQL_HANDLE_DESC
  }

  /** The handle that a call names. */
  function Subject(req: Request): AnyHandle {
    match req
    case Use(h, _) => h
    case Alter(AllocEnv(_)) => Null
    case Alter(AllocConn(e, _)) => EnvH(e)
    case Alter(AllocStmt(c, _)) => DbcH(c)
    case Alter(AllocDesc(c, _)) => DbcH(c)
    case Alter(Connect(c)) => DbcH(c)
    case Alter(Work(s, _, _)) => StmtH(s)
    case Alter(EndConn(c, _, _)) => DbcH(c)
    case Alter(EndEnv(e, _, _)) => EnvH(e)
    case Alter(SetDescriptor(s, _, _)) => StmtH(s)
    case Alter(FreeHandle(h)) => h
    case Alter(Disconnect(c)) => DbcH(c)
  }

  /** What each API function passes to its lock. */
  function Wanted(g: Graph, req: Request): Target
    requires ImplicitWired(g.stmts, g.descs) && NullOrLive(g, Subject(req))
  {
    match req
    case Use(h, handleType) => LockTarget(g, h, handleType, false)
    case Alter(AllocEnv(_)) => LockTarget(g, Null, SQL_HANDLE_ENV, true)
    case Alter(FreeHandle(h)) => LockTarget(g, h, TypeOf(h), true)
    case Alter(_) => LockTarget(g, Subject(req), TypeOf(Subject(req)), false)
  }

  function MutexAt(p: Place): Option<Mutex> {
    match p case Inside(_, m) => m case Leaving(m) => m case _ => None
  }

  // The transition system

  ghost predicate Enabled(st: State, step: Step) {
    && step.t < |st.at|
    && match step
       case Enter(t, req) => st.at[t] == Idle && ImplicitWired(st.g.stmts, st.g.descs) && NullOrLive(st.g, Subject(req))
       case Grant(t) => st.at[t].Waiting? && st.at[t].mutex !in st.owner
       case Act(t) => st.at[t].Inside?
       case Exit(t) => st.at[t].Leaving? && (st.at[t].held.Some? ==> st.at[t].held.value in st.owner)
  }

  function Next(st: State, step: Step): State
    requires Enabled(st, step)
  {
    match step
    case Enter(t, req) =>
      st.(at := st.at[t := match Wanted(st.g, req)
                           case Refused => Idle
                           case NoMutex => Inside(req, None)
                           case Take(m) => Waiting(req, m)])
    case Grant(t) =>
      var m := st.at[t].mutex;
      st.(owner := st.owner[m := t], at := st.at[t := Inside(st.at[t].req, Some(m))])
    case Act(t) =>
      st.(g := Effect(st.g, st.at[t].req), at := st.at[t := Leaving(st.at[t].held)])
    case Exit(t) =>
      st.(owner := if st.at[t].held.Some? then st.owner - {st.at[t].held.value} else st.owner, at := st.at[t := Idle])
  }

  function Effect(g: Graph, req: Request): Graph {
    if req.Alter? then Apply(g, req.op) else g
  }

  /** The body of a call is its operation on the graph, while mutexes and other threads stay as they are. */
  lemma BodyApplies(st: State, t: Thread, op: Op)
    requires Enabled(st, Act(t)) && st.at[t].req == Alter(op)
    ensures Next(st, Act(t)) == State(Apply(st.g, op), st.owner, st.at[t := Leaving(st.at[t].held)])
  {
  }

  // What the application owes

  /** Whether an operation deletes a handle. */
  predicate Deletes(g: Graph, op: Op, h: AnyHandle) {
    match op
    case FreeHandle(EnvH(e)) => h == EnvH(e)
    case FreeHandle(DbcH(c)) => h == DbcH(c)
    case FreeHandle(StmtH(s)) => h == StmtH(s) || (h.DescH? && h.desc.Implicit? && h.desc.stmt == s)
    case FreeHandle(DescH(User(a))) => h == DescH(User(a))
    case Disconnect(c) =>
      && c in g.conns && g.conns[c].connected && !g.conns[c].inTransaction
      && match h {
        case StmtH(s) => s in g.conns[c].stmts
        case DescH(User(a)) => a in g.conns[c].descs
        case DescH(Implicit(s, _)) => s in g.conns[c].stmts
        case _ => false
      }
    case _ => false
  }

  predicate Creates(g: Graph, op: Op, h: AnyHandle) {
    match op
    case AllocEnv(a) => h == EnvH(a)
    case AllocConn(e, a) => e in g.envs && h == DbcH(a)
    case AllocStmt(c, a) =>
      && c in g.conns && g.conns[c].connected
      && (h == StmtH(a) || (h.DescH? && h.desc.Implicit? && h.desc.stmt == a))
    case AllocDesc(c, a) => c in g.conns && g.conns[c].connected && h == DescH(User(a))
    case _ => false
  }

  /** The handle a place still needs, and the handle whose mutex it needs. */
  predicate RefersTo(p: Place, h: AnyHandle) {
    match p
    case Idle => false
    case Waiting(req, m) => Subject(req) == h || m == Of(h)
    case Inside(req, m) => Subject(req) == h || m == Some(Of(h))
    case Leaving(m) => m == Some(Of(h))
  }

  /** No other call in flight concerns a handle that the body of `t`'s call is about to delete. */
  ghost predicate Quiet(st: State, t: Thread)
    requires t < |st.at| && st.at[t].Inside?
  {
    st.at[t].req.Alter? ==>
      forall u, h :: 0 <= u < |st.at| && u != t && Deletes(st.g, st.at[t].req.op, h) ==> !RefersTo(st.at[u], h)
  }

  ghost predicate Allowed(st: State, step: Step) {
    && Enabled(st, step)
    && match step
       case Enter(_, req) => req.Alter? && req.op.FreeHandle? ==> !(req.op.handle.DescH? && req.op.handle.desc.Implicit?)
       case Act(t) => Quiet(st, t) && (st.at[t].req.Alter? ==> Proper(st.g, st.at[t].req.op))
       case _ => true
  }

  // The invariant

  /** A mutex is owned by a thread iff that thread is in the body of a call that locked it. */
  ghost predicate OwnersExact(st: State) {
    && (forall m :: m in st.owner ==> st.owner[m] < |st.at| && MutexAt(st.at[st.owner[m]]) == Some(m))
    && (forall t :: 0 <= t < |st.at| && MutexAt(st.at[t]).Some? ==>
          MutexAt(st.at[t]).value in st.owner && st.owner[MutexAt(st.at[t]).value] == t)
  }

  predicate RefsLive(g: Graph, p: Place) {
    match p
    case Idle => true
    case Waiting(req, m) => NullOrLive(g, Subject(req)) && MutexLive(g, m)
    case Inside(req, m) => NullOrLive(g, Subject(req)) && (m.Some? ==> MutexLive(g, m.value))
    case Leaving(m) => m.Some? ==> MutexLive(g, m.value)
  }

  /** A thread waits for, or holds, the very mutex that its call asks for. */
  ghost predicate Matched(g: Graph, p: Place)
    requires ImplicitWired(g.stmts, g.descs) && RefsLive(g, p)
  {
    match p
    case Waiting(req, m) => Wanted(g, req) == Take(m) && FreesNoImplicit(req)
    case Inside(req, held) => Wanted(g, req) == (if held.Some? then Take(held.value) else NoMutex) && FreesNoImplicit(req)
    case _ => true
  }

  predicate FreesNoImplicit(req: Request) {
    req.Alter? && req.op.FreeHandle? ==> !(req.op.handle.DescH? && req.op.handle.desc.Implicit?)
  }

  ghost predicate PlacesValid(g: Graph, at: seq<Place>)
    requires ImplicitWired(g.stmts, g.descs)
  {
    forall t :: 0 <= t < |at| ==> RefsLive(g, at[t]) && Matched(g, at[t])
  }

  ghost predicate Inv(st: State) {
    Wired(st.g) && Settled(st.g) && OwnersExact(st) && PlacesValid(st.g, st.at)
  }

  /** A handle is live after an operation iff it was and is not deleted, or is created. */
  lemma LiveAfter(g: Graph, op: Op, h: AnyHandle)
    ensures Live(Apply(g, op), h) <==> (Live(g, h) && !Deletes(g, op, h)) || Creates(g, op, h)
  {
    match op
    case FreeHandle(x) => LiveAfterFree(g, x, h);
    case Disconnect(c) => LiveAfterDisconnect(g, c, h);
    case _ =>
  }

  lemma LiveAfterFree(g: Graph, x: AnyHandle, h: AnyHandle)
    ensures Live(Free(g, x), h) <==> Live(g, h) && !Deletes(g, FreeHandle(x), h)
  {
  }

  lemma LiveAfterDisconnect(g: Graph, c: Addr, h: AnyHandle)
    ensures Live(Apply(g, Disconnect(c)), h) <==> Live(g, h) && !Deletes(g, Disconnect(c), h)
  {
  }

  /** Handles that survive keep their parents. */
  lemma ParentsStay(g: Graph, op: Op, h: AnyHandle)
    requires Wired(g) && Settled(g) && Proper(g, op) && Live(g, h) && !(h.DescH? && h.desc.Implicit?)
    requires !Deletes(g, op, h)
    ensures Wired(Apply(g, op)) && Live(Apply(g, op), h)
    ensures ParentOf(Apply(g, op), h, TypeOf(h)) == ParentOf(g, h, TypeOf(h))
  {
    LiveAfter(g, op, h);
    ApplyKeepsWired(g, op);
    BackLinksStay(g, op, h);
  }

  lemma BackLinksStay(g: Graph, op: Op, h: AnyHandle)
    requires Proper(g, op) && Live(g, h) && Live(Apply(g, op), h) && !Creates(g, op, h)
    ensures h.DbcH? ==> Apply(g, op).conns[h.conn].env == g.conns[h.conn].env
    ensures h.StmtH? ==> Apply(g, op).stmts[h.stmt].conn == g.stmts[h.stmt].conn
    ensures h.DescH? && h.desc.User? ==> Apply(g, op).descs[h.desc].conn == g.descs[h.desc].conn
  {
    if op.Disconnect? && op.conn in g.conns {
      DisconnectedShape(g, op.conn);
    }
  }

  // Mutexes: no assumption about the application

  lemma StepKeepsOwners(st: State, step: Step)
    requires OwnersExact(st) && Enabled(st, step)
    ensures OwnersExact(Next(st, step)) && |Next(st, step).at| == |st.at|
  {
  }

  ghost predicate EnabledRun(st: State, steps: seq<Step>)
    decreases |steps|
  {
    steps == [] || (Enabled(st, steps[0]) && EnabledRun(Next(st, steps[0]), steps[1..]))
  }

  ghost function Run(st: State, steps: seq<Step>): State
    requires EnabledRun(st, steps)
    decreases |steps|
  {
    if steps == [] then st else Run(Next(st, steps[0]), steps[1..])
  }

  /** In every interleaving a mutex has one owner, the one that locked it; no thread holds two or waits while holding. */
  lemma {:induction false} RunKeepsOwners(st: State, steps: seq<Step>)
    requires OwnersExact(st) && EnabledRun(st, steps)
    ensures OwnersExact(Run(st, steps))
    ensures |Run(st, steps).at| == |st.at|
    decreases |steps|
  {
    if steps == [] {
    } else {
      StepKeepsOwners(st, steps[0]);
      RunKeepsOwners(Next(st, steps[0]), steps[1..]);
    }
  }

  /** The steps of `t` from the moment its lock() returned up to, and not including, its release. */
  predicate InBody(steps: seq<Step>, t: Thread) {
    forall i :: 0 <= i < |steps| && steps[i].t == t ==> steps[i].Act?
  }

  /** From the return of lock() to the release no other thread can own the mutex, and the release frees that one alone. */
  lemma {:induction false} KeepsUntilExit(st: State, t: Thread, steps: seq<Step>)
    requires OwnersExact(st) && EnabledRun(st, steps) && InBody(steps, t)
    requires t < |st.at| && MutexAt(st.at[t]).Some?
    ensures
      var last := Run(st, steps);
      var m := MutexAt(st.at[t]).value;
      && t < |last.at| && MutexAt(last.at[t]) == Some(m) && m in last.owner && last.owner[m] == t
      && (Enabled(last, Exit(t)) ==> Next(last, Exit(t)).owner == last.owner - {m})
    decreases |steps|
  {
    if steps == [] {
    } else {
      StepKeepsOwners(st, steps[0]);
      KeepsUntilExit(Next(st, steps[0]), t, steps[1..]);
    }
  }

  // No deadlock

  function Remaining(p: Place): nat {
    match p case Idle => 0 case Waiting(_, _) => 3 case Inside(_, _) => 2 case Leaving(_) => 1
  }

  function Work(at: seq<Place>): nat {
    if at == [] then 0 else Remaining(at[0]) + Work(at[1..])
  }

  lemma {:induction false} WorkAfter(at: seq<Place>, t: nat, p: Place)
    requires t < |at|
    ensures Work(at[t := p]) == Work(at) - Remaining(at[t]) + Remaining(p)
  {
    if t == 0 {
      assert at[0 := p][1..] == at[1..];
    } else {
      assert at[t := p][1..] == at[1..][t - 1 := p];
      WorkAfter(at[1..], t - 1, p);
    }
  }

  lemma {:induction false} NoWorkIffIdle(at: seq<Place>)
    ensures Work(at) == 0 <==> forall t :: 0 <= t < |at| ==> at[t] == Idle
  {
    if at == [] {
    } else {
      NoWorkIffIdle(at[1..]);
      assert (forall t :: 0 <= t < |at[1..]| ==> at[1..][t] == Idle)
        ==> forall t :: 1 <= t < |at| ==> at[t] == at[1..][t - 1];
    }
  }

  /** A thread that waits is waiting for one that can go on: there is no cycle of waiting threads. */
  lemma OwnerCanStep(st: State, t: Thread)
    requires OwnersExact(st) && t < |st.at| && st.at[t].Waiting?
    ensures
      var m := st.at[t].mutex;
      Enabled(st, Grant(t)) || (m in st.owner && (Enabled(st, Act(st.owner[m])) || Enabled(st, Exit(st.owner[m]))))
  {
  }

  /** Some call in flight can take a step of its own. */
  lemma SomeStep(st: State) returns (step: Step)
    requires OwnersExact(st) && Work(st.at) > 0
    ensures Enabled(st, step) && !step.Enter?
  {
    NoWorkIffIdle(st.at);
    var t :| 0 <= t < |st.at| && st.at[t] != Idle;
    match st.at[t]
    case Waiting(_, m) =>
      OwnerCanStep(st, t);
      step := if m !in st.owner then Grant(t)
              else if st.at[st.owner[m]].Inside? then Act(st.owner[m]) else Exit(st.owner[m]);
    case Inside(_, _) => step := Act(t);
    case Leaving(_) => step := Exit(t);
  }

  /** With no new calls every run is finite, and it can only stop with all threads back and every mutex free. */
  lemma {:induction false} CallsComplete(st: State, steps: seq<Step>)
    requires OwnersExact(st) && EnabledRun(st, steps) && forall i :: 0 <= i < |steps| ==> !steps[i].Enter?
    ensures |steps| + Work(Run(st, steps).at) == Work(st.at)
    ensures |steps| == Work(st.at) <==> forall step :: Enabled(Run(st, steps), step) ==> step.Enter?
    ensures |steps| == Work(st.at) ==> Run(st, steps).owner == map[]
    decreases |steps|
  {
    if steps == [] {
      NoWorkIffIdle(st.at);
      if Work(st.at) > 0 {
        var _ := SomeStep(st);
      }
    } else {
      var next := Next(st, steps[0]);
      StepKeepsOwners(st, steps[0]);
      WorkAfter(st.at, steps[0].t, next.at[steps[0].t]);
      CallsComplete(next, steps[1..]);
    }
  }

  // Handles: given what the application owes

  lemma OwnTargetLive(g: Graph, req: Request)
    requires Wired(g) && NullOrLive(g, Subject(req)) && FreesNoImplicit(req) && Wanted(g, req).Take?
    ensures MutexLive(g, Wanted(g, req).mutex)
  {
    if req.Alter? && req.op.FreeHandle? && !req.op.handle.Null? {
      ParentSurvives(g, req.op.handle, TypeOf(req.op.handle));
    }
  }

  lemma WantedStays(g: Graph, op: Op, req: Request)
    requires Wired(g) && Settled(g) && Proper(g, op) && NullOrLive(g, Subject(req)) && FreesNoImplicit(req)
    requires forall h :: Deletes(g, op, h) ==> Subject(req) != h
    ensures Wired(Apply(g, op)) && NullOrLive(Apply(g, op), Subject(req)) && Wanted(Apply(g, op), req) == Wanted(g, req)
  {
    ApplyKeepsWired(g, op);
    LiveAfter(g, op, Subject(req));
    if req.Alter? && req.op.FreeHandle? && !req.op.handle.Null? {
      ParentsStay(g, op, req.op.handle);
    }
  }

  lemma PlaceStays(g: Graph, op: Op, p: Place)
    requires Wired(g) && Settled(g) && Proper(g, op) && RefsLive(g, p) && Matched(g, p)
    requires forall h :: Deletes(g, op, h) ==> !RefersTo(p, h)
    ensures Wired(Apply(g, op)) && RefsLive(Apply(g, op), p) && Matched(Apply(g, op), p)
  {
    ApplyKeepsWired(g, op);
    var h := Apply(g, op);
    if p.Waiting? || p.Inside? {
      WantedStays(g, op, p.req);
    }
    if p.Waiting? {
      MutexStays(g, op, p.mutex);
    } else if MutexAt(p).Some? {
      MutexStays(g, op, MutexAt(p).value);
    }
  }

  lemma MutexStays(g: Graph, op: Op, m: Mutex)
    requires MutexLive(g, m) && (m.Of? ==> !Deletes(g, op, m.handle))
    ensures MutexLive(Apply(g, op), m)
  {
    if m.Of? {
      LiveAfter(g, op, m.handle);
    }
  }

  /** The body of a call never deletes the handle whose mutex it holds. */
  lemma OwnMutexStays(g: Graph, req: Request, m: Mutex)
    requires Wired(g) && NullOrLive(g, Subject(req)) && FreesNoImplicit(req) && Wanted(g, req) == Take(m)
    ensures MutexLive(Effect(g, req), m)
  {
    OwnTargetLive(g, req);
    if req.Alter? {
      if req.op.FreeHandle? {
        ParentSurvives(g, req.op.handle, TypeOf(req.op.handle));
      } else {
        MutexStays(g, req.op, m);
      }
    }
  }

  lemma ActKeepsPlaces(st: State, t: Thread)
    requires Inv(st) && Allowed(st, Act(t))
    ensures Wired(Next(st, Act(t)).g) && PlacesValid(Next(st, Act(t)).g, Next(st, Act(t)).at)
  {
    var req, next := st.at[t].req, Next(st, Act(t));
    if req.Alter? {
      ApplyKeepsWired(st.g, req.op);
    }
    forall u | 0 <= u < |next.at| ensures RefsLive(next.g, next.at[u]) && Matched(next.g, next.at[u]) {
      if u == t {
        if st.at[t].held.Some? {
          OwnMutexStays(st.g, req, st.at[t].held.value);
        }
      } else if req.Alter? {
        PlaceStays(st.g, req.op, st.at[u]);
      }
    }
  }

  lemma StepKeepsInv(st: State, step: Step)
    requires Inv(st) && Allowed(st, step)
    ensures Inv(Next(st, step))
  {
    StepKeepsOwners(st, step);
    match step
    case Enter(t, req) =>
      if Wanted(st.g, req).Take? {
        OwnTargetLive(st.g, req);
      }
    case Act(t) =>
      ActKeepsPlaces(st, t);
      if st.at[t].req.Alter? {
        ApplyKeepsSettled(st.g, st.at[t].req.op);
      }
    case _ =>
  }

  ghost predicate AllowedRun(st: State, steps: seq<Step>)
    decreases |steps|
  {
    steps == [] || (Allowed(st, steps[0]) && AllowedRun(Next(st, steps[0]), steps[1..]))
  }

  /** In every interleaving whose deletions leave calls in flight alone, no call touches a freed handle or its mutex. */
  lemma {:induction false} RunKeepsInv(st: State, steps: seq<Step>)
    requires Inv(st) && AllowedRun(st, steps)
    ensures EnabledRun(st, steps) && Inv(Run(st, steps))
    decreases |steps|
  {
    if steps == [] {
    } else {
      StepKeepsInv(st, steps[0]);
      RunKeepsInv(Next(st, steps[0]), steps[1..]);
    }
  }

  /** The parent's mutex alone does not protect a deletion: other calls stay safe iff none concerns what is deleted. */
  lemma ActIsSafeIff(st: State, t: Thread)
    requires Inv(st) && t < |st.at| && st.at[t].Inside? && st.at[t].req.Alter? && Proper(st.g, st.at[t].req.op)
    ensures (forall u :: 0 <= u < |st.at| && u != t ==> RefsLive(Next(st, Act(t)).g, st.at[u])) <==> Quiet(st, t)
  {
    var op := st.at[t].req.op;
    if Quiet(st, t) {
      ActKeepsPlaces(st, t);
      forall u | 0 <= u < |st.at| && u != t ensures RefsLive(Next(st, Act(t)).g, st.at[u]) {
        assert Next(st, Act(t)).at[u] == st.at[u];
      }
    } else {
      var u, h :| 0 <= u < |st.at| && u != t && Deletes(st.g, op, h) && RefersTo(st.at[u], h);
      DeletedIsDangling(st.g, op, st.at[u], h);
    }
  }

  lemma DeletedIsDangling(g: Graph, op: Op, p: Place, h: AnyHandle)
    requires Deletes(g, op, h) && RefersTo(p, h) && (op.FreeHandle? ==> !op.handle.Null?)
    ensures !RefsLive(Apply(g, op), p)
  {
    LiveAfter(g, op, h);
  }

  // Which calls exclude one another

  /** Two threads are inside their calls together only if the calls ask for different mutexes, or for none. */
  lemma InsideTogether(st: State, t: Thread, u: Thread)
    requires Inv(st) && t < |st.at| && u < |st.at| && t != u && st.at[t].Inside? && st.at[u].Inside?
    ensures Wanted(st.g, st.at[t].req) != Wanted(st.g, st.at[u].req) || Wanted(st.g, st.at[t].req) == NoMutex
  {
  }

  /** A run that takes two threads into their calls, before any call in flight does its work. */
  ghost predicate BringsIn(st: State, steps: seq<Step>, t: Thread, r: Request, u: Thread, q: Request) {
    && AllowedRun(st, steps) && EnabledRun(st, steps)
    && (forall i :: 0 <= i < |steps| ==> !steps[i].Act?)
    && var last := Run(st, steps);
       && t < |last.at| && last.at[t].Inside? && last.at[t].req == r
       && u < |last.at| && last.at[u].Inside? && last.at[u].req == q
  }

  lemma {:induction false} NoActKeepsGraph(st: State, steps: seq<Step>)
    requires EnabledRun(st, steps) && forall i :: 0 <= i < |steps| ==> !steps[i].Act?
    ensures Run(st, steps).g == st.g
    decreases |steps|
  {
    if steps == [] {
    } else {
      NoActKeepsGraph(Next(st, steps[0]), steps[1..]);
    }
  }

  /** From rest, two calls can be under way at once iff they do not ask for the same mutex. */
  lemma TogetherIff(st: State, t: Thread, r: Request, u: Thread, q: Request)
    requires Inv(st) && st.owner == map[] && t != u && Allowed(st, Enter(t, r)) && Allowed(st, Enter(u, q))
    requires Wanted(st.g, r) != Refused && Wanted(st.g, q) != Refused
    ensures (exists steps :: BringsIn(st, steps, t, r, u, q))
      <==> Wanted(st.g, r) != Wanted(st.g, q) || Wanted(st.g, r) == NoMutex
  {
    forall steps | BringsIn(st, steps, t, r, u, q)
      ensures Wanted(st.g, r) != Wanted(st.g, q) || Wanted(st.g, r) == NoMutex
    {
      RunKeepsInv(st, steps);
      NoActKeepsGraph(st, steps);
      InsideTogether(Run(st, steps), t, u);
    }
    if Wanted(st.g, r) != Wanted(st.g, q) || Wanted(st.g, r) == NoMutex {
      var first := Going(st, t, r);
      var mid := Run(st, first);
      var second := Going(mid, u, q);
      RunsJoin(st, first, second);
      assert BringsIn(st, first + second, t, r, u, q);
    }
  }

  /** The steps of a thread that finds its mutex free. */
  lemma Going(st: State, t: Thread, req: Request) returns (steps: seq<Step>)
    requires Allowed(st, Enter(t, req)) && Wanted(st.g, req) != Refused
    requires Wanted(st.g, req).Take? ==> Wanted(st.g, req).mutex !in st.owner
    ensures AllowedRun(st, steps) && EnabledRun(st, steps) && forall i :: 0 <= i < |steps| ==> !steps[i].Act?
    ensures
      var last := Run(st, steps);
      && last.g == st.g && t < |last.at| && last.at == st.at[t := last.at[t]]
      && last.at[t].Inside? && last.at[t].req == req
      && last.owner == if Wanted(st.g, req).Take? then st.owner[Wanted(st.g, req).mutex := t] else st.owner
  {
    var next := Next(st, Enter(t, req));
    if Wanted(st.g, req).Take? {
      steps := [Enter(t, req), Grant(t)];
      assert steps[1..] == [Grant(t)];
      OneStep(next, Grant(t));
    } else {
      steps := [Enter(t, req)];
      OneStep(st, Enter(t, req));
    }
  }

  lemma OneStep(st: State, step: Step)
    requires Allowed(st, step)
    ensures AllowedRun(st, [step]) && EnabledRun(st, [step]) && Run(st, [step]) == Next(st, step)
  {
    assert [step][1..] == [];
  }

  lemma {:induction false} RunsJoin(st: State, first: seq<Step>, second: seq<Step>)
    requires AllowedRun(st, first) && EnabledRun(st, first)
    requires AllowedRun(Run(st, first), second) && EnabledRun(Run(st, first), second)
    ensures AllowedRun(st, first + second) && EnabledRun(st, first + second)
    ensures Run(st, first + second) == Run(Run(st, first), second)
    decreases |first|
  {
    if first == [] {
      assert first + second == second;
    } else {
      assert (first + second)[1..] == first[1..] + second;
      RunsJoin(Next(st, first[0]), first[1..], second);
    }
  }

  /**
   Allocating an environment asks for no mutex at all: two such calls can always be under way together, although the
   comment on the call says that the driver's own mutex serialises them.
   */
  lemma EnvironmentAllocationsOverlap(st: State, t: Thread, a: Addr, u: Thread, b: Addr)
    requires Inv(st) && st.owner == map[] && t < |st.at| && u < |st.at| && t != u && st.at[t] == Idle && st.at[u] == Idle
    ensures exists steps :: BringsIn(st, steps, t, Alter(AllocEnv(a)), u, Alter(AllocEnv(b)))
  {
    TogetherIff(st, t, Alter(AllocEnv(a)), u, Alter(AllocEnv(b)));
  }
}
