/** The scoped lock that every API call takes: which mutex it locks for a handle, and what it unlocks on the way out. */
module HandleLocking {
  import opened SqlTypes
  import opened HandleGraph
  import opened HandleLifetimes
  import opened HandleDriver

  const SQL_SUCCESS := 0
  const SQL_NULL_HANDLE := 0
  const SQL_ERROR := -1
  const SQL_INVALID_HANDLE := -2

  /** The driver's own mutex, and the one inside each handle. */
  datatype Mutex = Global | Of(handle: AnyHandle)

  type Thread = nat

  /** What locking comes to; with NoMutex the lock reports success although nothing was locked. */
  datatype Target = Refused | NoMutex | Take(mutex: Mutex)

  datatype LockArgs = LockArgs(handle: AnyHandle, handleType: int, isGlobal: bool)

  predicate NullOrLive(g: Graph, h: AnyHandle) {
    h.Null? || Live(g, h)
  }

  function MutexFor(a: LockArgs): Target {
    if a.handle.Null? then NoMutex
    else if a.isGlobal then Take(Global)
    else if HasType(a.handle, a.handleType) then Take(Of(a.handle))
    else Refused
  }

  /** The handle whose mutex protects the deletion of `h`; None if the type does not fit. */
  function ParentOf(g: Graph, h: AnyHandle, handleType: int): Option<LockArgs>
    requires NullOrLive(g, h) && ImplicitWired(g.stmts, g.descs)
  {
    if h.Null? then Some(LockArgs(Null, handleType, false))
    else if handleType == SQL_HANDLE_ENV then Some(LockArgs(h, handleType, true))
    else if !HasType(h, handleType) then None
    else match h
      case DbcH(c) => Some(LockArgs(EnvH(g.conns[c].env), SQL_HANDLE_ENV, false))
      case StmtH(s) => Some(LockArgs(DbcH(g.stmts[s].conn), SQL_HANDLE_DBC, false))
      case DescH(d) =>
        if d.Implicit? && (d.stmt, d.role) in g.descs[d].assoc then Some(LockArgs(StmtH(d.stmt), SQL_HANDLE_STMT, false))
        else Some(LockArgs(if g.descs[d].conn.Some? then DbcH(g.descs[d].conn.value) else Null, SQL_HANDLE_DBC, false))
  }

  function LockTarget(g: Graph, h: AnyHandle, handleType: int, lockParent: bool): Target
    requires NullOrLive(g, h) && ImplicitWired(g.stmts, g.descs)
  {
    if !lockParent then MutexFor(LockArgs(h, handleType, false))
    else match ParentOf(g, h, handleType)
      case None => Refused
      case Some(a) => MutexFor(a)
  }

  /** Rewrites handle, type and scope to those of the parent. */
  method GetParentHandles(g: Graph, h: AnyHandle, handleType: int, isGlobal: bool) returns (rc: int, a: LockArgs)
    requires NullOrLive(g, h) && ImplicitWired(g.stmts, g.descs) && !isGlobal
    ensures rc == if ParentOf(g, h, handleType).None? then SQL_INVALID_HANDLE else SQL_SUCCESS
    ensures rc == SQL_SUCCESS ==> ParentOf(g, h, handleType) == Some(a)
  {
    a := LockArgs(h, handleType, isGlobal);
    if h.Null? {
      return SQL_NULL_HANDLE, a;
    }
    if handleType == SQL_HANDLE_ENV {
      return SQL_SUCCESS, a.(isGlobal := true);
    }
    if !HasType(h, handleType) {
      return SQL_INVALID_HANDLE, a;
    }
    match h {
      case DbcH(c) => return SQL_SUCCESS, LockArgs(EnvH(g.conns[c].env), SQL_HANDLE_ENV, false);
      case StmtH(s) => return SQL_SUCCESS, LockArgs(DbcH(g.stmts[s].conn), SQL_HANDLE_DBC, false);
      case DescH(d) =>
        var found := FindUser(d, g.descs[d].assoc);
        if found.Some? {
          PairsAreOwn(g, d);
          return SQL_SUCCESS, LockArgs(StmtH(found.value.0), SQL_HANDLE_STMT, false);
        }
        var conn := g.descs[d].conn;
        return SQL_SUCCESS, LockArgs(if conn.Some? then DbcH(conn.value) else Null, SQL_HANDLE_DBC, false);
    }
  }

  /** A user descriptor has the type kApplication, which no pair carries. */
  predicate SameType(d: DescRef, pair: (Addr, Role)) {
    d.Implicit? && d.role == pair.1
  }

  /** The search for an associated statement; the set's order is that of addresses, so any match may come first. */
  method FindUser(d: DescRef, pairs: set<(Addr, Role)>) returns (found: Option<(Addr, Role)>)
    ensures found.Some? ==> found.value in pairs && SameType(d, found.value)
    ensures found.None? ==> forall p :: p in pairs ==> !SameType(d, p)
  {
    var left := pairs;
    while left != {}
      invariant left <= pairs
      invariant forall p :: p in pairs && SameType(d, p) ==> p in left
      decreases left
    {
      var p :| p in left;
      if SameType(d, p) {
        return Some(p);
      }
      left := left - {p};
    }
    return None;
  }

  lemma PairsAreOwn(g: Graph, d: DescRef)
    requires ImplicitWired(g.stmts, g.descs) && d in g.descs && d.Implicit?
    ensures forall p :: p in g.descs[d].assoc && SameType(d, p) ==> p == (d.stmt, d.role)
  {
    assert d == Implicit(d.stmt, d.role);
  }

  /** A call proceeds without any mutex exactly on a null handle, or on a statement's descriptor that nothing uses. */
  lemma UnlockedIff(g: Graph, h: AnyHandle, handleType: int, lockParent: bool)
    requires Wired(g) && NullOrLive(g, h)
    ensures LockTarget(g, h, handleType, lockParent) == NoMutex
      <==> h.Null? || (lockParent && handleType == SQL_HANDLE_DESC && h.DescH? && h.desc.Implicit?
                       && (h.desc.stmt, h.desc.role) !in g.descs[h.desc].assoc && g.descs[h.desc].conn.None?)
  {
    if h.DescH? && h.desc.User? {
      assert h.desc == User(h.desc.addr);
    }
  }

  /** The lock is refused iff the handle is of another type, unless the parent of an environment is asked for. */
  lemma LockRefusedIff(g: Graph, h: AnyHandle, handleType: int, lockParent: bool)
    requires Wired(g) && NullOrLive(g, h)
    ensures LockTarget(g, h, handleType, lockParent) == Refused
      <==> !h.Null? && !HasType(h, handleType) && !(lockParent && handleType == SQL_HANDLE_ENV)
  {
  }

  /** The mutexes taken: the handle's own, or the parent's, which for an environment is the driver's. */
  lemma LocksTaken(g: Graph, h: AnyHandle, handleType: int)
    requires Wired(g) && Live(g, h) && HasType(h, handleType)
    ensures LockTarget(g, h, handleType, false) == Take(Of(h))
    ensures h.EnvH? ==> LockTarget(g, h, handleType, true) == Take(Global)
    ensures h.DbcH? ==> LockTarget(g, h, handleType, true) == Take(Of(EnvH(g.conns[h.conn].env)))
    ensures h.StmtH? ==> LockTarget(g, h, handleType, true) == Take(Of(DbcH(g.stmts[h.stmt].conn)))
    ensures h.DescH? && h.desc.Implicit? && (h.desc.stmt, h.desc.role) in g.descs[h.desc].assoc ==>
              LockTarget(g, h, handleType, true) == Take(Of(StmtH(h.desc.stmt)))
    ensures h.DescH? && h.desc.User? && g.descs[h.desc].conn.Some? ==>
              LockTarget(g, h, handleType, true) == Take(Of(DbcH(g.descs[h.desc].conn.value)))
  {
  }

  class MutexTable {
    var owner: map<Mutex, Thread>

    constructor ()
      ensures owner == map[]
    {
      owner := map[];
    }

    /** The state in which lock() returns: it waits until the mutex has no owner. */
    method Lock(m: Mutex, t: Thread)
      requires m !in owner
      modifies this
      ensures owner == old(owner)[m := t]
    {
      owner := owner[m := t];
    }

    method Unlock(m: Mutex)
      requires m in owner
      modifies this
      ensures owner == old(owner) - {m}
    {
      owner := owner - {m};
    }
  }

  class HandleLock {
    var handle: AnyHandle
    var handleType: int
    var isGlobal: bool
    var locked: bool

    ghost function Held(): Target
      reads this
    {
      if locked then MutexFor(LockArgs(handle, handleType, isGlobal)) else Refused
    }

    constructor (g: Graph, table: MutexTable, t: Thread, h: AnyHandle, handleType: int, lockParent: bool)
      requires NullOrLive(g, h) && ImplicitWired(g.stmts, g.descs)
      requires var want := LockTarget(g, h, handleType, lockParent); want.Take? ==> want.mutex !in table.owner
      modifies table
      ensures Held() == LockTarget(g, h, handleType, lockParent)
      ensures locked <==> Held() != Refused
      ensures table.owner == if Held().Take? then old(table.owner)[Held().mutex := t] else old(table.owner)
    {
      this.handle, this.handleType, this.isGlobal, this.locked := h, handleType, false, false;
      new;
      Acquire(g, table, t, lockParent);
    }

    method Acquire(g: Graph, table: MutexTable, t: Thread, lockParent: bool)
      requires NullOrLive(g, handle) && ImplicitWired(g.stmts, g.descs) && !isGlobal && !locked
      requires var want := LockTarget(g, handle, handleType, lockParent); want.Take? ==> want.mutex !in table.owner
      modifies this, table
      ensures Held() == LockTarget(g, old(handle), old(handleType), lockParent)
      ensures locked <==> Held() != Refused
      ensures table.owner == if Held().Take? then old(table.owner)[Held().mutex := t] else old(table.owner)
    {
      if lockParent {
        var result, a := GetParentHandles(g, handle, handleType, isGlobal);
        handle, handleType, isGlobal := a.handle, a.handleType, a.isGlobal;
        if result != SQL_SUCCESS {
          return;
        }
      }
      var result := AcquireHandleMutex(table, t);
      if result == SQL_SUCCESS {
        locked := true;
      }
    }

    method AcquireHandleMutex(table: MutexTable, t: Thread) returns (rc: int)
      requires var want := MutexFor(LockArgs(handle, handleType, isGlobal)); want.Take? ==> want.mutex !in table.owner
      modifies table
      ensures var want := MutexFor(LockArgs(handle, handleType, isGlobal));
              && rc == (if want.Refused? then SQL_INVALID_HANDLE else SQL_SUCCESS)
              && table.owner == if want.Take? then old(table.owner)[want.mutex := t] else old(table.owner)
    {
      if handle.Null? {
        return SQL_NULL_HANDLE;
      }
      if isGlobal {
        table.Lock(Global, t);
        return SQL_SUCCESS;
      }
      if !HasType(handle, handleType) {
        return SQL_INVALID_HANDLE;
      }
      table.Lock(Of(handle), t);
      return SQL_SUCCESS;
    }

    /** Unlocks the mutex that this lock holds, and no other. */
    method Release(table: MutexTable)
      requires locked ==> Held() != Refused
      requires Held().Take? ==> Held().mutex in table.owner
      modifies this, table
      ensures !locked
      ensures table.owner == if old(Held()).Take? then old(table.owner) - {old(Held()).mutex} else old(table.owner)
    {
      if locked {
        ReleaseHandleMutex(table);
        locked := false;
      }
    }

    method ReleaseHandleMutex(table: MutexTable)
      requires locked && (Held().Take? ==> Held().mutex in table.owner)
      requires Held() != Refused
      modifies table
      ensures table.owner == if Held().Take? then old(table.owner) - {Held().mutex} else old(table.owner)
    {
      if handle.Null? {
        return;
      }
      if isGlobal {
        table.Unlock(Global);
        return;
      }
      table.Unlock(Of(handle));
    }
  }

  /** SQLFreeHandle: holds the parent's mutex over the deletion, which the parent survives. */
  method SQLFreeHandle(driver: Driver, table: MutexTable, t: Thread, handleType: int, h: AnyHandle) returns (rc: int)
    requires Wired(driver.g) && NullOrLive(driver.g, h) && !(h.DescH? && h.desc.Implicit?)
    requires Live(driver.g, h) ==> Freeable(driver.g, h)
    requires var want := LockTarget(driver.g, h, handleType, true); want.Take? ==> want.mutex !in table.owner
    modifies driver, table
    ensures table.owner == old(table.owner)
    ensures driver.g == (if HasType(h, handleType) then Free(old(driver.g), h) else old(driver.g)) && Wired(driver.g)
    ensures rc == if HasType(h, handleType) then SQL_SUCCESS
                  else if h.Null? || handleType == SQL_HANDLE_ENV then SQL_INVALID_HANDLE else SQL_ERROR
  {
    var lock := new HandleLock(driver.g, table, t, h, handleType, true);
    if !lock.locked {
      return SQL_ERROR;
    }
    ghost var before := driver.g;
    var result := driver.SQLFreeHandleInternal(handleType, h);
    if HasType(h, handleType) {
      FreeKeeps(before, h);
      ParentSurvives(before, h, handleType);
    }
    lock.Release(table);
    rc := if result == Success then SQL_SUCCESS else SQL_INVALID_HANDLE;
  }

  predicate MutexLive(g: Graph, m: Mutex) {
    m.Global? || Live(g, m.handle)
  }

  /** Whether a handle lists another in the set that freeing it erases it from. */
  predicate Lists(g: Graph, parent: AnyHandle, h: AnyHandle) {
    match (parent, h)
    case (EnvH(e), DbcH(c)) => e in g.envs && c in g.envs[e].conns
    case (DbcH(c), StmtH(s)) => c in g.conns && s in g.conns[c].stmts
    case (DbcH(c), DescH(User(a))) => c in g.conns && a in g.conns[c].descs
    case _ => false
  }

  /** The mutex held across a deletion is the global one, or that of the parent that lists the handle, which stays live. */
  lemma ParentSurvives(g: Graph, h: AnyHandle, handleType: int)
    requires Wired(g) && Live(g, h) && HasType(h, handleType) && !(h.DescH? && h.desc.Implicit?)
    ensures
      var want := LockTarget(g, h, handleType, true);
      && want.Take? && want.mutex != Of(h)
      && MutexLive(g, want.mutex) && MutexLive(Free(g, h), want.mutex)
      && (want.mutex.Global? <==> h.EnvH?) && (want.mutex.Of? ==> Lists(g, want.mutex.handle, h))
  {
    if h.DescH? {
      assert h.desc == User(h.desc.addr);
    }
  }
}
