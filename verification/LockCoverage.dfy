/** What the body of a call writes, and which calls that hold different mutexes write a common handle. */
module LockCoverage {
  import opened SqlTypes
  import opened HandleGraph
  import opened HandleLifetimes
  import opened HandleDriver
  import opened HandleLocking
  import opened LockProtocol

  predicate InSlot(st: Statement, d: DescRef) {
    st.Slot(ARD) == Some(d) || st.Slot(APD) == Some(d)
  }

  /** The statements that use one of these user descriptors. */
  function Users(g: Graph, ds: set<Addr>): set<Addr> {
    set s | s in g.stmts && exists a :: a in ds && InSlot(g.stmts[s], User(a))
  }

  /** Whether freeing this statement erases a pair from this user descriptor. */
  predicate HoldsDesc(g: Graph, s: Addr, a: Addr) {
    s in g.stmts && InSlot(g.stmts[s], User(a))
  }

  predicate WritesOnFree(g: Graph, x: AnyHandle, h: AnyHandle) {
    match x
    case EnvH(e) => h == x
    case DbcH(c) => h == x || (c in g.conns && h == EnvH(g.conns[c].env))
    case StmtH(s) =>
      h == x || (h.DescH? && h.desc.Implicit? && h.desc.stmt == s) || (s in g.stmts && h == DbcH(g.stmts[s].conn))
      || (h.DescH? && h.desc.User? && HoldsDesc(g, s, h.desc.addr))
    case DescH(User(a)) =>
      h == x || (x.desc in g.descs && g.descs[x.desc].conn.Some? && h == DbcH(g.descs[x.desc].conn.value))
      || (h.StmtH? && HoldsDesc(g, h.stmt, a))
    case _ => false
  }

  predicate WritesOnDisconnect(g: Graph, c: Addr, h: AnyHandle)
    requires c in g.conns
  {
    match h
    case DbcH(k) => k == c
    case StmtH(s) => s in g.conns[c].stmts || s in Users(g, g.conns[c].descs)
    case DescH(User(a)) => a in g.conns[c].descs || exists s :: s in g.conns[c].stmts && HoldsDesc(g, s, a)
    case DescH(Implicit(s, _)) => s in g.conns[c].stmts
    case _ => false
  }

  /** Whether working on a statement sets a flag of its connection. */
  predicate SetsFlags(g: Graph, s: Addr, begins: bool, opens: bool)
    requires s in g.stmts
  {
    var c := g.stmts[s].conn;
    c in g.conns && ((begins && !g.conns[c].inTransaction) || (opens && !g.conns[c].hasSession))
  }

  /** The statement itself, its implementation descriptors, and the connection if a flag of it is set. */
  predicate WritesOnWork(g: Graph, s: Addr, begins: bool, opens: bool, h: AnyHandle)
    requires s in g.stmts
  {
    || h == StmtH(s) || h == DescH(Implicit(s, IRD)) || h == DescH(Implicit(s, IPD))
    || (SetsFlags(g, s, begins, opens) && h == DbcH(g.stmts[s].conn))
  }

  /** The connections whose transactions end, and their statements, whose cursors are closed. */
  predicate WritesOnEnd(g: Graph, cs: set<Addr>, h: AnyHandle) {
    match h
    case DbcH(c) => c in cs
    case StmtH(s) => s in g.stmts && g.stmts[s].conn in cs
    case _ => false
  }

  /** The handles that the body of a call creates, deletes or writes to. */
  predicate Writes(g: Graph, op: Op, h: AnyHandle) {
    match op
    case AllocEnv(a) => h == EnvH(a)
    case AllocConn(e, a) => h == EnvH(e) || h == DbcH(a)
    case AllocStmt(c, a) =>
      && c in g.conns && g.conns[c].connected
      && (h == DbcH(c) || h == StmtH(a) || (h.DescH? && h.desc.Implicit? && h.desc.stmt == a))
    case AllocDesc(c, a) => c in g.conns && g.conns[c].connected && (h == DbcH(c) || h == DescH(User(a)))
    case Connect(c) => h == DbcH(c)
    case Work(s, begins, opens) => s in g.stmts && WritesOnWork(g, s, begins, opens, h)
    case EndConn(c, ended, _) =>
      && c in g.conns && g.conns[c].inTransaction && ended
      && (h == DbcH(c) || (h.StmtH? && h.stmt in g.conns[c].stmts))
    case EndEnv(e, granted, _) => e in g.envs && WritesOnEnd(g, Ending(g, e, granted), h)
    case SetDescriptor(s, role, d) =>
      && (role == ARD || role == APD)
      && (h == StmtH(s) || (h.DescH? && (d == Some(h.desc) || (s in g.stmts && g.stmts[s].Slot(role) == Some(h.desc)))))
    case FreeHandle(x) => WritesOnFree(g, x, h)
    case Disconnect(c) => c in g.conns && WritesOnDisconnect(g, c, h)
  }

  // Nothing else changes

  function At<K, V>(m: map<K, V>, k: K): Option<V> {
    if k in m then Some(m[k]) else None
  }

  /** The record of a handle is the same in both graphs. */
  predicate SameRecord(g: Graph, h: Graph, x: AnyHandle) {
    match x
    case Null => true
    case EnvH(e) => At(g.envs, e) == At(h.envs, e)
    case DbcH(c) => At(g.conns, c) == At(h.conns, c)
    case StmtH(s) => At(g.stmts, s) == At(h.stmts, s)
    case DescH(d) => At(g.descs, d) == At(h.descs, d)
  }

  lemma FreeStmtCovered(g: Graph, s: Addr, x: AnyHandle)
    requires Wired(g) && s in g.stmts && !WritesOnFree(g, StmtH(s), x)
    ensures SameRecord(g, RemoveStmts(g, {s}), x)
  {
    var h := RemoveStmts(g, {s});
    match x
    case DbcH(c) => if c in g.conns { assert g.conns[c].stmts - {s} == g.conns[c].stmts; }
    case DescH(d) =>
      if d in g.descs {
        PairsOf(g, d);
        assert forall p :: p in g.descs[d].assoc ==> p == (p.0, p.1);
        assert forall p :: p in g.descs[d].assoc ==> p.0 != s;
        assert h.descs[d].assoc == g.descs[d].assoc;
      }
    case _ =>
  }

  /** The pairs of a user descriptor name the statements that use it; those of an implicit one its own statement. */
  lemma PairsOf(g: Graph, d: DescRef)
    requires Used(g) && d in g.descs
    ensures forall p :: p in g.descs[d].assoc ==>
              if d.User? then HoldsDesc(g, p.0, d.addr) && p.0 in g.stmts else p.0 == d.stmt
  {
    forall p | p in g.descs[d].assoc
      ensures if d.User? then HoldsDesc(g, p.0, d.addr) && p.0 in g.stmts else p.0 == d.stmt
    {
      assert p == (p.0, p.1);
      if d.User? {
        assert d == User(d.addr) && g.stmts[p.0].Slot(p.1) == Some(d);
      } else {
        assert d == Implicit(d.stmt, d.role);
      }
    }
  }

  lemma FreeDescCovered(g: Graph, a: Addr, x: AnyHandle)
    requires Wired(g) && User(a) in g.descs && !WritesOnFree(g, DescH(User(a)), x)
    ensures SameRecord(g, RemoveDescs(g, {a}), x)
  {
    match x
    case DbcH(c) => if c in g.conns { assert g.conns[c].descs - {a} == g.conns[c].descs; }
    case _ =>
  }

  lemma FreeConnCovered(g: Graph, c: Addr, x: AnyHandle)
    requires Wired(g) && c in g.conns && !WritesOnFree(g, DbcH(c), x)
    ensures SameRecord(g, RemoveConn(g, c), x)
  {
    if x.EnvH? && x.env in g.envs {
      assert g.envs[x.env].conns - {c} == g.envs[x.env].conns;
    }
  }

  lemma FreeCovered(g: Graph, y: AnyHandle, x: AnyHandle)
    requires Wired(g) && Proper(g, FreeHandle(y)) && !WritesOnFree(g, y, x)
    ensures SameRecord(g, Free(g, y), x)
  {
    match y
    case DbcH(c) => FreeConnCovered(g, c, x);
    case StmtH(s) => FreeStmtCovered(g, s, x);
    case DescH(User(a)) => FreeDescCovered(g, a, x);
    case _ =>
  }

  lemma DisconnectCovered(g: Graph, c: Addr, x: AnyHandle)
    requires Wired(g) && c in g.conns && !WritesOnDisconnect(g, c, x)
    ensures SameRecord(g, Disconnected(g, c), x)
  {
    DisconnectFreesExactly(g, c);
    match x
    case StmtH(s) => if s in g.stmts { UnusedStays(g, s, g.conns[c].descs); }
    case DescH(d) =>
      if d in g.descs {
        PairsOf(g, d);
        assert Disconnected(g, c).descs[d].assoc == g.descs[d].assoc;
      }
    case _ =>
  }

  lemma UnusedStays(g: Graph, s: Addr, ds: set<Addr>)
    requires s in g.stmts && s !in Users(g, ds)
    ensures g.stmts[s].WithoutDescs(ds) == g.stmts[s]
  {
    assert forall a :: a in ds ==> !InSlot(g.stmts[s], User(a));
  }

  lemma SetCovered(g: Graph, s: Addr, role: Role, d: Option<DescRef>, x: AnyHandle)
    requires s in g.stmts && !Writes(g, SetDescriptor(s, role, d), x)
    ensures SameRecord(g, SetSlot(g, s, role, d), x)
  {
  }

  lemma WorkCovered(g: Graph, s: Addr, begins: bool, opens: bool, x: AnyHandle)
    requires Wired(g) && s in g.stmts && !WritesOnWork(g, s, begins, opens, x)
    ensures SameRecord(g, Worked(g, g.stmts[s].conn, begins, opens), x)
  {
  }

  /** A call changes no handle but those that it writes. */
  lemma WritesCover(g: Graph, op: Op, x: AnyHandle)
    requires Wired(g) && Proper(g, op) && !Writes(g, op, x)
    ensures SameRecord(g, Apply(g, op), x)
  {
    match op
    case SetDescriptor(s, role, d) => if s in g.stmts { SetCovered(g, s, role, d, x); }
    case Work(s, begins, opens) => if s in g.stmts { WorkCovered(g, s, begins, opens, x); }
    case FreeHandle(y) => FreeCovered(g, y, x);
    case Disconnect(c) => if c in g.conns { DisconnectCovered(g, c, x); }
    case _ =>
  }

  // Which calls write a common handle

  /** The statements that a call writes. */
  function StmtsOf(g: Graph, op: Op): set<Addr> {
    match op
    case SetDescriptor(s, role, _) => if role == ARD || role == APD then {s} else {}
    case FreeHandle(StmtH(s)) => {s}
    case FreeHandle(DescH(User(a))) => Users(g, {a})
    case Disconnect(c) => if c in g.conns then g.conns[c].stmts + Users(g, g.conns[c].descs) else {}
    case Work(s, _, _) => {s}
    case EndConn(c, ended, _) => if c in g.conns && g.conns[c].inTransaction && ended then g.conns[c].stmts else {}
    case EndEnv(e, granted, _) =>
      if e in g.envs then set s | s in g.stmts && g.stmts[s].conn in Ending(g, e, granted) else {}
    case _ => {}
  }

  /** The user descriptors whose pairs a call writes. */
  predicate Repaired(g: Graph, op: Op, a: Addr) {
    match op
    case SetDescriptor(s, role, d) =>
      (role == ARD || role == APD) && (d == Some(User(a)) || (s in g.stmts && g.stmts[s].Slot(role) == Some(User(a))))
    case FreeHandle(StmtH(s)) => HoldsDesc(g, s, a)
    case FreeHandle(DescH(d)) => d == User(a)
    case Disconnect(c) =>
      c in g.conns && (a in g.conns[c].descs || exists s :: s in g.conns[c].stmts && HoldsDesc(g, s, a))
    case _ => false
  }

  /** Writes a connection without its mutex: by working on one of its statements, or by an end on its environment. */
  predicate Unguarded(g: Graph, op: Op, c: Addr) {
    match op
    case Work(s, begins, opens) => s in g.stmts && g.stmts[s].conn == c && SetsFlags(g, s, begins, opens)
    case EndEnv(e, granted, _) => e in g.envs && c in Ending(g, e, granted)
    case _ => false
  }

  /** Neither call deletes a handle that the other names or whose mutex it holds. */
  ghost predicate Apart(g: Graph, r: Op, q: Op)
    requires ImplicitWired(g.stmts, g.descs) && NullOrLive(g, Subject(Alter(q)))
  {
    forall h :: Deletes(g, r, h) ==> Subject(Alter(q)) != h && Wanted(g, Alter(q)) != Take(Of(h))
  }

  /** Two proper calls that different mutexes, or none, let into their bodies together. */
  ghost predicate Overlap(g: Graph, r: Op, q: Op) {
    && Wired(g) && Settled(g) && Proper(g, r) && Proper(g, q)
    && NullOrLive(g, Subject(Alter(r))) && NullOrLive(g, Subject(Alter(q)))
    && (Wanted(g, Alter(r)) != Wanted(g, Alter(q)) || Wanted(g, Alter(r)) == NoMutex)
    && Apart(g, r, q) && Apart(g, q, r) && (forall h :: Creates(g, r, h) ==> !Creates(g, q, h))
  }

  // Environments and connections

  predicate IsOwner(h: AnyHandle) {
    h.EnvH? || h.DbcH?
  }

  predicate WithoutMutex(g: Graph, op: Op, h: AnyHandle) {
    h.DbcH? && Unguarded(g, op, h.conn)
  }

  /** How a call comes to write an environment or a connection. */
  ghost predicate Accounted(g: Graph, op: Op, h: AnyHandle)
    requires ImplicitWired(g.stmts, g.descs) && NullOrLive(g, Subject(Alter(op)))
  {
    || Wanted(g, Alter(op)) == Take(Of(h)) || Deletes(g, op, h) || (Creates(g, op, h) && !Live(g, h))
    || WithoutMutex(g, op, h)
  }

  lemma AllocAccounted(g: Graph, op: Op, h: AnyHandle)
    requires Wired(g) && Proper(g, op) && NullOrLive(g, Subject(Alter(op))) && Allocates(op)
    requires IsOwner(h) && Writes(g, op, h)
    ensures Accounted(g, op, h)
  {
  }

  lemma FreeAccounted(g: Graph, x: AnyHandle, h: AnyHandle)
    requires Wired(g) && Proper(g, FreeHandle(x)) && NullOrLive(g, x)
    requires IsOwner(h) && Writes(g, FreeHandle(x), h)
    ensures Accounted(g, FreeHandle(x), h)
  {
  }

  lemma OtherAccounted(g: Graph, op: Op, h: AnyHandle)
    requires Wired(g) && Proper(g, op) && NullOrLive(g, Subject(Alter(op))) && !Allocates(op) && !op.FreeHandle?
    requires IsOwner(h) && Writes(g, op, h)
    ensures Accounted(g, op, h)
  {
  }

  lemma OwnersAccounted(g: Graph, op: Op, h: AnyHandle)
    requires Wired(g) && Proper(g, op) && NullOrLive(g, Subject(Alter(op)))
    requires IsOwner(h) && Writes(g, op, h)
    ensures Accounted(g, op, h)
  {
    if Allocates(op) {
      AllocAccounted(g, op, h);
    } else if op.FreeHandle? {
      FreeAccounted(g, op.handle, h);
    } else {
      OtherAccounted(g, op, h);
    }
  }

  lemma DeletedOwner(g: Graph, op: Op, h: AnyHandle)
    requires Proper(g, op) && IsOwner(h) && Deletes(g, op, h)
    ensures op == FreeHandle(h) && Live(g, h)
  {
  }

  lemma MutexIsLive(g: Graph, op: Op, h: AnyHandle)
    requires Wired(g) && Proper(g, op) && NullOrLive(g, Subject(Alter(op))) && Wanted(g, Alter(op)) == Take(Of(h))
    ensures Live(g, h)
  {
    OwnTargetLive(g, Alter(op));
  }

  /** An owner that one call deletes is out of the other's reach. */
  lemma DeletedIsApart(g: Graph, r: Op, q: Op, h: AnyHandle)
    requires Overlap(g, r, q) && IsOwner(h) && Deletes(g, r, h)
    ensures !Accounted(g, q, h)
  {
    DeletedOwner(g, r, h);
    if Deletes(g, q, h) {
      DeletedOwner(g, q, h);
    }
  }

  /** So is one that it creates. */
  lemma NewIsApart(g: Graph, r: Op, q: Op, h: AnyHandle)
    requires Overlap(g, r, q) && IsOwner(h) && Creates(g, r, h) && !Live(g, h)
    ensures !Accounted(g, q, h)
  {
    if Wanted(g, Alter(q)) == Take(Of(h)) {
      MutexIsLive(g, q, h);
    } else if Deletes(g, q, h) {
      DeletedOwner(g, q, h);
    }
  }

  /** One of two calls that write to an owner does so without its mutex. */
  lemma OneIsUnguarded(g: Graph, r: Op, q: Op, h: AnyHandle)
    requires Overlap(g, r, q) && IsOwner(h) && Accounted(g, r, h) && Accounted(g, q, h)
    ensures WithoutMutex(g, r, h) || WithoutMutex(g, q, h)
  {
    if Deletes(g, r, h) {
      DeletedIsApart(g, r, q, h);
    } else if Deletes(g, q, h) {
      DeletedIsApart(g, q, r, h);
    } else if Creates(g, r, h) && !Live(g, h) {
      NewIsApart(g, r, q, h);
    } else if Creates(g, q, h) && !Live(g, h) {
      NewIsApart(g, q, r, h);
    }
  }

  /**
   Two calls that overlap never write to a common environment; they write to a common connection only if one of them
   works on a statement of it or ends transactions on its environment.
   */
  lemma OwnersAreCovered(g: Graph, r: Op, q: Op, h: AnyHandle)
    requires Overlap(g, r, q) && IsOwner(h) && Writes(g, r, h) && Writes(g, q, h)
    ensures WithoutMutex(g, r, h) || WithoutMutex(g, q, h)
  {
    OwnersAccounted(g, r, h);
    OwnersAccounted(g, q, h);
    OneIsUnguarded(g, r, q, h);
  }

  lemma UnguardedIsWritten(g: Graph, op: Op, c: Addr)
    requires Unguarded(g, op, c)
    ensures Writes(g, op, DbcH(c))
  {
  }

  // Statements and descriptors

  lemma OneUser(g: Graph, a: Addr, s: Addr)
    ensures s in Users(g, {a}) <==> HoldsDesc(g, s, a)
  {
    if HoldsDesc(g, s, a) {
      assert a in {a} && InSlot(g.stmts[s], User(a));
    }
  }

  /** What is written and was not there before is created by the call. */
  lemma NewIsCreated(g: Graph, op: Op, h: AnyHandle)
    requires Wired(g) && Proper(g, op) && NullOrLive(g, Subject(Alter(op))) && Writes(g, op, h) && !Live(g, h)
    ensures Creates(g, op, h)
  {
  }

  lemma FreedStatementIff(g: Graph, x: AnyHandle, s: Addr)
    requires Proper(g, FreeHandle(x)) && s in g.stmts
    ensures WritesOnFree(g, x, StmtH(s)) <==> s in StmtsOf(g, FreeHandle(x))
  {
    if x.DescH? {
      OneUser(g, x.desc.addr, s);
    }
  }

  lemma EndedStatementIff(g: Graph, op: Op, s: Addr)
    requires Wired(g) && s in g.stmts && (op.EndConn? || op.EndEnv? || op.Disconnect?)
    ensures Writes(g, op, StmtH(s)) <==> s in StmtsOf(g, op)
  {
  }

  lemma NamedStatementIff(g: Graph, op: Op, s: Addr)
    requires Proper(g, op) && s in g.stmts && !op.FreeHandle? && !op.EndConn? && !op.EndEnv? && !op.Disconnect?
    ensures Writes(g, op, StmtH(s)) <==> s in StmtsOf(g, op)
  {
  }

  lemma WrittenStatementIff(g: Graph, op: Op, s: Addr)
    requires Wired(g) && Proper(g, op) && s in g.stmts
    ensures Writes(g, op, StmtH(s)) <==> s in StmtsOf(g, op)
  {
    if op.FreeHandle? {
      FreedStatementIff(g, op.handle, s);
    } else if op.EndConn? || op.EndEnv? || op.Disconnect? {
      EndedStatementIff(g, op, s);
    } else {
      NamedStatementIff(g, op, s);
    }
  }

  lemma WrittenDescriptorIff(g: Graph, op: Op, a: Addr)
    requires Proper(g, op) && User(a) in g.descs
    ensures Writes(g, op, DescH(User(a))) <==> Repaired(g, op, a)
  {
  }

  /** The descriptors inside a statement are written only together with it. */
  lemma ImplicitFollows(g: Graph, op: Op, s: Addr, role: Role)
    requires Wired(g) && Proper(g, op) && NullOrLive(g, Subject(Alter(op)))
    requires s in g.stmts && Writes(g, op, DescH(Implicit(s, role)))
    ensures s in StmtsOf(g, op)
  {
  }

  lemma StmtIsWritten(g: Graph, op: Op, s: Addr)
    requires Wired(g) && Proper(g, op) && NullOrLive(g, Subject(Alter(op))) && s in StmtsOf(g, op)
    ensures Writes(g, op, StmtH(s))
  {
    if op.FreeHandle? && op.handle.DescH? {
      OneUser(g, op.handle.desc.addr, s);
    }
  }

  lemma RepairedIsWritten(g: Graph, op: Op, a: Addr)
    requires Repaired(g, op, a)
    ensures Writes(g, op, DescH(User(a)))
  {
  }

  // Pairs of calls

  ghost predicate WriteCommon(g: Graph, r: Op, q: Op) {
    exists h :: Writes(g, r, h) && Writes(g, q, h)
  }

  ghost predicate ShareConn(g: Graph, r: Op, q: Op) {
    exists c :: (Unguarded(g, r, c) && Writes(g, q, DbcH(c))) || (Unguarded(g, q, c) && Writes(g, r, DbcH(c)))
  }

  ghost predicate ShareStmt(g: Graph, r: Op, q: Op) {
    exists s :: s in StmtsOf(g, r) && s in StmtsOf(g, q)
  }

  ghost predicate ShareDesc(g: Graph, r: Op, q: Op) {
    exists a :: Repaired(g, r, a) && Repaired(g, q, a)
  }

  lemma CommonOwner(g: Graph, r: Op, q: Op, h: AnyHandle)
    requires Overlap(g, r, q) && IsOwner(h) && Writes(g, r, h) && Writes(g, q, h)
    ensures ShareConn(g, r, q)
  {
    OwnersAreCovered(g, r, q, h);
  }

  lemma CommonUse(g: Graph, r: Op, q: Op, h: AnyHandle)
    requires Overlap(g, r, q) && (h.StmtH? || h.DescH?) && Writes(g, r, h) && Writes(g, q, h)
    ensures ShareStmt(g, r, q) || ShareDesc(g, r, q)
  {
    if !Live(g, h) {
      NewIsCreated(g, r, h);
      NewIsCreated(g, q, h);
    }
    match h
    case StmtH(s) =>
      WrittenStatementIff(g, r, s);
      WrittenStatementIff(g, q, s);
    case DescH(User(a)) =>
      WrittenDescriptorIff(g, r, a);
      WrittenDescriptorIff(g, q, a);
    case DescH(Implicit(s, role)) =>
      ImplicitFollows(g, r, s, role);
      ImplicitFollows(g, q, s, role);
  }

  lemma CommonIsShared(g: Graph, r: Op, q: Op)
    requires Overlap(g, r, q) && WriteCommon(g, r, q)
    ensures ShareConn(g, r, q) || ShareStmt(g, r, q) || ShareDesc(g, r, q)
  {
    var h :| Writes(g, r, h) && Writes(g, q, h);
    NullIsNotWritten(g, r);
    if IsOwner(h) {
      CommonOwner(g, r, q, h);
    } else {
      CommonUse(g, r, q, h);
    }
  }

  lemma NullIsNotWritten(g: Graph, op: Op)
    ensures !Writes(g, op, Null)
  {
  }

  lemma SharedIsCommon(g: Graph, r: Op, q: Op)
    requires Overlap(g, r, q) && (ShareConn(g, r, q) || ShareStmt(g, r, q) || ShareDesc(g, r, q))
    ensures WriteCommon(g, r, q)
  {
    if ShareConn(g, r, q) {
      var c :| (Unguarded(g, r, c) && Writes(g, q, DbcH(c))) || (Unguarded(g, q, c) && Writes(g, r, DbcH(c)));
      UnguardedIsWritten(g, if Unguarded(g, r, c) then r else q, c);
      assert Writes(g, r, DbcH(c)) || Writes(g, q, DbcH(c));
      WrittenByBoth(g, r, q, c);
    } else if ShareStmt(g, r, q) {
      var s :| s in StmtsOf(g, r) && s in StmtsOf(g, q);
      StmtIsWritten(g, r, s);
      StmtIsWritten(g, q, s);
    } else {
      var a :| Repaired(g, r, a) && Repaired(g, q, a);
      RepairedIsWritten(g, r, a);
      RepairedIsWritten(g, q, a);
    }
  }

  lemma WrittenByBoth(g: Graph, r: Op, q: Op, c: Addr)
    requires (Unguarded(g, r, c) && Writes(g, q, DbcH(c))) || (Unguarded(g, q, c) && Writes(g, r, DbcH(c)))
    ensures Writes(g, r, DbcH(c)) && Writes(g, q, DbcH(c))
  {
  }

  /**
   Two calls that overlap write to a common handle iff both write one connection, at least one of them without its
   mutex, or one statement, or the association set of one user descriptor.
   */
  lemma WriteCommonIff(g: Graph, r: Op, q: Op)
    requires Overlap(g, r, q)
    ensures WriteCommon(g, r, q) <==> ShareConn(g, r, q) || ShareStmt(g, r, q) || ShareDesc(g, r, q)
  {
    if WriteCommon(g, r, q) {
      CommonIsShared(g, r, q);
    } else if ShareConn(g, r, q) || ShareStmt(g, r, q) || ShareDesc(g, r, q) {
      SharedIsCommon(g, r, q);
    }
  }

  /** SQLSetStmtAttr on two statements: iff the user descriptor taken out or put in by one is one of the other's two. */
  lemma AttachmentsShareIff(g: Graph, s: Addr, r: Role, d: Option<DescRef>, t: Addr, q: Role, e: Option<DescRef>)
    requires Overlap(g, SetDescriptor(s, r, d), SetDescriptor(t, q, e)) && s != t && {r, q} <= {ARD, APD}
    ensures WriteCommon(g, SetDescriptor(s, r, d), SetDescriptor(t, q, e))
      <==> exists a :: Some(User(a)) in {g.stmts[s].Slot(r), d} && Some(User(a)) in {g.stmts[t].Slot(q), e}
  {
    WriteCommonIff(g, SetDescriptor(s, r, d), SetDescriptor(t, q, e));
    forall a ensures Repaired(g, SetDescriptor(s, r, d), a) <==> Some(User(a)) in {g.stmts[s].Slot(r), d} {
    }
    forall a ensures Repaired(g, SetDescriptor(t, q, e), a) <==> Some(User(a)) in {g.stmts[t].Slot(q), e} {
    }
  }

  /** Preparing or executing two statements: iff they are of one connection and both set a flag of it. */
  lemma WorksShareIff(g: Graph, s: Addr, b: bool, o: bool, t: Addr, b': bool, o': bool)
    requires Overlap(g, Work(s, b, o), Work(t, b', o')) && s != t && s in g.stmts && t in g.stmts
    ensures WriteCommon(g, Work(s, b, o), Work(t, b', o'))
      <==> g.stmts[s].conn == g.stmts[t].conn && SetsFlags(g, s, b, o) && SetsFlags(g, t, b', o')
  {
    WriteCommonIff(g, Work(s, b, o), Work(t, b', o'));
    if g.stmts[s].conn == g.stmts[t].conn && SetsFlags(g, s, b, o) && SetsFlags(g, t, b', o') {
      assert Unguarded(g, Work(s, b, o), g.stmts[s].conn);
    }
  }

  // Races

  /** Attaching one user descriptor to two statements: both threads can be inside, and both write its association set. */
  lemma AttachmentsRace(st: State, t: Thread, u: Thread, s: Addr, s': Addr, a: Addr)
    requires Inv(st) && st.owner == map[] && t < |st.at| && u < |st.at| && t != u
    requires st.at[t] == Idle && st.at[u] == Idle
    requires s in st.g.stmts && s' in st.g.stmts && s != s' && User(a) in st.g.descs
    ensures
      var r, q := SetDescriptor(s, ARD, Some(User(a))), SetDescriptor(s', ARD, Some(User(a)));
      && (exists steps :: BringsIn(st, steps, t, Alter(r), u, Alter(q)))
      && Writes(st.g, r, DescH(User(a))) && Writes(st.g, q, DescH(User(a)))
  {
    TogetherIff(st, t, Alter(SetDescriptor(s, ARD, Some(User(a)))), u, Alter(SetDescriptor(s', ARD, Some(User(a)))));
  }

  /** Two statements of one connection that begin its transaction: both threads can be inside, and both set its flag. */
  lemma BeginsRace(st: State, t: Thread, u: Thread, s: Addr, s': Addr)
    requires Inv(st) && st.owner == map[] && t < |st.at| && u < |st.at| && t != u
    requires st.at[t] == Idle && st.at[u] == Idle
    requires s in st.g.stmts && s' in st.g.stmts && s != s' && st.g.stmts[s].conn == st.g.stmts[s'].conn
    requires !st.g.conns[st.g.stmts[s].conn].inTransaction
    ensures
      var c, r, q := st.g.stmts[s].conn, Work(s, true, false), Work(s', true, false);
      && (exists steps :: BringsIn(st, steps, t, Alter(r), u, Alter(q)))
      && Writes(st.g, r, DbcH(c)) && Writes(st.g, q, DbcH(c))
  {
    TogetherIff(st, t, Alter(Work(s, true, false)), u, Alter(Work(s', true, false)));
  }

  /** Ending transactions on an environment, and working on a statement of one of its connections. */
  lemma EndRaces(st: State, t: Thread, u: Thread, s: Addr, begins: bool)
    requires Inv(st) && st.owner == map[] && t < |st.at| && u < |st.at| && t != u
    requires st.at[t] == Idle && st.at[u] == Idle && s in st.g.stmts && st.g.conns[st.g.stmts[s].conn].inTransaction
    ensures
      var c := st.g.stmts[s].conn;
      var r, q := Work(s, begins, false), EndEnv(st.g.conns[c].env, {c}, {});
      && (exists steps :: BringsIn(st, steps, t, Alter(r), u, Alter(q)))
      && Writes(st.g, r, StmtH(s)) && Writes(st.g, q, StmtH(s))
  {
    var c := st.g.stmts[s].conn;
    TogetherIff(st, t, Alter(Work(s, begins, false)), u, Alter(EndEnv(st.g.conns[c].env, {c}, {})));
  }
}
