/** Which frees are safe, what SQLDisconnect leaves, and the invariant over every run of handle operations. */
module HandleLifetimes {
  import opened SqlTypes
  import opened HandleGraph

  /** A handle as the application passes it. */
  datatype AnyHandle = Null | EnvH(env: Addr) | DbcH(conn: Addr) | StmtH(stmt: Addr) | DescH(desc: DescRef)

  predicate Live(g: Graph, h: AnyHandle) {
    match h
    case Null => false
    case EnvH(e) => e in g.envs
    case DbcH(c) => c in g.conns
    case StmtH(s) => s in g.stmts
    case DescH(d) => d in g.descs
  }

  function Free(g: Graph, h: AnyHandle): Graph {
    match h
    case EnvH(e) => RemoveEnv(g, e)
    case DbcH(c) => RemoveConn(g, c)
    case StmtH(s) => RemoveStmts(g, {s})
    case DescH(User(a)) => RemoveDescs(g, {a})
    case _ => g
  }

  /** The driver checks none of this: parents must be empty. */
  predicate Freeable(g: Graph, h: AnyHandle)
    requires Live(g, h)
  {
    match h
    case EnvH(e) => g.envs[e].conns == {}
    case DbcH(c) => g.conns[c].stmts == {} && g.conns[c].descs == {}
    case _ => true
  }

  ghost predicate OwnersLive(g: Graph) {
    && (forall e, c :: e in g.envs && c in g.envs[e].conns ==> c in g.conns)
    && (forall c :: c in g.conns ==> g.conns[c].env in g.envs)
    && (forall c, s :: c in g.conns && s in g.conns[c].stmts ==> s in g.stmts)
    && (forall c, a :: c in g.conns && a in g.conns[c].descs ==> User(a) in g.descs)
    && (forall s :: s in g.stmts ==> g.stmts[s].conn in g.conns)
    && (forall a :: User(a) in g.descs ==> g.descs[User(a)].conn.Some? && g.descs[User(a)].conn.value in g.conns)
  }

  ghost predicate UsesLive(g: Graph) {
    && (forall s, r :: s in g.stmts ==> Implicit(s, r) in g.descs)
    && (forall s, r :: s in g.stmts && g.stmts[s].Slot(r).Some? ==> g.stmts[s].Slot(r).value in g.descs)
    && (forall a, p :: User(a) in g.descs && p in g.descs[User(a)].assoc ==> p.0 in g.stmts)
    && (forall s, r, p :: Implicit(s, r) in g.descs && p in g.descs[Implicit(s, r)].assoc ==> p.0 in g.stmts)
  }

  /** Every pointer stored in a live handle leads to a live handle. */
  ghost predicate NoDangling(g: Graph) {
    OwnersLive(g) && UsesLive(g)
  }

  lemma OwnedHasNoDangling(g: Graph)
    requires Owned(g)
    ensures OwnersLive(g)
  {
  }

  lemma UsedHasNoDangling(g: Graph)
    requires Used(g)
    ensures UsesLive(g)
  {
    assert forall a, p :: User(a) in g.descs && p in g.descs[User(a)].assoc ==> p == (p.0, p.1);
  }

  lemma WiredHasNoDangling(g: Graph)
    requires Wired(g)
    ensures NoDangling(g)
  {
    OwnedHasNoDangling(g);
    UsedHasNoDangling(g);
  }

  lemma RemoveEnvKeeps(g: Graph, e: Addr)
    requires Wired(g) && e in g.envs && g.envs[e].conns == {}
    ensures Wired(RemoveEnv(g, e))
  {
    var h := RemoveEnv(g, e);
    assert ConnsWired(h.envs, h.conns);
  }

  lemma RemoveConnKeeps(g: Graph, c: Addr)
    requires Wired(g) && c in g.conns && g.conns[c].stmts == {} && g.conns[c].descs == {}
    ensures Wired(RemoveConn(g, c))
  {
    var h := RemoveConn(g, c);
    ConnWiredWithout(g.envs, g.conns, h.envs, c);
    ChildrenWiredWithout(g, c);
  }

  lemma ChildrenWiredWithout(g: Graph, c: Addr)
    requires Owned(g) && c in g.conns && g.conns[c].stmts == {} && g.conns[c].descs == {}
    ensures StmtsWired(g.conns - {c}, g.stmts) && DescsWired(g.conns - {c}, g.descs)
  {
  }

  lemma ConnWiredWithout(envs: Envs, conns: Conns, envs': Envs, c: Addr)
    requires ConnsWired(envs, conns) && envs' == map e | e in envs :: Environment(envs[e].conns - {c})
    ensures ConnsWired(envs', conns - {c})
  {
  }

  lemma FreeKeeps(g: Graph, h: AnyHandle)
    requires Wired(g) && Live(g, h) && Freeable(g, h)
    ensures Wired(Free(g, h))
  {
    match h
    case EnvH(e) => RemoveEnvKeeps(g, e);
    case DbcH(c) => RemoveConnKeeps(g, c);
    case StmtH(s) => RemoveStmtsKeeps(g, {s});
    case DescH(User(a)) => RemoveDescsKeeps(g, {a});
    case _ =>
  }

  /** Freeing an environment, connection, statement or user descriptor is safe exactly when it owns nothing that stays. */
  lemma FreeIsSafeIff(g: Graph, h: AnyHandle)
    requires Wired(g) && Live(g, h)
    ensures NoDangling(Free(g, h)) <==> Freeable(g, h)
  {
    if Freeable(g, h) {
      FreeKeeps(g, h);
      WiredHasNoDangling(Free(g, h));
    } else if h.EnvH? {
      var c :| c in g.envs[h.env].conns;
      assert c in Free(g, h).conns && Free(g, h).conns[c].env == h.env;
    } else if g.conns[h.conn].stmts != {} {
      var s :| s in g.conns[h.conn].stmts;
      assert s in Free(g, h).stmts && Free(g, h).stmts[s].conn == h.conn;
    } else {
      var a :| a in g.conns[h.conn].descs;
      assert User(a) in Free(g, h).descs && Free(g, h).descs[User(a)].conn == Some(h.conn);
    }
  }

  /** A connection that is not connected may be freed: what the driver can tell the application. */
  lemma ClosedIsFreeable(g: Graph, c: Addr)
    requires Settled(g) && c in g.conns && !g.conns[c].connected
    ensures Freeable(g, DbcH(c))
  {
  }

  /**
   Setting a statement's application descriptor checks only that the handle is some live descriptor. Every statement
   can afterwards be freed without leaving a dangling slot iff it is a user's or one of the statement's own.
   */
  lemma AttachIsSafeIff(g: Graph, s: Addr, role: Role, d: DescRef)
    requires Wired(g) && s in g.stmts && (role == ARD || role == APD) && d in g.descs
    ensures
      (forall t :: t in g.stmts ==> NoDangling(RemoveStmts(SetSlot(g, s, role, Some(d)), {t})))
      <==> SlotLive(s, d, g.descs)
  {
    var h := SetSlot(g, s, role, Some(d));
    if SlotLive(s, d, g.descs) {
      SetSlotKeeps(g, s, role, Some(d));
      forall t | t in g.stmts ensures NoDangling(RemoveStmts(h, {t})) {
        RemoveStmtsKeeps(h, {t});
        WiredHasNoDangling(RemoveStmts(h, {t}));
      }
    } else {
      var t := d.stmt;
      assert d == Implicit(t, d.role) && t in g.stmts && t != s;
      var k := RemoveStmts(h, {t});
      assert s in k.stmts && k.stmts[s].Slot(role) == Some(d) && d !in k.descs;
      assert !NoDangling(k);
    }
  }

  // SQLDisconnect

  lemma RemoveDescsTwice(g: Graph, a: set<Addr>, b: set<Addr>)
    ensures RemoveDescs(RemoveDescs(g, a), b) == RemoveDescs(g, a + b)
  {
    var once, both := RemoveDescs(RemoveDescs(g, a), b), RemoveDescs(g, a + b);
    assert once.stmts == both.stmts;
    assert once.descs == both.descs;
    assert forall c :: c in once.conns ==> once.conns[c].descs == both.conns[c].descs;
    assert once.conns == both.conns;
  }

  lemma RemoveStmtsTwice(g: Graph, a: set<Addr>, b: set<Addr>)
    ensures RemoveStmts(RemoveStmts(g, a), b) == RemoveStmts(g, a + b)
  {
    var once, both := RemoveStmts(RemoveStmts(g, a), b), RemoveStmts(g, a + b);
    assert once.stmts == both.stmts;
    assert once.descs.Keys == both.descs.Keys;
    forall d | d in once.descs ensures once.descs[d] == both.descs[d] {
      assert once.descs[d].assoc == both.descs[d].assoc;
    }
    forall c | c in once.conns ensures once.conns[c] == both.conns[c] {
      assert once.conns[c].stmts == both.conns[c].stmts;
    }
  }

  lemma DisconnectKeeps(g: Graph, c: Addr)
    requires Wired(g) && c in g.conns
    ensures Wired(Disconnected(g, c))
  {
    var closed := g.(conns := g.conns[c := g.conns[c].(connected := false)]);
    ClosingKeeps(g, c);
    RemoveDescsKeeps(closed, g.conns[c].descs);
    RemoveStmtsKeeps(RemoveDescs(closed, g.conns[c].descs), g.conns[c].stmts);
  }

  /**
   A successful SQLDisconnect frees exactly the connection's statements and descriptors and empties its sets. Other
   connections keep theirs, and a surviving statement loses a slot iff it used one of the freed descriptors.
   */
  lemma DisconnectFreesExactly(g: Graph, c: Addr)
    requires Wired(g) && c in g.conns
    ensures
      var h := Disconnected(g, c);
      && h.stmts.Keys == g.stmts.Keys - g.conns[c].stmts
      && (forall a :: User(a) in h.descs <==> User(a) in g.descs && a !in g.conns[c].descs)
      && h.conns.Keys == g.conns.Keys && h.envs == g.envs
      && h.conns[c] == g.conns[c].(stmts := {}, descs := {}, connected := false)
      && (forall k :: k in g.conns && k != c ==> h.conns[k] == g.conns[k])
      && (forall s :: s in h.stmts ==> h.stmts[s] == g.stmts[s].WithoutDescs(g.conns[c].descs))
  {
    DisconnectedShape(g, c);
    forall k | k in g.conns && k != c ensures Disconnected(g, c).conns[k] == g.conns[k] {
      OtherKeepsIts(g, c, k);
    }
  }

  lemma DisconnectedShape(g: Graph, c: Addr)
    requires c in g.conns
    ensures
      var h := Disconnected(g, c);
      && h.stmts.Keys == g.stmts.Keys - g.conns[c].stmts
      && (forall s :: s in h.stmts ==> h.stmts[s] == g.stmts[s].WithoutDescs(g.conns[c].descs))
      && (forall a :: User(a) in h.descs <==> User(a) in g.descs && a !in g.conns[c].descs)
      && h.conns.Keys == g.conns.Keys && h.envs == g.envs
      && (forall k :: k in g.conns ==>
            h.conns[k] == Connection(g.conns[k].env, g.conns[k].stmts - g.conns[c].stmts,
                                     g.conns[k].descs - g.conns[c].descs, k != c && g.conns[k].connected,
                                     g.conns[k].inTransaction, g.conns[k].hasSession))
  {
  }

  lemma ClosingKeeps(g: Graph, c: Addr)
    requires Wired(g) && c in g.conns
    ensures Wired(g.(conns := g.conns[c := g.conns[c].(connected := false)]))
  {
    var closed := g.(conns := g.conns[c := g.conns[c].(connected := false)]);
    ConnsFrame(g.envs, g.conns, closed.conns);
    StmtsFrame(g.conns, closed.conns, g.stmts, g.stmts);
    DescsFrame(g.conns, closed.conns, g.descs, g.descs);
  }

  lemma OtherKeepsIts(g: Graph, c: Addr, k: Addr)
    requires Owned(g) && c in g.conns && k in g.conns && k != c
    ensures g.conns[k].stmts - g.conns[c].stmts == g.conns[k].stmts
    ensures g.conns[k].descs - g.conns[c].descs == g.conns[k].descs
  {
    forall s | s in g.conns[k].stmts ensures s !in g.conns[c].stmts {
      assert g.stmts[s].conn == k;
    }
    forall a | a in g.conns[k].descs ensures a !in g.conns[c].descs {
      assert g.descs[User(a)].conn == Some(k);
    }
  }

  // Runs

  /**
   `Work` prepares or executes a statement, whereby the server may begin a transaction and open a session; a transaction
   ends on a connection, or on those connections of an environment whose request the server grants.
   */
  datatype Op =
    | AllocEnv(addr: Addr)
    | AllocConn(env: Addr, addr: Addr)
    | AllocStmt(conn: Addr, addr: Addr)
    | AllocDesc(conn: Addr, addr: Addr)
    | Connect(conn: Addr)
    | Work(stmt: Addr, begins: bool, opens: bool)
    | EndConn(conn: Addr, ended: bool, opens: bool)
    | EndEnv(env: Addr, granted: set<Addr>, sessions: set<Addr>)
    | SetDescriptor(stmt: Addr, role: Role, desc: Option<DescRef>)
    | FreeHandle(handle: AnyHandle)
    | Disconnect(conn: Addr)

  function Connected(g: Graph, c: Addr): Graph
    requires c in g.conns
  {
    g.(conns := g.conns[c := g.conns[c].(connected := true)])
  }

  function Worked(g: Graph, c: Addr, begins: bool, opens: bool): Graph
    requires c in g.conns
  {
    var conn := g.conns[c];
    g.(conns := g.conns[c := conn.(inTransaction := conn.inTransaction || begins, hasSession := conn.hasSession || opens)])
  }

  /** The transactions of these connections are over. */
  function Ended(g: Graph, cs: set<Addr>, sessions: set<Addr>): Graph {
    g.(conns := map c | c in g.conns ::
                  if c in cs
                  then g.conns[c].(inTransaction := false, hasSession := g.conns[c].hasSession || c in sessions)
                  else g.conns[c])
  }

  /** The connections of an environment on which a transaction is ended. */
  function Ending(g: Graph, e: Addr, granted: set<Addr>): set<Addr>
    requires e in g.envs
  {
    set c | c in g.envs[e].conns && c in granted && c in g.conns && g.conns[c].inTransaction
  }

  /** An operation on a handle that is not live, or refused by the driver, changes nothing. */
  function Apply(g: Graph, op: Op): Graph {
    match op
    case AllocEnv(a) => AddEnv(g, a)
    case AllocConn(e, a) => if e in g.envs then AddConn(g, e, a) else g
    case AllocStmt(c, a) => if c in g.conns && g.conns[c].connected then AddStmt(g, c, a) else g
    case AllocDesc(c, a) => if c in g.conns && g.conns[c].connected then AddDesc(g, c, a) else g
    case Connect(c) => if c in g.conns then Connected(g, c) else g
    case Work(s, begins, opens) =>
      if s in g.stmts && g.stmts[s].conn in g.conns then Worked(g, g.stmts[s].conn, begins, opens) else g
    case EndConn(c, ended, opens) =>
      if c in g.conns && g.conns[c].inTransaction && ended then Ended(g, {c}, if opens then {c} else {}) else g
    case EndEnv(e, granted, sessions) => if e in g.envs then Ended(g, Ending(g, e, granted), sessions) else g
    case SetDescriptor(s, role, d) => if s in g.stmts then SetSlot(g, s, role, d) else g
    case FreeHandle(h) => Free(g, h)
    case Disconnect(c) =>
      if c in g.conns && g.conns[c].connected && !g.conns[c].inTransaction then Disconnected(g, c) else g
  }

  /** What the application owes: fresh addresses from the allocator, no alien descriptors, closed parents. */
  predicate Proper(g: Graph, op: Op) {
    match op
    case AllocEnv(a) => a !in g.envs
    case AllocConn(_, a) => a !in g.conns
    case AllocStmt(_, a) => a !in g.stmts
    case AllocDesc(_, a) => User(a) !in g.descs
    case SetDescriptor(s, _, d) => d.Some? ==> SlotLive(s, d.value, g.descs)
    case FreeHandle(EnvH(e)) => e in g.envs && g.envs[e].conns == {}
    case FreeHandle(DbcH(c)) => c in g.conns && !g.conns[c].connected
    case FreeHandle(StmtH(s)) => s in g.stmts
    case FreeHandle(DescH(d)) => d in g.descs && d.User?
    case _ => true
  }

  /** Setting flags of connections keeps the graph invariant. */
  lemma FlagsKeep(g: Graph, conns: Conns)
    requires Wired(g) && conns.Keys == g.conns.Keys
    requires forall c :: c in g.conns ==>
               && conns[c].env == g.conns[c].env && conns[c].stmts == g.conns[c].stmts
               && conns[c].descs == g.conns[c].descs
    ensures Wired(g.(conns := conns))
  {
    ConnsFrame(g.envs, g.conns, conns);
    StmtsFrame(g.conns, conns, g.stmts, g.stmts);
    DescsFrame(g.conns, conns, g.descs, g.descs);
  }

  lemma ConnectKeeps(g: Graph, c: Addr)
    requires Wired(g) && c in g.conns
    ensures Wired(Connected(g, c))
  {
    FlagsKeep(g, Connected(g, c).conns);
  }

  lemma WorkKeeps(g: Graph, c: Addr, begins: bool, opens: bool)
    requires Wired(g) && c in g.conns
    ensures Wired(Worked(g, c, begins, opens))
  {
    FlagsKeep(g, Worked(g, c, begins, opens).conns);
  }

  lemma EndKeeps(g: Graph, cs: set<Addr>, sessions: set<Addr>)
    requires Wired(g)
    ensures Wired(Ended(g, cs, sessions))
  {
    FlagsKeep(g, Ended(g, cs, sessions).conns);
  }

  predicate Allocates(op: Op) {
    op.AllocEnv? || op.AllocConn? || op.AllocStmt? || op.AllocDesc?
  }

  lemma AllocKeeps(g: Graph, op: Op)
    requires Wired(g) && Proper(g, op) && Allocates(op)
    ensures Wired(Apply(g, op))
  {
    match op
    case AllocEnv(a) => AddEnvKeeps(g, a);
    case AllocConn(e, a) => if e in g.envs { AddConnKeeps(g, e, a); }
    case AllocStmt(c, a) => if c in g.conns { AddStmtKeeps(g, c, a); }
    case AllocDesc(c, a) => if c in g.conns { AddDescKeeps(g, c, a); }
  }

  lemma ApplyKeepsWired(g: Graph, op: Op)
    requires Wired(g) && Settled(g) && Proper(g, op)
    ensures Wired(Apply(g, op))
  {
    match op
    case Connect(c) => if c in g.conns { ConnectKeeps(g, c); }
    case Work(s, begins, opens) => if s in g.stmts { WorkKeeps(g, g.stmts[s].conn, begins, opens); }
    case EndConn(c, _, opens) => EndKeeps(g, {c}, if opens then {c} else {});
    case EndEnv(e, granted, sessions) => if e in g.envs { EndKeeps(g, Ending(g, e, granted), sessions); }
    case SetDescriptor(s, role, d) => if s in g.stmts { SetSlotKeeps(g, s, role, d); }
    case FreeHandle(h) => if h != Null { FreeKeeps(g, h); }
    case Disconnect(c) => if c in g.conns { DisconnectKeeps(g, c); }
    case _ => AllocKeeps(g, op);
  }

  lemma ApplyKeepsSettled(g: Graph, op: Op)
    requires Settled(g) && Proper(g, op)
    ensures Settled(Apply(g, op))
  {
    if op.Disconnect? && op.conn in g.conns {
      DisconnectedShape(g, op.conn);
    }
  }

  ghost predicate ProperRun(g: Graph, ops: seq<Op>)
    decreases |ops|
  {
    ops == [] || (Proper(g, ops[0]) && ProperRun(Apply(g, ops[0]), ops[1..]))
  }

  function Run(g: Graph, ops: seq<Op>): Graph
    decreases |ops|
  {
    if ops == [] then g else Run(Apply(g, ops[0]), ops[1..])
  }

  /** Over every run back-links agree with the sets they mirror, and nothing live refers to a freed handle. */
  lemma {:induction false} RunKeepsGraph(g: Graph, ops: seq<Op>)
    requires Wired(g) && Settled(g) && ProperRun(g, ops)
    ensures Wired(Run(g, ops)) && Settled(Run(g, ops)) && NoDangling(Run(g, ops))
    decreases |ops|
  {
    if ops == [] {
      WiredHasNoDangling(g);
    } else {
      ApplyKeepsWired(g, ops[0]);
      ApplyKeepsSettled(g, ops[0]);
      RunKeepsGraph(Apply(g, ops[0]), ops[1..]);
    }
  }

  const NOTHING := Graph(map[], map[], map[], map[])

  lemma EmptyGraphIsWired()
    ensures Wired(NOTHING) && Settled(NOTHING)
  {
  }

  /** From the start of the driver, over every run in which the application does what it owes. */
  lemma RunFromNothing(ops: seq<Op>)
    requires ProperRun(NOTHING, ops)
    ensures NoDangling(Run(NOTHING, ops)) && Wired(Run(NOTHING, ops))
  {
    EmptyGraphIsWired();
    RunKeepsGraph(NOTHING, ops);
  }

  /** A new connection refuses statements, descriptors and SQLDisconnect, until it connects. */
  lemma NewConnection(g: Graph, e: Addr, c: Addr, a: Addr)
    requires e in g.envs && c !in g.conns
    ensures
      var created := Apply(g, AllocConn(e, c));
      && created.conns == g.conns[c := Connection(e, {}, {}, false, false, false)]
      && c in created.envs[e].conns && created.stmts == g.stmts && created.descs == g.descs
      && Apply(created, AllocStmt(c, a)) == created && Apply(created, AllocDesc(c, a)) == created
      && Apply(created, Disconnect(c)) == created
      && Apply(created, Connect(c)).conns[c] == Connection(e, {}, {}, true, false, false)
  {
  }

  /** A connected one accepts all three; SQLDisconnect as long as it is in no transaction. */
  lemma ConnectedAccepts(g: Graph, c: Addr, a: Addr)
    requires c in g.conns && g.conns[c].connected
    ensures Apply(g, AllocStmt(c, a)) == AddStmt(g, c, a) && Apply(g, AllocDesc(c, a)) == AddDesc(g, c, a)
    ensures Apply(g, Disconnect(c)) == if g.conns[c].inTransaction then g else Disconnected(g, c)
  {
  }

  /** A new statement uses its own descriptors only, each of which knows the statement by its own role. */
  lemma NewStatement(g: Graph, c: Addr, s: Addr)
    requires c in g.conns
    ensures
      var h := AddStmt(g, c, s);
      && h.envs == g.envs && h.stmts == g.stmts[s := Statement(c, None, None)]
      && h.conns == g.conns[c := g.conns[c].(stmts := g.conns[c].stmts + {s})]
      && (forall role :: Implicit(s, role) in h.descs && h.descs[Implicit(s, role)] == Descriptor(None, {(s, role)}))
      && (forall d :: d in g.descs && !(d.Implicit? && d.stmt == s) ==> d in h.descs && h.descs[d] == g.descs[d])
  {
  }

  /** A new user descriptor belongs to its connection and is used by nothing. */
  lemma NewDescriptor(g: Graph, c: Addr, a: Addr)
    requires c in g.conns
    ensures
      var h := AddDesc(g, c, a);
      && h.envs == g.envs && h.stmts == g.stmts && h.descs == g.descs[User(a) := Descriptor(Some(c), {})]
      && h.conns == g.conns[c := g.conns[c].(descs := g.conns[c].descs + {a})]
  {
  }

  /** Setting a descriptor sets the slot of its role, and no other slot, and never that of an implementation descriptor. */
  lemma DescriptorSet(g: Graph, s: Addr, role: Role, d: Option<DescRef>, other: Role)
    requires s in g.stmts
    ensures
      var h := Apply(g, SetDescriptor(s, role, d));
      && h.stmts.Keys == g.stmts.Keys
      && h.stmts[s].Slot(other) == (if other == role && role in {ARD, APD} then d else g.stmts[s].Slot(other))
      && forall t :: t in g.stmts && t != s ==> h.stmts[t] == g.stmts[t]
  {
  }

  /** Preparing or executing sets flags of the statement's connection, and changes nothing else of the graph. */
  lemma WorkLeaves(g: Graph, s: Addr, begins: bool, opens: bool)
    requires s in g.stmts && g.stmts[s].conn in g.conns
    ensures
      var c := g.stmts[s].conn;
      var conn := g.conns[c];
      Apply(g, Work(s, begins, opens))
      == g.(conns := g.conns[c := conn.(inTransaction := conn.inTransaction || begins,
                                        hasSession := conn.hasSession || opens)])
  {
  }

  /** Ending transactions clears one flag of the connections that were in one, and changes nothing else of the graph. */
  lemma EndLeaves(g: Graph, op: Op, c: Addr)
    requires c in g.conns && (op.EndConn? || op.EndEnv?)
    ensures
      var h, conn := Apply(g, op), g.conns[c];
      var ends := && conn.inTransaction
                  && if op.EndConn? then op.conn == c && op.ended
                     else op.env in g.envs && c in g.envs[op.env].conns && c in op.granted;
      var opens := if op.EndConn? then op.opens else c in op.sessions;
      && h.envs == g.envs && h.stmts == g.stmts && h.descs == g.descs && h.conns.Keys == g.conns.Keys
      && h.conns[c] == conn.(inTransaction := conn.inTransaction && !ends, hasSession := conn.hasSession || (ends && opens))
  {
  }

  /** Out of order: freeing a connection that still has a statement leaves that statement's back-link dangling. */
  lemma EarlyConnectionFreeDangles()
    ensures
      var ready := Connected(AddConn(AddEnv(NOTHING, 1), 1, 2), 2);
      !NoDangling(Free(AddStmt(ready, 2, 3), DbcH(2)))
  {
    var ready := Connected(AddConn(AddEnv(NOTHING, 1), 1, 2), 2);
    var g := Free(AddStmt(ready, 2, 3), DbcH(2));
    assert 3 in g.stmts && g.stmts[3].conn == 2 && 2 !in g.conns;
  }
}
