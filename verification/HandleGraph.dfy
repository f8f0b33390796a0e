/**
 The driver's handles: environments own connections, connections own statements and user descriptors, and a statement's
 two application slots may point at descriptors, which in turn record the (statement, role) pairs that use them.
 A handle that is not in the graph has been deleted, so every lookup below is a check that a pointer is live.
 */
module HandleGraph {
  import opened SqlTypes

  type Addr = nat

  /** The roles a descriptor can play for a statement; IRD and IPD are never replaced. */
  datatype Role = ARD | APD | IRD | IPD

  /** A descriptor is allocated by the application, or is one of the four that live inside a statement. */
  datatype DescRef = User(addr: Addr) | Implicit(stmt: Addr, role: Role)

  datatype Environment = Environment(conns: set<Addr>)

  /** With the flags that connecting, the server's transactions and its session set. */
  datatype Connection = Connection(env: Addr, stmts: set<Addr>, descs: set<Addr>, connected: bool, inTransaction: bool,
                                   hasSession: bool)

  datatype Statement = Statement(conn: Addr, ardExpl: Option<DescRef>, apdExpl: Option<DescRef>) {
    /** The explicitly set descriptor, if any. */
    function Slot(role: Role): Option<DescRef> {
      match role case ARD => ardExpl case APD => apdExpl case _ => None
    }

    function WithSlot(role: Role, d: Option<DescRef>): (st: Statement)
      ensures st.conn == conn
      ensures forall r {:trigger st.Slot(r)} :: st.Slot(r) == if r == role && role in {ARD, APD} then d else Slot(r)
    {
      match role case ARD => this.(ardExpl := d) case APD => this.(apdExpl := d) case _ => this
    }

    function WithoutDescs(ds: set<Addr>): (st: Statement)
      ensures st.conn == conn
      ensures forall r {:trigger st.Slot(r)} :: st.Slot(r) == Keep(Slot(r), ds)
    {
      this.(ardExpl := Keep(ardExpl, ds), apdExpl := Keep(apdExpl, ds))
    }

    static function Keep(slot: Option<DescRef>, ds: set<Addr>): Option<DescRef> {
      if slot.Some? && slot.value.User? && slot.value.addr in ds then None else slot
    }
  }

  datatype Descriptor = Descriptor(conn: Option<Addr>, assoc: set<(Addr, Role)>)

  type Envs = map<Addr, Environment>
  type Conns = map<Addr, Connection>
  type Stmts = map<Addr, Statement>
  type Descs = map<DescRef, Descriptor>

  datatype Graph = Graph(envs: Envs, conns: Conns, stmts: Stmts, descs: Descs)

  // The invariant

  ghost predicate ConnsWired(envs: Envs, conns: Conns) {
    && (forall c :: c in conns ==> conns[c].env in envs && c in envs[conns[c].env].conns)
    && (forall e, c :: e in envs && c in envs[e].conns ==> c in conns && conns[c].env == e)
  }

  ghost predicate StmtsWired(conns: Conns, stmts: Stmts) {
    && (forall s :: s in stmts ==> stmts[s].conn in conns && s in conns[stmts[s].conn].stmts)
    && (forall c, s :: c in conns && s in conns[c].stmts ==> s in stmts && stmts[s].conn == c)
  }

  ghost predicate DescsWired(conns: Conns, descs: Descs) {
    && (forall a :: User(a) in descs ==>
          descs[User(a)].conn.Some? && descs[User(a)].conn.value in conns && a in conns[descs[User(a)].conn.value].descs)
    && (forall c, a :: c in conns && a in conns[c].descs ==> User(a) in descs && descs[User(a)].conn == Some(c))
  }

  /** A statement and its four own descriptors live and die together. */
  ghost predicate ImplicitWired(stmts: Stmts, descs: Descs) {
    && (forall s, r :: Implicit(s, r) in descs <==> s in stmts)
    && (forall s, r, p :: Implicit(s, r) in descs && p in descs[Implicit(s, r)].assoc ==> p.0 == s)
  }

  /** A slot holds a live descriptor: a user's, of any connection, or one of the statement's own. */
  ghost predicate SlotsLive(stmts: Stmts, descs: Descs) {
    forall s, r :: s in stmts && stmts[s].Slot(r).Some? ==> SlotLive(s, stmts[s].Slot(r).value, descs)
  }

  predicate SlotLive(s: Addr, d: DescRef, descs: Descs) {
    d in descs && (d.User? || d.stmt == s)
  }

  /** A user descriptor knows exactly the slots that point at it. */
  ghost predicate AssocExact(stmts: Stmts, descs: Descs) {
    forall a, s, r :: User(a) in descs ==>
      ((s, r) in descs[User(a)].assoc <==> s in stmts && stmts[s].Slot(r) == Some(User(a)))
  }

  ghost predicate Owned(g: Graph) {
    ConnsWired(g.envs, g.conns) && StmtsWired(g.conns, g.stmts) && DescsWired(g.conns, g.descs)
  }

  ghost predicate Used(g: Graph) {
    ImplicitWired(g.stmts, g.descs) && SlotsLive(g.stmts, g.descs) && AssocExact(g.stmts, g.descs)
  }

  ghost predicate Wired(g: Graph) {
    Owned(g) && Used(g)
  }

  /** Statements and descriptors exist only on connected connections. */
  ghost predicate Settled(g: Graph) {
    forall c :: c in g.conns && !g.conns[c].connected ==> g.conns[c].stmts == {} && g.conns[c].descs == {}
  }

  // What the operations do to the graph

  function AddEnv(g: Graph, a: Addr): Graph {
    g.(envs := g.envs[a := Environment({})])
  }

  function AddConn(g: Graph, e: Addr, a: Addr): Graph
    requires e in g.envs
  {
    g.(envs := g.envs[e := Environment(g.envs[e].conns + {a})],
       conns := g.conns[a := Connection(e, {}, {}, false, false, false)])
  }

  function AddStmt(g: Graph, c: Addr, a: Addr): Graph
    requires c in g.conns
  {
    g.(conns := g.conns[c := g.conns[c].(stmts := g.conns[c].stmts + {a})],
       stmts := g.stmts[a := Statement(c, None, None)],
       descs := AddImplicit(g.descs, a))
  }

  lemma RoleIsListed(role: Role)
    ensures role in {ARD, APD, IRD, IPD}
  {
    match role case ARD => case APD => case IRD => case IPD =>
  }

  /** The four descriptors inside a new statement, each associated with its own role. */
  function AddImplicit(descs: Descs, a: Addr): (r: Descs)
    ensures forall d :: d in r <==> d in descs || (d.Implicit? && d.stmt == a)
    ensures forall d :: d in r ==>
              r[d] == if d.Implicit? && d.stmt == a then Descriptor(None, {(a, d.role)}) else descs[d]
  {
    var own := map role | role in {ARD, APD, IRD, IPD} :: Implicit(a, role) := Descriptor(None, {(a, role)});
    assert forall d: DescRef :: d.Implicit? && d.stmt == a ==> d in own by {
      forall d: DescRef | d.Implicit? && d.stmt == a ensures d in own {
        RoleIsListed(d.role);
        assert d == Implicit(a, d.role);
      }
    }
    descs + own
  }

  function AddDesc(g: Graph, c: Addr, a: Addr): Graph
    requires c in g.conns
  {
    g.(conns := g.conns[c := g.conns[c].(descs := g.conns[c].descs + {a})],
       descs := g.descs[User(a) := Descriptor(Some(c), {})])
  }

  function Associate(descs: Descs, d: Option<DescRef>, pair: (Addr, Role)): Descs {
    if d.Some? && d.value in descs
    then descs[d.value := descs[d.value].(assoc := descs[d.value].assoc + {pair})] else descs
  }

  function Dissociate(descs: Descs, d: Option<DescRef>, pair: (Addr, Role)): Descs {
    if d.Some? && d.value in descs
    then descs[d.value := descs[d.value].(assoc := descs[d.value].assoc - {pair})] else descs
  }

  function SetSlot(g: Graph, s: Addr, role: Role, d: Option<DescRef>): Graph
    requires s in g.stmts
  {
    if role == IRD || role == IPD then g
    else g.(stmts := g.stmts[s := g.stmts[s].WithSlot(role, d)],
            descs := Associate(Dissociate(g.descs, g.stmts[s].Slot(role), (s, role)), d, (s, role)))
  }

  function RemoveEnv(g: Graph, e: Addr): Graph {
    g.(envs := g.envs - {e})
  }

  function RemoveConn(g: Graph, c: Addr): Graph {
    g.(conns := g.conns - {c}, envs := map e | e in g.envs :: Environment(g.envs[e].conns - {c}))
  }

  function RemoveStmts(g: Graph, ss: set<Addr>): Graph {
    g.(stmts := map s | s in g.stmts && s !in ss :: g.stmts[s],
       descs := map d | d in g.descs && !(d.Implicit? && d.stmt in ss) ::
                  g.descs[d].(assoc := set p | p in g.descs[d].assoc && p.0 !in ss),
       conns := map c | c in g.conns :: g.conns[c].(stmts := g.conns[c].stmts - ss))
  }

  function RemoveDescs(g: Graph, ds: set<Addr>): Graph {
    g.(stmts := map s | s in g.stmts :: g.stmts[s].WithoutDescs(ds),
       descs := map d | d in g.descs && !(d.User? && d.addr in ds) :: g.descs[d],
       conns := map c | c in g.conns :: g.conns[c].(descs := g.conns[c].descs - ds))
  }

  /** SQLDisconnect: marks the connection closed, then frees its descriptors and its statements. */
  function Disconnected(g: Graph, c: Addr): Graph
    requires c in g.conns
  {
    var closed := g.(conns := g.conns[c := g.conns[c].(connected := false)]);
    RemoveStmts(RemoveDescs(closed, g.conns[c].descs), g.conns[c].stmts)
  }

  // Each operation keeps the invariant

  // Changing other fields of the connections leaves the remaining ownership relations as they are.

  lemma ConnsFrame(envs: Envs, conns: Conns, conns': Conns)
    requires ConnsWired(envs, conns) && conns'.Keys == conns.Keys
    requires forall c :: c in conns ==> conns'[c].env == conns[c].env
    ensures ConnsWired(envs, conns')
  {
  }

  lemma StmtsFrame(conns: Conns, conns': Conns, stmts: Stmts, stmts': Stmts)
    requires StmtsWired(conns, stmts) && conns'.Keys == conns.Keys && stmts'.Keys == stmts.Keys
    requires forall c :: c in conns ==> conns'[c].stmts == conns[c].stmts
    requires forall s :: s in stmts ==> stmts'[s].conn == stmts[s].conn
    ensures StmtsWired(conns', stmts')
  {
  }

  lemma DescsFrame(conns: Conns, conns': Conns, descs: Descs, descs': Descs)
    requires DescsWired(conns, descs) && conns'.Keys == conns.Keys
    requires forall c :: c in conns ==> conns'[c].descs == conns[c].descs
    requires forall a :: User(a) in descs' <==> User(a) in descs
    requires forall a :: User(a) in descs ==> descs'[User(a)].conn == descs[User(a)].conn
    ensures DescsWired(conns', descs')
  {
  }

  lemma AddEnvKeeps(g: Graph, a: Addr)
    requires Wired(g) && a !in g.envs
    ensures Wired(AddEnv(g, a))
  {
  }

  lemma AddConnKeeps(g: Graph, e: Addr, a: Addr)
    requires Wired(g) && e in g.envs && a !in g.conns
    ensures Wired(AddConn(g, e, a))
  {
    var h := AddConn(g, e, a);
    assert StmtsWired(h.conns, h.stmts);
    assert DescsWired(h.conns, h.descs);
    assert ConnsWired(h.envs, h.conns);
  }

  lemma AddStmtOwned(g: Graph, c: Addr, a: Addr)
    requires Owned(g) && c in g.conns && a !in g.stmts
    ensures Owned(AddStmt(g, c, a))
  {
    var h := AddStmt(g, c, a);
    ConnsFrame(g.envs, g.conns, h.conns);
    DescsFrame(g.conns, h.conns, g.descs, h.descs);
    NewStmtWired(g.conns, g.stmts, c, a);
  }

  lemma NewStmtWired(conns: Conns, stmts: Stmts, c: Addr, a: Addr)
    requires StmtsWired(conns, stmts) && c in conns && a !in stmts
    ensures StmtsWired(conns[c := conns[c].(stmts := conns[c].stmts + {a})], stmts[a := Statement(c, None, None)])
  {
  }

  lemma AddStmtKeeps(g: Graph, c: Addr, a: Addr)
    requires Wired(g) && c in g.conns && a !in g.stmts
    ensures Wired(AddStmt(g, c, a))
  {
    AddStmtOwned(g, c, a);
    AddStmtUsed(g, c, a);
  }

  lemma AddStmtUsed(g: Graph, c: Addr, a: Addr)
    requires Used(g) && c in g.conns && a !in g.stmts
    ensures Used(AddStmt(g, c, a))
  {
    var h := AddStmt(g, c, a);
    NewImplicitWired(g.stmts, g.descs, c, a);
    assert SlotsLive(h.stmts, h.descs);
    assert AssocExact(h.stmts, h.descs);
  }

  lemma NewImplicitWired(stmts: Stmts, descs: Descs, c: Addr, a: Addr)
    requires ImplicitWired(stmts, descs) && a !in stmts
    ensures ImplicitWired(stmts[a := Statement(c, None, None)], AddImplicit(descs, a))
  {
  }

  lemma AddDescKeeps(g: Graph, c: Addr, a: Addr)
    requires Wired(g) && c in g.conns && User(a) !in g.descs
    ensures Wired(AddDesc(g, c, a))
  {
    AddDescOwned(g, c, a);
    AddDescUsed(g, c, a);
  }

  lemma AddDescOwned(g: Graph, c: Addr, a: Addr)
    requires Owned(g) && c in g.conns && User(a) !in g.descs
    ensures Owned(AddDesc(g, c, a))
  {
    var h := AddDesc(g, c, a);
    ConnsFrame(g.envs, g.conns, h.conns);
    StmtsFrame(g.conns, h.conns, g.stmts, h.stmts);
    assert DescsWired(h.conns, h.descs);
  }

  lemma AddDescUsed(g: Graph, c: Addr, a: Addr)
    requires Used(g) && c in g.conns && User(a) !in g.descs
    ensures Used(AddDesc(g, c, a))
  {
    assert forall s, r :: s in g.stmts ==> g.stmts[s].Slot(r) != Some(User(a));
  }

  lemma SetSlotKeeps(g: Graph, s: Addr, role: Role, d: Option<DescRef>)
    requires Wired(g) && s in g.stmts
    requires d.Some? ==> SlotLive(s, d.value, g.descs)
    ensures Wired(SetSlot(g, s, role, d))
  {
    SetSlotOwned(g, s, role, d);
    SetSlotUsed(g, s, role, d);
  }

  lemma SetSlotOwned(g: Graph, s: Addr, role: Role, d: Option<DescRef>)
    requires Owned(g) && s in g.stmts
    ensures Owned(SetSlot(g, s, role, d))
  {
    var h := SetSlot(g, s, role, d);
    StmtsFrame(g.conns, h.conns, g.stmts, h.stmts);
    DescsFrame(g.conns, h.conns, g.descs, h.descs);
  }

  lemma SetSlotUsed(g: Graph, s: Addr, role: Role, d: Option<DescRef>)
    requires Used(g) && s in g.stmts
    requires d.Some? ==> SlotLive(s, d.value, g.descs)
    ensures Used(SetSlot(g, s, role, d))
  {
    var h := SetSlot(g, s, role, d);
    assert h.descs.Keys == g.descs.Keys;
    assert ImplicitWired(h.stmts, h.descs);
    assert SlotsLive(h.stmts, h.descs);
    assert AssocExact(h.stmts, h.descs);
  }

  lemma RemoveStmtsKeeps(g: Graph, ss: set<Addr>)
    requires Wired(g)
    ensures Wired(RemoveStmts(g, ss))
  {
    RemoveStmtsOwned(g, ss);
    RemoveStmtsUsed(g, ss);
  }

  lemma RemoveStmtsOwned(g: Graph, ss: set<Addr>)
    requires Owned(g)
    ensures Owned(RemoveStmts(g, ss))
  {
    var h := RemoveStmts(g, ss);
    ConnsFrame(g.envs, g.conns, h.conns);
    DescsFrame(g.conns, h.conns, g.descs, h.descs);
    FewerStmtsWired(g.conns, g.stmts, h.conns, h.stmts, ss);
  }

  lemma FewerStmtsWired(conns: Conns, stmts: Stmts, conns': Conns, stmts': Stmts, ss: set<Addr>)
    requires StmtsWired(conns, stmts) && conns'.Keys == conns.Keys && stmts' == map s | s in stmts && s !in ss :: stmts[s]
    requires forall c :: c in conns ==> conns'[c].stmts == conns[c].stmts - ss
    ensures StmtsWired(conns', stmts')
  {
  }

  lemma RemoveStmtsUsed(g: Graph, ss: set<Addr>)
    requires Used(g)
    ensures Used(RemoveStmts(g, ss))
  {
    var h := RemoveStmts(g, ss);
    assert ImplicitWired(h.stmts, h.descs);
    assert SlotsLive(h.stmts, h.descs);
    assert AssocExact(h.stmts, h.descs);
  }

  lemma RemoveDescsKeeps(g: Graph, ds: set<Addr>)
    requires Wired(g)
    ensures Wired(RemoveDescs(g, ds))
  {
    RemoveDescsOwned(g, ds);
    RemoveDescsUsed(g, ds);
  }

  lemma RemoveDescsOwned(g: Graph, ds: set<Addr>)
    requires Owned(g)
    ensures Owned(RemoveDescs(g, ds))
  {
    var h := RemoveDescs(g, ds);
    ConnsFrame(g.envs, g.conns, h.conns);
    StmtsFrame(g.conns, h.conns, g.stmts, h.stmts);
    assert DescsWired(h.conns, h.descs);
  }

  lemma RemoveDescsUsed(g: Graph, ds: set<Addr>)
    requires Used(g)
    ensures Used(RemoveDescs(g, ds))
  {
    var h := RemoveDescs(g, ds);
    assert ImplicitWired(h.stmts, h.descs);
    assert SlotsLive(h.stmts, h.descs);
    assert AssocExact(h.stmts, h.descs);
  }
}
