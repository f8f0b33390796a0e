/** The handle operations as the driver performs them: sets updated in place, pairs erased one by one. */
module HandleDriver {
  import opened SqlTypes
  import opened HandleGraph
  import opened HandleLifetimes

  const SQL_HANDLE_ENV := 1
  const SQL_HANDLE_DBC := 2
  const SQL_HANDLE_STMT := 3
  const SQL_HANDLE_DESC := 4

  datatype Rc = Success | Error | InvalidHandle

  /** The kType test of the Validate functions. */
  predicate HasType(h: AnyHandle, handleType: int) {
    match h
    case Null => false
    case EnvH(_) => handleType == SQL_HANDLE_ENV
    case DbcH(_) => handleType == SQL_HANDLE_DBC
    case StmtH(_) => handleType == SQL_HANDLE_STMT
    case DescH(_) => handleType == SQL_HANDLE_DESC
  }

  /** The descriptor in effect for a role: the explicit one if set, else the statement's own. */
  function Effective(g: Graph, s: Addr, role: Role): DescRef
    requires s in g.stmts
  {
    if g.stmts[s].Slot(role).Some? then g.stmts[s].Slot(role).value else Implicit(s, role)
  }

  /** `g` once the pairs of the roles in `done` have been erased from the descriptors in effect for `s`. */
  ghost function Unassociated(g: Graph, s: Addr, done: set<Role>): Graph
    requires s in g.stmts
  {
    g.(descs := map d | d in g.descs ::
                  g.descs[d].(assoc := set p | p in g.descs[d].assoc
                                               && !(p.0 == s && p.1 in done && Effective(g, s, p.1) == d)))
  }

  /** `g` once the slots named by the pairs in `done` have been reset. */
  ghost function Unslotted(g: Graph, a: Addr, done: set<(Addr, Role)>): Graph
    requires User(a) in g.descs
  {
    g.(stmts := map s | s in g.stmts ::
                  g.stmts[s].(ardExpl := if (s, ARD) in done then None else g.stmts[s].ardExpl,
                              apdExpl := if (s, APD) in done then None else g.stmts[s].apdExpl),
       descs := g.descs[User(a) := g.descs[User(a)].(assoc := g.descs[User(a)].assoc - done)])
  }

  lemma UnassociatedAll(g: Graph, s: Addr)
    requires Wired(g) && s in g.stmts
    ensures forall d :: d in g.descs && !(d.Implicit? && d.stmt == s) ==>
              Unassociated(g, s, {ARD, APD, IRD, IPD}).descs[d] == RemoveStmts(g, {s}).descs[d]
  {
    var u, r := Unassociated(g, s, {ARD, APD, IRD, IPD}), RemoveStmts(g, {s});
    forall d | d in g.descs && !(d.Implicit? && d.stmt == s) ensures u.descs[d] == r.descs[d] {
      forall p | p in g.descs[d].assoc ensures p in u.descs[d].assoc <==> p in r.descs[d].assoc {
        RoleIsListed(p.1);
        assert p == (p.0, p.1);
        if d.User? {
          assert d == User(d.addr);
        } else {
          assert d == Implicit(d.stmt, d.role);
        }
      }
      assert u.descs[d].assoc == r.descs[d].assoc;
    }
  }

  lemma UnslottedAll(g: Graph, a: Addr)
    requires Wired(g) && User(a) in g.descs
    ensures Unslotted(g, a, g.descs[User(a)].assoc).stmts == RemoveDescs(g, {a}).stmts
  {
    var u, r := Unslotted(g, a, g.descs[User(a)].assoc), RemoveDescs(g, {a});
    forall s | s in g.stmts ensures u.stmts[s] == r.stmts[s] {
      assert (s, ARD) in g.descs[User(a)].assoc <==> g.stmts[s].Slot(ARD) == Some(User(a));
      assert (s, APD) in g.descs[User(a)].assoc <==> g.stmts[s].Slot(APD) == Some(User(a));
    }
  }

  class Driver {
    var g: Graph

    constructor ()
      ensures g == NOTHING
    {
      g := NOTHING;
    }

    /** Moves the association of a slot; a null descriptor restores the statement's own. */
    method SetDescriptorHandle(s: Addr, role: Role, d: Option<DescRef>) returns (rc: Rc)
      requires s in g.stmts && g.stmts[s].Slot(role).Some? ==> g.stmts[s].Slot(role).value in g.descs
      requires s in g.stmts && (d.Some? ==> d.value in g.descs)
      modifies this
      ensures g == SetSlot(old(g), s, role, d)
      ensures rc == if role == ARD || role == APD then Success else Error
    {
      if role == IRD || role == IPD {
        return Error;
      }
      var slot := g.stmts[s].Slot(role);
      if slot.Some? {
        g := g.(descs := g.descs[slot.value := g.descs[slot.value].(assoc := g.descs[slot.value].assoc - {(s, role)})]);
      }
      g := g.(stmts := g.stmts[s := g.stmts[s].WithSlot(role, d)]);
      if d.Some? {
        g := g.(descs := g.descs[d.value := g.descs[d.value].(assoc := g.descs[d.value].assoc + {(s, role)})]);
      }
      return Success;
    }

    /** The descriptor attributes of SQLSetStmtAttr: HY017 for IRD and IPD, HY024 for a handle of another type. */
    method SetDescriptorAttribute(s: Addr, role: Role, value: AnyHandle) returns (rc: Rc)
      requires Wired(g) && s in g.stmts && (value.Null? || Live(g, value))
      modifies this
      ensures rc == if role in {ARD, APD} && (value.Null? || value.DescH?) then Success else Error
      ensures g == if rc == Error then old(g)
                   else SetSlot(old(g), s, role, if value.Null? then None else Some(value.desc))
    {
      if role == IPD || role == IRD {
        return Error;
      }
      if !value.Null? && !value.DescH? {
        return Error;
      }
      RoleIsListed(role);
      rc := SetDescriptorHandle(s, role, if value.Null? then None else Some(value.desc));
    }

    /** The loop over the four descriptor types: erases the statement's pair from each descriptor in effect. */
    method DissociateAll(s: Addr)
      requires Wired(g) && s in g.stmts
      modifies this
      ensures g == Unassociated(old(g), s, {ARD, APD, IRD, IPD})
    {
      ghost var start := g;
      UnassociatedNone(start, s);
      var types := [APD, ARD, IPD, IRD];
      ghost var done: set<Role> := {};
      for i := 0 to |types|
        invariant done == set r | r in types[..i]
        invariant g == Unassociated(start, s, done)
      {
        Dissociate(start, s, done, types[i]);
        done := done + {types[i]};
      }
      AllFourRoles(types, done);
    }

    method Dissociate(ghost start: Graph, s: Addr, ghost done: set<Role>, role: Role)
      requires Wired(start) && s in start.stmts && g == Unassociated(start, s, done)
      modifies this
      ensures g == Unassociated(start, s, done + {role})
    {
      UnassociatedStep(start, s, done, role);
      var d := Effective(g, s, role);
      g := g.(descs := g.descs[d := g.descs[d].(assoc := g.descs[d].assoc - {(s, role)})]);
    }

    method FreeStmt(s: Addr)
      requires Wired(g) && s in g.stmts
      modifies this
      ensures g == RemoveStmts(old(g), {s})
    {
      DissociateAll(s);
      var c := g.stmts[s].conn;
      StmtIsGone(g, old(g), s);
      g := g.(conns := g.conns[c := g.conns[c].(stmts := g.conns[c].stmts - {s})]);
      // delete: the statement goes together with the four descriptors inside it
      g := g.(stmts := g.stmts - {s}, descs := map d | d in g.descs && !(d.Implicit? && d.stmt == s) :: g.descs[d]);
    }

    method FreeDesc(a: Addr)
      requires Wired(g) && User(a) in g.descs
      modifies this
      ensures g == RemoveDescs(old(g), {a})
    {
      ghost var start := g;
      var pairs := g.descs[User(a)].assoc;
      ghost var done: set<(Addr, Role)> := {};
      UnslottedNone(start, a);
      while pairs != {}
        invariant done !! pairs && done + pairs == start.descs[User(a)].assoc
        invariant g == Unslotted(start, a, done)
        decreases pairs
      {
        var p :| p in pairs;
        if p.0 in g.stmts {
          UnslottedStep(start, a, done, p);
          var _ := SetDescriptorHandle(p.0, p.1, None);
        }
        pairs, done := pairs - {p}, done + {p};
      }
      UnslottedAll(start, a);
      var c := g.descs[User(a)].conn.value;
      g := g.(conns := g.conns[c := g.conns[c].(descs := g.conns[c].descs - {a})]);
      g := g.(descs := g.descs - {User(a)});
      OnlyOwnerListsDesc(start, a);
      assert g.descs == RemoveDescs(start, {a}).descs;
    }

    /** Nothing asks whether the environment has connections: they are left dangling iff it has any. */
    method FreeEnv(e: Addr)
      requires Wired(g) && e in g.envs
      modifies this
      ensures g == RemoveEnv(old(g), e)
      ensures NoDangling(g) <==> old(g).envs[e].conns == {}
      ensures old(g).envs[e].conns == {} ==> Wired(g)
    {
      FreeIsSafeIff(g, EnvH(e));
      if g.envs[e].conns == {} {
        RemoveEnvKeeps(g, e);
      }
      g := g.(envs := g.envs - {e});
    }

    method FreeConn(c: Addr)
      requires Wired(g) && c in g.conns
      modifies this
      ensures g == RemoveConn(old(g), c)
    {
      OnlyOwnerListsConn(g, c);
      var e := g.conns[c].env;
      g := g.(envs := g.envs[e := Environment(g.envs[e].conns - {c})]);
      g := g.(conns := g.conns - {c});
    }

    /** Descriptors that live inside a statement are not the application's to free. */
    method SQLFreeHandleInternal(handleType: int, h: AnyHandle) returns (rc: Rc)
      requires Wired(g) && (h.Null? || Live(g, h)) && !(h.DescH? && h.desc.Implicit?)
      modifies this
      ensures g == if HasType(h, handleType) then Free(old(g), h) else old(g)
      ensures rc == if HasType(h, handleType) then Success else InvalidHandle
      ensures rc == Success ==> Live(old(g), h) && (NoDangling(g) <==> Freeable(old(g), h))
    {
      if !HasType(h, handleType) {
        return InvalidHandle;
      }
      FreeIsSafeIff(g, h);
      match h {
        case EnvH(e) => FreeEnv(e);
        case DbcH(c) => FreeConn(c);
        case StmtH(s) => FreeStmt(s);
        case DescH(d) => FreeDesc(d.addr);
      }
      return Success;
    }

    /** The allocator supplies a fresh address. */
    method SQLAllocEnvHandle(a: Addr)
      requires Wired(g) && a !in g.envs
      modifies this
      ensures g == AddEnv(old(g), a) && Wired(g)
    {
      AddEnvKeeps(g, a);
      g := g.(envs := g.envs[a := Environment({})]);
    }

    method SQLAllocConnHandle(h: AnyHandle, a: Addr) returns (rc: Rc)
      requires Wired(g) && (h.Null? || Live(g, h)) && a !in g.conns
      modifies this
      ensures rc == if h.EnvH? then Success else InvalidHandle
      ensures g == (if h.EnvH? then AddConn(old(g), h.env, a) else old(g)) && Wired(g)
    {
      if !h.EnvH? {
        return InvalidHandle;
      }
      AddConnKeeps(g, h.env, a);
      g := g.(conns := g.conns[a := Connection(h.env, {}, {}, false, false, false)]);
      g := g.(envs := g.envs[h.env := Environment(g.envs[h.env].conns + {a})]);
      return Success;
    }

    /** A statement to which the connection's attributes could not be copied is linked to nothing and not returned. */
    method SQLAllocStmtHandle(h: AnyHandle, a: Addr, attributesCopied: bool) returns (rc: Rc)
      requires Wired(g) && (h.Null? || Live(g, h)) && a !in g.stmts
      modifies this
      ensures rc == if !h.DbcH? then InvalidHandle
                    else if old(g).conns[h.conn].connected && attributesCopied then Success else Error
      ensures g == (if rc == Success then AddStmt(old(g), h.conn, a) else old(g)) && Wired(g)
    {
      if !h.DbcH? {
        return InvalidHandle;
      }
      if !g.conns[h.conn].connected {
        return Error;
      }
      if !attributesCopied {
        return Error;
      }
      AddStmtKeeps(g, h.conn, a);
      g := g.(stmts := g.stmts[a := Statement(h.conn, None, None)]);
      g := g.(conns := g.conns[h.conn := g.conns[h.conn].(stmts := g.conns[h.conn].stmts + {a})]);
      g := g.(descs := AddImplicit(g.descs, a));
      return Success;
    }

    method SQLAllocDescHandle(h: AnyHandle, a: Addr) returns (rc: Rc)
      requires Wired(g) && (h.Null? || Live(g, h)) && User(a) !in g.descs
      modifies this
      ensures rc == if !h.DbcH? then InvalidHandle else if old(g).conns[h.conn].connected then Success else Error
      ensures g == (if rc == Success then AddDesc(old(g), h.conn, a) else old(g)) && Wired(g)
    {
      if !h.DbcH? {
        return InvalidHandle;
      }
      if !g.conns[h.conn].connected {
        return Error;
      }
      AddDescKeeps(g, h.conn, a);
      g := g.(conns := g.conns[h.conn := g.conns[h.conn].(descs := g.conns[h.conn].descs + {a})]);
      g := g.(descs := g.descs[User(a) := Descriptor(Some(h.conn), {})]);
      return Success;
    }

    /** Refuses a closed connection and an open transaction; otherwise frees from snapshots of the two sets. */
    method SQLDisconnectInternal(h: AnyHandle) returns (rc: Rc)
      requires Wired(g) && (h.Null? || Live(g, h))
      modifies this
      ensures rc == if !h.DbcH? then InvalidHandle
                    else if old(g).conns[h.conn].connected && !old(g).conns[h.conn].inTransaction then Success else Error
      ensures g == if rc == Success then Disconnected(old(g), h.conn) else old(g)
      ensures Wired(g)
    {
      if !h.DbcH? {
        return InvalidHandle;
      }
      var c := h.conn;
      if !g.conns[c].connected || g.conns[c].inTransaction {
        return Error;
      }
      ClosingKeeps(g, c);
      g := g.(conns := g.conns[c := g.conns[c].(connected := false)]);
      FreeDescs(g.conns[c].descs);
      FreeStmts(g.conns[c].stmts);
      return Success;
    }

    method FreeDescs(descs: set<Addr>)
      requires Wired(g) && forall a :: a in descs ==> User(a) in g.descs
      modifies this
      ensures g == RemoveDescs(old(g), descs) && Wired(g)
    {
      ghost var start := g;
      var left, done: set<Addr> := descs, {};
      RemoveNothing(g);
      while left != {}
        invariant done !! left && done + left == descs
        invariant g == RemoveDescs(start, done)
        decreases left
      {
        var a :| a in left;
        FreeNextDesc(start, done, a);
        left, done := left - {a}, done + {a};
      }
      assert done == descs;
      RemoveDescsKeeps(start, descs);
    }

    method FreeNextDesc(ghost start: Graph, ghost done: set<Addr>, a: Addr)
      requires Wired(start) && User(a) in start.descs && a !in done && g == RemoveDescs(start, done)
      modifies this
      ensures g == RemoveDescs(start, done + {a})
    {
      RemoveDescsTwice(start, done, {a});
      RemoveDescsKeeps(start, done);
      var _ := SQLFreeHandleInternal(SQL_HANDLE_DESC, DescH(User(a)));
    }

    method FreeStmts(stmts: set<Addr>)
      requires Wired(g) && stmts <= g.stmts.Keys
      modifies this
      ensures g == RemoveStmts(old(g), stmts) && Wired(g)
    {
      ghost var start := g;
      var left, done: set<Addr> := stmts, {};
      RemoveNothing(g);
      while left != {}
        invariant done !! left && done + left == stmts
        invariant g == RemoveStmts(start, done)
        decreases left
      {
        var s :| s in left;
        FreeNextStmt(start, done, s);
        left, done := left - {s}, done + {s};
      }
      assert done == stmts;
      RemoveStmtsKeeps(start, stmts);
    }

    method FreeNextStmt(ghost start: Graph, ghost done: set<Addr>, s: Addr)
      requires Wired(start) && s in start.stmts && s !in done && g == RemoveStmts(start, done)
      modifies this
      ensures g == RemoveStmts(start, done + {s})
    {
      RemoveStmtsTwice(start, done, {s});
      RemoveStmtsKeeps(start, done);
      var _ := SQLFreeHandleInternal(SQL_HANDLE_STMT, StmtH(s));
    }
  }

  lemma AllFourRoles(types: seq<Role>, done: set<Role>)
    requires types == [APD, ARD, IPD, IRD] && done == set r | r in types[..4]
    ensures done == {ARD, APD, IRD, IPD}
  {
    assert types[..4] == types;
  }

  lemma UnassociatedNone(g: Graph, s: Addr)
    requires s in g.stmts
    ensures Unassociated(g, s, {}) == g
  {
    var u := Unassociated(g, s, {});
    forall d | d in g.descs ensures u.descs[d] == g.descs[d] {
      assert u.descs[d].assoc == g.descs[d].assoc;
    }
    assert u.descs == g.descs;
  }

  lemma UnslottedNone(g: Graph, a: Addr)
    requires User(a) in g.descs
    ensures Unslotted(g, a, {}) == g
  {
    var u := Unslotted(g, a, {});
    assert u.stmts == g.stmts;
    assert u.descs[User(a)].assoc == g.descs[User(a)].assoc;
    assert u.descs == g.descs;
  }

  /** What remains to do after the pairs are erased: unlist the statement, then delete it with its descriptors. */
  lemma StmtIsGone(u: Graph, g: Graph, s: Addr)
    requires Wired(g) && s in g.stmts && u == Unassociated(g, s, {ARD, APD, IRD, IPD})
    ensures
      var c := g.stmts[s].conn;
      && c in g.conns && u.conns == g.conns && u.stmts == g.stmts
      && g.conns[c := g.conns[c].(stmts := g.conns[c].stmts - {s})] == RemoveStmts(g, {s}).conns
      && g.stmts - {s} == RemoveStmts(g, {s}).stmts
      && (map d | d in u.descs && !(d.Implicit? && d.stmt == s) :: u.descs[d]) == RemoveStmts(g, {s}).descs
  {
    UnassociatedAll(g, s);
    OnlyOwnerListsStmt(g, s);
  }

  lemma RemoveNothing(g: Graph)
    ensures RemoveDescs(g, {}) == g && RemoveStmts(g, {}) == g
  {
    var d, s := RemoveDescs(g, {}), RemoveStmts(g, {});
    assert forall k :: k in g.conns ==> d.conns[k].descs == g.conns[k].descs && s.conns[k].stmts == g.conns[k].stmts;
    assert d.conns == g.conns && s.conns == g.conns;
    assert d.stmts == g.stmts && s.stmts == g.stmts;
    forall e | e in g.descs ensures s.descs[e] == g.descs[e] {
      assert s.descs[e].assoc == g.descs[e].assoc;
    }
    assert d.descs == g.descs && s.descs == g.descs;
  }

  lemma OnlyOwnerListsConn(g: Graph, c: Addr)
    requires Owned(g) && c in g.conns
    ensures
      var e := g.conns[c].env;
      e in g.envs && g.envs[e := Environment(g.envs[e].conns - {c})] == RemoveConn(g, c).envs
  {
    var e := g.conns[c].env;
    forall k | k in g.envs && k != e ensures g.envs[k].conns - {c} == g.envs[k].conns {
      assert c !in g.envs[k].conns;
    }
  }

  lemma UnassociatedStep(g: Graph, s: Addr, done: set<Role>, role: Role)
    requires Wired(g) && s in g.stmts
    ensures
      var h := Unassociated(g, s, done);
      var d := Effective(g, s, role);
      && d in h.descs
      && h.(descs := h.descs[d := h.descs[d].(assoc := h.descs[d].assoc - {(s, role)})])
         == Unassociated(g, s, done + {role})
  {
    var h, k := Unassociated(g, s, done), Unassociated(g, s, done + {role});
    var d := Effective(g, s, role);
    var h' := h.descs[d := h.descs[d].(assoc := h.descs[d].assoc - {(s, role)})];
    forall e | e in g.descs ensures h'[e] == k.descs[e] {
      assert forall p :: p in g.descs[e].assoc ==> p == (p.0, p.1);
      assert h'[e].assoc == k.descs[e].assoc;
    }
    assert h' == k.descs;
  }

  lemma UnslottedStep(g: Graph, a: Addr, done: set<(Addr, Role)>, p: (Addr, Role))
    requires Wired(g) && User(a) in g.descs && p in g.descs[User(a)].assoc && p !in done
    ensures
      var h := Unslotted(g, a, done);
      && p.0 in h.stmts && (p.1 == ARD || p.1 == APD) && h.stmts[p.0].Slot(p.1) == Some(User(a))
      && SetSlot(h, p.0, p.1, None) == Unslotted(g, a, done + {p})
  {
    var h, k := Unslotted(g, a, done), Unslotted(g, a, done + {p});
    assert p == (p.0, p.1);
    assert g.stmts[p.0].Slot(p.1) == Some(User(a));
    var n := SetSlot(h, p.0, p.1, None);
    assert n.stmts == k.stmts;
    assert n.descs[User(a)].assoc == k.descs[User(a)].assoc;
    assert n.descs == k.descs;
  }

  lemma OnlyOwnerListsStmt(g: Graph, s: Addr)
    requires Owned(g) && s in g.stmts
    ensures
      var c := g.stmts[s].conn;
      c in g.conns && g.conns[c := g.conns[c].(stmts := g.conns[c].stmts - {s})] == RemoveStmts(g, {s}).conns
  {
    var c := g.stmts[s].conn;
    forall k | k in g.conns && k != c ensures g.conns[k].stmts - {s} == g.conns[k].stmts {
      assert s !in g.conns[k].stmts;
    }
  }

  lemma OnlyOwnerListsDesc(g: Graph, a: Addr)
    requires Owned(g) && User(a) in g.descs
    ensures
      var c := g.descs[User(a)].conn.value;
      c in g.conns && g.conns[c := g.conns[c].(descs := g.conns[c].descs - {a})] == RemoveDescs(g, {a}).conns
  {
    var c := g.descs[User(a)].conn.value;
    forall k | k in g.conns && k != c ensures g.conns[k].descs - {a} == g.conns[k].descs {
      assert a !in g.conns[k].descs;
    }
  }
}
