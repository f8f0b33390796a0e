/** Beginning a transaction for a statement, and ending those of a connection or of an environment's connections. */
module Transactions {
  import opened SqlTypes
  import opened HandleGraph
  import opened HandleLifetimes
  import opened HandleDriver

  /** The server's answer to BEGIN, COMMIT or ROLLBACK; with a grant it may open the connection's session. */
  datatype Posted = Refused | Granted(opens: bool)

  /** SQL_ATTR_AUTOCOMMIT may be unreadable; a data source can ask to ignore transactions. */
  predicate Begins(g: Graph, c: Addr, autocommit: Option<bool>, ignored: bool, posted: Posted)
    requires c in g.conns
  {
    !g.conns[c].inTransaction && autocommit == Some(false) && !ignored && posted.Granted?
  }

  method BeginTransactionIfNeeded(driver: Driver, c: Addr, autocommit: Option<bool>, ignored: bool, posted: Posted)
    returns (ok: bool)
    requires c in driver.g.conns
    modifies driver
    ensures driver.g == if Begins(old(driver.g), c, autocommit, ignored, posted)
                        then Worked(old(driver.g), c, true, posted.opens) else old(driver.g)
    ensures ok <==> old(driver.g).conns[c].inTransaction
                    || (autocommit.Some? && (autocommit.value || ignored || posted.Granted?))
    ensures
      var before := old(driver.g).conns[c];
      var begins := autocommit == Some(false) && !ignored && posted.Granted?;
      && c in driver.g.conns && (driver.g.conns[c].inTransaction <==> before.inTransaction || begins)
      && (driver.g.conns[c].hasSession <==> before.hasSession || (!before.inTransaction && begins && posted.opens))
  {
    if driver.g.conns[c].inTransaction {
      return true;
    }
    if autocommit.None? {
      return false;
    }
    if autocommit.value || ignored {
      return true;
    }
    if posted.Refused? {
      return false;
    }
    var conn := driver.g.conns[c];
    if !conn.hasSession && posted.opens {
      conn := conn.(hasSession := true);
    }
    driver.g := driver.g.(conns := driver.g.conns[c := conn.(inTransaction := true)]);
    return true;
  }

  /** Whether the end of a transaction goes through: a valid code, and the server's grant. */
  predicate Grants(valid: bool, posted: Posted) {
    valid && posted.Granted?
  }

  function Opening(c: Addr, posted: Posted): set<Addr> {
    if posted.Granted? && posted.opens then {c} else {}
  }

  method FinishTransactionIfNeeded(driver: Driver, c: Addr, valid: bool, posted: Posted) returns (ok: bool)
    requires c in driver.g.conns
    modifies driver
    ensures driver.g == if old(driver.g).conns[c].inTransaction && Grants(valid, posted)
                        then Ended(old(driver.g), {c}, Opening(c, posted)) else old(driver.g)
    ensures ok <==> !old(driver.g).conns[c].inTransaction || (valid && posted.Granted?)
    ensures
      var before := old(driver.g).conns[c];
      && c in driver.g.conns && (driver.g.conns[c].inTransaction <==> before.inTransaction && !ok)
      && (driver.g.conns[c].hasSession <==> before.hasSession || (before.inTransaction && ok && posted.opens))
  {
    if !driver.g.conns[c].inTransaction {
      return true;
    }
    if !valid || posted.Refused? {
      return false;
    }
    var conn := driver.g.conns[c];
    if !conn.hasSession && posted.opens {
      conn := conn.(hasSession := true);
    }
    ghost var before := driver.g;
    driver.g := driver.g.(conns := driver.g.conns[c := conn.(inTransaction := false)]);
    assert driver.g.conns == Ended(before, {c}, Opening(c, posted)).conns;
    return true;
  }

  /** The connections of an environment that are in a transaction. */
  function Active(g: Graph, e: Addr): set<Addr>
    requires e in g.envs
  {
    set c | c in g.envs[e].conns && c in g.conns && g.conns[c].inTransaction
  }

  function Sessions(ended: set<Addr>, replies: Addr -> Posted): set<Addr> {
    set c | c in ended && replies(c).Granted? && replies(c).opens
  }

  /** Goes on from one connection to the next, and stops at the first whose transaction cannot be ended. */
  method EndOnEnvironment(driver: Driver, e: Addr, valid: bool, replies: Addr -> Posted)
    returns (ok: bool, ended: set<Addr>)
    requires Wired(driver.g) && e in driver.g.envs
    modifies driver
    ensures driver.g == Ended(old(driver.g), ended, Sessions(ended, replies))
    ensures ended <= Active(old(driver.g), e) && forall c :: c in ended ==> Grants(valid, replies(c))
    ensures ok ==> ended == Active(old(driver.g), e)
    ensures ok <==> forall c :: c in old(driver.g).envs[e].conns && old(driver.g).conns[c].inTransaction ==>
                      valid && replies(c).Granted?
    ensures forall c :: c in driver.g.conns <==> c in old(driver.g).conns
    ensures forall c :: c in driver.g.conns ==>
              && (driver.g.conns[c].inTransaction <==> old(driver.g).conns[c].inTransaction && c !in ended)
              && (driver.g.conns[c].hasSession <==>
                    old(driver.g).conns[c].hasSession || (c in ended && replies(c).Granted? && replies(c).opens))
  {
    ghost var start := driver.g;
    var left, done: set<Addr> := driver.g.envs[e].conns, {};
    ended := {};
    EndedNone(start, replies);
    while left != {}
      invariant left + done == start.envs[e].conns && left !! done && ended == done * Active(start, e)
      invariant driver.g == Ended(start, ended, Sessions(ended, replies))
      invariant forall c :: c in ended ==> Grants(valid, replies(c))
      decreases left
    {
      var c :| c in left;
      EndedOneMore(start, ended, replies, c);
      var active := driver.g.conns[c].inTransaction;
      var finished := FinishTransactionIfNeeded(driver, c, valid, replies(c));
      if !finished {
        assert c in Active(start, e);
        return false, ended;
      }
      left, done := left - {c}, done + {c};
      if active {
        ended := ended + {c};
      }
    }
    assert done == start.envs[e].conns;
    return true, ended;
  }

  lemma EndedNone(g: Graph, replies: Addr -> Posted)
    ensures Ended(g, {}, Sessions({}, replies)) == g
  {
    assert Ended(g, {}, Sessions({}, replies)).conns == g.conns;
  }

  lemma EndedOneMore(g: Graph, ended: set<Addr>, replies: Addr -> Posted, c: Addr)
    requires c in g.conns && c !in ended
    ensures
      var before := Ended(g, ended, Sessions(ended, replies));
      && before.conns[c] == g.conns[c]
      && Ended(before, {c}, Opening(c, replies(c))) == Ended(g, ended + {c}, Sessions(ended + {c}, replies))
  {
    var before, after := Ended(g, ended, Sessions(ended, replies)), Ended(g, ended + {c}, Sessions(ended + {c}, replies));
    assert Ended(before, {c}, Opening(c, replies(c))).conns == after.conns;
  }

  /** SQLEndTran: on a connection, or on all connections of an environment; other handles are invalid. */
  method SQLEndTranInternal(driver: Driver, handleType: int, h: AnyHandle, valid: bool, replies: Addr -> Posted)
    returns (rc: Rc, op: Op)
    requires Wired(driver.g) && (h.Null? || Live(driver.g, h))
    modifies driver
    ensures driver.g == Apply(old(driver.g), op) && Wired(driver.g)
    ensures rc == InvalidHandle <==> !(handleType in {SQL_HANDLE_DBC, SQL_HANDLE_ENV} && HasType(h, handleType))
    ensures rc == InvalidHandle ==> driver.g == old(driver.g)
    ensures rc == Success && h.DbcH? ==>
              h.conn in driver.g.conns && !driver.g.conns[h.conn].inTransaction
    ensures rc == Success && h.EnvH? ==> h.env in driver.g.envs && Active(driver.g, h.env) == {}
    ensures rc == Error && h.DbcH? ==>
              driver.g == old(driver.g) && h.conn in driver.g.conns && driver.g.conns[h.conn].inTransaction
  {
    op := EndConn(0, false, false);
    NothingEnds(driver.g);
    if handleType == SQL_HANDLE_DBC {
      if !HasType(h, handleType) {
        return InvalidHandle, op;
      }
      var opens := replies(h.conn).Granted? && replies(h.conn).opens;
      op := EndConn(h.conn, Grants(valid, replies(h.conn)), opens);
      EndKeeps(driver.g, {h.conn}, Opening(h.conn, replies(h.conn)));
      var ok := FinishTransactionIfNeeded(driver, h.conn, valid, replies(h.conn));
      return if ok then Success else Error, op;
    }
    if handleType == SQL_HANDLE_ENV {
      if !HasType(h, handleType) {
        return InvalidHandle, op;
      }
      ghost var before := driver.g;
      var ok, ended := EndOnEnvironment(driver, h.env, valid, replies);
      op := EndEnv(h.env, ended, Sessions(ended, replies));
      EndKeeps(before, ended, Sessions(ended, replies));
      assert Ending(before, h.env, ended) == ended;
      return if ok then Success else Error, op;
    }
    return InvalidHandle, op;
  }

  lemma NothingEnds(g: Graph)
    ensures Apply(g, EndConn(0, false, false)) == g
  {
  }
}
