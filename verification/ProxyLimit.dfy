/** How many tunnels the proxy kills under --max-kills. */
module ProxyLimit {
  import opened SqlTypes
  import opened IdleProxy
  import opened ProxyAccounting

  /** Tunnels whose relay has decided to kill and still waits for its last write. */
  function Pending(ts: Tunnels): set<Id> { set id | id in ts && ts[id].down == AboutToKill && ts[id].state == Open }

  /** The watchdog kills every idle tunnel it monitors, however many kills are allowed. */
  lemma WatchdogIgnoresLimit(st: State, cfg: Config, idle: set<Id>)
    requires TunnelsInv(st) && Enabled(st, cfg, Watch(idle))
    ensures
      var victims := set id | id in st.live && id in idle && st.tunnels[id].monitored && st.tunnels[id].state == Open;
      Next(st, cfg, Watch(idle)).stats.kills == st.stats.kills + |victims|
  {
    var victims := set id | id in st.live && id in idle && st.tunnels[id].monitored && st.tunnels[id].state == Open;
    assert Hit(st, Watched(st, idle, st.live)) == victims;
  }

  // At most so many kills

  /** At every await of the run at most `p` kills are pending. */
  ghost predicate PendingAtMost(st: State, cfg: Config, steps: seq<Step>, p: nat)
    requires EnabledRun(st, cfg, steps)
    decreases |steps|
  {
    |Pending(st.tunnels)| <= p && (steps == [] || PendingAtMost(Next(st, cfg, steps[0]), cfg, steps[1..], p))
  }

  /** Once the limit is used up, what is pending may still be carried out. */
  ghost predicate WithinOvershoot(st: State, cfg: Config, p: nat) {
    st.stats.kills < cfg.maxKills || st.stats.kills + |Pending(st.tunnels)| < cfg.maxKills + p
  }

  /** What a step does to kills and pending kills. */
  ghost predicate Spends(st: State, next: State, cfg: Config) {
    if next.stats.kills == st.stats.kills
    then Pending(next.tunnels) <= Pending(st.tunnels) || st.stats.kills < cfg.maxKills
    else next.stats.kills == st.stats.kills + 1 && Pending(next.tunnels) < Pending(st.tunnels)
  }

  lemma SetSpends(st: State, cfg: Config, id: Id, t: Tunnel)
    requires id in st.tunnels
    requires t.down == AboutToKill && t.state == Open ==> st.stats.kills < cfg.maxKills || id in Pending(st.tunnels)
    ensures Spends(st, SetTunnel(st, id, t), cfg)
  {
  }

  lemma KillSpends(st: State, cfg: Config, id: Id)
    requires TunnelsInv(st) && id in st.tunnels && st.tunnels[id].down == AboutToKill
    ensures Spends(st, Next(st, cfg, Drained(id, Down)), cfg)
  {
    KillOne(st, cfg, id);
    var next := Next(st, cfg, Drained(id, Down));
    assert Pending(next.tunnels) == Pending(st.tunnels) - {id};
  }

  lemma StepSpends(st: State, cfg: Config, step: Step)
    requires TunnelsInv(st) && Enabled(st, cfg, step) && cfg.maxKills > 0 && cfg.idleTimeout <= 0
    ensures Spends(st, Next(st, cfg, step), cfg)
  {
    match step
    case OpenTunnel(_, _) =>
    case Data(id, dir, n) => SetSpends(st, cfg, id, OnData(st, cfg, st.tunnels[id], dir, n));
    case EndRelay(id, dir) => SetSpends(st, cfg, id, WithRelay(st.tunnels[id], dir, Ended));
    case Drained(id, dir) =>
      if RelayOf(st.tunnels[id], dir) == AboutToKill {
        KillSpends(st, cfg, id);
      } else {
        SetSpends(st, cfg, id, OnDrained(st.tunnels[id], dir));
      }
    case WakeClient(id) => SetSpends(st, cfg, id, OnWake(st.tunnels[id]));
    case UpEnded(id) => SetSpends(st, cfg, id, Cancelled(st.tunnels[id], st.tunnels[id].client.downFirst));
    case CleanUp(_) =>
  }

  lemma SpendingStaysWithin(st: State, next: State, cfg: Config, p: nat)
    requires WithinOvershoot(st, cfg, p) && Spends(st, next, cfg) && |Pending(st.tunnels)| <= p
    ensures WithinOvershoot(next, cfg, p)
  {
    var before, after := Pending(st.tunnels), Pending(next.tunnels);
    if after < before {
      ProperSubsetSize(after, before);
    } else if after == before {
    }
  }

  lemma ProperSubsetSize(a: set<Id>, b: set<Id>)
    requires a < b
    ensures |a| < |b|
  {
    var id :| id in b && id !in a;
    SubsetSize(a, b - {id});
  }

  lemma {:induction false} RunStaysWithin(st: State, cfg: Config, steps: seq<Step>, p: nat)
    requires cfg.maxKills > 0 && cfg.idleTimeout <= 0 && Inv(st) && WithinOvershoot(st, cfg, p)
    requires EnabledRun(st, cfg, steps) && PendingAtMost(st, cfg, steps, p)
    ensures WithinOvershoot(Run(st, cfg, steps), cfg, p)
    decreases |steps|
  {
    if steps == [] {
    } else {
      StepKeepsInv(st, cfg, steps[0]);
      StepSpends(st, cfg, steps[0]);
      SpendingStaysWithin(st, Next(st, cfg, steps[0]), cfg, p);
      RunStaysWithin(Next(st, cfg, steps[0]), cfg, steps[1..], p);
    }
  }

  /** Without the watchdog the limit is exceeded by at most the kills that are pending together, less one. */
  lemma OvershootBound(cfg: Config, steps: seq<Step>, p: nat)
    requires cfg.maxKills > 0 && cfg.idleTimeout <= 0 && p > 0
    requires EnabledRun(START, cfg, steps) && PendingAtMost(START, cfg, steps, p)
    ensures Run(START, cfg, steps).stats.kills < cfg.maxKills + p
  {
    StartInv();
    RunStaysWithin(START, cfg, steps, p);
  }

  // Runs that kill so many

  ghost predicate Leads(cfg: Config, steps: seq<Step>, p: nat, st: State) {
    EnabledRun(START, cfg, steps) && Run(START, cfg, steps) == st && PendingAtMost(START, cfg, steps, p)
  }

  /** Some run leads to `st` with at most `p` kills pending at every await. */
  ghost predicate Reachable(cfg: Config, st: State, p: nat) {
    exists steps :: Leads(cfg, steps, p, st)
  }

  lemma {:induction false} OneMoreStep(st: State, cfg: Config, steps: seq<Step>, step: Step, p: nat)
    requires EnabledRun(st, cfg, steps) && PendingAtMost(st, cfg, steps, p) && Enabled(Run(st, cfg, steps), cfg, step)
    requires |Pending(Next(Run(st, cfg, steps), cfg, step).tunnels)| <= p
    ensures EnabledRun(st, cfg, steps + [step]) && PendingAtMost(st, cfg, steps + [step], p)
    ensures Run(st, cfg, steps + [step]) == Next(Run(st, cfg, steps), cfg, step)
    decreases |steps|
  {
    if steps == [] {
      NothingAdded([step]);
    } else {
      OneMoreStep(Next(st, cfg, steps[0]), cfg, steps[1..], step, p);
      assert (steps + [step])[1..] == steps[1..] + [step];
    }
  }

  lemma ReachNext(cfg: Config, st: State, step: Step, p: nat)
    requires Reachable(cfg, st, p) && Enabled(st, cfg, step) && |Pending(Next(st, cfg, step).tunnels)| <= p
    ensures Reachable(cfg, Next(st, cfg, step), p)
  {
    var steps :| Leads(cfg, steps, p, st);
    OneMoreStep(START, cfg, steps, step, p);
    assert Leads(cfg, steps + [step], p, Next(st, cfg, step));
  }

  const FRESH := Tunnel(true, Open, false, Reading, Reading, Waiting, 0, 0, false)

  function Ids(lo: nat, hi: nat): (ids: set<Id>)
    requires lo <= hi
    ensures |ids| == hi - lo && forall id :: id in ids <==> lo <= id < hi
    decreases hi
  {
    if lo == hi then {} else Ids(lo, hi - 1) + {hi - 1}
  }

  function Upto(n: nat): (ids: set<Id>)
    ensures |ids| == n && forall id: Id :: id in ids <==> id < n
  {
    if n == 0 then {} else Upto(n - 1) + {n - 1}
  }

  predicate IsDoomed(t: Tunnel) {
    t.monitored && t.state == Open && t.down == AboutToKill
  }

  predicate IsDead(t: Tunnel) {
    t.state != Open && t.down == Ended
  }

  predicate Fits(u: Tunnel, id: Id, dead: nat, doomed: nat, t: Tunnel) {
    if id < dead then IsDead(u) else if id < doomed then IsDoomed(u) else if id == doomed then u == t else u == FRESH
  }

  /** Of `n` tunnels the first `dead` have been killed, those up to `doomed` are about to be, the next is `t`. */
  ghost predicate Crowd(st: State, n: nat, dead: nat, doomed: nat, t: Tunnel) {
    && st.stats.kills == dead && (forall id: Id :: id in st.tunnels <==> id < n)
    && forall id :: id in st.tunnels ==> Fits(st.tunnels[id], id, dead, doomed, t)
  }

  /** Some state of this kind is reachable with at most `p` kills pending at every await. */
  ghost predicate Reached(cfg: Config, n: nat, dead: nat, doomed: nat, p: nat) {
    exists st :: Reachable(cfg, st, p) && Crowd(st, n, dead, doomed, FRESH)
  }

  function Opened(n: nat): State {
    State((map id | id in Upto(n) :: FRESH), Upto(n), Stats(n, 0, 0, 0, n), false)
  }

  lemma CrowdPending(st: State, n: nat, dead: nat, doomed: nat, t: Tunnel)
    requires Crowd(st, n, dead, doomed, t) && dead <= doomed <= n && t.down != AboutToKill
    ensures |Pending(st.tunnels)| == doomed - dead
  {
    forall id ensures id in Pending(st.tunnels) <==> id in Ids(dead, doomed) {
      if id in st.tunnels {
        assert Fits(st.tunnels[id], id, dead, doomed, t);
      }
    }
    assert Pending(st.tunnels) == Ids(dead, doomed);
  }

  lemma OpenOneMore(n: nat)
    ensures OnOpen(Opened(n), n, true) == Opened(n + 1)
    ensures Pending(Opened(n + 1).tunnels) == {}
  {
    assert OnOpen(Opened(n), n, true).tunnels == Opened(n + 1).tunnels;
    assert OnOpen(Opened(n), n, true).live == Opened(n + 1).live;
  }

  lemma {:induction false} ReachOpened(cfg: Config, n: nat, p: nat)
    ensures Reachable(cfg, Opened(n), p)
    decreases n
  {
    if n == 0 {
      assert Opened(n) == START;
      assert Pending(START.tunnels) == {};
      assert Leads(cfg, [], p, START);
    } else {
      ReachOpened(cfg, n - 1, p);
      OpenOneMore(n - 1);
      ReachNext(cfg, Opened(n - 1), OpenTunnel(n - 1, true), p);
    }
  }

  function Having(d: nat): Tunnel { FRESH.(downBytes := d) }

  lemma SetNext(st: State, n: nat, dead: nat, doomed: nat, t: Tunnel, u: Tunnel)
    requires Crowd(st, n, dead, doomed, t) && dead <= doomed < n
    ensures Crowd(SetTunnel(st, doomed, u), n, dead, doomed, u)
  {
    var next := SetTunnel(st, doomed, u);
    forall id | id in next.tunnels ensures Fits(next.tunnels[id], id, dead, doomed, u) {
      assert Fits(st.tunnels[id], id, dead, doomed, t);
    }
  }

  lemma SetDoomed(st: State, n: nat, dead: nat, doomed: nat, t: Tunnel, u: Tunnel)
    requires Crowd(st, n, dead, doomed, t) && dead <= doomed < n && IsDoomed(u)
    ensures Crowd(SetTunnel(st, doomed, u), n, dead, doomed + 1, FRESH)
  {
    var next := SetTunnel(st, doomed, u);
    forall id | id in next.tunnels ensures Fits(next.tunnels[id], id, dead, doomed + 1, FRESH) {
      assert Fits(st.tunnels[id], id, dead, doomed, t);
    }
  }

  lemma NextIs(st: State, n: nat, dead: nat, doomed: nat, t: Tunnel)
    requires Crowd(st, n, dead, doomed, t) && doomed < n && dead <= doomed
    ensures doomed in st.tunnels && st.tunnels[doomed] == t
  {
    assert Fits(st.tunnels[doomed], doomed, dead, doomed, t);
  }

  lemma ChunkPasses(cfg: Config, st: State, id: Id, d: nat, chunk: nat)
    requires id in st.tunnels && st.tunnels[id] == Having(d) && 0 < chunk <= READ_CHUNK && d + chunk < Threshold(st, cfg)
    ensures Enabled(st, cfg, Data(id, Down, chunk))
    ensures Next(st, cfg, Data(id, Down, chunk)) == SetTunnel(st, id, Having(d).(down := Draining(chunk)))
  {
  }

  lemma ChunkDrains(cfg: Config, st: State, id: Id, d: nat, chunk: nat)
    requires id in st.tunnels && st.tunnels[id] == Having(d).(down := Draining(chunk))
    ensures Enabled(st, cfg, Drained(id, Down))
    ensures Next(st, cfg, Drained(id, Down)) == SetTunnel(st, id, Having(d + chunk))
  {
  }

  /** A chunk short of the threshold is passed on. */
  lemma ReadOn(cfg: Config, st: State, n: nat, dead: nat, doomed: nat, d: nat, chunk: nat, p: nat) returns (next: State)
    requires Crowd(st, n, dead, doomed, Having(d)) && dead <= doomed < n && doomed - dead <= p
    requires Reachable(cfg, st, p) && 0 < chunk <= READ_CHUNK && d + chunk < Threshold(st, cfg)
    ensures Crowd(next, n, dead, doomed, Having(d + chunk)) && Reachable(cfg, next, p)
    ensures Threshold(next, cfg) == Threshold(st, cfg)
  {
    var draining := Having(d).(down := Draining(chunk));
    var mid := SetTunnel(st, doomed, draining);
    NextIs(st, n, dead, doomed, Having(d));
    ChunkPasses(cfg, st, doomed, d, chunk);
    SetNext(st, n, dead, doomed, Having(d), draining);
    CrowdPending(mid, n, dead, doomed, draining);
    ReachNext(cfg, st, Data(doomed, Down, chunk), p);
    ChunkDrains(cfg, mid, doomed, d, chunk);
    next := SetTunnel(mid, doomed, Having(d + chunk));
    SetNext(mid, n, dead, doomed, draining, Having(d + chunk));
    CrowdPending(next, n, dead, doomed, Having(d + chunk));
    ReachNext(cfg, mid, Drained(doomed, Down), p);
  }

  lemma ChunkDooms(cfg: Config, st: State, id: Id, d: nat, chunk: nat)
    requires id in st.tunnels && st.tunnels[id] == Having(d) && 0 < chunk <= READ_CHUNK
    requires 0 < Threshold(st, cfg) <= d + chunk && (cfg.maxKills <= 0 || st.stats.kills < cfg.maxKills)
    ensures Enabled(st, cfg, Data(id, Down, chunk))
    ensures Next(st, cfg, Data(id, Down, chunk)) == SetTunnel(st, id, Having(d + chunk).(down := AboutToKill))
  {
  }

  /** The chunk that reaches it dooms the tunnel, while the limit is not used up. */
  lemma ReadLast(cfg: Config, st: State, n: nat, dead: nat, doomed: nat, d: nat, chunk: nat, p: nat)
    requires Crowd(st, n, dead, doomed, Having(d)) && dead <= doomed < n && doomed + 1 - dead <= p
    requires Reachable(cfg, st, p) && 0 < chunk <= READ_CHUNK && 0 < Threshold(st, cfg) <= d + chunk
    requires cfg.maxKills <= 0 || dead < cfg.maxKills
    ensures Reached(cfg, n, dead, doomed + 1, p)
  {
    var u := Having(d + chunk).(down := AboutToKill);
    NextIs(st, n, dead, doomed, Having(d));
    ChunkDooms(cfg, st, doomed, d, chunk);
    SetDoomed(st, n, dead, doomed, Having(d), u);
    CrowdPending(SetTunnel(st, doomed, u), n, dead, doomed + 1, FRESH);
    ReachNext(cfg, st, Data(doomed, Down, chunk), p);
  }

  /** Chunk by chunk up to the threshold. */
  lemma {:induction false} ReadUp(cfg: Config, st: State, n: nat, dead: nat, doomed: nat, d: nat, p: nat)
    requires Crowd(st, n, dead, doomed, Having(d)) && dead <= doomed < n && doomed + 1 - dead <= p
    requires Reachable(cfg, st, p) && d < Threshold(st, cfg)
    requires cfg.maxKills <= 0 || dead < cfg.maxKills
    ensures Reached(cfg, n, dead, doomed + 1, p)
    decreases Threshold(st, cfg) - d
  {
    var chunk: nat := READ_CHUNK;
    if Threshold(st, cfg) <= d + chunk {
      ReadLast(cfg, st, n, dead, doomed, d, chunk, p);
    } else {
      var next := ReadOn(cfg, st, n, dead, doomed, d, chunk, p);
      ReadUp(cfg, next, n, dead, doomed, d + chunk, p);
    }
  }

  lemma DoomReached(cfg: Config, n: nat, dead: nat, doomed: nat, p: nat)
    requires cfg.killAfter > 0 && dead <= doomed < n && (cfg.maxKills <= 0 || dead < cfg.maxKills)
    requires doomed + 1 - dead <= p && Reached(cfg, n, dead, doomed, p)
    ensures Reached(cfg, n, dead, doomed + 1, p)
  {
    var st :| Reachable(cfg, st, p) && Crowd(st, n, dead, doomed, FRESH);
    assert Having(0) == FRESH;
    ReadUp(cfg, st, n, dead, doomed, 0, p);
  }

  lemma KillFirst(cfg: Config, st: State, n: nat, dead: nat, doomed: nat)
    requires Crowd(st, n, dead, doomed, FRESH) && dead < doomed <= n
    ensures Enabled(st, cfg, Drained(dead, Down))
    ensures Crowd(Next(st, cfg, Drained(dead, Down)), n, dead + 1, doomed, FRESH)
  {
    assert Fits(st.tunnels[dead], dead, dead, doomed, FRESH);
    KillDoomed(cfg, st, dead);
    var next := Next(st, cfg, Drained(dead, Down));
    forall id | id in next.tunnels ensures Fits(next.tunnels[id], id, dead + 1, doomed, FRESH) {
      assert Fits(st.tunnels[id], id, dead, doomed, FRESH);
    }
  }

  lemma KillDoomed(cfg: Config, st: State, id: Id)
    requires id in st.tunnels && IsDoomed(st.tunnels[id])
    ensures Enabled(st, cfg, Drained(id, Down))
    ensures
      var next := Next(st, cfg, Drained(id, Down));
      && next.stats.kills == st.stats.kills + 1 && (forall k :: k in next.tunnels <==> k in st.tunnels)
      && IsDead(next.tunnels[id]) && forall k :: k in st.tunnels && k != id ==> next.tunnels[k] == st.tunnels[k]
  {
    KillOne(st, cfg, id);
  }

  lemma KillReached(cfg: Config, n: nat, dead: nat, doomed: nat, p: nat)
    requires dead < doomed <= n && doomed - dead <= p && Reached(cfg, n, dead, doomed, p)
    ensures Reached(cfg, n, dead + 1, doomed, p)
  {
    var st :| Reachable(cfg, st, p) && Crowd(st, n, dead, doomed, FRESH);
    KillFirst(cfg, st, n, dead, doomed);
    CrowdPending(Next(st, cfg, Drained(dead, Down)), n, dead + 1, doomed, FRESH);
    ReachNext(cfg, st, Drained(dead, Down), p);
  }

  lemma {:induction false} ReachDoomed(cfg: Config, n: nat, dead: nat, doomed: nat, last: nat, p: nat)
    requires cfg.killAfter > 0 && dead <= doomed <= last <= n && last - dead <= p
    requires cfg.maxKills <= 0 || dead < cfg.maxKills
    requires Reached(cfg, n, dead, doomed, p)
    ensures Reached(cfg, n, dead, last, p)
    decreases last - doomed
  {
    if doomed == last {
    } else {
      DoomReached(cfg, n, dead, doomed, p);
      ReachDoomed(cfg, n, dead, doomed + 1, last, p);
    }
  }

  lemma {:induction false} ReachDead(cfg: Config, n: nat, dead: nat, doomed: nat, p: nat)
    requires dead <= doomed <= n && doomed - dead <= p && Reached(cfg, n, dead, doomed, p)
    ensures Reached(cfg, n, doomed, doomed, p)
    decreases doomed - dead
  {
    if dead == doomed {
    } else {
      KillReached(cfg, n, dead, doomed, p);
      ReachDead(cfg, n, dead + 1, doomed, p);
    }
  }

  lemma OpenedIsCrowd(n: nat, none: nat)
    requires none == 0
    ensures Crowd(Opened(n), n, none, none, FRESH)
  {
  }

  /** One kill after the other, up to `dead`. */
  lemma {:induction false} ReachSerially(cfg: Config, n: nat, dead: nat, p: nat)
    requires cfg.killAfter > 0 && dead <= n && (cfg.maxKills <= 0 || dead <= cfg.maxKills) && p > 0
    ensures Reached(cfg, n, dead, dead, p)
    decreases dead
  {
    if dead == 0 {
      ReachOpened(cfg, n, p);
      OpenedIsCrowd(n, dead);
    } else {
      ReachSerially(cfg, n, dead - 1, p);
      ReachDoomed(cfg, n, dead - 1, dead - 1, dead, p);
      ReachDead(cfg, n, dead - 1, dead, p);
    }
  }

  ghost predicate Kills(cfg: Config, steps: seq<Step>, p: nat, kills: int) {
    EnabledRun(START, cfg, steps) && PendingAtMost(START, cfg, steps, p) && Run(START, cfg, steps).stats.kills == kills
  }

  /** The bound is reached: one kill short of the limit, `p` relays decide before any of them kills. */
  lemma OvershootReached(cfg: Config, p: nat)
    requires cfg.maxKills > 0 && cfg.killAfter > 0 && p > 0
    ensures var most := cfg.maxKills - 1 + p; exists steps :: Kills(cfg, steps, p, most)
  {
    var before: nat, n: nat := cfg.maxKills - 1, cfg.maxKills - 1 + p;
    ReachSerially(cfg, n, before, p);
    ReachDoomed(cfg, n, before, before, n, p);
    ReachDead(cfg, n, before, n, p);
    var st :| Reachable(cfg, st, p) && Crowd(st, n, n, n, FRESH);
    var steps :| Leads(cfg, steps, p, st);
    assert Kills(cfg, steps, p, cfg.maxKills - 1 + p);
  }

  lemma WatchOpened(cfg: Config, n: nat)
    requires cfg.idleTimeout > 0
    ensures
      var next := Next(Opened(n), cfg, Watch(Upto(n)));
      next.stats.kills == n && Pending(next.tunnels) == {}
  {
    var st, all := Opened(n), Upto(n);
    WatchdogIgnoresLimit(st, cfg, all);
    assert all == set id | id in st.live && id in all && st.tunnels[id].monitored && st.tunnels[id].state == Open;
  }

  /** One round of the watchdog kills any number of tunnels. */
  lemma WatchReached(cfg: Config, n: nat)
    requires cfg.idleTimeout > 0
    ensures exists steps :: Kills(cfg, steps, 0, n)
  {
    ReachOpened(cfg, n, 0);
    WatchOpened(cfg, n);
    var next := Next(Opened(n), cfg, Watch(Upto(n)));
    ReachNext(cfg, Opened(n), Watch(Upto(n)), 0);
    var steps :| Leads(cfg, steps, 0, next);
    assert Kills(cfg, steps, 0, n);
  }

  // When the limit holds

  ghost predicate NoneKilled(st: State) {
    && st.stats.kills == 0
    && forall id :: id in st.tunnels ==> st.tunnels[id].up != AboutToKill && st.tunnels[id].down != AboutToKill
  }

  lemma StepKillsNone(st: State, cfg: Config, step: Step)
    requires NoneKilled(st) && Enabled(st, cfg, step) && cfg.idleTimeout <= 0 && cfg.killAfter <= 0
    ensures NoneKilled(Next(st, cfg, step))
  {
  }

  lemma {:induction false} RunKillsNone(st: State, cfg: Config, steps: seq<Step>)
    requires NoneKilled(st) && EnabledRun(st, cfg, steps) && cfg.idleTimeout <= 0 && cfg.killAfter <= 0
    ensures NoneKilled(Run(st, cfg, steps))
    decreases |steps|
  {
    if steps == [] {
    } else {
      StepKillsNone(st, cfg, steps[0]);
      RunKillsNone(Next(st, cfg, steps[0]), cfg, steps[1..]);
    }
  }

  /** Every interleaving that starts at `st` keeps the limit. */
  ghost predicate KeepsLimit(st: State, cfg: Config) {
    forall steps :: EnabledRun(st, cfg, steps) ==> Run(st, cfg, steps).stats.kills <= cfg.maxKills
  }

  lemma Exceeded(st: State, cfg: Config, steps: seq<Step>)
    requires EnabledRun(st, cfg, steps) && Run(st, cfg, steps).stats.kills > cfg.maxKills
    ensures !KeepsLimit(st, cfg)
  {
  }

  /** The limit on kills is kept iff the proxy is configured to kill nothing to begin with. */
  lemma LimitKeptIff(cfg: Config)
    requires cfg.maxKills > 0
    ensures KeepsLimit(START, cfg) <==> cfg.idleTimeout <= 0 && cfg.killAfter <= 0
  {
    var p: nat, more := 2, cfg.maxKills + 1;
    if cfg.idleTimeout > 0 {
      WatchReached(cfg, more);
      var steps :| Kills(cfg, steps, 0, more);
      Exceeded(START, cfg, steps);
    } else if cfg.killAfter > 0 {
      OvershootReached(cfg, p);
      var steps :| Kills(cfg, steps, p, more);
      Exceeded(START, cfg, steps);
    } else {
      forall steps | EnabledRun(START, cfg, steps)
        ensures Run(START, cfg, steps).stats.kills <= cfg.maxKills
      {
        RunKillsNone(START, cfg, steps);
      }
    }
  }

  /** Without the watchdog: the largest number of kills, if at most `p` are ever pending together. */
  lemma MostKills(cfg: Config, p: nat, k: int)
    requires cfg.maxKills > 0 && cfg.idleTimeout <= 0 && cfg.killAfter > 0 && p > 0
    ensures var most := cfg.maxKills - 1 + p; exists steps :: Kills(cfg, steps, p, most)
    ensures (exists steps :: Kills(cfg, steps, p, k)) ==> k <= cfg.maxKills - 1 + p
  {
    OvershootReached(cfg, p);
    if steps :| Kills(cfg, steps, p, k) {
      OvershootBound(cfg, steps, p);
    }
  }
}
