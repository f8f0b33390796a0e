/**
 The fault-injecting CONNECT proxy: relays, clients and a watchdog run as cooperative tasks and share counters. Each
 step below is what one task does between two awaits.
 */
module IdleProxy {
  import opened SqlTypes

  type Id = nat

  const READ_CHUNK := 64 * 1024

  datatype Mode = Close | Reset | Corrupt | Blackhole | StaleReset

  datatype TunnelState = Open | Killed | Blackholed | Stale

  datatype Direction = Up | Down

  /** A relay waits for data, or for its write to drain, after which it may have to kill; or it has ended. */
  datatype Relay = Reading | Draining(n: nat) | AboutToKill | Ended

  /** A client waits for its first relay, perhaps for the upward one too, then for both, and cleans up. */
  datatype Client = Waiting | AwaitingUp(downFirst: bool) | Gathering(downFirst: bool) | Finished

  /** `dropped` records that the client's clean-up counted the tunnel as closed by the server. */
  datatype Tunnel = Tunnel(monitored: bool, state: TunnelState, hasReason: bool, up: Relay, down: Relay, client: Client,
                           upBytes: nat, downBytes: nat, dropped: bool)

  datatype Stats = Stats(tunnels: nat, kills: nat, serverDrops: nat, reconnects: nat, storageTunnels: nat)

  datatype Config = Config(mode: Mode, idleTimeout: int, killAfter: int, reconnectKillAfter: int, maxKills: int)

  datatype State = State(tunnels: map<Id, Tunnel>, live: set<Id>, stats: Stats, hadDrop: bool)

  const START := State(map[], {}, Stats(0, 0, 0, 0, 0), false)

  datatype Step =
    | OpenTunnel(id: Id, monitored: bool)
    | Data(id: Id, dir: Direction, n: nat)  // a read returns n bytes
    | EndRelay(id: Id, dir: Direction)      // end of file, or an error at any await
    | Drained(id: Id, dir: Direction)
    | WakeClient(id: Id)
    | UpEnded(id: Id)
    | CleanUp(id: Id)
    | Watch(idle: set<Id>)                  // the tunnels whose idle time exceeds the timeout

  function AfterKill(mode: Mode): TunnelState {
    match mode
    case Close => Killed
    case Reset => Killed
    case Corrupt => Killed
    case Blackhole => Blackholed
    case StaleReset => Stale
  }

  function KilledTunnel(t: Tunnel, mode: Mode): Tunnel {
    t.(state := AfterKill(mode), hasReason := true)
  }

  function Hit(st: State, ids: set<Id>): set<Id> {
    set id | id in ids && id in st.tunnels && st.tunnels[id].state == Open
  }

  /** kill() on each of these tunnels; it does nothing unless the tunnel is open. */
  function KillAll(st: State, cfg: Config, ids: set<Id>): State {
    Struck(st, cfg, Hit(st, ids))
  }

  function Struck(st: State, cfg: Config, hit: set<Id>): State {
    st.(tunnels := map id | id in st.tunnels ::
                     if id in hit then KilledTunnel(st.tunnels[id], cfg.mode) else st.tunnels[id],
        stats := st.stats.(kills := st.stats.kills + |hit|), hadDrop := st.hadDrop || hit != {})
  }

  function Threshold(st: State, cfg: Config): int {
    if st.stats.kills > 0 && cfg.reconnectKillAfter > 0 then cfg.reconnectKillAfter else cfg.killAfter
  }

  /** Whether a chunk that comes down makes the relay kill its tunnel after writing it. */
  predicate ShouldKill(st: State, cfg: Config, t: Tunnel, n: nat) {
    && Threshold(st, cfg) > 0 && (cfg.maxKills <= 0 || st.stats.kills < cfg.maxKills)
    && t.monitored && t.state == Open && t.downBytes + n >= Threshold(st, cfg)
  }

  function RelayOf(t: Tunnel, dir: Direction): Relay {
    if dir == Up then t.up else t.down
  }

  function WithRelay(t: Tunnel, dir: Direction, r: Relay): Tunnel {
    if dir == Up then t.(up := r) else t.(down := r)
  }

  function OnData(st: State, cfg: Config, t: Tunnel, dir: Direction, n: nat): Tunnel {
    if t.state == Stale && dir == Up then t.(state := Killed, up := Ended)
    else if t.state == Blackholed || t.state == Stale then t
    else if dir == Down && ShouldKill(st, cfg, t, n) then t.(downBytes := t.downBytes + n, down := AboutToKill)
    else WithRelay(t, dir, Draining(n))
  }

  function OnDrained(t: Tunnel, dir: Direction): Tunnel
    requires RelayOf(t, dir).Draining?
  {
    if dir == Up then t.(up := Reading, upBytes := t.upBytes + t.up.n)
    else t.(down := Reading, downBytes := t.downBytes + t.down.n)
  }

  /** Cancelling ends the relays that still run; a cancelled relay does nothing more. */
  function Cancelled(t: Tunnel, downFirst: bool): Tunnel {
    t.(up := Ended, down := Ended, client := Gathering(downFirst))
  }

  /** Which relays have ended is noted when the client wakes; a swallowing tunnel then waits for the client's side. */
  function OnWake(t: Tunnel): Tunnel {
    var downFirst := t.down == Ended && t.up != Ended;
    if (t.state == Blackholed || t.state == Stale) && t.up != Ended then t.(client := AwaitingUp(downFirst))
    else Cancelled(t, downFirst)
  }

  function SetTunnel(st: State, id: Id, t: Tunnel): State {
    st.(tunnels := st.tunnels[id := t])
  }

  function OnOpen(st: State, id: Id, monitored: bool): State {
    var reconnect := monitored && st.hadDrop;
    State(st.tunnels[id := Tunnel(monitored, Open, false, Reading, Reading, Waiting, 0, 0, false)], st.live + {id},
          st.stats.(tunnels := st.stats.tunnels + 1,
                    storageTunnels := st.stats.storageTunnels + (if monitored then 1 else 0),
                    reconnects := st.stats.reconnects + (if reconnect then 1 else 0)),
          st.hadDrop && !reconnect)
  }

  function OnCleanUp(st: State, id: Id): State
    requires id in st.tunnels && st.tunnels[id].client.Gathering?
  {
    var t, live := st.tunnels[id], st.live - {id};
    var dropped := t.client.downFirst && !t.hasReason && t.monitored;
    State(st.tunnels[id := t.(client := Finished, dropped := dropped)], live,
          if dropped then st.stats.(serverDrops := st.stats.serverDrops + 1) else st.stats,
          if dropped then true else if live == {} && !t.hasReason then false else st.hadDrop)
  }

  /** The tunnels among `seen` that the watchdog finds idle. */
  function Watched(st: State, idle: set<Id>, seen: set<Id>): set<Id> {
    set id | id in seen && id in idle && id in st.tunnels && st.tunnels[id].monitored
  }

  predicate Enabled(st: State, cfg: Config, step: Step) {
    match step
    case OpenTunnel(id, _) => id !in st.tunnels
    case Data(id, dir, n) => id in st.tunnels && RelayOf(st.tunnels[id], dir) == Reading && 0 < n <= READ_CHUNK
    case EndRelay(id, dir) => id in st.tunnels && RelayOf(st.tunnels[id], dir) != Ended
    case Drained(id, dir) =>
      id in st.tunnels && (RelayOf(st.tunnels[id], dir).Draining? || RelayOf(st.tunnels[id], dir) == AboutToKill)
    case WakeClient(id) =>
      id in st.tunnels && st.tunnels[id].client == Waiting && (st.tunnels[id].up == Ended || st.tunnels[id].down == Ended)
    case UpEnded(id) => id in st.tunnels && st.tunnels[id].client.AwaitingUp? && st.tunnels[id].up == Ended
    case CleanUp(id) =>
      id in st.tunnels && st.tunnels[id].client.Gathering? && st.tunnels[id].up == Ended && st.tunnels[id].down == Ended
    case Watch(_) => cfg.idleTimeout > 0
  }

  function Next(st: State, cfg: Config, step: Step): State
    requires Enabled(st, cfg, step)
  {
    match step
    case OpenTunnel(id, monitored) => OnOpen(st, id, monitored)
    case Data(id, dir, n) => SetTunnel(st, id, OnData(st, cfg, st.tunnels[id], dir, n))
    case EndRelay(id, dir) => SetTunnel(st, id, WithRelay(st.tunnels[id], dir, Ended))
    case Drained(id, dir) =>
      if RelayOf(st.tunnels[id], dir) == AboutToKill then
        SetTunnel(KillAll(st, cfg, {id}), id, WithRelay(KillAll(st, cfg, {id}).tunnels[id], dir, Ended))
      else SetTunnel(st, id, OnDrained(st.tunnels[id], dir))
    case WakeClient(id) => SetTunnel(st, id, OnWake(st.tunnels[id]))
    case UpEnded(id) => SetTunnel(st, id, Cancelled(st.tunnels[id], st.tunnels[id].client.downFirst))
    case CleanUp(id) => OnCleanUp(st, id)
    case Watch(idle) => KillAll(st, cfg, Watched(st, idle, st.live))
  }

  // As the program does it

  class Proxy {
    const cfg: Config
    var tunnels: map<Id, Tunnel>
    var live: set<Id>
    var stats: Stats
    var hadDrop: bool

    ghost function Contents(): State
      reads this
    {
      State(tunnels, live, stats, hadDrop)
    }

    constructor (cfg: Config)
      ensures Contents() == START && this.cfg == cfg
    {
      this.cfg := cfg;
      tunnels, live, stats, hadDrop := map[], {}, Stats(0, 0, 0, 0, 0), false;
    }

    method Kill(id: Id)
      requires id in tunnels
      modifies this
      ensures Contents() == KillAll(old(Contents()), cfg, {id})
    {
      KillOne(Contents(), cfg, id);
      if tunnels[id].state != Open {
        return;
      }
      var t := tunnels[id].(hasReason := true);
      stats := stats.(kills := stats.kills + 1);
      hadDrop := true;
      match cfg.mode {
        case Close => t := t.(state := Killed);
        case Reset => t := t.(state := Killed);
        case Corrupt => t := t.(state := Killed);
        case Blackhole => t := t.(state := Blackholed);
        case StaleReset => t := t.(state := Stale);
      }
      tunnels := tunnels[id := t];
    }

    /** One round of the watchdog, over a copy of the set of live tunnels. */
    method WatchRound(idle: set<Id>)
      requires live <= tunnels.Keys && Enabled(Contents(), cfg, Watch(idle))
      modifies this
      ensures Contents() == Next(old(Contents()), cfg, Watch(idle))
    {
      ghost var start := Contents();
      StruckNone(start, cfg);
      assert Hit(start, Watched(start, idle, {})) == {};
      WatchTunnels(start, idle, live);
    }

    method WatchTunnels(ghost start: State, idle: set<Id>, ids: set<Id>)
      requires ids <= start.tunnels.Keys && Contents() == KillAll(start, cfg, Watched(start, idle, {}))
      modifies this
      ensures Contents() == KillAll(start, cfg, Watched(start, idle, ids))
    {
      var left, seen: set<Id> := ids, {};
      while left != {}
        invariant left + seen == ids && left !! seen
        invariant Contents() == KillAll(start, cfg, Watched(start, idle, seen))
        decreases left
      {
        var id :| id in left;
        WatchTunnel(start, idle, seen, id);
        left, seen := left - {id}, seen + {id};
      }
      assert seen == ids;
    }

    method WatchTunnel(ghost start: State, idle: set<Id>, ghost seen: set<Id>, id: Id)
      requires id !in seen && id in start.tunnels && Contents() == KillAll(start, cfg, Watched(start, idle, seen))
      modifies this
      ensures Contents() == KillAll(start, cfg, Watched(start, idle, seen + {id}))
    {
      WatchOneMore(start, cfg, idle, seen, id);
      if tunnels[id].state != Open || !tunnels[id].monitored {
        return;
      }
      if id in idle {
        Kill(id);
      }
    }

    /** A chunk read by a relay, up to the next await. */
    method RelayData(id: Id, dir: Direction, n: nat)
      requires Enabled(Contents(), cfg, Data(id, dir, n))
      modifies this
      ensures Contents() == Next(old(Contents()), cfg, Data(id, dir, n))
    {
      var t := tunnels[id];
      if t.state == Blackholed || t.state == Stale {
        if dir == Up && t.state == Stale {
          tunnels := tunnels[id := t.(state := Killed, up := Ended)];
        } else {
          assert tunnels[id := t] == tunnels;
        }
        return;
      }
      if dir == Down {
        var threshold := if stats.kills > 0 && cfg.reconnectKillAfter > 0 then cfg.reconnectKillAfter else cfg.killAfter;
        if threshold > 0 && (cfg.maxKills <= 0 || stats.kills < cfg.maxKills)
           && t.monitored && t.state == Open && t.downBytes + n >= threshold {
          tunnels := tunnels[id := t.(downBytes := t.downBytes + n, down := AboutToKill)];
          return;
        }
      }
      tunnels := tunnels[id := WithRelay(t, dir, Draining(n))];
    }

    /** A client whose tunnel is established. */
    method OpenConnection(id: Id, monitored: bool)
      requires id !in tunnels
      modifies this
      ensures Contents() == OnOpen(old(Contents()), id, monitored)
    {
      tunnels := tunnels[id := Tunnel(monitored, Open, false, Reading, Reading, Waiting, 0, 0, false)];
      live := live + {id};
      stats := stats.(tunnels := stats.tunnels + 1);
      if monitored {
        stats := stats.(storageTunnels := stats.storageTunnels + 1);
        if hadDrop {
          stats := stats.(reconnects := stats.reconnects + 1);
          hadDrop := false;
        }
      }
    }

    /** The client's clean-up. */
    method FinishClient(id: Id)
      requires Enabled(Contents(), cfg, CleanUp(id))
      modifies this
      ensures Contents() == OnCleanUp(old(Contents()), id)
    {
      live := live - {id};
      var t := tunnels[id];
      var closedByServer := t.client.downFirst && !t.hasReason;
      var dropped := t.monitored && closedByServer;
      if dropped {
        stats := stats.(serverDrops := stats.serverDrops + 1);
        hadDrop := true;
      } else if live == {} && !t.hasReason {
        hadDrop := false;
      }
      tunnels := tunnels[id := t.(client := Finished, dropped := dropped)];
    }
  }

  lemma KillOne(st: State, cfg: Config, id: Id)
    requires id in st.tunnels
    ensures
      KillAll(st, cfg, {id})
      == if st.tunnels[id].state != Open then st
         else st.(tunnels := st.tunnels[id := KilledTunnel(st.tunnels[id], cfg.mode)],
                  stats := st.stats.(kills := st.stats.kills + 1), hadDrop := true)
  {
    if st.tunnels[id].state != Open {
      assert Hit(st, {id}) == {};
      StruckNone(st, cfg);
    } else {
      assert Hit(st, {id}) == {id};
      assert Struck(st, cfg, {id}).tunnels == st.tunnels[id := KilledTunnel(st.tunnels[id], cfg.mode)];
    }
  }

  lemma StruckNone(st: State, cfg: Config)
    ensures Struck(st, cfg, {}) == st
  {
    assert Struck(st, cfg, {}).tunnels == st.tunnels;
  }

  lemma StruckOneMore(st: State, cfg: Config, hit: set<Id>, id: Id)
    requires id !in hit && id in st.tunnels && st.tunnels[id].state == Open
    ensures KillAll(Struck(st, cfg, hit), cfg, {id}) == Struck(st, cfg, hit + {id})
  {
    var before := Struck(st, cfg, hit);
    KillOne(before, cfg, id);
    assert |hit + {id}| == |hit| + 1;
    assert KillAll(before, cfg, {id}).tunnels == Struck(st, cfg, hit + {id}).tunnels;
  }

  lemma WatchOneMore(st: State, cfg: Config, idle: set<Id>, seen: set<Id>, id: Id)
    requires id !in seen && id in st.tunnels
    ensures
      var before := KillAll(st, cfg, Watched(st, idle, seen));
      var t := before.tunnels[id];
      && t == st.tunnels[id]
      && KillAll(st, cfg, Watched(st, idle, seen + {id}))
         == if t.state == Open && t.monitored && id in idle then KillAll(before, cfg, {id}) else before
  {
    var hit := Hit(st, Watched(st, idle, seen));
    var t := st.tunnels[id];
    if t.state == Open && t.monitored && id in idle {
      assert Hit(st, Watched(st, idle, seen + {id})) == hit + {id};
      StruckOneMore(st, cfg, hit, id);
    } else {
      assert Hit(st, Watched(st, idle, seen + {id})) == hit;
    }
  }
}
