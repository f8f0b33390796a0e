/** What the proxy's counters mean in every interleaving of its tasks. */
module ProxyAccounting {
  import opened SqlTypes
  import opened IdleProxy

  type Tunnels = map<Id, Tunnel>

  function Storage(ts: Tunnels): set<Id> { set id | id in ts && ts[id].monitored }

  function KilledOnes(ts: Tunnels): set<Id> { set id | id in ts && ts[id].hasReason }

  function DroppedOnes(ts: Tunnels): set<Id> { set id | id in ts && ts[id].dropped }

  /** What holds of each tunnel by itself. */
  predicate TunnelInv(t: Tunnel) {
    && (t.hasReason <==> t.state != Open)
    && (t.hasReason || t.down == AboutToKill ==> t.monitored)
    && t.up != AboutToKill
    && (t.client == Finished ==> t.up == Ended && t.down == Ended)
    && (t.dropped ==> t.client == Finished && !t.hasReason && t.monitored)
  }

  ghost predicate TunnelsInv(st: State) {
    && (forall id :: id in st.tunnels ==> TunnelInv(st.tunnels[id]))
    && st.live <= st.tunnels.Keys
    && (forall id :: id in st.tunnels ==> (id in st.live <==> st.tunnels[id].client != Finished))
  }

  /** Each counter is the number of tunnels of its kind. */
  ghost predicate Counted(st: State) {
    && st.stats.tunnels == |st.tunnels.Keys|
    && st.stats.storageTunnels == |Storage(st.tunnels)|
    && st.stats.kills == |KilledOnes(st.tunnels)|
    && st.stats.serverDrops == |DroppedOnes(st.tunnels)|
  }

  predicate DropsCovered(st: State) {
    st.stats.reconnects + (if st.hadDrop then 1 else 0) <= st.stats.kills + st.stats.serverDrops
  }

  ghost predicate Inv(st: State) {
    TunnelsInv(st) && Counted(st) && DropsCovered(st)
  }

  // One tunnel changes

  /** Replacing a tunnel by one of the same kinds leaves the counts. */
  lemma SameKinds(st: State, id: Id, t: Tunnel)
    requires Counted(st) && id in st.tunnels
    requires t.monitored == st.tunnels[id].monitored && t.hasReason == st.tunnels[id].hasReason
    requires t.dropped == st.tunnels[id].dropped
    ensures Counted(SetTunnel(st, id, t))
  {
    var ts := SetTunnel(st, id, t).tunnels;
    assert ts.Keys == st.tunnels.Keys;
    assert Storage(ts) == Storage(st.tunnels);
    assert KilledOnes(ts) == KilledOnes(st.tunnels);
    assert DroppedOnes(ts) == DroppedOnes(st.tunnels);
  }

  lemma SetKeepsTunnels(st: State, id: Id, t: Tunnel)
    requires TunnelsInv(st) && id in st.tunnels && TunnelInv(t)
    requires t.client == Finished <==> st.tunnels[id].client == Finished
    ensures TunnelsInv(SetTunnel(st, id, t))
  {
  }

  lemma SetKeeps(st: State, id: Id, t: Tunnel)
    requires Inv(st) && id in st.tunnels && TunnelInv(t)
    requires t.client == Finished <==> st.tunnels[id].client == Finished
    requires t.monitored == st.tunnels[id].monitored && t.hasReason == st.tunnels[id].hasReason
    requires t.dropped == st.tunnels[id].dropped
    ensures Inv(SetTunnel(st, id, t))
  {
    SameKinds(st, id, t);
    SetKeepsTunnels(st, id, t);
  }

  lemma OpenKinds(ts: Tunnels, id: Id, t: Tunnel)
    requires id !in ts && !t.hasReason && !t.dropped
    ensures ts[id := t].Keys == ts.Keys + {id}
    ensures Storage(ts[id := t]) == if t.monitored then Storage(ts) + {id} else Storage(ts)
    ensures KilledOnes(ts[id := t]) == KilledOnes(ts) && DroppedOnes(ts[id := t]) == DroppedOnes(ts)
  {
  }

  lemma OpenCounted(st: State, id: Id, monitored: bool)
    requires Counted(st) && id !in st.tunnels
    ensures Counted(OnOpen(st, id, monitored))
  {
    OpenKinds(st.tunnels, id, OnOpen(st, id, monitored).tunnels[id]);
    assert id !in Storage(st.tunnels);
  }

  lemma OpenTunnels(st: State, id: Id, monitored: bool)
    requires TunnelsInv(st) && id !in st.tunnels
    ensures TunnelsInv(OnOpen(st, id, monitored))
  {
  }

  predicate Closing(st: State, id: Id) {
    id in st.tunnels && st.tunnels[id].client.Gathering? && st.tunnels[id].up == Ended && st.tunnels[id].down == Ended
  }

  lemma DroppedKinds(ts: Tunnels, id: Id, t: Tunnel)
    requires id in ts && !ts[id].dropped && t.monitored == ts[id].monitored && t.hasReason == ts[id].hasReason
    ensures ts[id := t].Keys == ts.Keys
    ensures Storage(ts[id := t]) == Storage(ts) && KilledOnes(ts[id := t]) == KilledOnes(ts)
    ensures DroppedOnes(ts[id := t]) == if t.dropped then DroppedOnes(ts) + {id} else DroppedOnes(ts)
    ensures id !in DroppedOnes(ts)
  {
  }

  lemma CleanUpCounted(st: State, id: Id)
    requires Counted(st) && Closing(st, id) && !st.tunnels[id].dropped
    ensures Counted(OnCleanUp(st, id))
  {
    DroppedKinds(st.tunnels, id, OnCleanUp(st, id).tunnels[id]);
  }

  lemma CleanUpTunnels(st: State, id: Id)
    requires TunnelsInv(st) && Closing(st, id)
    ensures TunnelsInv(OnCleanUp(st, id))
  {
  }

  /** Tunnels that the proxy may kill. */
  predicate Killable(st: State, hit: set<Id>) {
    forall id :: id in hit ==> id in st.tunnels && st.tunnels[id].state == Open && st.tunnels[id].monitored
  }

  lemma StruckKinds(st: State, cfg: Config, hit: set<Id>)
    requires hit <= st.tunnels.Keys
    ensures
      var ts, us := st.tunnels, Struck(st, cfg, hit).tunnels;
      && us.Keys == ts.Keys && Storage(us) == Storage(ts) && DroppedOnes(us) == DroppedOnes(ts)
      && KilledOnes(us) == KilledOnes(ts) + hit
  {
  }

  lemma StruckCounted(st: State, cfg: Config, hit: set<Id>)
    requires Counted(st) && hit <= st.tunnels.Keys && KilledOnes(st.tunnels) !! hit
    ensures Counted(Struck(st, cfg, hit))
  {
    StruckKinds(st, cfg, hit);
  }

  lemma StruckTunnels(st: State, cfg: Config, hit: set<Id>)
    requires TunnelsInv(st) && Killable(st, hit) && hit <= st.live
    ensures TunnelsInv(Struck(st, cfg, hit)) && KilledOnes(st.tunnels) !! hit
  {
  }

  lemma KillAllKeeps(st: State, cfg: Config, ids: set<Id>)
    requires Inv(st) && ids <= st.live && forall id :: id in ids ==> st.tunnels[id].monitored
    ensures Inv(KillAll(st, cfg, ids))
  {
    StruckTunnels(st, cfg, Hit(st, ids));
    StruckCounted(st, cfg, Hit(st, ids));
  }

  lemma DrainedKeeps(st: State, cfg: Config, id: Id, dir: Direction)
    requires Inv(st) && Enabled(st, cfg, Drained(id, dir))
    ensures Inv(Next(st, cfg, Drained(id, dir)))
  {
    if RelayOf(st.tunnels[id], dir) == AboutToKill {
      var killed := KillAll(st, cfg, {id});
      KillAllKeeps(st, cfg, {id});
      KillOne(st, cfg, id);
      SetKeeps(killed, id, WithRelay(killed.tunnels[id], dir, Ended));
    } else {
      SetKeeps(st, id, OnDrained(st.tunnels[id], dir));
    }
  }

  lemma OpenKeeps(st: State, id: Id, monitored: bool)
    requires Inv(st) && id !in st.tunnels
    ensures Inv(OnOpen(st, id, monitored))
  {
    OpenCounted(st, id, monitored);
    OpenTunnels(st, id, monitored);
  }

  lemma DataKeeps(st: State, cfg: Config, id: Id, dir: Direction, n: nat)
    requires Inv(st) && Enabled(st, cfg, Data(id, dir, n))
    ensures Inv(Next(st, cfg, Data(id, dir, n)))
  {
    SetKeeps(st, id, OnData(st, cfg, st.tunnels[id], dir, n));
  }

  lemma EndKeeps(st: State, cfg: Config, id: Id, dir: Direction)
    requires Inv(st) && Enabled(st, cfg, EndRelay(id, dir))
    ensures Inv(Next(st, cfg, EndRelay(id, dir)))
  {
    SetKeeps(st, id, WithRelay(st.tunnels[id], dir, Ended));
  }

  lemma ClientKeeps(st: State, cfg: Config, step: Step)
    requires Inv(st) && Enabled(st, cfg, step) && (step.WakeClient? || step.UpEnded?)
    ensures Inv(Next(st, cfg, step))
  {
    var t := st.tunnels[step.id];
    SetKeeps(st, step.id, if step.WakeClient? then OnWake(t) else Cancelled(t, t.client.downFirst));
  }

  lemma CleanUpKeeps(st: State, cfg: Config, id: Id)
    requires Inv(st) && Enabled(st, cfg, CleanUp(id))
    ensures Inv(Next(st, cfg, CleanUp(id)))
  {
    CleanUpCounted(st, id);
    CleanUpTunnels(st, id);
  }

  lemma StepKeepsInv(st: State, cfg: Config, step: Step)
    requires Inv(st) && Enabled(st, cfg, step)
    ensures Inv(Next(st, cfg, step))
  {
    match step
    case OpenTunnel(id, monitored) => OpenKeeps(st, id, monitored);
    case Data(id, dir, n) => DataKeeps(st, cfg, id, dir, n);
    case EndRelay(id, dir) => EndKeeps(st, cfg, id, dir);
    case Drained(id, dir) => DrainedKeeps(st, cfg, id, dir);
    case WakeClient(_) => ClientKeeps(st, cfg, step);
    case UpEnded(_) => ClientKeeps(st, cfg, step);
    case CleanUp(id) => CleanUpKeeps(st, cfg, id);
    case Watch(idle) => KillAllKeeps(st, cfg, Watched(st, idle, st.live));
  }

  // Runs

  ghost predicate EnabledRun(st: State, cfg: Config, steps: seq<Step>)
    decreases |steps|
  {
    steps == [] || (Enabled(st, cfg, steps[0]) && EnabledRun(Next(st, cfg, steps[0]), cfg, steps[1..]))
  }

  ghost function Run(st: State, cfg: Config, steps: seq<Step>): State
    requires EnabledRun(st, cfg, steps)
    decreases |steps|
  {
    if steps == [] then st else Run(Next(st, cfg, steps[0]), cfg, steps[1..])
  }

  lemma {:induction false} RunKeepsInv(st: State, cfg: Config, steps: seq<Step>)
    requires Inv(st) && EnabledRun(st, cfg, steps)
    ensures Inv(Run(st, cfg, steps))
    decreases |steps|
  {
    if steps == [] {
    } else {
      StepKeepsInv(st, cfg, steps[0]);
      RunKeepsInv(Next(st, cfg, steps[0]), cfg, steps[1..]);
    }
  }

  lemma StartInv()
    ensures Inv(START)
  {
    assert Storage(map[]) == {} && KilledOnes(map[]) == {} && DroppedOnes(map[]) == {};
  }

  /** At every await of every run: reconnects, and a pending one, are covered by kills and drops of distinct tunnels. */
  lemma CountersInOrder(cfg: Config, steps: seq<Step>)
    requires EnabledRun(START, cfg, steps)
    ensures
      var last := Run(START, cfg, steps);
      && last.stats.reconnects + (if last.hadDrop then 1 else 0) <= last.stats.kills + last.stats.serverDrops
      && last.stats.kills + last.stats.serverDrops <= last.stats.storageTunnels <= last.stats.tunnels
  {
    StartInv();
    RunKeepsInv(START, cfg, steps);
    KindsAreDisjoint(Run(START, cfg, steps));
  }

  // What single steps do to the counters and the flag

  /** Opening a monitored tunnel with a drop pending adds exactly one reconnect and clears the flag; others do neither. */
  lemma OpenReconnects(st: State, cfg: Config, id: Id, monitored: bool)
    requires id !in st.tunnels
    ensures
      var next := Next(st, cfg, OpenTunnel(id, monitored));
      && next.stats.reconnects == st.stats.reconnects + (if monitored && st.hadDrop then 1 else 0)
      && (next.hadDrop <==> st.hadDrop && !monitored)
      && next.stats.tunnels == st.stats.tunnels + 1
      && next.stats.storageTunnels == st.stats.storageTunnels + (if monitored then 1 else 0)
      && next.stats.kills == st.stats.kills && next.stats.serverDrops == st.stats.serverDrops
      && next.live == st.live + {id} && next.tunnels.Keys == st.tunnels.Keys + {id}
      && next.tunnels[id] == Tunnel(monitored, Open, false, Reading, Reading, Waiting, 0, 0, false)
      && forall k :: k in st.tunnels ==> next.tunnels[k] == st.tunnels[k]
  {
  }

  /** The clean-up counts a drop iff the server ended first a monitored tunnel that was not killed, and sets the flag. */
  lemma CleanUpDrops(st: State, cfg: Config, id: Id)
    requires Enabled(st, cfg, CleanUp(id))
    ensures
      var t, next := st.tunnels[id], Next(st, cfg, CleanUp(id));
      var drops := t.client.downFirst && t.monitored && !t.hasReason;
      && next.stats == st.stats.(serverDrops := st.stats.serverDrops + if drops then 1 else 0)
      && (next.hadDrop <==> drops || (st.hadDrop && (t.hasReason || st.live - {id} != {})))
      && next.live == st.live - {id} && next.tunnels == st.tunnels[id := t.(client := Finished, dropped := drops)]
  {
  }

  /**
   A chunk that is read: a stale tunnel is reset by its client, a swallowed one loses it, one that takes a monitored open
   tunnel to the threshold in force, with kills left, ends in a kill; any other waits to be passed on.
   */
  lemma ReadLeaves(st: State, cfg: Config, id: Id, dir: Direction, n: nat)
    requires Enabled(st, cfg, Data(id, dir, n))
    ensures
      var t, later := st.tunnels[id], st.stats.kills > 0 && cfg.reconnectKillAfter > 0;
      var threshold := if later then cfg.reconnectKillAfter else cfg.killAfter;
      var dooms := && dir == Down && t.state == Open && t.monitored && 0 < threshold <= t.downBytes + n
                   && (cfg.maxKills <= 0 || st.stats.kills < cfg.maxKills);
      Next(st, cfg, Data(id, dir, n))
      == st.(tunnels := st.tunnels[id :=
               if t.state == Blackholed || (t.state == Stale && dir == Down) then t
               else if t.state == Stale then t.(state := Killed, up := Ended)
               else if dooms then t.(downBytes := t.downBytes + n, down := AboutToKill)
               else if dir == Up then t.(up := Draining(n)) else t.(down := Draining(n))])
  {
  }

  /** A write that has drained is counted and the relay reads on; if it was the last before a kill, the relay ends. */
  lemma DrainLeaves(st: State, cfg: Config, id: Id, dir: Direction)
    requires Enabled(st, cfg, Drained(id, dir))
    ensures
      var t, next := st.tunnels[id], Next(st, cfg, Drained(id, dir));
      && id in next.tunnels
      && (dir == Up && t.up.Draining? ==>
            next == st.(tunnels := st.tunnels[id := t.(up := Reading, upBytes := t.upBytes + t.up.n)]))
      && (dir == Down && t.down.Draining? ==>
            next == st.(tunnels := st.tunnels[id := t.(down := Reading, downBytes := t.downBytes + t.down.n)]))
      && (dir == Down && t.down == AboutToKill && t.state == Open ==>
            && next.stats == st.stats.(kills := st.stats.kills + 1) && next.hadDrop && next.live == st.live
            && next.tunnels[id].down == Ended && next.tunnels[id].hasReason && next.tunnels[id].state != Open)
      && (dir == Down && t.down == AboutToKill && t.state != Open ==>
            next == st.(tunnels := st.tunnels[id := t.(down := Ended)]))
  {
    KillOne(st, cfg, id);
  }

  /** Ending a relay, and what the client does about it: a swallowing tunnel outlives its downward relay. */
  lemma EndsLeave(st: State, cfg: Config, step: Step)
    requires (step.EndRelay? || step.WakeClient? || step.UpEnded?) && Enabled(st, cfg, step)
    ensures
      var t, first := st.tunnels[step.id], st.tunnels[step.id].down == Ended && st.tunnels[step.id].up != Ended;
      var stays := step.WakeClient? && t.up != Ended && t.state != Open && t.state != Killed;
      Next(st, cfg, step)
      == st.(tunnels := st.tunnels[step.id :=
               if step.EndRelay? && step.dir == Up then t.(up := Ended)
               else if step.EndRelay? then t.(down := Ended)
               else if stays then t.(client := AwaitingUp(first))
               else t.(up := Ended, down := Ended,
                       client := Gathering(if step.UpEnded? then t.client.downFirst else first))])
  {
  }

  /** The watchdog kills exactly the live open monitored tunnels that are idle, and counts them. */
  lemma WatchKills(st: State, cfg: Config, idle: set<Id>, id: Id)
    requires cfg.idleTimeout > 0 && id in st.tunnels && st.tunnels[id].state == Open
    ensures
      var next := Next(st, cfg, Watch(idle));
      && id in next.tunnels
      && (next.tunnels[id].state != Open <==> id in st.live && id in idle && st.tunnels[id].monitored)
      && next.stats.kills == st.stats.kills
                             + |set k | k in st.live && k in idle && k in st.tunnels && st.tunnels[k].monitored
                                        && st.tunnels[k].state == Open|
  {
    assert Hit(st, Watched(st, idle, st.live))
        == set k | k in st.live && k in idle && k in st.tunnels && st.tunnels[k].monitored && st.tunnels[k].state == Open;
  }

  /** A kill takes an open tunnel to the state of the mode and leaves any other tunnel alone. */
  lemma KillLeaves(st: State, cfg: Config, ids: set<Id>, id: Id)
    requires id in st.tunnels
    ensures
      var t, u := st.tunnels[id], KillAll(st, cfg, ids).tunnels[id];
      if id in ids && t.state == Open
      then u == t.(state := match cfg.mode
                            case Close => Killed
                            case Reset => Killed
                            case Corrupt => Killed
                            case Blackhole => Blackholed
                            case StaleReset => Stale,
                   hasReason := true)
      else u == t
    ensures
      var next := KillAll(st, cfg, ids);
      && next.live == st.live && (next.hadDrop <==> st.hadDrop || next.stats.kills > st.stats.kills)
      && next.stats == st.stats.(kills := next.stats.kills)
  {
    var hit := Hit(st, ids);
    if hit == {} {
    } else {
      var k :| k in hit;
      assert hit == hit - {k} + {k};
    }
  }

  lemma KindsAreDisjoint(st: State)
    requires Inv(st)
    ensures KilledOnes(st.tunnels) !! DroppedOnes(st.tunnels)
    ensures st.stats.kills + st.stats.serverDrops <= st.stats.storageTunnels <= st.stats.tunnels
  {
    var ts := st.tunnels;
    assert KilledOnes(ts) + DroppedOnes(ts) <= Storage(ts) <= ts.Keys;
    SubsetSize(KilledOnes(ts) + DroppedOnes(ts), Storage(ts));
    SubsetSize(Storage(ts), ts.Keys);
    assert |KilledOnes(ts) + DroppedOnes(ts)| == |KilledOnes(ts)| + |DroppedOnes(ts)|;
  }

  lemma SubsetSize(a: set<Id>, b: set<Id>)
    requires a <= b
    ensures |a| <= |b|
  {
    assert b == a + (b - a);
  }

  /** Tunnels never go back: a killed one keeps its reason, and states change only as listed. */
  predicate Later(t: Tunnel, u: Tunnel) {
    && u.monitored == t.monitored && (t.hasReason ==> u.hasReason) && (t.dropped ==> u.dropped)
    && (u.state == t.state || t.state == Open || (t.state == Stale && u.state == Killed))
    && u.upBytes >= t.upBytes && u.downBytes >= t.downBytes
  }

  lemma StruckIsForward(st: State, cfg: Config, ids: set<Id>, id: Id)
    requires id in st.tunnels
    ensures id in KillAll(st, cfg, ids).tunnels && Later(st.tunnels[id], KillAll(st, cfg, ids).tunnels[id])
    ensures KillAll(st, cfg, ids).tunnels[id].up == st.tunnels[id].up
    ensures KillAll(st, cfg, ids).tunnels[id].down == st.tunnels[id].down
  {
  }

  lemma SetIsForward(st: State, k: Id, u: Tunnel, id: Id)
    requires k in st.tunnels && id in st.tunnels && Later(st.tunnels[k], u)
    ensures Later(st.tunnels[id], SetTunnel(st, k, u).tunnels[id])
  {
  }

  lemma DrainedIsForward(st: State, cfg: Config, k: Id, dir: Direction, id: Id)
    requires Enabled(st, cfg, Drained(k, dir)) && id in st.tunnels
    ensures id in Next(st, cfg, Drained(k, dir)).tunnels
    ensures Later(st.tunnels[id], Next(st, cfg, Drained(k, dir)).tunnels[id])
  {
    if RelayOf(st.tunnels[k], dir) == AboutToKill {
      var killed := KillAll(st, cfg, {k});
      StruckIsForward(st, cfg, {k}, id);
      SetIsForward(killed, k, WithRelay(killed.tunnels[k], dir, Ended), id);
    } else {
      SetIsForward(st, k, OnDrained(st.tunnels[k], dir), id);
    }
  }

  lemma StepIsForward(st: State, cfg: Config, step: Step, id: Id)
    requires TunnelsInv(st) && Enabled(st, cfg, step) && id in st.tunnels
    ensures id in Next(st, cfg, step).tunnels && Later(st.tunnels[id], Next(st, cfg, step).tunnels[id])
  {
    match step
    case OpenTunnel(_, _) =>
    case Data(k, dir, n) => SetIsForward(st, k, OnData(st, cfg, st.tunnels[k], dir, n), id);
    case EndRelay(k, dir) => SetIsForward(st, k, WithRelay(st.tunnels[k], dir, Ended), id);
    case Drained(k, dir) => DrainedIsForward(st, cfg, k, dir, id);
    case WakeClient(k) => SetIsForward(st, k, OnWake(st.tunnels[k]), id);
    case UpEnded(k) => SetIsForward(st, k, Cancelled(st.tunnels[k], st.tunnels[k].client.downFirst), id);
    case CleanUp(k) => SetIsForward(st, k, OnCleanUp(st, k).tunnels[k], id);
    case Watch(idle) => StruckIsForward(st, cfg, Watched(st, idle, st.live), id);
  }

  /** A tunnel is killed at most once: kills counts the tunnels that have a reason, and a reason is never taken back. */
  lemma {:induction false} RunIsForward(st: State, cfg: Config, steps: seq<Step>, id: Id)
    requires Inv(st) && EnabledRun(st, cfg, steps) && id in st.tunnels
    ensures
      var last := Run(st, cfg, steps);
      && id in last.tunnels && Later(st.tunnels[id], last.tunnels[id])
      && (last.tunnels[id].hasReason <==> last.tunnels[id].state != Open)
      && !(last.tunnels[id].hasReason && last.tunnels[id].dropped)
    decreases |steps|
  {
    if steps == [] {
    } else {
      var next := Next(st, cfg, steps[0]);
      StepIsForward(st, cfg, steps[0], id);
      StepKeepsInv(st, cfg, steps[0]);
      RunIsForward(next, cfg, steps[1..], id);
    }
  }

  // Killing by bytes

  /** Bytes that a tunnel has sent down, with those still draining. */
  function SentDown(t: Tunnel): nat {
    t.downBytes + if t.down.Draining? then t.down.n else 0
  }

  /** A tunnel that may be killed and still relays has sent less than `bound`. */
  predicate Below(t: Tunnel, bound: int) {
    t.monitored && t.state == Open && (t.down == Reading || t.down.Draining?) ==> SentDown(t) < bound
  }

  ghost predicate AllBelow(ts: Tunnels, bound: int) {
    forall id :: id in ts ==> Below(ts[id], bound)
  }

  /** The larger of the thresholds for a first and for a later kill. */
  function Bound(cfg: Config): int {
    if cfg.reconnectKillAfter > cfg.killAfter then cfg.reconnectKillAfter else cfg.killAfter
  }

  predicate MayKill(st: State, cfg: Config) {
    cfg.maxKills <= 0 || st.stats.kills < cfg.maxKills
  }

  lemma DataStaysBelow(st: State, cfg: Config, t: Tunnel, dir: Direction, n: nat)
    requires Below(t, Bound(cfg)) && RelayOf(t, dir) == Reading
    requires cfg.killAfter > 0 && MayKill(st, cfg)
    ensures Below(OnData(st, cfg, t, dir, n), Bound(cfg))
  {
  }

  lemma StruckStaysBelow(st: State, cfg: Config, ids: set<Id>, bound: int)
    requires AllBelow(st.tunnels, bound)
    ensures AllBelow(KillAll(st, cfg, ids).tunnels, bound)
  {
  }

  lemma StepStaysBelow(st: State, cfg: Config, step: Step)
    requires AllBelow(st.tunnels, Bound(cfg)) && Enabled(st, cfg, step)
    requires cfg.killAfter > 0 && MayKill(st, cfg)
    ensures AllBelow(Next(st, cfg, step).tunnels, Bound(cfg))
  {
    match step
    case Data(id, dir, n) => DataStaysBelow(st, cfg, st.tunnels[id], dir, n);
    case Drained(id, dir) => StruckStaysBelow(st, cfg, {id}, Bound(cfg));
    case Watch(idle) => StruckStaysBelow(st, cfg, Watched(st, idle, st.live), Bound(cfg));
    case _ =>
  }

  lemma {:induction false} KillsOnlyRise(st: State, cfg: Config, steps: seq<Step>)
    requires EnabledRun(st, cfg, steps)
    ensures st.stats.kills <= Run(st, cfg, steps).stats.kills
    decreases |steps|
  {
    if steps == [] {
    } else {
      KillsOnlyRise(Next(st, cfg, steps[0]), cfg, steps[1..]);
    }
  }

  /**
   As long as the limit on kills is not used up, no monitored open tunnel goes on relaying once it has sent as much as
   the larger threshold.
   */
  lemma {:induction false} RunStaysBelow(st: State, cfg: Config, steps: seq<Step>)
    requires AllBelow(st.tunnels, Bound(cfg)) && EnabledRun(st, cfg, steps)
    requires cfg.killAfter > 0 && MayKill(Run(st, cfg, steps), cfg)
    ensures AllBelow(Run(st, cfg, steps).tunnels, Bound(cfg))
    decreases |steps|
  {
    if steps == [] {
    } else {
      KillsOnlyRise(st, cfg, steps);
      StepStaysBelow(st, cfg, steps[0]);
      RunStaysBelow(Next(st, cfg, steps[0]), cfg, steps[1..]);
    }
  }

  /** A killed tunnel that pretends to work: it takes bytes in and passes none on. */
  predicate Swallowing(t: Tunnel) {
    (t.state == Blackholed || t.state == Stale) && !t.up.Draining? && !t.down.Draining? && t.down != AboutToKill
  }

  lemma StepSwallows(st: State, cfg: Config, step: Step, id: Id)
    requires TunnelsInv(st) && Enabled(st, cfg, step) && id in st.tunnels && Swallowing(st.tunnels[id])
    ensures
      var next := Next(st, cfg, step);
      && id in next.tunnels
      && var u := next.tunnels[id];
         && u.upBytes == st.tunnels[id].upBytes && u.downBytes == st.tunnels[id].downBytes
         && (Swallowing(u) || (u.state == Killed && st.tunnels[id].state == Stale))
  {
    match step
    case Drained(k, dir) => KillOne(st, cfg, k);
    case _ =>
  }

  /** While a tunnel stays blackholed or stale its byte counts do not change; only a stale one is reset, by its client. */
  lemma {:induction false} RunSwallows(st: State, cfg: Config, steps: seq<Step>, id: Id)
    requires Inv(st) && EnabledRun(st, cfg, steps) && id in st.tunnels && Swallowing(st.tunnels[id])
    ensures
      var last := Run(st, cfg, steps);
      && id in last.tunnels
      && var t, u := st.tunnels[id], last.tunnels[id];
         && (u.state == t.state ==> u.upBytes == t.upBytes && u.downBytes == t.downBytes)
         && (u.state == t.state || (t.state == Stale && u.state == Killed))
    decreases |steps|
  {
    if steps == [] {
    } else {
      var next := Next(st, cfg, steps[0]);
      StepSwallows(st, cfg, steps[0], id);
      StepKeepsInv(st, cfg, steps[0]);
      if Swallowing(next.tunnels[id]) {
        StepIsForward(st, cfg, steps[0], id);
        RunSwallows(next, cfg, steps[1..], id);
      } else {
        RunIsForward(next, cfg, steps[1..], id);
      }
    }
  }
}
