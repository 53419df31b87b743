/** The scoreboard object (internal/scoreboard). Its methods are the lock regions of the Go
    type and the calls composed from them; each is proved against the transition system. */
module Scoreboards {
  import opened Types
  import opened Selection
  import opened Regions
  import opened Requests
  import opened Invariants
  import Rules
  import StableSort
  import Tables

  datatype ForceError = ForceOk | EmptyHost | EmptyUpstream | UnknownUpstream

  class Scoreboard {
    var poolEntries: seq<PoolEntry>
    var poolRetryCap: int
    var poolLen: nat
    var cfg: Config
    var rules: seq<Rule>
    var entries: Entries
    var cascade: map<Host, Time>
    var forces: map<Host, Pin>
    var debounce: map<Key, Time>

    ghost predicate Valid()
      reads this
    {
      poolLen == |poolEntries|
    }

    ghost function State(): Board
      reads this
    {
      Board(poolEntries, poolRetryCap, cfg, rules, entries, cascade, forces, debounce)
    }

    constructor (pool: seq<PoolEntry>, retryCap: int, cfg: Config, rules: seq<Rule>)
      ensures Valid() && State() == Fresh(pool, retryCap, cfg, rules)
      ensures Sound(State())
    {
      this.poolEntries := pool;
      this.poolRetryCap := retryCap;
      this.poolLen := |pool|;
      this.cfg := cfg;
      this.rules := rules;
      this.entries := map[];
      this.cascade := map[];
      this.forces := map[];
      this.debounce := map[];
    }

    // -------------------------------------------------------------- reads

    method CheckCascadeActive(host: Host, now: Time) returns (active: bool)
      ensures active == CascadeActive(State(), host, now)
      ensures ReplyOf(State(), CheckCascade(host, now)) == Cascade(active)
    {
      active := host in cascade && cascade[host] > now;
    }

    method CascadeUntil(host: Host, now: Time) returns (until: Time)
      ensures until == if CascadeActive(State(), host, now) then cascade[host] else 0
    {
      if host !in cascade || cascade[host] <= now {
        return 0;
      }
      return cascade[host];
    }

    method PoolIds() returns (ids: seq<Id>)
      ensures |ids| == |poolEntries| && forall i :: 0 <= i < |ids| ==> ids[i] == poolEntries[i].up.id
    {
      ids := [];
      for i := 0 to |poolEntries|
        invariant |ids| == i && forall j :: 0 <= j < i ==> ids[j] == poolEntries[j].up.id
      {
        ids := ids + [poolEntries[i].up.id];
      }
    }

    method FindUpstream(id: Id) returns (up: Option<Upstream>)
      ensures up == FindId(poolEntries, id)
    {
      for k := 0 to |poolEntries|
        invariant FindId(poolEntries, id) == FindId(poolEntries[k..], id)
      {
        if poolEntries[k].up.id == id {
          return Some(poolEntries[k].up);
        }
      }
      return None;
    }

    /** `pickForced` under the read lock. */
    method LookupPin(host: Host, tried: set<Id>, now: Time) returns (pin: PinState)
      ensures pin == PinFor(State(), host, tried, now)
      ensures ReplyOf(State(), CheckPin(host, tried, now)) == PinIs(pin)
    {
      if host !in forces {
        return NoPin;
      }
      var entry := forces[host];
      if entry.until <= now {
        return PinExpired;
      }
      if entry.id in tried {
        return PinTried;
      }
      var up := FindUpstream(entry.id);
      if up.None? {
        return PinGone;
      }
      return PinLive(up.value);
    }

    /** What `Pick` copies under the read lock. */
    method CollectCandidates(host: Host, tried: set<Id>, now: Time) returns (pool: seq<Ranked>)
      ensures pool == Candidates(State(), host, tried, now, |poolEntries|)
    {
      var candidates := poolEntries;
      var rule := Rules.Match(rules, host);
      pool := [];
      for k := 0 to |candidates|
        invariant pool == Candidates(State(), host, tried, now, k)
      {
        var c := candidates[k];
        var id := c.up.id;
        if id in tried {
          continue;
        }
        if rule.Some? && rule.value.force {
          if id !in rule.value.preferRank {
            continue;
          }
        }
        var score, untilT, cooled := 0.0, 0, false;
        if host in entries {
          if id in entries[host] {
            var e := entries[host][id];
            score := e.score;
            untilT := e.cooldownUntil;
            cooled := untilT != 0 && untilT > now;
          }
        }
        var rank := if rule.Some? && id in rule.value.preferRank then rule.value.preferRank[id] else 0;
        pool := pool + [Ranked(c.up, c.priority, score, cooled, untilT, rank, k)];
      }
    }

    /** The candidate scan of `Pick`. */
    method ScanCandidates(host: Host, tried: set<Id>, now: Time, coin: Coin) returns (r: PickResult)
      ensures r == Scan(State(), host, tried, now, coin)
    {
      var probeChance := cfg.probeChance;
      var pool := CollectCandidates(host, tried, now);
      if |pool| == 0 {
        return PoolExhausted;
      }
      var eligible, cooled := SplitCooled(pool);
      WithCooledSplits(pool);
      if |eligible| == 0 {
        var soonest := Earliest(cooled);
        return Picked(soonest[coin.tie % |soonest|].up);
      }
      var order := StableSort.Sort(Less, eligible);
      StableSort.SortPermutes(Less, eligible);
      if |order| > 1 && probeChance > 0.0 && coin.u < probeChance {
        var idx := coin.pick % (|order| - 1);
        return Picked(order[1 + idx].up);
      }
      return Picked(order[0].up);
    }

    static method SplitCooled(pool: seq<Ranked>) returns (eligible: seq<Ranked>, cooled: seq<Ranked>)
      ensures eligible == WithCooled(pool, false)
      ensures cooled == WithCooled(pool, true)
    {
      eligible, cooled := [], [];
      for i := 0 to |pool|
        invariant eligible == WithCooled(pool[..i], false)
        invariant cooled == WithCooled(pool[..i], true)
      {
        assert pool[..i + 1][..i] == pool[..i];
        if pool[i].cooled {
          cooled := cooled + [pool[i]];
        } else {
          eligible := eligible + [pool[i]];
        }
      }
      assert pool[..|pool|] == pool;
    }

    // -------------------------------------------------------------- the request path's regions

    method RecordSuccess(host: Host, id: Id, now: Time)
      requires Valid()
      modifies this
      ensures Valid() && State() == Apply(old(State()), Succeed(host, id, now))
    {
      var e := EntryOf(entries, host, id);
      var score := e.score + cfg.successWeight;
      if score > cfg.scoreCap {
        score := cfg.scoreCap;
      }
      e := Entry(score, 0, now, e.successCount + 1, e.failureCount);
      entries := Put(entries, host, id, e);
      cascade := cascade - {host};
    }

    method AcceptForDebounce(key: Key, now: Time, window: Duration) returns (yes: bool)
      requires Valid()
      modifies this
      ensures Valid() && State() == Apply(old(State()), Stamp(key, now, window))
      ensures yes <==> window <= 0 || key !in old(debounce) || now - old(debounce)[key] >= window
      ensures ReplyOf(old(State()), Stamp(key, now, window)) == Accepted(yes)
    {
      if window <= 0 {
        return true;
      }
      if key in debounce && now - debounce[key] < window {
        return false;
      }
      debounce := debounce[key := now];
      return true;
    }

    method ApplyPenalty(host: Host, id: Id, now: Time, policy: Policy, cap: real, override: Option<Duration>)
      requires Valid()
      modifies this
      ensures Valid() && State() == Apply(old(State()), Penalize(host, id, now, policy, cap, override))
    {
      var e := EntryOf(entries, host, id);
      var score := e.score - policy.penalty;
      if score < -cap {
        score := -cap;
      }
      var cooldown := if override.Some? then override.value else policy.cooldown;
      var cooldownUntil := e.cooldownUntil;
      if override.Some? && cooldown > 0 {
        cooldownUntil := now + cooldown;
      } else if override.Some? {
        cooldownUntil := 0;
      } else if cooldown > 0 {
        var until := now + cooldown;
        if until > cooldownUntil {
          cooldownUntil := until;
        }
      }
      entries := Put(entries, host, id, Entry(score, cooldownUntil, now, e.successCount, e.failureCount + 1));
    }

    method TripCascade(host: Host, now: Time)
      requires Valid()
      modifies this
      ensures Valid() && State() == Apply(old(State()), Trip(host, now))
    {
      var ttl := cfg.cascadeTTL;
      if ttl <= 0 {
        return;
      }
      cascade := cascade[host := now + ttl];
    }

    method EvictExpiredPin(host: Host, now: Time)
      requires Valid()
      modifies this
      ensures Valid() && State() == Apply(old(State()), Regions.EvictPin(host, now))
    {
      if host in forces && forces[host].until <= now {
        forces := forces - {host};
      }
    }

    // -------------------------------------------------------------- maintenance regions

    method DecayTick()
      requires Valid()
      modifies this
      ensures Valid() && State() == Apply(old(State()), Decay)
    {
      var step := cfg.decayStep;
      if step <= 0.0 {
        assert forall h :: h in entries ==> DecayHost(entries[h], step) == entries[h];
        assert DecayAll(entries, step) == entries;
        return;
      }
      entries := Tables.DecayEntries(entries, step);
    }

    /** The first lock region of `Prune`; the counts are what each table lost. */
    method PruneEntries(now: Time) returns (entriesDropped: nat, hostsDropped: nat, cascadeDropped: nat)
      requires Valid()
      modifies this
      ensures Valid() && State() == Apply(old(State()), PruneBoard(now))
      ensures |Tables.Sites(entries)| + entriesDropped == |Tables.Sites(old(entries))|
      ensures |entries| + hostsDropped == |old(entries)|
      ensures |cascade| + cascadeDropped == |old(cascade)|
    {
      entries, entriesDropped, hostsDropped := Tables.DropEntries(entries, now, cfg.pruneAfter);
      cascade, cascadeDropped := Tables.DropCascades(cascade, now);
    }

    method PruneDebounced(now: Time, window: Duration) returns (dropped: nat)
      requires Valid()
      modifies this
      ensures Valid() && State() == Apply(old(State()), PruneStamps(now, window))
      ensures |debounce| + dropped == |old(debounce)|
    {
      debounce, dropped := Tables.DropStamps(debounce, now, window);
    }

    method BuildSnapshot(now: Time) returns (hosts: seq<HostSnapshot>, cooled: seq<CascadeSnapshot>)
      ensures Lists(State(), now, hosts, cooled)
    {
      hosts := Tables.SnapshotHosts(entries);
      cooled := Tables.SnapshotCascade(cascade, now);
    }

    method ApplySnapshot(hosts: seq<HostSnapshot>, cooled: seq<CascadeSnapshot>)
      requires Valid()
      modifies this
      ensures Valid() && State() == Apply(old(State()), Load(hosts, cooled))
    {
      entries := Tables.RestoreHosts(hosts);
      cascade := Tables.RestoreCascade(cooled);
    }

    method EntriesCount() returns (total: nat)
      ensures total == |Tables.Sites(entries)|
    {
      total := Tables.CountEntries(entries);
    }

    // -------------------------------------------------------------- operator and reload regions

    method ForgetEntries(host: Host) returns (had: bool)
      requires Valid()
      modifies this
      ensures Valid() && State() == Apply(old(State()), ForgetBoard(host))
      ensures had <==> host in old(entries) || host in old(cascade)
    {
      had := host in entries || host in cascade;
      entries := entries - {host};
      cascade := cascade - {host};
    }

    method ForgetDebounce(host: Host) returns (had: bool)
      requires Valid()
      modifies this
      ensures Valid() && State() == Apply(old(State()), ForgetStamps(host))
      ensures had <==> debounce != old(debounce)
    {
      debounce, had := Tables.DropHostStamps(debounce, host);
    }

    method PinTo(host: Host, id: Id, until: Time, now: Time) returns (err: ForceError)
      requires Valid()
      modifies this
      ensures Valid() && State() == Apply(old(State()), Force(host, id, until, now))
      ensures err == if until > now && FindId(poolEntries, id).None? then UnknownUpstream else ForceOk
    {
      if until <= now {
        if host in forces {
          forces := forces - {host};
        }
        return ForceOk;
      }
      var known := FindUpstream(id);
      if known.None? {
        return UnknownUpstream;
      }
      forces := forces[host := Pin(id, until)];
      return ForceOk;
    }

    /** `Force` with its argument checks, which run before any lock. */
    method ForceHost(host: Host, id: Id, until: Time, now: Time) returns (err: ForceError)
      requires Valid()
      modifies this
      ensures Valid()
      ensures err ==
        if host == "" then EmptyHost
        else if id == "" then EmptyUpstream
        else if until > now && !HasId(poolEntries, id) then UnknownUpstream
        else ForceOk
      ensures !err.ForceOk? ==> State() == old(State())
      ensures err.ForceOk? ==>
        State() == Apply(old(State()), Force(host, id, until, now))
        && (until > now ==> PinFor(State(), host, {}, now).PinLive? && PinFor(State(), host, {}, now).up.id == id)
        && (until <= now ==> host !in forces)
    {
      if host == "" {
        return EmptyHost;
      }
      if id == "" {
        return EmptyUpstream;
      }
      err := PinTo(host, id, until, now);
      FindIdMeaning(poolEntries, id);
    }

    method Unpin(host: Host) returns (had: bool)
      requires Valid()
      modifies this
      ensures Valid() && State() == Apply(old(State()), ClearForce(host))
      ensures had <==> host in old(forces)
      ensures State() == old(State()).(forces := forces) && forces == old(forces) - {host}
    {
      if host !in forces {
        return false;
      }
      forces := forces - {host};
      return true;
    }

    method ResetEntries()
      requires Valid()
      modifies this
      ensures Valid() && State() == Apply(old(State()), ResetBoard)
    {
      entries := map[];
      cascade := map[];
      forces := map[];
    }

    method ResetDebounce()
      requires Valid()
      modifies this
      ensures Valid() && State() == Apply(old(State()), ResetStamps)
    {
      debounce := map[];
    }

    method ReplacePool(pool: seq<PoolEntry>, retryCap: int)
      requires Valid()
      modifies this
      ensures Valid() && State() == Apply(old(State()), SwapPool(pool, retryCap))
    {
      poolEntries := pool;
      poolRetryCap := retryCap;
      poolLen := |pool|;
      forces := Tables.DropUnknownPins(forces, pool);
    }

    method Reload(newCfg: Config)
      requires Valid()
      modifies this
      ensures Valid() && State() == Apply(old(State()), Retune(newCfg))
    {
      var preservedDecay := cfg.decayInterval;
      cfg := newCfg.(decayInterval := preservedDecay);
    }

    method ReplaceRules(rs: seq<Rule>)
      requires Valid()
      modifies this
      ensures Valid() && State() == Apply(old(State()), Reroute(rs))
    {
      rules := rs;
    }

    // -------------------------------------------------------------- other goroutines

    /** One region of some goroutine. */
    method Perform(step: Step)
      requires Valid()
      modifies this
      ensures Valid() && State() == Apply(old(State()), step)
    {
      match step {
        case CheckCascade(_, _) =>
        case CheckPin(_, _, _) =>
        case ScanPool(_, _, _, _) =>
        case Succeed(host, id, now) => RecordSuccess(host, id, now);
        case Stamp(key, now, window) => var _ := AcceptForDebounce(key, now, window);
        case Penalize(host, id, now, policy, cap, override) => ApplyPenalty(host, id, now, policy, cap, override);
        case Trip(host, now) => TripCascade(host, now);
        case EvictPin(host, now) => EvictExpiredPin(host, now);
        case Decay => DecayTick();
        case PruneBoard(now) => var _, _, _ := PruneEntries(now);
        case PruneStamps(now, window) => var _ := PruneDebounced(now, window);
        case Load(hosts, cooled) => ApplySnapshot(hosts, cooled);
        case ForgetBoard(host) => var _ := ForgetEntries(host);
        case ForgetStamps(host) => var _ := ForgetDebounce(host);
        case Force(host, id, until, now) => var _ := PinTo(host, id, until, now);
        case ClearForce(host) => var _ := Unpin(host);
        case ResetBoard => ResetEntries();
        case ResetStamps => ResetDebounce();
        case SwapPool(pool, retryCap) => ReplacePool(pool, retryCap);
        case Retune(newCfg) => Reload(newCfg);
        case Reroute(rs) => ReplaceRules(rs);
      }
    }

    /** Whatever other goroutines run while the caller holds no lock. */
    method Interleave(steps: seq<Step>)
      requires Valid()
      modifies this
      ensures Valid() && State() == Run(old(State()), steps)
    {
      for i := 0 to |steps|
        invariant Valid() && Run(State(), steps[i..]) == Run(old(State()), steps)
      {
        assert steps[i..][0] == steps[i] && steps[i..][1..] == steps[i + 1..];
        Perform(steps[i]);
      }
    }

    // -------------------------------------------------------------- calls of several regions

    /** `Forget`, with `between` run by others between its two locks. The result says whether
        either region removed anything. */
    method Forget(host: Host, between: seq<Step>) returns (removed: bool)
      requires Valid()
      modifies this
      ensures Valid()
      ensures host == "" ==> !removed && State() == old(State())
      ensures host != "" ==> State() == Run(old(State()), [ForgetBoard(host)] + between + [ForgetStamps(host)])
      ensures host != "" && (host in old(entries) || host in old(cascade)) ==> removed
      ensures host != "" && !(host in old(entries) || host in old(cascade)) ==>
        var before := Run(old(State()), [ForgetBoard(host)] + between);
        removed == (WithoutHost(before.debounce, host) != before.debounce)
    {
      if host == "" {
        return false;
      }
      ghost var b := State();
      var had := ForgetEntries(host);
      Interleave(between);
      var hadDebounce := ForgetDebounce(host);
      removed := had || hadDebounce;
      RunCons(b, ForgetBoard(host), between);
      RunSnoc(b, [ForgetBoard(host)] + between, ForgetStamps(host));
    }

    /** `Reset`, with `between` run by others between its two locks. */
    method Reset(between: seq<Step>)
      requires Valid()
      modifies this
      ensures Valid() && State() == Run(old(State()), [ResetBoard] + between + [ResetStamps])
      ensures between == [] ==> State() == Fresh(poolEntries, poolRetryCap, cfg, rules)
    {
      ghost var b := State();
      ResetEntries();
      Interleave(between);
      ResetDebounce();
      RunCons(b, ResetBoard, between);
      RunSnoc(b, [ResetBoard] + between, ResetStamps);
    }

    /** `Prune`: the stamp pass uses the window read in the first region. */
    method Prune(now: Time, between: seq<Step>)
      returns (entriesDropped: nat, hostsDropped: nat, cascadeDropped: nat, debounceDropped: nat)
      requires Valid()
      modifies this
      ensures Valid()
      ensures State() == Run(old(State()), [PruneBoard(now)] + between + [PruneStamps(now, old(cfg.debounceWindow))])
      ensures var b := old(State()); var mid := Run(b, [PruneBoard(now)] + between);
        && |Tables.Sites(b.entries)| == |Tables.Sites(Apply(b, PruneBoard(now)).entries)| + entriesDropped
        && |b.entries| == |Apply(b, PruneBoard(now)).entries| + hostsDropped
        && |b.cascade| == |Apply(b, PruneBoard(now)).cascade| + cascadeDropped
        && |mid.debounce| == |debounce| + debounceDropped
    {
      ghost var b := State();
      var window := cfg.debounceWindow;
      entriesDropped, hostsDropped, cascadeDropped := PruneEntries(now);
      Interleave(between);
      debounceDropped := PruneDebounced(now, window);
      RunCons(b, PruneBoard(now), between);
      RunSnoc(b, [PruneBoard(now)] + between, PruneStamps(now, window));
    }

    /** `ForcedFor`: an expired pin is reported as absent and evicted in a second region. */
    method ForcedFor(host: Host, now: Time, between: seq<Step>) returns (pin: Option<Pin>)
      requires Valid()
      modifies this
      ensures Valid()
      ensures pin == if host in old(forces) && old(forces)[host].until > now then Some(old(forces)[host]) else None
      ensures host in old(forces) && old(forces)[host].until <= now ==>
        State() == Apply(Run(old(State()), between), Regions.EvictPin(host, now))
      ensures !(host in old(forces) && old(forces)[host].until <= now) ==> State() == old(State())
    {
      if host !in forces {
        return None;
      }
      var entry := forces[host];
      if entry.until <= now {
        Interleave(between);
        EvictExpiredPin(host, now);
        return None;
      }
      return Some(entry);
    }

    method PickForced(host: Host, tried: set<Id>, t: PickTurn) returns (up: Option<Upstream>)
      requires Valid()
      modifies this
      ensures Valid()
      ensures var pin := PinFor(old(State()), host, tried, t.now);
        && up == (if pin.PinLive? then Some(pin.up) else None)
        && State() == (if pin.PinExpired? then Apply(Run(old(State()), t.beforeEvict), Regions.EvictPin(host, t.now))
                       else old(State()))
    {
      var pin := LookupPin(host, tried, t.now);
      match pin {
        case PinLive(u) => return Some(u);
        case PinExpired =>
          Interleave(t.beforeEvict);
          EvictExpiredPin(host, t.now);
          return None;
        case _ => return None;
      }
    }

    method Pick(host: Host, tried: set<Id>, t: PickTurn) returns (r: PickResult)
      requires Valid()
      modifies this
      ensures Valid() && PickOutcome(r, State()) == PickRun(old(State()), host, tried, t)
    {
      var active := CheckCascadeActive(host, t.now);
      if active {
        return CascadeCooling;
      }
      Interleave(t.beforePin);
      var up := PickForced(host, tried, t);
      if up.Some? {
        return Picked(up.value);
      }
      Interleave(t.beforeScan);
      r := ScanCandidates(host, tried, t.now, t.coin);
    }

    method RecordFailure(host: Host, id: Id, kind: Kind, override: Option<Duration>, t: FailTurn)
      returns (fired: bool, own: seq<Step>)
      requires Valid()
      modifies this
      ensures Valid() && FailOutcome(State(), own, fired) == FailRun(old(State()), host, id, kind, override, t)
    {
      own := [];
      if !kind.Valid() {
        return false, own;
      }
      var snapshot := cfg;
      Interleave(t.beforeStamp);
      own := [Stamp(Key(host, id, kind), t.now, snapshot.debounceWindow)];
      var accepted := AcceptForDebounce(Key(host, id, kind), t.now, snapshot.debounceWindow);
      if !accepted {
        return false, own;
      }
      Interleave(t.beforePenalty);
      ApplyPenalty(host, id, t.now, snapshot.PolicyFor(kind), snapshot.scoreCap, override);
      own := own + [Penalize(host, id, t.now, snapshot.PolicyFor(kind), snapshot.scoreCap, override)];
      return true, own;
    }

    /** The scoring of one failed dial, behind the connection-refused gate. */
    method RecordDial(host: Host, id: Id, a: Attempt) returns (own: seq<Step>)
      requires Valid() && a.outcome.Failed?
      modifies this
      ensures Valid()
      ensures var f := RecordDialFailure(old(State()), host, id, a.outcome.err, a);
        State() == f.board && own == f.own
    {
      own := [];
      var kind := ClassifyDialError(a.outcome.err);
      if kind != Refused || !a.outcome.err.refused || cfg.connectionRefused {
        Interleave(a.beforeRecord);
        var fired;
        fired, own := RecordFailure(host, id, kind, None, a.fail);
      }
    }

    /** One iteration of the retry loop. */
    method TryOnce(host: Host, tried: set<Id>, a: Attempt) returns (progress: Progress)
      requires Valid()
      modifies this
      ensures Valid() && AttemptOutcome(progress, State()) == AttemptRun(old(State()), host, tried, a)
    {
      Interleave(a.before);
      if a.doneBefore {
        return Stop(Cancelled, [], []);
      }
      var picked := Pick(host, tried, a.pick);
      if picked.CascadeCooling? {
        return Stop(Cascaded, [], []);
      }
      if picked.PoolExhausted? {
        return NoneLeft;
      }
      var id := picked.up.id;
      Interleave(a.during);
      if a.outcome.Connected? {
        RecordSuccess(host, id, a.end);
        return Stop(Won(id), [id], [Succeed(host, id, a.end)]);
      }
      if a.doneAfter {
        return Stop(Cancelled, [id], []);
      }
      var own := RecordDial(host, id, a);
      return Failover(id, own);
    }

    /** The retry loop, up to but without the final cascade trip. */
    method DialLoop(host: Host, script: DialScript, limit: nat)
      returns (stopped: Option<DialResult>, dials: seq<Id>, own: seq<Step>)
      requires Valid()
      modifies this
      ensures Valid()
      ensures Attempts(old(State()), host, script, limit, 0, {}, [], []) ==
        if stopped.Some? then DialTrace(stopped.value, dials, own, State())
        else Exhaust(State(), host, script, dials, own)
    {
      dials, own := [], [];
      var tried: set<Id> := {};
      for i := 0 to limit
        invariant Valid()
        invariant Attempts(State(), host, script, limit, i, tried, dials, own)
          == Attempts(old(State()), host, script, limit, 0, {}, [], [])
      {
        var progress := TryOnce(host, tried, script.attempts(i));
        if progress.Stop? {
          return Some(progress.result), dials + progress.dialled, own + progress.own;
        }
        if progress.NoneLeft? {
          return None, dials, own;
        }
        dials := dials + [progress.id];
        own := own + progress.own;
        tried := tried + {progress.id};
      }
      return None, dials, own;
    }

    /** `DialFor`. */
    method DialForHost(host: Host, script: DialScript)
      returns (result: DialResult, dials: seq<Id>, own: seq<Step>)
      requires Valid()
      modifies this
      ensures Valid() && DialTrace(result, dials, own, State()) == Requests.DialFor(old(State()), host, script)
    {
      var active := CheckCascadeActive(host, script.now);
      if active {
        return Cascaded, [], [];
      }
      Interleave(script.beforeSnapshot);
      var limit := poolRetryCap;
      if limit > poolLen {
        limit := poolLen;
      }
      if limit < 0 {
        limit := 0;
      }
      var stopped;
      stopped, dials, own := DialLoop(host, script, limit);
      if stopped.Some? {
        return stopped.value, dials, own;
      }
      Interleave(script.beforeTrip);
      own := own + [Trip(host, script.trip)];
      TripCascade(host, script.trip);
      return Exhausted, dials, own;
    }
  }
}
